/**
 * The two halves of a stream (sections 2, 3 and 19.8 of RFC 9000). Each half is a class
 * whose methods are specified by functions on its value; the lemmas about runs use the
 * functions.
 */
module Streams {
  import opened Common
  import opened Reassembly

  // --------------------------------------------------------------------- sending

  /** A range of stream bytes, with the end-of-stream mark if it reaches the end. */
  datatype Segment = Segment(offset: nat, data: seq<byte>, fin: bool) {
    function End(): (e: nat) { offset + |data| }
  }

  datatype SendState = SendState(
    buf: seq<byte>, base: nat, fin: bool, finSent: bool,
    resend: seq<Segment>, resetCode: Option<nat>)
  {
    predicate HasPending() {
      resetCode.None? && (resend != [] || buf != [] || (fin && !finSent))
    }

    function Write(data: seq<byte>, last: bool): (r: SendState) {
      this.(buf := buf + data, fin := fin || last)
    }

    function Requeue(seg: Segment): (r: SendState) {
      this.(resend := resend + [seg])
    }

    /** The next STREAM frame body of at most `max` bytes, and the state that remains. */
    function Take(max: nat): (r: (SendState, Option<Segment>)) {
      if resetCode.Some? then (this, None)
      else if resend != [] then
        var front := resend[0];
        if max == 0 then (this, None)
        else if |front.data| <= max then (this.(resend := resend[1..]), Some(front))
        else
          var tail := Segment(front.offset + max, front.data[max..], front.fin);
          (this.(resend := resend[0 := tail]), Some(Segment(front.offset, front.data[..max], false)))
      else if buf == [] then
        if fin && !finSent then (this.(finSent := true), Some(Segment(base, [], true)))
        else (this, None)
      else if max == 0 then (this, None)
      else
        var n := Min(max, |buf|);
        var last := fin && n == |buf|;
        (this.(buf := buf[n..], base := base + n, finSent := finSent || last),
         Some(Segment(base, buf[..n], last)))
    }
  }

  const NEW_SEND: SendState := SendState([], 0, false, false, [], None)

  /** `seg` is a part of the written stream `w`; only the true end carries the FIN. */
  predicate Genuine(seg: Segment, w: seq<byte>, ended: bool) {
    && SliceAt(w, seg.offset, seg.data)
    && (seg.fin ==> ended && seg.End() == |w|)
  }

  /** What a sender knows about the bytes `w` its application has written. */
  ghost predicate Faithful(s: SendState, w: seq<byte>) {
    && s.resetCode.None?
    && s.base + |s.buf| == |w| && s.buf == w[s.base..]
    && (s.finSent ==> s.fin && s.buf == [])
    && (forall i :: 0 <= i < |s.resend| ==> Genuine(s.resend[i], w, s.finSent) && s.resend[i].End() <= s.base)
  }

  /** Until the end is sent anything may be written, also after the end was asked for. */
  lemma WriteFaithful(s: SendState, w: seq<byte>, data: seq<byte>, fin: bool)
    requires Faithful(s, w)
    ensures Faithful(s.Write(data, fin), w + data) <==> !s.finSent || data == []
  {
    assert data == [] ==> w + data == w && s.buf + data == s.buf;
    forall i | 0 <= i < |s.resend|
      ensures !s.finSent || data == [] ==> Genuine(s.resend[i], w + data, s.finSent)
    {
      var seg := s.resend[i];
      assert (w + data)[seg.offset..seg.End()] == w[seg.offset..seg.End()];
    }
  }

  /** A segment handed out is genuine, already counted in `base`, and not empty without FIN. */
  lemma TakeFaithful(s: SendState, w: seq<byte>, max: nat)
    requires Faithful(s, w)
    ensures var (s', out) := s.Take(max);
            && Faithful(s', w)
            && s.base <= s'.base && (s.finSent ==> s'.finSent) && s'.fin == s.fin
            && (out.Some? ==> Genuine(out.value, w, s'.finSent) && out.value.End() <= s'.base)
  {
    if s.resend != [] {
      TakeResendFaithful(s, w, max);
    }
  }

  lemma TakeResendFaithful(s: SendState, w: seq<byte>, max: nat)
    requires Faithful(s, w) && s.resend != []
    ensures var (s', out) := s.Take(max);
            && Faithful(s', w) && s' == s.(resend := s'.resend)
            && (out.Some? ==> Genuine(out.value, w, s.finSent) && out.value.End() <= s.base)
  {
    var front := s.resend[0];
    assert Genuine(front, w, s.finSent) && front.End() <= s.base;
    if 0 < max < |front.data| {
      SplitGenuine(front, w, s.finSent, max);
    }
  }

  lemma SplitGenuine(seg: Segment, w: seq<byte>, ended: bool, n: nat)
    requires Genuine(seg, w, ended) && n <= |seg.data|
    ensures Genuine(Segment(seg.offset, seg.data[..n], false), w, ended)
    ensures Genuine(Segment(seg.offset + n, seg.data[n..], seg.fin), w, ended)
  {
    assert seg.data[..n] == w[seg.offset..seg.offset + n];
    assert seg.data[n..] == w[seg.offset + n..seg.End()];
  }

  /** Nothing is dropped: taking then putting back restores what is owed, in order. */
  lemma TakeConserves(s: SendState, max: nat)
    ensures var (s', out) := s.Take(max);
            match out
            case None => s' == s
            case Some(seg) =>
              if s.resend != [] then
                && s' == s.(resend := s'.resend)
                && ((s.resend == [seg] + s'.resend)
                    || (s'.resend != [] && s'.resend[1..] == s.resend[1..] && !seg.fin
                        && seg.End() == s'.resend[0].offset
                        && s.resend[0] == Segment(seg.offset, seg.data + s'.resend[0].data, s'.resend[0].fin)))
              else
                && seg.offset == s.base && s'.base == seg.End() && s.buf == seg.data + s'.buf
                && s'.resend == [] && (seg.fin ==> s.fin && s'.buf == [] && s'.finSent)
                && (seg.data == [] ==> seg.fin)
  {
    if s.resend != [] && max > 0 && |s.resend[0].data| <= max {
      assert s.resend == [s.resend[0]] + s.resend[1..];
    }
  }

  /** A stream with something pending always yields a frame when given room for a byte. */
  lemma TakeProgress(s: SendState, max: nat)
    requires max > 0
    ensures s.Take(max).1.Some? <==> s.HasPending()
  {
  }

  /**
   * A frame is as large as it can be. A queued segment goes out whole exactly when it fits,
   * and fills the room otherwise. Fresh data fills the room or is used up, and the end goes
   * out with its last byte. Without room only an end that has no data left can go.
   */
  lemma TakeMaximal(s: SendState, max: nat)
    ensures var (s', out) := s.Take(max);
            && (max == 0 ==> (out.Some? <==> s.HasPending() && s.resend == [] && s.buf == []))
            && (out.Some? ==>
                  var seg := out.value;
                  && |seg.data| <= max
                  && (if s.resend != [] then
                        && (|s.resend[0].data| <= max <==> s.resend == [seg] + s'.resend)
                        && (|s.resend[0].data| > max ==> |seg.data| == max)
                      else
                        && (|seg.data| == max || s'.buf == [])
                        && (seg.fin <==> s.fin && s'.buf == [])))
  {
    if s.resend != [] {
      assert s.resend == [s.resend[0]] + s.resend[1..];
    }
  }

  /** The data of the segments, one after the other. */
  function Joined(segs: seq<Segment>): (data: seq<byte>) {
    if segs == [] then [] else segs[0].data + Joined(segs[1..])
  }

  /** All frames of a stream with nothing queued, each with room for `max` bytes. */
  function CutUp(s: SendState, max: nat): (segs: seq<Segment>)
    requires max > 0 && s.resend == []
    decreases |s.buf|, s.fin && !s.finSent
  {
    if !s.HasPending() then [] else var (s', out) := s.Take(max); [out.value] + CutUp(s', max)
  }

  /**
   * The frames of a stream carry what was written, in order and without gaps, all but the
   * last of them full, and the last one, and no other, carries the end if there is one.
   */
  lemma {:induction false} CutUpExact(s: SendState, max: nat)
    requires max > 0 && s.resend == [] && s.resetCode.None? && (s.finSent ==> s.buf == [])
    ensures var segs := CutUp(s, max);
            && Joined(segs) == s.buf
            && (forall i :: 0 <= i < |segs| ==> segs[i].offset == s.base + i * max)
            && (forall i :: 0 <= i < |segs| - 1 ==> |segs[i].data| == max && !segs[i].fin)
            && (segs != [] ==> |segs[|segs| - 1].data| <= max && segs[|segs| - 1].fin == s.fin)
            && (s.buf != [] && segs != [] ==> segs[|segs| - 1].data != [])
    decreases |s.buf|, s.fin && !s.finSent
  {
    if s.HasPending() {
      var (s', out) := s.Take(max);
      TakeMaximal(s, max);
      TakeConserves(s, max);
      CutUpExact(s', max);
      CutUpStep(s, max, s', out.value);
    }
  }

  lemma CutUpStep(s: SendState, max: nat, s': SendState, seg: Segment)
    requires max > 0 && s.resend == [] && s'.resend == [] && s.HasPending() && s.Take(max) == (s', Some(seg))
    ensures CutUp(s, max) == [seg] + CutUp(s', max)
    ensures Joined(CutUp(s, max)) == seg.data + Joined(CutUp(s', max))
  {
    assert ([seg] + CutUp(s', max))[1..] == CutUp(s', max);
  }

  class SendStream {
    var buf: seq<byte>
    var base: nat
    var fin: bool
    var finSent: bool
    var resend: seq<Segment>
    var resetCode: Option<nat>

    function Value(): (s: SendState)
      reads this
    {
      SendState(buf, base, fin, finSent, resend, resetCode)
    }

    constructor ()
      ensures Value() == NEW_SEND
    {
      buf, base, fin, finSent, resend, resetCode := [], 0, false, false, [], None;
    }

    method Write(data: seq<byte>, last: bool)
      modifies this
      ensures Value() == old(Value()).Write(data, last)
    {
      buf := buf + data;
      if last {
        fin := true;
      }
    }

    method Requeue(offset: nat, data: seq<byte>, fin: bool)
      modifies this
      ensures Value() == old(Value()).Requeue(Segment(offset, data, fin))
    {
      resend := resend + [Segment(offset, data, fin)];
    }

    method Reset(code: nat)
      modifies this
      ensures Value() == old(Value()).(resetCode := Some(code), buf := [], resend := [])
      ensures !Value().HasPending()
    {
      resetCode := Some(code);
      buf := [];
      resend := [];
    }

    method Take(max: nat) returns (out: Option<Segment>)
      modifies this
      ensures (Value(), out) == old(Value()).Take(max)
    {
      if resetCode.Some? {
        return None;
      }
      if |resend| > 0 {
        if max == 0 {
          return None;
        }
        var front := resend[0];
        if |front.data| <= max {
          resend := resend[1..];
          return Some(front);
        }
        var chunk := front.data[..max];
        resend := resend[0 := Segment(front.offset + max, front.data[max..], front.fin)];
        return Some(Segment(front.offset, chunk, false));
      }
      if |buf| == 0 {
        if fin && !finSent {
          finSent := true;
          return Some(Segment(base, [], true));
        }
        return None;
      }
      var take := Min(max, |buf|);
      if take == 0 {
        return None;
      }
      var chunk := buf[..take];
      var offset := base;
      buf := buf[take..];
      base := base + take;
      var last := fin && |buf| == 0;
      if last {
        finSent := true;
      }
      out := Some(Segment(offset, chunk, last));
    }
  }

  // ------------------------------------------------------------------- receiving

  datatype StreamError = FinalSize | Reset(code: nat)

  datatype Outcome<+T> = Ok(value: T) | Err(error: StreamError)

  datatype RecvState = RecvState(
    buffer: Buffer, finalSize: Option<nat>, finDelivered: bool, resetCode: Option<nat>)
  {
    /** A frame contradicts a known final size (section 4.5 of RFC 9000). */
    predicate SizeViolation(end: nat, fin: bool) {
      finalSize.Some? && (end > finalSize.value || (fin && end != finalSize.value))
    }

    /** Takes in one STREAM frame; the flag says whether the application can now progress. */
    function Recv(offset: nat, data: seq<byte>, fin: bool): (r: (RecvState, Outcome<bool>)) {
      var end := offset + |data|;
      if SizeViolation(end, fin) then (this, Err(FinalSize))
      else
        var size := if fin then Some(end) else finalSize;
        var b := Accept(buffer, offset, data);
        var delivered := finDelivered || (size.Some? && b.offset >= size.value);
        (RecvState(b, size, delivered, resetCode),
         Ok(|b.ready| > |buffer.ready| || (delivered && !finDelivered)))
    }

    /** Hands over all contiguous bytes, and whether they end the stream. */
    function Read(): (r: (RecvState, seq<byte>, bool)) {
      (this.(buffer := buffer.(ready := [])), buffer.ready, finDelivered && buffer.pending == map[])
    }
  }

  const NEW_RECV: RecvState := RecvState(EMPTY, None, false, None)

  class RecvStream {
    var readOffset: nat
    var pending: Pending
    var ready: seq<byte>
    var finalSize: Option<nat>
    var finDelivered: bool
    var resetCode: Option<nat>

    function Value(): (s: RecvState)
      reads this
    {
      RecvState(Buffer(readOffset, pending, ready), finalSize, finDelivered, resetCode)
    }

    constructor ()
      ensures Value() == NEW_RECV
    {
      readOffset, pending, ready, finalSize, finDelivered, resetCode := 0, map[], [], None, false, None;
    }

    method ApplyReset(code: nat)
      modifies this
      ensures Value() == old(Value()).(resetCode := Some(code), buffer := Buffer(old(readOffset), map[], []))
    {
      resetCode := Some(code);
      ready := [];
      pending := map[];
    }

    method Recv(offset: nat, data: seq<byte>, fin: bool) returns (r: Outcome<bool>)
      modifies this
      ensures (Value(), r) == old(Value()).Recv(offset, data, fin)
    {
      var end := offset + |data|;
      if finalSize.Some? {
        if end > finalSize.value {
          return Err(FinalSize);
        }
        if fin && end != finalSize.value {
          return Err(FinalSize);
        }
      }
      if fin {
        finalSize := Some(end);
      }
      var before := |ready|;
      var finBefore := finDelivered;
      Absorb(offset, data);
      if finalSize.Some? && readOffset >= finalSize.value {
        finDelivered := true;
      }
      r := Ok(|ready| > before || (finDelivered && !finBefore));
    }

    /** The buffering part of `Recv`: trim, insert, flush. */
    method Absorb(offset: nat, data: seq<byte>)
      modifies `readOffset, `pending, `ready
      ensures Buffer(readOffset, pending, ready) == Accept(old(Buffer(readOffset, pending, ready)), offset, data)
    {
      hide Flush;
      if offset + |data| > readOffset {
        var at, tail := offset, data;
        if offset < readOffset {
          at, tail := readOffset, data[readOffset - offset..];
        }
        if |tail| > 0 {
          pending := pending[at := tail];
        }
        FlushContiguous();
      }
    }

    method FlushContiguous()
      modifies `readOffset, `pending, `ready
      ensures Buffer(readOffset, pending, ready) == Flush(old(Buffer(readOffset, pending, ready)))
    {
      hide Flush, Popped;
      var start := FloorKey(pending, readOffset);
      FlushUnfold(Buffer(readOffset, pending, ready));
      while start.Some?
        invariant start == FloorKey(pending, readOffset)
        invariant var b := Buffer(readOffset, pending, ready);
                  && Flush(b) == Flush(old(Buffer(readOffset, pending, ready)))
                  && Flush(b) == if start.None? then b else Flush(Popped(b, start.value))
        decreases |pending|
      {
        PopSegment(start.value);
        start := FloorKey(pending, readOffset);
        FlushUnfold(Buffer(readOffset, pending, ready));
      }
    }

    /** One turn of the flush loop. */
    method PopSegment(start: nat)
      requires start in pending && start <= readOffset
      modifies `readOffset, `pending, `ready
      ensures Buffer(readOffset, pending, ready) == Popped(old(Buffer(readOffset, pending, ready)), start)
    {
      var segment := pending[start];
      var segEnd := start + |segment|;
      pending := pending - {start};
      if segEnd > readOffset {
        ready := ready + segment[readOffset - start..];
        readOffset := segEnd;
      }
    }

    method Read() returns (bytes: seq<byte>, fin: bool)
      modifies this
      ensures (Value(), bytes, fin) == old(Value()).Read()
    {
      bytes := ready;
      ready := [];
      fin := finDelivered && pending == map[];
    }

    method ReadChecked() returns (r: Outcome<(seq<byte>, bool)>)
      modifies this
      ensures match old(resetCode)
              case Some(code) => r == Err(Reset(code)) && Value() == old(Value())
              case None => var (s, bytes, fin) := old(Value()).Read(); r == Ok((bytes, fin)) && Value() == s
    {
      if resetCode.Some? {
        return Err(Reset(resetCode.value));
      }
      var bytes, fin := Read();
      r := Ok((bytes, fin));
    }
  }

  /** A receiver whose contents all come from the stream `w`, `taken` of it already read. */
  ghost predicate Consistent(s: RecvState, w: seq<byte>, taken: nat, ended: bool) {
    && s.resetCode.None?
    && Settled(s.buffer) && Matches(s.buffer, w, taken)
    && (s.finalSize.Some? ==> ended && s.finalSize.value == |w|)
    && (s.finDelivered <==> s.finalSize.Some? && s.buffer.offset == |w|)
  }

  /** A genuine segment is never refused, and keeps the receiver consistent. */
  lemma RecvConsistent(s: RecvState, w: seq<byte>, taken: nat, ended: bool, seg: Segment)
    requires Consistent(s, w, taken, ended) && Genuine(seg, w, ended)
    ensures var (s', r) := s.Recv(seg.offset, seg.data, seg.fin);
            r.Ok? && Consistent(s', w, taken, ended)
  {
    AcceptMatches(s.buffer, w, taken, seg.offset, seg.data);
    AcceptSettled(s.buffer, seg.offset, seg.data);
    AcceptMonotone(s.buffer, seg.offset, seg.data);
  }

  /** The end counts as delivered exactly when it is known and nothing before it is missing. */
  predicate EndTold(s: RecvState) {
    s.finDelivered <==> s.finalSize.Some? && s.buffer.offset >= s.finalSize.value
  }

  /**
   * Any frame at all: it is refused, and changes nothing, exactly when it contradicts a known
   * size. An accepted one with a FIN sets the size, and wakes the application exactly when
   * there is more to read or the end was reached just now.
   */
  lemma RecvExact(s: RecvState, offset: nat, data: seq<byte>, fin: bool)
    requires EndTold(s)
    ensures var (s', r) := s.Recv(offset, data, fin);
            var end := offset + |data|;
            && EndTold(s') && s'.resetCode == s.resetCode
            && (r.Err? <==> s.finalSize.Some? && (end > s.finalSize.value || (fin && end < s.finalSize.value)))
            && (r.Err? ==> s' == s && r.error == FinalSize)
            && (r.Ok? ==>
                  && s'.finalSize == (if fin then Some(end) else s.finalSize)
                  && (r.value <==> |s'.Read().1| > |s.Read().1| || (s'.finDelivered && !s.finDelivered)))
  {
    AcceptMonotone(s.buffer, offset, data);
    hide Accept;
  }

  lemma AcceptMonotone(b: Buffer, offset: nat, data: seq<byte>)
    ensures b.offset <= Accept(b, offset, data).offset
  {
    hide Flush;
    if offset + |data| > b.offset {
      var skip := SatSub(b.offset, offset);
      FlushShape(b.(pending := if data[skip..] != [] then b.pending[offset + skip := data[skip..]] else b.pending));
    }
  }

  /** The frame that carries the first bytes never sent, once the queue is empty. */
  function NextFresh(s: SendState, max: nat): (out: Option<Segment>) { s.(resend := []).Take(max).1 }

  predicate Accepts(r: RecvState, out: Option<Segment>) {
    out.Some? ==> r.Recv(out.value.offset, out.value.data, out.value.fin).1.Ok?
  }

  /** No receiver that got only what was sent so far refuses the next fresh frame. */
  ghost predicate Acceptable(s: SendState, w: seq<byte>, ended: bool) {
    forall r: RecvState, taken: nat, max: nat :: Consistent(r, w, taken, ended) ==> Accepts(r, NextFresh(s, max))
  }

  /**
   * `Write` does not stop the application from writing after the end. Up to the moment the
   * end is sent that is harmless. After it, the bytes start where the stream was said to
   * end, and every receiver that learned the end refuses them; so the write is safe if and
   * only if the end was not sent or there is nothing to write.
   */
  lemma WriteAfterEndExact(s: SendState, w: seq<byte>, data: seq<byte>, fin: bool)
    requires Faithful(s, w)
    ensures Acceptable(s.Write(data, fin), w, s.finSent) <==> !s.finSent || data == []
    ensures s.finSent && data != [] ==>
              forall r: RecvState, max: nat :: max > 0 && r.finalSize == Some(|w|) ==>
                var out := NextFresh(s.Write(data, fin), max);
                && out.Some? && out.value.offset == |w|
                && r.Recv(out.value.offset, out.value.data, out.value.fin) == (r, Err(FinalSize))
  {
    var s' := s.Write(data, fin);
    if s.finSent && data != [] {
      assert s'.buf == data;
      var r := RecvState(Buffer(|w|, map[], w), Some(|w|), true, None);
      assert w[0..|w|] == w && Consistent(r, w, 0, true);
      assert !Accepts(r, NextFresh(s', 1));
    } else if s.finSent {
      assert s'.buf == [] && forall max: nat :: NextFresh(s', max).None?;
    }
  }

  /**
   * A read hands over all that is ready and leaves none of it. It reports the end exactly
   * when the end was delivered and no byte, which could only lie past it, is buffered.
   */
  lemma ReadExact(s: RecvState)
    requires Settled(s.buffer)
    ensures var (s', bytes, fin) := s.Read();
            && bytes == s.buffer.ready && s' == s.(buffer := s.buffer.(ready := []))
            && s'.Read() == (s', [], fin)
            && (fin <==> s.finDelivered && forall x: nat :: !Buffered(s.buffer.pending, x))
  {
    if s.buffer.pending != map[] {
      var at: nat :| at in s.buffer.pending;
      assert InSegment(s.buffer.pending, at, at) && Buffered(s.buffer.pending, at);
    }
  }

  /** At an input: a byte written after the end was sent goes out, and is refused. */
  lemma ByteAfterEnd()
    ensures var (s, first) := NEW_SEND.Write([7], true).Take(1);
            var late := s.Write([8], false).Take(1).1;
            var r := NEW_RECV.Recv(0, [7], true).0;
            && first == Some(Segment(0, [7], true)) && late == Some(Segment(1, [8], true))
            && r.Recv(1, [8], true) == (r, Err(FinalSize))
  {
    var start := NEW_SEND.Write([7], true);
    assert start.buf == [7] && start.buf[1..] == [] && start.buf[..1] == [7];
    var s := start.Take(1).0;
    var more := s.Write([8], false);
    assert more.buf == [8] && more.buf[..1] == [8];
  }

  /** Reading returns the next bytes of `w`; a reported FIN means all of `w` was read. */
  lemma ReadConsistent(s: RecvState, w: seq<byte>, taken: nat, ended: bool)
    requires Consistent(s, w, taken, ended)
    ensures var (s', bytes, fin) := s.Read();
            && Consistent(s', w, taken + |bytes|, ended)
            && w[..taken] + bytes == w[..taken + |bytes|]
            && (fin ==> ended && taken + |bytes| == |w|)
  {
  }

  // ------------------------------------------------------------------- final size

  /** No byte at or past a known end is held (section 4.5 of RFC 9000). */
  ghost predicate WithinSize(s: RecvState) {
    s.finalSize.Some? ==> forall x: nat :: Covers(s.buffer, x) ==> x < s.finalSize.value
  }

  /** Byte `x`, at or past the announced end, stays buffered in the segment at `at`. */
  predicate Straggler(b: Buffer, offset: nat, data: seq<byte>, at: nat, x: nat) {
    x >= offset + |data| && InSegment(b.pending, at, x) && (data == [] || at != offset)
  }

  /** Once the end is known, an accepted frame never brings a byte past it. */
  lemma SizeKept(s: RecvState, offset: nat, data: seq<byte>, fin: bool)
    requires Settled(s.buffer) && WithinSize(s) && s.finalSize.Some? && s.Recv(offset, data, fin).1.Ok?
    ensures WithinSize(s.Recv(offset, data, fin).0)
  {
    forall x: nat | Covers(Accept(s.buffer, offset, data), x)
      ensures x < s.finalSize.value
    {
      if data == [] {
        EmptyAccept(s.buffer, offset);
      } else {
        AcceptCovers(s.buffer, offset, data, x);
        if Spared(s.buffer, offset, x) {
          var at: nat :| at != offset && InSegment(s.buffer.pending, at, x);
          assert Covers(s.buffer, x);
        }
      }
    }
  }

  /**
   * The first frame with a FIN is accepted whatever was received before. It leaves the
   * receiver within the announced size exactly when nothing past it was delivered or
   * stays buffered.
   */
  lemma FirstFinExact(s: RecvState, offset: nat, data: seq<byte>)
    requires Settled(s.buffer) && s.finalSize.None?
    ensures var (s', r) := s.Recv(offset, data, true);
            && r.Ok?
            && (WithinSize(s') <==>
                  && s.buffer.offset <= offset + |data|
                  && forall at: nat, x: nat :: !Straggler(s.buffer, offset, data, at, x))
  {
    var b, end := s.buffer, offset + |data|;
    var b' := Accept(b, offset, data);
    var s' := s.Recv(offset, data, true).0;
    if data == [] {
      EmptyAccept(b, offset);
    }
    if b.offset > end {
      AcceptMonotone(b, offset, data);
      assert Covers(b', end);
    }
    forall at: nat, x: nat | Straggler(b, offset, data, at, x)
      ensures Covers(b', x)
    {
      assert Buffered(b.pending, x);
      if data != [] {
        AcceptCovers(b, offset, data, x);
        assert Spared(b, offset, x);
      }
    }
    if b.offset <= end && forall at: nat, x: nat :: !Straggler(b, offset, data, at, x) {
      forall x: nat | Covers(b', x)
        ensures x < end
      {
        NoStraggler(b, offset, data, x);
      }
    }
  }

  /** The boundary, at an input: byte 5 is buffered, and an end at 0 is accepted and reported. */
  lemma EndBelowBuffered()
    ensures var s1 := NEW_RECV.Recv(5, [9], false).0;
            var (s2, r) := s1.Recv(0, [], true);
            r == Ok(true) && s2.finalSize == Some(0) && s2.finDelivered && Covers(s2.buffer, 5) && !WithinSize(s2)
  {
    var s1 := NEW_RECV.Recv(5, [9], false).0;
    var held := EMPTY.(pending := map[5 := [9]]);
    assert FloorKey(held.pending, 0).None?;
    assert s1.buffer == held;
    EmptyAccept(held, 0);
    assert InSegment(held.pending, 5, 5);
    assert Covers(held, 5);
  }

  lemma NoStraggler(b: Buffer, offset: nat, data: seq<byte>, x: nat)
    requires Settled(b) && b.offset <= offset + |data| && Covers(Accept(b, offset, data), x)
    requires forall at: nat :: !Straggler(b, offset, data, at, x)
    ensures x < offset + |data|
  {
    if data == [] {
      EmptyAccept(b, offset);
      if x >= offset {
        var at: nat :| InSegment(b.pending, at, x);
        assert Straggler(b, offset, data, at, x);
      }
    } else {
      AcceptCovers(b, offset, data, x);
      if x >= offset + |data| && Spared(b, offset, x) {
        var at: nat :| at != offset && InSegment(b.pending, at, x);
        assert Straggler(b, offset, data, at, x);
      }
    }
  }
}
