/**
 * One stream, followed from the sender's application to the receiver's. A track gathers
 * the two stream halves with the segments that were sent, and how sending, receiving,
 * losing and re-queueing change it. `Intact` is the invariant all of them keep.
 */
module Track {
  import opened Common
  import opened Reassembly
  import opened Streams
  import opened Coverage

  /**
   * `written` and `read` are what the applications wrote and read. `history` holds every
   * segment ever put into a packet, `open` those in packets neither settled nor received,
   * `kept` those in packets that are outstanding or acknowledged.
   */
  datatype Stream = Stream(
    written: seq<byte>, sender: SendState, history: set<Segment>, open: set<Segment>, kept: set<Segment>,
    receiver: RecvState, read: seq<byte>)

  ghost function SpanSet(segs: set<Segment>): (r: set<Span>) {
    set s | s in segs :: (s.offset, s.End())
  }

  ghost function SpansOf(segs: seq<Segment>): (r: set<Span>) {
    set i | 0 <= i < |segs| :: (segs[i].offset, segs[i].End())
  }

  ghost function Cuts(history: set<Segment>): (r: set<nat>) {
    {0} + set s | s in history :: s.End()
  }

  ghost function PendEnds(pending: Pending): (r: map<nat, nat>) {
    map s | s in pending :: s + |pending[s]|
  }

  /** The receiver's side: what it holds and what can still reach it. */
  ghost function Delivery(t: Stream): (v: View) {
    View(t.sender.base, t.receiver.buffer.offset, PendEnds(t.receiver.buffer.pending),
         SpansOf(t.sender.resend) + SpanSet(t.open), Cuts(t.history))
  }

  /** The sender's side: what it still remembers of the bytes it sent. */
  ghost function Record(t: Stream): (v: View) {
    View(t.sender.base, 0, map[], SpansOf(t.sender.resend) + SpanSet(t.kept), Cuts(t.history))
  }

  ghost predicate FinQueued(segs: seq<Segment>) {
    exists i :: 0 <= i < |segs| && segs[i].fin
  }

  ghost predicate FinIn(segs: set<Segment>) {
    exists s :: s in segs && s.fin
  }

  ghost predicate FinAccounted(t: Stream) {
    t.sender.finSent ==>
      && (t.receiver.finalSize.Some? || FinQueued(t.sender.resend) || FinIn(t.open))
      && (FinQueued(t.sender.resend) || FinIn(t.kept))
  }

  ghost predicate Authentic(t: Stream) {
    && Faithful(t.sender, t.written)
    && t.open <= t.history && t.kept <= t.history
    && (forall s :: s in t.history ==> Genuine(s, t.written, t.sender.finSent) && s.End() <= t.sender.base)
    && (forall i :: 0 <= i < |t.sender.resend| ==> t.sender.resend[i].End() in Cuts(t.history))
    && Consistent(t.receiver, t.written, |t.read|, t.sender.finSent)
    && Matches(t.receiver.buffer, t.written[..t.sender.base], |t.read|)
    && t.read == t.written[..|t.read|]
  }

  ghost predicate Intact(t: Stream) {
    Authentic(t) && Sound(Delivery(t)) && Sound(Record(t)) && FinAccounted(t)
  }

  // --------------------------------------------------------------------- sending

  function DoWrite(t: Stream, data: seq<byte>, fin: bool): (r: Stream) {
    t.(written := t.written + data, sender := t.sender.Write(data, fin))
  }

  lemma WriteIntact(t: Stream, data: seq<byte>, fin: bool)
    requires Intact(t) && (t.sender.finSent ==> data == [])
    ensures Intact(DoWrite(t, data, fin))
  {
    var t' := DoWrite(t, data, fin);
    if t.sender.finSent {
      assert t.written + [] == t.written && t.sender.buf + [] == t.sender.buf;
      assert t' == t;
    } else {
      WriteFaithful(t.sender, t.written, data, fin);
      forall s | s in t.history
        ensures Genuine(s, t'.written, t'.sender.finSent)
      {
        assert t'.written[s.offset..s.End()] == t.written[s.offset..s.End()];
      }
      WriteConsistent(t.receiver, t.written, data, |t.read|);
      assert t'.read == t'.written[..|t.read|];
      assert t'.written[..t.sender.base] == t.written[..t.sender.base];
      assert Delivery(t') == Delivery(t) && Record(t') == Record(t);
    }
  }

  lemma WriteConsistent(r: RecvState, w: seq<byte>, data: seq<byte>, taken: nat)
    requires Consistent(r, w, taken, false)
    ensures Consistent(r, w + data, taken, false)
  {
    var b := r.buffer;
    assert (w + data)[taken..b.offset] == w[taken..b.offset];
    forall s: nat | s in b.pending
      ensures SliceAt(w + data, s, b.pending[s])
    {
      assert (w + data)[s..s + |b.pending[s]|] == w[s..s + |b.pending[s]|];
    }
  }

  /** The sender takes a segment and it is recorded in a packet. */
  function DoTake(t: Stream, max: nat): (r: Stream) {
    var (s', out) := t.sender.Take(max);
    match out
    case None => t
    case Some(seg) => t.(sender := s', history := t.history + {seg}, open := t.open + {seg}, kept := t.kept + {seg})
  }

  lemma TakeIntact(t: Stream, max: nat)
    requires Intact(t)
    ensures Intact(DoTake(t, max))
  {
    TakeAuthentic(t, max);
    TakeSound(t, max);
    TakeFin(t, max);
  }

  lemma CutsGrow(history: set<Segment>, seg: Segment)
    ensures Cuts(history + {seg}) == Cuts(history) + {seg.End()}
  {
  }

  lemma TakeAuthentic(t: Stream, max: nat)
    requires Intact(t)
    ensures Authentic(DoTake(t, max))
  {
    TakeFaithful(t.sender, t.written, max);
    TakeConserves(t.sender, max);
    var (s', out) := t.sender.Take(max);
    MatchesMore(t.receiver.buffer, t.written, |t.read|, t.sender.base, s'.base);
    if out.Some? {
      CutsGrow(t.history, out.value);
      forall i | 0 <= i < |s'.resend|
        ensures s'.resend[i].End() in Cuts(t.history)
      {
        if t.sender.resend == [out.value] + s'.resend {
          assert s'.resend[i] == t.sender.resend[i + 1];
        } else {
          assert i > 0 ==> s'.resend[i] == s'.resend[1..][i - 1];
          assert s'.resend[i].End() == t.sender.resend[i].End();
        }
      }
    }
  }

  lemma MatchesMore(b: Buffer, w: seq<byte>, taken: nat, n: nat, m: nat)
    requires n <= m <= |w| && Matches(b, w[..n], taken)
    ensures Matches(b, w[..m], taken)
  {
    assert w[..m][taken..b.offset] == w[..n][taken..b.offset];
    forall s: nat | s in b.pending
      ensures SliceAt(w[..m], s, b.pending[s])
    {
      assert SliceAt(w[..n], s, b.pending[s]);
      assert w[..m][s..s + |b.pending[s]|] == w[..n][s..s + |b.pending[s]|];
    }
  }

  lemma TakeSound(t: Stream, max: nat)
    requires Intact(t)
    ensures Sound(Delivery(DoTake(t, max))) && Sound(Record(DoTake(t, max)))
  {
    TakeConserves(t.sender, max);
    var (s', out) := t.sender.Take(max);
    var t' := DoTake(t, max);
    if out.Some? {
      var seg := out.value;
      CutsGrow(t.history, seg);
      TakeSpans(t, max);
      var live, kept := SpansOf(s'.resend) + SpanSet(t'.open), SpansOf(s'.resend) + SpanSet(t'.kept);
      var v, r := Delivery(t), Record(t);
      assert Delivery(t') == View(s'.base, v.off, v.pend, live, v.cuts + {seg.End()});
      assert Record(t') == View(s'.base, 0, map[], kept, v.cuts + {seg.End()});
      hide Sound;
      if t.sender.resend == [] {
        SendFresh(v, |seg.data|, live);
        SendFresh(r, |seg.data|, kept);
      } else if t.sender.resend == [seg] + s'.resend {
        assert t.sender.resend[0] == seg;
        assert v.cuts + {seg.End()} == v.cuts;
        MoreLive(v, live);
        MoreLive(r, kept);
      } else {
        var front := t.sender.resend[0];
        SplitLive(v, front.offset, seg.End(), front.End(), live);
        SplitLive(r, front.offset, seg.End(), front.End(), kept);
      }
    }
  }

  /** Taking a segment moves its bytes from the queue into the packet, and loses none. */
  lemma TakeSpans(t: Stream, max: nat)
    requires Intact(t) && t.sender.Take(max).1.Some?
    ensures var (s', out) := t.sender.Take(max);
            var seg, span := out.value, (out.value.offset, out.value.End());
            && span in SpanSet(t.open + {seg}) && span in SpanSet(t.kept + {seg})
            && SpanSet(t.open) <= SpanSet(t.open + {seg}) && SpanSet(t.kept) <= SpanSet(t.kept + {seg})
            && (t.sender.resend == [] ==> SpansOf(t.sender.resend) == {})
            && (t.sender.resend == [seg] + s'.resend ==> SpansOf(t.sender.resend) <= SpansOf(s'.resend) + {span})
            && (t.sender.resend != [] && t.sender.resend != [seg] + s'.resend ==>
                  var front := t.sender.resend[0];
                  && Keeps(SpansOf(t.sender.resend), SpansOf(s'.resend), (front.offset, front.End()))
                  && (seg.End(), front.End()) in SpansOf(s'.resend) && front.offset == seg.offset
                  && seg.End() <= front.End())
  {
    TakeConserves(t.sender, max);
    var (s', out) := t.sender.Take(max);
    var seg := out.value;
    assert seg in t.open + {seg} && seg in t.kept + {seg};
    var a, b := t.sender.resend, s'.resend;
    hide Intact, SpansOf, SendState.Take;
    if a == [] {
      SpansOfNone();
    } else if a == [seg] + b {
      SpansOfFront(seg, b);
    } else {
      SpansOfSplit(a, b);
    }
  }

  lemma SpansOfNone()
    ensures SpansOf([]) == {}
  {
  }

  lemma SpansOfFront(seg: Segment, b: seq<Segment>)
    ensures SpansOf([seg] + b) <= SpansOf(b) + {(seg.offset, seg.End())}
  {
    var a := [seg] + b;
    forall l | l in SpansOf(a)
      ensures l in SpansOf(b) + {(seg.offset, seg.End())}
    {
      var i :| 0 <= i < |a| && l == (a[i].offset, a[i].End());
      assert i > 0 ==> a[i] == b[i - 1];
    }
  }

  lemma SpansOfSplit(a: seq<Segment>, b: seq<Segment>)
    requires a != [] && b != [] && a[1..] == b[1..]
    ensures Keeps(SpansOf(a), SpansOf(b), (a[0].offset, a[0].End()))
    ensures (b[0].offset, b[0].End()) in SpansOf(b)
  {
    assert |a| == |a[1..]| + 1 && |b| == |b[1..]| + 1;
    forall l | l in SpansOf(a) && l != (a[0].offset, a[0].End())
      ensures l in SpansOf(b)
    {
      var i :| 0 <= i < |a| && l == (a[i].offset, a[i].End());
      assert a[i] == a[1..][i - 1] && b[i] == b[1..][i - 1];
    }
  }

  lemma TakeFin(t: Stream, max: nat)
    requires Intact(t)
    ensures FinAccounted(DoTake(t, max))
  {
    TakeConserves(t.sender, max);
    var (s', out) := t.sender.Take(max);
    if out.Some? && s'.finSent {
      var seg, a, b := out.value, t.sender.resend, s'.resend;
      assert seg in t.open + {seg} && seg in t.kept + {seg};
      if FinQueued(a) {
        var i :| 0 <= i < |a| && a[i].fin;
        if a == [seg] + b {
          if i > 0 {
            assert b[i - 1].fin;
          }
        } else {
          assert i > 0 ==> a[i] == a[1..][i - 1] && b[i] == b[1..][i - 1];
          assert b[i].fin;
        }
      }
      if FinIn(t.open) {
        var s :| s in t.open && s.fin;
        assert s in t.open + {seg};
      }
      if FinIn(t.kept) {
        var s :| s in t.kept && s.fin;
        assert s in t.kept + {seg};
      }
    }
  }

  // ------------------------------------------------------------------- re-queueing

  function DoRequeue(t: Stream, seg: Segment): (r: Stream) {
    t.(sender := t.sender.Requeue(seg))
  }

  /** Any segment that was ever sent may be queued again (a loss or a probe). */
  lemma RequeueIntact(t: Stream, seg: Segment)
    requires Intact(t) && seg in t.history
    ensures Intact(DoRequeue(t, seg))
  {
    var t' := DoRequeue(t, seg);
    var a, b := t.sender.resend, t'.sender.resend;
    forall l | l in SpansOf(a)
      ensures l in SpansOf(b)
    {
      var i :| 0 <= i < |a| && l == (a[i].offset, a[i].End());
      assert b[i] == a[i];
    }
    MoreLive(Delivery(t), Delivery(t').live);
    MoreLive(Record(t), Record(t').live);
    if FinQueued(a) {
      var i :| 0 <= i < |a| && a[i].fin;
      assert b[i].fin;
    }
  }

  /** Forgetting packets whose segments are all queued again. */
  lemma ForgetIntact(t: Stream, open: set<Segment>, kept: set<Segment>)
    requires Intact(t) && open <= t.open && kept <= t.kept
    requires forall s :: s in t.open - open ==> s in t.sender.resend
    requires forall s :: s in t.kept - kept ==> s in t.sender.resend
    ensures Intact(t.(open := open, kept := kept))
  {
    var t' := t.(open := open, kept := kept);
    QueuedSpans(t.sender.resend, t.open, open);
    QueuedSpans(t.sender.resend, t.kept, kept);
    MoreLive(Delivery(t), Delivery(t').live);
    MoreLive(Record(t), Record(t').live);
    if FinIn(t.open) {
      var s :| s in t.open && s.fin;
      assert s in open || s in t.sender.resend;
    }
    if FinIn(t.kept) {
      var s :| s in t.kept && s.fin;
      assert s in kept || s in t.sender.resend;
    }
  }

  lemma QueuedSpans(queue: seq<Segment>, segs: set<Segment>, left: set<Segment>)
    requires forall s :: s in segs - left ==> s in queue
    ensures SpanSet(segs) <= SpansOf(queue) + SpanSet(left)
  {
    forall l | l in SpanSet(segs)
      ensures l in SpansOf(queue) + SpanSet(left)
    {
      var s :| s in segs && l == (s.offset, s.End());
      if s !in left {
        assert s in segs - left;
        var i :| 0 <= i < |queue| && queue[i] == s;
        assert l == (queue[i].offset, queue[i].End());
      }
    }
  }

  // --------------------------------------------------------------------- receiving

  /** The receiver takes in a segment; once received it need not be counted as open. */
  function DoReceive(t: Stream, seg: Segment, settle: bool): (r: Stream) {
    t.(receiver := t.receiver.Recv(seg.offset, seg.data, seg.fin).0,
       open := if settle then t.open - {seg} else t.open)
  }

  lemma ReceiveAuthentic(t: Stream, seg: Segment, settle: bool)
    requires Authentic(t) && seg in t.history
    ensures Authentic(DoReceive(t, seg, settle))
    ensures t.receiver.Recv(seg.offset, seg.data, seg.fin).1.Ok?
  {
    hide Accept, Cuts;
    RecvConsistent(t.receiver, t.written, |t.read|, t.sender.finSent, seg);
    var sent := t.written[..t.sender.base];
    assert SliceAt(sent, seg.offset, seg.data) by {
      assert sent[seg.offset..seg.End()] == t.written[seg.offset..seg.End()];
    }
    AcceptMatches(t.receiver.buffer, sent, |t.read|, seg.offset, seg.data);
    hide Consistent, Matches, Faithful, Genuine;
  }

  lemma ReceiveFin(t: Stream, seg: Segment, settle: bool)
    requires FinAccounted(t) && t.receiver.Recv(seg.offset, seg.data, seg.fin).1.Ok?
    ensures FinAccounted(DoReceive(t, seg, settle))
  {
    hide Accept;
    var t' := DoReceive(t, seg, settle);
    if FinIn(t.open) {
      var s :| s in t.open && s.fin;
      assert s != seg ==> s in t'.open;
    }
  }

  /** Duplicated, delayed and re-sent segments are all accepted, and none is forgotten. */
  lemma ReceiveIntact(t: Stream, seg: Segment, settle: bool)
    requires Intact(t) && seg in t.history
    ensures Intact(DoReceive(t, seg, settle))
    ensures t.receiver.Recv(seg.offset, seg.data, seg.fin).1.Ok?
  {
    ReceiveAuthentic(t, seg, settle);
    ReceiveSound(t, seg, settle);
    ReceiveFin(t, seg, settle);
    hide Authentic, Sound, FinAccounted, RecvState.Recv;
    assert Record(DoReceive(t, seg, settle)) == Record(t);
  }

  lemma ReceiveSound(t: Stream, seg: Segment, settle: bool)
    requires Intact(t) && seg in t.history
    requires t.receiver.Recv(seg.offset, seg.data, seg.fin).1.Ok?
    ensures Sound(Delivery(DoReceive(t, seg, settle)))
  {
    var t' := DoReceive(t, seg, settle);
    var o, e := seg.offset, seg.End();
    var v, v' := Delivery(t), Delivery(t');
    assert Keeps(v.live, v'.live, (o, e)) by {
      forall l | l in v.live && l != (o, e)
        ensures l in v'.live
      {
        if l in SpanSet(t.open) {
          var s :| s in t.open && l == (s.offset, s.End());
          assert s in t'.open;
        }
      }
    }
    if seg.data == [] {
      EmptyAccept(t.receiver.buffer, o);
      assert v' == v.(live := v'.live);
      DropEmpty(v, v'.live, o);
    } else {
      AcceptArrives(t.receiver.buffer, o, seg.data);
      Arrive(v, v', o, e);
    }
  }

  lemma DropEmpty(v: View, live': set<Span>, o: nat)
    requires Sound(v) && Keeps(v.live, live', (o, o))
    ensures Sound(v.(live := live'))
  {
    var v' := v.(live := live');
    forall p: nat, x: nat | p in v'.cuts && p <= x < v'.base
      ensures Accounted(v', p, x)
    {
      assert Accounted(v, p, x);
      if InLive(v, p, x) {
        var l :| l in v.live && Carries(l, p, x);
        assert l in v'.live;
      } else if InPend(v, p, x) {
        var s: nat :| Buffers(v.pend, p, x, s);
        assert Buffers(v'.pend, p, x, s);
      }
    }
  }

  /** Reassembly changes the held ranges as an arrival does. */
  lemma AcceptArrives(b: Buffer, o: nat, data: seq<byte>)
    requires Settled(b) && data != []
    ensures var r := Accept(b, o, data);
            var e := o + |data|;
            var pend, pend' := PendEnds(b.pending), PendEnds(r.pending);
            && b.offset <= r.offset
            && (forall s :: s in pend && s != o ==> (s in pend' && pend'[s] == pend[s]) || pend[s] <= r.offset)
            && (e <= r.offset || (o in pend' && pend'[o] == e))
  {
    hide Flush;
    if o + |data| > b.offset {
      var skip := SatSub(b.offset, o);
      var at: nat, tail := o + skip, data[skip..];
      var b1 := b.(pending := b.pending[at := tail]);
      FlushShape(b1);
      var r := Flush(b1);
      assert Accept(b, o, data) == r;
      assert at in b1.pending && b1.pending[at] == tail && at + |tail| == o + |data|;
      forall s: nat | s in b.pending && s != o
        ensures (s in r.pending && r.pending[s] == b.pending[s]) || s + |b.pending[s]| <= r.offset
      {
        assert s in b1.pending && b1.pending[s] == b.pending[s];
      }
    }
  }

  function DoRead(t: Stream): (r: Stream) {
    var (r', bytes, _) := t.receiver.Read();
    t.(receiver := r', read := t.read + bytes)
  }

  /** Reading keeps the invariant; a reported FIN means the whole stream was read. */
  lemma ReadIntact(t: Stream)
    requires Intact(t)
    ensures Intact(DoRead(t))
    ensures t.receiver.Read().2 ==> DoRead(t).read == t.written && t.sender.finSent
  {
    ReadConsistent(t.receiver, t.written, |t.read|, t.sender.finSent);
    var t' := DoRead(t);
    assert Delivery(t') == Delivery(t) && Record(t') == Record(t);
  }

  // ------------------------------------------------------------------ consequences

  /**
   * When nothing is queued and no packet of this stream is still on its way, the receiver
   * holds every byte that was sent, and knows the end if it was sent.
   */
  lemma SentDelivered(t: Stream)
    requires Intact(t) && t.sender.resend == [] && t.open == {}
    ensures t.receiver.buffer.offset == t.sender.base && t.receiver.buffer.pending == map[]
    ensures DoRead(t).read == t.written[..t.sender.base]
    ensures t.sender.finSent ==> t.receiver.finDelivered && t.receiver.Read().2
  {
    assert SpansOf(t.sender.resend) == {} && SpanSet(t.open) == {};
    Quiescent(Delivery(t));
    var b, w := t.receiver.buffer, t.written[..t.sender.base];
    assert forall s: nat :: s in b.pending ==> SliceAt(w, s, b.pending[s]);
    assert b.pending.Keys == {};
    assert w[..|t.read|] + w[|t.read|..|w|] == w && w[..|t.read|] == t.read;
  }

  /** With nothing left to send either, that is the whole stream. */
  lemma AllDelivered(t: Stream)
    requires Intact(t) && t.sender.buf == [] && t.sender.resend == [] && t.open == {}
    ensures t.receiver.buffer.offset == |t.written| && t.receiver.buffer.pending == map[]
    ensures t.sender.finSent ==> t.receiver.finDelivered
    ensures DoRead(t).read == t.written
    ensures t.sender.finSent ==> t.receiver.Read().2
  {
    SentDelivered(t);
    assert t.written[..|t.written|] == t.written;
  }

  /** Only bytes that were sent can have been read. */
  lemma ReadIsPrefix(t: Stream)
    requires Intact(t)
    ensures t.read <= t.written && |t.read| <= t.sender.base
  {
  }

  /** Every byte sent is queued again, in an outstanding packet, or acknowledged. */
  lemma NothingForgotten(t: Stream, x: nat)
    requires Intact(t) && x < t.sender.base
    ensures (exists i :: 0 <= i < |t.sender.resend| && t.sender.resend[i].offset <= x < t.sender.resend[i].End())
         || (exists s :: s in t.kept && s.offset <= x < s.End())
  {
    var v := Record(t);
    assert 0 in v.cuts && Accounted(v, 0, x);
    var l :| l in v.live && Carries(l, 0, x);
    if l in SpansOf(t.sender.resend) {
      var i :| 0 <= i < |t.sender.resend| && l == (t.sender.resend[i].offset, t.sender.resend[i].End());
    } else {
      var s :| s in t.kept && l == (s.offset, s.End());
    }
  }

  /** A stream that was just opened. */
  function NewStream(): (t: Stream) {
    Stream([], NEW_SEND, {}, {}, {}, NEW_RECV, [])
  }

  lemma NewStreamIntact()
    ensures Intact(NewStream())
  {
  }
}
