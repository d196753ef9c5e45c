/**
 * The CRYPTO streams that carry the handshake (sections 7.5 and 19.6 of RFC 9000). They
 * have their own loops; this module ties them to the functions that model streams, so
 * that what is proved about those holds here as well.
 */
module CryptoStreams {
  import opened Common
  import opened Reassembly
  import opened Streams

  /** Queued CRYPTO segments are stream segments that never end the stream. */
  function Unfinished(chunks: seq<Chunk>): (segs: seq<Segment>)
    ensures |segs| == |chunks|
    ensures forall i :: 0 <= i < |segs| ==> segs[i] == Segment(chunks[i].offset, chunks[i].data, false)
  {
    seq(|chunks|, i requires 0 <= i < |chunks| => Segment(chunks[i].offset, chunks[i].data, false))
  }

  class CryptoStream {
    var recvOffset: nat
    var recvPending: Pending
    var sendBuf: seq<byte>
    var sendBase: nat
    var resend: seq<Chunk>

    /** The receiving half, with `ready` the bytes handed over so far. */
    function Received(ready: seq<byte>): (b: Buffer)
      reads this
    {
      Buffer(recvOffset, recvPending, ready)
    }

    /** The sending half, as a stream that is never ended or reset. */
    function AsSender(): (s: SendState)
      reads this
    {
      SendState(sendBuf, sendBase, false, false, Unfinished(resend), None)
    }

    constructor ()
      ensures Received([]) == EMPTY && AsSender() == NEW_SEND
    {
      recvOffset, recvPending, sendBuf, sendBase, resend := 0, map[], [], 0, [];
    }

    /** Receives one CRYPTO frame and hands over what became contiguous. */
    method Recv(offset: nat, data: seq<byte>) returns (out: Option<seq<byte>>)
      modifies `recvOffset, `recvPending
      ensures match out
              case None => Received([]) == Accept(old(Received([])), offset, data)
              case Some(bytes) => bytes != [] && Received(bytes) == Accept(old(Received([])), offset, data)
    {
      hide Flush;
      if offset + |data| <= recvOffset {
        return None;
      }
      var at, tail := offset, data;
      if offset < recvOffset {
        at, tail := recvOffset, data[recvOffset - offset..];
      }
      if |tail| > 0 {
        recvPending := recvPending[at := tail];
      }
      var delivered := Drain();
      out := if |delivered| == 0 then None else Some(delivered);
    }

    /** The popping loop of `Recv`. */
    method Drain() returns (delivered: seq<byte>)
      modifies `recvOffset, `recvPending
      ensures Received(delivered) == Flush(old(Received([])))
    {
      hide Flush, Popped;
      delivered := [];
      var start := FloorKey(recvPending, recvOffset);
      FlushUnfold(Received(delivered));
      while start.Some?
        invariant start == FloorKey(recvPending, recvOffset)
        invariant var b := Received(delivered);
                  && Flush(b) == Flush(old(Received([])))
                  && Flush(b) == if start.None? then b else Flush(Popped(b, start.value))
        decreases |recvPending|
      {
        delivered := PopSegment(start.value, delivered);
        start := FloorKey(recvPending, recvOffset);
        FlushUnfold(Received(delivered));
      }
    }

    /** One turn of that loop. */
    method PopSegment(start: nat, before: seq<byte>) returns (delivered: seq<byte>)
      requires start in recvPending && start <= recvOffset
      modifies `recvOffset, `recvPending
      ensures Received(delivered) == Popped(old(Received(before)), start)
    {
      delivered := before;
      var segment := recvPending[start];
      var segEnd := start + |segment|;
      recvPending := recvPending - {start};
      if segEnd > recvOffset {
        delivered := delivered + segment[recvOffset - start..];
        recvOffset := segEnd;
      }
    }

    method EnqueueSend(data: seq<byte>)
      modifies `sendBuf
      ensures AsSender() == old(AsSender()).Write(data, false)
    {
      sendBuf := sendBuf + data;
    }

    method Requeue(offset: nat, data: seq<byte>)
      modifies `resend
      ensures AsSender() == old(AsSender()).Requeue(Segment(offset, data, false))
    {
      resend := resend + [Chunk(offset, data)];
    }

    /** Takes the next CRYPTO frame body; the same choice a stream makes. */
    method TakeSend(max: nat) returns (out: Option<Chunk>)
      modifies `sendBuf, `sendBase, `resend
      ensures var (s, seg) := old(AsSender()).Take(max);
              && AsSender() == s && seg.Some? == out.Some?
              && (out.Some? ==> seg.value == Segment(out.value.offset, out.value.data, false))
    {
      if max == 0 {
        return None;
      }
      if |resend| > 0 {
        var front := resend[0];
        if |front.data| <= max {
          resend := resend[1..];
          return Some(front);
        }
        resend := resend[0 := Chunk(front.offset + max, front.data[max..])];
        return Some(Chunk(front.offset, front.data[..max]));
      }
      if |sendBuf| == 0 {
        return None;
      }
      var take := Min(max, |sendBuf|);
      out := Some(Chunk(sendBase, sendBuf[..take]));
      sendBuf := sendBuf[take..];
      sendBase := sendBase + take;
    }

    /** There is something to send exactly when a frame can be taken. */
    method HasSendData() returns (r: bool)
      ensures r == AsSender().HasPending()
    {
      r := |resend| > 0 || |sendBuf| > 0;
    }
  }

  // ------------------------------------------------------------------ the handshake

  /** The frames received in order: the state left, and all bytes handed to TLS. */
  function RecvAll(chunks: seq<Chunk>): (r: (Buffer, seq<byte>)) {
    if chunks == [] then (EMPTY, [])
    else
      var (b, tls) := RecvAll(chunks[..|chunks| - 1]);
      var last := chunks[|chunks| - 1];
      var b' := Accept(b, last.offset, last.data);
      (b'.(ready := []), tls + b'.ready)
  }

  lemma PoppedReady(b: Buffer, before: seq<byte>, start: nat)
    requires start in b.pending && start <= b.offset
    ensures Popped(b.(ready := before + b.ready), start)
         == var r := Popped(b, start); r.(ready := before + r.ready)
  {
    var seg := b.pending[start];
    if start + |seg| > b.offset {
      var more := seg[b.offset - start..];
      assert before + (b.ready + more) == before + b.ready + more;
    }
  }

  lemma {:induction false} FlushReady(b: Buffer, before: seq<byte>)
    ensures Flush(b.(ready := before + b.ready)) == Flush(b).(ready := before + Flush(b).ready)
    decreases |b.pending|
  {
    match FloorKey(b.pending, b.offset)
    case None =>
    case Some(start) =>
      PoppedReady(b, before, start);
      hide Popped;
      FlushReady(Popped(b, start), before);
  }

  lemma AcceptReady(b: Buffer, before: seq<byte>, offset: nat, data: seq<byte>)
    requires b.ready == []
    ensures Accept(b.(ready := before), offset, data)
         == var r := Accept(b, offset, data); r.(ready := before + r.ready)
  {
    hide Flush;
    assert before + [] == before;
    if offset + |data| > b.offset {
      var skip := SatSub(b.offset, offset);
      var pending := if data[skip..] != [] then b.pending[offset + skip := data[skip..]] else b.pending;
      FlushReady(b.(pending := pending), before);
    }
  }

  /** Handing bytes over after every frame, or all at the end, gives the same bytes. */
  lemma {:induction false} RecvAllRefines(chunks: seq<Chunk>)
    ensures var (b, tls) := RecvAll(chunks);
            b.ready == [] && AcceptAll(EMPTY, chunks) == b.(ready := tls)
  {
    if chunks != [] {
      var front, last := chunks[..|chunks| - 1], chunks[|chunks| - 1];
      RecvAllRefines(front);
      var (b, tls) := RecvAll(front);
      AcceptReady(b, tls, last.offset, last.data);
    }
  }

  lemma {:induction false} AcceptAllMatches(chunks: seq<Chunk>, w: seq<byte>)
    requires forall i :: 0 <= i < |chunks| ==> SliceAt(w, chunks[i].offset, chunks[i].data)
    ensures Matches(AcceptAll(EMPTY, chunks), w, 0)
  {
    if chunks != [] {
      var front, last := chunks[..|chunks| - 1], chunks[|chunks| - 1];
      AcceptAllMatches(front, w);
      AcceptMatches(AcceptAll(EMPTY, front), w, 0, last.offset, last.data);
    }
  }

  /**
   * However the CRYPTO frames of a handshake `w` are cut, repeated and reordered, TLS gets
   * a prefix of it; and it gets the longest prefix that arrived, unless an arrival
   * overwrote a byte held nowhere else.
   */
  lemma HandshakePrefix(chunks: seq<Chunk>, w: seq<byte>)
    requires forall i :: 0 <= i < |chunks| ==> SliceAt(w, chunks[i].offset, chunks[i].data)
    ensures RecvAll(chunks).1 <= w
    ensures var n := |RecvAll(chunks).1|;
            Lossless(chunks) ==> (forall x: nat :: x < n ==> InUnion(chunks, x)) && !InUnion(chunks, n)
  {
    RecvAllRefines(chunks);
    AcceptAllMatches(chunks, w);
    if Lossless(chunks) {
      LongestPrefix(chunks);
    }
  }
}
