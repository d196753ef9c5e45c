/**
 * How a packet is filled with STREAM frames: it fits its budget, it takes one frame of a
 * stream at most, in the order of the streams, and it leaves room only when there is
 * nothing more that it may carry.
 */
module SessionFilling {
  import opened Common
  import opened Coding
  import opened Frames
  import opened SentPackets
  import opened Streams
  import opened Delivery
  import opened DeliveryProof
  import opened FlowControl
  import opened S = Session
  import opened SessionProgress

  // ----------------------------------------------------------------------- the size

  /** The octets of the frames on the wire. */
  function Octets(frames: seq<SentFrame>): (n: nat) {
    if frames == [] then 0 else Octets(frames[..|frames| - 1]) + |Encode(ToFrame(frames[|frames| - 1]))|
  }

  lemma OctetsMore(frames: seq<SentFrame>, f: SentFrame)
    ensures Octets(frames + [f]) == Octets(frames) + |Encode(ToFrame(f))|
  {
    assert (frames + [f])[..|frames|] == frames;
  }

  /** The octets of a frame that are not its data. */
  function Overhead(f: SentFrame): (n: int)
    requires Content(f).Some?
  {
    |Encode(ToFrame(f))| - |Content(f).value.1.data|
  }

  /** A type, an identifier, an offset and a length. */
  lemma OverheadBound(id: nat, seg: Segment)
    ensures var f := FrameFor(id, seg);
            && Content(f).Some? && Content(f).value.0 == id && Content(f).value.1.data == seg.data
            && 3 <= Overhead(f) <= 25
            && (|seg.data| < 0x4000_0000 ==> Overhead(f) <= 21)
            && (|seg.data| < 0x4000 ==> Overhead(f) <= 19)
  {
    hide BigEndian;
  }

  /** Every frame before the last left room, and the data of the last one fitted into it. */
  ghost predicate Fitting(frames: seq<SentFrame>, room: nat) {
    frames != [] ==>
      var last := frames[|frames| - 1];
      && Content(last).Some?
      && Octets(frames[..|frames| - 1]) < room
      && Octets(frames) - Overhead(last) <= room
  }

  lemma VisitFits(f: Filling, id: nat, room: nat)
    requires f.used == Octets(f.frames) && Fitting(f.frames, room)
    ensures var r := Visit(f, id, room); r.used == Octets(r.frames) && Fitting(r.frames, room)
  {
    hide Encode, SendState.Take, Octets;
    var r := Visit(f, id, room);
    if r != f {
      var take := Allowance(f, id, room);
      TakeMaximal(f.send[id].state, take);
      var seg := f.send[id].state.Take(take).1.value;
      OctetsMore(f.frames, FrameFor(id, seg));
      OverheadBound(id, seg);
      assert r.frames[..|r.frames| - 1] == f.frames;
    }
  }

  lemma {:induction false} VisitAllFits(f: Filling, ids: seq<nat>, room: nat)
    requires f.used == 0 && f.frames == []
    ensures var r := VisitAll(f, ids, room); r.used == Octets(r.frames) && Fitting(r.frames, room)
  {
    hide Visit, Fitting;
    if ids == [] {
      NoneFit(room);
    } else {
      VisitAllFits(f, ids[..|ids| - 1], room);
      VisitFits(VisitAll(f, ids[..|ids| - 1], room), ids[|ids| - 1], room);
    }
  }

  lemma NoneFit(room: nat)
    ensures Octets([]) == 0 && Fitting([], room)
  {
  }

  /**
   * Whatever the streams hold: all frames but the last together leave room, the data of the
   * last one fits into what is left, and the whole exceeds the room by the header of one
   * frame at most, for which 24 octets of the budget are kept.
   */
  lemma PacketFits(s: Session, room: nat)
    ensures var frames := VisitAll(Begin(s), s.order, room).frames;
            && Fitting(frames, room)
            && Octets(frames) <= room + 25
            && (room < 0x4000_0000 ==> Octets(frames) <= room + 24)
  {
    hide VisitAll, Encode;
    VisitAllFits(Begin(s), s.order, room);
    var frames := VisitAll(Begin(s), s.order, room).frames;
    if frames != [] {
      var last := frames[|frames| - 1];
      LastOverhead(Begin(s), s.order, room);
      assert Octets(frames) == Octets(frames[..|frames| - 1]) + |Encode(ToFrame(last))|;
    }
  }

  /** The frames placed are STREAM frames, or CRYPTO frames, with their overhead. */
  lemma {:induction false} LastOverhead(f: Filling, ids: seq<nat>, room: nat)
    requires f.frames == []
    ensures forall frame :: frame in VisitAll(f, ids, room).frames ==>
              && Content(frame).Some? && Overhead(frame) <= 25
              && (|Content(frame).value.1.data| < 0x4000_0000 ==> Overhead(frame) <= 21)
  {
    hide Encode, SendState.Take, Overhead, Content;
    if ids != [] {
      var mid, id := VisitAll(f, ids[..|ids| - 1], room), ids[|ids| - 1];
      LastOverhead(f, ids[..|ids| - 1], room);
      if Visit(mid, id, room) != mid {
        OverheadBound(id, mid.send[id].state.Take(Allowance(mid, id, room)).1.value);
      }
    }
  }

  // ---------------------------------------------------------------------- the order

  /** The frames belong to some of the streams `ids`, to each at most one, in ascending order. */
  ghost predicate InOrder(frames: seq<SentFrame>, ids: seq<nat>) {
    && (forall i :: 0 <= i < |frames| ==> Content(frames[i]).Some? && Content(frames[i]).value.0 in ids)
    && (forall i, j :: 0 <= i < j < |frames| ==> Content(frames[i]).value.0 < Content(frames[j]).value.0)
  }

  lemma {:induction false} VisitAllInOrder(f: Filling, ids: seq<nat>, room: nat)
    requires f.frames == [] && Ascending(ids)
    ensures InOrder(VisitAll(f, ids, room).frames, ids)
  {
    hide Encode, SendState.Take, Content;
    if ids != [] {
      var front, id := ids[..|ids| - 1], ids[|ids| - 1];
      var mid := VisitAll(f, front, room);
      VisitAllInOrder(f, front, room);
      assert forall j :: j in front ==> j in ids && j < id;
      if Visit(mid, id, room) != mid {
        OverheadBound(id, mid.send[id].state.Take(Allowance(mid, id, room)).1.value);
        assert id in ids;
      }
    }
  }

  // --------------------------------------------------------------------- nothing idle

  /** The packet is full, or the stream got what it may have of it. */
  ghost predicate Served(f: Filling, r: Filling, id: nat, room: nat)
    requires id in f.send && id in r.send && id in r.links
  {
    || Octets(r.frames) >= room
    || (if f.send[id].state.resend != [] then r.send[id].state.resend == f.send[id].state.resend[1..]
        else !r.send[id].state.HasPending() || r.link.sender.Available() == 0 || r.links[id].sender.Available() == 0)
  }

  /** A visit to one stream serves it. */
  lemma VisitServes(f: Filling, id: nat, room: nat, order: seq<nat>)
    requires FillOk(f, order) && f.used == Octets(f.frames) && id in f.send
    ensures var r := Visit(f, id, room); id in r.send && id in r.links && Served(f, r, id, room)
  {
    assert f.send[id].state.resetCode.None?;
    hide Encode, SendState.Take, Octets, Faithful, Sane, Ascending, Sum;
    var take := Allowance(f, id, room);
    if f.send[id].state.HasPending() && take > 0 {
      VisitFilled(f, id, room, take);
      hide Visit;
    }
  }

  lemma VisitFilled(f: Filling, id: nat, room: nat, take: nat)
    requires id in f.send && id in f.links && f.links[id].sender.sent == f.send[id].state.base
    requires Faithful(f.send[id].state, f.send[id].written) && f.used == Octets(f.frames)
    requires f.send[id].state.HasPending() && take == Allowance(f, id, room) > 0
    ensures var r := Visit(f, id, room); id in r.send && id in r.links && Served(f, r, id, room)
  {
    hide Encode, SendState.Take, Octets, Faithful;
    var s := f.send[id].state;
    TakeProgress(s, take);
    TakeFull(s, take);
    TakeEnd(s, f.send[id].written, take);
    PlaceCharges(f, id, take);
    var (s', out) := s.Take(take);
    OverheadBound(id, out.value);
    OctetsMore(f.frames, FrameFor(id, out.value));
  }

  /** A frame takes the front of the queue, fills the room, or leaves nothing pending. */
  lemma TakeFull(s: SendState, take: nat)
    requires s.Take(take).1.Some? && take > 0
    ensures var (s', out) := s.Take(take);
            && (s.resend != [] ==> s'.resend == s.resend[1..] || |out.value.data| == take)
            && (s.resend == [] ==> !s'.HasPending() || (|out.value.data| == take && s'.base == s.base + take))
  {
  }

  /** Serving one stream takes nothing from another and gives no credit. */
  lemma VisitOther(f: Filling, id: nat, room: nat, j: nat)
    requires id != j && j in f.send && j in f.links && f.used == Octets(f.frames)
    ensures var r := Visit(f, id, room);
            && j in r.send && j in r.links && r.send[j] == f.send[j] && r.links[j] == f.links[j]
            && r.link.sender.Available() <= f.link.sender.Available()
            && Octets(r.frames) >= Octets(f.frames)
  {
    hide Encode, SendState.Take, Octets;
    var r := Visit(f, id, room);
    if r != f {
      var seg := f.send[id].state.Take(Allowance(f, id, room)).1.value;
      OctetsMore(f.frames, FrameFor(id, seg));
    }
  }

  /** What is known of stream `j` after the streams `ids` were visited. */
  ghost predicate Progressed(f: Filling, r: Filling, ids: seq<nat>, j: nat, room: nat)
    requires j in f.send && j in f.links
  {
    && j in r.send && j in r.links
    && (if j in ids then Served(f, r, j, room) else r.send[j] == f.send[j] && r.links[j] == f.links[j])
  }

  lemma ProgressStep(f: Filling, mid: Filling, front: seq<nat>, id: nat, j: nat, room: nat, order: seq<nat>)
    requires j in f.send && j in f.links && id !in front && Progressed(f, mid, front, j, room)
    requires FillOk(mid, order) && mid.used == Octets(mid.frames)
    ensures Progressed(f, Visit(mid, id, room), front + [id], j, room)
  {
    hide FillOk, Visit, Octets, SendState.HasPending, SendLimit.Available;
    assert j in front + [id] <==> j in front || j == id;
    if j == id {
      VisitServes(mid, id, room, order);
    } else {
      VisitOther(mid, id, room, j);
    }
  }

  lemma {:induction false} VisitAllServes(f: Filling, ids: seq<nat>, room: nat, order: seq<nat>, j: nat)
    requires FillOk(f, order) && f.used == 0 && f.frames == [] && f.picks == [] && Ascending(ids)
    requires j in f.send && j in f.links
    ensures Progressed(f, VisitAll(f, ids, room), ids, j, room)
  {
    hide FillOk, Visit, Octets, Fitting, Served;
    if ids != [] {
      var front, id := ids[..|ids| - 1], ids[|ids| - 1];
      VisitAllServes(f, front, room, order, j);
      VisitAllFits(f, front, room);
      VisitAllOk(f, front, room, order);
      assert ids == front + [id] && id !in front;
      hide Progressed;
      ProgressStep(f, VisitAll(f, front, room), front, id, j, room, order);
    }
  }

  /** Without a frame nothing has changed. */
  lemma {:induction false} NoFrames(f: Filling, ids: seq<nat>, room: nat)
    ensures var r := VisitAll(f, ids, room);
            |r.frames| >= |f.frames| && (|r.frames| == |f.frames| ==> r == f)
  {
    hide Encode, SendState.Take;
    if ids != [] {
      NoFrames(f, ids[..|ids| - 1], room);
    }
  }

  // --------------------------------------------------------------------- the packet

  /** The packet that a step of the connection puts on record. */
  function Recorded(s: Session, room: nat, ping: bool, now: nat, size: nat): (frames: seq<SentFrame>) {
    var s' := S.DoSend(s, room, ping, now, size);
    if s.conn.nextPn in s'.conn.log then s'.conn.log[s.conn.nextPn] else []
  }

  /** Stream `id` had its turn: its queue went on by a segment, or nothing fresh of it may be sent. */
  predicate HadItsTurn(s: Session, s': Session, id: nat)
    requires id in s.conn.send
  {
    && id in s'.conn.send && id in s'.links
    && (if s.conn.send[id].state.resend != [] then s'.conn.send[id].state.resend == s.conn.send[id].state.resend[1..]
        else || !s'.conn.send[id].state.HasPending()
             || s'.link.sender.Available() == 0 || s'.links[id].sender.Available() == 0)
  }

  /** The packet is full, or every stream had its turn. */
  predicate NothingIdle(frames: seq<SentFrame>, room: nat, s: Session, s': Session) {
    Octets(frames) >= room || forall id :: id in s.conn.send ==> HadItsTurn(s, s', id)
  }

  lemma NoneIdle(s: Session, room: nat)
    requires Inv(s)
    ensures var f := VisitAll(Begin(s), s.order, room);
            NothingIdle(f.frames, room, s, s.(conn := s.conn.(send := f.send), link := f.link, links := f.links))
  {
    hide Inv, VisitAll, Octets, SendState.HasPending, SendLimit.Available, FillOk;
    LinkedStreams(s);
    BeginOk(s);
    var f := VisitAll(Begin(s), s.order, room);
    var s' := s.(conn := s.conn.(send := f.send), link := f.link, links := f.links);
    forall id | id in s.conn.send && Octets(f.frames) < room
      ensures HadItsTurn(s, s', id)
    {
      VisitAllServes(Begin(s), s.order, room, s.order, id);
    }
  }

  /**
   * In every state of every run, the packet sent has at most one frame of each stream, in
   * ascending order of the streams, behind them the PING if one is owed, and fits the
   * budget; and it is full, unless every stream has nothing left that it may send in it.
   */
  lemma PacketFilled(s: Session, room: nat, ping: bool, now: nat, size: nat)
    requires Inv(s) && Fits(s.conn.nextPn)
    ensures var frames := VisitAll(Begin(s), s.order, room).frames;
            && Recorded(s, room, ping, now, size) == frames + (if ping then [SentPing] else [])
            && InOrder(frames, s.order)
            && (room < 0x4000_0000 ==> Octets(frames) <= room + 24)
            && NothingIdle(frames, room, s, S.DoSend(s, room, ping, now, size))
  {
    hide Inv, VisitAll, Octets, HadItsTurn, FillOk, Fitting, InOrder, Recorded, S.DoSend;
    LinkedStreams(s);
    BeginOk(s);
    VisitAllInOrder(Begin(s), s.order, room);
    PacketFits(s, room);
    VisitAllOk(Begin(s), s.order, room, s.order);
    InvGood(s);
    SendRecords(s, room, ping, now, size);
    NoneIdle(s, room);
    var f := VisitAll(Begin(s), s.order, room);
    SameTurns(f.frames, room, s, s.(conn := s.conn.(send := f.send), link := f.link, links := f.links),
              S.DoSend(s, room, ping, now, size));
  }

  lemma SameTurns(frames: seq<SentFrame>, room: nat, s: Session, a: Session, b: Session)
    requires NothingIdle(frames, room, s, a)
    requires b.conn.send == a.conn.send && b.link == a.link && b.links == a.links
    ensures NothingIdle(frames, room, s, b)
  {
    hide Octets;
    if Octets(frames) < room {
      forall id | id in s.conn.send
        ensures HadItsTurn(s, b, id)
      {
        assert HadItsTurn(s, a, id);
      }
    }
  }

  /** The step records what was filled, and takes over the streams and limits. */
  lemma SendRecords(s: Session, room: nat, ping: bool, now: nat, size: nat)
    requires Good(s.conn) && Fits(s.conn.nextPn)
    requires var f := VisitAll(Begin(s), s.order, room); Fill(s.conn.send, f.picks) == (f.send, f.frames)
    ensures var f := VisitAll(Begin(s), s.order, room);
            var s' := S.DoSend(s, room, ping, now, size);
            && Recorded(s, room, ping, now, size) == f.frames + (if ping then [SentPing] else [])
            && s'.conn.send == f.send && s'.link == f.link && s'.links == f.links
  {
    hide Records, Acknowledged, Tracked, Finished, VisitAll, Fill, FramesOk;
    NoFrames(Begin(s), s.order, room);
    assert s.conn.nextPn !in s.conn.log;
    hide Good;
  }
}
