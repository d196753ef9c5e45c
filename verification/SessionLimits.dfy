/**
 * Exactly which data can still be delivered when updates of flow-control limits may be
 * lost, which the code never sends again.
 */
module SessionLimits {
  import opened Common
  import opened Coding
  import opened Frames
  import opened SentPackets
  import opened Streams
  import opened Delivery
  import opened DeliveryProof
  import opened FlowControl
  import opened S = Session
  import opened SessionProgress

  type Step = S.Step

  // ---------------------------------------------------------------- what is unsent

  function UnsentOf(send: map<nat, Source>): (f: nat -> nat) { id => if id in send then |send[id].state.buf| else 0 }

  function WrittenOf(send: map<nat, Source>): (f: nat -> nat) { id => if id in send then |send[id].written| else 0 }

  function Unsent(s: Session): (n: nat) { Sum(s.order, UnsentOf(s.conn.send)) }

  /** Data written is sent or unsent. */
  lemma WrittenSplit(s: Session)
    requires Inv(s)
    ensures Sum(s.order, WrittenOf(s.conn.send)) == s.link.sender.sent + Unsent(s)
    ensures forall id :: id in s.conn.send ==>
              |s.conn.send[id].written| == s.links[id].sender.sent + |s.conn.send[id].state.buf|
  {
    hide Good, Consumed, Sum, Sane, Ascending;
    SumAdd(s.order, SentOf(s.links), UnsentOf(s.conn.send), WrittenOf(s.conn.send));
  }

  /** A frozen limit leaves room for all that is unsent. */
  ghost predicate Passable(s: Session)
    requires s.links.Keys == s.conn.send.Keys
  {
    && (Frozen(s.link) ==> Unsent(s) <= s.link.sender.Available())
    && (forall id :: id in s.links && Frozen(s.links[id]) ==>
          |s.conn.send[id].state.buf| <= s.links[id].sender.Available())
  }

  /** Every application has all that its peer wrote. */
  predicate AllRead(s: Session) {
    forall id :: id in s.conn.send ==> TargetOf(s.conn.recv, id).read == s.conn.send[id].written
  }

  // ---------------------------------------------------------------------- necessary

  predicate HeldLink(a: Link, b: Link) {
    Frozen(a) ==> b.sender.max == a.sender.max && b.receiver.max == a.receiver.max
                  && b.receiver.window == a.receiver.window && b.ads == a.ads
  }

  /** No quiet step writes, or raises a limit that was frozen. */
  ghost predicate Held(start: Session, s: Session) {
    && s.order == start.order && s.conn.send.Keys == start.conn.send.Keys && s.links.Keys == start.links.Keys
    && (forall id :: id in start.conn.send ==> s.conn.send[id].written == start.conn.send[id].written)
    && HeldLink(start.link, s.link) && (forall id :: id in start.links ==> HeldLink(start.links[id], s.links[id]))
  }

  lemma UpdateHeld(a: Link, b: Link)
    requires Sane(b) && HeldLink(a, b)
    ensures HeldLink(a, Update(b))
  {
    if Frozen(a) {
      FrozenStays(b, b.receiver.window);
    }
  }

  lemma ArriveHeld(a: Link, b: Link, ad: nat)
    requires HeldLink(a, b) && ad !in a.ads
    ensures HeldLink(a, Arrive(b, ad))
  {
  }

  lemma SendHeld(start: Session, s: Session, room: nat, ping: bool, now: nat, size: nat)
    requires Inv(s) && Held(start, s)
    ensures Held(start, S.DoSend(s, room, ping, now, size))
  {
    hide Inv, VisitAll, FillOk, OnlyEnd, Fill;
    BeginOk(s);
    VisitAllOk(Begin(s), s.order, room, s.order);
  }

  lemma NetHeld(start: Session, s: Session, step: Delivery.Step)
    requires Inv(s) && Held(start, s) && IsNet(step) && !step.Write?
    ensures Held(start, s.(conn := Delivery.Next(s.conn, step)))
  {
    hide Inv, Good, Delivery.Next;
    InvGood(s);
    NetFrame(s.conn, step);
  }

  lemma ConsumeHeld(start: Session, s: Session, id: nat)
    requires Held(start, s)
    ensures Held(start, S.DoConsume(s, id))
  {
    hide S.DoConsume;
    ConsumeFrame(s, id);
  }

  lemma NextHeld(start: Session, s: Session, step: Step)
    requires Inv(s) && Held(start, s) && QuietStep(step, start)
    ensures Held(start, S.Next(s, step))
  {
    hide Inv, Sane, HeldLink, Update, Arrive, S.DoSend, S.DoConsume, Delivery.Next, DoStart;
    LimitsSane(s);
    match step
    case Start(id) =>
    case Net(step) => if IsNet(step) { NetHeld(start, s, step); }
    case Send(room, ping, now, size) => SendHeld(start, s, room, ping, now, size);
    case Consume(id) => ConsumeHeld(start, s, id);
    case UpdateConn => UpdateHeld(start.link, s.link);
    case UpdateStream(id) => if id in s.links { UpdateHeld(start.links[id], s.links[id]); }
    case ArriveConn(ad) => ArriveHeld(start.link, s.link, ad);
    case ArriveStream(id, ad) => if id in s.links { ArriveHeld(start.links[id], s.links[id], ad); }
  }

  lemma {:induction false} ExtendHeld(start: Session, s: Session, steps: seq<Step>)
    requires Inv(s) && Held(start, s) && Quiet(steps, start)
    ensures Held(start, S.Extend(s, steps)) && Inv(S.Extend(s, steps))
    decreases |steps|
  {
    hide Inv, Held, S.Next, QuietStep;
    if steps != [] {
      NextInv(s, steps[0]);
      NextHeld(start, s, steps[0]);
      ExtendHeld(start, S.Next(s, steps[0]), steps[1..]);
    }
  }

  /** All read means all sent. */
  lemma ReadIsSent(s: Session)
    requires Inv(s) && AllRead(s)
    ensures Sum(s.order, WrittenOf(s.conn.send)) == s.link.sender.sent <= s.link.sender.max
    ensures forall id :: id in s.conn.send ==>
              && id in s.links
              && |s.conn.send[id].written| == s.links[id].sender.sent <= s.links[id].sender.max
  {
    hide Good, Sum, Ascending, Faithful;
    forall id | id in s.conn.send
      ensures s.conn.send[id].state.base == |s.conn.send[id].written|
    {
      ReadBound(s.conn, id);
      StreamOf(s.conn, id);
      BaseBound(s.conn.send[id].state, s.conn.send[id].written);
    }
    SumSame(s.order, WrittenOf(s.conn.send), SentOf(s.links));
  }

  lemma BaseBound(s: SendState, w: seq<byte>)
    requires Faithful(s, w)
    ensures s.base <= |w|
  {
  }

  lemma NeededConn(s: Session, s': Session)
    requires Inv(s) && Inv(s') && Held(s, s') && AllRead(s') && Frozen(s.link)
    ensures Unsent(s) <= s.link.sender.Available()
  {
    hide Inv, Sum, AllRead, Frozen;
    ReadIsSent(s');
    WrittenSplit(s);
    LimitsSane(s);
    SumSame(s.order, WrittenOf(s.conn.send), WrittenOf(s'.conn.send));
    hide WrittenOf, UnsentOf, Sane;
  }

  lemma NeededStream(s: Session, s': Session, id: nat)
    requires Inv(s) && Inv(s') && Held(s, s') && AllRead(s')
    requires id in s.conn.send && id in s.links && Frozen(s.links[id])
    ensures |s.conn.send[id].state.buf| <= s.links[id].sender.Available()
  {
    hide Inv, Sum, AllRead, Frozen, WrittenOf, UnsentOf;
    ReadIsSent(s');
    WrittenSplit(s);
  }

  /** Whatever happens, unless an update that was on its way arrives: a frozen limit is never passed. */
  lemma Needed(s: Session, more: seq<Step>)
    requires Inv(s) && Quiet(more, s) && AllRead(S.Extend(s, more))
    ensures s.links.Keys == s.conn.send.Keys && Passable(s)
  {
    hide Inv, S.Extend, Held, AllRead, Unsent, Frozen, QuietStep, SendLimit.Available;
    LinkedStreams(s);
    HeldSelf(s);
    ExtendHeld(s, s, more);
    var s' := S.Extend(s, more);
    if Frozen(s.link) {
      NeededConn(s, s');
    }
    forall id | id in s.links && Frozen(s.links[id])
      ensures |s.conn.send[id].state.buf| <= s.links[id].sender.Available()
    {
      NeededStream(s, s', id);
    }
  }

  lemma HeldSelf(s: Session)
    ensures Held(s, s)
  {
  }

  // --------------------------------------------------------------------- sufficient

  /** What a limit still allows shrinks by what was sent. */
  lemma RoomLeft(s: Session, s': Session)
    requires Inv(s) && Inv(s') && Continues(s, s')
    ensures s'.link.sender.sent + Unsent(s') == s.link.sender.sent + Unsent(s)
    ensures forall id :: id in s.links ==>
              s'.links[id].sender.sent + |s'.conn.send[id].state.buf|
              == s.links[id].sender.sent + |s.conn.send[id].state.buf|
  {
    hide Inv, Sum, OnlyEnd, Tame;
    LinkedStreams(s);
    LinkedStreams(s');
    WrittenSplit(s);
    WrittenSplit(s');
    SumSame(s.order, WrittenOf(s.conn.send), WrittenOf(s'.conn.send));
  }

  /** A limit that is stalled in the end was frozen before, and its room is used up. */
  lemma StallUses(a: Link, b: Link, before: nat, after: nat)
    requires Sane(a) && Sane(b) && Tame(a, b) && Stalled(b) && b.sender.sent + after == a.sender.sent + before
    ensures Frozen(a) && before - after == a.sender.Available()
  {
  }

  /** At the end nothing is unsent if no frozen limit was in the way. */
  lemma NoneUnsent(s: Session, s': Session, id: nat)
    requires Inv(s) && Inv(s') && Continues(s, s') && Drained(s') && s.links.Keys == s.conn.send.Keys && Passable(s)
    requires id in s.conn.send
    ensures s'.conn.send[id].state.buf == []
  {
    hide Inv, Sum, OnlyEnd, ReadUp, Stalled, Sane, Tame, Frozen, SendLimit.Available, Work;
    RoomLeft(s, s');
    LinkedStreams(s');
    LimitsSane(s);
    LimitsSane(s');
    SumPart(s'.order, UnsentOf(s'.conn.send), id);
    assert DrainedStream(s', id);
    NotReset(s', id);
    if Stalled(s'.link) {
      StallUses(s.link, s'.link, Unsent(s), Unsent(s'));
    } else if Stalled(s'.links[id]) {
      StallUses(s.links[id], s'.links[id], |s.conn.send[id].state.buf|, |s'.conn.send[id].state.buf|);
    }
  }

  lemma NotReset(s: Session, id: nat)
    requires Inv(s) && id in s.conn.send
    ensures var Source(w, state) := s.conn.send[id];
            state.resetCode.None? && state.base + |state.buf| == |w|
  {
    hide Good, Consumed, Sum, Sane, Ascending;
  }

  lemma DrainedReads(s: Session, s': Session)
    requires Inv(s) && Inv(s') && Continues(s, s') && Drained(s') && s.links.Keys == s.conn.send.Keys && Passable(s)
    ensures AllRead(s')
  {
    hide Inv, Continues, Passable;
    assert s'.conn.send.Keys == s.conn.send.Keys by { SameKeys(s, s'); }
    forall id | id in s'.conn.send
      ensures TargetOf(s'.conn.recv, id).read == s'.conn.send[id].written
    {
      NoneUnsent(s, s', id);
      NotReset(s', id);
      assert DrainedStream(s', id);
      var w := s'.conn.send[id].written;
      assert w[..|w|] == w;
    }
  }

  lemma SameKeys(s: Session, s': Session)
    requires Continues(s, s')
    ensures s'.conn.send.Keys == s.conn.send.Keys && s'.links.Keys == s.links.Keys
  {
    hide Work, OnlyEnd, Tame;
  }

  /** With rounds of packets of `m` bytes, whatever `m` is, everything written is read in the end. */
  lemma Enough(s: Session, m: nat)
    requires Inv(s) && m > 0 && s.conn.nextPn + Work(s) <= VARINT_MAX + 1
    requires s.links.Keys == s.conn.send.Keys && Passable(s)
    ensures exists more :: Calm(s, more, m, s) && AllRead(S.Extend(s, more))
  {
    hide Inv, Calm, AllRead, Passable, Work, S.Extend, Continues, Drained;
    ContinuesSelf(s);
    var more := Drain(s, m, s);
    DrainedReads(s, S.Extend(s, more));
  }

  // ----------------------------------------------------------------------- theorems

  /**
   * No dead ends but lost updates. From every state a run can reach, for every packet size
   * from one byte of stream data on, rounds of delivering, acknowledging, reading, renewing
   * limits and sending one packet end in a state in which each stream is either complete
   * or waits for a limit whose updates were lost. No update sent before need arrive.
   */
  lemma DrainsOrStalls(window: nat, streamWindow: nat, steps: seq<Step>, m: nat)
    requires var s := S.Run(window, streamWindow, steps); m > 0 && s.conn.nextPn + Work(s) <= VARINT_MAX + 1
    ensures var s := S.Run(window, streamWindow, steps);
            exists more :: Calm(s, more, m, s) && Drained(S.Extend(s, more)) && Continues(s, S.Extend(s, more))
  {
    RunInv(window, streamWindow, steps);
    hide Inv, Calm, Work, S.Run, S.Extend, Continues, Drained;
    var s := S.Run(window, streamWindow, steps);
    ContinuesSelf(s);
    var more := Drain(s, m, s);
    assert Drained(S.Extend(s, more));
  }

  /** A drained stream with nothing to send is complete: all is read, and its end is seen. */
  lemma DrainedComplete(s: Session, id: nat)
    requires Inv(s) && Drained(s) && id in s.conn.send && !s.conn.send[id].state.HasPending()
    ensures TargetOf(s.conn.recv, id).read == s.conn.send[id].written
    ensures s.conn.send[id].state.fin ==> TargetOf(s.conn.recv, id).ended
  {
    hide Inv, Stalled;
    assert DrainedStream(s, id);
    NotReset(s, id);
    var w := s.conn.send[id].written;
    assert w[..|w|] == w;
  }

  /** The end of a stream with nothing unsent needs a byte of credit as well. */
  ghost predicate EndsPassable(s: Session)
    requires s.links.Keys == s.conn.send.Keys
  {
    forall id :: id in s.conn.send && OnlyEnd(s.conn.send[id].state) ==>
      && (Frozen(s.link) ==> Unsent(s) < s.link.sender.Available())
      && (Frozen(s.links[id]) ==> 0 < s.links[id].sender.Available())
  }

  lemma NonePending(s: Session, s': Session, id: nat)
    requires Inv(s) && Inv(s') && Continues(s, s') && Drained(s') && s.links.Keys == s.conn.send.Keys
    requires Passable(s) && EndsPassable(s) && id in s.conn.send
    ensures !s'.conn.send[id].state.HasPending()
  {
    hide Inv, Sum, ReadUp, Stalled, Sane, Tame, Frozen, SendLimit.Available, Work, Passable;
    NoneUnsent(s, s', id);
    RoomLeft(s, s');
    LinkedStreams(s');
    LimitsSane(s);
    LimitsSane(s');
    assert DrainedStream(s', id) && SameStream(s.conn.send[id], s'.conn.send[id]);
    if s'.conn.send[id].state.HasPending() {
      assert OnlyEnd(s.conn.send[id].state);
      if Stalled(s'.link) {
        StallUses(s.link, s'.link, Unsent(s), Unsent(s'));
      } else {
        StallUses(s.links[id], s'.links[id], 0, 0);
      }
    }
  }

  /** Every application has all that its peer wrote, and knows of the end if there is one. */
  predicate AllComplete(s: Session) {
    AllRead(s) && forall id :: id in s.conn.send && s.conn.send[id].state.fin ==> TargetOf(s.conn.recv, id).ended
  }

  /** Then every stream is completed, its end included. */
  lemma CompletesToo(window: nat, streamWindow: nat, steps: seq<Step>, m: nat)
    requires var s := S.Run(window, streamWindow, steps);
             && m > 0 && s.conn.nextPn + Work(s) <= VARINT_MAX + 1
             && s.links.Keys == s.conn.send.Keys && Passable(s) && EndsPassable(s)
    ensures var s := S.Run(window, streamWindow, steps);
            exists more :: Calm(s, more, m, s) && AllComplete(S.Extend(s, more))
  {
    RunInv(window, streamWindow, steps);
    hide Inv, Calm, Work, S.Run, S.Extend, Continues, Drained, Passable, EndsPassable, SendState.HasPending;
    var s := S.Run(window, streamWindow, steps);
    ContinuesSelf(s);
    var more := Drain(s, m, s);
    var s' := S.Extend(s, more);
    SameKeys(s, s');
    forall id | id in s'.conn.send
      ensures TargetOf(s'.conn.recv, id).read == s'.conn.send[id].written
      ensures s'.conn.send[id].state.fin ==> TargetOf(s'.conn.recv, id).ended
    {
      NonePending(s, s', id);
      DrainedComplete(s', id);
    }
    assert AllComplete(s');
  }

  /**
   * Exactly when all data can be delivered although no update sent so far arrives: when
   * every frozen limit, of a stream or of the connection, has room for all that is unsent.
   * A limit is frozen while half a window or more is in updates the sender has not seen.
   */
  lemma DeliverableExactly(window: nat, streamWindow: nat, steps: seq<Step>)
    requires var s := S.Run(window, streamWindow, steps); s.conn.nextPn + Work(s) <= VARINT_MAX + 1
    ensures var s := S.Run(window, streamWindow, steps);
            && s.links.Keys == s.conn.send.Keys
            && ((exists more :: Quiet(more, s) && AllRead(S.Extend(s, more))) <==> Passable(s))
  {
    RunInv(window, streamWindow, steps);
    hide Inv, Work, S.Run, AllRead, S.Extend, Passable, QuietStep;
    var s := S.Run(window, streamWindow, steps);
    LinkedStreams(s);
    if exists more :: Quiet(more, s) && AllRead(S.Extend(s, more)) {
      var more :| Quiet(more, s) && AllRead(S.Extend(s, more));
      Needed(s, more);
    }
    if Passable(s) {
      Enough(s, 1);
      var more :| Calm(s, more, 1, s) && AllRead(S.Extend(s, more));
      assert Quiet(more, s);
    }
  }

  /** How that fails: an update that is sent when a window was used up, and is lost. */
  lemma LostUpdateBlocks(s: Session)
    requires Inv(s) && Waiting(s.link) && !Frozen(s.link) && Unsent(s) > 0
    ensures var s' := S.Next(s, Step.UpdateConn);
            Inv(s') && s'.links.Keys == s'.conn.send.Keys && !Passable(s')
  {
    hide Inv, Sum;
    LimitsSane(s);
    LinkedStreams(s);
    NextInv(s, Step.UpdateConn);
  }

  // ----------------------------------------------------------------- an end is stuck

  /** Only the end is left, and one limit, of the whole connection or of the stream, has no credit. */
  predicate NoRoom(send: map<nat, Source>, link: Link, links: map<nat, Link>, id: nat, whole: bool) {
    && id in send && id in links && OnlyEnd(send[id].state)
    && (if whole then link else links[id]).sender.Available() == 0
  }

  lemma TakeQueued(s: SendState, max: nat)
    requires s.resend != []
    ensures s.Take(max).0 == s.(resend := s.Take(max).0.resend)
  {
  }

  lemma VisitNoRoom(f: Filling, id: nat, whole: bool, j: nat, room: nat)
    requires NoRoom(f.send, f.link, f.links, id, whole)
    ensures var r := Visit(f, j, room); NoRoom(r.send, r.link, r.links, id, whole)
  {
    hide SendState.Take, Encode;
    if j in f.send && j in f.links && f.send[j].state.resend != [] {
      TakeQueued(f.send[j].state, Allowance(f, j, room));
    }
  }

  lemma {:induction false} VisitAllNoRoom(f: Filling, id: nat, whole: bool, ids: seq<nat>, room: nat)
    requires NoRoom(f.send, f.link, f.links, id, whole)
    ensures var r := VisitAll(f, ids, room); NoRoom(r.send, r.link, r.links, id, whole)
  {
    hide NoRoom, Visit;
    if ids != [] {
      VisitAllNoRoom(f, id, whole, ids[..|ids| - 1], room);
      VisitNoRoom(VisitAll(f, ids[..|ids| - 1], room), id, whole, ids[|ids| - 1], room);
    }
  }

  /** The limit without credit is a frozen one. */
  ghost predicate Behind(start: Session, s: Session, id: nat, whole: bool) {
    && Held(start, s) && NoRoom(s.conn.send, s.link, s.links, id, whole)
    && Frozen(if whole then start.link else start.links[id])
  }

  lemma SendBehind(s: Session, id: nat, whole: bool, room: nat, ping: bool, now: nat, size: nat)
    requires Inv(s) && NoRoom(s.conn.send, s.link, s.links, id, whole)
    ensures var s' := S.DoSend(s, room, ping, now, size); NoRoom(s'.conn.send, s'.link, s'.links, id, whole)
  {
    hide Inv, VisitAll, FillOk, Fill, NoRoom, Onward;
    BeginOk(s);
    VisitAllOk(Begin(s), s.order, room, s.order);
    VisitAllNoRoom(Begin(s), id, whole, s.order, room);
  }

  lemma NetBehind(s: Session, id: nat, whole: bool, step: Delivery.Step)
    requires Inv(s) && NoRoom(s.conn.send, s.link, s.links, id, whole) && IsNet(step) && !step.Write?
    ensures NoRoom(Delivery.Next(s.conn, step).send, s.link, s.links, id, whole)
  {
    hide Inv, Good, Delivery.Next;
    InvGood(s);
    NetFrame(s.conn, step);
  }

  /** A frozen limit that is held is neither updated nor raised. */
  lemma LimitBehind(a: Link, b: Link, ad: nat)
    requires Sane(b) && HeldLink(a, b) && Frozen(a) && ad !in a.ads
    ensures Update(b) == b && Arrive(b, ad) == b
  {
    FrozenStays(b, b.receiver.window);
  }

  /** Other limits may be renewed; this one has no credit before and after. */
  lemma LimitNoRoom(s: Session, id: nat, whole: bool, link: Link, links: map<nat, Link>)
    requires NoRoom(s.conn.send, s.link, s.links, id, whole) && links.Keys == s.links.Keys
    requires if whole then link.sender == s.link.sender else links[id].sender == s.links[id].sender
    ensures NoRoom(s.conn.send, link, links, id, whole)
  {
  }

  lemma NextNoRoom(start: Session, s: Session, id: nat, whole: bool, step: Step)
    requires Inv(s) && Behind(start, s, id, whole) && QuietStep(step, start)
    ensures var s' := S.Next(s, step); NoRoom(s'.conn.send, s'.link, s'.links, id, whole)
  {
    hide Inv, Sane, Update, Arrive, S.DoSend, S.DoConsume, Delivery.Next, DoStart, NoRoom, Frozen, HeldLink;
    LimitsSane(s);
    NoRoomKnown(s, id, whole);
    match step
    case Start(id) =>
    case Net(step) => if IsNet(step) { NetBehind(s, id, whole, step); }
    case Send(room, ping, now, size) => SendBehind(s, id, whole, room, ping, now, size);
    case Consume(j) =>
      ConsumeFrame(s, j);
      LimitNoRoom(s, id, whole, S.DoConsume(s, j).link, S.DoConsume(s, j).links);
    case UpdateConn =>
      UpdateSane(s.link);
      LimitNoRoom(s, id, whole, Update(s.link), s.links);
    case UpdateStream(j) =>
      if j in s.links {
        UpdateSane(s.links[j]);
        LimitNoRoom(s, id, whole, s.link, s.links[j := Update(s.links[j])]);
      }
    case ArriveConn(ad) =>
      if whole { LimitBehind(start.link, s.link, ad); }
      LimitNoRoom(s, id, whole, Arrive(s.link, ad), s.links);
    case ArriveStream(j, ad) =>
      if j in s.links {
        if j == id && !whole { LimitBehind(start.links[id], s.links[id], ad); }
        LimitNoRoom(s, id, whole, s.link, s.links[j := Arrive(s.links[j], ad)]);
      }
  }

  lemma NoRoomKnown(s: Session, id: nat, whole: bool)
    requires NoRoom(s.conn.send, s.link, s.links, id, whole)
    ensures id in s.conn.send && id in s.links
  {
  }

  lemma NextBehind(start: Session, s: Session, id: nat, whole: bool, step: Step)
    requires Inv(s) && Behind(start, s, id, whole) && QuietStep(step, start)
    ensures Behind(start, S.Next(s, step), id, whole)
  {
    hide Inv, Held, S.Next, NoRoom, QuietStep, Frozen;
    NextHeld(start, s, step);
    NextNoRoom(start, s, id, whole, step);
  }

  lemma {:induction false} ExtendBehind(start: Session, s: Session, id: nat, whole: bool, steps: seq<Step>)
    requires Inv(s) && Behind(start, s, id, whole) && Quiet(steps, start)
    ensures Inv(S.Extend(s, steps)) && Behind(start, S.Extend(s, steps), id, whole)
    decreases |steps|
  {
    hide Inv, Behind, S.Next, QuietStep;
    if steps != [] {
      NextInv(s, steps[0]);
      NextBehind(start, s, id, whole, steps[0]);
      ExtendBehind(start, S.Next(s, steps[0]), id, whole, steps[1..]);
    }
  }

  /**
   * Without a byte of credit on a frozen limit not even the end of a stream goes out: in
   * no continuation into which no update sent so far arrives is the application told of it.
   */
  lemma EndNeverSeen(s: Session, id: nat, whole: bool, more: seq<Step>)
    requires Inv(s) && NoRoom(s.conn.send, s.link, s.links, id, whole)
    requires Frozen(if whole then s.link else s.links[id]) && Quiet(more, s)
    ensures var s' := S.Extend(s, more);
            id in s'.conn.send && !s'.conn.send[id].state.finSent && !TargetOf(s'.conn.recv, id).ended
  {
    hide Inv, Quiet, S.Extend;
    ExtendBehind(s, s, id, whole, more);
    InvGood(S.Extend(s, more));
    EndedWasSent(S.Extend(s, more).conn, id);
  }

  lemma EndedWasSent(c: Conn, id: nat)
    requires Good(c) && id in c.send && !c.send[id].state.finSent
    ensures !TargetOf(c.recv, id).ended
  {
    hide Ledger, Records, Acknowledged, Tracked;
  }
}
