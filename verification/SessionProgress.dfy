/**
 * What can still be delivered. From every state a run can reach, whatever was lost so far,
 * rounds of small packets go on until all is delivered, unless the updates of a limit were
 * lost; and it is exactly then that some data can never be delivered.
 */
module SessionProgress {
  import opened Common
  import opened Coding
  import opened Frames
  import opened FrameLaws
  import opened Acks
  import opened SentPackets
  import opened Reassembly
  import opened Streams
  import opened Delivery
  import opened DeliveryProof
  import opened FlowControl
  import opened S = Session
  import T = Track

  type Step = S.Step

  // ------------------------------------------------------------------ what is owed

  function Queued(segs: seq<Segment>): (n: nat) {
    if segs == [] then 0 else |segs[0].data| + 1 + Queued(segs[1..])
  }

  /** How many frames a stream can still fill, at a byte each. */
  function Owed(s: SendState): (n: nat) {
    Queued(s.resend) + |s.buf| + if s.fin && !s.finSent then 1 else 0
  }

  function OwedOf(send: map<nat, Source>): (f: nat -> nat) { id => if id in send then Owed(send[id].state) else 0 }

  function Work(s: Session): (n: nat) { Sum(s.order, OwedOf(s.conn.send)) }

  lemma TakeOwes(s: SendState, max: nat)
    requires max > 0 && s.HasPending()
    ensures Owed(s.Take(max).0) < Owed(s)
  {
    if s.resend != [] && |s.resend[0].data| > max {
      var tail := Segment(s.resend[0].offset + max, s.resend[0].data[max..], s.resend[0].fin);
      assert s.resend[0 := tail][1..] == s.resend[1..];
    }
  }

  /** A stream that a packet can serve. */
  predicate Able(f: Filling, id: nat) {
    && id in f.send && id in f.links && f.send[id].state.HasPending()
    && (f.send[id].state.resend != [] || (f.link.sender.Available() > 0 && f.links[id].sender.Available() > 0))
  }

  ghost predicate Less(f: Filling, r: Filling, order: seq<nat>) {
    Sum(order, OwedOf(r.send)) < Sum(order, OwedOf(f.send)) && r.frames != []
  }

  lemma VisitOwes(f: Filling, id: nat, room: nat, order: seq<nat>)
    requires FillOk(f, order)
    ensures Visit(f, id, room) == f || Less(f, Visit(f, id, room), order)
    ensures f.used == 0 && room > 0 && Able(f, id) ==> Visit(f, id, room) != f
  {
    hide Sum, Encode, SendState.Take, Faithful, Sane, Ascending, SendState.HasPending, Owed;
    var r := Visit(f, id, room);
    if id in f.send && id in f.links && f.send[id].state.HasPending() && Allowance(f, id, room) > 0 {
      TakeProgress(f.send[id].state, Allowance(f, id, room));
      TakeOwes(f.send[id].state, Allowance(f, id, room));
      SumSwap(order, OwedOf(f.send), OwedOf(r.send), id);
    }
  }

  lemma {:induction false} VisitAllOwes(f: Filling, ids: seq<nat>, room: nat, order: seq<nat>)
    requires FillOk(f, order) && f.used == 0 && room > 0 && f.picks == [] && f.frames == []
    ensures var r := VisitAll(f, ids, room);
            && (r == f || Less(f, r, order))
            && ((exists id :: id in ids && Able(f, id)) ==> r != f)
  {
    hide FillOk, Visit, Able, Sum;
    if ids != [] {
      var front, last := ids[..|ids| - 1], ids[|ids| - 1];
      assert ids == front + [last];
      VisitAllOwes(f, front, room, order);
      VisitAllOk(f, front, room, order);
      VisitOwes(VisitAll(f, front, room), last, room, order);
    }
  }

  // ------------------------------------------------------------------ continuations

  /** Nothing is written, and no update arrives that was sent before `start`. */
  predicate QuietStep(step: Step, start: Session) {
    && !step.Start? && !(step.Net? && step.step.Write?)
    && (step.ArriveConn? ==> step.ad !in start.link.ads)
    && (step.ArriveStream? && step.id in start.links ==> step.ad !in start.links[step.id].ads)
  }

  predicate Quiet(steps: seq<Step>, start: Session) {
    forall i :: 0 <= i < |steps| ==> QuietStep(steps[i], start)
  }

  /** Packets have room for `m` bytes and are sent only when none is outstanding. */
  predicate Paced(s: Session, steps: seq<Step>, m: nat)
    decreases |steps|
  {
    steps == [] || (&& (steps[0].Send? ==> steps[0].room == m && s.conn.sent.sent == map[])
                    && Paced(S.Next(s, steps[0]), steps[1..], m))
  }

  ghost predicate Calm(s: Session, steps: seq<Step>, m: nat, start: Session) {
    Quiet(steps, start) && Paced(s, steps, m)
  }

  lemma CalmFirst(s: Session, step: Step, rest: seq<Step>, m: nat, start: Session)
    requires QuietStep(step, start) && !step.Send? && Calm(S.Next(s, step), rest, m, start)
    ensures Calm(s, [step] + rest, m, start) && S.Extend(s, [step] + rest) == S.Extend(S.Next(s, step), rest)
  {
    hide S.Next;
    assert ([step] + rest)[1..] == rest;
  }

  lemma {:induction false} CalmJoin(s: Session, a: seq<Step>, b: seq<Step>, m: nat, start: Session)
    requires Calm(s, a, m, start) && Calm(S.Extend(s, a), b, m, start)
    ensures Calm(s, a + b, m, start) && S.Extend(s, a + b) == S.Extend(S.Extend(s, a), b)
    decreases |a|
  {
    hide S.Next, QuietStep;
    if a == [] {
      assert a + b == b;
    } else {
      assert (a + b)[1..] == a[1..] + b;
      CalmJoin(S.Next(s, a[0]), a[1..], b, m, start);
    }
  }

  /** Limits frozen at first stay as they are; the others are not frozen later. */
  predicate Tame(a: Link, b: Link) {
    && b.receiver.window == a.receiver.window && b.receiver.max >= a.receiver.max && a.ads <= b.ads
    && (if Frozen(a) then b.sender.max == a.sender.max && b.receiver.max == a.receiver.max else !Frozen(b))
  }

  /** What holds between a state and a later one of a calm continuation. */
  ghost predicate Continues(a: Session, b: Session) {
    && b.order == a.order && b.conn.send.Keys == a.conn.send.Keys && b.links.Keys == a.links.Keys
    && (forall id :: id in a.conn.send ==> SameStream(a.conn.send[id], b.conn.send[id]))
    && Tame(a.link, b.link) && (forall id :: id in a.links ==> Tame(a.links[id], b.links[id]))
    && b.conn.nextPn + Work(b) <= a.conn.nextPn + Work(a)
  }

  lemma ContinuesTwice(a: Session, b: Session, c: Session)
    requires Continues(a, b) && Continues(b, c)
    ensures Continues(a, c)
  {
    hide Work, OnlyEnd;
  }

  lemma ContinuesSelf(a: Session)
    ensures Continues(a, a)
  {
    hide Work, OnlyEnd;
  }

  /** The sending side and the limits are as they were. */
  ghost predicate SameSender(a: Session, b: Session) {
    && b == a.(conn := b.conn, link := b.link, links := b.links) && b.conn.send == a.conn.send
    && b.conn.nextPn == a.conn.nextPn
  }

  // ---------------------------------------------------------------- delivering all

  lemma NetDeliver(s: Session, pn: nat)
    requires Inv(s) && pn in s.conn.log
    ensures var s' := S.Next(s, Net(Deliver(pn)));
            && Inv(s') && s' == s.(conn := s'.conn) && SameSender(s, s')
            && s'.conn.sent == s.conn.sent && s'.conn.log == s.conn.log && s'.conn.acks == s.conn.acks
            && Has(s'.conn.received, pn) && (forall q: nat :: Has(s.conn.received, q) ==> Has(s'.conn.received, q))
  {
    hide DoDeliver, Inv, Has;
    NextInv(s, Net(Deliver(pn)));
    InvGood(s);
    DeliverOne(s.conn, pn);
  }

  lemma DeliverOne(c: Conn, pn: nat)
    requires Good(c) && pn in c.log
    ensures var c' := DoDeliver(c, pn);
            && c'.send == c.send && c'.sent == c.sent && c'.log == c.log && c'.nextPn == c.nextPn && c'.acks == c.acks
            && (forall q: nat :: Has(c.received, q) || q == pn ==> Has(c'.received, q))
  {
    hide Tracked, Ledger, Records, Finished, Handle, OnPayload, Payload, InsertPn, Has;
    HandleAll(c, pn);
    InsertCorrect(c.received, pn);
  }

  lemma {:induction false} DeliverEach(s: Session, pns: seq<nat>, m: nat, start: Session) returns (steps: seq<Step>)
    requires Inv(s) && forall i :: 0 <= i < |pns| ==> pns[i] in s.conn.log
    ensures Calm(s, steps, m, start)
    ensures var s' := S.Extend(s, steps);
            && Inv(s') && s' == s.(conn := s'.conn) && SameSender(s, s')
            && s'.conn.sent == s.conn.sent
            && (forall i :: 0 <= i < |pns| ==> Has(s'.conn.received, pns[i]))
            && (forall q: nat :: Has(s.conn.received, q) ==> Has(s'.conn.received, q))
    decreases |pns|
  {
    hide Inv, S.Next, Has;
    if pns == [] {
      steps := [];
    } else {
      NetDeliver(s, pns[0]);
      var rest := DeliverEach(S.Next(s, Net(Deliver(pns[0]))), pns[1..], m, start);
      steps := [Net(Deliver(pns[0]))] + rest;
      CalmFirst(s, Net(Deliver(pns[0])), rest, m, start);
      assert forall i :: 0 < i < |pns| ==> pns[i] == pns[1..][i - 1];
    }
  }

  // --------------------------------------------------------------- acknowledging all

  /** The newest ACK of a receiver that has every outstanding packet settles them all. */
  lemma AckEmpties(c: Conn)
    requires Good(c) && c.received != [] && forall pn :: pn in c.sent.sent ==> Has(c.received, pn)
    ensures var c1 := DoSendAck(c, 0);
            var c2 := DoDeliverAck(c1, |c.acks|);
            && c2.sent.sent == map[] && c2.send == c.send && c2.nextPn == c.nextPn && c2.recv == c.recv
  {
    hide Tracked, Ledger, Finished, Records, WellFormed, ExpandAck, Has, DecodeFrame, Encode, ApplyAck;
    hide Canonical, ToAck;
    var c1 := DoSendAck(c, 0);
    SendAckGood(c, 0);
    AckReceived(c);
    var f := c1.acks[|c.acks|];
    RoundTrip(f, []);
    assert Encode(f) + [] == Encode(f);
    KeyedRecords(c);
    OnAckExact(c.sent, f.largest, f.firstRange, f.ranges);
    assert forall pn :: pn !in ApplyAck(c.sent, f.largest, f.firstRange, f.ranges).0.sent;
  }

  lemma KeyedRecords(c: Conn)
    requires Good(c)
    ensures Keyed(c.sent.sent) && Canonical(c.received)
  {
  }

  lemma AckReceived(c: Conn)
    requires Good(c) && c.received != []
    ensures var c1 := DoSendAck(c, 0);
            && c1 == c.(acks := c1.acks) && |c1.acks| == |c.acks| + 1
            && var f := c1.acks[|c.acks|];
               && f.Ack? && WellFormed(f)
               && (forall pn: nat :: Has(ExpandAck(f.largest, f.firstRange, f.ranges), pn) <==> Has(c.received, pn))
  {
    hide Tracked, FramesOk, Finished, Records, WellFormed, ExpandAck, Has, Honest;
    TopHas(c.received);
    AckWellFormed(c.received, 0);
    AckDenotes(c.received, 0);
  }

  lemma AckAll(s: Session, m: nat, start: Session) returns (steps: seq<Step>)
    requires Inv(s) && forall pn :: pn in s.conn.sent.sent ==> Has(s.conn.received, pn)
    ensures Calm(s, steps, m, start)
    ensures var s' := S.Extend(s, steps);
            Inv(s') && s' == s.(conn := s'.conn) && SameSender(s, s') && s'.conn.sent.sent == map[]
  {
    hide Has, Inv, DoSendAck, DoDeliverAck;
    if s.conn.sent.sent == map[] {
      steps := [];
    } else {
      var pn :| pn in s.conn.sent.sent;
      HasSome(s.conn.received, pn);
      InvGood(s);
      AckEmpties(s.conn);
      var ack, settle := Net(SendAck(0)), Net(DeliverAck(|s.conn.acks|));
      NextInv(s, ack);
      NextInv(S.Next(s, ack), settle);
      CalmFirst(S.Next(s, ack), settle, [], m, start);
      CalmFirst(s, ack, [settle] + [], m, start);
      steps := [ack] + ([settle] + []);
    }
  }

  lemma InvGood(s: Session)
    requires Inv(s)
    ensures Good(s.conn)
  {
    hide Good, Charged, Consumed;
  }

  lemma HasSome(rs: seq<Range>, pn: nat)
    requires Has(rs, pn)
    ensures rs != []
  {
  }

  // ------------------------------------------------------------------- reading all

  /** The application has everything that was sent of the stream, and its end if that was sent. */
  predicate ReadUp(c: Conn, id: nat)
    requires id in c.send
  {
    var Source(w, state) := c.send[id];
    && state.base <= |w| && TargetOf(c.recv, id).read == w[..state.base]
    && (state.finSent ==> TargetOf(c.recv, id).ended)
  }

  /** With no packet outstanding and nothing queued, one read hands over all that was sent. */
  lemma ReadsUp(c: Conn, id: nat)
    requires Good(c) && id in c.send && c.sent.sent == map[] && c.send[id].state.resend == []
    ensures var target := TargetOf(c.recv, id);
            var Source(w, state) := c.send[id];
            && state.base <= |w| && target.read + target.state.Read().1 == w[..state.base]
            && (state.finSent ==> target.state.Read().2)
  {
    hide Good, T.Intact, KeptPns, RecvState.Read;
    StreamOf(c, id);
    assert TrackOf(c, id).open == {};
    hide Carried, OpenPns;
    T.SentDelivered(TrackOf(c, id));
  }

  lemma ConsumeFrame(s: Session, id: nat)
    ensures var s' := S.DoConsume(s, id);
            && SameSender(s, s') && s'.conn.sent == s.conn.sent && Used(s, s')
            && (forall j :: j != id ==> TargetOf(s'.conn.recv, j) == TargetOf(s.conn.recv, j))
  {
    hide RecvState.Read;
  }

  lemma ConsumeReadsUp(s: Session, id: nat)
    requires Inv(s) && id in s.conn.send && s.conn.sent.sent == map[] && s.conn.send[id].state.resend == []
    ensures var s' := S.DoConsume(s, id); s'.conn.send == s.conn.send && ReadUp(s'.conn, id)
  {
    hide Inv, Good, RecvState.Read;
    InvGood(s);
    LinkedStreams(s);
    ReadsUp(s.conn, id);
    if id !in s.conn.recv {
      NothingToRead();
    }
  }

  lemma ConsumeNext(s: Session, id: nat)
    ensures S.Next(s, Step.Consume(id)) == S.DoConsume(s, id)
  {
    hide S.DoConsume;
  }

  lemma NothingToRead()
    ensures NEW_RECV.Read() == (NEW_RECV, [], false)
  {
  }

  lemma LinkedStreams(s: Session)
    requires Inv(s)
    ensures s.links.Keys == s.conn.send.Keys
    ensures (forall id :: id in s.conn.send <==> id in s.order) && Ascending(s.order)
  {
    hide Good, Consumed, Sum, Sane, Faithful, Ascending;
  }

  /** Limits differ in what was consumed only. */
  predicate Used(a: Session, b: Session) {
    && b.links.Keys == a.links.Keys && UsedLink(a.link, b.link)
    && (forall id :: id in a.links ==> UsedLink(a.links[id], b.links[id]))
  }

  predicate UsedLink(a: Link, b: Link) {
    b == a.(receiver := a.receiver.(consumed := b.receiver.consumed))
  }

  lemma {:induction false} ReadEach(s: Session, ids: seq<nat>, m: nat, start: Session) returns (steps: seq<Step>)
    requires Inv(s) && Ascending(ids) && (forall id :: id in ids ==> id in s.conn.send) && s.conn.sent.sent == map[]
    ensures Calm(s, steps, m, start)
    ensures var s' := S.Extend(s, steps);
            && Inv(s') && SameSender(s, s') && s'.conn.sent == s.conn.sent && Used(s, s')
            && (forall id :: id in ids && s.conn.send[id].state.resend == [] ==> ReadUp(s'.conn, id))
            && (forall id :: id !in ids ==> TargetOf(s'.conn.recv, id) == TargetOf(s.conn.recv, id))
    decreases |ids|
  {
    hide Inv, S.Next;
    if ids == [] {
      steps := [];
    } else {
      NextInv(s, Step.Consume(ids[0]));
      ConsumeNext(s, ids[0]);
      ConsumeFrame(s, ids[0]);
      if s.conn.send[ids[0]].state.resend == [] {
        ConsumeReadsUp(s, ids[0]);
      }
      hide S.DoConsume;
      var s1 := S.Next(s, Step.Consume(ids[0]));
      var rest := ReadEach(s1, ids[1..], m, start);
      steps := [Step.Consume(ids[0])] + rest;
      CalmFirst(s, Step.Consume(ids[0]), rest, m, start);
      assert ids == [ids[0]] + ids[1..] && ids[0] !in ids[1..];
    }
  }

  // ---------------------------------------------------------------- renewing limits

  /** The receiver renews the limit if it can, and the update arrives. */
  function Renewed(l: Link): (r: Link) {
    if l.receiver.MaybeUpdate().1.None? then l else Arrive(Update(l), Update(l).receiver.max)
  }

  predicate Renewable(l: Link) { l.receiver.MaybeUpdate().1.Some? }

  lemma RenewedTame(l: Link)
    requires Sane(l)
    ensures Tame(l, Renewed(l)) && !Renewable(Renewed(l))
    ensures Renewable(l) ==> Update(l).receiver.max !in l.ads
  {
  }

  lemma RenewConn(s: Session, m: nat, start: Session) returns (steps: seq<Step>)
    requires Inv(s) && start.link.ads <= s.link.ads
    ensures Calm(s, steps, m, start) && S.Extend(s, steps) == s.(link := Renewed(s.link))
    ensures Inv(S.Extend(s, steps))
  {
    hide Inv, Arrive, Update;
    LimitsSane(s);
    RenewedTame(s.link);
    if Renewable(s.link) {
      var update, arrive := Step.UpdateConn, Step.ArriveConn(Update(s.link).receiver.max);
      CalmFirst(S.Next(s, update), arrive, [], m, start);
      CalmFirst(s, update, [arrive] + [], m, start);
      steps := [update] + ([arrive] + []);
    } else {
      steps := [];
    }
    ExtendInv(s, steps);
  }

  lemma RenewStream(s: Session, id: nat, m: nat, start: Session) returns (steps: seq<Step>)
    requires Inv(s) && id in s.links && (id in start.links ==> start.links[id].ads <= s.links[id].ads)
    ensures Calm(s, steps, m, start) && S.Extend(s, steps) == s.(links := s.links[id := Renewed(s.links[id])])
    ensures Inv(S.Extend(s, steps))
  {
    hide Inv, Arrive, Update;
    LimitsSane(s);
    RenewedTame(s.links[id]);
    if Renewable(s.links[id]) {
      var update, arrive := Step.UpdateStream(id), Step.ArriveStream(id, Update(s.links[id]).receiver.max);
      CalmFirst(S.Next(s, update), arrive, [], m, start);
      CalmFirst(s, update, [arrive] + [], m, start);
      steps := [update] + ([arrive] + []);
    } else {
      steps := [];
      assert s.links[id := s.links[id]] == s.links;
    }
    ExtendInv(s, steps);
  }

  lemma {:induction false} RenewEach(s: Session, ids: seq<nat>, m: nat, start: Session) returns (steps: seq<Step>)
    requires Inv(s) && Ascending(ids) && (forall id :: id in ids ==> id in s.links)
    requires forall id :: id in ids && id in start.links ==> start.links[id].ads <= s.links[id].ads
    ensures Calm(s, steps, m, start)
    ensures var s' := S.Extend(s, steps);
            && Inv(s') && s' == s.(links := s'.links) && s'.links.Keys == s.links.Keys
            && (forall id :: id in s.links ==> s'.links[id] == if id in ids then Renewed(s.links[id]) else s.links[id])
    decreases |ids|
  {
    hide Inv, S.Next, Renewed;
    if ids == [] {
      steps := [];
    } else {
      var one := RenewStream(s, ids[0], m, start);
      var s1 := S.Extend(s, one);
      assert ids == [ids[0]] + ids[1..] && ids[0] !in ids[1..];
      var rest := RenewEach(s1, ids[1..], m, start);
      steps := one + rest;
      CalmJoin(s, one, rest, m, start);
    }
  }

  // ------------------------------------------------------------------- one round

  /** Nothing is on its way, everything that arrived is read, every limit is renewed. */
  ghost predicate AtRest(s: Session) {
    && s.conn.sent.sent == map[] && Caught(s.conn)
    && !Renewable(s.link) && (forall id :: id in s.links ==> !Renewable(s.links[id]))
  }

  ghost predicate Caught(c: Conn) {
    forall id :: id in c.send && c.send[id].state.resend == [] ==> ReadUp(c, id)
  }

  /** A listing of the outstanding packet numbers. */
  ghost function Listed(pns: set<nat>): (s: seq<nat>)
    ensures forall pn :: pn in pns <==> pn in s
    decreases pns
  {
    if pns == {} then []
    else
      var pn :| pn in pns;
      Listed(pns - {pn}) + [pn]
  }

  lemma OutstandingLogged(s: Session)
    requires Inv(s)
    ensures forall pn :: pn in s.conn.sent.sent ==> pn in s.conn.log
  {
  }

  /** Delivers and acknowledges all packets and reads all streams. */
  lemma Gather(s: Session, m: nat, start: Session) returns (steps: seq<Step>)
    requires Inv(s)
    ensures Calm(s, steps, m, start)
    ensures var s' := S.Extend(s, steps);
            Inv(s') && SameSender(s, s') && Used(s, s') && s'.conn.sent.sent == map[] && Caught(s'.conn)
  {
    hide Inv, Calm, S.Extend, Has;
    OutstandingLogged(s);
    var pns := Listed(s.conn.sent.sent.Keys);
    assert forall i :: 0 <= i < |pns| ==> pns[i] in pns;
    var a := DeliverEach(s, pns, m, start);
    var s1 := S.Extend(s, a);
    assert forall pn :: pn in s1.conn.sent.sent ==> pn in pns;
    var b := AckAll(s1, m, start);
    var s2 := S.Extend(s1, b);
    LinkedStreams(s2);
    var c := ReadEach(s2, s2.order, m, start);
    CalmJoin(s, a, b, m, start);
    CalmJoin(s, a + b, c, m, start);
    steps := a + b + c;
  }

  /** Renews all limits. */
  lemma Renew(s: Session, m: nat, start: Session) returns (steps: seq<Step>)
    requires Inv(s) && start.link.ads <= s.link.ads && start.links.Keys == s.links.Keys
    requires forall id :: id in s.links ==> start.links[id].ads <= s.links[id].ads
    ensures Calm(s, steps, m, start)
    ensures var s' := S.Extend(s, steps);
            && Inv(s') && s' == s.(link := Renewed(s.link), links := s'.links) && s'.links.Keys == s.links.Keys
            && (forall id :: id in s.links ==> s'.links[id] == Renewed(s.links[id]))
  {
    hide Inv, Calm, S.Extend, Renewed;
    LinkedStreams(s);
    var a := RenewConn(s, m, start);
    var b := RenewEach(S.Extend(s, a), s.order, m, start);
    CalmJoin(s, a, b, m, start);
    steps := a + b;
  }

  lemma Settle(s: Session, m: nat, start: Session) returns (steps: seq<Step>)
    requires Inv(s) && Continues(start, s)
    ensures Calm(s, steps, m, start)
    ensures var s' := S.Extend(s, steps); Inv(s') && AtRest(s') && Continues(s, s') && SameSender(s, s')
  {
    hide Inv, Calm, S.Extend, Renewed, Caught, Work;
    var a := Gather(s, m, start);
    var s1 := S.Extend(s, a);
    var b := Renew(s1, m, start);
    CalmJoin(s, a, b, m, start);
    steps := a + b;
    RenewedRest(s, s1, S.Extend(s1, b));
  }

  lemma RenewedRest(s: Session, s1: Session, s2: Session)
    requires Inv(s) && Inv(s1) && SameSender(s, s1) && Used(s, s1) && s1.conn.sent.sent == map[] && Caught(s1.conn)
    requires s2 == s1.(link := Renewed(s1.link), links := s2.links) && s2.links.Keys == s1.links.Keys
    requires forall id :: id in s1.links ==> s2.links[id] == Renewed(s1.links[id])
    ensures AtRest(s2) && Continues(s, s2) && SameSender(s, s2)
  {
    hide Inv, Renewed, Caught, Sane, Sum, OnlyEnd, Renewable, OwedOf;
    LimitsSane(s1);
    RenewedTame(s1.link);
    forall id | id in s1.links
      ensures Tame(s1.links[id], Renewed(s1.links[id])) && !Renewable(Renewed(s1.links[id]))
    {
      RenewedTame(s1.links[id]);
    }
  }

  // ---------------------------------------------------------------- send or stop

  lemma SendShape(s: Session, m: nat)
    requires var f := VisitAll(Begin(s), s.order, m);
             Fill(s.conn.send, f.picks) == (f.send, f.frames) && f.frames != [] && Fits(s.conn.nextPn)
    ensures var f := VisitAll(Begin(s), s.order, m);
            var s' := S.DoSend(s, m, false, 0, 0);
            && s' == s.(conn := s'.conn, link := f.link, links := f.links)
            && s'.conn.send == f.send && s'.conn.nextPn == s.conn.nextPn + 1
  {
    hide VisitAll, Fill;
  }

  lemma SendWorks(s: Session, m: nat)
    requires Inv(s) && m > 0 && Fits(s.conn.nextPn) && exists id :: id in s.order && Able(Begin(s), id)
    ensures var s' := S.DoSend(s, m, false, 0, 0);
            && Inv(s') && Work(s') < Work(s) && s'.conn.nextPn == s.conn.nextPn + 1 && Continues(s, s')
  {
    hide Inv, Sum, VisitAll, Able, FillOk, OwedOf, S.DoSend, Fill, OnlyEnd;
    SendInv(s, m, false, 0, 0);
    BeginOk(s);
    VisitAllOk(Begin(s), s.order, m, s.order);
    VisitAllOwes(Begin(s), s.order, m, s.order);
    SendShape(s, m);
  }

  lemma BeginOk(s: Session)
    requires Inv(s)
    ensures FillOk(Begin(s), s.order)
  {
    hide Good, Charged, Consumed;
  }

  /** A stream still has something to send only if a limit it needs is stalled. */
  ghost predicate DrainedStream(s: Session, id: nat)
    requires id in s.conn.send && id in s.links
  {
    && s.conn.send[id].state.resend == [] && ReadUp(s.conn, id)
    && (s.conn.send[id].state.HasPending() ==> Stalled(s.link) || Stalled(s.links[id]))
  }

  ghost predicate Drained(s: Session) {
    s.links.Keys == s.conn.send.Keys && forall id :: id in s.conn.send ==> DrainedStream(s, id)
  }

  lemma StalledAt(l: Link)
    requires Sane(l) && !Renewable(l) && l.sender.Available() == 0 && l.receiver.consumed == l.sender.sent
    ensures Stalled(l)
  {
  }

  lemma QueuesEmpty(s: Session, id: nat)
    requires Inv(s) && id in s.conn.send && !Able(Begin(s), id)
    ensures s.conn.send[id].state.resend == []
  {
    hide Good, Consumed, Sum, Sane, Ascending;
    assert Faithful(s.conn.send[id].state, s.conn.send[id].written);
  }

  /** When all is read up, what was sent is consumed, on each stream and in total. */
  lemma AllConsumed(s: Session)
    requires Inv(s) && forall id :: id in s.conn.send ==> ReadUp(s.conn, id)
    ensures forall id :: id in s.links ==> s.links[id].receiver.consumed == s.links[id].sender.sent
    ensures s.link.receiver.consumed == s.link.sender.sent
  {
    hide Good, Sum, Sane, Ascending, Faithful;
    SumSame(s.order, SentOf(s.links), ConsumedOf(s.links));
  }

  lemma RestDrained(s: Session)
    requires Inv(s) && AtRest(s) && forall id :: id in s.order ==> !Able(Begin(s), id)
    ensures Drained(s)
  {
    hide Inv, Able, ReadUp, Sane, Renewable, Stalled;
    LinkedStreams(s);
    LimitsSane(s);
    forall id | id in s.conn.send
      ensures s.conn.send[id].state.resend == [] && ReadUp(s.conn, id)
    {
      QueuesEmpty(s, id);
    }
    AllConsumed(s);
    forall id | id in s.conn.send
      ensures DrainedStream(s, id)
    {
      if s.conn.send[id].state.HasPending() {
        NoCredit(s, id);
      }
    }
  }

  lemma NoCredit(s: Session, id: nat)
    requires id in s.conn.send && id in s.links && s.conn.send[id].state.HasPending() && !Able(Begin(s), id)
    requires Sane(s.link) && Sane(s.links[id]) && !Renewable(s.link) && !Renewable(s.links[id])
    requires s.link.receiver.consumed == s.link.sender.sent
    requires s.links[id].receiver.consumed == s.links[id].sender.sent
    ensures Stalled(s.link) || Stalled(s.links[id])
  {
    hide Sane, Renewable, Stalled, SendState.HasPending;
    if s.link.sender.Available() == 0 {
      StalledAt(s.link);
    } else {
      StalledAt(s.links[id]);
    }
  }

  lemma AbleOwes(s: Session, id: nat)
    requires id in s.order && Able(Begin(s), id)
    ensures Work(s) > 0
  {
    SumPart(s.order, OwedOf(s.conn.send), id);
  }

  lemma CalmSend(s: Session, rest: seq<Step>, m: nat, start: Session)
    requires s.conn.sent.sent == map[]
    requires Calm(S.DoSend(s, m, false, 0, 0), rest, m, start)
    ensures var steps := [Step.Send(m, false, 0, 0)] + rest;
            Calm(s, steps, m, start) && S.Extend(s, steps) == S.Extend(S.DoSend(s, m, false, 0, 0), rest)
  {
    hide S.DoSend;
    assert ([Step.Send(m, false, 0, 0)] + rest)[1..] == rest;
  }

  /** Rounds of settling and sending, until there is nothing a packet could serve. */
  lemma {:induction false} Drain(s: Session, m: nat, start: Session) returns (steps: seq<Step>)
    requires Inv(s) && m > 0 && Continues(start, s) && s.conn.nextPn + Work(s) <= VARINT_MAX + 1
    ensures Calm(s, steps, m, start)
    ensures var s' := S.Extend(s, steps); Inv(s') && Continues(s, s') && Drained(s')
    decreases Work(s)
  {
    hide Inv, Calm, S.Extend, Sum, AtRest, Able, Continues, S.DoSend, Drained;
    var a := Settle(s, m, start);
    var s1 := S.Extend(s, a);
    assert Work(s1) == Work(s);
    ContinuesTwice(start, s, s1);
    if exists id :: id in s1.order && Able(Begin(s1), id) {
      var id :| id in s1.order && Able(Begin(s1), id);
      AbleOwes(s1, id);
      SendWorks(s1, m);
      var s2 := S.DoSend(s1, m, false, 0, 0);
      ContinuesTwice(start, s1, s2);
      var rest := Drain(s2, m, start);
      RestEmpty(s1);
      CalmSend(s1, rest, m, start);
      CalmJoin(s, a, [Step.Send(m, false, 0, 0)] + rest, m, start);
      steps := a + ([Step.Send(m, false, 0, 0)] + rest);
      ContinuesTwice(s, s1, s2);
      ContinuesTwice(s, s2, S.Extend(s2, rest));
    } else {
      RestDrained(s1);
      steps := a;
    }
  }

  lemma RestEmpty(s: Session)
    requires AtRest(s)
    ensures s.conn.sent.sent == map[]
  {
  }
}
