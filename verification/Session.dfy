/**
 * A connection with its flow control: the delivery machine, in which packets are filled as
 * the code fills them. Streams are visited in order, each gives at most one frame, and
 * fresh data stays within the credit of the stream and of the connection.
 */
module Session {
  import opened Common
  import opened Coding
  import opened Frames
  import opened Acks
  import opened SentPackets
  import opened Reassembly
  import opened Streams
  import opened Delivery
  import opened DeliveryProof
  import opened FlowControl
  import T = Track

  // -------------------------------------------------------------------------- sums

  function Sum(ids: seq<nat>, f: nat -> nat): (n: nat) {
    if ids == [] then 0 else Sum(ids[..|ids| - 1], f) + f(ids[|ids| - 1])
  }

  predicate Ascending(ids: seq<nat>) { forall i, j :: 0 <= i < j < |ids| ==> ids[i] < ids[j] }

  lemma {:induction false} SumLe(ids: seq<nat>, f: nat -> nat, g: nat -> nat)
    requires forall id :: id in ids ==> f(id) <= g(id)
    ensures Sum(ids, f) <= Sum(ids, g)
  {
    if ids != [] {
      SumLe(ids[..|ids| - 1], f, g);
      assert ids[|ids| - 1] in ids;
    }
  }

  lemma SumSame(ids: seq<nat>, f: nat -> nat, g: nat -> nat)
    requires forall id :: id in ids ==> f(id) == g(id)
    ensures Sum(ids, f) == Sum(ids, g)
  {
    SumLe(ids, f, g);
    SumLe(ids, g, f);
  }

  lemma {:induction false} SumSwap(ids: seq<nat>, f: nat -> nat, g: nat -> nat, id: nat)
    requires Ascending(ids) && id in ids && forall j :: j in ids && j != id ==> f(j) == g(j)
    ensures Sum(ids, g) + f(id) == Sum(ids, f) + g(id)
  {
    var front, last := ids[..|ids| - 1], ids[|ids| - 1];
    if last == id {
      SumSame(front, f, g);
    } else {
      assert last in ids;
      SumSwap(front, f, g, id);
    }
  }

  lemma {:induction false} SumAdd(ids: seq<nat>, f: nat -> nat, g: nat -> nat, h: nat -> nat)
    requires forall id :: id in ids ==> h(id) == f(id) + g(id)
    ensures Sum(ids, h) == Sum(ids, f) + Sum(ids, g)
  {
    if ids != [] {
      assert ids[|ids| - 1] in ids;
      SumAdd(ids[..|ids| - 1], f, g, h);
    }
  }

  lemma {:induction false} SumPart(ids: seq<nat>, f: nat -> nat, id: nat)
    requires id in ids
    ensures f(id) <= Sum(ids, f)
  {
    if id != ids[|ids| - 1] {
      SumPart(ids[..|ids| - 1], f, id);
    }
  }

  lemma {:induction false} SumConcat(a: seq<nat>, b: seq<nat>, f: nat -> nat)
    ensures Sum(a + b, f) == Sum(a, f) + Sum(b, f)
    decreases |b|
  {
    var ab := a + b;
    if b == [] {
      assert ab == a;
    } else {
      assert ab[..|ab| - 1] == a + b[..|b| - 1];
      SumConcat(a, b[..|b| - 1], f);
    }
  }

  // ------------------------------------------------------------------------- state

  /** `order` lists the streams in ascending order; `link` and `links` are their limits. */
  datatype Session = Session(conn: Conn, order: seq<nat>, link: Link, links: map<nat, Link>, streamWindow: nat)

  function NewSession(window: nat, streamWindow: nat): (s: Session) {
    Session(NEW_CONN, [], NewLink(window), map[], streamWindow)
  }

  /** Where `id` belongs in an ascending list. */
  function Place(order: seq<nat>, id: nat): (k: nat)
    ensures k <= |order|
  {
    if order == [] || order[|order| - 1] < id then |order| else Place(order[..|order| - 1], id)
  }

  function InsertId(order: seq<nat>, id: nat): (r: seq<nat>) {
    var k := Place(order, id);
    order[..k] + [id] + order[k..]
  }

  // ----------------------------------------------------------------- filling packets

  /** A payload in the making; `used` counts the octets of its STREAM frames. */
  datatype Filling = Filling(
    send: map<nat, Source>, link: Link, links: map<nat, Link>, picks: seq<Pick>, frames: seq<SentFrame>, used: nat)

  /** How much one stream may put into the packet: a frame again as it was, or fresh data within the credit. */
  function Allowance(f: Filling, id: nat, room: nat): (n: nat)
    requires id in f.send && id in f.links
  {
    var avail := SatSub(room, f.used);
    if f.send[id].state.resend != [] then avail
    else Min(avail, Min(f.link.sender.Available(), f.links[id].sender.Available()))
  }

  function Visit(f: Filling, id: nat, room: nat): (r: Filling) {
    if id !in f.send || id !in f.links || !f.send[id].state.HasPending() || Allowance(f, id, room) == 0 then f
    else PlaceFrame(f, id, Allowance(f, id, room))
  }

  /** Takes a frame of at most `take` bytes and charges what is new in it. */
  function PlaceFrame(f: Filling, id: nat, take: nat): (r: Filling)
    requires id in f.send && id in f.links
  {
    var (s, out) := f.send[id].state.Take(take);
    match out
    case None => f
    case Some(seg) =>
      var frame := FrameFor(id, seg);
      var (limit, added) := f.links[id].sender.RecordHigh(seg.End());
      Filling(f.send[id := f.send[id].(state := s)], Charge(f.link, added),
              f.links[id := f.links[id].(sender := limit)],
              f.picks + [Pick(id, take)], f.frames + [frame], f.used + |Encode(ToFrame(frame))|)
  }

  function VisitAll(f: Filling, ids: seq<nat>, room: nat): (r: Filling) {
    if ids == [] then f else Visit(VisitAll(f, ids[..|ids| - 1], room), ids[|ids| - 1], room)
  }

  /** Once the room is used up no later stream places a frame. */
  lemma {:induction false} NoRoomLeft(f: Filling, ids: seq<nat>, i: nat, room: nat)
    requires i <= |ids| && SatSub(room, VisitAll(f, ids[..i], room).used) == 0
    ensures VisitAll(f, ids, room) == VisitAll(f, ids[..i], room)
    decreases |ids|
  {
    if i < |ids| {
      var front := ids[..|ids| - 1];
      assert front[..i] == ids[..i];
      NoRoomLeft(f, front, i, room);
    } else {
      assert ids[..i] == ids;
    }
  }

  /** The loop that fills a payload with STREAM frames; it stops when the room is used up. */
  method FillStreamFrames(f: Filling, ids: seq<nat>, room: nat) returns (r: Filling)
    ensures r == VisitAll(f, ids, room)
  {
    hide Encode, SendState.Take;
    r := f;
    for i := 0 to |ids|
      invariant r == VisitAll(f, ids[..i], room)
    {
      var id := ids[i];
      assert ids[..i + 1][..i] == ids[..i];
      var avail := SatSub(room, r.used);
      if avail == 0 {
        NoRoomLeft(f, ids, i, room);
        return;
      }
      if id !in r.send || id !in r.links || !r.send[id].state.HasPending() {
        continue;
      }
      var take := avail;
      if |r.send[id].state.resend| == 0 {
        var credit := Min(r.link.sender.Available(), r.links[id].sender.Available());
        take := Min(avail, credit);
      }
      if take == 0 {
        continue;
      }
      var (state, out) := r.send[id].state.Take(take);
      if out.Some? {
        var seg := out.value;
        var (limit, added) := r.links[id].sender.RecordHigh(seg.End());
        var frame := FrameFor(id, seg);
        r := Filling(r.send[id := r.send[id].(state := state)], Charge(r.link, added),
                     r.links[id := r.links[id].(sender := limit)],
                     r.picks + [Pick(id, take)], r.frames + [frame], r.used + |Encode(ToFrame(frame))|);
      }
    }
    assert ids[..|ids|] == ids;
  }

  function Begin(s: Session): (f: Filling) { Filling(s.conn.send, s.link, s.links, [], [], 0) }

  // -------------------------------------------------------------------------- steps

  datatype Step =
    | Start(id: nat)
    | Net(step: Delivery.Step)
    | Send(room: nat, ping: bool, now: nat, size: nat)
    | Consume(id: nat)
    | UpdateConn
    | UpdateStream(id: nat)
    | ArriveConn(ad: nat)
    | ArriveStream(id: nat, ad: nat)

  function DoStart(s: Session, id: nat): (r: Session) {
    if id in s.conn.send || !Fits(id) then s
    else s.(conn := DoOpen(s.conn, id), order := InsertId(s.order, id),
            links := s.links[id := NewLink(s.streamWindow)])
  }

  /** Writing, and everything the network and loss recovery do. */
  predicate IsNet(step: Delivery.Step) { !step.Open? && !step.Transmit? && !step.Read? }

  /** `room` is the budget left for STREAM frames, less the 24 octets kept for a header. */
  function DoSend(s: Session, room: nat, ping: bool, now: nat, size: nat): (r: Session) {
    var f := VisitAll(Begin(s), s.order, room);
    var conn := DoTransmit(s.conn, f.picks, ping, now, size);
    if conn == s.conn then s else s.(conn := conn, link := f.link, links := f.links)
  }

  function DoConsume(s: Session, id: nat): (r: Session) {
    if id !in s.conn.recv || id !in s.links then s
    else
      var n := |s.conn.recv[id].state.Read().1|;
      s.(conn := DoRead(s.conn, id), link := Use(s.link, n), links := s.links[id := Use(s.links[id], n)])
  }

  function Next(s: Session, step: Step): (r: Session) {
    match step
    case Start(id) => DoStart(s, id)
    case Net(step) => if IsNet(step) then s.(conn := Delivery.Next(s.conn, step)) else s
    case Send(room, ping, now, size) => DoSend(s, room, ping, now, size)
    case Consume(id) => DoConsume(s, id)
    case UpdateConn => s.(link := Update(s.link))
    case UpdateStream(id) => if id in s.links then s.(links := s.links[id := Update(s.links[id])]) else s
    case ArriveConn(ad) => s.(link := Arrive(s.link, ad))
    case ArriveStream(id, ad) => if id in s.links then s.(links := s.links[id := Arrive(s.links[id], ad)]) else s
  }

  function Extend(s: Session, steps: seq<Step>): (r: Session)
    decreases |steps|
  {
    if steps == [] then s else Extend(Next(s, steps[0]), steps[1..])
  }

  // ---------------------------------------------------------------------- invariant

  function SentOf(links: map<nat, Link>): (f: nat -> nat) { id => if id in links then links[id].sender.sent else 0 }

  function ConsumedOf(links: map<nat, Link>): (f: nat -> nat) {
    id => if id in links then links[id].receiver.consumed else 0
  }

  ghost predicate Sane(l: Link) { LinkOk(l, l.receiver.window) }

  /** The limits agree with the streams: what was charged is what was put into packets. */
  ghost predicate Charged(order: seq<nat>, send: map<nat, Source>, link: Link, links: map<nat, Link>) {
    && Ascending(order) && links.Keys == send.Keys && (forall id :: id in send <==> id in order)
    && Sane(link) && link.sender.sent == Sum(order, SentOf(links))
    && (forall id :: id in send ==>
          Sane(links[id]) && links[id].sender.sent == send[id].state.base && Faithful(send[id].state, send[id].written))
  }

  ghost predicate Consumed(s: Session) {
    && s.link.receiver.consumed == Sum(s.order, ConsumedOf(s.links))
    && (forall id :: id in s.links ==> s.links[id].receiver.consumed == |TargetOf(s.conn.recv, id).read|)
  }

  ghost predicate Inv(s: Session) {
    Good(s.conn) && Charged(s.order, s.conn.send, s.link, s.links) && Consumed(s)
  }

  // ------------------------------------------------------------------------ sending

  ghost predicate FillOk(f: Filling, order: seq<nat>) { Charged(order, f.send, f.link, f.links) }

  /** `n` bytes more are sent. */
  function Spent(l: Link, n: nat): (r: Link) { l.(sender := l.sender.(sent := l.sender.sent + n)) }

  /** Spending within the credit keeps both ends of a limit in order. */
  lemma SpendSane(l: Link, n: nat)
    requires Sane(l) && n <= l.sender.Available()
    ensures Sane(Spent(l, n))
  {
  }

  /** Only a fresh segment moves the base, and then to its end. */
  lemma TakeEnd(s: SendState, w: seq<byte>, take: nat)
    requires Faithful(s, w) && s.Take(take).1.Some?
    ensures var (s', out) := s.Take(take);
            && Faithful(s', w) && s.base <= s'.base && s'.base - s.base <= (if s.resend != [] then 0 else take)
            && s'.base == Max(s.base, out.value.End())
  {
    TakeFaithful(s, w, take);
    TakeConserves(s, take);
    hide Faithful;
  }

  /** What is charged for a frame is what is new in it. */
  lemma PlaceCharges(f: Filling, id: nat, take: nat)
    requires id in f.send && id in f.links && f.links[id].sender.sent == f.send[id].state.base
    requires Faithful(f.send[id].state, f.send[id].written)
    requires f.send[id].state.Take(take).1.Some?
    ensures var s, s' := f.send[id].state, f.send[id].state.Take(take).0;
            && s.base <= s'.base && s'.base - s.base <= (if s.resend != [] then 0 else take)
            && Faithful(s', f.send[id].written)
            && var r, n := PlaceFrame(f, id, take), s'.base - s.base;
               && r.send == f.send[id := f.send[id].(state := s')]
               && r.links == f.links[id := Spent(f.links[id], n)] && r.link == Spent(f.link, n)
  {
    hide Faithful, Encode, SendState.Take;
    TakeEnd(f.send[id].state, f.send[id].written, take);
  }

  lemma ChargedMore(order: seq<nat>, send: map<nat, Source>, link: Link, links: map<nat, Link>,
                    id: nat, to: Source, n: nat)
    requires Charged(order, send, link, links) && id in send
    requires to.state.base == send[id].state.base + n && Faithful(to.state, to.written)
    requires n <= link.sender.Available() && n <= links[id].sender.Available()
    ensures Charged(order, send[id := to], Spent(link, n), links[id := Spent(links[id], n)])
  {
    hide Faithful, Sane, Sum, Ascending;
    SpendSane(link, n);
    SpendSane(links[id], n);
    hide SendLimit.Available;
    assert Sum(order, SentOf(links[id := Spent(links[id], n)])) == Sum(order, SentOf(links)) + n by {
      SumSwap(order, SentOf(links), SentOf(links[id := Spent(links[id], n)]), id);
    }
  }

  lemma PlaceOk(f: Filling, id: nat, take: nat, order: seq<nat>)
    requires FillOk(f, order) && id in f.send && f.send[id].state.Take(take).1.Some?
    requires f.send[id].state.resend != []
          || take <= Min(f.link.sender.Available(), f.links[id].sender.Available())
    ensures FillOk(PlaceFrame(f, id, take), order)
  {
    hide Faithful, SendState.Take, PlaceFrame, Sane, Sum, Ascending, SentOf, SendLimit.Available;
    PlaceCharges(f, id, take);
    var to := f.send[id].(state := f.send[id].state.Take(take).0);
    ChargedMore(order, f.send, f.link, f.links, id, to, to.state.base - f.send[id].state.base);
  }

  /** Only the end of the stream is left to send. */
  predicate OnlyEnd(s: SendState) { s.fin && !s.finSent && s.buf == [] }

  /** At most the amount sent and the blocked report differ. */
  predicate SameLimit(a: Link, b: Link) {
    b.sender.max == a.sender.max && b.receiver == a.receiver && b.ads == a.ads
  }

  predicate SameStream(a: Source, b: Source) {
    b.written == a.written && b.state.fin == a.state.fin && (OnlyEnd(b.state) ==> OnlyEnd(a.state))
  }

  /** Filling a packet changes no limit and writes nothing; an end goes out with the last byte. */
  ghost predicate Onward(f: Filling, r: Filling) {
    && r.send.Keys == f.send.Keys && r.links.Keys == f.links.Keys && SameLimit(f.link, r.link)
    && (forall id :: id in f.links ==> SameLimit(f.links[id], r.links[id]))
    && (forall id :: id in f.send ==> SameStream(f.send[id], r.send[id]))
  }

  lemma TakeSame(s: SendState, take: nat)
    ensures s.Take(take).0.fin == s.fin && (OnlyEnd(s.Take(take).0) ==> OnlyEnd(s))
  {
  }

  lemma PlaceOnward(f: Filling, id: nat, take: nat)
    requires id in f.send && id in f.links
    ensures Onward(f, PlaceFrame(f, id, take))
  {
    hide SendState.Take, Encode, OnlyEnd;
    TakeSame(f.send[id].state, take);
  }

  lemma VisitOk(f: Filling, id: nat, room: nat, order: seq<nat>)
    requires FillOk(f, order)
    ensures FillOk(Visit(f, id, room), order) && Onward(f, Visit(f, id, room))
  {
    hide FillOk, PlaceFrame, SendState.Take;
    if Visit(f, id, room) != f {
      var take := Allowance(f, id, room);
      TakeProgress(f.send[id].state, take);
      PlaceOk(f, id, take, order);
      PlaceOnward(f, id, take);
    }
  }

  /** The frames placed are those the picks take. */
  lemma VisitFills(send: map<nat, Source>, f: Filling, id: nat, room: nat)
    requires Fill(send, f.picks) == (f.send, f.frames)
    ensures var r := Visit(f, id, room); Fill(send, r.picks) == (r.send, r.frames)
  {
    hide SendState.Take, SendState.HasPending, Encode;
    var r := Visit(f, id, room);
    if r != f {
      assert r.picks[..|r.picks| - 1] == f.picks;
    }
  }

  lemma {:induction false} VisitAllOk(f: Filling, ids: seq<nat>, room: nat, order: seq<nat>)
    requires FillOk(f, order) && f.picks == [] && f.frames == []
    ensures var r := VisitAll(f, ids, room);
            FillOk(r, order) && Onward(f, r) && Fill(f.send, r.picks) == (r.send, r.frames)
  {
    hide FillOk, Visit;
    if ids != [] {
      var mid := VisitAll(f, ids[..|ids| - 1], room);
      VisitAllOk(f, ids[..|ids| - 1], room, order);
      VisitOk(mid, ids[|ids| - 1], room, order);
      VisitFills(f.send, mid, ids[|ids| - 1], room);
    }
  }

  lemma SendInv(s: Session, room: nat, ping: bool, now: nat, size: nat)
    requires Inv(s)
    ensures Inv(DoSend(s, room, ping, now, size))
  {
    hide Good, VisitAll, Faithful, Sane, Ascending, Sum;
    var f := VisitAll(Begin(s), s.order, room);
    VisitAllOk(Begin(s), s.order, room, s.order);
    TransmitGood(s.conn, f.picks, ping, now, size);
    var s' := DoSend(s, room, ping, now, size);
    if s' != s {
      assert s'.conn.send == f.send && s'.conn.recv == s.conn.recv;
      SumSame(s.order, ConsumedOf(s.links), ConsumedOf(s'.links));
    }
  }

  // -------------------------------------------------------------------- other steps

  lemma {:induction false} PlaceRight(order: seq<nat>, id: nat)
    requires Ascending(order) && id !in order
    ensures forall i :: 0 <= i < |order| ==> (order[i] < id <==> i < Place(order, id))
  {
    if order != [] && order[|order| - 1] >= id {
      var front := order[..|order| - 1];
      assert order[|order| - 1] in order;
      PlaceRight(front, id);
      assert forall i :: 0 <= i < |front| ==> front[i] == order[i];
    }
  }

  lemma InsertIdHas(order: seq<nat>, id: nat)
    requires Ascending(order) && id !in order
    ensures Ascending(InsertId(order, id)) && forall j :: j in InsertId(order, id) <==> j in order || j == id
  {
    PlaceRight(order, id);
    var k := Place(order, id);
    hide Place;
    assert forall i :: k <= i < |order| ==> id < order[i] by {
      assert forall i :: 0 <= i < |order| ==> order[i] in order;
    }
    assert forall j :: j in order <==> j in order[..k] || j in order[k..] by {
      assert order == order[..k] + order[k..];
    }
  }

  lemma InsertIdSum(order: seq<nat>, id: nat, f: nat -> nat)
    ensures Sum(InsertId(order, id), f) == Sum(order, f) + f(id)
  {
    var k := Place(order, id);
    assert order == order[..k] + order[k..];
    SumConcat(order[..k], order[k..], f);
    SumConcat(order[..k] + [id], order[k..], f);
    SumConcat(order[..k], [id], f);
    assert [id][..0] == [];
  }

  lemma StartInv(s: Session, id: nat)
    requires Inv(s)
    ensures Inv(DoStart(s, id))
  {
    hide Good, DoOpen, Charged, Consumed;
    OpenGood(s.conn, id);
    if DoStart(s, id) != s {
      StartCharged(s, id);
      StartConsumed(s, id);
    }
  }

  lemma StartCharged(s: Session, id: nat)
    requires Charged(s.order, s.conn.send, s.link, s.links) && id !in s.conn.send && Fits(id)
    ensures var s' := DoStart(s, id); Charged(s'.order, s'.conn.send, s'.link, s'.links)
  {
    hide Ascending, Sum, Faithful, InsertId, Sane;
    var s' := DoStart(s, id);
    InsertIdHas(s.order, id);
    InsertIdSum(s.order, id, SentOf(s'.links));
    SumSame(s.order, SentOf(s.links), SentOf(s'.links));
    NewSane(s.streamWindow);
  }

  lemma StartConsumed(s: Session, id: nat)
    requires Inv(s) && id !in s.conn.send && Fits(id)
    ensures Consumed(DoStart(s, id))
  {
    hide Good, Ascending, Sum, Faithful, InsertId, Sane;
    NothingRead(s.conn, id);
    var s' := DoStart(s, id);
    InsertIdSum(s.order, id, ConsumedOf(s'.links));
    SumSame(s.order, ConsumedOf(s.links), ConsumedOf(s'.links));
  }

  lemma NothingRead(c: Conn, id: nat)
    requires Good(c) && id !in c.send
    ensures TargetOf(c.recv, id) == NEW_TARGET
  {
  }

  lemma NewSane(window: nat)
    ensures Faithful(NEW_SEND, []) && Sane(NewLink(window))
  {
  }

  /** No network step puts fresh data into packets or hands data to an application. */
  ghost predicate Framed(c: Conn, c': Conn) {
    && c'.send.Keys == c.send.Keys && c'.nextPn == c.nextPn
    && (forall id :: id in c.send ==> c'.send[id].state.base == c.send[id].state.base)
    && (forall id :: id in c.send ==> TargetOf(c'.recv, id).read == TargetOf(c.recv, id).read)
  }

  /** Nor does it touch anything a sender holds, but to queue segments again. */
  ghost predicate Untouched(c: Conn, c': Conn) {
    && Framed(c, c')
    && (forall id :: id in c.send ==>
          && c'.send[id].written == c.send[id].written
          && c'.send[id].state == c.send[id].state.(resend := c'.send[id].state.resend))
  }

  lemma DeliverFrame(c: Conn, pn: nat)
    requires Good(c)
    ensures Untouched(c, DoDeliver(c, pn))
  {
    hide Good, OnPayload, Payload, Handle, InsertPn;
    if pn in c.log { HandleAll(c, pn); }
  }

  lemma AckFrame(c: Conn, index: nat)
    ensures Untouched(c, DoDeliverAck(c, index))
  {
    hide DecodeFrame, Encode, ApplyAck;
  }

  lemma RequeueFrame(c: Conn, now: nat, delay: nat, pn: nat)
    ensures Untouched(c, DoTimeout(c, now, delay)) && Untouched(c, DoProbe(c, pn))
  {
    hide RequeueAll, FindLost, FramesOf;
    RequeueKeys(c.send, FramesOf(FindLost(c.sent, now, delay).1));
    if CanProbe(c.sent.sent, pn) { RequeueKeys(c.send, c.sent.sent[pn].frames); }
  }

  lemma NetFrame(c: Conn, step: Delivery.Step)
    requires Good(c) && IsNet(step)
    ensures Framed(c, Delivery.Next(c, step)) && (!step.Write? ==> Untouched(c, Delivery.Next(c, step)))
  {
    hide Good, DoDeliver, DoDeliverAck, DoTimeout, DoProbe, ToAck, Canonical;
    match step
    case Write(id, data, fin) =>
    case Deliver(pn) => DeliverFrame(c, pn);
    case SendAck(delay) =>
    case DeliverAck(index) => AckFrame(c, index);
    case Timeout(now, delay) => RequeueFrame(c, now, delay, 0);
    case Probe(pn) => RequeueFrame(c, 0, 0, pn);
  }

  lemma StreamFaithful(c: Conn)
    requires Good(c)
    ensures forall id :: id in c.send ==> Faithful(c.send[id].state, c.send[id].written)
  {
    hide Good, Faithful;
    forall id | id in c.send
      ensures Faithful(c.send[id].state, c.send[id].written)
    {
      StreamOf(c, id);
    }
  }

  lemma NetInv(s: Session, step: Delivery.Step)
    requires Inv(s) && IsNet(step)
    ensures Inv(s.(conn := Delivery.Next(s.conn, step)))
  {
    hide Good, Delivery.Next, Sum, Sane, Ascending, Faithful;
    NextGood(s.conn, step);
    NetFrame(s.conn, step);
    StreamFaithful(Delivery.Next(s.conn, step));
  }

  lemma ReadBound(c: Conn, id: nat)
    requires Good(c) && id in c.send
    ensures TargetOf(c.recv, id).read <= c.send[id].written
    ensures |TargetOf(c.recv, id).read| <= c.send[id].state.base
  {
    hide Good, T.Intact, OpenPns, KeptPns, Carried;
    StreamOf(c, id);
    T.ReadIsPrefix(TrackOf(c, id));
  }

  lemma ReadFrame(c: Conn, id: nat)
    requires Good(c) && id in c.recv
    ensures var c' := DoRead(c, id);
            && Good(c') && c' == c.(recv := c'.recv) && id in c.send
            && (forall j :: j != id ==> TargetOf(c'.recv, j) == TargetOf(c.recv, j))
            && |TargetOf(c'.recv, id).read| == |TargetOf(c.recv, id).read| + |c.recv[id].state.Read().1|
            && |TargetOf(c'.recv, id).read| <= c.send[id].state.base
  {
    hide Good, RecvState.Read;
    RecvKnown(c);
    ReadGood(c, id);
    ReadBound(DoRead(c, id), id);
  }

  lemma RecvKnown(c: Conn)
    requires Good(c)
    ensures c.recv.Keys <= c.send.Keys
  {
  }

  lemma ConsumeInv(s: Session, id: nat)
    requires Inv(s)
    ensures Inv(DoConsume(s, id))
  {
    hide Good, DoRead, Charged, Consumed, RecvState.Read;
    if id in s.conn.recv && id in s.links {
      ReadFrame(s.conn, id);
      ConsumeCounts(s, id);
      ConsumeCharged(s, id);
    }
  }

  lemma ConsumeCounts(s: Session, id: nat)
    requires Inv(s) && id in s.conn.recv && id in s.links
    ensures Consumed(DoConsume(s, id))
  {
    hide Good, DoRead, Sum, Ascending, Faithful, Sane, RecvState.Read;
    ReadFrame(s.conn, id);
    SumSwap(s.order, ConsumedOf(s.links), ConsumedOf(DoConsume(s, id).links), id);
  }

  lemma ConsumeBound(s: Session, id: nat)
    requires Inv(s) && id in s.conn.recv && id in s.links
    ensures s.links[id].receiver.consumed + |s.conn.recv[id].state.Read().1| <= s.links[id].sender.sent
  {
    hide Good, DoRead, Sum, Ascending, Faithful, Sane, RecvState.Read;
    ReadFrame(s.conn, id);
  }

  /** Reading is bounded on the connection because it is on every stream. */
  lemma ConsumeTotal(order: seq<nat>, links: map<nat, Link>, id: nat, n: nat)
    requires Ascending(order) && id in order && id in links && forall j :: j in links ==> Sane(links[j])
    requires links[id].receiver.consumed + n <= links[id].sender.sent
    ensures Sum(order, ConsumedOf(links)) + n <= Sum(order, SentOf(links))
  {
    hide Sum, Ascending, Sane;
    var links' := links[id := Use(links[id], n)];
    UseSane(links[id], n);
    ConsumedLe(order, links');
    SumSwap(order, ConsumedOf(links), ConsumedOf(links'), id);
    SumSame(order, SentOf(links), SentOf(links'));
  }

  lemma ConsumeCharged(s: Session, id: nat)
    requires Inv(s) && id in s.conn.recv && id in s.links
    ensures var s' := DoConsume(s, id); Charged(s'.order, s'.conn.send, s'.link, s'.links)
  {
    hide Good, RecvState.Read, Sum, Ascending, Faithful, Sane, ConsumedOf, SentOf;
    ConsumeBound(s, id);
    ConsumeTotal(s.order, s.links, id, |s.conn.recv[id].state.Read().1|);
    UseCharged(s, id, |s.conn.recv[id].state.Read().1|);
  }

  lemma UseCharged(s: Session, id: nat, n: nat)
    requires Charged(s.order, s.conn.send, s.link, s.links) && id in s.links
    requires s.links[id].receiver.consumed + n <= s.links[id].sender.sent
    requires s.link.receiver.consumed + n <= s.link.sender.sent
    ensures Charged(s.order, s.conn.send, Use(s.link, n), s.links[id := Use(s.links[id], n)])
  {
    hide Sum, Ascending, Faithful, Sane;
    UseSane(s.links[id], n);
    UseSane(s.link, n);
    SumSame(s.order, SentOf(s.links), SentOf(s.links[id := Use(s.links[id], n)]));
  }

  lemma UseSane(l: Link, n: nat)
    requires Sane(l) && l.receiver.consumed + n <= l.sender.sent
    ensures Sane(Use(l, n))
  {
  }

  /** What all streams consumed is no more than what all of them sent. */
  lemma ConsumedLe(order: seq<nat>, links: map<nat, Link>)
    requires forall id :: id in links ==> Sane(links[id])
    ensures Sum(order, ConsumedOf(links)) <= Sum(order, SentOf(links))
  {
    hide Sum;
    forall id | id in order
      ensures ConsumedOf(links)(id) <= SentOf(links)(id)
    {
      assert id in links ==> Sane(links[id]);
    }
    SumLe(order, ConsumedOf(links), SentOf(links));
  }

  lemma LimitInv(s: Session, link: Link, links: map<nat, Link>)
    requires Inv(s) && Sane(link) && links.Keys == s.links.Keys
    requires link.sender.sent == s.link.sender.sent && link.receiver.consumed == s.link.receiver.consumed
    requires forall id :: id in links ==>
               && Sane(links[id]) && links[id].sender.sent == s.links[id].sender.sent
               && links[id].receiver.consumed == s.links[id].receiver.consumed
    ensures Inv(s.(link := link, links := links))
  {
    hide Good, Ascending, Sum, Faithful, Sane;
    SumSame(s.order, SentOf(s.links), SentOf(links));
    SumSame(s.order, ConsumedOf(s.links), ConsumedOf(links));
  }

  lemma NextInv(s: Session, step: Step)
    requires Inv(s)
    ensures Inv(Next(s, step))
  {
    hide Inv, DoStart, DoSend, DoConsume, Delivery.Next, LinkOk, Update, Arrive;
    assert Sane(s.link) && forall id :: id in s.links ==> Sane(s.links[id]) by {
      LimitsSane(s);
    }
    match step
    case Start(id) => StartInv(s, id);
    case Net(step) => if IsNet(step) { NetInv(s, step); }
    case Send(room, ping, now, size) => SendInv(s, room, ping, now, size);
    case Consume(id) => ConsumeInv(s, id);
    case UpdateConn =>
      UpdateSane(s.link);
      LimitInv(s, Update(s.link), s.links);
    case UpdateStream(id) =>
      if id in s.links {
        UpdateSane(s.links[id]);
        LimitInv(s, s.link, s.links[id := Update(s.links[id])]);
      }
    case ArriveConn(ad) =>
      ArriveSane(s.link, ad);
      LimitInv(s, Arrive(s.link, ad), s.links);
    case ArriveStream(id, ad) =>
      if id in s.links {
        ArriveSane(s.links[id], ad);
        LimitInv(s, s.link, s.links[id := Arrive(s.links[id], ad)]);
      }
  }

  lemma LimitsSane(s: Session)
    requires Inv(s)
    ensures Sane(s.link) && forall id :: id in s.links ==> Sane(s.links[id])
  {
    hide Good, Consumed, Sum, Faithful, Ascending, Sane;
  }

  lemma UpdateSane(l: Link)
    requires Sane(l)
    ensures var r := Update(l);
            Sane(r) && r.sender == l.sender && r.receiver.consumed == l.receiver.consumed
  {
    UpdateOk(l, l.receiver.window);
  }

  lemma ArriveSane(l: Link, ad: nat)
    requires Sane(l)
    ensures var r := Arrive(l, ad);
            Sane(r) && r.sender.sent == l.sender.sent && r.receiver == l.receiver
  {
    ArriveOk(l, ad, l.receiver.window);
  }

  lemma {:induction false} ExtendInv(s: Session, steps: seq<Step>)
    requires Inv(s)
    ensures Inv(Extend(s, steps))
    decreases |steps|
  {
    if steps != [] {
      NextInv(s, steps[0]);
      hide Inv, Next;
      ExtendInv(Next(s, steps[0]), steps[1..]);
    }
  }

  lemma NewSessionInv(window: nat, streamWindow: nat)
    ensures Inv(NewSession(window, streamWindow))
  {
  }

  function Run(window: nat, streamWindow: nat, steps: seq<Step>): (s: Session) {
    Extend(NewSession(window, streamWindow), steps)
  }

  lemma RunInv(window: nat, streamWindow: nat, steps: seq<Step>)
    ensures Inv(Run(window, streamWindow, steps))
  {
    NewSessionInv(window, streamWindow);
    ExtendInv(NewSession(window, streamWindow), steps);
  }

  function BaseOf(send: map<nat, Source>): (f: nat -> nat) { id => if id in send then send[id].state.base else 0 }

  /**
   * In every run of the whole: no frame is refused, what is read is a prefix of what was
   * written, and the bytes put into packets, of one stream and of all of them together,
   * are within what the receiver granted.
   */
  lemma SessionSafety(window: nat, streamWindow: nat, steps: seq<Step>)
    ensures var s := Run(window, streamWindow, steps);
            && !s.conn.failed && s.links.Keys == s.conn.send.Keys
            && (forall id :: id in s.conn.send ==>
                  && TargetOf(s.conn.recv, id).read <= s.conn.send[id].written
                  && s.conn.send[id].state.base <= s.links[id].receiver.max)
            && Sum(s.order, BaseOf(s.conn.send)) <= s.link.receiver.max
  {
    RunInv(window, streamWindow, steps);
    hide Run;
    var s := Run(window, streamWindow, steps);
    assert !s.conn.failed;
    hide Good, Ascending, Sum, Faithful;
    SumSame(s.order, SentOf(s.links), BaseOf(s.conn.send));
    forall id | id in s.conn.send
      ensures TargetOf(s.conn.recv, id).read <= s.conn.send[id].written
    {
      ReadBound(s.conn, id);
    }
  }
}
