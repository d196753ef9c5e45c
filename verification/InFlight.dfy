/**
 * Packets and bytes in flight: the three packet-number spaces with their records, and one
 * congestion controller of any kind, driven as a connection drives them.
 */
module InFlight {
  import opened Common
  import opened Frames
  import opened Acks
  import opened SentPackets
  import opened Congestion
  import Bbr

  // ------------------------------------------------------------ any controller

  /** What the floating-point parts of CUBIC and BBR return in one step. */
  datatype Oracle = Oracle(curve: Curve, floats: Bbr.Floats)

  datatype Controller = RenoC(reno: Reno) | CubicC(cubic: Cubic) | BbrC(bbr: Bbr.State) {
    function Bytes(): (n: nat) {
      match this case RenoC(r) => r.inFlight case CubicC(c) => c.inFlight case BbrC(b) => b.inFlight
    }

    /** The window of a loss-based controller never reaches zero. */
    predicate Ready() {
      match this
      case RenoC(r) => r.datagram > 0 && r.window >= MinimumWindow(r.datagram)
      case CubicC(c) => c.datagram > 0 && c.window >= MinimumWindow(c.datagram)
      case BbrC(_) => true
    }

    function OnSent(bytes: nat): (r: Controller) {
      match this
      case RenoC(s) => RenoC(s.OnSent(bytes))
      case CubicC(s) => CubicC(s.OnSent(bytes))
      case BbrC(s) => BbrC(s.OnSent(bytes))
    }

    function OnAcked(acked: seq<AckedPacket>, now: nat, o: Oracle): (r: Controller)
      requires Ready()
    {
      match this
      case RenoC(s) => RenoC(s.OnAcked(acked))
      case CubicC(s) => CubicC(s.OnAcked(acked, now, o.curve))
      case BbrC(s) => BbrC(s.OnAcked(acked, now, o.floats))
    }

    function OnLost(bytes: nat, newest: nat, now: nat, o: Oracle): (r: Controller) {
      match this
      case RenoC(s) => RenoC(s.OnLost(bytes, newest, now))
      case CubicC(s) => CubicC(s.OnLost(bytes, newest, now, o.curve))
      case BbrC(s) => BbrC(s.OnLost(bytes, newest, now, o.floats))
    }

    function OnPersistent(): (r: Controller) {
      match this
      case RenoC(s) => RenoC(s.OnPersistent())
      case CubicC(s) => CubicC(s.OnPersistent())
      case BbrC(s) => this
    }
  }

  /** Every controller releases exactly what was acknowledged, without saturating. */
  lemma AckReleases(c: Controller, acked: seq<AckedPacket>, now: nat, o: Oracle)
    requires c.Ready() && TotalBytes(acked) <= c.Bytes()
    ensures c.OnAcked(acked, now, o).Ready() && c.OnAcked(acked, now, o).Bytes() == c.Bytes() - TotalBytes(acked)
  {
    match c
    case RenoC(s) =>
      RenoReleases(s, acked);
      AckFrame(s, acked);
    case CubicC(s) => CubicReleases(s, acked, now, o.curve);
    case BbrC(s) => BbrReleases(s, acked, now, o.floats);
  }

  lemma BbrReleases(s: Bbr.State, acked: seq<AckedPacket>, now: nat, f: Bbr.Floats)
    ensures s.OnAcked(acked, now, f).inFlight == SatSub(s.inFlight, TotalBytes(acked))
  {
    BbrMeasures(s, acked, now, f.bw);
    hide Bbr.State.Measure;
  }

  lemma BbrMeasures(s: Bbr.State, acked: seq<AckedPacket>, now: nat, bw: Option<real>)
    ensures s.Measure(acked, now, bw).inFlight == SatSub(s.inFlight, TotalBytes(acked))
  {
    var s1 := s.Release(TotalBytes(acked));
    Bbr.RttFrame(s1, acked, now);
    hide Bbr.State.NoteRtt, Bbr.State.CheckFullPipe;
    var s4 := s1.NoteRtt(acked, now).UpdateRound().NoteBandwidth(bw);
    assert s4.inFlight == s1.inFlight;
    Bbr.PipeFrame(s4);
    hide Bbr.State.NoteBandwidth, Bbr.State.UpdateRound;
  }

  lemma LossReleases(c: Controller, bytes: nat, newest: nat, now: nat, o: Oracle)
    requires c.Ready() && bytes <= c.Bytes()
    ensures c.OnLost(bytes, newest, now, o).Ready() && c.OnLost(bytes, newest, now, o).Bytes() == c.Bytes() - bytes
    ensures c.OnLost(bytes, newest, now, o).OnPersistent().Ready()
    ensures c.OnLost(bytes, newest, now, o).OnPersistent().Bytes() == c.Bytes() - bytes
  {
  }

  // ----------------------------------------------------------------- the machine

  /** A space with its records, and the numbers ever recorded, acknowledged and lost. */
  datatype Space = Space(
    sent: SentState, nextPn: nat, high: nat, recorded: set<nat>, acked: set<nat>, lost: set<nat>)

  const NEW_SPACE: Space := Space(SentState(map[], None), 0, 0, {}, {}, {})

  datatype Conn = Conn(spaces: seq<Space>, control: Controller)

  function Weight(p: SentPacket): (n: nat) { if p.inFlight then p.size else 0 }

  function NewConn(control: Controller): (c: Conn) { Conn([NEW_SPACE, NEW_SPACE, NEW_SPACE], control) }

  datatype Step =
    | Send(space: nat, now: nat, ackEliciting: bool, probe: bool, size: nat, frames: seq<SentFrame>)
    | GetAck(space: nat, largest: nat, first: nat, ranges: seq<AckRange>,
             now: nat, delay: nat, ptoBase: nat, oracle: Oracle)
    | Expire(space: nat, now: nat, delay: nat, ptoBase: nat, oracle: Oracle)
    | Retry

  /** Numbers, records and charges one packet; MTU probes are not charged. */
  function DoSend(c: Conn, i: nat, now: nat, ackEliciting: bool, probe: bool, size: nat, frames: seq<SentFrame>)
    : (r: Conn)
    requires i < |c.spaces|
  {
    var s := c.spaces[i];
    var pn := s.nextPn;
    var packet := SentPacket(pn, now, ackEliciting, ackEliciting && !probe, size, frames);
    var control := if packet.inFlight then c.control.OnSent(size) else c.control;
    var next := s.(nextPn := pn + 1, high := Max(s.high, pn + 1));
    if ackEliciting || frames != [] then
      Conn(c.spaces[i := next.(sent := s.sent.(sent := s.sent.sent[pn := packet]), recorded := s.recorded + {pn})],
           control)
    else c.(spaces := c.spaces[i := next], control := control)
  }

  /** The in-flight packets among those acknowledged, as the controller sees them. */
  function Credits(packets: seq<SentPacket>): (r: seq<AckedPacket>) {
    if packets == [] then []
    else
      var last := packets[|packets| - 1];
      Credits(packets[..|packets| - 1]) + if last.inFlight then [AckedPacket(last.size, last.timeSent)] else []
  }

  function Numbers(packets: seq<SentPacket>): (r: set<nat>) { set p | p in packets :: p.number }

  function FlightBytes(packets: seq<SentPacket>): (n: nat) {
    if packets == [] then 0 else FlightBytes(packets[..|packets| - 1]) + Weight(packets[|packets| - 1])
  }

  function DoAck(c: Conn, i: nat, largest: nat, first: nat, ranges: seq<AckRange>, now: nat, o: Oracle)
    : (r: (Conn, bool))
    requires i < |c.spaces| && c.control.Ready()
  {
    var s := c.spaces[i];
    var (sent, outcome) := ApplyAck(s.sent, largest, first, ranges);
    var credits := Credits(outcome.newlyAcked);
    (c.(spaces := c.spaces[i := s.(sent := sent, acked := s.acked + Numbers(outcome.newlyAcked))],
        control := if credits == [] then c.control else c.control.OnAcked(credits, now, o)),
     outcome.newlyAcked != [])
  }

  /** Send times of the in-flight packets: the newest and the oldest. */
  function NewestSent(packets: seq<SentPacket>): (t: Option<nat>) {
    if packets == [] then None
    else
      var last, before := packets[|packets| - 1], NewestSent(packets[..|packets| - 1]);
      if last.inFlight then Some(MaxOpt(before, last.timeSent)) else before
  }

  function OldestSent(packets: seq<SentPacket>): (t: Option<nat>) {
    if packets == [] then None
    else
      var last, before := packets[|packets| - 1], OldestSent(packets[..|packets| - 1]);
      if last.inFlight then Some(MinOpt(before, last.timeSent)) else before
  }

  function Punish(control: Controller, lost: seq<SentPacket>, now: nat, ptoBase: nat, o: Oracle): (r: Controller) {
    match NewestSent(lost)
    case None => control
    case Some(newest) =>
      var less := control.OnLost(FlightBytes(lost), newest, now, o);
      var oldest := OldestSent(lost);
      if oldest.Some? && IsPersistent(oldest.value, newest, ptoBase) then less.OnPersistent() else less
  }

  function DoLoss(c: Conn, i: nat, now: nat, delay: nat, ptoBase: nat, o: Oracle): (r: Conn)
    requires i < |c.spaces|
  {
    var s := c.spaces[i];
    var (sent, lost, _) := FindLost(s.sent, now, delay);
    c.(spaces := c.spaces[i := s.(sent := sent, lost := s.lost + Numbers(lost))],
       control := Punish(c.control, lost, now, ptoBase, o))
  }

  function Next(c: Conn, step: Step): (r: Conn)
    requires c.control.Ready()
  {
    match step
    case Send(i, now, eliciting, probe, size, frames) =>
      if i < |c.spaces| then DoSend(c, i, now, eliciting, probe, size, frames) else c
    case GetAck(i, largest, first, ranges, now, delay, ptoBase, o) =>
      if i >= |c.spaces| then c
      else
        var (acked, any) := DoAck(c, i, largest, first, ranges, now, o);
        if any then DoLoss(acked, i, now, delay, ptoBase, o) else acked
    case Expire(i, now, delay, ptoBase, o) => if i < |c.spaces| then DoLoss(c, i, now, delay, ptoBase, o) else c
    case Retry =>
      if |c.spaces| > 0 then c.(spaces := c.spaces[0 := c.spaces[0].(nextPn := 0)]) else c
  }

  // ------------------------------------------------------------ sums over records

  /** The in-flight bytes of the records numbered below `n`. */
  function Below(sent: Store, n: nat): (b: nat) {
    if n == 0 then 0 else Below(sent, n - 1) + if n - 1 in sent then Weight(sent[n - 1]) else 0
  }

  lemma {:induction false} BelowPut(sent: Store, pn: nat, p: SentPacket, n: nat)
    ensures Below(sent[pn := p], n)
         == Below(sent, n) + if pn < n then Weight(p) - (if pn in sent then Weight(sent[pn]) else 0) else 0
  {
    if n > 0 {
      BelowPut(sent, pn, p, n - 1);
    }
  }

  lemma {:induction false} BelowMore(sent: Store, n: nat, m: nat)
    requires n <= m && forall pn :: pn in sent ==> pn < n
    ensures Below(sent, m) == Below(sent, n)
  {
    if n < m {
      BelowMore(sent, n, m - 1);
    }
  }

  /** Moving records out of the store moves their bytes. */
  lemma {:induction false} MovedBytes(sent: Store, after: Store, out: seq<SentPacket>, n: nat)
    requires Keyed(sent) && Moved(sent, after, out) && forall pn :: pn in sent ==> pn < n
    ensures Below(sent, n) == Below(after, n) + FlightBytes(out)
    decreases |out|
  {
    if out == [] {
      assert after == sent;
    } else {
      var front, last := out[..|out| - 1], out[|out| - 1];
      assert out[|out| - 1] == last && last.number in sent;
      var mid := after[last.number := last];
      MovedBack(sent, after, out);
      MovedBytes(sent, mid, front, n);
      BelowPut(after, last.number, last, n);
    }
  }

  lemma MovedBack(sent: Store, after: Store, out: seq<SentPacket>)
    requires Keyed(sent) && Moved(sent, after, out) && out != []
    ensures Moved(sent, after[out[|out| - 1].number := out[|out| - 1]], out[..|out| - 1])
  {
    var front, last := out[..|out| - 1], out[|out| - 1];
    var mid := after[last.number := last];
    forall pn | pn in sent && pn !in mid
      ensures sent[pn] in front
    {
      assert sent[pn] in out;
      var k :| 0 <= k < |out| && out[k] == sent[pn];
      assert k < |front| ==> front[k] == sent[pn];
    }
    forall k | 0 <= k < |front|
      ensures front[k].number in sent && front[k].number !in mid && sent[front[k].number] == front[k]
    {
      assert front[k] == out[k];
    }
  }

  lemma {:induction false} CreditsTotal(packets: seq<SentPacket>)
    ensures TotalBytes(Credits(packets)) == FlightBytes(packets)
  {
    if packets != [] {
      var front, last := packets[..|packets| - 1], packets[|packets| - 1];
      CreditsTotal(front);
      if last.inFlight {
        var all := Credits(front) + [AckedPacket(last.size, last.timeSent)];
        assert all[..|all| - 1] == Credits(front);
      } else {
        assert Credits(front) + [] == Credits(front);
      }
    }
  }

  lemma {:induction false} NoneInFlight(packets: seq<SentPacket>)
    ensures NewestSent(packets).None? <==> OldestSent(packets).None?
    ensures NewestSent(packets).None? ==> FlightBytes(packets) == 0
  {
    if packets != [] {
      NoneInFlight(packets[..|packets| - 1]);
    }
  }

  // ------------------------------------------------------------------------- losses

  lemma {:induction false} NewestIs(packets: seq<SentPacket>)
    ensures NewestSent(packets).None? <==> forall p :: p in packets ==> !p.inFlight
    ensures NewestSent(packets).Some? ==>
              && (exists p :: p in packets && p.inFlight && p.timeSent == NewestSent(packets).value)
              && (forall p :: p in packets && p.inFlight ==> p.timeSent <= NewestSent(packets).value)
  {
    if packets != [] {
      var front, last := packets[..|packets| - 1], packets[|packets| - 1];
      assert packets == front + [last];
      NewestIs(front);
    }
  }

  lemma {:induction false} OldestIs(packets: seq<SentPacket>)
    ensures OldestSent(packets).None? <==> forall p :: p in packets ==> !p.inFlight
    ensures OldestSent(packets).Some? ==>
              && (exists p :: p in packets && p.inFlight && p.timeSent == OldestSent(packets).value)
              && (forall p :: p in packets && p.inFlight ==> OldestSent(packets).value <= p.timeSent)
  {
    if packets != [] {
      var front, last := packets[..|packets| - 1], packets[|packets| - 1];
      assert packets == front + [last];
      OldestIs(front);
    }
  }

  /** Two of the packets, both in flight, were sent more than three timeouts apart. */
  ghost predicate LostForLong(packets: seq<SentPacket>, ptoBase: nat) {
    exists p, q :: p in packets && q in packets && p.inFlight && q.inFlight && q.timeSent > p.timeSent + 3 * ptoBase
  }

  /** Of the packets in flight, none was sent later. */
  ghost predicate IsNewest(packets: seq<SentPacket>, p: SentPacket) {
    p in packets && p.inFlight && forall q :: q in packets && q.inFlight ==> q.timeSent <= p.timeSent
  }

  lemma SpanExact(lost: seq<SentPacket>, newest: SentPacket, ptoBase: nat)
    requires IsNewest(lost, newest)
    ensures NewestSent(lost) == Some(newest.timeSent) && OldestSent(lost).Some?
    ensures IsPersistent(OldestSent(lost).value, newest.timeSent, ptoBase) <==> LostForLong(lost, ptoBase)
  {
    NewestIs(lost);
    OldestIs(lost);
    hide NewestSent, OldestSent;
    var first :| first in lost && first.inFlight && first.timeSent == OldestSent(lost).value;
    if LostForLong(lost, ptoBase) {
      var p, q :| p in lost && q in lost && p.inFlight && q.inFlight && q.timeSent > p.timeSent + 3 * ptoBase;
      assert first.timeSent <= p.timeSent && q.timeSent <= newest.timeSent;
    }
  }

  /**
   * Exactly how a loss is handed to a controller: it is told the bytes in flight among what
   * was lost and the send time of the newest of them, and then of persistent congestion
   * exactly when they span more than three timeouts.
   */
  lemma PunishExact(control: Controller, lost: seq<SentPacket>, newest: SentPacket, now: nat, ptoBase: nat, o: Oracle)
    requires IsNewest(lost, newest)
    ensures var less := control.OnLost(FlightBytes(lost), newest.timeSent, now, o);
            Punish(control, lost, now, ptoBase, o) == if LostForLong(lost, ptoBase) then less.OnPersistent() else less
  {
    hide Controller.OnLost, Controller.OnPersistent, FlightBytes, LostForLong, IsNewest, NewestSent, OldestSent;
    hide IsPersistent;
    SpanExact(lost, newest, ptoBase);
  }

  /** Packets that were not in flight do not count. */
  lemma NotInFlight(control: Controller, lost: seq<SentPacket>, now: nat, ptoBase: nat, o: Oracle)
    requires forall p :: p in lost ==> !p.inFlight
    ensures Punish(control, lost, now, ptoBase, o) == control
  {
    NewestIs(lost);
  }

  /** NewReno, from a loss in a new episode to the window: halved, or two datagrams. */
  lemma RenoLoss(s: Reno, lost: seq<SentPacket>, newest: SentPacket, now: nat, ptoBase: nat, o: Oracle)
    requires s.window >= 2 * s.datagram && s.recovery.None? && IsNewest(lost, newest)
    ensures var r := Punish(RenoC(s), lost, now, ptoBase, o);
            && r.RenoC? && r.reno.window <= s.window
            && (if LostForLong(lost, ptoBase) then r.reno.window == 2 * s.datagram && r.reno.recovery == None
                else
                  && r.reno.recovery == Some(now)
                  && (r.reno.window == 2 * s.datagram || r.reno.window == s.window / 2))
  {
    hide Punish, FlightBytes, LostForLong, IsNewest;
    PunishExact(RenoC(s), lost, newest, now, ptoBase, o);
    Congestion.LossExact(s, FlightBytes(lost), newest.timeSent, now);
  }

  // --------------------------------------------------------------- in-flight bytes

  ghost predicate SpaceOk(s: Space) {
    Keyed(s.sent.sent) && s.nextPn <= s.high && forall pn :: pn in s.sent.sent ==> pn < s.high
  }

  function SpaceBytes(s: Space): (n: nat) { Below(s.sent.sent, s.high) }

  function Outstanding(c: Conn): (n: nat)
    requires |c.spaces| == 3
  {
    SpaceBytes(c.spaces[0]) + SpaceBytes(c.spaces[1]) + SpaceBytes(c.spaces[2])
  }

  ghost predicate Balanced(c: Conn) {
    && |c.spaces| == 3 && c.control.Ready()
    && (forall i :: 0 <= i < 3 ==> SpaceOk(c.spaces[i]))
    && c.control.Bytes() >= Outstanding(c)
  }

  /** Bytes the controller counts in flight beyond those of the outstanding records. */
  ghost function Leak(c: Conn): (n: nat)
    requires Balanced(c)
  {
    c.control.Bytes() - Outstanding(c)
  }

  /** The in-flight bytes of the record that the next packet of a space would replace. */
  function Replaced(c: Conn, step: Step): (n: nat) {
    if step.Send? && step.space < |c.spaces| && (step.ackEliciting || step.frames != []) then
      var s := c.spaces[step.space];
      if s.nextPn in s.sent.sent then Weight(s.sent.sent[s.nextPn]) else 0
    else 0
  }

  /** Replacing one space moves the total by the difference. */
  lemma SpaceSwap(c: Conn, i: nat, s: Space)
    requires |c.spaces| == 3 && i < 3
    ensures Outstanding(c.(spaces := c.spaces[i := s])) == Outstanding(c) - SpaceBytes(c.spaces[i]) + SpaceBytes(s)
  {
    hide SpaceBytes;
  }

  lemma SendBalanced(c: Conn, i: nat, now: nat, eliciting: bool, probe: bool, size: nat, frames: seq<SentFrame>)
    requires Balanced(c) && i < 3
    ensures var c' := DoSend(c, i, now, eliciting, probe, size, frames);
            && Balanced(c')
            && Leak(c') == Leak(c) + Replaced(c, Send(i, now, eliciting, probe, size, frames))
  {
    var s := c.spaces[i];
    var c' := DoSend(c, i, now, eliciting, probe, size, frames);
    var s' := c'.spaces[i];
    var packet := SentPacket(s.nextPn, now, eliciting, eliciting && !probe, size, frames);
    BelowPut(s.sent.sent, s.nextPn, packet, s'.high);
    BelowMore(s.sent.sent, s.high, s'.high);
    SpaceSwap(c, i, s');
    assert c'.spaces == c.spaces[i := s'];
    hide Below, Outstanding;
  }

  lemma AckBalanced(c: Conn, i: nat, largest: nat, first: nat, ranges: seq<AckRange>, now: nat, o: Oracle)
    requires Balanced(c) && i < 3
    ensures var c' := DoAck(c, i, largest, first, ranges, now, o).0; Balanced(c') && Leak(c') == Leak(c)
  {
    hide ApplyAck, ExpandAck, Below, FlightBytes, Controller.OnAcked, Outstanding, Moved, Controller.Ready;
    var s := c.spaces[i];
    var (sent, outcome) := ApplyAck(s.sent, largest, first, ranges);
    OnAckExact(s.sent, largest, first, ranges);
    MovedBytes(s.sent.sent, sent.sent, outcome.newlyAcked, s.high);
    CreditsTotal(outcome.newlyAcked);
    var s' := s.(sent := sent, acked := s.acked + Numbers(outcome.newlyAcked));
    SpaceSwap(c, i, s');
    SpaceShare(c, i);
    AckReleases(c.control, Credits(outcome.newlyAcked), now, o);
    SwapOk(c, i, s', DoAck(c, i, largest, first, ranges, now, o).0);
  }

  lemma SpaceShare(c: Conn, i: nat)
    requires |c.spaces| == 3 && i < 3
    ensures SpaceBytes(c.spaces[i]) <= Outstanding(c)
  {
    hide SpaceBytes;
  }

  /** Releasing exactly the bytes that left the space keeps the balance. */
  lemma SwapOk(c: Conn, i: nat, s: Space, c': Conn)
    requires Balanced(c) && i < 3 && SpaceOk(s) && c'.spaces == c.spaces[i := s]
    requires c'.control.Ready() && Outstanding(c.(spaces := c.spaces[i := s])) + Leak(c) == c'.control.Bytes()
    ensures Balanced(c') && Leak(c') == Leak(c)
  {
    hide SpaceOk, SpaceBytes, Controller.Ready, Controller.Bytes;
    assert Outstanding(c') == Outstanding(c.(spaces := c.spaces[i := s]));
  }

  lemma LossBalanced(c: Conn, i: nat, now: nat, delay: nat, ptoBase: nat, o: Oracle)
    requires Balanced(c) && i < 3
    ensures var c' := DoLoss(c, i, now, delay, ptoBase, o); Balanced(c') && Leak(c') == Leak(c)
  {
    hide FindLost, Below, Doomed, Outstanding, FlightBytes, Punish, Moved, Controller.Ready;
    var s := c.spaces[i];
    var (sent, lost, _) := FindLost(s.sent, now, delay);
    DetectLostExact(s.sent, now, delay);
    MovedBytes(s.sent.sent, sent.sent, lost, s.high);
    var s' := s.(sent := sent, lost := s.lost + Numbers(lost));
    SpaceSwap(c, i, s');
    SpaceShare(c, i);
    PunishReleases(c.control, lost, now, ptoBase, o);
    SwapOk(c, i, s', DoLoss(c, i, now, delay, ptoBase, o));
  }

  lemma PunishReleases(control: Controller, lost: seq<SentPacket>, now: nat, ptoBase: nat, o: Oracle)
    requires control.Ready() && FlightBytes(lost) <= control.Bytes()
    ensures Punish(control, lost, now, ptoBase, o).Ready()
    ensures Punish(control, lost, now, ptoBase, o).Bytes() == control.Bytes() - FlightBytes(lost)
  {
    NoneInFlight(lost);
    if NewestSent(lost).Some? {
      LossReleases(control, FlightBytes(lost), NewestSent(lost).value, now, o);
    }
  }

  /** Only a packet that takes over the number of an in-flight record changes the leak. */
  lemma NextBalanced(c: Conn, step: Step)
    requires Balanced(c)
    ensures Balanced(Next(c, step)) && Leak(Next(c, step)) == Leak(c) + Replaced(c, step)
  {
    assert |c.spaces| == 3 && c.control.Ready();
    hide Balanced, DoSend, DoAck, DoLoss, Leak;
    match step
    case Send(i, now, eliciting, probe, size, frames) =>
      if i < 3 { SendBalanced(c, i, now, eliciting, probe, size, frames); }
    case GetAck(i, largest, first, ranges, now, delay, ptoBase, o) =>
      if i < 3 {
        AckBalanced(c, i, largest, first, ranges, now, o);
        LossBalanced(DoAck(c, i, largest, first, ranges, now, o).0, i, now, delay, ptoBase, o);
      }
    case Expire(i, now, delay, ptoBase, o) =>
      if i < 3 { LossBalanced(c, i, now, delay, ptoBase, o); }
    case Retry => RetryBalanced(c);
  }

  lemma RetryBalanced(c: Conn)
    requires Balanced(c)
    ensures var c' := c.(spaces := c.spaces[0 := c.spaces[0].(nextPn := 0)]); Balanced(c') && Leak(c') == Leak(c)
  {
    SpaceSwap(c, 0, c.spaces[0].(nextPn := 0));
  }

  function After(c: Conn, steps: seq<Step>): (r: Conn)
    requires Balanced(c)
    ensures Balanced(r)
    decreases |steps|
  {
    if steps == [] then c
    else
      var before := After(c, steps[..|steps| - 1]);
      NextBalanced(before, steps[|steps| - 1]);
      Next(before, steps[|steps| - 1])
  }

  lemma NewConnBalanced(control: Controller)
    requires control.Ready() && control.Bytes() == 0
    ensures Balanced(NewConn(control)) && Leak(NewConn(control)) == 0
  {
    assert SpaceBytes(NEW_SPACE) == 0;
  }

  /** What the step numbered `k` replaces, in the state in which it is made. */
  ghost function ReplacedAt(c: Conn, steps: seq<Step>, k: nat): (n: nat)
    requires Balanced(c) && k < |steps|
  {
    Replaced(After(c, steps[..k]), steps[k])
  }

  /** No packet was sent under the number of a record that was still in flight. */
  ghost predicate NoneReplaced(c: Conn, steps: seq<Step>)
    requires Balanced(c)
  {
    forall k :: 0 <= k < |steps| ==> ReplacedAt(c, steps, k) == 0
  }

  lemma ReplacedAtFront(c: Conn, steps: seq<Step>, k: nat)
    requires Balanced(c) && k < |steps|
    ensures k < |steps| - 1 ==> ReplacedAt(c, steps, k) == ReplacedAt(c, steps[..|steps| - 1], k)
    ensures k == |steps| - 1 ==> ReplacedAt(c, steps, k) == Replaced(After(c, steps[..|steps| - 1]), steps[k])
  {
    hide Balanced, Replaced, After;
    if k < |steps| - 1 {
      assert steps[..|steps| - 1][..k] == steps[..k];
    }
  }

  lemma NoneReplacedStep(c: Conn, steps: seq<Step>)
    requires Balanced(c) && steps != []
    ensures var front, n := steps[..|steps| - 1], |steps| - 1;
            NoneReplaced(c, steps) <==> NoneReplaced(c, front) && Replaced(After(c, front), steps[n]) == 0
  {
    hide Balanced, Replaced, After, ReplacedAt;
    var front, n := steps[..|steps| - 1], |steps| - 1;
    ReplacedAtFront(c, steps, n);
    forall k | 0 <= k < n
      ensures ReplacedAt(c, steps, k) == ReplacedAt(c, front, k)
    {
      ReplacedAtFront(c, steps, k);
    }
    if NoneReplaced(c, steps) {
      assert forall k :: 0 <= k < n ==> ReplacedAt(c, steps, k) == 0;
    }
  }

  /** The leak never falls, and grows exactly when a step replaces an in-flight record. */
  lemma {:induction false} LeakExact(c: Conn, steps: seq<Step>)
    requires Balanced(c)
    ensures Leak(After(c, steps)) >= Leak(c)
    ensures Leak(After(c, steps)) == Leak(c) <==> NoneReplaced(c, steps)
    decreases |steps|
  {
    hide Balanced, Replaced, ReplacedAt, Next, Leak;
    if steps != [] {
      LeakExact(c, steps[..|steps| - 1]);
      NextBalanced(After(c, steps[..|steps| - 1]), steps[|steps| - 1]);
      NoneReplacedStep(c, steps);
      hide NoneReplaced;
    }
  }

  /**
   * In every run, for NewReno, CUBIC and BBR alike: the controller counts at least the
   * in-flight bytes of the outstanding records, and exactly these if and only if no packet
   * was ever sent under the number of a record that was still in flight.
   */
  lemma BytesConserved(control: Controller, steps: seq<Step>)
    requires control.Ready() && control.Bytes() == 0
    ensures Balanced(NewConn(control))
    ensures var c := After(NewConn(control), steps);
            && c.control.Bytes() >= Outstanding(c)
            && (c.control.Bytes() == Outstanding(c) <==> NoneReplaced(NewConn(control), steps))
  {
    NewConnBalanced(control);
    LeakExact(NewConn(control), steps);
  }

  // -------------------------------------------------------------------- partition

  /** Every recorded number is outstanding, acknowledged or lost, and only one of these. */
  ghost predicate Parted(s: Space) {
    && s.high == s.nextPn && Keyed(s.sent.sent)
    && (forall pn :: pn in s.recorded ==> pn < s.nextPn)
    && s.recorded == s.sent.sent.Keys + s.acked + s.lost
    && s.sent.sent.Keys !! s.acked && s.sent.sent.Keys !! s.lost && s.acked !! s.lost
  }

  ghost predicate AllParted(c: Conn) {
    forall i :: 0 <= i < |c.spaces| ==> Parted(c.spaces[i])
  }

  lemma NumbersMoved(sent: Store, after: Store, out: seq<SentPacket>)
    requires Keyed(sent) && Moved(sent, after, out)
    ensures Numbers(out) == sent.Keys - after.Keys && after.Keys <= sent.Keys
  {
    forall pn | pn in sent.Keys - after.Keys
      ensures pn in Numbers(out)
    {
      assert sent[pn] in out;
    }
    forall pn | pn in Numbers(out)
      ensures pn in sent.Keys - after.Keys
    {
      var p :| p in out && p.number == pn;
      var k :| 0 <= k < |out| && out[k] == p;
    }
  }

  /** Numbers that leave the store join one of the other groups. */
  lemma MovePart(s: Space, sent: SentState)
    requires Parted(s) && Keyed(sent.sent) && sent.sent.Keys <= s.sent.sent.Keys
    ensures var gone := s.sent.sent.Keys - sent.sent.Keys;
            Parted(s.(sent := sent, acked := s.acked + gone)) && Parted(s.(sent := sent, lost := s.lost + gone))
  {
  }

  lemma SendParted(c: Conn, i: nat, now: nat, eliciting: bool, probe: bool, size: nat, frames: seq<SentFrame>)
    requires AllParted(c) && i < |c.spaces|
    ensures AllParted(DoSend(c, i, now, eliciting, probe, size, frames))
  {
    var s := c.spaces[i];
    assert s.nextPn !in s.recorded;
    var s' := DoSend(c, i, now, eliciting, probe, size, frames).spaces[i];
    assert s'.sent.sent.Keys == s.sent.sent.Keys || s'.sent.sent.Keys == s.sent.sent.Keys + {s.nextPn};
    assert Parted(s');
  }

  lemma AckParted(c: Conn, i: nat, largest: nat, first: nat, ranges: seq<AckRange>, now: nat, o: Oracle)
    requires AllParted(c) && i < |c.spaces| && c.control.Ready()
    ensures AllParted(DoAck(c, i, largest, first, ranges, now, o).0)
  {
    hide ApplyAck, ExpandAck, Moved, Numbers, Controller.OnAcked, Credits;
    var s := c.spaces[i];
    var (sent, outcome) := ApplyAck(s.sent, largest, first, ranges);
    OnAckExact(s.sent, largest, first, ranges);
    NumbersMoved(s.sent.sent, sent.sent, outcome.newlyAcked);
    MovePart(s, sent);
  }

  lemma LossParted(c: Conn, i: nat, now: nat, delay: nat, ptoBase: nat, o: Oracle)
    requires AllParted(c) && i < |c.spaces|
    ensures AllParted(DoLoss(c, i, now, delay, ptoBase, o))
  {
    hide FindLost, Doomed, Moved, Numbers, Punish;
    var s := c.spaces[i];
    var (sent, lost, _) := FindLost(s.sent, now, delay);
    DetectLostExact(s.sent, now, delay);
    NumbersMoved(s.sent.sent, sent.sent, lost);
    MovePart(s, sent);
  }

  lemma NextParted(c: Conn, step: Step)
    requires AllParted(c) && c.control.Ready() && !step.Retry?
    ensures AllParted(Next(c, step))
  {
    hide AllParted, DoSend, DoLoss;
    match step
    case Send(i, now, eliciting, probe, size, frames) =>
      if i < |c.spaces| { SendParted(c, i, now, eliciting, probe, size, frames); }
    case GetAck(i, largest, first, ranges, now, delay, ptoBase, o) =>
      if i < |c.spaces| {
        AckParted(c, i, largest, first, ranges, now, o);
        LossParted(DoAck(c, i, largest, first, ranges, now, o).0, i, now, delay, ptoBase, o);
      }
    case Expire(i, now, delay, ptoBase, o) =>
      if i < |c.spaces| { LossParted(c, i, now, delay, ptoBase, o); }
  }

  /**
   * In every run without a Retry each recorded packet is in exactly one of the three
   * groups, and the controller's bytes are those of the outstanding ones.
   */
  lemma {:induction false} PacketsConserved(control: Controller, steps: seq<Step>)
    requires control.Ready() && control.Bytes() == 0
    requires forall i :: 0 <= i < |steps| ==> !steps[i].Retry?
    ensures Balanced(NewConn(control))
    ensures var c := After(NewConn(control), steps);
            AllParted(c) && c.control.Bytes() == Outstanding(c)
    decreases |steps|
  {
    NewConnBalanced(control);
    if steps != [] {
      var front := steps[..|steps| - 1];
      PacketsConserved(control, front);
      var before := After(NewConn(control), front);
      assert Replaced(before, steps[|steps| - 1]) == 0;
      NextParted(before, steps[|steps| - 1]);
      NextBalanced(before, steps[|steps| - 1]);
    }
  }

  /** No packet that loss detection would drop is left in the space. */
  ghost predicate NoneDoomed(s: Space, now: nat, delay: nat) {
    forall pn: nat :: !Doomed(s.sent, pn, now, delay)
  }

  lemma LossLeavesNone(c: Conn, i: nat, now: nat, delay: nat, ptoBase: nat, o: Oracle)
    requires i < |c.spaces| && Keyed(c.spaces[i].sent.sent)
    ensures NoneDoomed(DoLoss(c, i, now, delay, ptoBase, o).spaces[i], now, delay)
  {
    hide FindLost, Punish, Moved;
    DetectLostExact(c.spaces[i].sent, now, delay);
  }

  /**
   * An acknowledgement that settles a packet, and a timer that expires, leave no packet that
   * is past a threshold; an acknowledgement that settles nothing declares nothing lost.
   */
  lemma LossAfterAck(c: Conn, i: nat, largest: nat, first: nat, ranges: seq<AckRange>,
                     now: nat, delay: nat, ptoBase: nat, o: Oracle)
    requires Balanced(c) && i < 3
    ensures var c' := Next(c, GetAck(i, largest, first, ranges, now, delay, ptoBase, o));
            var settled := exists pn: nat :: pn in c.spaces[i].sent.sent && Has(ExpandAck(largest, first, ranges), pn);
            && |c'.spaces| == 3
            && (settled ==> NoneDoomed(c'.spaces[i], now, delay))
            && (!settled ==> c'.spaces[i].lost == c.spaces[i].lost && c'.spaces[i].sent.sent == c.spaces[i].sent.sent)
    ensures NoneDoomed(Next(c, Expire(i, now, delay, ptoBase, o)).spaces[i], now, delay)
  {
    hide ExpandAck, DoLoss, FindLost, ApplyAck, NoneDoomed, Controller.OnAcked;
    AckBalanced(c, i, largest, first, ranges, now, o);
    var (acked, any) := DoAck(c, i, largest, first, ranges, now, o);
    LossLeavesNone(acked, i, now, delay, ptoBase, o);
    LossLeavesNone(c, i, now, delay, ptoBase, o);
    AnyExact(c, i, largest, first, ranges, now, o);
    LossBalanced(acked, i, now, delay, ptoBase, o);
    hide Balanced, SpaceOk;
  }

  lemma AnyExact(c: Conn, i: nat, largest: nat, first: nat, ranges: seq<AckRange>, now: nat, o: Oracle)
    requires Balanced(c) && i < 3
    ensures var (c', any) := DoAck(c, i, largest, first, ranges, now, o);
            && (any <==> exists pn: nat :: pn in c.spaces[i].sent.sent && Has(ExpandAck(largest, first, ranges), pn))
            && (!any ==> c'.spaces[i].sent.sent == c.spaces[i].sent.sent)
            && c'.spaces[i].lost == c.spaces[i].lost
  {
    hide ApplyAck, ExpandAck, Has, Controller.OnAcked, Outstanding, Controller.Ready, Controller.Bytes, Credits;
    hide Numbers;
    SettledExact(c.spaces[i].sent, largest, first, ranges);
  }

  /** Something is newly acknowledged exactly when an outstanding packet is named. */
  lemma SettledExact(s: SentState, largest: nat, first: nat, ranges: seq<AckRange>)
    requires Keyed(s.sent)
    ensures var (s', outcome) := ApplyAck(s, largest, first, ranges);
            && (outcome.newlyAcked != [] <==>
                exists pn: nat :: pn in s.sent && Has(ExpandAck(largest, first, ranges), pn))
            && (outcome.newlyAcked == [] ==> s'.sent == s.sent)
  {
    hide ApplyAck, ExpandAck, Has, Moved, Keyed;
    OnAckExact(s, largest, first, ranges);
    var (s', outcome) := ApplyAck(s, largest, first, ranges);
    MovedNamed(s.sent, s'.sent, outcome.newlyAcked, ExpandAck(largest, first, ranges));
  }

  lemma MovedNamed(sent: Store, after: Store, out: seq<SentPacket>, named: seq<Range>)
    requires Moved(sent, after, out) && forall pn: nat :: pn in after <==> pn in sent && !Has(named, pn)
    ensures out != [] <==> exists pn: nat :: pn in sent && Has(named, pn)
    ensures out == [] ==> after == sent
  {
    hide Has;
    if out != [] {
      assert out[0].number in sent && out[0].number !in after;
    } else {
      assert forall pn :: pn in sent ==> pn in after;
    }
  }

  /** An ACK of packets that are no longer outstanding credits nothing. */
  lemma LateAckCreditsNothing(c: Conn, i: nat, largest: nat, first: nat, ranges: seq<AckRange>, now: nat, o: Oracle)
    requires Balanced(c) && i < 3
    requires forall pn: nat :: Has(ExpandAck(largest, first, ranges), pn) ==> pn !in c.spaces[i].sent.sent
    ensures var (c', any) := DoAck(c, i, largest, first, ranges, now, o);
            !any && c'.control == c.control && c'.spaces[i].sent.sent == c.spaces[i].sent.sent
  {
    hide ApplyAck, ExpandAck, Has, Controller.OnAcked, Outstanding, Controller.Ready, Controller.Bytes, Numbers;
    SettledExact(c.spaces[i].sent, largest, first, ranges);
  }

  // ------------------------------------------------------------------------- Retry

  /**
   * A Retry restarts the Initial packet numbers but keeps the records. If the first
   * Initial packet is still outstanding and in flight, the next Initial packet replaces
   * its record, and its bytes stay charged: whatever happens afterwards, the controller
   * counts at least that much more than is outstanding.
   */
  lemma RetryLeaks(c: Conn, now: nat, size: nat, frames: seq<SentFrame>, more: seq<Step>)
    requires Balanced(c) && 0 in c.spaces[0].sent.sent
    ensures var c' := Next(Next(c, Retry), Send(0, now, true, false, size, frames));
            && Balanced(c')
            && c'.control.Bytes() == Outstanding(c') + Leak(c) + Weight(c.spaces[0].sent.sent[0])
            && var later := After(c', more);
               later.control.Bytes() >= Outstanding(later) + Leak(c) + Weight(c.spaces[0].sent.sent[0])
  {
    NextBalanced(c, Retry);
    NextBalanced(Next(c, Retry), Send(0, now, true, false, size, frames));
    LeakExact(Next(Next(c, Retry), Send(0, now, true, false, size, frames)), more);
  }

  /**
   * Such a run: an Initial packet, a Retry, an Initial packet. From then on the bytes of
   * the first one are counted for ever, also when nothing is outstanding any more.
   */
  lemma RetryRun(control: Controller, size: nat, again: nat, frames: seq<SentFrame>, more: seq<Step>)
    requires control.Ready() && control.Bytes() == 0 && size > 0
    ensures Balanced(NewConn(control))
    ensures var first, second := Send(0, 0, true, false, size, frames), Send(0, 0, true, false, again, frames);
            var c := After(NewConn(control), [first, Retry, second] + more);
            c.control.Bytes() >= Outstanding(c) + size
  {
    var first, second := Send(0, 0, true, false, size, frames), Send(0, 0, true, false, again, frames);
    var c0 := NewConn(control);
    NewConnBalanced(control);
    NextBalanced(c0, first);
    var c1 := Next(c0, first);
    assert c1.spaces[0].sent.sent[0] == SentPacket(0, 0, true, true, size, frames);
    RetryLeaks(c1, 0, again, frames, more);
    NextBalanced(c1, Retry);
    AfterThree(c0, first, Retry, second);
    AfterBoth(c0, [first, Retry, second], more);
  }

  lemma AfterOneMore(c: Conn, steps: seq<Step>, last: Step)
    requires Balanced(c)
    ensures After(c, steps + [last]) == Next(After(c, steps), last)
  {
    hide Balanced, Next;
    assert (steps + [last])[..|steps|] == steps;
  }

  lemma {:induction false} AfterBoth(c: Conn, steps: seq<Step>, more: seq<Step>)
    requires Balanced(c)
    ensures After(c, steps + more) == After(After(c, steps), more)
    decreases |more|
  {
    hide Balanced, Next;
    if more == [] {
      assert steps + more == steps;
    } else {
      var front, last := more[..|more| - 1], more[|more| - 1];
      AfterBoth(c, steps, front);
      assert steps + more == (steps + front) + [last] && more == front + [last];
      AfterOneMore(c, steps + front, last);
      AfterOneMore(After(c, steps), front, last);
      hide After;
    }
  }

  lemma {:induction false} AfterThree(c: Conn, a: Step, b: Step, d: Step)
    requires Balanced(c) && Balanced(Next(c, a)) && Balanced(Next(Next(c, a), b))
    ensures After(c, [a, b, d]) == Next(Next(Next(c, a), b), d)
  {
    hide Next, After, Outstanding, SpaceOk, Controller.Ready, Controller.Bytes;
    AfterNone(c);
    AfterOneMore(c, [], a);
    assert [] + [a] == [a];
    assert After(c, [a]) == Next(c, a);
    AfterOneMore(c, [a], b);
    assert [a] + [b] == [a, b];
    AfterOneMore(c, [a, b], d);
    assert [a, b] + [d] == [a, b, d];
  }

  lemma AfterNone(c: Conn)
    requires Balanced(c)
    ensures After(c, []) == c
  {
    hide Balanced, Next;
  }
}
