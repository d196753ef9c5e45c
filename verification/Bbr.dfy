/**
 * The BBR controller's phase machine and bounds. What the source computes in floating
 * point (the delivery rate, the bandwidth-delay product, the in-flight limit) is an
 * input of each event, so the results hold whatever those computations return.
 */
module Bbr {
  import opened Common
  import opened Congestion

  const HIGH_GAIN: real := 2.885390081777927
  const GAINS: seq<real> := [1.25, 0.75, 1.0, 1.0, 1.0, 1.0, 1.0, 1.0]
  const CYCLE_LEN: nat := 8
  const PROBE_RTT_DURATION: nat := 200_000_000
  const RT_PROP_FILTER_LEN: nat := 10_000_000_000
  const FALLBACK_RTT: nat := 100_000_000
  const BW_WINDOW_ROUNDS: nat := 10

  // ------------------------------------------------------------- windowed maximum

  datatype Slot = Slot(value: real, round: nat)

  datatype Filter = Filter(first: Slot, second: Slot, third: Slot) {
    function Update(value: real, round: nat, len: nat): (f: Filter) {
      if value >= first.value || SatSub(round, third.round) >= len then
        Filter(Slot(value, round), Slot(value, round), Slot(value, round))
      else
        var f := if value >= second.value then this.(second := Slot(value, round), third := Slot(value, round))
                 else if value >= third.value then this.(third := Slot(value, round))
                 else this;
        if SatSub(round, f.first.round) >= len then Filter(f.second, f.third, Slot(value, round))
        else if SatSub(round, f.second.round) >= len then Filter(f.first, f.third, Slot(value, round))
        else f
    }

    predicate Ordered() { first.value >= second.value >= third.value >= 0.0 }
  }

  const EMPTY_FILTER: Filter := Filter(Slot(0.0, 0), Slot(0.0, 0), Slot(0.0, 0))

  /** The slots stay in order, and the maximum is never below the newest value. */
  lemma FilterOrdered(f: Filter, value: real, round: nat, len: nat)
    requires f.Ordered() && value >= 0.0
    ensures f.Update(value, round, len).Ordered() && f.Update(value, round, len).first.value >= value
  {
  }

  /** Where the maximum comes from: an old one, `len` rounds back or more, does not survive. */
  lemma FilterMaximum(f: Filter, value: real, round: nat, len: nat)
    requires f.Ordered() && f.first.round <= f.second.round <= f.third.round <= round && len > 0
    ensures var r := f.Update(value, round, len);
            && r.first.round <= r.second.round <= r.third.round <= round
            && (round - f.first.round < len ==>
                  r.first.value == if value >= f.first.value then value else f.first.value)
            && (round - f.first.round >= len && round - f.third.round < len ==>
                  r.first.value == if value >= f.second.value then value else f.second.value)
            && (round - f.third.round >= len ==> r.first.value == value)
  {
  }

  // ------------------------------------------------------------------- the model

  datatype Phase = Startup | Drain | ProbeBw(index: nat) | ProbeRtt(start: nat)

  /** The floating-point results used by one event. */
  datatype Floats = Floats(bw: Option<real>, bdp: nat, limit: nat)

  datatype State = State(
    datagram: nat, phase: Phase, btlBw: real, filter: Filter, rtProp: Option<nat>, rtPropStamp: nat,
    pacingGain: real, cwndGain: real, window: nat, inFlight: nat,
    roundCount: nat, roundStart: bool, nextRoundDelivered: nat, delivered: nat,
    filledPipe: bool, fullBw: real, fullBwCount: nat, cycleStamp: nat, cycleIndex: nat,
    doneStamp: Option<nat>, roundDone: bool, priorCwnd: nat, bwHi: Option<real>, inflightHi: Option<nat>,
    recovery: Option<nat>)
  {
    function OnSent(bytes: nat): (r: State) { this.(inFlight := inFlight + bytes) }

    function NoteRtt(acked: seq<AckedPacket>, now: nat): (r: State) {
      match Newest(acked)
      case None => this
      case Some(sent) =>
        var rtt := SatSub(now, sent);
        if rtProp.None? || rtt < rtProp.value then this.(rtProp := Some(rtt), rtPropStamp := now) else this
    }

    function UpdateRound(): (r: State) {
      if delivered >= nextRoundDelivered then
        this.(nextRoundDelivered := delivered, roundCount := roundCount + 1, roundStart := true)
      else this.(roundStart := false)
    }

    function NoteBandwidth(bw: Option<real>): (r: State) {
      if bw.None? || bw.value <= 0.0 then this
      else
        var f := filter.Update(bw.value, roundCount, BW_WINDOW_ROUNDS);
        var best := if bwHi.Some? && bwHi.value < f.first.value then bwHi.value else f.first.value;
        this.(filter := f, btlBw := if best > btlBw then best else btlBw)
    }

    function CheckFullPipe(): (r: State) {
      if filledPipe || !roundStart then this
      else if btlBw >= fullBw * 1.25 then this.(fullBw := btlBw, fullBwCount := 0)
      else this.(fullBwCount := fullBwCount + 1, filledPipe := fullBwCount + 1 >= 3)
    }

    function EnterDrain(): (r: State) { this.(phase := Drain, pacingGain := 1.0 / HIGH_GAIN, cwndGain := 1.0) }

    function EnterStartup(): (r: State) { this.(phase := Startup, pacingGain := HIGH_GAIN, cwndGain := 2.0) }

    function EnterProbeBw(now: nat): (r: State) {
      this.(phase := ProbeBw(1), cycleIndex := 1, pacingGain := GAINS[1], cwndGain := 2.0, cycleStamp := now)
    }

    function EnterProbeRtt(now: nat): (r: State) {
      this.(priorCwnd := window, phase := ProbeRtt(now), pacingGain := 1.0, cwndGain := 1.0,
            doneStamp := None, roundDone := false)
    }

    function AdvanceCycle(now: nat): (r: State) {
      var rt := if rtProp.Some? then rtProp.value else FALLBACK_RTT;
      if SatSub(now, cycleStamp) < rt then this
      else
        var i := (cycleIndex + 1) % CYCLE_LEN;
        this.(cycleIndex := i, cycleStamp := now, pacingGain := GAINS[i], phase := ProbeBw(i))
    }

    function MinPipe(): (w: nat) { 4 * datagram }

    function HandleProbeRtt(now: nat): (r: State) {
      var s := this.(rtPropStamp := now);
      if doneStamp.None? && inFlight <= MinPipe() then
        s.(doneStamp := Some(now + PROBE_RTT_DURATION), roundDone := false, nextRoundDelivered := delivered)
      else if doneStamp.None? then s
      else
        var t := s.(roundDone := roundDone || roundStart);
        if !t.roundDone || now < doneStamp.value then t
        else if !filledPipe then t.(window := priorCwnd).EnterStartup()
        else t.(window := priorCwnd).EnterProbeBw(now)
    }

    function UpdatePhase(now: nat, trigger: bool, bdp: nat): (r: State) {
      match phase
      case Startup => if filledPipe then EnterDrain() else this
      case Drain => if inFlight <= bdp then EnterProbeBw(now) else this
      case ProbeBw(_) => if trigger then EnterProbeRtt(now) else AdvanceCycle(now)
      case ProbeRtt(_) => HandleProbeRtt(now)
    }

    function SetCwnd(limit: nat): (r: State) {
      if phase.ProbeRtt? then this.(window := MinPipe())
      else if btlBw <= 0.0 then this.(window := InitialWindow(datagram))
      else this.(window := Max(limit, MinPipe()))
    }

    function Release(bytes: nat): (r: State) {
      this.(inFlight := SatSub(inFlight, bytes), delivered := delivered + bytes)
    }

    /** Everything an acknowledgement does before the phase is considered. */
    function Measure(acked: seq<AckedPacket>, now: nat, bw: Option<real>): (r: State) {
      Release(TotalBytes(acked)).NoteRtt(acked, now).UpdateRound().NoteBandwidth(bw).CheckFullPipe()
    }

    function OnAcked(acked: seq<AckedPacket>, now: nat, f: Floats): (r: State) {
      var s := Measure(acked, now, f.bw);
      var trigger := SatSub(now, s.rtPropStamp) >= RT_PROP_FILTER_LEN && !s.phase.ProbeRtt?;
      s.UpdatePhase(now, trigger, f.bdp).SetCwnd(f.limit)
    }

    function OnLost(bytes: nat, newest: nat, now: nat, f: Floats): (r: State) {
      var s := this.(inFlight := SatSub(inFlight, bytes));
      if Within(recovery, newest) then s
      else
        s.(recovery := Some(now), inflightHi := Some(Max((inFlight + bytes) * 7 / 10, f.bdp)),
           bwHi := if btlBw > 0.0 then Some(btlBw) else bwHi).SetCwnd(f.limit)
    }
  }

  function Newest(acked: seq<AckedPacket>): (t: Option<nat>) {
    if acked == [] then None
    else Some(MaxOpt(Newest(acked[..|acked| - 1]), acked[|acked| - 1].sentTime))
  }

  function NewBbr(datagram: nat, now: nat): (s: State) {
    State(datagram, Startup, 0.0, EMPTY_FILTER, None, now, HIGH_GAIN, 2.0, InitialWindow(datagram), 0,
          0, false, 0, 0, false, 0.0, 0, now, 0, None, false, InitialWindow(datagram), None, None, None)
  }

  // --------------------------------------------------------------------- invariant

  /** The gains that belong to the phase. */
  predicate GainsFit(s: State) {
    match s.phase
    case Startup => s.pacingGain == HIGH_GAIN && s.cwndGain == 2.0
    case Drain => s.pacingGain == 1.0 / HIGH_GAIN && s.cwndGain == 1.0
    case ProbeBw(i) => i == s.cycleIndex && i < CYCLE_LEN && s.pacingGain == GAINS[i] && s.cwndGain == 2.0
    case ProbeRtt(_) => s.pacingGain == 1.0 && s.cwndGain == 1.0
  }

  predicate Bandwidth(s: State) {
    && s.filter.Ordered() && s.btlBw >= 0.0
    && (s.bwHi.Some? ==> s.bwHi.value == s.btlBw && s.btlBw > 0.0)
  }

  predicate Timing(s: State, clock: nat) {
    s.phase.ProbeRtt? ==>
      && s.phase.start <= clock
      && (s.doneStamp.Some? ==> s.doneStamp.value >= s.phase.start + PROBE_RTT_DURATION)
  }

  predicate Inv(s: State, clock: nat) {
    && (!s.phase.Startup? ==> s.filledPipe)
    && GainsFit(s) && Bandwidth(s) && Timing(s, clock)
    && s.nextRoundDelivered <= s.delivered
    && s.window >= MinimumWindow(s.datagram)
  }

  /** The edges of the phase diagram. */
  predicate Edge(a: Phase, b: Phase) {
    match a
    case Startup => b.Startup? || b.Drain?
    case Drain => b.Drain? || b.ProbeBw?
    case ProbeBw(_) => b.ProbeBw? || b.ProbeRtt?
    case ProbeRtt(_) => b.ProbeRtt? || b.ProbeBw?
  }

  /** The cycle starts with a quarter more and a quarter less, and its gains are 1 on average. */
  lemma GainsBalance()
    ensures GAINS[0] == 1.25 && GAINS[1] == 0.75 && forall i :: 2 <= i < 8 ==> GAINS[i] == 1.0
    ensures GAINS[0] + GAINS[1] + GAINS[2] + GAINS[3] + GAINS[4] + GAINS[5] + GAINS[6] + GAINS[7] == 8.0
    ensures 2.88539 < HIGH_GAIN < 2.8854
  {
  }

  /** What one event may do to the phase and the bandwidth estimate. */
  predicate Advances(s: State, r: State, now: nat) {
    && Edge(s.phase, r.phase) && r.datagram == s.datagram
    && s.btlBw <= r.btlBw && (s.bwHi.Some? ==> r.btlBw == s.btlBw && r.bwHi == s.bwHi)
    && (s.phase.ProbeRtt? && !r.phase.ProbeRtt? ==> now >= s.phase.start + PROBE_RTT_DURATION)
  }

  lemma NoteBandwidthOk(s: State, bw: Option<real>)
    requires Bandwidth(s)
    ensures var r := s.NoteBandwidth(bw);
            && Bandwidth(r) && s.btlBw <= r.btlBw && (s.bwHi.Some? ==> r.btlBw == s.btlBw)
            && r == s.(filter := r.filter, btlBw := r.btlBw)
  {
    if bw.Some? && bw.value > 0.0 {
      FilterOrdered(s.filter, bw.value, s.roundCount, BW_WINDOW_ROUNDS);
    }
  }

  lemma RttFrame(s: State, acked: seq<AckedPacket>, now: nat)
    ensures var r := s.NoteRtt(acked, now); r == s.(rtProp := r.rtProp, rtPropStamp := r.rtPropStamp)
  {
  }

  lemma RoundFrame(s: State)
    requires s.nextRoundDelivered <= s.delivered
    ensures s.UpdateRound()
         == s.(nextRoundDelivered := s.delivered, roundCount := s.roundCount + 1, roundStart := true)
  {
  }

  lemma PipeFrame(s: State)
    ensures var r := s.CheckFullPipe();
            && r == s.(fullBw := r.fullBw, fullBwCount := r.fullBwCount, filledPipe := r.filledPipe)
            && (s.filledPipe ==> r.filledPipe)
  {
  }

  lemma MeasureOk(s: State, acked: seq<AckedPacket>, now: nat, bw: Option<real>)
    requires Inv(s, now)
    ensures var r := s.Measure(acked, now, bw);
            && Inv(r, now) && r.phase == s.phase && r.datagram == s.datagram
            && r.roundStart && r.roundCount == s.roundCount + 1
            && s.btlBw <= r.btlBw && r.bwHi == s.bwHi && (s.bwHi.Some? ==> r.btlBw == s.btlBw)
            && r.inFlight == SatSub(s.inFlight, TotalBytes(acked))
  {
    hide State.NoteRtt, State.UpdateRound, State.NoteBandwidth, State.CheckFullPipe;
    var s1 := s.Release(TotalBytes(acked));
    RttFrame(s1, acked, now);
    var s2 := s1.NoteRtt(acked, now);
    RoundFrame(s2);
    NoteBandwidthOk(s2.UpdateRound(), bw);
    PipeFrame(s2.UpdateRound().NoteBandwidth(bw));
  }

  lemma PhaseOk(s: State, now: nat, trigger: bool, bdp: nat)
    requires Inv(s, now)
    ensures var r := s.UpdatePhase(now, trigger, bdp);
            && (!r.phase.Startup? ==> r.filledPipe) && GainsFit(r) && Timing(r, now)
            && r.nextRoundDelivered <= r.delivered
            && Advances(s, r, now) && r.btlBw == s.btlBw && r.bwHi == s.bwHi && r.filter == s.filter
            && r.inFlight == s.inFlight
  {
  }

  lemma AckedOk(s: State, acked: seq<AckedPacket>, now: nat, f: Floats)
    requires Inv(s, now)
    ensures var r := s.OnAcked(acked, now, f);
            && Inv(r, now) && Advances(s, r, now)
            && r.inFlight == SatSub(s.inFlight, TotalBytes(acked))
  {
    MeasureOk(s, acked, now, f.bw);
    var m := s.Measure(acked, now, f.bw);
    hide State.Measure;
    var trigger := SatSub(now, m.rtPropStamp) >= RT_PROP_FILTER_LEN && !m.phase.ProbeRtt?;
    PhaseOk(m, now, trigger, f.bdp);
    assert s.OnAcked(acked, now, f) == m.UpdatePhase(now, trigger, f.bdp).SetCwnd(f.limit);
    hide State.UpdatePhase, State.OnAcked;
  }

  lemma LostOk(s: State, bytes: nat, newest: nat, now: nat, f: Floats)
    requires Inv(s, now)
    ensures var r := s.OnLost(bytes, newest, now, f);
            Inv(r, now) && Advances(s, r, now) && r.inFlight == SatSub(s.inFlight, bytes)
  {
  }

  // --------------------------------------------------------------------- every run

  datatype Event =
    | SentEvent(bytes: nat, now: nat)
    | AckEvent(acked: seq<AckedPacket>, now: nat, floats: Floats)
    | LossEvent(lost: nat, newest: nat, now: nat, floats: Floats)

  function Next(s: State, e: Event): (r: State) {
    match e
    case SentEvent(bytes, _) => s.OnSent(bytes)
    case AckEvent(acked, now, f) => s.OnAcked(acked, now, f)
    case LossEvent(lost, newest, now, f) => s.OnLost(lost, newest, now, f)
  }

  function After(s: State, events: seq<Event>): (r: State)
    decreases |events|
  {
    if events == [] then s else Next(After(s, events[..|events| - 1]), events[|events| - 1])
  }

  /** Time does not run backwards, starting from `clock`. */
  predicate Chronological(events: seq<Event>, clock: nat) {
    forall i :: 0 <= i < |events| ==> clock <= events[i].now && (i > 0 ==> events[i - 1].now <= events[i].now)
  }

  function Clock(events: seq<Event>, clock: nat): (t: nat) {
    if events == [] then clock else events[|events| - 1].now
  }

  lemma NextOk(s: State, e: Event, clock: nat)
    requires Inv(s, clock) && clock <= e.now
    ensures Inv(Next(s, e), e.now) && Advances(s, Next(s, e), e.now)
  {
    assert Inv(s, e.now);
    match e
    case SentEvent(_, _) =>
    case AckEvent(acked, now, f) => AckedOk(s, acked, now, f);
    case LossEvent(lost, newest, now, f) => LostOk(s, lost, newest, now, f);
  }

  lemma {:induction false} RunOk(s: State, events: seq<Event>, clock: nat)
    requires Inv(s, clock) && Chronological(events, clock)
    ensures Inv(After(s, events), Clock(events, clock))
    decreases |events|
  {
    if events != [] {
      var front := events[..|events| - 1];
      RunOk(s, front, clock);
      NextOk(After(s, front), events[|events| - 1], Clock(front, clock));
    }
  }

  /**
   * In every reachable state: outside Startup the pipe was found full, the pacing gain is
   * the one of the phase, the two ProbeBW indices agree, the window has its floor, and
   * the bandwidth estimate respects its upper bound.
   */
  lemma PhaseMachine(datagram: nat, start: nat, events: seq<Event>)
    requires Chronological(events, start)
    ensures var s := After(NewBbr(datagram, start), events);
            && (!s.phase.Startup? ==> s.filledPipe)
            && (s.phase.ProbeBw? ==> s.phase.index == s.cycleIndex < CYCLE_LEN && s.pacingGain == GAINS[s.cycleIndex])
            && s.window >= 2 * s.datagram
            && (s.bwHi.Some? ==> s.btlBw <= s.bwHi.value)
  {
    RunOk(NewBbr(datagram, start), events, start);
  }

  /**
   * Along every run: the phases follow the diagram without its edge back to Startup, the
   * bandwidth estimate never falls, after the first loss with an estimate it is frozen
   * for good, and ProbeRTT is held for at least 200 ms.
   */
  lemma {:induction false} RunAdvances(datagram: nat, start: nat, events: seq<Event>, more: seq<Event>)
    requires Chronological(events + more, start)
    ensures var s, r := After(NewBbr(datagram, start), events), After(NewBbr(datagram, start), events + more);
            && (r.phase.Startup? ==> s.phase.Startup?)
            && s.btlBw <= r.btlBw && (s.bwHi.Some? ==> r.btlBw == s.btlBw)
            && (s.bwHi.Some? ==> r.bwHi == s.bwHi)
    decreases |more|
  {
    if more == [] {
      assert events + more == events;
    } else {
      var front, last := more[..|more| - 1], more[|more| - 1];
      assert (events + more)[..|events + more| - 1] == events + front;
      assert (events + more)[|events + more| - 1] == last;
      assert Chronological(events + front, start);
      RunAdvances(datagram, start, events, front);
      RunOk(NewBbr(datagram, start), events + front, start);
      var mid := After(NewBbr(datagram, start), events + front);
      var clock := Clock(events + front, start);
      assert clock <= last.now;
      NextOk(mid, last, clock);
      hide Next, Inv;
    }
  }

  lemma ProbeRttLasts(datagram: nat, start: nat, events: seq<Event>, e: Event)
    requires Chronological(events + [e], start)
    ensures var s := After(NewBbr(datagram, start), events);
            s.phase.ProbeRtt? && !Next(s, e).phase.ProbeRtt? ==> e.now >= s.phase.start + PROBE_RTT_DURATION
  {
    var all := events + [e];
    assert Chronological(events, start) by {
      assert forall i :: 0 <= i < |events| ==> all[i] == events[i];
    }
    assert all[|events|] == e && (events != [] ==> all[|events| - 1] == events[|events| - 1]);
    RunOk(NewBbr(datagram, start), events, start);
    NextOk(After(NewBbr(datagram, start), events), e, Clock(events, start));
  }

  predicate SameRound(s: State, r: State) { r.roundCount == s.roundCount && r.roundStart == s.roundStart }

  lemma ProbeKeepsRound(s: State, now: nat)
    ensures SameRound(s, s.HandleProbeRtt(now)) && SameRound(s, s.AdvanceCycle(now))
  {
  }

  lemma PhaseKeepsRound(s: State, now: nat, trigger: bool, bdp: nat, limit: nat)
    ensures SameRound(s, s.UpdatePhase(now, trigger, bdp).SetCwnd(limit))
  {
    hide State.HandleProbeRtt, State.AdvanceCycle;
    ProbeKeepsRound(s, now);
    assert SameRound(s, s.UpdatePhase(now, trigger, bdp));
    hide State.UpdatePhase;
  }

  /** A round ends at every acknowledgement: the round counter counts ACK events. */
  lemma EveryAckIsARound(s: State, acked: seq<AckedPacket>, now: nat, f: Floats)
    requires Inv(s, now)
    ensures s.OnAcked(acked, now, f).roundCount == s.roundCount + 1 && s.OnAcked(acked, now, f).roundStart
  {
    MeasureOk(s, acked, now, f.bw);
    hide State.Measure;
    var m := s.Measure(acked, now, f.bw);
    PhaseKeepsRound(m, now, SatSub(now, m.rtPropStamp) >= RT_PROP_FILTER_LEN && !m.phase.ProbeRtt?, f.bdp, f.limit);
    hide State.UpdatePhase, State.SetCwnd;
  }

  // ------------------------------------------------------------- the exact behaviour

  /** Some packet acknowledged at `now` took less time than any before. */
  predicate NewMinimum(s: State, acked: seq<AckedPacket>, now: nat) {
    exists i :: 0 <= i < |acked| && (s.rtProp.None? || SatSub(now, acked[i].sentTime) < s.rtProp.value)
  }

  lemma {:induction false} NewestIs(acked: seq<AckedPacket>)
    ensures Newest(acked).None? <==> acked == []
    ensures Newest(acked).Some? ==>
              && (exists i :: 0 <= i < |acked| && acked[i].sentTime == Newest(acked).value)
              && (forall i :: 0 <= i < |acked| ==> acked[i].sentTime <= Newest(acked).value)
  {
    if acked != [] {
      var front, last := acked[..|acked| - 1], acked[|acked| - 1];
      NewestIs(front);
      assert forall i :: 0 <= i < |front| ==> front[i] == acked[i];
      assert acked[|acked| - 1] == last;
      if Newest(front).Some? && Newest(front).value > last.sentTime {
        var i :| 0 <= i < |front| && front[i].sentTime == Newest(front).value;
        assert acked[i].sentTime == Newest(acked).value;
      }
    }
  }

  lemma NoteRttExact(s: State, acked: seq<AckedPacket>, now: nat)
    ensures var r := s.NoteRtt(acked, now);
            && r == s.(rtProp := r.rtProp, rtPropStamp := r.rtPropStamp)
            && (if NewMinimum(s, acked, now) then
                  && r.rtProp.Some? && r.rtPropStamp == now
                  && (exists i :: 0 <= i < |acked| && SatSub(now, acked[i].sentTime) == r.rtProp.value)
                  && (forall i :: 0 <= i < |acked| ==> r.rtProp.value <= SatSub(now, acked[i].sentTime))
                else r == s)
  {
    NewestIs(acked);
    hide Newest;
    if acked != [] {
      var i :| 0 <= i < |acked| && acked[i].sentTime == Newest(acked).value;
      assert NewMinimum(s, acked, now) <==> s.rtProp.None? || SatSub(now, acked[i].sentTime) < s.rtProp.value;
    }
  }

  /** What a state has after the measurements of an acknowledgement, field by field. */
  lemma MeasureExact(s: State, acked: seq<AckedPacket>, now: nat, bw: Option<real>)
    requires Inv(s, now)
    ensures var m := s.Measure(acked, now, bw);
            && m.phase == s.phase && m.inFlight == SatSub(s.inFlight, TotalBytes(acked))
            && m.cycleStamp == s.cycleStamp && m.cycleIndex == s.cycleIndex && m.doneStamp == s.doneStamp
            && m.datagram == s.datagram && m.roundStart && m.roundDone == s.roundDone && m.window == s.window
            && m.delivered == s.delivered + TotalBytes(acked)
            && m.rtPropStamp == (if NewMinimum(s, acked, now) then now else s.rtPropStamp)
            && m.rtProp == s.NoteRtt(acked, now).rtProp
            && (if s.filledPipe then m.filledPipe && m.fullBw == s.fullBw && m.fullBwCount == s.fullBwCount
                else if m.btlBw >= s.fullBw * 1.25 then
                  !m.filledPipe && m.fullBw == m.btlBw && m.fullBwCount == 0
                else
                  && m.fullBw == s.fullBw && m.fullBwCount == s.fullBwCount + 1
                  && (m.filledPipe <==> m.fullBwCount >= 3))
  {
    hide State.NoteRtt, State.NoteBandwidth, NewMinimum;
    var s1 := s.Release(TotalBytes(acked));
    RttFrame(s1, acked, now);
    NoteRttExact(s1, acked, now);
    SameMinimum(s, s1, acked, now);
    var s2 := s1.NoteRtt(acked, now);
    RoundFrame(s2);
    NoteBandwidthOk(s2.UpdateRound(), bw);
    hide Inv;
  }

  lemma SameMinimum(s: State, s1: State, acked: seq<AckedPacket>, now: nat)
    requires s1.rtProp == s.rtProp && s1.rtPropStamp == s.rtPropStamp
    ensures NewMinimum(s1, acked, now) == NewMinimum(s, acked, now)
    ensures s1.NoteRtt(acked, now).rtProp == s.NoteRtt(acked, now).rtProp
  {
  }

  /** What the phase of `s` turns into when `r` is the state after an acknowledgement. */
  predicate Turned(s: State, r: State, expired: bool, now: nat, bdp: nat) {
    match s.phase
    case Startup => r.phase == if r.filledPipe then Drain else Startup
    case Drain => if r.inFlight <= bdp then r.phase == ProbeBw(1) && r.cycleStamp == now else r.phase == Drain
    case ProbeBw(i) =>
      var rtt := if r.rtProp.Some? then r.rtProp.value else 100_000_000;
      if expired then r.phase == ProbeRtt(now) && r.doneStamp == None && r.priorCwnd == s.window
      else if SatSub(now, s.cycleStamp) >= rtt then r.phase == ProbeBw((i + 1) % 8) && r.cycleStamp == now
      else r.phase == s.phase && r.cycleStamp == s.cycleStamp
    case ProbeRtt(_) =>
      r.rtPropStamp == now &&
      match s.doneStamp
      case None =>
        && r.phase == s.phase
        && r.doneStamp == if r.inFlight <= 4 * s.datagram then Some(now + 200_000_000) else None
      case Some(done) =>
        && r.doneStamp == s.doneStamp
        && if done <= now then r.phase == ProbeBw(1) && r.cycleStamp == now else r.phase == s.phase
  }

  /**
   * Exactly when each phase ends. Startup: three acknowledgements in a row without a quarter
   * more bandwidth. Drain: what is in flight is down to the bandwidth-delay product. A step
   * of the cycle: one round trip. The cycle itself: ten seconds without a new minimum of the
   * round trip. ProbeRTT: 200 ms after what is in flight was first down to four datagrams.
   */
  lemma PhaseExact(s: State, acked: seq<AckedPacket>, now: nat, f: Floats)
    requires Inv(s, now)
    ensures var r := s.OnAcked(acked, now, f);
            var expired := !NewMinimum(s, acked, now) && SatSub(now, s.rtPropStamp) >= 10_000_000_000;
            && Turned(s, r, expired, now, f.bdp)
            && (!s.phase.ProbeRtt? ==> r.rtPropStamp == if NewMinimum(s, acked, now) then now else s.rtPropStamp)
            && r.delivered == s.delivered + TotalBytes(acked)
  {
    MeasureExact(s, acked, now, f.bw);
    MeasureOk(s, acked, now, f.bw);
    var m := s.Measure(acked, now, f.bw);
    var trigger := SatSub(now, m.rtPropStamp) >= RT_PROP_FILTER_LEN && !m.phase.ProbeRtt?;
    hide State.Measure, NewMinimum;
    TurnExact(m, now, trigger, f.bdp, f.limit);
    PhaseKeepsPipe(m, now, trigger, f.bdp, f.limit);
  }

  lemma TurnExact(m: State, now: nat, trigger: bool, bdp: nat, limit: nat)
    requires Inv(m, now) && m.roundStart
    ensures Turned(m, m.UpdatePhase(now, trigger, bdp).SetCwnd(limit), trigger, now, bdp)
  {
    assert m.phase.ProbeBw? ==> m.phase.index == m.cycleIndex < 8;
    assert m.phase.ProbeRtt? ==> m.filledPipe;
    hide Inv;
    var r := m.UpdatePhase(now, trigger, bdp);
    assert Turned(m, r, trigger, now, bdp);
    hide State.UpdatePhase;
  }

  /** The pipe is found full at the third acknowledgement in a row that brings less than a quarter more. */
  lemma PipeExact(s: State, acked: seq<AckedPacket>, now: nat, f: Floats)
    requires Inv(s, now) && !s.filledPipe
    ensures var r := s.OnAcked(acked, now, f);
            if r.btlBw >= s.fullBw * 1.25 then !r.filledPipe && r.fullBw == r.btlBw && r.fullBwCount == 0
            else
              && r.fullBw == s.fullBw && r.fullBwCount == s.fullBwCount + 1
              && (r.filledPipe <==> r.fullBwCount >= 3)
  {
    MeasureExact(s, acked, now, f.bw);
    var m := s.Measure(acked, now, f.bw);
    var trigger := SatSub(now, m.rtPropStamp) >= RT_PROP_FILTER_LEN && !m.phase.ProbeRtt?;
    hide State.Measure, NewMinimum;
    PhaseKeepsPipe(m, now, trigger, f.bdp, f.limit);
  }

  predicate SamePipe(m: State, r: State) {
    && r.btlBw == m.btlBw && r.fullBw == m.fullBw && r.fullBwCount == m.fullBwCount
    && r.filledPipe == m.filledPipe && r.rtProp == m.rtProp && r.delivered == m.delivered
    && (!m.phase.ProbeRtt? ==> r.rtPropStamp == m.rtPropStamp)
  }

  lemma ProbeKeepsPipe(m: State, now: nat)
    ensures (m.phase.ProbeRtt? ==> SamePipe(m, m.HandleProbeRtt(now))) && SamePipe(m, m.AdvanceCycle(now))
  {
  }

  lemma PhaseKeepsPipe(m: State, now: nat, trigger: bool, bdp: nat, limit: nat)
    ensures SamePipe(m, m.UpdatePhase(now, trigger, bdp).SetCwnd(limit))
  {
    hide State.HandleProbeRtt, State.AdvanceCycle;
    ProbeKeepsPipe(m, now);
    assert SamePipe(m, m.UpdatePhase(now, trigger, bdp));
    hide State.UpdatePhase;
  }

  /**
   * Exactly what a loss does. In a new episode recovery starts now, the bandwidth estimate, if
   * there is one, becomes its own upper bound, and the bound on what is in flight is seven
   * tenths of what was in flight with the lost bytes added to it, which counts them twice.
   */
  lemma LossExact(s: State, bytes: nat, newest: nat, now: nat, f: Floats)
    ensures var r := s.OnLost(bytes, newest, now, f);
            && r.inFlight == SatSub(s.inFlight, bytes) && r.phase == s.phase && r.btlBw == s.btlBw
            && (if s.recovery.Some? && newest <= s.recovery.value then r == s.(inFlight := r.inFlight)
                else
                  && r.recovery == Some(now) && r.inflightHi.Some? && r.inflightHi.value >= f.bdp
                  && (r.inflightHi.value == f.bdp ||
                      10 * r.inflightHi.value <= 7 * (s.inFlight + bytes) < 10 * r.inflightHi.value + 10)
                  && (f.bdp <= r.inflightHi.value) && 7 * (s.inFlight + bytes) < 10 * r.inflightHi.value + 10
                  && r.bwHi == (if s.btlBw > 0.0 then Some(s.btlBw) else s.bwHi)
                  && r.window == s.SetCwnd(f.limit).window)
  {
  }

  // --------------------------------------------------------------- extremes over runs

  /** `p` acknowledged at event `i` took `rtt`. */
  predicate RttAt(events: seq<Event>, i: nat, k: nat, rtt: nat) {
    && i < |events| && events[i].AckEvent? && k < |events[i].acked|
    && SatSub(events[i].now, events[i].acked[k].sentTime) == rtt
  }

  ghost predicate IsShortest(r: Option<nat>, events: seq<Event>) {
    && (r.None? ==> forall i: nat, k: nat, rtt: nat :: !RttAt(events, i, k, rtt))
    && (r.Some? ==> (exists i: nat, k: nat :: RttAt(events, i, k, r.value))
                    && forall i: nat, k: nat, rtt: nat :: RttAt(events, i, k, rtt) ==> r.value <= rtt)
  }

  lemma AckedRtProp(s: State, acked: seq<AckedPacket>, now: nat, f: Floats)
    requires Inv(s, now)
    ensures s.OnAcked(acked, now, f).rtProp == s.NoteRtt(acked, now).rtProp
  {
    MeasureExact(s, acked, now, f.bw);
    var m := s.Measure(acked, now, f.bw);
    var trigger := SatSub(now, m.rtPropStamp) >= RT_PROP_FILTER_LEN && !m.phase.ProbeRtt?;
    hide State.Measure, NewMinimum, State.NoteRtt;
    PhaseKeepsPipe(m, now, trigger, f.bdp, f.limit);
  }

  lemma ShortestMore(s: State, r: Option<nat>, events: seq<Event>, e: Event)
    requires IsShortest(s.rtProp, events)
    requires r == if e.AckEvent? then s.NoteRtt(e.acked, e.now).rtProp else s.rtProp
    ensures IsShortest(r, events + [e])
  {
    var all := events + [e];
    assert forall i: nat, k: nat, rtt: nat :: RttAt(events, i, k, rtt) ==> RttAt(all, i, k, rtt);
    assert forall i: nat, k: nat, rtt: nat :: RttAt(all, i, k, rtt) && i < |events| ==> RttAt(events, i, k, rtt);
    if e.AckEvent? {
      NoteRttExact(s, e.acked, e.now);
      hide State.NoteRtt;
      if NewMinimum(s, e.acked, e.now) {
        var k: nat :| 0 <= k < |e.acked| && SatSub(e.now, e.acked[k].sentTime) == r.value;
        assert RttAt(all, |events|, k, r.value);
      } else {
        assert forall k: nat, rtt: nat :: RttAt(all, |events|, k, rtt) ==> r.Some? && r.value <= rtt;
      }
    }
  }

  /** In every run the minimum round trip is that of all packets acknowledged so far; it never expires. */
  lemma {:induction false} RtPropIsMinimum(datagram: nat, start: nat, events: seq<Event>)
    requires Chronological(events, start)
    ensures IsShortest(After(NewBbr(datagram, start), events).rtProp, events)
    decreases |events|
  {
    var s := After(NewBbr(datagram, start), events);
    if events != [] {
      var front, last := events[..|events| - 1], events[|events| - 1];
      RtPropIsMinimum(datagram, start, front);
      RunOk(NewBbr(datagram, start), front, start);
      var before := After(NewBbr(datagram, start), front);
      assert Inv(before, last.now);
      hide Inv, IsShortest, State.OnAcked, State.NoteRtt;
      if last.AckEvent? {
        AckedRtProp(before, last.acked, last.now, last.floats);
      }
      assert events == front + [last];
      ShortestMore(before, s.rtProp, front, last);
    }
  }

  /** `bw` was measured, and is positive, at event `i`. */
  predicate BwAt(events: seq<Event>, i: nat, bw: real) {
    i < |events| && events[i].AckEvent? && events[i].floats.bw == Some(bw) && bw > 0.0
  }

  ghost predicate IsGreatest(b: real, events: seq<Event>) {
    && b >= 0.0 && (b == 0.0 || exists i: nat :: BwAt(events, i, b))
    && forall i: nat, bw: real :: BwAt(events, i, bw) ==> bw <= b
  }

  lemma AckedBtlBw(s: State, acked: seq<AckedPacket>, now: nat, f: Floats)
    requires Inv(s, now) && s.bwHi.None? && s.filter.first.value <= s.btlBw
    ensures var r := s.OnAcked(acked, now, f);
            && r.bwHi.None? && r.filter.first.value <= r.btlBw
            && r.btlBw == if f.bw.Some? && f.bw.value > s.btlBw then f.bw.value else s.btlBw
  {
    MeasureBtlBw(s, acked, now, f.bw);
    var m := s.Measure(acked, now, f.bw);
    var trigger := SatSub(now, m.rtPropStamp) >= RT_PROP_FILTER_LEN && !m.phase.ProbeRtt?;
    MeasureOk(s, acked, now, f.bw);
    PhaseOk(m, now, trigger, f.bdp);
    assert s.OnAcked(acked, now, f) == m.UpdatePhase(now, trigger, f.bdp).SetCwnd(f.limit);
    hide State.Measure, State.UpdatePhase, State.OnAcked;
  }

  lemma MeasureBtlBw(s: State, acked: seq<AckedPacket>, now: nat, bw: Option<real>)
    requires Inv(s, now) && s.bwHi.None? && s.filter.first.value <= s.btlBw
    ensures var m := s.Measure(acked, now, bw);
            && m.bwHi.None? && m.filter.first.value <= m.btlBw
            && m.btlBw == if bw.Some? && bw.value > s.btlBw then bw.value else s.btlBw
  {
    var s1 := s.Release(TotalBytes(acked));
    RttFrame(s1, acked, now);
    hide State.NoteRtt;
    var s2 := s1.NoteRtt(acked, now);
    RoundFrame(s2);
    var s3 := s2.UpdateRound();
    hide State.UpdateRound;
    if bw.Some? && bw.value > 0.0 {
      FilterOrdered(s3.filter, bw.value, s3.roundCount, BW_WINDOW_ROUNDS);
      FilterFrom(s3.filter, bw.value, s3.roundCount, BW_WINDOW_ROUNDS);
    }
    hide Filter.Update;
    PipeFrame(s3.NoteBandwidth(bw));
    hide State.CheckFullPipe;
  }

  /** The maximum is the newest value or was in the filter. */
  lemma FilterFrom(f: Filter, value: real, round: nat, len: nat)
    requires f.Ordered()
    ensures var r := f.Update(value, round, len); r.first.value == value || r.first.value <= f.first.value
  {
  }

  lemma GreatestMore(b: real, r: real, events: seq<Event>, e: Event)
    requires IsGreatest(b, events)
    requires r == if e.AckEvent? && e.floats.bw.Some? && e.floats.bw.value > b then e.floats.bw.value else b
    ensures IsGreatest(r, events + [e])
  {
    var all := events + [e];
    assert forall i: nat, bw: real :: BwAt(events, i, bw) ==> BwAt(all, i, bw);
    assert forall i: nat, bw: real :: BwAt(all, i, bw) && i < |events| ==> BwAt(events, i, bw);
    if r != b {
      assert BwAt(all, |events|, r);
    }
    assert forall bw: real :: BwAt(all, |events|, bw) ==> bw <= r;
  }

  /**
   * In every run, until the first loss with an estimate freezes it, the bandwidth estimate is
   * the greatest measured so far: the ten-round window of the filter never lowers it.
   */
  lemma {:induction false} BtlBwIsMaximum(datagram: nat, start: nat, events: seq<Event>)
    requires Chronological(events, start) && After(NewBbr(datagram, start), events).bwHi.None?
    ensures var s := After(NewBbr(datagram, start), events);
            IsGreatest(s.btlBw, events) && s.filter.first.value <= s.btlBw
    decreases |events|
  {
    var s := After(NewBbr(datagram, start), events);
    if events != [] {
      var front, last := events[..|events| - 1], events[|events| - 1];
      RunOk(NewBbr(datagram, start), front, start);
      var before := After(NewBbr(datagram, start), front);
      assert Inv(before, last.now);
      NextOk(before, last, Clock(front, start));
      BtlBwIsMaximum(datagram, start, front);
      hide Inv, IsGreatest, State.OnAcked;
      if last.AckEvent? {
        AckedBtlBw(before, last.acked, last.now, last.floats);
      }
      assert events == front + [last];
      GreatestMore(before.btlBw, s.btlBw, front, last);
    }
  }

  /** The state with another window, and another window saved for later. */
  function Rewound(s: State, window: nat, saved: nat): (r: State) { s.(window := window, priorCwnd := saved) }

  lemma RewoundMeasure(s: State, w: nat, p: nat, acked: seq<AckedPacket>, now: nat, bw: Option<real>)
    ensures Rewound(s, w, p).Measure(acked, now, bw) == Rewound(s.Measure(acked, now, bw), w, p)
  {
    var s1 := s.Release(TotalBytes(acked));
    hide TotalBytes;
    RewoundRtt(s1, w, p, acked, now);
    var s2 := s1.NoteRtt(acked, now);
    hide State.NoteRtt;
    RewoundRound(s2, w, p);
    var s3 := s2.UpdateRound();
    hide State.UpdateRound;
    RewoundBandwidth(s3, w, p, bw);
    RewoundPipe(s3.NoteBandwidth(bw), w, p);
    hide State.NoteBandwidth, State.CheckFullPipe;
    assert Rewound(s, w, p).Release(TotalBytes(acked)) == Rewound(s1, w, p);
  }

  lemma RewoundRtt(s: State, w: nat, p: nat, acked: seq<AckedPacket>, now: nat)
    ensures Rewound(s, w, p).NoteRtt(acked, now) == Rewound(s.NoteRtt(acked, now), w, p)
  {
    hide Newest;
  }

  lemma RewoundRound(s: State, w: nat, p: nat)
    ensures Rewound(s, w, p).UpdateRound() == Rewound(s.UpdateRound(), w, p)
  {
  }

  lemma RewoundBandwidth(s: State, w: nat, p: nat, bw: Option<real>)
    ensures Rewound(s, w, p).NoteBandwidth(bw) == Rewound(s.NoteBandwidth(bw), w, p)
  {
    hide Filter.Update;
  }

  lemma RewoundPipe(s: State, w: nat, p: nat)
    ensures Rewound(s, w, p).CheckFullPipe() == Rewound(s.CheckFullPipe(), w, p)
  {
  }

  /** The states agree but for the two windows. */
  predicate Agree(a: State, b: State) { b == Rewound(a, b.window, b.priorCwnd) }

  lemma RewoundProbe(s: State, w: nat, p: nat, now: nat)
    ensures Agree(s.HandleProbeRtt(now), Rewound(s, w, p).HandleProbeRtt(now))
  {
  }

  lemma RewoundCycle(s: State, w: nat, p: nat, now: nat)
    ensures Agree(s.AdvanceCycle(now), Rewound(s, w, p).AdvanceCycle(now))
  {
  }

  lemma RewoundPhase(s: State, w: nat, p: nat, now: nat, trigger: bool, bdp: nat)
    ensures Agree(s.UpdatePhase(now, trigger, bdp), Rewound(s, w, p).UpdatePhase(now, trigger, bdp))
  {
    hide State.HandleProbeRtt, State.AdvanceCycle;
    RewoundProbe(s, w, p, now);
    RewoundCycle(s, w, p, now);
  }

  /**
   * Every acknowledgement computes the window anew: the window before it, and the one that
   * is saved on entering ProbeRTT and restored on leaving it, change nothing else.
   */
  lemma WindowRecomputed(s: State, w: nat, p: nat, acked: seq<AckedPacket>, now: nat, f: Floats)
    ensures var r, r' := s.OnAcked(acked, now, f), Rewound(s, w, p).OnAcked(acked, now, f);
            && r' == r.(priorCwnd := r'.priorCwnd)
            && r.window == if r.phase.ProbeRtt? then r.MinPipe()
                           else if r.btlBw <= 0.0 then InitialWindow(r.datagram)
                           else Max(f.limit, r.MinPipe())
  {
    RewoundMeasure(s, w, p, acked, now, f.bw);
    var m := s.Measure(acked, now, f.bw);
    var trigger := SatSub(now, m.rtPropStamp) >= RT_PROP_FILTER_LEN && !m.phase.ProbeRtt?;
    RewoundPhase(m, w, p, now, trigger, f.bdp);
    hide State.Measure, State.UpdatePhase;
  }
}
