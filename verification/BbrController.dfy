/** The BBR controller as an object, each method proved against the phase machine. */
module BbrController {
  import opened Common
  import opened Congestion
  import opened Bbr

  class Controller {
    const datagram: nat
    var phase: Phase
    var btlBw: real
    var filter: Filter
    var rtProp: Option<nat>
    var rtPropStamp: nat
    var pacingGain: real
    var cwndGain: real
    var window: nat
    var inFlight: nat
    var roundCount: nat
    var roundStart: bool
    var nextRoundDelivered: nat
    var delivered: nat
    var filledPipe: bool
    var fullBw: real
    var fullBwCount: nat
    var cycleStamp: nat
    var cycleIndex: nat
    var doneStamp: Option<nat>
    var roundDone: bool
    var priorCwnd: nat
    var bwHi: Option<real>
    var inflightHi: Option<nat>
    var recovery: Option<nat>

    function Value(): (s: State)
      reads this
    {
      State(datagram, phase, btlBw, filter, rtProp, rtPropStamp, pacingGain, cwndGain, window, inFlight,
            roundCount, roundStart, nextRoundDelivered, delivered, filledPipe, fullBw, fullBwCount, cycleStamp,
            cycleIndex, doneStamp, roundDone, priorCwnd, bwHi, inflightHi, recovery)
    }

    constructor (datagram: nat, now: nat)
      ensures Value() == NewBbr(datagram, now)
    {
      this.datagram := datagram;
      phase, btlBw, filter, rtProp, rtPropStamp := Startup, 0.0, EMPTY_FILTER, None, now;
      pacingGain, cwndGain, window, inFlight := HIGH_GAIN, 2.0, InitialWindow(datagram), 0;
      roundCount, roundStart, nextRoundDelivered, delivered := 0, false, 0, 0;
      filledPipe, fullBw, fullBwCount, cycleStamp, cycleIndex := false, 0.0, 0, now, 0;
      doneStamp, roundDone, priorCwnd := None, false, InitialWindow(datagram);
      bwHi, inflightHi, recovery := None, None, None;
    }

    method OnPacketSent(bytes: nat)
      modifies `inFlight
      ensures Value() == old(Value()).OnSent(bytes)
    {
      inFlight := inFlight + bytes;
    }

    method OnPacketsAcked(acked: seq<AckedPacket>, now: nat, f: Floats)
      modifies this
      ensures Value() == old(Value()).OnAcked(acked, now, f)
    {
      hide State.NoteRtt, State.UpdateRound, State.NoteBandwidth, State.CheckFullPipe, State.UpdatePhase, State.SetCwnd;
      DeductAcked(acked);
      NoteRtt(acked, now);
      UpdateRoundCount();
      NoteBandwidth(f.bw);
      CheckStartupFullPipe();
      var trigger := SatSub(now, rtPropStamp) >= RT_PROP_FILTER_LEN && !phase.ProbeRtt?;
      UpdateState(now, trigger, f.bdp);
      SetCwnd(f.limit);
    }

    method DeductAcked(acked: seq<AckedPacket>)
      modifies `inFlight, `delivered
      ensures Value() == old(Value()).Release(TotalBytes(acked))
    {
      var total := 0;
      assert acked[..0] == [];
      for i := 0 to |acked|
        invariant total == TotalBytes(acked[..i])
      {
        assert acked[..i + 1][..i] == acked[..i];
        total := total + acked[i].bytes;
      }
      assert acked[..|acked|] == acked;
      inFlight := SatSub(inFlight, total);
      delivered := delivered + total;
    }

    method NoteRtt(acked: seq<AckedPacket>, now: nat)
      modifies `rtProp, `rtPropStamp
      ensures Value() == old(Value()).NoteRtt(acked, now)
    {
      var latest: Option<nat> := None;
      assert acked[..0] == [];
      for i := 0 to |acked|
        invariant latest == Newest(acked[..i])
      {
        assert acked[..i + 1][..i] == acked[..i];
        latest := Some(MaxOpt(latest, acked[i].sentTime));
      }
      assert acked[..|acked|] == acked;
      if latest.Some? {
        var rtt := SatSub(now, latest.value);
        if rtProp.None? || rtt < rtProp.value {
          rtProp := Some(rtt);
          rtPropStamp := now;
        }
      }
    }

    method UpdateRoundCount()
      modifies `nextRoundDelivered, `roundCount, `roundStart
      ensures Value() == old(Value()).UpdateRound()
    {
      if delivered >= nextRoundDelivered {
        nextRoundDelivered := delivered;
        roundCount := roundCount + 1;
        roundStart := true;
      } else {
        roundStart := false;
      }
    }

    method NoteBandwidth(bw: Option<real>)
      modifies `filter, `btlBw
      ensures Value() == old(Value()).NoteBandwidth(bw)
    {
      if bw.Some? && bw.value > 0.0 {
        filter := filter.Update(bw.value, roundCount, BW_WINDOW_ROUNDS);
        var best := filter.first.value;
        if bwHi.Some? && bwHi.value < best {
          best := bwHi.value;
        }
        if best > btlBw {
          btlBw := best;
        }
      }
    }

    method CheckStartupFullPipe()
      modifies `fullBw, `fullBwCount, `filledPipe
      ensures Value() == old(Value()).CheckFullPipe()
    {
      if filledPipe || !roundStart {
        return;
      }
      if btlBw >= fullBw * 1.25 {
        fullBw := btlBw;
        fullBwCount := 0;
      } else {
        fullBwCount := fullBwCount + 1;
        if fullBwCount >= 3 {
          filledPipe := true;
        }
      }
    }

    method UpdateState(now: nat, trigger: bool, bdp: nat)
      modifies this
      ensures Value() == old(Value()).UpdatePhase(now, trigger, bdp)
    {
      match phase
      case Startup =>
        if filledPipe {
          EnterDrain();
        }
      case Drain =>
        if inFlight <= bdp {
          EnterProbeBw(now);
        }
      case ProbeBw(_) =>
        if trigger {
          EnterProbeRtt(now);
        } else {
          AdvanceCyclePhase(now);
        }
      case ProbeRtt(_) =>
        HandleProbeRtt(now);
    }

    method EnterDrain()
      modifies `phase, `pacingGain, `cwndGain
      ensures Value() == old(Value()).EnterDrain()
    {
      phase := Drain;
      pacingGain := 1.0 / HIGH_GAIN;
      cwndGain := 1.0;
    }

    method EnterStartup()
      modifies `phase, `pacingGain, `cwndGain
      ensures Value() == old(Value()).EnterStartup()
    {
      phase := Startup;
      pacingGain := HIGH_GAIN;
      cwndGain := 2.0;
    }

    method EnterProbeBw(now: nat)
      modifies `phase, `cycleIndex, `pacingGain, `cwndGain, `cycleStamp
      ensures Value() == old(Value()).EnterProbeBw(now)
    {
      phase := ProbeBw(1);
      cycleIndex := 1;
      pacingGain := GAINS[1];
      cwndGain := 2.0;
      cycleStamp := now;
    }

    method EnterProbeRtt(now: nat)
      modifies this
      ensures Value() == old(Value()).EnterProbeRtt(now)
    {
      priorCwnd := window;
      phase := ProbeRtt(now);
      pacingGain := 1.0;
      cwndGain := 1.0;
      DisarmProbeRtt();
    }

    method DisarmProbeRtt()
      modifies `doneStamp, `roundDone
      ensures Value() == old(Value()).(doneStamp := None, roundDone := false)
    {
      doneStamp := None;
      roundDone := false;
    }

    method AdvanceCyclePhase(now: nat)
      modifies `cycleIndex, `cycleStamp, `pacingGain, `phase
      ensures Value() == old(Value()).AdvanceCycle(now)
    {
      var rt := if rtProp.Some? then rtProp.value else FALLBACK_RTT;
      if SatSub(now, cycleStamp) >= rt {
        cycleIndex := (cycleIndex + 1) % CYCLE_LEN;
        cycleStamp := now;
        pacingGain := GAINS[cycleIndex];
        phase := ProbeBw(cycleIndex);
      }
    }

    method HandleProbeRtt(now: nat)
      modifies this
      ensures Value() == old(Value()).HandleProbeRtt(now)
    {
      rtPropStamp := now;
      if doneStamp.None? && inFlight <= 4 * datagram {
        doneStamp := Some(now + PROBE_RTT_DURATION);
        roundDone := false;
        nextRoundDelivered := delivered;
      } else if doneStamp.Some? {
        if roundStart {
          roundDone := true;
        }
        if roundDone && now >= doneStamp.value {
          window := priorCwnd;
          if !filledPipe {
            EnterStartup();
          } else {
            EnterProbeBw(now);
          }
        }
      }
    }

    method SetCwnd(limit: nat)
      modifies `window
      ensures Value() == old(Value()).SetCwnd(limit)
    {
      if phase.ProbeRtt? {
        window := 4 * datagram;
      } else if btlBw <= 0.0 {
        window := InitialWindow(datagram);
      } else {
        window := Max(limit, 4 * datagram);
      }
    }

    method OnPacketsLost(bytes: nat, newest: nat, now: nat, f: Floats)
      modifies this
      ensures Value() == old(Value()).OnLost(bytes, newest, now, f)
    {
      hide State.SetCwnd;
      var atLoss := inFlight + bytes;
      inFlight := SatSub(inFlight, bytes);
      if Within(recovery, newest) {
        return;
      }
      recovery, inflightHi := Some(now), Some(Max(atLoss * 7 / 10, f.bdp));
      if btlBw > 0.0 {
        bwHi := Some(btlBw);
      }
      SetCwnd(f.limit);
    }
  }
}
