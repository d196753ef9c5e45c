/**
 * The loss-based congestion controllers: NewReno (section 7 and Appendix B of RFC 9002)
 * and the accounting of CUBIC (RFC 9438). Instants are counts of nanoseconds.
 */
module Congestion {
  import opened Common

  const UNBOUNDED: nat := 0xffff_ffff_ffff_ffff

  function InitialWindow(datagram: nat): (w: nat) { Min(10 * datagram, Max(2 * datagram, 14720)) }

  function MinimumWindow(datagram: nat): (w: nat) { 2 * datagram }

  const PERSISTENT_THRESHOLD: nat := 3

  predicate IsPersistent(oldest: nat, newest: nat, ptoBase: nat) {
    SatSub(newest, oldest) > ptoBase * PERSISTENT_THRESHOLD
  }

  /** An acknowledged in-flight packet: its size and when it was sent. */
  datatype AckedPacket = AckedPacket(bytes: nat, sentTime: nat)

  function TotalBytes(acked: seq<AckedPacket>): (n: nat) {
    if acked == [] then 0 else TotalBytes(acked[..|acked| - 1]) + acked[|acked| - 1].bytes
  }

  predicate Within(recovery: Option<nat>, sentTime: nat) { recovery.Some? && sentTime <= recovery.value }

  // ----------------------------------------------------------------------- NewReno

  datatype Reno = Reno(datagram: nat, window: nat, inFlight: nat, ssthresh: nat, recovery: Option<nat>) {
    function OnSent(bytes: nat): (r: Reno) { this.(inFlight := inFlight + bytes) }

    function AckOne(p: AckedPacket): (r: Reno)
      requires window > 0
      ensures r.window >= window
    {
      var s := this.(inFlight := SatSub(inFlight, p.bytes));
      if Within(recovery, p.sentTime) then s
      else if window < ssthresh then s.(window := window + p.bytes)
      else s.(window := window + Max(datagram * p.bytes / window, 1))
    }

    function OnAcked(acked: seq<AckedPacket>): (r: Reno)
      requires window > 0
      ensures r.window >= window
      decreases |acked|
    {
      if acked == [] then this else OnAcked(acked[..|acked| - 1]).AckOne(acked[|acked| - 1])
    }

    function OnLost(bytes: nat, newest: nat, now: nat): (r: Reno) {
      var s := this.(inFlight := SatSub(inFlight, bytes));
      if Within(recovery, newest) then s
      else
        var half := Max(window / 2, MinimumWindow(datagram));
        s.(recovery := Some(now), ssthresh := half, window := half)
    }

    function OnPersistent(): (r: Reno) {
      this.(window := MinimumWindow(datagram), recovery := None, ssthresh := UNBOUNDED)
    }
  }

  function NewReno(datagram: nat): (r: Reno) {
    Reno(datagram, InitialWindow(datagram), 0, UNBOUNDED, None)
  }

  class NewRenoController {
    const datagram: nat
    var window: nat
    var inFlight: nat
    var ssthresh: nat
    var recovery: Option<nat>

    function Value(): (s: Reno)
      reads this
    {
      Reno(datagram, window, inFlight, ssthresh, recovery)
    }

    ghost predicate Valid()
      reads this
    {
      datagram > 0 && window >= MinimumWindow(datagram)
    }

    constructor (datagram: nat)
      requires datagram > 0
      ensures Valid() && Value() == NewReno(datagram)
    {
      this.datagram, window, inFlight, ssthresh, recovery := datagram, InitialWindow(datagram), 0, UNBOUNDED, None;
    }

    method OnPacketSent(bytes: nat)
      requires Valid()
      modifies `inFlight
      ensures Valid() && Value() == old(Value()).OnSent(bytes)
    {
      inFlight := inFlight + bytes;
    }

    method OnPacketsAcked(acked: seq<AckedPacket>)
      requires Valid()
      modifies `inFlight, `window
      ensures Valid() && Value() == old(Value()).OnAcked(acked)
    {
      assert acked[..0] == [];
      for i := 0 to |acked|
        invariant Valid() && Value() == old(Value()).OnAcked(acked[..i])
      {
        assert acked[..i + 1][..i] == acked[..i];
        OnPacketAcked(acked[i]);
      }
      assert acked[..|acked|] == acked;
    }

    /** One turn of the loop. */
    method OnPacketAcked(p: AckedPacket)
      requires Valid()
      modifies `inFlight, `window
      ensures Valid() && Value() == old(Value()).AckOne(p)
    {
      inFlight := SatSub(inFlight, p.bytes);
      if Within(recovery, p.sentTime) {
        return;
      }
      if window < ssthresh {
        window := window + p.bytes;
      } else {
        var inc := datagram * p.bytes / window;
        window := window + Max(inc, 1);
      }
    }

    method OnPacketsLost(bytes: nat, newest: nat, now: nat)
      requires Valid()
      modifies `inFlight, `window, `ssthresh, `recovery
      ensures Valid() && Value() == old(Value()).OnLost(bytes, newest, now)
    {
      inFlight := SatSub(inFlight, bytes);
      if Within(recovery, newest) {
        return;
      }
      recovery := Some(now);
      ssthresh := Max(window / 2, MinimumWindow(datagram));
      window := ssthresh;
    }

    method OnPersistentCongestion()
      requires Valid()
      modifies `window, `ssthresh, `recovery
      ensures Valid() && Value() == old(Value()).OnPersistent()
    {
      window := MinimumWindow(datagram);
      recovery := None;
      ssthresh := UNBOUNDED;
    }
  }

  // --------------------------------------------------------------------- event runs

  datatype Event =
    | SentEvent(bytes: nat)
    | AckEvent(acked: seq<AckedPacket>)
    | LossEvent(lost: nat, newest: nat, now: nat)
    | PersistentEvent

  function Next(s: Reno, e: Event): (r: Reno)
    requires s.window > 0
  {
    match e
    case SentEvent(bytes) => s.OnSent(bytes)
    case AckEvent(acked) => s.OnAcked(acked)
    case LossEvent(lost, newest, now) => s.OnLost(lost, newest, now)
    case PersistentEvent => s.OnPersistent()
  }

  function After(s: Reno, events: seq<Event>): (r: Reno)
    requires s.datagram > 0 && s.window >= MinimumWindow(s.datagram)
    ensures r.datagram == s.datagram && r.window >= MinimumWindow(s.datagram)
    decreases |events|
  {
    if events == [] then s
    else
      var before := After(s, events[..|events| - 1]);
      AckFrame(before, if events[|events| - 1].AckEvent? then events[|events| - 1].acked else []);
      Next(before, events[|events| - 1])
  }

  /** Acknowledgements change the window and the bytes in flight, nothing else. */
  lemma {:induction false} AckFrame(s: Reno, acked: seq<AckedPacket>)
    requires s.window > 0
    ensures var r := s.OnAcked(acked);
            r.datagram == s.datagram && r.ssthresh == s.ssthresh && r.recovery == s.recovery && r.window >= s.window
    decreases |acked|
  {
    if acked != [] {
      AckFrame(s, acked[..|acked| - 1]);
    }
  }

  /** In every event run the window is at least two datagrams. */
  lemma WindowFloor(datagram: nat, events: seq<Event>)
    requires datagram > 0
    ensures After(NewReno(datagram), events).window >= 2 * datagram
  {
  }

  /**
   * Exactly what a loss does. If the newest packet lost was sent after the current recovery
   * started, or there is none, recovery starts now and the window is half of what it was,
   * or two datagrams if that is more. Otherwise only the bytes are released. The window is
   * never raised.
   */
  lemma LossExact(s: Reno, bytes: nat, newest: nat, now: nat)
    requires s.window >= 2 * s.datagram
    ensures var r := s.OnLost(bytes, newest, now);
            && r.datagram == s.datagram && r.inFlight == SatSub(s.inFlight, bytes)
            && (if s.recovery.Some? && newest <= s.recovery.value then
                  r.window == s.window && r.ssthresh == s.ssthresh && r.recovery == s.recovery
                else
                  && r.recovery == Some(now) && r.window == r.ssthresh
                  && r.window >= 2 * s.datagram && 2 * r.window + 1 >= s.window
                  && (r.window == 2 * s.datagram || 2 * r.window <= s.window))
            && r.window <= s.window
  {
  }

  /**
   * Persistent congestion leaves two datagrams and slow start: everything acknowledged
   * afterwards opens the window byte by byte, and the next loss is a new episode.
   */
  lemma PersistentRestarts(s: Reno, acked: seq<AckedPacket>, bytes: nat, newest: nat, now: nat)
    requires s.datagram > 0 && 2 * s.datagram + TotalBytes(acked) < UNBOUNDED
    ensures var r := s.OnPersistent();
            && r.window == 2 * s.datagram && r.inFlight == s.inFlight && r.datagram == s.datagram
            && r.OnAcked(acked).window == 2 * s.datagram + TotalBytes(acked)
            && r.OnLost(bytes, newest, now).recovery == Some(now)
  {
    SlowStartGrowth(s.OnPersistent(), acked);
  }

  /** The initial window: ten datagrams, at most 14720 octets, but two datagrams in any case. */
  lemma InitialWindowIs(datagram: nat)
    ensures datagram <= 1472 ==> InitialWindow(datagram) == 10 * datagram
    ensures 1472 <= datagram <= 7360 ==> InitialWindow(datagram) == 14720
    ensures datagram >= 7360 ==> InitialWindow(datagram) == 2 * datagram
    ensures NewReno(datagram) == Reno(datagram, InitialWindow(datagram), 0, UNBOUNDED, None)
  {
  }

  /** Losses of packets sent up to `t`, and no persistent congestion. */
  predicate SameEpisode(events: seq<Event>, t: nat) {
    forall i :: 0 <= i < |events| ==>
      !events[i].PersistentEvent? && (events[i].LossEvent? ==> events[i].newest <= t)
  }

  /**
   * Once a recovery period has started at `t`, no run of losses of packets sent by then
   * reduces the window again.
   */
  lemma {:induction false} OneReduction(s: Reno, events: seq<Event>, t: nat)
    requires s.datagram > 0 && s.window >= MinimumWindow(s.datagram)
    requires s.recovery == Some(t) && SameEpisode(events, t)
    ensures var r := After(s, events);
            r.recovery == Some(t) && r.ssthresh == s.ssthresh && r.window >= s.window
    decreases |events|
  {
    if events != [] {
      var front := events[..|events| - 1];
      OneReduction(s, front, t);
      var last := events[|events| - 1];
      if last.AckEvent? {
        AckFrame(After(s, front), last.acked);
      }
    }
  }

  predicate NoneWithin(recovery: Option<nat>, acked: seq<AckedPacket>) {
    forall i :: 0 <= i < |acked| ==> !Within(recovery, acked[i].sentTime)
  }

  /** Slow start: the window grows by exactly the bytes acknowledged. */
  lemma {:induction false} SlowStartGrowth(s: Reno, acked: seq<AckedPacket>)
    requires s.window > 0 && s.window + TotalBytes(acked) < s.ssthresh && NoneWithin(s.recovery, acked)
    ensures s.OnAcked(acked).window == s.window + TotalBytes(acked)
    decreases |acked|
  {
    if acked != [] {
      SlowStartGrowth(s, acked[..|acked| - 1]);
      AckFrame(s, acked[..|acked| - 1]);
    }
  }

  /** Packets sent before recovery started do not open the window. */
  lemma {:induction false} RecoveryFreezes(s: Reno, acked: seq<AckedPacket>)
    requires s.window > 0 && forall i :: 0 <= i < |acked| ==> Within(s.recovery, acked[i].sentTime)
    ensures s.OnAcked(acked).window == s.window
    decreases |acked|
  {
    if acked != [] {
      RecoveryFreezes(s, acked[..|acked| - 1]);
      AckFrame(s, acked[..|acked| - 1]);
    }
  }

  /** Every other packet acknowledged in congestion avoidance opens the window a little. */
  lemma {:induction false} AvoidanceFloor(s: Reno, acked: seq<AckedPacket>)
    requires s.window > 0 && s.window >= s.ssthresh && NoneWithin(s.recovery, acked)
    ensures s.OnAcked(acked).window >= s.window + |acked|
    decreases |acked|
  {
    if acked != [] {
      AvoidanceFloor(s, acked[..|acked| - 1]);
      AckFrame(s, acked[..|acked| - 1]);
    }
  }

  /**
   * Congestion avoidance: acknowledging `n` packets of `B` bytes grows a window `w` by at
   * most `n + datagram * B / w`.
   */
  lemma {:induction false} AvoidanceGrowth(s: Reno, acked: seq<AckedPacket>)
    requires s.window > 0 && s.window >= s.ssthresh
    ensures (s.OnAcked(acked).window - s.window - |acked|) * s.window <= s.datagram * TotalBytes(acked)
    decreases |acked|
  {
    if acked == [] {
      assert 0 * s.window == 0 && s.datagram * 0 == 0;
    } else {
      var front, last := acked[..|acked| - 1], acked[|acked| - 1];
      AvoidanceGrowth(s, front);
      AckFrame(s, front);
      var mid := s.OnAcked(front);
      hide Reno.AckOne;
      assert s.OnAcked(acked).window == mid.AckOne(last).window;
      assert TotalBytes(acked) == TotalBytes(front) + last.bytes;
      hide TotalBytes, Reno.OnAcked;
      OneMoreAck(s, mid, last, |front|, TotalBytes(front));
    }
  }

  /**
   * And at least by about as much: with `W` the window at the end, acknowledging `n` packets
   * of `B` bytes sent since recovery grows it by no less than `datagram * B / W - n`.
   */
  lemma {:induction false} AvoidanceShare(s: Reno, acked: seq<AckedPacket>)
    requires s.window > 0 && s.window >= s.ssthresh && NoneWithin(s.recovery, acked)
    ensures var r := s.OnAcked(acked);
            s.datagram * TotalBytes(acked) <= (r.window - s.window + |acked|) * r.window
    decreases |acked|
  {
    if acked == [] {
      assert s.datagram * 0 == 0 && 0 * s.window == 0;
    } else {
      var front, last := acked[..|acked| - 1], acked[|acked| - 1];
      AvoidanceShare(s, front);
      AckFrame(s, front);
      var mid := s.OnAcked(front);
      var r := mid.AckOne(last);
      AckOneShare(mid, last);
      hide Reno.AckOne;
      assert s.OnAcked(acked) == r && TotalBytes(acked) == TotalBytes(front) + last.bytes;
      hide TotalBytes, Reno.OnAcked;
      ShareStep(s.datagram, TotalBytes(front), last.bytes, mid.window - s.window + |front|,
                r.window - mid.window + 1, mid.window, r.window);
    }
  }

  lemma AckOneShare(s: Reno, p: AckedPacket)
    requires s.window > 0 && s.window >= s.ssthresh && !Within(s.recovery, p.sentTime)
    ensures s.datagram * p.bytes <= (s.AckOne(p).window - s.window + 1) * s.window
    ensures s.AckOne(p).window >= s.window
  {
    var x, w := s.datagram * p.bytes, s.window;
    assert x == x / w * w + x % w;
    MulMono(w, x / w + 1, Max(x / w, 1) + 1);
    assert w * (x / w + 1) == x / w * w + w;
    assert (s.AckOne(p).window - s.window + 1) == Max(x / w, 1) + 1;
  }

  lemma ShareStep(d: nat, b: nat, c: nat, n: nat, k: nat, w: nat, w': nat)
    requires d * b <= n * w && d * c <= k * w && w <= w'
    ensures d * (b + c) <= (n + k) * w'
  {
    assert d * (b + c) == d * b + d * c;
    assert (n + k) * w == n * w + k * w;
    MulMono(n + k, w, w');
  }

  lemma OneMoreAck(s: Reno, mid: Reno, p: AckedPacket, n: nat, bytes: nat)
    requires 0 < s.window <= mid.window && mid.ssthresh == s.ssthresh <= s.window && mid.datagram == s.datagram
    requires (mid.window - s.window - n) * s.window <= s.datagram * bytes
    ensures (mid.AckOne(p).window - s.window - (n + 1)) * s.window <= s.datagram * (bytes + p.bytes)
  {
    AckOneGrowth(mid, p);
    hide Reno.AckOne;
    var grown := mid.AckOne(p).window;
    var share := s.datagram * p.bytes / mid.window;
    GrowthStep(s.window, mid.window, s.datagram * p.bytes);
    Accumulate(s.window, mid.window - s.window - n, grown - mid.window - 1, s.datagram, bytes, p.bytes, share);
  }

  lemma AckOneGrowth(s: Reno, p: AckedPacket)
    requires s.window > 0 && s.window >= s.ssthresh
    ensures s.AckOne(p).window - s.window - 1 <= s.datagram * p.bytes / s.window
  {
  }

  /** A share of a larger window is a smaller share. */
  lemma GrowthStep(w: nat, larger: nat, x: nat)
    requires 0 < w <= larger
    ensures x / larger * w <= x
  {
    assert x / larger * larger <= x;
    assert x / larger * w <= x / larger * larger by {
      MulMono(x / larger, w, larger);
    }
  }

  lemma MulMono(a: nat, b: nat, c: nat)
    requires b <= c
    ensures a * b <= a * c
  {
    assert a * c == a * b + a * (c - b);
  }

  lemma Accumulate(w: nat, before: int, step: int, datagram: nat, b: nat, c: nat, share: nat)
    requires before * w <= datagram * b && step <= share && share * w <= datagram * c
    ensures (before + step) * w <= datagram * (b + c)
  {
    assert (before + step) * w == before * w + step * w;
    assert share * w == step * w + (share - step) * w;
    MulMono(w, 0, share - step);
    assert datagram * (b + c) == datagram * b + datagram * c;
  }

  // ------------------------------------------------------------------------- CUBIC

  /**
   * The floating-point parts of CUBIC, as functions of what they are computed from: the
   * curve of the window over time, and the reduced window after a loss.
   */
  datatype Curve = Curve(target: (nat, nat) -> nat, reduced: nat -> nat)

  ghost predicate Reduces(c: Curve) { forall w: nat :: c.reduced(w) <= w }

  datatype Cubic = Cubic(
    datagram: nat, window: nat, ssthresh: nat, inFlight: nat, wMax: nat, epoch: Option<nat>, recovery: Option<nat>)
  {
    function OnSent(bytes: nat): (r: Cubic) { this.(inFlight := inFlight + bytes) }

    function AckOne(p: AckedPacket, now: nat, c: Curve): (r: Cubic)
      requires window > 0
      ensures r.window >= window
    {
      var s := this.(inFlight := SatSub(inFlight, p.bytes));
      if Within(recovery, p.sentTime) then s
      else if window < ssthresh then s.(window := window + p.bytes)
      else
        var start := if epoch.Some? then epoch.value else now;
        var target := c.target(wMax, SatSub(now, start));
        s.(epoch := Some(start),
           window := if target > window then target else window + Max(datagram * p.bytes / window, 1))
    }

    function OnAcked(acked: seq<AckedPacket>, now: nat, c: Curve): (r: Cubic)
      requires window > 0
      ensures r.window >= window
      decreases |acked|
    {
      if acked == [] then this else OnAcked(acked[..|acked| - 1], now, c).AckOne(acked[|acked| - 1], now, c)
    }

    function OnLost(bytes: nat, newest: nat, now: nat, c: Curve): (r: Cubic) {
      var s := this.(inFlight := SatSub(inFlight, bytes));
      if Within(recovery, newest) then s
      else
        var less := Max(c.reduced(window), MinimumWindow(datagram));
        s.(recovery := Some(now), wMax := window, ssthresh := less, window := less, epoch := None)
    }

    function OnPersistent(): (r: Cubic) {
      this.(window := MinimumWindow(datagram), recovery := None, ssthresh := UNBOUNDED,
            wMax := MinimumWindow(datagram), epoch := None)
    }
  }

  function NewCubic(datagram: nat): (r: Cubic) {
    Cubic(datagram, InitialWindow(datagram), UNBOUNDED, 0, InitialWindow(datagram), None, None)
  }

  class CubicController {
    const datagram: nat
    var cwnd: nat
    var ssthresh: nat
    var inFlight: nat
    var wMax: nat
    var epoch: Option<nat>
    var recovery: Option<nat>

    function Value(): (s: Cubic)
      reads this
    {
      Cubic(datagram, cwnd, ssthresh, inFlight, wMax, epoch, recovery)
    }

    ghost predicate Valid()
      reads this
    {
      datagram > 0 && cwnd >= MinimumWindow(datagram)
    }

    constructor (datagram: nat)
      requires datagram > 0
      ensures Valid() && Value() == NewCubic(datagram)
    {
      this.datagram := datagram;
      cwnd, ssthresh, inFlight := InitialWindow(datagram), UNBOUNDED, 0;
      wMax, epoch, recovery := InitialWindow(datagram), None, None;
    }

    method OnPacketSent(bytes: nat)
      requires Valid()
      modifies `inFlight
      ensures Valid() && Value() == old(Value()).OnSent(bytes)
    {
      inFlight := inFlight + bytes;
    }

    method OnPersistentCongestion()
      requires Valid()
      modifies `cwnd, `recovery, `ssthresh, `wMax, `epoch
      ensures Valid() && Value() == old(Value()).OnPersistent()
    {
      cwnd := MinimumWindow(datagram);
      recovery := None;
      ssthresh := UNBOUNDED;
      wMax := cwnd;
      epoch := None;
    }

    method OnPacketsAcked(acked: seq<AckedPacket>, now: nat, c: Curve)
      requires Valid()
      modifies `inFlight, `cwnd, `epoch
      ensures Valid() && Value() == old(Value()).OnAcked(acked, now, c)
    {
      assert acked[..0] == [];
      for i := 0 to |acked|
        invariant Valid() && Value() == old(Value()).OnAcked(acked[..i], now, c)
      {
        assert acked[..i + 1][..i] == acked[..i];
        OnPacketAcked(acked[i], now, c);
      }
      assert acked[..|acked|] == acked;
    }

    /** One turn of the loop. */
    method OnPacketAcked(p: AckedPacket, now: nat, c: Curve)
      requires Valid()
      modifies `inFlight, `cwnd, `epoch
      ensures Valid() && Value() == old(Value()).AckOne(p, now, c)
    {
      inFlight := SatSub(inFlight, p.bytes);
      if Within(recovery, p.sentTime) {
        return;
      }
      if cwnd < ssthresh {
        cwnd := cwnd + p.bytes;
        return;
      }
      if epoch.None? {
        epoch := Some(now);
      }
      var target := c.target(wMax, SatSub(now, epoch.value));
      if target > cwnd {
        cwnd := target;
      } else {
        var inc := Max(datagram * p.bytes / cwnd, 1);
        cwnd := cwnd + inc;
      }
    }

    method OnPacketsLost(bytes: nat, newest: nat, now: nat, c: Curve)
      requires Valid()
      modifies `inFlight, `cwnd, `ssthresh, `wMax, `epoch, `recovery
      ensures Valid() && Value() == old(Value()).OnLost(bytes, newest, now, c)
    {
      inFlight := SatSub(inFlight, bytes);
      if Within(recovery, newest) {
        return;
      }
      recovery := Some(now);
      wMax := cwnd;
      ssthresh := Max(c.reduced(cwnd), MinimumWindow(datagram));
      cwnd := ssthresh;
      epoch := None;
    }
  }

  /**
   * Exactly what a loss does to CUBIC. In a new episode the window is remembered as the peak
   * of the next curve, and is reduced, but not below two datagrams; the curve starts anew
   * with the next acknowledgement. Otherwise only the bytes are released.
   */
  lemma CubicLossBounds(s: Cubic, bytes: nat, newest: nat, now: nat, c: Curve)
    requires s.window >= MinimumWindow(s.datagram) && Reduces(c)
    ensures var r := s.OnLost(bytes, newest, now, c);
            && 2 * s.datagram <= r.window <= s.window
            && r.datagram == s.datagram && r.inFlight == SatSub(s.inFlight, bytes)
            && (if s.recovery.Some? && newest <= s.recovery.value then r == s.(inFlight := r.inFlight)
                else
                  && r.recovery == Some(now) && r.window == r.ssthresh && r.wMax == s.window && r.epoch == None
                  && (r.window == c.reduced(s.window) || r.window == 2 * s.datagram > c.reduced(s.window)))
  {
    assert c.reduced(s.window) <= s.window;
  }

  /** Persistent congestion: two datagrams, slow start, and no memory of a peak. */
  lemma CubicPersistent(s: Cubic, p: AckedPacket, now: nat, c: Curve)
    requires s.datagram > 0 && 2 * s.datagram < UNBOUNDED
    ensures var r := s.OnPersistent();
            && r.window == r.wMax == 2 * s.datagram && r.epoch == None && r.inFlight == s.inFlight
            && r.AckOne(p, now, c).window == 2 * s.datagram + p.bytes
            && !Within(r.recovery, p.sentTime)
  {
  }

  /**
   * One packet acknowledged outside recovery: in slow start the window grows by its bytes.
   * After that it follows the curve, whose time runs from the first such packet on, or
   * grows by a share of a datagram, at least by one, where the curve is below it.
   */
  lemma CubicAckExact(s: Cubic, p: AckedPacket, now: nat, c: Curve)
    requires s.window > 0
    ensures var r := s.AckOne(p, now, c);
            && (Within(s.recovery, p.sentTime) ==> r == s.(inFlight := r.inFlight))
            && (!Within(s.recovery, p.sentTime) && s.window < s.ssthresh ==>
                  r.window == s.window + p.bytes && r.epoch == s.epoch)
            && (!Within(s.recovery, p.sentTime) && s.window >= s.ssthresh ==>
                  && r.epoch.Some? && (if s.epoch.Some? then r.epoch == s.epoch else r.epoch.value == now)
                  && var target, grown := c.target(s.wMax, SatSub(now, r.epoch.value)), r.window - s.window;
                     if target > s.window then r.window == target
                     else if s.datagram * p.bytes < s.window then grown == 1
                     else grown * s.window <= s.datagram * p.bytes < (grown + 1) * s.window)
            && r == s.(inFlight := SatSub(s.inFlight, p.bytes), window := r.window, epoch := r.epoch)
  {
    var x, w := s.datagram * p.bytes, s.window;
    assert x == x / w * w + x % w;
    assert (x / w + 1) * w == x / w * w + w;
  }

  // ------------------------------------------------------------------- accounting

  /** While there is enough in flight, acknowledging releases exactly the bytes acked. */
  lemma {:induction false} RenoReleases(s: Reno, acked: seq<AckedPacket>)
    requires s.window > 0 && TotalBytes(acked) <= s.inFlight
    ensures s.OnAcked(acked).inFlight == s.inFlight - TotalBytes(acked)
    decreases |acked|
  {
    if acked != [] {
      RenoReleases(s, acked[..|acked| - 1]);
    }
  }

  lemma {:induction false} CubicReleases(s: Cubic, acked: seq<AckedPacket>, now: nat, c: Curve)
    requires s.window > 0 && TotalBytes(acked) <= s.inFlight
    ensures s.OnAcked(acked, now, c).inFlight == s.inFlight - TotalBytes(acked)
    ensures s.OnAcked(acked, now, c).datagram == s.datagram
    decreases |acked|
  {
    if acked != [] {
      CubicReleases(s, acked[..|acked| - 1], now, c);
    }
  }
}
