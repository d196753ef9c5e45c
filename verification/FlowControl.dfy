/**
 * Flow control (section 4 of RFC 9000): the sender's and the receiver's controllers, and
 * the two of them together over a network that loses, repeats and reorders updates.
 */
module FlowControl {
  import opened Common

  // ------------------------------------------------------------------ controllers

  /** A limit granted by the peer and how much of it is used. */
  datatype SendLimit = SendLimit(max: nat, sent: nat, blockedAt: Option<nat>) {
    function OnMax(limit: nat): (r: SendLimit) {
      if limit > max then this.(max := limit, blockedAt := None) else this
    }

    function Available(): (n: nat) { SatSub(max, sent) }

    predicate IsBlocked() { sent >= max }

    /** Data up to `high` was sent: the new state, and how much of it is new. */
    function RecordHigh(high: nat): (r: (SendLimit, nat)) {
      if high > sent then (this.(sent := high), high - sent) else (this, 0)
    }

    function TakeBlocked(): (r: (SendLimit, Option<nat>)) {
      if IsBlocked() && blockedAt != Some(max) then (this.(blockedAt := Some(max)), Some(max)) else (this, None)
    }
  }

  /** A limit granted to the peer, `window` above what the application consumed. */
  datatype RecvLimit = RecvLimit(max: nat, window: nat, consumed: nat) {
    function MaybeUpdate(): (r: (RecvLimit, Option<nat>)) {
      var desired := consumed + window;
      if desired > max && SatSub(max, consumed) < window / 2 then (this.(max := desired), Some(desired))
      else (this, None)
    }
  }

  class SendFlowControl {
    var maxData: nat
    var dataSent: nat
    var blockedAt: Option<nat>

    function Value(): (s: SendLimit)
      reads this
    {
      SendLimit(maxData, dataSent, blockedAt)
    }

    constructor (initial: nat)
      ensures Value() == SendLimit(initial, 0, None)
    {
      maxData, dataSent, blockedAt := initial, 0, None;
    }

    method OnMaxData(max: nat)
      modifies this
      ensures Value() == old(Value()).OnMax(max)
    {
      if max > maxData {
        maxData := max;
        blockedAt := None;
      }
    }

    method OnDataSent(n: nat)
      modifies `dataSent
      ensures Value() == old(Value()).RecordHigh(old(dataSent) + n).0
    {
      dataSent := dataSent + n;
    }

    method TakeBlocked() returns (r: Option<nat>)
      modifies `blockedAt
      ensures (Value(), r) == old(Value()).TakeBlocked()
    {
      if dataSent >= maxData && blockedAt != Some(maxData) {
        blockedAt := Some(maxData);
        r := Some(maxData);
      } else {
        r := None;
      }
    }
  }

  class StreamSendFlow {
    var maxStreamData: nat
    var dataSent: nat
    var blockedAt: Option<nat>

    function Value(): (s: SendLimit)
      reads this
    {
      SendLimit(maxStreamData, dataSent, blockedAt)
    }

    constructor (initial: nat)
      ensures Value() == SendLimit(initial, 0, None)
    {
      maxStreamData, dataSent, blockedAt := initial, 0, None;
    }

    method OnMaxStreamData(max: nat)
      modifies this
      ensures Value() == old(Value()).OnMax(max)
    {
      if max > maxStreamData {
        maxStreamData := max;
        blockedAt := None;
      }
    }

    method RecordHighOffset(high: nat) returns (added: nat)
      modifies `dataSent
      ensures (Value(), added) == old(Value()).RecordHigh(high)
    {
      if high > dataSent {
        added := high - dataSent;
        dataSent := high;
      } else {
        added := 0;
      }
    }

    method TakeBlocked() returns (r: Option<nat>)
      modifies `blockedAt
      ensures (Value(), r) == old(Value()).TakeBlocked()
    {
      if dataSent >= maxStreamData && blockedAt != Some(maxStreamData) {
        blockedAt := Some(maxStreamData);
        r := Some(maxStreamData);
      } else {
        r := None;
      }
    }
  }

  class RecvFlowControl {
    var maxData: nat
    var window: nat
    var consumed: nat

    function Value(): (s: RecvLimit)
      reads this
    {
      RecvLimit(maxData, window, consumed)
    }

    constructor (window: nat)
      ensures Value() == RecvLimit(window, window, 0)
    {
      this.maxData, this.window, this.consumed := window, window, 0;
    }

    method OnDataConsumed(n: nat)
      modifies `consumed
      ensures Value() == old(Value()).(consumed := old(consumed) + n)
    {
      consumed := consumed + n;
    }

    method MaybeUpdate() returns (r: Option<nat>)
      modifies `maxData
      ensures (Value(), r) == old(Value()).MaybeUpdate()
    {
      var desired := consumed + window;
      if desired > maxData && SatSub(maxData, consumed) < window / 2 {
        maxData := desired;
        r := Some(maxData);
      } else {
        r := None;
      }
    }
  }

  class StreamRecvFlow {
    var maxStreamData: nat
    var window: nat
    var consumed: nat

    function Value(): (s: RecvLimit)
      reads this
    {
      RecvLimit(maxStreamData, window, consumed)
    }

    constructor (window: nat)
      ensures Value() == RecvLimit(window, window, 0)
    {
      this.maxStreamData, this.window, this.consumed := window, window, 0;
    }

    method OnDataConsumed(n: nat)
      modifies `consumed
      ensures Value() == old(Value()).(consumed := old(consumed) + n)
    {
      consumed := consumed + n;
    }

    method MaybeUpdate() returns (r: Option<nat>)
      modifies `maxStreamData
      ensures (Value(), r) == old(Value()).MaybeUpdate()
    {
      var desired := consumed + window;
      if desired > maxStreamData && SatSub(maxStreamData, consumed) < window / 2 {
        maxStreamData := desired;
        r := Some(maxStreamData);
      } else {
        r := None;
      }
    }
  }

  // ------------------------------------------------------------------ two parties

  /**
   * Both ends of one limit. `ads` are the updates ever sent, any of which may still
   * arrive; `reports` are the limits reported as blocked, in order.
   */
  datatype Link = Link(sender: SendLimit, receiver: RecvLimit, ads: set<nat>, reports: seq<nat>)

  function NewLink(window: nat): (l: Link) {
    Link(SendLimit(window, 0, None), RecvLimit(window, window, 0), {}, [])
  }

  function Update(l: Link): (r: Link) {
    var (receiver, ad) := l.receiver.MaybeUpdate();
    l.(receiver := receiver, ads := if ad.Some? then l.ads + {ad.value} else l.ads)
  }

  function Arrive(l: Link, ad: nat): (r: Link) {
    if ad in l.ads then l.(sender := l.sender.OnMax(ad)) else l
  }

  function Report(l: Link): (r: Link) {
    var (sender, limit) := l.sender.TakeBlocked();
    l.(sender := sender, reports := if limit.Some? then l.reports + [limit.value] else l.reports)
  }

  function Charge(l: Link, n: nat): (r: Link) { l.(sender := l.sender.RecordHigh(l.sender.sent + n).0) }

  function Use(l: Link, n: nat): (r: Link) { l.(receiver := l.receiver.(consumed := l.receiver.consumed + n)) }

  predicate Increasing(s: seq<nat>) { forall i, j :: 0 <= i < j < |s| ==> s[i] < s[j] }

  /** The last limit reported as blocked is the current one. */
  predicate Reported(l: Link) { l.reports != [] && l.reports[|l.reports| - 1] == l.sender.max }

  /** What holds of both ends of a limit at any time. */
  ghost predicate LinkOk(l: Link, window: nat) {
    && l.receiver.window == window
    && l.receiver.consumed <= l.sender.sent <= l.sender.max <= l.receiver.max <= l.receiver.consumed + window
    && (forall ad :: ad in l.ads ==> ad <= l.receiver.max)
    && Increasing(l.reports)
    && (forall i :: 0 <= i < |l.reports| ==> l.reports[i] <= l.sender.max)
    && (l.sender.blockedAt == Some(l.sender.max) <==> Reported(l))
  }

  lemma UpdateOk(l: Link, window: nat)
    requires LinkOk(l, window)
    ensures LinkOk(Update(l), window)
  {
  }

  lemma ArriveOk(l: Link, ad: nat, window: nat)
    requires LinkOk(l, window)
    ensures LinkOk(Arrive(l, ad), window)
  {
  }

  lemma ReportOk(l: Link, window: nat)
    requires LinkOk(l, window)
    ensures LinkOk(Report(l), window)
  {
  }

  /** The connection limit and the limits of its streams. */
  datatype Flow = Flow(conn: Link, streams: seq<Link>)

  datatype Step =
    | Open
    | Send(stream: nat, n: nat)
    | Resend(stream: nat, high: nat)
    | Consume(stream: nat, n: nat)
    | UpdateConn
    | UpdateStream(stream: nat)
    | ArriveConn(ad: nat)
    | ArriveStream(stream: nat, ad: nat)
    | ReportConn
    | ReportStream(stream: nat)

  /** Sends at most what both credits allow; only what is new is charged to both. */
  function DoSend(f: Flow, i: nat, n: nat): (r: Flow)
    requires i < |f.streams|
  {
    var take := Min(n, Min(f.conn.sender.Available(), f.streams[i].sender.Available()));
    Record(f, i, f.streams[i].sender.sent + take)
  }

  /** The bookkeeping after a STREAM frame that ends at `high`. */
  function Record(f: Flow, i: nat, high: nat): (r: Flow)
    requires i < |f.streams|
  {
    var (s, added) := f.streams[i].sender.RecordHigh(high);
    Flow(Charge(f.conn, added), f.streams[i := f.streams[i].(sender := s)])
  }

  /** The application can only consume what was sent. */
  function DoConsume(f: Flow, i: nat, n: nat): (r: Flow)
    requires i < |f.streams|
  {
    var l := f.streams[i];
    if l.receiver.consumed + n > l.sender.sent then f else Flow(Use(f.conn, n), f.streams[i := Use(l, n)])
  }

  function Next(f: Flow, step: Step, window: nat): (r: Flow) {
    match step
    case Open => f.(streams := f.streams + [NewLink(window)])
    case Send(i, n) => if i < |f.streams| then DoSend(f, i, n) else f
    case Resend(i, high) =>
      if i < |f.streams| && high <= f.streams[i].sender.sent then Record(f, i, high) else f
    case Consume(i, n) => if i < |f.streams| then DoConsume(f, i, n) else f
    case UpdateConn => f.(conn := Update(f.conn))
    case UpdateStream(i) => if i < |f.streams| then f.(streams := f.streams[i := Update(f.streams[i])]) else f
    case ArriveConn(ad) => f.(conn := Arrive(f.conn, ad))
    case ArriveStream(i, ad) =>
      if i < |f.streams| then f.(streams := f.streams[i := Arrive(f.streams[i], ad)]) else f
    case ReportConn => f.(conn := Report(f.conn))
    case ReportStream(i) => if i < |f.streams| then f.(streams := f.streams[i := Report(f.streams[i])]) else f
  }

  function Run(window: nat, streamWindow: nat, steps: seq<Step>): (f: Flow) {
    if steps == [] then Flow(NewLink(window), [])
    else Next(Run(window, streamWindow, steps[..|steps| - 1]), steps[|steps| - 1], streamWindow)
  }

  // -------------------------------------------------------------------- invariant

  function SumSent(ls: seq<Link>): (n: nat) {
    if ls == [] then 0 else SumSent(ls[..|ls| - 1]) + ls[|ls| - 1].sender.sent
  }

  function SumConsumed(ls: seq<Link>): (n: nat) {
    if ls == [] then 0 else SumConsumed(ls[..|ls| - 1]) + ls[|ls| - 1].receiver.consumed
  }

  lemma {:induction false} SumUpdate(ls: seq<Link>, i: nat, l: Link)
    requires i < |ls|
    ensures SumSent(ls[i := l]) == SumSent(ls) - ls[i].sender.sent + l.sender.sent
    ensures SumConsumed(ls[i := l]) == SumConsumed(ls) - ls[i].receiver.consumed + l.receiver.consumed
    decreases |ls|
  {
    var n := |ls| - 1;
    var ls' := ls[i := l];
    if i == n {
      assert ls'[..n] == ls[..n];
    } else {
      SumUpdate(ls[..n], i, l);
      assert ls'[..n] == ls[..n][i := l];
    }
  }

  ghost predicate Ok(f: Flow, window: nat, streamWindow: nat) {
    && LinkOk(f.conn, window)
    && (forall i :: 0 <= i < |f.streams| ==> LinkOk(f.streams[i], streamWindow))
    && f.conn.sender.sent == SumSent(f.streams)
    && f.conn.receiver.consumed == SumConsumed(f.streams)
  }

  lemma ChargeOk(l: Link, n: nat, window: nat)
    requires LinkOk(l, window) && n <= l.sender.Available()
    ensures LinkOk(Charge(l, n), window)
  {
  }

  lemma UseOk(l: Link, n: nat, window: nat)
    requires LinkOk(l, window) && l.receiver.consumed + n <= l.sender.sent
    ensures LinkOk(Use(l, n), window)
  {
  }

  lemma SendOk(f: Flow, i: nat, n: nat, w: nat, sw: nat)
    requires Ok(f, w, sw) && i < |f.streams|
    ensures Ok(DoSend(f, i, n), w, sw)
  {
    hide LinkOk;
    var take := Min(n, Min(f.conn.sender.Available(), f.streams[i].sender.Available()));
    var l := f.streams[i];
    ChargeOk(f.conn, take, w);
    ChargeOk(l, take, sw);
    assert DoSend(f, i, n) == Flow(Charge(f.conn, take), f.streams[i := Charge(l, take)]);
    SumUpdate(f.streams, i, Charge(l, take));
  }

  lemma ConsumeOk(f: Flow, i: nat, n: nat, w: nat, sw: nat)
    requires Ok(f, w, sw) && i < |f.streams|
    ensures Ok(DoConsume(f, i, n), w, sw)
  {
    var l := f.streams[i];
    assert forall j :: 0 <= j < |f.streams| ==> f.streams[j].receiver.consumed <= f.streams[j].sender.sent;
    hide LinkOk;
    SumUpdate(f.streams, i, Use(l, n));
    if l.receiver.consumed + n <= l.sender.sent {
      ConsumedBound(f.streams[i := Use(l, n)]);
      UseOk(l, n, sw);
      UseOk(f.conn, n, w);
    }
  }

  lemma {:induction false} ConsumedBound(ls: seq<Link>)
    requires forall i :: 0 <= i < |ls| ==> ls[i].receiver.consumed <= ls[i].sender.sent
    ensures SumConsumed(ls) <= SumSent(ls)
  {
    if ls != [] {
      ConsumedBound(ls[..|ls| - 1]);
    }
  }

  /** Replacing a stream by one with the same counters keeps the sums. */
  lemma SwapOk(f: Flow, i: nat, l: Link, w: nat, sw: nat)
    requires Ok(f, w, sw) && i < |f.streams| && LinkOk(l, sw)
    requires l.sender.sent == f.streams[i].sender.sent && l.receiver.consumed == f.streams[i].receiver.consumed
    ensures Ok(f.(streams := f.streams[i := l]), w, sw)
  {
    SumUpdate(f.streams, i, l);
  }

  lemma NextOk(f: Flow, step: Step, w: nat, sw: nat)
    requires Ok(f, w, sw)
    ensures Ok(Next(f, step, sw), w, sw)
  {
    match step
    case Open =>
      assert (f.streams + [NewLink(sw)])[..|f.streams|] == f.streams;
    case Send(i, n) =>
      if i < |f.streams| { SendOk(f, i, n, w, sw); }
    case Resend(i, high) =>
      if i < |f.streams| && high <= f.streams[i].sender.sent {
        assert f.streams[i := f.streams[i]] == f.streams && Record(f, i, high) == f;
      }
    case Consume(i, n) =>
      if i < |f.streams| { ConsumeOk(f, i, n, w, sw); }
    case UpdateConn => UpdateOk(f.conn, w);
    case UpdateStream(i) =>
      if i < |f.streams| {
        UpdateOk(f.streams[i], sw);
        SwapOk(f, i, Update(f.streams[i]), w, sw);
      }
    case ArriveConn(ad) => ArriveOk(f.conn, ad, w);
    case ArriveStream(i, ad) =>
      if i < |f.streams| {
        ArriveOk(f.streams[i], ad, sw);
        SwapOk(f, i, Arrive(f.streams[i], ad), w, sw);
      }
    case ReportConn => ReportOk(f.conn, w);
    case ReportStream(i) =>
      if i < |f.streams| {
        ReportOk(f.streams[i], sw);
        SwapOk(f, i, Report(f.streams[i]), w, sw);
      }
  }

  lemma {:induction false} RunOk(w: nat, sw: nat, steps: seq<Step>)
    ensures Ok(Run(w, sw, steps), w, sw)
  {
    if steps != [] {
      RunOk(w, sw, steps[..|steps| - 1]);
      NextOk(Run(w, sw, steps[..|steps| - 1]), steps[|steps| - 1], w, sw);
    }
  }

  /** Within the limits granted, and never more than a window unconsumed. */
  predicate Safe(l: Link, window: nat) {
    l.sender.sent <= l.receiver.max && l.sender.sent - l.receiver.consumed <= window
  }

  /**
   * Whatever is lost, repeated or reordered: on the connection and on every stream the
   * sender stays within what the receiver granted.
   */
  lemma FlowSafety(w: nat, sw: nat, steps: seq<Step>)
    ensures var f := Run(w, sw, steps);
            Safe(f.conn, w) && forall i :: 0 <= i < |f.streams| ==> Safe(f.streams[i], sw)
  {
    RunOk(w, sw, steps);
  }

  /** The connection counters are the sums of the stream counters in every run. */
  lemma FlowConservation(w: nat, sw: nat, steps: seq<Step>)
    ensures var f := Run(w, sw, steps);
            && f.conn.sender.sent == SumSent(f.streams)
            && f.conn.receiver.consumed == SumConsumed(f.streams)
  {
    RunOk(w, sw, steps);
  }

  /** No limit is reported as blocked twice, on the connection or on any stream. */
  lemma ReportsIncrease(w: nat, sw: nat, steps: seq<Step>)
    ensures var f := Run(w, sw, steps);
            Increasing(f.conn.reports) && forall i :: 0 <= i < |f.streams| ==> Increasing(f.streams[i].reports)
  {
    RunOk(w, sw, steps);
  }

  lemma ReportExact(l: Link, window: nat)
    requires LinkOk(l, window)
    ensures var r := Report(l);
            if l.sender.sent >= l.sender.max then
              Reported(r) && r.reports == if Reported(l) then l.reports else l.reports + [l.sender.max]
            else r == l
  {
  }

  /**
   * In every run, asking for a report when a limit is used up leaves it reported, and reports
   * it now exactly when it was not reported before; otherwise nothing is reported.
   */
  lemma BlockedReported(w: nat, sw: nat, steps: seq<Step>, i: nat)
    ensures var f, f' := Run(w, sw, steps), Run(w, sw, steps + [ReportConn]);
            if f.conn.sender.sent >= f.conn.sender.max then
              && Reported(f'.conn)
              && f'.conn.reports == if Reported(f.conn) then f.conn.reports else f.conn.reports + [f.conn.sender.max]
            else f'.conn.reports == f.conn.reports
    ensures var f, f' := Run(w, sw, steps), Run(w, sw, steps + [ReportStream(i)]);
            i < |f.streams| ==>
              && |f'.streams| == |f.streams|
              && var l, l' := f.streams[i], f'.streams[i];
                 if l.sender.sent >= l.sender.max then
                   Reported(l') && l'.reports == if Reported(l) then l.reports else l.reports + [l.sender.max]
                 else l'.reports == l.reports
  {
    var f := Run(w, sw, steps);
    RunOk(w, sw, steps);
    RunOneMore(w, sw, steps, ReportConn);
    RunOneMore(w, sw, steps, ReportStream(i));
    hide Run, Report, Reported;
    ReportExact(f.conn, w);
    if i < |f.streams| {
      ReportExact(f.streams[i], sw);
    }
  }

  // --------------------------------------------------------------------- progress

  /** After an update at least half a window is open; the update was made if it was less. */
  lemma UpdateOpensHalf(r: RecvLimit)
    requires r.consumed <= r.max <= r.consumed + r.window
    ensures var (r', ad) := r.MaybeUpdate();
            && r'.max >= r.consumed + r.window / 2
            && (ad.Some? <==> r.max < r.consumed + r.window / 2)
            && (ad.Some? ==> ad.value == r.consumed + r.window > r.max)
  {
  }

  /** A window that is consumed to its end is renewed exactly when it is at least 2. */
  lemma FullWindowRenewed(r: RecvLimit)
    requires r.max == r.consumed
    ensures r.MaybeUpdate().1.Some? <==> r.window >= 2
  {
  }

  /** Everything sent is consumed and the sender is out of credit. */
  predicate Waiting(l: Link) { l.sender.IsBlocked() && l.receiver.consumed == l.sender.sent }

  /**
   * A waiting sender gets a fresh limit exactly when less than half a window was granted
   * in updates it has not seen.
   */
  lemma WaitingRenewed(l: Link, window: nat)
    requires LinkOk(l, window) && Waiting(l)
    ensures l.receiver.MaybeUpdate().1.Some? <==> l.receiver.max - l.sender.max < window / 2
    ensures l.receiver.max - l.sender.max < window / 2 ==>
              var l' := Update(l);
              Arrive(l', l'.receiver.max).sender.Available() == window
  {
  }

  /** Half a window or more was granted in updates the sender has not seen. */
  predicate Frozen(l: Link) { l.receiver.max - l.sender.max >= l.receiver.window / 2 }

  /** Whatever is consumed, such a limit is not renewed: updates are not sent again. */
  lemma FrozenStays(l: Link, window: nat)
    requires LinkOk(l, window) && Frozen(l)
    ensures Update(l) == l
  {
  }

  predicate Stalled(l: Link) { Waiting(l) && Frozen(l) }

  /** The arrival of `ad` raises the limit. */
  predicate Relieves(l: Link, ad: nat) { ad in l.ads && ad > l.sender.max }

  /** A limit on which nothing but reports changed. */
  predicate Same(a: Link, b: Link) {
    a.sender.max == b.sender.max && a.sender.sent == b.sender.sent && a.receiver == b.receiver && a.ads == b.ads
  }

  lemma StalledStep(f: Flow, step: Step, w: nat, sw: nat)
    requires Ok(f, w, sw) && Stalled(f.conn) && !(step.ArriveConn? && Relieves(f.conn, step.ad))
    ensures Same(f.conn, Next(f, step, sw).conn)
  {
    if step.Consume? && step.stream < |f.streams| {
      AllConsumed(f.streams, step.stream);
    }
  }

  lemma StalledStreamStep(f: Flow, i: nat, step: Step, w: nat, sw: nat)
    requires Ok(f, w, sw) && i < |f.streams| && Stalled(f.streams[i])
    requires !(step.ArriveStream? && step.stream == i && Relieves(f.streams[i], step.ad))
    ensures i < |Next(f, step, sw).streams| && Same(f.streams[i], Next(f, step, sw).streams[i])
  {
  }

  function Extend(f: Flow, steps: seq<Step>, streamWindow: nat): (r: Flow)
    decreases |steps|
  {
    if steps == [] then f
    else Next(Extend(f, steps[..|steps| - 1], streamWindow), steps[|steps| - 1], streamWindow)
  }

  lemma {:induction false} RunExtend(w: nat, sw: nat, before: seq<Step>, more: seq<Step>)
    ensures Run(w, sw, before + more) == Extend(Run(w, sw, before), more, sw)
    decreases |more|
  {
    var all := before + more;
    if more == [] {
      assert all == before;
    } else {
      assert all[..|all| - 1] == before + more[..|more| - 1];
      RunExtend(w, sw, before, more[..|more| - 1]);
    }
  }

  /**
   * Updates are not sent again when they are lost. On a stalled connection, in every
   * continuation into which no update already sent arrives, not one byte more is sent,
   * consumed or granted, on any stream.
   */
  lemma {:induction false} StalledStays(f: Flow, steps: seq<Step>, w: nat, sw: nat)
    requires Ok(f, w, sw) && Stalled(f.conn)
    requires forall i :: 0 <= i < |steps| ==> !(steps[i].ArriveConn? && Relieves(f.conn, steps[i].ad))
    ensures var f' := Extend(f, steps, sw);
            Ok(f', w, sw) && Stalled(f'.conn) && Same(f.conn, f'.conn)
    decreases |steps|
  {
    if steps != [] {
      StalledStays(f, steps[..|steps| - 1], w, sw);
      var mid := Extend(f, steps[..|steps| - 1], sw);
      NextOk(mid, steps[|steps| - 1], w, sw);
      StalledStep(mid, steps[|steps| - 1], w, sw);
    }
  }

  /** The same for one stream and its own limit, while the connection goes on. */
  lemma {:induction false} StalledStreamStays(f: Flow, i: nat, steps: seq<Step>, w: nat, sw: nat)
    requires Ok(f, w, sw) && i < |f.streams| && Stalled(f.streams[i])
    requires forall k :: 0 <= k < |steps| ==>
               !(steps[k].ArriveStream? && steps[k].stream == i && Relieves(f.streams[i], steps[k].ad))
    ensures var f' := Extend(f, steps, sw);
            Ok(f', w, sw) && i < |f'.streams| && Stalled(f'.streams[i]) && Same(f.streams[i], f'.streams[i])
    decreases |steps|
  {
    if steps != [] {
      StalledStreamStays(f, i, steps[..|steps| - 1], w, sw);
      var mid := Extend(f, steps[..|steps| - 1], sw);
      NextOk(mid, steps[|steps| - 1], w, sw);
      StalledStreamStep(mid, i, steps[|steps| - 1], w, sw);
    }
  }

  /** Equal sums leave no stream with anything unconsumed. */
  lemma {:induction false} AllConsumed(ls: seq<Link>, i: nat)
    requires i < |ls| && forall j :: 0 <= j < |ls| ==> ls[j].receiver.consumed <= ls[j].sender.sent
    requires SumConsumed(ls) == SumSent(ls)
    ensures ls[i].receiver.consumed == ls[i].sender.sent
    decreases |ls|
  {
    var front := ls[..|ls| - 1];
    ConsumedBound(front);
    if i < |front| {
      AllConsumed(front, i);
    }
  }

  /** A stream sends a window `n`, and all of it is consumed. */
  function OneWindow(n: nat): (steps: seq<Step>) { [Open, Send(0, n), Consume(0, n)] }

  /** One more step of a run. */
  lemma RunOneMore(w: nat, sw: nat, steps: seq<Step>, last: Step)
    ensures Run(w, sw, steps + [last]) == Next(Run(w, sw, steps), last, sw)
  {
    var all := steps + [last];
    assert all[..|all| - 1] == steps;
  }

  lemma OneWindowUsed(w: nat, sw: nat)
    requires sw <= w
    ensures var f := Run(w, sw, OneWindow(sw));
            && |f.streams| == 1
            && f.conn == Link(SendLimit(w, sw, None), RecvLimit(w, w, sw), {}, [])
            && f.streams[0] == Link(SendLimit(sw, sw, None), RecvLimit(sw, sw, sw), {}, [])
  {
    assert Run(w, sw, []) == Flow(NewLink(w), []);
    hide Run;
    RunOneMore(w, sw, [], Open);
    RunOneMore(w, sw, [Open], Send(0, sw));
    RunOneMore(w, sw, [Open, Send(0, sw)], Consume(0, sw));
    assert [] + [Open] == [Open] && [Open] + [Send(0, sw)] == [Open, Send(0, sw)];
    assert [Open, Send(0, sw)] + [Consume(0, sw)] == OneWindow(sw);
    var f1 := Run(w, sw, [Open]);
    assert f1 == Flow(NewLink(w), [NewLink(sw)]) by { assert [] + [NewLink(sw)] == [NewLink(sw)]; }
    SendOne(w, sw);
    ConsumeOne(w, sw);
    hide Next;
  }

  lemma SendOne(w: nat, sw: nat)
    requires sw <= w
    ensures Next(Flow(NewLink(w), [NewLink(sw)]), Send(0, sw), sw)
         == Flow(Link(SendLimit(w, sw, None), RecvLimit(w, w, 0), {}, []),
                 [Link(SendLimit(sw, sw, None), RecvLimit(sw, sw, 0), {}, [])])
  {
  }

  lemma ConsumeOne(w: nat, sw: nat)
    ensures Next(Flow(Link(SendLimit(w, sw, None), RecvLimit(w, w, 0), {}, []),
                      [Link(SendLimit(sw, sw, None), RecvLimit(sw, sw, 0), {}, [])]), Consume(0, sw), sw)
         == Flow(Link(SendLimit(w, sw, None), RecvLimit(w, w, sw), {}, []),
                 [Link(SendLimit(sw, sw, None), RecvLimit(sw, sw, sw), {}, [])])
  {
  }

  /** An update made when a window was used up, and not yet seen by the sender. */
  lemma LostLink(n: nat)
    requires n >= 2
    ensures var l := Update(Link(SendLimit(n, n, None), RecvLimit(n, n, n), {}, []));
            Stalled(l) && l.sender.sent == n && l.ads == {2 * n}
  {
  }

  lemma LostOne(w: nat, sw: nat)
    requires 2 <= sw <= w
    ensures var f := Run(w, sw, OneWindow(sw) + [UpdateStream(0)]);
            && |f.streams| == 1 && Stalled(f.streams[0])
            && f.streams[0].sender.sent == sw && f.streams[0].ads == {2 * sw}
  {
    hide Run, OneWindow, Update, Stalled;
    OneWindowUsed(w, sw);
    RunOneMore(w, sw, OneWindow(sw), UpdateStream(0));
    LostLink(sw);
  }

  lemma LostWhole(w: nat)
    requires 2 <= w
    ensures var f := Run(w, w, OneWindow(w) + [UpdateConn]);
            Stalled(f.conn) && f.conn.sender.sent == w && f.conn.ads == {2 * w}
  {
    hide Run, OneWindow, Update, Stalled;
    OneWindowUsed(w, w);
    RunOneMore(w, w, OneWindow(w), UpdateConn);
    LostLink(w);
  }

  /**
   * One lost MAX_DATA stops a connection for ever, whatever the window from 2 on: in every
   * continuation into which it does not arrive, no byte past the first window is sent.
   */
  lemma {:induction false} LostUpdateStalls(w: nat, more: seq<Step>)
    requires w >= 2 && forall i :: 0 <= i < |more| ==> more[i] != ArriveConn(2 * w)
    ensures var f := Run(w, w, OneWindow(w) + [UpdateConn] + more);
            Stalled(f.conn) && f.conn.sender.sent == w && f.conn.ads == {2 * w}
  {
    hide Run, OneWindow, Ok, Stalled, Extend;
    var steps := OneWindow(w) + [UpdateConn];
    LostWhole(w);
    RunOk(w, w, steps);
    RunExtend(w, w, steps, more);
    StalledStays(Run(w, w, steps), more, w, w);
  }

  /** One lost MAX_STREAM_DATA does the same to a stream, however large the connection's window. */
  lemma {:induction false} LostStreamUpdateStalls(w: nat, sw: nat, more: seq<Step>)
    requires 2 <= sw <= w && forall i :: 0 <= i < |more| ==> more[i] != ArriveStream(0, 2 * sw)
    ensures var f := Run(w, sw, OneWindow(sw) + [UpdateStream(0)] + more);
            && |f.streams| > 0 && Stalled(f.streams[0])
            && f.streams[0].sender.sent == sw && f.streams[0].ads == {2 * sw}
  {
    hide Run, OneWindow, Ok, Stalled, Extend;
    var steps := OneWindow(sw) + [UpdateStream(0)];
    LostOne(w, sw);
    RunOk(w, sw, steps);
    RunExtend(w, sw, steps, more);
    StalledStreamStays(Run(w, sw, steps), 0, more, w, sw);
  }
}
