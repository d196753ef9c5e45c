/**
 * One direction of a connection as a state machine: a sender with its streams, packet
 * records and loss recovery; a network that drops, repeats and reorders packets and
 * acknowledgements; and a receiver with its streams and its record of packet numbers.
 * Packets and acknowledgements cross the network as encoded frames. The handshake is one
 * more stream, under a key of its own, whose segments travel in CRYPTO frames.
 */
module Delivery {
  import opened Common
  import opened Coding
  import opened Frames
  import opened FrameLaws
  import opened Acks
  import opened SentPackets
  import opened Reassembly
  import opened Streams
  import T = Track

  /** The key of the handshake: no stream has such an identifier. */
  const CRYPTO: nat := VARINT_MAX + 1

  /** A sending stream, with everything its application wrote. */
  datatype Source = Source(written: seq<byte>, state: SendState)

  /** A receiving stream, with everything its application read, and whether it saw the end. */
  datatype Target = Target(state: RecvState, read: seq<byte>, ended: bool)

  const NEW_TARGET: Target := Target(NEW_RECV, [], false)

  /**
   * `log` is what each packet carried, `acked` the packets acknowledged so far and `acks`
   * the ACK frames sent; they are never forgotten, so the network may deliver any of them
   * at any time.
   */
  datatype Conn = Conn(
    send: map<nat, Source>, nextPn: nat, sent: SentState, log: map<nat, seq<SentFrame>>, acked: set<nat>,
    recv: map<nat, Target>, received: seq<Range>, acks: seq<Frame>, failed: bool)

  const NEW_CONN: Conn := Conn(map[], 0, SentState(map[], None), map[], {}, map[], [], [], false)

  /** A stream to take a frame from, and the room for its data. */
  datatype Pick = Pick(id: nat, room: nat)

  datatype Step =
    | Open(id: nat)
    | Write(id: nat, data: seq<byte>, fin: bool)
    | Transmit(picks: seq<Pick>, ping: bool, now: nat, size: nat)
    | Deliver(pn: nat)
    | SendAck(delay: nat)
    | DeliverAck(index: nat)
    | Timeout(now: nat, delay: nat)
    | Probe(pn: nat)
    | Read(id: nat)

  // -------------------------------------------------------------------- sender

  function FrameFor(id: nat, seg: Segment): (f: SentFrame) {
    if id == CRYPTO then SentCrypto(seg.offset, seg.data) else SentStream(id, seg.offset, seg.fin, seg.data)
  }

  /** The stream and the segment a recorded frame carries. */
  function Content(f: SentFrame): (r: Option<(nat, Segment)>) {
    match f
    case SentStream(id, offset, fin, data) => Some((id, Segment(offset, data, fin)))
    case SentCrypto(offset, data) => Some((CRYPTO, Segment(offset, data, false)))
    case _ => None
  }

  /** Takes one frame from each picked stream that has something to send. */
  function Fill(send: map<nat, Source>, picks: seq<Pick>): (r: (map<nat, Source>, seq<SentFrame>)) {
    if picks == [] then (send, [])
    else
      var (before, frames) := Fill(send, picks[..|picks| - 1]);
      var Pick(id, room) := picks[|picks| - 1];
      if id !in before || room == 0 then (before, frames)
      else
        var (s, out) := before[id].state.Take(room);
        match out
        case None => (before, frames)
        case Some(seg) => (before[id := before[id].(state := s)], frames + [FrameFor(id, seg)])
  }

  function RequeueOne(send: map<nat, Source>, f: SentFrame): (r: map<nat, Source>) {
    match Content(f)
    case None => send
    case Some((id, seg)) =>
      if id !in send then send else send[id := send[id].(state := send[id].state.Requeue(seg))]
  }

  function RequeueAll(send: map<nat, Source>, frames: seq<SentFrame>): (r: map<nat, Source>) {
    if frames == [] then send else RequeueOne(RequeueAll(send, frames[..|frames| - 1]), frames[|frames| - 1])
  }

  /** The frames of the given packets, in order. */
  function FramesOf(packets: seq<SentPacket>): (r: seq<SentFrame>) {
    if packets == [] then [] else FramesOf(packets[..|packets| - 1]) + packets[|packets| - 1].frames
  }

  function ToFrame(f: SentFrame): (r: Frame) {
    match f
    case SentCrypto(offset, data) => Crypto(offset, data)
    case SentStream(id, offset, fin, data) => Stream(id, offset, fin, data)
    case SentPing => Ping
    case SentMtuProbe(_) => Ping
    case SentNewConnectionId(n, retire, cid, token) => NewConnectionId(n, retire, cid, token)
    case SentRetireConnectionId(n) => RetireConnectionId(n)
    case SentMaxStreams(dir, max) => MaxStreams(dir, max)
    case SentStreamsBlocked(dir, limit) => StreamsBlocked(dir, limit)
    case SentNewToken(token) => NewToken(token)
  }

  /** The payload of a packet that carries these frames. */
  function Payload(frames: seq<SentFrame>): (s: seq<byte>) {
    EncodeAll(Wire(frames))
  }

  function Wire(frames: seq<SentFrame>): (fs: seq<Frame>)
    ensures |fs| == |frames| && forall i :: 0 <= i < |fs| ==> fs[i] == ToFrame(frames[i])
  {
    seq(|frames|, i requires 0 <= i < |frames| => ToFrame(frames[i]))
  }

  // ------------------------------------------------------------------ receiver

  function TargetOf(recv: map<nat, Target>, id: nat): (r: Target) {
    if id in recv then recv[id] else NEW_TARGET
  }

  /** The stream and the segment a received frame carries. */
  function Incoming(f: Frame): (r: Option<(nat, Segment)>) {
    match f
    case Stream(id, offset, fin, data) => Some((id, Segment(offset, data, fin)))
    case Crypto(offset, data) => Some((CRYPTO, Segment(offset, data, false)))
    case _ => None
  }

  /** Acts on the first `n` frames; None when a stream refuses one. */
  function Handle(recv: map<nat, Target>, fs: seq<Frame>, n: nat): (r: Option<map<nat, Target>>)
    requires n <= |fs|
  {
    if n == 0 then Some(recv)
    else
      var before := Handle(recv, fs, n - 1);
      if before.None? then None
      else
        match Incoming(fs[n - 1])
        case None => before
        case Some((id, seg)) =>
          var target := TargetOf(before.value, id);
          var (s, r) := target.state.Recv(seg.offset, seg.data, seg.fin);
          if r.Ok? then Some(before.value[id := target.(state := s)]) else None
  }

  function OnPayload(recv: map<nat, Target>, payload: seq<byte>): (r: Option<map<nat, Target>>) {
    match DecodeAll(payload)
    case Fail(_) => None
    case Done(fs, _) => Handle(recv, fs, |fs|)
  }

  // --------------------------------------------------------------------- steps

  function DoOpen(c: Conn, id: nat): (r: Conn) {
    if id in c.send || !(Fits(id) || id == CRYPTO) then c else c.(send := c.send[id := Source([], NEW_SEND)])
  }

  /**
   * The application writes nothing more once the end was sent, and at most 2^62 - 1 bytes.
   * The handshake is never ended.
   */
  function DoWrite(c: Conn, id: nat, data: seq<byte>, fin: bool): (r: Conn) {
    if id !in c.send || (c.send[id].state.finSent && data != []) || !Fits(|c.send[id].written| + |data|) then c
    else if id == CRYPTO && fin then c
    else c.(send := c.send[id := Source(c.send[id].written + data, c.send[id].state.Write(data, fin))])
  }

  function DoTransmit(c: Conn, picks: seq<Pick>, ping: bool, now: nat, size: nat): (r: Conn) {
    var (send, placed) := Fill(c.send, picks);
    var frames := placed + if ping then [SentPing] else [];
    if frames == [] || !Fits(c.nextPn) then c
    else
      var packet := SentPacket(c.nextPn, now, true, true, size, frames);
      c.(send := send, nextPn := c.nextPn + 1, log := c.log[c.nextPn := frames],
         sent := c.sent.(sent := c.sent.sent[c.nextPn := packet]))
  }

  function DoDeliver(c: Conn, pn: nat): (r: Conn) {
    if pn !in c.log then c
    else
      match OnPayload(c.recv, Payload(c.log[pn]))
      case None => c.(failed := true)
      case Some(recv) => c.(recv := recv, received := InsertPn(c.received, pn))
  }

  function DoSendAck(c: Conn, delay: nat): (r: Conn) {
    if !Canonical(c.received) || c.received == [] || !Fits(delay) then c
    else c.(acks := c.acks + [ToAck(c.received, delay).value])
  }

  function DoDeliverAck(c: Conn, index: nat): (r: Conn) {
    if index >= |c.acks| then c
    else
      match DecodeFrame(Encode(c.acks[index]))
      case Done(Ack(largest, _, first, ranges), _) =>
        var (sent, outcome) := ApplyAck(c.sent, largest, first, ranges);
        c.(sent := sent, acked := c.acked + set p | p in outcome.newlyAcked :: p.number)
      case _ => c.(failed := true)
  }

  function DoTimeout(c: Conn, now: nat, delay: nat): (r: Conn) {
    var (sent, lost, _) := FindLost(c.sent, now, delay);
    c.(sent := sent, send := RequeueAll(c.send, FramesOf(lost)))
  }

  /** A PTO re-queues an outstanding packet's frames but keeps its record. */
  function DoProbe(c: Conn, pn: nat): (r: Conn) {
    if !CanProbe(c.sent.sent, pn) then c else c.(send := RequeueAll(c.send, c.sent.sent[pn].frames))
  }

  function DoRead(c: Conn, id: nat): (r: Conn) {
    if id !in c.recv then c
    else
      var target := c.recv[id];
      var (s, bytes, fin) := target.state.Read();
      c.(recv := c.recv[id := Target(s, target.read + bytes, target.ended || fin)])
  }

  function Next(c: Conn, step: Step): (r: Conn) {
    match step
    case Open(id) => DoOpen(c, id)
    case Write(id, data, fin) => DoWrite(c, id, data, fin)
    case Transmit(picks, ping, now, size) => DoTransmit(c, picks, ping, now, size)
    case Deliver(pn) => DoDeliver(c, pn)
    case SendAck(delay) => DoSendAck(c, delay)
    case DeliverAck(index) => DoDeliverAck(c, index)
    case Timeout(now, delay) => DoTimeout(c, now, delay)
    case Probe(pn) => DoProbe(c, pn)
    case Read(id) => DoRead(c, id)
  }

  function Run(steps: seq<Step>): (c: Conn) {
    if steps == [] then NEW_CONN else Next(Run(steps[..|steps| - 1]), steps[|steps| - 1])
  }

  // ----------------------------------------------------------------- invariant

  /** The segments of stream `id` among the frames. */
  ghost function SegsOf(frames: seq<SentFrame>, id: nat): (r: set<Segment>) {
    set i | 0 <= i < |frames| && Content(frames[i]).Some? && Content(frames[i]).value.0 == id
          :: Content(frames[i]).value.1
  }

  /** The segments of stream `id` in the packets `pns`. */
  ghost function Carried(log: map<nat, seq<SentFrame>>, pns: set<nat>, id: nat): (r: set<Segment>) {
    set pn, s | pn in pns && pn in log && s in SegsOf(log[pn], id) :: s
  }

  /** Outstanding packets that have not reached the receiver. */
  ghost function OpenPns(c: Conn): (r: set<nat>) {
    set pn | pn in c.sent.sent && !Has(c.received, pn)
  }

  ghost function KeptPns(c: Conn): (r: set<nat>) {
    c.sent.sent.Keys + c.acked
  }

  ghost function TrackOf(c: Conn, id: nat): (t: T.Stream)
    requires id in c.send
  {
    var target := TargetOf(c.recv, id);
    T.Stream(c.send[id].written, c.send[id].state, Carried(c.log, c.log.Keys, id), Carried(c.log, OpenPns(c), id),
             Carried(c.log, KeptPns(c), id), target.state, target.read)
  }

  /** Packets carry frames of opened streams and of the handshake, and PINGs. */
  predicate FrameOk(ids: set<nat>, f: SentFrame) {
    || f.SentPing?
    || (f.SentStream? && f.id in ids && f.id != CRYPTO)
    || (f.SentCrypto? && CRYPTO in ids)
  }

  predicate FramesOk(ids: set<nat>, frames: seq<SentFrame>) {
    forall i :: 0 <= i < |frames| ==> FrameOk(ids, frames[i])
  }

  /** Packet numbers, records and streams fit together. */
  ghost predicate Ledger(c: Conn) {
    && c.recv.Keys <= c.send.Keys
    && (forall id :: id in c.send ==> (Fits(id) || id == CRYPTO) && Fits(|c.send[id].written|))
    && (CRYPTO in c.send ==> !c.send[CRYPTO].state.fin)
    && (forall pn :: pn in c.log ==> pn < c.nextPn && Fits(pn))
    && (forall pn :: pn in c.log ==> FramesOk(c.send.Keys, c.log[pn]))
  }

  ghost predicate Records(c: Conn) {
    && Keyed(c.sent.sent)
    && (forall pn :: pn in c.sent.sent ==> pn in c.log && c.sent.sent[pn].frames == c.log[pn])
    && (forall pn :: pn in c.acked ==> Has(c.received, pn))
  }

  /** `f` is an honest ACK: it names only numbers that were received. */
  ghost predicate Honest(f: Frame, received: seq<Range>) {
    f.Ack? && WellFormed(f)
    && forall pn: nat :: Has(ExpandAck(f.largest, f.firstRange, f.ranges), pn) ==> Has(received, pn)
  }

  ghost predicate Acknowledged(c: Conn) {
    && Canonical(c.received)
    && (forall pn: nat :: Has(c.received, pn) ==> pn in c.log)
    && (forall i :: 0 <= i < |c.acks| ==> Honest(c.acks[i], c.received))
  }

  ghost predicate Tracked(c: Conn) {
    forall id :: id in c.send ==> T.Intact(TrackOf(c, id))
  }

  ghost predicate Finished(c: Conn) {
    forall id :: id in c.recv && c.recv[id].ended ==>
      id in c.send && c.send[id].state.finSent && c.recv[id].read == c.send[id].written
  }

  ghost predicate Good(c: Conn) {
    !c.failed && Ledger(c) && Records(c) && Acknowledged(c) && Tracked(c) && Finished(c)
  }
}
