/**
 * Every step of the connection keeps its invariant, and what follows for every run:
 * the receiving application only ever sees a prefix of what was written, nothing that
 * was written is forgotten, and a sender with nothing left to do has delivered it all.
 */
module DeliveryProof {
  import opened Common
  import opened Coding
  import opened Frames
  import opened FrameLaws
  import opened Acks
  import opened SentPackets
  import opened Reassembly
  import opened Streams
  import opened Delivery
  import T = Track

  // ------------------------------------------------------- segments in packets

  lemma SegsAppend(a: seq<SentFrame>, b: seq<SentFrame>, id: nat)
    ensures SegsOf(a + b, id) == SegsOf(a, id) + SegsOf(b, id)
  {
    hide Content;
    var ab := a + b;
    assert forall i :: 0 <= i < |a| ==> ab[i] == a[i];
    assert forall i :: 0 <= i < |b| ==> ab[|a| + i] == b[i];
    forall s | s in SegsOf(ab, id)
      ensures s in SegsOf(a, id) + SegsOf(b, id)
    {
      var i :| 0 <= i < |ab| && Content(ab[i]) == Some((id, s));
      assert i >= |a| ==> ab[i] == b[i - |a|];
    }
  }

  lemma SegsOfOne(f: SentFrame, id: nat)
    ensures SegsOf([f], id) == if Content(f).Some? && Content(f).value.0 == id then {Content(f).value.1} else {}
  {
    hide Content;
    if Content(f).Some? && Content(f).value.0 == id {
      assert [f][0] == f;
      assert Content(f).value.1 in SegsOf([f], id);
    }
  }

  lemma CarriedAdd(log: map<nat, seq<SentFrame>>, pns: set<nat>, pn: nat, frames: seq<SentFrame>, id: nat)
    requires pn !in log && pns <= log.Keys
    ensures Carried(log[pn := frames], pns + {pn}, id) == Carried(log, pns, id) + SegsOf(frames, id)
  {
    var log' := log[pn := frames];
    forall s | s in Carried(log, pns, id)
      ensures s in Carried(log', pns + {pn}, id)
    {
      var q :| q in pns && q in log && s in SegsOf(log[q], id);
      assert log'[q] == log[q] && q in pns + {pn};
    }
    forall s | s in SegsOf(frames, id)
      ensures s in Carried(log', pns + {pn}, id)
    {
      assert pn in pns + {pn} && log'[pn] == frames;
    }
    forall s | s in Carried(log', pns + {pn}, id)
      ensures s in Carried(log, pns, id) + SegsOf(frames, id)
    {
      var q :| q in pns + {pn} && q in log' && s in SegsOf(log'[q], id);
      assert q != pn ==> q in log && log[q] == log'[q];
    }
  }

  lemma CarriedMono(log: map<nat, seq<SentFrame>>, pns: set<nat>, more: set<nat>, id: nat)
    requires pns <= more
    ensures Carried(log, pns, id) <= Carried(log, more, id)
  {
  }

  // ------------------------------------------------------------- opening, writing

  lemma OpenTracked(c: Conn, id: nat)
    requires Ledger(c) && Tracked(c)
    ensures Tracked(DoOpen(c, id))
  {
    var c' := DoOpen(c, id);
    if c' != c {
      forall j | j in c'.send
        ensures T.Intact(TrackOf(c', j))
      {
        if j == id {
          NoneCarried(c, id);
          hide T.Intact, Carried, Ledger;
          assert TrackOf(c', j) == T.NewStream();
          T.NewStreamIntact();
        } else {
          hide T.Intact, Carried, Ledger;
          assert TrackOf(c', j) == TrackOf(c, j);
        }
      }
    }
  }

  lemma NoneCarried(c: Conn, id: nat)
    requires Ledger(c) && id !in c.send
    ensures forall pns :: Carried(c.log, pns, id) == {}
  {
    forall pn | pn in c.log
      ensures SegsOf(c.log[pn], id) == {}
    {
      assert FramesOk(c.send.Keys, c.log[pn]);
    }
  }

  lemma OpenGood(c: Conn, id: nat)
    requires Good(c)
    ensures Good(DoOpen(c, id))
  {
    hide Tracked, FramesOk, Records, Acknowledged;
    OpenTracked(c, id);
    MoreStreams(c.log, c.send.Keys, DoOpen(c, id).send.Keys);
    SameRecords(c, DoOpen(c, id));
  }

  /** Opening streams does not disturb the frames already sent. */
  lemma MoreStreams(log: map<nat, seq<SentFrame>>, ids: set<nat>, more: set<nat>)
    requires ids <= more && forall pn :: pn in log ==> FramesOk(ids, log[pn])
    ensures forall pn :: pn in log ==> FramesOk(more, log[pn])
  {
  }

  lemma SameRecords(c: Conn, c': Conn)
    requires Records(c) && Acknowledged(c) && c'.sent == c.sent && c'.log == c.log && c'.acked == c.acked
    requires c'.received == c.received && c'.acks == c.acks
    ensures Records(c') && Acknowledged(c')
  {
  }

  lemma WriteTracked(c: Conn, id: nat, data: seq<byte>, fin: bool)
    requires Tracked(c)
    ensures Tracked(DoWrite(c, id, data, fin))
  {
    var c' := DoWrite(c, id, data, fin);
    hide T.Intact, Carried;
    if c' != c {
      forall j | j in c'.send
        ensures T.Intact(TrackOf(c', j))
      {
        if j == id {
          T.WriteIntact(TrackOf(c, id), data, fin);
          assert TrackOf(c', j) == T.DoWrite(TrackOf(c, id), data, fin);
        } else {
          assert TrackOf(c', j) == TrackOf(c, j);
        }
      }
    }
  }

  lemma WriteGood(c: Conn, id: nat, data: seq<byte>, fin: bool)
    requires Good(c)
    ensures Good(DoWrite(c, id, data, fin))
  {
    hide Tracked, FramesOk, Records, Acknowledged;
    WriteTracked(c, id, data, fin);
    assert DoWrite(c, id, data, fin).send.Keys == c.send.Keys;
    SameRecords(c, DoWrite(c, id, data, fin));
  }

  // ----------------------------------------------------------------- transmitting

  function Grown(t: T.Stream, s: SendState, segs: set<Segment>): (r: T.Stream) {
    t.(sender := s, history := t.history + segs, open := t.open + segs, kept := t.kept + segs)
  }

  lemma {:induction false} FillKeys(send: map<nat, Source>, picks: seq<Pick>)
    ensures var (send', frames) := Fill(send, picks);
            && send'.Keys == send.Keys && FramesOk(send.Keys, frames)
            && (forall id :: id in send ==>
                  && send'[id].written == send[id].written && send'[id].state.fin == send[id].state.fin
                  && (send[id].state.finSent ==> send'[id].state.finSent))
  {
    if picks != [] {
      FillKeys(send, picks[..|picks| - 1]);
    }
  }

  /** A handshake that is never ended has no segment with an end. */
  lemma FrameContent(t: T.Stream, id: nat, room: nat)
    requires T.Intact(t) && t.sender.Take(room).1.Some? && (id == CRYPTO ==> !t.sender.fin)
    ensures var seg := t.sender.Take(room).1.value; Content(FrameFor(id, seg)) == Some((id, seg))
  {
    TakeFaithful(t.sender, t.written, room);
    hide SendState.Take;
  }

  /** One more frame, taken from stream `p.id`. */
  lemma PlaceIntact(send: map<nat, Source>, frames: seq<SentFrame>, p: Pick, id: nat, t: T.Stream)
    requires id in send && p.id in send && send[p.id].state.Take(p.room).1.Some?
    requires T.Intact(Grown(t, send[id].state, SegsOf(frames, id))) && (p.id == CRYPTO ==> !send[p.id].state.fin)
    ensures var (s, out) := send[p.id].state.Take(p.room);
            var more := frames + [FrameFor(p.id, out.value)];
            T.Intact(Grown(t, (if p.id == id then s else send[id].state), SegsOf(more, id)))
  {
    hide T.Intact, SendState.Take, SegsOf;
    var mid := Grown(t, send[id].state, SegsOf(frames, id));
    var seg := send[p.id].state.Take(p.room).1.value;
    var f := FrameFor(p.id, seg);
    SegsAppend(frames, [f], id);
    SegsOfOne(f, id);
    if p.id == id {
      FrameContent(mid, id, p.room);
      T.TakeIntact(mid, p.room);
      assert Grown(t, send[id].state.Take(p.room).0, SegsOf(frames, id) + {seg}) == T.DoTake(mid, p.room);
    } else {
      assert Content(f).value.0 == p.id;
      assert SegsOf(frames, id) + {} == SegsOf(frames, id);
    }
  }

  lemma {:induction false} FillIntact(send: map<nat, Source>, picks: seq<Pick>, id: nat, t: T.Stream)
    requires id in send && t.sender == send[id].state && T.Intact(t)
    requires CRYPTO in send ==> !send[CRYPTO].state.fin
    ensures id in Fill(send, picks).0
    ensures T.Intact(Grown(t, Fill(send, picks).0[id].state, SegsOf(Fill(send, picks).1, id)))
  {
    hide T.Intact, FramesOk, SendState.Take, FrameFor;
    FillKeys(send, picks);
    if picks == [] {
      assert SegsOf([], id) == {};
      assert Grown(t, send[id].state, {}) == t;
    } else {
      hide SegsOf, Grown;
      var front, last := picks[..|picks| - 1], picks[|picks| - 1];
      FillKeys(send, front);
      FillIntact(send, front, id, t);
      var (before, frames) := Fill(send, front);
      if last.id in before && last.room > 0 && before[last.id].state.Take(last.room).1.Some? {
        PlaceIntact(before, frames, last, id, t);
      }
    }
  }

  lemma PingSegs(placed: seq<SentFrame>, ping: bool, id: nat)
    ensures SegsOf(placed + if ping then [SentPing] else [], id) == SegsOf(placed, id)
  {
    SegsAppend(placed, if ping then [SentPing] else [], id);
    SegsOfOne(SentPing, id);
  }

  lemma TransmitTracked(c: Conn, picks: seq<Pick>, ping: bool, now: nat, size: nat)
    requires Good(c)
    ensures Tracked(DoTransmit(c, picks, ping, now, size))
  {
    var c' := DoTransmit(c, picks, ping, now, size);
    if c' != c {
      FillKeys(c.send, picks);
      var (send, placed) := Fill(c.send, picks);
      var frames := c'.log[c.nextPn];
      TransmitSets(c, picks, ping, now, size);
      hide T.Intact, Fill, Ledger, Carried, SegsOf, Records, Acknowledged, OpenPns, KeptPns, Finished;
      forall id | id in c'.send
        ensures T.Intact(TrackOf(c', id))
      {
        CarriedAdd(c.log, c.log.Keys, c.nextPn, frames, id);
        CarriedAdd(c.log, OpenPns(c), c.nextPn, frames, id);
        CarriedAdd(c.log, KeptPns(c), c.nextPn, frames, id);
        PingSegs(placed, ping, id);
        FillIntact(c.send, picks, id, TrackOf(c, id));
        assert TrackOf(c', id) == Grown(TrackOf(c, id), send[id].state, SegsOf(placed, id));
      }
    }
  }

  lemma TransmitSets(c: Conn, picks: seq<Pick>, ping: bool, now: nat, size: nat)
    requires Good(c) && DoTransmit(c, picks, ping, now, size) != c
    ensures var c' := DoTransmit(c, picks, ping, now, size);
            && OpenPns(c') == OpenPns(c) + {c.nextPn} && OpenPns(c) <= c.log.Keys
            && KeptPns(c') == KeptPns(c) + {c.nextPn} && KeptPns(c) <= c.log.Keys
            && c'.log.Keys == c.log.Keys + {c.nextPn} && c.nextPn !in c.log
  {
    hide Tracked, Fill, FramesOk;
  }

  lemma TransmitGood(c: Conn, picks: seq<Pick>, ping: bool, now: nat, size: nat)
    requires Good(c)
    ensures Good(DoTransmit(c, picks, ping, now, size))
  {
    hide Tracked, Fill, Honest, Has, Canonical;
    TransmitTracked(c, picks, ping, now, size);
    FillKeys(c.send, picks);
    var c' := DoTransmit(c, picks, ping, now, size);
    if c' != c {
      assert FramesOk(c.send.Keys, c'.log[c.nextPn]);
      hide FramesOk;
    }
  }

  // -------------------------------------------------------------------- delivering

  lemma InHistory(c: Conn, pn: nat, i: nat)
    requires Ledger(c) && pn in c.log && i < |c.log[pn]| && Content(c.log[pn][i]).Some?
    ensures var (id, seg) := Content(c.log[pn][i]).value;
            id in c.send && seg in TrackOf(c, id).history
  {
    assert FramesOk(c.send.Keys, c.log[pn]);
    var (id, seg) := Content(c.log[pn][i]).value;
    assert FrameOk(c.send.Keys, c.log[pn][i]);
    assert seg in SegsOf(c.log[pn], id);
  }

  /** What was sent can be encoded, so it arrives as the same frames. */
  lemma PayloadRoundTrip(c: Conn, pn: nat)
    requires Good(c) && pn in c.log
    ensures DecodeAll(Payload(c.log[pn])) == Done(Wire(c.log[pn]), [])
  {
    var frames := c.log[pn];
    var fs := Wire(frames);
    forall i | 0 <= i < |fs|
      ensures WellFormed(fs[i]) && !fs[i].Padding?
    {
      assert FramesOk(c.send.Keys, frames);
      assert FrameOk(c.send.Keys, frames[i]);
      if Content(frames[i]).Some? {
        InHistory(c, pn, i);
        var id := Content(frames[i]).value.0;
        assert T.Intact(TrackOf(c, id));
        assert T.Authentic(TrackOf(c, id));
      }
    }
    NormalListRoundTrip(fs);
  }

  function Settling(t: T.Stream, r: Target, segs: set<Segment>, keep: set<Segment>): (t': T.Stream) {
    t.(receiver := r.state, open := t.open - (segs - keep))
  }

  /** After the first `n` frames no stream refused one, and only `state` fields moved. */
  ghost predicate Handled(c: Conn, r: Option<map<nat, Target>>) {
    && r.Some? && r.value.Keys <= c.send.Keys
    && forall id :: id in c.send ==>
         && TargetOf(r.value, id).read == TargetOf(c.recv, id).read
         && TargetOf(r.value, id).ended == TargetOf(c.recv, id).ended
  }

  lemma {:induction false} HandleIntact(c: Conn, pn: nat, n: nat, id: nat, keep: set<Segment>)
    requires Ledger(c) && Tracked(c) && pn in c.log && n <= |c.log[pn]| && id in c.send
    ensures var r := Handle(c.recv, Wire(c.log[pn]), n);
            && Handled(c, r)
            && T.Intact(Settling(TrackOf(c, id), TargetOf(r.value, id), SegsOf(c.log[pn][..n], id), keep))
    decreases n
  {
    hide T.Intact, SegsOf, Carried;
    var frames := c.log[pn];
    if n == 0 {
      HandleNone(c, pn, id, keep);
    } else {
      HandleIntact(c, pn, n - 1, id, keep);
      var f := frames[n - 1];
      assert FramesOk(c.send.Keys, frames);
      if Content(f).Some? {
        InHistory(c, pn, n - 1);
        HandleIntact(c, pn, n - 1, Content(f).value.0, keep);
        hide Ledger, Tracked, Handled, Handle, TrackOf;
        HandleStep(c, pn, n, id, keep);
      } else {
        SegsStep(frames, n, id);
        assert SegsOf(frames[..n - 1], id) + {} == SegsOf(frames[..n - 1], id);
        assert FrameOk(c.send.Keys, f) && Wire(frames)[n - 1] == ToFrame(f);
      }
    }
  }

  lemma HandleNone(c: Conn, pn: nat, id: nat, keep: set<Segment>)
    requires Ledger(c) && Tracked(c) && pn in c.log && id in c.send
    ensures var r := Handle(c.recv, Wire(c.log[pn]), 0);
            && Handled(c, r)
            && T.Intact(Settling(TrackOf(c, id), TargetOf(r.value, id), SegsOf(c.log[pn][..0], id), keep))
  {
    hide T.Intact, Carried;
    var t := TrackOf(c, id);
    assert SegsOf(c.log[pn][..0], id) == {};
    assert T.Intact(t) && Settling(t, TargetOf(c.recv, id), {}, keep) == t;
  }

  lemma SegsStep(frames: seq<SentFrame>, n: nat, id: nat)
    requires 0 < n <= |frames|
    ensures var f := frames[n - 1];
            SegsOf(frames[..n], id)
            == SegsOf(frames[..n - 1], id)
               + if Content(f).Some? && Content(f).value.0 == id then {Content(f).value.1} else {}
  {
    assert frames[..n] == frames[..n - 1] + [frames[n - 1]];
    SegsAppend(frames[..n - 1], [frames[n - 1]], id);
    SegsOfOne(frames[n - 1], id);
  }

  lemma HandleStep(c: Conn, pn: nat, n: nat, id: nat, keep: set<Segment>)
    requires pn in c.log && 0 < n <= |c.log[pn]| && id in c.send && Content(c.log[pn][n - 1]).Some?
    requires var (j, seg) := Content(c.log[pn][n - 1]).value; j in c.send && seg in TrackOf(c, j).history
    requires Handled(c, Handle(c.recv, Wire(c.log[pn]), n - 1))
    requires var before := Handle(c.recv, Wire(c.log[pn]), n - 1).value;
             var j := Content(c.log[pn][n - 1]).value.0;
             && T.Intact(Settling(TrackOf(c, id), TargetOf(before, id), SegsOf(c.log[pn][..n - 1], id), keep))
             && T.Intact(Settling(TrackOf(c, j), TargetOf(before, j), SegsOf(c.log[pn][..n - 1], j), keep))
    ensures var r := Handle(c.recv, Wire(c.log[pn]), n);
            && Handled(c, r)
            && T.Intact(Settling(TrackOf(c, id), TargetOf(r.value, id), SegsOf(c.log[pn][..n], id), keep))
  {
    hide T.Intact, SegsOf, Carried, RecvState.Recv;
    SegsStep(c.log[pn], n, id);
    var f := c.log[pn][n - 1];
    var (j, seg) := Content(f).value;
    assert Incoming(Wire(c.log[pn])[n - 1]) == Some((j, seg));
    hide Content, Incoming, ToFrame;
    var before := Handle(c.recv, Wire(c.log[pn]), n - 1).value;
    var target := TargetOf(before, j);
    var mid := Settling(TrackOf(c, j), target, SegsOf(c.log[pn][..n - 1], j), keep);
    T.ReceiveIntact(mid, seg, seg !in keep);
    var r := Handle(c.recv, Wire(c.log[pn]), n);
    assert r == Some(before[j := target.(state := target.state.Recv(seg.offset, seg.data, seg.fin).0)]);
    if j == id {
      assert Settling(TrackOf(c, id), TargetOf(r.value, id), SegsOf(c.log[pn][..n], id), keep)
          == T.DoReceive(mid, seg, seg !in keep);
    } else {
      assert SegsOf(c.log[pn][..n - 1], id) + {} == SegsOf(c.log[pn][..n - 1], id);
    }
  }

  lemma OpenAfter(c: Conn, pn: nat, open: set<nat>, id: nat)
    requires Ledger(c) && id in c.send && pn in c.log && open == OpenPns(c) - {pn}
    ensures var t, keep := TrackOf(c, id), Carried(c.log, open, id);
            t.open - (SegsOf(c.log[pn], id) - keep) == keep
  {
    var t, keep := TrackOf(c, id), Carried(c.log, open, id);
    CarriedMono(c.log, open, OpenPns(c), id);
    forall s | s in t.open && s !in keep
      ensures s in SegsOf(c.log[pn], id)
    {
      var q :| q in OpenPns(c) && q in c.log && s in SegsOf(c.log[q], id);
      assert q != pn ==> q in open;
    }
  }

  lemma HandleAll(c: Conn, pn: nat)
    requires Good(c) && pn in c.log
    ensures OnPayload(c.recv, Payload(c.log[pn])) == Handle(c.recv, Wire(c.log[pn]), |c.log[pn]|)
    ensures Handled(c, OnPayload(c.recv, Payload(c.log[pn])))
  {
    PayloadRoundTrip(c, pn);
    var frames := c.log[pn];
    hide T.Intact, DecodeAll, Payload;
    if exists id :: id in c.send {
      var some :| some in c.send;
      HandleIntact(c, pn, |frames|, some, {});
    } else {
      assert FramesOk(c.send.Keys, frames);
      NoStreams(c.recv, frames, |frames|);
    }
  }

  lemma DeliverTracked(c: Conn, pn: nat)
    requires Good(c) && pn in c.log
    ensures Tracked(DoDeliver(c, pn))
  {
    HandleAll(c, pn);
    InsertCorrect(c.received, pn);
    var c' := DoDeliver(c, pn);
    var frames := c.log[pn];
    assert OpenPns(c') == OpenPns(c) - {pn} && KeptPns(c') == KeptPns(c);
    assert frames[..|frames|] == frames;
    hide T.Intact, Payload, Carried, SegsOf, OpenPns, KeptPns, Handle, OnPayload, Records, Acknowledged, Finished;
    forall id | id in c'.send
      ensures T.Intact(TrackOf(c', id))
    {
      var keep := Carried(c.log, OpenPns(c'), id);
      HandleIntact(c, pn, |frames|, id, keep);
      OpenAfter(c, pn, OpenPns(c'), id);
      assert TrackOf(c', id) == Settling(TrackOf(c, id), TargetOf(c'.recv, id), SegsOf(frames, id), keep);
    }
  }

  lemma DeliverRecords(c: Conn, pn: nat)
    requires Good(c) && pn in c.log && OnPayload(c.recv, Payload(c.log[pn])).Some?
    ensures Records(DoDeliver(c, pn)) && Acknowledged(DoDeliver(c, pn))
  {
    InsertCorrect(c.received, pn);
    hide Tracked, Ledger, Finished, Payload, OnPayload, Has, InsertPn, Canonical, WellFormed, ExpandAck;
    var c' := DoDeliver(c, pn);
    forall i | 0 <= i < |c'.acks|
      ensures Honest(c'.acks[i], c'.received)
    {
      assert Honest(c.acks[i], c.received);
    }
  }

  lemma DeliverGood(c: Conn, pn: nat)
    requires Good(c)
    ensures Good(DoDeliver(c, pn))
  {
    hide Tracked, Payload, OnPayload, Handle, FramesOk, Records, Acknowledged, InsertPn;
    if pn in c.log {
      HandleAll(c, pn);
      DeliverTracked(c, pn);
      DeliverRecords(c, pn);
      var c' := DoDeliver(c, pn);
      assert forall id :: id in c'.recv ==> TargetOf(c'.recv, id) == c'.recv[id];
    }
  }

  lemma {:induction false} NoStreams(recv: map<nat, Target>, frames: seq<SentFrame>, n: nat)
    requires n <= |frames| && forall i :: 0 <= i < |frames| ==> frames[i].SentPing?
    ensures Handle(recv, Wire(frames), n) == Some(recv)
  {
    if n > 0 {
      NoStreams(recv, frames, n - 1);
      assert Wire(frames)[n - 1] == ToFrame(frames[n - 1]);
    }
  }

  // ------------------------------------------------------------- acknowledgements

  /** ACKs leave every stream as it was. */
  lemma SameTracks(c: Conn, c': Conn)
    requires Tracked(c) && c'.send == c.send && c'.log == c.log && c'.recv == c.recv
    requires OpenPns(c') == OpenPns(c) && KeptPns(c') == KeptPns(c)
    ensures Tracked(c')
  {
    hide T.Intact, Carried, OpenPns, KeptPns;
    forall id | id in c'.send
      ensures T.Intact(TrackOf(c', id))
    {
      assert TrackOf(c', id) == TrackOf(c, id);
    }
  }

  lemma SendAckGood(c: Conn, delay: nat)
    requires Good(c)
    ensures Good(DoSendAck(c, delay))
  {
    hide Tracked, Records, WellFormed, FramesOk, Has, ExpandAck;
    var c' := DoSendAck(c, delay);
    if c' != c {
      TopHas(c.received);
      AckWellFormed(c.received, delay);
      AckDenotes(c.received, delay);
      assert Honest(ToAck(c.received, delay).value, c.received);
      hide Honest, Canonical, ToAck;
      assert Records(c') by {
        SameRecord(c, c');
      }
      SameTracks(c, c');
    }
  }

  lemma SameRecord(c: Conn, c': Conn)
    requires Records(c) && c'.sent == c.sent && c'.log == c.log && c'.acked == c.acked && c'.received == c.received
    ensures Records(c')
  {
  }

  /** An honest ACK settles outstanding packets, all of which had been received. */
  lemma DeliverAckSets(c: Conn, index: nat)
    requires Good(c) && index < |c.acks|
    ensures var c' := DoDeliverAck(c, index);
            && c' == c.(sent := c'.sent, acked := c'.acked)
            && Records(c') && OpenPns(c') == OpenPns(c) && KeptPns(c') == KeptPns(c)
  {
    hide Tracked, Ledger, Finished, Canonical, DecodeFrame, Encode, WellFormed, ApplyAck, ExpandAck, Has;
    var f := c.acks[index];
    assert Honest(f, c.received);
    RoundTrip(f, []);
    assert Encode(f) + [] == Encode(f);
    OnAckExact(c.sent, f.largest, f.firstRange, f.ranges);
    var (sent, outcome) := ApplyAck(c.sent, f.largest, f.firstRange, f.ranges);
    NewlyAcked(c.sent.sent, sent.sent, outcome.newlyAcked);
    hide Moved, Honest;
    AckSets(c, DoDeliverAck(c, index), f);
  }

  /** Records move from outstanding to acknowledged, and all of them had been received. */
  lemma AckSets(c: Conn, c': Conn, f: Frame)
    requires f.Ack? && Records(c) && c'.log == c.log && c'.received == c.received
    requires forall pn: nat :: Has(ExpandAck(f.largest, f.firstRange, f.ranges), pn) ==> Has(c.received, pn)
    requires Keyed(c'.sent.sent)
    requires forall pn :: pn in c'.sent.sent ==> pn in c.sent.sent && c'.sent.sent[pn] == c.sent.sent[pn]
    requires forall pn: nat :: pn in c'.sent.sent
                          <==> pn in c.sent.sent && !Has(ExpandAck(f.largest, f.firstRange, f.ranges), pn)
    requires c'.acked == c.acked + (c.sent.sent.Keys - c'.sent.sent.Keys)
    ensures Records(c') && OpenPns(c') == OpenPns(c) && KeptPns(c') == KeptPns(c)
  {
    hide Has, ExpandAck;
  }

  lemma NewlyAcked(sent: Store, after: Store, out: seq<SentPacket>)
    requires Keyed(sent) && Moved(sent, after, out)
    ensures (set p | p in out :: p.number) == sent.Keys - after.Keys
  {
    forall pn | pn in sent && pn !in after
      ensures exists p :: p in out && p.number == pn
    {
      assert sent[pn] in out;
    }
  }

  lemma DeliverAckGood(c: Conn, index: nat)
    requires Good(c)
    ensures Good(DoDeliverAck(c, index))
  {
    hide Tracked, Records, Acknowledged, FramesOk;
    if index < |c.acks| {
      DeliverAckSets(c, index);
      hide DoDeliverAck;
      SameTracks(c, DoDeliverAck(c, index));
      SameAcknowledged(c, DoDeliverAck(c, index));
    }
  }

  // --------------------------------------------------------------- loss and probes

  lemma {:induction false} RequeueKeys(send: map<nat, Source>, frames: seq<SentFrame>)
    ensures var send' := RequeueAll(send, frames);
            && send'.Keys == send.Keys
            && (forall id :: id in send ==>
                  && send'[id].written == send[id].written
                  && send'[id].state == send[id].state.(resend := send'[id].state.resend))
  {
    if frames != [] {
      RequeueKeys(send, frames[..|frames| - 1]);
    }
  }

  lemma {:induction false} RequeueAllIntact(send: map<nat, Source>, frames: seq<SentFrame>, id: nat, t: T.Stream)
    requires id in send && t.sender == send[id].state && T.Intact(t) && SegsOf(frames, id) <= t.history
    ensures id in RequeueAll(send, frames)
    ensures T.Intact(t.(sender := RequeueAll(send, frames)[id].state))
    ensures forall s :: s in SegsOf(frames, id) ==> s in RequeueAll(send, frames)[id].state.resend
  {
    hide T.Intact, RequeueOne;
    if frames == [] {
      assert t.(sender := send[id].state) == t && SegsOf([], id) == {};
    } else {
      var front, f := frames[..|frames| - 1], frames[|frames| - 1];
      SegsLast(frames, id);
      RequeueKeys(send, front);
      hide SegsOf;
      RequeueAllIntact(send, front, id, t);
      RequeueOneIntact(RequeueAll(send, front), f, id, t.(sender := RequeueAll(send, front)[id].state));
    }
  }

  lemma SegsLast(frames: seq<SentFrame>, id: nat)
    requires frames != []
    ensures SegsOf(frames, id)
         == SegsOf(frames[..|frames| - 1], id) + SegsOf([frames[|frames| - 1]], id)
  {
    var front, f := frames[..|frames| - 1], frames[|frames| - 1];
    assert frames == front + [f];
    SegsAppend(front, [f], id);
  }

  lemma RequeueOneIntact(send: map<nat, Source>, f: SentFrame, id: nat, t: T.Stream)
    requires id in send && t.sender == send[id].state && T.Intact(t) && SegsOf([f], id) <= t.history
    ensures id in RequeueOne(send, f)
    ensures T.Intact(t.(sender := RequeueOne(send, f)[id].state))
    ensures forall s :: s in send[id].state.resend ==> s in RequeueOne(send, f)[id].state.resend
    ensures forall s :: s in SegsOf([f], id) ==> s in RequeueOne(send, f)[id].state.resend
  {
    hide T.Intact;
    SegsOfOne(f, id);
    hide SegsOf, Content;
    if Content(f).Some? && Content(f).value.0 == id {
      var seg := Content(f).value.1;
      T.RequeueIntact(t, seg);
      assert RequeueOne(send, f)[id].state == t.sender.Requeue(seg);
      assert t.sender.Requeue(seg).resend == t.sender.resend + [seg];
    } else {
      assert RequeueOne(send, f)[id] == send[id];
      assert t.(sender := send[id].state) == t;
    }
  }

  lemma {:induction false} FramesOfHas(packets: seq<SentPacket>, p: SentPacket, id: nat)
    ensures p in packets ==> SegsOf(p.frames, id) <= SegsOf(FramesOf(packets), id)
  {
    if packets != [] {
      var front, last := packets[..|packets| - 1], packets[|packets| - 1];
      assert packets == front + [last];
      FramesOfHas(front, p, id);
      SegsAppend(FramesOf(front), last.frames, id);
    }
  }

  lemma {:induction false} FramesOfSent(c: Conn, packets: seq<SentPacket>, id: nat)
    requires Records(c) && forall i :: 0 <= i < |packets| ==>
                             packets[i].number in c.sent.sent && c.sent.sent[packets[i].number] == packets[i]
    ensures SegsOf(FramesOf(packets), id) <= Carried(c.log, c.log.Keys, id)
  {
    if packets == [] {
      assert SegsOf([], id) == {};
    } else {
      var front, last := packets[..|packets| - 1], packets[|packets| - 1];
      FramesOfSent(c, front, id);
      SegsAppend(FramesOf(front), last.frames, id);
      assert last.number in c.log && last.frames == c.log[last.number];
      hide SegsOf;
      assert SegsOf(last.frames, id) <= Carried(c.log, c.log.Keys, id);
    }
  }

  /** The packets that loss detection drops have all their segments queued again. */
  lemma LostCarried(c: Conn, pns: set<nat>, pns': set<nat>, lost: seq<SentPacket>, id: nat)
    requires Records(c) && pns' <= pns
    requires forall pn :: pn in pns && pn !in pns' ==> pn in c.sent.sent && c.sent.sent[pn] in lost
    ensures Carried(c.log, pns', id) <= Carried(c.log, pns, id)
    ensures forall s :: s in Carried(c.log, pns, id) - Carried(c.log, pns', id) ==> s in SegsOf(FramesOf(lost), id)
  {
    hide SegsOf;
    CarriedMono(c.log, pns', pns, id);
    forall s | s in Carried(c.log, pns, id) - Carried(c.log, pns', id)
      ensures s in SegsOf(FramesOf(lost), id)
    {
      var pn :| pn in pns && pn in c.log && s in SegsOf(c.log[pn], id);
      assert pn !in pns';
      FramesOfHas(lost, c.sent.sent[pn], id);
    }
  }

  lemma TimeoutTracked(c: Conn, now: nat, delay: nat)
    requires Good(c)
    ensures Tracked(DoTimeout(c, now, delay))
  {
    hide T.Intact, Ledger, Acknowledged, Finished;
    var c' := DoTimeout(c, now, delay);
    var (sent, lost, _) := FindLost(c.sent, now, delay);
    DetectLostExact(c.sent, now, delay);
    RequeueKeys(c.send, FramesOf(lost));
    hide FindLost, Doomed;
    forall id | id in c'.send
      ensures T.Intact(TrackOf(c', id))
    {
      var t := TrackOf(c, id);
      FramesOfSent(c, lost, id);
      RequeueAllIntact(c.send, FramesOf(lost), id, t);
      LostCarried(c, OpenPns(c), OpenPns(c'), lost, id);
      LostCarried(c, KeptPns(c), KeptPns(c'), lost, id);
      var mid := t.(sender := c'.send[id].state);
      var t' := TrackOf(c', id);
      hide SegsOf, Carried, Records, Moved, FramesOf;
      T.ForgetIntact(mid, t'.open, t'.kept);
      assert t' == mid.(open := t'.open, kept := t'.kept);
    }
  }

  lemma TimeoutGood(c: Conn, now: nat, delay: nat)
    requires Good(c)
    ensures Good(DoTimeout(c, now, delay))
  {
    hide Tracked, Acknowledged, FramesOk;
    TimeoutTracked(c, now, delay);
    DetectLostExact(c.sent, now, delay);
    RequeueKeys(c.send, FramesOf(FindLost(c.sent, now, delay).1));
    hide FindLost, Doomed, RequeueAll, FramesOf;
    var c' := DoTimeout(c, now, delay);
    assert Acknowledged(c') by {
      SameAcknowledged(c, c');
    }
  }

  lemma SameAcknowledged(c: Conn, c': Conn)
    requires Acknowledged(c) && c'.log == c.log && c'.received == c.received && c'.acks == c.acks
    ensures Acknowledged(c')
  {
  }

  lemma ProbeTracked(c: Conn, pn: nat)
    requires Tracked(c) && Records(c) && CanProbe(c.sent.sent, pn)
    ensures Tracked(DoProbe(c, pn))
  {
    hide T.Intact, SegsOf, RequeueAll, OpenPns, KeptPns;
    var c' := DoProbe(c, pn);
    var frames := c.sent.sent[pn].frames;
    RequeueKeys(c.send, frames);
    forall id | id in c'.send
      ensures T.Intact(TrackOf(c', id))
    {
      assert SegsOf(c.log[pn], id) <= Carried(c.log, c.log.Keys, id);
      RequeueAllIntact(c.send, frames, id, TrackOf(c, id));
      SameSets(c, c');
      hide Carried;
      assert TrackOf(c', id) == TrackOf(c, id).(sender := c'.send[id].state);
    }
  }

  lemma SameSets(c: Conn, c': Conn)
    requires c'.sent == c.sent && c'.received == c.received && c'.acked == c.acked
    ensures OpenPns(c') == OpenPns(c) && KeptPns(c') == KeptPns(c)
  {
  }

  lemma ProbeGood(c: Conn, pn: nat)
    requires Good(c)
    ensures Good(DoProbe(c, pn))
  {
    hide Tracked, RequeueAll, FramesOk, Records, Acknowledged;
    if CanProbe(c.sent.sent, pn) {
      ProbeTracked(c, pn);
      RequeueKeys(c.send, c.sent.sent[pn].frames);
      SameRecords(c, DoProbe(c, pn));
    }
  }

  /** The segments of stream `id` among the frames, in order. */
  function SegList(frames: seq<SentFrame>, id: nat): (segs: seq<Segment>) {
    if frames == [] then []
    else
      SegList(frames[..|frames| - 1], id)
      + match Content(frames[|frames| - 1]) case Some((j, seg)) => (if j == id then [seg] else []) case None => []
  }

  lemma {:induction false} RequeueAllAppends(send: map<nat, Source>, frames: seq<SentFrame>, id: nat)
    requires id in send
    ensures id in RequeueAll(send, frames)
    ensures var s := send[id].state;
            RequeueAll(send, frames)[id].state == s.(resend := s.resend + SegList(frames, id))
  {
    if frames == [] {
      assert send[id].state.resend + [] == send[id].state.resend;
    } else {
      var front, f := frames[..|frames| - 1], frames[|frames| - 1];
      RequeueAllAppends(send, front, id);
      hide Content;
      var s := send[id].state;
      assert forall seg :: s.resend + SegList(front, id) + [seg] == s.resend + (SegList(front, id) + [seg]);
      assert SegList(front, id) + [] == SegList(front, id);
    }
  }

  /** The segments of stream `id` in the packets, packet by packet. */
  function SegsOfPackets(packets: seq<SentPacket>, id: nat): (segs: seq<Segment>) {
    if packets == [] then []
    else SegsOfPackets(packets[..|packets| - 1], id) + SegList(packets[|packets| - 1].frames, id)
  }

  lemma {:induction false} SegListAppend(a: seq<SentFrame>, b: seq<SentFrame>, id: nat)
    ensures SegList(a + b, id) == SegList(a, id) + SegList(b, id)
    decreases |b|
  {
    hide Content;
    var ab := a + b;
    if b == [] {
      assert ab == a;
    } else {
      assert ab[..|ab| - 1] == a + b[..|b| - 1];
      SegListAppend(a, b[..|b| - 1], id);
    }
  }

  lemma {:induction false} SegListPackets(packets: seq<SentPacket>, id: nat)
    ensures SegList(FramesOf(packets), id) == SegsOfPackets(packets, id)
  {
    if packets != [] {
      var front, last := packets[..|packets| - 1], packets[|packets| - 1];
      SegListPackets(front, id);
      SegListAppend(FramesOf(front), last.frames, id);
    }
  }

  /**
   * Exactly what loss detection does to a stream: the segments of the packets it drops are
   * queued again, oldest packet first and in their order within it, behind what was queued.
   */
  lemma LostQueued(c: Conn, now: nat, delay: nat, id: nat)
    requires Good(c) && id in c.send
    ensures var c' := DoTimeout(c, now, delay);
            var lost := FindLost(c.sent, now, delay).1;
            && id in c'.send && AscendingNumbers(lost) && Moved(c.sent.sent, c'.sent.sent, lost)
            && c'.send[id].state
               == c.send[id].state.(resend := c.send[id].state.resend + SegsOfPackets(lost, id))
  {
    hide Ledger, Acknowledged, Tracked, Finished;
    var lost := FindLost(c.sent, now, delay).1;
    DetectLostExact(c.sent, now, delay);
    LostInOrder(c.sent, now, delay);
    RequeueAllAppends(c.send, FramesOf(lost), id);
    SegListPackets(lost, id);
    hide FindLost, Doomed, RequeueAll, FramesOf, SegList, Moved, AscendingNumbers;
  }

  /** A probe queues the segments of one outstanding packet, and keeps its record. */
  lemma ProbeQueued(c: Conn, pn: nat, id: nat)
    requires Good(c) && id in c.send && CanProbe(c.sent.sent, pn)
    ensures var c' := DoProbe(c, pn);
            && c' == c.(send := c'.send) && id in c'.send && pn in c.log
            && c'.send[id].state == c.send[id].state.(resend := c.send[id].state.resend + SegList(c.log[pn], id))
  {
    hide Ledger, Acknowledged, Tracked, Finished;
    RequeueAllAppends(c.send, c.sent.sent[pn].frames, id);
    hide RequeueAll, SegList;
  }

  // ----------------------------------------------------------------------- reading

  lemma ReadGood(c: Conn, id: nat)
    requires Good(c)
    ensures Good(DoRead(c, id))
  {
    hide T.Intact, FramesOk, Carried, Records, Acknowledged;
    var c' := DoRead(c, id);
    if id in c.recv {
      SameRecords(c, c');
      T.ReadIntact(TrackOf(c, id));
      assert TrackOf(c', id) == T.DoRead(TrackOf(c, id));
      T.ReadIsPrefix(TrackOf(c', id));
      assert c.recv[id].ended ==> c'.recv[id].read == c.recv[id].read;
      forall j | j in c'.send
        ensures T.Intact(TrackOf(c', j))
      {
        assert j != id ==> TrackOf(c', j) == TrackOf(c, j);
      }
    }
  }

  // --------------------------------------------------------------------- every run

  lemma NextGood(c: Conn, step: Step)
    requires Good(c)
    ensures Good(Next(c, step))
  {
    hide Good, DoOpen, DoWrite, DoTransmit, DoDeliver, DoSendAck, DoDeliverAck, DoTimeout, DoProbe, DoRead;
    match step
    case Open(id) => OpenGood(c, id);
    case Write(id, data, fin) => WriteGood(c, id, data, fin);
    case Transmit(picks, ping, now, size) => TransmitGood(c, picks, ping, now, size);
    case Deliver(pn) => DeliverGood(c, pn);
    case SendAck(delay) => SendAckGood(c, delay);
    case DeliverAck(index) => DeliverAckGood(c, index);
    case Timeout(now, delay) => TimeoutGood(c, now, delay);
    case Probe(pn) => ProbeGood(c, pn);
    case Read(id) => ReadGood(c, id);
  }

  lemma {:induction false} RunGood(steps: seq<Step>)
    ensures Good(Run(steps))
  {
    if steps != [] {
      RunGood(steps[..|steps| - 1]);
      hide Good, Next;
      NextGood(Run(steps[..|steps| - 1]), steps[|steps| - 1]);
    }
  }

  /**
   * Safety. In every run no frame is ever refused, what an application has read is a
   * prefix of what the peer wrote, and an end is only reported when all was read.
   */
  lemma PrefixSafety(steps: seq<Step>, id: nat)
    ensures var c := Run(steps);
            && !c.failed
            && (id in c.recv ==>
                  && id in c.send && c.recv[id].read <= c.send[id].written
                  && (c.recv[id].ended ==> c.send[id].state.finSent && c.recv[id].read == c.send[id].written))
  {
    RunGood(steps);
    var c := Run(steps);
    hide Run, T.Intact, Records, Acknowledged, FramesOk;
    if id in c.recv {
      T.ReadIsPrefix(TrackOf(c, id));
    }
  }

  /** A packet the sender still knows, outstanding or acknowledged, carries byte `x`. */
  ghost predicate InPacket(c: Conn, id: nat, x: nat) {
    exists s :: s in Carried(c.log, KeptPns(c), id) && s.offset <= x < s.End()
  }

  ghost predicate InQueue(s: SendState, x: nat) {
    exists i :: 0 <= i < |s.resend| && s.resend[i].offset <= x < s.resend[i].End()
  }

  /** What the invariant says of the sending side of one stream. */
  lemma StreamOf(c: Conn, id: nat)
    requires Good(c) && id in c.send
    ensures T.Intact(TrackOf(c, id)) && T.FinAccounted(TrackOf(c, id))
    ensures Faithful(c.send[id].state, c.send[id].written)
  {
    hide Ledger, Records, Acknowledged, Finished, Carried, OpenPns, KeptPns;
    assert T.Intact(TrackOf(c, id));
    assert T.Authentic(TrackOf(c, id));
  }

  /**
   * No orphans. In every run, every byte an application wrote is still unsent, queued for
   * re-sending, in an outstanding packet, or in an acknowledged one; so is the FIN.
   */
  lemma NoOrphan(steps: seq<Step>, id: nat)
    requires id in Run(steps).send
    ensures var c := Run(steps);
            var s := c.send[id].state;
            && (forall x: nat :: x < |c.send[id].written| ==>
                  || (s.base <= x < s.base + |s.buf| && s.buf[x - s.base] == c.send[id].written[x])
                  || InQueue(s, x) || InPacket(c, id, x))
            && (s.fin ==> !s.finSent || T.FinQueued(s.resend) || T.FinIn(Carried(c.log, KeptPns(c), id)))
  {
    RunGood(steps);
    hide Run, KeptPns, Carried, OpenPns, Good, T.Intact;
    var c := Run(steps);
    var t := TrackOf(c, id);
    StreamOf(c, id);
    forall x: nat | x < |c.send[id].written| && x < c.send[id].state.base
      ensures InQueue(c.send[id].state, x) || InPacket(c, id, x)
    {
      T.NothingForgotten(t, x);
    }
  }

  /**
   * In every run every segment that is queued, and every segment any packet ever carried,
   * is the written stream at its offset, and carries the end only where the stream ends.
   */
  lemma SegmentsGenuine(steps: seq<Step>, id: nat)
    requires id in Run(steps).send
    ensures var c := Run(steps);
            var Source(w, s) := c.send[id];
            && (forall i :: 0 <= i < |s.resend| ==> Genuine(s.resend[i], w, s.finSent))
            && (forall pn, seg :: pn in c.log && seg in SegsOf(c.log[pn], id) ==> Genuine(seg, w, s.finSent))
  {
    RunGood(steps);
    var c := Run(steps);
    var t := TrackOf(c, id);
    assert T.Intact(t);
    assert T.Authentic(t);
    hide Run, Good, T.Intact, OpenPns, KeptPns;
    forall pn, seg | pn in c.log && seg in SegsOf(c.log[pn], id)
      ensures Genuine(seg, c.send[id].written, c.send[id].state.finSent)
    {
      assert seg in t.history;
    }
  }

  /** Acknowledged means received: no ACK in any run names a packet that never arrived. */
  lemma AckedWasReceived(steps: seq<Step>, pn: nat)
    ensures var c := Run(steps); pn in c.acked ==> Has(c.received, pn) && pn in c.log
  {
    RunGood(steps);
    hide Run, Tracked, Ledger;
  }

  /** No outstanding packet carries data of stream `id`. */
  ghost predicate Landed(c: Conn, id: nat) {
    forall pn :: pn in c.sent.sent ==> SegsOf(c.sent.sent[pn].frames, id) == {}
  }

  /**
   * Delivery. In every run, when a stream has nothing pending and no outstanding packet
   * carries its data, one read hands the application the whole stream, with its end.
   */
  lemma QuiescentDelivery(steps: seq<Step>, id: nat)
    requires id in Run(steps).send
    requires !Run(steps).send[id].state.HasPending() && Landed(Run(steps), id)
    ensures var c := Run(steps);
            var target := TargetOf(c.recv, id);
            && target.state.buffer.pending == map[]
            && target.read + target.state.Read().1 == c.send[id].written
            && (c.send[id].state.fin ==> target.state.Read().2)
  {
    RunGood(steps);
    var c := Run(steps);
    var t := TrackOf(c, id);
    assert T.Intact(t);
    assert t.open == {} by {
      assert Records(c);
    }
    assert Faithful(t.sender, t.written);
    hide Run, Good, T.Intact, Carried, OpenPns, KeptPns;
    T.AllDelivered(t);
  }

  /**
   * The handshake. In every run TLS has received a prefix of it, and once nothing of it is
   * pending or in an outstanding packet, all of it.
   */
  lemma HandshakeDelivery(steps: seq<Step>)
    requires CRYPTO in Run(steps).send
    ensures var c := Run(steps);
            var target := TargetOf(c.recv, CRYPTO);
            && target.read <= c.send[CRYPTO].written
            && (!c.send[CRYPTO].state.HasPending() && Landed(c, CRYPTO) ==>
                  target.read + target.state.Read().1 == c.send[CRYPTO].written)
  {
    RunGood(steps);
    var c := Run(steps);
    T.ReadIsPrefix(TrackOf(c, CRYPTO));
    if !c.send[CRYPTO].state.HasPending() && Landed(c, CRYPTO) {
      QuiescentDelivery(steps, CRYPTO);
    }
  }
}
