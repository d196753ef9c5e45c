/**
 * Which sent bytes are accounted for. A view of one stream lists the byte ranges a
 * receiver holds and the ranges still on their way. A byte range is replaced, at the
 * receiver, by a later and shorter one with the same start, so it is not enough to know
 * that every byte is held or on its way: that must hold from every cut on, using only
 * ranges that start at or after the cut.
 */
module Coverage {
  import opened Common

  /** The bytes `start..end`. */
  type Span = (nat, nat)

  /**
   * `base` bytes were sent; the receiver delivered `off` of them and buffers the ranges
   * `start -> end` of `pend`; the ranges in `live` will still arrive; `cuts` are 0 and
   * the ends of all ranges ever sent.
   */
  datatype View = View(base: nat, off: nat, pend: map<nat, nat>, live: set<Span>, cuts: set<nat>)

  predicate Buffers(pend: map<nat, nat>, p: nat, x: nat, s: nat) {
    s in pend && p <= s <= x < pend[s]
  }

  predicate Carries(l: Span, p: nat, x: nat) {
    p <= l.0 <= x < l.1
  }

  ghost predicate InPend(v: View, p: nat, x: nat) {
    exists s: nat :: Buffers(v.pend, p, x, s)
  }

  ghost predicate InLive(v: View, p: nat, x: nat) {
    exists l :: l in v.live && Carries(l, p, x)
  }

  /** Byte `x` is delivered, or held or on its way in a range that starts at or after `p`. */
  ghost predicate Accounted(v: View, p: nat, x: nat) {
    x < v.off || InPend(v, p, x) || InLive(v, p, x)
  }

  ghost predicate Sound(v: View) {
    && (forall p :: p in v.cuts ==> p <= v.base)
    && (forall p: nat, x: nat :: p in v.cuts && p <= x < v.base ==> Accounted(v, p, x))
  }

  /** Everything in `live`, except possibly `gone`, is still in `live'`. */
  predicate Keeps(live: set<Span>, live': set<Span>, gone: Span) {
    forall l :: l in live && l != gone ==> l in live'
  }

  lemma MoreLive(v: View, live': set<Span>)
    requires Sound(v) && v.live <= live'
    ensures Sound(v.(live := live'))
  {
    var v' := v.(live := live');
    forall p: nat, x: nat | p in v'.cuts && p <= x < v'.base
      ensures Accounted(v', p, x)
    {
      assert Accounted(v, p, x);
      if InLive(v, p, x) {
        var l :| l in v.live && Carries(l, p, x);
        assert l in v'.live;
      } else if InPend(v, p, x) {
        var s: nat :| Buffers(v.pend, p, x, s);
        assert Buffers(v'.pend, p, x, s);
      }
    }
  }

  /** Sending the next `n` fresh bytes. */
  lemma SendFresh(v: View, n: nat, live': set<Span>)
    requires Sound(v) && v.live + {(v.base, v.base + n)} <= live'
    ensures Sound(v.(base := v.base + n, live := live', cuts := v.cuts + {v.base + n}))
  {
    MoreLive(v, live');
    var v1 := v.(live := live');
    var v' := v.(base := v.base + n, live := live', cuts := v.cuts + {v.base + n});
    var next := (v.base, v.base + n);
    forall p: nat, x: nat | p in v'.cuts && p <= x < v'.base
      ensures Accounted(v', p, x)
    {
      if x >= v.base {
        assert next in v'.live && Carries(next, p, x);
      } else {
        assert Accounted(v1, p, x);
        SameLiveAndPend(v1, v', p, x);
      }
    }
  }

  lemma SameLiveAndPend(v: View, v': View, p: nat, x: nat)
    requires Accounted(v, p, x) && v.off <= v'.off && v.pend == v'.pend && v.live == v'.live
    ensures Accounted(v', p, x)
  {
    if InPend(v, p, x) {
      var s: nat :| Buffers(v.pend, p, x, s);
      assert Buffers(v'.pend, p, x, s);
    }
  }

  /** Splitting a range that is still to be sent makes its middle a new cut. */
  lemma SplitLive(v: View, o: nat, m: nat, e: nat, live': set<Span>)
    requires Sound(v) && o <= m <= e && e in v.cuts
    requires Keeps(v.live, live', (o, e)) && (o, m) in live' && (m, e) in live'
    ensures Sound(v.(live := live', cuts := v.cuts + {m}))
  {
    var v' := v.(live := live', cuts := v.cuts + {m});
    forall p: nat, x: nat | p in v'.cuts && p <= x < v'.base
      ensures Accounted(v', p, x)
    {
      if p !in v.cuts && x < e {
        assert (m, e) in v'.live && Carries((m, e), p, x);
      } else {
        var q := if p in v.cuts then p else e;
        assert Accounted(v, q, x);
        SplitKeeps(v, v', o, m, e, q, p, x);
      }
    }
  }

  lemma SplitKeeps(v: View, v': View, o: nat, m: nat, e: nat, q: nat, p: nat, x: nat)
    requires Accounted(v, q, x) && p <= q && o <= m <= e && v'.off == v.off && v'.pend == v.pend
    requires Keeps(v.live, v'.live, (o, e)) && (o, m) in v'.live && (m, e) in v'.live
    ensures Accounted(v', p, x)
  {
    if x >= v.off {
      if InPend(v, q, x) {
        var s: nat :| Buffers(v.pend, q, x, s);
        assert Buffers(v'.pend, p, x, s);
      } else {
        var l :| l in v.live && Carries(l, q, x);
        if l != (o, e) {
          assert l in v'.live && Carries(l, p, x);
        } else if x < m {
          assert (o, m) in v'.live && Carries((o, m), p, x);
        } else {
          assert (m, e) in v'.live && Carries((m, e), p, x);
        }
      }
    }
  }

  /**
   * How the receiver's ranges change when `o..e` arrives: the range at start `o` may be
   * replaced by a shorter one, other ranges stay unless delivered.
   */
  predicate Arrival(v: View, v': View, o: nat, e: nat) {
    && v'.base == v.base && v'.cuts == v.cuts && v.off <= v'.off
    && (forall s :: s in v.pend && s != o ==> (s in v'.pend && v'.pend[s] == v.pend[s]) || v.pend[s] <= v'.off)
    && (e <= v'.off || (o in v'.pend && v'.pend[o] == e))
    && Keeps(v.live, v'.live, (o, e))
  }

  /**
   * The heart of the argument: a replaced range only loses bytes from the cut `e` on, and
   * those are accounted for by ranges that start at or after `e`.
   */
  lemma Arrive(v: View, v': View, o: nat, e: nat)
    requires Sound(v) && o < e && e in v.cuts && Arrival(v, v', o, e)
    ensures Sound(v')
  {
    forall p: nat, x: nat | p in v'.cuts && p <= x < v'.base
      ensures Accounted(v', p, x)
    {
      assert Accounted(v, p, x);
      if x < v'.off {
      } else if p <= o <= x < e {
        assert Buffers(v'.pend, p, x, o);
      } else if x >= e && InPend(v, p, x) && Buffers(v.pend, p, x, o) {
        assert Accounted(v, e, x);
        ArriveKeeps(v, v', o, e, e, p, x);
      } else {
        ArriveKeeps(v, v', o, e, p, p, x);
      }
    }
  }

  lemma ArriveKeeps(v: View, v': View, o: nat, e: nat, q: nat, p: nat, x: nat)
    requires Arrival(v, v', o, e) && o < e && Accounted(v, q, x) && p <= q && x >= v'.off
    requires q == e || !(q <= o <= x < e)
    requires q == e || !Buffers(v.pend, q, x, o)
    ensures Accounted(v', p, x)
  {
    if InPend(v, q, x) {
      var s: nat :| Buffers(v.pend, q, x, s);
      assert s != o;
      assert Buffers(v'.pend, p, x, s);
    } else {
      var l :| l in v.live && Carries(l, q, x);
      assert l != (o, e);
      assert l in v'.live && Carries(l, p, x);
    }
  }

  /** With nothing left to arrive and nothing deliverable buffered, all was delivered. */
  lemma Quiescent(v: View)
    requires Sound(v) && 0 in v.cuts
    requires forall l :: l in v.live ==> l.0 == l.1
    requires forall s :: s in v.pend ==> s > v.off
    ensures v.off >= v.base
  {
    assert v.off < v.base ==> Accounted(v, 0, v.off);
  }
}
