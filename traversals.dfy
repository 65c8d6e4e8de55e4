/**
 * What the recursive traversals of the layer tree compute, as functions of
 * the arena's maps: the world transformation built from the parent chain,
 * the alpha accumulated along it, and the skeleton steps `simulate` issues.
 */
module Traversals {
  import opened Geometry
  import opened Hierarchy

  /** A layer's own parameters. */
  datatype Params = Params(position: Vec3, offset: Vec3, scale: real, angle: Angle3, alpha: real)

  /**
   * A new layer's parameters: unit scale and alpha as the constructor
   * assigns them; position, pivot and angle as the default vector and
   * angle constructors leave them, taken to be zero.
   */
  const DefaultParams := Params(Zero, Zero, 1.0, NoRotation, 1.0)

  /** The per-layer fields besides the tree links and the cached transformation. */
  datatype Attrs = Attrs(params: Params, visible: bool, name: string)

  /** The four operations a layer with parameters `q` contributes. */
  function LocalTransform(q: Params): Transform
  {
    LocalOps(q.position, q.offset, q.scale, q.angle)
  }

  /**
   * The world transformation of `n`: its own four operations, then those of
   * its parent, its grandparent, ... up to a layer without a parent.
   */
  ghost function World(par: Links, attrs: map<nat, Attrs>, rank: map<nat, nat>, top: nat, n: nat): Transform
    requires ParentRanked(par, rank, top) && par.Keys <= attrs.Keys && n in par
    decreases top - rank[n]
  {
    LocalTransform(attrs[n].params) + match par[n] case None => [] case Some(p) => World(par, attrs, rank, top, p)
  }

  /** Behind a block of four operations, block `k` is block `k - 1` of what follows. */
  lemma BlockShift(head: Transform, rest: Transform, k: nat)
    requires |head| == 4 && 1 <= k && 4 * k + 4 <= |head + rest|
    ensures (head + rest)[4 * k..4 * k + 4] == rest[4 * (k - 1)..4 * (k - 1) + 4]
  {
    var w, j := head + rest, 4 * (k - 1);
    assert w[4..] == rest;
    assert w[4 * k..4 * k + 4] == w[4..][j..j + 4];
  }

  /** Block k of four operations in a world transformation is the k-th ancestor's own. */
  lemma {:induction false} WorldAlongAncestry(par: Links, attrs: map<nat, Attrs>, rank: map<nat, nat>, top: nat, n: nat)
    requires ParentRanked(par, rank, top) && par.Keys <= attrs.Keys && n in par
    ensures var a, w := Ancestry(par, rank, top, n), World(par, attrs, rank, top, n);
      && |w| == 4 * |a|
      && (forall k :: 0 <= k < |a| ==> a[k] in attrs && w[4 * k..4 * k + 4] == LocalTransform(attrs[a[k]].params))
    decreases top - rank[n]
  {
    AncestryIsParentChain(par, rank, top, n);
    var a, w := Ancestry(par, rank, top, n), World(par, attrs, rank, top, n);
    if par[n].Some? {
      var p := par[n].value;
      WorldAlongAncestry(par, attrs, rank, top, p);
      var b, v := Ancestry(par, rank, top, p), World(par, attrs, rank, top, p);
      assert a == [n] + b && w == LocalTransform(attrs[n].params) + v;
      forall k | 0 <= k < |a| ensures a[k] in attrs && w[4 * k..4 * k + 4] == LocalTransform(attrs[a[k]].params) {
        if k > 0 {
          assert a[k] == b[k - 1];
          BlockShift(LocalTransform(attrs[n].params), v, k);
        }
      }
    } else {
      assert a == [n];
    }
  }

  /**
   * A world transformation changes exactly when the position, pivot, scale
   * or angle of the layer or of one of its ancestors changes.
   */
  lemma {:induction false} WorldChangesWithAncestors(par: Links, attrs: map<nat, Attrs>, attrs': map<nat, Attrs>,
                                                     rank: map<nat, nat>, top: nat, n: nat)
    requires ParentRanked(par, rank, top) && par.Keys <= attrs.Keys && par.Keys <= attrs'.Keys && n in par
    ensures var a := Ancestry(par, rank, top, n);
      World(par, attrs', rank, top, n) == World(par, attrs, rank, top, n)
      <==> forall k :: 0 <= k < |a| ==> LocalTransform(attrs'[a[k]].params) == LocalTransform(attrs[a[k]].params)
    decreases top - rank[n]
  {
    var a := Ancestry(par, rank, top, n);
    WorldAlongAncestry(par, attrs, rank, top, n);
    WorldAlongAncestry(par, attrs', rank, top, n);
    if par[n].Some? {
      var p := par[n].value;
      WorldChangesWithAncestors(par, attrs, attrs', rank, top, p);
      var b := Ancestry(par, rank, top, p);
      assert a == [n] + b;
      if forall k :: 0 <= k < |a| ==> LocalTransform(attrs'[a[k]].params) == LocalTransform(attrs[a[k]].params) {
        assert LocalTransform(attrs'[a[0]].params) == LocalTransform(attrs[a[0]].params);
        forall k | 0 <= k < |b| ensures LocalTransform(attrs'[b[k]].params) == LocalTransform(attrs[b[k]].params) {
          assert b[k] == a[k + 1];
        }
      }
    } else {
      assert a == [n];
    }
  }

  /** World transformations depend on the layers' parameters only, not on their visibility or name. */
  lemma {:induction false} WorldUsesParamsOnly(par: Links, attrs: map<nat, Attrs>, attrs': map<nat, Attrs>,
                                               rank: map<nat, nat>, top: nat, n: nat)
    requires ParentRanked(par, rank, top) && par.Keys <= attrs.Keys && par.Keys <= attrs'.Keys && n in par
    requires forall m :: m in par ==> attrs'[m].params == attrs[m].params
    ensures World(par, attrs', rank, top, n) == World(par, attrs, rank, top, n)
    decreases top - rank[n]
  {
    if par[n].Some? {
      WorldUsesParamsOnly(par, attrs, attrs', rank, top, par[n].value);
    }
  }

  /**
   * The cached transformations `w` after the layers of `s` have been
   * recomputed: each of them holds its world transformation, every other
   * entry is as before.
   */
  ghost function Refreshed(par: Links, attrs: map<nat, Attrs>, rank: map<nat, nat>, top: nat,
                           w: map<nat, Transform>, s: set<nat>): (r: map<nat, Transform>)
    requires ParentRanked(par, rank, top) && par.Keys <= attrs.Keys && s <= par.Keys
    ensures r.Keys == w.Keys + s
  {
    map n | n in w.Keys + s :: if n in s then World(par, attrs, rank, top, n) else w[n]
  }

  /**
   * When every parent pointer is matched by a vector entry, a layer outside
   * the subtree of `id` has no parameter change along its parent chain, so
   * a change to `id`'s parameters leaves its world transformation as it was.
   */
  lemma {:induction false} WorldOutsideSubtree(ch: Lists, par: Links, attrs: map<nat, Attrs>, attrs': map<nat, Attrs>,
                                               rank: map<nat, nat>, top: nat, id: nat, n: nat)
    requires Ranked(ch, par, rank, top) && ParentsListed(ch, par) && attrs.Keys == ch.Keys && attrs'.Keys == ch.Keys
    requires id in ch && forall m :: m in ch && m != id ==> attrs'[m].params == attrs[m].params
    requires n in ch && n !in Subtree(ch, rank, id)
    ensures World(par, attrs', rank, top, n) == World(par, attrs, rank, top, n)
    decreases top - rank[n]
  {
    if par[n].Some? {
      var q := par[n].value;
      if q in Subtree(ch, rank, id) {
        SubtreeHoldsChildren(ch, rank, id, q, n);
      }
      WorldOutsideSubtree(ch, par, attrs, attrs', rank, top, id, q);
    }
  }

  /**
   * `setup` and `scaleAroundPoint` change one layer's parameters and then
   * recompute its subtree: when every cached transformation was current and
   * every parent pointer is matched by a vector entry, every cached
   * transformation is current again.
   */
  lemma CacheStaysCurrent(ch: Lists, par: Links, attrs: map<nat, Attrs>, attrs': map<nat, Attrs>,
                          rank: map<nat, nat>, top: nat, w: map<nat, Transform>, id: nat)
    requires Ranked(ch, par, rank, top) && ParentsListed(ch, par) && attrs.Keys == ch.Keys && attrs'.Keys == ch.Keys
    requires id in ch && forall m :: m in ch && m != id ==> attrs'[m].params == attrs[m].params
    requires forall n :: n in ch ==> n in w && w[n] == World(par, attrs, rank, top, n)
    ensures var r := Refreshed(par, attrs', rank, top, w, Subtree(ch, rank, id));
      forall n :: n in ch ==> n in r && r[n] == World(par, attrs', rank, top, n)
  {
    forall n | n in ch && n !in Subtree(ch, rank, id)
      ensures World(par, attrs', rank, top, n) == World(par, attrs, rank, top, n)
    {
      WorldOutsideSubtree(ch, par, attrs, attrs', rank, top, id, n);
    }
  }

  /** Recomputing `a` and then `b` is recomputing `a + b`. */
  lemma RefreshedUnion(par: Links, attrs: map<nat, Attrs>, rank: map<nat, nat>, top: nat,
                       w: map<nat, Transform>, a: set<nat>, b: set<nat>)
    requires ParentRanked(par, rank, top) && par.Keys <= attrs.Keys && a <= par.Keys && b <= par.Keys
    ensures Refreshed(par, attrs, rank, top, Refreshed(par, attrs, rank, top, w, a), b)
            == Refreshed(par, attrs, rank, top, w, a + b)
  {
  }

  /** Storing one layer's world transformation is recomputing that layer. */
  lemma RefreshedOne(par: Links, attrs: map<nat, Attrs>, rank: map<nat, nat>, top: nat,
                     w: map<nat, Transform>, id: nat)
    requires ParentRanked(par, rank, top) && par.Keys <= attrs.Keys && id in par
    ensures w[id := World(par, attrs, rank, top, id)] == Refreshed(par, attrs, rank, top, w, {id})
  {
  }

  /** Recomputing a set twice gives what recomputing it once gave. */
  lemma RefreshedIdempotent(par: Links, attrs: map<nat, Attrs>, rank: map<nat, nat>, top: nat,
                            w: map<nat, Transform>, s: set<nat>)
    requires ParentRanked(par, rank, top) && par.Keys <= attrs.Keys && s <= par.Keys
    ensures Refreshed(par, attrs, rank, top, Refreshed(par, attrs, rank, top, w, s), s)
            == Refreshed(par, attrs, rank, top, w, s)
  {
    RefreshedUnion(par, attrs, rank, top, w, s, s);
    assert s + s == s;
  }

  /** The attributes after the layers of `s` have had their visibility flag set to `v`. */
  function WithVisibility(attrs: map<nat, Attrs>, s: set<nat>, v: bool): (r: map<nat, Attrs>)
    ensures r.Keys == attrs.Keys
  {
    map n | n in attrs :: if n in s then attrs[n].(visible := v) else attrs[n]
  }

  /** Setting one layer's flag is setting it on that layer alone. */
  lemma WithVisibilityOne(attrs: map<nat, Attrs>, id: nat, v: bool)
    requires id in attrs
    ensures attrs[id := attrs[id].(visible := v)] == WithVisibility(attrs, {id}, v)
  {
  }

  /** Setting the flag on `a` and then on `b` is setting it on `a + b`. */
  lemma WithVisibilityUnion(attrs: map<nat, Attrs>, a: set<nat>, b: set<nat>, v: bool)
    ensures WithVisibility(WithVisibility(attrs, a, v), b, v) == WithVisibility(attrs, a + b, v)
  {
  }

  /**
   * After the flag is set on `s`, exactly the layers of `s` show `v`, and
   * nothing but the flag of a layer changes.
   */
  lemma WithVisibilityEffect(attrs: map<nat, Attrs>, s: set<nat>, v: bool, n: nat)
    requires n in attrs
    ensures var r := WithVisibility(attrs, s, v);
      && r[n].params == attrs[n].params && r[n].name == attrs[n].name
      && (n in s ==> r[n].visible == v)
      && (n !in s ==> r[n] == attrs[n])
  {
  }

  /** The product of the alphas of `a`'s layers, from the first. */
  function AlphaProduct(attrs: map<nat, Attrs>, a: seq<nat>): real
    requires forall i :: 0 <= i < |a| ==> a[i] in attrs
  {
    if a == [] then 1.0 else attrs[a[0]].params.alpha * AlphaProduct(attrs, a[1..])
  }

  lemma ProductWithinUnit(x: real, y: real)
    requires 0.0 <= x <= 1.0 && 0.0 <= y <= 1.0
    ensures 0.0 <= x * y <= x && x * y <= 1.0
  {
  }

  lemma ProductBelow(x: real, y: real, z: real)
    requires 0.0 <= x <= 1.0 && 0.0 <= y <= z
    ensures x * y <= z
  {
  }

  /**
   * With every alpha in [0, 1], the accumulated product stays in [0, 1] and
   * never exceeds the alpha of any layer along the chain.
   */
  lemma {:induction false} AlphaProductBounds(attrs: map<nat, Attrs>, a: seq<nat>)
    requires forall i :: 0 <= i < |a| ==> a[i] in attrs && 0.0 <= attrs[a[i]].params.alpha <= 1.0
    ensures 0.0 <= AlphaProduct(attrs, a) <= 1.0
    ensures forall i :: 0 <= i < |a| ==> AlphaProduct(attrs, a) <= attrs[a[i]].params.alpha
  {
    if a != [] {
      var rest := a[1..];
      var x, y := attrs[a[0]].params.alpha, AlphaProduct(attrs, rest);
      assert AlphaProduct(attrs, a) == x * y;
      AlphaProductBounds(attrs, rest);
      ProductWithinUnit(x, y);
      forall i | 1 <= i < |a| ensures AlphaProduct(attrs, a) <= attrs[a[i]].params.alpha {
        assert a[i] == rest[i - 1];
        ProductBelow(x, y, attrs[rest[i - 1]].params.alpha);
      }
    }
  }

  /** One `skeleton->simulate(times)` call on the skeleton of `layer`. */
  datatype Step = Step(layer: nat, times: int)

  /**
   * The skeleton steps `simulate(times)` issues from `n`: none when `n` is
   * hidden; otherwise `n`'s own, then those of each child in vector order.
   */
  ghost function Simulated(ch: Lists, attrs: map<nat, Attrs>, rank: map<nat, nat>, n: nat, times: int): seq<Step>
    requires ChildRanked(ch, rank) && ch.Keys <= attrs.Keys && n in ch
    decreases rank[n], 1, 0
  {
    if !attrs[n].visible then [] else [Step(n, times)] + SimulatedAll(ch, attrs, rank, ch[n], rank[n], times)
  }

  /** The steps of `simulate` on each of `cs` in order. */
  ghost function SimulatedAll(ch: Lists, attrs: map<nat, Attrs>, rank: map<nat, nat>, cs: seq<nat>, bound: nat, times: int): seq<Step>
    requires ChildRanked(ch, rank) && ch.Keys <= attrs.Keys
    requires forall c :: c in cs ==> c in ch && rank[c] < bound
    decreases bound, 0, |cs|
  {
    if cs == [] then []
    else SimulatedAll(ch, attrs, rank, cs[..|cs| - 1], bound, times) + Simulated(ch, attrs, rank, cs[|cs| - 1], times)
  }

  lemma SimulatedAllStep(ch: Lists, attrs: map<nat, Attrs>, rank: map<nat, nat>, cs: seq<nat>, bound: nat, times: int, i: nat)
    requires ChildRanked(ch, rank) && ch.Keys <= attrs.Keys
    requires forall c :: c in cs ==> c in ch && rank[c] < bound
    requires i < |cs|
    ensures SimulatedAll(ch, attrs, rank, cs[..i + 1], bound, times)
            == SimulatedAll(ch, attrs, rank, cs[..i], bound, times) + Simulated(ch, attrs, rank, cs[i], times)
  {
    assert cs[..i + 1][..i] == cs[..i];
  }

  lemma {:induction false} SimulatedAllMembers(ch: Lists, attrs: map<nat, Attrs>, rank: map<nat, nat>, cs: seq<nat>, bound: nat,
                                               times: int, s: Step)
    requires ChildRanked(ch, rank) && ch.Keys <= attrs.Keys
    requires forall c :: c in cs ==> c in ch && rank[c] < bound
    ensures s in SimulatedAll(ch, attrs, rank, cs, bound, times)
            <==> exists i :: 0 <= i < |cs| && s in Simulated(ch, attrs, rank, cs[i], times)
  {
    if cs != [] {
      var init := cs[..|cs| - 1];
      SimulatedAllMembers(ch, attrs, rank, init, bound, times, s);
      if s in SimulatedAll(ch, attrs, rank, cs, bound, times) {
        if s !in Simulated(ch, attrs, rank, cs[|cs| - 1], times) {
          var i :| 0 <= i < |init| && s in Simulated(ch, attrs, rank, init[i], times);
          assert cs[i] == init[i];
        }
      } else {
        forall i | 0 <= i < |cs| ensures s !in Simulated(ch, attrs, rank, cs[i], times) {
          if i < |init| { assert cs[i] == init[i]; }
        }
      }
    }
  }

  /** Every layer of a path is visible. */
  ghost predicate AllVisible(attrs: map<nat, Attrs>, p: seq<nat>)
  {
    forall i :: 0 <= i < |p| ==> p[i] in attrs && attrs[p[i]].visible
  }

  /**
   * `simulate(times)` from `n` steps the skeleton of `m` exactly when some
   * downward path from `n` to `m` runs through visible layers only, and
   * always with `times`.
   */
  lemma SimulatedReach(ch: Lists, attrs: map<nat, Attrs>, rank: map<nat, nat>, n: nat, times: int, s: Step)
    requires ChildRanked(ch, rank) && ch.Keys <= attrs.Keys && n in ch
    ensures s in Simulated(ch, attrs, rank, n, times)
            <==> s.times == times && exists p :: IsPath(ch, p) && AllVisible(attrs, p) && p[0] == n && p[|p| - 1] == s.layer
  {
    if s in Simulated(ch, attrs, rank, n, times) {
      var p := SimulatedPath(ch, attrs, rank, n, times, s);
    } else {
      forall p | IsPath(ch, p) && AllVisible(attrs, p) && p[0] == n && s.times == times
        ensures p[|p| - 1] != s.layer
      {
        VisiblePathIsSimulated(ch, attrs, rank, p, times);
      }
    }
  }

  /** A visible downward path to every layer `simulate` steps. */
  lemma {:induction false} SimulatedPath(ch: Lists, attrs: map<nat, Attrs>, rank: map<nat, nat>, n: nat, times: int, s: Step)
    returns (p: seq<nat>)
    requires ChildRanked(ch, rank) && ch.Keys <= attrs.Keys && n in ch
    requires s in Simulated(ch, attrs, rank, n, times)
    ensures s.times == times && IsPath(ch, p) && AllVisible(attrs, p) && p[0] == n && p[|p| - 1] == s.layer
    decreases rank[n]
  {
    if s == Step(n, times) {
      p := [n];
    } else {
      SimulatedAllMembers(ch, attrs, rank, ch[n], rank[n], times, s);
      var i :| 0 <= i < |ch[n]| && s in Simulated(ch, attrs, rank, ch[n][i], times);
      var q := SimulatedPath(ch, attrs, rank, ch[n][i], times, s);
      p := [n] + q;
      assert forall k :: 1 <= k < |p| ==> p[k] == q[k - 1];
    }
  }

  /** The end of a visible downward path is stepped by `simulate` from its start. */
  lemma {:induction false} VisiblePathIsSimulated(ch: Lists, attrs: map<nat, Attrs>, rank: map<nat, nat>, p: seq<nat>, times: int)
    requires ChildRanked(ch, rank) && ch.Keys <= attrs.Keys && IsPath(ch, p) && AllVisible(attrs, p)
    ensures Step(p[|p| - 1], times) in Simulated(ch, attrs, rank, p[0], times)
    decreases |p|
  {
    if |p| > 1 {
      var q := p[1..];
      assert IsPath(ch, q) && AllVisible(attrs, q) by {
        assert forall k :: 0 <= k < |q| ==> q[k] == p[k + 1];
      }
      VisiblePathIsSimulated(ch, attrs, rank, q, times);
      var cs := ch[p[0]];
      var i :| 0 <= i < |cs| && cs[i] == p[1];
      SimulatedAllMembers(ch, attrs, rank, cs, rank[p[0]], times, Step(p[|p| - 1], times));
    }
  }

  /** `simulate` from `n` steps only layers of the subtree of `n`. */
  lemma SimulatedWithin(ch: Lists, attrs: map<nat, Attrs>, rank: map<nat, nat>, n: nat, times: int, s: Step)
    requires ChildRanked(ch, rank) && ch.Keys <= attrs.Keys && n in ch
    requires s in Simulated(ch, attrs, rank, n, times)
    ensures s.layer in Subtree(ch, rank, n)
  {
    var p := SimulatedPath(ch, attrs, rank, n, times, s);
    PathStaysInSubtree(ch, rank, p);
  }

  /** No step occurs twice in `log`. */
  ghost predicate NoRepeats(log: seq<Step>)
  {
    forall i, j :: 0 <= i < j < |log| ==> log[i] != log[j]
  }

  lemma NoRepeatsJoin(a: seq<Step>, b: seq<Step>)
    requires NoRepeats(a) && NoRepeats(b) && forall s :: s in a ==> s !in b
    ensures NoRepeats(a + b)
  {
    forall i, j | 0 <= i < j < |a + b| ensures (a + b)[i] != (a + b)[j] {
      if i < |a| && j >= |a| {
        assert (a + b)[i] in a && (a + b)[j] in b;
      }
    }
  }

  /** When the vectors form a forest, `simulate` steps each layer at most once. */
  lemma {:induction false} SimulatedOnce(ch: Lists, attrs: map<nat, Attrs>, rank: map<nat, nat>, n: nat, times: int)
    requires ChildRanked(ch, rank) && ListedOnce(ch) && ch.Keys <= attrs.Keys && n in ch
    ensures NoRepeats(Simulated(ch, attrs, rank, n, times))
    decreases rank[n], 1, 0
  {
    if attrs[n].visible {
      var cs := ch[n];
      var rest := SimulatedAll(ch, attrs, rank, cs, rank[n], times);
      SimulatedPrefixOnce(ch, attrs, rank, n, |cs|, times);
      assert cs[..|cs|] == cs;
      NotOwnDescendant(ch, rank, n);
      NoRepeatsJoin([Step(n, times)], rest);
    }
  }

  /**
   * The steps of the first `k` entries of `n`'s vector: none twice, and
   * only layers of their subtrees.
   */
  lemma {:induction false} SimulatedPrefixOnce(ch: Lists, attrs: map<nat, Attrs>, rank: map<nat, nat>, n: nat, k: nat,
                                               times: int)
    requires ChildRanked(ch, rank) && ListedOnce(ch) && ch.Keys <= attrs.Keys && n in ch && k <= |ch[n]|
    ensures var log := SimulatedAll(ch, attrs, rank, ch[n][..k], rank[n], times);
      && NoRepeats(log)
      && forall s :: s in log ==> s.layer in Forest(ch, rank, ch[n][..k], rank[n])
    decreases rank[n], 0, k
  {
    var cs := ch[n];
    if k == 0 {
      assert cs[..0] == [];
    } else {
      var i := k - 1;
      ChildVisit(ch, rank, n, i);
      SimulatedAllStep(ch, attrs, rank, cs, rank[n], times, i);
      SimulatedPrefixOnce(ch, attrs, rank, n, i, times);
      SimulatedOnce(ch, attrs, rank, cs[i], times);
      var head, last := SimulatedAll(ch, attrs, rank, cs[..i], rank[n], times), Simulated(ch, attrs, rank, cs[i], times);
      EarlierSiblingsDisjoint(ch, rank, n, i);
      forall s | s in last ensures s.layer in Subtree(ch, rank, cs[i]) {
        SimulatedWithin(ch, attrs, rank, cs[i], times, s);
      }
      NoRepeatsJoin(head, last);
    }
  }

  /** When the whole subtree of `n` is visible, `simulate` from `n` steps exactly the layers of that subtree. */
  lemma VisibleSubtreeSimulated(ch: Lists, attrs: map<nat, Attrs>, rank: map<nat, nat>, n: nat, times: int, m: nat)
    requires ChildRanked(ch, rank) && ch.Keys <= attrs.Keys && n in ch
    requires forall k :: k in Subtree(ch, rank, n) ==> attrs[k].visible
    ensures Step(m, times) in Simulated(ch, attrs, rank, n, times) <==> m in Subtree(ch, rank, n)
  {
    if m in Subtree(ch, rank, n) {
      SubtreeIsReachable(ch, rank, n, m);
      var p :| IsPath(ch, p) && p[0] == n && p[|p| - 1] == m;
      forall k | 0 <= k < |p| ensures p[k] in attrs && attrs[p[k]].visible {
        var q := p[..k + 1];
        assert IsPath(ch, q);
        PathStaysInSubtree(ch, rank, q);
      }
      VisiblePathIsSimulated(ch, attrs, rank, p, times);
    } else if Step(m, times) in Simulated(ch, attrs, rank, n, times) {
      var p := SimulatedPath(ch, attrs, rank, n, times, Step(m, times));
      PathStaysInSubtree(ch, rank, p);
    }
  }

  /**
   * `setVisibility(true)` followed by `simulate(times)` on the same layer
   * steps every layer of its subtree and nothing else.
   */
  lemma ShownThenSimulated(ch: Lists, attrs: map<nat, Attrs>, rank: map<nat, nat>, n: nat, times: int, m: nat)
    requires ChildRanked(ch, rank) && ch.Keys <= attrs.Keys && n in ch
    ensures Step(m, times) in Simulated(ch, WithVisibility(attrs, Subtree(ch, rank, n), true), rank, n, times)
            <==> m in Subtree(ch, rank, n)
  {
    VisibleSubtreeSimulated(ch, WithVisibility(attrs, Subtree(ch, rank, n), true), rank, n, times, m);
  }

  /** `setVisibility(false)` followed by `simulate(times)` on the same layer steps nothing. */
  lemma HiddenThenSimulated(ch: Lists, attrs: map<nat, Attrs>, rank: map<nat, nat>, n: nat, times: int)
    requires ChildRanked(ch, rank) && ch.Keys <= attrs.Keys && n in ch
    ensures Simulated(ch, WithVisibility(attrs, Subtree(ch, rank, n), false), rank, n, times) == []
  {
  }

  /** A hidden layer's `simulate` steps nothing, not even its visible descendants. */
  lemma HiddenSimulatesNothing(ch: Lists, attrs: map<nat, Attrs>, rank: map<nat, nat>, n: nat, times: int)
    requires ChildRanked(ch, rank) && ch.Keys <= attrs.Keys && n in ch && !attrs[n].visible
    ensures forall s :: s !in Simulated(ch, attrs, rank, n, times)
  {
  }
}
