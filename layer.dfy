/**
 * The layer tree of Layer.cpp as an arena: every layer is an id, and each
 * member field of `Layer` is a map from id to that layer's value. The
 * static construction counter is a field of the arena, and the calls into
 * each layer's skeleton are recorded in order in `steps`.
 */
module Scene {
  import opened Geometry
  import opened Hierarchy
  import opened Traversals
  import Naming

  /** `MIN_SCALE`: `scaleAroundPoint` only accepts scales above it. */
  const MinScale: real := 0.1

  /**
   * A layer's parameters after `scaleAroundPoint(s, p)`: for an acceptable
   * scale the position is multiplied component-wise by `p * (s - scale)`
   * and the scale becomes `s`; otherwise nothing changes.
   */
  function Rescaled(q: Params, s: real, p: Vec3): (r: Params)
    ensures s <= MinScale ==> r == q
    ensures s > MinScale ==> r.scale == s && r.position == q.position.Times(p.Scaled(s - q.scale))
    ensures r.offset == q.offset && r.angle == q.angle && r.alpha == q.alpha
    ensures q.scale > MinScale ==> r.scale > MinScale
  {
    if s > MinScale then q.(position := q.position.Times(p.Scaled(s - q.scale)), scale := s) else q
  }

  /** Where `std::find` stops: the first position holding `x`. */
  function FirstIndex(s: seq<nat>, x: nat): (i: nat)
    requires x in s
    ensures i < |s| && s[i] == x && x !in s[..i]
  {
    if s[0] == x then 0 else 1 + FirstIndex(s[1..], x)
  }

  /** `s` after `erase` at the first position holding `x`. */
  function RemoveFirst(s: seq<nat>, x: nat): (r: seq<nat>)
    requires x in s
    ensures |r| == |s| - 1
    ensures multiset(r) == multiset(s) - multiset{x}
    ensures var i := FirstIndex(s, x);
      (forall j :: 0 <= j < i ==> r[j] == s[j]) && (forall j :: i <= j < |r| ==> r[j] == s[j + 1])
  {
    var i := FirstIndex(s, x);
    var r := s[..i] + s[i + 1..];
    assert s == s[..i] + [x] + s[i + 1..];
    assert multiset(s) == multiset(s[..i]) + multiset{x} + multiset(s[i + 1..]);
    assert multiset(r) == multiset(s[..i]) + multiset(s[i + 1..]);
    r
  }


  /** What the constructor gives a layer built while the counter is `count`. */
  function Fresh(count: nat): (a: Attrs)
    ensures a.params == DefaultParams && a.visible
    ensures a.name == Naming.DefaultName(count)
  {
    Attrs(DefaultParams, true, Naming.DefaultName(count))
  }

  /**
   * What every member function may rely on: the arena is ranked, every
   * layer has its attributes, a released vector is empty, and every id was
   * handed out by the counter.
   */
  ghost predicate Consistent(ch: Lists, released: set<nat>, par: Links, attrs: map<nat, Attrs>, count: nat,
                             rank: map<nat, nat>, top: nat)
  {
    && Ranked(ch, par, rank, top)
    && attrs.Keys == ch.Keys
    && (forall n :: n in released ==> n in ch && ch[n] == [])
    && (forall n :: n in ch ==> n < count)
  }

  /** The constructor's new layer, numbered by the counter, keeps the arena consistent. */
  lemma ConstructedLayer(ch: Lists, released: set<nat>, par: Links, attrs: map<nat, Attrs>, count: nat,
                         rank: map<nat, nat>, top: nat, p: Option<nat>)
    requires Consistent(ch, released, par, attrs, count, rank, top) && (p.Some? ==> p.value in ch)
    ensures count !in ch && count !in released
    ensures Consistent(ch[count := []], released, par[count := p], attrs[count := Fresh(count)], count + 1,
                       Shifted(rank, count), top + 1)
  {
    Adjoin(ch, par, rank, top, count, p);
  }

  /** `makeLayer`'s push of a layer ranked below `id` keeps the arena consistent; `id`'s vector exists again. */
  lemma AdoptedLayer(ch: Lists, released: set<nat>, par: Links, attrs: map<nat, Attrs>, count: nat,
                     rank: map<nat, nat>, top: nat, id: nat, l: nat)
    requires Consistent(ch, released, par, attrs, count, rank, top) && id in ch && l in ch && rank[l] < rank[id]
    ensures Consistent(ch[id := ch[id] + [l]], released - {id}, par, attrs, count, rank, top)
  {
  }

  /** `addSublayer`: appending `sub` to `id`'s vector and pointing it at `id` keeps the arena consistent. */
  lemma LinkedSublayer(ch: Lists, released: set<nat>, par: Links, attrs: map<nat, Attrs>, count: nat,
                       rank: map<nat, nat>, top: nat, id: nat, sub: nat)
    requires Consistent(ch, released, par, attrs, count, rank, top) && id in ch && id !in released && sub in ch
    requires sub !in Above(ch, par, rank, top, id)
    ensures Consistent(ch[id := ch[id] + [sub]], released, par[sub := Some(id)], attrs, count,
                       Lift(rank, Above(ch, par, rank, top, id), top, ch.Keys), 2 * top)
  {
    AppendLinked(ch, par, rank, top, id, sub);
  }

  /** `addSublayers`: appending `subs` to `id`'s vector keeps the arena consistent. */
  lemma AppendedSublayers(ch: Lists, released: set<nat>, par: Links, attrs: map<nat, Attrs>, count: nat,
                          rank: map<nat, nat>, top: nat, id: nat, subs: seq<nat>)
    requires Consistent(ch, released, par, attrs, count, rank, top) && id in ch && id !in released
    requires forall c :: c in subs ==> c in ch && c !in Above(ch, par, rank, top, id)
    ensures Consistent(ch[id := ch[id] + subs], released, par, attrs, count,
                       Lift(rank, Above(ch, par, rank, top, id), top, ch.Keys), 2 * top)
  {
    AppendAll(ch, par, rank, top, id, subs);
  }

  /** Which vectors are released after `doomed` is deleted and `owner`'s vector is released or replaced. */
  function ReleasedAfter(released: set<nat>, doomed: set<nat>, owner: nat, release: bool): (r: set<nat>)
    ensures owner in r <==> release
    ensures forall n :: n != owner ==> (n in r <==> n in released && n !in doomed)
  {
    if release then released - doomed + {owner} else released - doomed - {owner}
  }

  /**
   * Deleting the layers of `doomed` while `owner`'s vector becomes `kept`
   * keeps the arena consistent when nothing left behind refers into
   * `doomed` and `kept` creates no cycle.
   */
  lemma Pruned(ch: Lists, released: set<nat>, par: Links, attrs: map<nat, Attrs>, count: nat,
               rank: map<nat, nat>, top: nat, owner: nat, kept: seq<nat>, doomed: set<nat>, release: bool)
    requires Consistent(ch, released, par, attrs, count, rank, top)
    requires owner in ch && owner !in doomed && doomed <= ch.Keys && Detached(ch, par, owner, doomed)
    requires forall c :: c in kept ==> c in ch && c !in doomed && (c in ch[owner] || c !in Above(ch, par, rank, top, owner))
    requires release ==> kept == []
    ensures Consistent((ch - doomed)[owner := kept], ReleasedAfter(released, doomed, owner, release), par - doomed,
                       attrs - doomed, count, Lift(rank, Above(ch, par, rank, top, owner), top, (ch - doomed).Keys), 2 * top)
  {
    Prune(ch, par, rank, top, owner, kept, doomed);
  }

  /**
   * The `while (actLayer->getParent())` walk of `calcTransformationMatrix`:
   * the layer's own operations, then each ancestor's in turn.
   */
  method ChainTransform(par: Links, attrs: map<nat, Attrs>, ghost rank: map<nat, nat>, ghost top: nat, id: nat)
    returns (t: Transform)
    requires ParentRanked(par, rank, top) && par.Keys <= attrs.Keys && id in par
    ensures t == World(par, attrs, rank, top, id)
  {
    t := LocalTransform(attrs[id].params);
    var act := id;
    while par[act].Some?
      invariant act in par
      invariant World(par, attrs, rank, top, id)
        == t + match par[act] case None => [] case Some(q) => World(par, attrs, rank, top, q)
      decreases top - rank[act]
    {
      act := par[act].value;
      t := t + LocalTransform(attrs[act].params);
    }
  }

  /** Recomputing the subtree of the `i`-th child extends what has been recomputed by one child. */
  lemma RefreshChild(ch: Lists, par: Links, attrs: map<nat, Attrs>, rank: map<nat, nat>, top: nat,
                     w: map<nat, Transform>, id: nat, i: nat)
    requires Ranked(ch, par, rank, top) && attrs.Keys == ch.Keys && id in ch && i < |ch[id]|
    ensures ch[id][i] in ch && Subtree(ch, rank, ch[id][i]) <= Subtree(ch, rank, id)
    ensures var done := {id} + Forest(ch, rank, ch[id][..i], rank[id]);
      Refreshed(par, attrs, rank, top, Refreshed(par, attrs, rank, top, w, done), Subtree(ch, rank, ch[id][i]))
      == Refreshed(par, attrs, rank, top, w, {id} + Forest(ch, rank, ch[id][..i + 1], rank[id]))
  {
    ChildVisit(ch, rank, id, i);
    var done := {id} + Forest(ch, rank, ch[id][..i], rank[id]);
    RefreshedUnion(par, attrs, rank, top, w, done, Subtree(ch, rank, ch[id][i]));
    assert done + Subtree(ch, rank, ch[id][i]) == {id} + Forest(ch, rank, ch[id][..i + 1], rank[id]);
  }

  /**
   * The recursion of `calcTransformationMatrix` over the arena's maps: the
   * transformation of `id` from its chain, then each child's subtree in
   * vector order. Every layer of the subtree ends up holding its world
   * transformation. A released vector on the way would be dereferenced.
   */
  method Recompute(ch: Lists, par: Links, attrs: map<nat, Attrs>, released: set<nat>,
                   ghost rank: map<nat, nat>, ghost top: nat, id: nat, w: map<nat, Transform>)
    returns (w': map<nat, Transform>)
    requires Ranked(ch, par, rank, top) && attrs.Keys == ch.Keys && id in ch
    requires forall n :: n in Subtree(ch, rank, id) ==> n !in released
    ensures w' == Refreshed(par, attrs, rank, top, w, Subtree(ch, rank, id))
    decreases rank[id]
  {
    var t := ChainTransform(par, attrs, rank, top, id);
    RefreshedOne(par, attrs, rank, top, w, id);
    w' := w[id := t];
    var cs := ch[id];
    for i := 0 to |cs|
      invariant w' == Refreshed(par, attrs, rank, top, w, {id} + Forest(ch, rank, cs[..i], rank[id]))
    {
      RefreshChild(ch, par, attrs, rank, top, w, id, i);
      w' := Recompute(ch, par, attrs, released, rank, top, cs[i], w');
    }
    assert cs[..|cs|] == cs;
  }

  /** Setting the flag on the subtree of the `i`-th child extends what has been set by one child. */
  lemma SpreadChild(ch: Lists, attrs: map<nat, Attrs>, rank: map<nat, nat>, id: nat, i: nat, v: bool)
    requires ChildRanked(ch, rank) && id in ch && i < |ch[id]|
    ensures ch[id][i] in ch && Subtree(ch, rank, ch[id][i]) <= Subtree(ch, rank, id)
    ensures var done := {id} + Forest(ch, rank, ch[id][..i], rank[id]);
      WithVisibility(WithVisibility(attrs, done, v), Subtree(ch, rank, ch[id][i]), v)
      == WithVisibility(attrs, {id} + Forest(ch, rank, ch[id][..i + 1], rank[id]), v)
  {
    ChildVisit(ch, rank, id, i);
    var done := {id} + Forest(ch, rank, ch[id][..i], rank[id]);
    WithVisibilityUnion(attrs, done, Subtree(ch, rank, ch[id][i]), v);
    assert done + Subtree(ch, rank, ch[id][i]) == {id} + Forest(ch, rank, ch[id][..i + 1], rank[id]);
  }

  /** The recursion of `setVisibility(v)`: `id`, then each child's subtree in vector order. */
  method SpreadVisibility(ch: Lists, attrs: map<nat, Attrs>, released: set<nat>, ghost rank: map<nat, nat>,
                          id: nat, v: bool)
    returns (attrs': map<nat, Attrs>)
    requires ChildRanked(ch, rank) && ch.Keys <= attrs.Keys && id in ch
    requires forall n :: n in Subtree(ch, rank, id) ==> n !in released
    ensures attrs' == WithVisibility(attrs, Subtree(ch, rank, id), v)
    decreases rank[id]
  {
    WithVisibilityOne(attrs, id, v);
    attrs' := attrs[id := attrs[id].(visible := v)];
    var cs := ch[id];
    for i := 0 to |cs|
      invariant attrs' == WithVisibility(attrs, {id} + Forest(ch, rank, cs[..i], rank[id]), v)
    {
      SpreadChild(ch, attrs, rank, id, i, v);
      attrs' := SpreadVisibility(ch, attrs', released, rank, cs[i], v);
    }
    assert cs[..|cs|] == cs;
  }

  /**
   * The vectors `simulate` reads from `n` exist: a hidden layer returns
   * before reading its vector; a visible one reads its own and then those
   * its entries read.
   */
  ghost predicate SteppedIntact(ch: Lists, attrs: map<nat, Attrs>, released: set<nat>, rank: map<nat, nat>, n: nat)
    requires ChildRanked(ch, rank) && ch.Keys <= attrs.Keys && n in ch
    decreases rank[n]
  {
    attrs[n].visible ==>
      n !in released && forall i :: 0 <= i < |ch[n]| ==> SteppedIntact(ch, attrs, released, rank, ch[n][i])
  }

  /** The vectors `simulate` reads are exactly those of the layers it steps. */
  lemma {:induction false} SteppedIntactMeansStepped(ch: Lists, attrs: map<nat, Attrs>, released: set<nat>,
                                                     rank: map<nat, nat>, n: nat, times: int)
    requires ChildRanked(ch, rank) && ch.Keys <= attrs.Keys && n in ch
    ensures SteppedIntact(ch, attrs, released, rank, n)
            <==> forall s :: s in Simulated(ch, attrs, rank, n, times) ==> s.layer !in released
    decreases rank[n]
  {
    if attrs[n].visible {
      var cs := ch[n];
      forall i | 0 <= i < |cs| {
        SteppedIntactMeansStepped(ch, attrs, released, rank, cs[i], times);
      }
      forall s | s in Simulated(ch, attrs, rank, n, times) && s != Step(n, times)
        ensures exists i :: 0 <= i < |cs| && s in Simulated(ch, attrs, rank, cs[i], times)
      {
        SimulatedAllMembers(ch, attrs, rank, cs, rank[n], times, s);
      }
      forall i, s | 0 <= i < |cs| && s in Simulated(ch, attrs, rank, cs[i], times)
        ensures s in Simulated(ch, attrs, rank, n, times)
      {
        SimulatedAllMembers(ch, attrs, rank, cs, rank[n], times, s);
      }
    }
  }

  /** Visiting the `i`-th entry of a visible layer appends that entry's steps, and its vectors exist too. */
  lemma SimulateChild(ch: Lists, attrs: map<nat, Attrs>, released: set<nat>, rank: map<nat, nat>, n: nat, i: nat,
                      times: int)
    requires ChildRanked(ch, rank) && ch.Keys <= attrs.Keys && n in ch && i < |ch[n]| && attrs[n].visible
    requires SteppedIntact(ch, attrs, released, rank, n)
    ensures ch[n][i] in ch && rank[ch[n][i]] < rank[n] && SteppedIntact(ch, attrs, released, rank, ch[n][i])
    ensures SimulatedAll(ch, attrs, rank, ch[n][..i + 1], rank[n], times)
            == SimulatedAll(ch, attrs, rank, ch[n][..i], rank[n], times) + Simulated(ch, attrs, rank, ch[n][i], times)
  {
    SimulatedAllStep(ch, attrs, rank, ch[n], rank[n], times, i);
  }

  /**
   * The recursion of `simulate(times)`: nothing for a hidden layer;
   * otherwise its own skeleton step, then each child's in vector order.
   */
  method SimulateFrom(ch: Lists, attrs: map<nat, Attrs>, released: set<nat>, ghost rank: map<nat, nat>,
                      id: nat, times: int)
    returns (log: seq<Step>)
    requires ChildRanked(ch, rank) && ch.Keys <= attrs.Keys && id in ch
    requires SteppedIntact(ch, attrs, released, rank, id)
    ensures log == Simulated(ch, attrs, rank, id, times)
    decreases rank[id]
  {
    if !attrs[id].visible {
      return [];
    }
    log := [Step(id, times)];
    var cs := ch[id];
    for i := 0 to |cs|
      invariant log == [Step(id, times)] + SimulatedAll(ch, attrs, rank, cs[..i], rank[id], times)
    {
      SimulateChild(ch, attrs, released, rank, id, i, times);
      var more := SimulateFrom(ch, attrs, released, rank, cs[i], times);
      log := log + more;
    }
    assert cs[..|cs|] == cs;
  }

  /**
   * The layers that deleting `id` destroys: `~Layer` calls `eraseLayers`,
   * which deletes every layer of the vector, recursively.
   */
  method Collect(ch: Lists, ghost rank: map<nat, nat>, id: nat) returns (s: set<nat>)
    requires ChildRanked(ch, rank) && id in ch
    ensures s == Subtree(ch, rank, id)
    decreases rank[id]
  {
    s := {id};
    var cs := ch[id];
    for i := 0 to |cs|
      invariant s == {id} + Forest(ch, rank, cs[..i], rank[id])
    {
      ChildVisit(ch, rank, id, i);
      var sub := Collect(ch, rank, cs[i]);
      s := s + sub;
    }
    assert cs[..|cs|] == cs;
  }

  /** The members of every constructed `Layer` object, by layer id. */
  datatype Arena = Arena(
    /** Each layer's `layers` vector. */
    children: Lists,
    /** Layers whose vector `eraseLayers` released (the pointer is NULL). */
    released: set<nat>,
    /** Each layer's `parent` pointer. */
    parent: Links,
    /** Each layer's parameters, `visible` flag and `name`. */
    attrs: map<nat, Attrs>,
    /** Each layer's cached `transformation`. */
    world: map<nat, Transform>)

  /**
   * The arena after the layers of `doomed` have been deleted and `owner`'s
   * vector has become `kept` (released, when `release` holds).
   */
  function Removed(a: Arena, doomed: set<nat>, owner: nat, kept: seq<nat>, release: bool): Arena
  {
    Arena((a.children - doomed)[owner := kept], ReleasedAfter(a.released, doomed, owner, release),
          a.parent - doomed, a.attrs - doomed, a.world - doomed)
  }

  /**
   * Deletion removes exactly the layers of `doomed` from every member map,
   * replaces `owner`'s vector, and leaves every other entry as it was.
   */
  lemma RemovedContents(a: Arena, doomed: set<nat>, owner: nat, kept: seq<nat>, release: bool)
    requires owner in a.children && owner !in doomed
    ensures var r := Removed(a, doomed, owner, kept, release);
      && r.children.Keys == a.children.Keys - doomed && r.children[owner] == kept
      && r.parent.Keys == a.parent.Keys - doomed && r.attrs.Keys == a.attrs.Keys - doomed
      && r.world.Keys == a.world.Keys - doomed
      && (forall n :: n in r.children && n != owner ==> r.children[n] == a.children[n])
      && (forall n :: n in r.parent ==> r.parent[n] == a.parent[n])
      && (forall n :: n in r.attrs ==> r.attrs[n] == a.attrs[n])
      && (forall n :: n in r.world ==> r.world[n] == a.world[n])
      && (owner in r.released <==> release)
      && (forall n :: n != owner ==> (n in r.released <==> n in a.released && n !in doomed))
  {
  }

  /**
   * `deleteSublayer(x)` on `owner` leaves no dangling pointer: besides the
   * one entry it erases, nothing outside the subtree of `x` refers into it.
   */
  ghost predicate Removable(ch: Lists, par: Links, rank: map<nat, nat>, owner: nat, x: nat)
    requires ChildRanked(ch, rank) && owner in ch && x in ch && x in ch[owner]
  {
    && Detached(ch, par, owner, Subtree(ch, rank, x))
    && forall c :: c in RemoveFirst(ch[owner], x) ==> c !in Subtree(ch, rank, x)
  }

  /**
   * `setLayers(list)` on `owner` leaves no dangling pointer and no cycle:
   * nothing outside the layers `eraseLayers` deletes refers to them, and
   * `list` names surviving layers that do not lie above `owner`.
   */
  ghost predicate Replaceable(ch: Lists, par: Links, rank: map<nat, nat>, top: nat, owner: nat, list: seq<nat>)
    requires Ranked(ch, par, rank, top) && owner in ch
  {
    && Detached(ch, par, owner, Descendants(ch, rank, owner))
    && forall c :: c in list ==>
         c in ch && c !in Descendants(ch, rank, owner) && c !in Above(ch, par, rank, top, owner)
  }

  class LayerTree {
    var arena: Arena
    /** The static `Layer::layerCount`. */
    var layerCount: nat
    /** Every `skeleton->simulate(times)` call so far, in order. */
    var steps: seq<Step>

    ghost var rank: map<nat, nat>
    ghost var top: nat

    ghost predicate Valid()
      reads this`arena, this`layerCount, this`rank, this`top
    {
      Consistent(arena.children, arena.released, arena.parent, arena.attrs, layerCount, rank, top)
    }

    /** No layer of the subtree of `id` has had its vector released. */
    ghost predicate Intact(id: nat)
      reads this`arena, this`rank
      requires ChildRanked(arena.children, rank) && id in arena.children
    {
      forall n :: n in Subtree(arena.children, rank, id) ==> n !in arena.released
    }

    /** An empty arena, before any layer is constructed (`layerCount = 0`). */
    constructor ()
      ensures Valid()
      ensures arena == Arena(map[], {}, map[], map[], map[]) && layerCount == 0 && steps == []
    {
      arena := Arena(map[], {}, map[], map[], map[]);
      layerCount := 0;
      steps := [];
      rank, top := map[], 0;
    }

    /**
     * `Layer(p)`: a new layer whose parent pointer is `p`, with an empty
     * vector, default parameters, visible, named after the counter (which
     * then rises by one), and its transformation computed. It is not added
     * to `p`'s vector.
     */
    method NewLayer(p: Option<nat>) returns (l: nat)
      requires Valid() && (p.Some? ==> p.value in arena.children)
      modifies this`arena, this`layerCount, this`rank, this`top
      ensures Valid()
      ensures l == old(layerCount) && l !in old(arena.children) && layerCount == old(layerCount) + 1
      ensures arena == old(arena).(children := old(arena.children)[l := []], parent := old(arena.parent)[l := p],
                                   attrs := old(arena.attrs)[l := Fresh(l)], world := arena.world)
      ensures arena.world == old(arena.world)[l := World(arena.parent, arena.attrs, rank, top, l)]
      ensures rank == Shifted(old(rank), l) && top == old(top) + 1
    {
      l := layerCount;
      ConstructedLayer(arena.children, arena.released, arena.parent, arena.attrs, layerCount, rank, top, p);
      var par: Links, at: map<nat, Attrs> := arena.parent[l := p], arena.attrs[l := Fresh(l)];
      // The new vector is empty, so `calcTransformationMatrix` only walks the parent chain.
      var t := ChainTransform(par, at, Shifted(rank, l), top + 1, l);
      arena, layerCount, rank, top :=
        arena.(children := arena.children[l := []], parent := par, attrs := at, world := arena.world[l := t]),
        layerCount + 1, Shifted(rank, l), top + 1;
    }

    /**
     * `calcTransformationMatrix`: every layer of the subtree of `id` holds
     * its world transformation afterwards; every other entry is kept.
     */
    method CalcTransformationMatrix(id: nat)
      requires Valid() && id in arena.children && Intact(id)
      modifies this`arena
      ensures Valid()
      ensures arena == old(arena).(world := arena.world)
      ensures arena.world == Refreshed(arena.parent, arena.attrs, rank, top, old(arena.world), Subtree(arena.children, rank, id))
    {
      var w := Recompute(arena.children, arena.parent, arena.attrs, arena.released, rank, top, id, arena.world);
      arena := arena.(world := w);
    }

    /** `setName`: the layer keeps the first characters of `str`, at most fifteen, up to a NUL. */
    method SetName(id: nat, str: string)
      requires Valid() && id in arena.children
      modifies this`arena
      ensures Valid()
      ensures arena == old(arena).(attrs := old(arena.attrs)[id := old(arena.attrs)[id].(name := Naming.SetNameResult(str))])
    {
      arena := arena.(attrs := arena.attrs[id := arena.attrs[id].(name := Naming.SetNameResult(str))]);
    }

    /**
     * `setup`: the layer takes the given position, pivot, scale, angle and
     * alpha, and the transformations of its subtree are recomputed.
     */
    method Setup(id: nat, position: Vec3, offset: Vec3, scale: real, angle: Angle3, alpha: real)
      requires Valid() && id in arena.children && Intact(id)
      modifies this`arena
      ensures Valid()
      ensures arena == old(arena).(attrs := arena.attrs, world := arena.world)
      ensures arena.attrs == old(arena.attrs)[id := old(arena.attrs)[id].(params := Params(position, offset, scale, angle, alpha))]
      ensures arena.world == Refreshed(arena.parent, arena.attrs, rank, top, old(arena.world), Subtree(arena.children, rank, id))
    {
      arena := arena.(attrs := arena.attrs[id := arena.attrs[id].(params := Params(position, offset, scale, angle, alpha))]);
      CalcTransformationMatrix(id);
    }

    /**
     * `scaleAroundPoint(s, p)`: for a scale above `MIN_SCALE` the layer's
     * scale becomes `s` and its position is multiplied component-wise by
     * `p * (s - scale)`; in every case the transformations of its subtree
     * are recomputed.
     */
    method ScaleAroundPoint(id: nat, s: real, p: Vec3)
      requires Valid() && id in arena.children && Intact(id)
      modifies this`arena
      ensures Valid()
      ensures arena == old(arena).(attrs := arena.attrs, world := arena.world)
      ensures arena.attrs == old(arena.attrs)[id := old(arena.attrs)[id].(params := Rescaled(old(arena.attrs)[id].params, s, p))]
      ensures arena.world == Refreshed(arena.parent, arena.attrs, rank, top, old(arena.world), Subtree(arena.children, rank, id))
    {
      arena := arena.(attrs := arena.attrs[id := arena.attrs[id].(params := Rescaled(arena.attrs[id].params, s, p))]);
      CalcTransformationMatrix(id);
    }

    /**
     * `simulate(times)`: the skeleton steps of the visible part of the
     * subtree are issued in order. Only a layer that is stepped goes on to
     * read its vector, so only those vectors must exist.
     */
    method Simulate(id: nat, times: int)
      requires Valid() && id in arena.children
      requires SteppedIntact(arena.children, arena.attrs, arena.released, rank, id)
      modifies this`steps
      ensures steps == old(steps) + Simulated(arena.children, arena.attrs, rank, id, times)
    {
      var log := SimulateFrom(arena.children, arena.attrs, arena.released, rank, id, times);
      steps := steps + log;
    }

    /** `setVisibility(v)`: every layer of the subtree gets the flag `v`. */
    method SetVisibility(id: nat, v: bool)
      requires Valid() && id in arena.children && Intact(id)
      modifies this`arena
      ensures Valid()
      ensures arena == old(arena).(attrs := WithVisibility(old(arena.attrs), Subtree(old(arena.children), rank, id), v))
    {
      var at := SpreadVisibility(arena.children, arena.attrs, arena.released, rank, id, v);
      arena := arena.(attrs := at);
    }

    /** `getAccumulatedAlpha`: the layer's alpha times its parent's accumulated alpha. */
    function AccumulatedAlpha(id: nat): (r: real)
      reads this`arena, this`layerCount, this`rank, this`top
      requires Valid() && id in arena.children
      ensures r == AlphaProduct(arena.attrs, Ancestry(arena.parent, rank, top, id))
      decreases top - rank[id]
    {
      var a := arena.attrs[id].params.alpha;
      match arena.parent[id]
      case None => a
      case Some(q) => a * AccumulatedAlpha(q)
    }

    /**
     * With every alpha in [0, 1], the accumulated alpha lies in [0, 1] and
     * never exceeds the alpha of the layer or of any of its ancestors.
     */
    lemma AccumulatedAlphaBounds(id: nat)
      requires Valid() && id in arena.children
      requires forall n :: n in arena.attrs ==> 0.0 <= arena.attrs[n].params.alpha <= 1.0
      ensures 0.0 <= AccumulatedAlpha(id) <= 1.0
      ensures forall n :: n in Ancestry(arena.parent, rank, top, id) ==> AccumulatedAlpha(id) <= arena.attrs[n].params.alpha
    {
      var a := Ancestry(arena.parent, rank, top, id);
      AlphaProductBounds(arena.attrs, a);
    }

    /**
     * `makeLayer`: a new layer whose parent is `id`, pushed after `id`'s
     * other layers; a released vector is created anew first.
     */
    method MakeLayer(id: nat) returns (l: nat)
      requires Valid() && id in arena.children
      modifies this`arena, this`layerCount, this`rank, this`top
      ensures Valid()
      ensures l == old(layerCount) && l !in old(arena.children) && layerCount == old(layerCount) + 1
      ensures arena == old(arena).(children := old(arena.children)[l := []][id := old(arena.children)[id] + [l]],
                                   released := old(arena.released) - {id},
                                   parent := old(arena.parent)[l := Some(id)],
                                   attrs := old(arena.attrs)[l := Fresh(l)], world := arena.world)
      ensures arena.world == old(arena.world)[l := World(arena.parent, arena.attrs, rank, top, l)]
      ensures rank == Shifted(old(rank), l) && top == old(top) + 1
    {
      l := NewLayer(Some(id));
      AdoptedLayer(arena.children, arena.released, arena.parent, arena.attrs, layerCount, rank, top, id, l);
      arena := arena.(children := arena.children[id := arena.children[id] + [l]], released := arena.released - {id});
    }

    /** `addSublayer`: `sub` is pushed onto `id`'s vector and its parent pointer names `id`. */
    method AddSublayer(id: nat, sub: nat)
      requires Valid() && id in arena.children && id !in arena.released && sub in arena.children
      requires sub !in Above(arena.children, arena.parent, rank, top, id)
      modifies this`arena, this`rank, this`top
      ensures Valid()
      ensures arena == old(arena).(children := old(arena.children)[id := old(arena.children)[id] + [sub]],
                                   parent := old(arena.parent)[sub := Some(id)])
    {
      LinkedSublayer(arena.children, arena.released, arena.parent, arena.attrs, layerCount, rank, top, id, sub);
      var ch: Lists, par: Links := arena.children[id := arena.children[id] + [sub]], arena.parent[sub := Some(id)];
      ghost var r: map<nat, nat> := Lift(rank, Above(arena.children, arena.parent, rank, top, id), top, arena.children.Keys);
      arena, rank, top := arena.(children := ch, parent := par), r, 2 * top;
    }

    /** `addSublayers`: each of `subs` is pushed onto `id`'s vector in turn; no parent pointer changes. */
    method AddSublayers(id: nat, subs: seq<nat>)
      requires Valid() && id in arena.children && id !in arena.released
      requires forall c :: c in subs ==> c in arena.children && c !in Above(arena.children, arena.parent, rank, top, id)
      modifies this`arena, this`rank, this`top
      ensures Valid()
      ensures arena == old(arena).(children := old(arena.children)[id := old(arena.children)[id] + subs])
    {
      var v := arena.children[id];
      for i := 0 to |subs|
        modifies {}
        invariant v == arena.children[id] + subs[..i]
      {
        assert subs[..i + 1] == subs[..i] + [subs[i]];
        v := v + [subs[i]];
      }
      assert v == arena.children[id] + subs by {
        assert subs[..|subs|] == subs;
      }
      AppendedSublayers(arena.children, arena.released, arena.parent, arena.attrs, layerCount, rank, top, id, subs);
      arena, rank, top := arena.(children := arena.children[id := v]),
        Lift(rank, Above(arena.children, arena.parent, rank, top, id), top, arena.children.Keys), 2 * top;
    }

    /**
     * Deleting the layers of `doomed` (each `delete` runs `~Layer`, whose
     * `eraseLayers` deletes that layer's vector in turn) while `owner`'s
     * vector becomes `kept`. Since a deleted layer deletes its vector too,
     * `doomed` holds every entry of its layers' vectors.
     */
    method Discard(owner: nat, kept: seq<nat>, doomed: set<nat>, release: bool)
      requires Valid() && owner in arena.children && owner !in doomed && doomed <= arena.children.Keys
      requires Detached(arena.children, arena.parent, owner, doomed)
      requires forall n, i :: n in doomed && 0 <= i < |arena.children[n]| ==> arena.children[n][i] in doomed
      requires forall c :: c in kept ==>
        c in arena.children && c !in doomed &&
        (c in arena.children[owner] || c !in Above(arena.children, arena.parent, rank, top, owner))
      requires release ==> kept == []
      modifies this`arena, this`rank, this`top
      ensures Valid()
      ensures arena == Removed(old(arena), doomed, owner, kept, release)
    {
      Pruned(arena.children, arena.released, arena.parent, arena.attrs, layerCount, rank, top, owner, kept, doomed, release);
      ghost var r: map<nat, nat> :=
        Lift(rank, Above(arena.children, arena.parent, rank, top, owner), top, (arena.children - doomed).Keys);
      arena, rank, top := Removed(arena, doomed, owner, kept, release), r, 2 * top;
    }

    /**
     * `eraseLayers`: unless the vector is already released, every layer
     * below `id` is deleted and `id`'s vector is released.
     */
    method EraseLayers(id: nat)
      requires Valid() && id in arena.children
      requires Detached(arena.children, arena.parent, id, Descendants(arena.children, rank, id))
      modifies this`arena, this`rank, this`top
      ensures Valid()
      ensures id in old(arena.released) ==> arena == old(arena)
      ensures id !in old(arena.released) ==>
        arena == Removed(old(arena), Descendants(old(arena.children), old(rank), id), id, [], true)
    {
      if id !in arena.released {
        var all := Collect(arena.children, rank, id);
        NotOwnDescendant(arena.children, rank, id);
        SubtreeClosed(arena.children, rank, id);
        Discard(id, [], all - {id}, true);
      }
    }

    /**
     * `setLayers`: with no vector nothing happens; otherwise the layers
     * below `id` are deleted as by `eraseLayers` and `list` becomes `id`'s
     * vector.
     */
    method SetLayers(id: nat, newLayers: Option<seq<nat>>)
      requires Valid() && id in arena.children
      requires newLayers.Some? ==> Replaceable(arena.children, arena.parent, rank, top, id, newLayers.value)
      modifies this`arena, this`rank, this`top
      ensures Valid()
      ensures newLayers.None? ==> arena == old(arena)
      ensures newLayers.Some? ==>
        arena == Removed(old(arena), Descendants(old(arena.children), old(rank), id), id, newLayers.value, false)
    {
      if newLayers.Some? {
        var all := Collect(arena.children, rank, id);
        NotOwnDescendant(arena.children, rank, id);
        SubtreeClosed(arena.children, rank, id);
        Discard(id, newLayers.value, all - {id}, false);
      }
    }

    /**
     * `deleteSublayer(x)`: -1 when `x` is not in `id`'s vector, and nothing
     * changes; otherwise its first occurrence is erased, `x` and everything
     * below it is deleted, and the result is 0.
     */
    method DeleteSublayer(id: nat, x: nat) returns (r: int)
      requires Valid() && id in arena.children && id !in arena.released
      requires x in arena.children[id] ==> x in arena.children && Removable(arena.children, arena.parent, rank, id, x)
      modifies this`arena, this`rank, this`top
      ensures Valid()
      ensures r == (if x in old(arena.children[id]) then 0 else -1)
      ensures r == -1 ==> arena == old(arena)
      ensures r == 0 ==>
        arena == Removed(old(arena), Subtree(old(arena.children), old(rank), x), id,
                         RemoveFirst(old(arena.children[id]), x), false)
      ensures r == 0 ==> forall n, i :: n in arena.children && 0 <= i < |arena.children[n]| ==>
        arena.children[n][i] !in Subtree(old(arena.children), old(rank), x)
      ensures r == 0 ==> forall n :: n in arena.parent && arena.parent[n].Some? ==>
        arena.parent[n].value !in Subtree(old(arena.children), old(rank), x)
    {
      if x !in arena.children[id] {
        return -1;
      }
      var kept := RemoveFirst(arena.children[id], x);
      var doomed := Collect(arena.children, rank, x);
      NotBelowOwnChild(arena.children, rank, id, x);
      SubtreeClosed(arena.children, rank, x);
      Discard(id, kept, doomed, false);
      r := 0;
    }
  }
}
