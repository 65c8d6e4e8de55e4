/**
 * The shape of the layer tree, as values: every layer's child vector, every
 * layer's parent pointer, and a ghost rank that orders them.
 *
 * A layer's child vector and its parent pointer are independent in the
 * source: `addSublayer` sets both, `addSublayers` and `setLayers` only fill
 * the vector, and the constructor only sets the pointer. The rank is a
 * single measure that strictly increases from a layer to every layer whose
 * vector holds it and to the layer its pointer names. It exists so that the
 * recursive descent through vectors and the walk up parent pointers both
 * terminate; the structural edits keep it, given that no edit makes a layer
 * lie below itself.
 */
module Hierarchy {

  datatype Option<T> = None | Some(value: T)

  /** Each layer's child vector (`Layer::layers`), by layer id. */
  type Lists = map<nat, seq<nat>>

  /** Each layer's parent pointer (`Layer::parent`), by layer id. */
  type Links = map<nat, Option<nat>>

  /** `c` lies directly below `m`: `m`'s vector holds `c`, or `c`'s parent is `m`. */
  ghost predicate Over(ch: Lists, par: Links, c: nat, m: nat)
  {
    (m in ch && c in ch[m]) || (c in par && par[c] == Some(m))
  }

  /** Every vector entry and every parent pointer names a layer of the arena. */
  ghost predicate Closed(ch: Lists, par: Links)
  {
    && ch.Keys == par.Keys
    && (forall m, i :: m in ch && 0 <= i < |ch[m]| ==> ch[m][i] in ch)
    && (forall n :: n in par && par[n].Some? ==> par[n].value in par)
  }

  ghost predicate ChildRanked(ch: Lists, rank: map<nat, nat>)
  {
    && ch.Keys == rank.Keys
    && (forall m, i :: m in ch && 0 <= i < |ch[m]| ==> ch[m][i] in rank && rank[ch[m][i]] < rank[m])
  }

  ghost predicate ParentRanked(par: Links, rank: map<nat, nat>, top: nat)
  {
    && par.Keys == rank.Keys
    && (forall n :: n in rank ==> rank[n] < top)
    && (forall n :: n in par && par[n].Some? ==> par[n].value in rank && rank[n] < rank[par[n].value])
  }

  /** `rank` orders the arena: everything below a layer has a smaller rank, all below `top`. */
  ghost predicate Ranked(ch: Lists, par: Links, rank: map<nat, nat>, top: nat)
  {
    ChildRanked(ch, rank) && ParentRanked(par, rank, top)
  }

  lemma RankedIsClosed(ch: Lists, par: Links, rank: map<nat, nat>, top: nat)
    requires Ranked(ch, par, rank, top)
    ensures Closed(ch, par)
  {
  }

  // ---------------------------------------------------------------------
  // Descent through child vectors
  // ---------------------------------------------------------------------

  /** `n` and every layer reachable from it through child vectors. */
  ghost function Subtree(ch: Lists, rank: map<nat, nat>, n: nat): (s: set<nat>)
    requires ChildRanked(ch, rank) && n in ch
    ensures n in s && s <= ch.Keys
    decreases rank[n], 1, 0
  {
    {n} + Forest(ch, rank, ch[n], rank[n])
  }

  /** The union of the subtrees of `cs`, all of which rank below `bound`. */
  ghost function Forest(ch: Lists, rank: map<nat, nat>, cs: seq<nat>, bound: nat): (s: set<nat>)
    requires ChildRanked(ch, rank)
    requires forall c :: c in cs ==> c in ch && rank[c] < bound
    ensures s <= ch.Keys
    decreases bound, 0, |cs|
  {
    if cs == [] then {}
    else Forest(ch, rank, cs[..|cs| - 1], bound) + Subtree(ch, rank, cs[|cs| - 1])
  }

  /** The layers strictly below `n` in its child vectors. */
  ghost function Descendants(ch: Lists, rank: map<nat, nat>, n: nat): set<nat>
    requires ChildRanked(ch, rank) && n in ch
  {
    Forest(ch, rank, ch[n], rank[n])
  }

  /** A forest over a prefix grows by the next subtree. */
  lemma ForestStep(ch: Lists, rank: map<nat, nat>, cs: seq<nat>, bound: nat, i: nat)
    requires ChildRanked(ch, rank)
    requires forall c :: c in cs ==> c in ch && rank[c] < bound
    requires i < |cs|
    ensures Forest(ch, rank, cs[..i + 1], bound) == Forest(ch, rank, cs[..i], bound) + Subtree(ch, rank, cs[i])
  {
    assert cs[..i + 1][..i] == cs[..i];
  }

  /** A layer of a forest lies in the subtree of one of its roots, and conversely. */
  lemma {:induction false} ForestMembers(ch: Lists, rank: map<nat, nat>, cs: seq<nat>, bound: nat, m: nat)
    requires ChildRanked(ch, rank)
    requires forall c :: c in cs ==> c in ch && rank[c] < bound
    ensures m in Forest(ch, rank, cs, bound) <==> exists i :: 0 <= i < |cs| && m in Subtree(ch, rank, cs[i])
  {
    if cs != [] {
      var init := cs[..|cs| - 1];
      ForestMembers(ch, rank, init, bound, m);
      if m in Forest(ch, rank, cs, bound) {
        if m !in Subtree(ch, rank, cs[|cs| - 1]) {
          var i :| 0 <= i < |init| && m in Subtree(ch, rank, init[i]);
          assert cs[i] == init[i];
        }
      } else {
        forall i | 0 <= i < |cs| ensures m !in Subtree(ch, rank, cs[i]) {
          if i < |init| { assert cs[i] == init[i]; }
        }
      }
    }
  }

  /** A layer's subtree holds only layers that rank no higher than it. */
  lemma {:induction false} SubtreeRanks(ch: Lists, rank: map<nat, nat>, n: nat, m: nat)
    requires ChildRanked(ch, rank) && n in ch
    requires m in Subtree(ch, rank, n)
    ensures m in ch && rank[m] <= rank[n]
    decreases rank[n]
  {
    if m != n {
      ForestMembers(ch, rank, ch[n], rank[n], m);
      var i :| 0 <= i < |ch[n]| && m in Subtree(ch, rank, ch[n][i]);
      SubtreeRanks(ch, rank, ch[n][i], m);
    }
  }

  /** A layer never lies strictly below itself. */
  lemma NotOwnDescendant(ch: Lists, rank: map<nat, nat>, n: nat)
    requires ChildRanked(ch, rank) && n in ch
    ensures n !in Descendants(ch, rank, n)
  {
    if n in Descendants(ch, rank, n) {
      ForestMembers(ch, rank, ch[n], rank[n], n);
      var i :| 0 <= i < |ch[n]| && n in Subtree(ch, rank, ch[n][i]);
      SubtreeRanks(ch, rank, ch[n][i], n);
      assert false;
    }
  }

  /** A layer does not lie in the subtree of any entry of its own vector. */
  lemma NotBelowOwnChild(ch: Lists, rank: map<nat, nat>, n: nat, c: nat)
    requires ChildRanked(ch, rank) && n in ch && c in ch[n]
    ensures n !in Subtree(ch, rank, c)
  {
    if n in Subtree(ch, rank, c) {
      SubtreeRanks(ch, rank, c, n);
    }
  }

  /** The subtree of each root of a forest is part of the forest. */
  lemma ForestCovers(ch: Lists, rank: map<nat, nat>, cs: seq<nat>, bound: nat, i: nat)
    requires ChildRanked(ch, rank)
    requires forall c :: c in cs ==> c in ch && rank[c] < bound
    requires i < |cs|
    ensures Subtree(ch, rank, cs[i]) <= Forest(ch, rank, cs, bound)
  {
    forall m | m in Subtree(ch, rank, cs[i]) ensures m in Forest(ch, rank, cs, bound) {
      ForestMembers(ch, rank, cs, bound, m);
    }
  }

  /** Visiting the `i`-th child of `n` adds its subtree, which lies inside `n`'s. */
  lemma ChildVisit(ch: Lists, rank: map<nat, nat>, n: nat, i: nat)
    requires ChildRanked(ch, rank) && n in ch && i < |ch[n]|
    ensures ch[n][i] in ch
    ensures Forest(ch, rank, ch[n][..i + 1], rank[n]) == Forest(ch, rank, ch[n][..i], rank[n]) + Subtree(ch, rank, ch[n][i])
    ensures Subtree(ch, rank, ch[n][i]) <= Subtree(ch, rank, n)
  {
    ForestStep(ch, rank, ch[n], rank[n], i);
    ForestCovers(ch, rank, ch[n], rank[n], i);
  }

  /** A downward path: each layer is held in the vector of the one before it. */
  ghost predicate IsPath(ch: Lists, p: seq<nat>)
  {
    && |p| >= 1
    && (forall i :: 0 <= i < |p| ==> p[i] in ch)
    && (forall i :: 0 <= i < |p| - 1 ==> p[i + 1] in ch[p[i]])
  }

  /** The subtree of `n` is exactly what downward paths from `n` reach. */
  lemma {:induction false} SubtreeIsReachable(ch: Lists, rank: map<nat, nat>, n: nat, m: nat)
    requires ChildRanked(ch, rank) && n in ch
    ensures m in Subtree(ch, rank, n) <==> exists p :: IsPath(ch, p) && p[0] == n && p[|p| - 1] == m
    decreases rank[n]
  {
    if m in Subtree(ch, rank, n) {
      if m == n {
        assert IsPath(ch, [n]);
      } else {
        ForestMembers(ch, rank, ch[n], rank[n], m);
        var i :| 0 <= i < |ch[n]| && m in Subtree(ch, rank, ch[n][i]);
        SubtreeIsReachable(ch, rank, ch[n][i], m);
        var q :| IsPath(ch, q) && q[0] == ch[n][i] && q[|q| - 1] == m;
        var p := [n] + q;
        assert forall k :: 0 <= k < |p| - 1 ==> p[k + 1] == q[k];
        assert IsPath(ch, p);
      }
    } else {
      forall p | IsPath(ch, p) && p[0] == n ensures p[|p| - 1] != m {
        PathStaysInSubtree(ch, rank, p);
      }
    }
  }

  /** Everything a downward path visits lies in the subtree of its start. */
  lemma {:induction false} PathStaysInSubtree(ch: Lists, rank: map<nat, nat>, p: seq<nat>)
    requires ChildRanked(ch, rank) && IsPath(ch, p)
    ensures p[|p| - 1] in Subtree(ch, rank, p[0])
    decreases |p|
  {
    if |p| > 1 {
      var q := p[1..];
      assert IsPath(ch, q) by {
        assert forall k :: 0 <= k < |q| ==> q[k] == p[k + 1];
      }
      PathStaysInSubtree(ch, rank, q);
      var cs := ch[p[0]];
      var i :| 0 <= i < |cs| && cs[i] == p[1];
      ForestCovers(ch, rank, cs, rank[p[0]], i);
    }
  }

  /** A subtree holds the vector of each of its layers. */
  lemma SubtreeHoldsChildren(ch: Lists, rank: map<nat, nat>, n: nat, m: nat, c: nat)
    requires ChildRanked(ch, rank) && n in ch && m in Subtree(ch, rank, n) && c in ch[m]
    ensures c in Subtree(ch, rank, n)
  {
    SubtreeIsReachable(ch, rank, n, m);
    var p :| IsPath(ch, p) && p[0] == n && p[|p| - 1] == m;
    var q := p + [c];
    assert forall k :: 0 <= k < |p| ==> q[k] == p[k];
    assert IsPath(ch, q);
    PathStaysInSubtree(ch, rank, q);
  }

  /**
   * A subtree is closed under vector entries, and no entry of its layers
   * is its root: deleting a subtree, or what lies below its root, takes
   * every layer those vectors hold.
   */
  lemma SubtreeClosed(ch: Lists, rank: map<nat, nat>, n: nat)
    requires ChildRanked(ch, rank) && n in ch
    ensures forall m, i :: m in Subtree(ch, rank, n) && 0 <= i < |ch[m]| ==>
      ch[m][i] in Subtree(ch, rank, n) && ch[m][i] != n
  {
    forall m, i | m in Subtree(ch, rank, n) && 0 <= i < |ch[m]|
      ensures ch[m][i] in Subtree(ch, rank, n) && ch[m][i] != n
    {
      SubtreeHoldsChildren(ch, rank, n, m, ch[m][i]);
      SubtreeRanks(ch, rank, n, m);
    }
  }

  /** Every layer appears at most once in all the vectors together: the vectors form a forest. */
  ghost predicate ListedOnce(ch: Lists)
  {
    forall m, i, m', j :: m in ch && m' in ch && 0 <= i < |ch[m]| && 0 <= j < |ch[m']| && ch[m][i] == ch[m'][j]
      ==> m == m' && i == j
  }

  /** Every layer of a subtree other than its root is held in the vector of a layer of the subtree. */
  lemma {:induction false} ListerInSubtree(ch: Lists, rank: map<nat, nat>, n: nat, m: nat) returns (l: nat, i: nat)
    requires ChildRanked(ch, rank) && n in ch && m in Subtree(ch, rank, n) && m != n
    ensures l in Subtree(ch, rank, n) && l in ch && i < |ch[l]| && ch[l][i] == m
    decreases rank[n]
  {
    ForestMembers(ch, rank, ch[n], rank[n], m);
    var k :| 0 <= k < |ch[n]| && m in Subtree(ch, rank, ch[n][k]);
    ChildVisit(ch, rank, n, k);
    if m == ch[n][k] {
      l, i := n, k;
    } else {
      l, i := ListerInSubtree(ch, rank, ch[n][k], m);
    }
  }

  /** In a forest two subtrees that share a layer are nested. */
  lemma {:induction false} SubtreesNest(ch: Lists, rank: map<nat, nat>, a: nat, b: nat, m: nat)
    requires ChildRanked(ch, rank) && ListedOnce(ch) && a in ch && b in ch
    requires m in Subtree(ch, rank, a) && m in Subtree(ch, rank, b)
    ensures a in Subtree(ch, rank, b) || b in Subtree(ch, rank, a)
    decreases rank[a] + rank[b]
  {
    if m != a {
      ForestMembers(ch, rank, ch[a], rank[a], m);
      var k :| 0 <= k < |ch[a]| && m in Subtree(ch, rank, ch[a][k]);
      ChildVisit(ch, rank, a, k);
      var c := ch[a][k];
      SubtreesNest(ch, rank, c, b, m);
      if c in Subtree(ch, rank, b) && c != b {
        var l, i := ListerInSubtree(ch, rank, b, c);
        assert ch[l][i] == ch[a][k];
      }
    }
  }

  /** In a forest the subtrees of two entries of one vector share no layer. */
  lemma SiblingsDisjoint(ch: Lists, rank: map<nat, nat>, n: nat, i: nat, j: nat)
    requires ChildRanked(ch, rank) && ListedOnce(ch) && n in ch && i < j < |ch[n]|
    ensures ch[n][i] in ch && ch[n][j] in ch
    ensures Subtree(ch, rank, ch[n][i]) !! Subtree(ch, rank, ch[n][j])
  {
    var a, b := ch[n][i], ch[n][j];
    if m :| m in Subtree(ch, rank, a) && m in Subtree(ch, rank, b) {
      SubtreesNest(ch, rank, a, b, m);
      if a in Subtree(ch, rank, b) {
        var l, k := ListerInSubtree(ch, rank, b, a);
        assert ch[l][k] == ch[n][i];
        NotBelowOwnChild(ch, rank, n, b);
      } else {
        var l, k := ListerInSubtree(ch, rank, a, b);
        assert ch[l][k] == ch[n][j];
        NotBelowOwnChild(ch, rank, n, a);
      }
    }
  }

  /** In a forest the subtree of the `i`-th entry of a vector shares no layer with those of the entries before it. */
  lemma EarlierSiblingsDisjoint(ch: Lists, rank: map<nat, nat>, n: nat, i: nat)
    requires ChildRanked(ch, rank) && ListedOnce(ch) && n in ch && i < |ch[n]|
    ensures ch[n][i] in ch && Forest(ch, rank, ch[n][..i], rank[n]) !! Subtree(ch, rank, ch[n][i])
  {
    var cs := ch[n];
    forall m | m in Forest(ch, rank, cs[..i], rank[n]) ensures m !in Subtree(ch, rank, cs[i]) {
      ForestMembers(ch, rank, cs[..i], rank[n], m);
      var j :| 0 <= j < i && m in Subtree(ch, rank, cs[..i][j]);
      assert cs[..i][j] == cs[j];
      SiblingsDisjoint(ch, rank, n, j, i);
    }
  }

  /** Every parent pointer is matched by an entry in that parent's vector. */
  ghost predicate ParentsListed(ch: Lists, par: Links)
  {
    forall c :: c in par && par[c].Some? ==> par[c].value in ch && c in ch[par[c].value]
  }

  // ---------------------------------------------------------------------
  // Ascent: what lies above a layer
  // ---------------------------------------------------------------------

  /**
   * `x` and every layer above it: reachable by going from a layer to a
   * layer whose vector holds it, or to the layer its parent pointer names.
   * Making any of these a child of `x` would put `x` below itself.
   */
  ghost function Above(ch: Lists, par: Links, rank: map<nat, nat>, top: nat, x: nat): set<nat>
    requires Ranked(ch, par, rank, top) && x in ch
    decreases top - rank[x]
  {
    {x} + (set y, z | y in ch && Over(ch, par, x, y) && z in Above(ch, par, rank, top, y) :: z)
  }

  /** `Above(x)` is closed upward. */
  lemma {:induction false} AboveUpClosed(ch: Lists, par: Links, rank: map<nat, nat>, top: nat, x: nat, c: nat, m: nat)
    requires Ranked(ch, par, rank, top) && x in ch
    requires c in Above(ch, par, rank, top, x) && Over(ch, par, c, m)
    ensures m in ch && m in Above(ch, par, rank, top, x)
    decreases top - rank[x]
  {
    if c == x {
      assert m in Above(ch, par, rank, top, m);
    } else {
      var y :| y in ch && Over(ch, par, x, y) && c in Above(ch, par, rank, top, y);
      AboveUpClosed(ch, par, rank, top, y, c, m);
    }
  }

  /** Ranks after a structural edit: everything above `owner` is lifted by `top`. */
  ghost function Lift(rank: map<nat, nat>, above: set<nat>, top: nat, keys: set<nat>): map<nat, nat>
    requires keys <= rank.Keys
  {
    map n | n in keys :: rank[n] + (if n in above then top else 0)
  }

  /**
   * An edit that keeps only links that already existed, except for new
   * links from `owner` down to layers not above it, keeps the arena ranked.
   */
  lemma Relink(ch: Lists, par: Links, rank: map<nat, nat>, top: nat,
               ch': Lists, par': Links, owner: nat)
    requires Ranked(ch, par, rank, top) && owner in ch
    requires ch'.Keys <= ch.Keys && Closed(ch', par')
    requires forall c, m :: Over(ch', par', c, m) ==>
               Over(ch, par, c, m) || (m == owner && c !in Above(ch, par, rank, top, owner))
    ensures Ranked(ch', par', Lift(rank, Above(ch, par, rank, top, owner), top, ch'.Keys), 2 * top)
  {
    var A := Above(ch, par, rank, top, owner);
    var r := Lift(rank, A, top, ch'.Keys);
    assert owner in A;
    forall m, c | m in ch' && c in ch'[m] ensures c in r && r[c] < r[m] {
      assert Over(ch', par', c, m);
      if Over(ch, par, c, m) {
        if c in A { AboveUpClosed(ch, par, rank, top, owner, c, m); }
      }
    }
    forall n | n in par' && par'[n].Some? ensures par'[n].value in r && r[n] < r[par'[n].value] {
      var m := par'[n].value;
      assert Over(ch', par', n, m);
      if Over(ch, par, n, m) {
        if n in A { AboveUpClosed(ch, par, rank, top, owner, n, m); }
      }
    }
  }

  /** Ranks after adding the layer `id`: it ranks lowest, every other layer one higher. */
  ghost function Shifted(rank: map<nat, nat>, id: nat): map<nat, nat>
  {
    (map n | n in rank :: rank[n] + 1)[id := 0]
  }

  /** A fresh layer with no children and an existing (or no) parent keeps the arena ranked. */
  lemma Adjoin(ch: Lists, par: Links, rank: map<nat, nat>, top: nat, id: nat, p: Option<nat>)
    requires Ranked(ch, par, rank, top) && id !in ch
    requires p.Some? ==> p.value in ch
    ensures Ranked(ch[id := []], par[id := p], Shifted(rank, id), top + 1)
  {
  }

  /** `addSublayer`: `sub` joins the end of `id`'s vector and names `id` as its parent. */
  lemma AppendLinked(ch: Lists, par: Links, rank: map<nat, nat>, top: nat, id: nat, sub: nat)
    requires Ranked(ch, par, rank, top) && id in ch && sub in ch
    requires sub !in Above(ch, par, rank, top, id)
    ensures Ranked(ch[id := ch[id] + [sub]], par[sub := Some(id)],
                   Lift(rank, Above(ch, par, rank, top, id), top, ch.Keys), 2 * top)
  {
    var ch': Lists, par': Links := ch[id := ch[id] + [sub]], par[sub := Some(id)];
    forall c: nat, m: nat | Over(ch', par', c, m)
      ensures Over(ch, par, c, m) || (m == id && c !in Above(ch, par, rank, top, id))
    {
      if m in ch' && c in ch'[m] && m == id && c != sub {
        assert c in ch[id];
      }
    }
    Relink(ch, par, rank, top, ch', par', id);
  }

  /** `addSublayers`: `subs` join the end of `id`'s vector; no parent pointer changes. */
  lemma AppendAll(ch: Lists, par: Links, rank: map<nat, nat>, top: nat, id: nat, subs: seq<nat>)
    requires Ranked(ch, par, rank, top) && id in ch
    requires forall c :: c in subs ==> c in ch && c !in Above(ch, par, rank, top, id)
    ensures Ranked(ch[id := ch[id] + subs], par, Lift(rank, Above(ch, par, rank, top, id), top, ch.Keys), 2 * top)
  {
    var ch': Lists := ch[id := ch[id] + subs];
    forall c, m | Over(ch', par, c, m)
      ensures Over(ch, par, c, m) || (m == id && c !in Above(ch, par, rank, top, id))
    {
      if m in ch' && c in ch'[m] && m == id && c !in subs {
        assert c in ch[id];
      }
    }
    Relink(ch, par, rank, top, ch', par, id);
  }

  /**
   * No layer outside `doomed`, except `owner`, holds a layer of `doomed` in
   * its vector or names one as its parent.
   */
  ghost predicate Detached(ch: Lists, par: Links, owner: nat, doomed: set<nat>)
  {
    && (forall n, i :: n in ch && n !in doomed && n != owner && 0 <= i < |ch[n]| ==> ch[n][i] !in doomed)
    && (forall n :: n in par && n !in doomed && par[n].Some? ==> par[n].value !in doomed)
  }

  /**
   * Removing the layers of `doomed` while `owner`'s vector becomes `kept`
   * keeps the arena ranked, provided nothing left behind refers into
   * `doomed` and `kept` adds no layer that lies above `owner`.
   */
  lemma Prune(ch: Lists, par: Links, rank: map<nat, nat>, top: nat, owner: nat, kept: seq<nat>, doomed: set<nat>)
    requires Ranked(ch, par, rank, top) && owner in ch && owner !in doomed && doomed <= ch.Keys
    requires Detached(ch, par, owner, doomed)
    requires forall c :: c in kept ==>
      c in ch && c !in doomed && (c in ch[owner] || c !in Above(ch, par, rank, top, owner))
    ensures Ranked((ch - doomed)[owner := kept], par - doomed,
                   Lift(rank, Above(ch, par, rank, top, owner), top, (ch - doomed).Keys), 2 * top)
  {
    var ch': Lists, par': Links := (ch - doomed)[owner := kept], par - doomed;
    assert Closed(ch', par') by {
      forall m, i | m in ch' && 0 <= i < |ch'[m]| ensures ch'[m][i] in ch' {
        if m != owner {
          assert ch'[m][i] == ch[m][i] && ch[m][i] in ch[m];
        } else {
          assert ch'[m][i] in kept;
        }
      }
    }
    forall c: nat, m: nat | Over(ch', par', c, m)
      ensures Over(ch, par, c, m) || (m == owner && c !in Above(ch, par, rank, top, owner))
    {
      if m in ch' && c in ch'[m] && m != owner {
        assert ch'[m] == ch[m];
      }
    }
    Relink(ch, par, rank, top, ch', par', owner);
  }

  /** A layer with an empty vector is its own whole subtree. */
  lemma LeafSubtree(ch: Lists, rank: map<nat, nat>, n: nat)
    requires ChildRanked(ch, rank) && n in ch && ch[n] == []
    ensures Subtree(ch, rank, n) == {n}
  {
  }

  // ---------------------------------------------------------------------
  // The parent chain
  // ---------------------------------------------------------------------

  /** `n`, its parent, its grandparent, ... up to a layer with no parent. */
  ghost function Ancestry(par: Links, rank: map<nat, nat>, top: nat, n: nat): (a: seq<nat>)
    requires ParentRanked(par, rank, top) && n in par
    ensures |a| >= 1 && a[0] == n && forall i :: 0 <= i < |a| ==> a[i] in par
    decreases top - rank[n]
  {
    [n] + match par[n] case None => [] case Some(p) => Ancestry(par, rank, top, p)
  }

  /** The chain starts at `n`, follows parent pointers and ends at a root. */
  lemma {:induction false} AncestryIsParentChain(par: Links, rank: map<nat, nat>, top: nat, n: nat)
    requires ParentRanked(par, rank, top) && n in par
    ensures var a := Ancestry(par, rank, top, n);
      && |a| >= 1 && a[0] == n
      && (forall i :: 0 <= i < |a| ==> a[i] in par)
      && (forall i :: 0 <= i < |a| - 1 ==> par[a[i]] == Some(a[i + 1]))
      && par[a[|a| - 1]].None?
    decreases top - rank[n]
  {
    var a := Ancestry(par, rank, top, n);
    if par[n].Some? {
      var p := par[n].value;
      AncestryIsParentChain(par, rank, top, p);
      var b := Ancestry(par, rank, top, p);
      assert a == [n] + b;
      assert forall i :: 0 <= i < |a| - 1 ==> a[i + 1] == b[i];
    }
  }
}
