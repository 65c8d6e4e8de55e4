# Animata layer tree, modelled in Dafny

Animata arranges a scene as a tree of `Layer` objects, implemented in `src/Layer.cpp`. Each layer has:
- local parameters: position, pivot (`offset`), uniform scale, rotation angle and alpha;
- a `visible` flag;
- a sixteen-byte name, `layer_%04d` from a static construction counter by default;
- an owned, ordered vector of sublayers (`layers`), which `eraseLayers` can release to NULL;
- a non-owning `parent` pointer;
- a cached world transformation.

The tree is edited by `makeLayer`, `addSublayer`, `addSublayers`, `setLayers`, `deleteSublayer` and `eraseLayers`, the latter reached through the destructor. It is walked recursively by `setVisibility`, `simulate` and `calcTransformationMatrix`. `getAccumulatedAlpha` folds the alphas up the parent chain.

The model is an arena. The class `Scene.LayerTree` holds:
- `arena`, an `Arena` value with one map per member field of `Layer`, keyed by layer id. A layer's id is the counter value it was constructed with. The maps hold the child vectors, the parent pointers, the parameters with the flag and the name, and the cached transformations; a set records the layers whose vector is released.
- `layerCount`, the static counter;
- `steps`, the log of `skeleton->simulate(times)` calls, in order;
- a ghost `rank`, which strictly increases from a layer to every layer whose vector holds it and to the layer its parent pointer names. Both the descent through vectors and the walk up parent pointers terminate because of it. It is one order over vector entries and parent pointers together, so it also excludes a cycle that mixes the two, which the source would survive (see "## Left out").

Every modelled member function of `Layer` is a method of `LayerTree`. `getName` and `drawWithoutRecursion` are left out, and the destructor enters only as the deletion it performs (`Discard`). It changes the fields the source changes and states the whole new state. The recursive traversals are module-level methods over the arena's maps: `Recompute`, `SpreadVisibility`, `SimulateFrom`, `Collect` and, for the parent walk, `ChainTransform`. Each one's loop follows the source's iterator loop and is proved equal to a specification function:
- `Refreshed` and `World` for the transformation;
- `WithVisibility` for the flag;
- `Simulated` for the skeleton steps;
- `Subtree` for the layers a `delete` destroys.

The lemmas in `Hierarchy` and `Traversals` prove what those functions mean:
- the reachability of the subtree;
- block-by-block ancestry of the transformation;
- alpha bounds;
- which layers `simulate` steps, and how often.

A world transformation is a sequence of symbolic operations:
1. translate by minus the pivot;
2. scale by (s, s, 1);
3. rotate;
4. translate by position plus pivot.

Each layer contributes these four operations, the layer's own first and then each ancestor's, just as `calcTransformationMatrix` multiplies them into its matrix.

Files:
- `geometry.dfy` (module `Geometry`): vectors and operations.
- `naming.dfy` (`Naming`): default names and the `setName` buffer.
- `hierarchy.dfy` (`Hierarchy`): vectors, parent pointers and rank, and the structural edits as values.
- `traversals.dfy` (`Traversals`): the specification functions of the traversals.
- `layer.dfy` (`Scene`): the arena class and the workers.

## Model

| member | source | states |
|---|---|---|
| Geometry.LocalOps | src/Layer.cpp:267-271 | a layer contributes four operations: translate by -offset, scale by (s, s, 1), rotate by the angle, translate by position + offset; the two translations add up to the position |
| Geometry.LocalOpsInjective | src/Layer.cpp:267-271 | two layers contribute the same operations exactly when position, pivot, scale and angle agree |
| Naming.FormatCounter | src/Layer.cpp:51 | `%04d` of the counter is at least four decimal digits |
| Naming.DefaultName | src/Layer.cpp:51 | a default name is `layer_` followed by at least four digits |
| Naming.DecimalRoundTrip | src/Layer.cpp:51 | the decimal digits of a number denote that number |
| Naming.LeadingZeros | src/Layer.cpp:51 | zero padding does not change the value of the digits |
| Naming.FormatCounterRoundTrip | src/Layer.cpp:51 | the counter can be read back from its `%04d` digits |
| Naming.DefaultNameRoundTrip | src/Layer.cpp:51 | the digits after `layer_` spell the counter the layer was built with |
| Naming.DefaultNameInjective | src/Layer.cpp:51-52 | two default names are equal exactly when they were built from the same counter value, so layers built in turn get distinct names |
| Naming.DecimalLength | src/Layer.cpp:51 | a number below 10^k has at most k digits |
| Naming.DefaultNameLength | src/Layer.cpp:51 | below 10000 a default name has exactly ten characters |
| Naming.StoredName | src/Layer.cpp:127-128 | what `strncpy` leaves behind the terminator: a NUL-free prefix of the argument, at most n characters, ending at n, at the argument's end or at its first NUL |
| Naming.SetNameResult | src/Layer.cpp:125-129 | `setName` keeps a prefix of at most fifteen characters; for a NUL-free argument exactly the first min(length, 15) |
| Naming.StoredNameIdempotent | src/Layer.cpp:125-129 | setting a layer's stored name again stores the same name |
| Hierarchy.RankedIsClosed | src/Layer.cpp:283-286 | in a ranked arena every vector entry and every parent pointer names a layer of the arena |
| Hierarchy.Subtree | src/Layer.cpp:283-286 | the layers a recursive traversal from `n` visits include `n` and lie in the arena |
| Hierarchy.ForestMembers | src/Layer.cpp:283-286 | a layer lies in the forest of a vector exactly when it lies in the subtree of one of its entries |
| Hierarchy.SubtreeRanks | src/Layer.cpp:283-286 | every layer of a subtree ranks no higher than its root |
| Hierarchy.SubtreeIsReachable | src/Layer.cpp:283-286 | the subtree of `n` is exactly what downward paths through vectors from `n` reach |
| Hierarchy.PathStaysInSubtree | src/Layer.cpp:283-286 | a downward path ends in the subtree of its start |
| Hierarchy.SubtreeHoldsChildren | src/Layer.cpp:283-286 | a subtree contains every entry of every vector of its layers |
| Hierarchy.SubtreeClosed | src/Layer.cpp:81-97 | every entry of a subtree's vectors lies in the subtree and is not its root, so deleting the subtree, or what lies below its root, leaves no entry of a deleted vector behind |
| Hierarchy.NotOwnDescendant | src/Layer.cpp:87-97 | `eraseLayers` on a layer never deletes that layer itself |
| Hierarchy.NotBelowOwnChild | src/Layer.cpp:334-347 | the layer `deleteSublayer` runs on is not in the subtree it deletes |
| Hierarchy.ListerInSubtree | src/Layer.cpp:283-286 | every layer of a subtree other than its root sits in the vector of a layer of that subtree |
| Hierarchy.SubtreesNest | src/Layer.cpp:254-257 | when every layer sits in at most one vector position, two subtrees that share a layer are nested |
| Hierarchy.SiblingsDisjoint | src/Layer.cpp:254-257 | under the same condition the subtrees of two entries of one vector are disjoint |
| Hierarchy.EarlierSiblingsDisjoint | src/Layer.cpp:254-257 | under the same condition an entry's subtree is disjoint from those of the entries before it |
| Hierarchy.AboveUpClosed | src/Layer.cpp:311-315 | whatever lies directly over a layer above `x` is itself above `x` |
| Hierarchy.Relink | src/Layer.cpp:104-110 | an edit that links only layers not above the edited layer to it keeps the arena ranked, after lifting the layers above it |
| Hierarchy.Adjoin | src/Layer.cpp:43-46 | adding a layer with an empty vector and an existing parent keeps the arena ranked |
| Hierarchy.AppendLinked | src/Layer.cpp:311-315 | pushing `sub` and pointing it at `id` keeps the arena ranked when `sub` is not above `id` |
| Hierarchy.AppendAll | src/Layer.cpp:321-327 | pushing layers none of which is above `id` keeps the arena ranked |
| Hierarchy.Prune | src/Layer.cpp:87-97 | removing layers nothing else refers to, and replacing the owner's vector with non-cyclic entries, keeps the arena ranked |
| Hierarchy.LeafSubtree | src/Layer.cpp:283-286 | the subtree of a layer with an empty vector is that layer alone |
| Hierarchy.Ancestry | src/Layer.cpp:273-279 | the chain `calcTransformationMatrix` walks starts at the layer and stays in the arena |
| Hierarchy.AncestryIsParentChain | src/Layer.cpp:273-279 | each element of the chain is the parent of the one before, and the last has no parent |
| Traversals.WorldAlongAncestry | src/Layer.cpp:265-280 | a world transformation has four operations per layer of the chain, block k being the k-th ancestor's own; a root's is its own four |
| Traversals.WorldChangesWithAncestors | src/Layer.cpp:265-280 | a world transformation changes exactly when the operations of the layer or of some ancestor change |
| Traversals.WorldUsesParamsOnly | src/Layer.cpp:265-280 | world transformations ignore visibility and names |
| Traversals.Refreshed | src/Layer.cpp:283-286 | recomputing a set of layers gives exactly the cached entries plus that set |
| Traversals.WorldOutsideSubtree | src/Layer.cpp:139-149 | with every parent pointer matched by a vector entry, a parameter change of `id` leaves the transformation of every layer outside its subtree as it was |
| Traversals.CacheStaysCurrent | src/Layer.cpp:139-149 | after `setup` or `scaleAroundPoint`, a cache that was current everywhere is current everywhere again, under the same condition |
| Traversals.RefreshedUnion | src/Layer.cpp:283-286 | recomputing one set and then another is recomputing their union |
| Traversals.RefreshedOne | src/Layer.cpp:265-280 | storing one layer's world transformation is recomputing that layer |
| Traversals.RefreshedIdempotent | src/Layer.cpp:265-287 | calling `calcTransformationMatrix` twice gives what calling it once gave |
| Traversals.WithVisibility | src/Layer.cpp:368-375 | setting a flag keeps the same layers |
| Traversals.WithVisibilityOne | src/Layer.cpp:370 | setting one layer's flag is setting it on that layer alone |
| Traversals.WithVisibilityUnion | src/Layer.cpp:372-374 | setting the flag on one set and then on another is setting it on their union |
| Traversals.WithVisibilityEffect | src/Layer.cpp:368-375 | afterwards exactly the given layers show `v`, whatever they showed before; every other layer and every other field is unchanged |
| Traversals.AlphaProductBounds | src/Layer.cpp:354-362 | with alphas in [0, 1] the accumulated product stays in [0, 1] and below the alpha of every layer of the chain |
| Traversals.SimulatedAllStep | src/Layer.cpp:254-257 | the steps of one more vector entry are appended after the earlier entries' |
| Traversals.SimulatedAllMembers | src/Layer.cpp:254-257 | a step is issued for a vector exactly when it is issued by one of its entries |
| Traversals.SimulatedReach | src/Layer.cpp:246-258 | `simulate` steps a layer exactly when a downward path of visible layers leads to it, and always with the given count |
| Traversals.SimulatedPath | src/Layer.cpp:246-258 | every stepped layer is reached by a visible downward path |
| Traversals.VisiblePathIsSimulated | src/Layer.cpp:246-258 | the end of every visible downward path is stepped |
| Traversals.SimulatedWithin | src/Layer.cpp:246-258 | `simulate` steps only layers of the subtree it starts from |
| Traversals.SimulatedOnce | src/Layer.cpp:246-258 | when every layer sits in at most one vector position, `simulate` steps each layer at most once |
| Traversals.SimulatedPrefixOnce | src/Layer.cpp:254-257 | the steps of the first k vector entries have no repeats and lie in the subtrees of those entries |
| Traversals.VisibleSubtreeSimulated | src/Layer.cpp:246-258 | when the whole subtree is visible, `simulate` steps exactly the layers of the subtree |
| Traversals.ShownThenSimulated | src/Layer.cpp:368-375 | `setVisibility(true)` and then `simulate` on the same layer step every layer of its subtree and nothing else |
| Traversals.HiddenThenSimulated | src/Layer.cpp:368-375 | `setVisibility(false)` and then `simulate` on the same layer step nothing |
| Traversals.HiddenSimulatesNothing | src/Layer.cpp:248-250 | a hidden layer's `simulate` steps no skeleton, not even those of its visible descendants |
| Scene.Rescaled | src/Layer.cpp:160-167 | for s > 0.1 the scale becomes s and the position is multiplied component-wise by p * (s - old scale); otherwise the parameters are unchanged; pivot, angle and alpha never change |
| Scene.FirstIndex | src/Layer.cpp:339-340 | `find` stops at a position holding `x`, with no earlier one |
| Scene.RemoveFirst | src/Layer.cpp:343 | `erase` there drops exactly one `x`, keeping the order of the entries before and after it |
| Scene.Fresh | src/Layer.cpp:51-57 | a new layer is visible, has unit scale and alpha, and is named after the counter |
| Scene.ConstructedLayer | src/Layer.cpp:43-52 | the new layer's id was not yet in use, and the arena stays consistent once it is added |
| Scene.AdoptedLayer | src/Layer.cpp:295-305 | pushing the new layer keeps the arena consistent and the vector exists again |
| Scene.LinkedSublayer | src/Layer.cpp:311-315 | `addSublayer` keeps the arena consistent |
| Scene.AppendedSublayers | src/Layer.cpp:321-327 | `addSublayers` keeps the arena consistent |
| Scene.ReleasedAfter | src/Layer.cpp:87-97 | after deletion the owner's vector is released exactly when it was erased; another vector is released exactly when it was released before and its layer survives |
| Scene.Pruned | src/Layer.cpp:87-97 | the deletions of `eraseLayers`, `setLayers` and `deleteSublayer` keep the arena consistent |
| Scene.ChainTransform | src/Layer.cpp:267-280 | the loop up the parent pointers builds exactly the world transformation of the layer |
| Scene.RefreshChild | src/Layer.cpp:283-286 | recomputing the subtree of the next entry extends what has been recomputed by that subtree |
| Scene.Recompute | src/Layer.cpp:265-287 | after the recursion every layer of the subtree holds its world transformation and every other entry is unchanged |
| Scene.SpreadChild | src/Layer.cpp:372-374 | setting the flag on the next entry's subtree extends what has been set by that subtree |
| Scene.SpreadVisibility | src/Layer.cpp:368-375 | after the recursion the flag of exactly the subtree's layers is `v` |
| Scene.SteppedIntactMeansStepped | src/Layer.cpp:246-258 | the vectors `simulate` reads are exactly those of the layers it steps; a hidden layer's vector is never read |
| Scene.SimulateChild | src/Layer.cpp:254-257 | visiting the next entry of a visible layer appends that entry's steps, and the vectors that entry reads exist |
| Scene.SimulateFrom | src/Layer.cpp:246-258 | the recursion issues exactly the steps `Simulated` describes, in order, needing only the vectors of the stepped layers |
| Scene.Collect | src/Layer.cpp:87-97 | the layers a `delete` destroys through the destructor's `eraseLayers` are exactly the subtree |
| Scene.RemovedContents | src/Layer.cpp:87-97 | deletion removes exactly the doomed layers from every member map, replaces the owner's vector and changes nothing else |
| Scene.LayerTree.constructor | src/Layer.cpp:37 | the arena starts empty with the counter at zero |
| Scene.LayerTree.NewLayer | src/Layer.cpp:43-64 | `Layer(p)`: a fresh id equal to the counter, which rises by one; an empty vector, parent `p`, default parameters, visible, the default name, and its world transformation cached; nothing else changes |
| Scene.LayerTree.CalcTransformationMatrix | src/Layer.cpp:265-287 | every layer of the subtree holds its world transformation; nothing else changes |
| Scene.LayerTree.SetName | src/Layer.cpp:125-129 | only the layer's name changes, to what `setName` stores |
| Scene.LayerTree.Setup | src/Layer.cpp:139-149 | the layer takes the five given parameters and its subtree is recomputed; nothing else changes |
| Scene.LayerTree.ScaleAroundPoint | src/Layer.cpp:160-169 | the layer's parameters become `Rescaled` and its subtree is recomputed, also when the scale was refused |
| Scene.LayerTree.Simulate | src/Layer.cpp:246-258 | exactly the steps `Simulated` describes are appended to the log, given only that the stepped layers' vectors exist; the tree does not change |
| Scene.LayerTree.SetVisibility | src/Layer.cpp:368-375 | every layer of the subtree gets flag `v` and nothing else changes |
| Scene.LayerTree.AccumulatedAlpha | src/Layer.cpp:354-362 | the product of the alphas of the layer and all its ancestors, with no side effect |
| Scene.LayerTree.AccumulatedAlphaBounds | src/Layer.cpp:354-362 | with alphas in [0, 1] the accumulated alpha is in [0, 1] and at most the alpha of the layer and of each ancestor |
| Scene.LayerTree.MakeLayer | src/Layer.cpp:295-305 | a new layer whose parent is `id` is pushed at the end of `id`'s vector, and a released vector exists again; nothing else changes |
| Scene.LayerTree.AddSublayer | src/Layer.cpp:311-315 | `sub` is pushed at the end of `id`'s vector and its parent becomes `id`; nothing else changes |
| Scene.LayerTree.AddSublayers | src/Layer.cpp:321-327 | the given layers are appended in order and no parent pointer changes |
| Scene.LayerTree.Discard | src/Layer.cpp:69-97 | the deletion step the three deleting operations share, not `~Layer` itself: a set of layers that holds every entry of its own vectors is removed exactly from the arena while the owner's vector is replaced |
| Scene.LayerTree.EraseLayers | src/Layer.cpp:87-97 | a released vector means no change; otherwise every layer below `id` is deleted and the vector is released |
| Scene.LayerTree.SetLayers | src/Layer.cpp:104-110 | NULL means no change; otherwise every layer below `id` is deleted and the list becomes `id`'s vector |
| Scene.LayerTree.DeleteSublayer | src/Layer.cpp:334-347 | -1 and no change when `x` is not in the vector; otherwise 0, the first occurrence of `x` is erased with the other entries in order, the subtree of `x` is deleted, and no surviving vector entry or parent pointer names a deleted layer |

## Left out

- `drawWithoutRecursion` (src/Layer.cpp:175-240): OpenGL matrix stack, camera and selection feedback are rendering, not tree logic.
- The editor registry `ui->editorBox` (src/Layer.cpp:62-63, 72-76): an external GUI collaborator with its own locking.
- `Mesh` and `Skeleton` (src/Layer.cpp:48-49, 78-79, 252): opaque payloads. A skeleton's `simulate` call is a `Step` appended to `steps`.
- Matrix contents and float arithmetic: a transformation is a symbolic operation sequence and every scalar is a `real`. `MIN_SCALE` is the real 0.1; the float `0.1f` is slightly larger. No float lies strictly between the two, so they disagree on one argument only: `s = 0.1f` itself. The source refuses it, since `0.1f > 0.1f` is false; the model, given that float's exact value 0.100000001490116…, accepts it.
- `Traversals.DefaultParams`: the constructor assigns only alpha, scale and the flag (src/Layer.cpp:54-57). Position, pivot and angle come from the default constructors of `Vector3D` and `Angle3D`, whose bodies are not part of this model; the model assumes they are zero.
- `getName` and the other accessors: the name, flag and parameters are read straight from the arena's maps.
- `Naming.SetNameResult` and `Scene.LayerTree.SetName`: a model character stands for one byte of the C string that `strncpy` copies. Encodings are not modelled, so where the source might cut a multi-byte character in half after fifteen bytes, the model keeps fifteen whole characters.
- Layer.h is not part of this model. The setters and getters it declares (such as `setParent`) enter only as the map updates the modelled functions make.
- `Layer::layerCount` is an `int`: it is unbounded here, so its overflow after 2^31 constructions is not modelled. Beyond 9999 `%04d` writes more digits, and `Naming.DefaultName` allows that; the ten-character form is `Naming.DefaultNameLength`. The model does not bound a default name by the sixteen-byte buffer either.
- Memory management: a `delete` is the removal of the layer, with its subtree, from the arena in one step. It is not a sequence of destructor calls in vector order.
- A layer listed twice in a deleted subtree is deleted twice in the source, which is undefined behaviour; the model removes it once.
- Dangling pointers are ruled out rather than modelled:
  - `Scene.LayerTree.Discard` and its callers require that no surviving layer refers to a deleted one (`Detached`, `Removable`, `Replaceable`). The source leaves such pointers dangling.
  - `Scene.LayerTree.SetLayers` additionally requires that the new list names surviving layers.
- `Scene.LayerTree.AddSublayer`, `Scene.LayerTree.AddSublayers` and `Scene.LayerTree.SetLayers` require that no added layer lies above `id` (`Above`).
  - The model keeps a layer from lying below itself through vector entries and parent pointers together. That is stricter than the source needs to terminate.
  - In the source, each recursion follows one relation only. The descents follow vectors; the walks of `calcTransformationMatrix` and `getAccumulatedAlpha` follow parent pointers. Each ends as long as its own relation is acyclic.
  - So `b = new Layer(NULL); a = new Layer(b); a->addSublayers({b})` is harmless in the source but refused here.
  - Only a cycle among vector entries alone, or among parent pointers alone, makes a recursion of the source run forever.
- A NULL `layers` vector is the `released` set.
  - `makeLayer` and `eraseLayers` test for NULL, and both of their branches are modelled.
  - The other operations dereference the vector, so they require it to exist where they read it:
    - for `setVisibility` and `calcTransformationMatrix` (and so `setup` and `scaleAroundPoint`), throughout the subtree (`Intact`);
    - for `simulate`, on the visible layers it reaches (`SteppedIntact`). A hidden layer returns before reading its vector, and `Scene.SteppedIntactMeansStepped` shows these are exactly the layers it steps;
    - for `addSublayer`, `addSublayers` and `deleteSublayer`, on the layer itself.
- Vectors are values. `setLayers` adopts the caller's vector object, and the aliasing that follows is not modelled. Neither is `addSublayers` applied to a layer's own vector, which pushes onto the vector it iterates.
- `Scene.Recompute`, `Scene.SpreadVisibility`, `Scene.SimulateFrom` and `Scene.Collect`: the source recurses on the objects in place. The model recurses over the arena's maps and stores the result in one update, which is equivalent here because each visit changes only its own layer's entry.
- `Traversals.SimulatedOnce`: the source promises nothing, and a layer that sits in two vectors (nothing in `addSublayer` or `addSublayers` prevents it) is stepped once per position. So "each layer at most once" is proved only when every layer sits in at most one vector position (`ListedOnce`).
- `Traversals.CacheStaysCurrent` and `Traversals.WorldOutsideSubtree` require every parent pointer to be matched by a vector entry (`ParentsListed`). Of the modelled operations only `Layer(p)` on its own (`Scene.LayerTree.NewLayer` with a parent) breaks that: it names `p` without entering `p`'s vector, and a recompute of `p` then misses the new layer. `makeLayer` pushes the new layer at once, and appending entries (`addSublayer`, `addSublayers`) never removes a matching entry.
- `Scene.LayerTree.ScaleAroundPoint` follows the code on two points:
  - the position is multiplied component-wise by `p * (s - scale)` (`position *= scaleVector`), not shifted by it;
  - the subtree is recomputed even when the scale is refused, so the call is not a no-op then.
