/**
  The build order: the task graph is layered (every task comes one layer after
  the last of its predecessors), each layer is sorted by config without
  disturbing equal ones, and the layers are run together.
 */
module TaskSort {
  import opened Common
  import opened TaskGraph

  // ---- Stable sorting by config ----

  ghost predicate Before(s: seq<nat>, a: nat, b: nat) {
    exists i, j :: 0 <= i < j < |s| && s[i] == a && s[j] == b
  }

  lemma BeforeIn(s: seq<nat>, i: nat, j: nat)
    requires i < j < |s|
    ensures Before(s, s[i], s[j])
  {
  }

  lemma BeforeLeft(s: seq<nat>, t: seq<nat>, a: nat, b: nat)
    requires Before(s, a, b)
    ensures Before(s + t, a, b)
  {
    var i, j :| 0 <= i < j < |s| && s[i] == a && s[j] == b;
    BeforeIn(s + t, i, j);
  }

  lemma BeforeRight(s: seq<nat>, t: seq<nat>, a: nat, b: nat)
    requires Before(t, a, b)
    ensures Before(s + t, a, b)
  {
    var i, j :| 0 <= i < j < |t| && t[i] == a && t[j] == b;
    BeforeIn(s + t, |s| + i, |s| + j);
  }

  lemma BeforeAcross(s: seq<nat>, t: seq<nat>, a: nat, b: nat)
    requires a in s && b in t
    ensures Before(s + t, a, b)
  {
    var i :| 0 <= i < |s| && s[i] == a;
    var j :| 0 <= j < |t| && t[j] == b;
    BeforeIn(s + t, i, |s| + j);
  }

  predicate Le(keys: seq<string>, a: nat, b: nat) {
    a < |keys| && b < |keys| && StrCmp(keys[a], keys[b]) <= 0
  }

  lemma {:induction false} StrCmpTotal(a: string, b: string)
    ensures StrCmp(a, b) <= 0 || StrCmp(b, a) <= 0
    ensures a == b ==> StrCmp(a, b) == 0
  {
    if a != [] && b != [] && a[0] == b[0] { StrCmpTotal(a[1..], b[1..]); }
  }

  lemma {:induction false} StrCmpTrans(a: string, b: string, c: string)
    requires StrCmp(a, b) <= 0 && StrCmp(b, c) <= 0
    ensures StrCmp(a, c) <= 0
  {
    if a != [] && b != [] && c != [] && a[0] == b[0] == c[0] { StrCmpTrans(a[1..], b[1..], c[1..]); }
  }

  /** x goes behind everything that is not greater. */
  function Insert(keys: seq<string>, x: nat, ys: seq<nat>): (zs: seq<nat>)
    ensures multiset(zs) == multiset(ys) + multiset{x}
  {
    if ys == [] then [x]
    else
      var rest, y := ys[..|ys| - 1], ys[|ys| - 1];
      assert ys == rest + [y];
      if Le(keys, y, x) then ys + [x] else Insert(keys, x, rest) + [y]
  }

  function StableSort(keys: seq<string>, xs: seq<nat>): seq<nat> {
    if xs == [] then [] else Insert(keys, xs[|xs| - 1], StableSort(keys, xs[..|xs| - 1]))
  }

  lemma {:induction false} StableSortSame(keys: seq<string>, xs: seq<nat>)
    ensures multiset(StableSort(keys, xs)) == multiset(xs)
    ensures forall x :: x in StableSort(keys, xs) <==> x in xs
  {
    if xs != [] {
      assert xs == xs[..|xs| - 1] + [xs[|xs| - 1]];
      StableSortSame(keys, xs[..|xs| - 1]);
    }
    forall x ensures x in StableSort(keys, xs) <==> x in xs {
      assert x in multiset(StableSort(keys, xs)) <==> x in multiset(xs);
    }
  }

  ghost predicate SortedBy(keys: seq<string>, xs: seq<nat>) {
    forall i, j | 0 <= i < j < |xs| :: Le(keys, xs[i], xs[j])
  }

  lemma {:induction false} InsertSorted(keys: seq<string>, x: nat, ys: seq<nat>)
    requires SortedBy(keys, ys) && x < |keys| && forall i | 0 <= i < |ys| :: ys[i] < |keys|
    ensures SortedBy(keys, Insert(keys, x, ys))
  {
    if ys != [] {
      var rest, y := ys[..|ys| - 1], ys[|ys| - 1];
      if Le(keys, y, x) {
        forall i | 0 <= i < |ys| ensures Le(keys, ys[i], x) {
          if i < |ys| - 1 { StrCmpTrans(keys[ys[i]], keys[y], keys[x]); }
        }
      } else {
        InsertSorted(keys, x, rest);
        StrCmpTotal(keys[x], keys[y]);
        var zs := Insert(keys, x, rest);
        forall i | 0 <= i < |zs| ensures Le(keys, zs[i], y) {
          assert zs[i] in multiset(zs);
          if zs[i] != x {
            assert zs[i] in multiset(rest);
            var j :| 0 <= j < |rest| && rest[j] == zs[i];
          }
        }
      }
    }
  }

  lemma {:induction false} StableSortSorted(keys: seq<string>, xs: seq<nat>)
    requires forall i | 0 <= i < |xs| :: xs[i] < |keys|
    ensures SortedBy(keys, StableSort(keys, xs))
  {
    if xs != [] {
      var rest := xs[..|xs| - 1];
      StableSortSorted(keys, rest);
      StableSortSame(keys, rest);
      var ys := StableSort(keys, rest);
      forall i | 0 <= i < |ys| ensures ys[i] < |keys| {
        assert ys[i] in ys;
        var j :| 0 <= j < |rest| && rest[j] == ys[i];
      }
      InsertSorted(keys, xs[|xs| - 1], ys);
    }
  }

  lemma {:induction false} InsertKeeps(keys: seq<string>, x: nat, ys: seq<nat>, a: nat, b: nat)
    requires Before(ys, a, b)
    ensures Before(Insert(keys, x, ys), a, b)
  {
    var rest, y := ys[..|ys| - 1], ys[|ys| - 1];
    if Le(keys, y, x) {
      BeforeLeft(ys, [x], a, b);
    } else {
      var i, j :| 0 <= i < j < |ys| && ys[i] == a && ys[j] == b;
      if j < |ys| - 1 {
        assert rest[i] == a && rest[j] == b;
        InsertKeeps(keys, x, rest, a, b);
        BeforeLeft(Insert(keys, x, rest), [y], a, b);
      } else {
        assert rest[i] in multiset(Insert(keys, x, rest));
        BeforeAcross(Insert(keys, x, rest), [y], a, b);
      }
    }
  }

  lemma {:induction false} InsertBehind(keys: seq<string>, x: nat, ys: seq<nat>, a: nat)
    requires a in ys && a < |keys| && x < |keys| && keys[a] == keys[x] && SortedBy(keys, ys)
    ensures Before(Insert(keys, x, ys), a, x)
  {
    var rest, y := ys[..|ys| - 1], ys[|ys| - 1];
    if Le(keys, y, x) {
      BeforeAcross(ys, [x], a, x);
    } else {
      StrCmpTotal(keys[a], keys[x]);
      assert ys == rest + [y];
      InsertBehind(keys, x, rest, a);
      BeforeLeft(Insert(keys, x, rest), [y], a, x);
    }
  }

  /** Equal configs keep their order. */
  lemma {:induction false} StableSortStable(keys: seq<string>, xs: seq<nat>, a: nat, b: nat)
    requires forall i | 0 <= i < |xs| :: xs[i] < |keys|
    requires Before(xs, a, b) && a < |keys| && b < |keys| && keys[a] == keys[b]
    ensures Before(StableSort(keys, xs), a, b)
  {
    var rest, x := xs[..|xs| - 1], xs[|xs| - 1];
    var i, j :| 0 <= i < j < |xs| && xs[i] == a && xs[j] == b;
    StableSortSorted(keys, rest);
    StableSortSame(keys, rest);
    if j < |xs| - 1 {
      assert rest[i] == a && rest[j] == b;
      StableSortStable(keys, rest, a, b);
      InsertKeeps(keys, x, StableSort(keys, rest), a, b);
    } else {
      assert rest[i] in rest;
      InsertBehind(keys, x, StableSort(keys, rest), a);
    }
  }

  // ---- Layers ----

  ghost predicate Ready(g: Digraph, done: seq<nat>, v: nat) {
    v < |g.pred| && forall u | u in g.pred[v] :: u in done
  }

  /** Those of cs that u, processed after done, was the last to wait for. */
  ghost function Released(g: Digraph, done: seq<nat>, cs: seq<nat>): seq<nat> {
    if cs == [] then []
    else
      var rest := Released(g, done, cs[..|cs| - 1]);
      if Ready(g, done, cs[|cs| - 1]) then rest + [cs[|cs| - 1]] else rest
  }

  /** The tasks that the first k tasks of a layer release, in the order of release. */
  ghost function NextLayer(g: Digraph, done: seq<nat>, layer: seq<nat>, k: nat): seq<nat>
    requires k <= |layer|
  {
    if k == 0 then []
    else
      NextLayer(g, done, layer, k - 1) +
      (if layer[k - 1] < |g.succ| then Released(g, done + layer[..k], g.succ[layer[k - 1]]) else [])
  }

  /** done is processed, and the layer is what waits for nothing else. */
  ghost predicate LayerAt(g: Digraph, done: seq<nat>, layer: seq<nat>) {
    && GraphOk(g) && NoDup(done + layer)
    && (forall v: nat :: LayerHas(g, done, layer, v))
  }

  ghost predicate LayerHas(g: Digraph, done: seq<nat>, layer: seq<nat>, v: nat) {
    v in done + layer <==> Ready(g, done, v)
  }

  ghost function FirstLayer(g: Digraph, n: nat): seq<nat> {
    if n == 0 then [] else FirstLayer(g, n - 1) + if Ready(g, [], n - 1) then [n - 1] else []
  }

  lemma {:induction false} ReleasedIs(g: Digraph, done: seq<nat>, cs: seq<nat>, v: nat)
    ensures v in Released(g, done, cs) <==> v in cs && Ready(g, done, v)
    ensures NoDup(cs) ==> NoDup(Released(g, done, cs))
  {
    if cs != [] {
      var rest, c := cs[..|cs| - 1], cs[|cs| - 1];
      assert cs == rest + [c];
      ReleasedIs(g, done, rest, v);
      ReleasedIs(g, done, rest, c);
    }
  }

  lemma {:induction false} ReleasedKeeps(g: Digraph, done: seq<nat>, cs: seq<nat>, a: nat, b: nat)
    requires Before(cs, a, b) && Ready(g, done, a) && Ready(g, done, b)
    ensures Before(Released(g, done, cs), a, b)
  {
    var rest, c := cs[..|cs| - 1], cs[|cs| - 1];
    var i, j :| 0 <= i < j < |cs| && cs[i] == a && cs[j] == b;
    if j < |cs| - 1 {
      assert rest[i] == a && rest[j] == b;
      ReleasedKeeps(g, done, rest, a, b);
      if Ready(g, done, c) { BeforeLeft(Released(g, done, rest), [c], a, b); }
    } else {
      assert rest[i] == a;
      ReleasedIs(g, done, rest, a);
      BeforeAcross(Released(g, done, rest), [c], a, b);
    }
  }

  lemma ReadyMore(g: Digraph, done: seq<nat>, done': seq<nat>, v: nat)
    requires Ready(g, done, v) && forall u | u in done :: u in done'
    ensures Ready(g, done', v)
  {
  }

  lemma {:induction false} NextLayerIs(g: Digraph, done: seq<nat>, layer: seq<nat>, k: nat, v: nat)
    requires LayerAt(g, done, layer) && k <= |layer|
    ensures v in NextLayer(g, done, layer, k) <==> Ready(g, done + layer[..k], v) && !Ready(g, done, v)
  {
    if k == 0 {
      assert done + layer[..0] == done;
    } else {
      NextLayerIs(g, done, layer, k - 1, v);
      LayerStep(g, done, layer, k - 1, v);
    }
  }

  /** What the k-th task of a layer releases was not ready before. */
  lemma LayerStep(g: Digraph, done: seq<nat>, layer: seq<nat>, k: nat, v: nat)
    requires LayerAt(g, done, layer) && k < |layer|
    ensures layer[k] < |g.succ|
    ensures var cs := Released(g, done + layer[..k + 1], g.succ[layer[k]]);
      && (v in cs <==> Ready(g, done + layer[..k + 1], v) && !Ready(g, done + layer[..k], v))
      && (Ready(g, done + layer[..k], v) ==> Ready(g, done + layer[..k + 1], v))
      && (Ready(g, done, v) ==> Ready(g, done + layer[..k], v))
      && NoDup(cs)
  {
    var u := layer[k];
    var before, after := done + layer[..k], done + layer[..k + 1];
    assert u in done + layer && LayerHas(g, done, layer, u);
    assert after == before + [u];
    assert u !in before by {
      assert (done + layer)[|done| + k] == u;
      forall i | 0 <= i < |before| ensures before[i] != u { assert (done + layer)[i] == before[i]; }
    }
    ReleasedIs(g, after, g.succ[u], v);
    assert Distinct(g, u) && Mirrored(g, u, v);
    if Ready(g, done, v) { ReadyMore(g, done, before, v); }
    if Ready(g, before, v) { ReadyMore(g, before, after, v); }
  }

  lemma {:induction false} NextLayerDistinct(g: Digraph, done: seq<nat>, layer: seq<nat>, k: nat)
    requires LayerAt(g, done, layer) && k <= |layer|
    ensures NoDup(NextLayer(g, done, layer, k))
  {
    if k > 0 {
      NextLayerDistinct(g, done, layer, k - 1);
      LayerStep(g, done, layer, k - 1, 0);
      var a, b := NextLayer(g, done, layer, k - 1), Released(g, done + layer[..k], g.succ[layer[k - 1]]);
      forall i, j | 0 <= i < |a| && 0 <= j < |b| ensures a[i] != b[j] {
        NextLayerIs(g, done, layer, k - 1, a[i]);
        LayerStep(g, done, layer, k - 1, b[j]);
        assert b[j] in b && a[i] in a;
      }
    }
  }

  /** The next layer is again what waits for nothing else. */
  lemma LayerNext(g: Digraph, done: seq<nat>, layer: seq<nat>)
    requires LayerAt(g, done, layer)
    ensures LayerAt(g, done + layer, NextLayer(g, done, layer, |layer|))
  {
    var next := NextLayer(g, done, layer, |layer|);
    assert layer[..|layer|] == layer;
    NextLayerDistinct(g, done, layer, |layer|);
    forall v: nat ensures LayerHas(g, done + layer, next, v) && !(v in done + layer && v in next) {
      NextLayerIs(g, done, layer, |layer|, v);
      assert LayerHas(g, done, layer, v);
      if Ready(g, done, v) { ReadyMore(g, done, done + layer, v); }
    }
    var all := done + layer + next;
    forall i, j | 0 <= i < j < |all| ensures all[i] != all[j] {
      if i < |done + layer| <= j {
        assert all[i] in done + layer && all[j] in next;
        assert LayerHas(g, done + layer, next, all[i]);
      }
    }
  }

  lemma {:induction false} FirstLayerIs(g: Digraph, n: nat, v: nat)
    ensures v in FirstLayer(g, n) <==> v < n && Ready(g, [], v)
    ensures forall i, j | 0 <= i < j < |FirstLayer(g, n)| :: FirstLayer(g, n)[i] < FirstLayer(g, n)[j] < n
    ensures forall i | 0 <= i < |FirstLayer(g, n)| :: FirstLayer(g, n)[i] < n
  {
    if n > 0 { FirstLayerIs(g, n - 1, v); }
  }

  lemma LayerFirst(g: Digraph)
    requires GraphOk(g)
    ensures LayerAt(g, [], FirstLayer(g, |g.succ|))
  {
    var layer := FirstLayer(g, |g.succ|);
    forall v: nat ensures LayerHas(g, [], layer, v) { FirstLayerIs(g, |g.succ|, v); }
    FirstLayerIs(g, |g.succ|, 0);
    assert [] + layer == layer;
  }

  lemma LayerShort(g: Digraph, done: seq<nat>, layer: seq<nat>)
    requires LayerAt(g, done, layer)
    ensures |done| + |layer| <= |g.succ|
  {
    var all := done + layer;
    forall i | 0 <= i < |all| ensures all[i] < |g.succ| { assert all[i] in all && LayerHas(g, done, layer, all[i]); }
    DistinctShort(all, |g.succ|);
  }

  ghost function Layers(g: Digraph, done: seq<nat>, layer: seq<nat>): seq<seq<nat>>
    requires LayerAt(g, done, layer)
    decreases |g.succ| - |done|
  {
    LayerShort(g, done, layer);
    LayerNext(g, done, layer);
    if layer == [] then [] else [layer] + Layers(g, done + layer, NextLayer(g, done, layer, |layer|))
  }

  ghost function AllLayers(g: Digraph): seq<seq<nat>>
    requires GraphOk(g)
  {
    LayerFirst(g);
    Layers(g, [], FirstLayer(g, |g.succ|))
  }

  function Flatten(layers: seq<seq<nat>>): seq<nat> {
    if layers == [] then [] else layers[0] + Flatten(layers[1..])
  }

  /** The layers one after the other, each sorted by config. */
  function Plan(keys: seq<string>, layers: seq<seq<nat>>): seq<nat> {
    if layers == [] then [] else StableSort(keys, layers[0]) + Plan(keys, layers[1..])
  }

  lemma {:induction false} PlanSame(keys: seq<string>, layers: seq<seq<nat>>)
    ensures multiset(Plan(keys, layers)) == multiset(Flatten(layers))
    ensures forall v :: v in Plan(keys, layers) <==> v in Flatten(layers)
  {
    if layers != [] {
      StableSortSame(keys, layers[0]);
      PlanSame(keys, layers[1..]);
    }
  }

  // ---- Layering covers exactly the graphs without loops ----

  lemma WaitsFor(g: Digraph, done: seq<nat>, v: nat) returns (u: nat)
    requires LayerAt(g, done, []) && v < |g.succ| && v !in done
    ensures HasEdge(g, u, v) && u !in done
  {
    assert LayerHas(g, done, [], v) && done + [] == done;
    u :| u in g.pred[v] && u !in done;
    assert Mirrored(g, u, v);
  }

  /** Tasks that keep waiting wait for each other. */
  lemma {:induction false} FindLoop(g: Digraph, done: seq<nat>, p: seq<nat>)
    requires LayerAt(g, done, []) && Path(g, p) && NoDup(p) && forall i | 0 <= i < |p| :: p[i] !in done
    ensures Cyclic(g)
    decreases |g.succ| - |p|
  {
    DistinctShort(p, |g.succ|);
    var u := WaitsFor(g, done, p[0]);
    var q := [u] + p;
    forall i | 0 <= i < |q| - 1 ensures StepAt(g, q, i) {
      if i > 0 { assert StepAt(g, p, i - 1); }
    }
    if u in p {
      var i :| 0 <= i < |p| && p[i] == u;
      var loop := q[..i + 2];
      forall j | 0 <= j < |loop| - 1 ensures StepAt(g, loop, j) { assert StepAt(g, q, j); }
      assert Loop(g, loop);
    } else {
      DistinctShort(q, |g.succ|);
      FindLoop(g, done, q);
    }
  }

  lemma {:induction false} LayersCover(g: Digraph, done: seq<nat>, layer: seq<nat>)
    requires LayerAt(g, done, layer)
    ensures NoDup(done + Flatten(Layers(g, done, layer)))
    ensures forall v | v in done + Flatten(Layers(g, done, layer)) :: v < |g.succ|
    ensures !Cyclic(g) ==> forall v: nat | v < |g.succ| :: v in done + Flatten(Layers(g, done, layer))
    decreases |g.succ| - |done|
  {
    LayerShort(g, done, layer);
    if layer == [] {
      assert Layers(g, done, layer) == [] && done + [] == done;
      forall v | v in done ensures v < |g.succ| { assert LayerHas(g, done, layer, v); }
      forall v: nat | v < |g.succ| && !Cyclic(g) ensures v in done {
        if v !in done {
          assert Path(g, [v]) && NoDup([v]);
          FindLoop(g, done, [v]);
        }
      }
    } else {
      LayerNext(g, done, layer);
      var rest := Layers(g, done + layer, NextLayer(g, done, layer, |layer|));
      LayersCover(g, done + layer, NextLayer(g, done, layer, |layer|));
      assert ([layer] + rest)[1..] == rest;
      assert done + Flatten([layer] + rest) == done + layer + Flatten(rest);
    }
  }

  lemma {:induction false} LayersStep(g: Digraph, done: seq<nat>, layer: seq<nat>, i: nat)
    requires LayerAt(g, done, layer) && i < |Layers(g, done, layer)|
    ensures LayerAt(g, done + Flatten(Layers(g, done, layer)[..i]), Layers(g, done, layer)[i])
    decreases i
  {
    LayerShort(g, done, layer);
    LayerNext(g, done, layer);
    var all, rest := Layers(g, done, layer), Layers(g, done + layer, NextLayer(g, done, layer, |layer|));
    if i == 0 {
      assert all[..0] == [] && done + [] == done;
    } else {
      LayersStep(g, done + layer, NextLayer(g, done, layer, |layer|), i - 1);
      assert all[..i] == [layer] + rest[..i - 1] && ([layer] + rest[..i - 1])[1..] == rest[..i - 1];
      assert done + (layer + Flatten(rest[..i - 1])) == done + layer + Flatten(rest[..i - 1]);
    }
  }

  /** A layer holds exactly the tasks that are in no earlier layer but have all their predecessors there. */
  lemma LayerMeaning(g: Digraph, i: nat, v: nat)
    requires GraphOk(g) && i < |AllLayers(g)|
    ensures var before := Flatten(AllLayers(g)[..i]);
      v in AllLayers(g)[i] <==> v < |g.succ| && v !in before && forall u: nat | HasEdge(g, u, v) :: u in before
  {
    LayerFirst(g);
    LayersStep(g, [], FirstLayer(g, |g.succ|), i);
    var before, layer := Flatten(AllLayers(g)[..i]), AllLayers(g)[i];
    assert [] + before == before;
    assert LayerHas(g, before, layer, v);
    forall u: nat ensures HasEdge(g, u, v) <==> v < |g.pred| && u in g.pred[v] { assert Mirrored(g, u, v); }
    if v in layer { LayerApart(before, layer, v); }
  }

  lemma LayerApart(before: seq<nat>, layer: seq<nat>, v: nat)
    requires NoDup(before + layer) && v in layer
    ensures v !in before
  {
    var j :| 0 <= j < |layer| && layer[j] == v;
    forall i | 0 <= i < |before| ensures before[i] != v { assert (before + layer)[i] != (before + layer)[|before| + j]; }
  }

  /** The order puts the head of an edge behind its tail. */
  lemma {:induction false} LayersForward(g: Digraph, keys: seq<string>, done: seq<nat>, layer: seq<nat>, u: nat, v: nat)
    requires LayerAt(g, done, layer) && HasEdge(g, u, v) && v !in done && v in Flatten(Layers(g, done, layer))
    ensures u in done || Before(Plan(keys, Layers(g, done, layer)), u, v)
    decreases |g.succ| - |done|
  {
    LayerShort(g, done, layer);
    LayerNext(g, done, layer);
    assert Mirrored(g, u, v);
    if v in layer {
      assert v in done + layer && LayerHas(g, done, layer, v);
    } else {
      var rest := Layers(g, done + layer, NextLayer(g, done, layer, |layer|));
      assert ([layer] + rest)[1..] == rest;
      LayersForward(g, keys, done + layer, NextLayer(g, done, layer, |layer|), u, v);
      var first, later := StableSort(keys, layer), Plan(keys, rest);
      assert Plan(keys, [layer] + rest) == first + later;
      StableSortSame(keys, layer);
      PlanSame(keys, rest);
      if u in layer {
        BeforeAcross(first, later, u, v);
      } else if u !in done {
        BeforeRight(first, later, u, v);
      }
    }
  }

  // ---- Which of two tasks is released first ----

  ghost predicate ReadyTogether(g: Digraph, flat: seq<nat>, n: nat, a: nat, b: nat)
    requires n <= |flat|
  {
    Ready(g, flat[..n], b) ==> Ready(g, flat[..n], a)
  }

  /** If the n-th task is the last that both a and b wait for, it releases a first. */
  ghost predicate TieBroken(g: Digraph, flat: seq<nat>, n: nat, a: nat, b: nat)
    requires n < |flat|
  {
    Ready(g, flat[..n + 1], a) && !Ready(g, flat[..n], a) && Ready(g, flat[..n + 1], b) && !Ready(g, flat[..n], b) ==>
      flat[n] < |g.succ| && Before(g.succ[flat[n]], a, b)
  }

  /** While the tasks in flat are processed, a is released before b. */
  ghost predicate Follows(g: Digraph, flat: seq<nat>, a: nat, b: nat) {
    && (forall n | 0 <= n <= |flat| :: ReadyTogether(g, flat, n, a, b))
    && (forall n | 0 <= n < |flat| :: TieBroken(g, flat, n, a, b))
  }

  lemma {:induction false} NextLayerKeeps(g: Digraph, flat: seq<nat>, done: seq<nat>, layer: seq<nat>, k: nat, a: nat, b: nat)
    requires LayerAt(g, done, layer) && k <= |layer| && done + layer <= flat
    requires Follows(g, flat, a, b) && !Ready(g, done, a) && b in NextLayer(g, done, layer, k)
    ensures Before(NextLayer(g, done, layer, k), a, b)
    decreases k
  {
    NextLayerHas(g, flat, done, layer, k, a, b);
    var before: nat := k - 1;
    if b in NextLayer(g, done, layer, before) { NextLayerKeeps(g, flat, done, layer, before, a, b); }
    NextTaskKeeps(g, flat, done, layer, before, a, b);
  }

  lemma NextTaskKeeps(g: Digraph, flat: seq<nat>, done: seq<nat>, layer: seq<nat>, k: nat, a: nat, b: nat)
    requires LayerAt(g, done, layer) && k < |layer| && done + layer <= flat && Follows(g, flat, a, b)
    requires a in NextLayer(g, done, layer, k + 1) && b in NextLayer(g, done, layer, k + 1)
    requires b in NextLayer(g, done, layer, k) ==> Before(NextLayer(g, done, layer, k), a, b)
    ensures Before(NextLayer(g, done, layer, k + 1), a, b)
  {
    LayerStep(g, done, layer, k, 0);
    var old_, new_ := NextLayer(g, done, layer, k), Released(g, done + layer[..k + 1], g.succ[layer[k]]);
    assert NextLayer(g, done, layer, k + 1) == old_ + new_;
    if b !in old_ && a !in old_ { ReleasedBoth(g, flat, done, layer, k, a, b); }
    BeforeJoin(old_, new_, a, b);
  }

  lemma BeforeJoin(s: seq<nat>, t: seq<nat>, a: nat, b: nat)
    requires a in s + t && b in s + t
    requires if b in s then Before(s, a, b) else a in s || Before(t, a, b)
    ensures Before(s + t, a, b)
  {
    if b in s {
      BeforeLeft(s, t, a, b);
    } else if a in s {
      BeforeAcross(s, t, a, b);
    } else {
      BeforeRight(s, t, a, b);
    }
  }

  /** What is processed is a prefix of flat. */
  lemma ProcessedPrefix(flat: seq<nat>, done: seq<nat>, layer: seq<nat>, k: nat)
    requires k <= |layer| && done + layer <= flat
    ensures |done| + k <= |flat| && flat[..|done| + k] == done + layer[..k]
    ensures k < |layer| ==> flat[|done| + k] == layer[k]
  {
    assert flat[..|done + layer|] == done + layer;
    assert flat[..|done| + k] == (done + layer)[..|done| + k];
    assert k < |layer| ==> (done + layer)[|done| + k] == layer[k];
  }

  /** With b, a has been released. */
  lemma NextLayerHas(g: Digraph, flat: seq<nat>, done: seq<nat>, layer: seq<nat>, k: nat, a: nat, b: nat)
    requires LayerAt(g, done, layer) && k <= |layer| && done + layer <= flat
    requires Follows(g, flat, a, b) && !Ready(g, done, a) && b in NextLayer(g, done, layer, k)
    ensures a in NextLayer(g, done, layer, k)
  {
    NextLayerIs(g, done, layer, k, b);
    ProcessedPrefix(flat, done, layer, k);
    assert ReadyTogether(g, flat, |done| + k, a, b);
    NextLayerIs(g, done, layer, k, a);
  }

  lemma ReleasedBoth(g: Digraph, flat: seq<nat>, done: seq<nat>, layer: seq<nat>, k: nat, a: nat, b: nat)
    requires LayerAt(g, done, layer) && k < |layer| && done + layer <= flat && Follows(g, flat, a, b)
    requires layer[k] < |g.succ|
    requires a in Released(g, done + layer[..k + 1], g.succ[layer[k]]) && b in Released(g, done + layer[..k + 1], g.succ[layer[k]])
    ensures Before(Released(g, done + layer[..k + 1], g.succ[layer[k]]), a, b)
  {
    LayerStep(g, done, layer, k, a);
    LayerStep(g, done, layer, k, b);
    ProcessedPrefix(flat, done, layer, k);
    ProcessedPrefix(flat, done, layer, k + 1);
    assert TieBroken(g, flat, |done| + k, a, b);
    ReleasedKeeps(g, done + layer[..k + 1], g.succ[layer[k]], a, b);
  }

  lemma {:induction false} LayersKeep(g: Digraph, keys: seq<string>, flat: seq<nat>, done: seq<nat>, layer: seq<nat>, a: nat, b: nat)
    requires LayerAt(g, done, layer) && Follows(g, flat, a, b) && a < |keys| && b < |keys| == |g.succ| && keys[a] == keys[b]
    requires flat == done + Flatten(Layers(g, done, layer))
    requires a !in done && b !in done && b in Flatten(Layers(g, done, layer))
    requires b in layer ==> Before(layer, a, b)
    ensures Before(Plan(keys, Layers(g, done, layer)), a, b)
    decreases |g.succ| - |done|
  {
    LayerShort(g, done, layer);
    LayerNext(g, done, layer);
    var next := NextLayer(g, done, layer, |layer|);
    var rest := Layers(g, done + layer, next);
    assert ([layer] + rest)[1..] == rest;
    var first, later := StableSort(keys, layer), Plan(keys, rest);
    forall i | 0 <= i < |layer| ensures layer[i] < |keys| {
      assert layer[i] in done + layer && LayerHas(g, done, layer, layer[i]);
    }
    if b in layer {
      StableSortStable(keys, layer, a, b);
      BeforeLeft(first, later, a, b);
    } else if a in layer {
      StableSortSame(keys, layer);
      PlanSame(keys, rest);
      BeforeAcross(first, later, a, b);
    } else {
      assert layer[..|layer|] == layer && LayerHas(g, done, layer, a);
      Regroup(done, layer, Flatten(rest));
      if b in next { NextLayerKeeps(g, flat, done, layer, |layer|, a, b); }
      LayersKeep(g, keys, flat, done + layer, next, a, b);
      BeforeRight(first, later, a, b);
    }
  }

  /** Tasks that wait for the same tasks land in the same layer. */
  lemma {:induction false} SamePredsSameLayer(g: Digraph, done: seq<nat>, layer: seq<nat>, a: nat, b: nat) returns (i: nat)
    requires LayerAt(g, done, layer) && a < |g.pred| && b < |g.pred|
    requires forall u :: u in g.pred[a] <==> u in g.pred[b]
    requires a !in done && b !in done && a in Flatten(Layers(g, done, layer))
    ensures i < |Layers(g, done, layer)| && a in Layers(g, done, layer)[i] && b in Layers(g, done, layer)[i]
    decreases |g.succ| - |done|
  {
    LayerShort(g, done, layer);
    LayerNext(g, done, layer);
    var rest := Layers(g, done + layer, NextLayer(g, done, layer, |layer|));
    assert ([layer] + rest)[1..] == rest;
    assert LayerHas(g, done, layer, a) && LayerHas(g, done, layer, b);
    assert Ready(g, done, a) <==> Ready(g, done, b);
    if a in layer {
      i := 0;
    } else {
      i := SamePredsSameLayer(g, done + layer, NextLayer(g, done, layer, |layer|), a, b);
      i := i + 1;
    }
  }

  // ---- Layering with a count of what each task still waits for ----

  function Waiting(ps: seq<nat>, done: seq<nat>): nat {
    if ps == [] then 0 else Waiting(ps[1..], done) + if ps[0] in done then 0 else 1
  }

  lemma {:induction false} WaitingZero(g: Digraph, done: seq<nat>, ps: seq<nat>)
    ensures Waiting(ps, done) == 0 <==> forall u | u in ps :: u in done
  {
    if ps != [] {
      WaitingZero(g, done, ps[1..]);
      assert ps == [ps[0]] + ps[1..];
    }
  }

  lemma {:induction false} WaitingLess(ps: seq<nat>, done: seq<nat>, u: nat)
    requires NoDup(ps) && u !in done
    ensures Waiting(ps, done + [u]) == if u in ps then Waiting(ps, done) - 1 else Waiting(ps, done)
  {
    if ps != [] {
      WaitingLess(ps[1..], done, u);
      assert ps == [ps[0]] + ps[1..];
    }
  }

  ghost predicate Degrees(g: Digraph, degree: seq<nat>, done: seq<nat>) {
    |degree| == |g.pred| && forall v | 0 <= v < |degree| :: degree[v] == Waiting(g.pred[v], done)
  }

  /** The counts while the children cs[..j] of u, which follows done, have been told. */
  ghost predicate DegreesAmid(g: Digraph, degree: seq<nat>, done: seq<nat>, u: nat, told: seq<nat>) {
    && |degree| == |g.pred|
    && forall v | 0 <= v < |degree| :: degree[v] == Waiting(g.pred[v], if v in told then done + [u] else done)
  }

  /** Processing one task: each of its children waits for one thing less. */
  method Release(g: Digraph, degree0: seq<nat>, u: nat, zero0: seq<nat>, ghost done: seq<nat>)
    returns (degree: seq<nat>, zero: seq<nat>)
    requires GraphOk(g) && u < |g.succ| && u !in done && Degrees(g, degree0, done)
    ensures Degrees(g, degree, done + [u])
    ensures zero == zero0 + Released(g, done + [u], g.succ[u])
  {
    degree, zero := degree0, zero0;
    assert Distinct(g, u);
    for j := 0 to |g.succ[u]|
      invariant DegreesAmid(g, degree, done, u, g.succ[u][..j])
      invariant zero == zero0 + Released(g, done + [u], g.succ[u][..j])
    {
      var child := g.succ[u][j];
      assert HasEdge(g, u, child) && Mirrored(g, u, child) && Distinct(g, child);
      assert g.succ[u][..j + 1] == g.succ[u][..j] + [child];
      assert child !in g.succ[u][..j];
      WaitingLess(g.pred[child], done, u);
      WaitingZero(g, done + [u], g.pred[child]);
      degree := degree[child := degree[child] - 1];
      if degree[child] == 0 { zero := zero + [child]; }
    }
    assert g.succ[u][..|g.succ[u]|] == g.succ[u];
    forall v | 0 <= v < |degree| ensures degree[v] == Waiting(g.pred[v], done + [u]) {
      assert Mirrored(g, u, v) && Distinct(g, v);
      WaitingLess(g.pred[v], done, u);
    }
  }

  method SourceTasks(g: Digraph) returns (zero: seq<nat>)
    requires GraphOk(g)
    ensures zero == FirstLayer(g, |g.succ|)
  {
    zero := [];
    for v := 0 to |g.succ|
      invariant zero == FirstLayer(g, v)
    {
      if g.pred[v] == [] { zero := zero + [v]; } else { assert g.pred[v][0] in g.pred[v]; }
    }
  }

  method NextGeneration(g: Digraph, degree0: seq<nat>, layer: seq<nat>, ghost done: seq<nat>)
    returns (degree: seq<nat>, next: seq<nat>)
    requires LayerAt(g, done, layer) && Degrees(g, degree0, done)
    ensures Degrees(g, degree, done + layer) && next == NextLayer(g, done, layer, |layer|)
  {
    degree, next := degree0, [];
    assert done + layer[..0] == done;
    for k := 0 to |layer|
      invariant Degrees(g, degree, done + layer[..k]) && next == NextLayer(g, done, layer, k)
    {
      LayerStep(g, done, layer, k, 0);
      assert (done + layer)[|done| + k] == layer[k];
      forall i | 0 <= i < |done + layer[..k]| ensures (done + layer[..k])[i] != layer[k] {
        assert (done + layer)[i] == (done + layer[..k])[i];
      }
      assert done + layer[..k] + [layer[k]] == done + layer[..k + 1];
      degree, next := Release(g, degree, layer[k], next, done + layer[..k]);
    }
    assert layer[..|layer|] == layer;
  }

  method TopologicalGenerations(g: Digraph) returns (layers: seq<seq<nat>>)
    requires GraphOk(g)
    ensures layers == AllLayers(g)
  {
    var degree: seq<nat> := seq(|g.pred|, v requires 0 <= v < |g.pred| => |g.pred[v]|);
    forall v | 0 <= v < |degree| ensures degree[v] == Waiting(g.pred[v], []) { WaitingAll(g.pred[v]); }
    var zero := SourceTasks(g);
    LayerFirst(g);
    layers := [];
    ghost var done: seq<nat> := [];
    while zero != []
      invariant LayerAt(g, done, zero) && Degrees(g, degree, done)
      invariant AllLayers(g) == layers + Layers(g, done, zero)
      decreases |g.succ| - |done|
    {
      LayerShort(g, done, zero);
      LayerNext(g, done, zero);
      var next: seq<nat>;
      degree, next := NextGeneration(g, degree, zero, done);
      layers := layers + [zero];
      done, zero := done + zero, next;
    }
  }

  lemma {:induction false} WaitingAll(ps: seq<nat>)
    ensures Waiting(ps, []) == |ps|
  {
    if ps != [] { WaitingAll(ps[1..]); }
  }

  // ---- Loops and layers ----

  predicate Below(p: seq<nat>, n: nat) {
    forall i | 0 <= i < |p| :: p[i] < n
  }

  lemma DistinctCovers(p: seq<nat>, n: nat, v: nat)
    requires NoDup(p) && |p| == n && v < n && Below(p, n)
    ensures v in p
  {
    if v !in p { DistinctShort(p + [v], n); }
  }

  lemma {:induction false} CoverLong(p: seq<nat>, n: nat)
    requires forall v: nat | v < n :: v in p
    ensures |p| >= n
  {
    if n > 0 {
      var last: nat := n - 1;
      assert last in p;
      var i :| 0 <= i < |p| && p[i] == last;
      var rest := p[..i] + p[i + 1..];
      assert p == p[..i] + [p[i]] + p[i + 1..];
      forall v: nat | v < n - 1 ensures v in rest { assert v in p; }
      CoverLong(rest, n - 1);
    }
  }

  lemma BeforeTrans(p: seq<nat>, a: nat, b: nat, c: nat)
    requires NoDup(p) && Before(p, a, b) && Before(p, b, c)
    ensures Before(p, a, c) && a != c
  {
    var i, j :| 0 <= i < j < |p| && p[i] == a && p[j] == b;
    var k, l :| 0 <= k < l < |p| && p[k] == b && p[l] == c;
    assert j == k;
    BeforeIn(p, i, l);
  }

  /** Every edge points forward in the list. */
  ghost predicate Forward(g: Digraph, order: seq<nat>) {
    NoDup(order) && forall u: nat, v: nat | HasEdge(g, u, v) :: Before(order, u, v)
  }

  lemma {:induction false} PathForward(g: Digraph, order: seq<nat>, p: seq<nat>)
    requires Forward(g, order) && Path(g, p) && |p| >= 2
    ensures Before(order, p[0], p[|p| - 1])
  {
    var q := p[..|p| - 1];
    assert StepAt(g, p, |p| - 2);
    if |q| >= 2 {
      forall i | 0 <= i < |q| - 1 ensures StepAt(g, q, i) { assert StepAt(g, p, i); }
      PathForward(g, order, q);
      BeforeTrans(order, p[0], p[|p| - 2], p[|p| - 1]);
    }
  }

  lemma ForwardAcyclic(g: Digraph, order: seq<nat>)
    requires Forward(g, order)
    ensures !Cyclic(g)
  {
    if Cyclic(g) {
      var p: seq<nat> :| Loop(g, p);
      PathForward(g, order, p);
      BeforeTrans(order, p[0], p[0], p[0]);
    }
  }

  /** The layers hold every task exactly if there is no loop. */
  lemma CoversIffAcyclic(g: Digraph)
    requires GraphOk(g)
    ensures |Flatten(AllLayers(g))| == |g.succ| <==> !Cyclic(g)
    ensures NoDup(Flatten(AllLayers(g))) && Below(Flatten(AllLayers(g)), |g.succ|)
  {
    LayerFirst(g);
    var flat := Flatten(AllLayers(g));
    LayersCover(g, [], FirstLayer(g, |g.succ|));
    assert [] + flat == flat;
    assert Below(flat, |g.succ|) by {
      forall i | 0 <= i < |flat| ensures flat[i] < |g.succ| { assert flat[i] in flat; }
    }
    DistinctShort(flat, |g.succ|);
    if !Cyclic(g) { CoverLong(flat, |g.succ|); }
    if |flat| == |g.succ| {
      var order := Plan(seq(|g.succ|, _ => ""), AllLayers(g));
      PlanSame(seq(|g.succ|, _ => ""), AllLayers(g));
      SameNoDup(flat, order);
      forall u: nat, v: nat | HasEdge(g, u, v) ensures Before(order, u, v) {
        assert Mirrored(g, u, v);
        DistinctCovers(flat, |g.succ|, v);
        LayersForward(g, seq(|g.succ|, _ => ""), [], FirstLayer(g, |g.succ|), u, v);
      }
      ForwardAcyclic(g, order);
    }
  }

  lemma {:induction false} SameNoDup(s: seq<nat>, t: seq<nat>)
    requires NoDup(s) && multiset(s) == multiset(t)
    ensures NoDup(t) && |t| == |s| && forall v :: v in s <==> v in t
  {
    NoDupOnce(s);
    OnceNoDup(t);
    assert |multiset(s)| == |s| && |multiset(t)| == |t|;
    forall v ensures v in s <==> v in t { assert v in multiset(s) <==> v in multiset(t); }
  }

  lemma {:induction false} NoDupOnce(s: seq<nat>)
    requires NoDup(s)
    ensures forall v | v in multiset(s) :: multiset(s)[v] == 1
  {
    if s != [] {
      var rest := s[..|s| - 1];
      assert s == rest + [s[|s| - 1]];
      NoDupOnce(rest);
      assert s[|s| - 1] !in rest;
    }
  }

  lemma OnceNoDup(s: seq<nat>)
    requires forall v | v in multiset(s) :: multiset(s)[v] == 1
    ensures NoDup(s)
  {
    forall i, j | 0 <= i < j < |s| ensures s[i] != s[j] {
      if s[i] == s[j] { Twice(s, i, j); }
    }
  }

  lemma Twice(s: seq<nat>, i: nat, j: nat)
    requires i < j < |s| && s[i] == s[j]
    ensures s[j] in multiset(s) && multiset(s)[s[j]] >= 2
  {
    assert s == s[..j] + [s[j]] + s[j + 1..];
    assert s[..j][i] == s[i] && s[i] in multiset(s[..j]);
    assert multiset(s) == multiset(s[..j]) + multiset{s[j]} + multiset(s[j + 1..]);
  }

  method DetectCycles(g: Digraph) returns (found: bool)
    requires GraphOk(g)
    ensures found <==> Cyclic(g)
  {
    CoversIffAcyclic(g);
    var layers := TopologicalGenerations(g);
    var count := 0;
    for i := 0 to |layers|
      invariant count + |Flatten(layers[i..])| == |Flatten(layers)|
    {
      count := count + |layers[i]|;
      assert layers[i..][1..] == layers[i + 1..];
    }
    DistinctShort(Flatten(layers), |g.succ|);
    found := count < |g.succ|;
  }

  // ---- Sorting the tasks ----

  function Configs(specs: seq<Spec>): (keys: seq<string>)
    ensures |keys| == |specs| && forall t | 0 <= t < |specs| :: keys[t] == specs[t].config
  {
    seq(|specs|, t requires 0 <= t < |specs| => specs[t].config)
  }

  /** The order in which the tasks are run. */
  ghost function Order(specs: seq<Spec>): seq<nat>
    requires SearchesEnd(specs)
  {
    Plan(Configs(specs), AllLayers(TaskDigraph(specs)))
  }

  /** The task lists that can be sorted: every dependency is satisfied, and nothing waits for itself. */
  ghost predicate Sortable(specs: seq<Spec>) {
    SearchesEnd(specs) && AllMatched(specs) && !Cyclic(TaskDigraph(specs))
  }

  lemma Regroup(a: seq<nat>, b: seq<nat>, c: seq<nat>)
    ensures a + (b + c) == (a + b) + c
  {
  }

  method TopologicalSort(g: Digraph, keys: seq<string>) returns (order: seq<nat>)
    requires GraphOk(g)
    ensures order == Plan(keys, AllLayers(g))
  {
    var layers := TopologicalGenerations(g);
    order := [];
    for i := 0 to |layers|
      invariant order + Plan(keys, layers[i..]) == Plan(keys, layers)
    {
      assert layers[i..][1..] == layers[i + 1..];
      assert Plan(keys, layers[i..]) == StableSort(keys, layers[i]) + Plan(keys, layers[i + 1..]);
      Regroup(order, StableSort(keys, layers[i]), Plan(keys, layers[i + 1..]));
      order := order + StableSort(keys, layers[i]);
    }
  }

  /** Each task once, and no other. */
  ghost predicate Permutes(order: seq<nat>, n: nat) {
    NoDup(order) && |order| == n && forall v: nat :: v in order <==> v < n
  }

  lemma OrderPermutes(specs: seq<Spec>)
    requires SearchesEnd(specs) && !Cyclic(TaskDigraph(specs))
    ensures Permutes(Order(specs), |specs|)
  {
    var g := TaskDigraph(specs);
    CoversIffAcyclic(g);
    var flat := Flatten(AllLayers(g));
    PlanSame(Configs(specs), AllLayers(g));
    SameNoDup(flat, Order(specs));
    forall v: nat ensures v in flat <==> v < |specs| {
      if v < |specs| { DistinctCovers(flat, |specs|, v); }
    }
  }

  lemma OrderForward(specs: seq<Spec>, u: nat, v: nat)
    requires SearchesEnd(specs) && !Cyclic(TaskDigraph(specs)) && HasEdge(TaskDigraph(specs), u, v)
    ensures Before(Order(specs), u, v)
  {
    var g := TaskDigraph(specs);
    CoversIffAcyclic(g);
    assert Mirrored(g, u, v);
    DistinctCovers(Flatten(AllLayers(g)), |specs|, v);
    LayerFirst(g);
    LayersForward(g, Configs(specs), [], FirstLayer(g, |g.succ|), u, v);
  }

  /** A task comes after everything that satisfies one of its dependencies, and after every task whose barrier it is. */
  lemma DependenciesFirst(specs: seq<Spec>, s: nat, t: nat)
    requires Sortable(specs)
    requires DependsOn(specs, t, s) || (s < |specs| && Auto(BaseGraph(specs), Flags(specs), s) == Some(t))
    ensures Before(Order(specs), s, t)
  {
    TaskEdgeIs(specs, s, t);
    OrderForward(specs, s, t);
  }

  ghost predicate ArrangedBy(sorted: seq<Task>, tasks: seq<Task>, order: seq<nat>) {
    && |sorted| == |order|
    && forall i | 0 <= i < |order| :: order[i] < |tasks| && sorted[i] == tasks[order[i]]
  }

  lemma ArrangedSame(sorted: seq<Task>, tasks: seq<Task>, order: seq<nat>)
    requires ArrangedBy(sorted, tasks, order) && Permutes(order, |tasks|) && NoDup(tasks)
    ensures NoDup(sorted) && forall t :: t in sorted <==> t in tasks
  {
    forall t ensures t in sorted <==> t in tasks {
      if t in tasks {
        var v :| 0 <= v < |tasks| && tasks[v] == t;
        assert v in order;
        var i :| 0 <= i < |order| && order[i] == v;
        assert sorted[i] == t;
      }
    }
  }

  /** The tasks in the order of their sorted ids. */
  method Arrange(tasks: seq<Task>, order: seq<nat>) returns (sorted: seq<Task>)
    requires Permutes(order, |tasks|)
    ensures ArrangedBy(sorted, tasks, order)
  {
    sorted := [];
    for i := 0 to |order|
      invariant ArrangedBy(sorted, tasks, order[..i])
    {
      assert order[i] in order;
      sorted := sorted + [tasks[order[i]]];
    }
  }

  method Sort(tasks: seq<Task>) returns (r: Result<seq<Task>>)
    requires NoDup(tasks) && (AllMatched(Views(tasks)) ==> SearchesEnd(Views(tasks)))
    modifies tasks
    ensures Views(tasks) == old(Views(tasks))
    ensures r.Ok? <==> Sortable(Views(tasks))
    ensures r.Ok? ==> ArrangedBy(r.value, tasks, Order(Views(tasks))) && Numbered(r.value)
    ensures r.Ok? ==> NoDup(r.value) && forall t :: t in r.value <==> t in tasks
  {
    ghost var specs := Views(tasks);
    var created := CreateTaskGraph(tasks);
    if created.Err? {
      MissingUnmatched(specs, created.why);
      return Err(created.why);
    }
    var g := created.value;
    var found := DetectCycles(g);
    if found { return Err(DependencyLoop); }
    var order := TopologicalSort(g, Configs(Views(tasks)));
    OrderPermutes(specs);
    var sorted := Arrange(tasks, order);
    ArrangedSame(sorted, tasks, order);
    RenumberTasks(sorted, tasks);
    r := Ok(sorted);
  }

  lemma MissingUnmatched(specs: seq<Spec>, why: Failure)
    requires Missing(specs, why)
    ensures !AllMatched(specs)
  {
    var deps := specs[why.task].deps;
    var j :| 0 <= j < |deps| && deps[j] == why.dep;
    assert !TaskMatched(specs, why.task, |deps|);
  }

  method RenumberTasks(sorted: seq<Task>, ghost tasks: seq<Task>)
    requires NoDup(sorted) && forall t :: t in sorted <==> t in tasks
    modifies sorted
    ensures Numbered(sorted) && Views(tasks) == old(Views(tasks))
  {
    ghost var specs := Views(sorted);
    NumberTasks(sorted);
    forall i | 0 <= i < |tasks| ensures tasks[i].View() == old(tasks[i].View()) {
      assert tasks[i] in sorted;
      var j :| 0 <= j < |sorted| && sorted[j] == tasks[i];
      assert Views(sorted)[j] == specs[j];
    }
  }

  // ---- The order within a manifest ----

  lemma GrowsKeeps(g: Digraph, g': Digraph, u: nat, a: nat, b: nat)
    requires GraphOk(g') && Grows(g, g') && HasEdge(g, u, a) && !HasEdge(g, u, b) && HasEdge(g', u, b)
    ensures Before(g'.succ[u], a, b)
  {
    var i :| 0 <= i < |g.succ[u]| && g.succ[u][i] == a;
    var j :| 0 <= j < |g'.succ[u]| && g'.succ[u][j] == b;
    assert g'.succ[u][..|g.succ[u]|] == g.succ[u];
    assert forall l | 0 <= l < |g.succ[u]| :: g'.succ[u][l] == g.succ[u][l] && g.succ[u][l] != b;
    assert g'.succ[u][i] == a;
    BeforeIn(g'.succ[u], i, j);
  }

  /** Task v has an automatic edge to task a. */
  ghost predicate BarrierOf(specs: seq<Spec>, v: nat, a: nat)
    requires SearchesEnd(specs)
  {
    v < |specs| && Auto(BaseGraph(specs), Flags(specs), v) == Some(a)
  }

  /** The tasks in the order in which they are released, before the layers are sorted. */
  ghost function ReleaseOrder(specs: seq<Spec>): seq<nat>
    requires SearchesEnd(specs)
  {
    Flatten(AllLayers(TaskDigraph(specs)))
  }

  /** Every task that waits behind an automatic edge to a comes before something that b waits for. */
  ghost predicate BarriersEarly(specs: seq<Spec>, a: nat, b: nat)
    requires SearchesEnd(specs)
  {
    forall v: nat | BarrierOf(specs, v, a) :: Outwaited(specs, v, b)
  }

  ghost predicate Outwaited(specs: seq<Spec>, v: nat, b: nat)
    requires SearchesEnd(specs)
  {
    exists u: nat :: HasEdge(TaskDigraph(specs), u, b) && Before(ReleaseOrder(specs), v, u)
  }

  lemma ReleaseOrderIs(specs: seq<Spec>)
    requires Sortable(specs)
    ensures Permutes(ReleaseOrder(specs), |specs|)
  {
    CoversIffAcyclic(TaskDigraph(specs));
    forall v: nat ensures v in ReleaseOrder(specs) <==> v < |specs| {
      if v < |specs| { DistinctCovers(ReleaseOrder(specs), |specs|, v); }
    }
  }

  /** Being ready is having every predecessor processed. */
  lemma ReadyIs(g: Digraph, done: seq<nat>, v: nat, u: nat)
    requires GraphOk(g) && Ready(g, done, v) && HasEdge(g, u, v)
    ensures u in done
  {
    assert Mirrored(g, u, v);
  }

  lemma NotReady(g: Digraph, done: seq<nat>, v: nat) returns (u: nat)
    requires GraphOk(g) && v < |g.pred| && !Ready(g, done, v)
    ensures HasEdge(g, u, v) && u !in done
  {
    u :| u in g.pred[v] && u !in done;
    assert Mirrored(g, u, v);
  }

  lemma SharedEdge(specs: seq<Spec>, a: nat, b: nat, u: nat)
    requires SearchesEnd(specs) && a < b < |specs| && specs[a].deps == specs[b].deps
    requires DependsOn(specs, a, u)
    ensures HasEdge(TaskDigraph(specs), u, b) && Before(TaskDigraph(specs).succ[u], a, b)
  {
    assert DependsOn(specs, b, u);
    TaskEdgeIs(specs, u, b);
    BaseUpToIs(specs, a + 1, u, a);
    BaseUpToIs(specs, a + 1, u, b);
    BaseUpToGrows(specs, a + 1, |specs|);
    GrowsKeeps(BaseUpTo(specs, a + 1), TaskDigraph(specs), u, a, b);
  }

  lemma InPrefix(s: seq<nat>, x: nat, y: nat, n: nat)
    requires NoDup(s) && Before(s, x, y) && n <= |s| && y in s[..n]
    ensures x in s[..n]
  {
    var i, j :| 0 <= i < j < |s| && s[i] == x && s[j] == y;
    assert s[..n][i] == x;
  }

  /** With its barriers early, a is released first. */
  lemma EarlyFollows(specs: seq<Spec>, a: nat, b: nat)
    requires Sortable(specs) && a < b < |specs| && specs[a].deps == specs[b].deps && BarriersEarly(specs, a, b)
    ensures Follows(TaskDigraph(specs), ReleaseOrder(specs), a, b)
  {
    var g, flat := TaskDigraph(specs), ReleaseOrder(specs);
    ReleaseOrderIs(specs);
    forall n | 0 <= n <= |flat| ensures ReadyTogether(g, flat, n, a, b) {
      if Ready(g, flat[..n], b) && !Ready(g, flat[..n], a) {
        var u := NotReady(g, flat[..n], a);
        PredProcessed(specs, a, b, n, u);
      }
    }
    forall n | 0 <= n < |flat| ensures TieBroken(g, flat, n, a, b) {
      if Ready(g, flat[..n + 1], a) && !Ready(g, flat[..n], a) && Ready(g, flat[..n + 1], b) {
        var u := NotReady(g, flat[..n], a);
        ReadyIs(g, flat[..n + 1], a, u);
        assert flat[..n + 1] == flat[..n] + [flat[n]] && u == flat[n];
        TaskEdgeIs(specs, u, a);
        if DependsOn(specs, a, u) { SharedEdge(specs, a, b, u); } else { LateBarrier(specs, a, b, n, u); }
      }
    }
  }

  /** When b is ready, so is everything a waits for. */
  lemma PredProcessed(specs: seq<Spec>, a: nat, b: nat, n: nat, u: nat)
    requires Sortable(specs) && a < b < |specs| && specs[a].deps == specs[b].deps && BarriersEarly(specs, a, b)
    requires n <= |ReleaseOrder(specs)| && Ready(TaskDigraph(specs), ReleaseOrder(specs)[..n], b)
    requires HasEdge(TaskDigraph(specs), u, a)
    ensures u in ReleaseOrder(specs)[..n]
  {
    var g, flat := TaskDigraph(specs), ReleaseOrder(specs);
    ReleaseOrderIs(specs);
    TaskEdgeIs(specs, u, a);
    if DependsOn(specs, a, u) {
      SharedEdge(specs, a, b, u);
      ReadyIs(g, flat[..n], b, u);
    } else {
      assert BarrierOf(specs, u, a) && Outwaited(specs, u, b);
      var w: nat :| HasEdge(g, w, b) && Before(flat, u, w);
      ReadyIs(g, flat[..n], b, w);
      InPrefix(flat, u, w, n);
    }
  }

  /** A barrier that comes early is never the last thing a waits for when b is ready. */
  lemma LateBarrier(specs: seq<Spec>, a: nat, b: nat, n: nat, u: nat)
    requires Sortable(specs) && BarriersEarly(specs, a, b) && BarrierOf(specs, u, a)
    requires n < |ReleaseOrder(specs)| && ReleaseOrder(specs)[n] == u
    ensures !Ready(TaskDigraph(specs), ReleaseOrder(specs)[..n + 1], b)
  {
    var g, flat := TaskDigraph(specs), ReleaseOrder(specs);
    ReleaseOrderIs(specs);
    assert Outwaited(specs, u, b);
    var w: nat :| HasEdge(g, w, b) && Before(flat, u, w);
    var i, j :| 0 <= i < j < |flat| && flat[i] == u && flat[j] == w;
    assert i == n;
    PastPrefix(flat, n + 1, j);
    if Ready(g, flat[..n + 1], b) { ReadyIs(g, flat[..n + 1], b, w); }
  }

  lemma PastPrefix(s: seq<nat>, n: nat, j: nat)
    requires NoDup(s) && n <= j < |s|
    ensures s[j] !in s[..n]
  {
    assert forall l | 0 <= l < n :: s[..n][l] == s[l] && s[l] != s[j];
  }

  /** With a barrier that is not early, b is released first. */
  lemma LateFollows(specs: seq<Spec>, a: nat, b: nat, v: nat)
    requires Sortable(specs) && a < |specs| && b < |specs| && a != b && BarrierOf(specs, v, a) && !Outwaited(specs, v, b)
    ensures Follows(TaskDigraph(specs), ReleaseOrder(specs), b, a) && HasEdge(TaskDigraph(specs), v, a)
  {
    var g, flat := TaskDigraph(specs), ReleaseOrder(specs);
    TaskEdgeIs(specs, v, a);
    forall n | 0 <= n <= |flat| ensures ReadyTogether(g, flat, n, b, a) {
      if Ready(g, flat[..n], a) {
        ReadyIs(g, flat[..n], a, v);
        AllProcessed(specs, a, b, v, n);
      }
    }
    forall n | 0 <= n < |flat| ensures TieBroken(g, flat, n, b, a) {
      if Ready(g, flat[..n + 1], a) { NoTie(specs, a, b, v, n); }
    }
  }

  /** When a gets ready, b is. */
  lemma NoTie(specs: seq<Spec>, a: nat, b: nat, v: nat, n: nat)
    requires Sortable(specs) && a < |specs| && b < |specs| && a != b && BarrierOf(specs, v, a) && !Outwaited(specs, v, b)
    requires n < |ReleaseOrder(specs)| && Ready(TaskDigraph(specs), ReleaseOrder(specs)[..n + 1], a)
    ensures Ready(TaskDigraph(specs), ReleaseOrder(specs)[..n], b)
  {
    var g, flat := TaskDigraph(specs), ReleaseOrder(specs);
    TaskEdgeIs(specs, v, a);
    ReadyIs(g, flat[..n + 1], a, v);
    assert flat[..n + 1] == flat[..n] + [flat[n]];
    if v in flat[..n] { AllProcessed(specs, a, b, v, n); } else { BarrierAlone(specs, a, b, v, n); }
  }

  /** Whatever b waits for is processed no later than v. */
  lemma AllProcessed(specs: seq<Spec>, a: nat, b: nat, v: nat, n: nat)
    requires Sortable(specs) && b < |specs| && !Outwaited(specs, v, b)
    requires n <= |ReleaseOrder(specs)| && v in ReleaseOrder(specs)[..n]
    ensures Ready(TaskDigraph(specs), ReleaseOrder(specs)[..n], b)
  {
    var g, flat := TaskDigraph(specs), ReleaseOrder(specs);
    ReleaseOrderIs(specs);
    forall u | u in g.pred[b] ensures u in flat[..n] {
      assert Mirrored(g, u, b) && u in flat;
      if u !in flat[..n] { BehindPrefix(flat, v, u, n); }
    }
  }

  lemma BehindPrefix(s: seq<nat>, x: nat, y: nat, n: nat)
    requires n <= |s| && x in s[..n] && y in s && y !in s[..n]
    ensures Before(s, x, y)
  {
    var i :| 0 <= i < n && s[..n][i] == x;
    var j :| 0 <= j < |s| && s[j] == y;
    assert forall l | 0 <= l < n :: s[l] in s[..n];
    BeforeIn(s, i, j);
  }

  lemma BarrierAlone(specs: seq<Spec>, a: nat, b: nat, v: nat, n: nat)
    requires Sortable(specs) && a < |specs| && b < |specs| && a != b && BarrierOf(specs, v, a) && !Outwaited(specs, v, b)
    requires n < |ReleaseOrder(specs)| && ReleaseOrder(specs)[n] == v
    ensures Ready(TaskDigraph(specs), ReleaseOrder(specs)[..n], b)
  {
    var g, flat := TaskDigraph(specs), ReleaseOrder(specs);
    assert flat[..n + 1] == flat[..n] + [v];
    AllProcessed(specs, a, b, v, n + 1);
    if !Ready(g, flat[..n], b) {
      var u := NotReady(g, flat[..n], b);
      ReadyIs(g, flat[..n + 1], b, u);
      TaskEdgeIs(specs, v, b);
      BaseEdgeIs(specs, v, b);
    }
  }

  lemma FollowsOrder(specs: seq<Spec>, a: nat, b: nat)
    requires Sortable(specs) && a < |specs| && b < |specs| && specs[a].config == specs[b].config
    requires Follows(TaskDigraph(specs), ReleaseOrder(specs), a, b)
    requires Ready(TaskDigraph(specs), [], b) ==> a < b
    ensures Before(Order(specs), a, b)
  {
    var g, flat := TaskDigraph(specs), ReleaseOrder(specs);
    LayerFirst(g);
    ReleaseOrderIs(specs);
    var first := FirstLayer(g, |g.succ|);
    assert [] + flat == flat && flat[..0] == [];
    if b in first {
      FirstLayerIs(g, |g.succ|, b);
      assert ReadyTogether(g, flat, 0, a, b);
      FirstLayerIs(g, |g.succ|, a);
      var i :| 0 <= i < |first| && first[i] == a;
      var j :| 0 <= j < |first| && first[j] == b;
      BeforeIn(first, i, j);
    }
    LayersKeep(g, Configs(specs), flat, [], first, a, b);
  }

  /**
    Two tasks with the same config and dependencies run in listed order exactly if
    every task with an automatic edge to the earlier one comes before something
    that the later one waits for.
   */
  lemma ManifestOrder(specs: seq<Spec>, a: nat, b: nat)
    requires Sortable(specs) && a < b < |specs|
    requires specs[a].config == specs[b].config && specs[a].deps == specs[b].deps
    ensures Before(Order(specs), a, b) <==> BarriersEarly(specs, a, b)
    ensures !BarriersEarly(specs, a, b) ==> Before(Order(specs), b, a)
  {
    if BarriersEarly(specs, a, b) {
      EarlyFollows(specs, a, b);
      FollowsOrder(specs, a, b);
    } else {
      var v: nat :| BarrierOf(specs, v, a) && !Outwaited(specs, v, b);
      LateFollows(specs, a, b, v);
      if Ready(TaskDigraph(specs), [], a) { ReadyIs(TaskDigraph(specs), [], a, v); }
      FollowsOrder(specs, b, a);
      OrderPermutes(specs);
      if Before(Order(specs), a, b) { BeforeTrans(Order(specs), a, b, a); }
    }
  }

  /** A task without automatic edges to it keeps its place; in particular one that is not flagged. */
  lemma UnbarredKeepsPlace(specs: seq<Spec>, a: nat, b: nat)
    requires Sortable(specs) && a < b < |specs|
    requires specs[a].config == specs[b].config && specs[a].deps == specs[b].deps
    requires !specs[a].flagged || forall v: nat :: !BarrierOf(specs, v, a)
    ensures Before(Order(specs), a, b)
  {
    if !specs[a].flagged { UnflaggedUnbarred(specs, a); }
    ManifestOrder(specs, a, b);
  }

  /** A task whose barrier is the later one, or lies behind it, is overtaken. */
  lemma BarrierBehind(specs: seq<Spec>, a: nat, b: nat, p: seq<nat>)
    requires Sortable(specs) && Path(TaskDigraph(specs), p) && p[0] == b && BarrierOf(specs, p[|p| - 1], a)
    ensures Before(Order(specs), b, a)
  {
    DependenciesFirst(specs, p[|p| - 1], a);
    OrderPermutes(specs);
    if |p| >= 2 {
      AllForward(specs);
      PathForward(TaskDigraph(specs), Order(specs), p);
      BeforeTrans(Order(specs), b, p[|p| - 1], a);
    }
  }

  lemma AllForward(specs: seq<Spec>)
    requires SearchesEnd(specs) && !Cyclic(TaskDigraph(specs))
    ensures Forward(TaskDigraph(specs), Order(specs))
  {
    OrderPermutes(specs);
    forall u: nat, v: nat | HasEdge(TaskDigraph(specs), u, v) ensures Before(Order(specs), u, v) { OrderForward(specs, u, v); }
  }

  /** Two tasks that are not flagged and have the same dependencies always land in the same layer. */
  lemma SameDepsSameLayer(specs: seq<Spec>, a: nat, b: nat)
    requires Sortable(specs) && a < |specs| && b < |specs| && specs[a].deps == specs[b].deps
    requires forall v: nat :: !BarrierOf(specs, v, a) && !BarrierOf(specs, v, b)
    ensures exists layer :: layer in AllLayers(TaskDigraph(specs)) && a in layer && b in layer
  {
    var g := TaskDigraph(specs);
    forall u ensures u in g.pred[a] <==> u in g.pred[b] {
      assert Mirrored(g, u, a) && Mirrored(g, u, b);
      TaskEdgeIs(specs, u, a);
      TaskEdgeIs(specs, u, b);
      assert !BarrierOf(specs, u, a) && !BarrierOf(specs, u, b);
      assert DependsOn(specs, a, u) <==> DependsOn(specs, b, u);
    }
    LayerFirst(g);
    ReleaseOrderIs(specs);
    var i := SamePredsSameLayer(g, [], FirstLayer(g, |g.succ|), a, b);
    assert AllLayers(g)[i] in AllLayers(g);
  }

  lemma UnflaggedUnbarred(specs: seq<Spec>, a: nat)
    requires SearchesEnd(specs) && a < |specs| && !specs[a].flagged
    ensures forall v: nat :: !BarrierOf(specs, v, a)
  {
    forall v: nat ensures !BarrierOf(specs, v, a) {
      if BarrierOf(specs, v, a) { FoundIs(BaseGraph(specs), Flags(specs), v); }
    }
  }
}
