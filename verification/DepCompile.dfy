/**
  Dependency compilation: what a menu node depends on is added to the conditions
  of its children, and the properties of its menu nodes are collected in each
  symbol and choice; selects become reverse dependencies of their targets.
 */
module DepCompile {
  import opened Common
  import opened KconfigModel
  import opened MenuShape
  import opened MenuTree

  const Yes: Expr := Use(Known(2))
  const No: Expr := Use(Known(0))

  function MakeAnd(a: Expr, b: Expr): Expr {
    if a == Yes then b else if b == Yes then a else if a == No || b == No then No else And(a, b)
  }

  function MakeOr(a: Expr, b: Expr): Expr {
    if a == No then b else if b == No then a else if a == Yes || b == Yes then Yes else Or(a, b)
  }

  datatype Owner = OwnSym(s: nat) | OwnChoice(c: nat) | OwnMenu | OwnNone

  /** The properties of a menu node; `visibility` is used by menus only. */
  datatype Props = Props(
    owner: Owner,
    dep: Expr,
    prompt: Option<Expr>,
    visibility: Expr,
    defaults: seq<Guarded<Expr>>,
    ranges: seq<Guarded<(Operand, Operand)>>,
    selects: seq<Guarded<nat>>,
    implies: seq<Guarded<nat>>)

  /** What all menu nodes of a symbol or choice contribute to it; only the first two parts concern choices. */
  datatype ItemProps = ItemProps(
    directDep: Expr,
    defaults: seq<Guarded<Expr>>,
    ranges: seq<Guarded<(Operand, Operand)>>,
    revDep: Expr,
    weakRevDep: Expr)

  // ---- What a child inherits ----

  function Restrict<T>(gs: seq<Guarded<T>>, dep: Expr): (r: seq<Guarded<T>>)
    ensures |r| == |gs|
    ensures forall i | 0 <= i < |gs| :: r[i] == Guarded(gs[i].item, MakeAnd(gs[i].cond, dep))
  {
    seq(|gs|, i requires 0 <= i < |gs| => Guarded(gs[i].item, MakeAnd(gs[i].cond, dep)))
  }

  /** A node below one that contributes `base`, under the given `visible if`s. */
  function Inherit(p: Props, base: Expr, visible: Expr): Props {
    var dep := MakeAnd(p.dep, base);
    if p.owner.OwnSym? || p.owner.OwnChoice? then
      Props(p.owner, dep,
            if p.prompt.Some? then Some(MakeAnd(p.prompt.value, MakeAnd(visible, dep))) else None,
            p.visibility,
            Restrict(p.defaults, dep), Restrict(p.ranges, dep), Restrict(p.selects, dep), Restrict(p.implies, dep))
    else p.(dep := dep, prompt := if p.prompt.Some? then Some(MakeAnd(p.prompt.value, dep)) else None)
  }

  /** What a node passes on: a choice stands for itself, any other node for its dependencies. */
  function BaseOf(p: Props): Expr {
    if p.owner.OwnChoice? then Mode(p.owner.c) else p.dep
  }

  function PropsOf(ps: seq<Props>, i: nat): Props {
    if i < |ps| then ps[i] else Props(OwnNone, Yes, None, Yes, [], [], [], [])
  }

  /** The `visible if`s of the menus in up, a list of enclosing nodes that starts with the innermost. */
  function Visible(ps: seq<Props>, up: seq<nat>): Expr {
    if up == [] then Yes
    else if PropsOf(ps, up[0]).owner.OwnMenu? then MakeAnd(Visible(ps, up[1..]), PropsOf(ps, up[0]).visibility)
    else Visible(ps, up[1..])
  }

  /** Node i, enclosed by up, after compilation. */
  function Compiled(ps: seq<Props>, i: nat, up: seq<nat>): Props
    decreases |up|
  {
    if up == [] then PropsOf(ps, i)
    else Inherit(PropsOf(ps, i), BaseOf(Compiled(ps, up[0], up[1..])), Visible(ps, up))
  }

  // ---- What a node contributes to its symbol and to the symbols it selects ----

  /** The reverse dependencies of target from the first n selects (or implies) of a node of symbol s. */
  function Reverse(s: nat, gs: seq<Guarded<nat>>, target: nat, n: nat): seq<Expr>
    requires n <= |gs|
  {
    if n == 0 then []
    else if gs[n - 1].item == target then Reverse(s, gs, target, n - 1) + [MakeAnd(Use(Sym(s)), gs[n - 1].cond)]
    else Reverse(s, gs, target, n - 1)
  }

  function OrAll(e: Expr, es: seq<Expr>): Expr {
    if es == [] then e else MakeOr(OrAll(e, es[..|es| - 1]), es[|es| - 1])
  }

  /** Item z after the node with properties p has contributed. */
  function Contributed(x: ItemProps, z: Owner, p: Props): ItemProps {
    if p.owner.OwnChoice? then
      if p.owner == z then x.(directDep := MakeOr(x.directDep, p.dep), defaults := x.defaults + p.defaults) else x
    else if !p.owner.OwnSym? then x
    else
      var own := p.owner == z;
      ItemProps(if own then MakeOr(x.directDep, p.dep) else x.directDep,
                if own then x.defaults + p.defaults else x.defaults,
                if own then x.ranges + p.ranges else x.ranges,
                if z.OwnSym? then OrAll(x.revDep, Reverse(p.owner.s, p.selects, z.s, |p.selects|)) else x.revDep,
                if z.OwnSym? then OrAll(x.weakRevDep, Reverse(p.owner.s, p.implies, z.s, |p.implies|)) else x.weakRevDep)
  }

  /** Item z after the nodes in order have contributed. */
  function Collected(x: ItemProps, z: Owner, ps: seq<Props>, order: seq<nat>): ItemProps
    decreases order
  {
    if order == [] then x else Collected(Contributed(x, z, PropsOf(ps, order[0])), z, ps, order[1..])
  }

  lemma {:induction false} CollectedAppend(x: ItemProps, z: Owner, ps: seq<Props>, a: seq<nat>, b: seq<nat>)
    ensures Collected(x, z, ps, a + b) == Collected(Collected(x, z, ps, a), z, ps, b)
    decreases a
  {
    if a == [] {
      assert a + b == b;
    } else {
      assert (a + b)[1..] == a[1..] + b;
      CollectedAppend(Contributed(x, z, PropsOf(ps, a[0])), z, ps, a[1..], b);
    }
  }

  lemma {:induction false} CollectedSame(x: ItemProps, z: Owner, ps: seq<Props>, ps': seq<Props>, order: seq<nat>)
    requires forall i | i in order :: PropsOf(ps', i) == PropsOf(ps, i)
    ensures Collected(x, z, ps', order) == Collected(x, z, ps, order)
    decreases order
  {
    if order != [] { CollectedSame(Contributed(x, z, PropsOf(ps, order[0])), z, ps, ps', order[1..]); }
  }

  /** All of f is compiled, below up. */
  ghost predicate Final(ps0: seq<Props>, ps: seq<Props>, f: Forest, up: seq<nat>)
    decreases f
  {
    f == [] ||
    (&& f[0].id < |ps| && ps[f[0].id] == Compiled(ps0, f[0].id, up)
     && Final(ps0, ps, f[0].kids, [f[0].id] + up) && Final(ps0, ps, f[1..], up))
  }

  lemma {:induction false} FinalKept(ps0: seq<Props>, ps: seq<Props>, ps': seq<Props>, f: Forest, up: seq<nat>)
    requires Final(ps0, ps, f, up) && |ps'| == |ps| && forall i | i in Ids(f) && i < |ps| :: ps'[i] == ps[i]
    ensures Final(ps0, ps', f, up)
    decreases f
  {
    if f != [] {
      FinalKept(ps0, ps, ps', f[0].kids, [f[0].id] + up);
      FinalKept(ps0, ps, ps', f[1..], up);
    }
  }

  lemma {:induction false} FinalAppend(ps0: seq<Props>, ps: seq<Props>, f: Forest, g: Forest, up: seq<nat>)
    ensures Final(ps0, ps, f + g, up) <==> Final(ps0, ps, f, up) && Final(ps0, ps, g, up)
    decreases |f|
  {
    if f == [] {
      assert f + g == g;
    } else {
      assert (f + g)[1..] == f[1..] + g && (f + g)[0] == f[0];
      FinalAppend(ps0, ps, f[1..], g, up);
    }
  }

  /** The nodes of f in the order in which they contribute: each after those below it. */
  function Post(f: Forest): seq<nat>
    decreases f
  {
    if f == [] then [] else Post(f[0].kids) + [f[0].id] + Post(f[1..])
  }

  lemma PostOne(t: Tree)
    ensures Post([t]) == Post(t.kids) + [t.id]
  {
    assert [t][0] == t && [t][1..] == [];
  }

  lemma {:induction false} PostAppend(f: Forest, g: Forest)
    ensures Post(f + g) == Post(f) + Post(g)
    decreases |f|
  {
    if f == [] {
      assert f + g == g;
    } else {
      assert (f + g)[1..] == f[1..] + g && (f + g)[0] == f[0];
      PostAppend(f[1..], g);
    }
  }

  lemma {:induction false} PostIds(f: Forest)
    ensures forall x :: x in Post(f) <==> x in Ids(f)
    decreases f
  {
    if f != [] {
      PostIds(f[0].kids);
      PostIds(f[1..]);
    }
  }

  lemma {:induction false} CompiledKeeps(ps: seq<Props>, i: nat, up: seq<nat>)
    ensures Compiled(ps, i, up).owner == PropsOf(ps, i).owner && Compiled(ps, i, up).visibility == PropsOf(ps, i).visibility
  {
  }

  predicate InTable(p: Props, n: nat, m: nat) {
    && (p.owner.OwnSym? ==> p.owner.s < n) && (p.owner.OwnChoice? ==> p.owner.c < m)
    && (forall j | 0 <= j < |p.selects| :: p.selects[j].item < n)
    && (forall j | 0 <= j < |p.implies| :: p.implies[j].item < n)
  }

  /** Only nodes without a symbol have children before compilation. */
  predicate SymsAreLeaves(ps: seq<Props>, f: Forest)
    decreases f
  {
    f == [] ||
    (&& (PropsOf(ps, f[0].id).owner.OwnSym? ==> f[0].kids == [])
     && SymsAreLeaves(ps, f[0].kids) && SymsAreLeaves(ps, f[1..]))
  }

  // ---- The compiler ----

  const Untouched: ItemProps := ItemProps(No, [], [], No, No)

  class Compiler {
    var nodes: seq<Props>
    var syms: seq<ItemProps>
    var choices: seq<ItemProps>

    constructor (nodes: seq<Props>, symCount: nat, choiceCount: nat)
      ensures this.nodes == nodes && |syms| == symCount && |choices| == choiceCount
      ensures forall s | 0 <= s < symCount :: syms[s] == Untouched
      ensures forall c | 0 <= c < choiceCount :: choices[c] == Untouched
    {
      this.nodes := nodes;
      syms, choices := seq(symCount, _ => Untouched), seq(choiceCount, _ => Untouched);
    }

    /** The dependencies of node i go to its children. */
    method PropagateDeps(i: nat, kids: Forest, visible: Expr)
      requires i < |nodes| && forall j | 0 <= j < |kids| :: kids[j].id < |nodes| && kids[j].id != i
      requires forall j, l | 0 <= j < l < |kids| :: kids[j].id != kids[l].id
      modifies this`nodes
      ensures |nodes| == |old(nodes)|
      ensures forall j | 0 <= j < |kids| :: nodes[kids[j].id] == Inherit(old(nodes)[kids[j].id], BaseOf(old(nodes)[i]), visible)
      ensures forall x | 0 <= x < |nodes| && (forall j | 0 <= j < |kids| :: kids[j].id != x) :: nodes[x] == old(nodes)[x]
    {
      var base := BaseOf(nodes[i]);
      for j := 0 to |kids|
        invariant |nodes| == |old(nodes)|
        invariant forall l | 0 <= l < j :: nodes[kids[l].id] == Inherit(old(nodes)[kids[l].id], base, visible)
        invariant forall x | 0 <= x < |nodes| && (forall l | 0 <= l < j :: kids[l].id != x) :: nodes[x] == old(nodes)[x]
      {
        nodes := nodes[kids[j].id := Inherit(nodes[kids[j].id], base, visible)];
      }
    }

    method AddReverse(s: nat, gs: seq<Guarded<nat>>, weak: bool)
      requires forall j | 0 <= j < |gs| :: gs[j].item < |syms|
      modifies this`syms
      ensures |syms| == |old(syms)|
      ensures forall t | 0 <= t < |syms| ::
                syms[t] == if weak then old(syms)[t].(weakRevDep := OrAll(old(syms)[t].weakRevDep, Reverse(s, gs, t, |gs|)))
                           else old(syms)[t].(revDep := OrAll(old(syms)[t].revDep, Reverse(s, gs, t, |gs|)))
    {
      for j := 0 to |gs|
        invariant |syms| == |old(syms)|
        invariant forall t | 0 <= t < |syms| ::
                    syms[t] == if weak then old(syms)[t].(weakRevDep := OrAll(old(syms)[t].weakRevDep, Reverse(s, gs, t, j)))
                               else old(syms)[t].(revDep := OrAll(old(syms)[t].revDep, Reverse(s, gs, t, j)))
      {
        var target, e := gs[j].item, MakeAnd(Use(Sym(s)), gs[j].cond);
        OrOne(if weak then old(syms)[target].weakRevDep else old(syms)[target].revDep, Reverse(s, gs, target, j), e);
        if weak {
          syms := syms[target := syms[target].(weakRevDep := MakeOr(syms[target].weakRevDep, e))];
        } else {
          syms := syms[target := syms[target].(revDep := MakeOr(syms[target].revDep, e))];
        }
      }
    }

    method AddPropsToSym(i: nat)
      requires i < |nodes| && nodes[i].owner.OwnSym? && InTable(nodes[i], |syms|, |choices|)
      modifies this`syms
      ensures |syms| == |old(syms)| && forall t | 0 <= t < |syms| :: syms[t] == Contributed(old(syms)[t], OwnSym(t), nodes[i])
      ensures forall t | 0 <= t < |syms| ::
                var own := t == nodes[i].owner.s;
                && syms[t].defaults == old(syms)[t].defaults + (if own then nodes[i].defaults else [])
                && syms[t].ranges == old(syms)[t].ranges + (if own then nodes[i].ranges else [])
    {
      var p := nodes[i];
      var s := p.owner.s;
      syms := syms[s := syms[s].(
        directDep := MakeOr(syms[s].directDep, p.dep),
        defaults := syms[s].defaults + p.defaults,
        ranges := syms[s].ranges + p.ranges)];
      AddReverse(s, p.selects, false);
      AddReverse(s, p.implies, true);
    }

    /** The properties of a choice node that are not its own. */
    method AddPropsToChoice(i: nat)
      requires i < |nodes| && nodes[i].owner.OwnChoice? && InTable(nodes[i], |syms|, |choices|)
      modifies this`choices
      ensures |choices| == |old(choices)|
      ensures forall c | 0 <= c < |choices| :: choices[c] == Contributed(old(choices)[c], OwnChoice(c), nodes[i])
    {
      var p := nodes[i];
      var c := p.owner.c;
      choices := choices[c := choices[c].(
        directDep := MakeOr(choices[c].directDep, p.dep),
        defaults := choices[c].defaults + p.defaults)];
    }

    /** The nodes of f, children of up, are compiled themselves, but nothing below them is. */
    ghost predicate Ready(ps0: seq<Props>, f: Forest, up: seq<nat>)
      reads this
    {
      && |ps0| == |nodes| && Unique(f) && SymsAreLeaves(ps0, f)
      && (forall x | x in Ids(f) :: x < |nodes|)
      && (forall x | 0 <= x < |ps0| :: InTable(ps0[x], |syms|, |choices|))
      && AtDepth(ps0, nodes, f, up)
    }

    /** Compiles the children of t and everything below. */
    method CompileNode(t: Tree, visible: Expr, ghost ps0: seq<Props>, ghost up: seq<nat>)
      requires Ready(ps0, [t], up) && visible == Visible(ps0, up)
      modifies this
      ensures |nodes| == |old(nodes)| && Final(ps0, nodes, [t], up)
      ensures forall x | 0 <= x < |nodes| && x !in Ids([t]) :: nodes[x] == old(nodes)[x]
      ensures Gathered(nodes, Post([t]), old(syms), syms, old(choices), choices)
      decreases t, 1
    {
      NodeParts(ps0, nodes, t, up, |syms|, |choices|);
      if nodes[t.id].owner.OwnSym? {
        AddPropsToSym(t.id);
        LeafDone(ps0, nodes, t, up, old(syms), syms, choices);
      } else {
        CompileBelow(t, visible, ps0, up);
        ghost var cs := choices;
        if nodes[t.id].owner.OwnChoice? {
          AddPropsToChoice(t.id);
        }
        InnerDone(ps0, nodes, t, up, old(syms), syms, old(choices), cs, choices);
      }
    }

    /** A menu, choice or `if`: its children inherit, and are compiled one after the other. */
    method CompileBelow(t: Tree, visible: Expr, ghost ps0: seq<Props>, ghost up: seq<nat>)
      requires Ready(ps0, [t], up) && visible == Visible(ps0, up)
      modifies this
      ensures |nodes| == |old(nodes)| && Final(ps0, nodes, t.kids, [t.id] + up)
      ensures forall x | 0 <= x < |nodes| && x !in Ids(t.kids) :: nodes[x] == old(nodes)[x]
      ensures Gathered(nodes, Post(t.kids), old(syms), syms, old(choices), choices)
      decreases t, 0
    {
      NodeParts(ps0, nodes, t, up, |syms|, |choices|);
      KidsApart(t);
      var v := if nodes[t.id].owner.OwnMenu? then MakeAnd(visible, nodes[t.id].visibility) else visible;
      ghost var ns := nodes;
      PropagateDeps(t.id, t.kids, v);
      StartKids(ps0, ns, nodes, t, up);
      CompileKids(t.kids, v, ps0, [t.id] + up);
    }

    method CompileKids(f: Forest, visible: Expr, ghost ps0: seq<Props>, ghost up: seq<nat>)
      requires Ready(ps0, f, up) && visible == Visible(ps0, up)
      modifies this
      ensures |nodes| == |old(nodes)| && Final(ps0, nodes, f, up)
      ensures forall x | 0 <= x < |nodes| && x !in Ids(f) :: nodes[x] == old(nodes)[x]
      ensures Gathered(nodes, Post(f), old(syms), syms, old(choices), choices)
      decreases f, 0
    {
      ghost var ns, ss, cs, done: Forest := nodes, syms, choices, [];
      StartProgress(ps0, ns, f, up, ss, cs);
      var todo := f;
      while todo != []
        invariant done + todo == f && Progress(ps0, ns, nodes, |syms|, |choices|, up, done, todo)
        invariant Gathered(nodes, Post(done), ss, syms, cs, choices)
        decreases |todo|
      {
        TailSmaller(f, done, todo);
        done := CompileNext(todo[0], visible, ps0, up, done, todo[1..], ns, ss, cs);
        todo := todo[1..];
      }
      EndProgress(ps0, ns, nodes, |syms|, |choices|, up, f, done);
    }

    method CompileNext(
      t: Tree, visible: Expr, ghost ps0: seq<Props>, ghost up: seq<nat>, ghost done: Forest, ghost rest: Forest,
      ghost ns0: seq<Props>, ghost ss0: seq<ItemProps>, ghost cs0: seq<ItemProps>)
      returns (ghost done': Forest)
      requires Progress(ps0, ns0, nodes, |syms|, |choices|, up, done, [t] + rest) && visible == Visible(ps0, up)
      requires Gathered(nodes, Post(done), ss0, syms, cs0, choices)
      modifies this
      ensures done' == done + [t] && Progress(ps0, ns0, nodes, |syms|, |choices|, up, done', rest)
      ensures Gathered(nodes, Post(done'), ss0, syms, cs0, choices)
      decreases t, 2
    {
      ghost var ns, ss, cs := nodes, syms, choices;
      SplitKid(ps0, ns, t, rest, up);
      CompileNode(t, visible, ps0, up);
      NextKid(ps0, ns, nodes, done, t, rest, up);
      NextItems(ns, nodes, done, t, ss0, ss, syms, cs0, cs, choices);
      done' := done + [t];
    }
  }

  /** The nodes in order have contributed to all symbols and choices. */
  ghost predicate Gathered(
    ps: seq<Props>, order: seq<nat>, ss0: seq<ItemProps>, ss: seq<ItemProps>, cs0: seq<ItemProps>, cs: seq<ItemProps>)
  {
    && |ss| == |ss0| && (forall s | 0 <= s < |ss| :: ss[s] == Collected(ss0[s], OwnSym(s), ps, order))
    && |cs| == |cs0| && (forall c | 0 <= c < |cs| :: cs[c] == Collected(cs0[c], OwnChoice(c), ps, order))
  }

  /** The nodes in done are compiled with everything below, those in todo only themselves. */
  ghost predicate Progress(
    ps0: seq<Props>, ns0: seq<Props>, ns: seq<Props>, n: nat, m: nat, up: seq<nat>, done: Forest, todo: Forest)
  {
    && |ps0| == |ns| == |ns0| && Unique(todo) && SymsAreLeaves(ps0, todo)
    && (forall x | x in Ids(todo) :: x < |ns|)
    && (forall x | 0 <= x < |ps0| :: InTable(ps0[x], n, m))
    && AtDepth(ps0, ns, todo, up) && Final(ps0, ns, done, up) && Ids(done) !! Ids(todo)
    && (forall x | 0 <= x < |ns| && x !in Ids(done) :: ns[x] == ns0[x])
  }

  lemma StartProgress(ps0: seq<Props>, ns: seq<Props>, f: Forest, up: seq<nat>, ss: seq<ItemProps>, cs: seq<ItemProps>)
    requires |ps0| == |ns| && Unique(f) && SymsAreLeaves(ps0, f) && AtDepth(ps0, ns, f, up)
    requires (forall x | x in Ids(f) :: x < |ns|) && (forall x | 0 <= x < |ps0| :: InTable(ps0[x], |ss|, |cs|))
    ensures [] + f == f && Progress(ps0, ns, ns, |ss|, |cs|, up, [], f) && Gathered(ns, Post([]), ss, ss, cs, cs)
  {
    NothingGathered(ns, ss, cs);
  }

  lemma NothingGathered(ps: seq<Props>, ss: seq<ItemProps>, cs: seq<ItemProps>)
    ensures Gathered(ps, Post([]), ss, ss, cs, cs)
  {
    assert Post([]) == [];
    forall x, z ensures Collected(x, z, ps, []) == x {}
  }

  lemma EndProgress(ps0: seq<Props>, ns0: seq<Props>, ns: seq<Props>, n: nat, m: nat, up: seq<nat>, f: Forest, done: Forest)
    requires done + [] == f && Progress(ps0, ns0, ns, n, m, up, done, [])
    ensures done == f && |ns| == |ns0| && Final(ps0, ns, f, up)
    ensures forall x | 0 <= x < |ns| && x !in Ids(f) :: ns[x] == ns0[x]
  {
    assert done + [] == done;
  }

  lemma TailSmaller(f: Forest, done: Forest, todo: Forest)
    requires done + todo == f && todo != []
    ensures todo[0] in f && todo == [todo[0]] + todo[1..] && (done + [todo[0]]) + todo[1..] == f
  {
    assert f[|done|] == todo[0];
  }

  lemma NodeParts(ps0: seq<Props>, ns: seq<Props>, t: Tree, up: seq<nat>, n: nat, m: nat)
    requires |ps0| == |ns| && Unique([t]) && SymsAreLeaves(ps0, [t]) && AtDepth(ps0, ns, [t], up)
    requires forall x | 0 <= x < |ps0| :: InTable(ps0[x], n, m)
    requires forall x | x in Ids([t]) :: x < |ns|
    ensures t.id < |ns| && ns[t.id] == Compiled(ps0, t.id, up) && InTable(ns[t.id], n, m)
    ensures ns[t.id].owner == ps0[t.id].owner && ns[t.id].visibility == ps0[t.id].visibility
    ensures ns[t.id].owner.OwnSym? ==> t.kids == []
    ensures SymsAreLeaves(ps0, t.kids) && Unique(t.kids) && t.id !in Ids(t.kids) && Ids([t]) == {t.id} + Ids(t.kids)
    ensures forall j | 0 <= j < |t.kids| :: t.kids[j].id < |ns| && t.kids[j].id != t.id
    ensures forall j, l | 0 <= j < l < |t.kids| :: t.kids[j].id != t.kids[l].id
    ensures ([t.id] + up)[0] == t.id && ([t.id] + up)[1..] == up && PropsOf(ps0, t.id) == ps0[t.id]
  {
    IdsOne(t);
    KidsApart(t);
    assert [t][0] == t && [t][1..] == [];
    CompiledKeeps(ps0, t.id, up);
    InheritInTable(ps0, t.id, up, n, m);
  }

  /** One more node contributes at the end. */
  lemma CollectedLast(x: ItemProps, z: Owner, ps: seq<Props>, order: seq<nat>, i: nat)
    ensures Collected(x, z, ps, order + [i]) == Contributed(Collected(x, z, ps, order), z, PropsOf(ps, i))
  {
    CollectedAppend(x, z, ps, order, [i]);
    assert [i][0] == i && [i][1..] == [];
  }

  lemma LeafDone(
    ps0: seq<Props>, ps: seq<Props>, t: Tree, up: seq<nat>, ss0: seq<ItemProps>, ss: seq<ItemProps>, cs: seq<ItemProps>)
    requires t.kids == [] && t.id < |ps| && ps[t.id] == Compiled(ps0, t.id, up) && |ss| == |ss0| && ps[t.id].owner.OwnSym?
    requires forall s | 0 <= s < |ss| :: ss[s] == Contributed(ss0[s], OwnSym(s), ps[t.id])
    ensures Final(ps0, ps, [t], up) && Gathered(ps, Post([t]), ss0, ss, cs, cs)
  {
    assert [t][0] == t && [t][1..] == [];
    PostOne(t);
    assert Post([t]) == [] + [t.id];
    forall s | 0 <= s < |ss| ensures ss[s] == Collected(ss0[s], OwnSym(s), ps, Post([t])) {
      CollectedLast(ss0[s], OwnSym(s), ps, [], t.id);
    }
    forall c | 0 <= c < |cs| ensures cs[c] == Collected(cs[c], OwnChoice(c), ps, Post([t])) {
      CollectedLast(cs[c], OwnChoice(c), ps, [], t.id);
    }
  }

  lemma InnerDone(
    ps0: seq<Props>, ps: seq<Props>, t: Tree, up: seq<nat>,
    ss0: seq<ItemProps>, ss: seq<ItemProps>, cs0: seq<ItemProps>, cs1: seq<ItemProps>, cs: seq<ItemProps>)
    requires t.id < |ps| && ps[t.id] == Compiled(ps0, t.id, up) && !ps[t.id].owner.OwnSym?
    requires Final(ps0, ps, t.kids, [t.id] + up) && Gathered(ps, Post(t.kids), ss0, ss, cs0, cs1) && |cs| == |cs1|
    requires forall c | 0 <= c < |cs| ::
               cs[c] == if ps[t.id].owner.OwnChoice? then Contributed(cs1[c], OwnChoice(c), ps[t.id]) else cs1[c]
    ensures Final(ps0, ps, [t], up) && Gathered(ps, Post([t]), ss0, ss, cs0, cs)
  {
    assert [t][0] == t && [t][1..] == [];
    PostOne(t);
    forall s | 0 <= s < |ss| ensures ss[s] == Collected(ss0[s], OwnSym(s), ps, Post([t])) {
      CollectedLast(ss0[s], OwnSym(s), ps, Post(t.kids), t.id);
    }
    forall c | 0 <= c < |cs| ensures cs[c] == Collected(cs0[c], OwnChoice(c), ps, Post([t])) {
      CollectedLast(cs0[c], OwnChoice(c), ps, Post(t.kids), t.id);
    }
  }

  lemma SplitKid(ps0: seq<Props>, ns: seq<Props>, t: Tree, rest: Forest, up: seq<nat>)
    requires Unique([t] + rest) && SymsAreLeaves(ps0, [t] + rest) && AtDepth(ps0, ns, [t] + rest, up)
    ensures Unique([t]) && SymsAreLeaves(ps0, [t]) && AtDepth(ps0, ns, [t], up) && Ids([t]) <= Ids([t] + rest)
    ensures Unique(rest) && SymsAreLeaves(ps0, rest) && AtDepth(ps0, ns, rest, up) && Ids(rest) <= Ids([t] + rest)
    ensures Ids([t]) !! Ids(rest)
  {
    IdsAppend([t], rest);
    assert ([t] + rest)[1..] == rest && ([t] + rest)[0] == t && [t][1..] == [];
    assert forall j | 0 <= j < |rest| :: rest[j] == ([t] + rest)[j + 1];
  }

  lemma NextKid(ps0: seq<Props>, ns: seq<Props>, ps: seq<Props>, done: Forest, t: Tree, rest: Forest, up: seq<nat>)
    requires Unique([t] + rest) && Ids(done) !! Ids([t] + rest) && |ps| == |ns|
    requires AtDepth(ps0, ns, rest, up) && Final(ps0, ns, done, up) && Final(ps0, ps, [t], up)
    requires forall x | 0 <= x < |ps| && x !in Ids([t]) :: ps[x] == ns[x]
    ensures AtDepth(ps0, ps, rest, up) && Final(ps0, ps, done + [t], up)
    ensures Ids(done + [t]) == Ids(done) + Ids([t]) && Ids(done + [t]) !! Ids(rest)
  {
    IdsAppend([t], rest);
    IdsAppend(done, [t]);
    FinalKept(ps0, ns, ps, done, up);
    FinalAppend(ps0, ps, done, [t], up);
    forall j | 0 <= j < |rest| ensures rest[j].id in Ids(rest) && Ids(rest[j].kids) <= Ids(rest) { KidIds(rest, j); }
  }

  lemma NextItem(x: ItemProps, z: Owner, ns: seq<Props>, ps: seq<Props>, done: Forest, t: Tree)
    requires |ps| == |ns| && forall i | 0 <= i < |ps| && i in Ids(done) :: ps[i] == ns[i]
    ensures Collected(Collected(x, z, ns, Post(done)), z, ps, Post([t])) == Collected(x, z, ps, Post(done + [t]))
  {
    PostIds(done);
    CollectedSame(x, z, ns, ps, Post(done));
    PostAppend(done, [t]);
    CollectedAppend(x, z, ps, Post(done), Post([t]));
  }

  lemma NextItems(
    ns: seq<Props>, ps: seq<Props>, done: Forest, t: Tree, ss0: seq<ItemProps>, ss: seq<ItemProps>, ss': seq<ItemProps>,
    cs0: seq<ItemProps>, cs: seq<ItemProps>, cs': seq<ItemProps>)
    requires |ps| == |ns| && forall i | 0 <= i < |ps| && i in Ids(done) :: ps[i] == ns[i]
    requires Gathered(ns, Post(done), ss0, ss, cs0, cs) && Gathered(ps, Post([t]), ss, ss', cs, cs')
    ensures Gathered(ps, Post(done + [t]), ss0, ss', cs0, cs')
  {
    forall s | 0 <= s < |ss'| ensures ss'[s] == Collected(ss0[s], OwnSym(s), ps, Post(done + [t])) {
      NextItem(ss0[s], OwnSym(s), ns, ps, done, t);
    }
    forall c | 0 <= c < |cs'| ensures cs'[c] == Collected(cs0[c], OwnChoice(c), ps, Post(done + [t])) {
      NextItem(cs0[c], OwnChoice(c), ns, ps, done, t);
    }
  }

  /** The nodes of f are compiled; those below are as parsed. */
  ghost predicate AtDepth(ps0: seq<Props>, ps: seq<Props>, f: Forest, up: seq<nat>) {
    forall j | 0 <= j < |f| ::
      && f[j].id < |ps| && ps[f[j].id] == Compiled(ps0, f[j].id, up)
      && forall x | x in Ids(f[j].kids) :: x < |ps| && x < |ps0| && ps[x] == ps0[x]
  }

  lemma InheritInTable(ps: seq<Props>, i: nat, up: seq<nat>, n: nat, m: nat)
    requires InTable(PropsOf(ps, i), n, m)
    ensures InTable(Compiled(ps, i, up), n, m)
  {
  }

  lemma KidsApart(t: Tree)
    requires Unique([t])
    ensures forall j | 0 <= j < |t.kids| :: t.kids[j].id != t.id && t.kids[j].id in Ids(t.kids)
    ensures forall j, l | 0 <= j < l < |t.kids| :: t.kids[j].id != t.kids[l].id
  {
    IdsOne(t);
    forall j | 0 <= j < |t.kids| ensures t.kids[j].id in Ids(t.kids) { KidIds(t.kids, j); }
    forall j, l | 0 <= j < l < |t.kids| ensures t.kids[j].id != t.kids[l].id {
      KidIds(t.kids, j);
      assert t.kids == t.kids[..l] + t.kids[l..];
      IdsAppend(t.kids[..l], t.kids[l..]);
      KidIds(t.kids[..l], j);
      KidIds(t.kids[l..], 0);
    }
  }

  lemma {:induction false} KidIds(f: Forest, j: nat)
    requires j < |f|
    ensures f[j].id in Ids(f) && Ids(f[j].kids) <= Ids(f)
  {
    if j > 0 { KidIds(f[1..], j - 1); }
  }

  /** No node is both a sibling and below a sibling. */
  lemma {:induction false} KidsBelow(f: Forest, j: nat, l: nat)
    requires j < |f| && l < |f| && Unique(f)
    ensures f[l].id !in Ids(f[j].kids)
  {
    if j > 0 && l > 0 {
      KidsBelow(f[1..], j - 1, l - 1);
    } else if l > 0 {
      KidIds(f[1..], l - 1);
    } else if j > 0 {
      KidIds(f[1..], j - 1);
    }
  }

  lemma StartKids(ps0: seq<Props>, ns: seq<Props>, ps: seq<Props>, t: Tree, up: seq<nat>)
    requires Unique([t]) && AtDepth(ps0, ns, [t], up) && |ps| == |ns| == |ps0|
    requires forall j | 0 <= j < |t.kids| ::
               t.kids[j].id < |ps| && ps[t.kids[j].id] == Inherit(ns[t.kids[j].id], BaseOf(ns[t.id]), Visible(ps0, [t.id] + up))
    requires forall x | 0 <= x < |ps| && (forall j | 0 <= j < |t.kids| :: t.kids[j].id != x) :: ps[x] == ns[x]
    ensures AtDepth(ps0, ps, t.kids, [t.id] + up)
  {
    IdsOne(t);
    assert [t][0] == t && ([t.id] + up)[1..] == up;
    forall j | 0 <= j < |t.kids|
      ensures t.kids[j].id < |ps| && ps[t.kids[j].id] == Compiled(ps0, t.kids[j].id, [t.id] + up)
      ensures forall x | x in Ids(t.kids[j].kids) :: x < |ps| && x < |ps0| && ps[x] == ps0[x]
    {
      KidIds(t.kids, j);
      forall x | x in Ids(t.kids[j].kids) ensures x < |ps| && x < |ps0| && ps[x] == ps0[x] {
        forall l | 0 <= l < |t.kids| ensures t.kids[l].id != x { KidsBelow(t.kids, j, l); }
      }
    }
  }

  lemma OrOne(e: Expr, es: seq<Expr>, x: Expr)
    ensures OrAll(e, es + [x]) == MakeOr(OrAll(e, es), x)
  {
    assert (es + [x])[..|es|] == es;
  }
}
