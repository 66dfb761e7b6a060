/**
  The menu tree as it is built: nodes that point to their next sibling, to the
  first of their children and to their parent.  The passes that reshape the tree
  rewire these pointers in place; each does to the linked nodes what MenuShape
  does to trees.
 */
module MenuTree {
  import opened Common
  import opened MenuShape

  datatype Node = Node(next: Option<nat>, list: Option<nat>, parent: Option<nat>)

  // ---- Trees and links ----

  function HeadOf(f: Forest, end: Option<nat>): Option<nat> {
    if f == [] then end else Some(f[0].id)
  }

  /** The nodes of f are linked as siblings below par, the last one followed by end. */
  ghost predicate Linked(ns: seq<Node>, end: Option<nat>, par: Option<nat>, f: Forest)
    decreases f
  {
    f == [] ||
    (&& f[0].id < |ns| && ns[f[0].id] == Node(HeadOf(f[1..], end), HeadOf(f[0].kids, None), par)
     && Linked(ns, None, Some(f[0].id), f[0].kids) && Linked(ns, end, par, f[1..]))
  }

  ghost function Ids(f: Forest): set<nat>
    decreases f
  {
    if f == [] then {} else {f[0].id} + Ids(f[0].kids) + Ids(f[1..])
  }

  /** No node occurs twice. */
  ghost predicate Unique(f: Forest)
    decreases f
  {
    f == [] ||
    (&& f[0].id !in Ids(f[0].kids) && f[0].id !in Ids(f[1..]) && Ids(f[0].kids) !! Ids(f[1..])
     && Unique(f[0].kids) && Unique(f[1..]))
  }

  ghost predicate SameOn(ns: seq<Node>, ns': seq<Node>, s: set<nat>) {
    |ns'| == |ns| && forall i | 0 <= i < |ns| && i in s :: ns'[i] == ns[i]
  }

  ghost predicate SameOff(ns: seq<Node>, ns': seq<Node>, s: set<nat>) {
    |ns'| == |ns| && forall i | 0 <= i < |ns| && i !in s :: ns'[i] == ns[i]
  }

  lemma {:induction false} IdsAppend(f: Forest, g: Forest)
    ensures Ids(f + g) == Ids(f) + Ids(g)
    ensures Unique(f + g) <==> Unique(f) && Unique(g) && Ids(f) !! Ids(g)
  {
    if f == [] {
      assert f + g == g;
    } else {
      assert (f + g)[1..] == f[1..] + g && (f + g)[0] == f[0];
      IdsAppend(f[1..], g);
    }
  }

  lemma IdsOne(t: Tree)
    ensures Ids([t]) == {t.id} + Ids(t.kids)
    ensures Unique([t]) <==> t.id !in Ids(t.kids) && Unique(t.kids)
  {
    assert [t][1..] == [] && [t][0] == t;
  }

  lemma IdsCons(t: Tree, f: Forest)
    ensures Ids([t] + f) == {t.id} + Ids(t.kids) + Ids(f)
    ensures Unique([t] + f) <==>
            t.id !in Ids(t.kids) && t.id !in Ids(f) && Ids(t.kids) !! Ids(f) && Unique(t.kids) && Unique(f)
  {
    assert ([t] + f)[1..] == f && ([t] + f)[0] == t;
  }

  lemma {:induction false} LinkedKept(ns: seq<Node>, ns': seq<Node>, end: Option<nat>, par: Option<nat>, f: Forest)
    requires Linked(ns, end, par, f) && SameOn(ns, ns', Ids(f))
    ensures Linked(ns', end, par, f)
    decreases f
  {
    if f != [] {
      LinkedKept(ns, ns', None, Some(f[0].id), f[0].kids);
      LinkedKept(ns, ns', end, par, f[1..]);
    }
  }

  /** Changes elsewhere do not matter. */
  lemma LinkedOff(ns: seq<Node>, ns': seq<Node>, s: set<nat>, end: Option<nat>, par: Option<nat>, f: Forest)
    requires Linked(ns, end, par, f) && SameOff(ns, ns', s) && Ids(f) !! s
    ensures Linked(ns', end, par, f)
  {
    LinkedKept(ns, ns', end, par, f);
  }

  lemma {:induction false} LinkedAppend(ns: seq<Node>, end: Option<nat>, par: Option<nat>, f: Forest, g: Forest)
    ensures Linked(ns, end, par, f + g) <==> Linked(ns, HeadOf(g, end), par, f) && Linked(ns, end, par, g)
    decreases |f|
  {
    if f == [] {
      assert f + g == g;
    } else {
      assert (f + g)[1..] == f[1..] + g && (f + g)[0] == f[0];
      LinkedAppend(ns, end, par, f[1..], g);
      assert HeadOf(f[1..] + g, end) == HeadOf(f[1..], HeadOf(g, end));
    }
  }

  lemma LinkedOne(ns: seq<Node>, end: Option<nat>, par: Option<nat>, t: Tree)
    ensures Linked(ns, end, par, [t]) <==>
            t.id < |ns| && ns[t.id] == Node(end, HeadOf(t.kids, None), par) && Linked(ns, None, Some(t.id), t.kids)
  {
    assert [t][1..] == [] && [t][0] == t;
  }

  lemma LinkedCons(ns: seq<Node>, end: Option<nat>, par: Option<nat>, t: Tree, f: Forest)
    ensures Linked(ns, end, par, [t] + f) <==>
            && t.id < |ns| && ns[t.id] == Node(HeadOf(f, end), HeadOf(t.kids, None), par)
            && Linked(ns, None, Some(t.id), t.kids) && Linked(ns, end, par, f)
  {
    assert ([t] + f)[1..] == f && ([t] + f)[0] == t;
  }

  function SetNext(ns: seq<Node>, i: nat, next: Option<nat>): seq<Node>
    requires i < |ns|
  {
    ns[i := ns[i].(next := next)]
  }

  function SetParent(ns: seq<Node>, i: nat, par: Option<nat>): seq<Node>
    requires i < |ns|
  {
    ns[i := ns[i].(parent := par)]
  }

  /** A single tree gets another node behind it, or another parent. */
  lemma OneChanged(ns: seq<Node>, end: Option<nat>, par: Option<nat>, t: Tree, end': Option<nat>, par': Option<nat>)
    requires Linked(ns, end, par, [t]) && Unique([t])
    ensures t.id < |ns| && ns[t.id].next == end
    ensures Linked(SetNext(ns, t.id, end'), end', par, [t]) && Linked(SetParent(ns, t.id, par'), end, par', [t])
  {
    LinkedOne(ns, end, par, t);
    IdsOne(t);
    var ns1, ns2 := SetNext(ns, t.id, end'), SetParent(ns, t.id, par');
    LinkedOff(ns, ns1, {t.id}, None, Some(t.id), t.kids);
    LinkedOff(ns, ns2, {t.id}, None, Some(t.id), t.kids);
    LinkedOne(ns1, end', par, t);
    LinkedOne(ns2, end, par', t);
  }

  /** The last of some siblings gets another node behind it. */
  lemma NewEnd(ns: seq<Node>, end: Option<nat>, par: Option<nat>, f: Forest, t: Tree, end': Option<nat>)
    requires Linked(ns, end, par, f + [t]) && Unique(f + [t])
    ensures t.id < |ns| && ns[t.id].next == end
    ensures Linked(SetNext(ns, t.id, end'), end', par, f + [t])
  {
    LinkedAppend(ns, end, par, f, [t]);
    IdsAppend(f, [t]);
    IdsOne(t);
    OneChanged(ns, end, par, t, end', par);
    LinkedOff(ns, SetNext(ns, t.id, end'), {t.id}, Some(t.id), par, f);
    LinkedAppend(SetNext(ns, t.id, end'), end', par, f, [t]);
  }

  // ---- Cursors into a level ----

  /** The siblings in done are passed, those in todo are not. */
  ghost predicate AtCursor(ns: seq<Node>, par: Option<nat>, done: Forest, todo: Forest) {
    && Linked(ns, HeadOf(todo, None), par, done) && Linked(ns, None, par, todo)
    && Unique(done) && Unique(todo) && Ids(done) !! Ids(todo)
  }

  lemma Advance(ns: seq<Node>, par: Option<nat>, done: Forest, t: Tree, rest: Forest)
    requires AtCursor(ns, par, done, [t] + rest)
    ensures AtCursor(ns, par, done + [t], rest)
    ensures t.id < |ns| && ns[t.id].next == HeadOf(rest, None)
    ensures Ids(done + [t]) + Ids(rest) == Ids(done) + Ids([t] + rest)
  {
    LinkedCons(ns, None, par, t, rest);
    LinkedOne(ns, HeadOf(rest, None), par, t);
    LinkedAppend(ns, HeadOf(rest, None), par, done, [t]);
    IdsCons(t, rest);
    IdsOne(t);
    IdsAppend(done, [t]);
  }

  // ---- Children given up to the level above ----

  /** Of the kids of node i, those in a and x have the new parent already, and those in b not yet. */
  ghost predicate Adopting(ns: seq<Node>, i: nat, par: Option<nat>, a: Forest, x: Tree, b: Forest) {
    && Unique(a) && Unique([x]) && Unique(b) && Ids(a) !! Ids([x]) && Ids(a) !! Ids(b) && Ids([x]) !! Ids(b)
    && Linked(ns, Some(x.id), par, a)
    && Linked(ns, HeadOf(b, None), par, [x])
    && Linked(ns, None, Some(i), b)
  }

  lemma AdoptFirst(ns: seq<Node>, i: nat, par: Option<nat>, x: Tree, b: Forest)
    requires Linked(ns, None, Some(i), [x] + b) && Unique([x] + b)
    ensures x.id < |ns| && Adopting(SetParent(ns, x.id, par), i, par, [], x, b)
  {
    LinkedAppend(ns, None, Some(i), [x], b);
    IdsAppend([x], b);
    IdsOne(x);
    OneChanged(ns, HeadOf(b, None), Some(i), x, None, par);
    LinkedOff(ns, SetParent(ns, x.id, par), {x.id}, None, Some(i), b);
  }

  lemma AdoptNext(ns: seq<Node>, i: nat, par: Option<nat>, a: Forest, x: Tree, y: Tree, b: Forest)
    requires Adopting(ns, i, par, a, x, [y] + b)
    ensures x.id < |ns| && ns[x.id].next == Some(y.id)
    ensures y.id < |ns| && Adopting(SetParent(ns, y.id, par), i, par, a + [x], y, b)
  {
    LinkedOne(ns, Some(y.id), par, x);
    LinkedAppend(ns, Some(y.id), par, a, [x]);
    IdsAppend(a, [x]);
    IdsAppend([y], b);
    IdsOne(y);
    AdoptFirst(ns, i, par, y, b);
    LinkedOff(ns, SetParent(ns, y.id, par), {y.id}, Some(y.id), par, a + [x]);
  }

  /** Node i gives up its adopted kids, which end in `last`. */
  function Spliced(ns: seq<Node>, i: nat, last: nat): seq<Node>
    requires i < |ns| && last < |ns|
  {
    var ns1 := SetNext(ns, last, ns[i].next);
    ns1[i := ns1[i].(next := ns1[i].list, list := None)]
  }

  lemma SplicedLinked(ns: seq<Node>, i: nat, par: Option<nat>, a: Forest, x: Tree, rest: Forest)
    requires i < |ns| && ns[i] == Node(HeadOf(rest, None), HeadOf(a + [x], None), par)
    requires Linked(ns, None, par, a + [x]) && Linked(ns, None, par, rest)
    requires Unique([Tree(i, a + [x])] + rest)
    ensures x.id < |ns| && Linked(Spliced(ns, i, x.id), None, par, [Tree(i, [])] + ((a + [x]) + rest))
  {
    var kids := a + [x];
    IdsCons(Tree(i, kids), rest);
    IdsAppend(a, [x]);
    IdsOne(x);
    NewEnd(ns, None, par, a, x, HeadOf(rest, None));
    var ns1, ns2 := SetNext(ns, x.id, ns[i].next), Spliced(ns, i, x.id);
    LinkedOff(ns1, ns2, {i}, HeadOf(rest, None), par, kids);
    LinkedOff(ns, ns2, {i, x.id}, None, par, rest);
    LinkedAppend(ns2, None, par, kids, rest);
    LinkedCons(ns2, None, par, Tree(i, []), kids + rest);
  }

  class MenuNodes {
    const m: Menus
    var nodes: seq<Node>

    constructor (m: Menus, nodes: seq<Node>)
      ensures this.m == m && this.nodes == nodes
    {
      this.m, this.nodes := m, nodes;
    }

    /** The kids of node i get the parent of node i. */
    method AdoptKids(i: nat, ghost kids: Forest) returns (last: nat, ghost a: Forest, ghost x: Tree)
      requires i < |nodes| && kids != [] && i !in Ids(kids) && Unique(kids)
      requires nodes[i].list == HeadOf(kids, None) && Linked(nodes, None, Some(i), kids)
      modifies this
      ensures SameOff(old(nodes), nodes, Ids(kids))
      ensures kids == a + [x] && last == x.id && Linked(nodes, None, nodes[i].parent, kids)
    {
      ghost var par, b := nodes[i].parent, kids[1..];
      a, x := [], kids[0];
      assert kids == [x] + b && kids == a + ([x] + b);
      AdoptFirst(nodes, i, par, x, b);
      last := nodes[i].list.value;
      nodes := SetParent(nodes, last, nodes[i].parent);
      while nodes[last].next.Some?
        invariant SameOff(old(nodes), nodes, Ids(kids))
        invariant Adopting(nodes, i, par, a, x, b) && kids == a + ([x] + b) && last == x.id
        decreases |b|
      {
        ghost var y, c := b[0], b[1..];
        AdoptParts(kids, a, x, y, b);
        AdoptNext(nodes, i, par, a, x, y, c);
        a, x, b, last := a + [x], y, c, nodes[last].next.value;
        nodes := SetParent(nodes, last, nodes[i].parent);
      }
      LinkedAppend(nodes, None, par, a, [x]);
      assert b == [] && kids == a + [x];
    }

    method SpliceUp(i: nat, ghost par: Option<nat>, ghost kids: Forest, ghost rest: Forest)
      requires kids != [] && Linked(nodes, None, par, [Tree(i, kids)] + rest) && Unique([Tree(i, kids)] + rest)
      modifies this
      ensures Linked(nodes, None, par, [Tree(i, [])] + (kids + rest))
      ensures SameOff(old(nodes), nodes, {i} + Ids(kids))
    {
      ghost var ns := nodes;
      LinkedCons(ns, None, par, Tree(i, kids), rest);
      IdsCons(Tree(i, kids), rest);
      ghost var a, x;
      var last: nat;
      last, a, x := AdoptKids(i, kids);
      IdsAppend(a, [x]);
      IdsOne(x);
      LinkedOff(ns, nodes, Ids(kids), None, par, rest);
      SplicedLinked(nodes, i, par, a, x, rest);
      nodes := Spliced(nodes, i, last);
    }

    method FlattenOne(i: nat, ghost par: Option<nat>, ghost f: Forest, ghost done: Forest, ghost todo: Forest)
      returns (next: Option<nat>, ghost done': Forest, ghost todo': Forest)
      requires HeadOf(todo, None) == Some(i) && FlattenAt(m, nodes, par, f, done, todo)
      modifies this
      ensures FlattenAt(m, nodes, par, f, done', todo') && Size(todo') < Size(todo)
      ensures next == HeadOf(todo', None) && SameOff(old(nodes), nodes, Ids(f))
    {
      ghost var ns, t, rest := nodes, todo[0], todo[1..];
      assert todo == [t] + rest;
      FlattenParts(m, ns, par, f, done, t, rest);
      if nodes[i].list.Some? && !InfoOf(m, i).hasPrompt && InfoOf(m, i).kind != IsChoice {
        assert t == Tree(i, t.kids);
        SpliceUp(i, par, t.kids, rest);
        FlattenMove(m, ns, nodes, par, f, done, t, rest);
        done', todo' := done + [Tree(i, [])], t.kids + rest;
      } else {
        FlattenSkip(m, ns, par, f, done, t, rest);
        done', todo' := done + [t], rest;
      }
      next := nodes[i].next;
    }

    /** Promptless nodes of a level give their children up to it. */
    method FlattenLevel(head: Option<nat>, ghost par: Option<nat>, ghost f: Forest)
      requires head == HeadOf(f, None) && Linked(nodes, None, par, f) && Unique(f)
      modifies this
      ensures Linked(nodes, None, par, Flatten(m, f)) && Unique(Flatten(m, f)) && Ids(Flatten(m, f)) == Ids(f)
      ensures SameOff(old(nodes), nodes, Ids(f))
    {
      var node := head;
      ghost var done: Forest, todo := [], f;
      FlattenStart(m, nodes, par, f);
      while node.Some?
        invariant node == HeadOf(todo, None) && FlattenAt(m, nodes, par, f, done, todo)
        invariant SameOff(old(nodes), nodes, Ids(f))
        decreases Size(todo)
      {
        node, done, todo := FlattenOne(node.value, par, f, done, todo);
      }
      FlattenOver(m, nodes, par, f, done, todo);
    }

    /** The first sibling from cur on that is not an `if`. */
    method SkipIfs(cur: Option<nat>, ghost par: Option<nat>, ghost f: Forest) returns (next: Option<nat>, ghost rest: Forest)
      requires cur == HeadOf(f, None) && Linked(nodes, None, par, f) && Unique(f)
      ensures next == HeadOf(rest, None) && Linked(nodes, None, par, rest) && |rest| <= |f|
      ensures DropIfs(m, rest) == DropIfs(m, f) && (rest == [] || !IfNode(m, rest[0].id))
      ensures Unique(rest) && Ids(rest) <= Ids(f)
    {
      next, rest := cur, f;
      while next.Some? && IfNode(m, next.value)
        invariant next == HeadOf(rest, None) && Linked(nodes, None, par, rest) && |rest| <= |f|
        invariant DropIfs(m, rest) == DropIfs(m, f) && Unique(rest) && Ids(rest) <= Ids(f)
        decreases |rest|
      {
        next, rest := nodes[next.value].next, rest[1..];
      }
    }

    method RemoveAfter(cur: nat, ghost i: nat, ghost f: Forest, ghost done: Forest, ghost rest: Forest)
      returns (next: Option<nat>, ghost done': Forest, ghost rest': Forest)
      requires HeadOf(rest, None) == Some(cur) && DropAt(m, nodes, i, f, done, rest)
      modifies this
      ensures next == HeadOf(rest', None) && DropAt(m, nodes, i, f, done', rest') && |rest'| < |rest|
      ensures SameOff(old(nodes), nodes, Ids(f))
    {
      ghost var t, later, ns := rest[0], rest[1..], nodes;
      assert rest == [t] + later;
      DropParts(m, ns, i, f, done, t, later);
      next, rest' := SkipIfs(nodes[cur].next, Some(i), later);
      DropMove(m, ns, i, f, done, t, later, rest');
      nodes := SetNext(nodes, cur, next);
      done' := done + [t];
    }

    /** The `if` nodes leave the children of node i. */
    method RemoveIfs(i: nat, ghost f: Forest)
      requires i < |nodes| && nodes[i].list == HeadOf(f, None) && Linked(nodes, None, Some(i), f)
      requires Unique(f) && i !in Ids(f)
      modifies this
      ensures SameOff(old(nodes), nodes, {i} + Ids(f))
      ensures nodes[i] == old(nodes[i]).(list := HeadOf(DropIfs(m, f), None))
      ensures Linked(nodes, None, Some(i), DropIfs(m, f)) && Unique(DropIfs(m, f)) && Ids(DropIfs(m, f)) <= Ids(f)
    {
      ghost var rest;
      var cur: Option<nat>;
      cur, rest := SkipIfs(nodes[i].list, Some(i), f);
      DropStart(m, nodes, i, f, rest);
      nodes := nodes[i := nodes[i].(list := cur)];
      ghost var ns, done: Forest := nodes, [];
      while cur.Some?
        invariant cur == HeadOf(rest, None) && DropAt(m, nodes, i, f, done, rest) && SameOff(ns, nodes, Ids(f))
        decreases |rest|
      {
        cur, done, rest := RemoveAfter(cur.value, i, f, done, rest);
      }
      DropOver(m, nodes, i, f, done, rest);
    }

    /** The last steps for node i, once its children are finalized. */
    method CloseNode(i: nat, ghost par: Option<nat>, ghost kids: Forest, ghost rest: Forest)
      requires Linked(nodes, None, par, [Tree(i, kids)] + rest) && Unique([Tree(i, kids)] + rest)
      modifies this
      ensures Linked(nodes, None, par, [Close(m, Tree(i, kids))] + rest) && Unique([Close(m, Tree(i, kids))] + rest)
      ensures Ids([Close(m, Tree(i, kids))]) <= {i} + Ids(kids) && SameOff(old(nodes), nodes, {i} + Ids(kids))
    {
      ghost var ns, t := nodes, Close(m, Tree(i, kids));
      LinkedCons(ns, None, par, Tree(i, kids), rest);
      IdsCons(Tree(i, kids), rest);
      if nodes[i].list.Some? {
        FlattenLevel(nodes[i].list, Some(i), kids);
        KeepsHead(m, kids);
        RemoveIfs(i, Flatten(m, kids));
      }
      LinkedOff(ns, nodes, {i} + Ids(kids), None, par, rest);
      LinkedCons(nodes, None, par, t, rest);
      IdsCons(t, rest);
      IdsOne(t);
    }

    /** Finalizes node i, the first of the siblings f, and whatever it takes in. */
    method Finalize(i: nat, ghost par: Option<nat>, ghost f: Forest) returns (ghost t: Tree, ghost rest: Forest)
      requires HeadOf(f, None) == Some(i) && Linked(nodes, None, par, f) && Unique(f) && SymsBare(m, f)
      modifies this
      ensures (t, rest) == FinHead(m, f) && t.id == i
      ensures Linked(nodes, None, par, [t] + rest) && Unique([t] + rest) && Ids([t] + rest) <= Ids(f)
      ensures SymsBare(m, rest) && SameOff(old(nodes), nodes, Ids(f))
      decreases Size(f), 1
    {
      ghost var kids := f[0].kids;
      assert f == [Tree(i, kids)] + f[1..];
      LinkedCons(nodes, None, par, Tree(i, kids), f[1..]);
      IdsCons(Tree(i, kids), f[1..]);
      rest := f[1..];
      if InfoOf(m, i).kind == IsSym {
        kids, rest := TakeIn(i, par, f[1..]);
      } else if nodes[i].list.Some? {
        ghost var ns := nodes;
        kids := FinalizeKids(i, kids);
        LinkedOff(ns, nodes, Ids(f[0].kids), None, par, rest);
      }
      LinkedCons(nodes, None, par, Tree(i, kids), rest);
      IdsCons(Tree(i, kids), rest);
      t := Close(m, Tree(i, kids));
      CloseNode(i, par, kids, rest);
      IdsAppend([t], rest);
    }

    /** Finalizes the children of node i one after the other. */
    method FinalizeKids(i: nat, ghost kids: Forest) returns (ghost done: Forest)
      requires i < |nodes| && nodes[i].list == HeadOf(kids, None) && Linked(nodes, None, Some(i), kids)
      requires Unique(kids) && i !in Ids(kids) && SymsBare(m, kids)
      modifies this
      ensures done == FinAll(m, kids) && HeadOf(done, None) == HeadOf(kids, None)
      ensures Linked(nodes, None, Some(i), done) && Unique(done) && Ids(done) <= Ids(kids)
      ensures SameOff(old(nodes), nodes, Ids(kids))
      decreases Size(kids), 3
    {
      ghost var todo;
      done, todo := [], kids;
      var cur := nodes[i].list;
      while cur.Some?
        invariant cur == HeadOf(todo, None) && FinalizedAt(m, nodes, i, kids, done, todo)
        invariant SameOff(old(nodes), nodes, Ids(kids))
        decreases Size(todo)
      {
        ghost var ns, t, rest;
        ns := nodes;
        t, rest := Finalize(cur.value, Some(i), todo);
        FinalizedNext(m, ns, nodes, i, kids, done, todo);
        done, todo := done + [t], rest;
        cur := nodes[cur.value].next;
      }
      assert todo == [] && done + [] == done;
    }

    /** The symbol of node i takes in the siblings that depend on it, which are finalized on the way. */
    method TakeIn(i: nat, ghost par: Option<nat>, ghost g: Forest) returns (ghost taken: Forest, ghost left: Forest)
      requires Linked(nodes, None, par, [Tree(i, [])] + g) && Unique([Tree(i, [])] + g) && SymsBare(m, g)
      modifies this
      ensures (taken, left) == Absorb(m, i, g)
      ensures Linked(nodes, None, par, [Tree(i, taken)] + left) && Unique([Tree(i, taken)] + left)
      ensures Ids(taken) + Ids(left) <= Ids(g) && SymsBare(m, left) && SameOff(old(nodes), nodes, {i} + Ids(g))
      decreases Size(g), 4
    {
      var cur: nat;
      cur, taken, left := CollectKids(i, par, g);
      TakeOver(m, nodes, i, par, g, taken, left);
      if cur != i {
        nodes := nodes[i := nodes[i].(list := nodes[i].next, next := nodes[cur].next)];
        nodes := SetNext(nodes, cur, None);
      }
    }

    method CollectKids(i: nat, ghost par: Option<nat>, ghost g: Forest) returns (cur: nat, ghost taken: Forest, ghost left: Forest)
      requires Linked(nodes, None, par, [Tree(i, [])] + g) && Unique([Tree(i, [])] + g) && SymsBare(m, g)
      modifies this
      ensures TakenAt(m, nodes, i, par, g, taken, left) && cur == LastOf(i, taken)
      ensures left == [] || !m.auto(i, left[0].id)
      ensures SameOff(old(nodes), nodes, {i} + Ids(g))
      decreases Size(g), 3
    {
      taken, left, cur := [], g, i;
      TakeStart(m, nodes, i, par, g);
      while nodes[cur].next.Some? && m.auto(i, nodes[cur].next.value)
        invariant TakenAt(m, nodes, i, par, g, taken, left) && cur == LastOf(i, taken) && cur < |nodes|
        invariant nodes[cur].next == HeadOf(left, None)
        invariant SameOff(old(nodes), nodes, {i} + Ids(g))
        decreases Size(left)
      {
        cur, taken, left := TakeOne(nodes[cur].next.value, i, par, g, taken, left);
      }
    }

    method TakeOne(cur: nat, i: nat, ghost par: Option<nat>, ghost g: Forest, ghost taken: Forest, ghost left: Forest)
      returns (last: nat, ghost taken': Forest, ghost left': Forest)
      requires TakenAt(m, nodes, i, par, g, taken, left) && HeadOf(left, None) == Some(cur) && m.auto(i, cur)
      modifies this
      ensures last == cur == LastOf(i, taken') && cur < |nodes| && nodes[cur].next == HeadOf(left', None)
      ensures TakenAt(m, nodes, i, par, g, taken', left') && Size(left') < Size(left)
      ensures SameOff(old(nodes), nodes, {i} + Ids(g))
      decreases Size(left), 2
    {
      ghost var ns := nodes;
      ghost var u;
      u, left' := Finalize(cur, par, left);
      TakeNext(m, ns, nodes, i, par, g, taken, left);
      nodes := SetParent(nodes, cur, Some(i));
      last, taken' := cur, taken + [u];
    }

    /** The walk that visits every node below the top one, going down, on, or up and on. */
    method NodeIter(top: nat, ghost t: Tree) returns (out: seq<nat>)
      requires t.id == top && Linked(nodes, None, None, [t])
      ensures out == Pre(t.kids)
    {
      out := [];
      var node := Some(top);
      ghost var here: Tree, stack: seq<Forest> := t, [[]];
      LinkedOne(nodes, None, None, t);
      SpineStart(nodes, t);
      while node.Some?
        invariant node.Some? ==> node.value == here.id && Spine(nodes, here, stack)
        invariant Pre(t.kids) == if node.Some? then out + ToCome(here, stack) else out
        decreases node.Some?, SizeToCome(here, stack)
      {
        ghost var before := ToCome(here, stack);
        node, here, stack := NextNode(node.value, here, stack);
        if node.Some? {
          Visit(out, node.value, ToCome(here, stack));
          out := out + [node.value];
        } else {
          assert out + before == out;
        }
      }
    }

    /** The parsed tree finalized and walked: its nodes in the order they were parsed, without the `if` nodes. */
    method FinalizeTree(top: nat, ghost t: Tree) returns (out: seq<nat>)
      requires t.id == top && Linked(nodes, None, None, [t]) && Unique([t]) && SymsBare(m, t.kids)
      requires PromptlessIfs(m) && InfoOf(m, top).kind == IsMenu
      modifies this
      ensures out == NonIfs(m, Pre(t.kids))
      ensures Linked(nodes, None, None, [FinHead(m, [t]).0]) && Clean(m, [FinHead(m, [t]).0])
    {
      ghost var t', rest;
      assert [t][1..] == [] && SymsBare(m, [t]);
      t', rest := Finalize(top, None, [t]);
      FinalizedOrder(m, t);
      assert [t'] + rest == [t'];
      out := NodeIter(top, t');
    }

    /** One step of the walk: the children first, else the next sibling, else that of the nearest ancestor that has one. */
    method NextNode(node: nat, ghost here: Tree, ghost stack: seq<Forest>)
      returns (next: Option<nat>, ghost here': Tree, ghost stack': seq<Forest>)
      requires node == here.id && Spine(nodes, here, stack)
      ensures next.Some? ==>
                && next.value == here'.id && Spine(nodes, here', stack')
                && ToCome(here, stack) == [here'.id] + ToCome(here', stack')
                && SizeToCome(here', stack') < SizeToCome(here, stack)
      ensures next.None? ==> ToCome(here, stack) == []
    {
      here', stack' := here, stack;
      if nodes[node].list.Some? {
        GoDown(nodes, here, stack);
        return nodes[node].list, here.kids[0], [here.kids[1..]] + stack;
      }
      assert here.kids == [];
      var up := node;
      while nodes[up].next.None? && nodes[up].parent.Some?
        invariant up == here'.id && Spine(nodes, here', stack')
        invariant Rest(stack') == Rest(stack) && RestSize(stack') == RestSize(stack)
        decreases |stack'|
      {
        here' := GoUp(nodes, here', stack');
        up, stack' := nodes[up].parent.value, stack'[1..];
      }
      if nodes[up].next.Some? {
        GoOn(nodes, here', stack');
        ghost var level := stack'[0];
        return nodes[up].next, level[0], [level[1..]] + stack'[1..];
      }
      return None, here', stack';
    }
  }

  // ---- The walk over all nodes ----

  /**
    Above a node: stack[0] holds the siblings still to come on its level, stack[1]
    those on the level of its parent, and so on up to the top node.
   */
  ghost predicate Spine(ns: seq<Node>, here: Tree, stack: seq<Forest>)
    decreases |stack|
  {
    && stack != [] && Linked(ns, HeadOf(stack[0], None), if here.id < |ns| then ns[here.id].parent else None, [here])
    && Linked(ns, None, ns[here.id].parent, stack[0])
    && (if |stack| == 1 then stack[0] == [] && ns[here.id].parent.None?
        else exists p: Tree :: ns[here.id].parent == Some(p.id) && Spine(ns, p, stack[1..]))
  }

  /** What is still to be visited above. */
  function Rest(stack: seq<Forest>): seq<nat> {
    if stack == [] then [] else Pre(stack[0]) + Rest(stack[1..])
  }

  function RestSize(stack: seq<Forest>): nat {
    if stack == [] then 0 else Size(stack[0]) + RestSize(stack[1..])
  }

  /** What is still to be visited. */
  function ToCome(here: Tree, stack: seq<Forest>): seq<nat> {
    Pre(here.kids) + Rest(stack)
  }

  function SizeToCome(here: Tree, stack: seq<Forest>): nat {
    Size(here.kids) + RestSize(stack)
  }

  lemma Visit(out: seq<nat>, x: nat, later: seq<nat>)
    ensures out + ([x] + later) == out + [x] + later
  {
  }

  lemma StackStep(t: Tree, later: Forest, stack: seq<Forest>)
    ensures Rest([[t] + later] + stack) == [t.id] + ToCome(t, [later] + stack)
    ensures Pre([t] + later) + Rest(stack) == [t.id] + ToCome(t, [later] + stack)
    ensures SizeToCome(t, [later] + stack) < Size([t] + later) + RestSize(stack) == RestSize([[t] + later] + stack)
  {
    var a, b := [[t] + later] + stack, [later] + stack;
    assert a[0] == [t] + later && a[1..] == stack && b[0] == later && b[1..] == stack;
    PreCons(t, later);
    PreAppend([t], later);
    assert Size([t]) == 1 + Size(t.kids);
    assert [t.id] + Pre(t.kids) + Pre(later) + Rest(stack) == [t.id] + (Pre(t.kids) + (Pre(later) + Rest(stack)));
  }

  lemma SpineStart(ns: seq<Node>, t: Tree)
    requires Linked(ns, None, None, [t])
    ensures Spine(ns, t, [[]]) && Pre(t.kids) == [] + ToCome(t, [[]])
  {
    LinkedOne(ns, None, None, t);
    var stack: seq<Forest> := [[]];
    assert stack[1..] == [] && Rest(stack) == [];
  }

  lemma GoDown(ns: seq<Node>, here: Tree, stack: seq<Forest>)
    requires Spine(ns, here, stack) && here.kids != []
    ensures var here', stack' := here.kids[0], [here.kids[1..]] + stack;
      && Spine(ns, here', stack') && HeadOf(here.kids, None) == Some(here'.id)
      && ToCome(here, stack) == [here'.id] + ToCome(here', stack')
      && SizeToCome(here', stack') < SizeToCome(here, stack)
  {
    var first, later := here.kids[0], here.kids[1..];
    StackStep(first, later, stack);
    var stack' := [later] + stack;
    LinkedOne(ns, HeadOf(stack[0], None), ns[here.id].parent, here);
    assert here.kids == [first] + later;
    LinkedAppend(ns, None, Some(here.id), [first], later);
    LinkedOne(ns, HeadOf(later, None), Some(here.id), first);
    assert stack'[1..] == stack && stack'[0] == later;
    assert ns[first.id].parent == Some(here.id) && Spine(ns, here, stack'[1..]);
  }

  lemma GoOn(ns: seq<Node>, here: Tree, stack: seq<Forest>)
    requires Spine(ns, here, stack) && stack[0] != []
    ensures var here', stack' := stack[0][0], [stack[0][1..]] + stack[1..];
      && Spine(ns, here', stack') && HeadOf(stack[0], None) == Some(here'.id)
      && Rest(stack) == [here'.id] + ToCome(here', stack')
      && SizeToCome(here', stack') < RestSize(stack)
  {
    var first, later := stack[0][0], stack[0][1..];
    StackStep(first, later, stack[1..]);
    assert stack == [stack[0]] + stack[1..];
    var stack' := [later] + stack[1..];
    var par := ns[here.id].parent;
    assert stack[0] == [first] + later;
    LinkedAppend(ns, None, par, [first], later);
    LinkedOne(ns, HeadOf(later, None), par, first);
    assert stack'[1..] == stack[1..] && stack'[0] == later;
    if |stack| > 1 {
      var p: Tree :| par == Some(p.id) && Spine(ns, p, stack[1..]);
      assert ns[first.id].parent == Some(p.id) && Spine(ns, p, stack'[1..]);
    }
  }

  lemma GoUp(ns: seq<Node>, here: Tree, stack: seq<Forest>) returns (p: Tree)
    requires Spine(ns, here, stack) && stack[0] == [] && ns[here.id].parent.Some?
    ensures ns[here.id].parent == Some(p.id) && Spine(ns, p, stack[1..])
    ensures Rest(stack[1..]) == Rest(stack) && RestSize(stack[1..]) == RestSize(stack) && |stack| > 1
  {
    p :| ns[here.id].parent == Some(p.id) && Spine(ns, p, stack[1..]);
    assert [] + Rest(stack[1..]) == Rest(stack[1..]);
  }

  // ---- Finalizing the children of a node ----

  lemma {:induction false} KeepsHead(m: Menus, f: Forest)
    ensures HeadOf(Flatten(m, f), None) == HeadOf(f, None)
  {
    if f != [] && Flattens(m, f[0]) { PreAppend(f[0].kids, f[1..]); }
  }

  /** The children in done are finalized, those in todo are not. */
  ghost predicate FinalizedAt(m: Menus, ns: seq<Node>, i: nat, kids: Forest, done: Forest, todo: Forest) {
    && AtCursor(ns, Some(i), done, todo) && Ids(done) + Ids(todo) <= Ids(kids) && SymsBare(m, todo)
    && FinAll(m, kids) == done + FinAll(m, todo) && HeadOf(done, HeadOf(todo, None)) == HeadOf(kids, None)
  }

  lemma FinalizedNext(m: Menus, ns: seq<Node>, ns': seq<Node>, i: nat, kids: Forest, done: Forest, todo: Forest)
    requires todo != [] && FinalizedAt(m, ns, i, kids, done, todo) && SameOff(ns, ns', Ids(todo))
    requires var (t, rest) := FinHead(m, todo);
      && Linked(ns', None, Some(i), [t] + rest) && Unique([t] + rest) && Ids([t] + rest) <= Ids(todo)
      && SymsBare(m, rest) && t.id == todo[0].id
    ensures var (t, rest) := FinHead(m, todo);
      && FinalizedAt(m, ns', i, kids, done + [t], rest) && Size(rest) < Size(todo)
      && t.id < |ns'| && ns'[t.id].next == HeadOf(rest, None)
  {
    var (t, rest) := FinHead(m, todo);
    LinkedOff(ns, ns', Ids(todo), Some(t.id), Some(i), done);
    Advance(ns', Some(i), done, t, rest);
    FinAllStep(m, done, todo);
  }

  lemma FinAllStep(m: Menus, done: Forest, todo: Forest)
    requires todo != []
    ensures var (t, rest) := FinHead(m, todo); done + FinAll(m, todo) == done + [t] + FinAll(m, rest)
  {
    var (t, rest) := FinHead(m, todo);
    assert done + ([t] + FinAll(m, rest)) == done + [t] + FinAll(m, rest);
  }

  // ---- Taking in siblings ----

  function LastOf(i: nat, f: Forest): nat {
    if f == [] then i else f[|f| - 1].id
  }

  /** Node i is followed by its siblings in taken, which already have it as their parent, and by those that are left. */
  ghost predicate TakenAt(m: Menus, ns: seq<Node>, i: nat, par: Option<nat>, g: Forest, taken: Forest, left: Forest) {
    && i < |ns| && ns[i] == Node(HeadOf(taken, HeadOf(left, None)), None, par)
    && Linked(ns, HeadOf(left, None), Some(i), taken) && Linked(ns, None, par, left)
    && Unique(taken) && Unique(left) && Ids(taken) !! Ids(left) && i !in Ids(taken) + Ids(left)
    && Ids(taken) + Ids(left) <= Ids(g) && SymsBare(m, left) && Size(left) <= Size(g)
    && Absorb(m, i, g).0 == taken + Absorb(m, i, left).0 && Absorb(m, i, g).1 == Absorb(m, i, left).1
  }

  lemma TakeStart(m: Menus, ns: seq<Node>, i: nat, par: Option<nat>, g: Forest)
    requires Linked(ns, None, par, [Tree(i, [])] + g) && Unique([Tree(i, [])] + g) && SymsBare(m, g)
    ensures TakenAt(m, ns, i, par, g, [], g)
  {
    LinkedCons(ns, None, par, Tree(i, []), g);
    IdsCons(Tree(i, []), g);
  }

  lemma TakeNext(m: Menus, ns: seq<Node>, ns': seq<Node>, i: nat, par: Option<nat>, g: Forest, taken: Forest, left: Forest)
    requires TakenAt(m, ns, i, par, g, taken, left) && left != [] && m.auto(i, left[0].id) && SameOff(ns, ns', Ids(left))
    requires var (u, rest) := FinHead(m, left);
      && Linked(ns', None, par, [u] + rest) && Unique([u] + rest) && Ids([u] + rest) <= Ids(left)
      && SymsBare(m, rest) && u.id == left[0].id
    ensures var (u, rest) := FinHead(m, left);
      && u.id < |ns'| && TakenAt(m, SetParent(ns', u.id, Some(i)), i, par, g, taken + [u], rest)
      && SetParent(ns', u.id, Some(i))[u.id].next == HeadOf(rest, None) && Size(rest) < Size(left) && u.id in Ids(left)
  {
    var (u, rest) := FinHead(m, left);
    LinkedAppend(ns', None, par, [u], rest);
    IdsAppend([u], rest);
    IdsOne(u);
    OneChanged(ns', HeadOf(rest, None), par, u, None, Some(i));
    var ns1 := SetParent(ns', u.id, Some(i));
    LinkedOff(ns', ns1, {u.id}, None, par, rest);
    LinkedOff(ns, ns1, Ids(left), Some(u.id), Some(i), taken);
    LinkedAppend(ns1, HeadOf(rest, None), Some(i), taken, [u]);
    IdsAppend(taken, [u]);
    AbsorbStep(m, i, taken, left);
  }

  lemma AbsorbStep(m: Menus, i: nat, taken: Forest, left: Forest)
    requires left != [] && m.auto(i, left[0].id)
    ensures var (u, rest) := FinHead(m, left);
      && taken + Absorb(m, i, left).0 == taken + [u] + Absorb(m, i, rest).0
      && Absorb(m, i, left).1 == Absorb(m, i, rest).1
  {
    var (u, rest) := FinHead(m, left);
    assert taken + ([u] + Absorb(m, i, rest).0) == taken + [u] + Absorb(m, i, rest).0;
  }

  /** The siblings taken in are tilted up above node i. */
  lemma TakeOver(m: Menus, ns: seq<Node>, i: nat, par: Option<nat>, g: Forest, taken: Forest, left: Forest)
    requires TakenAt(m, ns, i, par, g, taken, left) && (left == [] || !m.auto(i, left[0].id))
    ensures (taken, left) == Absorb(m, i, g) && Unique([Tree(i, taken)] + left)
    ensures taken == [] ==> Linked(ns, None, par, [Tree(i, taken)] + left)
    ensures taken != [] ==>
              var cur := LastOf(i, taken);
              && cur < |ns| && cur in Ids(taken) && ns[cur].next == HeadOf(left, None)
              && Linked(SetNext(ns[i := ns[i].(list := ns[i].next, next := ns[cur].next)], cur, None), None, par, [Tree(i, taken)] + left)
  {
    assert taken + [] == taken;
    IdsCons(Tree(i, taken), left);
    if taken == [] {
      LinkedCons(ns, None, par, Tree(i, taken), left);
    } else {
      assert taken == taken[..|taken| - 1] + [taken[|taken| - 1]];
      TiltUp(ns, i, par, taken[..|taken| - 1], taken[|taken| - 1], left);
    }
  }

  lemma TiltUp(ns: seq<Node>, i: nat, par: Option<nat>, a: Forest, x: Tree, left: Forest)
    requires i < |ns| && ns[i] == Node(HeadOf(a + [x], None), None, par) && Unique([Tree(i, a + [x])] + left)
    requires Linked(ns, HeadOf(left, None), Some(i), a + [x]) && Linked(ns, None, par, left)
    ensures x.id < |ns| && x.id in Ids(a + [x]) && ns[x.id].next == HeadOf(left, None)
    ensures Linked(SetNext(ns[i := ns[i].(list := ns[i].next, next := ns[x.id].next)], x.id, None), None, par, [Tree(i, a + [x])] + left)
  {
    var kids := a + [x];
    IdsCons(Tree(i, kids), left);
    IdsAppend(a, [x]);
    IdsOne(x);
    NewEnd(ns, HeadOf(left, None), Some(i), a, x, None);
    var ns1 := SetNext(ns, x.id, None);
    var ns2 := SetNext(ns[i := ns[i].(list := ns[i].next, next := ns[x.id].next)], x.id, None);
    LinkedOff(ns1, ns2, {i}, None, Some(i), kids);
    LinkedOff(ns, ns2, {i, x.id}, None, par, left);
    LinkedCons(ns2, None, par, Tree(i, kids), left);
  }

  // ---- Flattening ----

  /** The siblings in done are flattened, those in todo are not. */
  ghost predicate FlattenAt(m: Menus, ns: seq<Node>, par: Option<nat>, f: Forest, done: Forest, todo: Forest) {
    AtCursor(ns, par, done, todo) && Ids(done) + Ids(todo) == Ids(f) && Flatten(m, f) == done + Flatten(m, todo)
  }

  lemma FlattenStart(m: Menus, ns: seq<Node>, par: Option<nat>, f: Forest)
    requires Linked(ns, None, par, f) && Unique(f)
    ensures FlattenAt(m, ns, par, f, [], f)
  {
  }

  lemma FlattenParts(m: Menus, ns: seq<Node>, par: Option<nat>, f: Forest, done: Forest, t: Tree, rest: Forest)
    requires FlattenAt(m, ns, par, f, done, [t] + rest)
    ensures Unique([t] + rest) && {t.id} + Ids(t.kids) <= Ids(f) && Linked(ns, None, par, [t] + rest)
    ensures t.id < |ns| && ns[t.id].list == HeadOf(t.kids, None)
  {
    IdsCons(t, rest);
    LinkedCons(ns, None, par, t, rest);
  }

  lemma FlattenSkip(m: Menus, ns: seq<Node>, par: Option<nat>, f: Forest, done: Forest, t: Tree, rest: Forest)
    requires FlattenAt(m, ns, par, f, done, [t] + rest) && !Flattens(m, t)
    ensures FlattenAt(m, ns, par, f, done + [t], rest) && Size(rest) < Size([t] + rest)
    ensures t.id < |ns| && ns[t.id].next == HeadOf(rest, None)
  {
    Advance(ns, par, done, t, rest);
    SkipStep(m, done, t, rest);
  }

  lemma SkipStep(m: Menus, done: Forest, t: Tree, rest: Forest)
    requires !Flattens(m, t)
    ensures done + Flatten(m, [t] + rest) == done + [t] + Flatten(m, rest)
    ensures Size(rest) < Size([t] + rest)
  {
    assert ([t] + rest)[1..] == rest;
    assert done + ([t] + Flatten(m, rest)) == done + [t] + Flatten(m, rest);
  }

  lemma FlattenMove(m: Menus, ns: seq<Node>, ns': seq<Node>, par: Option<nat>, f: Forest, done: Forest, t: Tree, rest: Forest)
    requires FlattenAt(m, ns, par, f, done, [t] + rest) && Flattens(m, t)
    requires SameOff(ns, ns', {t.id} + Ids(t.kids)) && Linked(ns', None, par, [Tree(t.id, [])] + (t.kids + rest))
    ensures FlattenAt(m, ns', par, f, done + [Tree(t.id, [])], t.kids + rest) && Size(t.kids + rest) < Size([t] + rest)
    ensures t.id < |ns'| && ns'[t.id].next == HeadOf(t.kids + rest, None)
  {
    var u, next := Tree(t.id, []), t.kids + rest;
    IdsCons(t, rest);
    IdsAppend(t.kids, rest);
    IdsCons(u, next);
    LinkedOff(ns, ns', {t.id} + Ids(t.kids), Some(t.id), par, done);
    Advance(ns', par, done, u, next);
    MoveStep(m, done, t, rest);
  }

  lemma MoveStep(m: Menus, done: Forest, t: Tree, rest: Forest)
    requires Flattens(m, t)
    ensures done + Flatten(m, [t] + rest) == done + [Tree(t.id, [])] + Flatten(m, t.kids + rest)
    ensures Size(t.kids + rest) < Size([t] + rest)
  {
    assert ([t] + rest)[1..] == rest;
    PreAppend(t.kids, rest);
    assert done + ([Tree(t.id, [])] + Flatten(m, t.kids + rest)) == done + [Tree(t.id, [])] + Flatten(m, t.kids + rest);
  }

  lemma FlattenOver(m: Menus, ns: seq<Node>, par: Option<nat>, f: Forest, done: Forest, todo: Forest)
    requires FlattenAt(m, ns, par, f, done, todo) && HeadOf(todo, None).None?
    ensures Linked(ns, None, par, Flatten(m, f)) && Unique(Flatten(m, f)) && Ids(Flatten(m, f)) == Ids(f)
  {
    assert todo == [] && done + [] == done;
  }

  // ---- Removing ifs ----

  /** The kept siblings in done are linked to the head of the rest, which is not an `if`. */
  ghost predicate DropAt(m: Menus, ns: seq<Node>, i: nat, f: Forest, done: Forest, rest: Forest) {
    && AtCursor(ns, Some(i), done, rest) && (rest == [] || !IfNode(m, rest[0].id))
    && i !in Ids(f) && Ids(done) + Ids(rest) <= Ids(f) && DropIfs(m, f) == done + DropIfs(m, rest)
  }

  lemma DropStart(m: Menus, ns: seq<Node>, i: nat, f: Forest, rest: Forest)
    requires i < |ns| && i !in Ids(f) && Ids(rest) <= Ids(f) && Unique(rest)
    requires Linked(ns, None, Some(i), rest) && (rest == [] || !IfNode(m, rest[0].id)) && DropIfs(m, rest) == DropIfs(m, f)
    ensures DropAt(m, ns[i := ns[i].(list := HeadOf(rest, None))], i, f, [], rest)
    ensures HeadOf(rest, None) == HeadOf(DropIfs(m, f), None)
  {
    LinkedOff(ns, ns[i := ns[i].(list := HeadOf(rest, None))], {i}, None, Some(i), rest);
  }

  lemma DropParts(m: Menus, ns: seq<Node>, i: nat, f: Forest, done: Forest, t: Tree, later: Forest)
    requires DropAt(m, ns, i, f, done, [t] + later)
    ensures Linked(ns, None, Some(i), later) && t.id < |ns| && ns[t.id].next == HeadOf(later, None)
    ensures t.id in Ids(f) && Unique(later)
  {
    LinkedCons(ns, None, Some(i), t, later);
    IdsCons(t, later);
  }

  lemma DropMove(m: Menus, ns: seq<Node>, i: nat, f: Forest, done: Forest, t: Tree, later: Forest, rest': Forest)
    requires DropAt(m, ns, i, f, done, [t] + later) && t.id < |ns|
    requires Linked(ns, None, Some(i), rest') && Unique(rest') && Ids(rest') <= Ids(later)
    requires DropIfs(m, rest') == DropIfs(m, later) && (rest' == [] || !IfNode(m, rest'[0].id))
    ensures DropAt(m, SetNext(ns, t.id, HeadOf(rest', None)), i, f, done + [t], rest')
  {
    var ns' := SetNext(ns, t.id, HeadOf(rest', None));
    Advance(ns, Some(i), done, t, later);
    IdsCons(t, later);
    NewEnd(ns, HeadOf(later, None), Some(i), done, t, HeadOf(rest', None));
    LinkedOff(ns, ns', {t.id}, None, Some(i), rest');
    DropIfsCons(m, done, t, later);
  }

  lemma DropIfsCons(m: Menus, done: Forest, t: Tree, later: Forest)
    requires !IfNode(m, t.id)
    ensures done + DropIfs(m, [t] + later) == done + [t] + DropIfs(m, later)
  {
    assert ([t] + later)[1..] == later;
    assert done + ([t] + DropIfs(m, later)) == done + [t] + DropIfs(m, later);
  }

  lemma DropOver(m: Menus, ns: seq<Node>, i: nat, f: Forest, done: Forest, rest: Forest)
    requires DropAt(m, ns, i, f, done, rest) && HeadOf(rest, None).None?
    ensures Linked(ns, None, Some(i), DropIfs(m, f)) && Unique(DropIfs(m, f)) && Ids(DropIfs(m, f)) <= Ids(f)
  {
    assert rest == [] && done + [] == done;
  }

  lemma AdoptParts(kids: Forest, a: Forest, x: Tree, y: Tree, b: Forest)
    requires b != [] && y == b[0] && kids == a + ([x] + b)
    ensures b == [y] + b[1..] && kids == (a + [x]) + ([y] + b[1..]) && y.id in Ids(kids)
  {
    IdsAppend(a + [x], [y] + b[1..]);
    IdsCons(y, b[1..]);
  }
}
