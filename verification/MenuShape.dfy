/**
  The menu tree after parsing, and what finalizing makes of its shape: symbols
  that depend on the symbol before them move below it, promptless nodes give
  their children up to the level above, and `if` nodes disappear.  The order of
  the nodes does not change.
 */
module MenuShape {

  datatype Kind = IsSym | IsChoice | IsMenu | IsComment | IsIf

  datatype Info = Info(kind: Kind, hasPrompt: bool)

  /** Nodes are numbered; a tree gives the places of their numbers. */
  datatype Tree = Tree(id: nat, kids: seq<Tree>)

  type Forest = seq<Tree>

  function Pre(f: Forest): seq<nat>
    decreases f
  {
    if f == [] then [] else [f[0].id] + Pre(f[0].kids) + Pre(f[1..])
  }

  function Size(f: Forest): nat
    decreases f
  {
    if f == [] then 0 else 1 + Size(f[0].kids) + Size(f[1..])
  }

  lemma {:induction false} PreAppend(f: Forest, g: Forest)
    ensures Pre(f + g) == Pre(f) + Pre(g) && Size(f + g) == Size(f) + Size(g)
  {
    if f == [] {
      assert f + g == g;
    } else {
      assert (f + g)[1..] == f[1..] + g;
      PreAppend(f[1..], g);
    }
  }

  /** `info` describes node i of the tree; `auto(s, i)` says that node i depends on the symbol of node s. */
  datatype Menus = Menus(info: seq<Info>, auto: (nat, nat) -> bool)

  function InfoOf(m: Menus, i: nat): Info {
    if i < |m.info| then m.info[i] else Info(IsComment, true)
  }

  predicate IfNode(m: Menus, i: nat) {
    InfoOf(m, i).kind == IsIf
  }

  // ---- One level: flattening and removal of ifs ----

  /** Nodes without a prompt, other than choices, do not keep children. */
  predicate Flattens(m: Menus, t: Tree) {
    t.kids != [] && !InfoOf(m, t.id).hasPrompt && InfoOf(m, t.id).kind != IsChoice
  }

  function Flatten(m: Menus, f: Forest): Forest
    decreases Size(f)
  {
    if f == [] then []
    else if Flattens(m, f[0]) then
      PreAppend(f[0].kids, f[1..]);
      [Tree(f[0].id, [])] + Flatten(m, f[0].kids + f[1..])
    else [f[0]] + Flatten(m, f[1..])
  }

  function DropIfs(m: Menus, f: Forest): Forest {
    if f == [] then []
    else if IfNode(m, f[0].id) then DropIfs(m, f[1..])
    else [f[0]] + DropIfs(m, f[1..])
  }

  function Close(m: Menus, t: Tree): Tree {
    Tree(t.id, DropIfs(m, Flatten(m, t.kids)))
  }

  // ---- Finalizing ----

  /** The first tree of f finalized, with the siblings it takes in, and the siblings that are left. */
  function FinHead(m: Menus, f: Forest): (r: (Tree, Forest))
    requires f != []
    ensures Size(r.1) < Size(f)
    decreases Size(f), 1
  {
    if InfoOf(m, f[0].id).kind == IsSym then
      var (kids, rest) := Absorb(m, f[0].id, f[1..]);
      (Close(m, Tree(f[0].id, kids)), rest)
    else (Close(m, Tree(f[0].id, FinAll(m, f[0].kids))), f[1..])
  }

  /** The symbol node s takes in the siblings that follow as long as they depend on it. */
  function Absorb(m: Menus, s: nat, f: Forest): (r: (Forest, Forest))
    ensures Size(r.1) <= Size(f)
    decreases Size(f), 2
  {
    if f != [] && m.auto(s, f[0].id) then
      var (t, rest) := FinHead(m, f);
      var (more, left) := Absorb(m, s, rest);
      ([t] + more, left)
    else ([], f)
  }

  function FinAll(m: Menus, f: Forest): Forest
    decreases Size(f), 2
  {
    if f == [] then []
    else
      var (t, rest) := FinHead(m, f);
      [t] + FinAll(m, rest)
  }

  // ---- The order of the nodes ----

  function NonIfs(m: Menus, s: seq<nat>): seq<nat> {
    if s == [] then [] else (if IfNode(m, s[0]) then [] else [s[0]]) + NonIfs(m, s[1..])
  }

  lemma {:induction false} NonIfsAppend(m: Menus, s: seq<nat>, t: seq<nat>)
    ensures NonIfs(m, s + t) == NonIfs(m, s) + NonIfs(m, t)
  {
    if s == [] {
      assert s + t == t;
    } else {
      assert (s + t)[1..] == s[1..] + t;
      NonIfsAppend(m, s[1..], t);
    }
  }

  lemma PreCons(t: Tree, f: Forest)
    ensures Pre([t] + f) == [t.id] + Pre(t.kids) + Pre(f)
  {
    assert ([t] + f)[1..] == f;
  }

  /** Flattening does not move a node past another. */
  lemma {:induction false} FlattenPre(m: Menus, f: Forest)
    ensures Pre(Flatten(m, f)) == Pre(f)
    decreases Size(f)
  {
    if f == [] {
    } else if Flattens(m, f[0]) {
      var next := f[0].kids + f[1..];
      PreAppend(f[0].kids, f[1..]);
      FlattenPre(m, next);
      PreCons(Tree(f[0].id, []), Flatten(m, next));
      assert [f[0].id] + [] + Pre(next) == [f[0].id] + Pre(f[0].kids) + Pre(f[1..]);
    } else {
      FlattenPre(m, f[1..]);
      PreCons(f[0], Flatten(m, f[1..]));
    }
  }

  /** No `if` node has a prompt, as the parser makes them. */
  ghost predicate PromptlessIfs(m: Menus) {
    forall i: nat | IfNode(m, i) :: !InfoOf(m, i).hasPrompt
  }

  /** The `if` nodes of a level have no children. */
  predicate BareIfs(m: Menus, f: Forest) {
    forall i | 0 <= i < |f| && IfNode(m, f[i].id) :: f[i].kids == []
  }

  lemma {:induction false} FlattenBares(m: Menus, f: Forest)
    requires PromptlessIfs(m)
    ensures BareIfs(m, Flatten(m, f))
    decreases Size(f)
  {
    if f == [] {
    } else if Flattens(m, f[0]) {
      PreAppend(f[0].kids, f[1..]);
      FlattenBares(m, f[0].kids + f[1..]);
    } else {
      FlattenBares(m, f[1..]);
    }
  }

  lemma {:induction false} DropIfsPre(m: Menus, f: Forest)
    requires BareIfs(m, f)
    ensures NonIfs(m, Pre(DropIfs(m, f))) == NonIfs(m, Pre(f))
  {
    if f != [] {
      DropIfsPre(m, f[1..]);
      NonIfsAppend(m, [f[0].id] + Pre(f[0].kids), Pre(f[1..]));
      if IfNode(m, f[0].id) {
        assert [f[0].id] + Pre(f[0].kids) == [f[0].id];
        assert NonIfs(m, [f[0].id]) == [];
      } else {
        NonIfsAppend(m, [f[0].id] + Pre(f[0].kids), Pre(DropIfs(m, f[1..])));
        assert ([f[0]] + DropIfs(m, f[1..]))[1..] == DropIfs(m, f[1..]);
      }
    }
  }

  lemma ClosePre(m: Menus, t: Tree)
    requires PromptlessIfs(m)
    ensures NonIfs(m, Pre([Close(m, t)])) == NonIfs(m, [t.id] + Pre(t.kids))
  {
    FlattenPre(m, t.kids);
    FlattenBares(m, t.kids);
    DropIfsPre(m, Flatten(m, t.kids));
    NonIfsAppend(m, [t.id], Pre(t.kids));
    NonIfsAppend(m, [t.id], Pre(Close(m, t).kids));
    assert Pre([Close(m, t)]) == [t.id] + Pre(Close(m, t).kids);
  }

  lemma {:induction false} FinHeadPre(m: Menus, f: Forest)
    requires f != [] && PromptlessIfs(m) && SymsBare(m, f)
    ensures var (t, rest) := FinHead(m, f);
      NonIfs(m, Pre([t])) + NonIfs(m, Pre(rest)) == NonIfs(m, Pre(f)) && SymsBare(m, rest)
    decreases Size(f), 1
  {
    var (t, rest) := FinHead(m, f);
    var kids := FinHeadParts(m, f);
    var first, below, after := NonIfs(m, [f[0].id]), NonIfs(m, Pre(kids)), NonIfs(m, Pre(rest));
    NonIfsHead(m, f[0].id, Pre(f[0].kids), Pre(f[1..]));
    ClosedHead(m, f[0].id, kids);
    if InfoOf(m, f[0].id).kind == IsSym {
      AbsorbPre(m, f[0].id, f[1..]);
      Regroup(first, below, after);
      assert NonIfs(m, Pre(f[0].kids)) == [];
    } else {
      FinAllPre(m, f[0].kids);
    }
  }

  lemma Regroup(a: seq<nat>, b: seq<nat>, c: seq<nat>)
    ensures a + (b + c) == (a + b) + c && a + [] == a
  {
  }

  lemma FinHeadParts(m: Menus, f: Forest) returns (kids: Forest)
    requires f != []
    ensures FinHead(m, f).0 == Close(m, Tree(f[0].id, kids))
    ensures if InfoOf(m, f[0].id).kind == IsSym then (kids, FinHead(m, f).1) == Absorb(m, f[0].id, f[1..])
            else kids == FinAll(m, f[0].kids) && FinHead(m, f).1 == f[1..]
  {
    kids := if InfoOf(m, f[0].id).kind == IsSym then Absorb(m, f[0].id, f[1..]).0 else FinAll(m, f[0].kids);
  }

  lemma NonIfsHead(m: Menus, id: nat, s: seq<nat>, t: seq<nat>)
    ensures NonIfs(m, [id] + s + t) == NonIfs(m, [id]) + NonIfs(m, s) + NonIfs(m, t)
  {
    NonIfsAppend(m, [id] + s, t);
    NonIfsAppend(m, [id], s);
  }

  lemma ClosedHead(m: Menus, id: nat, kids: Forest)
    requires PromptlessIfs(m)
    ensures NonIfs(m, Pre([Close(m, Tree(id, kids))])) == NonIfs(m, [id]) + NonIfs(m, Pre(kids))
  {
    ClosePre(m, Tree(id, kids));
    NonIfsAppend(m, [id], Pre(kids));
  }

  lemma {:induction false} AbsorbPre(m: Menus, s: nat, f: Forest)
    requires PromptlessIfs(m) && SymsBare(m, f)
    ensures var (kids, rest) := Absorb(m, s, f);
      NonIfs(m, Pre(kids)) + NonIfs(m, Pre(rest)) == NonIfs(m, Pre(f)) && SymsBare(m, rest)
    decreases Size(f), 2
  {
    if f != [] && m.auto(s, f[0].id) {
      var (t, rest) := FinHead(m, f);
      FinHeadPre(m, f);
      AbsorbPre(m, s, rest);
      var (more, left) := Absorb(m, s, rest);
      PreAppend([t], more);
      NonIfsAppend(m, Pre([t]), Pre(more));
    }
  }

  /** Finalizing keeps the order of all nodes except `if` nodes. */
  lemma {:induction false} FinAllPre(m: Menus, f: Forest)
    requires PromptlessIfs(m) && SymsBare(m, f)
    ensures NonIfs(m, Pre(FinAll(m, f))) == NonIfs(m, Pre(f))
    decreases Size(f), 2
  {
    if f != [] {
      var (t, rest) := FinHead(m, f);
      FinHeadPre(m, f);
      FinAllPre(m, rest);
      PreAppend([t], FinAll(m, rest));
      NonIfsAppend(m, Pre([t]), Pre(FinAll(m, rest)));
    }
  }

  /** The parser gives no children to symbols. */
  predicate SymsBare(m: Menus, f: Forest)
    decreases f
  {
    f == [] ||
    (&& (InfoOf(m, f[0].id).kind == IsSym ==> f[0].kids == [])
     && SymsBare(m, f[0].kids) && SymsBare(m, f[1..]))
  }

  // ---- No ifs are left ----

  /** No node below the trees of f is an `if`. */
  predicate Clean(m: Menus, f: Forest)
    decreases f
  {
    f == [] || (NoIfs(m, f[0].kids) && Clean(m, f[0].kids) && Clean(m, f[1..]))
  }

  predicate NoIfs(m: Menus, f: Forest) {
    forall i | 0 <= i < |f| :: !IfNode(m, f[i].id)
  }

  lemma {:induction false} CleanAppend(m: Menus, f: Forest, g: Forest)
    ensures Clean(m, f + g) <==> Clean(m, f) && Clean(m, g)
  {
    if f == [] {
      assert f + g == g;
    } else {
      assert (f + g)[1..] == f[1..] + g;
      CleanAppend(m, f[1..], g);
    }
  }

  lemma {:induction false} FlattenClean(m: Menus, f: Forest)
    requires Clean(m, f)
    ensures Clean(m, Flatten(m, f))
    decreases Size(f)
  {
    if f == [] {
    } else if Flattens(m, f[0]) {
      PreAppend(f[0].kids, f[1..]);
      CleanAppend(m, f[0].kids, f[1..]);
      FlattenClean(m, f[0].kids + f[1..]);
      CleanAppend(m, [Tree(f[0].id, [])], Flatten(m, f[0].kids + f[1..]));
    } else {
      FlattenClean(m, f[1..]);
      CleanAppend(m, [f[0]], Flatten(m, f[1..]));
    }
  }

  lemma {:induction false} DropIfsClean(m: Menus, f: Forest)
    requires Clean(m, f)
    ensures Clean(m, DropIfs(m, f)) && NoIfs(m, DropIfs(m, f))
  {
    if f != [] {
      DropIfsClean(m, f[1..]);
      CleanAppend(m, [f[0]], DropIfs(m, f[1..]));
    }
  }

  lemma CloseClean(m: Menus, t: Tree)
    requires Clean(m, t.kids)
    ensures Clean(m, [Close(m, t)]) && NoIfs(m, Close(m, t).kids)
  {
    FlattenClean(m, t.kids);
    DropIfsClean(m, Flatten(m, t.kids));
  }

  lemma {:induction false} FinHeadClean(m: Menus, f: Forest)
    requires f != []
    ensures Clean(m, [FinHead(m, f).0])
    decreases Size(f), 1
  {
    if InfoOf(m, f[0].id).kind == IsSym {
      AbsorbClean(m, f[0].id, f[1..]);
      CloseClean(m, Tree(f[0].id, Absorb(m, f[0].id, f[1..]).0));
    } else {
      FinAllClean(m, f[0].kids);
      CloseClean(m, Tree(f[0].id, FinAll(m, f[0].kids)));
    }
  }

  lemma {:induction false} AbsorbClean(m: Menus, s: nat, f: Forest)
    ensures Clean(m, Absorb(m, s, f).0)
    decreases Size(f), 2
  {
    if f != [] && m.auto(s, f[0].id) {
      var (t, rest) := FinHead(m, f);
      FinHeadClean(m, f);
      AbsorbClean(m, s, rest);
      CleanAppend(m, [t], Absorb(m, s, rest).0);
    }
  }

  lemma {:induction false} FinAllClean(m: Menus, f: Forest)
    ensures Clean(m, FinAll(m, f))
    decreases Size(f), 2
  {
    if f != [] {
      var (t, rest) := FinHead(m, f);
      FinHeadClean(m, f);
      FinAllClean(m, rest);
      CleanAppend(m, [t], FinAll(m, rest));
    }
  }

  lemma {:induction false} CleanNonIfs(m: Menus, f: Forest)
    requires Clean(m, f) && NoIfs(m, f)
    ensures NonIfs(m, Pre(f)) == Pre(f)
    decreases f
  {
    if f != [] {
      CleanNonIfs(m, f[0].kids);
      CleanNonIfs(m, f[1..]);
      NonIfsAppend(m, [f[0].id] + Pre(f[0].kids), Pre(f[1..]));
      NonIfsAppend(m, [f[0].id], Pre(f[0].kids));
    }
  }

  /**
    The finalized menu below the top node: its nodes in order are the parsed nodes
    in order, with the `if` nodes left out.
   */
  lemma FinalizedOrder(m: Menus, top: Tree)
    requires PromptlessIfs(m) && SymsBare(m, top.kids) && InfoOf(m, top.id).kind == IsMenu
    ensures Pre(FinHead(m, [top]).0.kids) == NonIfs(m, Pre(top.kids))
    ensures Clean(m, [FinHead(m, [top]).0]) && FinHead(m, [top]).1 == []
  {
    FinAllPre(m, top.kids);
    FinAllClean(m, top.kids);
    var t := Tree(top.id, FinAll(m, top.kids));
    CloseClean(m, t);
    ClosePre(m, t);
    var kids := Close(m, t).kids;
    CleanNonIfs(m, kids);
    NonIfsAppend(m, [top.id], Pre(t.kids));
    NonIfsAppend(m, [top.id], Pre(kids));
    assert Pre([Close(m, t)]) == [top.id] + Pre(kids);
    assert NonIfs(m, [top.id]) == [top.id];
  }
}
