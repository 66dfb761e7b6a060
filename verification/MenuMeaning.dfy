/**
  The shape of the finalized menu, said without the passes that make it: which
  nodes are below which.  Menus, comments and choices keep what was parsed below
  them; a symbol with a prompt gets the run of nodes after it that depend on it;
  a node without a prompt that is no choice has nothing below it.  With the order
  of the nodes this determines the whole tree.
 */
module MenuMeaning {
  import opened MenuShape

  // ---- Nodes without a prompt have nothing below them ----

  /** The node may have children: it has a prompt or is a choice. */
  predicate MayHold(m: Menus, i: nat) {
    InfoOf(m, i).hasPrompt || InfoOf(m, i).kind == IsChoice
  }

  predicate HoldersOnly(m: Menus, f: Forest) {
    forall i | 0 <= i < |f| && f[i].kids != [] :: MayHold(m, f[i].id)
  }

  /** Below the trees of f, only nodes that may hold children do. */
  predicate Settled(m: Menus, f: Forest)
    decreases f
  {
    f == [] || (HoldersOnly(m, f[0].kids) && Settled(m, f[0].kids) && Settled(m, f[1..]))
  }

  lemma {:induction false} SettledAppend(m: Menus, f: Forest, g: Forest)
    ensures Settled(m, f + g) <==> Settled(m, f) && Settled(m, g)
    decreases |f|
  {
    if f == [] {
      assert f + g == g;
    } else {
      assert (f + g)[1..] == f[1..] + g;
      SettledAppend(m, f[1..], g);
    }
  }

  lemma {:induction false} FlattenSettled(m: Menus, f: Forest)
    requires Settled(m, f)
    ensures Settled(m, Flatten(m, f)) && HoldersOnly(m, Flatten(m, f))
    decreases Size(f)
  {
    if f == [] {
    } else if Flattens(m, f[0]) {
      PreAppend(f[0].kids, f[1..]);
      SettledAppend(m, f[0].kids, f[1..]);
      FlattenSettled(m, f[0].kids + f[1..]);
      SettledAppend(m, [Tree(f[0].id, [])], Flatten(m, f[0].kids + f[1..]));
    } else {
      FlattenSettled(m, f[1..]);
      SettledAppend(m, [f[0]], Flatten(m, f[1..]));
    }
  }

  lemma {:induction false} DropIfsSettled(m: Menus, f: Forest)
    requires Settled(m, f) && HoldersOnly(m, f)
    ensures Settled(m, DropIfs(m, f)) && HoldersOnly(m, DropIfs(m, f))
    decreases |f|
  {
    if f != [] {
      assert forall i | 0 <= i < |f[1..]| :: f[1..][i] == f[i + 1];
      DropIfsSettled(m, f[1..]);
      SettledAppend(m, [f[0]], DropIfs(m, f[1..]));
    }
  }

  lemma CloseSettled(m: Menus, t: Tree)
    requires Settled(m, t.kids)
    ensures Settled(m, [Close(m, t)])
  {
    FlattenSettled(m, t.kids);
    DropIfsSettled(m, Flatten(m, t.kids));
  }

  lemma {:induction false} FinHeadSettled(m: Menus, f: Forest)
    requires f != []
    ensures Settled(m, [FinHead(m, f).0])
    decreases Size(f), 1
  {
    var kids := FinHeadParts(m, f);
    if InfoOf(m, f[0].id).kind == IsSym { AbsorbSettled(m, f[0].id, f[1..]); } else { FinAllSettled(m, f[0].kids); }
    CloseSettled(m, Tree(f[0].id, kids));
  }

  lemma {:induction false} AbsorbSettled(m: Menus, s: nat, f: Forest)
    ensures Settled(m, Absorb(m, s, f).0)
    decreases Size(f), 2
  {
    if f != [] && m.auto(s, f[0].id) {
      var (t, rest) := FinHead(m, f);
      FinHeadSettled(m, f);
      AbsorbSettled(m, s, rest);
      SettledAppend(m, [t], Absorb(m, s, rest).0);
    }
  }

  lemma {:induction false} FinAllSettled(m: Menus, f: Forest)
    ensures Settled(m, FinAll(m, f))
    decreases Size(f), 2
  {
    if f != [] {
      var (t, rest) := FinHead(m, f);
      FinHeadSettled(m, f);
      FinAllSettled(m, rest);
      SettledAppend(m, [t], FinAll(m, rest));
    }
  }

  // ---- The run of a symbol ----

  /** How many of the siblings in f the symbol node s takes in: those that depend on it, each with what it takes in itself. */
  function Taken(m: Menus, s: nat, f: Forest): (k: nat)
    ensures k <= |f|
    decreases |f|, 0
  {
    if f == [] || !m.auto(s, f[0].id) then 0
    else
      var own := OwnRun(m, f);
      1 + own + Taken(m, s, f[1 + own..])
  }

  /** What the first node of f takes in. */
  function OwnRun(m: Menus, f: Forest): (k: nat)
    requires f != []
    ensures k < |f|
    decreases |f[1..]|, 1
  {
    if InfoOf(m, f[0].id).kind == IsSym then Taken(m, f[0].id, f[1..]) else 0
  }

  predicate SymbolAbove(m: Menus, f: Forest, i: nat, j: nat) {
    i < j < |f| && InfoOf(m, f[i].id).kind == IsSym && m.auto(f[i].id, f[j].id)
  }

  /** Node j of f depends on s or on a symbol before it in f. */
  predicate Draws(m: Menus, s: nat, f: Forest, j: nat) {
    j < |f| && (m.auto(s, f[j].id) || exists i | 0 <= i < j :: SymbolAbove(m, f, i, j))
  }

  lemma DrawsLater(m: Menus, s: nat, f: Forest, k: nat, j: nat)
    requires k <= |f| && Draws(m, s, f[k..], j)
    ensures Draws(m, s, f, k + j)
  {
    assert f[k..][j] == f[k + j];
    if !m.auto(s, f[k + j].id) {
      var i :| 0 <= i < j && SymbolAbove(m, f[k..], i, j);
      assert f[k..][i] == f[k + i];
      assert SymbolAbove(m, f, k + i, k + j);
    }
  }

  /** What the first symbol of f draws, f draws. */
  lemma DrawsByHead(m: Menus, s: nat, f: Forest, j: nat)
    requires f != [] && InfoOf(m, f[0].id).kind == IsSym && Draws(m, f[0].id, f[1..], j)
    ensures Draws(m, s, f, j + 1)
  {
    assert f[1..][j] == f[j + 1];
    if m.auto(f[0].id, f[j + 1].id) {
      assert SymbolAbove(m, f, 0, j + 1);
    } else {
      var i :| 0 <= i < j && SymbolAbove(m, f[1..], i, j);
      assert f[1..][i] == f[i + 1];
      assert SymbolAbove(m, f, i + 1, j + 1);
    }
  }

  /** Every node taken in depends on the symbol or on a symbol taken in before it; the first one left does not depend on the symbol. */
  lemma {:induction false} TakenIs(m: Menus, s: nat, f: Forest)
    ensures Taken(m, s, f) < |f| ==> !m.auto(s, f[Taken(m, s, f)].id)
    ensures forall j | 0 <= j < Taken(m, s, f) :: Draws(m, s, f, j)
    decreases |f|
  {
    if f != [] && m.auto(s, f[0].id) {
      var own := OwnRun(m, f);
      if own > 0 { TakenIs(m, f[0].id, f[1..]); }
      TakenIs(m, s, f[1 + own..]);
      forall j | 0 <= j < Taken(m, s, f) ensures Draws(m, s, f, j) { DrawsNext(m, s, f, own, f[1 + own..], j); }
    }
  }

  lemma DrawsNext(m: Menus, s: nat, f: Forest, own: nat, rest: Forest, j: nat)
    requires f != [] && m.auto(s, f[0].id) && own == OwnRun(m, f) && rest == f[1 + own..]
    requires forall i | 0 <= i < own :: Draws(m, f[0].id, f[1..], i)
    requires forall i | 0 <= i < Taken(m, s, rest) :: Draws(m, s, rest, i)
    requires j < 1 + own + Taken(m, s, rest)
    ensures Draws(m, s, f, j)
  {
    if 0 < j <= own {
      DrawsByHead(m, s, f, j - 1);
    } else if j > own {
      DrawsLater(m, s, f, 1 + own, j - 1 - own);
    }
  }

  lemma {:induction false} AbsorbTakes(m: Menus, s: nat, f: Forest)
    ensures Absorb(m, s, f).1 == f[Taken(m, s, f)..]
    decreases Size(f), 2
  {
    if f != [] && m.auto(s, f[0].id) {
      var own := OwnRun(m, f);
      HeadLeaves(m, f);
      assert FinHead(m, f).1 == f[1 + own..];
      AbsorbTakes(m, s, f[1 + own..]);
      assert f[1 + own..][Taken(m, s, f[1 + own..])..] == f[Taken(m, s, f)..];
    }
  }

  lemma {:induction false} HeadLeaves(m: Menus, f: Forest)
    requires f != []
    ensures FinHead(m, f).1 == f[1 + OwnRun(m, f)..]
    decreases Size(f), 1
  {
    if InfoOf(m, f[0].id).kind == IsSym {
      AbsorbTakes(m, f[0].id, f[1..]);
      var k := Taken(m, f[0].id, f[1..]);
      assert f[1..][k..] == f[1 + k..];
    }
  }

  // ---- What is below a node ----

  /** The nodes below the first node p of f. */
  function Below(f: Forest, p: nat): seq<nat>
    decreases f
  {
    if f == [] then []
    else if f[0].id == p then Pre(f[0].kids)
    else if p in Pre(f[0].kids) then Below(f[0].kids, p)
    else Below(f[1..], p)
  }

  /** The siblings after the first node p of f. */
  function Following(f: Forest, p: nat): Forest
    decreases f
  {
    if f == [] then []
    else if f[0].id == p then f[1..]
    else if p in Pre(f[0].kids) then Following(f[0].kids, p)
    else Following(f[1..], p)
  }

  /** What belongs below node p of the parsed forest f. */
  function Contents(m: Menus, f: Forest, p: nat): seq<nat> {
    if InfoOf(m, p).kind == IsSym then NonIfs(m, Pre(Following(f, p)[..Taken(m, p, Following(f, p))]))
    else NonIfs(m, Below(f, p))
  }

  lemma PreParts(f: Forest, p: nat)
    requires f != []
    ensures p in Pre(f) <==> p == f[0].id || p in Pre(f[0].kids) || p in Pre(f[1..])
  {
  }

  lemma {:induction false} SplitAt(f: Forest, g: Forest, p: nat)
    ensures p in Pre(f + g) <==> p in Pre(f) || p in Pre(g)
    ensures Below(f + g, p) == if p in Pre(f) then Below(f, p) else Below(g, p)
    ensures p !in Pre(f) ==> Following(f + g, p) == Following(g, p)
    decreases |f|
  {
    PreAppend(f, g);
    if f == [] {
      assert f + g == g;
    } else {
      assert (f + g)[1..] == f[1..] + g && (f + g)[0] == f[0];
      PreParts(f, p);
      SplitAt(f[1..], g, p);
    }
  }

  lemma ContentsLater(m: Menus, f: Forest, k: nat, p: nat)
    requires k <= |f| && p !in Pre(f[..k])
    ensures Contents(m, f[k..], p) == Contents(m, f, p)
    ensures p in Pre(f) <==> p in Pre(f[k..])
  {
    assert f == f[..k] + f[k..];
    SplitAt(f[..k], f[k..], p);
  }

  lemma {:induction false} FlattenBelow(m: Menus, f: Forest, p: nat)
    requires MayHold(m, p)
    ensures Below(Flatten(m, f), p) == Below(f, p)
    decreases Size(f)
  {
    FlattenPre(m, f);
    if f == [] {
    } else if Flattens(m, f[0]) {
      var next := f[0].kids + f[1..];
      PreAppend(f[0].kids, f[1..]);
      SplitAt(f[0].kids, f[1..], p);
      FlattenBelow(m, next, p);
      SplitAt([Tree(f[0].id, [])], Flatten(m, next), p);
      assert p != f[0].id && p !in Pre([Tree(f[0].id, [])]);
    } else {
      FlattenPre(m, f[1..]);
      FlattenBelow(m, f[1..], p);
      SplitAt([f[0]], Flatten(m, f[1..]), p);
      SplitAt([f[0]], f[1..], p);
      assert f == [f[0]] + f[1..];
    }
  }

  lemma {:induction false} DropIfsBelow(m: Menus, f: Forest, p: nat)
    requires BareIfs(m, f) && !IfNode(m, p)
    ensures Below(DropIfs(m, f), p) == Below(f, p)
    decreases |f|
  {
    if f != [] {
      assert forall i | 0 <= i < |f[1..]| :: f[1..][i] == f[i + 1];
      DropIfsBelow(m, f[1..], p);
      SplitAt([f[0]], DropIfs(m, f[1..]), p);
      SplitAt([f[0]], f[1..], p);
      assert f == [f[0]] + f[1..];
      if IfNode(m, f[0].id) { assert p !in Pre([f[0]]); }
    }
  }

  lemma {:induction false} NonIfsHas(m: Menus, s: seq<nat>, p: nat)
    requires !IfNode(m, p)
    ensures p in NonIfs(m, s) <==> p in s
  {
    if s != [] { NonIfsHas(m, s[1..], p); }
  }

  ghost predicate Kept(m: Menus, p: nat) {
    PromptlessIfs(m) && MayHold(m, p) && !IfNode(m, p)
  }

  /** Closing a node keeps what is below the nodes below it. */
  lemma CloseBelow(m: Menus, t: Tree, p: nat)
    requires Kept(m, p) && Clean(m, t.kids)
    ensures Pre(Close(m, t).kids) == NonIfs(m, Pre(t.kids)) && Below(Close(m, t).kids, p) == Below(t.kids, p)
    ensures p in Pre(Close(m, t).kids) <==> p in Pre(t.kids)
  {
    var kids := Close(m, t).kids;
    FlattenPre(m, t.kids);
    FlattenBares(m, t.kids);
    FlattenBelow(m, t.kids, p);
    DropIfsBelow(m, Flatten(m, t.kids), p);
    DropIfsPre(m, Flatten(m, t.kids));
    CloseClean(m, t);
    CleanNonIfs(m, kids);
    NonIfsHas(m, Pre(t.kids), p);
  }

  lemma OneBelow(t: Tree, p: nat)
    ensures p in Pre([t]) <==> p == t.id || p in Pre(t.kids)
    ensures Below([t], p) == if p == t.id then Pre(t.kids) else if p in Pre(t.kids) then Below(t.kids, p) else []
  {
    assert [t][0] == t && [t][1..] == [];
    PreParts([t], p);
  }

  /** A finalized node has its contents below it; any other node is still among the trees that are left. */
  ghost predicate Holds(m: Menus, f: Forest, done: Forest, rest: Forest, p: nat) {
    if p in Pre(done) then Below(done, p) == Contents(m, f, p)
    else p in Pre(rest) && Contents(m, rest, p) == Contents(m, f, p)
  }

  lemma {:induction false} FinHeadHolds(m: Menus, f: Forest, p: nat)
    requires f != [] && Kept(m, p) && SymsBare(m, f) && p in Pre(f)
    ensures Holds(m, f, [FinHead(m, f).0], FinHead(m, f).1, p)
    decreases Size(f), 1
  {
    var (t, rest) := FinHead(m, f);
    var kids := FinHeadParts(m, f);
    OneBelow(t, p);
    PreParts(f, p);
    assert f == [f[0]] + f[1..];
    OneBelow(f[0], p);
    if p != f[0].id && p !in Pre(f[0].kids) {
      assert f[..1] == [f[0]];
      ContentsLater(m, f, 1, p);
    }
    if InfoOf(m, f[0].id).kind == IsSym {
      AbsorbClean(m, f[0].id, f[1..]);
      CloseBelow(m, Tree(f[0].id, kids), p);
      if p == f[0].id { RunBelow(m, f); } else { AbsorbHolds(m, f[0].id, f[1..], p); }
    } else {
      FinAllClean(m, f[0].kids);
      CloseBelow(m, Tree(f[0].id, kids), p);
      FinAllPre(m, f[0].kids);
      if p in Pre(f[0].kids) {
        FinAllHolds(m, f[0].kids, p);
      } else {
        NonIfsHas(m, Pre(f[0].kids), p);
        NonIfsHas(m, Pre(kids), p);
      }
    }
  }

  /** Below a symbol comes its run. */
  lemma RunBelow(m: Menus, f: Forest)
    requires f != [] && PromptlessIfs(m) && SymsBare(m, f) && InfoOf(m, f[0].id).kind == IsSym
    ensures NonIfs(m, Pre(Absorb(m, f[0].id, f[1..]).0)) == Contents(m, f, f[0].id)
  {
    var k, g := Taken(m, f[0].id, f[1..]), f[1..];
    AbsorbTakes(m, f[0].id, g);
    AbsorbPre(m, f[0].id, g);
    assert g == g[..k] + g[k..];
    PreAppend(g[..k], g[k..]);
    NonIfsAppend(m, Pre(g[..k]), Pre(g[k..]));
    CancelTail(NonIfs(m, Pre(Absorb(m, f[0].id, g).0)), NonIfs(m, Pre(g[..k])), NonIfs(m, Pre(g[k..])));
  }

  lemma CancelTail(a: seq<nat>, b: seq<nat>, c: seq<nat>)
    requires a + c == b + c
    ensures a == b
  {
    assert |a| == |b|;
    forall i | 0 <= i < |a| ensures a[i] == b[i] { assert (a + c)[i] == (b + c)[i]; }
  }

  lemma {:induction false} AbsorbHolds(m: Menus, s: nat, f: Forest, p: nat)
    requires Kept(m, p) && SymsBare(m, f) && p in Pre(f)
    ensures Holds(m, f, Absorb(m, s, f).0, Absorb(m, s, f).1, p)
    decreases Size(f), 2
  {
    if f != [] && m.auto(s, f[0].id) {
      var (t, rest) := FinHead(m, f);
      FinHeadHolds(m, f, p);
      FinHeadPre(m, f);
      SplitAt([t], Absorb(m, s, rest).0, p);
      if p !in Pre([t]) { AbsorbHolds(m, s, rest, p); }
    }
  }

  lemma {:induction false} FinAllHolds(m: Menus, f: Forest, p: nat)
    requires Kept(m, p) && SymsBare(m, f) && p in Pre(f)
    ensures p in Pre(FinAll(m, f)) && Below(FinAll(m, f), p) == Contents(m, f, p)
    decreases Size(f), 2
  {
    var (t, rest) := FinHead(m, f);
    FinHeadHolds(m, f, p);
    FinHeadPre(m, f);
    SplitAt([t], FinAll(m, rest), p);
    if p !in Pre([t]) { FinAllHolds(m, rest, p); }
  }

  /**
    In the finalized menu below the top node: a node with a prompt, or a choice, has
    its contents below it, and no other node has anything below it.
   */
  lemma FinalizedContents(m: Menus, top: Tree, p: nat)
    requires PromptlessIfs(m) && SymsBare(m, top.kids) && InfoOf(m, top.id).kind == IsMenu && p in Pre(top.kids)
    ensures var kids := FinHead(m, [top]).0.kids;
      && Settled(m, kids) && HoldersOnly(m, kids)
      && (MayHold(m, p) && !IfNode(m, p) ==> Below(kids, p) == Contents(m, top.kids, p))
  {
    FinHeadSettled(m, [top]);
    assert [top][0] == top;
    if MayHold(m, p) && !IfNode(m, p) {
      FinAllHolds(m, top.kids, p);
      FinAllClean(m, top.kids);
      CloseBelow(m, Tree(top.id, FinAll(m, top.kids)), p);
    }
  }

  // ---- Order and contents determine the tree ----

  ghost predicate Once(s: seq<nat>) {
    forall i, j | 0 <= i < j < |s| :: s[i] != s[j]
  }

  /** The first tree and the others share no node. */
  lemma OnceParts(f: Forest)
    requires f != [] && Once(Pre(f))
    ensures Once(Pre(f[0].kids)) && Once(Pre(f[1..]))
    ensures f[0].id !in Pre(f[0].kids) && f[0].id !in Pre(f[1..])
    ensures forall p :: !(p in Pre(f[0].kids) && p in Pre(f[1..]))
  {
    OnceSplit(f[0].id, Pre(f[0].kids), Pre(f[1..]));
  }

  lemma OnceSplit(x: nat, a: seq<nat>, b: seq<nat>)
    requires Once([x] + a + b)
    ensures Once(a) && Once(b) && x !in a && x !in b && forall p :: !(p in a && p in b)
  {
    var all := [x] + a + b;
    assert forall i | 0 <= i < |a| :: all[1 + i] == a[i];
    assert forall i | 0 <= i < |b| :: all[1 + |a| + i] == b[i];
    assert all[0] == x;
  }

  lemma SameParts(f: Forest, g: Forest)
    requires f != [] && g != [] && Once(Pre(f)) && Pre(f) == Pre(g)
    requires forall p | p in Pre(f) :: Below(f, p) == Below(g, p)
    ensures f[0].id == g[0].id && Pre(f[0].kids) == Pre(g[0].kids) && Pre(f[1..]) == Pre(g[1..])
  {
    assert Pre(f)[0] == f[0].id && Pre(g)[0] == g[0].id;
    var k := |Pre(f[0].kids)|;
    assert f[0].id in Pre(f);
    assert Pre(f)[1 + k..] == Pre(f[1..]) && Pre(g)[1 + k..] == Pre(g[1..]);
  }

  /** Two menus with the same nodes in the same order, and the same nodes below each node, are the same. */
  lemma {:induction false} ShapeDetermined(f: Forest, g: Forest)
    requires Once(Pre(f)) && Pre(f) == Pre(g) && forall p | p in Pre(f) :: Below(f, p) == Below(g, p)
    ensures f == g
    decreases f
  {
    if f == [] {
      assert g == [] || |Pre(g)| >= 1;
    } else {
      assert Pre(f)[0] == f[0].id;
      SameParts(f, g);
      OnceParts(f);
      OnceParts(g);
      forall p | p in Pre(f[0].kids) ensures Below(f[0].kids, p) == Below(g[0].kids, p) { assert p in Pre(f); }
      forall p | p in Pre(f[1..]) ensures Below(f[1..], p) == Below(g[1..], p) { assert p in Pre(f); }
      ShapeDetermined(f[0].kids, g[0].kids);
      ShapeDetermined(f[1..], g[1..]);
      assert f == [f[0]] + f[1..] && g == [g[0]] + g[1..];
    }
  }
}
