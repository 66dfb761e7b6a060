/**
  From the loop check to evaluation.  A tree that passes the loop check, with no
  path from a symbol of a choice back to an earlier symbol of the same choice,
  can be evaluated by a recursion of bounded depth.  A tree with such a path may
  pass the check although its evaluation never ends.
 */
module KconfigTermination {
  import opened Common
  import opened KconfigModel
  import opened KconfigReads
  import opened KconfigValues
  import opened KconfigFresh
  import opened DepSearch
  import opened DepLoop

  predicate DirectlyUses(k: Kconf, y: Item, s: nat) {
    match y
    case ISym(t) => t < |k.syms| && SymMentions(k.syms[t], ISym(s))
    case IChoice(c) => c < |k.choices| && ChoiceMentions(k.choices[c], ISym(s))
  }

  /** The dependents of symbols as the loop check finds them. */
  ghost predicate Built(k: Kconf, g: Graph) {
    && |g.owner| == |g.deps| == |k.syms| && |g.members| == |k.choices|
    && (forall s | 0 <= s < |k.syms| :: g.owner[s] == k.syms[s].choice)
    && (forall c | 0 <= c < |k.choices| :: g.members[c] == k.choices[c].syms)
    && (forall s, y | 0 <= s < |k.syms| :: y in g.deps[s] <==> DirectlyUses(k, y, s))
  }

  ghost predicate UsesMember(k: Kconf, y: Item, c: nat) {
    c < |k.choices| && exists m :: m in k.choices[c].syms && DirectlyUses(k, y, m)
  }

  /** An item that mentions a choice is one of its symbols, or mentions one of them. */
  ghost predicate ChoicesInside(k: Kconf) {
    && (forall s, c: nat | 0 <= s < |k.syms| && SymMentions(k.syms[s], IChoice(c)) && k.syms[s].choice != Some(c) ::
          UsesMember(k, ISym(s), c))
    && (forall d, c: nat | 0 <= d < |k.choices| && ChoiceMentions(k.choices[d], IChoice(c)) :: UsesMember(k, IChoice(d), c))
  }

  ghost function Ranks(g: Graph, order: seq<Item>): Item -> nat {
    z => RankOf(g, order, z)
  }

  lemma BuiltOk(k: Kconf, g: Graph)
    requires WellFormed(k) && Built(k, g)
    ensures GraphOk(g)
  {
    forall c, i | 0 <= c < |g.members| && 0 <= i < |g.members[c]|
      ensures g.members[c][i] < |g.owner| && g.owner[g.members[c][i]] == Some(c)
    {
      assert ChoiceWellFormed(k, c);
    }
    forall s | 0 <= s < |g.owner| && g.owner[s].Some?
      ensures g.owner[s].value < |g.members| && s in g.members[g.owner[s].value]
    {
      assert SymWellFormed(k, k.syms[s]);
    }
    forall s, i | 0 <= s < |g.deps| && 0 <= i < |g.deps[s]| ensures InGraph(g, g.deps[s][i]) {
      assert g.deps[s][i] in g.deps[s] && DirectlyUses(k, g.deps[s][i], s);
    }
  }

  lemma UseRanks(k: Kconf, g: Graph, order: seq<Item>, y: Item, s: nat)
    requires WellFormed(k) && Built(k, g) && RanksDeps(g, order)
    requires s < |k.syms| && DirectlyUses(k, y, s)
    ensures Ranks(g, order)(ISym(s)) < Ranks(g, order)(y)
  {
    assert y in g.deps[s];
    var i :| 0 <= i < |g.deps[s]| && g.deps[s][i] == y;
  }

  lemma MemberUseRanks(k: Kconf, g: Graph, order: seq<Item>, y: Item, c: nat)
    requires WellFormed(k) && Built(k, g) && RanksDeps(g, order) && UsesMember(k, y, c)
    ensures Ranks(g, order)(IChoice(c)) < Ranks(g, order)(y)
  {
    var m :| m in k.choices[c].syms && DirectlyUses(k, y, m);
    var i :| 0 <= i < |k.choices[c].syms| && k.choices[c].syms[i] == m;
    assert ChoiceWellFormed(k, c);
    UseRanks(k, g, order, y, m);
    assert Group(g, ISym(m)) == IChoice(c);
  }

  lemma BuiltRanked(k: Kconf, g: Graph, order: seq<Item>)
    requires WellFormed(k) && Built(k, g) && ChoicesInside(k) && !k.modules.Sym? && RanksDeps(g, order)
    ensures Ranked(k, Ranks(g, order), |order| + 1)
  {
    var rank := Ranks(g, order);
    forall s | 0 <= s < |k.syms| ensures SymRanked(k, rank, s) {
      forall z | SymMentions(k.syms[s], z) && !(k.syms[s].choice.Some? && z == IChoice(k.syms[s].choice.value))
        ensures rank(z) < rank(ISym(s))
      {
        assert InTree(k, z);
        match z
        case ISym(t) => UseRanks(k, g, order, ISym(s), t);
        case IChoice(c) => MemberUseRanks(k, g, order, ISym(s), c);
      }
    }
    forall d | 0 <= d < |k.choices| ensures ChoiceRanked(k, rank, d) {
      forall z | ChoiceMentions(k.choices[d], z) ensures rank(z) < rank(IChoice(d)) {
        assert InTree(k, z);
        match z
        case ISym(t) => UseRanks(k, g, order, IChoice(d), t);
        case IChoice(c) => MemberUseRanks(k, g, order, IChoice(d), c);
      }
    }
  }

  /** Passing the check makes evaluation end, for any settings of the user. */
  lemma PassedEvaluates(k: Kconf, g: Graph, u: State)
    requires WellFormed(k) && Built(k, g) && ChoicesInside(k) && !k.modules.Sym? && PicksMembers(k, u)
    ensures GraphOk(g)
    ensures Check(g).1.NoLoop? && NoBack(g, Check(g).0.entry) ==>
              && Ranked(k, Ranks(g, Check(g).0.order), |Check(g).0.order| + 1)
              && Solves(k, Fresh(k, u, 4 * (|Check(g).0.order| + 1)))
  {
    BuiltOk(k, g);
    if Check(g).1.NoLoop? && NoBack(g, Check(g).0.entry) {
      PassedRanks(g);
      var order := Check(g).0.order;
      BuiltRanked(k, g, order);
      FreshSolves(k, Ranks(g, order), |order| + 1, u);
    }
  }

  // ---- A tree that passes the check and cannot be evaluated ----

  function BoolSym(name: string, choice: Option<nat>, prompt: Expr): Symbol {
    Symbol(name, Bool, choice, [prompt], [], [], Use(Known(0)), Use(Known(0)), Use(Known(2)), false)
  }

  /** Choice symbols X, B, A: X is hidden, B needs D, and D needs A. */
  function StuckTree(): Kconf {
    Kconf([BoolSym("X", Some(0), Use(Known(0))),
           BoolSym("B", Some(0), And(Mode(0), Use(Sym(3)))),
           BoolSym("A", Some(0), Mode(0)),
           BoolSym("D", None, Use(Sym(2)))],
          [Choice(Bool, false, [0, 1, 2], [Use(Known(2))], [])],
          Text("MODULES"),
          Numbers((s, b) => None, (n, kind) => ""))
  }

  /** The selection needs B to be looked at, B needs D, D needs A, and A needs the selection. */
  ghost predicate Stuck(w: State) {
    && Fits(StuckTree(), w) && w.choices[0].picked.None? && w.choices[0].sel.None?
    && (w.choices[0].vis.Some? ==> w.choices[0].vis == Some(2))
    && (w.syms[0].vis.Some? ==> w.syms[0].vis == Some(0))
    && (w.syms[2].vis.Some? ==> w.syms[2].vis == Some(2))
    && w.syms[1].vis.None? && w.syms[2].tri.None? && w.syms[3].vis.None? && w.syms[3].tri.None?
  }

  lemma ModeStuck(w: State)
    requires Stuck(w)
    ensures var m := ModeOf(StuckTree(), w, 0); m == None || m == Some(2)
  {
  }

  lemma StepStuck(w: State)
    requires Stuck(w)
    ensures Stuck(Step(StuckTree(), w))
  {
    var k := StuckTree();
    ModeStuck(w);
    OnePrompt(k, w, k.syms[0].prompts);
    OnePrompt(k, w, k.syms[1].prompts);
    OnePrompt(k, w, k.syms[2].prompts);
    OnePrompt(k, w, k.syms[3].prompts);
    OnePrompt(k, w, k.choices[0].prompts);
    assert SymVis(k, w, 0) == Some(0) && SymVis(k, w, 1) == None && SymVis(k, w, 3) == None;
    assert SymVis(k, w, 2) == None || SymVis(k, w, 2) == Some(2);
    assert SymTri(k, w, 2) == None && SymTri(k, w, 3) == None;
    assert ChoiceVis(k, w, 0) == Some(2);
    assert FirstVisible(w, [0, 1, 2], 1) == None;
    assert FirstVisible(w, [0, 1, 2], 0) == None;
    assert DefaultSel(k, w, [], 0) == Some(None);
    assert ChoiceSel(k, w, 0) == None;
  }

  lemma OnePrompt(k: Kconf, w: State, prompts: seq<Expr>)
    requires |prompts| == 1
    ensures PromptVis(k, w, prompts, 1) == ExprVal(k, w, prompts[0])
  {
    assert PromptVis(k, w, prompts, 0) == Some(0);
  }

  lemma {:induction false} FreshStuck(u: State, depth: nat)
    requires Fits(StuckTree(), u) && u.choices[0].picked.None?
    ensures Stuck(Fresh(StuckTree(), u, depth))
  {
    if depth == 0 {
      assert Fresh(StuckTree(), u, 0) == Blank(u);
    } else {
      FreshStuck(u, depth - 1);
      StepStuck(Fresh(StuckTree(), u, depth - 1));
    }
  }

  /** However deep the recursion, the selection of the choice stays unknown although the check passes. */
  lemma PassedButStuck(u: State, depth: nat)
    requires Fits(StuckTree(), u) && u.choices[0].picked.None?
    ensures Built(StuckTree(), MissedGraph()) && Check(MissedGraph()).1.NoLoop?
    ensures Fresh(StuckTree(), u, depth).choices[0].sel.None?
  {
    FreshStuck(u, depth);
    DepLoopMissed();
    StuckBuilt();
  }

  lemma StuckBuilt()
    ensures Built(StuckTree(), MissedGraph())
  {
    var k, g := StuckTree(), MissedGraph();
    forall s, y | 0 <= s < |k.syms| ensures y in g.deps[s] <==> DirectlyUses(k, y, s) {
      StuckUses(y, s);
      MissedDeps(y, s);
    }
  }

  lemma MissedDeps(y: Item, s: nat)
    requires s < 4
    ensures y in MissedGraph().deps[s] <==> (s == 2 && y == ISym(3)) || (s == 3 && y == ISym(1))
  {
  }

  lemma StuckUses(y: Item, s: nat)
    ensures DirectlyUses(StuckTree(), y, s) <==> (s == 2 && y == ISym(3)) || (s == 3 && y == ISym(1))
  {
    var k := StuckTree();
    match y
    case ISym(t) => if t < 4 { SymUses(k.syms[t], ISym(s)); }
    case IChoice(c) =>
      if c == 0 { assert PromptsMention(k.choices[0].prompts, ISym(s)) <==> Mentions(k.choices[0].prompts[0], ISym(s)); }
  }

  /** A symbol with one prompt and no other properties mentions what its prompt condition mentions. */
  lemma SymUses(d: Symbol, z: Item)
    requires d.defaults == [] && d.ranges == [] && |d.prompts| == 1
    requires d.revDep.Use? && d.revDep.o.Known? && d.weakRevDep.Use? && d.weakRevDep.o.Known?
    requires d.directDep.Use? && d.directDep.o.Known?
    ensures SymMentions(d, z) <==> Mentions(d.prompts[0], z)
  {
    assert PromptsMention(d.prompts, z) <==> Mentions(d.prompts[0], z);
  }
}
