/**
  What the value rules read.  A rule that succeeds on one table succeeds with the
  same result on every table that keeps the entries of the items it mentions.
  This one fact gives monotonicity (filling in more cache entries), stability
  (dropping entries of unrelated items) and uniqueness of complete tables.
 */
module KconfigReads {
  import opened Common
  import opened KconfigModel

  // ---- Mentions ----

  predicate NamesSym(o: Operand, z: Item) {
    o.Sym? && z == ISym(o.s)
  }

  predicate Mentions(e: Expr, z: Item) {
    match e
    case Use(o) => NamesSym(o, z)
    case Mode(c) => z == IChoice(c)
    case And(l, r) => Mentions(l, z) || Mentions(r, z)
    case Or(l, r) => Mentions(l, z) || Mentions(r, z)
    case Not(x) => Mentions(x, z)
    case Rel(_, a, b) => NamesSym(a, z) || NamesSym(b, z)
  }

  predicate PromptsMention(prompts: seq<Expr>, z: Item) {
    exists i | 0 <= i < |prompts| :: Mentions(prompts[i], z)
  }

  predicate CondsMention<T>(gs: seq<Guarded<T>>, z: Item) {
    exists i | 0 <= i < |gs| :: Mentions(gs[i].cond, z)
  }

  predicate DefaultsMention(gs: seq<Guarded<Expr>>, z: Item) {
    exists i | 0 <= i < |gs| :: Mentions(gs[i].item, z)
  }

  predicate BoundsMention(gs: seq<Guarded<(Operand, Operand)>>, z: Item) {
    exists i | 0 <= i < |gs| :: NamesSym(gs[i].item.0, z) || NamesSym(gs[i].item.1, z)
  }

  /** The dependencies that _build_dep records for a symbol. */
  predicate SymMentions(d: Symbol, z: Item) {
    || PromptsMention(d.prompts, z)
    || CondsMention(d.defaults, z) || DefaultsMention(d.defaults, z)
    || CondsMention(d.ranges, z) || BoundsMention(d.ranges, z)
    || Mentions(d.revDep, z) || Mentions(d.weakRevDep, z) || Mentions(d.directDep, z)
  }

  /** The dependencies that _build_dep records for a choice. */
  predicate ChoiceMentions(d: Choice, z: Item) {
    PromptsMention(d.prompts, z) || CondsMention(d.defaults, z)
  }

  // ---- Tables that keep what another table knows ----

  ghost predicate KeepsValues(w: State, w': State, s: nat) {
    s < |w.syms| ==>
      && s < |w'.syms|
      && (w.syms[s].tri.Some? ==> w'.syms[s].tri == w.syms[s].tri)
      && (w.syms[s].str.Some? ==> w'.syms[s].str == w.syms[s].str)
  }

  ghost predicate KeepsModules(k: Kconf, w: State, w': State) {
    k.modules.Sym? ==> KeepsValues(w, w', k.modules.s)
  }

  /** What an expression can read of an item: both values of a symbol, the mode of a choice. */
  ghost predicate KeepsItem(k: Kconf, w: State, w': State, z: Item) {
    match z
    case ISym(s) => KeepsValues(w, w', s)
    case IChoice(c) => ModeOf(k, w, c).Some? ==> ModeOf(k, w', c) == ModeOf(k, w, c)
  }

  lemma ModeKept(k: Kconf, w: State, w': State, c: nat)
    requires c < |k.choices| && c < |w.choices| && c < |w'.choices|
    requires w'.choices[c].user == w.choices[c].user
    requires w.choices[c].vis.Some? ==> w'.choices[c].vis == w.choices[c].vis
    requires k.choices[c].kind == Tristate ==> KeepsModules(k, w, w')
    ensures KeepsItem(k, w, w', IChoice(c))
  {
  }

  ghost predicate KeepsExpr(k: Kconf, w: State, w': State, e: Expr) {
    forall z | Mentions(e, z) :: KeepsItem(k, w, w', z)
  }

  lemma CompareKept(k: Kconf, w: State, w': State, a: Operand, b: Operand)
    requires a.Sym? ==> KeepsValues(w, w', a.s)
    requires b.Sym? ==> KeepsValues(w, w', b.s)
    requires Compare(k, w, a, b).Some?
    ensures Compare(k, w', a, b) == Compare(k, w, a, b)
  {
  }

  lemma {:induction false} ExprKept(k: Kconf, w: State, w': State, e: Expr)
    requires KeepsExpr(k, w, w', e) && ExprVal(k, w, e).Some?
    ensures ExprVal(k, w', e) == ExprVal(k, w, e)
  {
    match e
    case Use(o) =>
      if o.Sym? { assert Mentions(e, ISym(o.s)); }
    case Mode(c) =>
      assert Mentions(e, IChoice(c));
    case And(l, r) =>
      ExprKept(k, w, w', l);
      if ExprVal(k, w, l) != Some(0) { ExprKept(k, w, w', r); }
    case Or(l, r) =>
      ExprKept(k, w, w', l);
      if ExprVal(k, w, l) != Some(2) { ExprKept(k, w, w', r); }
    case Not(x) =>
      ExprKept(k, w, w', x);
    case Rel(_, a, b) =>
      if a.Sym? { assert Mentions(e, ISym(a.s)); }
      if b.Sym? { assert Mentions(e, ISym(b.s)); }
      CompareKept(k, w, w', a, b);
  }

  lemma {:induction false} FirstActiveKept<T>(k: Kconf, w: State, w': State, gs: seq<Guarded<T>>, i: nat)
    requires i <= |gs| && FirstActive(k, w, gs, i).Some?
    requires forall j | i <= j < |gs| :: KeepsExpr(k, w, w', gs[j].cond)
    ensures FirstActive(k, w', gs, i) == FirstActive(k, w, gs, i)
    decreases |gs| - i
  {
    if i < |gs| {
      ExprKept(k, w, w', gs[i].cond);
      if ExprVal(k, w, gs[i].cond) == Some(0) { FirstActiveKept(k, w, w', gs, i + 1); }
    }
  }

  lemma {:induction false} PromptVisKept(k: Kconf, w: State, w': State, prompts: seq<Expr>, n: nat)
    requires n <= |prompts| && PromptVis(k, w, prompts, n).Some?
    requires forall j | 0 <= j < n :: KeepsExpr(k, w, w', prompts[j])
    ensures PromptVis(k, w', prompts, n) == PromptVis(k, w, prompts, n)
  {
    if n > 0 {
      PromptVisKept(k, w, w', prompts, n - 1);
      ExprKept(k, w, w', prompts[n - 1]);
    }
  }

  // ---- Symbols ----

  /** Every expression of a symbol, and the mode of its choice, keep their values. */
  ghost predicate KeepsSym(k: Kconf, w: State, w': State, d: Symbol) {
    && (d.kind == Tristate ==> KeepsModules(k, w, w'))
    && forall z | SymMentions(d, z) :: KeepsItem(k, w, w', z)
  }

  /** A symbol whose prompts, if any, are all the constant n: it is never visible. */
  predicate NeverVisible(d: Symbol) {
    forall i | 0 <= i < |d.prompts| :: d.prompts[i] == Use(Known(0))
  }

  /** The choice of a symbol is among its dependencies unless the symbol can never be visible. */
  predicate InsideItsChoice(d: Symbol) {
    d.choice.Some? ==> NeverVisible(d) || SymMentions(d, IChoice(d.choice.value))
  }

  lemma {:induction false} NeverVisibleVis(k: Kconf, w: State, prompts: seq<Expr>, n: nat)
    requires n <= |prompts|
    requires forall i | 0 <= i < |prompts| :: prompts[i] == Use(Known(0))
    ensures PromptVis(k, w, prompts, n) == Some(0)
  {
    if n > 0 { NeverVisibleVis(k, w, prompts, n - 1); }
  }

  lemma KeepsSymExprs(k: Kconf, w: State, w': State, d: Symbol)
    requires KeepsSym(k, w, w', d)
    ensures forall j | 0 <= j < |d.prompts| :: KeepsExpr(k, w, w', d.prompts[j])
    ensures forall j | 0 <= j < |d.defaults| ::
              KeepsExpr(k, w, w', d.defaults[j].cond) && KeepsExpr(k, w, w', d.defaults[j].item)
    ensures forall j | 0 <= j < |d.ranges| :: KeepsExpr(k, w, w', d.ranges[j].cond)
    ensures forall j, z | 0 <= j < |d.ranges| && (NamesSym(d.ranges[j].item.0, z) || NamesSym(d.ranges[j].item.1, z)) ::
              KeepsItem(k, w, w', z)
    ensures KeepsExpr(k, w, w', d.revDep) && KeepsExpr(k, w, w', d.weakRevDep) && KeepsExpr(k, w, w', d.directDep)
  {
  }

  lemma NotTristateKept(k: Kconf, w: State, w': State, s: nat)
    requires s < |k.syms| && (k.syms[s].kind == Tristate ==> KeepsModules(k, w, w'))
    requires k.syms[s].choice.Some? ==> KeepsItem(k, w, w', IChoice(k.syms[s].choice.value))
    requires NotTristate(k, w, s).Some?
    ensures NotTristate(k, w', s) == NotTristate(k, w, s)
  {
  }

  lemma SymVisKept(k: Kconf, w: State, w': State, s: nat)
    requires s < |k.syms| && KeepsSym(k, w, w', k.syms[s]) && InsideItsChoice(k.syms[s])
    requires SymVis(k, w, s).Some?
    ensures SymVis(k, w', s) == SymVis(k, w, s)
  {
    var d := k.syms[s];
    KeepsSymExprs(k, w, w', d);
    if NeverVisible(d) {
      NeverVisibleVis(k, w, d.prompts, |d.prompts|);
      NeverVisibleVis(k, w', d.prompts, |d.prompts|);
    } else {
      PromptVisKept(k, w, w', d.prompts, |d.prompts|);
    }
  }

  lemma DefaultTriKept(k: Kconf, w: State, w': State, d: Symbol)
    requires KeepsSym(k, w, w', d) && DefaultTri(k, w, d.defaults).Some?
    ensures DefaultTri(k, w', d.defaults) == DefaultTri(k, w, d.defaults)
  {
    KeepsSymExprs(k, w, w', d);
    FirstActiveKept(k, w, w', d.defaults, 0);
    var i := FirstActive(k, w, d.defaults, 0).value;
    if i < |d.defaults| {
      ExprKept(k, w, w', d.defaults[i].cond);
      ExprKept(k, w, w', d.defaults[i].item);
    }
  }

  /** The own entries of a symbol that its value rules read agree. */
  ghost predicate SameSelf(k: Kconf, w: State, w': State, s: nat)
    requires s < |k.syms| && s < |w.syms| && s < |w'.syms|
  {
    && (w.syms[s].vis.Some? ==> w'.syms[s].vis == w.syms[s].vis)
    && (w.syms[s].vis.Some? && w.syms[s].vis.value > 0 ==> w'.syms[s].user == w.syms[s].user)
    && (k.syms[s].choice.Some? && w.syms[s].vis.Some? && w.syms[s].vis.value > 0 && SelOf(w, k.syms[s].choice.value).Some? ==>
          SelOf(w', k.syms[s].choice.value) == SelOf(w, k.syms[s].choice.value))
    && (k.syms[s].choice.Some? && w.syms[s].vis.Some? && w.syms[s].vis.value > 0 ==>
          KeepsItem(k, w, w', IChoice(k.syms[s].choice.value)))
  }

  lemma SymTriKept(k: Kconf, w: State, w': State, s: nat)
    requires s < |k.syms| && s < |w.syms| && s < |w'.syms|
    requires KeepsSym(k, w, w', k.syms[s]) && SameSelf(k, w, w', s)
    requires SymTri(k, w, s).Some?
    ensures SymTri(k, w', s) == SymTri(k, w, s)
  {
    if k.syms[s].choice.None? { PlainTriKept(k, w, w', s, w.syms[s].vis.value); }
  }

  lemma ImpliedKept(k: Kconf, w: State, w': State, s: nat, val: Tri, write: bool)
    requires s < |k.syms| && KeepsSym(k, w, w', k.syms[s]) && ImpliedTri(k, w, s, val, write).Some?
    ensures ImpliedTri(k, w', s, val, write) == ImpliedTri(k, w, s, val, write)
  {
    KeepsSymExprs(k, w, w', k.syms[s]);
    ExprKept(k, w, w', k.syms[s].weakRevDep);
    if ExprVal(k, w, k.syms[s].weakRevDep) != Some(0) { ExprKept(k, w, w', k.syms[s].directDep); }
  }

  lemma PromotedKept(k: Kconf, w: State, w': State, s: nat, val: Tri)
    requires s < |k.syms| && KeepsSym(k, w, w', k.syms[s]) && PromotedTri(k, w, s, val).Some?
    requires k.syms[s].choice.None?
    ensures PromotedTri(k, w', s, val) == PromotedTri(k, w, s, val)
  {
    KeepsSymExprs(k, w, w', k.syms[s]);
    if val == 1 {
      NotTristateKept(k, w, w', s);
      if NotTristate(k, w, s) == Some(false) { ExprKept(k, w, w', k.syms[s].weakRevDep); }
    }
  }

  lemma BaseTriKept(k: Kconf, w: State, w': State, s: nat, vis: Tri)
    requires s < |k.syms| && s < |w.syms| && s < |w'.syms|
    requires KeepsSym(k, w, w', k.syms[s])
    requires vis > 0 ==> w'.syms[s].user == w.syms[s].user
    requires BaseTri(k, w, s, vis).Some?
    ensures BaseTri(k, w', s, vis) == BaseTri(k, w, s, vis)
  {
    if !(vis > 0 && w.syms[s].user.Some?) {
      DefaultTriKept(k, w, w', k.syms[s]);
      var val := DefaultTri(k, w, k.syms[s].defaults).value;
      ImpliedKept(k, w, w', s, val, vis > 0 || val > 0);
    }
  }

  lemma PlainTriKept(k: Kconf, w: State, w': State, s: nat, vis: Tri)
    requires s < |k.syms| && s < |w.syms| && s < |w'.syms|
    requires KeepsSym(k, w, w', k.syms[s]) && k.syms[s].choice.None?
    requires vis > 0 ==> w'.syms[s].user == w.syms[s].user
    requires PlainTri(k, w, s, vis).Some?
    ensures PlainTri(k, w', s, vis) == PlainTri(k, w, s, vis)
  {
    KeepsSymExprs(k, w, w', k.syms[s]);
    BaseTriKept(k, w, w', s, vis);
    var base := BaseTri(k, w, s, vis).value;
    ExprKept(k, w, w', k.syms[s].revDep);
    PromotedKept(k, w, w', s, SelectedTri(k, w, s, base.0, base.1).value.0);
  }

  lemma StrOfKept(k: Kconf, w: State, w': State, o: Operand)
    requires forall z | NamesSym(o, z) :: KeepsItem(k, w, w', z)
    requires StrOf(k, w, o).Some?
    ensures StrOf(k, w', o) == StrOf(k, w, o)
  {
    if o.Sym? { assert NamesSym(o, ISym(o.s)); }
  }

  lemma ActiveRangeKept(k: Kconf, w: State, w': State, s: nat)
    requires s < |k.syms| && KeepsSym(k, w, w', k.syms[s]) && ActiveRange(k, w, s).Some?
    ensures ActiveRange(k, w', s) == ActiveRange(k, w, s)
  {
    var d := k.syms[s];
    KeepsSymExprs(k, w, w', d);
    FirstActiveKept(k, w, w', d.ranges, 0);
    var i := FirstActive(k, w, d.ranges, 0).value;
    if i < |d.ranges| {
      StrOfKept(k, w, w', d.ranges[i].item.0);
      StrOfKept(k, w, w', d.ranges[i].item.1);
    }
  }

  lemma DefaultStrKept(k: Kconf, w: State, w': State, d: Symbol)
    requires KeepsSym(k, w, w', d) && DefaultStr(k, w, d.defaults).Some?
    ensures DefaultStr(k, w', d.defaults) == DefaultStr(k, w, d.defaults)
  {
    KeepsSymExprs(k, w, w', d);
    FirstActiveKept(k, w, w', d.defaults, 0);
    var i := FirstActive(k, w, d.defaults, 0).value;
    if i < |d.defaults| {
      forall z | NamesSym(d.defaults[i].item.o, z) ensures KeepsItem(k, w, w', z) {
        assert Mentions(d.defaults[i].item, z);
      }
      StrOfKept(k, w, w', d.defaults[i].item.o);
    }
  }

  lemma SymStrKept(k: Kconf, w: State, w': State, s: nat)
    requires s < |k.syms| && s < |w.syms| && s < |w'.syms|
    requires KeepsSym(k, w, w', k.syms[s]) && SameSelf(k, w, w', s)
    requires SymStr(k, w, s).Some?
    ensures SymStr(k, w', s) == SymStr(k, w, s)
  {
    var d := k.syms[s];
    var vis := w.syms[s].vis.value;
    if d.kind == Str {
      if !(vis > 0 && w.syms[s].user.Some?) { DefaultStrKept(k, w, w', d); }
    } else {
      ActiveRangeKept(k, w, w', s);
      NumberStrKept(k, w, w', s, vis);
    }
  }

  lemma NumberStrKept(k: Kconf, w: State, w': State, s: nat, vis: Tri)
    requires s < |k.syms| && s < |w.syms| && s < |w'.syms|
    requires KeepsSym(k, w, w', k.syms[s])
    requires vis > 0 ==> w'.syms[s].user == w.syms[s].user
    requires NumberStr(k, w, s, vis).Some?
    ensures NumberStr(k, w', s, vis) == NumberStr(k, w, s, vis)
  {
    ActiveRangeKept(k, w, w', s);
    if DefaultStr(k, w, k.syms[s].defaults).Some? { DefaultStrKept(k, w, w', k.syms[s]); }
  }

  lemma SymAsnKept(k: Kconf, w: State, w': State, s: nat)
    requires s < |k.syms| && s < |w.syms| && s < |w'.syms|
    requires KeepsSym(k, w, w', k.syms[s]) && SameSelf(k, w, w', s)
    requires SymAsn(k, w, s).Some?
    ensures SymAsn(k, w', s) == SymAsn(k, w, s)
  {
    var d := k.syms[s];
    KeepsSymExprs(k, w, w', d);
    var vis := w.syms[s].vis.value;
    if vis > 0 {
      ExprKept(k, w, w', d.revDep);
      if NotTristate(k, w, s).Some? { NotTristateKept(k, w, w', s); }
      if ExprVal(k, w, d.weakRevDep).Some? { ExprKept(k, w, w', d.weakRevDep); }
    }
  }

  // ---- Choices ----

  ghost predicate KeepsChoice(k: Kconf, w: State, w': State, d: Choice) {
    && (d.kind == Tristate ==> KeepsModules(k, w, w'))
    && forall z | ChoiceMentions(d, z) :: KeepsItem(k, w, w', z)
  }

  lemma KeepsChoiceExprs(k: Kconf, w: State, w': State, d: Choice)
    requires KeepsChoice(k, w, w', d)
    ensures forall j | 0 <= j < |d.prompts| :: KeepsExpr(k, w, w', d.prompts[j])
    ensures forall j | 0 <= j < |d.defaults| :: KeepsExpr(k, w, w', d.defaults[j].cond)
  {
  }

  lemma ChoiceVisKept(k: Kconf, w: State, w': State, c: nat)
    requires c < |k.choices| && KeepsChoice(k, w, w', k.choices[c]) && ChoiceVis(k, w, c).Some?
    ensures ChoiceVis(k, w', c) == ChoiceVis(k, w, c)
  {
    var d := k.choices[c];
    KeepsChoiceExprs(k, w, w', d);
    PromptVisKept(k, w, w', d.prompts, |d.prompts|);
  }

  ghost predicate KeepsVis(w: State, w': State, s: nat) {
    VisOf(w, s).Some? ==> VisOf(w', s) == VisOf(w, s)
  }

  /** The members of a choice, its defaults and its picked symbol keep their visibilities. */
  ghost predicate KeepsMembers(w: State, w': State, d: Choice) {
    && (forall i | 0 <= i < |d.syms| :: KeepsVis(w, w', d.syms[i]))
    && (forall i | 0 <= i < |d.defaults| :: KeepsVis(w, w', d.defaults[i].item))
  }

  lemma {:induction false} DefaultSelKept(k: Kconf, w: State, w': State, d: Choice, i: nat)
    requires i <= |d.defaults| && KeepsChoice(k, w, w', d) && KeepsMembers(w, w', d)
    requires DefaultSel(k, w, d.defaults, i).Some?
    ensures DefaultSel(k, w', d.defaults, i) == DefaultSel(k, w, d.defaults, i)
    decreases |d.defaults| - i
  {
    if i < |d.defaults| {
      KeepsChoiceExprs(k, w, w', d);
      ExprKept(k, w, w', d.defaults[i].cond);
      assert KeepsVis(w, w', d.defaults[i].item);
      if DefaultSel(k, w, d.defaults, i + 1).Some? { DefaultSelKept(k, w, w', d, i + 1); }
    }
  }

  lemma {:induction false} FirstVisibleKept(w: State, w': State, d: Choice, i: nat)
    requires i <= |d.syms| && KeepsMembers(w, w', d)
    requires FirstVisible(w, d.syms, i).Some?
    ensures FirstVisible(w', d.syms, i) == FirstVisible(w, d.syms, i)
    decreases |d.syms| - i
  {
    if i < |d.syms| {
      assert KeepsVis(w, w', d.syms[i]);
      if FirstVisible(w, d.syms, i + 1).Some? { FirstVisibleKept(w, w', d, i + 1); }
    }
  }

  lemma SelFromDefaultsKept(k: Kconf, w: State, w': State, c: nat)
    requires c < |k.choices|
    requires KeepsChoice(k, w, w', k.choices[c]) && KeepsMembers(w, w', k.choices[c])
    requires SelFromDefaults(k, w, c).Some?
    ensures SelFromDefaults(k, w', c) == SelFromDefaults(k, w, c)
  {
    DefaultSelKept(k, w, w', k.choices[c], 0);
    if FirstVisible(w, k.choices[c].syms, 0).Some? { FirstVisibleKept(w, w', k.choices[c], 0); }
  }

  lemma ChoiceSelKept(k: Kconf, w: State, w': State, c: nat)
    requires c < |k.choices| && c < |w.choices| && c < |w'.choices|
    requires KeepsItem(k, w, w', IChoice(c)) && w'.choices[c].picked == w.choices[c].picked
    requires KeepsChoice(k, w, w', k.choices[c]) && KeepsMembers(w, w', k.choices[c])
    requires w.choices[c].picked.Some? ==> KeepsVis(w, w', w.choices[c].picked.value)
    requires ChoiceSel(k, w, c).Some?
    ensures ChoiceSel(k, w', c) == ChoiceSel(k, w, c)
  {
    if SelFromDefaults(k, w, c).Some? { SelFromDefaultsKept(k, w, w', c); }
  }

  lemma ChoiceAsnKept(k: Kconf, w: State, w': State, c: nat)
    requires c < |k.choices| && c < |w.choices| && c < |w'.choices|
    requires w.choices[c].vis.Some? ==> w'.choices[c].vis == w.choices[c].vis
    requires k.choices[c].kind == Tristate ==> KeepsModules(k, w, w')
    requires ChoiceAsn(k, w, c).Some?
    ensures ChoiceAsn(k, w', c) == ChoiceAsn(k, w, c)
  {
  }
}
