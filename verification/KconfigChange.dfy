/**
  What a change of settings can change: only items that depend, possibly
  indirectly, on an item whose settings changed.  And which values a user can
  give an item, compared with the values it then has.
 */
module KconfigChange {
  import opened Common
  import opened KconfigModel
  import opened KconfigReads
  import opened KconfigValues
  import opened KconfigCaching
  import opened KconfigInvalidate
  import opened KconfigMeaning

  predicate IsTristate(k: Kconf, z: Item) {
    match z
    case ISym(s) => s < |k.syms| && k.syms[s].kind == Tristate
    case IChoice(c) => c < |k.choices| && k.choices[c].kind == Tristate
  }

  /** y reads z; tristate items also read the modules symbol. */
  ghost predicate Uses(k: Kconf, y: Item, z: Item) {
    DependsOn(k, y, z) || (IsModules(k, z) && IsTristate(k, y))
  }

  /** Whatever reads an item of `gone` is in it. */
  ghost predicate Closed(k: Kconf, gone: set<Item>) {
    forall y, z | InTree(k, y) && z in gone && Uses(k, y, z) :: y in gone
  }

  ghost predicate SameOutside(k: Kconf, w: State, w': State, gone: set<Item>) {
    && Fits(k, w) && Fits(k, w')
    && (forall s | 0 <= s < |k.syms| && ISym(s) !in gone :: w'.syms[s].user == w.syms[s].user)
    && (forall c | 0 <= c < |k.choices| && IChoice(c) !in gone ::
          w'.choices[c].user == w.choices[c].user && w'.choices[c].picked == w.choices[c].picked)
  }

  /** The entries of w outside `gone`, under the settings of w'. */
  ghost function Remaining(k: Kconf, w: State, w': State, gone: set<Item>): (u: State)
    requires SameOutside(k, w, w', gone)
    ensures Fits(k, u) && SameUser(u, w')
  {
    State(seq(|w.syms|, s requires 0 <= s < |w.syms| => if ISym(s) in gone then ClearSym(w'.syms[s]) else w.syms[s]),
          seq(|w.choices|, c requires 0 <= c < |w.choices| => if IChoice(c) in gone then ClearChoice(w'.choices[c]) else w.choices[c]))
  }

  /** Two complete tables whose settings differ only inside a closed set. */
  ghost predicate Changed(k: Kconf, w: State, w': State, gone: set<Item>) {
    && Complete(k, w) && Complete(k, w') && PicksMembers(k, w) && PicksMembers(k, w')
    && Closed(k, gone) && SameOutside(k, w, w', gone)
  }

  lemma RemainingModules(k: Kconf, w: State, w': State, gone: set<Item>, y: Item)
    requires Changed(k, w, w', gone) && InTree(k, y) && y !in gone && IsTristate(k, y)
    ensures KeepsModules(k, w, Remaining(k, w, w', gone))
  {
    assert k.modules.Sym? ==> Uses(k, y, ISym(k.modules.s));
  }

  lemma RemainingItem(k: Kconf, w: State, w': State, gone: set<Item>, z: Item)
    requires Changed(k, w, w', gone) && InTree(k, z) && z !in gone
    ensures KeepsItem(k, w, Remaining(k, w, w', gone), z)
  {
    if z.IChoice? {
      if k.choices[z.c].kind == Tristate { RemainingModules(k, w, w', gone, z); }
      ModeKept(k, w, Remaining(k, w, w', gone), z.c);
    }
  }

  lemma RemainingSym(k: Kconf, w: State, w': State, gone: set<Item>, s: nat)
    requires Changed(k, w, w', gone) && s < |k.syms|
    ensures SymJustified(k, Remaining(k, w, w', gone), s)
  {
    var u, d := Remaining(k, w, w', gone), k.syms[s];
    if ISym(s) !in gone {
      assert SymJustified(k, w, s) && SymFull(w.syms[s]) && SymWellFormed(k, d);
      forall z | SymMentions(d, z) ensures KeepsItem(k, w, u, z) {
        assert InTree(k, z) && Uses(k, ISym(s), z);
        RemainingItem(k, w, w', gone, z);
      }
      if d.kind == Tristate { RemainingModules(k, w, w', gone, ISym(s)); }
      SymVisKept(k, w, u, s);
      if NeverVisible(d) {
        NeverVisibleVis(k, w, d.prompts, |d.prompts|);
      } else if d.choice.Some? {
        assert Uses(k, ISym(s), IChoice(d.choice.value));
        RemainingItem(k, w, w', gone, IChoice(d.choice.value));
      }
      if SymTri(k, w, s).Some? { SymTriKept(k, w, u, s); }
      if SymStr(k, w, s).Some? { SymStrKept(k, w, u, s); }
      if SymAsn(k, w, s).Some? { SymAsnKept(k, w, u, s); }
    }
  }

  lemma RemainingChoice(k: Kconf, w: State, w': State, gone: set<Item>, c: nat)
    requires Changed(k, w, w', gone) && c < |k.choices|
    ensures ChoiceJustified(k, Remaining(k, w, w', gone), c)
  {
    var u, d := Remaining(k, w, w', gone), k.choices[c];
    if IChoice(c) !in gone {
      assert ChoiceJustified(k, w, c) && ChoiceFull(w.choices[c]) && ChoiceWellFormed(k, c);
      forall z | ChoiceMentions(d, z) ensures KeepsItem(k, w, u, z) {
        assert InTree(k, z) && Uses(k, IChoice(c), z);
        RemainingItem(k, w, w', gone, z);
      }
      if d.kind == Tristate { RemainingModules(k, w, w', gone, IChoice(c)); }
      RemainingItem(k, w, w', gone, IChoice(c));
      forall m | m in d.syms ensures KeepsVis(w, u, m) {
        MemberInTree(k, c, m);
        assert Uses(k, IChoice(c), ISym(m));
      }
      assert KeepsMembers(w, u, d);
      ChoiceVisKept(k, w, u, c);
      ChoiceSelKept(k, w, u, c);
      ChoiceAsnKept(k, w, u, c);
    }
  }

  /** Outside the dependents of what changed, every entry stays as it is. */
  lemma ChangeStays(k: Kconf, rank: Item -> nat, top: nat, w: State, w': State, gone: set<Item>)
    requires Ranked(k, rank, top) && Changed(k, w, w', gone)
    ensures forall s | 0 <= s < |k.syms| && ISym(s) !in gone :: SameSym(w, w', s)
    ensures forall c | 0 <= c < |k.choices| && IChoice(c) !in gone :: SameChoice(w, w', c)
  {
    var u := Remaining(k, w, w', gone);
    forall s | 0 <= s < |k.syms| ensures SymJustified(k, u, s) { RemainingSym(k, w, w', gone, s); }
    forall c | 0 <= c < |k.choices| ensures ChoiceJustified(k, u, c) { RemainingChoice(k, w, w', gone, c); }
    JustifiedAgrees(k, rank, top, u, w');
    forall s | 0 <= s < |k.syms| && ISym(s) !in gone ensures SameSym(w, w', s) {
      assert SymAgrees(k, u, w', s) && SymFull(w.syms[s]);
    }
    forall c | 0 <= c < |k.choices| && IChoice(c) !in gone ensures SameChoice(w, w', c) {
      assert ChoiceAgrees(u, w', c) && ChoiceFull(w.choices[c]);
    }
  }

  ghost predicate SameSym(w: State, w': State, s: nat)
    requires s < |w.syms| && s < |w'.syms|
  {
    var x, y := w.syms[s], w'.syms[s];
    y.vis == x.vis && y.tri == x.tri && y.str == x.str && y.asn == x.asn
  }

  ghost predicate SameChoice(w: State, w': State, c: nat)
    requires c < |w.choices| && c < |w'.choices|
  {
    var x, y := w.choices[c], w'.choices[c];
    y.vis == x.vis && y.sel == x.sel && y.asn == x.asn
  }

  // ---- The values that can be assigned ----

  ghost function FromRank(k: Kconf, rank: Item -> nat, r: nat): set<Item> {
    (set s | 0 <= s < |k.syms| && rank(ISym(s)) >= r :: ISym(s)) +
    (set c | 0 <= c < |k.choices| && rank(IChoice(c)) >= r :: IChoice(c))
  }

  lemma FromRankClosed(k: Kconf, rank: Item -> nat, top: nat, r: nat)
    requires WellFormed(k) && Ranked(k, rank, top)
    ensures Closed(k, FromRank(k, rank, r))
  {
    forall y, z | InTree(k, y) && z in FromRank(k, rank, r) && Uses(k, y, z) ensures y in FromRank(k, rank, r) {
      match y
      case ISym(s) => assert SymRanked(k, rank, s);
      case IChoice(c) =>
        assert ChoiceRanked(k, rank, c);
        if z.ISym? && z.s in k.choices[c].syms {
          MemberInTree(k, c, z.s);
          assert SymRanked(k, rank, z.s);
        }
    }
  }

  /** What ranks below the change keeps its values and modes. */
  lemma BelowKept(k: Kconf, rank: Item -> nat, top: nat, w: State, w': State, r: nat)
    requires Ranked(k, rank, top) && Complete(k, w) && Complete(k, w') && PicksMembers(k, w) && PicksMembers(k, w')
    requires SameOutside(k, w, w', FromRank(k, rank, r))
    ensures forall z | InTree(k, z) && rank(z) < r :: KeepsItem(k, w, w', z)
    ensures k.modules.Sym? && rank(ISym(k.modules.s)) < r ==> KeepsModules(k, w, w')
  {
    FromRankClosed(k, rank, top, r);
    ChangeStays(k, rank, top, w, w', FromRank(k, rank, r));
    forall z | InTree(k, z) && rank(z) < r ensures KeepsItem(k, w, w', z) { BelowItem(k, rank, top, w, w', r, z); }
  }

  lemma BelowItem(k: Kconf, rank: Item -> nat, top: nat, w: State, w': State, r: nat, z: Item)
    requires WellFormed(k) && Ranked(k, rank, top) && SameOutside(k, w, w', FromRank(k, rank, r))
    requires forall s | 0 <= s < |k.syms| && ISym(s) !in FromRank(k, rank, r) :: SameSym(w, w', s)
    requires forall c | 0 <= c < |k.choices| && IChoice(c) !in FromRank(k, rank, r) :: SameChoice(w, w', c)
    requires InTree(k, z) && rank(z) < r
    ensures KeepsItem(k, w, w', z)
  {
    if z.ISym? {
      assert SameSym(w, w', z.s);
    } else {
      assert SameChoice(w, w', z.c) && ChoiceRanked(k, rank, z.c);
      assert k.modules.Sym? && k.choices[z.c].kind == Tristate ==> SameSym(w, w', k.modules.s);
      ModeKept(k, w, w', z.c);
    }
  }

  /** w' is w after the user has given symbol s the value t. */
  ghost predicate AfterGiving(k: Kconf, rank: Item -> nat, top: nat, w: State, w': State, s: nat, t: Tri) {
    && Ranked(k, rank, top) && PlainBool(k, w, s) && PlainBool(k, w', s) && PicksMembers(k, w)
    && SameOutside(k, w, w', {ISym(s)}) && w'.syms[s].user == Some(Num(t))
  }

  lemma GivingKeepsInputs(k: Kconf, rank: Item -> nat, top: nat, w: State, w': State, s: nat, t: Tri)
    requires AfterGiving(k, rank, top, w, w', s, t)
    ensures w'.syms[s].vis == w.syms[s].vis && w.syms[s].vis.Some?
    ensures Val(k, w', k.syms[s].revDep) == Val(k, w, k.syms[s].revDep)
    ensures Val(k, w', k.syms[s].weakRevDep) == Val(k, w, k.syms[s].weakRevDep)
    ensures NoM(k, w', k.syms[s].kind) <==> NoM(k, w, k.syms[s].kind)
  {
    var d := k.syms[s];
    assert ISym(s) in FromRank(k, rank, rank(ISym(s)));
    BelowKept(k, rank, top, w, w', rank(ISym(s)));
    assert SymRanked(k, rank, s) && SymWellFormed(k, d);
    assert KeepsSym(k, w, w', d);
    KeepsSymExprs(k, w, w', d);
    PlainInputs(k, w, s);
    ExprKept(k, w, w', d.revDep);
    ExprKept(k, w, w', d.weakRevDep);
    assert SymJustified(k, w, s) && SymJustified(k, w', s) && SymFull(w'.syms[s]);
    SymVisKept(k, w, w', s);
  }

  /** Implied to y, selected and visible as m: the symbol is y whatever the user says. */
  ghost predicate Contested(k: Kconf, w: State, s: nat)
    requires s < |k.syms| && s < |w.syms|
  {
    w.syms[s].vis == Some(1) && Val(k, w, k.syms[s].revDep) == 1 && Val(k, w, k.syms[s].weakRevDep) == 2
  }

  /**
    A value of a visible symbol can be assigned exactly if the symbol has it after
    the user has given it, unless the symbol is contested: then m is offered, and
    whatever the user gives, the symbol is y.
   */
  lemma AssignableRespected(k: Kconf, rank: Item -> nat, top: nat, w: State, w': State, s: nat, t: Tri)
    requires AfterGiving(k, rank, top, w, w', s, t) && w.syms[s].vis != Some(0)
    ensures w.syms[s].asn.Some?
    ensures !Contested(k, w, s) ==> (t in w.syms[s].asn.value <==> w'.syms[s].tri == Some(t))
    ensures Contested(k, w, s) ==> w.syms[s].asn == Some([1]) && w'.syms[s].tri == Some(2)
  {
    GivingKeepsInputs(k, rank, top, w, w', s, t);
    UserValue(k, w', s, t);
    PlainInputs(k, w, s);
    assert SymJustified(k, w, s) && SymFull(w.syms[s]);
  }

  /** The values offered come in ascending order, and a hidden symbol offers none. */
  lemma AssignableSorted(k: Kconf, w: State, s: nat)
    requires Complete(k, w) && s < |k.syms|
    ensures w.syms[s].asn.Some?
    ensures forall i, j | 0 <= i < j < |w.syms[s].asn.value| :: w.syms[s].asn.value[i] < w.syms[s].asn.value[j]
    ensures w.syms[s].vis == Some(0) ==> w.syms[s].asn == Some([])
  {
    assert SymFull(w.syms[s]) && SymJustified(k, w, s);
  }

  /** A visible symbol of a choice in y mode offers y only. */
  lemma MemberAssignable(k: Kconf, w: State, s: nat)
    requires Complete(k, w) && s < |k.syms| && BoolLike(k.syms[s].kind) && k.syms[s].choice.Some? && w.syms[s].vis == Some(2)
    ensures w.syms[s].asn == Some([2])
  {
    CompleteHas(k, w);
    assert SymFull(w.syms[s]) && SymJustified(k, w, s);
  }

  /** w' is w after the user has given choice c the mode t. */
  ghost predicate AfterMode(k: Kconf, rank: Item -> nat, top: nat, w: State, w': State, c: nat, t: Tri) {
    && Ranked(k, rank, top) && Complete(k, w) && Complete(k, w') && PicksMembers(k, w) && c < |k.choices|
    && BoolLike(k.choices[c].kind) && SameOutside(k, w, w', {IChoice(c)})
    && w'.choices[c].user == Some(t) && w'.choices[c].picked == w.choices[c].picked
  }

  lemma ModeKeepsInputs(k: Kconf, rank: Item -> nat, top: nat, w: State, w': State, c: nat, t: Tri)
    requires AfterMode(k, rank, top, w, w', c, t)
    ensures w'.choices[c].vis == w.choices[c].vis && w.choices[c].vis.Some?
    ensures NoM(k, w', k.choices[c].kind) <==> NoM(k, w, k.choices[c].kind)
  {
    var d := k.choices[c];
    assert IChoice(c) in FromRank(k, rank, rank(IChoice(c)));
    BelowKept(k, rank, top, w, w', rank(IChoice(c)));
    assert ChoiceRanked(k, rank, c);
    assert KeepsChoice(k, w, w', d);
    assert ChoiceFull(w.choices[c]) && ChoiceJustified(k, w, c) && ChoiceJustified(k, w', c) && ChoiceFull(w'.choices[c]);
    CompleteHas(k, w);
    ChoiceVisKept(k, w, w', c);
  }

  /** A mode of a visible choice can be assigned exactly if the choice has it after the user has given it. */
  lemma ModeAssignableRespected(k: Kconf, rank: Item -> nat, top: nat, w: State, w': State, c: nat, t: Tri)
    requires AfterMode(k, rank, top, w, w', c, t) && w.choices[c].vis != Some(0)
    ensures w.choices[c].asn.Some?
    ensures t in w.choices[c].asn.value <==> ModeOf(k, w', c) == Some(t)
  {
    ModeKeepsInputs(k, rank, top, w, w', c, t);
    ModeMeaning(k, w', c);
    CompleteHas(k, w);
    assert ChoiceFull(w.choices[c]) && ChoiceJustified(k, w, c);
  }

  // ---- A contested symbol ----

  /** With modules: a tristate symbol shown as m, selected as m and implied as y. */
  function ContestedTree(): Kconf {
    Kconf([Symbol("MODULES", Bool, None, [], [Guarded(Use(Known(2)), Use(Known(2)))], [],
                  Use(Known(0)), Use(Known(0)), Use(Known(2)), false),
           Symbol("A", Tristate, None, [Use(Known(1))], [], [], Use(Known(1)), Use(Known(2)), Use(Known(2)), false)],
          [], Sym(0), Numbers((s, b) => None, (n, kind) => ""))
  }

  function ContestedTable(user: Option<Value>): State {
    State([SymState(None, Some(0), Some(2), Some("y"), Some([]), true, false, {}),
           SymState(user, Some(1), Some(2), Some("y"), Some([1]), true, false, {})], [])
  }

  lemma ContestedTreeOk(k: Kconf)
    requires k == ContestedTree()
    ensures WellFormed(k)
  {
    assert forall z :: !SymMentions(k.syms[0], z) && !SymMentions(k.syms[1], z);
  }

  lemma ContestedSym(k: Kconf, w: State, user: Option<Value>)
    requires k == ContestedTree() && w == ContestedTable(user) && (user == None || user == Some(Num(1)))
    ensures SymJustified(k, w, 1)
  {
    assert PromptVis(k, w, k.syms[1].prompts, 0) == Some(0);
    assert SymVis(k, w, 1) == Some(1);
    assert FirstActive(k, w, k.syms[1].defaults, 0) == Some(0);
    assert SymTri(k, w, 1) == Some((2, true));
  }

  lemma ContestedModules(k: Kconf, w: State, user: Option<Value>)
    requires k == ContestedTree() && w == ContestedTable(user)
    ensures SymJustified(k, w, 0)
  {
    assert SymVis(k, w, 0) == Some(0);
    assert FirstActive(k, w, k.syms[0].defaults, 0) == Some(0);
    assert SymTri(k, w, 0) == Some((2, true));
  }

  /** Its only assignable value is m, and with the user value m it is y. */
  lemma ContestedExample(user: Option<Value>)
    requires user == None || user == Some(Num(1))
    ensures Complete(ContestedTree(), ContestedTable(user)) && Contested(ContestedTree(), ContestedTable(user), 1)
  {
    var k, w := ContestedTree(), ContestedTable(user);
    ContestedTreeOk(k);
    ContestedModules(k, w, user);
    ContestedSym(k, w, user);
  }
}
