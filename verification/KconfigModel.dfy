/**
  A compiled Kconfig tree (symbols, choices and the expressions between them)
  and the rules that give every item its value.

  Every rule reads a `State`: the user's settings plus a table of cached values,
  each of which may be missing.  A rule returns None exactly when it needs a
  value the table does not hold, so one set of rules serves as the definition of
  the values (read a complete table) and as the meaning of a cache (read a
  partial one).  `&&` and `||` short-circuit, so a rule may succeed although
  some item it mentions has no cached value.
 */
module KconfigModel {
  import opened Common

  datatype Kind = Unknown | Bool | Tristate | Str | Int | Hex

  /** A symbol reference: the constants n/m/y, a quoted or undefined name, or a defined symbol. */
  datatype Operand = Known(t: Tri) | Text(name: string) | Sym(s: nat)

  datatype RelOp = Equal | Unequal | Less | LessEqual | Greater | GreaterEqual

  /** Mode(c) is a choice standing in for a symbol; its value is the mode of the choice. */
  datatype Expr =
    | Use(o: Operand)
    | Mode(c: nat)
    | And(l: Expr, r: Expr)
    | Or(l: Expr, r: Expr)
    | Not(e: Expr)
    | Rel(op: RelOp, a: Operand, b: Operand)

  datatype Guarded<+T> = Guarded(item: T, cond: Expr)

  datatype Symbol = Symbol(
    name: string,
    kind: Kind,
    choice: Option<nat>,
    prompts: seq<Expr>,             // conditions of the menu nodes that have a prompt
    defaults: seq<Guarded<Expr>>,
    ranges: seq<Guarded<(Operand, Operand)>>,
    revDep: Expr,
    weakRevDep: Expr,
    directDep: Expr,
    unwritten: bool)                // set from the environment, or the defconfig_list symbol

  datatype Choice = Choice(
    kind: Kind,
    optional: bool,
    syms: seq<nat>,
    prompts: seq<Expr>,
    defaults: seq<Guarded<nat>>)

  /** int() and the number formatting of the host language. */
  datatype Numbers = Numbers(parse: (string, nat) -> Option<int>, show: (int, Kind) -> string)

  datatype Kconf = Kconf(syms: seq<Symbol>, choices: seq<Choice>, modules: Operand, numbers: Numbers)

  datatype Item = ISym(s: nat) | IChoice(c: nat)

  datatype Value = Num(n: int) | Txt(s: string)

  datatype SymState = SymState(
    user: Option<Value>,
    vis: Option<Tri>,
    tri: Option<Tri>,
    str: Option<string>,
    asn: Option<seq<Tri>>,
    write: bool,
    wasSet: bool,
    dependents: set<Item>)

  datatype ChoiceState = ChoiceState(
    user: Option<Tri>,
    picked: Option<nat>,
    vis: Option<Tri>,
    sel: Option<Option<nat>>,
    asn: Option<seq<Tri>>,
    wasSet: bool,
    dependents: set<Item>)

  datatype State = State(syms: seq<SymState>, choices: seq<ChoiceState>)

  predicate BoolLike(kind: Kind) {
    kind == Bool || kind == Tristate
  }

  predicate Fits(k: Kconf, w: State) {
    |w.syms| == |k.syms| && |w.choices| == |k.choices|
  }

  // ---- Reading single operands ----

  function KindOf(k: Kconf, o: Operand): Kind {
    match o
    case Known(_) => Tristate
    case Text(_) => Unknown
    case Sym(s) => if s < |k.syms| then k.syms[s].kind else Unknown
  }

  function TriOf(k: Kconf, w: State, o: Operand): Option<Tri> {
    match o
    case Known(t) => Some(t)
    case Text(_) => Some(0)
    case Sym(s) =>
      if s < |k.syms| && s < |w.syms| then
        if BoolLike(k.syms[s].kind) then w.syms[s].tri else Some(0)
      else None
  }

  function StrOf(k: Kconf, w: State, o: Operand): Option<string> {
    match o
    case Known(t) => Some(TriName(t))
    case Text(name) => Some(name)
    case Sym(s) =>
      if s < |k.syms| && s < |w.syms| then
        if k.syms[s].kind == Unknown then Some(k.syms[s].name) else w.syms[s].str
      else None
  }

  function Base(kind: Kind): nat {
    if kind == Hex then 16 else if kind == Int then 10 else 0
  }

  /** Some(None) is a symbol whose value does not parse as a number. */
  function NumOf(k: Kconf, w: State, o: Operand): Option<Option<int>> {
    if BoolLike(KindOf(k, o)) then
      var t :- TriOf(k, w, o);
      Some(Some(t))
    else
      var s :- StrOf(k, w, o);
      Some(k.numbers.parse(s, Base(KindOf(k, o))))
  }

  function LexCompare(k: Kconf, w: State, a: Operand, b: Operand): Option<int> {
    var s :- StrOf(k, w, a);
    var t :- StrOf(k, w, b);
    Some(StrCmp(s, t))
  }

  function Compare(k: Kconf, w: State, a: Operand, b: Operand): Option<int> {
    if KindOf(k, a) == Str && KindOf(k, b) == Str then LexCompare(k, w, a, b)
    else
      var x :- NumOf(k, w, a);
      if x.None? then LexCompare(k, w, a, b)
      else
        var y :- NumOf(k, w, b);
        if y.None? then LexCompare(k, w, a, b) else Some(x.value - y.value)
  }

  predicate Holds(op: RelOp, comp: int) {
    match op
    case Equal => comp == 0
    case Unequal => comp != 0
    case Less => comp < 0
    case LessEqual => comp <= 0
    case Greater => comp > 0
    case GreaterEqual => comp >= 0
  }

  // ---- Choice modes and expressions ----

  function ModulesOff(k: Kconf, w: State): Option<bool> {
    var t :- TriOf(k, w, k.modules);
    Some(t == 0)
  }

  function ModeOf(k: Kconf, w: State, c: nat): Option<Tri> {
    if c < |k.choices| && c < |w.choices| then
      var vis :- w.choices[c].vis;
      var floor: Tri := if k.choices[c].optional then 0 else 1;
      var wanted: Tri := if w.choices[c].user.Some? then Max(floor, w.choices[c].user.value) else floor;
      var mode: Tri := Min(wanted, vis);
      if mode != 1 then Some(mode)
      else if k.choices[c].kind == Bool then Some(2)
      else if k.choices[c].kind == Tristate then
        var off :- ModulesOff(k, w);
        if off then Some(2) else Some(1)
      else Some(1)
    else None
  }

  function ExprVal(k: Kconf, w: State, e: Expr): Option<Tri> {
    match e
    case Use(o) => TriOf(k, w, o)
    case Mode(c) => ModeOf(k, w, c)
    case And(l, r) =>
      var a :- ExprVal(k, w, l);
      if a == 0 then Some(0)
      else
        var b :- ExprVal(k, w, r);
        Some(Min(a, b))
    case Or(l, r) =>
      var a :- ExprVal(k, w, l);
      if a == 2 then Some(2)
      else
        var b :- ExprVal(k, w, r);
        Some(Max(a, b))
    case Not(x) =>
      var a :- ExprVal(k, w, x);
      Some(2 - a)
    case Rel(op, a, b) =>
      var comp :- Compare(k, w, a, b);
      Some(if Holds(op, comp) then 2 else 0)
  }

  /** The index of the first entry from i on whose condition is not n; |gs| when there is none. */
  function FirstActive<T>(k: Kconf, w: State, gs: seq<Guarded<T>>, i: nat): (r: Option<nat>)
    requires i <= |gs|
    ensures r.Some? ==> i <= r.value <= |gs|
    decreases |gs| - i
  {
    if i == |gs| then Some(i)
    else
      var v :- ExprVal(k, w, gs[i].cond);
      if v > 0 then Some(i) else FirstActive(k, w, gs, i + 1)
  }

  // ---- Visibility ----

  /** The largest of the first n prompt conditions. */
  function PromptVis(k: Kconf, w: State, prompts: seq<Expr>, n: nat): Option<Tri>
    requires n <= |prompts|
  {
    if n == 0 then Some(0)
    else
      var rest :- PromptVis(k, w, prompts, n - 1);
      var v :- ExprVal(k, w, prompts[n - 1]);
      Some(Max(rest, v))
  }

  /** Whether the type of a symbol (with the choice and modules adjustments) is not tristate. */
  function NotTristate(k: Kconf, w: State, s: nat): Option<bool>
    requires s < |k.syms|
  {
    if k.syms[s].kind != Tristate then Some(true)
    else if k.syms[s].choice.Some? then
      var mode :- ModeOf(k, w, k.syms[s].choice.value);
      if mode == 2 then Some(true) else ModulesOff(k, w)
    else ModulesOff(k, w)
  }

  function ChoiceKind(k: Kconf, c: nat): Kind {
    if c < |k.choices| then k.choices[c].kind else Unknown
  }

  /** The choice rules and the promotion of m, applied to a prompt visibility. */
  function SymVisFrom(k: Kconf, w: State, s: nat, raw: Tri): Option<Tri>
    requires s < |k.syms|
  {
    var d := k.syms[s];
    if raw == 0 then Some(0)
    else
      var narrowed :- (
        if d.choice.None? then Some(raw)
        else if ChoiceKind(k, d.choice.value) == Tristate && d.kind != Tristate then
          var mode :- ModeOf(k, w, d.choice.value);
          Some(if mode != 2 then 0 as Tri else raw)
        else if d.kind == Tristate && raw == 1 then
          var mode :- ModeOf(k, w, d.choice.value);
          Some(if mode == 2 then 0 as Tri else raw)
        else Some(raw));
      if narrowed != 1 then Some(narrowed)
      else
        var promote :- NotTristate(k, w, s);
        Some(if promote then 2 as Tri else 1)
  }

  function SymVis(k: Kconf, w: State, s: nat): Option<Tri>
    requires s < |k.syms|
  {
    var raw :- PromptVis(k, w, k.syms[s].prompts, |k.syms[s].prompts|);
    SymVisFrom(k, w, s, raw)
  }

  function ChoiceNotTristate(k: Kconf, w: State, c: nat): Option<bool>
    requires c < |k.choices|
  {
    if k.choices[c].kind != Tristate then Some(true) else ModulesOff(k, w)
  }

  function ChoiceVis(k: Kconf, w: State, c: nat): Option<Tri>
    requires c < |k.choices|
  {
    var raw :- PromptVis(k, w, k.choices[c].prompts, |k.choices[c].prompts|);
    if raw != 1 then Some(raw)
    else
      var promote :- ChoiceNotTristate(k, w, c);
      Some(if promote then 2 as Tri else 1)
  }

  function VisOf(w: State, s: nat): Option<Tri> {
    if s < |w.syms| then w.syms[s].vis else None
  }

  // ---- Choice selections ----

  /** The first choice default from i on that is active and visible. */
  function DefaultSel(k: Kconf, w: State, ds: seq<Guarded<nat>>, i: nat): Option<Option<nat>>
    requires i <= |ds|
    decreases |ds| - i
  {
    if i == |ds| then Some(None)
    else
      var v :- ExprVal(k, w, ds[i].cond);
      if v == 0 then DefaultSel(k, w, ds, i + 1)
      else
        var vis :- VisOf(w, ds[i].item);
        if vis > 0 then Some(Some(ds[i].item)) else DefaultSel(k, w, ds, i + 1)
  }

  function FirstVisible(w: State, ss: seq<nat>, i: nat): Option<Option<nat>>
    requires i <= |ss|
    decreases |ss| - i
  {
    if i == |ss| then Some(None)
    else
      var vis :- VisOf(w, ss[i]);
      if vis > 0 then Some(Some(ss[i])) else FirstVisible(w, ss, i + 1)
  }

  function SelFromDefaults(k: Kconf, w: State, c: nat): Option<Option<nat>>
    requires c < |k.choices|
  {
    var d :- DefaultSel(k, w, k.choices[c].defaults, 0);
    if d.Some? then Some(d) else FirstVisible(w, k.choices[c].syms, 0)
  }

  function ChoiceSel(k: Kconf, w: State, c: nat): Option<Option<nat>>
    requires c < |k.choices| && c < |w.choices|
  {
    var mode :- ModeOf(k, w, c);
    if mode != 2 then Some(None)
    else if w.choices[c].picked.None? then SelFromDefaults(k, w, c)
    else
      var vis :- VisOf(w, w.choices[c].picked.value);
      if vis > 0 then Some(w.choices[c].picked) else SelFromDefaults(k, w, c)
  }

  function SelOf(w: State, c: nat): Option<Option<nat>> {
    if c < |w.choices| then w.choices[c].sel else None
  }

  // ---- Bool and tristate symbol values, with the "write to .config" flag ----

  function UserTri(v: Value): Tri {
    if v.Num? && 0 <= v.n <= 2 then v.n else 0
  }

  function DefaultTri(k: Kconf, w: State, ds: seq<Guarded<Expr>>): Option<Tri> {
    var i :- FirstActive(k, w, ds, 0);
    if i == |ds| then Some(0)
    else
      var c :- ExprVal(k, w, ds[i].cond);
      var v :- ExprVal(k, w, ds[i].item);
      Some(Min(v, c))
  }

  function ImpliedTri(k: Kconf, w: State, s: nat, val: Tri, write: bool): Option<(Tri, bool)>
    requires s < |k.syms|
  {
    var weak :- ExprVal(k, w, k.syms[s].weakRevDep);
    if weak == 0 then Some((val, write))
    else
      var direct :- ExprVal(k, w, k.syms[s].directDep);
      if direct == 0 then Some((val, write)) else Some((Max(weak, val) as Tri, true))
  }

  function SelectedTri(k: Kconf, w: State, s: nat, val: Tri, write: bool): Option<(Tri, bool)>
    requires s < |k.syms|
  {
    var rev :- ExprVal(k, w, k.syms[s].revDep);
    if rev == 0 then Some((val, write)) else Some((Max(rev, val) as Tri, true))
  }

  /** Promotion of m to y for bool symbols and for symbols implied to y. */
  function PromotedTri(k: Kconf, w: State, s: nat, val: Tri): Option<Tri>
    requires s < |k.syms|
  {
    if val != 1 then Some(val)
    else
      var isBool :- NotTristate(k, w, s);
      if isBool then Some(2)
      else
        var weak :- ExprVal(k, w, k.syms[s].weakRevDep);
        Some(if weak == 2 then 2 as Tri else 1)
  }

  /** The value before selects: the user's where visible, else defaults and implies. */
  function BaseTri(k: Kconf, w: State, s: nat, vis: Tri): Option<(Tri, bool)>
    requires s < |k.syms| && s < |w.syms|
  {
    if vis > 0 && w.syms[s].user.Some? then Some((Min(UserTri(w.syms[s].user.value), vis) as Tri, true))
    else
      var d :- DefaultTri(k, w, k.syms[s].defaults);
      ImpliedTri(k, w, s, d, vis > 0 || d > 0)
  }

  function PlainTri(k: Kconf, w: State, s: nat, vis: Tri): Option<(Tri, bool)>
    requires s < |k.syms| && s < |w.syms|
  {
    var base :- BaseTri(k, w, s, vis);
    var selected :- SelectedTri(k, w, s, base.0, base.1);
    var val :- PromotedTri(k, w, s, selected.0);
    Some((val, selected.1))
  }

  function ChoiceSymTri(k: Kconf, w: State, s: nat, vis: Tri): Option<(Tri, bool)>
    requires s < |k.syms| && s < |w.syms| && k.syms[s].choice.Some?
  {
    if vis == 2 then
      var sel :- SelOf(w, k.syms[s].choice.value);
      Some((if sel == Some(s) then 2 as Tri else 0, true))
    else if vis > 0 && w.syms[s].user.Some? && UserTri(w.syms[s].user.value) > 0 then Some((1 as Tri, true))
    else Some((0 as Tri, vis > 0))
  }

  function SymTri(k: Kconf, w: State, s: nat): Option<(Tri, bool)>
    requires s < |k.syms| && s < |w.syms|
  {
    var vis :- w.syms[s].vis;
    if k.syms[s].choice.None? then PlainTri(k, w, s, vis) else ChoiceSymTri(k, w, s, vis)
  }

  // ---- String, int and hex symbol values ----

  function ParseOrZero(k: Kconf, s: string, base: nat): int {
    var p := k.numbers.parse(s, base);
    if p.Some? then p.value else 0
  }

  /** The bounds of the first active range, if any. */
  function ActiveRange(k: Kconf, w: State, s: nat): Option<Option<(int, int)>>
    requires s < |k.syms|
  {
    var i :- FirstActive(k, w, k.syms[s].ranges, 0);
    if i == |k.syms[s].ranges| then Some(None)
    else
      var low :- StrOf(k, w, k.syms[s].ranges[i].item.0);
      var high :- StrOf(k, w, k.syms[s].ranges[i].item.1);
      Some(Some((ParseOrZero(k, low, Base(k.syms[s].kind)), ParseOrZero(k, high, Base(k.syms[s].kind)))))
  }

  predicate InRange(n: int, range: Option<(int, int)>) {
    range.None? || range.value.0 <= n <= range.value.1
  }

  /** The value of the first active default; the outer result says whether there is one. */
  function DefaultStr(k: Kconf, w: State, ds: seq<Guarded<Expr>>): Option<Option<string>> {
    var i :- FirstActive(k, w, ds, 0);
    if i == |ds| then Some(None)
    else if ds[i].item.Use? then
      var v :- StrOf(k, w, ds[i].item.o);
      Some(Some(v))
    else None
  }

  /** A default (or its absence, which counts as 0) pulled into the active range. */
  function Clamp(k: Kconf, kind: Kind, def: Option<string>, range: Option<(int, int)>): string {
    var val := if def.Some? then def.value else "";
    var n := if def.Some? then ParseOrZero(k, val, Base(kind)) else 0;
    if range.None? then val
    else if n < range.value.0 then k.numbers.show(range.value.0, kind)
    else if n > range.value.1 then k.numbers.show(range.value.1, kind)
    else val
  }

  function TextOf(v: Value): string {
    if v.Txt? then v.s else ""
  }

  function NumberStr(k: Kconf, w: State, s: nat, vis: Tri): Option<(string, bool)>
    requires s < |k.syms| && s < |w.syms|
  {
    var d := k.syms[s];
    var user := w.syms[s].user;
    var range :- ActiveRange(k, w, s);
    if vis > 0 && user.Some? && TextOf(user.value) != "" &&
       InRange(ParseOrZero(k, TextOf(user.value), Base(d.kind)), range)
    then Some((TextOf(user.value), true))
    else
      var def :- DefaultStr(k, w, d.defaults);
      Some((Clamp(k, d.kind, def, range), vis > 0 || def.Some?))
  }

  function PlainStr(k: Kconf, w: State, s: nat, vis: Tri): Option<(string, bool)>
    requires s < |k.syms| && s < |w.syms|
  {
    if vis > 0 && w.syms[s].user.Some? then Some((TextOf(w.syms[s].user.value), true))
    else
      var def :- DefaultStr(k, w, k.syms[s].defaults);
      Some((if def.Some? then def.value else "", vis > 0 || def.Some?))
  }

  function SymStr(k: Kconf, w: State, s: nat): Option<(string, bool)>
    requires s < |k.syms| && s < |w.syms|
  {
    var vis :- w.syms[s].vis;
    var r :- (if k.syms[s].kind == Str then PlainStr(k, w, s, vis) else NumberStr(k, w, s, vis));
    Some((r.0, r.1 && !k.syms[s].unwritten))
  }

  // ---- Assignable values ----

  function SymAsn(k: Kconf, w: State, s: nat): Option<seq<Tri>>
    requires s < |k.syms| && s < |w.syms|
  {
    var vis :- w.syms[s].vis;
    if vis == 0 then Some([])
    else
      var rev :- ExprVal(k, w, k.syms[s].revDep);
      if vis == 2 && k.syms[s].choice.Some? then Some([2])
      else if rev == 2 then Some([2])
      else if vis == 2 then
        var isBool :- NotTristate(k, w, s);
        var pinned :- (if isBool then Some(true)
                       else var weak :- ExprVal(k, w, k.syms[s].weakRevDep); Some(weak == 2));
        Some(if rev == 0 then (if pinned then [0, 2] else [0, 1, 2]) else (if pinned then [2] else [1, 2]))
      else if rev == 0 then
        var weak :- ExprVal(k, w, k.syms[s].weakRevDep);
        Some(if weak != 2 then [0, 1] else [0, 2])
      else Some([1])
  }

  function ChoiceAsn(k: Kconf, w: State, c: nat): Option<seq<Tri>>
    requires c < |k.choices| && c < |w.choices|
  {
    var vis :- w.choices[c].vis;
    if vis == 0 then Some([])
    else if vis == 2 then
      var isBool :- (if k.choices[c].kind == Bool then Some(true)
                     else if k.choices[c].kind == Tristate then ModulesOff(k, w) else Some(false));
      Some(if !k.choices[c].optional then (if isBool then [2] else [1, 2])
           else (if isBool then [0, 2] else [0, 1, 2]))
    else Some(if k.choices[c].optional then [0, 1] else [1])
  }
}
