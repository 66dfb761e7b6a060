/**
  What the user has set, apart from all cached values, and what the setters do
  to it.
 */
module KconfigSettings {
  import opened Common
  import opened KconfigModel

  datatype Settings = Settings(
    values: seq<Option<Value>>,     // user value of each symbol
    modes: seq<Option<Tri>>,        // user mode of each choice
    picks: seq<Option<nat>>,        // user selection of each choice
    symSet: seq<bool>,              // marks used while loading a file
    choiceSet: seq<bool>)

  ghost function SettingsOf(w: State): Settings {
    Settings(seq(|w.syms|, i requires 0 <= i < |w.syms| => w.syms[i].user),
             seq(|w.choices|, i requires 0 <= i < |w.choices| => w.choices[i].user),
             seq(|w.choices|, i requires 0 <= i < |w.choices| => w.choices[i].picked),
             seq(|w.syms|, i requires 0 <= i < |w.syms| => w.syms[i].wasSet),
             seq(|w.choices|, i requires 0 <= i < |w.choices| => w.choices[i].wasSet))
  }

  ghost predicate ChoicesInTree(k: Kconf) {
    forall s | 0 <= s < |k.syms| && k.syms[s].choice.Some? :: k.syms[s].choice.value < |k.choices|
  }

  predicate Sized(k: Kconf, g: Settings) {
    && |g.values| == |g.symSet| == |k.syms|
    && |g.modes| == |g.picks| == |g.choiceSet| == |k.choices|
  }

  function NoSettings(k: Kconf): Settings {
    Settings(seq(|k.syms|, i => None), seq(|k.choices|, i => None), seq(|k.choices|, i => None),
             seq(|k.syms|, i => false), seq(|k.choices|, i => false))
  }

  /** n, m and y are accepted as strings for bool and tristate items. */
  function Normalized(kind: Kind, v: Value): Value {
    if BoolLike(kind) && v == Txt("n") then Num(0)
    else if BoolLike(kind) && v == Txt("m") then Num(1)
    else if BoolLike(kind) && v == Txt("y") then Num(2)
    else v
  }

  predicate ValidFor(k: Kconf, kind: Kind, v: Value) {
    || (kind == Bool && (v == Num(2) || v == Num(0)))
    || (kind == Tristate && v.Num? && 0 <= v.n <= 2)
    || (v.Txt? && (
          || kind == Str
          || (kind == Int && k.numbers.parse(v.s, 10).Some?)
          || (kind == Hex && k.numbers.parse(v.s, 16).Some? && k.numbers.parse(v.s, 16).value >= 0)))
  }

  /** What Symbol.set_value returns: the value is valid for the type, or it is the user value already. */
  predicate Accepted(k: Kconf, g: Settings, s: nat, value: Value)
    requires Sized(k, g) && s < |k.syms|
  {
    var v := Normalized(k.syms[s].kind, value);
    ValidFor(k, k.syms[s].kind, v) || (g.values[s] == Some(v) && k.syms[s].choice.None?)
  }

  /** Symbol.set_value on the settings. */
  function SetSym(k: Kconf, g: Settings, s: nat, value: Value): (r: Settings)
    requires Sized(k, g) && s < |k.syms|
    requires k.syms[s].choice.Some? ==> k.syms[s].choice.value < |k.choices|
    ensures Sized(k, r)
  {
    var d := k.syms[s];
    var v := Normalized(d.kind, value);
    if g.values[s] == Some(v) && d.choice.None? then g.(symSet := g.symSet[s := true])
    else if !ValidFor(k, d.kind, v) then g
    else
      var g' := g.(values := g.values[s := Some(v)], symSet := g.symSet[s := true]);
      if d.choice.Some? && v == Num(2) then
        g'.(picks := g.picks[d.choice.value := Some(s)], choiceSet := g.choiceSet[d.choice.value := true])
      else g'
  }

  predicate ModeAssignable(kind: Kind, v: int) {
    (kind == Bool && (v == 2 || v == 0)) || (kind == Tristate && 0 <= v <= 2)
  }

  /** What Choice.set_value returns. */
  predicate ModeAccepted(k: Kconf, g: Settings, c: nat, v: Tri)
    requires Sized(k, g) && c < |k.choices|
  {
    ModeAssignable(k.choices[c].kind, v) || g.modes[c] == Some(v)
  }

  /** Choice.set_value on the settings. */
  function SetMode(k: Kconf, g: Settings, c: nat, v: Tri): (r: Settings)
    requires Sized(k, g) && c < |k.choices|
    ensures Sized(k, r)
  {
    if g.modes[c] == Some(v) then g.(choiceSet := g.choiceSet[c := true])
    else if !ModeAssignable(k.choices[c].kind, v) then g
    else g.(modes := g.modes[c := Some(v)], choiceSet := g.choiceSet[c := true])
  }

  function UnsetSym(k: Kconf, g: Settings, s: nat): (r: Settings)
    requires Sized(k, g) && s < |k.syms|
    ensures Sized(k, r)
  {
    g.(values := g.values[s := None])
  }

  function UnsetChoice(k: Kconf, g: Settings, c: nat): (r: Settings)
    requires Sized(k, g) && c < |k.choices|
    ensures Sized(k, r)
  {
    g.(modes := g.modes[c := None], picks := g.picks[c := None])
  }
}
