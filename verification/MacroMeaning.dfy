/**
  What macros expand to: how the text of a call is split into arguments, and the
  value of a call with given arguments.
 */
module MacroMeaning {
  import opened Common
  import opened MacroExpand

  // ---- Text without macros ----

  predicate NoMacro(s: string) {
    forall i | 0 <= i < |s| - 1 :: !(s[i] == '$' && s[i + 1] == '(')
  }

  /** Text without macros stays as it is. */
  lemma {:induction false} PlainText(m: Macros, n: Counts, s: string, args: seq<string>)
    requires NoMacro(s)
    ensures Whole(m, n, s, args) == Some(s)
    decreases |s|
  {
    if s != "" {
      forall i | 0 <= i < |s[1..]| - 1 ensures !(s[1..][i] == '$' && s[1..][i + 1] == '(') { assert !(s[i + 1] == '$' && s[i + 2] == '('); }
      assert !Opens(s);
      PlainText(m, n, s[1..], args);
      assert s == [s[0]] + s[1..];
    }
  }

  // ---- The text of a call ----

  /**
    Text of an argument, read at nesting d: parentheses are balanced, commas stand
    inside parentheses only, and there is no macro in it.
   */
  predicate Argumentative(a: string, d: nat) {
    if a == "" then d == 0
    else if a[0] == '(' then Argumentative(a[1..], d + 1)
    else if a[0] == ')' then d > 0 && Argumentative(a[1..], d - 1)
    else if a[0] == ',' then d > 0 && Argumentative(a[1..], d)
    else !Opens(a) && Argumentative(a[1..], d)
  }

  lemma {:induction false} ScanArgument(
    m: Macros, n: Counts, a: string, d: nat, t: string, cur: string, call: seq<string>, args: seq<string>)
    requires Argumentative(a, d) && t != "" && t[0] != '('
    ensures Scan(m, n, a + t, cur, call, d, args) == Scan(m, n, t, cur + a, call, 0, args)
    decreases |a|
  {
    if a == "" {
      assert a + t == t && cur + a == cur;
    } else {
      var d' := if a[0] == '(' then d + 1 else if a[0] == ')' then d - 1 else d;
      assert (a + t)[1..] == a[1..] + t && !Opens(a + t);
      ScanArgument(m, n, a[1..], d', t, cur + [a[0]], call, args);
      assert cur + [a[0]] + a[1..] == cur + a;
    }
  }

  function Commas(call: seq<string>): string
    requires call != []
  {
    if |call| == 1 then call[0] else call[0] + "," + Commas(call[1..])
  }

  predicate AllArguments(call: seq<string>) {
    call != [] && forall i | 0 <= i < |call| :: Argumentative(call[i], 0)
  }

  /** $(name,arg,...) */
  function CallText(call: seq<string>): string
    requires call != []
  {
    "$(" + Commas(call) + ")"
  }

  lemma {:induction false} ScanCall(
    m: Macros, n: Counts, done: seq<string>, call: seq<string>, rest: string, args: seq<string>)
    requires AllArguments(call)
    ensures Scan(m, n, Commas(call) + ")" + rest, "", done, 0, args) ==
            var v := MacroValue(m, n, done + call, args);
            if v.None? then None else Some((v.value, rest))
    decreases |call|
  {
    var t := Behind(call, rest);
    ScanArgument(m, n, call[0], 0, t, "", done, args);
    assert "" + call[0] == call[0];
    if |call| == 1 {
      assert done + call == done + [call[0]];
    } else {
      ScanCall(m, n, done + [call[0]], call[1..], rest, args);
      assert done + [call[0]] + call[1..] == done + call;
    }
  }

  /** What follows the first argument. */
  lemma Behind(call: seq<string>, rest: string) returns (t: string)
    requires call != []
    ensures Commas(call) + ")" + rest == call[0] + t
    ensures t != "" && if |call| == 1 then t[0] == ')' && t[1..] == rest else t[0] == ',' && t[1..] == Commas(call[1..]) + ")" + rest
  {
    t := if |call| == 1 then ")" + rest else "," + (Commas(call[1..]) + ")" + rest);
  }

  /** A call is split at its outermost commas, replaced by its value, and the text goes on behind it. */
  lemma CallMeaning(m: Macros, n: Counts, call: seq<string>, rest: string, args: seq<string>)
    requires AllArguments(call)
    ensures var v := MacroValue(m, n, call, args);
      Whole(m, n, CallText(call) + rest, args) == if v.None? then None else Prefixed(v.value, Whole(m, n, rest, args))
  {
    var t := CallText(call) + rest;
    assert t[2..] == Commas(call) + ")" + rest && Opens(t);
    ScanCall(m, n, [], call, rest, args);
    assert [] + call == call;
  }

  /**
    A call inside an argument is expanded first, and its value is part of the
    argument whatever characters it has: commas and parentheses in it do not count.
   */
  lemma NestedMeaning(
    m: Macros, n: Counts, before: seq<string>, p: string, inner: seq<string>, q: string, rest: string, args: seq<string>)
    requires AllArguments(inner) && Argumentative(p, 0) && Argumentative(q, 0)
    requires forall i | 0 <= i < |before| :: Argumentative(before[i], 0)
    requires MacroValue(m, n, inner, args).Some?
    ensures var v := MacroValue(m, n, inner, args).value;
      var outer := MacroValue(m, n, before + [p + v + q], args);
      Whole(m, n, CallText(before + [p + CallText(inner) + q]) + rest, args) ==
      if outer.None? then None else Prefixed(outer.value, Whole(m, n, rest, args))
  {
    var call, v := before + [p + CallText(inner) + q], MacroValue(m, n, inner, args).value;
    var t := CallText(call) + rest;
    assert t[2..] == Commas(call) + ")" + rest && Opens(t);
    ScanNested(m, n, [], before, p, inner, q, rest, args);
    assert [] + before + [p + v + q] == before + [p + v + q];
  }

  lemma {:induction false} ScanNested(
    m: Macros, n: Counts, done: seq<string>, before: seq<string>, p: string, inner: seq<string>, q: string, rest: string, args: seq<string>)
    requires AllArguments(inner) && Argumentative(p, 0) && Argumentative(q, 0)
    requires forall i | 0 <= i < |before| :: Argumentative(before[i], 0)
    requires MacroValue(m, n, inner, args).Some?
    ensures var v := MacroValue(m, n, inner, args).value;
      var outer := MacroValue(m, n, done + before + [p + v + q], args);
      Scan(m, n, Commas(before + [p + CallText(inner) + q]) + ")" + rest, "", done, 0, args) ==
      if outer.None? then None else Some((outer.value, rest))
    decreases |before|
  {
    var call := before + [p + CallText(inner) + q];
    if before == [] {
      assert call[0] == p + CallText(inner) + q && Commas(call) == call[0];
      ScanLast(m, n, done, p, inner, q, rest, args);
      assert done + before == done;
    } else {
      var later := before[1..] + [p + CallText(inner) + q];
      assert call[0] == before[0] && call[1..] == later;
      var t := Behind(call, rest);
      ScanArgument(m, n, before[0], 0, t, "", done, args);
      assert "" + before[0] == before[0];
      ScanNested(m, n, done + [before[0]], before[1..], p, inner, q, rest, args);
      assert done + [before[0]] + before[1..] == done + before;
    }
  }

  lemma ScanLast(
    m: Macros, n: Counts, done: seq<string>, p: string, inner: seq<string>, q: string, rest: string, args: seq<string>)
    requires AllArguments(inner) && Argumentative(p, 0) && Argumentative(q, 0) && MacroValue(m, n, inner, args).Some?
    ensures var v := MacroValue(m, n, inner, args).value;
      var outer := MacroValue(m, n, done + [p + v + q], args);
      Scan(m, n, p + CallText(inner) + q + ")" + rest, "", done, 0, args) ==
      if outer.None? then None else Some((outer.value, rest))
  {
    var v, close := MacroValue(m, n, inner, args).value, ")" + rest;
    var tail := CallText(inner) + (q + close);
    assert p + CallText(inner) + q + ")" + rest == p + tail;
    ScanArgument(m, n, p, 0, tail, "", done, args);
    assert "" + p == p;
    assert tail[2..] == Commas(inner) + ")" + (q + close) && Opens(tail);
    ScanCall(m, n, [], inner, q + close, args);
    assert [] + inner == inner;
    ScanArgument(m, n, q, 0, close, p + v, done, args);
    assert close[1..] == rest;
  }

  // ---- The value of a call ----

  /** $(1) and so on are the arguments of the macro that is being expanded, if it has that many. */
  lemma ArgumentMeaning(m: Macros, n: Counts, call: seq<string>, args: seq<string>, k: int)
    requires call != [] && m.parse(call[0]) == Some(k) && -|args| <= k < |args|
    ensures MacroValue(m, n, call, args) == Some(if k < 0 then args[|args| + k] else args[k])
  {
  }

  /** The name of a call stands for no argument. */
  predicate Named(m: Macros, name: string, args: seq<string>) {
    m.parse(name).None? || !(-|args| <= m.parse(name).value < |args|)
  }

  /**
    A variable has the expansion of its text, in which $(0), $(1) and so on are the
    parts of the call.  Without arguments it must not be in progress already, and
    with arguments not more than a hundred times.
   */
  lemma VariableMeaning(m: Macros, n: Counts, call: seq<string>, args: seq<string>, n': Counts)
    requires call != [] && Named(m, call[0], args) && call[0] in m.vars
    requires n' == n[call[0] := Count(n, call[0]) + 1]
    ensures MacroValue(m, n, call, args) ==
      if Count(n, call[0]) <= (if |call| == 1 then 0 else 100) then Whole(m, n', m.vars[call[0]], call) else None
  {
  }

  /** Then come built-in functions, which fail on a wrong number of arguments, environment variables, and nothing. */
  lemma OtherMeaning(m: Macros, n: Counts, call: seq<string>, args: seq<string>)
    requires call != [] && Named(m, call[0], args) && call[0] !in m.vars
    ensures call[0] in m.builtins ==>
              var b := m.builtins[call[0]];
              MacroValue(m, n, call, args) ==
              if b.minArgs + 1 <= |call| && (b.maxArgs.None? || |call| <= b.maxArgs.value + 1) then b.call(call) else None
    ensures call[0] !in m.builtins && call[0] in m.env ==> MacroValue(m, n, call, args) == Some(m.env[call[0]])
    ensures call[0] !in m.builtins && call[0] !in m.env ==> MacroValue(m, n, call, args) == Some("")
  {
  }

  /** A macro without an end is an error. */
  lemma {:induction false} OpenCallFails(m: Macros, n: Counts, a: string, d: nat, cur: string, call: seq<string>, args: seq<string>)
    requires forall i | 0 <= i < |a| :: a[i] != ')' && a[i] != '$'
    ensures Scan(m, n, a, cur, call, d, args).None?
    decreases |a|
  {
    if a != "" {
      assert forall i | 0 <= i < |a[1..]| :: a[1..][i] == a[i + 1];
      if a[0] == '(' {
        OpenCallFails(m, n, a[1..], d + 1, cur + "(", call, args);
      } else if a[0] == ',' && d == 0 {
        OpenCallFails(m, n, a[1..], d, "", call + [cur], args);
      } else {
        OpenCallFails(m, n, a[1..], d, cur + [a[0]], call, args);
      }
    }
  }

  lemma UnterminatedFails(m: Macros, n: Counts, a: string, args: seq<string>)
    requires forall i | 0 <= i < |a| :: a[i] != ')' && a[i] != '$'
    ensures Whole(m, n, "$(" + a, args).None?
  {
    assert ("$(" + a)[2..] == a;
    OpenCallFails(m, n, a, 0, "", [], args);
  }
}
