/**
  The preprocessor: $(name,arg,...) is replaced by the value of a variable, of a
  built-in function or of an environment variable, in place and in one pass from
  the left.  Variables may refer to each other and to themselves; a count of the
  expansions in progress stops runaway recursion.
 */
module MacroExpand {
  import opened Common

  datatype Builtin = Builtin(call: seq<string> -> Option<string>, minArgs: nat, maxArgs: Option<nat>)

  /** `parse` is the integer parser of the host language. */
  datatype Macros = Macros(
    vars: map<string, string>,
    builtins: map<string, Builtin>,
    env: map<string, string>,
    parse: string -> Option<int>)

  /** Expansions in progress of each variable. */
  type Counts = map<string, nat>

  const Limit: nat := 101

  function Count(n: Counts, v: string): nat {
    if v in n then n[v] else 0
  }

  function Entered(n: Counts, v: string): Counts {
    n[v := Count(n, v) + 1]
  }

  /** What is left of the expansion budgets: one element for each expansion that may still start. */
  ghost function Budget(m: Macros, n: Counts): set<(string, nat)> {
    set v, k: nat | v in m.vars.Keys && 0 <= k < Limit && Count(n, v) <= k :: (v, k)
  }

  lemma EnteredSpends(m: Macros, n: Counts, v: string)
    requires v in m.vars && Count(n, v) < Limit
    ensures Budget(m, Entered(n, v)) < Budget(m, n)
  {
    assert (v, Count(n, v)) in Budget(m, n) && (v, Count(n, v)) !in Budget(m, Entered(n, v));
  }

  /** A plain variable may not be in progress; a function may be, up to its limit. */
  predicate MayEnter(n: Counts, call: seq<string>)
    requires call != []
  {
    if |call| == 1 then Count(n, call[0]) == 0 else Count(n, call[0]) < Limit
  }

  // ---- Expansion as a substitution; None is an error ----

  predicate Opens(t: string) {
    |t| >= 2 && t[0] == '$' && t[1] == '('
  }

  /** All macros in t replaced. */
  function Whole(m: Macros, n: Counts, t: string, args: seq<string>): Option<string>
    decreases Budget(m, n), |t|, 3
  {
    if t == "" then Some("")
    else if Opens(t) then
      var r :- Scan(m, n, t[2..], "", [], 0, args);
      var rest :- Whole(m, n, r.1, args);
      Some(r.0 + rest)
    else
      var rest :- Whole(m, n, t[1..], args);
      Some([t[0]] + rest)
  }

  /**
    The rest of a macro: t is unread, cur is the argument so far, and call holds
    the complete ones.  The result is the value of the macro and what follows it.
   */
  function Scan(m: Macros, n: Counts, t: string, cur: string, call: seq<string>, nesting: nat, args: seq<string>)
    : (r: Option<(string, string)>)
    ensures r.Some? ==> |r.value.1| < |t|
    decreases Budget(m, n), |t|, 2
  {
    if t == "" then None
    else if Opens(t) then
      var r :- Scan(m, n, t[2..], "", [], 0, args);
      Scan(m, n, r.1, cur + r.0, call, nesting, args)
    else if t[0] == '(' then Scan(m, n, t[1..], cur + "(", call, nesting + 1, args)
    else if t[0] == ')' && nesting > 0 then Scan(m, n, t[1..], cur + ")", call, nesting - 1, args)
    else if t[0] == ')' then
      var v :- MacroValue(m, n, call + [cur], args);
      Some((v, t[1..]))
    else if t[0] == ',' && nesting == 0 then Scan(m, n, t[1..], "", call + [cur], nesting, args)
    else Scan(m, n, t[1..], cur + [t[0]], call, nesting, args)
  }

  /** $(1), $(2), ... stand for the arguments of the macro being expanded; a negative index counts from the end. */
  function Argument(m: Macros, name: string, args: seq<string>): Option<string> {
    var k :- m.parse(name);
    if 0 <= k < |args| then Some(args[k])
    else if -|args| <= k < 0 then Some(args[|args| + k])
    else None
  }

  function MacroValue(m: Macros, n: Counts, call: seq<string>, args: seq<string>): Option<string>
    requires call != []
    decreases Budget(m, n), 0, 1
  {
    if Argument(m, call[0], args).Some? then Argument(m, call[0], args) else FnVal(m, n, call)
  }

  function FnVal(m: Macros, n: Counts, call: seq<string>): Option<string>
    requires call != []
    decreases Budget(m, n), 0, 0
  {
    var fn := call[0];
    if fn in m.vars then
      if MayEnter(n, call) then
        EnteredSpends(m, n, fn);
        Whole(m, Entered(n, fn), m.vars[fn], call)
      else None
    else if fn in m.builtins then
      var b := m.builtins[fn];
      if |call| - 1 < b.minArgs || (b.maxArgs.Some? && |call| - 1 > b.maxArgs.value) then None else b.call(call)
    else if fn in m.env then Some(m.env[fn])
    else Some("")
  }

  // ---- Expansion in place ----

  class Expander {
    const m: Macros
    var counts: Counts

    constructor (m: Macros)
      ensures this.m == m && Tracked() && forall v | v in m.vars :: Count(counts, v) == 0
    {
      this.m, counts := m, map v | v in m.vars :: 0;
    }

    predicate Tracked()
      reads this
    {
      m.vars.Keys <= counts.Keys
    }

    /** The position of the next "$(" from i on; |s| if there is none. */
    method FindMacro(s: string, i: nat, args: seq<string>) returns (j: nat)
      requires i <= |s|
      ensures i <= j <= |s| && (j < |s| ==> Opens(s[j..]))
      ensures Whole(m, counts, s[i..], args) == Prefixed(s[i..j], Whole(m, counts, s[j..], args))
    {
      j := i;
      assert s[i..i] == "";
      PrefixedEmpty(Whole(m, counts, s[i..], args));
      while j < |s| && !(j + 1 < |s| && s[j] == '$' && s[j + 1] == '(')
        invariant i <= j <= |s|
        invariant Whole(m, counts, s[i..], args) == Prefixed(s[i..j], Whole(m, counts, s[j..], args))
      {
        assert !Opens(s[j..]) && s[j..][1..] == s[j + 1..] && s[i..j + 1] == s[i..j] + [s[j]];
        PrefixedTwice(s[i..j], [s[j]], Whole(m, counts, s[j + 1..], args));
        j := j + 1;
      }
    }

    method ExpandWhole(text: string, args: seq<string>) returns (r: Option<string>)
      requires Tracked()
      modifies this
      ensures r == Whole(m, old(counts), text, args)
      ensures r.Some? ==> counts == old(counts)
      decreases Budget(m, counts), |text|, 3
    {
      var s, i := text, 0;
      ghost var n := counts;
      assert s[..0] == "" && s[0..] == s;
      PrefixedEmpty(Whole(m, n, text, args));
      while i < |s|
        invariant 0 <= i <= |s| && counts == n && |s| - i <= |text|
        invariant Whole(m, n, text, args) == Prefixed(s[..i], Whole(m, n, s[i..], args))
        decreases |s| - i
      {
        var j := FindMacro(s, i, args);
        assert s[..j] == s[..i] + s[i..j];
        PrefixedTwice(s[..i], s[i..j], Whole(m, n, s[j..], args));
        if j == |s| {
          assert s[j..] == "" && s[..j] == s && s + "" == s;
          return Some(s);
        }
        ghost var before := s;
        assert before[j..][2..] == before[j + 2..];
        var e := ExpandMacro(s, j, args);
        if e.None? { return None; }
        s, i := e.value.0, e.value.1;
        ghost var v := Scan(m, n, before[j + 2..], "", [], 0, args).value;
        assert s[..i] == before[..j] + v.0 && s[i..] == v.1;
        PrefixedTwice(before[..j], v.0, Whole(m, n, v.1, args));
      }
      assert s[i..] == "" && s[..i] == s && s + "" == s;
      r := Some(s);
    }

    /** Replaces the macro that starts at position at; the result goes on behind the replacement. */
    method ExpandMacro(text: string, at: nat, args: seq<string>) returns (r: Option<(string, nat)>)
      requires at <= |text| && Opens(text[at..])
      requires Tracked()
      modifies this
      ensures r.Some? <==> Scan(m, old(counts), text[at + 2..], "", [], 0, args).Some?
      ensures r.Some? ==>
                var v := Scan(m, old(counts), text[at + 2..], "", [], 0, args).value;
                r.value == (text[..at] + v.0 + v.1, at + |v.0|) && counts == old(counts)
      decreases Budget(m, counts), |text| - at, 2
    {
      var res, s, i := text[..at], text, at + 2;
      var argStart, newArgs, nesting := i, [], 0;
      ghost var n := counts;
      assert s[argStart..i] == "";
      while i < |s|
        invariant argStart <= i <= |s| && counts == n && |s| - i < |text| - at && 0 <= nesting
        invariant Scan(m, n, text[at + 2..], "", [], 0, args) == Scan(m, n, s[i..], s[argStart..i], newArgs, nesting, args)
        decreases |s| - i
      {
        assert s[i..][1..] == s[i + 1..] && s[argStart..i + 1] == s[argStart..i] + [s[i]];
        assert Opens(s[i..]) <==> i + 1 < |s| && s[i] == '$' && s[i + 1] == '(';
        if i + 1 < |s| && s[i] == '$' && s[i + 1] == '(' {
          ghost var old_, start := s, i;
          assert old_[start..][2..] == old_[start + 2..];
          var e := ExpandMacro(s, i, args);
          if e.None? { return None; }
          s, i := e.value.0, e.value.1;
          assert s[argStart..i] == old_[argStart..start] + s[start..i];
        } else if s[i] == '(' {
          nesting, i := nesting + 1, i + 1;
        } else if s[i] == ')' && nesting > 0 {
          nesting, i := nesting - 1, i + 1;
        } else if s[i] == ')' {
          newArgs := newArgs + [s[argStart..i]];
          var v := ValueOf(newArgs, args);
          if v.None? { return None; }
          return Some((res + v.value + s[i + 1..], |res| + |v.value|));
        } else if s[i] == ',' && nesting == 0 {
          newArgs := newArgs + [s[argStart..i]];
          i := i + 1;
          argStart := i;
          assert s[argStart..i] == "";
        } else {
          i := i + 1;
        }
      }
      r := None;
    }

    method ValueOf(call: seq<string>, args: seq<string>) returns (r: Option<string>)
      requires call != []
      requires Tracked()
      modifies this
      ensures r == MacroValue(m, old(counts), call, args)
      ensures r.Some? ==> counts == old(counts)
      decreases Budget(m, counts), 0, 1
    {
      r := Argument(m, call[0], args);
      if r.None? { r := CallFn(call); }
    }

    method CallFn(call: seq<string>) returns (r: Option<string>)
      requires call != []
      requires Tracked()
      modifies this
      ensures r == FnVal(m, old(counts), call)
      ensures r.Some? ==> counts == old(counts)
      decreases Budget(m, counts), 0, 0
    {
      var fn := call[0];
      if fn in m.vars {
        if !MayEnter(counts, call) { return None; }
        EnteredSpends(m, counts, fn);
        ghost var before := counts;
        counts := Entered(counts, fn);
        r := ExpandWhole(m.vars[fn], call);
        if r.Some? { counts := counts[fn := counts[fn] - 1]; }
        assert r.Some? ==> counts == before[fn := Count(before, fn)];
      } else if fn in m.builtins {
        var b := m.builtins[fn];
        r := if |call| - 1 < b.minArgs || (b.maxArgs.Some? && |call| - 1 > b.maxArgs.value) then None else b.call(call);
      } else if fn in m.env {
        r := Some(m.env[fn]);
      } else {
        r := Some("");
      }
    }
  }

  function Prefixed(pre: string, r: Option<string>): Option<string> {
    if r.Some? then Some(pre + r.value) else None
  }

  lemma PrefixedEmpty(r: Option<string>)
    ensures Prefixed("", r) == r
  {
    if r.Some? { assert "" + r.value == r.value; }
  }

  lemma PrefixedTwice(a: string, b: string, r: Option<string>)
    ensures Prefixed(a, Prefixed(b, r)) == Prefixed(a + b, r)
  {
    if r.Some? { assert a + (b + r.value) == a + b + r.value; }
  }

  // ---- The counts only stop an expansion; they never change a result ----

  ghost predicate Fewer(n: Counts, n': Counts) {
    forall v :: Count(n', v) <= Count(n, v)
  }

  lemma EnteredFewer(n: Counts, n': Counts, fn: string)
    requires Fewer(n, n')
    ensures Fewer(Entered(n, fn), Entered(n', fn))
  {
    forall v ensures Count(Entered(n', fn), v) <= Count(Entered(n, fn), v) { assert Count(n', v) <= Count(n, v); }
  }

  lemma {:induction false} WholeFewer(m: Macros, n: Counts, n': Counts, t: string, args: seq<string>)
    requires Fewer(n, n') && Whole(m, n, t, args).Some?
    ensures Whole(m, n', t, args) == Whole(m, n, t, args)
    decreases Budget(m, n), |t|, 3
  {
    if t == "" {
    } else if Opens(t) {
      ScanFewer(m, n, n', t[2..], "", [], 0, args);
      WholeFewer(m, n, n', Scan(m, n, t[2..], "", [], 0, args).value.1, args);
    } else {
      WholeFewer(m, n, n', t[1..], args);
    }
  }

  lemma {:induction false} ScanFewer(
    m: Macros, n: Counts, n': Counts, t: string, cur: string, call: seq<string>, nesting: nat, args: seq<string>)
    requires Fewer(n, n') && Scan(m, n, t, cur, call, nesting, args).Some?
    ensures Scan(m, n', t, cur, call, nesting, args) == Scan(m, n, t, cur, call, nesting, args)
    decreases Budget(m, n), |t|, 2
  {
    if Opens(t) {
      ScanFewer(m, n, n', t[2..], "", [], 0, args);
      var r := Scan(m, n, t[2..], "", [], 0, args).value;
      ScanFewer(m, n, n', r.1, cur + r.0, call, nesting, args);
    } else if t[0] == '(' {
      ScanFewer(m, n, n', t[1..], cur + "(", call, nesting + 1, args);
    } else if t[0] == ')' && nesting > 0 {
      ScanFewer(m, n, n', t[1..], cur + ")", call, nesting - 1, args);
    } else if t[0] == ')' {
      if Argument(m, (call + [cur])[0], args).None? { FnValFewer(m, n, n', call + [cur]); }
    } else if t[0] == ',' && nesting == 0 {
      ScanFewer(m, n, n', t[1..], "", call + [cur], nesting, args);
    } else {
      ScanFewer(m, n, n', t[1..], cur + [t[0]], call, nesting, args);
    }
  }

  lemma {:induction false} FnValFewer(m: Macros, n: Counts, n': Counts, call: seq<string>)
    requires call != [] && Fewer(n, n') && FnVal(m, n, call).Some?
    ensures FnVal(m, n', call) == FnVal(m, n, call)
    decreases Budget(m, n), 0, 0
  {
    var fn := call[0];
    if fn in m.vars {
      EnteredSpends(m, n, fn);
      EnteredFewer(n, n', fn);
      WholeFewer(m, Entered(n, fn), Entered(n', fn), m.vars[fn], call);
    }
  }

  // ---- Expansion is local ----

  /** What follows the macro does not matter. */
  lemma {:induction false} ScanMore(
    m: Macros, n: Counts, t: string, cur: string, call: seq<string>, nesting: nat, args: seq<string>, post: string)
    requires Scan(m, n, t, cur, call, nesting, args).Some?
    ensures var r := Scan(m, n, t, cur, call, nesting, args).value;
      Scan(m, n, t + post, cur, call, nesting, args) == Some((r.0, r.1 + post))
    decreases |t|
  {
    if Opens(t) {
      var r := Scan(m, n, t[2..], "", [], 0, args).value;
      ScanMore(m, n, t[2..], "", [], 0, args, post);
      assert (t + post)[2..] == t[2..] + post;
      ScanMore(m, n, r.1, cur + r.0, call, nesting, args, post);
    } else {
      if |t| == 1 { assert t[1..] == ""; }
      assert !Opens(t + post);
      assert (t + post)[1..] == t[1..] + post;
      if t[0] == '(' {
        ScanMore(m, n, t[1..], cur + "(", call, nesting + 1, args, post);
      } else if t[0] == ')' && nesting > 0 {
        ScanMore(m, n, t[1..], cur + ")", call, nesting - 1, args, post);
      } else if t[0] == ')' {
      } else if t[0] == ',' && nesting == 0 {
        ScanMore(m, n, t[1..], "", call + [cur], nesting, args, post);
      } else {
        ScanMore(m, n, t[1..], cur + [t[0]], call, nesting, args, post);
      }
    }
  }

  /** a and b are not joined within the two characters that open a macro. */
  predicate Apart(a: string, b: string) {
    !(a != "" && b != "" && a[|a| - 1] == '$' && b[0] == '(')
  }

  /** A text expands piece by piece: expanded text is never read again. */
  lemma {:induction false} WholeJoin(m: Macros, n: Counts, a: string, b: string, args: seq<string>)
    requires Apart(a, b) && Whole(m, n, a, args).Some?
    ensures Whole(m, n, a + b, args) == Prefixed(Whole(m, n, a, args).value, Whole(m, n, b, args))
    decreases |a|
  {
    if a == "" {
      assert a + b == b;
      PrefixedEmpty(Whole(m, n, b, args));
    } else if Opens(a) {
      var r := Scan(m, n, a[2..], "", [], 0, args).value;
      ScanMore(m, n, a[2..], "", [], 0, args, b);
      ScanSuffix(m, n, a[2..], "", [], 0, args);
      assert (a + b)[2..] == a[2..] + b;
      WholeJoin(m, n, r.1, b, args);
      PrefixedTwice(r.0, Whole(m, n, r.1, args).value, Whole(m, n, b, args));
    } else {
      assert (a + b)[1..] == a[1..] + b && !Opens(a + b);
      WholeJoin(m, n, a[1..], b, args);
      PrefixedTwice([a[0]], Whole(m, n, a[1..], args).value, Whole(m, n, b, args));
    }
  }

  /** The rest is the end of the text. */
  lemma {:induction false} ScanSuffix(
    m: Macros, n: Counts, t: string, cur: string, call: seq<string>, nesting: nat, args: seq<string>)
    requires Scan(m, n, t, cur, call, nesting, args).Some?
    ensures var rest := Scan(m, n, t, cur, call, nesting, args).value.1;
      |rest| < |t| && t[|t| - |rest|..] == rest
    decreases |t|
  {
    if Opens(t) {
      var r := Scan(m, n, t[2..], "", [], 0, args).value;
      ScanSuffix(m, n, t[2..], "", [], 0, args);
      ScanSuffix(m, n, r.1, cur + r.0, call, nesting, args);
    } else if t[0] == '(' {
      ScanSuffix(m, n, t[1..], cur + "(", call, nesting + 1, args);
    } else if t[0] == ')' && nesting > 0 {
      ScanSuffix(m, n, t[1..], cur + ")", call, nesting - 1, args);
    } else if t[0] == ')' {
    } else if t[0] == ',' && nesting == 0 {
      ScanSuffix(m, n, t[1..], "", call + [cur], nesting, args);
    } else {
      ScanSuffix(m, n, t[1..], cur + [t[0]], call, nesting, args);
    }
  }

  // ---- Self-reference ----

  /** A macro that fails is reached from whatever comes before it, unless that fails first. */
  ghost predicate Fails(m: Macros, n: Counts, t: string, args: seq<string>) {
    Opens(t) && Scan(m, n, t[2..], "", [], 0, args).None?
  }

  lemma {:induction false} ScanFails(
    m: Macros, n: Counts, a: string, t: string, cur: string, call: seq<string>, nesting: nat, args: seq<string>)
    requires Fails(m, n, t, args) && Scan(m, n, a + t, cur, call, nesting, args).Some?
    ensures |Scan(m, n, a + t, cur, call, nesting, args).value.1| >= |t|
    decreases |a|
  {
    var s := a + t;
    assert a == "" ==> s == t;
    assert |a| == 1 ==> s[1] == t[0];
    if a == "" {
    } else if Opens(s) {
      assert s[2..] == a[2..] + t;
      ScanFails(m, n, a[2..], t, "", [], 0, args);
      var r := Scan(m, n, s[2..], "", [], 0, args).value;
      ScanSuffix(m, n, s[2..], "", [], 0, args);
      var a' := r.1[..|r.1| - |t|];
      assert r.1 == a' + t;
      ScanFails(m, n, a', t, cur + r.0, call, nesting, args);
    } else {
      assert s[1..] == a[1..] + t;
      if s[0] == '(' {
        ScanFails(m, n, a[1..], t, cur + "(", call, nesting + 1, args);
      } else if s[0] == ')' && nesting > 0 {
        ScanFails(m, n, a[1..], t, cur + ")", call, nesting - 1, args);
      } else if s[0] == ')' {
      } else if s[0] == ',' && nesting == 0 {
        ScanFails(m, n, a[1..], t, "", call + [cur], nesting, args);
      } else {
        ScanFails(m, n, a[1..], t, cur + [s[0]], call, nesting, args);
      }
    }
  }

  lemma {:induction false} WholeFails(m: Macros, n: Counts, a: string, t: string, args: seq<string>)
    requires Fails(m, n, t, args)
    ensures Whole(m, n, a + t, args).None?
    decreases |a|
  {
    var s := a + t;
    assert a == "" ==> s == t;
    assert |a| == 1 ==> s[1] == t[0];
    if a == "" {
    } else if Opens(s) {
      assert s[2..] == a[2..] + t;
      if Scan(m, n, s[2..], "", [], 0, args).Some? {
        ScanFails(m, n, a[2..], t, "", [], 0, args);
        ScanSuffix(m, n, s[2..], "", [], 0, args);
        var rest := Scan(m, n, s[2..], "", [], 0, args).value.1;
        assert rest == rest[..|rest| - |t|] + t;
        WholeFails(m, n, rest[..|rest| - |t|], t, args);
      }
    } else {
      assert s[1..] == a[1..] + t;
      WholeFails(m, n, a[1..], t, args);
    }
  }

  predicate PlainName(v: string) {
    forall i | 0 <= i < |v| :: v[i] !in "$(),"
  }

  lemma {:induction false} ScanName(m: Macros, n: Counts, v: string, cur: string, rest: string, args: seq<string>)
    requires PlainName(v)
    ensures Scan(m, n, v + ")" + rest, cur, [], 0, args) == Scan(m, n, ")" + rest, cur + v, [], 0, args)
  {
    var t := v + ")" + rest;
    if v == "" {
      assert t == ")" + rest && cur + v == cur;
    } else {
      assert t[0] == v[0] && !Opens(t) && t[1..] == v[1..] + ")" + rest;
      ScanName(m, n, v[1..], cur + [v[0]], rest, args);
      assert cur + [v[0]] + v[1..] == cur + v;
    }
  }

  /** A plain variable whose value refers to the variable itself cannot be expanded, whatever else its value holds. */
  lemma SelfReferenceFails(m: Macros, n: Counts, v: string, a: string, b: string)
    requires v in m.vars && PlainName(v) && m.parse(v).None?
    requires m.vars[v] == a + ("$(" + v + ")" + b)
    ensures FnVal(m, n, [v]).None?
  {
    if MayEnter(n, [v]) {
      var n1, t := Entered(n, v), "$(" + v + ")" + b;
      EnteredSpends(m, n, v);
      assert t[2..] == v + ")" + b;
      ScanName(m, n1, v, "", b, [v]);
      assert "" + v == v && [] + [v] == [v] && (")" + b)[1..] == b;
      assert !MayEnter(n1, [v]);
      assert FnVal(m, n1, [v]).None?;
      assert Scan(m, n1, ")" + b, v, [], 0, [v]).None?;
      assert Whole(m, n1, t, [v]).None?;
      WholeFails(m, n1, a, t, [v]);
    }
  }
}
