/**
  The grammar of expressions.  The parser accepts exactly the token sequences that
  begin with an expression of the grammar, takes the longest one, and returns its
  meaning; && binds tighter than ||, ! tighter than both, and chains nest to the
  right.
 */
module ExprGrammar {
  import opened Common
  import opened KconfigModel
  import opened ExprParser

  /** How an expression is written. */
  datatype Syntax =
    | Name(o: Operand)
    | Relation(op: RelOp, a: Operand, b: Operand)
    | Negation(x: Syntax)
    | Parens(x: Syntax)
    | Conjunction(x: Syntax, y: Syntax)
    | Disjunction(x: Syntax, y: Syntax)

  function Spell(s: Syntax): seq<Token> {
    match s
    case Name(o) => [TSym(o)]
    case Relation(op, a, b) => [TSym(a), TRel(op), TSym(b)]
    case Negation(x) => [TNot] + Spell(x)
    case Parens(x) => [TOpen] + Spell(x) + [TClose]
    case Conjunction(x, y) => Spell(x) + [TAnd] + Spell(y)
    case Disjunction(x, y) => Spell(x) + [TOr] + Spell(y)
  }

  predicate IsFactor(s: Syntax)
    decreases s, 0
  {
    match s
    case Name(_) => true
    case Relation(_, _, _) => true
    case Negation(x) => IsFactor(x)
    case Parens(x) => IsExpr(x)
    case _ => false
  }

  predicate IsTerm(s: Syntax)
    decreases s, 1
  {
    match s
    case Conjunction(x, y) => IsFactor(x) && IsTerm(y)
    case Disjunction(_, _) => false
    case _ => IsFactor(s)
  }

  predicate IsExpr(s: Syntax)
    decreases s, 2
  {
    match s
    case Disjunction(x, y) => IsTerm(x) && IsExpr(y)
    case Conjunction(x, y) => IsFactor(x) && IsTerm(y)
    case _ => IsFactor(s)
  }

  /** What it means; a plain m may stand for m && MODULES. */
  function Meant(s: Syntax, tm: bool, modules: Operand): Expr {
    match s
    case Name(o) => if tm && o == Known(1) then And(Use(Known(1)), Use(modules)) else Use(o)
    case Relation(op, a, b) => Rel(op, a, b)
    case Negation(x) => Not(Meant(x, tm, modules))
    case Parens(x) => Meant(x, tm, modules)
    case Conjunction(x, y) => And(Meant(x, tm, modules), Meant(y, tm, modules))
    case Disjunction(x, y) => Or(Meant(x, tm, modules), Meant(y, tm, modules))
  }

  /** The last token is a name on its own, so that a relation sign behind it would belong to it. */
  predicate EndsInName(s: Syntax) {
    match s
    case Name(_) => true
    case Relation(_, _, _) => false
    case Negation(x) => EndsInName(x)
    case Parens(_) => false
    case Conjunction(_, y) => EndsInName(y)
    case Disjunction(_, y) => EndsInName(y)
  }

  /** The factor s does not go on in rest. */
  predicate FactorEnds(s: Syntax, rest: seq<Token>) {
    rest == [] || !(EndsInName(s) && rest[0].TRel?)
  }

  predicate TermEnds(s: Syntax, rest: seq<Token>) {
    FactorEnds(s, rest) && !StartsWith(rest, TAnd)
  }

  predicate ExprEnds(s: Syntax, rest: seq<Token>) {
    TermEnds(s, rest) && !StartsWith(rest, TOr)
  }

  // ---- Whatever is written like this is read ----

  lemma Behind(a: seq<Token>, t: Token, b: seq<Token>, rest: seq<Token>)
    ensures (a + [t] + b) + rest == a + ([t] + b + rest)
    ensures ([t] + b + rest)[1..] == b + rest && StartsWith([t] + b + rest, t) && ([t] + b + rest)[0] == t
  {
    assert [t] + b + rest == [t] + (b + rest);
  }

  lemma {:induction false} FactorRead(s: Syntax, rest: seq<Token>, tm: bool, modules: Operand)
    requires IsFactor(s) && FactorEnds(s, rest)
    ensures ReadFactor(Spell(s) + rest, tm, modules) == Some((Meant(s, tm, modules), rest))
    decreases s, 0
  {
    var ts := Spell(s) + rest;
    match s
    case Name(o) => assert ts[1..] == rest;
    case Relation(op, a, b) => assert ts[3..] == rest;
    case Negation(x) =>
      assert ts[1..] == Spell(x) + rest;
      FactorRead(x, rest, tm, modules);
    case Parens(x) =>
      assert ts[1..] == Spell(x) + ([TClose] + rest);
      assert ([TClose] + rest)[1..] == rest;
      ExprRead(x, [TClose] + rest, tm, modules);
    case _ =>
  }

  lemma {:induction false} TermRead(s: Syntax, rest: seq<Token>, tm: bool, modules: Operand)
    requires IsTerm(s) && TermEnds(s, rest)
    ensures ReadAnd(Spell(s) + rest, tm, modules) == Some((Meant(s, tm, modules), rest))
    decreases s, 1
  {
    if s.Conjunction? {
      Behind(Spell(s.x), TAnd, Spell(s.y), rest);
      FactorRead(s.x, [TAnd] + Spell(s.y) + rest, tm, modules);
      TermRead(s.y, rest, tm, modules);
    } else {
      FactorRead(s, rest, tm, modules);
    }
  }

  lemma {:induction false} ExprRead(s: Syntax, rest: seq<Token>, tm: bool, modules: Operand)
    requires IsExpr(s) && ExprEnds(s, rest)
    ensures ReadExpr(Spell(s) + rest, tm, modules) == Some((Meant(s, tm, modules), rest))
    decreases s, 2
  {
    if s.Disjunction? {
      Behind(Spell(s.x), TOr, Spell(s.y), rest);
      TermRead(s.x, [TOr] + Spell(s.y) + rest, tm, modules);
      ExprRead(s.y, rest, tm, modules);
    } else {
      TermRead(s, rest, tm, modules);
    }
  }

  // ---- Whatever is read is written like this ----

  /** s spells the tokens of ts that are read, and means what they are read as. */
  predicate Spells(s: Syntax, ts: seq<Token>, r: (Expr, seq<Token>), tm: bool, modules: Operand) {
    Spell(s) + r.1 == ts && Meant(s, tm, modules) == r.0
  }

  lemma SpellsParens(x: Syntax, ts: seq<Token>, e: Expr, rest: seq<Token>, tm: bool, modules: Operand)
    requires ts != [] && ts[0] == TOpen && StartsWith(rest, TClose) && Spells(x, ts[1..], (e, rest), tm, modules)
    ensures Spells(Parens(x), ts, (e, rest[1..]), tm, modules)
  {
    assert rest == [TClose] + rest[1..];
    assert ts == [TOpen] + ts[1..];
    assert ts == [TOpen] + (Spell(x) + ([TClose] + rest[1..]));
  }

  lemma SpellsJoin(x: Syntax, y: Syntax, t: Token, ts: seq<Token>, mid: seq<Token>, rest: seq<Token>)
    requires Spell(x) + mid == ts && StartsWith(mid, t) && Spell(y) + rest == mid[1..]
    ensures (Spell(x) + [t] + Spell(y)) + rest == ts
  {
    Behind(Spell(x), t, Spell(y), rest);
    assert mid == [t] + mid[1..];
    assert [t] + Spell(y) + rest == mid;
  }

  lemma {:induction false} FactorWritten(ts: seq<Token>, r: (Expr, seq<Token>), tm: bool, modules: Operand) returns (s: Syntax)
    requires ReadFactor(ts, tm, modules) == Some(r)
    ensures IsFactor(s) && Spells(s, ts, r, tm, modules) && FactorEnds(s, r.1)
    decreases |ts|, 0
  {
    assert ts == [ts[0]] + ts[1..];
    if ts[0].TNot? {
      var x := FactorWritten(ts[1..], ReadFactor(ts[1..], tm, modules).value, tm, modules);
      s := Negation(x);
      assert Spell(s) + r.1 == [TNot] + (Spell(x) + r.1);
    } else if ts[0].TOpen? {
      var a := ReadExpr(ts[1..], tm, modules).value;
      var x := ExprWritten(ts[1..], a, tm, modules);
      s := Parens(x);
      SpellsParens(x, ts, a.0, a.1, tm, modules);
    } else if |ts| > 1 && ts[1].TRel? {
      s := Relation(ts[1].op, ts[0].o, ts[2].o);
      assert ts == [ts[0], ts[1], ts[2]] + ts[3..];
    } else {
      s := Name(ts[0].o);
    }
  }

  lemma {:induction false} TermWritten(ts: seq<Token>, r: (Expr, seq<Token>), tm: bool, modules: Operand) returns (s: Syntax)
    requires ReadAnd(ts, tm, modules) == Some(r)
    ensures IsTerm(s) && Spells(s, ts, r, tm, modules) && TermEnds(s, r.1)
    decreases |ts|, 1
  {
    var a := ReadFactor(ts, tm, modules).value;
    s := FactorWritten(ts, a, tm, modules);
    if StartsWith(a.1, TAnd) {
      var y := TermWritten(a.1[1..], ReadAnd(a.1[1..], tm, modules).value, tm, modules);
      SpellsJoin(s, y, TAnd, ts, a.1, r.1);
      s := Conjunction(s, y);
    }
  }

  lemma {:induction false} ExprWritten(ts: seq<Token>, r: (Expr, seq<Token>), tm: bool, modules: Operand) returns (s: Syntax)
    requires ReadExpr(ts, tm, modules) == Some(r)
    ensures IsExpr(s) && Spells(s, ts, r, tm, modules) && ExprEnds(s, r.1)
    decreases |ts|, 2
  {
    var a := ReadAnd(ts, tm, modules).value;
    s := TermWritten(ts, a, tm, modules);
    if StartsWith(a.1, TOr) {
      var y := ExprWritten(a.1[1..], ReadExpr(a.1[1..], tm, modules).value, tm, modules);
      SpellsJoin(s, y, TOr, ts, a.1, r.1);
      s := Disjunction(s, y);
    }
  }

  /** Tokens are read as expression e with `rest` left exactly if they spell an expression that means e, which does not go on in `rest`. */
  lemma ReadsGrammar(ts: seq<Token>, tm: bool, modules: Operand, e: Expr, rest: seq<Token>)
    ensures ReadExpr(ts, tm, modules) == Some((e, rest)) <==>
      exists s :: IsExpr(s) && Spells(s, ts, (e, rest), tm, modules) && ExprEnds(s, rest)
  {
    if ReadExpr(ts, tm, modules) == Some((e, rest)) { var s := ExprWritten(ts, (e, rest), tm, modules); }
    forall s | IsExpr(s) && Spells(s, ts, (e, rest), tm, modules) && ExprEnds(s, rest)
      ensures ReadExpr(ts, tm, modules) == Some((e, rest))
    {
      ExprRead(s, rest, tm, modules);
    }
  }
}
