/**
  What expressions mean: the laws of negation, conjunction, disjunction and of the
  six relations.  Laws without a condition hold in every table of cached values,
  also where values are missing.
 */
module ExprMeaning {
  import opened Common
  import opened KconfigModel

  // ---- Negation, conjunction, disjunction ----

  lemma NotSwaps(k: Kconf, w: State, e: Expr)
    ensures ExprVal(k, w, Not(e)) == Some(0) <==> ExprVal(k, w, e) == Some(2)
    ensures ExprVal(k, w, Not(e)) == Some(1) <==> ExprVal(k, w, e) == Some(1)
    ensures ExprVal(k, w, Not(e)) == Some(2) <==> ExprVal(k, w, e) == Some(0)
    ensures ExprVal(k, w, Not(Not(e))) == ExprVal(k, w, e)
  {
    var v := ExprVal(k, w, e);
    assert v.Some? ==> v.value == 0 || v.value == 1 || v.value == 2;
  }

  lemma NotReverses(k: Kconf, w: State, a: Expr, b: Expr)
    requires ExprVal(k, w, a).Some? && ExprVal(k, w, b).Some?
    ensures ExprVal(k, w, Not(a)).Some? && ExprVal(k, w, Not(b)).Some?
    ensures ExprVal(k, w, a).value <= ExprVal(k, w, b).value <==> ExprVal(k, w, Not(b)).value <= ExprVal(k, w, Not(a)).value
  {
    assert ExprVal(k, w, Not(a)) == Some(2 - ExprVal(k, w, a).value);
  }

  lemma DeMorgan(k: Kconf, w: State, a: Expr, b: Expr)
    ensures ExprVal(k, w, Not(And(a, b))) == ExprVal(k, w, Or(Not(a), Not(b)))
    ensures ExprVal(k, w, Not(Or(a, b))) == ExprVal(k, w, And(Not(a), Not(b)))
  {
    NotSwaps(k, w, a);
    assert ExprVal(k, w, Not(a)).None? <==> ExprVal(k, w, a).None?;
    assert ExprVal(k, w, Not(b)).None? <==> ExprVal(k, w, b).None?;
  }

  /** && is n as soon as one side is, y only if both are, and otherwise the lesser; || is the other way round. */
  lemma AndOrLattice(k: Kconf, w: State, a: Expr, b: Expr, t: Tri)
    requires ExprVal(k, w, a).Some? && ExprVal(k, w, b).Some?
    ensures ExprVal(k, w, And(a, b)).Some? && ExprVal(k, w, Or(a, b)).Some?
    ensures t <= ExprVal(k, w, And(a, b)).value <==> t <= ExprVal(k, w, a).value && t <= ExprVal(k, w, b).value
    ensures ExprVal(k, w, Or(a, b)).value <= t <==> ExprVal(k, w, a).value <= t && ExprVal(k, w, b).value <= t
  {
  }

  /** The left side decides alone where it can. */
  lemma ShortCircuit(k: Kconf, w: State, a: Expr, b: Expr)
    ensures ExprVal(k, w, a) == Some(0) ==> ExprVal(k, w, And(a, b)) == Some(0)
    ensures ExprVal(k, w, a) == Some(2) ==> ExprVal(k, w, Or(a, b)) == Some(2)
    ensures ExprVal(k, w, a) == Some(2) ==> ExprVal(k, w, And(a, b)) == ExprVal(k, w, b)
    ensures ExprVal(k, w, a) == Some(0) ==> ExprVal(k, w, Or(a, b)) == ExprVal(k, w, b)
  {
  }

  // ---- Operands ----

  /** Constants, names without a definition, and symbols, read as a tristate value and as text. */
  lemma OperandValues(k: Kconf, w: State, o: Operand)
    ensures o.Known? ==> ExprVal(k, w, Use(o)) == Some(o.t) && StrOf(k, w, o) == Some(TriName(o.t))
    ensures o.Text? ==> ExprVal(k, w, Use(o)) == Some(0) && StrOf(k, w, o) == Some(o.name)
    ensures o.Sym? && o.s < |k.syms| && o.s < |w.syms| ==>
              var d, x := k.syms[o.s], w.syms[o.s];
              && ExprVal(k, w, Use(o)) == (if d.kind == Bool || d.kind == Tristate then x.tri else Some(0))
              && StrOf(k, w, o) == (if d.kind == Unknown then Some(d.name) else x.str)
  {
  }

  // ---- Relations ----

  function Related(k: Kconf, w: State, op: RelOp, a: Operand, b: Operand): Option<Tri> {
    ExprVal(k, w, Rel(op, a, b))
  }

  lemma RelationsComplement(k: Kconf, w: State, a: Operand, b: Operand)
    ensures Related(k, w, Unequal, a, b) == ExprVal(k, w, Not(Rel(Equal, a, b)))
    ensures Related(k, w, GreaterEqual, a, b) == ExprVal(k, w, Not(Rel(Less, a, b)))
    ensures Related(k, w, LessEqual, a, b) == ExprVal(k, w, Not(Rel(Greater, a, b)))
    ensures Related(k, w, LessEqual, a, b) == ExprVal(k, w, Or(Rel(Less, a, b), Rel(Equal, a, b)))
    ensures ExprVal(k, w, And(Rel(Less, a, b), Rel(Greater, a, b))).None?
         || ExprVal(k, w, And(Rel(Less, a, b), Rel(Greater, a, b))) == Some(0)
    ensures forall op :: Related(k, w, op, a, b) != Some(1)
  {
    assert Compare(k, w, a, b).None? || Compare(k, w, a, b).Some?;
    forall op ensures Related(k, w, op, a, b) != Some(1) {}
  }

  lemma {:induction false} StrCmpZero(s: string, t: string)
    ensures StrCmp(s, t) == 0 <==> s == t
  {
    if s != "" && t != "" {
      StrCmpZero(s[1..], t[1..]);
      assert s == [s[0]] + s[1..] && t == [t[0]] + t[1..];
    }
  }

  /** Dictionary order: s ends first, or has the lesser character where the two first differ. */
  predicate InOrder(s: string, t: string, n: nat) {
    && n <= |s| && n <= |t| && s[..n] == t[..n]
    && (if n == |s| then n < |t| else n < |t| && s[n] < t[n])
  }

  lemma InOrderTail(s: string, t: string, n: nat)
    requires s != "" && t != "" && s[0] == t[0]
    ensures InOrder(s, t, n + 1) <==> InOrder(s[1..], t[1..], n)
  {
    if n < |s| && n < |t| {
      assert s[..n + 1] == [s[0]] + s[1..][..n] && t[..n + 1] == [t[0]] + t[1..][..n];
      assert s[1..][..n] == s[..n + 1][1..] && t[1..][..n] == t[..n + 1][1..];
    }
  }

  lemma {:induction false} StrCmpLess(s: string, t: string)
    ensures StrCmp(s, t) < 0 <==> exists n: nat :: InOrder(s, t, n)
    ensures StrCmp(s, t) < 0 <==> StrCmp(t, s) > 0
  {
    if s == "" || t == "" || s[0] < t[0] {
      assert t != "" && (s == "" || s[0] < t[0]) ==> InOrder(s, t, 0);
    } else if s[0] == t[0] {
      StrCmpLess(s[1..], t[1..]);
      forall n: nat ensures InOrder(s, t, n + 1) <==> InOrder(s[1..], t[1..], n) { InOrderTail(s, t, n); }
      if n: nat :| InOrder(s, t, n) { assert n > 0 && InOrder(s[1..], t[1..], n - 1); }
    } else {
      forall n: nat ensures !InOrder(s, t, n) {
        if n > 0 && n <= |s| && n <= |t| { assert s[..n][0] == s[0] && t[..n][0] == t[0]; }
      }
    }
  }

  /** Whether a relation compares two operands as texts: both are string symbols, or one is not a number. */
  predicate AsTexts(k: Kconf, w: State, a: Operand, b: Operand) {
    (KindOf(k, a) == Str && KindOf(k, b) == Str) || NumOf(k, w, a) == Some(None) || NumOf(k, w, b) == Some(None)
  }

  ghost predicate BothKnown(k: Kconf, w: State, a: Operand, b: Operand) {
    NumOf(k, w, a).Some? && NumOf(k, w, b).Some? && StrOf(k, w, a).Some? && StrOf(k, w, b).Some?
  }

  /** Texts are related as in the dictionary, and equal exactly if they are the same. */
  lemma TextRelation(k: Kconf, w: State, a: Operand, b: Operand)
    requires BothKnown(k, w, a, b) && AsTexts(k, w, a, b)
    ensures var s, t := StrOf(k, w, a).value, StrOf(k, w, b).value;
      && (Related(k, w, Equal, a, b) == Some(2) <==> s == t)
      && (Related(k, w, Less, a, b) == Some(2) <==> exists n: nat :: InOrder(s, t, n))
      && (Related(k, w, Greater, a, b) == Some(2) <==> exists n: nat :: InOrder(t, s, n))
  {
    var s, t := StrOf(k, w, a).value, StrOf(k, w, b).value;
    StrCmpZero(s, t);
    StrCmpLess(s, t);
    StrCmpLess(t, s);
    assert Compare(k, w, a, b) == Some(StrCmp(s, t));
  }

  /** Numbers, and tristate values, are related as integers. */
  lemma NumberRelation(k: Kconf, w: State, a: Operand, b: Operand)
    requires BothKnown(k, w, a, b) && !AsTexts(k, w, a, b)
    ensures var x, y := NumOf(k, w, a).value.value, NumOf(k, w, b).value.value;
      && (Related(k, w, Equal, a, b) == Some(2) <==> x == y)
      && (Related(k, w, Less, a, b) == Some(2) <==> x < y)
      && (Related(k, w, Greater, a, b) == Some(2) <==> x > y)
  {
    assert Compare(k, w, a, b) == Some(NumOf(k, w, a).value.value - NumOf(k, w, b).value.value);
  }

  /** What counts as a number: the values 0, 1, 2 of bool and tristate operands, or what the text parses to in the base of the type. */
  lemma OperandNumber(k: Kconf, w: State, o: Operand)
    ensures KindOf(k, o) == Bool || KindOf(k, o) == Tristate ==>
              NumOf(k, w, o) == if ExprVal(k, w, Use(o)).Some? then Some(Some(ExprVal(k, w, Use(o)).value)) else None
    ensures KindOf(k, o) != Bool && KindOf(k, o) != Tristate && StrOf(k, w, o).Some? ==>
              var base := if KindOf(k, o) == Int then 10 else if KindOf(k, o) == Hex then 16 else 0;
              NumOf(k, w, o) == Some(k.numbers.parse(StrOf(k, w, o).value, base))
  {
  }

  lemma EqualsItself(k: Kconf, w: State, a: Operand)
    requires NumOf(k, w, a).Some? && StrOf(k, w, a).Some?
    ensures Related(k, w, Equal, a, a) == Some(2)
  {
    if AsTexts(k, w, a, a) { TextRelation(k, w, a, a); } else { NumberRelation(k, w, a, a); }
  }

  /** Swapping the operands turns the relation round. */
  lemma RelationMirrored(k: Kconf, w: State, a: Operand, b: Operand)
    requires BothKnown(k, w, a, b)
    ensures Related(k, w, Less, a, b) == Related(k, w, Greater, b, a)
    ensures Related(k, w, Equal, a, b) == Related(k, w, Equal, b, a)
  {
    RelationsComplement(k, w, a, b);
    RelationsComplement(k, w, b, a);
    if AsTexts(k, w, a, b) {
      TextRelation(k, w, a, b);
      TextRelation(k, w, b, a);
    } else {
      NumberRelation(k, w, a, b);
      NumberRelation(k, w, b, a);
    }
  }
}
