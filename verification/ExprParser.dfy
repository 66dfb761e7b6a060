/**
  Expressions as tokens: the printer, and the recursive-descent parser that reads
  them.  The parser nests chains of && and of || to the right, so it returns the
  printed expression up to that nesting, which does not change any value.
 */
module ExprParser {
  import opened Common
  import opened KconfigModel

  datatype Token = TSym(o: Operand) | TAnd | TOr | TNot | TOpen | TClose | TRel(op: RelOp) | TOther

  // ---- The parser, on the tokens that are left ----

  type Parsed = Option<(Expr, seq<Token>)>

  function StartsWith(ts: seq<Token>, t: Token): bool {
    ts != [] && ts[0] == t
  }

  /** With transformM, a plain m means m && MODULES. */
  function Plain(o: Operand, transformM: bool, modules: Operand): Expr {
    if transformM && o == Known(1) then And(Use(o), Use(modules)) else Use(o)
  }

  function ReadExpr(ts: seq<Token>, tm: bool, modules: Operand): (r: Parsed)
    ensures r.Some? ==> |r.value.1| < |ts|
    decreases |ts|, 2
  {
    var a :- ReadAnd(ts, tm, modules);
    if StartsWith(a.1, TOr) then
      var b :- ReadExpr(a.1[1..], tm, modules);
      Some((Or(a.0, b.0), b.1))
    else Some(a)
  }

  function ReadAnd(ts: seq<Token>, tm: bool, modules: Operand): (r: Parsed)
    ensures r.Some? ==> |r.value.1| < |ts|
    decreases |ts|, 1
  {
    var a :- ReadFactor(ts, tm, modules);
    if StartsWith(a.1, TAnd) then
      var b :- ReadAnd(a.1[1..], tm, modules);
      Some((And(a.0, b.0), b.1))
    else Some(a)
  }

  function ReadFactor(ts: seq<Token>, tm: bool, modules: Operand): (r: Parsed)
    ensures r.Some? ==> |r.value.1| < |ts|
    decreases |ts|, 0
  {
    if ts == [] then None
    else
      match ts[0]
      case TSym(o) =>
        if |ts| > 1 && ts[1].TRel? then
          if |ts| > 2 && ts[2].TSym? then Some((Rel(ts[1].op, o, ts[2].o), ts[3..])) else None
        else Some((Plain(o, tm, modules), ts[1..]))
      case TNot =>
        var a :- ReadFactor(ts[1..], tm, modules);
        Some((Not(a.0), a.1))
      case TOpen =>
        var a :- ReadExpr(ts[1..], tm, modules);
        if StartsWith(a.1, TClose) then Some((a.0, a.1[1..])) else None
      case _ => None
  }

  /** The parser as it runs, on a cursor into the tokens of a line; None stands for the parse error. */
  class Parser {
    const tokens: seq<Token>
    const modules: Operand
    var i: nat

    constructor (tokens: seq<Token>, modules: Operand)
      ensures this.tokens == tokens && this.modules == modules && i == 0
    {
      this.tokens, this.modules, i := tokens, modules, 0;
    }

    /** The result of a call that started at position `from`. */
    ghost predicate Reads(e: Option<Expr>, r: Parsed)
      reads this
    {
      && (e.Some? <==> r.Some?)
      && (e.Some? ==> e.value == r.value.0 && i <= |tokens| && tokens[i..] == r.value.1)
    }

    method CheckToken(t: Token) returns (seen: bool)
      requires i <= |tokens|
      modifies this
      ensures seen == StartsWith(old(tokens[i..]), t) && i == old(i) + (if seen then 1 else 0) && i <= |tokens|
    {
      seen := i < |tokens| && tokens[i] == t;
      if seen { i := i + 1; }
    }

    method ParseExpr(transformM: bool) returns (e: Option<Expr>)
      requires i <= |tokens|
      modifies this
      ensures Reads(e, ReadExpr(old(tokens[i..]), transformM, modules))
      decreases |tokens| - i, 2
    {
      ghost var start := i;
      e := ParseAnd(transformM);
      if e.None? { return; }
      assert |tokens[i..]| < |tokens[start..]|;
      ghost var mid := i;
      var more := CheckToken(TOr);
      if !more { return; }
      assert tokens[mid..][1..] == tokens[i..];
      var rest := ParseExpr(transformM);
      e := if rest.Some? then Some(Or(e.value, rest.value)) else None;
    }

    method ParseAnd(transformM: bool) returns (e: Option<Expr>)
      requires i <= |tokens|
      modifies this
      ensures Reads(e, ReadAnd(old(tokens[i..]), transformM, modules))
      decreases |tokens| - i, 1
    {
      ghost var start := i;
      e := ParseFactor(transformM);
      if e.None? { return; }
      assert |tokens[i..]| < |tokens[start..]|;
      ghost var mid := i;
      var more := CheckToken(TAnd);
      if !more { return; }
      assert tokens[mid..][1..] == tokens[i..];
      var rest := ParseAnd(transformM);
      e := if rest.Some? then Some(And(e.value, rest.value)) else None;
    }

    method ParseFactor(transformM: bool) returns (e: Option<Expr>)
      requires i <= |tokens|
      modifies this
      ensures Reads(e, ReadFactor(old(tokens[i..]), transformM, modules))
      decreases |tokens| - i, 0
    {
      if i == |tokens| { return None; }
      ghost var ts := tokens[i..];
      var token := tokens[i];
      i := i + 1;
      assert ts[1..] == tokens[i..];
      match token {
        case TSym(o) =>
          if i < |tokens| && tokens[i].TRel? {
            assert ts[1] == tokens[i];
            if i + 1 < |tokens| && tokens[i + 1].TSym? {
              assert ts[2] == tokens[i + 1] && ts[3..] == tokens[i + 2..];
              e := Some(Rel(tokens[i].op, o, tokens[i + 1].o));
              i := i + 2;
            } else {
              assert |ts| > 2 ==> ts[2] == tokens[i + 1];
              e := None;
            }
          } else {
            assert |ts| > 1 ==> ts[1] == tokens[i];
            e := Some(Plain(o, transformM, modules));
          }
        case TNot =>
          e := ParseFactor(transformM);
          if e.Some? { e := Some(Not(e.value)); }
        case TOpen =>
          e := ParseExpr(transformM);
          if e.Some? {
            ghost var mid := i;
            var closed := CheckToken(TClose);
            assert closed ==> tokens[mid..][1..] == tokens[i..];
            if !closed { e := None; }
          }
        case _ => e := None;
      }
    }
  }

  // ---- The printer ----

  function Print(e: Expr): seq<Token>
    requires ChoiceFree(e)
    decreases e, 0
  {
    match e
    case Use(o) => [TSym(o)]
    case And(l, r) => AndOperand(l) + [TAnd] + AndOperand(r)
    case Or(l, r) => OrOperand(l) + [TOr] + OrOperand(r)
    case Not(x) => if x.Use? then [TNot, TSym(x.o)] else [TNot, TOpen] + Print(x) + [TClose]
    case Rel(op, a, b) => [TSym(a), TRel(op), TSym(b)]
  }

  /** An operand of &&: parentheses around ||. */
  function AndOperand(e: Expr): seq<Token>
    requires ChoiceFree(e)
    decreases e, 1
  {
    if e.Or? then [TOpen] + Print(e) + [TClose] else Print(e)
  }

  /** An operand of ||: redundant parentheses around &&. */
  function OrOperand(e: Expr): seq<Token>
    requires ChoiceFree(e)
    decreases e, 1
  {
    if e.And? then [TOpen] + Print(e) + [TClose] else Print(e)
  }

  predicate ChoiceFree(e: Expr) {
    match e
    case Use(_) => true
    case Mode(_) => false
    case And(l, r) => ChoiceFree(l) && ChoiceFree(r)
    case Or(l, r) => ChoiceFree(l) && ChoiceFree(r)
    case Not(x) => ChoiceFree(x)
    case Rel(_, _, _) => true
  }

  // ---- Right-nested form ----

  function JoinAnd(l: Expr, r: Expr): Expr {
    if l.And? then And(l.l, JoinAnd(l.r, r)) else And(l, r)
  }

  function JoinOr(l: Expr, r: Expr): Expr {
    if l.Or? then Or(l.l, JoinOr(l.r, r)) else Or(l, r)
  }

  function Norm(e: Expr): Expr {
    match e
    case And(l, r) => JoinAnd(Norm(l), Norm(r))
    case Or(l, r) => JoinOr(Norm(l), Norm(r))
    case Not(x) => Not(Norm(x))
    case _ => e
  }

  /** Every plain m replaced as the parser does. */
  function Modular(e: Expr, tm: bool, modules: Operand): Expr {
    match e
    case Use(o) => Plain(o, tm, modules)
    case And(l, r) => And(Modular(l, tm, modules), Modular(r, tm, modules))
    case Or(l, r) => Or(Modular(l, tm, modules), Modular(r, tm, modules))
    case Not(x) => Not(Modular(x, tm, modules))
    case _ => e
  }

  lemma {:induction false} JoinAndValue(k: Kconf, w: State, l: Expr, r: Expr)
    ensures ExprVal(k, w, JoinAnd(l, r)) == ExprVal(k, w, And(l, r))
  {
    if l.And? { JoinAndValue(k, w, l.r, r); }
  }

  lemma {:induction false} JoinOrValue(k: Kconf, w: State, l: Expr, r: Expr)
    ensures ExprVal(k, w, JoinOr(l, r)) == ExprVal(k, w, Or(l, r))
  {
    if l.Or? { JoinOrValue(k, w, l.r, r); }
  }

  /** Nesting to the right changes no value, and reads no other item on the way. */
  lemma {:induction false} NormValue(k: Kconf, w: State, e: Expr)
    ensures ExprVal(k, w, Norm(e)) == ExprVal(k, w, e)
  {
    match e
    case And(l, r) =>
      NormValue(k, w, l);
      NormValue(k, w, r);
      JoinAndValue(k, w, Norm(l), Norm(r));
    case Or(l, r) =>
      NormValue(k, w, l);
      NormValue(k, w, r);
      JoinOrValue(k, w, Norm(l), Norm(r));
    case Not(x) => NormValue(k, w, x);
    case _ =>
  }

  lemma {:induction false} JoinAndAssoc(a: Expr, b: Expr, c: Expr)
    ensures JoinAnd(a, JoinAnd(b, c)) == JoinAnd(JoinAnd(a, b), c)
  {
    if a.And? { JoinAndAssoc(a.r, b, c); }
  }

  lemma {:induction false} JoinOrAssoc(a: Expr, b: Expr, c: Expr)
    ensures JoinOr(a, JoinOr(b, c)) == JoinOr(JoinOr(a, b), c)
  {
    if a.Or? { JoinOrAssoc(a.r, b, c); }
  }

  // ---- Reading back what was printed ----

  predicate NoRel(post: seq<Token>) {
    post == [] || !post[0].TRel?
  }

  predicate NoAnd(post: seq<Token>) {
    NoRel(post) && !StartsWith(post, TAnd)
  }

  predicate NoOr(post: seq<Token>) {
    NoAnd(post) && !StartsWith(post, TOr)
  }

  lemma {:induction false} FactorBack(e: Expr, post: seq<Token>, tm: bool, modules: Operand)
    requires ChoiceFree(e) && !e.And? && !e.Or? && NoRel(post)
    ensures ReadFactor(Print(e) + post, tm, modules) == Some((Modular(Norm(e), tm, modules), post))
    decreases e, 0
  {
    var ts := Print(e) + post;
    match e
    case Use(o) =>
      assert ts[1..] == post;
      assert |ts| > 1 ==> ts[1] == post[0];
    case Rel(op, a, b) => assert ts[3..] == post;
    case Not(x) =>
      if x.Use? {
        assert ts[1..] == Print(x) + post;
        FactorBack(x, post, tm, modules);
      } else {
        assert ts[1..] == [TOpen] + Print(x) + [TClose] + post;
        ParenBack(x, post, tm, modules);
      }
  }

  lemma {:induction false} ParenBack(e: Expr, post: seq<Token>, tm: bool, modules: Operand)
    requires ChoiceFree(e)
    ensures ReadFactor([TOpen] + Print(e) + [TClose] + post, tm, modules) == Some((Modular(Norm(e), tm, modules), post))
    decreases e, 4
  {
    var ts := [TOpen] + Print(e) + [TClose] + post;
    assert ts[1..] == Print(e) + ([TClose] + post);
    ExprBack(e, [TClose] + post, tm, modules);
    assert ([TClose] + post)[1..] == post;
  }

  /** A factor on the left of && or alone: what ReadFactor makes of an operand of &&. */
  lemma {:induction false} AndFactorBack(e: Expr, post: seq<Token>, tm: bool, modules: Operand)
    requires ChoiceFree(e) && !e.And? && NoRel(post)
    ensures ReadFactor(AndOperand(e) + post, tm, modules) == Some((Modular(Norm(e), tm, modules), post))
    decreases e, 5
  {
    if e.Or? { ParenBack(e, post, tm, modules); } else { FactorBack(e, post, tm, modules); }
  }

  lemma Regroup(a: seq<Token>, t: Token, b: seq<Token>, u: Token, c: seq<Token>)
    ensures a + [t] + b + [u] + c == a + [t] + (b + [u] + c)
    ensures a + [t] + b + c == a + [t] + (b + c)
  {
  }

  lemma Continue(a: seq<Token>, t: Token, b: seq<Token>)
    ensures a + [t] + b == a + ([t] + b) && ([t] + b)[1..] == b
  {
  }

  lemma {:induction false} AndBack(e: Expr, post: seq<Token>, tm: bool, modules: Operand)
    requires ChoiceFree(e) && NoAnd(post)
    ensures ReadAnd(AndOperand(e) + post, tm, modules) == Some((Modular(Norm(e), tm, modules), post))
    decreases e, 6
  {
    if e.And? {
      AndBack(e.r, post, tm, modules);
      AndThen(e.l, AndOperand(e.r) + post, Norm(e.r), post, tm, modules);
      Regroup(AndOperand(e.l), TAnd, AndOperand(e.r), TAnd, post);
    } else {
      AndFactorBack(e, post, tm, modules);
    }
  }

  /** A chain of && goes on in ts. */
  lemma {:induction false} AndThen(e: Expr, ts: seq<Token>, y: Expr, post: seq<Token>, tm: bool, modules: Operand)
    requires ChoiceFree(e) && ReadAnd(ts, tm, modules) == Some((Modular(y, tm, modules), post))
    ensures ReadAnd(AndOperand(e) + [TAnd] + ts, tm, modules) == Some((Modular(JoinAnd(Norm(e), y), tm, modules), post))
    decreases e, 6
  {
    if e.And? {
      AndThen(e.r, ts, y, post, tm, modules);
      AndThen(e.l, AndOperand(e.r) + [TAnd] + ts, JoinAnd(Norm(e.r), y), post, tm, modules);
      JoinAndAssoc(Norm(e.l), Norm(e.r), y);
      Regroup(AndOperand(e.l), TAnd, AndOperand(e.r), TAnd, ts);
    } else {
      AndFactorBack(e, [TAnd] + ts, tm, modules);
      NormKind(e);
      Continue(AndOperand(e), TAnd, ts);
    }
  }

  lemma {:induction false} NormKind(e: Expr)
    ensures (Norm(e).And? <==> e.And?) && (Norm(e).Or? <==> e.Or?)
  {
  }

  lemma {:induction false} OrAndBack(e: Expr, post: seq<Token>, tm: bool, modules: Operand)
    requires ChoiceFree(e) && !e.Or? && NoAnd(post)
    ensures ReadAnd(OrOperand(e) + post, tm, modules) == Some((Modular(Norm(e), tm, modules), post))
    decreases e, 5
  {
    if e.And? { ParenBack(e, post, tm, modules); } else { FactorBack(e, post, tm, modules); }
  }

  lemma {:induction false} OrBack(e: Expr, post: seq<Token>, tm: bool, modules: Operand)
    requires ChoiceFree(e) && NoOr(post)
    ensures ReadExpr(OrOperand(e) + post, tm, modules) == Some((Modular(Norm(e), tm, modules), post))
    decreases e, 6
  {
    if e.Or? {
      OrBack(e.r, post, tm, modules);
      OrThen(e.l, OrOperand(e.r) + post, Norm(e.r), post, tm, modules);
      Regroup(OrOperand(e.l), TOr, OrOperand(e.r), TOr, post);
    } else {
      OrAndBack(e, post, tm, modules);
    }
  }

  /** A chain of || goes on in ts. */
  lemma {:induction false} OrThen(e: Expr, ts: seq<Token>, y: Expr, post: seq<Token>, tm: bool, modules: Operand)
    requires ChoiceFree(e) && ReadExpr(ts, tm, modules) == Some((Modular(y, tm, modules), post))
    ensures ReadExpr(OrOperand(e) + [TOr] + ts, tm, modules) == Some((Modular(JoinOr(Norm(e), y), tm, modules), post))
    decreases e, 6
  {
    if e.Or? {
      OrThen(e.r, ts, y, post, tm, modules);
      OrThen(e.l, OrOperand(e.r) + [TOr] + ts, JoinOr(Norm(e.r), y), post, tm, modules);
      JoinOrAssoc(Norm(e.l), Norm(e.r), y);
      Regroup(OrOperand(e.l), TOr, OrOperand(e.r), TOr, ts);
    } else {
      OrAndBack(e, [TOr] + ts, tm, modules);
      NormKind(e);
      Continue(OrOperand(e), TOr, ts);
    }
  }

  lemma {:induction false} ExprBack(e: Expr, post: seq<Token>, tm: bool, modules: Operand)
    requires ChoiceFree(e) && NoOr(post)
    ensures ReadExpr(Print(e) + post, tm, modules) == Some((Modular(Norm(e), tm, modules), post))
    decreases e, 3
  {
    if e.And? {
      AndBack(e.r, post, tm, modules);
      AndThen(e.l, AndOperand(e.r) + post, Norm(e.r), post, tm, modules);
      Regroup(AndOperand(e.l), TAnd, AndOperand(e.r), TAnd, post);
    } else if e.Or? {
      OrBack(e.r, post, tm, modules);
      OrThen(e.l, OrOperand(e.r) + post, Norm(e.r), post, tm, modules);
      Regroup(OrOperand(e.l), TOr, OrOperand(e.r), TOr, post);
    } else {
      FactorBack(e, post, tm, modules);
    }
  }

  /**
    Parsing the tokens of an expression gives its right-nested form, which has the
    same value in every state, and leaves exactly the tokens that follow.
   */
  lemma ParseUndoesPrint(k: Kconf, w: State, e: Expr, post: seq<Token>)
    requires ChoiceFree(e) && NoOr(post)
    ensures ReadExpr(Print(e) + post, false, k.modules) == Some((Norm(e), post))
    ensures ExprVal(k, w, Norm(e)) == ExprVal(k, w, e)
  {
    ExprBack(e, post, false, k.modules);
    ModularOff(Norm(e), k.modules);
    NormValue(k, w, e);
  }

  lemma {:induction false} ModularOff(e: Expr, modules: Operand)
    ensures Modular(e, false, modules) == e
  {
    match e
    case And(l, r) =>
      ModularOff(l, modules);
      ModularOff(r, modules);
    case Or(l, r) =>
      ModularOff(l, modules);
      ModularOff(r, modules);
    case Not(x) => ModularOff(x, modules);
    case _ =>
  }

  // ---- Printing again ----

  lemma {:induction false} JoinAndPrint(l: Expr, r: Expr)
    requires ChoiceFree(l) && ChoiceFree(r)
    ensures ChoiceFree(JoinAnd(l, r)) && Print(JoinAnd(l, r)) == AndOperand(l) + [TAnd] + AndOperand(r)
  {
    if l.And? {
      JoinAndPrint(l.r, r);
      assert AndOperand(l.l) + [TAnd] + (AndOperand(l.r) + [TAnd] + AndOperand(r)) ==
             AndOperand(l.l) + [TAnd] + AndOperand(l.r) + [TAnd] + AndOperand(r);
    }
  }

  lemma {:induction false} JoinOrPrint(l: Expr, r: Expr)
    requires ChoiceFree(l) && ChoiceFree(r)
    ensures ChoiceFree(JoinOr(l, r)) && Print(JoinOr(l, r)) == OrOperand(l) + [TOr] + OrOperand(r)
  {
    if l.Or? {
      JoinOrPrint(l.r, r);
      assert OrOperand(l.l) + [TOr] + (OrOperand(l.r) + [TOr] + OrOperand(r)) ==
             OrOperand(l.l) + [TOr] + OrOperand(l.r) + [TOr] + OrOperand(r);
    }
  }

  /** The parsed form prints as the same tokens. */
  lemma {:induction false} PrintNorm(e: Expr)
    requires ChoiceFree(e)
    ensures ChoiceFree(Norm(e)) && Print(Norm(e)) == Print(e)
  {
    match e
    case And(l, r) =>
      PrintNorm(l);
      PrintNorm(r);
      NormKind(l);
      NormKind(r);
      JoinAndPrint(Norm(l), Norm(r));
    case Or(l, r) =>
      PrintNorm(l);
      PrintNorm(r);
      NormKind(l);
      NormKind(r);
      JoinOrPrint(Norm(l), Norm(r));
    case Not(x) => PrintNorm(x);
    case _ =>
  }
}
