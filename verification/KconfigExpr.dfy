/**
 Kconfig expressions (scripts/kconfig/kconfiglib.py): evaluation, printing and parsing, at
 the level of tokens.  Choices do not occur in these expressions.
 */
module KconfigExpr {

  datatype Rel = Equal | Unequal | Less | LessEqual | Greater | GreaterEqual

  /** `Other` stands for every token that no expression contains. */
  datatype Token = Sym(id: int) | TNot | TAnd | TOr | TOpen | TClose | TRel(rel: Rel) | Other

  datatype Expr =
    | Symbol(id: int)
    | And(left: Expr, right: Expr)
    | Or(left: Expr, right: Expr)
    | Not(arg: Expr)
    | Relation(rel: Rel, a: int, b: int)

  /** The symbols `m` and MODULES, which `_parse_factor` knows. */
  const M: int := 1
  const MODULES: int := 2

  // ------------------------------------------------------------------- evaluation

  /** Tristate values of symbols, and how the values of two symbols compare. */
  datatype Env = Env(tri: int -> int, cmp: (int, int) -> int)

  ghost predicate EnvOk(env: Env) {
    forall s: int :: 0 <= env.tri(s) <= 2
  }

  function Holds(rel: Rel, comp: int): bool {
    match rel
    case Equal => comp == 0
    case Unequal => comp != 0
    case Less => comp < 0
    case LessEqual => comp <= 0
    case Greater => comp > 0
    case GreaterEqual => comp >= 0
  }

  /** Of two values, exactly one of <, = and > holds; the other relations are made of these. */
  lemma RelationsPartition(comp: int)
    ensures Holds(Equal, comp) <==> comp == 0
    ensures Holds(Less, comp) <==> comp < 0 && Holds(Greater, -comp)
    ensures Holds(Greater, comp) <==> !Holds(Less, comp) && !Holds(Equal, comp)
    ensures Holds(LessEqual, comp) <==> Holds(Less, comp) || Holds(Equal, comp)
    ensures Holds(GreaterEqual, comp) <==> !Holds(Less, comp)
    ensures Holds(Unequal, comp) <==> !Holds(Equal, comp)
  {
  }

  function Min(a: int, b: int): (m: int)
    ensures m <= a && m <= b && (m == a || m == b)
  {
    if a < b then a else b
  }

  function Max(a: int, b: int): (m: int)
    ensures m >= a && m >= b && (m == a || m == b)
  {
    if a < b then b else a
  }

  /** expr_value, with its short-circuits. */
  function ExprValue(e: Expr, env: Env): int {
    match e
    case Symbol(id) => env.tri(id)
    case And(l, r) => var v1 := ExprValue(l, env); if v1 == 0 then 0 else Min(v1, ExprValue(r, env))
    case Or(l, r) => var v1 := ExprValue(l, env); if v1 == 2 then 2 else Max(v1, ExprValue(r, env))
    case Not(x) => 2 - ExprValue(x, env)
    case Relation(rel, a, b) => if Holds(rel, env.cmp(a, b)) then 2 else 0
  }

  /** The meaning of an expression in Kconfig's three-valued logic. */
  function Meaning(e: Expr, env: Env): int {
    match e
    case Symbol(id) => env.tri(id)
    case And(l, r) => Min(Meaning(l, env), Meaning(r, env))
    case Or(l, r) => Max(Meaning(l, env), Meaning(r, env))
    case Not(x) => 2 - Meaning(x, env)
    case Relation(rel, a, b) => if Holds(rel, env.cmp(a, b)) then 2 else 0
  }

  /** Short-circuiting changes no value, and values are n, m or y. */
  lemma {:induction false} ShortCircuit(e: Expr, env: Env)
    requires EnvOk(env)
    ensures ExprValue(e, env) == Meaning(e, env) && 0 <= Meaning(e, env) <= 2
  {
    match e
    case Symbol(_) =>
    case And(l, r) => ShortCircuit(l, env); ShortCircuit(r, env);
    case Or(l, r) => ShortCircuit(l, env); ShortCircuit(r, env);
    case Not(x) => ShortCircuit(x, env);
    case Relation(_, _, _) =>
  }

  // --------------------------------------------------------------------- printing

  function Parens(ts: seq<Token>): seq<Token> {
    [TOpen] + ts + [TClose]
  }

  /** expr_str, with `_parenthesize` inlined. */
  function Print(e: Expr): (ts: seq<Token>)
    ensures ts != []
  {
    match e
    case Symbol(id) => [Sym(id)]
    case And(l, r) =>
      (if l.Or? then Parens(Print(l)) else Print(l)) + [TAnd] + (if r.Or? then Parens(Print(r)) else Print(r))
    case Or(l, r) =>
      (if l.And? then Parens(Print(l)) else Print(l)) + [TOr] + (if r.And? then Parens(Print(r)) else Print(r))
    case Not(x) => if x.Symbol? then [TNot, Sym(x.id)] else [TNot] + Parens(Print(x))
    case Relation(rel, a, b) => [Sym(a), TRel(rel), Sym(b)]
  }

  /** An operand as `_parenthesize` prints it below && or ||. */
  function PrintUnder(e: Expr, parens: bool): seq<Token> {
    if parens then Parens(Print(e)) else Print(e)
  }

  // ---------------------------------------------------------------------- parsing

  datatype Parse = Ok(e: Expr, i: nat) | Error

  /** The token at i; past the last one, the None that ends every token list. */
  function Tok(ts: seq<Token>, i: nat): Token {
    if i < |ts| then ts[i] else Other
  }

  /** A plain symbol; `m` becomes `m && MODULES` in conditions. */
  function Leaf(id: int, tm: bool): Expr {
    if tm && id == M then And(Symbol(M), Symbol(MODULES)) else Symbol(id)
  }

  function ParseExpr(ts: seq<Token>, i: nat, tm: bool): (p: Parse)
    ensures p.Ok? ==> i < p.i <= |ts|
    decreases |ts| - i, 2
  {
    match ParseAndExpr(ts, i, tm)
    case Error => Error
    case Ok(e, j) =>
      if Tok(ts, j) != TOr then Ok(e, j)
      else match ParseExpr(ts, j + 1, tm) case Error => Error case Ok(e2, k) => Ok(Or(e, e2), k)
  }

  function ParseAndExpr(ts: seq<Token>, i: nat, tm: bool): (p: Parse)
    ensures p.Ok? ==> i < p.i <= |ts|
    decreases |ts| - i, 1
  {
    match ParseFactor(ts, i, tm)
    case Error => Error
    case Ok(e, j) =>
      if Tok(ts, j) != TAnd then Ok(e, j)
      else match ParseAndExpr(ts, j + 1, tm) case Error => Error case Ok(e2, k) => Ok(And(e, e2), k)
  }

  function ParseFactor(ts: seq<Token>, i: nat, tm: bool): (p: Parse)
    ensures p.Ok? ==> i < p.i <= |ts|
    decreases |ts| - i, 0
  {
    match Tok(ts, i)
    case Sym(id) =>
      if !Tok(ts, i + 1).TRel? then Ok(Leaf(id, tm), i + 1)
      else if Tok(ts, i + 2).Sym? then Ok(Relation(ts[i + 1].rel, id, ts[i + 2].id), i + 3)
      else Error
    case TNot =>
      (match ParseFactor(ts, i + 1, tm) case Error => Error case Ok(e, j) => Ok(Not(e), j))
    case TOpen =>
      (match ParseExpr(ts, i + 1, tm)
       case Error => Error
       case Ok(e, j) => if Tok(ts, j) == TClose then Ok(e, j + 1) else Error)
    case _ => Error
  }

  // ---------------------------------------------------------------- reassociation

  function AppendAnd(x: Expr, y: Expr): Expr {
    if x.And? then And(x.left, AppendAnd(x.right, y)) else And(x, y)
  }

  function AppendOr(x: Expr, y: Expr): Expr {
    if x.Or? then Or(x.left, AppendOr(x.right, y)) else Or(x, y)
  }

  /** The same expression with every chain of && and of || associated to the right. */
  function Norm(e: Expr): Expr {
    match e
    case Symbol(_) => e
    case And(l, r) => AppendAnd(Norm(l), Norm(r))
    case Or(l, r) => AppendOr(Norm(l), Norm(r))
    case Not(x) => Not(Norm(x))
    case Relation(_, _, _) => e
  }

  /** The expression with every plain `m` rewritten, when asked to. */
  function RewriteM(e: Expr, tm: bool): Expr {
    match e
    case Symbol(id) => Leaf(id, tm)
    case And(l, r) => And(RewriteM(l, tm), RewriteM(r, tm))
    case Or(l, r) => Or(RewriteM(l, tm), RewriteM(r, tm))
    case Not(x) => Not(RewriteM(x, tm))
    case Relation(_, _, _) => e
  }

  lemma {:induction false} AppendAndAssoc(x: Expr, y: Expr, z: Expr)
    ensures AppendAnd(AppendAnd(x, y), z) == AppendAnd(x, AppendAnd(y, z))
  {
    if x.And? { AppendAndAssoc(x.right, y, z); }
  }

  lemma {:induction false} AppendOrAssoc(x: Expr, y: Expr, z: Expr)
    ensures AppendOr(AppendOr(x, y), z) == AppendOr(x, AppendOr(y, z))
  {
    if x.Or? { AppendOrAssoc(x.right, y, z); }
  }

  lemma NormAppend(e: Expr, r: Expr)
    ensures e.And? ==> AppendAnd(Norm(e), r) == AppendAnd(Norm(e.left), AppendAnd(Norm(e.right), r))
    ensures e.Or? ==> AppendOr(Norm(e), r) == AppendOr(Norm(e.left), AppendOr(Norm(e.right), r))
  {
    if e.And? { AppendAndAssoc(Norm(e.left), Norm(e.right), r); }
    if e.Or? { AppendOrAssoc(Norm(e.left), Norm(e.right), r); }
  }

  lemma {:induction false} AppendMeaning(x: Expr, y: Expr, env: Env)
    ensures Meaning(AppendAnd(x, y), env) == Min(Meaning(x, env), Meaning(y, env))
    ensures Meaning(AppendOr(x, y), env) == Max(Meaning(x, env), Meaning(y, env))
  {
    if x.And? || x.Or? { AppendMeaning(x.right, y, env); }
  }

  /** Reassociating changes no value. */
  lemma {:induction false} NormMeaning(e: Expr, env: Env)
    ensures Meaning(Norm(e), env) == Meaning(e, env)
  {
    match e
    case Symbol(_) =>
    case And(l, r) => NormMeaning(l, env); NormMeaning(r, env); AppendMeaning(Norm(l), Norm(r), env);
    case Or(l, r) => NormMeaning(l, env); NormMeaning(r, env); AppendMeaning(Norm(l), Norm(r), env);
    case Not(x) => NormMeaning(x, env);
    case Relation(_, _, _) =>
  }

  // ------------------------------------------------------------------- round trip

  /** Tokens `p` stand at position i. */
  ghost predicate At(ts: seq<Token>, i: nat, p: seq<Token>)
    decreases |p|
  {
    p == [] || (Tok(ts, i) == p[0] && At(ts, i + 1, p[1..]))
  }

  lemma {:induction false} AtSplit(ts: seq<Token>, i: nat, p: seq<Token>, q: seq<Token>)
    requires At(ts, i, p + q)
    ensures At(ts, i, p) && At(ts, i + |p|, q)
    decreases |p|
  {
    if p == [] {
      assert p + q == q;
    } else {
      assert (p + q)[1..] == p[1..] + q;
      AtSplit(ts, i + 1, p[1..], q);
    }
  }

  lemma AtFirst(ts: seq<Token>, i: nat, p: seq<Token>)
    requires At(ts, i, p) && p != []
    ensures Tok(ts, i) == p[0] && At(ts, i + 1, p[1..])
  {
  }

  lemma {:induction false} AtItself(ts: seq<Token>, i: nat)
    requires i <= |ts|
    ensures At(ts, i, ts[i..])
    decreases |ts| - i
  {
    if i < |ts| {
      AtItself(ts, i + 1);
      assert ts[i..][1..] == ts[i + 1..];
    }
  }

  lemma AtOperator(ts: seq<Token>, i: nat, p: seq<Token>, t: Token, q: seq<Token>)
    requires At(ts, i, p + [t] + q)
    ensures At(ts, i, p) && Tok(ts, i + |p|) == t && At(ts, i + |p| + 1, q)
  {
    AtSplit(ts, i, p + [t], q);
    AtSplit(ts, i, p, [t]);
    AtFirst(ts, i + |p|, [t]);
  }

  /** What may follow a complete expression: no operator that would extend it. */
  predicate Ends(t: Token) {
    !t.TAnd? && !t.TOr? && !t.TRel?
  }

  predicate IsFactor(e: Expr) {
    e.Symbol? || e.Not? || e.Relation?
  }

  lemma NormShape(e: Expr)
    ensures Norm(e).And? == e.And? && Norm(e).Or? == e.Or?
  {
  }

  lemma {:induction false} FactorParses(ts: seq<Token>, i: nat, e: Expr, tm: bool)
    requires IsFactor(e) && At(ts, i, Print(e)) && !Tok(ts, i + |Print(e)|).TRel?
    ensures ParseFactor(ts, i, tm) == Ok(RewriteM(Norm(e), tm), i + |Print(e)|)
    decreases e, 0
  {
    if e.Symbol? {
      AtFirst(ts, i, [Sym(e.id)]);
    } else if e.Not? {
      if e.arg.Symbol? {
        AtSplit(ts, i, [TNot], [Sym(e.arg.id)]);
        AtFirst(ts, i, [TNot]);
        AtFirst(ts, i + 1, [Sym(e.arg.id)]);
      } else {
        AtSplit(ts, i, [TNot], Parens(Print(e.arg)));
        ParenParses(ts, i + 1, e.arg, tm);
      }
    } else {
      AtSplit(ts, i, [Sym(e.a)], [TRel(e.rel)] + [Sym(e.b)]);
      AtSplit(ts, i + 1, [TRel(e.rel)], [Sym(e.b)]);
      AtFirst(ts, i, [Sym(e.a)]);
      AtFirst(ts, i + 1, [TRel(e.rel)]);
      AtFirst(ts, i + 2, [Sym(e.b)]);
    }
  }

  lemma {:induction false} ParenParses(ts: seq<Token>, i: nat, e: Expr, tm: bool)
    requires At(ts, i, Parens(Print(e)))
    ensures ParseFactor(ts, i, tm) == Ok(RewriteM(Norm(e), tm), i + |Print(e)| + 2)
    decreases e, 3
  {
    AtParens(ts, i, Print(e));
    WholeParses(ts, i + 1, e, tm);
    ParenStep(ts, i, tm, RewriteM(Norm(e), tm), i + 1 + |Print(e)|);
  }

  lemma AtParens(ts: seq<Token>, i: nat, p: seq<Token>)
    requires At(ts, i, Parens(p))
    ensures Tok(ts, i) == TOpen && At(ts, i + 1, p) && Tok(ts, i + 1 + |p|) == TClose
  {
    AtSplit(ts, i, [TOpen] + p, [TClose]);
    AtSplit(ts, i, [TOpen], p);
    AtFirst(ts, i, [TOpen]);
    AtFirst(ts, i + 1 + |p|, [TClose]);
  }

  /** One turn of _parse_factor, of _parse_expr and of _parse_and_expr. */
  lemma ParenStep(ts: seq<Token>, i: nat, tm: bool, x: Expr, j: nat)
    requires Tok(ts, i) == TOpen && ParseExpr(ts, i + 1, tm) == Ok(x, j) && Tok(ts, j) == TClose
    ensures ParseFactor(ts, i, tm) == Ok(x, j + 1)
  {
  }

  lemma OrStep(ts: seq<Token>, i: nat, tm: bool, x: Expr, j: nat)
    requires ParseAndExpr(ts, i, tm) == Ok(x, j)
    ensures Tok(ts, j) != TOr ==> ParseExpr(ts, i, tm) == Ok(x, j)
  {
  }

  lemma OrAppends(ts: seq<Token>, i: nat, tm: bool, x: Expr, j: nat, r: Expr, k: nat)
    requires ParseAndExpr(ts, i, tm) == Ok(RewriteM(x, tm), j) && Tok(ts, j) == TOr && !x.Or?
    requires ParseExpr(ts, j + 1, tm) == Ok(RewriteM(r, tm), k)
    ensures ParseExpr(ts, i, tm) == Ok(RewriteM(AppendOr(x, r), tm), k)
  {
    OrTurn(ts, i, tm, RewriteM(x, tm), j, RewriteM(r, tm), k);
  }

  lemma OrTurn(ts: seq<Token>, i: nat, tm: bool, x: Expr, j: nat, r: Expr, k: nat)
    requires ParseAndExpr(ts, i, tm) == Ok(x, j) && Tok(ts, j) == TOr && ParseExpr(ts, j + 1, tm) == Ok(r, k)
    ensures ParseExpr(ts, i, tm) == Ok(Or(x, r), k)
  {
  }

  lemma AndStep(ts: seq<Token>, i: nat, tm: bool, x: Expr, j: nat)
    requires ParseFactor(ts, i, tm) == Ok(x, j)
    ensures Tok(ts, j) != TAnd ==> ParseAndExpr(ts, i, tm) == Ok(x, j)
  {
  }

  lemma AndAppends(ts: seq<Token>, i: nat, tm: bool, x: Expr, j: nat, r: Expr, k: nat)
    requires ParseFactor(ts, i, tm) == Ok(RewriteM(x, tm), j) && Tok(ts, j) == TAnd && !x.And?
    requires ParseAndExpr(ts, j + 1, tm) == Ok(RewriteM(r, tm), k)
    ensures ParseAndExpr(ts, i, tm) == Ok(RewriteM(AppendAnd(x, r), tm), k)
  {
    AndTurn(ts, i, tm, RewriteM(x, tm), j, RewriteM(r, tm), k);
  }

  lemma AndTurn(ts: seq<Token>, i: nat, tm: bool, x: Expr, j: nat, r: Expr, k: nat)
    requires ParseFactor(ts, i, tm) == Ok(x, j) && Tok(ts, j) == TAnd && ParseAndExpr(ts, j + 1, tm) == Ok(r, k)
    ensures ParseAndExpr(ts, i, tm) == Ok(And(x, r), k)
  {
  }

  /** An operand of && parses, parenthesised if need be, when no && follows it. */
  lemma {:induction false} AndLast(ts: seq<Token>, i: nat, e: Expr, tm: bool)
    requires At(ts, i, PrintUnder(e, e.Or?)) && !Tok(ts, i + |PrintUnder(e, e.Or?)|).TAnd?
    requires !Tok(ts, i + |PrintUnder(e, e.Or?)|).TRel?
    ensures ParseAndExpr(ts, i, tm) == Ok(RewriteM(Norm(e), tm), i + |PrintUnder(e, e.Or?)|)
    decreases e, if e.Or? then 4 else 1
  {
    if e.And? {
      AndPairLast(ts, i, e, tm);
    } else {
      if e.Or? { ParenParses(ts, i, e, tm); } else { FactorParses(ts, i, e, tm); }
      AndStep(ts, i, tm, RewriteM(Norm(e), tm), i + |PrintUnder(e, e.Or?)|);
    }
  }

  /** When && and further operands follow it, they are appended. */
  lemma {:induction false} AndMore(ts: seq<Token>, i: nat, e: Expr, tm: bool, r: Expr, k: nat)
    requires At(ts, i, PrintUnder(e, e.Or?)) && Tok(ts, i + |PrintUnder(e, e.Or?)|) == TAnd
    requires ParseAndExpr(ts, i + |PrintUnder(e, e.Or?)| + 1, tm) == Ok(RewriteM(r, tm), k)
    ensures ParseAndExpr(ts, i, tm) == Ok(RewriteM(AppendAnd(Norm(e), r), tm), k)
    decreases e, if e.Or? then 4 else 1
  {
    if e.And? {
      AndPairMore(ts, i, e, tm, r, k);
    } else {
      NormShape(e);
      if e.Or? { ParenParses(ts, i, e, tm); } else { FactorParses(ts, i, e, tm); }
      AndAppends(ts, i, tm, Norm(e), i + |PrintUnder(e, e.Or?)|, r, k);
    }
  }

  lemma AndPrinted(ts: seq<Token>, i: nat, e: Expr) returns (pl: seq<Token>, pr: seq<Token>)
    requires e.And? && At(ts, i, Print(e))
    ensures pl == PrintUnder(e.left, e.left.Or?) && pr == PrintUnder(e.right, e.right.Or?)
    ensures |Print(e)| == |pl| + 1 + |pr|
    ensures At(ts, i, pl) && Tok(ts, i + |pl|) == TAnd && At(ts, i + |pl| + 1, pr)
  {
    pl, pr := PrintUnder(e.left, e.left.Or?), PrintUnder(e.right, e.right.Or?);
    assert Print(e) == pl + [TAnd] + pr;
    AtOperator(ts, i, pl, TAnd, pr);
  }

  lemma {:induction false} AndPairLast(ts: seq<Token>, i: nat, e: Expr, tm: bool)
    requires e.And? && At(ts, i, Print(e)) && !Tok(ts, i + |Print(e)|).TAnd? && !Tok(ts, i + |Print(e)|).TRel?
    ensures ParseAndExpr(ts, i, tm) == Ok(RewriteM(Norm(e), tm), i + |Print(e)|)
    decreases e, 0
  {
    var pl, pr := AndPrinted(ts, i, e);
    AndLast(ts, i + |pl| + 1, e.right, tm);
    AndMore(ts, i, e.left, tm, Norm(e.right), i + |Print(e)|);
  }

  lemma {:induction false} AndPairMore(ts: seq<Token>, i: nat, e: Expr, tm: bool, r: Expr, k: nat)
    requires e.And? && At(ts, i, Print(e)) && Tok(ts, i + |Print(e)|) == TAnd
    requires ParseAndExpr(ts, i + |Print(e)| + 1, tm) == Ok(RewriteM(r, tm), k)
    ensures ParseAndExpr(ts, i, tm) == Ok(RewriteM(AppendAnd(Norm(e), r), tm), k)
    decreases e, 0
  {
    var pl, pr := AndPrinted(ts, i, e);
    AndMore(ts, i + |pl| + 1, e.right, tm, r, k);
    AndMore(ts, i, e.left, tm, AppendAnd(Norm(e.right), r), k);
    NormAppend(e, r);
  }

  /** The same for ||. */
  lemma {:induction false} OrLast(ts: seq<Token>, i: nat, e: Expr, tm: bool)
    requires At(ts, i, PrintUnder(e, e.And?)) && Ends(Tok(ts, i + |PrintUnder(e, e.And?)|))
    ensures ParseExpr(ts, i, tm) == Ok(RewriteM(Norm(e), tm), i + |PrintUnder(e, e.And?)|)
    decreases e, if e.And? then 4 else 1
  {
    if e.Or? {
      OrPairLast(ts, i, e, tm);
    } else {
      SingleParses(ts, i, e, tm);
      OrStep(ts, i, tm, RewriteM(Norm(e), tm), i + |PrintUnder(e, e.And?)|);
    }
  }

  lemma {:induction false} OrMore(ts: seq<Token>, i: nat, e: Expr, tm: bool, r: Expr, k: nat)
    requires At(ts, i, PrintUnder(e, e.And?)) && Tok(ts, i + |PrintUnder(e, e.And?)|) == TOr
    requires ParseExpr(ts, i + |PrintUnder(e, e.And?)| + 1, tm) == Ok(RewriteM(r, tm), k)
    ensures ParseExpr(ts, i, tm) == Ok(RewriteM(AppendOr(Norm(e), r), tm), k)
    decreases e, if e.And? then 4 else 1
  {
    if e.Or? {
      OrPairMore(ts, i, e, tm, r, k);
    } else {
      NormShape(e);
      SingleParses(ts, i, e, tm);
      OrAppends(ts, i, tm, Norm(e), i + |PrintUnder(e, e.And?)|, r, k);
    }
  }

  /** An operand of || that is not itself a disjunction. */
  lemma {:induction false} SingleParses(ts: seq<Token>, i: nat, e: Expr, tm: bool)
    requires !e.Or? && At(ts, i, PrintUnder(e, e.And?))
    requires var t := Tok(ts, i + |PrintUnder(e, e.And?)|); !t.TAnd? && !t.TRel?
    ensures ParseAndExpr(ts, i, tm) == Ok(RewriteM(Norm(e), tm), i + |PrintUnder(e, e.And?)|)
    decreases e, if e.And? then 4 else 1, 0
  {
    if e.And? { ParenParses(ts, i, e, tm); } else { FactorParses(ts, i, e, tm); }
    AndStep(ts, i, tm, RewriteM(Norm(e), tm), i + |PrintUnder(e, e.And?)|);
  }

  lemma OrPrinted(ts: seq<Token>, i: nat, e: Expr) returns (pl: seq<Token>, pr: seq<Token>)
    requires e.Or? && At(ts, i, Print(e))
    ensures pl == PrintUnder(e.left, e.left.And?) && pr == PrintUnder(e.right, e.right.And?)
    ensures |Print(e)| == |pl| + 1 + |pr|
    ensures At(ts, i, pl) && Tok(ts, i + |pl|) == TOr && At(ts, i + |pl| + 1, pr)
  {
    pl, pr := PrintUnder(e.left, e.left.And?), PrintUnder(e.right, e.right.And?);
    assert Print(e) == pl + [TOr] + pr;
    AtOperator(ts, i, pl, TOr, pr);
  }

  lemma {:induction false} OrPairLast(ts: seq<Token>, i: nat, e: Expr, tm: bool)
    requires e.Or? && At(ts, i, Print(e)) && Ends(Tok(ts, i + |Print(e)|))
    ensures ParseExpr(ts, i, tm) == Ok(RewriteM(Norm(e), tm), i + |Print(e)|)
    decreases e, 0
  {
    var pl, pr := OrPrinted(ts, i, e);
    OrLast(ts, i + |pl| + 1, e.right, tm);
    OrMore(ts, i, e.left, tm, Norm(e.right), i + |Print(e)|);
  }

  lemma {:induction false} OrPairMore(ts: seq<Token>, i: nat, e: Expr, tm: bool, r: Expr, k: nat)
    requires e.Or? && At(ts, i, Print(e)) && Tok(ts, i + |Print(e)|) == TOr
    requires ParseExpr(ts, i + |Print(e)| + 1, tm) == Ok(RewriteM(r, tm), k)
    ensures ParseExpr(ts, i, tm) == Ok(RewriteM(AppendOr(Norm(e), r), tm), k)
    decreases e, 0
  {
    var pl, pr := OrPrinted(ts, i, e);
    OrMore(ts, i + |pl| + 1, e.right, tm, r, k);
    OrMore(ts, i, e.left, tm, AppendOr(Norm(e.right), r), k);
    NormAppend(e, r);
  }

  lemma {:induction false} WholeParses(ts: seq<Token>, i: nat, e: Expr, tm: bool)
    requires At(ts, i, Print(e)) && Ends(Tok(ts, i + |Print(e)|))
    ensures ParseExpr(ts, i, tm) == Ok(RewriteM(Norm(e), tm), i + |Print(e)|)
    decreases e, 2
  {
    if e.Or? {
      OrLast(ts, i, e, tm);
    } else {
      AndLast(ts, i, e, tm);
    }
  }

  /** Parsing the printed form of any expression gives it back, reassociated to the right. */
  lemma ParsePrint(e: Expr)
    ensures ParseExpr(Print(e), 0, false) == Ok(Norm(e), |Print(e)|)
    ensures ParseExpr(Print(e), 0, true) == Ok(RewriteM(Norm(e), true), |Print(e)|)
  {
    AtItself(Print(e), 0);
    WholeParses(Print(e), 0, e, false);
    WholeParses(Print(e), 0, e, true);
    RewriteNothing(Norm(e));
  }

  lemma {:induction false} RewriteNothing(e: Expr)
    ensures RewriteM(e, false) == e
  {
    match e
    case Symbol(_) =>
    case And(l, r) => RewriteNothing(l); RewriteNothing(r);
    case Or(l, r) => RewriteNothing(l); RewriteNothing(r);
    case Not(x) => RewriteNothing(x);
    case Relation(_, _, _) =>
  }

  /** So it has the same value under every assignment. */
  lemma ParsePrintValue(e: Expr, env: Env)
    requires EnvOk(env)
    ensures var p := ParseExpr(Print(e), 0, false); p.Ok? && ExprValue(p.e, env) == ExprValue(e, env)
  {
    ParsePrint(e);
    ShortCircuit(e, env);
    ShortCircuit(Norm(e), env);
    NormMeaning(e, env);
  }

  /** The assignment in which m is no more than MODULES. */
  ghost function LimitM(env: Env): Env {
    var low := if env.tri(M) < env.tri(MODULES) then env.tri(M) else env.tri(MODULES);
    env.(tri := s => if s == M then low else env.tri(s))
  }

  lemma {:induction false} RewriteMeaning(e: Expr, env: Env)
    ensures Meaning(RewriteM(e, true), env) == Meaning(e, LimitM(env))
  {
    match e
    case Symbol(_) =>
    case And(l, r) => RewriteMeaning(l, env); RewriteMeaning(r, env);
    case Or(l, r) => RewriteMeaning(l, env); RewriteMeaning(r, env);
    case Not(x) => RewriteMeaning(x, env);
    case Relation(_, _, _) =>
  }

  /** In a condition, it has the value that the expression has when m is no more than MODULES. */
  lemma ConditionValue(e: Expr, env: Env)
    requires EnvOk(env)
    ensures var p := ParseExpr(Print(e), 0, true); p.Ok? && ExprValue(p.e, env) == ExprValue(e, LimitM(env))
  {
    ParsePrint(e);
    ShortCircuit(RewriteM(Norm(e), true), env);
    RewriteMeaning(Norm(e), env);
    NormMeaning(e, LimitM(env));
    ShortCircuit(e, LimitM(env));
  }

  /** Printing does not see how a chain is associated. */
  lemma {:induction false} PrintAppendAnd(x: Expr, y: Expr)
    ensures Print(AppendAnd(x, y)) == Print(And(x, y))
  {
    if x.And? {
      PrintAppendAnd(x.right, y);
      var a, b, c := PrintUnder(x.left, x.left.Or?), PrintUnder(x.right, x.right.Or?), PrintUnder(y, y.Or?);
      assert a + [TAnd] + (b + [TAnd] + c) == (a + [TAnd] + b) + [TAnd] + c;
    }
  }

  lemma {:induction false} PrintAppendOr(x: Expr, y: Expr)
    ensures Print(AppendOr(x, y)) == Print(Or(x, y))
  {
    if x.Or? {
      PrintAppendOr(x.right, y);
      var a, b, c := PrintUnder(x.left, x.left.And?), PrintUnder(x.right, x.right.And?), PrintUnder(y, y.And?);
      assert a + [TOr] + (b + [TOr] + c) == (a + [TOr] + b) + [TOr] + c;
    }
  }

  lemma {:induction false} PrintNorm(e: Expr)
    ensures Print(Norm(e)) == Print(e)
  {
    NormShape(e);
    match e
    case Symbol(_) =>
    case And(l, r) =>
      PrintNorm(l); PrintNorm(r); NormShape(l); NormShape(r); PrintAppendAnd(Norm(l), Norm(r));
    case Or(l, r) =>
      PrintNorm(l); PrintNorm(r); NormShape(l); NormShape(r); PrintAppendOr(Norm(l), Norm(r));
    case Not(x) =>
      PrintNorm(x);
      assert Norm(x).Symbol? == x.Symbol? && (x.Symbol? ==> Norm(x) == x);
    case Relation(_, _, _) =>
  }

  /** Two expressions print alike exactly when they differ at most in how their chains associate. */
  lemma PrintsAlike(a: Expr, b: Expr)
    ensures Print(a) == Print(b) <==> Norm(a) == Norm(b)
  {
    ParsePrint(a);
    ParsePrint(b);
    PrintNorm(a);
    PrintNorm(b);
  }

  // ------------------------------------------------------------------- the parser

  /** The parser as the source has it: a cursor into the tokens, advanced as they are consumed. */
  class Parser {
    const tokens: seq<Token>
    var tokensI: nat

    constructor (tokens: seq<Token>)
      ensures this.tokens == tokens && tokensI == 0
    {
      this.tokens, tokensI := tokens, 0;
    }

    /** _check_token: consumes the token if it is the next one. */
    method CheckToken(t: Token) returns (found: bool)
      modifies this
      ensures found == (old(tokensI) < |tokens| && tokens[old(tokensI)] == t)
      ensures tokensI == old(tokensI) + if found then 1 else 0
    {
      found := tokensI < |tokens| && tokens[tokensI] == t;
      if found {
        tokensI := tokensI + 1;
      }
    }

    /** _parse_expr; `ok` is false where the source raises. */
    method RunExpr(tm: bool) returns (ok: bool, e: Expr)
      modifies this
      ensures var p := ParseExpr(tokens, old(tokensI), tm); ok == p.Ok? && (ok ==> e == p.e && tokensI == p.i)
      decreases |tokens| - tokensI, 2
    {
      ok, e := RunAndExpr(tm);
      if ok {
        var more := CheckToken(TOr);
        if more {
          var right;
          ok, right := RunExpr(tm);
          e := Or(e, right);
        }
      }
    }

    /** _parse_and_expr */
    method RunAndExpr(tm: bool) returns (ok: bool, e: Expr)
      modifies this
      ensures var p := ParseAndExpr(tokens, old(tokensI), tm); ok == p.Ok? && (ok ==> e == p.e && tokensI == p.i)
      decreases |tokens| - tokensI, 1
    {
      ok, e := RunFactor(tm);
      if ok {
        var more := CheckToken(TAnd);
        if more {
          var right;
          ok, right := RunAndExpr(tm);
          e := And(e, right);
        }
      }
    }

    /** _parse_factor */
    method RunFactor(tm: bool) returns (ok: bool, e: Expr)
      modifies this
      ensures var p := ParseFactor(tokens, old(tokensI), tm); ok == p.Ok? && (ok ==> e == p.e && tokensI == p.i)
      decreases |tokens| - tokensI, 0
    {
      var token := Tok(tokens, tokensI);
      e := Symbol(0);
      if tokensI >= |tokens| {
        return false, e;
      }
      tokensI := tokensI + 1;
      match token {
        case Sym(id) =>
          if !Tok(tokens, tokensI).TRel? {
            return true, Leaf(id, tm);
          }
          var rel := Tok(tokens, tokensI).rel;
          tokensI := tokensI + 1;
          if !Tok(tokens, tokensI).Sym? {
            return false, e;
          }
          tokensI := tokensI + 1;
          return true, Relation(rel, id, tokens[tokensI - 1].id);
        case TNot =>
          ok, e := RunFactor(tm);
          e := Not(e);
        case TOpen =>
          ok, e := RunExpr(tm);
          if ok {
            ok := CheckToken(TClose);
          }
        case _ =>
          ok := false;
      }
    }
  }
}
