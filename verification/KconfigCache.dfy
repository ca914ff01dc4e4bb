/**
 Memoised evaluation of Kconfig symbols (scripts/kconfig/kconfiglib.py): the cached
 visibility, tristate value and string value of every symbol, and their invalidation.
 Trees without choices.
 */
module KconfigCache {
  import opened Wrappers
  import Lists
  import opened KconfigExpr

  datatype Type = UNKNOWN | BOOL | TRISTATE | STRING | INT | HEX

  datatype Default = Default(value: Expr, cond: Expr)
  datatype Range = Range(low: int, high: int, cond: Expr)

  /** A symbol; `prompts` holds the condition of each menu node with a prompt. */
  datatype SymbolDef = SymbolDef(
    origType: Type, name: string, prompts: seq<Expr>, defaults: seq<Default>, ranges: seq<Range>,
    revDep: Expr, weakRevDep: Expr, directDep: Expr)

  /** A parsed tree.  `preset` gives the value of the constants n, m and y.  The other
      functions are Python's int(), string comparison and str()/hex(). */
  datatype Config = Config(
    sym: int -> SymbolDef, defined: set<int>, constant: int -> bool, preset: int -> Option<int>, modules: int,
    num: (string, int) -> Option<int>, strcmp: (string, string) -> int, show: (int, bool) -> string)

  datatype Value = Tri(tri: int) | Text(text: string)

  predicate BoolTristate(t: Type) { t == BOOL || t == TRISTATE }

  function Base(t: Type): int { if t == HEX then 16 else if t == INT then 10 else 0 }

  function TriToStr(v: int): string { if v == 0 then "n" else if v == 1 then "m" else "y" }

  // ------------------------------------------------------------- dependencies

  ghost function Syms(e: Expr): set<int> {
    match e
    case Symbol(id) => {id}
    case And(l, r) => Syms(l) + Syms(r)
    case Or(l, r) => Syms(l) + Syms(r)
    case Not(x) => Syms(x)
    case Relation(_, a, b) => {a, b}
  }

  function DefaultExprs(ds: seq<Default>): seq<Expr> {
    if ds == [] then [] else [ds[0].value, ds[0].cond] + DefaultExprs(ds[1..])
  }

  function RangeExprs(rs: seq<Range>): seq<Expr> {
    if rs == [] then [] else [Symbol(rs[0].low), Symbol(rs[0].high), rs[0].cond] + RangeExprs(rs[1..])
  }

  /** Every expression that a symbol's properties are made of, in the order of _build_dep. */
  function Exprs(d: SymbolDef): seq<Expr> {
    d.prompts + DefaultExprs(d.defaults) + [d.revDep, d.weakRevDep] + RangeExprs(d.ranges) + [d.directDep]
  }

  ghost predicate Dep(cfg: Config, s: int, t: int) {
    exists e :: e in Exprs(cfg.sym(s)) && t in Syms(e)
  }

  /** What evaluating a symbol may read of other symbols: a tristate also looks at MODULES. */
  ghost predicate MayRead(cfg: Config, s: int, t: int) {
    Dep(cfg, s, t) || (cfg.sym(s).origType == TRISTATE && cfg.preset(s) == None && t == cfg.modules)
  }

  /** No dependency loop: evaluation follows decreasing ranks. */
  ghost predicate Ranked(cfg: Config, rank: int -> nat) {
    forall s, t :: MayRead(cfg, s, t) ==> rank(t) < rank(s)
  }

  /** What parsing guarantees of a symbol. */
  ghost predicate SymbolOk(cfg: Config, s: int) {
    && (cfg.constant(s) ==> s !in cfg.defined)
    && (cfg.preset(s).Some? ==> cfg.constant(s) && cfg.sym(s).origType == TRISTATE)
    && (s !in cfg.defined ==> cfg.sym(s).prompts == [])
    && (s !in cfg.defined && cfg.preset(s) == None ==> cfg.sym(s).origType == UNKNOWN)
    && (!BoolTristate(cfg.sym(s).origType) ==> forall d :: d in cfg.sym(s).defaults ==> d.value.Symbol?)
  }

  ghost predicate ConfigOk(cfg: Config) {
    forall s :: SymbolOk(cfg, s)
  }

  // ------------------------------------------- evaluation over what can be looked up

  /** What is known of each symbol. */
  datatype View = View(vis: int -> Option<int>, tri: int -> Option<int>, str: int -> Option<string>)

  /** _sym_to_num; the inner None is a ValueError. */
  function NumV(cfg: Config, s: int, w: View): Option<Option<int>> {
    if BoolTristate(cfg.sym(s).origType) then (if w.tri(s).None? then None else Some(w.tri(s)))
    else match w.str(s) case None => None case Some(x) => Some(cfg.num(x, Base(cfg.sym(s).origType)))
  }

  function StrcmpV(cfg: Config, a: int, b: int, w: View): Option<int> {
    match w.str(a) case None => None case Some(x) =>
      match w.str(b) case None => None case Some(y) => Some(cfg.strcmp(x, y))
  }

  /** The difference of two symbols as numbers; the inner None is a ValueError. */
  function NumsV(cfg: Config, a: int, b: int, w: View): Option<Option<int>> {
    match NumV(cfg, a, w) case None => None case Some(x) =>
      if x.None? then Some(None)
      else match NumV(cfg, b, w) case None => None case Some(y) =>
        Some(if y.None? then None else Some(x.value - y.value))
  }

  /** The comparison inside a relation: of numbers if both are, else of strings. */
  function CompV(cfg: Config, a: int, b: int, w: View): Option<int> {
    if cfg.sym(a).origType == STRING && cfg.sym(b).origType == STRING then StrcmpV(cfg, a, b, w)
    else match NumsV(cfg, a, b, w) case None => None case Some(d) =>
      if d.None? then StrcmpV(cfg, a, b, w) else d
  }

  /** expr_value with its short-circuits: defined when all it actually reads is known. */
  function EvalV(cfg: Config, e: Expr, w: View): Option<int> {
    match e
    case Symbol(id) => w.tri(id)
    case And(l, r) => (match EvalV(cfg, l, w) case None => None case Some(v1) =>
      if v1 == 0 then Some(0)
      else match EvalV(cfg, r, w) case None => None case Some(v2) => Some(Min(v1, v2)))
    case Or(l, r) => (match EvalV(cfg, l, w) case None => None case Some(v1) =>
      if v1 == 2 then Some(2)
      else match EvalV(cfg, r, w) case None => None case Some(v2) => Some(Max(v1, v2)))
    case Not(x) => (match EvalV(cfg, x, w) case None => None case Some(v) => Some(2 - v))
    case Relation(rel, a, b) =>
      (match CompV(cfg, a, b, w) case None => None case Some(v) => Some(if Holds(rel, v) then 2 else 0))
  }

  /** The `type` property: a tristate is a bool while MODULES is n. */
  function TypeV(cfg: Config, s: int, w: View): Option<Type> {
    if cfg.sym(s).origType != TRISTATE then Some(cfg.sym(s).origType)
    else match w.tri(cfg.modules) case None => None case Some(v) => Some(if v == 0 then BOOL else TRISTATE)
  }

  function PromptsV(cfg: Config, ps: seq<Expr>, w: View): Option<int> {
    if ps == [] then Some(0)
    else match PromptsV(cfg, ps[..|ps| - 1], w) case None => None case Some(vis) =>
      match EvalV(cfg, ps[|ps| - 1], w) case None => None case Some(v) => Some(Max(vis, v))
  }

  /** _visibility */
  function VisV(cfg: Config, s: int, w: View): Option<int> {
    match PromptsV(cfg, cfg.sym(s).prompts, w) case None => None case Some(vis) =>
      if vis != 1 then Some(vis)
      else match TypeV(cfg, s, w) case None => None case Some(t) => Some(if t == TRISTATE then 1 else 2)
  }

  /** The first default whose condition holds, limited by it; n if there is none. */
  function DefaultV(cfg: Config, ds: seq<Default>, w: View): Option<int> {
    if ds == [] then Some(0)
    else match EvalV(cfg, ds[0].cond, w) case None => None case Some(c) =>
      if c == 0 then DefaultV(cfg, ds[1..], w)
      else match EvalV(cfg, ds[0].value, w) case None => None case Some(v) => Some(Min(v, c))
  }

  function ImpliedV(cfg: Config, d: SymbolDef, val: int, w: View): Option<int> {
    match EvalV(cfg, d.weakRevDep, w) case None => None case Some(dep) =>
      if dep == 0 then Some(val)
      else match EvalV(cfg, d.directDep, w) case None => None case Some(direct) =>
        Some(if direct != 0 then Max(dep, val) else val)
  }

  function SelectedV(cfg: Config, d: SymbolDef, val: int, w: View): Option<int> {
    match EvalV(cfg, d.revDep, w) case None => None case Some(dep) =>
      if dep == 0 then Some(val)
      else match EvalV(cfg, d.directDep, w) case None => None case Some(_) => Some(Max(dep, val))
  }

  /** m becomes y for a bool, or when implied by y. */
  function PromotedV(cfg: Config, s: int, val: int, w: View): Option<int> {
    if val != 1 then Some(val)
    else match TypeV(cfg, s, w) case None => None case Some(t) =>
      if t == BOOL then Some(2)
      else match EvalV(cfg, cfg.sym(s).weakRevDep, w) case None => None case Some(v) => Some(if v == 2 then 2 else 1)
  }

  function ChosenV(cfg: Config, d: SymbolDef, user: Option<Value>, vis: int, w: View): Option<int> {
    if vis != 0 && user.Some? && user.value.Tri? then Some(Min(user.value.tri, vis))
    else match DefaultV(cfg, d.defaults, w) case None => None case Some(val) => ImpliedV(cfg, d, val, w)
  }

  /** tri_value */
  function TriV(cfg: Config, user: Option<Value>, s: int, w: View): Option<int> {
    var d := cfg.sym(s);
    if cfg.preset(s).Some? then cfg.preset(s)
    else if !BoolTristate(d.origType) then Some(0)
    else match w.vis(s) case None => None case Some(vis) =>
      match ChosenV(cfg, d, user, vis, w) case None => None case Some(v1) =>
        match SelectedV(cfg, d, v1, w) case None => None case Some(v2) => PromotedV(cfg, s, v2, w)
  }

  function NumOr0(cfg: Config, x: string, base: int): int {
    var n := cfg.num(x, base); if n.Some? then n.value else 0
  }

  datatype Bounds = Unbounded | Bounded(low: int, high: int)

  /** The first range whose condition holds. */
  function RangeV(cfg: Config, rs: seq<Range>, base: int, w: View): Option<Bounds> {
    if rs == [] then Some(Unbounded)
    else match EvalV(cfg, rs[0].cond, w) case None => None case Some(c) =>
      if c == 0 then RangeV(cfg, rs[1..], base, w)
      else match w.str(rs[0].low) case None => None case Some(lo) =>
        match w.str(rs[0].high) case None => None case Some(hi) =>
          Some(Bounded(NumOr0(cfg, lo, base), NumOr0(cfg, hi, base)))
  }

  /** The string value of the first default whose condition holds. */
  function DefaultStrV(cfg: Config, ds: seq<Default>, w: View): Option<string> {
    if ds == [] then Some("")
    else match EvalV(cfg, ds[0].cond, w) case None => None case Some(c) =>
      if c == 0 then DefaultStrV(cfg, ds[1..], w)
      else if ds[0].value.Symbol? then w.str(ds[0].value.id) else Some("")
  }

  function Clamped(cfg: Config, t: Type, b: Bounds, val: string): string {
    var n := NumOr0(cfg, val, Base(t));
    if b == Unbounded || b.low <= n <= b.high then val
    else cfg.show(if n < b.low then b.low else b.high, t == INT)
  }

  predicate UserInRange(cfg: Config, t: Type, b: Bounds, x: string) {
    b == Unbounded || b.low <= NumOr0(cfg, x, Base(t)) <= b.high
  }

  function NumberV(cfg: Config, d: SymbolDef, user: Option<Value>, vis: int, w: View): Option<string> {
    match RangeV(cfg, d.ranges, Base(d.origType), w) case None => None case Some(b) =>
      if vis != 0 && user.Some? && user.value.Text? && user.value.text != "" &&
         UserInRange(cfg, d.origType, b, user.value.text)
      then Some(user.value.text)
      else match DefaultStrV(cfg, d.defaults, w) case None => None case Some(val) =>
        Some(Clamped(cfg, d.origType, b, val))
  }

  /** str_value */
  function StrV(cfg: Config, user: Option<Value>, s: int, w: View): Option<string> {
    var d := cfg.sym(s);
    if BoolTristate(d.origType) then
      match w.tri(s) case None => None case Some(v) => Some(TriToStr(v))
    else if d.origType == UNKNOWN then Some(d.name)
    else match w.vis(s) case None => None case Some(vis) =>
      if d.origType != STRING then NumberV(cfg, d, user, vis, w)
      else if vis != 0 && user.Some? && user.value.Text? then Some(user.value.text)
      else DefaultStrV(cfg, d.defaults, w)
  }

  // ------------------------------------------------------------- what the values mean

  /** Tristate values and visibilities are n, m or y. */
  ghost predicate ViewOk(w: View) {
    forall t :: (w.tri(t).Some? ==> 0 <= w.tri(t).value <= 2) && (w.vis(t).Some? ==> 0 <= w.vis(t).value <= 2)
  }

  lemma {:induction false} EvalRange(cfg: Config, e: Expr, w: View)
    requires ViewOk(w)
    ensures EvalV(cfg, e, w).Some? ==> 0 <= EvalV(cfg, e, w).value <= 2
  {
    match e
    case Symbol(_) =>
    case And(l, r) => EvalRange(cfg, l, w); EvalRange(cfg, r, w);
    case Or(l, r) => EvalRange(cfg, l, w); EvalRange(cfg, r, w);
    case Not(x) => EvalRange(cfg, x, w);
    case Relation(_, _, _) =>
  }

  lemma {:induction false} PromptsMeaning(cfg: Config, ps: seq<Expr>, w: View)
    requires ViewOk(w) && PromptsV(cfg, ps, w).Some?
    ensures var v := PromptsV(cfg, ps, w).value;
      && 0 <= v <= 2 && (v == 0 || exists i :: 0 <= i < |ps| && EvalV(cfg, ps[i], w) == Some(v))
      && forall i :: 0 <= i < |ps| ==> EvalV(cfg, ps[i], w).Some? && EvalV(cfg, ps[i], w).value <= v
  {
    if ps != [] {
      var front, last := ps[..|ps| - 1], ps[|ps| - 1];
      PromptsMeaning(cfg, front, w);
      EvalRange(cfg, last, w);
      assert forall i :: 0 <= i < |front| ==> front[i] == ps[i];
    }
  }

  /** A symbol is as visible as the best of its prompts, but y in place of m unless it is a tristate. */
  lemma VisMeaning(cfg: Config, s: int, w: View)
    requires ViewOk(w) && VisV(cfg, s, w).Some?
    ensures var v, ps := VisV(cfg, s, w).value, cfg.sym(s).prompts;
      && 0 <= v <= 2 && (v == 1 ==> TypeV(cfg, s, w) == Some(TRISTATE))
      && (forall i :: 0 <= i < |ps| ==> EvalV(cfg, ps[i], w).Some? && EvalV(cfg, ps[i], w).value <= v)
      && (v == 0 <==> forall i :: 0 <= i < |ps| ==> EvalV(cfg, ps[i], w) == Some(0))
      && (v == 1 ==> exists i :: 0 <= i < |ps| && EvalV(cfg, ps[i], w) == Some(1))
      && (v == 2 ==>
            || (exists i :: 0 <= i < |ps| && EvalV(cfg, ps[i], w) == Some(2))
            || (TypeV(cfg, s, w) != Some(TRISTATE) && exists i :: 0 <= i < |ps| && EvalV(cfg, ps[i], w) == Some(1)))
  {
    var ps := cfg.sym(s).prompts;
    PromptsMeaning(cfg, ps, w);
    forall i | 0 <= i < |ps|
      ensures EvalV(cfg, ps[i], w).Some? && EvalV(cfg, ps[i], w).value >= 0
    {
      EvalRange(cfg, ps[i], w);
    }
  }

  lemma {:induction false} DefaultRange(cfg: Config, ds: seq<Default>, w: View)
    requires ViewOk(w)
    ensures DefaultV(cfg, ds, w).Some? ==> 0 <= DefaultV(cfg, ds, w).value <= 2
  {
    if ds != [] {
      DefaultRange(cfg, ds[1..], w);
      EvalRange(cfg, ds[0].cond, w);
      EvalRange(cfg, ds[0].value, w);
    }
  }

  lemma ChosenRange(cfg: Config, d: SymbolDef, user: Option<Value>, vis: int, w: View)
    requires ViewOk(w) && 0 <= vis <= 2 && (user.Some? && user.value.Tri? ==> 0 <= user.value.tri <= 2)
    ensures ChosenV(cfg, d, user, vis, w).Some? ==> 0 <= ChosenV(cfg, d, user, vis, w).value <= 2
  {
    DefaultRange(cfg, d.defaults, w);
    EvalRange(cfg, d.weakRevDep, w);
  }

  /** A value is n, m or y, never m for a bool, and never below what selects the symbol; without a
      select, a visible user value counts, up to the visibility. */
  lemma TriMeaning(cfg: Config, user: Option<Value>, s: int, w: View)
    requires ViewOk(w) && TriV(cfg, user, s, w).Some? && cfg.preset(s) == None && BoolTristate(cfg.sym(s).origType)
    requires user.Some? && user.value.Tri? ==> 0 <= user.value.tri <= 2
    ensures w.vis(s).Some? && EvalV(cfg, cfg.sym(s).revDep, w).Some?
    ensures var v, vis, sel := TriV(cfg, user, s, w).value, w.vis(s).value, EvalV(cfg, cfg.sym(s).revDep, w).value;
      && 0 <= v <= 2 && sel <= v && (TypeV(cfg, s, w) == Some(BOOL) ==> v != 1)
      && (sel == 0 && vis != 0 && user.Some? && user.value.Tri? ==>
            v == Min(user.value.tri, vis) || (v == 2 && Min(user.value.tri, vis) == 1))
  {
    ChosenRange(cfg, cfg.sym(s), user, w.vis(s).value, w);
    EvalRange(cfg, cfg.sym(s).revDep, w);
  }

  // ------------------------------------------------------- knowing more, same value

  /** What w knows of t, w2 knows too. */
  ghost predicate Keep(w: View, w2: View, t: int) {
    (w.tri(t).Some? ==> w2.tri(t) == w.tri(t)) && (w.str(t).Some? ==> w2.str(t) == w.str(t))
  }

  ghost predicate KeepsExpr(w: View, w2: View, e: Expr) {
    forall t :: t in Syms(e) ==> Keep(w, w2, t)
  }

  ghost predicate KeepsExprs(w: View, w2: View, es: seq<Expr>) {
    forall e :: e in es ==> KeepsExpr(w, w2, e)
  }

  lemma {:induction false} EvalKeeps(cfg: Config, e: Expr, w: View, w2: View)
    requires KeepsExpr(w, w2, e)
    ensures EvalV(cfg, e, w).Some? ==> EvalV(cfg, e, w2) == EvalV(cfg, e, w)
  {
    match e
    case Symbol(id) => assert Keep(w, w2, id);
    case And(l, r) => EvalKeeps(cfg, l, w, w2); EvalKeeps(cfg, r, w, w2);
    case Or(l, r) => EvalKeeps(cfg, l, w, w2); EvalKeeps(cfg, r, w, w2);
    case Not(x) => EvalKeeps(cfg, x, w, w2);
    case Relation(_, a, b) => assert Keep(w, w2, a) && Keep(w, w2, b);
  }

  lemma {:induction false} PromptsKeep(cfg: Config, ps: seq<Expr>, w: View, w2: View)
    requires KeepsExprs(w, w2, ps)
    ensures PromptsV(cfg, ps, w).Some? ==> PromptsV(cfg, ps, w2) == PromptsV(cfg, ps, w)
  {
    if ps != [] {
      PromptsKeep(cfg, ps[..|ps| - 1], w, w2);
      EvalKeeps(cfg, ps[|ps| - 1], w, w2);
    }
  }

  lemma {:induction false} DefaultKeeps(cfg: Config, ds: seq<Default>, w: View, w2: View)
    requires KeepsExprs(w, w2, DefaultExprs(ds))
    ensures DefaultV(cfg, ds, w).Some? ==> DefaultV(cfg, ds, w2) == DefaultV(cfg, ds, w)
    ensures DefaultStrV(cfg, ds, w).Some? ==> DefaultStrV(cfg, ds, w2) == DefaultStrV(cfg, ds, w)
  {
    if ds != [] {
      var es := DefaultExprs(ds);
      assert es[0] == ds[0].value && es[1] == ds[0].cond && es[2..] == DefaultExprs(ds[1..]);
      assert forall e :: e in es[2..] ==> e in es;
      DefaultKeeps(cfg, ds[1..], w, w2);
      EvalKeeps(cfg, es[0], w, w2);
      EvalKeeps(cfg, es[1], w, w2);
      assert es[0].Symbol? ==> es[0].id in Syms(es[0]);
    }
  }

  lemma {:induction false} RangeKeeps(cfg: Config, rs: seq<Range>, base: int, w: View, w2: View)
    requires KeepsExprs(w, w2, RangeExprs(rs))
    ensures RangeV(cfg, rs, base, w).Some? ==> RangeV(cfg, rs, base, w2) == RangeV(cfg, rs, base, w)
  {
    if rs != [] {
      var es := RangeExprs(rs);
      assert es[0] == Symbol(rs[0].low) && es[1] == Symbol(rs[0].high) && es[2] == rs[0].cond;
      assert es[3..] == RangeExprs(rs[1..]);
      assert forall e :: e in es[3..] ==> e in es;
      RangeKeeps(cfg, rs[1..], base, w, w2);
      EvalKeeps(cfg, es[2], w, w2);
      assert KeepsExpr(w, w2, es[0]) && KeepsExpr(w, w2, es[1]);
      assert Keep(w, w2, rs[0].low) && Keep(w, w2, rs[0].high);
    }
  }

  /** The parts of a symbol's expressions. */
  lemma KeepsParts(d: SymbolDef, w: View, w2: View)
    requires KeepsExprs(w, w2, Exprs(d))
    ensures KeepsExprs(w, w2, d.prompts) && KeepsExprs(w, w2, DefaultExprs(d.defaults))
    ensures KeepsExprs(w, w2, RangeExprs(d.ranges))
    ensures KeepsExpr(w, w2, d.revDep) && KeepsExpr(w, w2, d.weakRevDep) && KeepsExpr(w, w2, d.directDep)
  {
    var es := Exprs(d);
    assert d.revDep in es && d.weakRevDep in es && d.directDep in es;
  }

  /** All that evaluating s may read is kept. */
  ghost predicate KeepsReads(cfg: Config, s: int, w: View, w2: View) {
    forall t :: MayRead(cfg, s, t) ==> Keep(w, w2, t)
  }

  lemma ReadsKeepExprs(cfg: Config, s: int, w: View, w2: View)
    requires KeepsReads(cfg, s, w, w2)
    ensures KeepsExprs(w, w2, Exprs(cfg.sym(s)))
  {
    forall e, t | e in Exprs(cfg.sym(s)) && t in Syms(e)
      ensures Keep(w, w2, t)
    {
      assert Dep(cfg, s, t);
    }
  }

  lemma TypeKeeps(cfg: Config, s: int, w: View, w2: View)
    requires KeepsReads(cfg, s, w, w2) && cfg.preset(s) == None
    ensures TypeV(cfg, s, w).Some? ==> TypeV(cfg, s, w2) == TypeV(cfg, s, w)
  {
    if cfg.sym(s).origType == TRISTATE {
      assert MayRead(cfg, s, cfg.modules);
    }
  }

  lemma VisKeeps(cfg: Config, s: int, w: View, w2: View)
    requires ConfigOk(cfg) && KeepsReads(cfg, s, w, w2)
    ensures VisV(cfg, s, w).Some? ==> VisV(cfg, s, w2) == VisV(cfg, s, w)
  {
    assert SymbolOk(cfg, s);
    ReadsKeepExprs(cfg, s, w, w2);
    KeepsParts(cfg.sym(s), w, w2);
    PromptsKeep(cfg, cfg.sym(s).prompts, w, w2);
    if cfg.preset(s) == None {
      TypeKeeps(cfg, s, w, w2);
    }
  }

  lemma ChosenKeeps(cfg: Config, d: SymbolDef, user: Option<Value>, vis: int, w: View, w2: View)
    requires KeepsExprs(w, w2, Exprs(d))
    ensures ChosenV(cfg, d, user, vis, w).Some? ==> ChosenV(cfg, d, user, vis, w2) == ChosenV(cfg, d, user, vis, w)
  {
    KeepsParts(d, w, w2);
    DefaultKeeps(cfg, d.defaults, w, w2);
    EvalKeeps(cfg, d.weakRevDep, w, w2);
    EvalKeeps(cfg, d.directDep, w, w2);
  }

  lemma SelectedKeeps(cfg: Config, d: SymbolDef, val: int, w: View, w2: View)
    requires KeepsExprs(w, w2, Exprs(d))
    ensures SelectedV(cfg, d, val, w).Some? ==> SelectedV(cfg, d, val, w2) == SelectedV(cfg, d, val, w)
  {
    KeepsParts(d, w, w2);
    EvalKeeps(cfg, d.revDep, w, w2);
    EvalKeeps(cfg, d.directDep, w, w2);
  }

  lemma PromotedKeeps(cfg: Config, s: int, val: int, w: View, w2: View)
    requires KeepsReads(cfg, s, w, w2) && cfg.preset(s) == None
    ensures PromotedV(cfg, s, val, w).Some? ==> PromotedV(cfg, s, val, w2) == PromotedV(cfg, s, val, w)
  {
    ReadsKeepExprs(cfg, s, w, w2);
    KeepsParts(cfg.sym(s), w, w2);
    EvalKeeps(cfg, cfg.sym(s).weakRevDep, w, w2);
    TypeKeeps(cfg, s, w, w2);
  }

  lemma TriKeeps(cfg: Config, user: Option<Value>, s: int, w: View, w2: View)
    requires KeepsReads(cfg, s, w, w2) && (w.vis(s).Some? ==> w2.vis(s) == w.vis(s))
    ensures TriV(cfg, user, s, w).Some? ==> TriV(cfg, user, s, w2) == TriV(cfg, user, s, w)
  {
    if TriV(cfg, user, s, w).Some? && cfg.preset(s) == None && BoolTristate(cfg.sym(s).origType) {
      var d, vis := cfg.sym(s), w.vis(s).value;
      ReadsKeepExprs(cfg, s, w, w2);
      ChosenKeeps(cfg, d, user, vis, w, w2);
      var v1 := ChosenV(cfg, d, user, vis, w).value;
      SelectedKeeps(cfg, d, v1, w, w2);
      PromotedKeeps(cfg, s, SelectedV(cfg, d, v1, w).value, w, w2);
    }
  }

  lemma StrKeeps(cfg: Config, user: Option<Value>, s: int, w: View, w2: View)
    requires KeepsReads(cfg, s, w, w2)
    requires (w.vis(s).Some? ==> w2.vis(s) == w.vis(s)) && (w.tri(s).Some? ==> w2.tri(s) == w.tri(s))
    ensures StrV(cfg, user, s, w).Some? ==> StrV(cfg, user, s, w2) == StrV(cfg, user, s, w)
  {
    var d := cfg.sym(s);
    ReadsKeepExprs(cfg, s, w, w2);
    KeepsParts(d, w, w2);
    DefaultKeeps(cfg, d.defaults, w, w2);
    RangeKeeps(cfg, d.ranges, Base(d.origType), w, w2);
  }

  // ------------------------------------------------------- evaluation from scratch

  type Users = int -> Option<Value>

  /** Everything about the symbols of rank below r, evaluated without any cache. */
  ghost function Below(cfg: Config, users: Users, rank: int -> nat, r: nat): View
    decreases r, 0
  {
    View(
      s => if rank(s) < r then ScratchVis(cfg, users, rank, s) else None,
      s => if rank(s) < r then ScratchTri(cfg, users, rank, s) else None,
      s => if rank(s) < r then ScratchStr(cfg, users, rank, s) else None)
  }

  ghost function ScratchVis(cfg: Config, users: Users, rank: int -> nat, s: int): Option<int>
    decreases rank(s), 1
  {
    VisV(cfg, s, Below(cfg, users, rank, rank(s)))
  }

  ghost function ScratchTri(cfg: Config, users: Users, rank: int -> nat, s: int): Option<int>
    decreases rank(s), 2
  {
    var w := Below(cfg, users, rank, rank(s));
    var vis := ScratchVis(cfg, users, rank, s);
    TriV(cfg, users(s), s, w.(vis := t => if t == s then vis else w.vis(t)))
  }

  ghost function ScratchStr(cfg: Config, users: Users, rank: int -> nat, s: int): Option<string>
    decreases rank(s), 3
  {
    var w := Below(cfg, users, rank, rank(s));
    var vis := ScratchVis(cfg, users, rank, s);
    var tri := ScratchTri(cfg, users, rank, s);
    StrV(cfg, users(s), s,
         w.(vis := t => if t == s then vis else w.vis(t), tri := t => if t == s then tri else w.tri(t)))
  }

  // --------------------------------------------------------------------- the caches

  /** _cached_vis, _cached_tri_val and _cached_str_val of all symbols. */
  datatype Cache = Cache(vis: map<int, int>, tri: map<int, int>, str: map<int, string>)

  function Look<T>(m: map<int, T>): int -> Option<T> {
    s => if s in m then Some(m[s]) else None
  }

  function ViewOf(c: Cache): View {
    View(Look(c.vis), Look(c.tri), Look(c.str))
  }

  ghost predicate VisOk(cfg: Config, c: Cache, s: int) {
    s in c.vis ==> VisV(cfg, s, ViewOf(c)) == Some(c.vis[s])
  }

  ghost predicate TriOk(cfg: Config, users: Users, c: Cache, s: int) {
    s in c.tri ==> TriV(cfg, users(s), s, ViewOf(c)) == Some(c.tri[s])
  }

  ghost predicate StrOk(cfg: Config, users: Users, c: Cache, s: int) {
    s in c.str ==> StrV(cfg, users(s), s, ViewOf(c)) == Some(c.str[s])
  }

  /** Every cached value is what evaluation gives that reads nothing but cached values. */
  ghost predicate Inv(cfg: Config, users: Users, c: Cache) {
    && (forall s :: VisOk(cfg, c, s))
    && (forall s :: TriOk(cfg, users, c, s))
    && (forall s :: StrOk(cfg, users, c, s))
    && (forall s :: cfg.preset(s).Some? ==> s in c.tri)
  }

  ghost predicate Submap<T(!new)>(m: map<int, T>, m2: map<int, T>) {
    forall s :: s in m ==> s in m2 && m2[s] == m[s]
  }

  ghost predicate Grows(c: Cache, c2: Cache) {
    Submap(c.vis, c2.vis) && Submap(c.tri, c2.tri) && Submap(c.str, c2.str)
  }

  lemma GrowsKeeps(cfg: Config, s: int, c: Cache, c2: Cache)
    requires Grows(c, c2)
    ensures KeepsReads(cfg, s, ViewOf(c), ViewOf(c2)) && KeepsExprs(ViewOf(c), ViewOf(c2), Exprs(cfg.sym(s)))
    ensures ViewOf(c).vis(s).Some? ==> ViewOf(c2).vis(s) == ViewOf(c).vis(s)
    ensures ViewOf(c).tri(s).Some? ==> ViewOf(c2).tri(s) == ViewOf(c).tri(s)
  {
  }

  lemma EvalGrows(cfg: Config, e: Expr, c: Cache, c2: Cache)
    requires Grows(c, c2)
    ensures EvalV(cfg, e, ViewOf(c)).Some? ==> EvalV(cfg, e, ViewOf(c2)) == EvalV(cfg, e, ViewOf(c))
  {
    EvalKeeps(cfg, e, ViewOf(c), ViewOf(c2));
  }

  lemma PromptsGrow(cfg: Config, ps: seq<Expr>, c: Cache, c2: Cache)
    requires Grows(c, c2)
    ensures PromptsV(cfg, ps, ViewOf(c)).Some? ==> PromptsV(cfg, ps, ViewOf(c2)) == PromptsV(cfg, ps, ViewOf(c))
  {
    PromptsKeep(cfg, ps, ViewOf(c), ViewOf(c2));
  }

  lemma NumGrows(cfg: Config, s: int, c: Cache, c2: Cache)
    requires Grows(c, c2)
    ensures NumV(cfg, s, ViewOf(c)).Some? ==> NumV(cfg, s, ViewOf(c2)) == NumV(cfg, s, ViewOf(c))
  {
  }

  lemma NumsGrow(cfg: Config, a: int, b: int, c: Cache, c2: Cache)
    requires Grows(c, c2)
    ensures NumsV(cfg, a, b, ViewOf(c)).Some? ==> NumsV(cfg, a, b, ViewOf(c2)) == NumsV(cfg, a, b, ViewOf(c))
  {
  }

  lemma StagesGrow(cfg: Config, s: int, user: Option<Value>, vis: int, val: int, c1: Cache, c2: Cache, c3: Cache)
    requires Grows(c1, c2) && Grows(c2, c3)
    requires ViewOf(c1).vis(s) == Some(vis) && ChosenV(cfg, cfg.sym(s), user, vis, ViewOf(c1)) == Some(val)
    ensures ViewOf(c3).vis(s) == Some(vis) && ChosenV(cfg, cfg.sym(s), user, vis, ViewOf(c3)) == Some(val)
    ensures SelectedV(cfg, cfg.sym(s), val, ViewOf(c2)).Some? ==>
              SelectedV(cfg, cfg.sym(s), val, ViewOf(c3)) == SelectedV(cfg, cfg.sym(s), val, ViewOf(c2))
  {
    GrowsKeeps(cfg, s, c1, c3);
    ChosenKeeps(cfg, cfg.sym(s), user, vis, ViewOf(c1), ViewOf(c3));
    GrowsKeeps(cfg, s, c2, c3);
    SelectedKeeps(cfg, cfg.sym(s), val, ViewOf(c2), ViewOf(c3));
  }

  /** Entries stay justified as the cache grows. */
  lemma InvGrows(cfg: Config, users: Users, c: Cache, c2: Cache, s: int)
    requires ConfigOk(cfg) && Inv(cfg, users, c) && Grows(c, c2)
    ensures s in c.vis ==> VisOk(cfg, c2, s)
    ensures s in c.tri ==> TriOk(cfg, users, c2, s)
    ensures s in c.str ==> StrOk(cfg, users, c2, s)
  {
    assert VisOk(cfg, c, s) && TriOk(cfg, users, c, s) && StrOk(cfg, users, c, s);
    GrowsKeeps(cfg, s, c, c2);
    VisKeeps(cfg, s, ViewOf(c), ViewOf(c2));
    TriKeeps(cfg, users(s), s, ViewOf(c), ViewOf(c2));
    StrKeeps(cfg, users(s), s, ViewOf(c), ViewOf(c2));
  }

  lemma AddVis(cfg: Config, users: Users, c: Cache, s: int, v: int)
    requires ConfigOk(cfg) && Inv(cfg, users, c) && VisV(cfg, s, ViewOf(c)) == Some(v)
    ensures var c2 := c.(vis := c.vis[s := v]); Inv(cfg, users, c2) && Grows(c, c2)
  {
    var c2 := c.(vis := c.vis[s := v]);
    assert VisOk(cfg, c, s);
    forall t
      ensures VisOk(cfg, c2, t) && TriOk(cfg, users, c2, t) && StrOk(cfg, users, c2, t)
    {
      InvGrows(cfg, users, c, c2, t);
      GrowsKeeps(cfg, s, c, c2);
      VisKeeps(cfg, s, ViewOf(c), ViewOf(c2));
    }
  }

  lemma AddTri(cfg: Config, users: Users, c: Cache, s: int, v: int)
    requires ConfigOk(cfg) && Inv(cfg, users, c) && TriV(cfg, users(s), s, ViewOf(c)) == Some(v)
    ensures var c2 := c.(tri := c.tri[s := v]); Inv(cfg, users, c2) && Grows(c, c2)
  {
    var c2 := c.(tri := c.tri[s := v]);
    assert TriOk(cfg, users, c, s);
    forall t
      ensures VisOk(cfg, c2, t) && TriOk(cfg, users, c2, t) && StrOk(cfg, users, c2, t)
    {
      InvGrows(cfg, users, c, c2, t);
      GrowsKeeps(cfg, s, c, c2);
      TriKeeps(cfg, users(s), s, ViewOf(c), ViewOf(c2));
    }
  }

  lemma AddStr(cfg: Config, users: Users, c: Cache, s: int, v: string)
    requires ConfigOk(cfg) && Inv(cfg, users, c) && StrV(cfg, users(s), s, ViewOf(c)) == Some(v)
    ensures var c2 := c.(str := c.str[s := v]); Inv(cfg, users, c2) && Grows(c, c2)
  {
    var c2 := c.(str := c.str[s := v]);
    assert StrOk(cfg, users, c, s);
    forall t
      ensures VisOk(cfg, c2, t) && TriOk(cfg, users, c2, t) && StrOk(cfg, users, c2, t)
    {
      InvGrows(cfg, users, c, c2, t);
      GrowsKeeps(cfg, s, c, c2);
      StrKeeps(cfg, users(s), s, ViewOf(c), ViewOf(c2));
    }
  }

  /** Whatever is cached is what evaluation from scratch gives. */
  lemma {:induction false} CachedIsScratch(cfg: Config, users: Users, rank: int -> nat, c: Cache, s: int)
    requires ConfigOk(cfg) && Ranked(cfg, rank) && Inv(cfg, users, c)
    ensures s in c.vis ==> ScratchVis(cfg, users, rank, s) == Some(c.vis[s])
    ensures s in c.tri ==> ScratchTri(cfg, users, rank, s) == Some(c.tri[s])
    ensures s in c.str ==> ScratchStr(cfg, users, rank, s) == Some(c.str[s])
    decreases rank(s)
  {
    var w, b := ViewOf(c), Below(cfg, users, rank, rank(s));
    assert VisOk(cfg, c, s) && TriOk(cfg, users, c, s) && StrOk(cfg, users, c, s);
    forall t | MayRead(cfg, s, t)
      ensures t != s && Keep(w, b, t)
    {
      CachedIsScratch(cfg, users, rank, c, t);
    }
    VisKeeps(cfg, s, w, b);
    var vis := ScratchVis(cfg, users, rank, s);
    var b1 := b.(vis := t => if t == s then vis else b.vis(t));
    TriKeeps(cfg, users(s), s, w, b1);
    var tri := ScratchTri(cfg, users, rank, s);
    var b2 := b1.(tri := t => if t == s then tri else b1.tri(t));
    StrKeeps(cfg, users(s), s, w, b2);
  }

  // ------------------------------------------------------------------- invalidation

  function Without(c: Cache, gone: set<int>): Cache {
    Cache(c.vis - gone, c.tri - gone, c.str - gone)
  }

  /** Invalidation went far enough: what depends on a dropped symbol holds no visibility,
      and dropping MODULES drops all. */
  ghost predicate FarEnough(cfg: Config, c: Cache, gone: set<int>) {
    && (forall t, s :: t in gone && s in cfg.defined && Dep(cfg, s, t) ==> s !in Without(c, gone).vis)
    && (cfg.modules in gone ==> gone == cfg.defined)
  }

  /** An undefined or constant symbol reads no other symbol. */
  lemma UndefinedReadsNothing(cfg: Config, user: Option<Value>, s: int, w: View, w2: View)
    requires ConfigOk(cfg) && s !in cfg.defined && w.tri(s) == w2.tri(s)
    ensures VisV(cfg, s, w) == VisV(cfg, s, w2)
    ensures TriV(cfg, user, s, w) == TriV(cfg, user, s, w2) && StrV(cfg, user, s, w) == StrV(cfg, user, s, w2)
  {
    assert SymbolOk(cfg, s);
  }

  /** A remaining symbol that has its visibility cached reads nothing that was dropped. */
  lemma VisibleKeeps(cfg: Config, c: Cache, gone: set<int>, s: int)
    requires FarEnough(cfg, c, gone) && s in cfg.defined && s !in gone && s in c.vis
    ensures KeepsReads(cfg, s, ViewOf(c), ViewOf(Without(c, gone)))
  {
    forall t | MayRead(cfg, s, t)
      ensures t !in gone
    {
    }
  }

  lemma DropOne(cfg: Config, users: Users, users2: Users, c: Cache, gone: set<int>, s: int)
    requires ConfigOk(cfg) && Inv(cfg, users, c) && FarEnough(cfg, c, gone)
    requires s !in gone ==> users2(s) == users(s)
    ensures var c2 := Without(c, gone); VisOk(cfg, c2, s) && TriOk(cfg, users2, c2, s) && StrOk(cfg, users2, c2, s)
  {
    if s !in gone {
      var w, w2 := ViewOf(c), ViewOf(Without(c, gone));
      assert SymbolOk(cfg, s);
      assert VisOk(cfg, c, s) && TriOk(cfg, users, c, s) && StrOk(cfg, users, c, s);
      assert w.tri(s) == w2.tri(s) && w.vis(s) == w2.vis(s);
      if s !in cfg.defined {
        UndefinedReadsNothing(cfg, users(s), s, w, w2);
      } else if s in c.vis {
        VisibleKeeps(cfg, c, gone, s);
        VisKeeps(cfg, s, w, w2);
        TriKeeps(cfg, users(s), s, w, w2);
        StrKeeps(cfg, users(s), s, w, w2);
      }
    }
  }

  /** After an invalidation that went far enough, what is left is still justified. */
  lemma DropKeepsInv(cfg: Config, users: Users, users2: Users, c: Cache, gone: set<int>)
    requires ConfigOk(cfg) && Inv(cfg, users, c) && FarEnough(cfg, c, gone)
    requires gone <= cfg.defined && forall s :: s !in gone ==> users2(s) == users(s)
    ensures Inv(cfg, users2, Without(c, gone))
  {
    forall s | cfg.preset(s).Some?
      ensures s !in gone
    {
      assert SymbolOk(cfg, s);
    }
    forall s
      ensures var c2 := Without(c, gone); VisOk(cfg, c2, s) && TriOk(cfg, users2, c2, s) && StrOk(cfg, users2, c2, s)
    {
      DropOne(cfg, users, users2, c, gone, s);
    }
  }

  /** A user value has no effect without a prompt. */
  lemma NoPromptNoEffect(cfg: Config, users: Users, users2: Users, c: Cache, s: int)
    requires ConfigOk(cfg) && Inv(cfg, users, c) && cfg.sym(s).prompts == []
    requires forall t :: t != s ==> users2(t) == users(t)
    ensures Inv(cfg, users2, c)
  {
    var w := ViewOf(c);
    forall t
      ensures TriOk(cfg, users2, c, t) && StrOk(cfg, users2, c, t)
    {
      assert VisOk(cfg, c, t) && TriOk(cfg, users, c, t) && StrOk(cfg, users, c, t);
      assert t == s && w.vis(s).Some? ==> w.vis(s).value == 0;
    }
  }

  // --------------------------------------------------- facts for the evaluation loops

  ghost predicate DefaultsSkipped(cfg: Config, ds: seq<Default>, i: nat, w: View) {
    forall j :: 0 <= j < i && j < |ds| ==> EvalV(cfg, ds[j].cond, w) == Some(0)
  }

  ghost predicate RangesSkipped(cfg: Config, rs: seq<Range>, i: nat, w: View) {
    forall j :: 0 <= j < i && j < |rs| ==> EvalV(cfg, rs[j].cond, w) == Some(0)
  }

  lemma DefaultsSkippedGrow(cfg: Config, ds: seq<Default>, i: nat, c: Cache, c2: Cache)
    requires Grows(c, c2) && DefaultsSkipped(cfg, ds, i, ViewOf(c))
    ensures DefaultsSkipped(cfg, ds, i, ViewOf(c2))
  {
    forall j | 0 <= j < i && j < |ds|
      ensures EvalV(cfg, ds[j].cond, ViewOf(c2)) == Some(0)
    {
      EvalGrows(cfg, ds[j].cond, c, c2);
    }
  }

  lemma {:induction false} SkipDefaults(cfg: Config, ds: seq<Default>, i: nat, w: View)
    requires i <= |ds| && DefaultsSkipped(cfg, ds, i, w)
    ensures DefaultV(cfg, ds, w) == DefaultV(cfg, ds[i..], w)
    ensures DefaultStrV(cfg, ds, w) == DefaultStrV(cfg, ds[i..], w)
  {
    if i != 0 {
      assert ds[1..][i - 1..] == ds[i..];
      assert forall j :: 0 <= j < i - 1 ==> ds[1..][j] == ds[j + 1];
      SkipDefaults(cfg, ds[1..], i - 1, w);
    }
  }

  lemma RangesSkippedGrow(cfg: Config, rs: seq<Range>, i: nat, c: Cache, c2: Cache)
    requires Grows(c, c2) && RangesSkipped(cfg, rs, i, ViewOf(c))
    ensures RangesSkipped(cfg, rs, i, ViewOf(c2))
  {
    forall j | 0 <= j < i && j < |rs|
      ensures EvalV(cfg, rs[j].cond, ViewOf(c2)) == Some(0)
    {
      EvalGrows(cfg, rs[j].cond, c, c2);
    }
  }

  lemma {:induction false} SkipRanges(cfg: Config, rs: seq<Range>, i: nat, base: int, w: View)
    requires i <= |rs| && RangesSkipped(cfg, rs, i, w)
    ensures RangeV(cfg, rs, base, w) == RangeV(cfg, rs[i..], base, w)
  {
    if i != 0 {
      assert rs[1..][i - 1..] == rs[i..];
      assert forall j :: 0 <= j < i - 1 ==> rs[1..][j] == rs[j + 1];
      SkipRanges(cfg, rs[1..], i - 1, base, w);
    }
  }

  lemma {:induction false} DefaultInExprs(ds: seq<Default>, i: nat)
    requires i < |ds|
    ensures ds[i].cond in DefaultExprs(ds) && ds[i].value in DefaultExprs(ds)
  {
    if i == 0 {
      assert DefaultExprs(ds)[0] == ds[0].value && DefaultExprs(ds)[1] == ds[0].cond;
    } else {
      DefaultInExprs(ds[1..], i - 1);
    }
  }

  lemma {:induction false} RangeInExprs(rs: seq<Range>, i: nat)
    requires i < |rs|
    ensures rs[i].cond in RangeExprs(rs) && Symbol(rs[i].low) in RangeExprs(rs) && Symbol(rs[i].high) in RangeExprs(rs)
  {
    if i == 0 {
      var es := RangeExprs(rs);
      assert es[0] == Symbol(rs[0].low) && es[1] == Symbol(rs[0].high) && es[2] == rs[0].cond;
    } else {
      RangeInExprs(rs[1..], i - 1);
    }
  }

  lemma BoundsRead(cfg: Config, s: int, i: nat)
    requires i < |cfg.sym(s).ranges|
    ensures MayRead(cfg, s, cfg.sym(s).ranges[i].low) && MayRead(cfg, s, cfg.sym(s).ranges[i].high)
  {
    var r := cfg.sym(s).ranges[i];
    RangeInExprs(cfg.sym(s).ranges, i);
    assert Symbol(r.low) in Exprs(cfg.sym(s)) && r.low in Syms(Symbol(r.low));
    assert Symbol(r.high) in Exprs(cfg.sym(s)) && r.high in Syms(Symbol(r.high));
  }

  lemma KeyExprs(d: SymbolDef)
    ensures d.revDep in Exprs(d) && d.weakRevDep in Exprs(d) && d.directDep in Exprs(d)
  {
  }

  lemma ImpliedGrows(cfg: Config, s: int, c0: Cache, c1: Cache, c2: Cache)
    requires Grows(c0, c1) && Grows(c1, c2)
    ensures var d := cfg.sym(s);
      && (DefaultV(cfg, d.defaults, ViewOf(c0)).Some? ==>
            DefaultV(cfg, d.defaults, ViewOf(c2)) == DefaultV(cfg, d.defaults, ViewOf(c0)))
      && (EvalV(cfg, d.weakRevDep, ViewOf(c1)).Some? ==>
            EvalV(cfg, d.weakRevDep, ViewOf(c2)) == EvalV(cfg, d.weakRevDep, ViewOf(c1)))
  {
    GrowsKeeps(cfg, s, c0, c2);
    KeepsParts(cfg.sym(s), ViewOf(c0), ViewOf(c2));
    DefaultKeeps(cfg, cfg.sym(s).defaults, ViewOf(c0), ViewOf(c2));
    EvalGrows(cfg, cfg.sym(s).weakRevDep, c1, c2);
  }

  // ------------------------------------------------------------------ the operations

  function UsersOf(m: map<int, Value>): Users {
    s => if s in m then Some(m[s]) else None
  }

  predicate Dependent(dependents: map<int, set<int>>, t: int, s: int) {
    t in dependents && s in dependents[t]
  }

  /** The `_dependents` sets: the defined symbols whose properties mention a symbol. */
  ghost predicate DependentsOk(cfg: Config, dependents: map<int, set<int>>, done: set<int>) {
    forall s, t :: Dependent(dependents, t, s) <==> (s in done && !cfg.constant(t) && Dep(cfg, s, t))
  }

  /** The sets with s added to those of all symbols of an expression that are not constant. */
  ghost predicate DependsToo(cfg: Config, before: map<int, set<int>>, after: map<int, set<int>>, s: int,
                             ids: set<int>) {
    forall t, x :: Dependent(after, t, x) <==> Dependent(before, t, x) || (x == s && t in ids && !cfg.constant(t))
  }

  ghost function AllSyms(es: seq<Expr>): set<int> {
    if es == [] then {} else AllSyms(es[..|es| - 1]) + Syms(es[|es| - 1])
  }

  lemma {:induction false} AllSymsHas(es: seq<Expr>, t: int)
    ensures t in AllSyms(es) <==> exists e :: e in es && t in Syms(e)
  {
    if es != [] {
      var front, last := es[..|es| - 1], es[|es| - 1];
      AllSymsHas(front, t);
      assert es == front + [last];
      if e :| e in front && t in Syms(e) {
        assert e in es;
      }
      assert last in es;
    }
  }

  lemma AllSymsAreDeps(cfg: Config, s: int)
    ensures forall t :: t in AllSyms(Exprs(cfg.sym(s))) <==> Dep(cfg, s, t)
  {
    forall t
      ensures t in AllSyms(Exprs(cfg.sym(s))) <==> Dep(cfg, s, t)
    {
      AllSymsHas(Exprs(cfg.sym(s)), t);
    }
  }

  /** set_value's test of a value against the symbol's type. */
  predicate Accepts(cfg: Config, t: Type, v: Value) {
    match v
    case Tri(x) => (t == BOOL && (x == 2 || x == 0)) || (t == TRISTATE && 0 <= x <= 2)
    case Text(x) =>
      || t == STRING
      || (t == INT && cfg.num(x, 10).Some?)
      || (t == HEX && cfg.num(x, 16).Some? && cfg.num(x, 16).value >= 0)
  }

  /** The strings n, m and y stand for tristate values on bool and tristate symbols. */
  function Canonical(t: Type, v: Value): Value {
    if BoolTristate(t) && v == Text("n") then Tri(0)
    else if BoolTristate(t) && v == Text("m") then Tri(1)
    else if BoolTristate(t) && v == Text("y") then Tri(2)
    else v
  }

  lemma SmallerKeys(a: set<int>, gone: set<int>, x: int)
    ensures x in a * gone ==> |a - gone| < |a|
    ensures |a - gone| <= |a|
  {
    assert a == (a - gone) + (a * gone);
    assert |a| == |a - gone| + |a * gone|;
  }

  lemma FewerKeys(m: map<int, int>, gone: set<int>)
    ensures |(m - gone).Keys| <= |m.Keys|
  {
    assert (m - gone).Keys == m.Keys - gone;
    SmallerKeys(m.Keys, gone, 0);
  }

  ghost predicate DependentsDefined(cfg: Config, dependents: map<int, set<int>>) {
    forall t, s :: Dependent(dependents, t, s) ==> s in cfg.defined
  }

  lemma WithoutTwice(c: Cache, a: set<int>, b: set<int>)
    ensures Without(Without(c, a), b) == Without(c, a + b)
  {
    assert c.vis - a - b == c.vis - (a + b);
    assert c.tri - a - b == c.tri - (a + b);
    assert c.str - a - b == c.str - (a + b);
  }

  /** No dependent of these symbols has its visibility cached. */
  ghost predicate Cleared(dependents: map<int, set<int>>, gone: set<int>, vis: map<int, int>) {
    forall t, s :: t in gone && Dependent(dependents, t, s) ==> s !in vis
  }

  lemma ClearedUnion(dependents: map<int, set<int>>, a: set<int>, b: set<int>, vis: map<int, int>, vis2: map<int, int>)
    requires Cleared(dependents, a, vis) && Cleared(dependents, b, vis2) && vis2.Keys <= vis.Keys
    ensures Cleared(dependents, a + b, vis2)
  {
  }

  /** Invalidation from x has come to where only the dependents in `rest` are left to visit. */
  ghost predicate Swept(cfg: Config, dependents: map<int, set<int>>, x: int, c0: Cache, c: Cache, gone: set<int>,
                        rest: set<int>) {
    && gone <= cfg.defined && c == Without(c0, gone)
    && (cfg.modules in gone ==> gone == cfg.defined)
    && Cleared(dependents, gone, c.vis)
    && (forall s :: s in rest ==> Dependent(dependents, x, s))
    && (forall s :: Dependent(dependents, x, s) ==> s in rest || s !in c.vis)
  }

  lemma SweptItem(cfg: Config, dependents: map<int, set<int>>, x: int, c0: Cache, c: Cache, gone: set<int>,
                  rest: set<int>, item: int)
    requires Swept(cfg, dependents, x, c0, c, gone, rest) && item in rest && DependentsDefined(cfg, dependents)
    ensures item in cfg.defined && |c.vis.Keys| <= |c0.vis.Keys|
  {
    FewerKeys(c0.vis, gone);
  }

  lemma SweptMore(cfg: Config, dependents: map<int, set<int>>, x: int, c0: Cache, c: Cache, c2: Cache,
                  gone: set<int>, more: set<int>, rest: set<int>, item: int)
    requires Swept(cfg, dependents, x, c0, c, gone, rest) && item in more && more <= cfg.defined
    requires c2 == Without(c, more) && (cfg.modules in more ==> more == cfg.defined)
    requires Cleared(dependents, more, c2.vis)
    ensures Swept(cfg, dependents, x, c0, c2, gone + more, rest - {item})
  {
    WithoutTwice(c0, gone, more);
    ClearedUnion(dependents, gone, more, c.vis, c2.vis);
  }

  lemma InvalidatedFarEnough(cfg: Config, dependents: map<int, set<int>>, c: Cache, gone: set<int>)
    requires ConfigOk(cfg) && DependentsOk(cfg, dependents, cfg.defined) && gone <= cfg.defined
    requires cfg.modules in gone ==> gone == cfg.defined
    requires Cleared(dependents, gone, Without(c, gone).vis)
    ensures FarEnough(cfg, c, gone)
  {
    forall t, s | t in gone && s in cfg.defined && Dep(cfg, s, t)
      ensures s !in Without(c, gone).vis
    {
      assert SymbolOk(cfg, t);
      assert Dependent(dependents, t, s);
    }
  }

  class Kconfig {
    const cfg: Config
    ghost const rank: int -> nat
    var dependents: map<int, set<int>>
    var userValue: map<int, Value>
    var cache: Cache

    ghost predicate Valid()
      reads this
    {
      && ConfigOk(cfg) && Ranked(cfg, rank)
      && Inv(cfg, UsersOf(userValue), cache)
    }

    ghost predicate Built()
      reads this`dependents
    {
      DependentsOk(cfg, dependents, cfg.defined)
    }

    /** _sym_to_num; None is a ValueError. */
    method SymToNum(s: int) returns (n: Option<int>)
      requires Valid()
      modifies this`cache
      ensures Valid() && Grows(old(cache), cache)
      ensures NumV(cfg, s, ViewOf(cache)) == Some(n)
      decreases rank(s), 9
    {
      if BoolTristate(cfg.sym(s).origType) {
        var v := TriValue(s);
        n := Some(v);
      } else {
        var x := StrValue(s);
        n := cfg.num(x, Base(cfg.sym(s).origType));
      }
    }

    method Strcmp(a: int, b: int, ghost r: nat) returns (v: int)
      requires Valid() && rank(a) < r && rank(b) < r
      modifies this`cache
      ensures Valid() && Grows(old(cache), cache)
      ensures StrcmpV(cfg, a, b, ViewOf(cache)) == Some(v)
      decreases r, 0
    {
      var x := StrValue(a);
      var y := StrValue(b);
      v := cfg.strcmp(x, y);
    }

    /** The difference of two symbols as numbers; None where one of them is not a number. */
    method Subtract(a: int, b: int, ghost r: nat) returns (v: Option<int>)
      requires Valid() && rank(a) < r && rank(b) < r
      modifies this`cache
      ensures Valid() && Grows(old(cache), cache)
      ensures NumsV(cfg, a, b, ViewOf(cache)) == Some(v)
      decreases r, 0
    {
      var x := SymToNum(a);
      if x == None {
        return None;
      }
      ghost var c := cache;
      var y := SymToNum(b);
      NumGrows(cfg, a, c, cache);
      v := if y == None then None else Some(x.value - y.value);
    }

    method Compare(a: int, b: int, ghost r: nat) returns (v: int)
      requires Valid() && rank(a) < r && rank(b) < r
      modifies this`cache
      ensures Valid() && Grows(old(cache), cache)
      ensures CompV(cfg, a, b, ViewOf(cache)) == Some(v)
      decreases r, 1
    {
      if cfg.sym(a).origType == STRING && cfg.sym(b).origType == STRING {
        v := Strcmp(a, b, r);
      } else {
        var d := Subtract(a, b, r);
        if d == None {
          ghost var c := cache;
          v := Strcmp(a, b, r);
          NumsGrow(cfg, a, b, c, cache);
        } else {
          v := d.value;
        }
      }
    }

    /** expr_value */
    method ExprValue(e: Expr, ghost r: nat) returns (v: int)
      requires Valid() && forall t :: t in Syms(e) ==> rank(t) < r
      modifies this`cache
      ensures Valid() && Grows(old(cache), cache)
      ensures EvalV(cfg, e, ViewOf(cache)) == Some(v)
      decreases r, 2, e
    {
      match e {
        case Symbol(id) =>
          v := TriValue(id);
        case And(e1, e2) =>
          v := ExprValue(e1, r);
          if v != 0 {
            ghost var c := cache;
            var v2 := ExprValue(e2, r);
            EvalGrows(cfg, e1, c, cache);
            v := Min(v, v2);
          }
        case Or(e1, e2) =>
          v := ExprValue(e1, r);
          if v != 2 {
            ghost var c := cache;
            var v2 := ExprValue(e2, r);
            EvalGrows(cfg, e1, c, cache);
            v := Max(v, v2);
          }
        case Not(x) =>
          v := ExprValue(x, r);
          v := 2 - v;
        case Relation(rel, a, b) =>
          var comp := Compare(a, b, r);
          v := if Holds(rel, comp) then 2 else 0;
      }
    }

    /** The `type` property. */
    method TypeOf(s: int) returns (t: Type)
      requires Valid() && cfg.preset(s) == None
      modifies this`cache
      ensures Valid() && Grows(old(cache), cache)
      ensures TypeV(cfg, s, ViewOf(cache)) == Some(t)
      decreases rank(s), 0
    {
      t := cfg.sym(s).origType;
      if t == TRISTATE {
        assert MayRead(cfg, s, cfg.modules);
        var m := TriValue(cfg.modules);
        t := if m == 0 then BOOL else TRISTATE;
      }
    }

    /** An expression among a symbol's properties. */
    method PropertyValue(s: int, e: Expr) returns (v: int)
      requires Valid() && e in Exprs(cfg.sym(s))
      modifies this`cache
      ensures Valid() && Grows(old(cache), cache)
      ensures EvalV(cfg, e, ViewOf(cache)) == Some(v)
      decreases rank(s), 3
    {
      forall t | t in Syms(e)
        ensures rank(t) < rank(s)
      {
        assert Dep(cfg, s, t);
        assert MayRead(cfg, s, t);
      }
      v := ExprValue(e, rank(s));
    }

    /** The loop of _visibility over the nodes with a prompt. */
    method PromptsValue(s: int) returns (vis: int)
      requires Valid()
      modifies this`cache
      ensures Valid() && Grows(old(cache), cache)
      ensures PromptsV(cfg, cfg.sym(s).prompts, ViewOf(cache)) == Some(vis)
      decreases rank(s), 4
    {
      var ps := cfg.sym(s).prompts;
      vis := 0;
      for i := 0 to |ps|
        invariant Valid() && Grows(old(cache), cache)
        invariant PromptsV(cfg, ps[..i], ViewOf(cache)) == Some(vis)
      {
        ghost var c := cache;
        assert ps[i] in ps;
        var v := PropertyValue(s, ps[i]);
        assert ps[..i + 1][..i] == ps[..i];
        PromptsGrow(cfg, ps[..i], c, cache);
        vis := Max(vis, v);
      }
      assert ps[..|ps|] == ps;
    }

    /** visibility */
    method Visibility(s: int) returns (vis: int)
      requires Valid()
      modifies this`cache
      ensures Valid() && Grows(old(cache), cache)
      ensures s in cache.vis && cache.vis[s] == vis
      decreases rank(s), 5
    {
      if s in cache.vis {
        vis := cache.vis[s];
      } else {
        vis := PromptsValue(s);
        if vis == 1 {
          ghost var c := cache;
          assert SymbolOk(cfg, s);
          var t := TypeOf(s);
          PromptsGrow(cfg, cfg.sym(s).prompts, c, cache);
          vis := if t == TRISTATE then 1 else 2;
        }
        AddVis(cfg, UsersOf(userValue), cache, s, vis);
        cache := cache.(vis := cache.vis[s := vis]);
      }
    }

    /** The loops over the defaults: the first one whose condition holds. */
    method FirstDefault(s: int) returns (i: nat, c: int)
      requires Valid()
      modifies this`cache
      ensures Valid() && Grows(old(cache), cache)
      ensures var ds := cfg.sym(s).defaults;
        i <= |ds| && DefaultsSkipped(cfg, ds, i, ViewOf(cache)) &&
        (i < |ds| ==> EvalV(cfg, ds[i].cond, ViewOf(cache)) == Some(c) && c != 0)
      decreases rank(s), 4
    {
      var ds := cfg.sym(s).defaults;
      i, c := 0, 0;
      while i < |ds|
        invariant i <= |ds| && Valid() && Grows(old(cache), cache)
        invariant DefaultsSkipped(cfg, ds, i, ViewOf(cache))
      {
        ghost var c0 := cache;
        DefaultInExprs(ds, i);
        c := PropertyValue(s, ds[i].cond);
        DefaultsSkippedGrow(cfg, ds, i, c0, cache);
        if c != 0 {
          return;
        }
        i := i + 1;
      }
    }

    method DefaultValue(s: int) returns (val: int)
      requires Valid()
      modifies this`cache
      ensures Valid() && Grows(old(cache), cache)
      ensures DefaultV(cfg, cfg.sym(s).defaults, ViewOf(cache)) == Some(val)
      decreases rank(s), 5
    {
      var ds := cfg.sym(s).defaults;
      var i, c := FirstDefault(s);
      val := 0;
      if i < |ds| {
        ghost var c0 := cache;
        DefaultInExprs(ds, i);
        var v := PropertyValue(s, ds[i].value);
        DefaultsSkippedGrow(cfg, ds, i, c0, cache);
        EvalGrows(cfg, ds[i].cond, c0, cache);
        val := Min(v, c);
      }
      SkipDefaults(cfg, ds, i, ViewOf(cache));
    }

    method DefaultStr(s: int) returns (val: string)
      requires Valid() && !BoolTristate(cfg.sym(s).origType)
      modifies this`cache
      ensures Valid() && Grows(old(cache), cache)
      ensures DefaultStrV(cfg, cfg.sym(s).defaults, ViewOf(cache)) == Some(val)
      decreases rank(s), 5
    {
      var ds := cfg.sym(s).defaults;
      var i, c := FirstDefault(s);
      val := "";
      if i < |ds| {
        ghost var c0 := cache;
        DefaultInExprs(ds, i);
        assert ds[i].value.Symbol? by {
          assert SymbolOk(cfg, s) && ds[i] in ds;
        }
        assert MayRead(cfg, s, ds[i].value.id) by {
          assert ds[i].value in Exprs(cfg.sym(s)) && ds[i].value.id in Syms(ds[i].value);
        }
        val := StrValue(ds[i].value.id);
        DefaultsSkippedGrow(cfg, ds, i, c0, cache);
        EvalGrows(cfg, ds[i].cond, c0, cache);
      }
      SkipDefaults(cfg, ds, i, ViewOf(cache));
    }

    /** Defaults and implies, where no visible user value decides. */
    method DefaultOrImplied(s: int) returns (val: int)
      requires Valid()
      modifies this`cache
      ensures Valid() && Grows(old(cache), cache)
      ensures ChosenV(cfg, cfg.sym(s), None, 0, ViewOf(cache)) == Some(val)
      decreases rank(s), 6
    {
      var d := cfg.sym(s);
      val := DefaultValue(s);
      ghost var c0 := cache;
      KeyExprs(d);
      var dep := PropertyValue(s, d.weakRevDep);
      ghost var c1 := cache;
      if dep != 0 {
        var direct := PropertyValue(s, d.directDep);
        ImpliedGrows(cfg, s, c0, c1, cache);
        if direct != 0 {
          val := Max(dep, val);
        }
      } else {
        ImpliedGrows(cfg, s, c0, c1, cache);
      }
    }

    /** Selects. */
    method Selected(s: int, val0: int) returns (val: int)
      requires Valid()
      modifies this`cache
      ensures Valid() && Grows(old(cache), cache)
      ensures SelectedV(cfg, cfg.sym(s), val0, ViewOf(cache)) == Some(val)
      decreases rank(s), 6
    {
      var d := cfg.sym(s);
      val := val0;
      KeyExprs(d);
      var dep := PropertyValue(s, d.revDep);
      if dep != 0 {
        ghost var c0 := cache;
        var direct := PropertyValue(s, d.directDep);
        EvalGrows(cfg, d.revDep, c0, cache);
        val := Max(dep, val);
      }
    }

    method Promoted(s: int, val0: int) returns (val: int)
      requires Valid() && cfg.preset(s) == None
      modifies this`cache
      ensures Valid() && Grows(old(cache), cache)
      ensures PromotedV(cfg, s, val0, ViewOf(cache)) == Some(val)
      decreases rank(s), 6
    {
      val := val0;
      if val == 1 {
        var t := TypeOf(s);
        if t == BOOL {
          val := 2;
        } else {
          ghost var c0 := cache;
          KeyExprs(cfg.sym(s));
          var v := PropertyValue(s, cfg.sym(s).weakRevDep);
          GrowsKeeps(cfg, s, c0, cache);
          TypeKeeps(cfg, s, ViewOf(c0), ViewOf(cache));
          if v == 2 {
            val := 2;
          }
        }
      }
    }

    /** tri_value */
    method TriValue(s: int) returns (val: int)
      requires Valid()
      modifies this`cache
      ensures Valid() && Grows(old(cache), cache)
      ensures s in cache.tri && cache.tri[s] == val
      decreases rank(s), 7
    {
      if s in cache.tri {
        val := cache.tri[s];
      } else {
        if !BoolTristate(cfg.sym(s).origType) {
          val := 0;
        } else {
          val := TriUncached(s);
        }
        AddTri(cfg, UsersOf(userValue), cache, s, val);
        cache := cache.(tri := cache.tri[s := val]);
      }
    }

    method TriUncached(s: int) returns (val: int)
      requires Valid() && BoolTristate(cfg.sym(s).origType) && cfg.preset(s) == None
      modifies this`cache
      ensures Valid() && Grows(old(cache), cache)
      ensures TriV(cfg, UsersOf(userValue)(s), s, ViewOf(cache)) == Some(val)
      decreases rank(s), 7, 0
    {
      var d := cfg.sym(s);
      var vis := Visibility(s);
      if vis != 0 && s in userValue && userValue[s].Tri? {
        val := Min(userValue[s].tri, vis);
      } else {
        val := DefaultOrImplied(s);
      }
      ghost var c1, v1 := cache, val;
      val := Selected(s, val);
      ghost var c2, v2 := cache, val;
      val := Promoted(s, val);
      StagesGrow(cfg, s, UsersOf(userValue)(s), vis, v1, c1, c2, cache);
    }

    /** The loop over the ranges: the first one whose condition holds. */
    method FirstRange(s: int) returns (i: nat, c: int)
      requires Valid()
      modifies this`cache
      ensures Valid() && Grows(old(cache), cache)
      ensures var rs := cfg.sym(s).ranges;
        i <= |rs| && RangesSkipped(cfg, rs, i, ViewOf(cache)) &&
        (i < |rs| ==> EvalV(cfg, rs[i].cond, ViewOf(cache)) == Some(c) && c != 0)
      decreases rank(s), 4
    {
      var rs := cfg.sym(s).ranges;
      i, c := 0, 0;
      while i < |rs|
        invariant i <= |rs| && Valid() && Grows(old(cache), cache)
        invariant RangesSkipped(cfg, rs, i, ViewOf(cache))
      {
        ghost var c0 := cache;
        RangeInExprs(rs, i);
        c := PropertyValue(s, rs[i].cond);
        RangesSkippedGrow(cfg, rs, i, c0, cache);
        if c != 0 {
          return;
        }
        i := i + 1;
      }
    }

    /** The range in effect. */
    method ActiveRange(s: int) returns (b: Bounds)
      requires Valid()
      modifies this`cache
      ensures Valid() && Grows(old(cache), cache)
      ensures RangeV(cfg, cfg.sym(s).ranges, Base(cfg.sym(s).origType), ViewOf(cache)) == Some(b)
      decreases rank(s), 6
    {
      var rs, base := cfg.sym(s).ranges, Base(cfg.sym(s).origType);
      var i, c := FirstRange(s);
      b := Unbounded;
      if i < |rs| {
        ghost var c0 := cache;
        BoundsRead(cfg, s, i);
        var low := StrValue(rs[i].low);
        var high := StrValue(rs[i].high);
        RangesSkippedGrow(cfg, rs, i, c0, cache);
        EvalGrows(cfg, rs[i].cond, c0, cache);
        b := Bounded(NumOr0(cfg, low, base), NumOr0(cfg, high, base));
      }
      SkipRanges(cfg, rs, i, base, ViewOf(cache));
    }

    /** The value of an int or hex symbol. */
    method NumberValue(s: int, vis: int) returns (val: string)
      requires Valid() && !BoolTristate(cfg.sym(s).origType)
      modifies this`cache
      ensures Valid() && Grows(old(cache), cache)
      ensures NumberV(cfg, cfg.sym(s), UsersOf(userValue)(s), vis, ViewOf(cache)) == Some(val)
      decreases rank(s), 7
    {
      var d := cfg.sym(s);
      var b := ActiveRange(s);
      if vis != 0 && s in userValue && userValue[s].Text? && userValue[s].text != "" &&
         UserInRange(cfg, d.origType, b, userValue[s].text)
      {
        val := userValue[s].text;
      } else {
        ghost var c0 := cache;
        val := DefaultStr(s);
        GrowsKeeps(cfg, s, c0, cache);
        KeepsParts(d, ViewOf(c0), ViewOf(cache));
        RangeKeeps(cfg, d.ranges, Base(d.origType), ViewOf(c0), ViewOf(cache));
        val := Clamped(cfg, d.origType, b, val);
      }
    }

    /** str_value */
    method StrValue(s: int) returns (val: string)
      requires Valid()
      modifies this`cache
      ensures Valid() && Grows(old(cache), cache)
      ensures s in cache.str && cache.str[s] == val
      decreases rank(s), 8
    {
      if s in cache.str {
        val := cache.str[s];
      } else {
        var d := cfg.sym(s);
        if BoolTristate(d.origType) {
          var v := TriValue(s);
          val := TriToStr(v);
        } else if d.origType == UNKNOWN {
          val := d.name;
        } else {
          var vis := Visibility(s);
          if d.origType != STRING {
            val := NumberValue(s, vis);
          } else if vis != 0 && s in userValue && userValue[s].Text? {
            val := userValue[s].text;
          } else {
            val := DefaultStr(s);
          }
        }
        AddStr(cfg, UsersOf(userValue), cache, s, val);
        cache := cache.(str := cache.str[s := val]);
      }
    }

    /** Reading a symbol gives what evaluation from scratch gives. */
    method Read(s: int) returns (vis: int, tri: int, str: string)
      requires Valid()
      modifies this`cache
      ensures Valid()
      ensures ScratchVis(cfg, UsersOf(userValue), rank, s) == Some(vis)
      ensures ScratchTri(cfg, UsersOf(userValue), rank, s) == Some(tri)
      ensures ScratchStr(cfg, UsersOf(userValue), rank, s) == Some(str)
    {
      vis := Visibility(s);
      tri := TriValue(s);
      str := StrValue(s);
      CachedIsScratch(cfg, UsersOf(userValue), rank, cache, s);
    }

    // ------------------------------------------------------- building and invalidating

    /** A freshly parsed tree: only n, m and y have cached values. */
    constructor (cfg: Config, ghost rank: int -> nat, nmy: set<int>)
      requires ConfigOk(cfg) && Ranked(cfg, rank)
      requires forall s :: s in nmy <==> cfg.preset(s).Some?
      ensures Valid() && this.cfg == cfg && this.rank == rank && Built() && userValue == map[]
    {
      this.cfg, this.rank := cfg, rank;
      dependents, userValue := map[], map[];
      cache := Cache(map[], map s | s in nmy :: cfg.preset(s).value, map[]);
      new;
      BuildDep();
    }

    /** _depend_on */
    method DependOn(s: int, e: Expr)
      modifies this`dependents
      ensures DependsToo(cfg, old(dependents), dependents, s, Syms(e))
      decreases e
    {
      match e {
        case Symbol(id) => AddDependent(s, id);
        case And(l, r) => DependOn(s, l); DependOn(s, r);
        case Or(l, r) => DependOn(s, l); DependOn(s, r);
        case Not(x) => DependOn(s, x);
        case Relation(_, a, b) => AddDependent(s, a); AddDependent(s, b);
      }
    }

    method AddDependent(s: int, id: int)
      modifies this`dependents
      ensures DependsToo(cfg, old(dependents), dependents, s, {id})
    {
      if !cfg.constant(id) {
        dependents := dependents[id := (if id in dependents then dependents[id] else {}) + {s}];
      }
    }

    /** The dependencies of one symbol. */
    method DependOnAll(s: int)
      modifies this`dependents
      ensures DependsToo(cfg, old(dependents), dependents, s, AllSyms(Exprs(cfg.sym(s))))
    {
      var es := Exprs(cfg.sym(s));
      for i := 0 to |es|
        invariant DependsToo(cfg, old(dependents), dependents, s, AllSyms(es[..i]))
      {
        DependOn(s, es[i]);
        assert es[..i + 1][..i] == es[..i];
      }
      assert es[..|es|] == es;
    }

    /** _build_dep */
    method BuildDep()
      requires dependents == map[]
      modifies this`dependents
      ensures Built()
    {
      var rest := cfg.defined;
      ghost var done: set<int> := {};
      while rest != {}
        invariant cfg.defined == done + rest && DependentsOk(cfg, dependents, done)
      {
        Lists.HasElement(rest);
        var s: int :| s in rest;
        DependOnAll(s);
        AllSymsAreDeps(cfg, s);
        rest, done := rest - {s}, done + {s};
      }
      assert cfg.defined == done;
    }

    /** _invalidate_all */
    method InvalidateAll()
      modifies this`cache
      ensures cache == Without(old(cache), cfg.defined)
    {
      cache := Without(cache, cfg.defined);
    }

    /** _rec_invalidate.  It stops at dependents without a cached visibility, and ends because
        fewer and fewer symbols have one. */
    method RecInvalidate(x: int) returns (ghost gone: set<int>)
      requires x in cfg.defined && DependentsDefined(cfg, dependents)
      modifies this`cache
      ensures x in gone && gone <= cfg.defined && cache == Without(old(cache), gone)
      ensures cfg.modules in gone ==> gone == cfg.defined
      ensures Cleared(dependents, gone, cache.vis)
      decreases |cache.vis.Keys| + (if x in cache.vis then 0 else 1), 0
    {
      if x == cfg.modules {
        InvalidateAll();
        return cfg.defined;
      }
      SmallerKeys(cache.vis.Keys, {x}, x);
      assert Without(cache, {x}).vis.Keys == cache.vis.Keys - {x};
      cache := Without(cache, {x});
      gone := InvalidateDependents(x);
      WithoutTwice(old(cache), {x}, gone);
      gone := {x} + gone;
    }

    /** The loop of _rec_invalidate. */
    method InvalidateDependents(x: int) returns (ghost gone: set<int>)
      requires DependentsDefined(cfg, dependents)
      modifies this`cache
      ensures Swept(cfg, dependents, x, old(cache), cache, gone, {})
      decreases |cache.vis.Keys|, 1
    {
      gone := {};
      var rest := if x in dependents then dependents[x] else {};
      while rest != {}
        invariant Swept(cfg, dependents, x, old(cache), cache, gone, rest)
      {
        Lists.HasElement(rest);
        var item: int :| item in rest;
        if item in cache.vis {
          SweptItem(cfg, dependents, x, old(cache), cache, gone, rest, item);
          ghost var c := cache;
          ghost var more := RecInvalidate(item);
          SweptMore(cfg, dependents, x, old(cache), c, cache, gone, more, rest, item);
          gone := gone + more;
        }
        rest := rest - {item};
      }
    }

    /** _rec_invalidate_if_has_prompt, after the user value of x has changed. */
    method RecInvalidateIfHasPrompt(x: int, ghost users: Users)
      requires ConfigOk(cfg) && Ranked(cfg, rank) && Built() && Inv(cfg, users, cache)
      requires forall s :: s != x ==> UsersOf(userValue)(s) == users(s)
      modifies this`cache
      ensures Valid()
    {
      assert SymbolOk(cfg, x);
      ghost var c := cache;
      if cfg.sym(x).prompts != [] {
        ghost var gone := RecInvalidate(x);
        InvalidatedFarEnough(cfg, dependents, c, gone);
        DropKeepsInv(cfg, users, UsersOf(userValue), c, gone);
      } else {
        NoPromptNoEffect(cfg, users, UsersOf(userValue), c, x);
      }
    }

    /** set_value */
    method SetValue(s: int, value: Value) returns (ok: bool)
      requires Valid() && Built()
      modifies this`cache, this`userValue
      ensures Valid() && Built()
      ensures var v := Canonical(cfg.sym(s).origType, value);
        && ok == (Accepts(cfg, cfg.sym(s).origType, v) || (s in old(userValue) && old(userValue[s]) == v))
        && userValue == if ok then old(userValue)[s := v] else old(userValue)
    {
      var v := Canonical(cfg.sym(s).origType, value);
      if s in userValue && userValue[s] == v {
        return true;
      }
      if !Accepts(cfg, cfg.sym(s).origType, v) {
        return false;
      }
      ghost var users := UsersOf(userValue);
      userValue := userValue[s := v];
      RecInvalidateIfHasPrompt(s, users);
      ok := true;
    }

    /** unset_value */
    method UnsetValue(s: int)
      requires Valid() && Built()
      modifies this`cache, this`userValue
      ensures Valid() && Built() && userValue == old(userValue) - {s}
    {
      if s in userValue {
        ghost var users := UsersOf(userValue);
        userValue := userValue - {s};
        RecInvalidateIfHasPrompt(s, users);
      }
    }
  }
}
