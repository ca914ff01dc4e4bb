/**
 What the values of Kconfig symbols mean (scripts/kconfig/kconfiglib.py), said without the
 evaluation itself: by which prompt, default, range, imply or select a value comes about.
 */
module KconfigMeaning {
  import opened Wrappers
  import opened KconfigExpr
  import opened KconfigCache

  // ------------------------------------------------------------------------ expressions

  /** `n` is the number that a symbol stands for in a comparison. */
  ghost predicate IsNumber(cfg: Config, s: int, w: View, n: int) {
    var t := cfg.sym(s).origType;
    if t == BOOL || t == TRISTATE then w.tri(s) == Some(n)
    else
      && w.str(s).Some?
      && cfg.num(w.str(s).value, if t == HEX then 16 else if t == INT then 10 else 0) == Some(n)
  }

  ghost predicate BothNumbers(cfg: Config, a: int, b: int, w: View) {
    && !(cfg.sym(a).origType == STRING && cfg.sym(b).origType == STRING)
    && exists x, y :: IsNumber(cfg, a, w, x) && IsNumber(cfg, b, w, y)
  }

  lemma NumMeaning(cfg: Config, s: int, w: View, n: int)
    requires NumV(cfg, s, w).Some?
    ensures IsNumber(cfg, s, w, n) <==> NumV(cfg, s, w).value == Some(n)
  {
  }

  /** Two symbols compare as numbers if both are and not both have type string, else as strings. */
  lemma CompMeaning(cfg: Config, a: int, b: int, w: View, x: int, y: int)
    requires CompV(cfg, a, b, w).Some?
    ensures var d := CompV(cfg, a, b, w).value;
      && (BothNumbers(cfg, a, b, w) && IsNumber(cfg, a, w, x) && IsNumber(cfg, b, w, y) ==> d == x - y)
      && (!BothNumbers(cfg, a, b, w) ==>
            w.str(a).Some? && w.str(b).Some? && d == cfg.strcmp(w.str(a).value, w.str(b).value))
  {
    if NumV(cfg, a, w).Some? { NumMeaning(cfg, a, w, x); }
    if NumV(cfg, b, w).Some? { NumMeaning(cfg, b, w, y); }
    if NumsV(cfg, a, b, w).Some? && NumsV(cfg, a, b, w).value.Some? {
      var m, n := NumV(cfg, a, w).value.value, NumV(cfg, b, w).value.value;
      NumMeaning(cfg, a, w, m);
      NumMeaning(cfg, b, w, n);
    }
  }

  /** The environment agrees with all that is known. */
  ghost predicate Agrees(cfg: Config, w: View, env: Env) {
    && EnvOk(env) && (forall s :: w.tri(s).Some? ==> env.tri(s) == w.tri(s).value)
    && (forall a, b :: CompV(cfg, a, b, w).Some? ==> env.cmp(a, b) == CompV(cfg, a, b, w).value)
  }

  /** As far as an expression can be evaluated, its value is its meaning in three-valued logic. */
  lemma {:induction false} EvalMeaning(cfg: Config, e: Expr, w: View, env: Env)
    requires Agrees(cfg, w, env)
    ensures EvalV(cfg, e, w).Some? ==> EvalV(cfg, e, w).value == Meaning(e, env) && 0 <= Meaning(e, env) <= 2
  {
    ShortCircuit(e, env);
    match e
    case Symbol(_) =>
    case And(l, r) =>
      EvalMeaning(cfg, l, w, env);
      EvalMeaning(cfg, r, w, env);
      ShortCircuit(r, env);
    case Or(l, r) =>
      EvalMeaning(cfg, l, w, env);
      EvalMeaning(cfg, r, w, env);
      ShortCircuit(r, env);
    case Not(x) => EvalMeaning(cfg, x, w, env);
    case Relation(_, _, _) =>
  }

  // --------------------------------------------------------------------- first that holds

  predicate IsNo(cfg: Config, e: Expr, w: View) { EvalV(cfg, e, w) == Some(0) }

  predicate IsYesOrM(cfg: Config, e: Expr, w: View) { EvalV(cfg, e, w).Some? && EvalV(cfg, e, w).value != 0 }

  /** The i-th default is the first whose condition is not n. */
  ghost predicate FirstDefault(cfg: Config, ds: seq<Default>, w: View, i: nat) {
    i < |ds| && IsYesOrM(cfg, ds[i].cond, w) && forall j :: 0 <= j < i ==> IsNo(cfg, ds[j].cond, w)
  }

  ghost predicate NoDefault(cfg: Config, ds: seq<Default>, w: View) {
    forall j :: 0 <= j < |ds| ==> IsNo(cfg, ds[j].cond, w)
  }

  /** The i-th range is the first whose condition is not n. */
  ghost predicate FirstRange(cfg: Config, rs: seq<Range>, w: View, i: nat) {
    i < |rs| && IsYesOrM(cfg, rs[i].cond, w) && forall j :: 0 <= j < i ==> IsNo(cfg, rs[j].cond, w)
  }

  ghost predicate NoRange(cfg: Config, rs: seq<Range>, w: View) {
    forall j :: 0 <= j < |rs| ==> IsNo(cfg, rs[j].cond, w)
  }

  /** `v` is the value of the first default that holds, limited by its condition; n without one. */
  ghost predicate DefaultTri(cfg: Config, ds: seq<Default>, w: View, v: int) {
    || (NoDefault(cfg, ds, w) && v == 0)
    || exists i: nat ::
         && FirstDefault(cfg, ds, w, i) && EvalV(cfg, ds[i].value, w).Some?
         && v <= EvalV(cfg, ds[i].value, w).value && v <= EvalV(cfg, ds[i].cond, w).value
         && (v == EvalV(cfg, ds[i].value, w).value || v == EvalV(cfg, ds[i].cond, w).value)
  }

  /** `x` is the string value of the symbol that the first default that holds names; "" without one. */
  ghost predicate DefaultText(cfg: Config, ds: seq<Default>, w: View, x: string) {
    || (NoDefault(cfg, ds, w) && x == "")
    || exists i: nat :: FirstDefault(cfg, ds, w, i) && ds[i].value.Symbol? && w.str(ds[i].value.id) == Some(x)
  }

  lemma FirstDefaultOn(cfg: Config, ds: seq<Default>, w: View, i: nat)
    requires ds != [] && IsNo(cfg, ds[0].cond, w) && FirstDefault(cfg, ds[1..], w, i)
    ensures FirstDefault(cfg, ds, w, i + 1)
  {
    assert forall j :: 0 < j <= i ==> ds[j] == ds[1..][j - 1];
  }

  lemma NoDefaultOn(cfg: Config, ds: seq<Default>, w: View)
    requires ds != [] && IsNo(cfg, ds[0].cond, w) && NoDefault(cfg, ds[1..], w)
    ensures NoDefault(cfg, ds, w)
  {
    assert forall j :: 0 < j < |ds| ==> ds[j] == ds[1..][j - 1];
  }

  lemma {:induction false} DefaultTriMeaning(cfg: Config, ds: seq<Default>, w: View)
    requires DefaultV(cfg, ds, w).Some?
    ensures DefaultTri(cfg, ds, w, DefaultV(cfg, ds, w).value)
  {
    if ds != [] {
      if IsNo(cfg, ds[0].cond, w) {
        var v := DefaultV(cfg, ds[1..], w).value;
        DefaultTriMeaning(cfg, ds[1..], w);
        if NoDefault(cfg, ds[1..], w) && v == 0 {
          NoDefaultOn(cfg, ds, w);
        } else {
          var i: nat :| FirstDefault(cfg, ds[1..], w, i) && EvalV(cfg, ds[1..][i].value, w).Some?
            && v <= EvalV(cfg, ds[1..][i].value, w).value && v <= EvalV(cfg, ds[1..][i].cond, w).value
            && (v == EvalV(cfg, ds[1..][i].value, w).value || v == EvalV(cfg, ds[1..][i].cond, w).value);
          FirstDefaultOn(cfg, ds, w, i);
        }
      } else {
        assert FirstDefault(cfg, ds, w, 0);
      }
    }
  }

  lemma {:induction false} DefaultTextMeaning(cfg: Config, ds: seq<Default>, w: View)
    requires DefaultStrV(cfg, ds, w).Some? && forall d :: d in ds ==> d.value.Symbol?
    ensures DefaultText(cfg, ds, w, DefaultStrV(cfg, ds, w).value)
  {
    if ds != [] {
      assert ds[0] in ds;
      if IsNo(cfg, ds[0].cond, w) {
        var x := DefaultStrV(cfg, ds[1..], w).value;
        assert forall d :: d in ds[1..] ==> d in ds;
        DefaultTextMeaning(cfg, ds[1..], w);
        if NoDefault(cfg, ds[1..], w) && x == "" {
          NoDefaultOn(cfg, ds, w);
        } else {
          var i: nat :| FirstDefault(cfg, ds[1..], w, i) && w.str(ds[1..][i].value.id) == Some(x);
          FirstDefaultOn(cfg, ds, w, i);
          assert ds[i + 1] == ds[1..][i] && ds[i + 1] in ds;
        }
      } else {
        assert FirstDefault(cfg, ds, w, 0);
      }
    }
  }

  // ------------------------------------------------------------------- tristate values

  /** A tristate is a bool while MODULES is n. */
  ghost predicate IsBool(cfg: Config, s: int, w: View) {
    cfg.sym(s).origType == BOOL || (cfg.sym(s).origType == TRISTATE && w.tri(cfg.modules) == Some(0))
  }

  /** `v` before selects: the user's value up to the visibility, else the default, raised by an imply
      whose symbol has its direct dependencies. */
  ghost predicate BeforeSelect(cfg: Config, user: Option<Value>, s: int, w: View, vis: int, v: int) {
    var d := cfg.sym(s);
    if vis != 0 && user.Some? && user.value.Tri? then
      v <= vis && v <= user.value.tri && (v == vis || v == user.value.tri)
    else
      exists dflt :: DefaultTri(cfg, d.defaults, w, dflt) && EvalV(cfg, d.weakRevDep, w).Some? &&
        var weak := EvalV(cfg, d.weakRevDep, w).value;
        if weak != 0 && IsYesOrM(cfg, d.directDep, w)
        then v >= weak && v >= dflt && (v == weak || v == dflt) else v == dflt
  }

  /** `v` is v0 raised to what selects the symbol; then m is y for a bool, or if y implies it. */
  ghost predicate AfterSelect(cfg: Config, s: int, w: View, v0: int, v: int) {
    EvalV(cfg, cfg.sym(s).revDep, w).Some? &&
    var sel := EvalV(cfg, cfg.sym(s).revDep, w).value;
    var v1 := if sel > v0 then sel else v0;
    v == if v1 == 1 && (IsBool(cfg, s, w) || EvalV(cfg, cfg.sym(s).weakRevDep, w) == Some(2)) then 2 else v1
  }

  /** tri_value, said by its parts: the value before selects, raised to what selects the symbol; and m
      only for a tristate that is not implied by y. */
  lemma TriExactly(cfg: Config, user: Option<Value>, s: int, w: View)
    requires ViewOk(w) && TriV(cfg, user, s, w).Some? && cfg.preset(s) == None && BoolTristate(cfg.sym(s).origType)
    requires user.Some? && user.value.Tri? ==> 0 <= user.value.tri <= 2
    ensures w.vis(s).Some? && EvalV(cfg, cfg.sym(s).revDep, w).Some?
    ensures exists v0 ::
      BeforeSelect(cfg, user, s, w, w.vis(s).value, v0) && AfterSelect(cfg, s, w, v0, TriV(cfg, user, s, w).value)
  {
    var d, vis := cfg.sym(s), w.vis(s).value;
    var v0 := ChosenV(cfg, d, user, vis, w).value;
    ChosenRange(cfg, d, user, vis, w);
    EvalRange(cfg, d.revDep, w);
    BeforeSelectMeaning(cfg, user, s, w, vis);
    assert BeforeSelect(cfg, user, s, w, vis, v0);
  }

  lemma BeforeSelectMeaning(cfg: Config, user: Option<Value>, s: int, w: View, vis: int)
    requires ViewOk(w) && ChosenV(cfg, cfg.sym(s), user, vis, w).Some?
    ensures BeforeSelect(cfg, user, s, w, vis, ChosenV(cfg, cfg.sym(s), user, vis, w).value)
  {
    var d := cfg.sym(s);
    if !(vis != 0 && user.Some? && user.value.Tri?) {
      DefaultTriMeaning(cfg, d.defaults, w);
      assert DefaultTri(cfg, d.defaults, w, DefaultV(cfg, d.defaults, w).value);
    }
  }

  // --------------------------------------------------------------------- string values

  /** The number that a text stands for: 0 for what is none. */
  ghost predicate Counts(cfg: Config, x: string, base: int, n: int) {
    cfg.num(x, base) == Some(n) || (cfg.num(x, base) == None && n == 0)
  }

  /** The bounds of the first range that holds. */
  ghost predicate BoundsAre(cfg: Config, rs: seq<Range>, base: int, w: View, low: int, high: int) {
    exists i: nat ::
      && FirstRange(cfg, rs, w, i) && w.str(rs[i].low).Some? && w.str(rs[i].high).Some?
      && Counts(cfg, w.str(rs[i].low).value, base, low) && Counts(cfg, w.str(rs[i].high).value, base, high)
  }

  lemma {:induction false} RangeMeaning(cfg: Config, rs: seq<Range>, base: int, w: View)
    requires RangeV(cfg, rs, base, w).Some?
    ensures match RangeV(cfg, rs, base, w).value
      case Unbounded => NoRange(cfg, rs, w)
      case Bounded(low, high) => BoundsAre(cfg, rs, base, w, low, high)
  {
    if rs != [] {
      if IsNo(cfg, rs[0].cond, w) {
        RangeMeaning(cfg, rs[1..], base, w);
        assert forall j :: 0 < j < |rs| ==> rs[j] == rs[1..][j - 1];
        if RangeV(cfg, rs, base, w).value.Bounded? {
          var b := RangeV(cfg, rs, base, w).value;
          var i: nat :| FirstRange(cfg, rs[1..], w, i) && w.str(rs[1..][i].low).Some? && w.str(rs[1..][i].high).Some?
            && Counts(cfg, w.str(rs[1..][i].low).value, base, b.low)
            && Counts(cfg, w.str(rs[1..][i].high).value, base, b.high);
          assert FirstRange(cfg, rs, w, i + 1);
        }
      } else {
        assert FirstRange(cfg, rs, w, 0);
      }
    }
  }

  /** Text x is kept if its number is within the bounds, else replaced by the bound that it passes. */
  ghost predicate Limited(cfg: Config, isInt: bool, base: int, low: int, high: int, x: string, r: string) {
    forall n :: Counts(cfg, x, base, n) ==>
      r == if n < low then cfg.show(low, isInt) else if n > high then cfg.show(high, isInt) else x
  }

  ghost predicate Within(cfg: Config, base: int, low: int, high: int, x: string) {
    forall n :: Counts(cfg, x, base, n) ==> low <= n <= high
  }

  /** `r` is right for an int or hex symbol that has a range in effect. */
  ghost predicate RangedValue(cfg: Config, d: SymbolDef, user: Option<Value>, vis: int, w: View, r: string) {
    var base := if d.origType == HEX then 16 else 10;
    exists low, high :: BoundsAre(cfg, d.ranges, base, w, low, high) && InBounds(cfg, d, user, vis, w, low, high, r)
  }

  ghost predicate InBounds(cfg: Config, d: SymbolDef, user: Option<Value>, vis: int, w: View, low: int, high: int,
                           r: string) {
    var base := if d.origType == HEX then 16 else 10;
    if HasText(user, vis) && user.value.text != "" && Within(cfg, base, low, high, user.value.text)
    then r == user.value.text
    else exists x :: DefaultText(cfg, d.defaults, w, x) && Limited(cfg, d.origType == INT, base, low, high, x, r)
  }

  predicate HasText(user: Option<Value>, vis: int) { vis != 0 && user.Some? && user.value.Text? }

  /** `r` is right for an int or hex symbol without one. */
  ghost predicate FreeValue(cfg: Config, d: SymbolDef, user: Option<Value>, vis: int, w: View, r: string) {
    && NoRange(cfg, d.ranges, w)
    && if HasText(user, vis) && user.value.text != "" then r == user.value.text else DefaultText(cfg, d.defaults, w, r)
  }

  lemma NumberMeaning(cfg: Config, d: SymbolDef, user: Option<Value>, vis: int, w: View)
    requires NumberV(cfg, d, user, vis, w).Some? && (d.origType == INT || d.origType == HEX)
    requires forall e :: e in d.defaults ==> e.value.Symbol?
    ensures var r := NumberV(cfg, d, user, vis, w).value;
      RangedValue(cfg, d, user, vis, w, r) || FreeValue(cfg, d, user, vis, w, r)
  {
    var base, r := if d.origType == HEX then 16 else 10, NumberV(cfg, d, user, vis, w).value;
    RangeMeaning(cfg, d.ranges, base, w);
    if DefaultStrV(cfg, d.defaults, w).Some? { DefaultTextMeaning(cfg, d.defaults, w); }
    match RangeV(cfg, d.ranges, base, w).value
    case Unbounded =>
    case Bounded(low, high) =>
      assert BoundsAre(cfg, d.ranges, base, w, low, high);
      if HasText(user, vis) { WithinIs(cfg, base, low, high, user.value.text); }
      if !(HasText(user, vis) && user.value.text != "" && Within(cfg, base, low, high, user.value.text)) {
        var x := DefaultStrV(cfg, d.defaults, w).value;
        assert DefaultText(cfg, d.defaults, w, x) && Limited(cfg, d.origType == INT, base, low, high, x, r);
      }
      assert InBounds(cfg, d, user, vis, w, low, high, r);
  }

  lemma WithinIs(cfg: Config, base: int, low: int, high: int, x: string)
    ensures Within(cfg, base, low, high, x) <==> low <= NumOr0(cfg, x, base) <= high
  {
    assert Counts(cfg, x, base, NumOr0(cfg, x, base));
  }

  /**
   str_value: for a bool or tristate the letter of its tristate value; for a string the user's text
   if visible, else the default; for an int or hex the user's text if visible and within the first
   range in effect, else the default, replaced by the bound it passes.
   */
  lemma StrMeaning(cfg: Config, user: Option<Value>, s: int, w: View)
    requires ViewOk(w) && SymbolOk(cfg, s) && StrV(cfg, user, s, w).Some?
    ensures var d, r := cfg.sym(s), StrV(cfg, user, s, w).value;
      match d.origType
      case UNKNOWN => r == d.name
      case BOOL => w.tri(s).Some? && r == ["n", "m", "y"][w.tri(s).value]
      case TRISTATE => w.tri(s).Some? && r == ["n", "m", "y"][w.tri(s).value]
      case STRING =>
        && w.vis(s).Some?
        && if HasText(user, w.vis(s).value) then r == user.value.text else DefaultText(cfg, d.defaults, w, r)
      case _ =>
        && w.vis(s).Some?
        && (RangedValue(cfg, d, user, w.vis(s).value, w, r) || FreeValue(cfg, d, user, w.vis(s).value, w, r))
  {
    var d := cfg.sym(s);
    if d.origType == STRING {
      if !HasText(user, w.vis(s).value) { DefaultTextMeaning(cfg, d.defaults, w); }
    } else if d.origType == INT || d.origType == HEX {
      NumberMeaning(cfg, d, user, w.vis(s).value, w);
    }
  }

  // -------------------------------------------------------------------- values set by users

  /** The letters stand for the values whose letters they are; any other value stands for itself. */
  lemma LettersRoundTrip(t: Type, v: Value, i: int)
    ensures BoolTristate(t) && 0 <= i <= 2 ==> Canonical(t, Text(["n", "m", "y"][i])) == Tri(i)
    ensures !BoolTristate(t) || v.Tri? || v.text !in ["n", "m", "y"] ==> Canonical(t, v) == v
  {
  }

  /** Of n, m and y, a bool or tristate symbol accepts exactly those that it then has as its value, when it
      is fully visible and nothing selects or implies it. */
  lemma AcceptedComesBack(cfg: Config, s: int, w: View, x: int)
    requires BoolTristate(cfg.sym(s).origType) && cfg.preset(s) == None && TypeV(cfg, s, w) == Some(cfg.sym(s).origType)
    requires w.vis(s) == Some(2) && 0 <= x <= 2
    requires EvalV(cfg, cfg.sym(s).revDep, w) == Some(0) && EvalV(cfg, cfg.sym(s).weakRevDep, w) == Some(0)
    ensures Accepts(cfg, cfg.sym(s).origType, Tri(x)) <==> TriV(cfg, Some(Tri(x)), s, w) == Some(x)
  {
  }

  /** Other numbers it does not accept, nor any text that is not such a letter; and a tristate value is not
      accepted by other symbols.  Texts are accepted by string symbols, and by int and hex symbols if they
      are numbers of their base, not negative for hex. */
  lemma AcceptsExactly(cfg: Config, t: Type, x: int, text: string)
    ensures !(0 <= x <= 2) || !BoolTristate(t) ==> !Accepts(cfg, t, Tri(x))
    ensures BoolTristate(t) || t == UNKNOWN ==> !Accepts(cfg, t, Text(text))
    ensures Accepts(cfg, STRING, Text(text))
    ensures Accepts(cfg, INT, Text(text)) <==> cfg.num(text, 10) != None
    ensures Accepts(cfg, HEX, Text(text)) <==> cfg.num(text, 16) != None && 0 <= cfg.num(text, 16).value
  {
  }

  /** An accepted text is the string value of a visible symbol that has no range in effect. */
  lemma TextComesBack(cfg: Config, s: int, w: View, text: string, vis: int)
    requires Accepts(cfg, cfg.sym(s).origType, Text(text)) && text != "" && w.vis(s) == Some(vis) && vis != 0
    requires cfg.sym(s).ranges == []
    ensures StrV(cfg, Some(Text(text)), s, w) == Some(text)
  {
  }
}
