/** The operator rules of the evaluator: comparisons, arithmetic, string
    concatenation and the truth value a loop re-tests.

    Numbers are exact rationals here; the host's rounding is not modelled,
    and the results the host cannot represent as a plain number (a division
    or remainder by zero) are reported as `Unsupported`.
 */
module Operators {
  import opened Wrappers
  import opened Refs
  import opened Values
  import Numbers

  datatype Ordering = Less | Equal | Greater

  function Flip(o: Ordering): Ordering {
    match o
    case Less => Greater
    case Equal => Equal
    case Greater => Less
  }

  /** The six comparison operators. */
  predicate IsComparison(op: string) {
    op == "==" || op == "!=" || op == ">=" || op == "<=" || op == ">" || op == "<"
  }

  /** What a comparison operator answers for two operands in order `o`; any
      other operator answers false. */
  function Holds(o: Ordering, op: string): (b: bool)
    ensures op == "==" ==> (b <==> o == Equal)
    ensures op == "!=" ==> (b <==> o != Equal)
    ensures op == "<" ==> (b <==> o == Less)
    ensures op == ">" ==> (b <==> o == Greater)
    ensures op == "<=" ==> (b <==> o != Greater)
    ensures op == ">=" ==> (b <==> o != Less)
    ensures !IsComparison(op) ==> !b
  {
    match op
    case "==" => o == Equal
    case "!=" => o != Equal
    case ">=" => o != Less
    case "<=" => o != Greater
    case ">" => o == Greater
    case "<" => o == Less
    case _ => false
  }

  /** Swapping the operands turns `<` into `>` and keeps `==`. */
  lemma HoldsFlipped(o: Ordering, op: string)
    ensures Holds(Flip(o), op) == Holds(o, Mirror(op))
  {
  }

  function Mirror(op: string): string {
    match op
    case ">=" => "<="
    case "<=" => ">="
    case ">" => "<"
    case "<" => ">"
    case _ => op
  }

  function NumOrder(a: real, b: real): (o: Ordering)
    ensures o == Less <==> a < b
    ensures o == Equal <==> a == b
  {
    if a < b then Less else if a == b then Equal else Greater
  }

  /** Booleans order as the host's numbers 0 and 1: false before true. */
  function BoolOrder(a: bool, b: bool): (o: Ordering)
    ensures o == Less <==> !a && b
    ensures o == Equal <==> a == b
  {
    NumOrder(if a then 1.0 else 0.0, if b then 1.0 else 0.0)
  }

  /** Code-unit-wise comparison of two texts. */
  function StrOrder(s: string, t: string): (o: Ordering)
    decreases |s|
  {
    if |s| == 0 then (if |t| == 0 then Equal else Less)
    else if |t| == 0 then Greater
    else if s[0] < t[0] then Less
    else if s[0] > t[0] then Greater
    else StrOrder(s[1..], t[1..])
  }

  /** `s` sorts before `t`: a proper prefix of it, or smaller at the first
      place where they differ. */
  ghost predicate LexLess(s: string, t: string) {
    (|s| < |t| && s == t[..|s|])
    || exists i :: 0 <= i < |s| && i < |t| && s[..i] == t[..i] && s[i] < t[i]
  }

  /** Equal exactly for equal texts, and antisymmetric. */
  lemma {:induction false} StrOrderSymmetric(s: string, t: string)
    ensures StrOrder(s, t) == Equal <==> s == t
    ensures StrOrder(t, s) == Flip(StrOrder(s, t))
    decreases |s|
  {
    if |s| > 0 && |t| > 0 && s[0] == t[0] {
      StrOrderSymmetric(s[1..], t[1..]);
      assert s == [s[0]] + s[1..] && t == [t[0]] + t[1..];
    }
  }

  /** Less exactly when `s` sorts lexicographically before `t`. */
  lemma {:induction false} StrOrderIsLexicographic(s: string, t: string)
    ensures StrOrder(s, t) == Less <==> LexLess(s, t)
    decreases |s|
  {
    if |s| == 0 || |t| == 0 {
      if |s| == 0 && |t| > 0 {
        assert s == t[..|s|];
      }
    } else if s[0] < t[0] {
      assert s[..0] == t[..0];
    } else if s[0] > t[0] {
      forall i | 0 < i <= |s| && i <= |t|
        ensures s[..i] != t[..i]
      {
        assert s[..i][0] != t[..i][0];
      }
      assert s[..0] == t[..0];
    } else {
      StrOrderIsLexicographic(s[1..], t[1..]);
      LexLessStep(s, t);
    }
  }

  /** Texts that start alike compare as their remainders do. */
  lemma LexLessStep(s: string, t: string)
    requires |s| > 0 && |t| > 0 && s[0] == t[0]
    ensures LexLess(s, t) <==> LexLess(s[1..], t[1..])
  {
    if LexLess(s, t) {
      if |s| < |t| && s == t[..|s|] {
        assert s[1..] == t[1..][..|s[1..]|];
      } else {
        var i :| 0 <= i < |s| && i < |t| && s[..i] == t[..i] && s[i] < t[i];
        assert i > 0;
        assert s[1..][..i - 1] == s[..i][1..] == t[..i][1..] == t[1..][..i - 1];
        assert s[1..][i - 1] < t[1..][i - 1];
      }
    }
    if LexLess(s[1..], t[1..]) {
      if |s[1..]| < |t[1..]| && s[1..] == t[1..][..|s[1..]|] {
        assert s == [s[0]] + s[1..] && t[..|s|] == [t[0]] + t[1..][..|s[1..]|];
      } else {
        var i :| 0 <= i < |s[1..]| && i < |t[1..]| && s[1..][..i] == t[1..][..i] && s[1..][i] < t[1..][i];
        assert s[..i + 1] == [s[0]] + s[1..][..i];
        assert t[..i + 1] == [t[0]] + t[1..][..i];
      }
    }
  }

  /** The comparable content of a value: a boolean, a number or a text. */
  datatype Comparable = CBool(b: bool) | CNum(n: real) | CStr(s: string)

  function Order(x: Comparable, y: Comparable): Option<Ordering> {
    match (x, y)
    case (CBool(a), CBool(b)) => Some(BoolOrder(a, b))
    case (CNum(a), CNum(b)) => Some(NumOrder(a, b))
    case (CStr(a), CStr(b)) => Some(StrOrder(a, b))
    case _ => None
  }

  /** What a cell offers to a comparison or to concatenation. */
  function ContentOf(c: Cell): Option<Comparable> {
    match c
    case BoolCell(b) => Some(CBool(b))
    case NumCell(n) => Some(CNum(n))
    case ObjCell(_, Str(s)) => Some(CStr(s))
    case _ => None
  }

  /** The content of a value; reading the type of `undefined` or of a
      dangling reference fails, a return list has none. */
  function Content(h: Heap, v: Val): (r: Result<Option<Comparable>>)
    ensures r.Ok? <==> TypeOf(h, v).Ok?
    ensures r.Ok? && v.Ref? ==> r.value == ContentOf(h[v.addr])
    ensures v.FunctionReturn? ==> r == Ok(None)
  {
    if v.FunctionReturn? then Ok(None)
    else
      var c :- Deref(h, v);
      Ok(ContentOf(c))
  }

  /** Truncating division, as the host's `%` uses. */
  function Trunc(x: real): (q: int)
    ensures x >= 0.0 ==> q as real <= x < q as real + 1.0
    ensures x < 0.0 ==> q as real - 1.0 < x <= q as real
  {
    if x >= 0.0 then x.Floor else -((-x).Floor)
  }

  /** The host's `%`: the remainder of a division truncated toward zero. */
  function TruncRem(a: real, b: real): (r: real)
    requires b != 0.0
  {
    a - b * Trunc(a / b) as real
  }

  /** `%` divides `a` into a whole multiple of `b` and a remainder smaller
      than `b` in magnitude that has the sign of `a`. */
  lemma TruncRemSplits(a: real, b: real)
    requires b != 0.0
    ensures a == b * Trunc(a / b) as real + TruncRem(a, b)
    ensures a >= 0.0 ==> 0.0 <= TruncRem(a, b) && TruncRem(a, b) < Abs(b)
    ensures a < 0.0 ==> -Abs(b) < TruncRem(a, b) && TruncRem(a, b) <= 0.0
  {
    RemIsScaled(a, b);
    SignOfQuotient(a, b);
    FractionBound(b, a / b, a / b - Trunc(a / b) as real, TruncRem(a, b));
  }

  /** `b` times the part of `x` that truncation drops lies within `b`, on
      the side of zero that the signs of `b` and `x` give. */
  lemma FractionBound(b: real, x: real, d: real, r: real)
    requires d == x - Trunc(x) as real && r == b * d
    ensures b > 0.0 && x >= 0.0 ==> 0.0 <= r < b
    ensures b > 0.0 && x < 0.0 ==> -b < r <= 0.0
    ensures b < 0.0 && x <= 0.0 ==> 0.0 <= r < -b
    ensures b < 0.0 && x > 0.0 ==> b < r <= 0.0
  {
    if x >= 0.0 {
      assert 0.0 <= d < 1.0;
    } else {
      assert -1.0 < d <= 0.0;
    }
    if x == 0.0 {
      assert d == 0.0;
    }
    ScaleFraction(b, d);
  }

  lemma RemIsScaled(a: real, b: real)
    requires b != 0.0
    ensures TruncRem(a, b) == b * (a / b - Trunc(a / b) as real)
    ensures a == b * Trunc(a / b) as real + TruncRem(a, b)
  {
    var x := a / b;
    assert a == b * x;
    assert b * (x - Trunc(x) as real) == b * x - b * Trunc(x) as real;
  }

  lemma SignOfQuotient(a: real, b: real)
    requires b != 0.0
    ensures b > 0.0 ==> (a >= 0.0 <==> a / b >= 0.0) && (a > 0.0 <==> a / b > 0.0)
    ensures b < 0.0 ==> (a > 0.0 <==> a / b < 0.0) && (a >= 0.0 <==> a / b <= 0.0)
  {
    assert a == b * (a / b);
  }

  /** A fraction of `b` strictly smaller than one stays within `b`. */
  lemma ScaleFraction(b: real, d: real)
    ensures b > 0.0 && 0.0 <= d < 1.0 ==> 0.0 <= b * d < b
    ensures b > 0.0 && -1.0 < d <= 0.0 ==> -b < b * d <= 0.0
    ensures b < 0.0 && 0.0 <= d < 1.0 ==> b < b * d <= 0.0
    ensures b < 0.0 && -1.0 < d <= 0.0 ==> 0.0 <= b * d < -b
  {
    assert b * (1.0 - d) == b - b * d;
    assert b * (1.0 + d) == b + b * d;
  }

  function Abs(x: real): real {
    if x < 0.0 then -x else x
  }

  /** Arithmetic on two numbers. Division and remainder by zero give the
      host's infinities or NaN, which the model does not cover; an operator
      other than the five arithmetic ones is an error. */
  function Arithmetic(a: real, b: real, op: string): (r: Result<real>)
    ensures r.Ok? <==> (op == "+" || op == "-" || op == "*" || ((op == "/" || op == "%") && b != 0.0))
    ensures op == "+" && r.Ok? ==> r.value - b == a
    ensures op == "-" && r.Ok? ==> r.value + b == a
    ensures op == "/" && r.Ok? ==> r.value * b == a
    ensures op == "%" && r.Ok? ==> r.value == TruncRem(a, b)
    ensures op == "*" && b != 0.0 && r.Ok? ==> r.value / b == a
  {
    if op == "%" then
      if b == 0.0 then Err(Unsupported("remainder by zero")) else Ok(TruncRem(a, b))
    else if op == "+" then Ok(a + b)
    else if op == "-" then Ok(a - b)
    else if op == "*" then Ok(a * b)
    else if op == "/" then
      if b == 0.0 then Err(Unsupported("division by zero")) else Ok(a / b)
    else Err(RuntimeError("Unknown operator " + op))
  }

  /** What a binary operator makes of two evaluated operands, before it is
      put into a fresh cell. */
  datatype Outcome = BoolOut(b: bool) | NumOut(n: real) | StrOut(s: string) | NullOut

  function CellOf(o: Outcome): (c: Cell) {
    match o
    case BoolOut(b) => MkBool(b)
    case NumOut(n) => MkNumber(n)
    case StrOut(s) => MkString(s)
    case NullOut => MkNull()
  }

  /** The comparison rule: two booleans, two numbers or two strings, else an
      error. */
  function CompareValues(h: Heap, lhs: Val, rhs: Val, op: string): (r: Result<Outcome>)
    requires IsComparison(op)
    ensures r.Ok? <==> Content(h, lhs).Ok? && Content(h, rhs).Ok?
                       && Content(h, lhs).value.Some? && Content(h, rhs).value.Some?
                       && Order(Content(h, lhs).value.value, Content(h, rhs).value.value).Some?
    ensures r.Ok? ==> r.value == BoolOut(Holds(Order(Content(h, lhs).value.value, Content(h, rhs).value.value).value, op))
  {
    var x :- Content(h, lhs);
    if x.None? then Err(RuntimeError("Comparison cannot be made"))
    else
      var y :- Content(h, rhs);
      if y.None? then Err(RuntimeError("Comparison cannot be made"))
      else match Order(x.value, y.value)
        case None => Err(RuntimeError("Comparison cannot be made"))
        case Some(o) => Ok(BoolOut(Holds(o, op)))
  }

  /** The non-comparison rule: `+` concatenates when a string meets a string
      or a number, two numbers compute arithmetically, and every other pair
      of operands gives null. */
  function Combine(h: Heap, lhs: Val, rhs: Val, op: string): (r: Result<Outcome>)
    requires !IsComparison(op)
  {
    var l :- Content(h, lhs);
    var r :- Content(h, rhs);
    match (l, r)
    case (Some(CStr(s)), Some(CStr(t))) =>
      if op == "+" then Ok(StrOut(s + t)) else Ok(NullOut)
    case (Some(CStr(s)), Some(CNum(n))) =>
      if op == "+" then var t :- Numbers.NumberText(n); Ok(StrOut(s + t)) else Ok(NullOut)
    case (Some(CNum(n)), Some(CStr(t))) =>
      if op == "+" then var s :- Numbers.NumberText(n); Ok(StrOut(s + t)) else Ok(NullOut)
    case (Some(CNum(a)), Some(CNum(b))) =>
      var n :- Arithmetic(a, b, op); Ok(NumOut(n))
    case _ => Ok(NullOut)
  }

  /** A binary operator on two evaluated operands; the result is a fresh
      cell. */
  function Binary(h: Heap, lhs: Val, rhs: Val, op: string): (r: Result<(Heap, Val)>)
    ensures r.Ok? ==> |r.value.0| == |h| + 1 && r.value.0[..|h|] == h && r.value.1 == Ref(|h|)
  {
    var o :- if IsComparison(op) then CompareValues(h, lhs, rhs, op) else Combine(h, lhs, rhs, op);
    Ok(Alloc(h, CellOf(o)))
  }

  /** The truth of a loop condition after the first test, which the host
      takes from the value's `value` field without checking its type: a
      boolean's flag, a non-zero number, a non-empty string; everything else
      has no such field or holds null there, and is false. */
  function Truthy(h: Heap, v: Val): (r: Result<bool>)
    ensures r.Ok? <==> v.FunctionReturn? || (v.Ref? && v.addr < |h|)
    ensures r == Ok(true) <==> (v.Ref? && v.addr < |h| &&
      match h[v.addr]
      case BoolCell(b) => b
      case NumCell(n) => n != 0.0
      case ObjCell(_, Str(s)) => s != ""
      case _ => false)
  {
    if v.FunctionReturn? then Ok(false)
    else
      var c :- Deref(h, v);
      match c
      case BoolCell(b) => Ok(b)
      case NumCell(n) => Ok(n != 0.0)
      case ObjCell(_, Str(s)) => Ok(s != "")
      case _ => Ok(false)
  }
}
