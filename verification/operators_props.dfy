/** The typing rules of the binary operators, stated operand kind by operand
    kind, and the cell each rule puts its result in. */
module OperatorsProps {
  import opened Wrappers
  import opened Refs
  import opened Values
  import opened Operators
  import Numbers

  /** `+` on two strings concatenates them into a fresh string object. */
  lemma ConcatStrings(h: Heap, lhs: Val, rhs: Val, s: string, t: string)
    requires Content(h, lhs) == Ok(Some(CStr(s))) && Content(h, rhs) == Ok(Some(CStr(t)))
    ensures var r := Binary(h, lhs, rhs, "+");
      r.Ok? && r.value.1 == Ref(|h|) && r.value.0[|h|] == MkString(s + t)
      && IsRuntimeString(r.value.0, r.value.1) == Ok(true)
  {
  }

  /** `+` between a string and a number appends the number's decimal text on
      the side the number stands. */
  lemma ConcatNumber(h: Heap, str: Val, num: Val, s: string, n: real)
    requires Content(h, str) == Ok(Some(CStr(s))) && Content(h, num) == Ok(Some(CNum(n)))
    requires Numbers.NumberText(n).Ok?
    ensures Combine(h, str, num, "+") == Ok(StrOut(s + Numbers.NumberText(n).value))
    ensures Combine(h, num, str, "+") == Ok(StrOut(Numbers.NumberText(n).value + s))
  {
  }

  /** Two numbers go to the arithmetic rule; an operator it does not know is
      an error rather than null. */
  lemma NumbersComputed(h: Heap, lhs: Val, rhs: Val, a: real, b: real, op: string)
    requires Content(h, lhs) == Ok(Some(CNum(a))) && Content(h, rhs) == Ok(Some(CNum(b)))
    requires !IsComparison(op)
    ensures Combine(h, lhs, rhs, op).Ok? <==> Arithmetic(a, b, op).Ok?
    ensures Combine(h, lhs, rhs, op).Ok? ==> Combine(h, lhs, rhs, op).value == NumOut(Arithmetic(a, b, op).value)
    ensures op == "&&" ==> Combine(h, lhs, rhs, op).Err?
  {
  }

  /** Any operand that is neither a number nor a string, such as a boolean,
      null, an array or a function, makes every non-comparison operator
      yield null. */
  lemma OtherOperandsGiveNull(h: Heap, lhs: Val, rhs: Val, op: string)
    requires !IsComparison(op)
    requires Content(h, lhs).Ok? && Content(h, rhs).Ok?
    requires !NumOrStr(Content(h, lhs).value) || !NumOrStr(Content(h, rhs).value)
    ensures Combine(h, lhs, rhs, op) == Ok(NullOut)
  {
  }

  predicate NumOrStr(c: Option<Comparable>) {
    c.Some? && (c.value.CNum? || c.value.CStr?)
  }

  /** A string with a string or a number under any operator but `+` gives
      null. */
  lemma StringsOnlyAdd(h: Heap, lhs: Val, rhs: Val, op: string)
    requires !IsComparison(op) && op != "+"
    requires Content(h, lhs).Ok? && Content(h, rhs).Ok?
    requires NumOrStr(Content(h, lhs).value) && NumOrStr(Content(h, rhs).value)
    requires Content(h, lhs).value.value.CStr? || Content(h, rhs).value.value.CStr?
    ensures Combine(h, lhs, rhs, op) == Ok(NullOut)
  {
  }

  /** An `undefined` operand fails on reading its type, on either side and
      under every operator. */
  lemma UndefinedOperandFails(h: Heap, v: Val, op: string)
    ensures Binary(h, Undefined, v, op).Err?
    ensures Binary(h, v, Undefined, op).Err?
  {
  }

  /** Comparisons need operands of one kind; a number against a string is
      an error. */
  lemma MixedComparisonFails(h: Heap, lhs: Val, rhs: Val, n: real, s: string, op: string)
    requires IsComparison(op)
    requires Content(h, lhs) == Ok(Some(CNum(n))) && Content(h, rhs) == Ok(Some(CStr(s)))
    ensures Binary(h, lhs, rhs, op).Err?
    ensures Binary(h, rhs, lhs, op).Err?
  {
  }

  /** Booleans order false before true, and swapping the operands of a
      comparison mirrors the operator. */
  lemma ComparisonMirrors(h: Heap, lhs: Val, rhs: Val, op: string)
    requires IsComparison(op)
    requires CompareValues(h, lhs, rhs, op).Ok?
    ensures CompareValues(h, rhs, lhs, Mirror(op)) == CompareValues(h, lhs, rhs, op)
  {
    var x, y := Content(h, lhs).value.value, Content(h, rhs).value.value;
    var o := Order(x, y).value;
    assert Order(y, x) == Some(Flip(o)) by {
      match (x, y)
      case (CStr(a), CStr(b)) => StrOrderSymmetric(a, b);
      case _ =>
    }
    HoldsFlipped(o, Mirror(op));
    assert Mirror(Mirror(op)) == op;
  }
}
