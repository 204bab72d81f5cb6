/** Runtime values of EL and the Python semantics the evaluator inherits for them:
    `int()`-style literals, the numeric-string test of the condition evaluator,
    `==`/`<` across types, and truthiness. */
module Values {
  import opened Text

  /** A value flowing through evaluation. `Float` is opaque: float literals, float
      coercions and floats returned by extensions are tracked by kind only. A Python
      `bool` returned by an extension is an `Int` (0 or 1), as Python compares it.
      `Absent` is Python's `None`. */
  datatype Value = Int(i: int) | Float | Str(s: string) | Absent

  /** The outcome of a Python comparison or truth test: a boolean, a `TypeError`
      (ordering values of unrelated types), or an answer that depends on the value
      of a float, which the model does not track. */
  datatype Truth = Known(b: bool) | Raises | Unmodelled

  predicate IsNumber(v: Value) { v.Int? || v.Float? }

  predicate AllDigits(s: string) { forall i :: 0 <= i < |s| ==> IsDigit(s[i]) }

  /** Decimal value of a string of ASCII digits. */
  function DigitsValue(s: string): (n: nat)
    requires AllDigits(s)
    decreases |s|
  {
    if |s| == 0 then 0
    else 10 * DigitsValue(s[..|s| - 1]) + (s[|s| - 1] as int - '0' as int)
  }

  /** Decimal text of a natural number, no leading zeros ("0" for zero). */
  function DecimalText(n: nat): (s: string)
    ensures |s| >= 1 && AllDigits(s)
    decreases n
  {
    var d := ['0' + (n % 10) as char];
    if n < 10 then d else DecimalText(n / 10) + d
  }

  /** Reading back the decimal text of a number gives that number. */
  lemma {:induction false} DecimalTextRoundTrip(n: nat)
    ensures DigitsValue(DecimalText(n)) == n
    decreases n
  {
    var s := DecimalText(n);
    if n >= 10 {
      DecimalTextRoundTrip(n / 10);
      assert s[..|s| - 1] == DecimalText(n / 10);
    }
  }

  /** What Python's `int(t)` accepts, restricted to ASCII: optional surrounding
      whitespace, an optional sign, then one or more digits. */
  predicate IsIntLiteral(t: string) {
    var u := Strip(t);
    |u| >= 1 && (if u[0] == '+' || u[0] == '-' then |u| >= 2 && AllDigits(u[1..]) else AllDigits(u))
  }

  function IntLiteralValue(t: string): int
    requires IsIntLiteral(t)
  {
    var u := Strip(t);
    if u[0] == '-' then -(DigitsValue(u[1..]) as int)
    else if u[0] == '+' then DigitsValue(u[1..])
    else DigitsValue(u)
  }

  /** An integer written in decimal is read back as itself. */
  lemma IntLiteralRoundTrip(n: int)
    ensures IsIntLiteral(if n < 0 then "-" + DecimalText(-n) else DecimalText(n))
    ensures IntLiteralValue(if n < 0 then "-" + DecimalText(-n) else DecimalText(n)) == n
  {
    var t := if n < 0 then "-" + DecimalText(-n) else DecimalText(n);
    StripUnpadded(t);
    if n < 0 {
      assert t[1..] == DecimalText(-n);
      DecimalTextRoundTrip(-n);
    } else {
      DecimalTextRoundTrip(n);
    }
  }

  /** `s.replace('.', '', 1)`: the text with its first dot removed. */
  function WithoutFirstDot(s: string): (r: string)
    ensures |r| == |s| - (if '.' in s then 1 else 0)
    ensures '.' !in s ==> r == s
    decreases |s|
  {
    if |s| == 0 then s
    else if s[0] == '.' then s[1..]
    else [s[0]] + WithoutFirstDot(s[1..])
  }

  /** The character `WithoutFirstDot` removes is the first dot: when `i` is the index
      of the first dot, the result is the text before `i` followed by the text after it. */
  lemma {:induction false} WithoutFirstDotRemovesFirstDot(s: string, i: nat)
    requires i < |s| && s[i] == '.'
    requires forall j :: 0 <= j < i ==> s[j] != '.'
    ensures WithoutFirstDot(s) == s[..i] + s[i + 1..]
    decreases i
  {
    if i == 0 {
      assert s[..0] == [];
    } else {
      var t := s[1..];
      assert forall j :: 0 <= j < i - 1 ==> t[j] != '.' by {
        forall j | 0 <= j < i - 1 ensures t[j] != '.' { assert t[j] == s[j + 1]; }
      }
      WithoutFirstDotRemovesFirstDot(t, i - 1);
      assert s[..i] == [s[0]] + t[..i - 1];
      assert s[i + 1..] == t[i..];
    }
  }

  /** `s.replace('.', '', 1).isdigit()`, ASCII digits only: digits with at most one dot
      and at least one digit. */
  predicate IsNumericText(s: string) {
    var d := WithoutFirstDot(s);
    |d| >= 1 && AllDigits(d)
  }

  /** What Python's `float(t)` accepts beyond `int(t)`, restricted to plain decimal
      notation: optional whitespace and sign, digits with exactly one dot. */
  predicate IsFloatLiteral(t: string) {
    var u := Strip(t);
    var body := if |u| >= 1 && (u[0] == '+' || u[0] == '-') then u[1..] else u;
    '.' in body && IsNumericText(body)
  }

  /** Conversion of a numeric string before a comparison: `float(s)` when it has a
      dot, otherwise `int(s)`. */
  function NumericValue(s: string): (v: Value)
    requires IsNumericText(s)
    ensures v.Float? <==> '.' in s
    ensures v.Int? ==> v.i >= 0
  {
    if '.' in s then Float else Int(DigitsValue(s))
  }

  /** The operand coercion before a comparison: when exactly one side is a number and
      the other a numeric string, the string side becomes a number. */
  function Coerce(l: Value, r: Value): (p: (Value, Value))
    ensures IsNumber(p.0) && IsNumber(r) && !IsNumber(l) ==> l.Str? && IsNumericText(l.s)
    ensures p.0 != l ==> l.Str? && IsNumericText(l.s) && IsNumber(r) && p == (NumericValue(l.s), r)
    ensures p.1 != r ==> r.Str? && IsNumericText(r.s) && IsNumber(l) && p == (l, NumericValue(r.s))
    ensures l.Str? && IsNumericText(l.s) && IsNumber(r) ==> p == (NumericValue(l.s), r)
    ensures IsNumber(l) && r.Str? && IsNumericText(r.s) ==> p == (l, NumericValue(r.s))
  {
    if IsNumber(l) && IsNumber(r) then (l, r)
    else if l.Str? && IsNumericText(l.s) && IsNumber(r) then (NumericValue(l.s), r)
    else if IsNumber(l) && r.Str? && IsNumericText(r.s) then (l, NumericValue(r.s))
    else (l, r)
  }

  /** Python `a == b`. Values of different kinds are unequal, except that an int and
      a float may be equal, which depends on the float. */
  function Equal(a: Value, b: Value): Truth {
    if (a.Float? && IsNumber(b)) || (b.Float? && IsNumber(a)) then Unmodelled
    else Known(a == b)
  }

  /** Python `a < b` (`strictly` true) or `a <= b`: numbers with numbers, strings with
      strings; every other pair raises `TypeError`. */
  function Order(a: Value, b: Value, strictly: bool): Truth {
    if a.Int? && b.Int? then Known(if strictly then a.i < b.i else a.i <= b.i)
    else if a.Str? && b.Str? then Known(LexLess(a.s, b.s) || (!strictly && a.s == b.s))
    else if IsNumber(a) && IsNumber(b) then Unmodelled
    else Raises
  }

  function Not(t: Truth): Truth {
    if t.Known? then Known(!t.b) else t
  }

  /** The six comparison operators of a condition; any other operator text makes the
      condition false. */
  function Compare(op: string, a: Value, b: Value): (t: Truth)
    ensures op !in {"=", "!=", ">", "<", ">=", "<="} ==> t == Known(false)
  {
    if op == "=" then Equal(a, b)
    else if op == "!=" then Not(Equal(a, b))
    else if op == ">" then Order(b, a, true)
    else if op == "<" then Order(a, b, true)
    else if op == ">=" then Order(b, a, false)
    else if op == "<=" then Order(a, b, false)
    else Known(false)
  }

  /** Python's `bool(v)`: zero, the empty string and `None` are false. */
  function Truthy(v: Value): Truth {
    match v
    case Int(i) => Known(i != 0)
    case Str(s) => Known(s != "")
    case Absent => Known(false)
    case Float => Unmodelled
  }

  /** On two ints the six operators are integer comparison. */
  lemma CompareInts(op: string, x: int, y: int)
    requires op in {"=", "!=", ">", "<", ">=", "<="}
    ensures Compare(op, Int(x), Int(y)) == Known(
      if op == "=" then x == y else if op == "!=" then x != y
      else if op == ">" then x > y else if op == "<" then x < y
      else if op == ">=" then x >= y else x <= y)
  {
  }

  /** On two strings the operators follow code-point order, and `>` is `<` swapped. */
  lemma CompareStrings(op: string, x: string, y: string)
    requires op in {">", "<", ">=", "<="}
    ensures Compare(op, Str(x), Str(y)).Known?
    ensures Compare(">", Str(x), Str(y)) == Not(Compare("<=", Str(x), Str(y)))
  {
    LexLessTrichotomy(x, y);
  }

  /** A number compared with a string of digits compares as two ints (the string side
      is converted first); without the conversion `=` would be false and `<` would
      raise. */
  lemma CoercedDigitsCompareAsInts(op: string, n: int, s: string)
    requires op in {"=", "!=", ">", "<", ">=", "<="}
    requires |s| >= 1 && AllDigits(s)
    ensures Coerce(Int(n), Str(s)) == (Int(n), Int(DigitsValue(s)))
    ensures Coerce(Str(s), Int(n)) == (Int(DigitsValue(s)), Int(n))
    ensures Compare(op, Int(n), Str(s)) == (if op == "=" then Known(false) else if op == "!=" then Known(true) else Raises)
  {
    assert WithoutFirstDot(s) == s;
  }

  /** Ordering anything against `None`, or an int against a string, raises. */
  lemma OrderingMixedKindsRaises(op: string, a: Value, b: Value)
    requires op in {">", "<", ">=", "<="}
    requires a.Absent? || b.Absent? || (a.Int? && b.Str?) || (a.Str? && b.Int?)
    ensures Compare(op, a, b) == Raises
  {
  }
}
