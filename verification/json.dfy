/** An optional value; `None` stands for JavaScript's `undefined` wherever a property may be absent. */
module Optional {
  datatype Option<T> = None | Some(value: T) {
    function GetOr(default: T): T {
      match this
      case Some(v) => v
      case None => default
    }
  }
}

/**
 The values `JSON.parse` can produce (numbers restricted to integers), how the
 server reads properties off them, and the two JavaScript coercions it applies
 to request arguments: interpolation into a template string and the numeric
 conversion behind unary minus and `<`.
 */
module Json {
  import opened Optional
  import opened Text

  datatype Json =
    | JNull
    | JBool(b: bool)
    | JNum(n: int)
    | JStr(s: string)
    | JArr(elems: seq<Json>)
    | JObj(fields: map<string, Json>)

  /** `v.key` (or a destructured `{ key }`) on a value that is neither null nor undefined:
      only an object can carry the keys the server asks for. */
  function Prop(v: Json, key: string): (r: Option<Json>)
    ensures r.Some? <==> v.JObj? && key in v.fields
    ensures r.Some? ==> r.value == v.fields[key]
  {
    if v.JObj? && key in v.fields then Some(v.fields[key]) else None
  }

  /** `v?.key`: undefined when `v` is undefined or null. */
  function OptProp(v: Option<Json>, key: string): Option<Json> {
    if v.Some? && v.value != JNull then Prop(v.value, key) else None
  }

  /** JavaScript's ToPrimitive throws a TypeError on `v`: an object `JSON.parse` gave its own
      `toString` key (whose value is never callable, and `valueOf` returns the object itself),
      or an array holding such a value, at any depth, among its non-null elements. */
  predicate Unconvertible(v: Json)
    decreases v
  {
    match v
    case JObj(fields) => "toString" in fields
    case JArr(a) => exists i :: 0 <= i < |a| && a[i] != JNull && Unconvertible(a[i])
    case _ => false
  }

  /** `${v}` of a JSON value; arrays render as their elements joined by commas, null elements as empty. */
  function ToStr(v: Json): string
    requires !Unconvertible(v)
    decreases v
  {
    match v
    case JNull => "null"
    case JBool(b) => if b then "true" else "false"
    case JNum(n) => IntToString(n)
    case JStr(s) => s
    case JArr(a) => Join(seq(|a|, i requires 0 <= i < |a| => if a[i] == JNull then "" else ToStr(a[i])), ",")
    case JObj(_) => "[object Object]"
  }

  /** `${v}` throws. */
  predicate TemplateThrows(v: Option<Json>) {
    v.Some? && Unconvertible(v.value)
  }

  /** `${v}` where `v` may be undefined. */
  function Template(v: Option<Json>): string
    requires !TemplateThrows(v)
  {
    match v
    case None => "undefined"
    case Some(j) => ToStr(j)
  }

  /** The outcome of JavaScript's ToNumber on a JSON value: an integer or NaN. */
  datatype Number = Num(n: int) | NaN

  /** ToNumber of a string: blank strings are 0; an optionally signed run of decimal digits
      is its value, and so is an unsigned `0x`, `0o` or `0b` literal in its radix. */
  function StringToNumber(s: string): Number {
    IntegerLiteral(Trim(s))
  }

  function IntegerLiteral(t: string): Number {
    if t == "" then Num(0)
    else if Radix(t) > 0 then (if IsDigitsIn(t[2..], Radix(t)) then Num(ValueIn(t[2..], Radix(t))) else NaN)
    else if t[0] == '-' && IsDigits(t[1..]) then Num(-(DigitsValue(t[1..]) as int))
    else if t[0] == '+' && IsDigits(t[1..]) then Num(DigitsValue(t[1..]))
    else if IsDigits(t) then Num(DigitsValue(t))
    else NaN
  }

  /** The radix a `0x`/`0X`, `0o`/`0O` or `0b`/`0B` prefix selects, or 0 without one. */
  function Radix(t: string): nat {
    if |t| < 2 || t[0] != '0' then 0
    else if t[1] == 'x' || t[1] == 'X' then 16
    else if t[1] == 'o' || t[1] == 'O' then 8
    else if t[1] == 'b' || t[1] == 'B' then 2
    else 0
  }

  /** The value of a digit or letter in any radix up to 36; 36 for other characters. */
  function DigitValue(c: char): nat {
    if '0' <= c <= '9' then c as int - '0' as int
    else if 'a' <= c <= 'z' then c as int - 'a' as int + 10
    else if 'A' <= c <= 'Z' then c as int - 'A' as int + 10
    else 36
  }

  predicate IsDigitsIn(s: string, radix: nat) {
    |s| > 0 && forall k :: 0 <= k < |s| ==> DigitValue(s[k]) < radix
  }

  function ValueIn(s: string, radix: nat): nat
    requires forall k :: 0 <= k < |s| ==> DigitValue(s[k]) < radix
  {
    if |s| == 0 then 0 else radix * ValueIn(s[..|s| - 1], radix) + DigitValue(s[|s| - 1])
  }

  predicate IsDigits(s: string) {
    |s| > 0 && forall k :: 0 <= k < |s| ==> '0' <= s[k] <= '9'
  }

  function DigitsValue(s: string): nat
    requires forall k :: 0 <= k < |s| ==> '0' <= s[k] <= '9'
  {
    if |s| == 0 then 0 else 10 * DigitsValue(s[..|s| - 1]) + (s[|s| - 1] as int - '0' as int)
  }

  /** ToNumber of a JSON value, as `-v` and `n < v` apply it: null is 0, booleans 0 or 1,
      arrays go through their string form, plain objects are NaN. On an unconvertible value
      JavaScript throws instead, so every caller tests `Unconvertible` first. */
  function ToNumber(v: Json): (r: Number)
    requires !Unconvertible(v)
    ensures r.NaN? ==> v.JStr? || v.JArr? || v.JObj?
    ensures v.JStr? && Blank(v.s) ==> r == Num(0)
  {
    match v
    case JNull => Num(0)
    case JBool(b) => Num(if b then 1 else 0)
    case JNum(n) => Num(n)
    case JStr(s) => StringToNumber(s)
    case JArr(_) => StringToNumber(ToStr(v))
    case JObj(_) => NaN
  }

  /** An own `toString` key makes an object unconvertible, and so does holding one in an
      array. An own `valueOf` key does not: the inherited `toString` still gives `[object Object]`. */
  lemma OwnToStringThrows(fields: map<string, Json>, before: seq<Json>, after: seq<Json>)
    requires "toString" in fields
    ensures Unconvertible(JObj(fields))
    ensures Unconvertible(JArr(before + [JObj(fields)] + after))
    ensures !Unconvertible(JObj(map["valueOf" := JNum(1)]))
    ensures ToNumber(JObj(map["valueOf" := JNum(1)])) == NaN
  {
    assert (before + [JObj(fields)] + after)[|before|] == JObj(fields);
  }

  /** `k < v` for a count `k`: false whenever `v` is NaN. */
  predicate Below(k: nat, v: Number) {
    v.Num? && k < v.n
  }

  lemma {:induction false} DigitsValueOfDecimal(n: nat)
    ensures DigitsValue(Decimal(n)) == n
  {
    if n < 10 {
      DigitCharValue(n);
      assert Decimal(n)[..0] == [];
    } else {
      var d := Decimal(n / 10) + [DigitChar(n % 10)];
      assert d[..|d| - 1] == Decimal(n / 10);
      DigitsValueOfDecimal(n / 10);
      DigitCharValue(n % 10);
    }
  }

  lemma DigitCharValue(d: nat)
    requires d < 10
    ensures DigitChar(d) as int - '0' as int == d
  {
  }

  /** An integer interpolated into a string converts back to the same number. */
  lemma {:induction false} StringToNumberOfInt(n: int)
    ensures StringToNumber(IntToString(n)) == Num(n)
  {
    var s := IntToString(n);
    TrimUnpadded(s);
    IntegerLiteralOfInt(n);
  }

  lemma {:induction false} IntegerLiteralOfInt(n: int)
    ensures IntegerLiteral(IntToString(n)) == Num(n)
  {
    if n < 0 {
      LiteralOfNegativeString(n);
    } else {
      LiteralOfNatural(n);
    }
  }

  lemma {:induction false} LiteralOfNegativeString(n: int)
    requires n < 0
    ensures IntegerLiteral(IntToString(n)) == Num(n)
  {
    var m: nat := -n;
    assert IntToString(n) == "-" + Decimal(m);
    LiteralOfNegativeInt(m);
  }

  lemma {:induction false} LiteralOfNatural(n: nat)
    ensures IntegerLiteral(Decimal(n)) == Num(n)
  {
    LiteralOfDigits(Decimal(n));
    DigitsValueOfDecimal(n);
  }

  lemma {:induction false} LiteralOfNegativeInt(m: nat)
    requires m > 0
    ensures IntegerLiteral("-" + Decimal(m)) == Num(-(m as int))
  {
    var s := "-" + Decimal(m);
    assert s[1..] == Decimal(m);
    LiteralOfNegative(s);
    DigitsValueOfDecimal(m);
  }

  lemma LiteralOfDigits(t: string)
    requires IsDigits(t)
    ensures IntegerLiteral(t) == Num(DigitsValue(t))
  {
    assert '0' <= t[0] <= '9';
  }

  lemma LiteralOfNegative(t: string)
    requires |t| > 0 && t[0] == '-' && IsDigits(t[1..])
    ensures IntegerLiteral(t) == Num(-(DigitsValue(t[1..]) as int))
  {
  }

  /** Decimal digits are the radix-10 case of the general digit reading. */
  lemma {:induction false} DecimalIsRadixTen(s: string)
    ensures IsDigits(s) <==> IsDigitsIn(s, 10)
    ensures IsDigits(s) ==> DigitsValue(s) == ValueIn(s, 10)
  {
    assert forall k :: 0 <= k < |s| ==> ('0' <= s[k] <= '9' <==> DigitValue(s[k]) < 10);
    if IsDigits(s) && |s| > 0 {
      DecimalIsRadixTen(s[..|s| - 1]);
      assert IsDigits(s[..|s| - 1]) || |s| == 1;
    }
  }

  /** An unsigned prefixed literal reads in its radix, with white space around it ignored. */
  lemma PrefixedLiteral(p: char, digits: string, radix: nat)
    requires (p in "xX" && radix == 16) || (p in "oO" && radix == 8) || (p in "bB" && radix == 2)
    requires IsDigitsIn(digits, radix)
    ensures StringToNumber(['0', p] + digits) == Num(ValueIn(digits, radix))
  {
    var t := ['0', p] + digits;
    assert !IsSpace(t[|t| - 1]) by {
      assert t[|t| - 1] == digits[|digits| - 1];
    }
    TrimUnpadded(t);
    assert t[2..] == digits;
  }

  /** A sign in front of a prefixed literal makes it NaN. */
  lemma SignedPrefixedIsNaN(sign: char, p: char, digits: string)
    requires sign in "+-" && p in "xXoObB"
    ensures IntegerLiteral([sign, '0', p] + digits) == NaN
  {
    var t := [sign, '0', p] + digits;
    assert !IsDigits(t[1..]) by {
      assert t[1..][1] == p;
    }
  }
}
