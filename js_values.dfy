/**
 * The fragment of JavaScript value semantics the dapp code relies on:
 * parsed JSON values, property lookup, truthiness, `String(x)`, `trim`,
 * `parseInt` with and without a radix, `Number(x)`, the `>` comparison with
 * its coercions, and the `x | 0` conversion.
 * Numbers are integers or one of the non-finite values; fractional numbers
 * are not represented.
 */
module JsValues {
  import opened Options

  /** A JavaScript number: an integer, NaN, or an infinity. */
  datatype Number = Int(v: int) | NaN | Infinity(negative: bool)

  /** A value as produced by `JSON.parse`, plus `undefined` for a missing property. */
  datatype Json =
    | Undefined
    | Null
    | Bool(b: bool)
    | Num(n: Number)
    | Str(s: string)
    | Arr(items: seq<Json>)
    | Obj(fields: seq<(string, Json)>)

  /** JavaScript truthiness. */
  predicate Truthy(j: Json)
  {
    match j
    case Undefined => false
    case Null => false
    case Bool(b) => b
    case Num(n) => (n.Int? && n.v != 0) || n.Infinity?
    case Str(s) => s != []
    case Arr(_) => true
    case Obj(_) => true
  }

  /** `a || b` */
  function Or(a: Json, b: Json): (r: Json)
    ensures Truthy(a) ==> r == a
    ensures !Truthy(a) ==> r == b
  {
    if Truthy(a) then a else b
  }

  /** The value of the last field named `key` (JSON.parse keeps the last duplicate). */
  function Lookup(fields: seq<(string, Json)>, key: string): (r: Json)
    ensures r != Undefined ==> exists i :: 0 <= i < |fields| && fields[i] == (key, r)
    ensures (forall i :: 0 <= i < |fields| ==> fields[i].0 != key) ==> r == Undefined
    decreases |fields|
  {
    if fields == [] then Undefined
    else if fields[|fields| - 1].0 == key then fields[|fields| - 1].1
    else Lookup(fields[..|fields| - 1], key)
  }

  /** `o[key]`: a property of an object; anything else has no such property. */
  function Get(o: Json, key: string): Json
  {
    if o.Obj? then Lookup(o.fields, key) else Undefined
  }

  /** A JavaScript value for which `typeof x === "object"` and `x` is truthy. */
  predicate IsObjectLike(j: Json)
  {
    j.Obj? || j.Arr?
  }

  /** `x != null` */
  predicate Present(j: Json)
  {
    !j.Null? && !j.Undefined?
  }

  /** `o[k1] || o[k2] || ... || null`: the first truthy property among `keys`. */
  function FirstTruthy(raw: Json, keys: seq<string>): (r: Json)
    ensures Truthy(r) || r == Null
    ensures Truthy(r) ==> exists i :: 0 <= i < |keys| && r == Get(raw, keys[i])
    ensures r == Null ==> forall i :: 0 <= i < |keys| ==> !Truthy(Get(raw, keys[i]))
    decreases |keys|
  {
    if keys == [] then Null
    else if Truthy(Get(raw, keys[0])) then Get(raw, keys[0])
    else
      var r := FirstTruthy(raw, keys[1..]);
      assert forall i :: 0 < i < |keys| ==> keys[i] == keys[1..][i - 1];
      r
  }

  /** `o?.[key]` chains through missing parents the same way. */
  function Get2(o: Json, k1: string, k2: string): Json
  {
    Get(Get(o, k1), k2)
  }

  predicate IsNumber(j: Json)
  {
    j.Num?
  }

  predicate IsString(j: Json)
  {
    j.Str?
  }

  /** `Number.isFinite(x)` */
  predicate IsFiniteNumber(j: Json)
  {
    j.Num? && j.n.Int?
  }

  // ---------------------------------------------------------------------
  // Strings
  // ---------------------------------------------------------------------

  /** The characters `String.prototype.trim` removes. */
  predicate IsSpace(c: char)
  {
    c == '\t' || c == '\n' || c == '\U{000B}' || c == '\U{000C}' || c == '\r' || c == ' '
    || c == '\U{00A0}' || c == '\U{1680}' || ('\U{2000}' <= c <= '\U{200A}')
    || c == '\U{2028}' || c == '\U{2029}' || c == '\U{202F}' || c == '\U{205F}' || c == '\U{3000}'
    || c == '\U{FEFF}'
  }

  function TrimStart(s: string): (r: string)
    ensures |r| <= |s| && r == s[|s| - |r|..]
    ensures r == [] || !IsSpace(r[0])
    decreases |s|
  {
    if s != [] && IsSpace(s[0]) then TrimStart(s[1..]) else s
  }

  function TrimEnd(s: string): (r: string)
    ensures |r| <= |s| && r == s[..|r|]
    ensures r == [] || !IsSpace(r[|r| - 1])
    decreases |s|
  {
    if s != [] && IsSpace(s[|s| - 1]) then TrimEnd(s[..|s| - 1]) else s
  }

  /** `s.trim()`: the longest infix with no white space at either end. */
  function Trim(s: string): (r: string)
    ensures |r| <= |s|
    ensures r == [] || (!IsSpace(r[0]) && !IsSpace(r[|r| - 1]))
  {
    TrimEnd(TrimStart(s))
  }

  lemma {:induction false} TrimStartIdempotent(s: string)
    ensures TrimStart(TrimStart(s)) == TrimStart(s)
  {
  }

  /** Trimming twice is trimming once. */
  lemma TrimIdempotent(s: string)
    ensures Trim(Trim(s)) == Trim(s)
  {
    var t := Trim(s);
    if t != [] {
      assert !IsSpace(t[0]) && !IsSpace(t[|t| - 1]);
    }
  }

  /** `s.toLowerCase()` restricted to ASCII letters. */
  function Lower(s: string): (r: string)
    ensures |r| == |s|
    ensures forall i :: 0 <= i < |s| ==> r[i] == if 'A' <= s[i] <= 'Z' then (s[i] as int + 32) as char else s[i]
  {
    seq(|s|, i requires 0 <= i < |s| => if 'A' <= s[i] <= 'Z' then (s[i] as int + 32) as char else s[i])
  }

  /** `s.slice(-n)` for n > 0: the last n characters, or all of a shorter string. */
  function Last<T>(s: seq<T>, n: nat): (r: seq<T>)
    ensures |r| == if |s| < n then |s| else n
    ensures r == s[|s| - |r|..]
  {
    if |s| <= n then s else s[|s| - n..]
  }

  /** `s.slice(0, n)` */
  function Take<T>(s: seq<T>, n: nat): (r: seq<T>)
    ensures |r| == if |s| < n then |s| else n
    ensures r == s[..|r|]
  {
    if |s| <= n then s else s[..n]
  }

  /** `Array.prototype.slice(start, end)`: negative positions count from the end. */
  function JsSlice<T>(s: seq<T>, start: int, end: int): (r: seq<T>)
    ensures |r| <= |s|
    ensures start <= end ==> |r| <= end - start
    ensures 0 <= start <= |s| && start <= end ==> r == s[start..if end < |s| then end else |s|]
  {
    var n := |s|;
    var lo := if start < 0 then (if n + start < 0 then 0 else n + start) else (if start > n then n else start);
    var hi := if end < 0 then (if n + end < 0 then 0 else n + end) else (if end > n then n else end);
    if lo >= hi then [] else s[lo..hi]
  }

  function Reverse<T>(s: seq<T>): (r: seq<T>)
    ensures |r| == |s|
    ensures forall i :: 0 <= i < |s| ==> r[i] == s[|s| - 1 - i]
    decreases |s|
  {
    if s == [] then [] else Reverse(s[1..]) + [s[0]]
  }

  // ---------------------------------------------------------------------
  // Numbers and their decimal text
  // ---------------------------------------------------------------------

  predicate IsDigit(c: char)
  {
    '0' <= c <= '9'
  }

  function DigitChar(d: nat): (c: char)
    requires d < 10
    ensures IsDigit(c) && c as int - '0' as int == d
  {
    ('0' as int + d) as char
  }

  /** Decimal digits of a natural number, without leading zeros. */
  function NatToString(n: nat): (s: string)
    ensures s != [] && forall i :: 0 <= i < |s| ==> IsDigit(s[i])
    ensures |s| > 1 ==> s[0] != '0'
    decreases n
  {
    if n < 10 then [DigitChar(n)] else NatToString(n / 10) + [DigitChar(n % 10)]
  }

  /** `String(n)` for an integer. */
  function IntToString(i: int): (s: string)
    ensures s != []
  {
    if i < 0 then "-" + NatToString(-i) else NatToString(i)
  }

  /** The value of a string of decimal digits. */
  function DigitsValue(s: string): (n: nat)
    requires forall i :: 0 <= i < |s| ==> IsDigit(s[i])
    decreases |s|
  {
    if s == [] then 0
    else
      assert IsDigit(s[|s| - 1]);
      10 * DigitsValue(s[..|s| - 1]) + (s[|s| - 1] as int - '0' as int)
  }

  lemma {:induction false} NatToStringRoundTrip(n: nat)
    ensures DigitsValue(NatToString(n)) == n
    decreases n
  {
    if n >= 10 {
      NatToStringRoundTrip(n / 10);
      var s := NatToString(n);
      assert s[..|s| - 1] == NatToString(n / 10);
    }
  }

  /** `String(x)` on JSON values (arrays and objects as `[object]` text are not modelled precisely). */
  function ToStr(j: Json): string
  {
    match j
    case Undefined => "undefined"
    case Null => "null"
    case Bool(b) => if b then "true" else "false"
    case Num(n) => NumberToString(n)
    case Str(s) => s
    case Arr(_) => "[array]"
    case Obj(_) => "[object Object]"
  }

  function NumberToString(n: Number): string
  {
    match n
    case Int(v) => IntToString(v)
    case NaN => "NaN"
    case Infinity(neg) => if neg then "-Infinity" else "Infinity"
  }

  /** The longest prefix of decimal digits. */
  function DigitPrefix(s: string): (r: string)
    ensures |r| <= |s| && r == s[..|r|]
    ensures forall i :: 0 <= i < |r| ==> IsDigit(r[i])
    ensures |r| < |s| ==> !IsDigit(s[|r|])
    decreases |s|
  {
    if s != [] && IsDigit(s[0]) then [s[0]] + DigitPrefix(s[1..]) else []
  }

  /**
   * `parseInt(s, 10)`: leading white space, an optional sign, then as many
   * digits as there are; None stands for NaN (no digit at all).
   */
  function ParseIntText(s: string): (r: Option<int>)
  {
    var t := TrimStart(s);
    var neg := t != [] && t[0] == '-';
    var body := if t != [] && (t[0] == '-' || t[0] == '+') then t[1..] else t;
    var digits := DigitPrefix(body);
    if digits == [] then None
    else
      var v: int := DigitsValue(digits);
      Some(if neg then -v else v)
  }

  /** `parseInt(x)`: the argument is first converted with `String(x)`. */
  function ParseInt(j: Json): Option<int>
  {
    ParseIntText(ToStr(j))
  }

  lemma NatToStringHasNoSpace(n: nat)
    ensures NatToString(n) != [] && !IsSpace(NatToString(n)[0])
    ensures NatToString(n)[0] != '-' && NatToString(n)[0] != '+'
  {
  }

  lemma {:induction false} DigitPrefixOfDigits(s: string)
    requires forall i :: 0 <= i < |s| ==> IsDigit(s[i])
    ensures DigitPrefix(s) == s
    decreases |s|
  {
    if s != [] {
      DigitPrefixOfDigits(s[1..]);
    }
  }

  lemma ParseNatText(n: nat)
    ensures ParseIntText(NatToString(n)) == Some(n)
  {
    var s := NatToString(n);
    NatToStringHasNoSpace(n);
    assert TrimStart(s) == s;
    DigitPrefixOfDigits(s);
    NatToStringRoundTrip(n);
  }

  lemma ParseNegText(i: int)
    requires i < 0
    ensures ParseIntText(IntToString(i)) == Some(i)
  {
    var n: nat := -i;
    var digits := NatToString(n);
    var s := IntToString(i);
    assert s == ['-'] + digits;
    assert TrimStart(s) == s;
    assert s[1..] == digits;
    DigitPrefixOfDigits(digits);
    NatToStringRoundTrip(n);
  }

  /** `parseInt(String(i))` gives `i` back. */
  lemma ParseIntOfInt(i: int)
    ensures ParseInt(Num(Int(i))) == Some(i)
  {
    assert ToStr(Num(Int(i))) == IntToString(i);
    if i < 0 {
      ParseNegText(i);
    } else {
      ParseNatText(i);
    }
  }

  /** The value of a letter or digit as a digit of bases up to 36; 36 for any other character. */
  function DigitValue(c: char): (d: nat)
    ensures d <= 36
    ensures IsDigit(c) ==> d == c as int - '0' as int
  {
    if '0' <= c <= '9' then c as int - '0' as int
    else if 'a' <= c <= 'z' then c as int - 'a' as int + 10
    else if 'A' <= c <= 'Z' then c as int - 'A' as int + 10
    else 36
  }

  /** The longest prefix of digits of base `radix`. */
  function RadixPrefix(s: string, radix: nat): (r: string)
    ensures |r| <= |s| && r == s[..|r|]
    ensures forall i :: 0 <= i < |r| ==> DigitValue(r[i]) < radix
    ensures |r| < |s| ==> DigitValue(s[|r|]) >= radix
    decreases |s|
  {
    if s != [] && DigitValue(s[0]) < radix then [s[0]] + RadixPrefix(s[1..], radix) else []
  }

  /** The value of a string of digits of base `radix`. */
  function RadixValue(s: string, radix: nat): (n: nat)
    requires forall i :: 0 <= i < |s| ==> DigitValue(s[i]) < radix
    decreases |s|
  {
    if s == [] then 0 else radix * RadixValue(s[..|s| - 1], radix) + DigitValue(s[|s| - 1])
  }

  /**
   * `parseInt(s)` with no radix: as `parseInt(s, 10)`, except that `0x`
   * or `0X` after the sign switches to hexadecimal digits.
   */
  function ParseIntAnyRadix(s: string): (r: Option<int>)
    ensures !HexPrefixed(SignedBody(TrimStart(s))) ==> r == ParseIntText(s)
    ensures HexPrefixed(SignedBody(TrimStart(s))) ==>
      (r.None? <==> RadixPrefix(SignedBody(TrimStart(s))[2..], 16) == [])
  {
    var t := TrimStart(s);
    var neg := t != [] && t[0] == '-';
    var body := SignedBody(t);
    if HexPrefixed(body) then
      var digits := RadixPrefix(body[2..], 16);
      if digits == [] then None
      else
        var v: int := RadixValue(digits, 16);
        Some(if neg then -v else v)
    else ParseIntText(s)
  }

  /** Without a radix, `parseInt` reads `0x` text as hexadecimal. */
  lemma HexParseInt()
    ensures ParseIntAnyRadix("0x20") == Some(32)
  {
    assert TrimStart("0x20") == "0x20" by { assert !IsSpace('0'); }
    assert SignedBody("0x20") == "0x20";
    assert HexPrefixed("0x20");
    assert "0x20"[2..] == "20";
    assert RadixPrefix("20", 16) == "20" by {
      assert DigitValue('2') == 2 && DigitValue('0') == 0;
      assert "20"[1..] == "0" && "0"[1..] == [];
      assert RadixPrefix("0", 16) == "0" by { assert RadixPrefix([], 16) == []; }
    }
    assert RadixValue("20", 16) == 32 by {
      assert "20"[..1] == "2" && "2"[..0] == [];
      assert RadixValue("2", 16) == 2;
    }
  }

  /** The text after an optional leading sign. */
  function SignedBody(t: string): (r: string)
    ensures r == if t != [] && (t[0] == '-' || t[0] == '+') then t[1..] else t
  {
    if t != [] && (t[0] == '-' || t[0] == '+') then t[1..] else t
  }

  predicate HexPrefixed(body: string)
  {
    |body| >= 2 && body[0] == '0' && (body[1] == 'x' || body[1] == 'X')
  }

  /** The base named by the letter after a leading `0` in `Number(s)`: `x`, `o` or `b`; 0 for none. */
  function RadixLetter(c: char): nat
  {
    if c == 'x' || c == 'X' then 16 else if c == 'o' || c == 'O' then 8 else if c == 'b' || c == 'B' then 2 else 0
  }

  function Pow10(e: nat): (r: nat)
    ensures r >= 1
  {
    if e == 0 then 1 else 10 * Pow10(e - 1)
  }

  /** The optional exponent part `e[+-]digits` of a decimal literal; None when `s` is anything else. */
  function ExponentOf(s: string): (r: Option<int>)
    ensures s == [] ==> r == Some(0)
  {
    if s == [] then Some(0)
    else if s[0] != 'e' && s[0] != 'E' then None
    else
      var digits := SignedBody(s[1..]);
      if digits == [] || DigitPrefix(digits) != digits then None
      else
        var e: int := DigitsValue(digits);
        Some(if s[1] == '-' then -e else e)
  }

  /**
   * The value of an unsigned decimal literal: digits with an optional
   * fraction and exponent, at least one digit before the exponent. None
   * when the text is not such a literal, and also when its value is not a
   * whole number (fractional numbers are not represented).
   */
  function DecimalValue(body: string): (r: Option<nat>)
  {
    var whole := DigitPrefix(body);
    var (frac, tail) := FractionSplit(body[|whole|..]);
    var e := ExponentOf(tail);
    if whole + frac == [] || e.None? then None
    else
      assert forall i :: 0 <= i < |whole + frac| ==> IsDigit((whole + frac)[i]);
      Scaled(DigitsValue(whole + frac), e.value - |frac|)
  }

  /** Splits off the fraction digits after a leading `.`; the rest is what follows them. */
  function FractionSplit(rest: string): (r: (string, string))
    ensures forall i :: 0 <= i < |r.0| ==> IsDigit(r.0[i])
    ensures r.0 == [] ==> r.1 == rest || (rest != [] && rest[0] == '.' && r.1 == rest[1..])
  {
    if rest != [] && rest[0] == '.' then
      var frac := DigitPrefix(rest[1..]);
      (frac, rest[1 + |frac|..])
    else ([], rest)
  }

  /** `m * 10^p` when that is a whole number, None otherwise. */
  function Scaled(m: nat, p: int): (r: Option<nat>)
    ensures p >= 0 ==> r.Some?
    ensures r.Some? && m > 0 ==> r.value > 0
  {
    if p >= 0 then Some(m * Pow10(p))
    else if m % Pow10(-p) == 0 then Some(m / Pow10(-p))
    else None
  }

  /**
   * `Number(s)` for strings: white space trimmed; empty is 0; `0x`, `0o`
   * and `0b` literals without a sign; otherwise an optional sign and
   * `Infinity` or a decimal literal. Any other text is NaN.
   */
  function StringToNumber(s: string): (n: Number)
    ensures Trim(s) == [] ==> n == Int(0)
  {
    var t := Trim(s);
    if t == [] then Int(0)
    else if |t| > 2 && t[0] == '0' && RadixLetter(t[1]) != 0 then
      var radix := RadixLetter(t[1]);
      var digits := t[2..];
      if RadixPrefix(digits, radix) == digits then Int(RadixValue(digits, radix)) else NaN
    else
      var neg := t[0] == '-';
      var body := SignedBody(t);
      if body == "Infinity" then Infinity(neg)
      else
        var d := DecimalValue(body);
        if d.None? then NaN
        else
          var v: int := d.value;
          Int(if neg then -v else v)
  }

  /** `Number` reads a score sent as decimal text. */
  lemma DecimalTextNumber()
    ensures StringToNumber("5000") == Int(5000)
  {
    assert Trim("5000") == "5000";
    assert DigitPrefix("5000") == "5000";
    assert "5000"[..3] == "500" && "500"[..2] == "50" && "50"[..1] == "5" && "5"[..0] == [];
    assert DigitsValue("5000") == 5000;
    assert "5000"[4..] == [] && "5000" + [] == "5000";
    assert DecimalValue("5000") == Some(5000);
    assert SignedBody("5000") == "5000";
  }

  /** `Number` reads hexadecimal text. */
  lemma HexTextNumber()
    ensures StringToNumber("0x10") == Int(16)
  {
    assert Trim("0x10") == "0x10";
    assert RadixPrefix("10", 16) == "10";
    assert RadixValue("10", 16) == 16;
  }

  /** `Number` reads text with an exponent. */
  lemma ExponentTextNumber()
    ensures StringToNumber("1e3") == Int(1000)
  {
    assert Trim("1e3") == "1e3";
    assert DecimalValue("1e3") == Some(1000) by {
      assert DigitPrefix("1e3") == "1";
      assert "1e3"[1..] == "e3";
      assert FractionSplit("e3") == ([], "e3");
      assert ExponentOf("e3") == Some(3) by { assert "e3"[1..] == "3"; }
      assert DigitsValue("1") == 1;
      assert Scaled(1, 3) == Some(1000) by { assert Pow10(3) == 1000; }
    }
  }

  /** A hexadecimal literal cannot carry a sign. */
  lemma SignedHexTextNumber()
    ensures StringToNumber("-0x10") == NaN
  {
    assert Trim("-0x10") == "-0x10";
    assert SignedBody("-0x10") == "0x10";
    assert DigitPrefix("0x10") == "0";
    assert "0x10"[1..] == "x10";
    assert ExponentOf("x10") == None;
  }

  /** Text after the digits makes NaN. */
  lemma TrailingTextNumber()
    ensures StringToNumber("12px") == NaN
  {
    assert Trim("12px") == "12px";
    assert DigitPrefix("12px") == "12";
    assert "12px"[2..] == "px";
    assert ExponentOf("px") == None;
  }

  /** `Number(x)` */
  function ToNumber(j: Json): Number
  {
    match j
    case Undefined => NaN
    case Null => Int(0)
    case Bool(b) => Int(if b then 1 else 0)
    case Num(n) => n
    case Str(s) => StringToNumber(s)
    case Arr(items) => if items == [] then Int(0) else NaN
    case Obj(_) => NaN
  }

  /** `ToPrimitive(x)`: arrays and objects become their `String` text; anything else is kept. */
  function ToPrimitive(j: Json): (r: Json)
    ensures !r.Arr? && !r.Obj?
    ensures (j.Arr? || j.Obj?) ==> r == Str(ToStr(j))
    ensures !(j.Arr? || j.Obj?) ==> r == j
  {
    if j.Arr? || j.Obj? then Str(ToStr(j)) else j
  }

  /** `a < b` on strings: at the first difference the character of `a` is lower, or `a` is a proper prefix of `b`. */
  predicate StringLess(a: string, b: string)
    decreases |a|
  {
    b != [] && (a == [] || a[0] < b[0] || (a[0] == b[0] && StringLess(a[1..], b[1..])))
  }

  /** `x > y` on numbers; false whenever either side is NaN. */
  predicate NumberGreater(x: Number, y: Number)
  {
    match (x, y)
    case (Int(a), Int(b)) => a > b
    case (Infinity(neg), _) => !neg && !y.NaN? && y != Infinity(false)
    case (_, Infinity(neg)) => neg && x.Int?
    case _ => false
  }

  /**
   * `a > b`: both sides are first made primitive; two strings compare as
   * text, any other pair as numbers.
   */
  predicate JsGreater(a: Json, b: Json)
  {
    var pa := ToPrimitive(a);
    var pb := ToPrimitive(b);
    if pa.Str? && pb.Str? then StringLess(pb.s, pa.s) else NumberGreater(ToNumber(pa), ToNumber(pb))
  }

  /** On numbers that are not NaN, `>` is a strict total order. */
  lemma NumberGreaterStrictTotal(x: Number, y: Number, z: Number)
    ensures !NumberGreater(x, x)
    ensures NumberGreater(x, y) ==> !NumberGreater(y, x)
    ensures NumberGreater(x, y) && NumberGreater(y, z) ==> NumberGreater(x, z)
    ensures !x.NaN? && !y.NaN? && x != y ==> NumberGreater(x, y) || NumberGreater(y, x)
    ensures x.NaN? || y.NaN? ==> !NumberGreater(x, y)
  {
  }

  /** On two integers `>` is the integer order. */
  lemma JsGreaterOnInts(a: int, b: int)
    ensures JsGreater(Num(Int(a)), Num(Int(b))) <==> a > b
  {
  }

  /** A score sent as text is compared as a number against a number ... */
  lemma TextAgainstNumber()
    ensures JsGreater(Str("5000"), Num(Int(3000)))
    ensures !JsGreater(Num(Int(3000)), Str("5000"))
  {
    DecimalTextNumber();
    assert ToNumber(ToPrimitive(Str("5000"))) == Int(5000);
    assert ToNumber(ToPrimitive(Num(Int(3000)))) == Int(3000);
  }

  /** ... but two texts are compared as text. */
  lemma TextAgainstText()
    ensures JsGreater(Str("5000"), Str("30000"))
  {
    assert StringLess("30000", "5000");
  }

  const TWO_31: int := 0x8000_0000
  const TWO_32: int := 0x1_0000_0000

  /** `x | 0`: ToInt32, wrapping modulo 2^32 into the signed range; NaN and infinities give 0. */
  function ToInt32(n: Number): (r: int)
    ensures -TWO_31 <= r < TWO_31
    ensures n.Int? && -TWO_31 <= n.v < TWO_31 ==> r == n.v
    ensures n.Int? ==> (r - n.v) % TWO_32 == 0
    ensures !n.Int? ==> r == 0
  {
    if n.Int? then (n.v + TWO_31) % TWO_32 - TWO_31 else 0
  }

  /** `Math.max(lo, Math.min(hi, x))` */
  function Clamp(x: int, lo: int, hi: int): (r: int)
    requires lo <= hi
    ensures lo <= r <= hi
    ensures lo <= x <= hi ==> r == x
    ensures x < lo ==> r == lo
    ensures x > hi ==> r == hi
  {
    if x < lo then lo else if x > hi then hi else x
  }
}
