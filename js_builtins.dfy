/** The JavaScript built-ins the recommender relies on: numbers with NaN and
  * `===`, `Math.floor`, `%` by one, `String.prototype.trim`, `split` on one
  * character, `parseInt` without a radix, and the order in which the default
  * `Array.prototype.sort` arranges strings. */
module JsBuiltins {

  datatype Option<T> = None | Some(value: T)

  /** A JavaScript number: NaN, or a value. Values are kept exact; rounding to
    * double precision is not modelled. */
  datatype Number = NaN | Num(value: real)

  /** `a === b`: NaN is equal to nothing, not even to itself. */
  predicate StrictEquals(a: Number, b: Number) {
    a.Num? && b.Num? && a.value == b.value
  }

  /** `a + b`: NaN as soon as one operand is NaN. */
  function Add(a: Number, b: Number): Number {
    if a.Num? && b.Num? then Num(a.value + b.value) else NaN
  }

  /** `a - b` */
  function Sub(a: Number, b: Number): Number {
    if a.Num? && b.Num? then Num(a.value - b.value) else NaN
  }

  /** `a / n` for a positive count `n`. */
  function DivideByCount(a: Number, n: nat): Number
    requires n > 0
  {
    if a.Num? then Num(a.value / n as real) else NaN
  }

  /** `Math.floor(x)` */
  function Floor(x: Number): Number {
    if x.Num? then Num(x.value.Floor as real) else NaN
  }

  /** `x % 1`: the remainder takes the sign of `x` (truncation toward zero). */
  function RemainderOfOne(x: Number): (r: Number)
    ensures r.Num? <==> x.Num?
    ensures r.Num? && x.value >= 0.0 ==> 0.0 <= r.value < 1.0 && x.value - r.value == x.value.Floor as real
    ensures r.Num? && x.value < 0.0 ==> r.value <= 0.0
  {
    if x.NaN? then NaN
    else if x.value >= 0.0 then Num(x.value - x.value.Floor as real)
    else Num(x.value + (-x.value).Floor as real)
  }

  /** `x >= y` for a literal `y`: false when `x` is NaN. */
  predicate AtLeast(x: Number, y: real) {
    x.Num? && x.value >= y
  }

  /** `i < x` for a loop counter `i`: false when `x` is NaN. */
  predicate CounterBelow(i: int, x: Number) {
    x.Num? && (i as real) < x.value
  }

  /** How many times `for (let i = 0; i < x; i++)` runs its body. */
  function LoopCount(x: Number): (n: nat)
    ensures forall i: nat :: CounterBelow(i, x) <==> i < n
  {
    if x.NaN? || x.value <= 0.0 then 0 else -((-x.value).Floor)
  }

  // ---------------------------------------------------------------------
  // Strings

  /** The WhiteSpace and LineTerminator code points of ECMA-262: what `trim`
    * removes from either end of a string. */
  predicate IsWhiteSpace(c: char) {
    var n := c as int;
    n == 0x09 || n == 0x0A || n == 0x0B || n == 0x0C || n == 0x0D || n == 0x20
    || n == 0xA0 || n == 0x1680 || (0x2000 <= n <= 0x200A) || n == 0x2028
    || n == 0x2029 || n == 0x202F || n == 0x205F || n == 0x3000 || n == 0xFEFF
  }

  /** `s.trimStart()`: the suffix left after the longest white-space prefix. */
  function TrimStart(s: string): (t: string)
    ensures |t| <= |s| && t == s[|s| - |t|..]
    ensures t == [] || !IsWhiteSpace(t[0])
    ensures forall i :: 0 <= i < |s| - |t| ==> IsWhiteSpace(s[i])
    decreases |s|
  {
    if s != [] && IsWhiteSpace(s[0]) then TrimStart(s[1..]) else s
  }

  /** `s.trimEnd()`: the prefix left after the longest white-space suffix. */
  function TrimEnd(s: string): (t: string)
    ensures |t| <= |s| && t == s[..|t|]
    ensures t == [] || !IsWhiteSpace(t[|t| - 1])
    ensures forall i :: |t| <= i < |s| ==> IsWhiteSpace(s[i])
    decreases |s|
  {
    if s != [] && IsWhiteSpace(s[|s| - 1]) then TrimEnd(s[..|s| - 1]) else s
  }

  /** `s.trim()` */
  function Trim(s: string): string {
    TrimEnd(TrimStart(s))
  }

  /** `s.trim() === ''` holds exactly when every character of `s` is white space. */
  lemma TrimEmptyIffAllWhiteSpace(s: string)
    ensures Trim(s) == "" <==> forall i :: 0 <= i < |s| ==> IsWhiteSpace(s[i])
  {
    if Trim(s) == "" {
      TrimStartOfBlank(s);
    }
    if forall i :: 0 <= i < |s| ==> IsWhiteSpace(s[i]) {
      AllWhiteSpaceTrimsAway(s);
    }
  }

  /** When nothing survives `trim`, `trimStart` alone has removed everything. */
  lemma TrimStartOfBlank(s: string)
    requires Trim(s) == ""
    ensures TrimStart(s) == ""
  {
    var t := TrimStart(s);
    if t != [] {
      assert false;
    }
  }

  lemma {:induction false} AllWhiteSpaceTrimsAway(s: string)
    requires forall i :: 0 <= i < |s| ==> IsWhiteSpace(s[i])
    ensures TrimStart(s) == ""
    decreases |s|
  {
    if s != [] {
      AllWhiteSpaceTrimsAway(s[1..]);
    }
  }

  /** `s.split(sep)` for a one-character separator: the pieces between the
    * separators, none containing it. */
  function Split(s: string, sep: char): (parts: seq<string>)
    ensures |parts| >= 1
    ensures forall i :: 0 <= i < |parts| ==> sep !in parts[i]
    decreases |s|
  {
    if s == [] then [""]
    else
      var rest := Split(s[1..], sep);
      assert s == [s[0]] + s[1..];
      if s[0] == sep then [""] + rest
      else [[s[0]] + rest[0]] + rest[1..]
  }

  /** There is one piece more than there are separators. */
  lemma {:induction false} SplitCount(s: string, sep: char)
    ensures |Split(s, sep)| == multiset(s)[sep] + 1
    decreases |s|
  {
    if s != [] {
      SplitCount(s[1..], sep);
      assert s == [s[0]] + s[1..];
    }
  }

  /** `parts.join(sep)` */
  function Join(parts: seq<string>, sep: char): string
    requires |parts| >= 1
  {
    if |parts| == 1 then parts[0] else parts[0] + [sep] + Join(parts[1..], sep)
  }

  /** Splitting loses nothing: joining the pieces with the separator gives the string back. */
  lemma {:induction false} JoinSplit(s: string, sep: char)
    ensures Join(Split(s, sep), sep) == s
    decreases |s|
  {
    if s != [] {
      JoinSplit(s[1..], sep);
      var rest := Split(s[1..], sep);
      assert s == [s[0]] + s[1..];
      if s[0] == sep {
        JoinLeadingEmpty(rest, sep);
      } else {
        JoinExtendFirst(s[0], rest, sep);
      }
    }
  }

  lemma JoinLeadingEmpty(rest: seq<string>, sep: char)
    requires |rest| >= 1
    ensures Join([""] + rest, sep) == [sep] + Join(rest, sep)
  {
    assert ([""] + rest)[1..] == rest;
  }

  /** Prepending a character to the first piece prepends it to the join. */
  lemma JoinExtendFirst(c: char, rest: seq<string>, sep: char)
    requires |rest| >= 1
    ensures Join([[c] + rest[0]] + rest[1..], sep) == [c] + Join(rest, sep)
  {
    var parts := [[c] + rest[0]] + rest[1..];
    if |rest| > 1 {
      assert parts[1..] == rest[1..];
      assert Join(parts, sep) == [c] + rest[0] + [sep] + Join(rest[1..], sep);
    }
  }

  /** A separator-free prefix only lengthens the first piece. */
  lemma {:induction false} SplitPrepend(a: string, s: string, sep: char)
    requires sep !in a
    ensures Split(a + s, sep) == [a + Split(s, sep)[0]] + Split(s, sep)[1..]
    decreases |a|
  {
    if a != [] {
      SplitPrepend(a[1..], s, sep);
      assert (a + s)[1..] == a[1..] + s;
      assert [a[0]] + (a[1..] + Split(s, sep)[0]) == a + Split(s, sep)[0];
    } else {
      var pieces := Split(s, sep);
      assert a + s == s;
      assert pieces == [pieces[0]] + pieces[1..];
      assert a + pieces[0] == pieces[0];
    }
  }

  /** A leading separator starts with an empty piece. */
  lemma SplitLeadingSeparator(s: string, sep: char)
    ensures Split([sep] + s, sep) == [""] + Split(s, sep)
  {
    assert ([sep] + s)[1..] == s;
  }

  /** Joining pieces that do not contain the separator and splitting again
    * gives the pieces back. */
  lemma {:induction false} SplitJoin(parts: seq<string>, sep: char)
    requires |parts| >= 1
    requires forall i :: 0 <= i < |parts| ==> sep !in parts[i]
    ensures Split(Join(parts, sep), sep) == parts
    decreases |parts|
  {
    if |parts| == 1 {
      SplitPrepend(parts[0], "", sep);
      assert parts[0] + "" == parts[0];
    } else {
      var rest := Join(parts[1..], sep);
      SplitJoin(parts[1..], sep);
      assert Join(parts, sep) == parts[0] + ([sep] + rest);
      SplitLeadingSeparator(rest, sep);
      SplitPrepend(parts[0], [sep] + rest, sep);
      assert parts[0] + "" == parts[0];
      assert parts == [parts[0]] + parts[1..];
    }
  }

  // ---------------------------------------------------------------------
  // parseInt

  /** The value of a digit in radix 36 (`0`-`9`, then `a`-`z` in either case), or 36. */
  function DigitValue(c: char): nat {
    if '0' <= c <= '9' then c as int - '0' as int
    else if 'a' <= c <= 'z' then c as int - 'a' as int + 10
    else if 'A' <= c <= 'Z' then c as int - 'A' as int + 10
    else 36
  }

  /** The longest prefix of `s` made of digits of the radix. */
  function DigitPrefix(s: string, radix: nat): (z: string)
    ensures |z| <= |s| && z == s[..|z|]
    ensures forall i :: 0 <= i < |z| ==> DigitValue(z[i]) < radix
    ensures |z| == |s| || DigitValue(s[|z|]) >= radix
    decreases |s|
  {
    if s != [] && DigitValue(s[0]) < radix then [s[0]] + DigitPrefix(s[1..], radix) else []
  }

  /** The number that the digits `z` denote in the radix. */
  function DigitsValue(z: string, radix: nat): nat {
    if z == [] then 0 else DigitsValue(z[..|z| - 1], radix) * radix + DigitValue(z[|z| - 1])
  }

  /** `parseInt(s)`: skip leading white space, read an optional sign, then the
    * magnitude; NaN when there are no digits. */
  function ParseInt(s: string): Number {
    var t := TrimStart(s);
    var magnitude := if t != [] && (t[0] == '-' || t[0] == '+') then ParseMagnitude(t[1..]) else ParseMagnitude(t);
    match magnitude
    case None => NaN
    case Some(m) => Num(if t != [] && t[0] == '-' then -(m as real) else m as real)
  }

  /** The magnitude part of `parseInt`: radix 16 after a `0x` or `0X` prefix,
    * radix 10 otherwise, and the longest run of digits; None when that run is empty. */
  function ParseMagnitude(u: string): Option<nat> {
    if |u| >= 2 && u[0] == '0' && (u[1] == 'x' || u[1] == 'X') then ReadDigits(u[2..], 16)
    else ReadDigits(u, 10)
  }

  /** The value of the longest run of digits of the radix at the start of `u`;
    * None when that run is empty. */
  function ReadDigits(u: string, radix: nat): Option<nat> {
    var z := DigitPrefix(u, radix);
    if z == [] then None else Some(DigitsValue(z, radix))
  }

  /** `String(n)` for an integer `n`: its shortest decimal form. */
  function DecimalString(n: int): (s: string)
    ensures s != []
    decreases if n < 0 then 1 - n else n
  {
    if n < 0 then "-" + DecimalString(-n)
    else if n < 10 then [('0' as int + n) as char]
    else DecimalString(n / 10) + [('0' as int + n % 10) as char]
  }

  lemma {:induction false} DecimalDigits(n: nat)
    ensures forall i :: 0 <= i < |DecimalString(n)| ==> DigitValue(DecimalString(n)[i]) < 10
    ensures DigitsValue(DecimalString(n), 10) == n
  {
    if n >= 10 {
      DecimalDigits(n / 10);
      var s := DecimalString(n);
      assert s[..|s| - 1] == DecimalString(n / 10);
    }
  }

  lemma {:induction false} AllDigitsPrefix(s: string, radix: nat)
    requires forall i :: 0 <= i < |s| ==> DigitValue(s[i]) < radix
    ensures DigitPrefix(s, radix) == s
    decreases |s|
  {
    if s != [] {
      AllDigitsPrefix(s[1..], radix);
    }
  }

  lemma ParseMagnitudeDecimal(m: nat)
    ensures ParseMagnitude(DecimalString(m)) == Some(m)
  {
    DecimalDigits(m);
    ParseMagnitudeOfDigits(DecimalString(m));
  }

  /** A non-empty run of decimal digits is read whole, in radix 10. */
  lemma ParseMagnitudeOfDigits(d: string)
    requires d != [] && forall i :: 0 <= i < |d| ==> DigitValue(d[i]) < 10
    ensures ParseMagnitude(d) == Some(DigitsValue(d, 10))
  {
    if |d| >= 2 {
      assert DigitValue(d[1]) < 10;
    }
    assert ParseMagnitude(d) == ReadDigits(d, 10);
    AllDigitsPrefix(d, 10);
  }

  /** `parseInt` on a string that starts with a digit reads only the magnitude. */
  lemma ParseIntUnsigned(u: string)
    requires u != [] && DigitValue(u[0]) < 10
    ensures ParseInt(u) == (match ParseMagnitude(u) case None => NaN case Some(m) => Num(m as real))
  {
    assert '0' <= u[0] <= '9';
    assert !IsWhiteSpace(u[0]);
    assert TrimStart(u) == u;
  }

  /** `parseInt` on a minus sign and a string that starts with a digit negates the magnitude. */
  lemma ParseIntNegative(u: string)
    requires u != [] && DigitValue(u[0]) < 10
    ensures ParseInt("-" + u) == (match ParseMagnitude(u) case None => NaN case Some(m) => Num(-(m as real)))
  {
    var s := "-" + u;
    assert s[0] == '-' && !IsWhiteSpace(s[0]);
    assert TrimStart(s) == s;
    assert s[1..] == u;
  }

  /** `parseInt` reads back every integer written in decimal. */
  lemma ParseIntDecimal(n: int)
    ensures ParseInt(DecimalString(n)) == Num(n as real)
  {
    var m := if n < 0 then -n else n;
    var d := DecimalString(m);
    ParseMagnitudeDecimal(m);
    DecimalDigits(m);
    if n < 0 {
      ParseIntNegative(d);
      assert DecimalString(n) == "-" + d;
    } else {
      ParseIntUnsigned(d);
    }
  }

  // ---------------------------------------------------------------------
  // The order of the default `Array.prototype.sort` on strings

  /** `a < b` on strings: lexicographic on characters, a proper prefix first. */
  predicate StrLess(a: string, b: string)
    decreases |a|
  {
    b != [] && (a == [] || a[0] < b[0] || (a[0] == b[0] && StrLess(a[1..], b[1..])))
  }

  lemma {:induction false} StrLessIrreflexive(a: string)
    ensures !StrLess(a, a)
    decreases |a|
  {
    if a != [] {
      StrLessIrreflexive(a[1..]);
    }
  }

  lemma {:induction false} StrLessTransitive(a: string, b: string, c: string)
    requires StrLess(a, b) && StrLess(b, c)
    ensures StrLess(a, c)
    decreases |a|
  {
    if a != [] && a[0] == b[0] && b[0] == c[0] {
      StrLessTransitive(a[1..], b[1..], c[1..]);
    }
  }

  lemma {:induction false} StrLessTotal(a: string, b: string)
    requires a != b
    ensures StrLess(a, b) || StrLess(b, a)
    decreases |a|
  {
    if a != [] && b != [] && a[0] == b[0] {
      assert a == [a[0]] + a[1..] && b == [b[0]] + b[1..];
      StrLessTotal(a[1..], b[1..]);
    }
  }
}
