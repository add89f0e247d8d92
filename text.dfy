/**
 * The string operations the annotation classifier and the generator rely on:
 * ASCII case mapping (strings.ToLower / strings.ToUpper), deleting every
 * occurrence of a character (strings.Replace with an empty replacement and a
 * count of -1), splitting at a one-character separator (strings.Split), and
 * the two integer parsers, strconv.ParseInt(s, 0, 64) and strconv.Atoi.
 */
module Text {
  import opened Wrappers

  const MIN_INT64: int := -0x8000_0000_0000_0000
  const MAX_INT64: int := 0x7fff_ffff_ffff_ffff

  function LowerChar(c: char): char
  {
    if 'A' <= c <= 'Z' then (c as int + 32) as char else c
  }

  function UpperChar(c: char): char
  {
    if 'a' <= c <= 'z' then (c as int - 32) as char else c
  }

  function ToLower(s: string): string
  {
    seq(|s|, i requires 0 <= i < |s| => LowerChar(s[i]))
  }

  function ToUpper(s: string): string
  {
    seq(|s|, i requires 0 <= i < |s| => UpperChar(s[i]))
  }

  /** Lower-casing forgets the case the text was written in. */
  lemma LowerOfUpper(s: string)
    ensures ToLower(ToUpper(s)) == ToLower(s)
  {
    forall i | 0 <= i < |s|
      ensures ToLower(ToUpper(s))[i] == ToLower(s)[i]
    {
      assert ToUpper(s)[i] == UpperChar(s[i]);
    }
  }

  lemma LowerConcat(a: string, b: string)
    ensures ToLower(a + b) == ToLower(a) + ToLower(b)
  {
  }

  /** strings.Replace(s, string(c), "", -1): every c deleted, the rest kept in order. */
  function RemoveAll(s: string, c: char): (r: string)
    ensures c !in r
    ensures |r| <= |s|
  {
    if s == [] then []
    else (if s[0] == c then [] else [s[0]]) + RemoveAll(s[1..], c)
  }

  lemma {:induction false} RemoveAllConcat(a: string, b: string, c: char)
    ensures RemoveAll(a + b, c) == RemoveAll(a, c) + RemoveAll(b, c)
  {
    if a != [] {
      var head := if a[0] == c then [] else [a[0]];
      assert (a + b)[0] == a[0] && (a + b)[1..] == a[1..] + b;
      RemoveAllConcat(a[1..], b, c);
      calc {
        RemoveAll(a + b, c);
        head + RemoveAll(a[1..] + b, c);
        head + (RemoveAll(a[1..], c) + RemoveAll(b, c));
        (head + RemoveAll(a[1..], c)) + RemoveAll(b, c);
      }
    } else {
      assert a + b == b;
    }
  }

  lemma {:induction false} RemoveAllAbsent(s: string, c: char)
    requires c !in s
    ensures RemoveAll(s, c) == s
  {
    if s != [] {
      RemoveAllAbsent(s[1..], c);
    }
  }

  /** strings.Split(s, string(sep)): the pieces between separators, at least one. */
  function Split(s: string, sep: char): (parts: seq<string>)
    ensures |parts| >= 1
    ensures forall k :: 0 <= k < |parts| ==> sep !in parts[k]
  {
    if s == [] then [[]]
    else
      var rest := Split(s[1..], sep);
      if s[0] == sep then [[]] + rest
      else [[s[0]] + rest[0]] + rest[1..]
  }

  /** strings.Join(parts, string(sep)), the inverse of Split. */
  function Join(parts: seq<string>, sep: char): string
    requires |parts| >= 1
  {
    if |parts| == 1 then parts[0] else parts[0] + [sep] + Join(parts[1..], sep)
  }

  lemma {:induction false} JoinSplit(s: string, sep: char)
    ensures Join(Split(s, sep), sep) == s
  {
    if s != [] {
      var rest := Split(s[1..], sep);
      JoinSplit(s[1..], sep);
      if s[0] == sep {
        assert Split(s, sep)[1..] == rest;
      } else {
        var parts := Split(s, sep);
        if |rest| == 1 {
          assert parts == [[s[0]] + rest[0]];
        } else {
          assert parts[1..] == rest[1..];
          assert Join(rest, sep) == rest[0] + [sep] + Join(rest[1..], sep);
        }
      }
    }
  }

  /** Splitting at the first separator: the text before it is the first piece. */
  lemma {:induction false} SplitAt(a: string, b: string, sep: char)
    requires sep !in a
    ensures Split(a + [sep] + b, sep) == [a] + Split(b, sep)
  {
    var s := a + [sep] + b;
    if a == [] {
      assert s[0] == sep && s[1..] == b;
    } else {
      assert s[0] == a[0] && s[1..] == a[1..] + [sep] + b;
      SplitAt(a[1..], b, sep);
      assert [a[0]] + a[1..] == a;
    }
  }

  lemma {:induction false} SplitNoSep(a: string, sep: char)
    requires sep !in a
    ensures Split(a, sep) == [a]
  {
    if a != [] {
      SplitNoSep(a[1..], sep);
      assert [a[0]] + a[1..] == a;
    }
  }

  /** Split undoes Join for pieces free of the separator. */
  lemma {:induction false} SplitJoin(parts: seq<string>, sep: char)
    requires |parts| >= 1
    requires forall k :: 0 <= k < |parts| ==> sep !in parts[k]
    ensures Split(Join(parts, sep), sep) == parts
  {
    if |parts| == 1 {
      SplitNoSep(parts[0], sep);
    } else {
      SplitJoin(parts[1..], sep);
      SplitAt(parts[0], Join(parts[1..], sep), sep);
    }
  }

  /** The value of a digit character in bases up to 36, letters in either case. */
  function DigitValue(c: char): Option<nat>
  {
    if '0' <= c <= '9' then Some(c as int - '0' as int)
    else if 'a' <= LowerChar(c) <= 'z' then Some(LowerChar(c) as int - 'a' as int + 10)
    else None
  }

  /** The value of a run of digits in the given base, None if a character is not such a digit. */
  function DigitsValue(ds: string, base: nat): Option<nat>
  {
    if ds == [] then Some(0)
    else
      match DigitsValue(ds[..|ds| - 1], base)
      case None => None
      case Some(v) =>
        match DigitValue(ds[|ds| - 1])
        case None => None
        case Some(d) => if d < base then Some(Shift(v, base, d)) else None
  }

  /** One more digit d after the value v. */
  function Shift(v: nat, base: nat, d: nat): nat
  {
    v * base + d
  }

  function DigitChar(d: nat): char
    requires d < 36
  {
    if d < 10 then ('0' as int + d) as char else ('a' as int + d - 10) as char
  }

  /** The shortest digit string for n in the given base. */
  function ToDigits(n: nat, base: nat): (ds: string)
    requires 2 <= base <= 36
    ensures |ds| >= 1
    decreases n
  {
    if n < base then [DigitChar(n)] else ToDigits(n / base, base) + [DigitChar(n % base)]
  }

  lemma DivSmaller(n: nat, base: nat)
    requires 2 <= base <= n
    ensures 0 < n / base < n
  {
  }

  lemma DivMod(n: nat, base: nat)
    requires base > 0
    ensures n == (n / base) * base + n % base
  {
  }

  lemma DigitsSnoc(ds: string, c: char, base: nat, v: nat, d: nat)
    requires DigitsValue(ds, base) == Some(v) && DigitValue(c) == Some(d) && d < base
    ensures DigitsValue(ds + [c], base) == Some(v * base + d)
  {
    assert (ds + [c])[..|ds|] == ds;
  }

  lemma DigitCharValue(d: nat)
    requires d < 36
    ensures DigitValue(DigitChar(d)) == Some(d)
  {
  }

  lemma {:induction false} DigitsOfToDigits(n: nat, base: nat)
    requires 2 <= base <= 36
    ensures DigitsValue(ToDigits(n, base), base) == Some(n)
    decreases n
  {
    if n < base {
      DigitCharValue(n);
      assert [DigitChar(n)][..0] == [];
    } else {
      var q, r := n / base, n % base;
      DivSmaller(n, base);
      DigitCharValue(r);
      DigitsOfToDigits(q, base);
      DigitsSnoc(ToDigits(q, base), DigitChar(r), base, q, r);
      assert ToDigits(n, base) == ToDigits(q, base) + [DigitChar(r)];
      DivMod(n, base);
    }
  }

  lemma {:induction false} LeadingDigit(n: nat, base: nat)
    requires 2 <= base <= 36 && n > 0
    ensures '1' <= ToDigits(n, base)[0] <= '9' || 'a' <= ToDigits(n, base)[0] <= 'z'
    decreases n
  {
    if n >= base {
      DivSmaller(n, base);
      LeadingDigit(n / base, base);
      assert ToDigits(n, base)[0] == ToDigits(n / base, base)[0];
    }
  }

  /** One character that is no digit of the base spoils the whole run. */
  lemma {:induction false} DigitsReject(ds: string, base: nat, k: nat)
    requires k < |ds|
    requires DigitValue(ds[k]).None? || DigitValue(ds[k]).value >= base
    ensures DigitsValue(ds, base).None?
  {
    if k < |ds| - 1 {
      DigitsReject(ds[..|ds| - 1], base, k);
    }
  }

  /** The base strconv picks for base 0: a "0b", "0o" or "0x" prefix, a leading zero (octal), else decimal. */
  function LiteralBase(s: string): (base: nat)
    requires s != []
    ensures base == 2 || base == 8 || base == 10 || base == 16
  {
    if s[0] == '0' then
      if |s| >= 3 && LowerChar(s[1]) == 'b' then 2
      else if |s| >= 3 && LowerChar(s[1]) == 'o' then 8
      else if |s| >= 3 && LowerChar(s[1]) == 'x' then 16
      else 8
    else 10
  }

  /** The digits strconv reads in that base: what follows the prefix or the leading zero. */
  function LiteralDigits(s: string): (ds: string)
    requires s != []
    ensures |ds| < |s| || ds == s
  {
    if s[0] == '0' then
      if |s| >= 3 && (LowerChar(s[1]) == 'b' || LowerChar(s[1]) == 'o' || LowerChar(s[1]) == 'x') then s[2..]
      else s[1..]
    else s
  }

  /** strconv.ParseUint(s, 0, _) without its range check. */
  function ParseUintBase0(s: string): Option<nat>
  {
    if s == [] then None else DigitsValue(LiteralDigits(s), LiteralBase(s))
  }

  /** The literal without its optional sign. */
  function Unsigned(s: string): string
  {
    if s != [] && (s[0] == '+' || s[0] == '-') then s[1..] else s
  }

  /** c is a digit of the base. */
  predicate IsDigitOf(c: char, base: nat)
  {
    DigitValue(c).Some? && DigitValue(c).value < base
  }

  /** A run of digits has a value exactly when every character is a digit of the base. */
  lemma {:induction false} DigitsAccepted(ds: string, base: nat)
    ensures DigitsValue(ds, base).Some? <==> forall k :: 0 <= k < |ds| ==> IsDigitOf(ds[k], base)
  {
    if ds != [] {
      var init := ds[..|ds| - 1];
      DigitsAccepted(init, base);
      assert forall k :: 0 <= k < |init| ==> init[k] == ds[k];
    }
  }

  /**
   * strconv.ParseInt(s, 0, 64): an optional sign, then a "0b", "0o" or "0x"
   * prefixed, a leading-zero octal or a decimal literal, whose value must fit
   * in 64 signed bits. None stands for both of Go's errors (syntax and range).
   */
  function ParseInt(s: string): (r: Option<int>)
    ensures r.Some? ==> MIN_INT64 <= r.value <= MAX_INT64
  {
    if s == [] then None
    else
      var neg := s[0] == '-';
      match ParseUintBase0(Unsigned(s))
      case None => None
      case Some(u) =>
        var v := if neg then -(u as int) else u;
        if MIN_INT64 <= v <= MAX_INT64 then Some(v) else None
  }

  /** strconv.Atoi on a 64-bit platform: an optional sign and decimal digits only. */
  function Atoi(s: string): (r: Option<int>)
    ensures r.Some? ==> MIN_INT64 <= r.value <= MAX_INT64
  {
    if s == [] then None
    else
      var neg := s[0] == '-';
      var body := if s[0] == '+' || s[0] == '-' then s[1..] else s;
      if body == [] then None
      else
        match DigitsValue(body, 10)
        case None => None
        case Some(u) =>
          var v := if neg then -(u as int) else u;
          if MIN_INT64 <= v <= MAX_INT64 then Some(v) else None
  }

  lemma ParseIntDecimal(n: nat)
    requires n <= MAX_INT64
    ensures ParseInt(ToDigits(n, 10)) == Some(n)
  {
    DigitsOfToDigits(n, 10);
    if n > 0 {
      LeadingDigit(n, 10);
    } else {
      assert ToDigits(0, 10) == "0";
    }
  }

  lemma ParseIntNegative(n: nat)
    requires 0 < n <= -MIN_INT64
    ensures ParseInt("-" + ToDigits(n, 10)) == Some(-(n as int))
  {
    DigitsOfToDigits(n, 10);
    LeadingDigit(n, 10);
    assert ("-" + ToDigits(n, 10))[1..] == ToDigits(n, 10);
  }

  lemma ParseIntHex(n: nat)
    requires n <= MAX_INT64
    ensures ParseInt("0x" + ToDigits(n, 16)) == Some(n)
  {
    DigitsOfToDigits(n, 16);
    assert ("0x" + ToDigits(n, 16))[2..] == ToDigits(n, 16);
  }

  lemma ParseIntOctal(n: nat)
    requires n <= MAX_INT64
    ensures ParseInt("0" + ToDigits(n, 8)) == Some(n)
  {
    DigitsOfToDigits(n, 8);
    var s := "0" + ToDigits(n, 8);
    assert s[0] == '0' && s[1..] == ToDigits(n, 8);
    OctalDigitChar(n, 8);
    assert LowerChar(s[1]) == s[1];
    assert ParseUintBase0(s) == DigitsValue(s[1..], 8);
  }

  /** An empty literal, or a sign with nothing after it, is a syntax error. */
  lemma ParseIntRejectsEmpty(s: string)
    requires Unsigned(s) == []
    ensures ParseInt(s).None?
  {
  }

  /**
   * A character after the prefix that is no digit of the base the prefix
   * chose is a syntax error: "12z", "0x1g", "09", and "0x" alone (read as a
   * leading-zero octal literal whose digit 'x' is not octal).
   */
  lemma ParseIntRejectsDigit(s: string, k: nat)
    requires Unsigned(s) != []
    requires k < |LiteralDigits(Unsigned(s))|
    requires !IsDigitOf(LiteralDigits(Unsigned(s))[k], LiteralBase(Unsigned(s)))
    ensures ParseInt(s).None?
  {
    DigitsReject(LiteralDigits(Unsigned(s)), LiteralBase(Unsigned(s)), k);
  }

  /** A well-formed literal whose value lies outside int64 is a range error. */
  lemma ParseIntRejectsRange(s: string, u: nat)
    requires Unsigned(s) != [] && ParseUintBase0(Unsigned(s)) == Some(u)
    requires if s[0] == '-' then u > -MIN_INT64 else u > MAX_INT64
    ensures ParseInt(s).None?
  {
  }

  /**
   * Nothing else is rejected: a literal whose digits all belong to its base
   * is accepted exactly when its signed value lies in int64, and then yields
   * that value.
   */
  lemma ParseIntAccepts(s: string)
    requires Unsigned(s) != []
    requires forall k :: 0 <= k < |LiteralDigits(Unsigned(s))| ==>
      IsDigitOf(LiteralDigits(Unsigned(s))[k], LiteralBase(Unsigned(s)))
    ensures ParseUintBase0(Unsigned(s)).Some?
    ensures var u := ParseUintBase0(Unsigned(s)).value;
      var v := if s[0] == '-' then -(u as int) else u;
      (MIN_INT64 <= v <= MAX_INT64 <==> ParseInt(s) == Some(v))
  {
    DigitsAccepted(LiteralDigits(Unsigned(s)), LiteralBase(Unsigned(s)));
  }

  /** Examples of each rejection. */
  lemma ParseIntRejectionExamples()
    ensures ParseInt("").None? && ParseInt("-").None?
    ensures ParseInt("12z").None? && ParseInt("0x").None? && ParseInt("0x1g").None? && ParseInt("09").None?
  {
    ParseIntRejectsEmpty("");
    ParseIntRejectsEmpty("-");
    ParseIntRejectsDigit("12z", 2);
    ParseIntRejectsDigit("0x", 0);
    ParseIntRejectsDigit("0x1g", 1);
    ParseIntRejectsDigit("09", 0);
  }

  lemma {:induction false} OctalDigitChar(n: nat, base: nat)
    requires 2 <= base <= 10
    ensures '0' <= ToDigits(n, base)[0] <= '9'
    decreases n
  {
    if n >= base {
      DivSmaller(n, base);
      OctalDigitChar(n / base, base);
      assert ToDigits(n, base)[0] == ToDigits(n / base, base)[0];
    }
  }

  lemma AtoiDecimal(n: nat)
    requires n <= MAX_INT64
    ensures Atoi(ToDigits(n, 10)) == Some(n)
  {
    DigitsOfToDigits(n, 10);
    if n > 0 {
      LeadingDigit(n, 10);
    } else {
      assert ToDigits(0, 10) == "0";
    }
  }

  /** Atoi knows no base prefix: a hexadecimal literal is rejected. */
  lemma AtoiRejectsHex(digits: string)
    ensures Atoi("0x" + digits).None?
  {
    var s := "0x" + digits;
    DigitsReject(s, 10, 1);
  }
}
