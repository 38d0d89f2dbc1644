/** String helpers standing for JavaScript's `toLowerCase`, `toUpperCase`,
    `trim` and `includes`. Case mapping covers the ASCII letters only. */
module Text {

  function LowerChar(c: char): char
  {
    if 'A' <= c <= 'Z' then (c as int + 32) as char else c
  }

  function UpperChar(c: char): char
  {
    if 'a' <= c <= 'z' then (c as int - 32) as char else c
  }

  function ToLower(s: string): (r: string)
    ensures |r| == |s|
    ensures forall i :: 0 <= i < |s| ==> r[i] == LowerChar(s[i])
  {
    seq(|s|, i requires 0 <= i < |s| => LowerChar(s[i]))
  }

  function ToUpper(s: string): (r: string)
    ensures |r| == |s|
    ensures forall i :: 0 <= i < |s| ==> r[i] == UpperChar(s[i])
  {
    seq(|s|, i requires 0 <= i < |s| => UpperChar(s[i]))
  }

  /** `a.toLowerCase() === b.toLowerCase()` */
  predicate EqualsIgnoreCase(a: string, b: string)
  {
    ToLower(a) == ToLower(b)
  }

  predicate StartsWith(s: string, prefix: string)
  {
    |prefix| <= |s| && s[..|prefix|] == prefix
  }

  /** `s.includes(sub)`: `sub` starts at some position of `s`. */
  predicate Contains(s: string, sub: string)
    decreases |s|
  {
    StartsWith(s, sub) || (|s| > 0 && Contains(s[1..], sub))
  }

  /** `s.toLowerCase().includes(sub.toLowerCase())` */
  predicate IncludesIgnoreCase(s: string, sub: string)
  {
    Contains(ToLower(s), ToLower(sub))
  }

  predicate IsSpace(c: char)
  {
    c == ' ' || c == '\t' || c == '\n' || c == '\r' || c == '\U{000B}' || c == '\U{000C}'
  }

  function TrimStart(s: string): (r: string)
    ensures |r| <= |s| && r == s[|s| - |r|..]
    ensures |r| == 0 || !IsSpace(r[0])
  {
    if |s| > 0 && IsSpace(s[0]) then TrimStart(s[1..]) else s
  }

  function TrimEnd(s: string): (r: string)
    ensures |r| <= |s| && r == s[..|r|]
    ensures |r| == 0 || !IsSpace(r[|r| - 1])
  {
    if |s| > 0 && IsSpace(s[|s| - 1]) then TrimEnd(s[..|s| - 1]) else s
  }

  /** `s.trim()` */
  function Trim(s: string): string
  {
    TrimEnd(TrimStart(s))
  }

  /** How a coupon code is stored and looked up: upper-cased, then trimmed. */
  function NormalizeCode(s: string): string
  {
    Trim(ToUpper(s))
  }

  predicate IsUpper(s: string)
  {
    forall i :: 0 <= i < |s| ==> UpperChar(s[i]) == s[i]
  }

  lemma TrimmedEnds(s: string)
    ensures var t := Trim(s); |t| == 0 || (!IsSpace(t[0]) && !IsSpace(t[|t| - 1]))
  {
    var u := TrimStart(s);
    var t := TrimEnd(u);
    if |t| > 0 {
      assert t[0] == u[0];
    }
  }

  lemma {:induction false} TrimKeepsUpper(s: string)
    requires IsUpper(s)
    ensures IsUpper(Trim(s))
  {
    var u := TrimStart(s);
    assert forall i :: 0 <= i < |u| ==> u[i] == s[|s| - |u| + i];
    var t := TrimEnd(u);
    assert forall i :: 0 <= i < |t| ==> t[i] == u[i];
  }

  /** Trimming an already trimmed string changes nothing. */
  lemma TrimIdempotent(s: string)
    ensures Trim(Trim(s)) == Trim(s)
  {
    var t := Trim(s);
    TrimmedEnds(s);
    assert TrimStart(t) == t;
    assert TrimEnd(t) == t;
  }

  /** Normalizing a stored code again yields the stored code: the code a
      coupon was created with always finds it. */
  lemma {:induction false} NormalizeCodeIdempotent(s: string)
    ensures NormalizeCode(NormalizeCode(s)) == NormalizeCode(s)
  {
    var u := ToUpper(s);
    assert IsUpper(u);
    var t := Trim(u);
    TrimKeepsUpper(u);
    assert ToUpper(t) == t;
    TrimIdempotent(u);
  }

  /** Every string contains the empty string, so an empty search term keeps everything. */
  lemma EmptyIsContained(s: string)
    ensures Contains(s, "")
  {
  }

  lemma {:induction false} LowerIdempotent(s: string)
    ensures ToLower(ToLower(s)) == ToLower(s)
  {
    var t := ToLower(s);
    forall i | 0 <= i < |s| ensures LowerChar(t[i]) == t[i] {
    }
  }

  const DIGITS: string := "0123456789"

  /** The decimal digits of `n`, as a template literal prints a whole number. */
  function NatToString(n: nat): (r: string)
    ensures |r| >= 1
    ensures forall i :: 0 <= i < |r| ==> r[i] in DIGITS
    decreases n
  {
    if n < 10 then [DIGITS[n]] else NatToString(n / 10) + [DIGITS[n % 10]]
  }

  function IntToString(n: int): (r: string)
    ensures n < 0 <==> |r| > 0 && r[0] == '-'
  {
    if n < 0 then "-" + NatToString(-n) else NatToString(n)
  }

  function DigitValue(c: char): nat
  {
    if '0' <= c <= '9' then c as int - '0' as int else 0
  }

  /** Reads a string of decimal digits back as a number. */
  function ParseNat(s: string): nat
  {
    if |s| == 0 then 0 else 10 * ParseNat(s[..|s| - 1]) + DigitValue(s[|s| - 1])
  }

  /** Printing a number and reading it back gives the number. */
  lemma {:induction false} ParseNatToString(n: nat)
    ensures ParseNat(NatToString(n)) == n
    decreases n
  {
    var r := NatToString(n);
    if n >= 10 {
      ParseNatToString(n / 10);
      assert r[..|r| - 1] == NatToString(n / 10);
    }
  }

  /** Code-unit lexicographic order, standing for `localeCompare(...) <= 0`. */
  predicate StrLe(a: string, b: string)
  {
    |a| == 0 || (|b| > 0 && (a[0] < b[0] || (a[0] == b[0] && StrLe(a[1..], b[1..]))))
  }

  /** Any two strings compare one way or the other. */
  lemma {:induction false} StrLeTotal(a: string, b: string)
    ensures StrLe(a, b) || StrLe(b, a)
  {
    if |a| > 0 && |b| > 0 && a[0] == b[0] {
      StrLeTotal(a[1..], b[1..]);
    }
  }
}
