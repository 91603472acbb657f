/** The handful of Go `strings` / `path/filepath` operations the detector
    relies on, over `string = seq<char>`. */
module Text {

  /** Raw file content: Go's `[]byte` converted with `string(content)`, one
      character per byte, so `|s|` is the byte length. */
  type ByteString = s: string | forall i | 0 <= i < |s| :: s[i] as int < 256

  /** `strings.HasPrefix(s, p)`. */
  predicate StartsWith(s: string, p: string) {
    |p| <= |s| && s[..|p|] == p
  }

  /** Text put after a prefix keeps it a prefix. */
  lemma StartsWithAppend(a: string, b: string)
    ensures StartsWith(a + b, a)
  {
    assert (a + b)[..|a|] == a;
  }

  /** `strings.HasSuffix(s, p)`. */
  predicate EndsWith(s: string, p: string) {
    |p| <= |s| && s[|s| - |p|..] == p
  }

  /** `strings.Contains(s, sub)`: some suffix of `s` starts with `sub`. */
  predicate Contains(s: string, sub: string)
    decreases |s|
  {
    StartsWith(s, sub) || (|s| > 0 && Contains(s[1..], sub))
  }

  /** An occurrence of `sub` in `s` at index `i`. */
  ghost predicate OccursAt(s: string, sub: string, i: int) {
    0 <= i && i + |sub| <= |s| && s[i..i + |sub|] == sub
  }

  /** `Contains` finds exactly the strings that occur at some index. */
  lemma {:induction false} ContainsIffOccurs(s: string, sub: string)
    ensures Contains(s, sub) <==> exists i :: OccursAt(s, sub, i)
    decreases |s|
  {
    if StartsWith(s, sub) {
      assert OccursAt(s, sub, 0);
    } else if |s| == 0 {
      assert forall i :: !OccursAt(s, sub, i);
    } else {
      ContainsIffOccurs(s[1..], sub);
      if Contains(s[1..], sub) {
        var j :| OccursAt(s[1..], sub, j);
        assert s[1..][j..j + |sub|] == s[j + 1..j + 1 + |sub|];
        assert OccursAt(s, sub, j + 1);
      } else {
        forall i | OccursAt(s, sub, i) ensures false {
          assert i > 0;
          assert s[1..][i - 1..i - 1 + |sub|] == s[i..i + |sub|];
          assert OccursAt(s[1..], sub, i - 1);
        }
      }
    }
  }

  /** A string occurring in a part occurs in any concatenation around it. */
  lemma ContainsInfix(a: string, b: string, c: string, sub: string)
    requires Contains(b, sub)
    ensures Contains(a + b + c, sub)
  {
    ContainsIffOccurs(b, sub);
    var i :| OccursAt(b, sub, i);
    assert (a + b + c)[|a| + i..|a| + i + |sub|] == b[i..i + |sub|];
    assert OccursAt(a + b + c, sub, |a| + i);
    ContainsIffOccurs(a + b + c, sub);
  }

  /** `strings.Count(s, sub)`: non-overlapping occurrences, scanning left to
      right and resuming after each match; for an empty `sub`, Go answers
      one more than the length. */
  function Count(s: string, sub: string): (n: nat)
    ensures |sub| > 0 ==> n * |sub| <= |s|
    decreases |s|
  {
    if |sub| == 0 then |s| + 1
    else if |s| < |sub| then 0
    else if s[..|sub|] == sub then 1 + Count(s[|sub|..], sub)
    else Count(s[1..], sub)
  }

  /** Counting is non-zero exactly when the substring is present. */
  lemma {:induction false} CountPositiveIffContains(s: string, sub: string)
    requires |sub| > 0
    ensures Count(s, sub) > 0 <==> Contains(s, sub)
    decreases |s|
  {
    if |s| < |sub| {
      if Contains(s, sub) {
        ContainsIffOccurs(s, sub);
        assert false;
      }
    } else if s[..|sub|] == sub {
    } else {
      CountPositiveIffContains(s[1..], sub);
    }
  }

  /** A string containing a character `s` lacks never occurs in `s`. */
  lemma AbsentCharNotContained(s: string, sub: string, k: int)
    requires 0 <= k < |sub| && sub[k] !in s
    ensures !Contains(s, sub)
  {
    ContainsIffOccurs(s, sub);
  }

  /** Count of `sub` in the empty string: none. */
  lemma CountEmpty(sub: string)
    requires |sub| > 0
    ensures Count("", sub) == 0
  {
  }

  /** ASCII lower-casing of one character. */
  function LowerChar(c: char): char {
    if 'A' <= c <= 'Z' then (c as int - 'A' as int + 'a' as int) as char else c
  }

  /** `strings.ToLower`, restricted to the ASCII letters. */
  function ToLower(s: string): (r: string)
    ensures |r| == |s|
    ensures forall i :: 0 <= i < |s| ==> r[i] == LowerChar(s[i])
  {
    seq(|s|, i requires 0 <= i < |s| => LowerChar(s[i]))
  }

  /** Lower-casing twice is lower-casing once. */
  lemma ToLowerIdempotent(s: string)
    ensures ToLower(ToLower(s)) == ToLower(s)
  {
  }

  /** `strings.Join(parts, sep)`. */
  function Join(parts: seq<string>, sep: string): string
    decreases |parts|
  {
    if |parts| == 0 then ""
    else if |parts| == 1 then parts[0]
    else parts[0] + sep + Join(parts[1..], sep)
  }

  /** Number of occurrences of one character. */
  function CountChar(s: string, c: char): nat
    decreases |s|
  {
    if |s| == 0 then 0 else (if s[0] == c then 1 else 0) + CountChar(s[1..], c)
  }

  /** Character counts add up over concatenation. */
  lemma {:induction false} CountCharAppend(a: string, b: string, c: char)
    ensures CountChar(a + b, c) == CountChar(a, c) + CountChar(b, c)
    decreases |a|
  {
    if |a| == 0 {
      assert a + b == b;
    } else {
      assert (a + b)[1..] == a[1..] + b;
      CountCharAppend(a[1..], b, c);
    }
  }

  /** A character is counted zero times exactly when it does not occur. */
  lemma {:induction false} CountCharZeroIffAbsent(s: string, c: char)
    ensures CountChar(s, c) == 0 <==> c !in s
    decreases |s|
  {
    if |s| > 0 {
      CountCharZeroIffAbsent(s[1..], c);
      assert s == [s[0]] + s[1..];
    }
  }

  /** `filepath.Ext(path)`: the suffix starting at the final '.' of the
      last path element, or "" when that element has no '.'. */
  function Ext(path: string): (e: string)
    ensures EndsWith(path, e)
    ensures e == "" || (e[0] == '.' && '/' !in e && '.' !in e[1..])
    decreases |path|
  {
    if |path| == 0 then ""
    else
      var c := path[|path| - 1];
      if c == '/' then ""
      else if c == '.' then "."
      else
        var e := Ext(path[..|path| - 1]);
        if e == "" then "" else e + [c]
  }

  /** The extension of a name ending in ".ext" is exactly ".ext", whatever
      precedes it. */
  lemma {:induction false} ExtOfSuffix(base: string, e: string)
    requires |e| > 0 && e[0] == '.' && '/' !in e && '.' !in e[1..]
    ensures Ext(base + e) == e
    decreases |e|
  {
    var p := base + e;
    var c := e[|e| - 1];
    assert p[|p| - 1] == c;
    if |e| == 1 {
      assert c == '.';
    } else {
      var e' := e[..|e| - 1];
      assert c in e[1..];
      assert c != '/' && c != '.';
      assert p[..|p| - 1] == base + e';
      assert e'[1..] == e[1..|e| - 1];
      ExtOfSuffix(base, e');
      assert e' + [e[|e| - 1]] == e;
    }
  }

  /** A decimal digit character. */
  predicate IsDigit(c: char) {
    '0' <= c <= '9'
  }

  function DigitValue(c: char): nat
    requires IsDigit(c)
  {
    c as int - '0' as int
  }

  /** The value of a string of decimal digits. */
  function DecimalValue(s: string): nat
    requires forall i :: 0 <= i < |s| ==> IsDigit(s[i])
    decreases |s|
  {
    if |s| == 0 then 0
    else 10 * DecimalValue(s[..|s| - 1]) + DigitValue(s[|s| - 1])
  }

  /** `fmt`'s `%d` of a natural number: shortest decimal spelling. */
  function NatToString(n: nat): (r: string)
    ensures |r| > 0 && (forall i :: 0 <= i < |r| ==> IsDigit(r[i]))
    ensures r[0] == '0' ==> r == "0"
    decreases n
  {
    if n < 10 then [('0' as int + n) as char]
    else NatToString(n / 10) + [('0' as int + n % 10) as char]
  }

  /** `%d` of any integer: a minus sign before the magnitude. */
  function IntToString(n: int): (r: string)
    ensures |r| > 0
  {
    if n < 0 then "-" + NatToString(-n) else NatToString(n)
  }

  /** Reading back the decimal spelling gives the number. */
  lemma {:induction false} NatToStringRoundTrip(n: nat)
    ensures DecimalValue(NatToString(n)) == n
    decreases n
  {
    var r := NatToString(n);
    if n >= 10 {
      NatToStringRoundTrip(n / 10);
      assert r[..|r| - 1] == NatToString(n / 10);
    }
  }

  /** Distinct numbers are spelled differently. */
  lemma IntToStringInjective(a: int, b: int)
    requires IntToString(a) == IntToString(b)
    ensures a == b
  {
    LeadingMinusIffNegative(a);
    LeadingMinusIffNegative(b);
    var ma, mb := if a < 0 then -a else a, if b < 0 then -b else b;
    assert NatToString(ma) == NatToString(mb);
    NatToStringRoundTrip(ma);
    NatToStringRoundTrip(mb);
  }

  /** The spelling starts with a minus sign exactly for negative numbers,
      and the rest spells the magnitude. */
  lemma LeadingMinusIffNegative(n: int)
    ensures IntToString(n)[0] == '-' <==> n < 0
    ensures n < 0 ==> IntToString(n)[1..] == NatToString(-n)
    ensures n >= 0 ==> IntToString(n) == NatToString(n)
  {
    if n >= 0 {
      assert IsDigit(NatToString(n)[0]);
    }
  }

}
