/** The string operations the pages rely on, over sequences of characters:
    prefix test, substring search, ASCII lower-casing, splitting at the
    first occurrence of a separator, the ordering used for sorting, and
    decimal rendering of naturals. */
module Text {
  import opened Types

  /** JavaScript truthiness of an optional string. */
  predicate Truthy(o: Option<string>)
  {
    o.Some? && o.value != ""
  }

  /** JavaScript `o || fallback` for an optional string. */
  function OrElse(o: Option<string>, fallback: string): string
  {
    if Truthy(o) then o.value else fallback
  }

  /** JavaScript `s.startsWith(p)`. */
  predicate StartsWith(s: string, p: string)
  {
    |p| <= |s| && s[..|p|] == p
  }

  /** JavaScript `hay.includes(needle)`: the needle occurs at some position. */
  predicate Contains(hay: string, needle: string)
  {
    exists i :: 0 <= i <= |hay| - |needle| && StartsWith(hay[i..], needle)
  }

  lemma EmptyIsContained(hay: string)
    ensures Contains(hay, "")
  {
    assert StartsWith(hay[0..], "");
  }

  /** Lower-cases the ASCII capitals and leaves every other character alone. */
  function LowerChar(c: char): (d: char)
    ensures 'A' <= c <= 'Z' ==> 'a' <= d <= 'z' && d as int - c as int == 32
    ensures !('A' <= c <= 'Z') ==> d == c
  {
    if 'A' <= c <= 'Z' then (c as int + 32) as char else c
  }

  /** JavaScript `s.toLowerCase()`, restricted to the ASCII letters. */
  function Lower(s: string): (r: string)
    ensures |r| == |s|
    ensures forall i :: 0 <= i < |s| ==> r[i] == LowerChar(s[i])
  {
    seq(|s|, i requires 0 <= i < |s| => LowerChar(s[i]))
  }

  /** JavaScript `s.split(c)[0]`: the text before the first `c`, or all of
      `s` when there is none. */
  function Before(s: string, c: char): (r: string)
    ensures StartsWith(s, r)
    ensures c !in r
    ensures |r| < |s| ==> s[|r|] == c
  {
    if |s| == 0 || s[0] == c then ""
    else [s[0]] + Before(s[1..], c)
  }

  /** Text free of the separator passes through `Before` unchanged. */
  lemma {:induction false} BeforeConcat(a: string, b: string, c: char)
    requires c !in a
    ensures Before(a + b, c) == a + Before(b, c)
  {
    if |a| > 0 {
      assert (a + b)[1..] == a[1..] + b;
      BeforeConcat(a[1..], b, c);
      assert [a[0]] + (a[1..] + Before(b, c)) == a + Before(b, c);
    } else {
      assert a + b == b;
    }
  }

  lemma BeforeSeparator(a: string, b: string, c: char)
    requires c !in a
    ensures Before(a + [c] + b, c) == a
  {
    BeforeConcat(a, [c] + b, c);
    assert a + [c] + b == a + ([c] + b);
  }

  /** The text after the first `c`; `None` when `s` has no `c`. */
  function AfterFirst(s: string, c: char): (r: Option<string>)
    ensures r.None? <==> c !in s
    ensures r.Some? ==> s == Before(s, c) + [c] + r.value
  {
    var b := Before(s, c);
    if |b| == |s| then
      assert s == b;
      None
    else
      assert s == b + [c] + s[|b| + 1..];
      Some(s[|b| + 1..])
  }

  /** JavaScript `s.split(c)[1]`: the text between the first and second `c`
      (or the end). `None` stands for the `undefined` of a string with no `c`. */
  function SecondField(s: string, c: char): (r: Option<string>)
    ensures r.None? <==> c !in s
    ensures r.Some? ==> c !in r.value && Contains(s, [c] + r.value)
    ensures r.Some? ==>
      var rest := AfterFirst(s, c).value;
      StartsWith(rest, r.value) && (|r.value| < |rest| ==> rest[|r.value|] == c)
  {
    match AfterFirst(s, c)
    case None => None
    case Some(rest) =>
      var b := Before(s, c);
      var f := Before(rest, c);
      assert s[|b|..] == [c] + rest;
      assert rest[..|f|] == f;
      assert ([c] + rest)[..|f| + 1] == [c] + f;
      assert StartsWith(s[|b|..], [c] + f);
      Some(f)
  }

  /** A `date T time` stamp splits back into its two halves. */
  lemma SplitStamp(date: string, time: string)
    requires 'T' !in date && 'T' !in time
    ensures Before(date + "T" + time, 'T') == date
    ensures SecondField(date + "T" + time, 'T') == Some(time)
  {
    BeforeSeparator(date, time, 'T');
    assert AfterFirst(date + "T" + time, 'T') == Some(time);
    BeforeConcat(time, [], 'T');
    assert time + [] == time;
  }

  /** With several separators, `split(c)[1]` is the field between the first
      and the second one: `aTbTc` yields `b`. */
  lemma SecondFieldOfThree(a: string, b: string, rest: string, c: char)
    requires c !in a && c !in b
    ensures SecondField(a + [c] + b + [c] + rest, c) == Some(b)
  {
    var s := a + [c] + b + [c] + rest;
    assert s == a + [c] + (b + [c] + rest);
    BeforeSeparator(a, b + [c] + rest, c);
    assert AfterFirst(s, c) == Some(b + [c] + rest);
    BeforeSeparator(b, rest, c);
  }

  /** Strict lexicographic order on code points; the model of
      `localeCompare` for the ISO-like timestamps and hour labels compared. */
  predicate LexLess(a: string, b: string)
    decreases |a|
  {
    if |a| == 0 then |b| > 0
    else |b| > 0 && (a[0] < b[0] || (a[0] == b[0] && LexLess(a[1..], b[1..])))
  }

  lemma {:induction false} LexLessIrreflexive(a: string)
    ensures !LexLess(a, a)
    decreases |a|
  {
    if |a| > 0 {
      LexLessIrreflexive(a[1..]);
    }
  }

  lemma {:induction false} LexLessTransitive(a: string, b: string, c: string)
    requires LexLess(a, b) && LexLess(b, c)
    ensures LexLess(a, c)
    decreases |a|
  {
    if |a| > 0 && a[0] == b[0] && b[0] == c[0] {
      LexLessTransitive(a[1..], b[1..], c[1..]);
    }
  }

  /** Two different strings are always ordered one way or the other. */
  lemma {:induction false} LexLessTotal(a: string, b: string)
    requires a != b
    ensures LexLess(a, b) || LexLess(b, a)
    decreases |a|
  {
    if |a| > 0 && |b| > 0 && a[0] == b[0] {
      assert a == [a[0]] + a[1..] && b == [b[0]] + b[1..];
      LexLessTotal(a[1..], b[1..]);
    }
  }

  lemma {:induction false} LexLessAsymmetric(a: string, b: string)
    requires LexLess(a, b)
    ensures !LexLess(b, a)
  {
    if LexLess(b, a) {
      LexLessTransitive(a, b, a);
      LexLessIrreflexive(a);
    }
  }

  function DigitChar(d: nat): (c: char)
    requires d < 10
    ensures '0' <= c <= '9'
  {
    ('0' as int + d) as char
  }

  /** JavaScript `String(n)` for a natural number. */
  function NatToString(n: nat): (r: string)
    ensures |r| >= 1
    ensures forall i :: 0 <= i < |r| ==> '0' <= r[i] <= '9'
    ensures n < 10 <==> |r| == 1
    decreases n
  {
    if n < 10 then [DigitChar(n)] else NatToString(n / 10) + [DigitChar(n % 10)]
  }

  /** The number a string of decimal digits denotes. */
  function DecimalValue(s: string): nat
    requires forall i :: 0 <= i < |s| ==> '0' <= s[i] <= '9'
  {
    if |s| == 0 then 0
    else DecimalValue(s[..|s| - 1]) * 10 + (s[|s| - 1] as int - '0' as int)
  }

  /** Rendering a natural in decimal loses nothing. */
  lemma {:induction false} NatToStringRoundTrip(n: nat)
    ensures DecimalValue(NatToString(n)) == n
    decreases n
  {
    if n >= 10 {
      var s := NatToString(n);
      assert s[..|s| - 1] == NatToString(n / 10);
      NatToStringRoundTrip(n / 10);
    }
  }

  lemma NatToStringInjective(m: nat, n: nat)
    requires NatToString(m) == NatToString(n)
    ensures m == n
  {
    NatToStringRoundTrip(m);
    NatToStringRoundTrip(n);
  }

  /** An id of the form `prefix` followed by a number in decimal, as in
      `log-${Date.now()}`. */
  function NumberedId(prefix: string, n: nat): (r: string)
    ensures StartsWith(r, prefix) && |r| > |prefix|
    ensures r[|prefix|..] == NatToString(n)
  {
    prefix + NatToString(n)
  }

  /** Different numbers give different ids under the same prefix. */
  lemma NumberedIdInjective(prefix: string, m: nat, n: nat)
    requires NumberedId(prefix, m) == NumberedId(prefix, n)
    ensures m == n
  {
    assert NumberedId(prefix, m)[|prefix|..] == NatToString(m);
    NatToStringInjective(m, n);
  }

  /** JavaScript `s.padStart(2, '0')`. */
  function PadStart2(s: string): (r: string)
    ensures |r| == if |s| < 2 then 2 else |s|
    ensures r[|r| - |s|..] == s
    ensures forall i :: 0 <= i < |r| - |s| ==> r[i] == '0'
  {
    if |s| >= 2 then s else seq(2 - |s|, _ => '0') + s
  }
}
