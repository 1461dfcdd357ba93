/** The JavaScript string operations the app relies on: `trim`, the `\s`
    class of its regular expressions, `toLowerCase`, `includes`,
    `startsWith`, the first field of `split('|')` and the decimal text of an
    integer in a template literal. */
module Text {

  /** ECMAScript WhiteSpace and LineTerminator code points: what `trim`
      removes and what `\s` matches. */
  predicate IsSpace(c: char)
  {
    || c == ' ' || ('\t' <= c <= '\r')
    || c as int == 0xA0 || c as int == 0x1680 || (0x2000 <= c as int <= 0x200A)
    || c as int == 0x2028 || c as int == 0x2029 || c as int == 0x202F
    || c as int == 0x205F || c as int == 0x3000 || c as int == 0xFEFF
  }

  predicate AllSpace(s: string)
  {
    forall k :: 0 <= k < |s| ==> IsSpace(s[k])
  }

  /** Neither end of `s` is whitespace. */
  predicate Trimmed(s: string)
  {
    s == [] || (!IsSpace(s[0]) && !IsSpace(s[|s| - 1]))
  }

  /** Drops the leading whitespace run, as a leading `\s*` does. */
  function TrimStart(s: string): string
  {
    if s != [] && IsSpace(s[0]) then TrimStart(s[1..]) else s
  }

  /** Drops the trailing whitespace run, as a trailing `\s*` does. */
  function TrimEnd(s: string): string
  {
    if s != [] && IsSpace(s[|s| - 1]) then TrimEnd(s[..|s| - 1]) else s
  }

  /** What `TrimStart` leaves is a suffix that does not start with
      whitespace, and what it drops is all whitespace. */
  lemma {:induction false} TrimStartFacts(s: string)
    ensures var r := TrimStart(s);
      && |r| <= |s| && r == s[|s| - |r|..]
      && (r == [] || !IsSpace(r[0]))
      && AllSpace(s[..|s| - |r|])
    decreases |s|
  {
    if s != [] && IsSpace(s[0]) {
      TrimStartFacts(s[1..]);
      var n := |s| - |TrimStart(s)|;
      assert s[..n] == [s[0]] + s[1..][..n - 1];
    }
  }

  /** What `TrimEnd` leaves is a prefix that does not end with
      whitespace, and what it drops is all whitespace. */
  lemma {:induction false} TrimEndFacts(s: string)
    ensures var r := TrimEnd(s);
      && |r| <= |s| && r == s[..|r|]
      && (r == [] || !IsSpace(r[|r| - 1]))
      && AllSpace(s[|r|..])
    decreases |s|
  {
    if s != [] && IsSpace(s[|s| - 1]) {
      var p := s[..|s| - 1];
      TrimEndFacts(p);
      var n := |TrimEnd(s)|;
      assert p[..n] == s[..n];
      assert s[n..] == p[n..] + [s[|s| - 1]];
    }
  }

  /** `s.trim()`: the result has no whitespace at either end. */
  function Trim(s: string): (r: string)
    ensures Trimmed(r)
  {
    var t := TrimStart(s);
    TrimStartFacts(s);
    TrimEndFacts(t);
    var r := TrimEnd(t);
    assert r != [] ==> r[0] == t[0];
    r
  }

  /** Trimming leaves nothing exactly when the text is all whitespace. */
  lemma TrimEmpty(s: string)
    ensures Trim(s) == [] <==> AllSpace(s)
  {
    var t := TrimStart(s);
    TrimStartFacts(s);
    TrimEndFacts(t);
    if Trim(s) == [] {
      assert t[0..] == t;
      assert t == [];
      assert s[..|s|] == s;
    }
    assert AllSpace(s) ==> t == [];
  }

  /** Trimming leaves a trimmed string alone. */
  lemma TrimTrimmed(s: string)
    requires Trimmed(s)
    ensures Trim(s) == s
  {
    assert s[..0] == [] && s[|s|..] == [];
  }

  /** Trimming twice is trimming once. */
  lemma TrimIdempotent(s: string)
    ensures Trim(Trim(s)) == Trim(s)
  {
    TrimTrimmed(Trim(s));
  }

  /** Leading whitespace before a non-space start is all `TrimStart` drops. */
  lemma {:induction false} TrimStartPast(ws: string, s: string)
    requires AllSpace(ws)
    requires s == [] || !IsSpace(s[0])
    ensures TrimStart(ws + s) == s
    decreases |ws|
  {
    if ws == [] {
      assert ws + s == s;
    } else {
      assert (ws + s)[1..] == ws[1..] + s;
      TrimStartPast(ws[1..], s);
    }
  }

  /** Trailing whitespace after a non-space end is all `TrimEnd` drops. */
  lemma {:induction false} TrimEndPast(s: string, ws: string)
    requires AllSpace(ws)
    requires s == [] || !IsSpace(s[|s| - 1])
    ensures TrimEnd(s + ws) == s
    decreases |ws|
  {
    if ws == [] {
      assert s + ws == s;
    } else {
      var n := |ws| - 1;
      assert (s + ws)[..|s + ws| - 1] == s + ws[..n];
      TrimEndPast(s, ws[..n]);
    }
  }

  /** Trimming removes exactly the whitespace around a trimmed core. */
  lemma TrimAround(ws1: string, core: string, ws2: string)
    requires AllSpace(ws1) && AllSpace(ws2) && Trimmed(core)
    ensures Trim(ws1 + core + ws2) == core
  {
    var s := ws1 + core + ws2;
    if core == [] {
      assert AllSpace(s);
      TrimEmpty(s);
    } else {
      assert s == ws1 + (core + ws2);
      TrimStartPast(ws1, core + ws2);
      TrimEndPast(core, ws2);
    }
  }

  predicate StartsWith(s: string, prefix: string)
  {
    |prefix| <= |s| && s[..|prefix|] == prefix
  }

  predicate EndsWith(s: string, suffix: string)
  {
    |suffix| <= |s| && s[|s| - |suffix|..] == suffix
  }

  /** `toLowerCase` on the ASCII letters; other characters are kept. */
  function LowerChar(c: char): char
  {
    if 'A' <= c <= 'Z' then (c as int + 32) as char else c
  }

  function Lower(s: string): (r: string)
    ensures |r| == |s|
  {
    seq(|s|, k requires 0 <= k < |s| => LowerChar(s[k]))
  }

  /** `s.includes(sub)`, searched left to right. */
  function Contains(s: string, sub: string): bool
    decreases |s|
  {
    if |sub| <= |s| && s[..|sub|] == sub then true
    else if s == [] then false
    else Contains(s[1..], sub)
  }

  ghost predicate OccursAt(s: string, sub: string, i: int)
  {
    0 <= i && i + |sub| <= |s| && s[i..i + |sub|] == sub
  }

  /** The search agrees with the plain definition of a substring. */
  lemma {:induction false} ContainsIffOccurs(s: string, sub: string)
    ensures Contains(s, sub) <==> exists i :: OccursAt(s, sub, i)
    decreases |s|
  {
    if |sub| <= |s| && s[..|sub|] == sub {
      assert OccursAt(s, sub, 0);
    } else if s != [] {
      ContainsIffOccurs(s[1..], sub);
      forall i | OccursAt(s[1..], sub, i) ensures OccursAt(s, sub, i + 1) {
        assert s[1..][i..i + |sub|] == s[i + 1..i + 1 + |sub|];
      }
      assert !OccursAt(s, sub, 0) by {
        if |sub| <= |s| {
          assert s[..|sub|] == s[0..|sub|];
        }
      }
      forall i | OccursAt(s, sub, i) && i > 0 ensures OccursAt(s[1..], sub, i - 1) {
        assert s[1..][i - 1..i - 1 + |sub|] == s[i..i + |sub|];
      }
    }
  }

  /** A prefix none of whose characters can begin `sub` adds no occurrence. */
  lemma {:induction false} ContainsPastPrefix(pre: string, rest: string, sub: string)
    requires |sub| > 0
    requires forall k :: 0 <= k < |pre| ==> pre[k] != sub[0]
    ensures Contains(pre + rest, sub) == Contains(rest, sub)
    decreases |pre|
  {
    if pre == [] {
      assert pre + rest == rest;
    } else {
      var s := pre + rest;
      assert s[0] == pre[0] && pre[0] != sub[0];
      assert !(|sub| <= |s| && s[..|sub|] == sub);
      assert s[1..] == pre[1..] + rest;
      assert Contains(s, sub) == Contains(s[1..], sub);
      ContainsPastPrefix(pre[1..], rest, sub);
    }
  }

  /** The text before the first `sep`: field 0 of `s.split(sep)`. */
  function FieldBefore(s: string, sep: char): string
  {
    if s == [] || s[0] == sep then [] else [s[0]] + FieldBefore(s[1..], sep)
  }

  /** The field is a prefix free of `sep`, and it stops at a `sep` or at
      the end of `s`. */
  lemma {:induction false} FieldBeforeSplits(s: string, sep: char)
    ensures var r := FieldBefore(s, sep);
      && r <= s && sep !in r
      && (|r| < |s| ==> s[|r|] == sep)
  {
    if s != [] && s[0] != sep {
      FieldBeforeSplits(s[1..], sep);
    }
  }

  /** A string without `sep` is a single field. */
  lemma FieldBeforeWhole(s: string, sep: char)
    requires sep !in s
    ensures FieldBefore(s, sep) == s
  {
    FieldBeforeSplits(s, sep);
    assert |FieldBefore(s, sep)| == |s|;
  }

  /** Splitting `a + sep + b` gives back `a` when `a` holds no `sep`. */
  lemma {:induction false} FieldBeforeJoined(a: string, sep: char, b: string)
    requires sep !in a
    ensures FieldBefore(a + [sep] + b, sep) == a
  {
    var s := a + [sep] + b;
    if a != [] {
      assert s[0] == a[0] && s[1..] == a[1..] + [sep] + b;
      FieldBeforeJoined(a[1..], sep, b);
      assert [a[0]] + a[1..] == a;
    }
  }

  predicate IsDigit(c: char)
  {
    '0' <= c <= '9'
  }

  function Digit(d: nat): (c: char)
    requires d < 10
    ensures IsDigit(c)
  {
    ('0' as int + d) as char
  }

  /** The decimal text of `n`, as `${n}` renders a non-negative integer. */
  function NatToString(n: nat): (r: string)
    ensures |r| >= 1
    ensures forall k :: 0 <= k < |r| ==> IsDigit(r[k])
  {
    if n < 10 then [Digit(n)] else NatToString(n / 10) + [Digit(n % 10)]
  }

  /** The value of a string of decimal digits. */
  function DigitsValue(s: string): nat
    requires forall k :: 0 <= k < |s| ==> IsDigit(s[k])
  {
    if s == [] then 0
    else
      assert IsDigit(s[|s| - 1]);
      DigitsValue(s[..|s| - 1]) * 10 + (s[|s| - 1] as int - '0' as int)
  }

  /** Reading the decimal text back gives the number. */
  lemma {:induction false} NatToStringRoundTrip(n: nat)
    ensures DigitsValue(NatToString(n)) == n
    decreases n
  {
    var r := NatToString(n);
    if n >= 10 {
      NatToStringRoundTrip(n / 10);
      assert r[..|r| - 1] == NatToString(n / 10);
    }
  }

  /** Distinct numbers have distinct decimal texts. */
  lemma NatToStringInjective(m: nat, n: nat)
    requires NatToString(m) == NatToString(n)
    ensures m == n
  {
    NatToStringRoundTrip(m);
    NatToStringRoundTrip(n);
  }

  /** An HTTP status code has exactly three digits. */
  lemma ThreeDigits(n: nat)
    requires 100 <= n <= 999
    ensures NatToString(n) == [Digit(n / 100), Digit(n / 10 % 10), Digit(n % 10)]
  {
    assert n / 10 / 10 == n / 100 && n / 100 < 10 && n / 10 >= 10;
    assert NatToString(n / 10) == NatToString(n / 100) + [Digit(n / 10 % 10)];
  }
}
