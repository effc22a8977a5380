/** String operations the handlers rely on, with Python's meaning:
    `in` on strings, `startswith`/`endswith`, `strip`, `split`, `int(str)`,
    `str(int)` and the code-point order used when sorting strings. */
module Text {

  import opened Wrappers

  /** The characters for which Python's `str.isspace()` holds: what
      `str.strip()` with no argument removes. */
  const Whitespace: set<char> :=
    {'\U{20}', '\U{9}', '\U{A}', '\U{D}', '\U{B}', '\U{C}', '\U{1C}', '\U{1D}',
     '\U{1E}', '\U{1F}', '\U{85}', '\U{A0}', '\U{1680}', '\U{2000}', '\U{2001}', '\U{2002}',
     '\U{2003}', '\U{2004}', '\U{2005}', '\U{2006}', '\U{2007}', '\U{2008}', '\U{2009}', '\U{200A}',
     '\U{2028}', '\U{2029}', '\U{202F}', '\U{205F}', '\U{3000}'}

  predicate StartsWith(s: string, prefix: string) {
    |prefix| <= |s| && s[..|prefix|] == prefix
  }

  predicate EndsWith(s: string, suffix: string) {
    |suffix| <= |s| && s[|s| - |suffix|..] == suffix
  }

  /** Python's `sub in s` for strings. */
  predicate Contains(s: string, sub: string)
    decreases |s|
  {
    StartsWith(s, sub) || (|s| > 0 && Contains(s[1..], sub))
  }

  /** `sub` occurs in `s` starting at offset `i`. */
  predicate OccursAt(s: string, sub: string, i: nat) {
    i + |sub| <= |s| && s[i..i + |sub|] == sub
  }

  lemma {:induction false} ContainsAt(s: string, sub: string, i: nat)
    requires OccursAt(s, sub, i)
    ensures Contains(s, sub)
    decreases i
  {
    if i > 0 {
      assert s[1..][i - 1..i - 1 + |sub|] == s[i..i + |sub|];
      ContainsAt(s[1..], sub, i - 1);
    }
  }

  /** `Contains` holds exactly when `sub` occurs at some offset. */
  lemma {:induction false} ContainsIffOccurs(s: string, sub: string)
    ensures Contains(s, sub) <==> exists i: nat :: OccursAt(s, sub, i)
    decreases |s|
  {
    if Contains(s, sub) {
      if StartsWith(s, sub) {
        assert OccursAt(s, sub, 0);
      } else {
        ContainsIffOccurs(s[1..], sub);
        var i: nat :| OccursAt(s[1..], sub, i);
        assert s[i + 1..i + 1 + |sub|] == s[1..][i..i + |sub|];
        assert OccursAt(s, sub, i + 1);
      }
    }
    if exists i: nat :: OccursAt(s, sub, i) {
      var i: nat :| OccursAt(s, sub, i);
      ContainsAt(s, sub, i);
    }
  }

  /** A string lacking the first character of `sub` does not contain it. */
  lemma {:induction false} MissingFirstChar(s: string, sub: string)
    requires |sub| > 0 && sub[0] !in s
    ensures !Contains(s, sub)
    decreases |s|
  {
    if |s| > 0 {
      assert s[0] in s;
      assert forall c :: c in s[1..] ==> c in s;
      MissingFirstChar(s[1..], sub);
    }
  }

  /** An occurrence in `x + y` lies within `x` or within `y` when a
      character `sub` lacks sits at the seam: last in `x` or first in `y`. */
  lemma ContainsAcross(x: string, y: string, sub: string, c: char)
    requires c !in sub
    requires (|x| > 0 && x[|x| - 1] == c) || (|y| > 0 && y[0] == c)
    requires Contains(x + y, sub)
    ensures Contains(x, sub) || Contains(y, sub)
  {
    var s := x + y;
    ContainsIffOccurs(s, sub);
    var i: nat :| OccursAt(s, sub, i);
    if i + |sub| <= |x| {
      assert x[i..i + |sub|] == s[i..i + |sub|];
      ContainsAt(x, sub, i);
    } else if i >= |x| {
      assert y[i - |x|..i - |x| + |sub|] == s[i..i + |sub|];
      ContainsAt(y, sub, i - |x|);
    } else if |x| > 0 && x[|x| - 1] == c {
      OccurrenceCovers(s, sub, i, |x| - 1);
    } else {
      OccurrenceCovers(s, sub, i, |x|);
    }
  }

  /** An occurrence in `m` is an occurrence in `x + m + y`. */
  lemma ContainsInfix(x: string, m: string, y: string, sub: string)
    requires Contains(m, sub)
    ensures Contains(x + m + y, sub)
  {
    ContainsIffOccurs(m, sub);
    var i: nat :| OccursAt(m, sub, i);
    var s := x + m + y;
    assert s[|x| + i..|x| + i + |sub|] == m[i..i + |sub|];
    ContainsAt(s, sub, |x| + i);
  }

  /** `m` framed by a prefix and a suffix that lack the first character of
      `sub`, with a character `sub` lacks on both seams, contains `sub`
      exactly when `m` does: the frame neither adds nor hides a match. */
  lemma ContainsFramed(x: string, m: string, y: string, sub: string, c: char)
    requires |sub| > 0 && c !in sub && sub[0] !in x && sub[0] !in y
    requires |x| > 0 && x[|x| - 1] == c && |y| > 0 && y[0] == c
    ensures Contains(x + m + y, sub) <==> Contains(m, sub)
  {
    if Contains(x + m + y, sub) {
      ContainsAcross(x + m, y, sub, c);
      MissingFirstChar(y, sub);
      if Contains(x + m, sub) {
        ContainsAcross(x, m, sub, c);
        MissingFirstChar(x, sub);
      }
    }
    if Contains(m, sub) {
      ContainsInfix(x, m, y, sub);
    }
  }

  /** Every character an occurrence covers is a character of `sub`. */
  lemma OccurrenceCovers(s: string, sub: string, i: nat, j: nat)
    requires OccursAt(s, sub, i) && i <= j < i + |sub|
    ensures s[j] in sub
  {
    assert s[j] == sub[j - i];
  }

  /** `s` with the leading characters drawn from `cs` removed. */
  function StripLeft(s: string, cs: set<char>): (r: string)
    ensures |r| <= |s| && r == s[|s| - |r|..]
    ensures |r| > 0 ==> r[0] !in cs
    ensures forall i :: 0 <= i < |s| - |r| ==> s[i] in cs
  {
    if |s| > 0 && s[0] in cs then StripLeft(s[1..], cs) else s
  }

  /** `s` with the trailing characters drawn from `cs` removed. */
  function StripRight(s: string, cs: set<char>): (r: string)
    ensures |r| <= |s| && r == s[..|r|]
    ensures |r| > 0 ==> r[|r| - 1] !in cs
    ensures forall i :: |r| <= i < |s| ==> s[i] in cs
  {
    if |s| > 0 && s[|s| - 1] in cs then StripRight(s[..|s| - 1], cs) else s
  }

  /** A string that does not start with a character of `cs` keeps its
      front. */
  lemma StripLeftKeeps(s: string, cs: set<char>)
    requires |s| > 0 && s[0] !in cs
    ensures StripLeft(s, cs) == s
  {
  }

  /** A string that does not end with a character of `cs` keeps its end. */
  lemma StripRightKeeps(s: string, cs: set<char>)
    requires |s| > 0 && s[|s| - 1] !in cs
    ensures StripRight(s, cs) == s
  {
  }

  /** Python's `s.strip(chars)`: both ends trimmed; the result is a slice of
      `s` that neither starts nor ends with a character of `cs`. */
  function Strip(s: string, cs: set<char>): (r: string)
    ensures exists i: nat :: OccursAt(s, r, i)
    ensures |r| > 0 ==> r[0] !in cs && r[|r| - 1] !in cs
    ensures (forall i :: 0 <= i < |s| ==> s[i] in cs) <==> r == []
  {
    var l := StripLeft(s, cs);
    var r := StripRight(l, cs);
    assert l[..|r|] == s[|s| - |l|..|s| - |l| + |r|];
    assert OccursAt(s, r, |s| - |l|);
    r
  }

  /** Joining the parts of a split with the separator. */
  function Join(parts: seq<string>, sep: char): string {
    if |parts| == 0 then ""
    else if |parts| == 1 then parts[0]
    else parts[0] + [sep] + Join(parts[1..], sep)
  }

  function IndexOf(s: string, c: char): (i: nat)
    requires c in s
    ensures i < |s| && s[i] == c && c !in s[..i]
  {
    if s[0] == c then 0 else
      assert c in s[1..];
      var j := IndexOf(s[1..], c);
      assert s[..j + 1] == [s[0]] + s[1..][..j];
      j + 1
  }

  /** Python's `s.split(sep)` for a one-character separator: never empty, no
      part contains the separator, and joining the parts gives `s` back. */
  function Split(s: string, sep: char): (parts: seq<string>)
    ensures |parts| >= 1
    ensures forall k :: 0 <= k < |parts| ==> sep !in parts[k]
    ensures Join(parts, sep) == s
    decreases |s|
  {
    if sep !in s then [s]
    else
      var i := IndexOf(s, sep);
      var rest := Split(s[i + 1..], sep);
      assert s == s[..i] + [sep] + s[i + 1..];
      [s[..i]] + rest
  }

  /** The first separator of `x + [sep] + y`, for a separator-free `x`,
      is the one after `x`. */
  lemma IndexAfter(x: string, sep: char, y: string)
    requires sep !in x
    ensures sep in x + [sep] + y
    ensures IndexOf(x + [sep] + y, sep) == |x|
    ensures (x + [sep] + y)[|x| + 1..] == y
  {
    var s := x + [sep] + y;
    assert s[|x|] == sep;
    assert s[..|x|] == x;
  }

  /** Splitting a join of separator-free parts recovers the parts. */
  lemma {:induction false} SplitJoin(parts: seq<string>, sep: char)
    requires |parts| >= 1
    requires forall k :: 0 <= k < |parts| ==> sep !in parts[k]
    ensures Split(Join(parts, sep), sep) == parts
    decreases |parts|
  {
    if |parts| > 1 {
      var rest := Join(parts[1..], sep);
      var s := Join(parts, sep);
      assert s == parts[0] + [sep] + rest;
      IndexAfter(parts[0], sep, rest);
      assert s[..|parts[0]|] == parts[0];
      SplitJoin(parts[1..], sep);
      assert Split(s, sep) == [parts[0]] + Split(rest, sep);
      assert parts == [parts[0]] + parts[1..];
    }
  }

  predicate IsDigit(c: char) {
    '0' <= c <= '9'
  }

  function DigitValue(c: char): nat
    requires IsDigit(c)
  {
    (c as int - '0' as int) as nat
  }

  function DigitChar(d: nat): (c: char)
    requires d < 10
    ensures IsDigit(c) && DigitValue(c) == d
  {
    ('0' as int + d) as char
  }

  predicate AllDigits(s: string) {
    forall i :: 0 <= i < |s| ==> IsDigit(s[i])
  }

  /** The number a run of decimal digits denotes. */
  function DigitsValue(s: string): nat
    requires AllDigits(s)
  {
    if |s| == 0 then 0 else DigitsValue(s[..|s| - 1]) * 10 + DigitValue(s[|s| - 1])
  }

  /** Python's `str(n)` for a natural number. */
  function NatToString(n: nat): (s: string)
    ensures |s| >= 1 && AllDigits(s)
    ensures |s| > 1 ==> s[0] != '0'
  {
    if n < 10 then [DigitChar(n)] else NatToString(n / 10) + [DigitChar(n % 10)]
  }

  lemma {:induction false} NatToStringValue(n: nat)
    ensures DigitsValue(NatToString(n)) == n
  {
    if n >= 10 {
      var s := NatToString(n);
      assert s[..|s| - 1] == NatToString(n / 10);
      NatToStringValue(n / 10);
    }
  }

  /** Python's `int(s)` on a string: surrounding whitespace, an optional
      sign and at least one decimal digit; anything else raises, which is
      `None` here. */
  function ParseInt(s: string): Option<int>
  {
    var t := Strip(s, Whitespace);
    if |t| >= 2 && (t[0] == '+' || t[0] == '-') && AllDigits(t[1..]) then
      var v: int := DigitsValue(t[1..]);
      Some(if t[0] == '-' then -v else v)
    else if |t| >= 1 && AllDigits(t) then Some(DigitsValue(t))
    else None
  }

  /** `int(str(n)) == n`. */
  lemma ParseNatToString(n: nat)
    ensures ParseInt(NatToString(n)) == Some(n)
  {
    var s := NatToString(n);
    assert s[0] !in Whitespace;
    assert s[|s| - 1] !in Whitespace;
    assert StripLeft(s, Whitespace) == s;
    assert StripRight(s, Whitespace) == s;
    NatToStringValue(n);
  }

  /** Python's `a <= b` on strings: code-point lexicographic order. */
  predicate LexLe(a: string, b: string)
    decreases |a|
  {
    if |a| == 0 then true
    else if |b| == 0 then false
    else if a[0] != b[0] then a[0] < b[0]
    else LexLe(a[1..], b[1..])
  }

  lemma {:induction false} LexLeTotal(a: string, b: string)
    ensures LexLe(a, b) || LexLe(b, a)
    decreases |a|
  {
    if |a| > 0 && |b| > 0 && a[0] == b[0] {
      LexLeTotal(a[1..], b[1..]);
    }
  }

  lemma {:induction false} LexLeTransitive(a: string, b: string, c: string)
    requires LexLe(a, b) && LexLe(b, c)
    ensures LexLe(a, c)
    decreases |a|
  {
    if |a| > 0 && |b| > 0 && |c| > 0 && a[0] == b[0] && b[0] == c[0] {
      LexLeTransitive(a[1..], b[1..], c[1..]);
    }
  }

  lemma {:induction false} LexLeAntisymmetric(a: string, b: string)
    requires LexLe(a, b) && LexLe(b, a)
    ensures a == b
    decreases |a|
  {
    if |a| > 0 && |b| > 0 {
      LexLeAntisymmetric(a[1..], b[1..]);
      assert a == [a[0]] + a[1..];
      assert b == [b[0]] + b[1..];
    }
  }

  /** Python's `int(x)` on a number with a fraction: truncation toward
      zero. */
  function Trunc(x: real): (n: int)
    ensures x >= 0.0 ==> n >= 0 && n as real <= x < n as real + 1.0
    ensures x < 0.0 ==> n <= 0 && n as real - 1.0 < x <= n as real
  {
    if x >= 0.0 then x.Floor else -((-x).Floor)
  }

  /** Truncation keeps a whole number and undoes a negation. */
  lemma TruncProperties(i: int, x: real)
    ensures Trunc(i as real) == i
    ensures Trunc(-x) == -Trunc(x)
  {
  }
}
