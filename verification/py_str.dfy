/** Python's `str.strip()`, `str.split(sep)` and `sep.join(...)` on code-point
    strings, and the decimal text of an int. */
module PyStr {
  import opened Wrappers

  /** Python's `str.isspace()` for one character: the ASCII whitespace and
      separator controls plus the Unicode space separators. */
  predicate IsSpace(c: char) {
    || '\U{9}' <= c <= '\U{D}'
    || '\U{1C}' <= c <= '\U{20}'
    || c == '\U{85}' || c == '\U{A0}' || c == '\U{1680}'
    || '\U{2000}' <= c <= '\U{200A}'
    || c == '\U{2028}' || c == '\U{2029}' || c == '\U{202F}' || c == '\U{205F}' || c == '\U{3000}'
  }

  /** The string has no whitespace at either end. */
  predicate Trimmed(s: string) {
    |s| == 0 || (!IsSpace(s[0]) && !IsSpace(s[|s| - 1]))
  }

  /** `t` is `s` with some whitespace, and only whitespace, removed at its ends. */
  ghost predicate CutFrom(t: string, s: string) {
    exists i, j :: CutAt(t, s, i, j)
  }

  /** `t` is `s[i..j]`, and everything outside is whitespace. */
  predicate CutAt(t: string, s: string, i: int, j: int) {
    && 0 <= i <= j <= |s| && t == s[i..j]
    && (forall k :: 0 <= k < i ==> IsSpace(s[k]))
    && (forall k :: j <= k < |s| ==> IsSpace(s[k]))
  }

  /** Where the text of `s` starts, looking from `i` on: the first position
      that is not whitespace, or the end. */
  function Start(s: string, i: nat): (a: nat)
    requires i <= |s|
    ensures i <= a <= |s|
    ensures forall k :: i <= k < a ==> IsSpace(s[k])
    ensures a == |s| || !IsSpace(s[a])
    decreases |s| - i
  {
    if i < |s| && IsSpace(s[i]) then Start(s, i + 1) else i
  }

  /** Where the text of `s[a..j]` ends: the position after its last
      character that is not whitespace, or `a`. */
  function End(s: string, a: nat, j: nat): (b: nat)
    requires a <= j <= |s|
    ensures a <= b <= j
    ensures forall k :: b <= k < j ==> IsSpace(s[k])
    ensures b == a || !IsSpace(s[b - 1])
  {
    if a < j && IsSpace(s[j - 1]) then End(s, a, j - 1) else j
  }

  /** Python's `s.strip()`: the result has no outer whitespace and is `s`
      with only outer whitespace removed. */
  function Strip(s: string): (r: string)
    ensures Trimmed(r)
    ensures CutFrom(r, s)
  {
    var a := Start(s, 0);
    var b := End(s, a, |s|);
    assert CutAt(s[a..b], s, a, b);
    s[a..b]
  }

  /** Stripping a string without outer whitespace changes nothing. */
  lemma StripTrimmed(s: string)
    requires Trimmed(s)
    ensures Strip(s) == s
  {
    if |s| > 0 {
      assert !IsSpace(s[0]) && !IsSpace(s[|s| - 1]);
      assert Start(s, 0) == 0;
      assert End(s, 0, |s|) == |s|;
    }
    assert s[0..|s|] == s;
  }

  /** Stripping only removes characters. */
  lemma StripKeepsOut(s: string, c: char)
    requires c !in s
    ensures c !in Strip(s)
  {
    var i, j :| CutAt(Strip(s), s, i, j);
  }

  /** Python's `sep.join(xs)` for a one-character separator. */
  function Join(xs: seq<string>, sep: char): string {
    if |xs| == 0 then ""
    else if |xs| == 1 then xs[0]
    else xs[0] + [sep] + Join(xs[1..], sep)
  }

  /** Python's `s.split(sep)` for a one-character separator: the pieces
      between separators, always at least one. Joining them back with the
      separator gives `s`, and no piece contains the separator. */
  function Split(s: string, sep: char): (r: seq<string>)
    ensures |r| >= 1
    ensures forall i :: 0 <= i < |r| ==> sep !in r[i]
    ensures Join(r, sep) == s
  {
    if |s| == 0 then [""]
    else
      var rest := Split(s[1..], sep);
      if s[0] == sep then
        assert [sep] + s[1..] == s;
        [""] + rest
      else
        var r := [[s[0]] + rest[0]] + rest[1..];
        assert Join(r, sep) == [s[0]] + Join(rest, sep) by {
          if |rest| > 1 {
            assert r[1..] == rest[1..];
          }
        }
        assert [s[0]] + s[1..] == s;
        r
  }

  /** Pieces without the separator are determined by their join. */
  lemma {:induction false} JoinInjective(a: seq<string>, b: seq<string>, sep: char)
    requires |a| >= 1 && |b| >= 1
    requires forall i :: 0 <= i < |a| ==> sep !in a[i]
    requires forall i :: 0 <= i < |b| ==> sep !in b[i]
    requires Join(a, sep) == Join(b, sep)
    ensures a == b
    decreases |a|
  {
    var j := Join(a, sep);
    JoinHead(a, sep);
    JoinHead(b, sep);
    // the first pieces end at the first separator of the join
    assert |a[0]| == |b[0]|;
    assert a[0] == j[..|a[0]|] == b[0];
    if |a| > 1 && |b| > 1 {
      assert Join(a[1..], sep) == j[|a[0]| + 1..] == Join(b[1..], sep);
      JoinInjective(a[1..], b[1..], sep);
      assert a == [a[0]] + a[1..];
      assert b == [b[0]] + b[1..];
    }
  }

  /** How a join starts: the first piece, then a separator if more follow. */
  lemma JoinHead(a: seq<string>, sep: char)
    requires |a| >= 1
    ensures |Join(a, sep)| >= |a[0]|
    ensures Join(a, sep)[..|a[0]|] == a[0]
    ensures |a| == 1 ==> Join(a, sep) == a[0]
    ensures |a| > 1 ==>
              (|Join(a, sep)| > |a[0]| && Join(a, sep)[|a[0]|] == sep
               && Join(a, sep)[|a[0]| + 1..] == Join(a[1..], sep))
  {
  }

  /** Splitting a join gives back the pieces, when no piece holds the
      separator. */
  lemma SplitJoin(xs: seq<string>, sep: char)
    requires |xs| >= 1
    requires forall i :: 0 <= i < |xs| ==> sep !in xs[i]
    ensures Split(Join(xs, sep), sep) == xs
  {
    JoinInjective(Split(Join(xs, sep), sep), xs, sep);
  }

  /** Joining two runs of pieces puts one separator between their joins. */
  lemma {:induction false} JoinAppend(x: seq<string>, y: seq<string>, sep: char)
    requires |x| >= 1 && |y| >= 1
    ensures Join(x + y, sep) == Join(x, sep) + [sep] + Join(y, sep)
    decreases |x|
  {
    if |x| > 1 {
      assert (x + y)[1..] == x[1..] + y;
      JoinAppend(x[1..], y, sep);
    } else {
      assert (x + y)[1..] == y;
    }
  }

  /** Splitting at a separator splits the two sides apart. */
  lemma SplitAt(a: string, b: string, sep: char)
    ensures Split(a + [sep] + b, sep) == Split(a, sep) + Split(b, sep)
  {
    var x, y := Split(a, sep), Split(b, sep);
    JoinAppend(x, y, sep);
    JoinInjective(Split(a + [sep] + b, sep), x + y, sep);
  }

  /** The decimal digit `d` as a character. */
  function DigitChar(d: nat): (c: char)
    requires d < 10
    ensures '0' <= c <= '9' && c as int - '0' as int == d
  {
    ('0' as int + d) as char
  }

  predicate AllDigits(s: string) {
    forall k :: 0 <= k < |s| ==> '0' <= s[k] <= '9'
  }

  /** `str(n)` for `n >= 0`: its decimal digits, without a leading zero. */
  function NatText(n: nat): (s: string)
    ensures |s| >= 1 && AllDigits(s)
    ensures |s| > 1 ==> s[0] != '0'
    decreases n
  {
    if n < 10 then [DigitChar(n)] else NatText(n / 10) + [DigitChar(n % 10)]
  }

  /** The number a string of decimal digits denotes. */
  function DigitsValue(s: string): nat
    requires AllDigits(s)
  {
    if |s| == 0 then 0 else DigitsValue(s[..|s| - 1]) * 10 + (s[|s| - 1] as int - '0' as int)
  }

  /** `str(n)`: a minus sign before the digits of a negative int. */
  function IntText(n: int): (s: string)
    ensures |s| >= 1 && (s[0] == '-' <==> n < 0)
  {
    if n < 0 then "-" + NatText(-n) else NatText(n)
  }

  /** `int(s)` on the texts `str` gives ints: an optional minus sign and
      at least one digit; `None` for anything else. */
  function IntValue(s: string): (r: Option<int>)
    ensures r.Some? ==> |s| >= 1
  {
    if |s| >= 2 && s[0] == '-' && AllDigits(s[1..]) then Some(-(DigitsValue(s[1..]) as int))
    else if |s| >= 1 && AllDigits(s) then Some(DigitsValue(s))
    else None
  }

  lemma {:induction false} NatTextRoundTrip(n: nat)
    ensures DigitsValue(NatText(n)) == n
    decreases n
  {
    if n >= 10 {
      NatTextRoundTrip(n / 10);
      var s := NatText(n);
      assert s[..|s| - 1] == NatText(n / 10);
    }
  }

  /** Reading back the decimal text of an int gives the int. */
  lemma IntTextRoundTrip(n: int)
    ensures IntValue(IntText(n)) == Some(n)
  {
    if n < 0 {
      NegTextValue(-n);
    } else {
      NatTextValue(n);
    }
  }

  lemma NatTextValue(n: nat)
    ensures IntValue(NatText(n)) == Some(n)
  {
    var t := NatText(n);
    assert '0' <= t[0] <= '9';
    NatTextRoundTrip(n);
  }

  lemma NegTextValue(m: nat)
    requires m > 0
    ensures IntValue("-" + NatText(m)) == Some(-(m as int))
  {
    var t := NatText(m);
    var s := "-" + t;
    assert s[0] == '-' && s[1..] == t;
    NatTextRoundTrip(m);
  }

  /** Different ints have different texts. */
  lemma IntTextInjective(a: int, b: int)
    requires IntText(a) == IntText(b)
    ensures a == b
  {
    IntTextRoundTrip(a);
    IntTextRoundTrip(b);
  }

  /** `str.lower()` on ASCII: 'A' to 'Z' lowered, every other character
      kept. */
  function AsciiLower(s: string): (r: string)
    ensures |r| == |s|
    ensures forall k :: 0 <= k < |s| && !('A' <= s[k] <= 'Z') ==> r[k] == s[k]
    ensures forall k :: 0 <= k < |r| ==> !('A' <= r[k] <= 'Z')
  {
    seq(|s|, k requires 0 <= k < |s| => if 'A' <= s[k] <= 'Z' then (s[k] as int + 32) as char else s[k])
  }
}
