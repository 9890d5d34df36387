/**
 * The handful of Python `str` operations the bot relies on: `strip`,
 * `split(sep)`, `split(sep, 1)`, `sep.join`, `in`, `startswith`, `str(int)`
 * and `int(str)`, written out over `seq<char>`.
 */
module Strings {
  import opened Basics

  // ---------------------------------------------------------------------------
  // Whitespace and strip()

  /** The characters for which Python's `str.isspace()` holds. */
  predicate IsSpace(c: char)
  {
    c == ' ' || ('\t' <= c <= '\r') || ('\U{1C}' <= c <= '\U{1F}') ||
    c == '\U{85}' || c == '\U{A0}' || c == '\U{1680}' ||
    ('\U{2000}' <= c <= '\U{200A}') || c == '\U{2028}' || c == '\U{2029}' ||
    c == '\U{202F}' || c == '\U{205F}' || c == '\U{3000}'
  }

  predicate AllSpace(s: string)
  {
    forall i :: 0 <= i < |s| ==> IsSpace(s[i])
  }

  /** `s.lstrip()`: the longest all-whitespace prefix is removed. */
  function TrimStart(s: string): (r: string)
    ensures |r| <= |s| && r == s[|s| - |r|..]
    ensures r == [] || !IsSpace(r[0])
    ensures AllSpace(s[..|s| - |r|])
  {
    if |s| > 0 && IsSpace(s[0]) then TrimStart(s[1..]) else s
  }

  /** `s.rstrip()`: the longest all-whitespace suffix is removed. */
  function TrimEnd(s: string): (r: string)
    ensures |r| <= |s| && r == s[..|r|]
    ensures r == [] || !IsSpace(r[|r| - 1])
    ensures AllSpace(s[|r|..])
  {
    if |s| > 0 && IsSpace(s[|s| - 1]) then
      var r := TrimEnd(s[..|s| - 1]);
      SpaceSuffixGrows(s, |r|);
      r
    else s
  }

  /** A whitespace suffix of `s` without its last character, followed by that whitespace character. */
  lemma SpaceSuffixGrows(s: string, k: nat)
    requires 0 < |s| && k <= |s| - 1 && IsSpace(s[|s| - 1]) && AllSpace(s[..|s| - 1][k..])
    ensures s[..|s| - 1][..k] == s[..k] && AllSpace(s[k..])
  {
    var t := s[..|s| - 1];
    forall i | 0 <= i < |s| - k
      ensures IsSpace(s[k..][i])
    {
      if i < |t| - k {
        assert s[k..][i] == t[k..][i];
      }
    }
  }

  /** `s.strip()`. */
  function Strip(s: string): (r: string)
    ensures r == [] || (!IsSpace(r[0]) && !IsSpace(r[|r| - 1]))
  {
    TrimEnd(TrimStart(s))
  }

  lemma TrimStartNoop(s: string)
    requires s == [] || !IsSpace(s[0])
    ensures TrimStart(s) == s
  {
  }

  lemma TrimEndNoop(s: string)
    requires s == [] || !IsSpace(s[|s| - 1])
    ensures TrimEnd(s) == s
  {
  }

  /** A string that starts and ends with a non-space is its own `strip()`. */
  lemma StripNoop(s: string)
    requires s == [] || (!IsSpace(s[0]) && !IsSpace(s[|s| - 1]))
    ensures Strip(s) == s
  {
    TrimStartNoop(s);
    TrimEndNoop(s);
  }

  lemma StripIdempotent(s: string)
    ensures Strip(Strip(s)) == Strip(s)
  {
    StripNoop(Strip(s));
  }

  // ---------------------------------------------------------------------------
  // split(sep) and sep.join(...)

  function Count(s: string, c: char): nat
  {
    if s == [] then 0 else (if s[0] == c then 1 else 0) + Count(s[1..], c)
  }

  lemma CountZero(s: string, c: char)
    ensures Count(s, c) == 0 <==> c !in s
  {
    if s != [] {
      CountZero(s[1..], c);
      assert s == [s[0]] + s[1..];
    }
  }

  /** `s.split(c)`: the pieces between occurrences of `c`; never empty. */
  function Split(s: string, c: char): (r: seq<string>)
    ensures |r| == Count(s, c) + 1
    ensures forall i :: 0 <= i < |r| ==> c !in r[i]
  {
    if s == [] then [""]
    else if s[0] == c then [""] + Split(s[1..], c)
    else
      var rest := Split(s[1..], c);
      [[s[0]] + rest[0]] + rest[1..]
  }

  /** `sep.join(xs)`. */
  function Join(xs: seq<string>, sep: string): string
  {
    if |xs| == 0 then "" else if |xs| == 1 then xs[0] else xs[0] + sep + Join(xs[1..], sep)
  }

  lemma {:induction false} SplitNoSeparator(s: string, c: char)
    requires c !in s
    ensures Split(s, c) == [s]
  {
    if s != [] {
      SplitNoSeparator(s[1..], c);
      assert [s[0]] + s[1..] == s;
    }
  }

  /** Splitting a string that has a prefix free of `c` keeps the prefix at the head. */
  lemma {:induction false} SplitPrefix(a: string, t: string, c: char)
    requires c !in a
    ensures Split(a + t, c) == [a + Split(t, c)[0]] + Split(t, c)[1..]
  {
    if a != [] {
      SplitPrefix(a[1..], t, c);
      assert (a + t)[1..] == a[1..] + t;
      assert (a + t)[0] == a[0];
      assert [a[0]] + (a[1..] + Split(t, c)[0]) == a + Split(t, c)[0];
    } else {
      assert a + t == t;
      assert a + Split(t, c)[0] == Split(t, c)[0];
      assert [Split(t, c)[0]] + Split(t, c)[1..] == Split(t, c);
    }
  }

  lemma SplitAt(a: string, t: string, c: char)
    requires c !in a
    ensures Split(a + [c] + t, c) == [a] + Split(t, c)
  {
    SplitPrefix(a, [c] + t, c);
    assert a + [c] + t == a + ([c] + t);
    assert ([c] + t)[1..] == t;
    assert Split([c] + t, c) == [""] + Split(t, c);
    assert a + "" == a;
  }

  /** Round trip: `c.join(s.split(c)) == s`. */
  lemma {:induction false} JoinSplit(s: string, c: char)
    ensures Join(Split(s, c), [c]) == s
  {
    if s != [] {
      JoinSplit(s[1..], c);
      var rest := Split(s[1..], c);
      if s[0] == c {
        assert s == [c] + s[1..];
      } else {
        assert Join(rest, [c]) == s[1..];
        if |rest| == 1 {
        } else {
          assert Join(rest, [c]) == rest[0] + [c] + Join(rest[1..], [c]);
          assert s == [s[0]] + s[1..];
        }
      }
    }
  }

  /** Round trip the other way: joining pieces free of `c` and splitting gives them back. */
  lemma {:induction false} SplitJoin(xs: seq<string>, c: char)
    requires |xs| >= 1
    requires forall i :: 0 <= i < |xs| ==> c !in xs[i]
    ensures Split(Join(xs, [c]), c) == xs
  {
    if |xs| == 1 {
      SplitNoSeparator(xs[0], c);
    } else {
      SplitJoin(xs[1..], c);
      SplitAt(xs[0], Join(xs[1..], [c]), c);
      assert [xs[0]] + xs[1..] == xs;
    }
  }

  // ---------------------------------------------------------------------------
  // The comma lists of the configuration: [p.strip() for p in s.split(',') if p.strip()]

  /** `[p.strip() for p in pieces if p.strip()]` */
  function Clean(pieces: seq<string>): (r: seq<string>)
    ensures |r| <= |pieces|
    ensures AllStripped(r)
  {
    if pieces == [] then []
    else
      var p := Strip(pieces[0]);
      var rest := Clean(pieces[1..]);
      if p != "" then
        StripIdempotent(pieces[0]);
        StrippedCons(p, rest);
        [p] + rest
      else rest
  }

  /** Every item is non-blank and stripped. */
  predicate AllStripped(xs: seq<string>)
  {
    forall i :: 0 <= i < |xs| ==> xs[i] != "" && Strip(xs[i]) == xs[i]
  }

  lemma StrippedCons(p: string, rest: seq<string>)
    requires p != "" && Strip(p) == p && AllStripped(rest)
    ensures AllStripped([p] + rest)
  {
    forall i | 0 <= i < |[p] + rest|
      ensures ([p] + rest)[i] != "" && Strip(([p] + rest)[i]) == ([p] + rest)[i]
    {
      if i > 0 {
        assert ([p] + rest)[i] == rest[i - 1];
      }
    }
  }

  /** An item of a comma-separated list: non-blank, trimmed, no comma. */
  predicate IsListItem(x: string)
  {
    x != "" && Strip(x) == x && ',' !in x
  }

  /** A comma-separated list: split on `,`, strip each piece, drop blank pieces. */
  function SplitList(s: string): (r: seq<string>)
    ensures forall i :: 0 <= i < |r| ==> IsListItem(r[i])
  {
    CleanNoComma(Split(s, ','));
    Clean(Split(s, ','))
  }

  lemma {:induction false} TrimBlank(s: string)
    requires AllSpace(s)
    ensures TrimStart(s) == ""
  {
    if s != [] {
      TrimBlank(s[1..]);
    }
  }

  /** A blank string, the empty one included, is the empty list. */
  lemma SplitListBlank(s: string)
    requires AllSpace(s)
    ensures SplitList(s) == []
  {
    assert ',' !in s by {
      assert !IsSpace(',');
    }
    SplitNoSeparator(s, ',');
    TrimBlank(s);
    assert Clean([s]) == [] by {
      assert [s][1..] == [];
    }
  }

  lemma {:induction false} CleanNoComma(pieces: seq<string>)
    requires forall i :: 0 <= i < |pieces| ==> ',' !in pieces[i]
    ensures forall i :: 0 <= i < |Clean(pieces)| ==> ',' !in Clean(pieces)[i]
  {
    if pieces != [] {
      CleanNoComma(pieces[1..]);
      var p := pieces[0];
      assert ',' !in p;
      StripSubstring(p);
    }
  }

  /** `strip()` only removes characters: what it returns occurs inside its argument. */
  lemma StripSubstring(s: string)
    ensures forall ch :: ch in Strip(s) ==> ch in s
  {
    var t := TrimStart(s);
    assert t == s[|s| - |t|..];
    assert TrimEnd(t) == t[..|TrimEnd(t)|];
  }

  lemma {:induction false} CleanAllItems(xs: seq<string>)
    requires forall i :: 0 <= i < |xs| ==> IsListItem(xs[i])
    ensures Clean(xs) == xs
  {
    if xs != [] {
      CleanAllItems(xs[1..]);
      assert [xs[0]] + xs[1..] == xs;
    }
  }

  /**
   * Round trip of the comma lists: non-blank, stripped, comma-free items
   * written as `",".join(xs)` and read back with `SplitList` come back unchanged.
   */
  lemma ListRoundTrip(xs: seq<string>)
    requires forall i :: 0 <= i < |xs| ==> IsListItem(xs[i])
    ensures SplitList(Join(xs, ",")) == xs
  {
    if xs == [] {
      assert Split("", ',') == [""];
    } else {
      SplitJoin(xs, ',');
      CleanAllItems(xs);
    }
  }

  // ---------------------------------------------------------------------------
  // First occurrence, split(sep, 1), startswith, substring

  function IndexOf(s: string, c: char): (i: nat)
    requires c in s
    ensures i < |s| && s[i] == c && c !in s[..i]
  {
    if s[0] == c then 0 else IndexOf(s[1..], c) + 1
  }

  /** `s.split(c, 1)` for a string that contains `c`: the text before and after its first occurrence. */
  function SplitOnce(s: string, c: char): (r: (string, string))
    requires c in s
    ensures s == r.0 + [c] + r.1 && c !in r.0
  {
    var i := IndexOf(s, c);
    assert s == s[..i] + [c] + s[i + 1..];
    (s[..i], s[i + 1..])
  }

  /** `SplitOnce` agrees with the first two pieces of the full split. */
  lemma SplitOnceSplit(s: string, c: char)
    requires c in s
    ensures |Split(s, c)| >= 2 && Split(s, c)[0] == SplitOnce(s, c).0
    ensures Split(s, c)[1] == Split(SplitOnce(s, c).1, c)[0]
  {
    var (a, b) := SplitOnce(s, c);
    SplitAt(a, b, c);
  }

  predicate StartsWith(s: string, p: string)
  {
    |p| <= |s| && s[..|p|] == p
  }

  /** Python's `p in s` for strings. */
  predicate HasSubstring(s: string, p: string)
    decreases |s|
  {
    if |s| < |p| then false else s[..|p|] == p || HasSubstring(s[1..], p)
  }

  lemma HasSubstringPrefix(s: string, p: string)
    requires StartsWith(s, p)
    ensures HasSubstring(s, p)
  {
  }

  lemma {:induction false} HasSubstringAt(s: string, p: string, i: nat)
    requires i + |p| <= |s| && s[i..i + |p|] == p
    ensures HasSubstring(s, p)
    decreases i
  {
    if i > 0 {
      assert s[1..][i - 1..i - 1 + |p|] == s[i..i + |p|];
      HasSubstringAt(s[1..], p, i - 1);
    }
  }

  // ---------------------------------------------------------------------------
  // Decimal numbers: str(n) and int(s)

  predicate IsDigit(c: char)
  {
    '0' <= c <= '9'
  }

  predicate AllDigits(s: string)
  {
    forall i :: 0 <= i < |s| ==> IsDigit(s[i])
  }

  function DigitChar(d: nat): (c: char)
    requires d < 10
    ensures IsDigit(c) && (c as int) - ('0' as int) == d
  {
    (('0' as int) + d) as char
  }

  /** `str(n)` for a non-negative integer (decimal, no leading zeros). */
  function NatToString(n: nat): (r: string)
    ensures |r| >= 1 && AllDigits(r)
    ensures |r| > 1 ==> r[0] != '0'
  {
    if n < 10 then [DigitChar(n)] else NatToString(n / 10) + [DigitChar(n % 10)]
  }

  /** `str(i)` for any integer. */
  function IntToString(i: int): (r: string)
    ensures |r| >= 1
  {
    if i < 0 then "-" + NatToString(-i) else NatToString(i)
  }

  /** The value of a string of decimal digits. */
  function DigitsValue(s: string): nat
    requires AllDigits(s)
  {
    if s == [] then 0 else DigitsValue(s[..|s| - 1]) * 10 + ((s[|s| - 1] as int) - ('0' as int))
  }

  lemma {:induction false} DigitsOfNat(n: nat)
    ensures DigitsValue(NatToString(n)) == n
  {
    if n >= 10 {
      DigitsOfNat(n / 10);
      var s := NatToString(n);
      assert s[..|s| - 1] == NatToString(n / 10);
    }
  }

  /** `str` is injective on the naturals: distinct numbers print differently. */
  lemma NatToStringInjective(a: nat, b: nat)
    requires NatToString(a) == NatToString(b)
    ensures a == b
  {
    DigitsOfNat(a);
    DigitsOfNat(b);
  }

  /**
   * `int(s)`, restricted to an optional `+` or `-` followed by one or more
   * ASCII digits; anything else raises `ValueError`, here `None`.
   */
  function ParseInt(s: string): (r: Option<int>)
    ensures r.Some? ==> |s| >= 1 && forall i :: 0 <= i < |s| ==> IsDigit(s[i]) || (i == 0 && (s[0] == '-' || s[0] == '+'))
  {
    if |s| >= 2 && (s[0] == '-' || s[0] == '+') && AllDigits(s[1..]) then
      var v: int := DigitsValue(s[1..]);
      Some(if s[0] == '-' then -v else v)
    else if |s| >= 1 && AllDigits(s) then
      Some(DigitsValue(s))
    else
      None
  }

  /** `int(s)`: surrounding whitespace is ignored, the rest must be a signed decimal. */
  function PyInt(s: string): Option<int>
  {
    ParseInt(Strip(s))
  }

  /** Round trip: `int(str(i)) == i`. */
  lemma ParseIntToString(i: int)
    ensures ParseInt(IntToString(i)) == Some(i)
  {
    if i < 0 {
      ParseNegative(-i);
    } else {
      ParseNatToString(i);
    }
  }

  lemma ParseNatToString(n: nat)
    ensures ParseInt(NatToString(n)) == Some(n)
  {
    var s := NatToString(n);
    assert IsDigit(s[0]);
    DigitsOfNat(n);
  }

  lemma ParseNegative(n: nat)
    requires n > 0
    ensures ParseInt("-" + NatToString(n)) == Some(-(n as int))
  {
    var d := NatToString(n);
    var s := "-" + d;
    assert s[1..] == d;
    DigitsOfNat(n);
  }

  /** `int(str(i)) == i` with the whitespace handling: a printed integer has none to strip. */
  lemma PyIntToString(i: int)
    ensures PyInt(IntToString(i)) == Some(i)
  {
    var s := IntToString(i);
    assert !IsSpace(s[0]) && !IsSpace(s[|s| - 1]) by {
      if i < 0 {
        assert s[|s| - 1] == NatToString(-i)[|NatToString(-i)| - 1];
      }
    }
    StripNoop(s);
    ParseIntToString(i);
  }

  // ---------------------------------------------------------------------------

  /** `c * k` for a one-character string `c`. */
  function Repeat(c: char, k: nat): (r: string)
    ensures |r| == k && forall i :: 0 <= i < k ==> r[i] == c
  {
    if k == 0 then "" else Repeat(c, k - 1) + [c]
  }
}
