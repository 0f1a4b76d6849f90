/**
 * The string operations the category list is built from: `Split` on a
 * separator, `Trim`, case-insensitive `Distinct`, and the decimal
 * rendering of an integer (`Int32.ToString()`).
 */
module Text {
  import opened Sequences

  /** The pieces of `s` between occurrences of `sep`, empty pieces included. */
  function SplitOn(s: string, sep: char): (pieces: seq<string>)
    ensures |pieces| >= 1
    ensures forall i :: 0 <= i < |pieces| ==> sep !in pieces[i]
  {
    if s == [] then [""]
    else
      var rest := SplitOn(s[1..], sep);
      if s[0] == sep then [""] + rest
      else [[s[0]] + rest[0]] + rest[1..]
  }

  /** The pieces glued back together with `sep` between them. */
  function Join(pieces: seq<string>, sep: char): string
    requires |pieces| >= 1
  {
    if |pieces| == 1 then pieces[0] else pieces[0] + [sep] + Join(pieces[1..], sep)
  }

  /** Splitting loses nothing: joining the pieces gives back the input. */
  lemma {:induction false} JoinSplitOn(s: string, sep: char)
    ensures Join(SplitOn(s, sep), sep) == s
  {
    if s != [] {
      var rest := SplitOn(s[1..], sep);
      JoinSplitOn(s[1..], sep);
      if s[0] == sep {
        assert SplitOn(s, sep) == [""] + rest;
        assert ([""] + rest)[1..] == rest;
        assert s == [sep] + s[1..];
      } else {
        var pieces := SplitOn(s, sep);
        assert pieces == [[s[0]] + rest[0]] + rest[1..];
        if |rest| == 1 {
          assert s == [s[0]] + rest[0];
        } else {
          assert pieces[1..] == rest[1..];
          assert Join(rest, sep) == rest[0] + [sep] + Join(rest[1..], sep);
          assert s == [s[0]] + s[1..];
        }
      }
    }
  }

  /** `Char.IsWhiteSpace`: the Unicode space separators, line and paragraph separators, and the control characters U+0009–U+000D and U+0085. */
  predicate IsWhiteSpace(c: char) {
    || ('\U{9}' <= c <= '\U{D}') || c == ' ' || c == '\U{85}' || c == '\U{A0}'
    || c == '\U{1680}' || ('\U{2000}' <= c <= '\U{200A}') || c == '\U{2028}' || c == '\U{2029}'
    || c == '\U{202F}' || c == '\U{205F}' || c == '\U{3000}'
  }

  /** The index of the first character at or after `i` that is not white space, or `|s|`. */
  function SkipWhiteSpace(s: string, i: nat): (j: nat)
    requires i <= |s|
    decreases |s| - i
    ensures i <= j <= |s|
    ensures forall k :: i <= k < j ==> IsWhiteSpace(s[k])
    ensures j == |s| || !IsWhiteSpace(s[j])
  {
    if i == |s| || !IsWhiteSpace(s[i]) then i else SkipWhiteSpace(s, i + 1)
  }

  /** Scanning back from `hi` to `lo`: the end of `s[lo..hi]` without its trailing white space. */
  function SkipWhiteSpaceBack(s: string, lo: nat, hi: nat): (j: nat)
    requires lo <= hi <= |s|
    decreases hi - lo
    ensures lo <= j <= hi
    ensures forall k :: j <= k < hi ==> IsWhiteSpace(s[k])
    ensures j == lo || !IsWhiteSpace(s[j - 1])
  {
    if hi == lo || !IsWhiteSpace(s[hi - 1]) then hi else SkipWhiteSpaceBack(s, lo, hi - 1)
  }

  /**
   * `r` is `s` with the white space at both ends removed and nothing else:
   * its ends are not white space, it is empty exactly when every character
   * of `s` is white space, and it is the slice of `s` that starts after the
   * leading white space, with only white space before and after it.
   */
  predicate IsTrimOf(s: string, r: string) {
    && (r == [] || (!IsWhiteSpace(r[0]) && !IsWhiteSpace(r[|r| - 1])))
    && (r == [] <==> forall i :: 0 <= i < |s| ==> IsWhiteSpace(s[i]))
    && var a := SkipWhiteSpace(s, 0);
      && a + |r| <= |s| && r == s[a..a + |r|]
      && (forall i :: 0 <= i < a ==> IsWhiteSpace(s[i]))
      && (forall i :: a + |r| <= i < |s| ==> IsWhiteSpace(s[i]))
  }

  /**
   * `Trim()`: `s` without leading and trailing white space, found by a scan
   * forward from the start and a scan backward from the end that stops
   * where the first one stopped.
   */
  function Trim(s: string): (r: string)
    ensures IsTrimOf(s, r)
  {
    var a := SkipWhiteSpace(s, 0);
    var b := SkipWhiteSpaceBack(s, a, |s|);
    ScansTrim(s, a, b);
    s[a..b]
  }

  /** The two scans cut out exactly the slice `IsTrimOf` describes. */
  lemma ScansTrim(s: string, a: nat, b: nat)
    requires a == SkipWhiteSpace(s, 0) && b == SkipWhiteSpaceBack(s, a, |s|)
    ensures IsTrimOf(s, s[a..b])
  {
    var r := s[a..b];
    if a < b {
      assert r[0] == s[a] && r[|r| - 1] == s[b - 1];
    }
    assert r == s[a..a + |r|];
  }

  /** A character absent from `s` is absent from every slice of it. */
  lemma NotInSlice(s: string, lo: int, hi: int, c: char)
    requires 0 <= lo <= hi <= |s| && c !in s
    ensures c !in s[lo..hi]
  {
    forall k | 0 <= k < hi - lo
      ensures s[lo..hi][k] != c
    {
      assert s[lo..hi][k] == s[lo + k];
    }
  }

  /** Trimming removes characters and adds none, so a character absent before is absent after. */
  lemma NoSeparatorInTrim(s: string, c: char)
    requires c !in s
    ensures c !in Trim(s)
  {
    var a := SkipWhiteSpace(s, 0);
    NotInSlice(s, a, a + |Trim(s)|, c);
  }

  /** The comparison keys of the strings in `s`. */
  function KeysOf(s: seq<string>, key: string -> string): set<string> {
    set x | x in s :: key(x)
  }

  /**
   * Reference definition of a de-duplication that keeps first occurrences:
   * the last element of `s` is kept iff no earlier element has its key.
   */
  function FirstOccurrences(s: seq<string>, key: string -> string): seq<string>
  {
    if s == [] then []
    else
      var init := s[..|s| - 1];
      FirstOccurrences(init, key) + (if key(s[|s| - 1]) in KeysOf(init, key) then [] else [s[|s| - 1]])
  }

  /**
   * LINQ `Distinct` with a comparer, scanning left to right and skipping
   * every element whose key is already in `seen`.
   */
  function DistinctFrom(s: seq<string>, key: string -> string, seen: set<string>): (r: seq<string>)
    ensures forall i :: 0 <= i < |r| ==> r[i] in s && key(r[i]) !in seen
    ensures forall i, j :: 0 <= i < j < |r| ==> key(r[i]) != key(r[j])
    ensures forall x :: x in s ==> key(x) in seen || key(x) in KeysOf(r, key)
  {
    if s == [] then []
    else if key(s[0]) in seen then DistinctFrom(s[1..], key, seen)
    else [s[0]] + DistinctFrom(s[1..], key, seen + {key(s[0])})
  }

  function DistinctBy(s: seq<string>, key: string -> string): seq<string> {
    DistinctFrom(s, key, {})
  }

  lemma KeysOfSnoc(s: seq<string>, x: string, key: string -> string)
    ensures KeysOf(s + [x], key) == KeysOf(s, key) + {key(x)}
  {
    assert forall y :: y in s + [x] <==> y in s || y == x;
  }

  /** The scan, started after `prefix`, continues the reference definition. */
  lemma {:induction false} DistinctFromContinues(prefix: seq<string>, s: seq<string>, key: string -> string)
    decreases |s|
    ensures FirstOccurrences(prefix + s, key) == FirstOccurrences(prefix, key) + DistinctFrom(s, key, KeysOf(prefix, key))
  {
    if s == [] {
      assert prefix + s == prefix;
    } else {
      var x := s[0];
      var kept := if key(x) in KeysOf(prefix, key) then [] else [x];
      var rest := DistinctFrom(s[1..], key, KeysOf(prefix + [x], key));
      calc {
        FirstOccurrences(prefix + s, key);
        { assert (prefix + [x]) + s[1..] == prefix + s; }
        FirstOccurrences((prefix + [x]) + s[1..], key);
        { DistinctFromContinues(prefix + [x], s[1..], key); }
        FirstOccurrences(prefix + [x], key) + rest;
        { FirstOccurrencesSnoc(prefix, x, key); }
        (FirstOccurrences(prefix, key) + kept) + rest;
        { AppendAssociates(FirstOccurrences(prefix, key), kept, rest); }
        FirstOccurrences(prefix, key) + (kept + rest);
        { DistinctFromStep(prefix, s, key); }
        FirstOccurrences(prefix, key) + DistinctFrom(s, key, KeysOf(prefix, key));
      }
    }
  }

  /** One step of the reference definition. */
  lemma FirstOccurrencesSnoc(prefix: seq<string>, x: string, key: string -> string)
    ensures FirstOccurrences(prefix + [x], key)
      == FirstOccurrences(prefix, key) + (if key(x) in KeysOf(prefix, key) then [] else [x])
  {
    assert (prefix + [x])[..|prefix + [x]| - 1] == prefix;
  }

  /** One step of the scan, with the keys seen so far being those of `prefix`. */
  lemma DistinctFromStep(prefix: seq<string>, s: seq<string>, key: string -> string)
    requires s != []
    ensures var seen := KeysOf(prefix, key);
      DistinctFrom(s, key, seen)
        == (if key(s[0]) in seen then [] else [s[0]]) + DistinctFrom(s[1..], key, KeysOf(prefix + [s[0]], key))
  {
    KeysOfSnoc(prefix, s[0], key);
    if key(s[0]) in KeysOf(prefix, key) {
      assert KeysOf(prefix + [s[0]], key) == KeysOf(prefix, key);
    }
  }

  /** `DistinctBy` keeps exactly the first element of each key, in input order. */
  lemma DistinctByKeepsFirstOccurrences(s: seq<string>, key: string -> string)
    ensures DistinctBy(s, key) == FirstOccurrences(s, key)
  {
    DistinctFromContinues([], s, key);
    assert [] + s == s;
    assert KeysOf([], key) == {};
  }

  /** Lower-casing of the ASCII letters, one instance of a case-insensitive key. */
  function AsciiLower(s: string): (r: string)
    ensures |r| == |s|
    ensures forall i :: 0 <= i < |s| ==> r[i] == (if 'A' <= s[i] <= 'Z' then s[i] - 'A' + 'a' else s[i])
  {
    seq(|s|, i requires 0 <= i < |s| => if 'A' <= s[i] <= 'Z' then s[i] - 'A' + 'a' else s[i])
  }

  function DigitChar(d: int): char
    requires 0 <= d < 10
  {
    ('0' as int + d) as char
  }

  /** The decimal digits of `n`, most significant first, without leading zeros. */
  function NatToString(n: nat): (s: string)
    ensures |s| >= 1
    ensures forall i :: 0 <= i < |s| ==> '0' <= s[i] <= '9'
    ensures s[0] == '0' ==> n == 0
  {
    if n < 10 then [DigitChar(n)] else NatToString(n / 10) + [DigitChar(n % 10)]
  }

  /** `s` is made of decimal digits only. */
  predicate IsDecimal(s: string) {
    forall i :: 0 <= i < |s| ==> '0' <= s[i] <= '9'
  }

  /** `Int32.ToString()` in the invariant culture. */
  function IntToString(n: int): (r: string)
    ensures n >= 0 ==> IsDecimal(r) && ParseNat(r) == n
    ensures n < 0 ==> |r| >= 2 && r[0] == '-' && IsDecimal(r[1..]) && ParseNat(r[1..]) == -n
    ensures n >= 0 ==> |r| >= 1 && (r[0] == '0' ==> r == "0")
    ensures n < 0 ==> r[1] != '0'
  {
    if n < 0 then
      ParseNatToString(-n);
      var digits := NatToString(-n);
      assert ("-" + digits)[1..] == digits;
      "-" + digits
    else
      ParseNatToString(n);
      NatToString(n)
  }

  /** The value of a string of decimal digits. */
  function ParseNat(s: string): nat
    requires IsDecimal(s)
  {
    if s == [] then 0 else 10 * ParseNat(s[..|s| - 1]) + (s[|s| - 1] - '0') as int
  }

  /** The decimal rendering reads back as the number it renders. */
  lemma {:induction false} ParseNatToString(n: nat)
    ensures ParseNat(NatToString(n)) == n
  {
    var s := NatToString(n);
    if n < 10 {
      assert s == [DigitChar(n)];
      assert s[..0] == [];
    } else {
      var q, d := n / 10, n % 10;
      ParseNatToString(q);
      assert s == NatToString(q) + [DigitChar(d)];
      assert s[..|s| - 1] == NatToString(q);
      assert (s[|s| - 1] - '0') as int == d;
      assert n == 10 * q + d;
    }
  }

  // ---------------------------------------------------------------- worked pieces

  lemma {:induction false} SplitOnWithoutSep(a: string, sep: char)
    requires sep !in a
    ensures SplitOn(a, sep) == [a]
  {
    if a != [] {
      SplitOnWithoutSep(a[1..], sep);
      assert a == [a[0]] + a[1..];
    }
  }

  lemma {:induction false} SplitOnFirstSep(a: string, b: string, sep: char)
    requires sep !in a
    ensures SplitOn(a + [sep] + b, sep) == [a] + SplitOn(b, sep)
  {
    if a == [] {
      assert (a + [sep] + b)[1..] == b;
    } else {
      SplitOnFirstSep(a[1..], b, sep);
      assert (a + [sep] + b)[1..] == a[1..] + [sep] + b;
      assert [a[0]] + a[1..] == a;
    }
  }

  lemma PrintableIsNotWhiteSpace(c: char)
    requires '!' <= c <= '~'
    ensures !IsWhiteSpace(c)
  {
  }

  /** Trimming a piece with at most one leading blank and no trailing one. */
  lemma TrimOneLeadingBlank(s: string, r: string)
    requires r != [] && '!' <= r[0] <= '~' && '!' <= r[|r| - 1] <= '~'
    requires s == r || s == [' '] + r
    ensures Trim(s) == r
  {
    PrintableIsNotWhiteSpace(r[0]);
    PrintableIsNotWhiteSpace(r[|r| - 1]);
    var a := if s == r then 0 else 1;
    assert s[a..] == r;
    assert s[a] == r[0] && s[|s| - 1] == r[|r| - 1];
    assert SkipWhiteSpace(s, 0) == a;
    assert SkipWhiteSpaceBack(s, a, |s|) == |s|;
  }

  lemma PortExample()
    ensures IntToString(6500) == "6500"
  {
    assert NatToString(6) == "6";
    assert NatToString(65) == "65";
    assert NatToString(650) == "650";
  }
}
