/**
 The JavaScript string operations the application relies on, over `seq<char>`:
 `trim`, `split` on a one-character separator, `join`, `filter(Boolean)` on
 strings, `slice(0, n)`, ASCII `toLowerCase` and `endsWith`.
 */
module Text {

  /** ECMAScript WhiteSpace and LineTerminator code points: what `trim` removes. */
  predicate IsWhitespace(c: char) {
    || c == '\t' || c == '\n' || c == '\U{B}' || c == '\U{C}' || c == '\r' || c == ' '
    || c == '\U{A0}' || c == '\U{1680}' || ('\U{2000}' <= c <= '\U{200A}')
    || c == '\U{2028}' || c == '\U{2029}' || c == '\U{202F}' || c == '\U{205F}'
    || c == '\U{3000}' || c == '\U{FEFF}'
  }

  /** Every character is whitespace (so `s.trim()` is empty, and `!s.trim()` holds). */
  predicate Blank(s: string) {
    forall i :: 0 <= i < |s| ==> IsWhitespace(s[i])
  }

  /** Neither end of `s` is whitespace. */
  predicate IsTrimmed(s: string) {
    s == [] || (!IsWhitespace(s[0]) && !IsWhitespace(s[|s| - 1]))
  }

  /** Drops the leading whitespace. */
  function TrimStart(s: string): string {
    if |s| > 0 && IsWhitespace(s[0]) then TrimStart(s[1..]) else s
  }

  /** Drops the trailing whitespace. */
  function TrimEnd(s: string): string {
    if |s| > 0 && IsWhitespace(s[|s| - 1]) then TrimEnd(s[..|s| - 1]) else s
  }

  /** `TrimStart` keeps the suffix after the leading whitespace. */
  lemma {:induction false} TrimStartFacts(s: string)
    ensures var r := TrimStart(s);
      && |r| <= |s| && r == s[|s| - |r|..]
      && Blank(s[..|s| - |r|])
      && (r == [] || !IsWhitespace(r[0]))
  {
    if |s| > 0 && IsWhitespace(s[0]) {
      TrimStartFacts(s[1..]);
      var r := TrimStart(s[1..]);
      assert s[..|s| - |r|] == [s[0]] + s[1..][..|s| - 1 - |r|];
    }
  }

  /** `TrimEnd` keeps the prefix before the trailing whitespace. */
  lemma {:induction false} TrimEndFacts(s: string)
    ensures var r := TrimEnd(s);
      && |r| <= |s| && r == s[..|r|]
      && Blank(s[|r|..])
      && (r == [] || !IsWhitespace(r[|r| - 1]))
  {
    if |s| > 0 && IsWhitespace(s[|s| - 1]) {
      TrimEndFacts(s[..|s| - 1]);
      var r := TrimEnd(s[..|s| - 1]);
      assert s[|r|..] == s[..|s| - 1][|r|..] + [s[|s| - 1]];
    }
  }

  /** `s.trim()`: the piece of `s` between its leading and trailing whitespace. */
  function Trim(s: string): (r: string)
    ensures IsTrimmed(r)
    ensures r == [] <==> Blank(s)
    ensures IsTrimmed(s) ==> r == s
    ensures exists i, j :: 0 <= i <= j <= |s| && r == s[i..j] && Blank(s[..i]) && Blank(s[j..])
  {
    TrimProperties(s);
    TrimSlice(s);
    TrimEnd(TrimStart(s))
  }

  lemma TrimProperties(s: string)
    ensures IsTrimmed(TrimEnd(TrimStart(s)))
    ensures TrimEnd(TrimStart(s)) == [] <==> Blank(s)
    ensures IsTrimmed(s) ==> TrimEnd(TrimStart(s)) == s
  {
    var t := TrimStart(s);
    TrimStartFacts(s);
    TrimEndFacts(t);
    var r := TrimEnd(t);
    var i := |s| - |t|;
    if r == [] {
      assert Blank(t[0..]);
      assert t == [];
      assert s[..i] == s;
    }
    if r != [] {
      assert r[0] == t[0];
    }
    if s != [] && IsTrimmed(s) {
      assert t == s;
      assert TrimEnd(s) == s;
    }
  }

  /** A prefix `r` of a suffix `t` of `s`, with blank text before `t` and after `r`,
      is the slice of `s` between those blank ends. */
  lemma SliceBetweenBlanks(s: string, t: string, r: string)
    requires |t| <= |s| && t == s[|s| - |t|..] && Blank(s[..|s| - |t|])
    requires |r| <= |t| && r == t[..|r|] && Blank(t[|r|..])
    ensures var i := |s| - |t|;
      r == s[i..i + |r|] && Blank(s[..i]) && Blank(s[i + |r|..])
  {
    var i := |s| - |t|;
    assert s[i + |r|..] == t[|r|..];
  }

  /** Where the trimmed text sits in `s`: between `i` and `j`, with only
      whitespace before `i` and after `j`. */
  lemma TrimBounds(s: string) returns (i: nat, j: nat)
    ensures i <= j <= |s| && TrimEnd(TrimStart(s)) == s[i..j] && Blank(s[..i]) && Blank(s[j..])
  {
    var t := TrimStart(s);
    var r := TrimEnd(t);
    assert |t| <= |s| && t == s[|s| - |t|..] && Blank(s[..|s| - |t|]) by { TrimStartFacts(s); }
    assert |r| <= |t| && r == t[..|r|] && Blank(t[|r|..]) by { TrimEndFacts(t); }
    SliceBetweenBlanks(s, t, r);
    i := |s| - |t|;
    j := i + |r|;
    assert r == s[i..j] && Blank(s[..i]) && Blank(s[j..]);
  }

  /** The trimmed text is a slice of `s` with only whitespace cut on either side. */
  lemma TrimSlice(s: string)
    ensures exists i, j :: 0 <= i <= j <= |s| && TrimEnd(TrimStart(s)) == s[i..j] && Blank(s[..i]) && Blank(s[j..])
  {
    var i, j := TrimBounds(s);
  }

  /** Trimming adds no character. */
  lemma TrimKeepsOut(s: string, c: char)
    requires c !in s
    ensures c !in Trim(s)
  {
    var t := TrimStart(s);
    TrimStartFacts(s);
    TrimEndFacts(t);
    assert c !in t;
  }

  /** One whitespace character on each side of a trimmed, non-empty string is trimmed away. */
  lemma TrimPadded(w1: char, m: string, w2: char)
    requires IsWhitespace(w1) && IsWhitespace(w2) && IsTrimmed(m) && m != []
    ensures Trim([w1] + m + [w2]) == m
  {
    var s := [w1] + m + [w2];
    assert s[1..] == m + [w2];
    assert TrimStart(s) == TrimStart(m + [w2]);
    assert TrimStart(m + [w2]) == m + [w2];
    assert (m + [w2])[..|m + [w2]| - 1] == m;
    assert TrimEnd(m + [w2]) == TrimEnd(m);
    assert TrimEnd(m) == m;
  }

  /** `parts.join(sep)`: the parts with `sep` between consecutive ones. */
  function Join(parts: seq<string>, sep: string): string {
    if |parts| == 0 then ""
    else if |parts| == 1 then parts[0]
    else parts[0] + sep + Join(parts[1..], sep)
  }

  /** Appending four more parts adds each after a separator. */
  lemma {:induction false} JoinAppendFour(parts: seq<string>, a: string, b: string, c: string, d: string, sep: string)
    requires |parts| > 0
    ensures Join(parts + [a, b, c, d], sep) == Join(parts, sep) + sep + a + sep + b + sep + c + sep + d
  {
    var tail := [a, b, c, d];
    if |parts| == 1 {
      assert Join(parts + tail, sep) == parts[0] + sep + Join(tail, sep);
      assert Join(tail, sep) == a + sep + Join([b, c, d], sep);
      assert Join([b, c, d], sep) == b + sep + Join([c, d], sep);
      assert Join([c, d], sep) == c + sep + d;
    } else {
      assert (parts + tail)[1..] == parts[1..] + tail;
      JoinAppendFour(parts[1..], a, b, c, d, sep);
    }
  }
  /** A join starts with its first part. */
  lemma JoinStartsWithHead(parts: seq<string>, sep: string)
    requires |parts| > 0
    ensures |Join(parts, sep)| >= |parts[0]| && Join(parts, sep)[..|parts[0]|] == parts[0]
  {
  }

  /** `s.split(sep)` for a one-character separator: the maximal separator-free
      pieces, in order; an empty string gives one empty piece. */
  function Split(s: string, sep: char): (r: seq<string>)
    ensures |r| > 0
    ensures forall k :: 0 <= k < |r| ==> sep !in r[k]
  {
    if |s| == 0 then [""]
    else
      var rest := Split(s[1..], sep);
      if s[0] == sep then [""] + rest
      else [[s[0]] + rest[0]] + rest[1..]
  }

  /** Joining the pieces of a split with the separator gives back the string. */
  lemma {:induction false} JoinSplit(s: string, sep: char)
    ensures Join(Split(s, sep), [sep]) == s
  {
    if |s| > 0 {
      var rest := Split(s[1..], sep);
      JoinSplit(s[1..], sep);
      if s[0] == sep {
        assert ([""] + rest)[1..] == rest;
      } else if |rest| > 1 {
        var r := Split(s, sep);
        assert r[1..] == rest[1..];
        assert Join(rest, [sep]) == rest[0] + [sep] + Join(rest[1..], [sep]);
        assert s == [s[0]] + s[1..];
      } else {
        assert s == [s[0]] + s[1..];
      }
    }
  }

  /** Splitting at one separator splits the two sides independently. */
  lemma {:induction false} SplitAppend(a: string, sep: char, b: string)
    ensures Split(a + [sep] + b, sep) == Split(a, sep) + Split(b, sep)
  {
    var s := a + [sep] + b;
    if |a| == 0 {
      assert s[1..] == b;
    } else {
      assert s[1..] == a[1..] + [sep] + b;
      SplitAppend(a[1..], sep, b);
    }
  }

  /** A separator-free string is a single piece. */
  lemma {:induction false} SplitWithoutSeparator(a: string, sep: char)
    requires sep !in a
    ensures Split(a, sep) == [a]
  {
    if |a| > 0 {
      SplitWithoutSeparator(a[1..], sep);
      assert [a[0]] + a[1..] == a;
    }
  }

  /** A separator-free head followed by the separator splits off as the first piece. */
  lemma {:induction false} SplitAfterHead(a: string, sep: char, rest: string)
    requires sep !in a
    ensures Split(a + [sep] + rest, sep) == [a] + Split(rest, sep)
  {
    var s := a + [sep] + rest;
    if |a| == 0 {
      assert s[1..] == rest;
    } else {
      assert s[1..] == a[1..] + [sep] + rest;
      SplitAfterHead(a[1..], sep, rest);
      assert [a[0]] + a[1..] == a;
    }
  }

  /** Splitting the join of separator-free parts gives back the parts. */
  lemma {:induction false} SplitJoin(parts: seq<string>, sep: char)
    requires |parts| > 0
    requires forall k :: 0 <= k < |parts| ==> sep !in parts[k]
    ensures Split(Join(parts, [sep]), sep) == parts
  {
    if |parts| == 1 {
      SplitWithoutSeparator(parts[0], sep);
    } else {
      SplitJoin(parts[1..], sep);
      SplitAfterHead(parts[0], sep, Join(parts[1..], [sep]));
      assert [parts[0]] + parts[1..] == parts;
    }
  }

  /** Every piece is blank. */
  predicate AllBlank(xs: seq<string>) {
    forall k :: 0 <= k < |xs| ==> Blank(xs[k])
  }

  /** Every character is the separator or whitespace. */
  predicate OnlySeparatorsAndWhitespace(s: string, sep: char) {
    forall i :: 0 <= i < |s| ==> s[i] == sep || IsWhitespace(s[i])
  }

  /** Every piece of a split is blank exactly when the string holds only
      separators and whitespace. */
  lemma {:induction false} SplitAllBlank(s: string, sep: char)
    ensures AllBlank(Split(s, sep)) <==> OnlySeparatorsAndWhitespace(s, sep)
  {
    if |s| > 0 {
      SplitAllBlank(s[1..], sep);
      var rest := Split(s[1..], sep);
      var r := Split(s, sep);
      assert OnlySeparatorsAndWhitespace(s, sep) <==>
        (s[0] == sep || IsWhitespace(s[0])) && OnlySeparatorsAndWhitespace(s[1..], sep) by {
        assert forall i :: 0 < i < |s| ==> s[i] == s[1..][i - 1];
      }
      if s[0] == sep {
        assert r == [""] + rest;
        if AllBlank(rest) {
          forall k | 0 <= k < |r| ensures Blank(r[k]) {
            if k > 0 { assert r[k] == rest[k - 1]; }
          }
        }
        if AllBlank(r) {
          forall k | 0 <= k < |rest| ensures Blank(rest[k]) {
            assert rest[k] == r[k + 1];
          }
        }
      } else {
        assert r == [[s[0]] + rest[0]] + rest[1..];
        assert Blank(r[0]) <==> IsWhitespace(s[0]) && Blank(rest[0]) by {
          assert r[0][0] == s[0];
          assert forall j :: 0 <= j < |rest[0]| ==> r[0][j + 1] == rest[0][j];
        }
        if Blank(r[0]) && AllBlank(rest) {
          forall k | 0 <= k < |r| ensures Blank(r[k]) {
            if k > 0 { assert r[k] == rest[k]; }
          }
        }
        if AllBlank(r) {
          forall k | 0 < k < |rest| ensures Blank(rest[k]) {
            assert rest[k] == r[k];
          }
        }
      }
    }
  }

  /** `xs.filter(Boolean)` on strings: drops the empty strings, keeping order. */
  function DropEmpty(xs: seq<string>): (r: seq<string>)
    ensures |r| <= |xs|
    ensures forall k :: 0 <= k < |r| ==> r[k] != []
    ensures (forall k :: 0 <= k < |xs| ==> xs[k] != []) ==> r == xs
    ensures r == [] <==> forall k :: 0 <= k < |xs| ==> xs[k] == []
  {
    if |xs| == 0 then []
    else
      var rest := DropEmpty(xs[1..]);
      assert forall x :: x in xs <==> x == xs[0] || x in xs[1..];
      if xs[0] == [] then rest else [xs[0]] + rest
  }

  /** Filtering commutes with concatenation, so the kept strings stay in their order. */
  lemma {:induction false} DropEmptyAppend(xs: seq<string>, ys: seq<string>)
    ensures DropEmpty(xs + ys) == DropEmpty(xs) + DropEmpty(ys)
  {
    if |xs| > 0 {
      assert (xs + ys)[1..] == xs[1..] + ys;
      DropEmptyAppend(xs[1..], ys);
    } else {
      assert xs + ys == ys;
    }
  }

  /** `xs.map((e) => e.trim())`. */
  function TrimAll(xs: seq<string>): (r: seq<string>)
    ensures |r| == |xs|
    ensures forall k :: 0 <= k < |r| ==> r[k] == Trim(xs[k])
  {
    if |xs| == 0 then [] else [Trim(xs[0])] + TrimAll(xs[1..])
  }

  lemma {:induction false} TrimAllAppend(xs: seq<string>, ys: seq<string>)
    ensures TrimAll(xs + ys) == TrimAll(xs) + TrimAll(ys)
  {
    if |xs| == 0 {
      assert xs + ys == ys;
    } else {
      assert (xs + ys)[1..] == xs[1..] + ys;
      TrimAllAppend(xs[1..], ys);
    }
  }

  /** `s.slice(0, n)` when `s.length > n`, otherwise `s`: the first `min(|s|, n)` characters. */
  function Clip(s: string, n: nat): (r: string)
    ensures |r| == if |s| <= n then |s| else n
    ensures r == s[..|r|]
    ensures |s| <= n ==> r == s
  {
    if |s| > n then s[..n] else s
  }

  /** `toLowerCase` on ASCII letters; every other character is kept. */
  function LowerChar(c: char): char {
    if 'A' <= c <= 'Z' then (c as int + 32) as char else c
  }

  /** `s.toLowerCase()` for ASCII: no upper-case letter is left, each upper-case
      letter becomes its lower-case partner, and every other character is kept. */
  function LowerAscii(s: string): (r: string)
    ensures |r| == |s|
    ensures forall i :: 0 <= i < |r| ==> !('A' <= r[i] <= 'Z')
    ensures forall i :: 0 <= i < |s| && 'A' <= s[i] <= 'Z' ==> r[i] as int == s[i] as int + 32
    ensures forall i :: 0 <= i < |s| && !('A' <= s[i] <= 'Z') ==> r[i] == s[i]
  {
    seq(|s|, i requires 0 <= i < |s| => LowerChar(s[i]))
  }

  /** `s.endsWith(suffix)`. */
  predicate EndsWith(s: string, suffix: string) {
    |suffix| <= |s| && s[|s| - |suffix|..] == suffix
  }

  function DigitChar(d: nat): char
    requires d < 10
  {
    "0123456789"[d]
  }

  /** The decimal numeral of a natural number, most significant digit first. */
  function NatToDecimal(n: nat): (r: string)
    ensures |r| > 0
    ensures forall i :: 0 <= i < |r| ==> '0' <= r[i] <= '9'
  {
    if n < 10 then [DigitChar(n)] else NatToDecimal(n / 10) + [DigitChar(n % 10)]
  }

  /** The decimal numeral of an integer, with a leading `-` when negative. */
  function IntToDecimal(n: int): (r: string)
    ensures |r| > 0
  {
    if n < 0 then "-" + NatToDecimal(-n) else NatToDecimal(n)
  }
}
