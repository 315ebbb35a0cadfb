/**
  The operations on Python `str` that the scripts rely on: `in`, `startswith`,
  `find`, `split(sep)`, `split()`, `splitlines()`, `strip()`, `replace`,
  `join`, `title()`, `upper()`, `lower()`, `str(int)`, `int(str)` and `c * n`.
  Character classes are the ASCII ones; `splitlines()` breaks at '\n' only.
*/
module Text {
  import opened Wrappers

  // ---------------------------------------------------------------------------
  // Character classes
  // ---------------------------------------------------------------------------

  /** `str.isspace()` on ASCII: space, tab, line feed, carriage return, vertical tab, form feed. */
  predicate IsSpace(c: char) {
    c == ' ' || c == '\t' || c == '\n' || c == '\r' || c == '\U{000B}' || c == '\U{000C}'
  }

  predicate IsDigit(c: char) { '0' <= c <= '9' }
  predicate IsLower(c: char) { 'a' <= c <= 'z' }
  predicate IsUpper(c: char) { 'A' <= c <= 'Z' }

  /** The ASCII characters that have a case; `title()` starts a new word after any other. */
  predicate IsCased(c: char) { IsLower(c) || IsUpper(c) }

  function UpperChar(c: char): char {
    if IsLower(c) then (c as int - 32) as char else c
  }

  function LowerChar(c: char): char {
    if IsUpper(c) then (c as int + 32) as char else c
  }

  predicate NoSpace(s: string) {
    forall k :: 0 <= k < |s| ==> !IsSpace(s[k])
  }

  /** What `split()` yields: a non-empty run of non-whitespace characters. */
  predicate IsWord(w: string) {
    w != [] && NoSpace(w)
  }

  predicate AllDigits(s: string) {
    forall k :: 0 <= k < |s| ==> IsDigit(s[k])
  }

  // ---------------------------------------------------------------------------
  // Searching
  // ---------------------------------------------------------------------------

  predicate StartsWith(s: string, p: string) {
    |p| <= |s| && s[..|p|] == p
  }

  /** `p` occurs in `s` starting at index `i`. */
  predicate OccursAt(s: string, p: string, i: nat) {
    i + |p| <= |s| && s[i..i + |p|] == p
  }

  /** The first index from `start` on at which `p` occurs in `s`. */
  function FindFrom(s: string, p: string, start: nat): (r: Option<nat>)
    requires start <= |s|
    ensures r.Some? ==> start <= r.value && OccursAt(s, p, r.value)
    ensures r.Some? ==> forall i :: start <= i < r.value ==> !OccursAt(s, p, i)
    ensures r.None? ==> forall i :: start <= i <= |s| ==> !OccursAt(s, p, i)
    decreases |s| - start
  {
    if OccursAt(s, p, start) then Some(start)
    else if start == |s| then None
    else FindFrom(s, p, start + 1)
  }

  /** The index of the first occurrence of `p` in `s`, as `str.find`, with None for -1. */
  function Find(s: string, p: string): (r: Option<nat>)
    ensures r.Some? ==> OccursAt(s, p, r.value)
    ensures r.Some? ==> forall i :: 0 <= i < r.value ==> !OccursAt(s, p, i)
    ensures r.None? ==> forall i :: 0 <= i <= |s| ==> !OccursAt(s, p, i)
  {
    FindFrom(s, p, 0)
  }

  /** Python's `p in s`. */
  predicate Contains(s: string, p: string) {
    Find(s, p).Some?
  }

  lemma ContainsInfix(a: string, p: string, b: string)
    ensures Contains(a + p + b, p)
  {
    var s := a + p + b;
    assert OccursAt(s, p, |a|);
  }

  lemma OccursContains(s: string, p: string, i: nat)
    requires OccursAt(s, p, i)
    ensures Contains(s, p)
  {
  }

  /** `p` does not occur in `pre + p` before position `|pre|`. */
  predicate NotBefore(pre: string, p: string) {
    |p| > 0 && !Contains(pre + p[..|p| - 1], p)
  }

  /** The first occurrence of `p` in `pre + p + rest` is the one right after `pre` when none starts earlier. */
  lemma FindAfter(pre: string, p: string, rest: string)
    requires NotBefore(pre, p)
    ensures Find(pre + p + rest, p) == Some(|pre|)
  {
    var s := pre + p + rest;
    var q := pre + p[..|p| - 1];
    assert s[|pre|..|pre| + |p|] == p;
    assert s[..|q|] == q;
    forall i | 0 <= i < |pre|
      ensures !OccursAt(s, p, i)
    {
      assert s[i..i + |p|] == q[i..i + |p|];
      assert !OccursAt(q, p, i);
    }
    assert OccursAt(s, p, |pre|);
  }

  /** `p` is absent from `s` when two neighbouring characters of `p` never stand side by side in `s`. */
  lemma AbsentByPair(s: string, p: string, j: nat)
    requires j + 1 < |p|
    requires forall i :: 0 <= i < |s| - 1 ==> !(s[i] == p[j] && s[i + 1] == p[j + 1])
    ensures !Contains(s, p)
  {
    forall i | 0 <= i <= |s|
      ensures !OccursAt(s, p, i)
    {
      if i + |p| <= |s| {
        assert s[i..i + |p|][j] == s[i + j] && s[i..i + |p|][j + 1] == s[i + j + 1];
      }
    }
  }

  /** A text that holds `p + q` holds `p`. */
  lemma ContainsPrefix(s: string, p: string, q: string)
    requires Contains(s, p + q)
    ensures Contains(s, p)
  {
    var i := Find(s, p + q).value;
    assert s[i..i + |p|] == (p + q)[..|p|];
    OccursContains(s, p, i);
  }

  /** `xs.index(x)`: the first position of `x`, None where Python raises ValueError. */
  function IndexOf<T(==)>(xs: seq<T>, x: T): (r: Option<nat>)
    ensures r.Some? ==> r.value < |xs| && xs[r.value] == x
    ensures r.Some? ==> forall j :: 0 <= j < r.value ==> xs[j] != x
    ensures r.None? <==> x !in xs
    decreases |xs|
  {
    if |xs| == 0 then None
    else if xs[0] == x then Some(0)
    else match IndexOf(xs[1..], x)
      case None => None
      case Some(j) => Some(j + 1)
  }

  // ---------------------------------------------------------------------------
  // Splitting and joining
  // ---------------------------------------------------------------------------

  /** `sep.join(parts)`. */
  function Join(parts: seq<string>, sep: string): string
    decreases |parts|
  {
    if |parts| == 0 then ""
    else if |parts| == 1 then parts[0]
    else parts[0] + sep + Join(parts[1..], sep)
  }

  /** `s.split(sep)` for a non-empty separator: the pieces between the occurrences of `sep`. */
  function Split(s: string, sep: string): (r: seq<string>)
    requires |sep| > 0
    ensures |r| >= 1
    decreases |s|
  {
    match Find(s, sep)
    case None => [s]
    case Some(i) => [s[..i]] + Split(s[i + |sep|..], sep)
  }

  /** Joining the pieces of a split with the same separator gives the text back. */
  lemma {:induction false} JoinSplit(s: string, sep: string)
    requires |sep| > 0
    ensures Join(Split(s, sep), sep) == s
    decreases |s|
  {
    match Find(s, sep)
    case None =>
    case Some(i) =>
      var head := s[..i];
      var rest := s[i + |sep|..];
      var parts := Split(rest, sep);
      assert Split(s, sep) == [head] + parts;
      JoinSplit(rest, sep);
      JoinCons(head, parts, sep);
      assert s[i..i + |sep|] == sep;
      assert s == head + sep + rest;
  }

  lemma JoinCons(head: string, parts: seq<string>, sep: string)
    requires |parts| >= 1
    ensures Join([head] + parts, sep) == head + sep + Join(parts, sep)
  {
    assert ([head] + parts)[1..] == parts;
  }

  /** Four parts joined by single spaces. */
  lemma JoinFour(a: string, b: string, c: string, d: string)
    ensures Join([a, b, c, d], " ") == (a + " ") + b + (" " + c + " " + d)
  {
    var xs := [a, b, c, d];
    assert xs[1..] == [b, c, d] && [b, c, d][1..] == [c, d] && [c, d][1..] == [d];
    assert Join([c, d], " ") == c + " " + d;
    assert Join([b, c, d], " ") == b + " " + (c + " " + d);
    assert Join(xs, " ") == a + " " + (b + " " + (c + " " + d));
  }

  /** A text without a line break is a single piece. */
  lemma SplitNoBreak(a: string)
    requires forall k :: 0 <= k < |a| ==> a[k] != '\n'
    ensures Split(a, "\n") == [a]
  {
    forall i: nat | i + 1 <= |a|
      ensures !OccursAt(a, "\n", i)
    {
      assert a[i..i + 1][0] == a[i];
    }
  }

  /** Splitting at line breaks cuts at the first one. */
  lemma SplitAtBreak(a: string, rest: string)
    requires forall k :: 0 <= k < |a| ==> a[k] != '\n'
    ensures Split(a + "\n" + rest, "\n") == [a] + Split(rest, "\n")
  {
    var s := a + "\n" + rest;
    forall i: nat | i < |a|
      ensures !OccursAt(s, "\n", i)
    {
      assert s[i..i + 1][0] == s[i] == a[i];
    }
    assert OccursAt(s, "\n", |a|);
    assert Find(s, "\n") == Some(|a|);
    assert s[..|a|] == a && s[|a| + 1..] == rest;
  }

  /** The text after the first occurrence of `marker` and before the next one: `s.split(marker)[1]`. */
  function After(s: string, marker: string): (r: string)
    requires |marker| > 0 && Contains(s, marker)
  {
    Split(s, marker)[1]
  }

  /** `s.splitlines()`, breaking at '\n' only: a final line break does not open an empty line. */
  function SplitLines(s: string): (r: seq<string>)
    ensures s == "" ==> r == []
  {
    var parts := Split(s, "\n");
    if parts[|parts| - 1] == "" then parts[..|parts| - 1] else parts
  }

  // ---------------------------------------------------------------------------
  // Whitespace
  // ---------------------------------------------------------------------------

  /** `s.lstrip()`: the suffix left after the leading whitespace. */
  function TrimLeft(s: string): string
    decreases |s|
  {
    if |s| > 0 && IsSpace(s[0]) then TrimLeft(s[1..]) else s
  }

  /** Every character of `s` is whitespace. */
  predicate Blank(s: string) {
    forall k :: 0 <= k < |s| ==> IsSpace(s[k])
  }

  /** `lstrip` leaves nothing exactly when the text is all whitespace. */
  lemma {:induction false} TrimLeftEmpty(s: string)
    ensures TrimLeft(s) == [] <==> Blank(s)
    decreases |s|
  {
    if |s| > 0 && IsSpace(s[0]) {
      TrimLeftEmpty(s[1..]);
      assert Blank(s) <==> Blank(s[1..]) by {
        if Blank(s[1..]) {
          forall k | 0 <= k < |s|
            ensures IsSpace(s[k])
          {
            if k > 0 {
              assert s[k] == s[1..][k - 1];
            }
          }
        }
      }
    }
  }

  /** `lstrip` drops a leading run of whitespace whole. */
  lemma {:induction false} TrimLeftBlank(b: string, x: string)
    requires Blank(b)
    ensures TrimLeft(b + x) == TrimLeft(x)
    decreases |b|
  {
    if |b| > 0 {
      assert (b + x)[0] == b[0];
      assert (b + x)[1..] == b[1..] + x;
      TrimLeftBlank(b[1..], x);
    } else {
      assert b + x == x;
    }
  }

  /** What `lstrip` leaves is a suffix, all that it dropped is whitespace, and it starts with a non-blank. */
  lemma {:induction false} TrimLeftSpec(s: string)
    ensures var r := TrimLeft(s);
      |r| <= |s| && r == s[|s| - |r|..]
      && (forall k :: 0 <= k < |s| - |r| ==> IsSpace(s[k]))
      && (r == [] || !IsSpace(r[0]))
    decreases |s|
  {
    if |s| > 0 && IsSpace(s[0]) {
      TrimLeftSpec(s[1..]);
    }
  }

  /** `s.rstrip()`: the prefix left before the trailing whitespace. */
  function TrimRight(s: string): string
    decreases |s|
  {
    if |s| > 0 && IsSpace(s[|s| - 1]) then TrimRight(s[..|s| - 1]) else s
  }

  /** What `rstrip` leaves is a prefix, all that it dropped is whitespace, and it ends with a non-blank. */
  lemma {:induction false} TrimRightSpec(s: string)
    ensures var r := TrimRight(s);
      |r| <= |s| && r == s[..|r|]
      && (forall k :: |r| <= k < |s| ==> IsSpace(s[k]))
      && (r == [] || !IsSpace(r[|r| - 1]))
    decreases |s|
  {
    if |s| > 0 && IsSpace(s[|s| - 1]) {
      TrimRightSpec(s[..|s| - 1]);
    }
  }

  /** `s.strip()`. */
  function Strip(s: string): string {
    TrimRight(TrimLeft(s))
  }

  lemma StripNoSpace(s: string)
    requires NoSpace(s)
    ensures Strip(s) == s
  {
  }

  /** A word followed by the newline a command prints strips back to the word. */
  lemma StripTrailingNewline(d: string)
    requires IsWord(d)
    ensures Strip(d + "\n") == d
  {
    var s := d + "\n";
    assert TrimLeft(s) == s;
    assert s[..|s| - 1] == d;
    assert TrimRight(s) == TrimRight(d);
    StripNoSpace(d);
  }

  /** Stripping removes exactly the blanks around a text that starts and ends with a non-blank. */
  lemma StripSurrounded(before: string, w: string, after: string)
    requires |w| > 0 && !IsSpace(w[0]) && !IsSpace(w[|w| - 1])
    requires forall i :: 0 <= i < |before| ==> IsSpace(before[i])
    requires forall i :: 0 <= i < |after| ==> IsSpace(after[i])
    ensures Strip(before + w + after) == w
  {
    var s := before + w + after;
    var l := TrimLeft(s);
    TrimLeftSpec(s);
    assert s[|before|] == w[0];
    assert |l| == |w| + |after|;
    assert l == w + after;
    var t := TrimRight(l);
    TrimRightSpec(l);
    assert l[|w| - 1] == w[|w| - 1];
    assert |t| == |w|;
    assert t == w;
  }

  /** The length of the longest prefix of `s` without whitespace. */
  function WordLen(s: string): (n: nat)
    ensures n <= |s|
    ensures forall k :: 0 <= k < n ==> !IsSpace(s[k])
    ensures n == |s| || IsSpace(s[n])
    decreases |s|
  {
    if |s| == 0 || IsSpace(s[0]) then 0 else 1 + WordLen(s[1..])
  }

  /** `s.split()`: the maximal runs of non-whitespace characters, in order. */
  function Words(s: string): (r: seq<string>)
    ensures forall k :: 0 <= k < |r| ==> IsWord(r[k])
    decreases |s|
  {
    var t := TrimLeft(s);
    TrimLeftSpec(s);
    if |t| == 0 then []
    else
      var n := WordLen(t);
      var w := t[..n];
      assert |w| > 0 && NoSpace(w);
      [w] + Words(t[n..])
  }

  lemma WordsCons(w: string, rest: string)
    requires IsWord(w)
    requires rest == [] || IsSpace(rest[0])
    ensures Words(w + rest) == [w] + Words(rest)
  {
    var s := w + rest;
    assert TrimLeft(s) == s;
    WordLenPrefix(w, rest);
    assert s[..|w|] == w && s[|w|..] == rest;
  }

  lemma {:induction false} WordLenPrefix(w: string, rest: string)
    requires NoSpace(w)
    requires rest == [] || IsSpace(rest[0])
    ensures WordLen(w + rest) == |w|
    decreases |w|
  {
    if |w| > 0 {
      WordLenPrefix(w[1..], rest);
      assert (w + rest)[1..] == w[1..] + rest;
    }
  }

  lemma WordsSpace(c: char, rest: string)
    requires IsSpace(c)
    ensures Words([c] + rest) == Words(rest)
  {
    assert ([c] + rest)[1..] == rest;
  }

  lemma WordsNone()
    ensures Words("") == []
  {
    assert TrimLeft("") == "";
  }

  lemma {:induction false} WordsOne(w: string)
    requires IsWord(w)
    ensures Words(w) == [w]
  {
    WordsNone();
    var e: seq<char> := [];
    assert w + e == w;
    WordsCons(w, e);
    assert Words(w) == [w] + Words(e);
    assert [w] + Words(e) == [w];
  }

  lemma WordsSpaced(w: string, tail: string)
    requires IsWord(w)
    ensures Words(w + " " + tail) == [w] + Words(tail)
  {
    var rest := " " + tail;
    assert rest == [' '] + tail;
    assert w + " " + tail == w + rest;
    WordsSpace(' ', tail);
    WordsCons(w, rest);
  }

  /**
    Splitting at whitespace the words joined by single spaces gives the words
    back, provided no word is empty or holds whitespace.
  */
  lemma {:induction false} WordsJoin(ws: seq<string>)
    requires forall k :: 0 <= k < |ws| ==> IsWord(ws[k])
    ensures Words(Join(ws, " ")) == ws
    decreases |ws|
  {
    if |ws| == 0 {
      WordsNone();
    } else if |ws| == 1 {
      WordsOne(ws[0]);
    } else {
      var tail := Join(ws[1..], " ");
      assert Join(ws, " ") == ws[0] + " " + tail;
      WordsJoin(ws[1..]);
      WordsSpaced(ws[0], tail);
      assert ws == [ws[0]] + ws[1..];
    }
  }

  /**
    A pattern without whitespace found in words joined by single spaces lies
    inside one of the words.
  */
  lemma {:induction false} OccursInJoinedWord(ws: seq<string>, p: string, i: nat)
    requires |p| > 0 && NoSpace(p)
    requires OccursAt(Join(ws, " "), p, i)
    ensures exists k :: 0 <= k < |ws| && Contains(ws[k], p)
    decreases |ws|
  {
    if |ws| == 1 {
      OccursContains(ws[0], p, i);
    } else if |ws| > 1 {
      var w := ws[0];
      var tail := Join(ws[1..], " ");
      var s := Join(ws, " ");
      assert s == w + " " + tail;
      if i + |p| <= |w| {
        assert s[i..i + |p|] == w[i..i + |p|];
        OccursContains(w, p, i);
      } else if i <= |w| {
        SpaceBreaks(w, tail, p, i);
        assert false;
      } else {
        var j := i - |w| - 1;
        assert s[i..i + |p|] == tail[j..j + |p|];
        OccursInJoinedWord(ws[1..], p, j);
        var k :| 0 <= k < |ws| - 1 && Contains(ws[1..][k], p);
        assert ws[k + 1] == ws[1..][k];
      }
    }
  }

  lemma SpaceBreaks(w: string, tail: string, p: string, i: nat)
    requires NoSpace(p) && i <= |w| < i + |p|
    ensures !OccursAt(w + " " + tail, p, i)
  {
    var s := w + " " + tail;
    if i + |p| <= |s| {
      assert s[i..i + |p|][|w| - i] == ' ';
      assert !IsSpace(p[|w| - i]);
    }
  }

  /** No word joined by single spaces holds `p`, so neither does the joined text. */
  lemma NotInJoin(ws: seq<string>, p: string)
    requires |p| > 0 && NoSpace(p)
    requires forall k :: 0 <= k < |ws| ==> !Contains(ws[k], p)
    ensures !Contains(Join(ws, " "), p)
  {
    if Contains(Join(ws, " "), p) {
      OccursInJoinedWord(ws, p, Find(Join(ws, " "), p).value);
    }
  }

  // ---------------------------------------------------------------------------
  // Rewriting
  // ---------------------------------------------------------------------------

  /** `s.replace(pat, sub)`: every occurrence, scanning left to right, without overlap. */
  function Replace(s: string, pat: string, sub: string): string
    requires |pat| > 0
    decreases |s|
  {
    match Find(s, pat)
    case None => s
    case Some(i) => s[..i] + sub + Replace(s[i + |pat|..], pat, sub)
  }

  /** Replacing one character by another rewrites exactly the positions that held it. */
  lemma {:induction false} ReplaceChar(s: string, a: char, b: char)
    ensures |Replace(s, [a], [b])| == |s|
    ensures forall k :: 0 <= k < |s| ==>
      Replace(s, [a], [b])[k] == if s[k] == a then b else s[k]
    decreases |s|
  {
    match Find(s, [a])
    case None =>
      CharBefore(s, a, |s|);
    case Some(i) =>
      var rest := s[i + 1..];
      var tail := Replace(rest, [a], [b]);
      ReplaceChar(rest, a, b);
      CharBefore(s, a, i);
      assert s[i..i + 1] == [a];
      var r := Replace(s, [a], [b]);
      assert r == s[..i] + [b] + tail;
      forall k | 0 <= k < |s|
        ensures r[k] == if s[k] == a then b else s[k]
      {
        if k > i {
          assert r[k] == tail[k - i - 1] && rest[k - i - 1] == s[k];
        }
      }
  }

  /** No position before the first occurrence of a character holds it. */
  lemma CharBefore(s: string, a: char, i: nat)
    requires i <= |s|
    requires forall j :: 0 <= j < i ==> !OccursAt(s, [a], j)
    ensures forall k :: 0 <= k < i ==> s[k] != a
  {
    forall k | 0 <= k < i
      ensures s[k] != a
    {
      assert !OccursAt(s, [a], k) && s[k..k + 1] == [s[k]];
    }
  }

  /** `s.upper()`. */
  function Upper(s: string): (r: string)
    ensures |r| == |s| && forall k :: 0 <= k < |s| ==> r[k] == UpperChar(s[k])
  {
    seq(|s|, k requires 0 <= k < |s| => UpperChar(s[k]))
  }

  /** `s.lower()`. */
  function Lower(s: string): (r: string)
    ensures |r| == |s| && forall k :: 0 <= k < |s| ==> r[k] == LowerChar(s[k])
  {
    seq(|s|, k requires 0 <= k < |s| => LowerChar(s[k]))
  }

  /** `title()` of `s` when the character before it was (or was not) cased. */
  function TitleFrom(s: string, afterCased: bool): (r: string)
    ensures |r| == |s|
    decreases |s|
  {
    if |s| == 0 then []
    else [if afterCased then LowerChar(s[0]) else UpperChar(s[0])] + TitleFrom(s[1..], IsCased(s[0]))
  }

  /** `s.title()`: a letter after a cased letter is lowered, any other letter raised. */
  function Title(s: string): string {
    TitleFrom(s, false)
  }

  /** `c * n`: `n` copies of `c`, none when `n` is zero or negative. */
  function Repeat(c: char, n: int): (r: string)
    ensures |r| == (if n > 0 then n else 0)
    ensures forall k :: 0 <= k < |r| ==> r[k] == c
  {
    seq(if n > 0 then n else 0, _ => c)
  }

  // ---------------------------------------------------------------------------
  // Numbers
  // ---------------------------------------------------------------------------

  function DigitChar(d: nat): char
    requires d < 10
  {
    ('0' as int + d) as char
  }

  /** `str(n)` for a natural number: its decimal digits, without leading zeros. */
  function NatToString(n: nat): (r: string)
    ensures |r| >= 1 && AllDigits(r)
    decreases n
  {
    if n < 10 then [DigitChar(n)] else NatToString(n / 10) + [DigitChar(n % 10)]
  }

  /** `str(i)`. */
  function IntToString(i: int): (r: string)
    ensures |r| >= 1
  {
    if i < 0 then "-" + NatToString(-i) else NatToString(i)
  }

  /** The value of a string of decimal digits. */
  function DigitsValue(s: string): nat
    requires AllDigits(s)
    decreases |s|
  {
    if |s| == 0 then 0 else 10 * DigitsValue(s[..|s| - 1]) + (s[|s| - 1] as int - '0' as int)
  }

  lemma {:induction false} DigitsValueOfNatToString(n: nat)
    ensures DigitsValue(NatToString(n)) == n
    decreases n
  {
    if n >= 10 {
      DigitsValueOfNatToString(n / 10);
      var s := NatToString(n);
      assert s[..|s| - 1] == NatToString(n / 10);
    }
  }

  /** `int(s)` on ASCII: optional surrounding whitespace, an optional sign, one or more digits. */
  function ParseInt(s: string): (r: Option<int>)
  {
    ParseStripped(Strip(s))
  }

  /** `int` on text without surrounding whitespace. */
  function ParseStripped(t: string): (r: Option<int>)
  {
    if |t| > 0 && (t[0] == '-' || t[0] == '+') then
      var d := t[1..];
      if |d| > 0 && AllDigits(d) then
        var v: int := DigitsValue(d);
        Some(if t[0] == '-' then -v else v)
      else None
    else if |t| > 0 && AllDigits(t) then Some(DigitsValue(t))
    else None
  }

  lemma ParseIntOfNatToString(n: nat)
    ensures ParseInt(NatToString(n)) == Some(n)
  {
    var s := NatToString(n);
    assert NoSpace(s);
    StripNoSpace(s);
    assert IsDigit(s[0]);
    DigitsValueOfNatToString(n);
  }

  lemma ParseIntOfNegative(n: nat)
    ensures ParseInt("-" + NatToString(n)) == Some(-(n as int))
  {
    var d := NatToString(n);
    var s := "-" + d;
    assert NoSpace(s);
    StripNoSpace(s);
    assert s[1..] == d;
    DigitsValueOfNatToString(n);
  }

  /** `int(str(i)) == i`: what the scripts write as a number reads back as the same number. */
  lemma ParseIntOfIntToString(i: int)
    ensures ParseInt(IntToString(i)) == Some(i)
  {
    if i < 0 {
      ParseIntOfNegativeInt(i);
    } else {
      ParseIntOfNatToString(i);
    }
  }

  lemma ParseIntOfNegativeInt(i: int)
    requires i < 0
    ensures ParseInt(IntToString(i)) == Some(i)
  {
    var n: nat := -i;
    var s := IntToString(i);
    assert s == "-" + NatToString(n);
    ParseIntOfNegative(n);
    assert ParseInt(s) == Some(-(n as int));
  }
}
