/** Text helpers shared by the model: the few Python string operations the
    airbridge relies on (substring tests, strip, split, int parsing and
    decimal formatting), written out over `string` = `seq<char>`. */
module Text {

  datatype Option<T> = None | Some(value: T)

  // ---------------------------------------------------------------------
  // Prefixes, suffixes and substrings
  // ---------------------------------------------------------------------

  /** Python `s.startswith(p)`. */
  predicate StartsWith(s: string, p: string) {
    |p| <= |s| && s[..|p|] == p
  }

  /** Python `s.endswith(p)`. */
  predicate EndsWith(s: string, p: string) {
    |p| <= |s| && s[|s| - |p|..] == p
  }

  /** Python `needle in hay`: the needle occurs at some position of hay. */
  predicate Contains(hay: string, needle: string)
    decreases |hay|
  {
    StartsWith(hay, needle) || (|hay| > 0 && Contains(hay[1..], needle))
  }

  lemma {:induction false} ContainsAt(hay: string, needle: string, i: nat)
    requires i + |needle| <= |hay| && hay[i..i + |needle|] == needle
    ensures Contains(hay, needle)
    decreases i
  {
    if i == 0 {
      assert StartsWith(hay, needle);
    } else {
      assert hay[1..][i - 1..i - 1 + |needle|] == needle;
      ContainsAt(hay[1..], needle, i - 1);
    }
  }

  /** Whatever is spliced around a needle, the needle is still in the text. */
  lemma ContainsInfix(a: string, needle: string, b: string)
    ensures Contains(a + needle + b, needle)
  {
    var s := a + needle + b;
    assert s[|a|..|a| + |needle|] == needle;
    ContainsAt(s, needle, |a|);
  }

  /** A needle never occurs in a text shorter than itself. */
  lemma {:induction false} ContainsNeedsRoom(hay: string, needle: string)
    requires Contains(hay, needle)
    ensures |needle| <= |hay|
    decreases |hay|
  {
    if !StartsWith(hay, needle) {
      ContainsNeedsRoom(hay[1..], needle);
    }
  }

  // ---------------------------------------------------------------------
  // Character classes and strip
  // ---------------------------------------------------------------------

  /** The characters Python's `str.strip()` and `str.split()` treat as white
      space (`str.isspace()`): the ASCII controls tab to carriage return and
      the file, group, record and unit separators, the space, and the Unicode
      line, paragraph and space separators. */
  const Whitespace: set<char> := {
    '\t', '\n', '\U{000B}', '\U{000C}', '\r', '\U{001C}', '\U{001D}', '\U{001E}', '\U{001F}',
    ' ', '\U{0085}', '\U{00A0}', '\U{1680}',
    '\U{2000}', '\U{2001}', '\U{2002}', '\U{2003}', '\U{2004}', '\U{2005}', '\U{2006}',
    '\U{2007}', '\U{2008}', '\U{2009}', '\U{200A}',
    '\U{2028}', '\U{2029}', '\U{202F}', '\U{205F}', '\U{3000}'}

  const Digits: set<char> := {'0', '1', '2', '3', '4', '5', '6', '7', '8', '9'}

  predicate AllIn(s: string, chars: set<char>) {
    forall i :: 0 <= i < |s| ==> s[i] in chars
  }

  /** Python `s.lstrip(chars)`. */
  function LStrip(s: string, chars: set<char>): (r: string)
    ensures |r| <= |s| && r == s[|s| - |r|..]
    ensures AllIn(s[..|s| - |r|], chars)
    ensures r == [] || r[0] !in chars
    decreases |s|
  {
    if |s| > 0 && s[0] in chars then
      var r := LStrip(s[1..], chars);
      assert s[..|s| - |r|] == [s[0]] + s[1..][..|s| - 1 - |r|];
      r
    else s
  }

  /** Python `s.rstrip(chars)`. */
  function RStrip(s: string, chars: set<char>): (r: string)
    ensures |r| <= |s| && r == s[..|r|]
    ensures AllIn(s[|r|..], chars)
    ensures r == [] || r[|r| - 1] !in chars
    decreases |s|
  {
    if |s| > 0 && s[|s| - 1] in chars then
      var r := RStrip(s[..|s| - 1], chars);
      assert s[|r|..] == s[..|s| - 1][|r|..] + [s[|s| - 1]];
      r
    else s
  }

  /** Python `s.strip()`. */
  function Strip(s: string): string {
    RStrip(LStrip(s, Whitespace), Whitespace)
  }

  lemma {:induction false} LStripPadded(w: string, t: string, chars: set<char>)
    requires AllIn(w, chars)
    requires t == [] || t[0] !in chars
    ensures LStrip(w + t, chars) == t
    decreases |w|
  {
    if w != [] {
      assert (w + t)[1..] == w[1..] + t;
      LStripPadded(w[1..], t, chars);
    } else {
      assert w + t == t;
    }
  }

  lemma {:induction false} RStripPadded(t: string, w: string, chars: set<char>)
    requires AllIn(w, chars)
    requires t == [] || t[|t| - 1] !in chars
    ensures RStrip(t + w, chars) == t
    decreases |w|
  {
    if w != [] {
      assert (t + w)[..|t + w| - 1] == t + w[..|w| - 1];
      RStripPadded(t, w[..|w| - 1], chars);
    } else {
      assert t + w == t;
    }
  }

  /** strip() removes exactly the white space padding around a word that
      neither starts nor ends with white space. */
  lemma StripPadded(w1: string, t: string, w2: string)
    requires AllIn(w1, Whitespace) && AllIn(w2, Whitespace)
    requires t != [] && t[0] !in Whitespace && t[|t| - 1] !in Whitespace
    ensures Strip(w1 + t + w2) == t
  {
    assert w1 + t + w2 == w1 + (t + w2);
    LStripPadded(w1, t + w2, Whitespace);
    RStripPadded(t, w2, Whitespace);
  }

  // ---------------------------------------------------------------------
  // Decimal numbers
  // ---------------------------------------------------------------------

  function DigitValue(c: char): (d: nat)
    requires c in Digits
    ensures d < 10
  {
    (c as int - '0' as int) as nat
  }

  function DigitChar(d: nat): (c: char)
    requires d < 10
    ensures c in Digits && DigitValue(c) == d
  {
    (d + '0' as int) as char
  }

  /** Value of a string of decimal digits, most significant first. */
  function DigitsValue(s: string): nat
    requires AllIn(s, Digits)
  {
    if s == [] then 0 else DigitsValue(s[..|s| - 1]) * 10 + DigitValue(s[|s| - 1])
  }

  /** Python `str(n)` for a non-negative integer. */
  function ShowNat(n: nat): (r: string)
    ensures r != [] && AllIn(r, Digits)
  {
    if n < 10 then [DigitChar(n)] else ShowNat(n / 10) + [DigitChar(n % 10)]
  }

  /** Reading back a formatted number gives the number. */
  lemma {:induction false} ShowNatRoundTrip(n: nat)
    ensures DigitsValue(ShowNat(n)) == n
  {
    if n >= 10 {
      var s := ShowNat(n);
      assert s[..|s| - 1] == ShowNat(n / 10);
      ShowNatRoundTrip(n / 10);
    }
  }

  /** Distinct numbers are shown differently; in particular only 0 is shown as "0". */
  lemma ShowNatInjective(m: nat, n: nat)
    requires ShowNat(m) == ShowNat(n)
    ensures m == n
  {
    ShowNatRoundTrip(m);
    ShowNatRoundTrip(n);
  }

  /** Python `int(s)` on text made of surrounding white space, an optional
      sign and ASCII decimal digits; any other text is `None`, which stands
      for the ValueError. Python also accepts single underscores between
      digits and non-ASCII decimal digits, which this definition rejects. */
  function ParseInt(s: string): (r: Option<int>)
    ensures r.Some? ==> Strip(s) != []
  {
    ParseStripped(Strip(s))
  }

  /** `int()` once the white space is stripped. */
  function ParseStripped(t: string): (r: Option<int>)
    ensures r.Some? ==> t != []
  {
    if |t| >= 2 && (t[0] == '-' || t[0] == '+') && AllIn(t[1..], Digits) then
      var v: int := DigitsValue(t[1..]);
      Some(if t[0] == '-' then -v else v)
    else if t != [] && AllIn(t, Digits) then
      Some(DigitsValue(t))
    else
      None
  }

  /** `int()` of an unsigned run of digits is its decimal value. */
  lemma ParseDigitsOnly(s: string, t: string)
    requires Strip(s) == t && t != [] && AllIn(t, Digits)
    ensures ParseInt(s) == Some(DigitsValue(t))
  {
    DigitsUnsigned(t);
  }

  lemma DigitsUnsigned(t: string)
    requires t != [] && AllIn(t, Digits)
    ensures ParseStripped(t) == Some(DigitsValue(t))
  {
    assert t[0] in Digits;
  }

  /** `int()` of a formatted number padded with white space gives it back. */
  lemma ParseShowNat(w1: string, n: nat, w2: string)
    requires AllIn(w1, Whitespace) && AllIn(w2, Whitespace)
    ensures ParseInt(w1 + ShowNat(n) + w2) == Some(n)
  {
    var t := ShowNat(n);
    assert t[0] in Digits && t[|t| - 1] in Digits;
    StripPadded(w1, t, w2);
    ParseDigitsOnly(w1 + t + w2, t);
    ShowNatRoundTrip(n);
  }

  // ---------------------------------------------------------------------
  // split
  // ---------------------------------------------------------------------

  /** Python `s.split(c)` for a one-character separator: the pieces between
      separators, always at least one. */
  function SplitOn(s: string, c: char): (r: seq<string>)
    ensures |r| >= 1
    decreases |s|
  {
    if s == [] then [""]
    else
      var rest := SplitOn(s[1..], c);
      if s[0] == c then [""] + rest else [[s[0]] + rest[0]] + rest[1..]
  }

  /** Splitting at the first separator: the text before it is the first
      piece and the rest is split on. */
  lemma {:induction false} SplitOnFirst(a: string, c: char, b: string)
    requires c !in a
    ensures SplitOn(a + [c] + b, c) == [a] + SplitOn(b, c)
    decreases |a|
  {
    if a == [] {
      assert a + [c] + b == [c] + b;
      assert ([c] + b)[1..] == b;
    } else {
      assert (a + [c] + b)[1..] == a[1..] + [c] + b;
      SplitOnFirst(a[1..], c, b);
      assert [a[0]] + a[1..] == a;
    }
  }

  /** Without a separator the text is a single piece. */
  lemma {:induction false} SplitOnNone(a: string, c: char)
    requires c !in a
    ensures SplitOn(a, c) == [a]
    decreases |a|
  {
    if a != [] {
      SplitOnNone(a[1..], c);
      assert [a[0]] + a[1..] == a;
    }
  }

  /** Python `s.split()` with no argument: the maximal runs of
      non-white-space characters. */
  function Words(s: string): (r: seq<string>)
    decreases |s|
  {
    var t := LStrip(s, Whitespace);
    if t == [] then []
    else
      var w := TakeWord(t);
      [w] + Words(t[|w|..])
  }

  /** The leading run of non-white-space characters. */
  function TakeWord(t: string): (w: string)
    ensures |w| <= |t| && w == t[..|w|]
    ensures t != [] && t[0] !in Whitespace ==> |w| >= 1
    decreases |t|
  {
    if t == [] || t[0] in Whitespace then [] else [t[0]] + TakeWord(t[1..])
  }

  lemma {:induction false} TakeWordOf(w: string, rest: string)
    requires forall i :: 0 <= i < |w| ==> w[i] !in Whitespace
    requires rest == [] || rest[0] in Whitespace
    ensures TakeWord(w + rest) == w
    decreases |w|
  {
    if w == [] {
      assert w + rest == rest;
    } else {
      assert (w + rest)[1..] == w[1..] + rest;
      TakeWordOf(w[1..], rest);
      assert [w[0]] + w[1..] == w;
    }
  }

  /** Fields joined by single spaces, as a kernel statistics line prints them. */
  function JoinSpaced(fields: seq<string>): string {
    if fields == [] then ""
    else if |fields| == 1 then fields[0]
    else fields[0] + (" " + JoinSpaced(fields[1..]))
  }

  predicate IsWord(w: string) {
    w != [] && forall i :: 0 <= i < |w| ==> w[i] !in Whitespace
  }

  /** A word followed by white space (or nothing) is split off as one field. */
  lemma WordsCons(w: string, rest: string)
    requires IsWord(w)
    requires rest == [] || rest[0] in Whitespace
    ensures Words(w + rest) == [w] + Words(rest)
  {
    var s := w + rest;
    assert s[0] == w[0];
    assert LStrip(s, Whitespace) == s;
    TakeWordOf(w, rest);
    assert s[|w|..] == rest;
  }

  /** Leading white space does not change the fields. */
  lemma WordsSpace(j: string)
    ensures Words(" " + j) == Words(j)
  {
    assert (" " + j)[1..] == j;
    assert LStrip(" " + j, Whitespace) == LStrip(j, Whitespace);
  }

  lemma JoinSpacedStartsWithWord(fields: seq<string>)
    requires |fields| >= 1 && IsWord(fields[0])
    ensures JoinSpaced(fields) != [] && JoinSpaced(fields)[0] == fields[0][0]
  {
  }

  predicate AllWords(fields: seq<string>) {
    forall k :: 0 <= k < |fields| ==> IsWord(fields[k])
  }

  /** One step of the join: a word, a space, and an already split join. */
  lemma WordsOfJoinStep(w: string, rest: seq<string>)
    requires IsWord(w) && rest != [] && IsWord(rest[0])
    requires Words(JoinSpaced(rest)) == rest
    ensures Words(w + (" " + JoinSpaced(rest))) == [w] + rest
  {
    var j := JoinSpaced(rest);
    JoinSpacedStartsWithWord(rest);
    assert (" " + j)[0] in Whitespace;
    WordsCons(w, " " + j);
    WordsSpace(j);
  }

  lemma WordsEmpty()
    ensures Words("") == []
  {
    assert LStrip("", Whitespace) == "";
  }

  lemma WordsOfSingle(w: string)
    requires IsWord(w)
    ensures Words(JoinSpaced([w])) == [w]
  {
    WordsCons(w, "");
    assert w + "" == w;
    WordsEmpty();
  }

  lemma HeadTail<T>(s: seq<T>)
    requires |s| >= 1
    ensures s == [s[0]] + s[1..]
  {
  }

  /** split() undoes a single-space join of non-empty words. */
  lemma {:induction false} WordsOfJoin(fields: seq<string>)
    requires AllWords(fields)
    ensures Words(JoinSpaced(fields)) == fields
    decreases |fields|
  {
    if fields == [] {
      WordsEmpty();
    } else if |fields| == 1 {
      assert fields == [fields[0]];
      WordsOfSingle(fields[0]);
    } else {
      var w, rest := fields[0], fields[1..];
      assert IsWord(w);
      assert AllWords(rest) by {
        forall k | 0 <= k < |rest| ensures IsWord(rest[k]) { assert rest[k] == fields[k + 1]; }
      }
      WordsOfJoin(rest);
      assert IsWord(rest[0]);
      WordsOfJoinStep(w, rest);
      HeadTail(fields);
    }
  }

  // ---------------------------------------------------------------------
  // replace
  // ---------------------------------------------------------------------

  /** Python `s.replace(pat, "")`: every non-overlapping occurrence of pat,
      scanned left to right, is removed. */
  function RemoveAll(s: string, pat: string): string
    requires pat != []
    decreases |s|
  {
    if |s| < |pat| then s
    else if s[..|pat|] == pat then RemoveAll(s[|pat|..], pat)
    else [s[0]] + RemoveAll(s[1..], pat)
  }
}
