/** The parts of Python's `str` that the modelled code relies on: character
    classes, `lower`, substring search with `in`, `strip`, `split` with no
    argument and `" ".join`. */
module Text {

  /** Python's `str.isspace` on a single character. */
  predicate IsSpace(c: char) {
    c == ' ' || ('\t' <= c <= '\r') || ('\U{1C}' <= c <= '\U{1F}')
    || c == '\U{85}' || c == '\U{A0}' || c == '\U{1680}'
    || ('\U{2000}' <= c <= '\U{200A}') || c == '\U{2028}' || c == '\U{2029}'
    || c == '\U{202F}' || c == '\U{205F}' || c == '\U{3000}'
  }

  /** Python's `str.isalnum` on a single character, restricted to ASCII. */
  predicate IsAlnum(c: char) {
    ('a' <= c <= 'z') || ('A' <= c <= 'Z') || ('0' <= c <= '9')
  }

  predicate IsUpper(c: char) {
    'A' <= c <= 'Z'
  }

  /** A string with no upper-case letter. */
  predicate NoUpper(s: string) {
    forall i :: 0 <= i < |s| ==> !IsUpper(s[i])
  }

  function LowerChar(c: char): (r: char)
    ensures !IsUpper(r)
    ensures IsUpper(c) || r == c
  {
    if IsUpper(c) then (c as int - 'A' as int + 'a' as int) as char else c
  }

  /** Python's `str.lower`, restricted to ASCII letters. */
  function Lower(s: string): string {
    seq(|s|, i requires 0 <= i < |s| => LowerChar(s[i]))
  }

  /** A lower-cased string has no upper-case letter, the same length, and
      lower-casing it again changes nothing. */
  lemma LowerSpec(s: string)
    ensures |Lower(s)| == |s| && NoUpper(Lower(s))
    ensures Lower(Lower(s)) == Lower(s)
  {
  }

  /** Python's `sub in s` for two strings. */
  predicate Contains(s: string, sub: string)
    decreases |s|
  {
    sub <= s || (s != [] && Contains(s[1..], sub))
  }

  /** Python's `s.lstrip()`. */
  function StripLeft(s: string): (r: string)
    ensures |r| <= |s| && r == s[|s| - |r|..]
    ensures forall k :: 0 <= k < |s| - |r| ==> IsSpace(s[k])
    ensures r != [] ==> !IsSpace(r[0])
  {
    if s != [] && IsSpace(s[0]) then StripLeft(s[1..]) else s
  }

  /** Python's `s.rstrip()`. */
  function StripRight(s: string): (r: string)
    ensures |r| <= |s| && r == s[..|r|]
    ensures forall k :: |r| <= k < |s| ==> IsSpace(s[k])
    ensures r != [] ==> !IsSpace(r[|r| - 1])
  {
    if s != [] && IsSpace(s[|s| - 1]) then StripRight(s[..|s| - 1]) else s
  }

  /** Python's `s.strip()`: the longest slice of `s` that neither starts nor
      ends with whitespace, everything cut off being whitespace. */
  function Strip(s: string): (r: string)
  {
    StripRight(StripLeft(s))
  }

  /** Length of the run of non-whitespace characters at the start of `s`. */
  function LeadingWord(s: string): (n: nat)
    ensures n <= |s|
    ensures forall k :: 0 <= k < n ==> !IsSpace(s[k])
    ensures n < |s| ==> IsSpace(s[n])
  {
    if s == [] || IsSpace(s[0]) then 0 else 1 + LeadingWord(s[1..])
  }

  /** A word as `split()` returns it: non-empty, without whitespace. */
  predicate IsWord(w: string) {
    w != [] && forall k :: 0 <= k < |w| ==> !IsSpace(w[k])
  }

  /** Python's `s.split()` with no argument: the maximal runs of
      non-whitespace characters, in order. */
  function Words(s: string): (ws: seq<string>)
    ensures forall k :: 0 <= k < |ws| ==> IsWord(ws[k])
    decreases |s|
  {
    if s == [] then []
    else if IsSpace(s[0]) then Words(s[1..])
    else
      var n := LeadingWord(s);
      [s[..n]] + Words(s[n..])
  }

  /** Python's `" ".join(ws)`. */
  function JoinSpace(ws: seq<string>): string
  {
    if ws == [] then ""
    else if |ws| == 1 then ws[0]
    else ws[0] + " " + JoinSpace(ws[1..])
  }

  /** The string built by `for x in xs: acc += " " + x` from `acc = ""`. */
  function SpaceEach(xs: seq<string>): string
  {
    if xs == [] then "" else SpaceEach(xs[..|xs| - 1]) + " " + xs[|xs| - 1]
  }

  lemma SpaceEachSnoc(xs: seq<string>, x: string)
    ensures SpaceEach(xs + [x]) == SpaceEach(xs) + " " + x
  {
    assert (xs + [x])[..|xs|] == xs;
  }

  lemma {:induction false} LeadingWordOf(w: string, rest: string)
    requires IsWord(w)
    requires rest == [] || IsSpace(rest[0])
    ensures LeadingWord(w + rest) == |w|
    decreases |w|
  {
    if |w| > 1 {
      assert (w + rest)[1..] == w[1..] + rest;
      LeadingWordOf(w[1..], rest);
    } else {
      assert (w + rest)[1..] == rest;
    }
  }

  lemma WordsOfWordThen(w: string, rest: string)
    requires IsWord(w)
    requires rest == [] || IsSpace(rest[0])
    ensures Words(w + rest) == [w] + Words(rest)
  {
    LeadingWordOf(w, rest);
    var s := w + rest;
    assert s[..|w|] == w && s[|w|..] == rest;
  }

  /** `" ".join` and `split()` are inverse on lists of words. */
  lemma {:induction false} SplitJoin(ws: seq<string>)
    requires forall k :: 0 <= k < |ws| ==> IsWord(ws[k])
    ensures Words(JoinSpace(ws)) == ws
  {
    if |ws| == 1 {
      WordsOfWordThen(ws[0], "");
      assert ws[0] + "" == ws[0];
    } else if |ws| > 1 {
      var tail := JoinSpace(ws[1..]);
      assert ws[0] + " " + tail == ws[0] + (" " + tail);
      WordsOfWordThen(ws[0], " " + tail);
      assert (" " + tail)[1..] == tail;
      SplitJoin(ws[1..]);
      assert [ws[0]] + ws[1..] == ws;
    }
  }
}
