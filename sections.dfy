/** The section locator and extractor of business_info.py (class
    `BusinessInfo`): cleaning the raw lines of a 10-K report, finding the lines
    that bound the business section (item 1) and the financial discussion
    (item 7), and gluing together the lines between two bounds. */
module Sections {
  import opened Wrappers
  import opened Text

  // ---------------------------------------------------------------------
  // Line cleaning (getLines, without the file read)
  // ---------------------------------------------------------------------

  const PunctuationChars: seq<char> := [',', '.', ':', ';', '-']

  /** The characters `getLines` keeps. */
  predicate KeptChar(c: char) {
    IsAlnum(c) || IsSpace(c) || c in PunctuationChars
  }

  /** `''.join(char for char in line if ...)`: the kept characters of `line`,
      each as often as it occurs there, in their original order. */
  function FilterChars(line: string): (r: string)
    ensures |r| <= |line|
    ensures forall k :: 0 <= k < |r| ==> KeptChar(r[k])
    ensures forall c :: multiset(r)[c] == if KeptChar(c) then multiset(line)[c] else 0
  {
    if line == [] then ""
    else
      var init := line[..|line| - 1];
      var c := line[|line| - 1];
      assert line == init + [c];
      if KeptChar(c) then FilterChars(init) + [c] else FilterChars(init)
  }

  /** One line as `getLines` returns it: filtered, then stripped. */
  function CleanLine(line: string): string {
    Strip(FilterChars(line))
  }

  /** What every cleaned line looks like. */
  predicate IsClean(s: string) {
    && (forall k :: 0 <= k < |s| ==> KeptChar(s[k]))
    && (s != [] ==> !IsSpace(s[0]) && !IsSpace(s[|s| - 1]))
  }

  function CleanedLines(raw: seq<string>): (lines: seq<string>)
    ensures |lines| == |raw|
  {
    seq(|raw|, i requires 0 <= i < |raw| => CleanLine(raw[i]))
  }

  lemma {:induction false} FilterCharsKeepsClean(s: string)
    requires forall k :: 0 <= k < |s| ==> KeptChar(s[k])
    ensures FilterChars(s) == s
  {
    if s != [] {
      FilterCharsKeepsClean(s[..|s| - 1]);
    }
  }

  /** Stripping a string of kept characters gives a clean string. */
  lemma StripKeptIsClean(f: string)
    requires forall k :: 0 <= k < |f| ==> KeptChar(f[k])
    ensures IsClean(Strip(f))
  {
    var l := StripLeft(f);
    var r := StripRight(l);
    forall k | 0 <= k < |r| ensures KeptChar(r[k]) {
      assert r[k] == l[k] == f[|f| - |l| + k];
    }
  }

  /** A cleaned line is clean. */
  lemma CleanLineIsClean(line: string)
    ensures IsClean(CleanLine(line))
  {
    StripKeptIsClean(FilterChars(line));
  }

  /** Cleaning a cleaned line changes nothing. */
  lemma CleanLineIdempotent(line: string)
    ensures CleanLine(CleanLine(line)) == CleanLine(line)
  {
    var r := CleanLine(line);
    CleanLineIsClean(line);
    FilterCharsKeepsClean(r);
    assert StripLeft(r) == r;
    assert StripRight(r) == r;
  }

  // ---------------------------------------------------------------------
  // Marker counting (infoLines, finLines)
  // ---------------------------------------------------------------------

  /** The test at business_info.py:82. `"item 1." and "business" in
      line.lower()` parses as `"item 1." and ("business" in ...)`, and a
      non-empty string literal is true, so only "business" is looked for. */
  const BusinessMarker := "business"
  const RiskMarker := "item 1a"
  /** The tests at business_info.py:103 and :109, with the same quirk:
      "item 7" and "item 9" are never looked for. */
  const AnalysisMarker := "discussion and analysis"
  const DisagreementsMarker := "disagreements"

  /** `phrase in line.lower()` */
  predicate Marks(line: string, phrase: string) {
    Contains(Lower(line), phrase)
  }

  /** How many of the first `n` lines contain `phrase`, case-insensitively. */
  function Occurrences(lines: seq<string>, n: nat, phrase: string): (c: nat)
    requires n <= |lines|
    ensures c <= n
  {
    if n == 0 then 0
    else Occurrences(lines, n - 1, phrase) + (if Marks(lines[n - 1], phrase) then 1 else 0)
  }

  /** Line `i` is the `count`-th line containing `phrase`. */
  predicate NthHit(lines: seq<string>, i: int, phrase: string, count: nat) {
    0 <= i < |lines| && Marks(lines[i], phrase) && Occurrences(lines, i + 1, phrase) == count
  }

  /** The indices `infoLines` has collected after its first `n` iterations:
      per line, the 3rd "business" line, then the 3rd "item 1a" line. */
  function InfoIndicesUpTo(lines: seq<string>, n: nat): seq<int>
    requires n <= |lines|
  {
    if n == 0 then []
    else
      InfoIndicesUpTo(lines, n - 1)
      + (if NthHit(lines, n - 1, BusinessMarker, 3) then [n - 1] else [])
      + (if NthHit(lines, n - 1, RiskMarker, 3) then [n - 1] else [])
  }

  function InfoIndices(lines: seq<string>): seq<int> {
    InfoIndicesUpTo(lines, |lines|)
  }

  /** The lines among the first `n` that are the `count`-th containing `phrase`. */
  function HitsUpTo(lines: seq<string>, n: nat, phrase: string, count: nat): seq<int>
    requires n <= |lines|
  {
    if n == 0 then []
    else HitsUpTo(lines, n - 1, phrase, count) + (if NthHit(lines, n - 1, phrase, count) then [n - 1] else [])
  }

  /** The lines among the first `n` that contain `phrase`, in order. */
  function MarkedUpTo(lines: seq<string>, n: nat, phrase: string): seq<int>
    requires n <= |lines|
  {
    if n == 0 then []
    else MarkedUpTo(lines, n - 1, phrase) + (if Marks(lines[n - 1], phrase) then [n - 1] else [])
  }

  /** What `finLines` returns: the 4th "discussion and analysis" line, if
      any, then the last "disagreements" line; an IndexError when no line
      contains "disagreements" (`last_indices[-1]` on an empty list). */
  function FinIndices(lines: seq<string>): Result<seq<int>> {
    var last := MarkedUpTo(lines, |lines|, DisagreementsMarker);
    if last == [] then Err(IndexError)
    else Ok(HitsUpTo(lines, |lines|, AnalysisMarker, 4) + [last[|last| - 1]])
  }

  lemma {:induction false} OccurrencesMono(lines: seq<string>, phrase: string, m: nat, n: nat)
    requires m <= n <= |lines|
    ensures Occurrences(lines, m, phrase) <= Occurrences(lines, n, phrase)
    decreases n
  {
    if m < n {
      OccurrencesMono(lines, phrase, m, n - 1);
    }
  }

  /** Line `n - 1` is the `count`-th hit exactly when the counter crosses
      `count` on it. */
  lemma StepHit(lines: seq<string>, n: nat, phrase: string, count: nat)
    requires 1 <= n <= |lines| && count >= 1
    ensures NthHit(lines, n - 1, phrase, count)
      <==> Occurrences(lines, n - 1, phrase) < count <= Occurrences(lines, n, phrase)
  {
  }

  /** At most one line is the `count`-th hit. */
  lemma NthHitUnique(lines: seq<string>, phrase: string, count: nat, i: int, j: int)
    requires NthHit(lines, i, phrase, count) && NthHit(lines, j, phrase, count)
    ensures i == j
  {
    if i < j {
      OccurrencesMono(lines, phrase, i + 1, j);
    } else if j < i {
      OccurrencesMono(lines, phrase, j + 1, i);
    }
  }

  /** A `count`-th hit exists among the first `n` lines exactly when at
      least `count` of them contain the phrase. */
  lemma {:induction false} NthHitExists(lines: seq<string>, phrase: string, count: nat, n: nat)
    requires n <= |lines| && count >= 1
    ensures (exists i :: 0 <= i < n && NthHit(lines, i, phrase, count))
      <==> count <= Occurrences(lines, n, phrase)
  {
    if n > 0 {
      NthHitExists(lines, phrase, count, n - 1);
      if exists i :: 0 <= i < n && NthHit(lines, i, phrase, count) {
        var i :| 0 <= i < n && NthHit(lines, i, phrase, count);
        OccurrencesMono(lines, phrase, i + 1, n);
      }
      if count <= Occurrences(lines, n, phrase) && Occurrences(lines, n - 1, phrase) < count {
        assert NthHit(lines, n - 1, phrase, count);
      }
    }
  }

  /** The `count`-th hits among the first `n` lines: at most one, and one
      exactly when the phrase occurs at least `count` times. */
  lemma {:induction false} HitsUpToCount(lines: seq<string>, n: nat, phrase: string, count: nat)
    requires n <= |lines| && count >= 1
    ensures |HitsUpTo(lines, n, phrase, count)| == if count <= Occurrences(lines, n, phrase) then 1 else 0
  {
    if n > 0 {
      HitsUpToCount(lines, n - 1, phrase, count);
      StepHit(lines, n, phrase, count);
    }
  }

  lemma {:induction false} HitsUpToMembers(lines: seq<string>, n: nat, phrase: string, count: nat)
    requires n <= |lines|
    ensures forall i :: i in HitsUpTo(lines, n, phrase, count) <==> 0 <= i < n && NthHit(lines, i, phrase, count)
  {
    if n > 0 {
      HitsUpToMembers(lines, n - 1, phrase, count);
    }
  }

  /** `MarkedUpTo` lists exactly the lines containing the phrase. */
  lemma {:induction false} MarkedUpToMembers(lines: seq<string>, n: nat, phrase: string)
    requires n <= |lines|
    ensures forall j :: j in MarkedUpTo(lines, n, phrase) <==> 0 <= j < n && Marks(lines[j], phrase)
  {
    if n > 0 {
      MarkedUpToMembers(lines, n - 1, phrase);
    }
  }

  /** No line after the last entry of `MarkedUpTo` contains the phrase. */
  lemma {:induction false} MarkedUpToLast(lines: seq<string>, n: nat, phrase: string)
    requires n <= |lines|
    ensures var m := MarkedUpTo(lines, n, phrase);
      m != [] ==> forall j :: 0 <= j < n && m[|m| - 1] < j ==> !Marks(lines[j], phrase)
  {
    if n > 0 {
      MarkedUpToLast(lines, n - 1, phrase);
    }
  }

  /** infoLines: an index is recorded exactly when a counter reaches 3, so
      at most one per counter. */
  lemma {:induction false} InfoIndicesUpToCount(lines: seq<string>, n: nat)
    requires n <= |lines|
    ensures |InfoIndicesUpTo(lines, n)|
      == (if Occurrences(lines, n, BusinessMarker) >= 3 then 1 else 0)
       + (if Occurrences(lines, n, RiskMarker) >= 3 then 1 else 0)
  {
    if n > 0 {
      InfoIndicesUpToCount(lines, n - 1);
      StepHit(lines, n, BusinessMarker, 3);
      StepHit(lines, n, RiskMarker, 3);
    }
  }

  lemma {:induction false} InfoIndicesUpToMembers(lines: seq<string>, n: nat)
    requires n <= |lines|
    ensures forall i :: i in InfoIndicesUpTo(lines, n) <==> (0 <= i < n
      && (NthHit(lines, i, BusinessMarker, 3) || NthHit(lines, i, RiskMarker, 3)))
  {
    if n > 0 {
      InfoIndicesUpToMembers(lines, n - 1);
    }
  }

  /** The indices are recorded in scan order. */
  lemma {:induction false} InfoIndicesUpToOrdered(lines: seq<string>, n: nat)
    requires n <= |lines|
    ensures forall k :: 0 <= k < |InfoIndicesUpTo(lines, n)| ==> 0 <= InfoIndicesUpTo(lines, n)[k] < n
    ensures forall a, b :: 0 <= a < b < |InfoIndicesUpTo(lines, n)| ==>
      InfoIndicesUpTo(lines, n)[a] <= InfoIndicesUpTo(lines, n)[b]
  {
    if n > 0 {
      InfoIndicesUpToOrdered(lines, n - 1);
      var prev := InfoIndicesUpTo(lines, n - 1);
      var tail := (if NthHit(lines, n - 1, BusinessMarker, 3) then [n - 1] else [])
        + (if NthHit(lines, n - 1, RiskMarker, 3) then [n - 1] else []);
      var r := InfoIndicesUpTo(lines, n);
      assert r == prev + tail;
      assert forall k :: 0 <= k < |tail| ==> tail[k] == n - 1;
      assert forall k :: 0 <= k < |r| ==> r[k] == if k < |prev| then prev[k] else tail[k - |prev|];
      assert forall k :: 0 <= k < |prev| ==> 0 <= prev[k] < n - 1;
      forall a, b | 0 <= a < b < |r| ensures r[a] <= r[b] {
        if b < |prev| {
          assert r[a] == prev[a] && r[b] == prev[b];
        }
      }
    }
  }

  lemma InfoIndicesSpec(lines: seq<string>)
    ensures var r := InfoIndices(lines);
      && |r| <= 2
      && (|r| == 2 <==> (Occurrences(lines, |lines|, BusinessMarker) >= 3
                      && Occurrences(lines, |lines|, RiskMarker) >= 3))
      && (forall k :: 0 <= k < |r| ==> 0 <= r[k] < |lines|)
      && (forall i :: i in r <==> NthHit(lines, i, BusinessMarker, 3) || NthHit(lines, i, RiskMarker, 3))
      && (forall a, b :: 0 <= a < b < |r| ==> r[a] <= r[b])
  {
    InfoIndicesUpToCount(lines, |lines|);
    InfoIndicesUpToMembers(lines, |lines|);
    InfoIndicesUpToOrdered(lines, |lines|);
  }

  /** finLines fails exactly when no line contains "disagreements". */
  lemma FinIndicesFails(lines: seq<string>)
    ensures FinIndices(lines).Ok? <==> exists j :: 0 <= j < |lines| && Marks(lines[j], DisagreementsMarker)
  {
    MarkedUpToMembers(lines, |lines|, DisagreementsMarker);
    if exists j :: 0 <= j < |lines| && Marks(lines[j], DisagreementsMarker) {
      var j :| 0 <= j < |lines| && Marks(lines[j], DisagreementsMarker);
      assert j in MarkedUpTo(lines, |lines|, DisagreementsMarker);
    }
    var m := MarkedUpTo(lines, |lines|, DisagreementsMarker);
    if m != [] {
      var j := m[|m| - 1];
      assert j in m;
      assert 0 <= j < |lines| && Marks(lines[j], DisagreementsMarker);
    }
  }

  /** Otherwise it ends with the last "disagreements" line, preceded by the
      4th "discussion and analysis" line when there is one. */
  lemma FinIndicesSpec(lines: seq<string>)
    requires FinIndices(lines).Ok?
    ensures var r := FinIndices(lines).value;
      && |r| == (if Occurrences(lines, |lines|, AnalysisMarker) >= 4 then 2 else 1)
      && 0 <= r[|r| - 1] < |lines| && Marks(lines[r[|r| - 1]], DisagreementsMarker)
      && (forall j :: r[|r| - 1] < j < |lines| ==> !Marks(lines[j], DisagreementsMarker))
      && (|r| == 2 ==> NthHit(lines, r[0], AnalysisMarker, 4))
  {
    var m := MarkedUpTo(lines, |lines|, DisagreementsMarker);
    MarkedUpToMembers(lines, |lines|, DisagreementsMarker);
    MarkedUpToLast(lines, |lines|, DisagreementsMarker);
    assert m[|m| - 1] in m;
    var h := HitsUpTo(lines, |lines|, AnalysisMarker, 4);
    var r := FinIndices(lines).value;
    assert r == h + [m[|m| - 1]];
    HitsUpToCount(lines, |lines|, AnalysisMarker, 4);
    if |h| == 1 {
      HitsUpToMembers(lines, |lines|, AnalysisMarker, 4);
      assert h[0] in h;
    }
  }

  // ---------------------------------------------------------------------
  // Section extraction (businessInfo, finInfo)
  // ---------------------------------------------------------------------

  /** `lines[j]` with Python's indexing: negative `j` counts from the end. */
  function PyIndex(lines: seq<string>, j: int): Result<string> {
    if 0 <= j < |lines| then Ok(lines[j])
    else if -|lines| <= j < 0 then Ok(lines[|lines| + j])
    else Err(IndexError)
  }

  /** `for j in range(lo, hi): btext += " " + lines[j]` from `btext = ""`. */
  function Span(lines: seq<string>, lo: int, hi: int): Result<string>
    decreases hi - lo
  {
    if hi <= lo then Ok("")
    else
      var acc :- Span(lines, lo, hi - 1);
      var line :- PyIndex(lines, hi - 1);
      Ok(acc + " " + line)
  }

  /** What `businessInfo(indices)` and `finInfo(indices)` return. */
  function Section(lines: seq<string>, indices: seq<int>): Result<string> {
    if |indices| < 2 then Err(IndexError) else Span(lines, indices[0] + 1, indices[1])
  }

  lemma {:induction false} SpanErrPropagates(lines: seq<string>, lo: int, m: int, hi: int)
    requires m <= hi && Span(lines, lo, m) == Err(IndexError)
    ensures Span(lines, lo, hi) == Err(IndexError)
    decreases hi - m
  {
    if m < hi {
      SpanErrPropagates(lines, lo, m, hi - 1);
    }
  }

  /** The range loop fails exactly when it reaches an index Python's
      indexing rejects. */
  lemma {:induction false} SpanOk(lines: seq<string>, lo: int, hi: int)
    ensures Span(lines, lo, hi).Ok? <==> hi <= lo || (-|lines| <= lo && hi <= |lines|)
    decreases hi - lo
  {
    if hi > lo {
      SpanOk(lines, lo, hi - 1);
    }
  }

  /** Over valid indices the range loop glues the lines of the slice. */
  lemma {:induction false} SpanSlice(lines: seq<string>, lo: int, hi: int)
    requires 0 <= lo <= hi <= |lines|
    ensures Span(lines, lo, hi) == Ok(SpaceEach(lines[lo..hi]))
    decreases hi - lo
  {
    if hi > lo {
      SpanSlice(lines, lo, hi - 1);
      assert lines[lo..hi][..hi - 1 - lo] == lines[lo..hi - 1];
    }
  }

  /** businessInfo / finInfo: the lines strictly between the two bounds,
      each preceded by a space; empty when the bounds are adjacent or out of
      order; an IndexError with fewer than two bounds or when the range
      reaches past the lines. */
  lemma SectionSpec(lines: seq<string>, indices: seq<int>)
    ensures Section(lines, indices).Ok? <==>
      |indices| >= 2
      && (indices[1] <= indices[0] + 1 || (-|lines| <= indices[0] + 1 && indices[1] <= |lines|))
    ensures |indices| >= 2 && indices[1] <= indices[0] + 1 ==> Section(lines, indices) == Ok("")
    ensures |indices| >= 2 && 0 <= indices[0] < indices[1] <= |lines| ==>
      Section(lines, indices) == Ok(SpaceEach(lines[indices[0] + 1..indices[1]]))
  {
    if |indices| >= 2 {
      SpanOk(lines, indices[0] + 1, indices[1]);
      if 0 <= indices[0] < indices[1] <= |lines| {
        SpanSlice(lines, indices[0] + 1, indices[1]);
      }
    }
  }

  /** Once both markers have been seen three times, the business section is
      the text strictly between the two marker lines. */
  lemma BusinessSectionFound(lines: seq<string>)
    requires Occurrences(lines, |lines|, BusinessMarker) >= 3
    requires Occurrences(lines, |lines|, RiskMarker) >= 3
    ensures var r := InfoIndices(lines); |r| == 2 && 0 <= r[0] <= r[1] < |lines|
    ensures var r := InfoIndices(lines);
      Section(lines, r) == Ok(if r[0] < r[1] then SpaceEach(lines[r[0] + 1..r[1]]) else "")
  {
    InfoIndicesSpec(lines);
    SectionSpec(lines, InfoIndices(lines));
  }

  /** In particular businessInfo then succeeds. */
  lemma BusinessSectionOk(lines: seq<string>)
    requires Occurrences(lines, |lines|, BusinessMarker) >= 3
    requires Occurrences(lines, |lines|, RiskMarker) >= 3
    ensures Section(lines, InfoIndices(lines)).Ok?
  {
    BusinessSectionFound(lines);
  }

  // ---------------------------------------------------------------------
  // The class
  // ---------------------------------------------------------------------

  /** One report: its raw text and its cleaned lines, both fixed at
      construction. */
  class BusinessInfo {
    var text: string
    var lines: seq<string>

    /** The file reads of `getText` and `getLines` are replaced by the file's
        contents, given as its text and its lines. */
    constructor (rawText: string, rawLines: seq<string>)
      ensures text == rawText && lines == CleanedLines(rawLines)
    {
      text := rawText;
      var cleaned := GetLines(rawLines);
      lines := cleaned;
    }

    /** getLines after the file read: one cleaned line per raw line. */
    static method GetLines(rawLines: seq<string>) returns (cleaned: seq<string>)
      ensures |cleaned| == |rawLines|
      ensures forall i :: 0 <= i < |cleaned| ==> IsClean(cleaned[i])
      ensures cleaned == CleanedLines(rawLines)
    {
      var filtered: seq<string> := [];
      for i := 0 to |rawLines|
        invariant |filtered| == i
        invariant forall k :: 0 <= k < i ==> filtered[k] == FilterChars(rawLines[k])
      {
        filtered := filtered + [FilterChars(rawLines[i])];
      }
      cleaned := seq(|filtered|, i requires 0 <= i < |filtered| => Strip(filtered[i]));
      forall i | 0 <= i < |cleaned| ensures IsClean(cleaned[i]) {
        CleanLineIsClean(rawLines[i]);
      }
    }

    /** infoLines: the 3rd "business" line and the 3rd "item 1a" line, in
        scan order, each only if it exists. */
    method InfoLines() returns (indices: seq<int>)
      ensures indices == InfoIndices(lines)
      ensures |indices| <= 2
      ensures forall k :: 0 <= k < |indices| ==> 0 <= indices[k] < |lines|
      ensures forall i :: i in indices <==>
        NthHit(lines, i, BusinessMarker, 3) || NthHit(lines, i, RiskMarker, 3)
    {
      var firstCount, lastCount := 0, 0;
      indices := [];
      for i := 0 to |lines|
        invariant firstCount == Occurrences(lines, i, BusinessMarker)
        invariant lastCount == Occurrences(lines, i, RiskMarker)
        invariant indices == InfoIndicesUpTo(lines, i)
      {
        var low := Lower(lines[i]);
        if Contains(low, BusinessMarker) {
          firstCount := firstCount + 1;
          if firstCount == 3 {
            indices := indices + [i];
          }
        }
        if Contains(low, RiskMarker) {
          lastCount := lastCount + 1;
          if lastCount == 3 {
            indices := indices + [i];
          }
        }
      }
      InfoIndicesSpec(lines);
    }

    /** businessInfo: the lines strictly between `indices[0]` and
        `indices[1]`, each preceded by a space. */
    method BusinessInfo(indices: seq<int>) returns (r: Result<string>)
      ensures r == Section(lines, indices)
      ensures r.Ok? <==> (|indices| >= 2
        && (indices[1] <= indices[0] + 1 || (-|lines| <= indices[0] + 1 && indices[1] <= |lines|)))
    {
      SectionSpec(lines, indices);
      if |indices| < 2 {
        return Err(IndexError);
      }
      var lo, hi := indices[0] + 1, indices[1];
      var btext := "";
      var j := lo;
      while j < hi
        invariant lo <= j && (j <= hi || j == lo)
        invariant Span(lines, lo, j) == Ok(btext)
        decreases hi - j
      {
        var line := PyIndex(lines, j);
        if line.Err? {
          assert Span(lines, lo, j + 1) == Err(IndexError);
          SpanErrPropagates(lines, lo, j + 1, hi);
          return Err(IndexError);
        }
        btext := btext + " " + line.value;
        j := j + 1;
      }
      r := Ok(btext);
    }

    /** finLines: the 4th "discussion and analysis" line if any, then the
        last "disagreements" line; IndexError when there is none. */
    method FinLines() returns (r: Result<seq<int>>)
      ensures r == FinIndices(lines)
      ensures r.Ok? <==> exists j :: 0 <= j < |lines| && Marks(lines[j], DisagreementsMarker)
    {
      var firstCount := 0;
      var indices: seq<int> := [];
      var lastIndices: seq<int> := [];
      for i := 0 to |lines|
        invariant firstCount == Occurrences(lines, i, AnalysisMarker)
        invariant indices == HitsUpTo(lines, i, AnalysisMarker, 4)
        invariant lastIndices == MarkedUpTo(lines, i, DisagreementsMarker)
      {
        if Contains(Lower(lines[i]), AnalysisMarker) {
          firstCount := firstCount + 1;
          if firstCount == 4 {
            indices := indices + [i];
          }
        }
        if Contains(Lower(lines[i]), DisagreementsMarker) {
          lastIndices := lastIndices + [i];
        }
      }
      FinIndicesFails(lines);
      if lastIndices == [] {
        return Err(IndexError);
      }
      var last := lastIndices[|lastIndices| - 1];
      indices := indices + [last];
      r := Ok(indices);
    }

    /** finInfo: the source's body is the same as businessInfo's. */
    method FinInfo(indices: seq<int>) returns (r: Result<string>)
      ensures r == Section(lines, indices)
      ensures r.Ok? <==> (|indices| >= 2
        && (indices[1] <= indices[0] + 1 || (-|lines| <= indices[0] + 1 && indices[1] <= |lines|)))
    {
      r := BusinessInfo(indices);
    }
  }
}
