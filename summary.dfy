/** The extractive summariser of business_info.py (class `BusinessSummary`):
    a word-frequency table over the business section, a score per sentence
    key, the mean score, and the sentences whose score reaches a threshold. */
module Summary {
  import opened Wrappers
  import opened Text
  import opened Dicts
  import opened Sections

  /** `sentence[:7]`, the key a sentence's score is stored under. */
  function SentenceKey(s: string): (k: string)
    ensures k <= s && |k| == if |s| < 7 then |s| else 7
  {
    if |s| <= 7 then s else s[..7]
  }

  // ---------------------------------------------------------------------
  // The frequency table (_create_dictionary_table)
  // ---------------------------------------------------------------------

  /** Every token stemmed. */
  function Stems(words: seq<string>, stem: string -> string): (r: seq<string>)
    ensures |r| == |words|
  {
    seq(|words|, i requires 0 <= i < |words| => stem(words[i]))
  }

  /** The stems that are not stopwords, in token order. */
  function KeptStems(words: seq<string>, stem: string -> string, stopWords: set<string>): seq<string>
  {
    if words == [] then []
    else
      var w := stem(words[|words| - 1]);
      KeptStems(words[..|words| - 1], stem, stopWords) + (if w in stopWords then [] else [w])
  }

  /** `table[k] += 1` when `k` is present, else `table[k] = 1`. */
  function Bump(d: Dict<int>, k: string): Dict<int> {
    d.Put(k, if k in d.vals then d.vals[k] + 1 else 1)
  }

  /** The counting dict that the loop of `_create_dictionary_table` builds
      from a sequence of kept stems. */
  function Tally(xs: seq<string>): Dict<int> {
    if xs == [] then Empty() else Bump(Tally(xs[..|xs| - 1]), xs[|xs| - 1])
  }

  /** A tally is a well-formed dict: every key listed once, and exactly
      the counted words listed. */
  lemma {:induction false} TallyValid(xs: seq<string>)
    ensures Tally(xs).Valid()
  {
    if xs != [] {
      var d := Tally(xs[..|xs| - 1]);
      var x := xs[|xs| - 1];
      TallyValid(xs[..|xs| - 1]);
      PutValid(d, x, if x in d.vals then d.vals[x] + 1 else 1);
    }
  }

  /** The kept stems are no stopwords, and a non-stopword occurs among them
      as often as among all the stems. */
  lemma {:induction false} KeptStemsSpec(words: seq<string>, stem: string -> string, stopWords: set<string>)
    ensures forall k :: k in KeptStems(words, stem, stopWords) ==> k !in stopWords
    ensures forall k :: k !in stopWords ==>
      multiset(KeptStems(words, stem, stopWords))[k] == multiset(Stems(words, stem))[k]
  {
    if words != [] {
      var init := words[..|words| - 1];
      KeptStemsSpec(init, stem, stopWords);
      assert Stems(words, stem) == Stems(init, stem) + [stem(words[|words| - 1])];
    }
  }

  /** The keys of a tally are the distinct elements, each mapped to its
      number of occurrences. */
  lemma {:induction false} TallyCounts(xs: seq<string>)
    ensures forall k :: k in Tally(xs).vals <==> k in multiset(xs)
    ensures forall k :: k in Tally(xs).vals ==> Tally(xs).vals[k] == multiset(xs)[k]
  {
    if xs != [] {
      var init := xs[..|xs| - 1];
      TallyCounts(init);
      assert xs == init + [xs[|xs| - 1]];
    }
  }

  /** The counts of a tally add up to the number of elements. */
  lemma {:induction false} TallySum(xs: seq<string>)
    ensures SumInts(Tally(xs).keys, Tally(xs).vals) == |xs|
  {
    if xs != [] {
      var init := xs[..|xs| - 1];
      var x := xs[|xs| - 1];
      var d := Tally(init);
      var t := Tally(xs);
      TallySum(init);
      TallyValid(init);
      assert t == Bump(d, x);
      if x in d.vals {
        assert t.keys == d.keys && t.vals == d.vals[x := d.vals[x] + 1];
        SumIntsRaise(d.keys, d.vals, x, 1);
      } else {
        assert t.keys == d.keys + [x] && t.vals == d.vals[x := 1];
        SumIntsOther(d.keys, d.vals, x, 1);
        assert t.keys[..|d.keys|] == d.keys;
      }
    }
  }

  /** Every count of a frequency table is at least one. */
  ghost predicate PositiveCounts(table: Dict<int>) {
    forall k :: k in table.vals ==> table.vals[k] >= 1
  }

  // ---------------------------------------------------------------------
  // Sentence scores (_calculate_sentence_scores)
  // ---------------------------------------------------------------------

  /** The keys among `ks`, in order, that occur in the lower-cased sentence. */
  function HitsIn(ks: seq<string>, s: string): (h: seq<string>)
    ensures |h| <= |ks|
  {
    if ks == [] then []
    else
      var k := ks[|ks| - 1];
      HitsIn(ks[..|ks| - 1], s) + (if Contains(Lower(s), k) then [k] else [])
  }

  /** A sentence matches exactly the keys that occur in its lower-cased form. */
  lemma {:induction false} HitsInMembers(ks: seq<string>, s: string)
    ensures forall k :: k in HitsIn(ks, s) <==> k in ks && Contains(Lower(s), k)
  {
    if ks != [] {
      HitsInMembers(ks[..|ks| - 1], s);
      assert ks == ks[..|ks| - 1] + [ks[|ks| - 1]];
    }
  }

  /** The frequency-table keys a sentence matches, in table order. */
  function Hits(table: Dict<int>, s: string): seq<string> {
    HitsIn(table.keys, s)
  }

  /** The sum of the frequencies of the keys a sentence matches. */
  function Weight(table: Dict<int>, s: string): int {
    SumInts(Hits(table, s), table.vals)
  }

  function Get0(d: Dict<int>, k: string): int {
    if k in d.vals then d.vals[k] else 0
  }

  /** The effect of the inner loop for one sentence after it has matched the
      keys `h`: nothing if none, else the weights added under the key `p`. */
  function AddHits(sw: Dict<int>, p: string, h: seq<string>, vals: map<string, int>): Dict<int> {
    if h == [] then sw else sw.Put(p, Get0(sw, p) + SumInts(h, vals))
  }

  /** The inner loop of `_calculate_sentence_scores` over the first `j`
      table keys, step by step: each key found in the lower-cased sentence
      adds its count to the entry under `p`, creating it if absent. */
  function ScoreKeys(sw: Dict<int>, p: string, table: Dict<int>, j: nat, s: string): Dict<int>
    requires table.Valid() && j <= |table.keys|
  {
    if j == 0 then sw
    else
      var prev := ScoreKeys(sw, p, table, j - 1, s);
      var w := table.keys[j - 1];
      if Contains(Lower(s), w) then prev.Put(p, Get0(prev, p) + table.vals[w]) else prev
  }

  /** How many of the first `j` keys occur in the lower-cased sentence:
      the counter of the inner loop. */
  function MatchCount(ks: seq<string>, j: nat, s: string): nat
    requires j <= |ks|
  {
    if j == 0 then 0 else MatchCount(ks, j - 1, s) + (if Contains(Lower(s), ks[j - 1]) then 1 else 0)
  }

  /** `sentence_weight` when the outer loop is over, before the division. */
  function Accumulate(table: Dict<int>, sentences: seq<string>): Dict<int> {
    if sentences == [] then Empty()
    else
      var s := sentences[|sentences| - 1];
      AddHits(Accumulate(table, sentences[..|sentences| - 1]), SentenceKey(s), Hits(table, s), table.vals)
  }

  /** The accumulated weights are a well-formed dict. */
  lemma {:induction false} AccumulateValid(table: Dict<int>, sentences: seq<string>)
    ensures Accumulate(table, sentences).Valid()
  {
    if sentences != [] {
      var s := sentences[|sentences| - 1];
      var before := Accumulate(table, sentences[..|sentences| - 1]);
      AccumulateValid(table, sentences[..|sentences| - 1]);
      var p := SentenceKey(s);
      PutValid(before, p, Get0(before, p) + SumInts(Hits(table, s), table.vals));
    }
  }

  /** What `_calculate_sentence_scores` returns. After the loop `sentence`
      is the last sentence; the entry under its key is divided by the number
      of keys it matched, and no other entry is divided (Python's `/` turns
      that one into a float; the others stay integers, shown here as reals).
      An empty list leaves `sentence` unbound. */
  function SentenceScores(table: Dict<int>, sentences: seq<string>): Result<Dict<real>> {
    if sentences == [] then Err(UnboundLocalError)
    else
      var last := sentences[|sentences| - 1];
      var acc := Accumulate(table, sentences);
      var p := SentenceKey(last);
      var n := |Hits(table, last)|;
      if p !in acc.vals then Err(KeyError)
      else if n == 0 then Err(ZeroDivisionError)
      else Ok(AsReals(acc).Put(p, acc.vals[p] as real / n as real))
  }

  /** The reference total of a key: the weights of all sentences with that
      key (a sentence that matches nothing weighs 0). */
  function KeyTotal(table: Dict<int>, sentences: seq<string>, p: string): int {
    if sentences == [] then 0
    else
      var s := sentences[|sentences| - 1];
      KeyTotal(table, sentences[..|sentences| - 1], p) + (if SentenceKey(s) == p then Weight(table, s) else 0)
  }

  /** Some sentence with key `p` matches a frequency-table key. */
  ghost predicate Matched(table: Dict<int>, sentences: seq<string>, p: string) {
    exists i :: 0 <= i < |sentences| && SentenceKey(sentences[i]) == p && Hits(table, sentences[i]) != []
  }

  lemma MatchedSnoc(table: Dict<int>, sentences: seq<string>, p: string)
    requires sentences != []
    ensures var last := sentences[|sentences| - 1];
      Matched(table, sentences, p) <==>
        (Matched(table, sentences[..|sentences| - 1], p) || (SentenceKey(last) == p && Hits(table, last) != []))
  {
    var init := sentences[..|sentences| - 1];
    if Matched(table, sentences, p) {
      var i :| 0 <= i < |sentences| && SentenceKey(sentences[i]) == p && Hits(table, sentences[i]) != [];
      if i < |init| {
        assert init[i] == sentences[i];
      }
    }
    if Matched(table, init, p) {
      var i :| 0 <= i < |init| && SentenceKey(init[i]) == p && Hits(table, init[i]) != [];
      assert sentences[i] == init[i];
    }
  }

  /** A key has an entry exactly when some sentence with that key matches a
      frequency-table key. */
  lemma {:induction false} AccumulateKeys(table: Dict<int>, sentences: seq<string>)
    ensures forall p :: p in Accumulate(table, sentences).vals <==> Matched(table, sentences, p)
  {
    if sentences != [] {
      AccumulateKeys(table, sentences[..|sentences| - 1]);
      forall p ensures p in Accumulate(table, sentences).vals <==> Matched(table, sentences, p) {
        MatchedSnoc(table, sentences, p);
      }
    }
  }

  /** Sentences sharing a key accumulate into one entry. */
  lemma {:induction false} AccumulateValues(table: Dict<int>, sentences: seq<string>)
    ensures forall p :: p in Accumulate(table, sentences).vals ==>
      Accumulate(table, sentences).vals[p] == KeyTotal(table, sentences, p)
    ensures forall p :: p !in Accumulate(table, sentences).vals ==> KeyTotal(table, sentences, p) == 0
  {
    if sentences != [] {
      AccumulateValues(table, sentences[..|sentences| - 1]);
    }
  }

  /** The scores fail exactly when the list is empty or its last sentence
      matches nothing: UnboundLocalError for an empty list, KeyError when no
      sentence with the last one's key matched anything, ZeroDivisionError
      when only others with that key did. */
  lemma SentenceScoresFail(table: Dict<int>, sentences: seq<string>)
    ensures SentenceScores(table, sentences).Ok? <==>
      (|sentences| > 0 && Hits(table, sentences[|sentences| - 1]) != [])
    ensures sentences == [] ==> SentenceScores(table, sentences) == Err(UnboundLocalError)
    ensures sentences != [] ==>
      var p := SentenceKey(sentences[|sentences| - 1]);
      var matched := Matched(table, sentences, p);
      && (!matched ==> SentenceScores(table, sentences) == Err(KeyError))
      && (matched && Hits(table, sentences[|sentences| - 1]) == [] ==>
            SentenceScores(table, sentences) == Err(ZeroDivisionError))
  {
    AccumulateKeys(table, sentences);
  }

  /** Every entry is the total of its key; only the last sentence's entry is
      divided, by the number of keys that sentence matched. */
  lemma SentenceScoresValues(table: Dict<int>, sentences: seq<string>)
    requires SentenceScores(table, sentences).Ok?
    ensures var sw := SentenceScores(table, sentences).value;
      var last := sentences[|sentences| - 1];
      && sw.keys == Accumulate(table, sentences).keys
      && SentenceKey(last) in sw.vals
      && sw.vals[SentenceKey(last)] == KeyTotal(table, sentences, SentenceKey(last)) as real / |Hits(table, last)| as real
      && (forall p :: p in sw.vals && p != SentenceKey(last) ==> sw.vals[p] == KeyTotal(table, sentences, p) as real)
  {
    AccumulateValues(table, sentences);
  }

  // ---------------------------------------------------------------------
  // Mean score (_calculate_average_score)
  // ---------------------------------------------------------------------

  /** `sum_values / len(sentence_weight)`, a ZeroDivisionError when empty. */
  function Average(sw: Dict<real>): Result<real> {
    if sw.keys == [] then Err(ZeroDivisionError)
    else Ok(SumReals(sw.keys, sw.vals) / |sw.keys| as real)
  }

  lemma {:induction false} SumAllAbove(ks: seq<string>, m: map<string, real>, a: real)
    requires forall i :: 0 <= i < |ks| ==> ks[i] in m && m[ks[i]] > a
    requires |ks| > 0
    ensures SumReals(ks, m) > |ks| as real * a
  {
    if |ks| > 1 {
      SumAllAbove(ks[..|ks| - 1], m, a);
      assert |ks| as real * a == (|ks| - 1) as real * a + a;
    }
  }

  lemma {:induction false} SumAllBelow(ks: seq<string>, m: map<string, real>, a: real)
    requires forall i :: 0 <= i < |ks| ==> ks[i] in m && m[ks[i]] < a
    requires |ks| > 0
    ensures SumReals(ks, m) < |ks| as real * a
  {
    if |ks| > 1 {
      SumAllBelow(ks[..|ks| - 1], m, a);
      assert |ks| as real * a == (|ks| - 1) as real * a + a;
    }
  }

  /** Some entry is at most a bound that is not below the mean. */
  lemma SomeAtMost(sw: Dict<real>, a: real)
    requires sw.Valid() && sw.keys != []
    requires SumReals(sw.keys, sw.vals) <= |sw.keys| as real * a
    ensures exists k :: k in sw.vals && sw.vals[k] <= a
  {
    if forall i :: 0 <= i < |sw.keys| ==> sw.vals[sw.keys[i]] > a {
      SumAllAbove(sw.keys, sw.vals, a);
      assert false;
    }
    var i :| 0 <= i < |sw.keys| && sw.vals[sw.keys[i]] <= a;
    assert sw.keys[i] in sw.vals;
  }

  /** Some entry is at least a bound that is not above the mean. */
  lemma SomeAtLeast(sw: Dict<real>, a: real)
    requires sw.Valid() && sw.keys != []
    requires SumReals(sw.keys, sw.vals) >= |sw.keys| as real * a
    ensures exists k :: k in sw.vals && sw.vals[k] >= a
  {
    if forall i :: 0 <= i < |sw.keys| ==> sw.vals[sw.keys[i]] < a {
      SumAllBelow(sw.keys, sw.vals, a);
      assert false;
    }
    var i :| 0 <= i < |sw.keys| && sw.vals[sw.keys[i]] >= a;
    assert sw.keys[i] in sw.vals;
  }

  /** The mean lies between the smallest and the largest entry. */
  lemma AverageBetween(sw: Dict<real>)
    requires sw.Valid() && sw.keys != []
    ensures Average(sw).Ok?
    ensures exists k :: k in sw.vals && sw.vals[k] <= Average(sw).value
    ensures exists k :: k in sw.vals && sw.vals[k] >= Average(sw).value
  {
    var n := |sw.keys| as real;
    var avg := SumReals(sw.keys, sw.vals) / n;
    assert n * avg == SumReals(sw.keys, sw.vals);
    SomeAtMost(sw, avg);
    SomeAtLeast(sw, avg);
  }

  // ---------------------------------------------------------------------
  // Selection (_get_edgar_summary, get_edgar_summary)
  // ---------------------------------------------------------------------

  /** The test of `_get_edgar_summary`: the sentence's key has an entry and
      its score reaches the threshold. */
  predicate Selected(sw: Dict<real>, s: string, threshold: real) {
    SentenceKey(s) in sw.vals && sw.vals[SentenceKey(s)] >= threshold
  }

  /** The selected sentences, in input order. */
  function Chosen(sentences: seq<string>, sw: Dict<real>, threshold: real): (c: seq<string>)
    ensures |c| <= |sentences|
  {
    if sentences == [] then []
    else
      var s := sentences[|sentences| - 1];
      Chosen(sentences[..|sentences| - 1], sw, threshold) + (if Selected(sw, s, threshold) then [s] else [])
  }

  /** A sentence is selected exactly when its key has an entry whose score
      reaches the threshold; a sentence without an entry never is. */
  lemma {:induction false} ChosenMembers(sentences: seq<string>, sw: Dict<real>, threshold: real)
    ensures forall s :: s in Chosen(sentences, sw, threshold) <==> s in sentences && Selected(sw, s, threshold)
  {
    if sentences != [] {
      ChosenMembers(sentences[..|sentences| - 1], sw, threshold);
      assert sentences == sentences[..|sentences| - 1] + [sentences[|sentences| - 1]];
    }
  }

  /** Raising the threshold only drops sentences: the selection at the
      higher threshold is the selection at the lower one, filtered again. */
  lemma {:induction false} ChosenNarrows(sentences: seq<string>, sw: Dict<real>, low: real, high: real)
    requires low <= high
    ensures Chosen(sentences, sw, high) == Chosen(Chosen(sentences, sw, low), sw, high)
    ensures |Chosen(sentences, sw, high)| <= |Chosen(sentences, sw, low)|
  {
    if sentences != [] {
      var init := sentences[..|sentences| - 1];
      var s := sentences[|sentences| - 1];
      ChosenNarrows(init, sw, low, high);
      var c := Chosen(init, sw, low);
      if Selected(sw, s, low) {
        var cs := c + [s];
        assert cs[..|cs| - 1] == c && cs[|cs| - 1] == s;
        assert Chosen(cs, sw, high) == Chosen(c, sw, high) + (if Selected(sw, s, high) then [s] else []);
      } else {
        assert !Selected(sw, s, high);
        assert Chosen(sentences, sw, low) == c + [] == c;
        assert Chosen(sentences, sw, high) == Chosen(init, sw, high) + [] == Chosen(init, sw, high);
      }
    }
  }

  /** The summary for one threshold, from the scores (or the error
      computing them raised). */
  function Summarize(sentences: seq<string>, scores: Result<Dict<real>>, proportion: real): Result<string> {
    if scores.Err? then Err(scores.error)
    else
      var avg := Average(scores.value);
      if avg.Err? then Err(avg.error)
      else Ok(SpaceEach(Chosen(sentences, scores.value, proportion * avg.value)))
  }

  /** get_edgar_summary: the summary of the sentences at `proportion`
      times the mean score. */
  function EdgarSummary(table: Dict<int>, sentences: seq<string>, proportion: real): Result<string> {
    Summarize(sentences, SentenceScores(table, sentences), proportion)
  }

  /** Scores that exist are a well-formed dict. */
  lemma SentenceScoresValid(table: Dict<int>, sentences: seq<string>)
    ensures SentenceScores(table, sentences).Ok? ==> SentenceScores(table, sentences).value.Valid()
  {
    if SentenceScores(table, sentences).Ok? {
      var acc := Accumulate(table, sentences);
      var p := SentenceKey(sentences[|sentences| - 1]);
      AccumulateValid(table, sentences);
      AsRealsValid(acc);
      PutValid(AsReals(acc), p, acc.vals[p] as real / |Hits(table, sentences[|sentences| - 1])| as real);
    }
  }

  /** The summary fails exactly when the scores do: scores that exist are
      never empty, so their mean exists. */
  lemma EdgarSummaryFails(table: Dict<int>, sentences: seq<string>, proportion: real)
    ensures EdgarSummary(table, sentences, proportion).Ok? <==> SentenceScores(table, sentences).Ok?
    ensures EdgarSummary(table, sentences, proportion).Ok? <==>
      (|sentences| > 0 && Hits(table, sentences[|sentences| - 1]) != [])
  {
    SentenceScoresFail(table, sentences);
    if SentenceScores(table, sentences).Ok? {
      SentenceScoresValid(table, sentences);
      var sw := SentenceScores(table, sentences).value;
      assert SentenceKey(sentences[|sentences| - 1]) in sw.keys;
    }
  }

  lemma {:induction false} SumIntsNonNeg(ks: seq<string>, m: map<string, int>)
    requires forall k :: k in m ==> m[k] >= 0
    ensures SumInts(ks, m) >= 0
  {
    if ks != [] {
      SumIntsNonNeg(ks[..|ks| - 1], m);
    }
  }

  lemma {:induction false} SumRealsNonNeg(ks: seq<string>, m: map<string, real>)
    requires forall k :: k in m ==> m[k] >= 0.0
    ensures SumReals(ks, m) >= 0.0
  {
    if ks != [] {
      SumRealsNonNeg(ks[..|ks| - 1], m);
    }
  }

  lemma {:induction false} AccumulateNonNeg(table: Dict<int>, sentences: seq<string>)
    requires PositiveCounts(table)
    ensures forall p :: p in Accumulate(table, sentences).vals ==> Accumulate(table, sentences).vals[p] >= 0
  {
    if sentences != [] {
      var s := sentences[|sentences| - 1];
      var before := Accumulate(table, sentences[..|sentences| - 1]);
      AccumulateNonNeg(table, sentences[..|sentences| - 1]);
      SumIntsNonNeg(Hits(table, s), table.vals);
    }
  }

  lemma ScoresNonNeg(table: Dict<int>, sentences: seq<string>)
    requires PositiveCounts(table)
    requires SentenceScores(table, sentences).Ok?
    ensures var sw := SentenceScores(table, sentences).value;
      forall p :: p in sw.vals ==> sw.vals[p] >= 0.0
  {
    AccumulateNonNeg(table, sentences);
  }

  /** With scores that are not negative, the mean is not either, and a
      larger proportion of it selects a subsequence of what a smaller one
      selects: main.py's 0.8 keeps every sentence that get_edgar_summary's
      1.5 keeps. */
  lemma ProportionNarrows(sentences: seq<string>, sw: Dict<real>, low: real, high: real)
    requires sw.keys != []
    requires forall p :: p in sw.vals ==> sw.vals[p] >= 0.0
    requires 0.0 <= low <= high
    ensures Average(sw).Ok? && Average(sw).value >= 0.0
    ensures Chosen(sentences, sw, high * Average(sw).value)
      == Chosen(Chosen(sentences, sw, low * Average(sw).value), sw, high * Average(sw).value)
  {
    SumRealsNonNeg(sw.keys, sw.vals);
    var n := |sw.keys| as real;
    var avg := SumReals(sw.keys, sw.vals) / n;
    assert Average(sw) == Ok(avg);
    assert avg >= 0.0;
    assert (high - low) * avg >= 0.0;
    assert low * avg <= high * avg;
    assert Average(sw).value == avg;
    ChosenNarrows(sentences, sw, low * Average(sw).value, high * Average(sw).value);
  }

  /** The frequency table of a token list: each non-stopword stem mapped to
      its number of occurrences among the stems, the counts adding up to the
      number of kept stems. */
  lemma FrequencyTableSpec(words: seq<string>, stem: string -> string, stopWords: set<string>)
    ensures var table := Tally(KeptStems(words, stem, stopWords));
      && PositiveCounts(table)
      && (forall k :: k in table.vals ==> k !in stopWords && table.vals[k] == multiset(Stems(words, stem))[k])
      && (forall k :: k !in stopWords && k in Stems(words, stem) ==> k in table.vals)
      && SumInts(table.keys, table.vals) == |KeptStems(words, stem, stopWords)|
  {
    var kept := KeptStems(words, stem, stopWords);
    KeptStemsSpec(words, stem, stopWords);
    TallyCounts(kept);
    TallySum(kept);
  }

  // ---------------------------------------------------------------------
  // One step of each loop
  // ---------------------------------------------------------------------

  lemma KeptStemsSnoc(words: seq<string>, i: nat, stem: string -> string, stopWords: set<string>)
    requires i < |words|
    ensures KeptStems(words[..i + 1], stem, stopWords)
      == KeptStems(words[..i], stem, stopWords) + (if stem(words[i]) in stopWords then [] else [stem(words[i])])
  {
    assert words[..i + 1][..i] == words[..i];
  }

  lemma TallySnoc(xs: seq<string>, x: string)
    ensures Tally(xs + [x]) == Bump(Tally(xs), x)
  {
    assert (xs + [x])[..|xs|] == xs;
  }

  lemma HitsInSnoc(ks: seq<string>, j: nat, s: string)
    requires j < |ks|
    ensures HitsIn(ks[..j + 1], s) == HitsIn(ks[..j], s) + (if Contains(Lower(s), ks[j]) then [ks[j]] else [])
  {
    assert ks[..j + 1][..j] == ks[..j];
  }

  /** One more matched key adds its count to the sentence's entry. */
  lemma AddHitsSnoc(sw: Dict<int>, p: string, h: seq<string>, w: string, vals: map<string, int>)
    requires w in vals
    ensures var before := AddHits(sw, p, h, vals);
      AddHits(sw, p, h + [w], vals) == before.Put(p, Get0(before, p) + vals[w])
  {
    assert (h + [w])[..|h|] == h;
    var total := SumInts(h, vals);
    assert SumInts(h + [w], vals) == total + vals[w];
    var start := Get0(sw, p);
    var after := start + total + vals[w];
    assert AddHits(sw, p, h + [w], vals) == sw.Put(p, after);
    if h == [] {
      assert AddHits(sw, p, h, vals) == sw;
      assert start + vals[w] == after;
    } else {
      var before := sw.Put(p, start + total);
      assert AddHits(sw, p, h, vals) == before;
      assert Get0(before, p) + vals[w] == after;
      PutTwice(sw, p, start + total, after);
    }
  }

  /** The step-by-step inner loop agrees with its summary AddHits. */
  lemma {:induction false} ScoreKeysIsAddHits(sw: Dict<int>, p: string, table: Dict<int>, j: nat, s: string)
    requires table.Valid() && j <= |table.keys|
    ensures ScoreKeys(sw, p, table, j, s) == AddHits(sw, p, HitsIn(table.keys[..j], s), table.vals)
  {
    if j > 0 {
      ScoreKeysIsAddHits(sw, p, table, j - 1, s);
      ScoreKeysStep(sw, p, table, j, s);
    }
  }

  lemma ScoreKeysStep(sw: Dict<int>, p: string, table: Dict<int>, j: nat, s: string)
    requires table.Valid() && 0 < j <= |table.keys|
    requires ScoreKeys(sw, p, table, j - 1, s) == AddHits(sw, p, HitsIn(table.keys[..j - 1], s), table.vals)
    ensures ScoreKeys(sw, p, table, j, s) == AddHits(sw, p, HitsIn(table.keys[..j], s), table.vals)
  {
    var h := HitsIn(table.keys[..j - 1], s);
    var w := table.keys[j - 1];
    HitsInSnoc(table.keys, j - 1, s);
    if Contains(Lower(s), w) {
      AddHitsSnoc(sw, p, h, w, table.vals);
    } else {
      assert h + [] == h;
    }
  }

  lemma {:induction false} MatchCountIsHits(ks: seq<string>, j: nat, s: string)
    requires j <= |ks|
    ensures MatchCount(ks, j, s) == |HitsIn(ks[..j], s)|
  {
    if j > 0 {
      MatchCountIsHits(ks, j - 1, s);
      HitsInSnoc(ks, j - 1, s);
    }
  }

  lemma AccumulateSnoc(table: Dict<int>, sentences: seq<string>, i: nat)
    requires i < |sentences|
    ensures Accumulate(table, sentences[..i + 1])
      == AddHits(Accumulate(table, sentences[..i]), SentenceKey(sentences[i]), Hits(table, sentences[i]), table.vals)
  {
    assert sentences[..i + 1][..i] == sentences[..i];
  }

  lemma ChosenSnoc(sentences: seq<string>, i: nat, sw: Dict<real>, threshold: real)
    requires i < |sentences|
    ensures Chosen(sentences[..i + 1], sw, threshold)
      == Chosen(sentences[..i], sw, threshold) + (if Selected(sw, sentences[i], threshold) then [sentences[i]] else [])
  {
    assert sentences[..i + 1][..i] == sentences[..i];
  }

  // ---------------------------------------------------------------------
  // The class
  // ---------------------------------------------------------------------

  /** A report reduced to its business section, with the section's
      frequency table. The source derives it from `BusinessInfo`. */
  class BusinessSummary {
    var text: string
    var lines: seq<string>
    var indices: seq<int>
    var frequencyTable: Dict<int>

    ghost predicate Valid()
      reads this
    {
      frequencyTable.Valid() && PositiveCounts(frequencyTable)
    }

    /** `__init__`: clean the lines, locate the business section, keep its
        text and count its words. The tokenizer, the stemmer and the
        stopword list are given. The source raises IndexError here when the
        section is not found, which the precondition excludes. */
    constructor (rawText: string, rawLines: seq<string>, wordTokenize: string -> seq<string>,
                 stem: string -> string, stopWords: set<string>)
      requires Occurrences(CleanedLines(rawLines), |rawLines|, BusinessMarker) >= 3
      requires Occurrences(CleanedLines(rawLines), |rawLines|, RiskMarker) >= 3
      ensures Valid()
      ensures lines == CleanedLines(rawLines) && indices == InfoIndices(lines)
      ensures Section(lines, indices) == Ok(text)
      ensures frequencyTable == Tally(KeptStems(wordTokenize(text), stem, stopWords))
    {
      var cleaned, found, section := LocateBusiness(rawText, rawLines);
      lines, indices, text := cleaned, found, section;
      frequencyTable := Empty();
      new;
      ghost var lines0, indices0, text0 := lines, indices, text;
      frequencyTable := CreateDictionaryTable(wordTokenize, stem, stopWords);
      assert lines == lines0 && indices == indices0 && text == text0;
    }

    /** The `BusinessInfo` part of `__init__`: clean the lines, find the
        business section's bounds and take its text. */
    static method LocateBusiness(rawText: string, rawLines: seq<string>)
      returns (lines: seq<string>, indices: seq<int>, text: string)
      requires Occurrences(CleanedLines(rawLines), |rawLines|, BusinessMarker) >= 3
      requires Occurrences(CleanedLines(rawLines), |rawLines|, RiskMarker) >= 3
      ensures lines == CleanedLines(rawLines) && indices == InfoIndices(lines)
      ensures Section(lines, indices) == Ok(text)
    {
      var info := new Sections.BusinessInfo(rawText, rawLines);
      lines := info.lines;
      indices := info.InfoLines();
      var section := info.BusinessInfo(indices);
      assert section.Ok? by {
        BusinessSectionOk(lines);
      }
      text := section.value;
    }

    /** _create_dictionary_table: the tally of the non-stopword stems of the
        text's tokens, whose counts FrequencyTableSpec relates to the
        tokens. */
    method CreateDictionaryTable(wordTokenize: string -> seq<string>, stem: string -> string, stopWords: set<string>)
      returns (table: Dict<int>)
      ensures table == Tally(KeptStems(wordTokenize(text), stem, stopWords))
      ensures table.Valid() && PositiveCounts(table)
    {
      var words := wordTokenize(text);
      table := Empty();
      for i := 0 to |words|
        invariant table == Tally(KeptStems(words[..i], stem, stopWords))
      {
        KeptStemsSnoc(words, i, stem, stopWords);
        var wd := stem(words[i]);
        ghost var kept := KeptStems(words[..i], stem, stopWords);
        if wd in stopWords {
          assert KeptStems(words[..i + 1], stem, stopWords) == kept + [] == kept;
          continue;
        }
        assert KeptStems(words[..i + 1], stem, stopWords) == kept + [wd];
        TallySnoc(kept, wd);
        if wd in table.vals {
          table := table.Put(wd, table.vals[wd] + 1);
        } else {
          table := table.Put(wd, 1);
        }
      }
      assert words[..|words|] == words;
      FrequencyTableSpec(words, stem, stopWords);
      TallyValid(KeptStems(words, stem, stopWords));
    }

    /** _calculate_sentence_scores. */
    method CalculateSentenceScores(sentences: seq<string>) returns (r: Result<Dict<real>>)
      requires Valid()
      ensures r == SentenceScores(frequencyTable, sentences)
      ensures r.Ok? <==> (|sentences| > 0 && Hits(frequencyTable, sentences[|sentences| - 1]) != [])
    {
      var table := frequencyTable;
      var sentenceWeight: Dict<int> := Empty();
      var count := 0;
      for i := 0 to |sentences|
        invariant sentenceWeight == Accumulate(table, sentences[..i])
        invariant i > 0 ==> count == |Hits(table, sentences[i - 1])|
      {
        var sentence := sentences[i];
        sentenceWeight, count := ScoreSentence(table, sentenceWeight, sentence);
        AccumulateSnoc(table, sentences, i);
      }
      assert sentences[..|sentences|] == sentences;
      SentenceScoresFail(table, sentences);
      if |sentences| == 0 {
        return Err(UnboundLocalError);
      }
      var last := SentenceKey(sentences[|sentences| - 1]);
      if last !in sentenceWeight.vals {
        return Err(KeyError);
      }
      if count == 0 {
        return Err(ZeroDivisionError);
      }
      var scores := AsReals(sentenceWeight);
      scores := scores.Put(last, sentenceWeight.vals[last] as real / count as real);
      r := Ok(scores);
    }

    /** The inner loop of _calculate_sentence_scores for one sentence: every
        table key found in the lower-cased sentence adds its count to the
        entry under the sentence's key, and is counted. */
    static method ScoreSentence(table: Dict<int>, sentenceWeight: Dict<int>, sentence: string)
      returns (weights: Dict<int>, count: int)
      requires table.Valid()
      ensures weights == AddHits(sentenceWeight, SentenceKey(sentence), Hits(table, sentence), table.vals)
      ensures count == |Hits(table, sentence)|
    {
      var key := SentenceKey(sentence);
      var low := Lower(sentence);
      weights := sentenceWeight;
      count := 0;
      for j := 0 to |table.keys|
        invariant count == MatchCount(table.keys, j, sentence)
        invariant weights == ScoreKeys(sentenceWeight, key, table, j, sentence)
      {
        var word := table.keys[j];
        if Contains(low, word) {
          count := count + 1;
          if key in weights.vals {
            weights := weights.Put(key, weights.vals[key] + table.vals[word]);
          } else {
            weights := weights.Put(key, table.vals[word]);
          }
        }
      }
      ScoreKeysIsAddHits(sentenceWeight, key, table, |table.keys|, sentence);
      MatchCountIsHits(table.keys, |table.keys|, sentence);
      assert table.keys[..|table.keys|] == table.keys;
    }

    /** _calculate_average_score: the mean score (which AverageBetween
        places between the smallest and the largest score);
        ZeroDivisionError on no scores. */
    static method CalculateAverageScore(sentenceWeight: Dict<real>) returns (r: Result<real>)
      requires sentenceWeight.Valid()
      ensures r == Average(sentenceWeight)
      ensures r.Err? <==> sentenceWeight.keys == []
    {
      var keys := sentenceWeight.keys;
      var sumValues := 0.0;
      for i := 0 to |keys|
        invariant sumValues == SumReals(keys[..i], sentenceWeight.vals)
      {
        assert keys[..i + 1][..i] == keys[..i];
        sumValues := sumValues + sentenceWeight.vals[keys[i]];
      }
      assert keys[..|keys|] == keys;
      if |keys| == 0 {
        return Err(ZeroDivisionError);
      }
      r := Ok(sumValues / |keys| as real);
    }

    /** _get_edgar_summary: each selected sentence, in input order, preceded
        by a space. */
    static method ThresholdSummary(sentences: seq<string>, sentenceWeight: Dict<real>, threshold: real)
      returns (summary: string)
      ensures summary == SpaceEach(Chosen(sentences, sentenceWeight, threshold))
    {
      summary := "";
      for i := 0 to |sentences|
        invariant summary == SpaceEach(Chosen(sentences[..i], sentenceWeight, threshold))
      {
        ChosenSnoc(sentences, i, sentenceWeight, threshold);
        ghost var chosen := Chosen(sentences[..i], sentenceWeight, threshold);
        var sentence := sentences[i];
        var key := SentenceKey(sentence);
        if key in sentenceWeight.vals && sentenceWeight.vals[key] >= threshold {
          SpaceEachSnoc(chosen, sentence);
          summary := summary + " " + sentence;
        } else {
          assert chosen + [] == chosen;
        }
      }
      assert sentences[..|sentences|] == sentences;
    }

    /** The steps of get_edgar_summary once the text is split into
        sentences: score them, take the mean, keep those at 1.5 times it. */
    method SummarizeSentences(sentences: seq<string>) returns (r: Result<string>)
      requires Valid()
      ensures r == EdgarSummary(frequencyTable, sentences, 1.5)
      ensures r.Ok? <==> |sentences| > 0 && Hits(frequencyTable, sentences[|sentences| - 1]) != []
    {
      var sentenceScores := CalculateSentenceScores(sentences);
      if sentenceScores.Err? {
        assert EdgarSummary(frequencyTable, sentences, 1.5) == Err(sentenceScores.error);
        return Err(sentenceScores.error);
      }
      SentenceScoresValid(frequencyTable, sentences);
      var threshold := CalculateAverageScore(sentenceScores.value);
      assert threshold.Ok? by {
        EdgarSummaryFails(frequencyTable, sentences, 1.5);
      }
      var summary := ThresholdSummary(sentences, sentenceScores.value, 1.5 * threshold.value);
      r := Ok(summary);
      assert r == Summarize(sentences, sentenceScores, 1.5) by {
        assert Average(sentenceScores.value) == threshold;
      }
    }

    /** get_edgar_summary: split the text with the sentence tokenizer,
        then summarize its sentences. */
    method GetEdgarSummary(input: string, sentTokenize: string -> seq<string>) returns (r: Result<string>)
      requires Valid()
      ensures var sentences := sentTokenize(input);
        r == EdgarSummary(frequencyTable, sentences, 1.5)
        && (r.Ok? <==> |sentences| > 0 && Hits(frequencyTable, sentences[|sentences| - 1]) != [])
    {
      var sentences := sentTokenize(input);
      r := SummarizeSentences(sentences);
    }
  }
}
