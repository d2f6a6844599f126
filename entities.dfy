/** The industry classifier and the product-name filter of
    product_industry_entities.py (class `Entities`). The NLTK tokenizer is a
    parameter, and the named-entity chunks are given. */
module Entities {
  import opened Text

  // ---------------------------------------------------------------------
  // Industries (INDUSTRY_KEYWORDS, industryEntities)
  // ---------------------------------------------------------------------

  /** One entry of INDUSTRY_KEYWORDS: an industry and its keywords. */
  datatype Industry = Industry(name: string, keywords: seq<string>)

  /** INDUSTRY_KEYWORDS, in declaration order (a Python dict keeps it). */
  const IndustryKeywords: seq<Industry> := [
    Industry("technology", ["technology", "telecommunications", "IT", "electronics", "software", "hardware"]),
    Industry("finance", ["finance", "banking", "investment", "financial", "insurance", "wealth management"]),
    Industry("advertisement", ["advertisement", "marketing", "advertising", "media", "promotion"]),
    Industry("construction", ["construction", "building", "architecture", "engineering", "infrastructure"]),
    Industry("insurance", ["insurance", "coverage", "policy", "underwriting", "risk management"]),
    Industry("retail", ["retail", "shopping", "store", "commerce", "merchandise", "consumer"]),
    Industry("education", ["education", "school", "learning", "teaching", "academy"]),
    Industry("transport", ["transport", "transportation", "logistics", "shipping", "delivery"]),
    Industry("manufacturing", ["manufacturing", "production", "factory", "industry", "assembly"]),
    Industry("defence and security", ["defence", "security", "military", "army", "defense", "safety"]),
    Industry("healthcare", ["healthcare", "health", "medical", "hospital", "medicine"]),
    Industry("energy", ["energy", "power", "electricity", "fuel", "renewable", "oil", "gas"]),
    Industry("entertainment", ["entertainment", "media", "film", "music", "arts", "culture"]),
    Industry("engineering", ["engineering", "technology", "design", "innovation", "development"])
  ]

  /** `sum(1 for word in tokens if word in keywords)`: the tokens equal to
      one of the keywords, each occurrence counted once. */
  function KeywordCount(tokens: seq<string>, keywords: seq<string>): nat {
    if tokens == [] then 0
    else KeywordCount(tokens[..|tokens| - 1], keywords) + (if tokens[|tokens| - 1] in keywords then 1 else 0)
  }

  /** An item of `thematic_words_count`: the industry, its count, and its
      place in declaration order, which the stable sort uses for ties. */
  datatype Score = Score(rank: nat, name: string, count: nat)

  /** `thematic_words_count.items()`, in declaration order. */
  function Scores(tokens: seq<string>): seq<Score> {
    seq(|IndustryKeywords|, i requires 0 <= i < |IndustryKeywords| =>
      Score(i, IndustryKeywords[i].name, KeywordCount(tokens, IndustryKeywords[i].keywords)))
  }

  /** `a` comes before `b` in `sorted(..., key=count, reverse=True)`: a
      higher count, or the same count and declared earlier. */
  predicate Ahead(a: Score, b: Score) {
    a.count > b.count || (a.count == b.count && a.rank < b.rank)
  }

  ghost predicate SortedDesc(s: seq<Score>) {
    forall i, j :: 0 <= i < j < |s| ==> Ahead(s[i], s[j])
  }

  /** Stable insertion of `x`, which follows every element of `s` in the
      input: it goes after every element that counts at least as much. */
  function Insert(s: seq<Score>, x: Score): (r: seq<Score>)
    ensures |r| == |s| + 1
  {
    if s == [] then [x]
    else if s[|s| - 1].count >= x.count then s + [x]
    else Insert(s[..|s| - 1], x) + [s[|s| - 1]]
  }

  /** `sorted(items, key=lambda x: x[1], reverse=True)`. Python's sort is
      stable, with `reverse=True` too: equal counts keep their input order. */
  function SortDesc(s: seq<Score>): (r: seq<Score>)
    ensures |r| == |s|
  {
    if s == [] then [] else Insert(SortDesc(s[..|s| - 1]), s[|s| - 1])
  }

  /** The first three of the sorted items. */
  function TopIndustries(tokens: seq<string>): seq<Score> {
    SortDesc(Scores(tokens))[..3]
  }

  lemma {:induction false} InsertPerm(s: seq<Score>, x: Score)
    ensures multiset(Insert(s, x)) == multiset(s) + multiset{x}
  {
    if s != [] && s[|s| - 1].count < x.count {
      InsertPerm(s[..|s| - 1], x);
      assert s == s[..|s| - 1] + [s[|s| - 1]];
    }
  }

  lemma {:induction false} InsertSorted(s: seq<Score>, x: Score)
    requires SortedDesc(s)
    requires forall i :: 0 <= i < |s| ==> s[i].rank < x.rank
    ensures SortedDesc(Insert(s, x))
  {
    if s != [] {
      var init := s[..|s| - 1];
      var last := s[|s| - 1];
      if last.count >= x.count {
        assert forall i :: 0 <= i < |s| ==> Ahead(s[i], x) by {
          forall i | 0 <= i < |s| ensures Ahead(s[i], x) {
            if i < |s| - 1 {
              assert Ahead(s[i], last);
            }
          }
        }
      } else {
        InsertSorted(init, x);
        InsertPerm(init, x);
        var r := Insert(init, x);
        forall i | 0 <= i < |r| ensures Ahead(r[i], last) {
          assert r[i] in multiset(init) + multiset{x};
          if r[i] != x {
            assert r[i] in init;
            var k :| 0 <= k < |init| && init[k] == r[i];
            assert Ahead(s[k], s[|s| - 1]);
          }
        }
      }
    }
  }

  /** A permutation of items ranked below `x` is ranked below `x`. */
  lemma RanksBelow(sorted: seq<Score>, init: seq<Score>, x: Score)
    requires multiset(sorted) == multiset(init)
    requires forall k :: 0 <= k < |init| ==> init[k].rank < x.rank
    ensures forall i :: 0 <= i < |sorted| ==> sorted[i].rank < x.rank
  {
    forall i | 0 <= i < |sorted| ensures sorted[i].rank < x.rank {
      assert sorted[i] in multiset(init);
      var k :| 0 <= k < |init| && init[k] == sorted[i];
    }
  }

  /** Sorting with distinct, increasing ranks gives every item once, each
      ahead of all that follow it. */
  lemma {:induction false} SortDescSpec(s: seq<Score>)
    requires forall i, j :: 0 <= i < j < |s| ==> s[i].rank < s[j].rank
    ensures multiset(SortDesc(s)) == multiset(s)
    ensures SortedDesc(SortDesc(s))
  {
    if s != [] {
      var init := s[..|s| - 1];
      var x := s[|s| - 1];
      var sorted := SortDesc(init);
      SortDescSpec(init);
      InsertPerm(sorted, x);
      forall k | 0 <= k < |init| ensures init[k].rank < x.rank {
        assert s[k] == init[k];
      }
      RanksBelow(sorted, init, x);
      InsertSorted(sorted, x);
      assert s == init + [x];
    }
  }

  /** The three industries returned: the items of the highest counts, in
      non-increasing count order, ties in declaration order, each ahead of
      every industry left out. */
  lemma TopIndustriesSpec(tokens: seq<string>)
    ensures |TopIndustries(tokens)| == 3
    ensures forall i, j :: 0 <= i < j < 3 ==> Ahead(TopIndustries(tokens)[i], TopIndustries(tokens)[j])
    ensures forall k :: 0 <= k < 3 ==> TopIndustries(tokens)[k] in Scores(tokens)
    ensures forall k, s :: 0 <= k < 3 && s in Scores(tokens) && s !in TopIndustries(tokens) ==>
      Ahead(TopIndustries(tokens)[k], s)
  {
    var scores := Scores(tokens);
    var sorted := SortDesc(scores);
    SortDescSpec(scores);
    var top := sorted[..3];
    forall k | 0 <= k < 3 ensures top[k] in scores {
      assert top[k] == sorted[k] && sorted[k] in multiset(scores);
    }
    SortedPrefixAhead(sorted, 3);
    forall s | s in scores ensures s in sorted {
      assert s in multiset(sorted);
    }
  }

  /** In a sorted sequence, each of the first `n` items is ahead of every
      item after them. */
  lemma SortedPrefixAhead(sorted: seq<Score>, n: nat)
    requires SortedDesc(sorted) && n <= |sorted|
    ensures forall k, s :: 0 <= k < n && s in sorted && s !in sorted[..n] ==> Ahead(sorted[k], s)
  {
    forall k, s | 0 <= k < n && s in sorted && s !in sorted[..n] ensures Ahead(sorted[k], s) {
      var j :| 0 <= j < |sorted| && sorted[j] == s;
      assert j >= n;
    }
  }

  /** Counting per industry, step by step: a further token adds one to
      every industry that lists it and nothing to the others. */
  lemma ScoresAppend(tokens: seq<string>, w: string)
    ensures forall i :: 0 <= i < |IndustryKeywords| ==>
      Scores(tokens + [w])[i].count == Scores(tokens)[i].count + (if w in IndustryKeywords[i].keywords then 1 else 0)
  {
    assert (tokens + [w])[..|tokens|] == tokens;
  }

  /** "media" is a keyword of both advertisement and entertainment, so one
      such token counts for both. */
  lemma MediaCountsTwice(tokens: seq<string>)
    ensures Scores(tokens)[2].name == "advertisement" && Scores(tokens)[12].name == "entertainment"
    ensures Scores(tokens + ["media"])[2].count == Scores(tokens)[2].count + 1
    ensures Scores(tokens + ["media"])[12].count == Scores(tokens)[12].count + 1
  {
    ScoresAppend(tokens, "media");
  }

  /** The technology keywords other than "IT". */
  const LowerTechnologyKeywords: seq<string> := ["technology", "telecommunications", "electronics", "software", "hardware"]

  /** The text is lower-cased before it is tokenised; with tokens free of
      upper-case letters the keyword "IT" never counts, and technology
      scores as if it were not listed. */
  lemma {:induction false} UpperKeywordNeverCounts(tokens: seq<string>)
    requires forall i :: 0 <= i < |tokens| ==> NoUpper(tokens[i])
    ensures KeywordCount(tokens, IndustryKeywords[0].keywords) == KeywordCount(tokens, LowerTechnologyKeywords)
  {
    if tokens != [] {
      var t := tokens[|tokens| - 1];
      UpperKeywordNeverCounts(tokens[..|tokens| - 1]);
      assert NoUpper(t) && IsUpper("IT"[0]);
      assert t != [] ==> !IsUpper(t[0]);
    }
  }

  /** industryEntities: the names of the three leading industries. */
  method IndustryEntities(text: string, wordTokenize: string -> seq<string>) returns (output: seq<string>)
    ensures |output| == 3
    ensures forall k :: 0 <= k < 3 ==> output[k] == TopIndustries(wordTokenize(Lower(text)))[k].name
  {
    var tokens := wordTokenize(Lower(text));
    var topIndustries := TopIndustries(tokens);
    TopIndustriesSpec(tokens);
    output := [];
    for i := 0 to |topIndustries|
      invariant |output| == i
      invariant forall k :: 0 <= k < i ==> output[k] == topIndustries[k].name
    {
      output := output + [topIndustries[i].name];
    }
  }

  // ---------------------------------------------------------------------
  // Products (the filtering part of productEntities)
  // ---------------------------------------------------------------------

  /** An element of `ne_chunk`'s output: a tagged token, or a tree whose
      label (`kind`) names the entity kind and whose leaves are tagged tokens. */
  datatype Chunk = Token(word: string, tag: string) | Tree(kind: string, leaves: seq<(string, string)>)

  const GeneralWords: seq<string> :=
    ["Company", "Companys", "Business", "Securities", "Exchange", "SEC", "Workplace", "Reports"]

  function LeafWords(leaves: seq<(string, string)>): seq<string> {
    seq(|leaves|, i requires 0 <= i < |leaves| => leaves[i].0)
  }

  /** `" ".join([word for word, tag in entity.leaves()])` */
  function EntityName(leaves: seq<(string, string)>): string {
    JoinSpace(LeafWords(leaves))
  }

  predicate Organization(c: Chunk) {
    c.Tree? && c.kind == "ORGANIZATION"
  }

  /** `len(entity_name.split()) <= 3` */
  predicate Short(name: string) {
    |Words(name)| <= 3
  }

  /** No word of the name is a general word. */
  predicate Specific(name: string) {
    forall w :: w in Words(name) ==> w !in GeneralWords
  }

  /** The chunk is an ORGANIZATION tree of at most three words named `p`. */
  predicate Reports(c: Chunk, p: string) {
    Organization(c) && EntityName(c.leaves) == p && Short(p)
  }

  /** `products` after the loop over the chunks. */
  function Candidates(chunks: seq<Chunk>): seq<string> {
    if chunks == [] then []
    else
      var c := chunks[|chunks| - 1];
      Candidates(chunks[..|chunks| - 1])
      + (if c.Tree? && Reports(c, EntityName(c.leaves)) then [EntityName(c.leaves)] else [])
  }

  /** `[prod for prod in unique_products if not any(...)]` */
  function KeepSpecific(xs: seq<string>): seq<string> {
    if xs == [] then []
    else KeepSpecific(xs[..|xs| - 1]) + (if Specific(xs[|xs| - 1]) then [xs[|xs| - 1]] else [])
  }

  predicate NoDuplicates(xs: seq<string>) {
    forall i, j :: 0 <= i < j < |xs| ==> xs[i] != xs[j]
  }

  /** The candidates are the names of the ORGANIZATION chunks that have at
      most three words. */
  lemma {:induction false} CandidatesSpec(chunks: seq<Chunk>)
    ensures forall p :: p in Candidates(chunks) <==> exists i :: 0 <= i < |chunks| && Reports(chunks[i], p)
  {
    if chunks != [] {
      var init := chunks[..|chunks| - 1];
      CandidatesSpec(init);
      forall p | p in Candidates(chunks)
        ensures exists i :: 0 <= i < |chunks| && Reports(chunks[i], p)
      {
        if p in Candidates(init) {
          var i :| 0 <= i < |init| && Reports(init[i], p);
          assert chunks[i] == init[i];
        }
      }
      forall p | exists i :: 0 <= i < |chunks| && Reports(chunks[i], p)
        ensures p in Candidates(chunks)
      {
        var i :| 0 <= i < |chunks| && Reports(chunks[i], p);
        if i < |init| {
          assert init[i] == chunks[i];
        }
      }
    }
  }

  /** The filter keeps exactly the specific names, and no name twice when
      none was there twice. */
  lemma {:induction false} KeepSpecificSpec(xs: seq<string>)
    ensures forall p :: p in KeepSpecific(xs) <==> p in xs && Specific(p)
    ensures NoDuplicates(xs) ==> NoDuplicates(KeepSpecific(xs))
  {
    if xs != [] {
      var init := xs[..|xs| - 1];
      KeepSpecificSpec(init);
      assert xs == init + [xs[|xs| - 1]];
      if NoDuplicates(xs) {
        assert NoDuplicates(init);
        assert xs[|xs| - 1] !in init;
      }
    }
  }

  /** An ORGANIZATION chunk of at most three leaves, whose words are words
      and none of them general, is reported under the joined words, which
      split back into its leaves' words. */
  lemma OrganizationReported(chunks: seq<Chunk>, i: nat)
    requires i < |chunks| && Organization(chunks[i])
    requires |chunks[i].leaves| <= 3
    requires forall k :: 0 <= k < |chunks[i].leaves| ==>
      IsWord(chunks[i].leaves[k].0) && chunks[i].leaves[k].0 !in GeneralWords
    ensures Words(EntityName(chunks[i].leaves)) == LeafWords(chunks[i].leaves)
    ensures EntityName(chunks[i].leaves) in Candidates(chunks) && Specific(EntityName(chunks[i].leaves))
  {
    SplitJoin(LeafWords(chunks[i].leaves));
    CandidatesSpec(chunks);
  }

  /** `list(set(products))`: each candidate once, in an order Python does
      not specify; here any order the choices give. */
  method ListOfSet(s: set<string>) returns (xs: seq<string>)
    ensures forall p :: p in xs <==> p in s
    ensures NoDuplicates(xs)
  {
    xs := [];
    var rest := s;
    while rest != {}
      invariant forall p :: p in s <==> p in xs || p in rest
      invariant forall p :: p in xs ==> p !in rest
      invariant NoDuplicates(xs)
      decreases |rest|
    {
      var p :| p in rest;
      xs := xs + [p];
      rest := rest - {p};
    }
  }

  /** productEntities after the chunking: the specific names of the short
      ORGANIZATION chunks, each once. */
  method ProductEntities(chunks: seq<Chunk>) returns (output: seq<string>)
    ensures forall p :: p in output <==> p in Candidates(chunks) && Specific(p)
    ensures NoDuplicates(output)
    ensures forall p :: p in output ==> Short(p)
  {
    var products := [];
    for i := 0 to |chunks|
      invariant products == Candidates(chunks[..i])
    {
      assert chunks[..i + 1][..i] == chunks[..i];
      var entity := chunks[i];
      if entity.Tree? && entity.kind == "ORGANIZATION" {
        var entityName := JoinSpace(LeafWords(entity.leaves));
        if |Words(entityName)| <= 3 {
          products := products + [entityName];
        }
      }
    }
    assert chunks[..|chunks|] == chunks;
    var uniqueProducts := ListOfSet(set p | p in products);
    output := KeepSpecific(uniqueProducts);
    KeepSpecificSpec(uniqueProducts);
    CandidatesSpec(chunks);
  }
}
