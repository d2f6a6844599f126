# SEC EDGAR report text processing, modelled in Dafny

This project models the hand-written text processing of a tool that
downloads SEC EDGAR annual reports (10-K filings), cuts them into sections,
summarises the business description and tags it with industries and product
names. The model covers four pieces:

- **Section locator and extractor** (`business_info.py`, class `BusinessInfo`;
  Dafny module `Sections`, class `Sections.BusinessInfo`).
  - The raw lines are cleaned character by character.
  - Marker phrases are counted to find the line indices that bound the
    business section and the financial-discussion section.
  - The text between two indices is joined.
- **Extractive summariser** (`business_info.py`, class `BusinessSummary`;
  module `Summary`, class `Summary.BusinessSummary`).
  - A word-frequency table is built over the business section.
  - Each sentence gets a score, stored in a dict keyed by the sentence's
    first seven characters.
  - The scores are averaged.
  - The sentences scoring at least 1.5 times the mean are kept, in their
    original order.
- **Industry classifier and product-name filter**
  (`product_industry_entities.py`, class `Entities`; module `Entities`).
  - Counts the tokens matching each industry's keywords and names the three
    industries with the highest counts.
  - Filters the named-entity chunks down to short organisation names.
- **Sheet-name sanitiser** (`main.py`, `replace_characters`; module
  `SheetNames`). Every listed character is replaced by `_`.

Supporting modules:

- `Wrappers`: the `Result` type. Its errors are the Python exceptions the
  code can raise (IndexError, KeyError, ZeroDivisionError, UnboundLocalError).
- `Text`: the parts of Python's `str` that the code uses.
- `Dicts`: Python's insertion-ordered `dict`, as a key sequence plus a map.

The stateful parts are classes whose constructors set the fields and whose
methods read them.

- The loops are `while`/`for` loops with invariants.
- Each method is proved equal to a specification function, except
  `Entities.ListOfSet` and `Entities.ProductEntities`. Their output order
  comes from a set and is left free; their contracts state membership
  and the absence of duplicates.
- Lemmas prove what that function means: bounds, membership conditions,
  counting identities, order, and exactly when each error is raised.

The model follows the code as written, including its quirks.

- **Marker tests.** `"item 1." and "business" in line.lower()`
  (business_info.py:82) tests only for "business", because of Python's
  operator precedence. The "item 7" and "item 9" tests (lines 103 and 109)
  reduce the same way, so the item numbers are never looked for.
- **Sentence score division.** Only the last sentence's entry is divided
  by its match count, once, after the loop (business_info.py:207). Every
  other entry keeps its undivided total.
- **Sentences with no match.** A sentence matching no key adds no entry.
  When it is the last sentence, the division raises KeyError (its prefix
  has no entry) or ZeroDivisionError (another sentence with the same
  prefix made one). An empty sentence list raises UnboundLocalError.
- **Missing sections.** When a marker does not occur often enough, the
  list indexing in `businessInfo`, `finLines` or `finInfo` raises
  IndexError, and the model returns that error.
- **Threshold.** `get_edgar_summary` uses 1.5 times the mean, while
  `business_summary` in `main.py` uses 0.8 times it. Both appear in the
  model: 1.5 in `GetEdgarSummary`, and the relation between any two
  proportions in `ProportionNarrows`.

## Model

| member | source | states |
|---|---|---|
| Text.LowerSpec | product_industry_entities.py:92 | a lower-cased string keeps its length, contains no upper-case letter, and lower-casing it again changes nothing |
| Text.StripLeft | business_info.py:75 | the result is a suffix of the line; everything cut off is whitespace; the result does not start with whitespace |
| Text.StripRight | business_info.py:75 | the result is a prefix of the line; everything cut off is whitespace; the result does not end with whitespace |
| Text.SplitJoin | product_industry_entities.py:80-81 | splitting the space-joined leaf words gives back exactly those words, so the word count is the leaf count |
| Dicts.PutValid | business_info.py:184-187 | storing into a dict keeps its keys distinct and listed exactly when mapped, stores the value under its key, leaves every other value unchanged, keeps the existing keys in their order, and appends a new key last |
| Dicts.PutTwice | business_info.py:202-205 | storing twice under one key leaves only the second value |
| Dicts.SumIntsRaise | business_info.py:202-203 | raising one value of a dict by delta raises the sum of its values by delta |
| Sections.FilterChars | business_info.py:69-72 | every kept character is alphanumeric, whitespace or one of `, . : ; -`; each such character is kept as often as it occurs, and every other character is dropped |
| Sections.CleanedLines | business_info.py:65-75 | one cleaned line per raw line |
| Sections.CleanLineIsClean | business_info.py:72-75 | a cleaned line holds only allowed characters and has no leading or trailing whitespace |
| Sections.CleanLineIdempotent | business_info.py:72-75 | cleaning a cleaned line changes nothing |
| Sections.BusinessInfo.constructor | business_info.py:51-54 | the object holds the text and the cleaned lines, one per raw line |
| Sections.BusinessInfo.GetLines | business_info.py:69-75 | the loop yields one cleaned line per raw line, each clean, equal to the cleaning function |
| Sections.InfoIndicesSpec | business_info.py:77-90 | at most two indices, each a valid line index, in scan order; there are two exactly when both "business" and "item 1a" reach three occurrences; an index is listed exactly when it is the line of the third occurrence of either phrase |
| Sections.InfoIndicesUpToCount | business_info.py:81-89 | after any prefix of the scan, one index is listed per phrase whose count has reached three |
| Sections.NthHitExists | business_info.py:82-85 | the line of the nth occurrence exists within a prefix exactly when the prefix holds at least n occurrences |
| Sections.NthHitUnique | business_info.py:84-85 | at most one line is the nth occurrence of a phrase |
| Sections.BusinessInfo.InfoLines | business_info.py:77-90 | the scan returns the specified indices: at most two, valid, and exactly the lines where a counter reaches three |
| Sections.FinIndicesFails | business_info.py:109-112 | the scan fails with IndexError exactly when no line contains "disagreements" |
| Sections.FinIndicesSpec | business_info.py:98-114 | on success there are two indices when "discussion and analysis" occurs at least four times and one otherwise; the last is the last line containing "disagreements"; when there are two, the first is the line of the fourth occurrence |
| Sections.MarkedUpToMembers | business_info.py:109-110 | the collected indices are exactly the lines containing the phrase |
| Sections.BusinessInfo.FinLines | business_info.py:98-114 | the scan returns the specified indices and fails exactly when no line contains "disagreements" |
| Sections.SpanOk | business_info.py:94-95 | joining lines lo..hi fails exactly when the range is non-empty and reaches outside the list as Python indexes it, negative indices included |
| Sections.SpanSlice | business_info.py:94-95 | over an in-range span the result is `" " + line` for each line of the span, in order |
| Sections.SectionSpec | business_info.py:92-96 | the section fails exactly when fewer than two indices are given or the span is out of range; it is empty when `indices[1] <= indices[0] + 1`; when `0 <= indices[0] < indices[1] <= len(lines)` it is the lines strictly between the two indices, each preceded by a space; no value is stated for in-range negative bounds, which the locators never produce |
| Sections.BusinessSectionFound | business_info.py:77-96 | when both phrases occur three times, the indices are ordered and valid and the section is the lines strictly between them |
| Sections.BusinessInfo.BusinessInfo | business_info.py:92-96 | the loop returns the section between the first two indices, and fails exactly in the cases SectionSpec names |
| Sections.BusinessInfo.FinInfo | business_info.py:116-120 | the same as businessInfo, for the financial section |
| Summary.SentenceKey | business_info.py:202 | the key is a prefix of the sentence, of length seven or the whole sentence when it is shorter |
| Summary.KeptStemsSpec | business_info.py:179-183 | no kept stem is a stopword; every other stem is kept as often as it occurs |
| Summary.TallyValid | business_info.py:180-187 | the counted table is a well-formed dict |
| Summary.TallyCounts | business_info.py:180-187 | a word is a key exactly when it occurs, and its value is its number of occurrences |
| Summary.TallySum | business_info.py:180-187 | the values sum to the number of words counted |
| Summary.FrequencyTableSpec | business_info.py:173-189 | no key is a stopword; each value is the number of tokens whose stem is that key, and at least 1; every non-stopword stem is a key; the values sum to the number of non-stopword stems |
| Summary.BusinessSummary.CreateDictionaryTable | business_info.py:173-189 | the loop builds the frequency table of the section's non-stopword stems, a well-formed dict of positive counts |
| Summary.BusinessSummary.LocateBusiness | business_info.py:165-168 | the business section's cleaned lines, its bounding indices, and its text as the extractor returns it |
| Summary.BusinessSummary.constructor | business_info.py:165-169 | the object holds the cleaned lines, the business section's indices, its text, and the frequency table of that text |
| Summary.HitsInMembers | business_info.py:199-200 | a key is matched exactly when it occurs in the lower-cased sentence |
| Summary.ScoreKeysIsAddHits | business_info.py:199-205 | the inner loop adds, under the sentence's key, the count of every matching key |
| Summary.MatchCountIsHits | business_info.py:200-201 | the match counter equals the number of matching keys |
| Summary.AccumulateKeys | business_info.py:196-205 | a prefix has an entry exactly when some sentence with that prefix matched a key |
| Summary.AccumulateValues | business_info.py:196-205 | each entry is the total count matched by all sentences sharing that prefix, and a prefix without an entry has total zero |
| Summary.SentenceScoresFail | business_info.py:194-209 | scoring fails exactly when the list is empty or its last sentence matches nothing: UnboundLocalError for an empty list, KeyError when the last prefix has no entry, ZeroDivisionError when it has one but the last sentence matched nothing |
| Summary.SentenceScoresValues | business_info.py:194-209 | on success the keys are those of the accumulated entries; the last sentence's entry is its total divided by the last sentence's match count; every other entry is its undivided total |
| Summary.SentenceScoresValid | business_info.py:194-209 | the score dict, when it exists, is a well-formed dict |
| Summary.ScoresNonNeg | business_info.py:194-209 | with positive counts in the table, every score is non-negative |
| Summary.BusinessSummary.ScoreSentence | business_info.py:198-205 | one pass of the inner loop adds the sentence's matches under its prefix and counts them |
| Summary.BusinessSummary.CalculateSentenceScores | business_info.py:194-209 | the loop returns the specified scores, and succeeds exactly when the last sentence matches some key |
| Summary.AverageBetween | business_info.py:213-220 | the mean of a non-empty score dict exists and lies between its smallest and largest entries |
| Summary.BusinessSummary.CalculateAverageScore | business_info.py:213-220 | the loop returns the mean, and fails with ZeroDivisionError exactly when the dict is empty |
| Summary.ChosenMembers | business_info.py:222-232 | a sentence is kept exactly when it is in the list and its prefix has an entry at or above the threshold |
| Summary.ChosenNarrows | business_info.py:222-232 | raising the threshold keeps a subsequence of the sentences kept before, so never more of them |
| Summary.Chosen | business_info.py:222-232 | never more sentences kept than given |
| Summary.BusinessSummary.ThresholdSummary | business_info.py:222-232 | the loop returns the kept sentences, in input order, each preceded by a space |
| Summary.ProportionNarrows | main.py:100-111 | with non-negative scores the mean is non-negative, and the sentences kept at a higher multiple of it are those kept at a lower multiple, filtered again; so 1.5 keeps a subsequence of what 0.8 keeps |
| Summary.EdgarSummaryFails | business_info.py:234-240 | the summary exists exactly when the scores do, that is when the last sentence matches some key |
| Summary.BusinessSummary.SummarizeSentences | business_info.py:235-240 | scoring, averaging and keeping at 1.5 times the mean gives the specified summary, which exists exactly when the last sentence matches some key |
| Summary.BusinessSummary.GetEdgarSummary | business_info.py:234-240 | the summary of the sentences the tokenizer returns, at 1.5 times the mean, which exists exactly when the last sentence matches some key |
| Entities.SortDescSpec | product_industry_entities.py:96 | the stable descending sort is a permutation in which each item has a higher count than the next, or the same count and an earlier declaration |
| Entities.InsertPerm | product_industry_entities.py:96 | inserting one item into the sorted list adds exactly that item |
| Entities.InsertSorted | product_industry_entities.py:96 | inserting an item declared after all others keeps the list sorted, after the items with an equal count |
| Entities.TopIndustriesSpec | product_industry_entities.py:93-96 | exactly three industries, in non-increasing count with ties in declaration order, each among the fourteen scored, each ahead of every industry left out |
| Entities.ScoresAppend | product_industry_entities.py:93-94 | one more token raises by one the count of every industry that lists it, and no other count |
| Entities.MediaCountsTwice | product_industry_entities.py:28-44 | the keyword "media", listed under both advertisement and entertainment, counts for both |
| Entities.UpperKeywordNeverCounts | product_industry_entities.py:92-94 | over lower-case tokens, the technology count is the same as without its upper-case keyword "IT", which never matches |
| Entities.IndustryEntities | product_industry_entities.py:90-103 | exactly three names: those of the top three industries of the lower-cased, tokenized text, in order |
| Entities.CandidatesSpec | product_industry_entities.py:75-82 | a name is collected exactly when some chunk is an ORGANIZATION tree whose space-joined leaf words form that name, in at most three words |
| Entities.OrganizationReported | product_industry_entities.py:76-85 | an ORGANIZATION chunk of at most three general-word-free leaves is reported under the joined name, which splits back into its leaves |
| Entities.KeepSpecificSpec | product_industry_entities.py:83-85 | a name is kept exactly when none of its words is a general word; filtering keeps names distinct |
| Entities.ListOfSet | product_industry_entities.py:84 | the list holds exactly the set's elements, each once |
| Entities.ProductEntities | product_industry_entities.py:67-86 | a name is output exactly when it is a collected ORGANIZATION name with no general word; no name twice; each at most three words |
| SheetNames.ReplacedSpec | main.py:157-165 | same length; each character is `_` where the input character is listed, and unchanged elsewhere |
| SheetNames.LongEntriesInert | main.py:161 | a list entry that is not a single character never matches, so removing it from any position of the list changes nothing |
| SheetNames.SheetNameCharsSingles | main.py:189 | the list `get_sheets` passes sanitises exactly as its eight one-character entries do: "  " and "(1)" never match |
| SheetNames.ParenthesisedOne | main.py:189 | with the sheet-name list, "(1)" becomes "_1_" through the "(" and ")" entries |
| SheetNames.NoneLeft | main.py:157-165 | with a list without "_", no listed character is left in the output |
| SheetNames.Idempotent | main.py:157-165 | with a list without "_", sanitising twice is sanitising once |
| SheetNames.SheetNamesClean | main.py:189 | both of the above hold for the list `get_sheets` passes |
| SheetNames.ReplaceCharacters | main.py:157-165 | the loop returns the sanitised name: same length, `_` exactly at the listed characters |

## Left out

- Reading the report file (`getText`, and the file read in `getLines`,
  business_info.py:58-67): the raw text and raw lines are inputs.
- NLTK is outside the model. `word_tokenize`, `sent_tokenize` and the Porter
  stemmer are function parameters. The English stopword list is a set
  parameter. The output of `pos_tag` and `ne_chunk` is the chunk sequence
  given to `ProductEntities`.
- `Text.IsAlnum` and `Text.LowerChar` cover ASCII only. Python's
  `str.isalnum` and `str.lower` are Unicode-aware. `Text.IsSpace` follows
  Python's full list of whitespace characters.
- Scores are exact reals. Floating-point rounding in the division and the
  mean is not modelled.
- `print` in `industryEntities` (product_industry_entities.py:100) is left
  out. It has no effect on the result.
- Entities.ProductEntities: states membership and the absence of duplicates,
  not the order of the output. `list(set(products))` has no specified order;
  `Entities.ListOfSet` picks the elements in an arbitrary order.
- Summary.BusinessSummary.constructor: requires that "business" and
  "item 1a" each occur at least three times. Otherwise the source's
  `__init__` raises IndexError, and a constructor has no error result.
  `Sections.SectionSpec` and `Sections.InfoIndicesSpec` state exactly when
  that happens.
- Summary.BusinessSummary.LocateBusiness: has the constructor's
  precondition, and so does not return the IndexError that the source's
  `__init__` raises when a section marker is missing. It is the
  `BusinessInfo` half of that constructor.
- In `BusinessSummary.__init__`, the parent constructor reads the text
  and lines. Then only the text is replaced, by the business section
  (business_info.py:168), and the lines are kept. The model builds a
  `Sections.BusinessInfo` for the first step and keeps its lines. It does
  not keep the full raw text as an intermediate value.
- The local variables `sentence_wordcount` (business_info.py:197) and
  `sentence_counter` (business_info.py:224, 230) are never read, so they
  are not modelled.
- `business_summary` in main.py (lines 100-111): only its use of 0.8 times
  the mean is modelled, through `Summary.ProportionNarrows`. Writing the
  summary file is left out.
- The other functions of main.py are left out: `save_text`, `save_html`,
  `get_entities`, `get_sheets` apart from its character list, and `main`.
  They are file and network I/O and orchestration.
- text_scrapper.py is not part of this model. It holds HTTP downloading,
  HTML parsing and DataFrame handling.
