/** The sheet-name sanitiser of main.py (`replace_characters`): every
    character of the name that is listed for replacement becomes `_`. */
module SheetNames {

  /** The list `get_sheets` passes (main.py:189). Two of its entries are
      longer than one character. */
  const SheetNameChars: seq<string> := [" ", "  ", ",", ".", ":", ";", "(1)", "$", "(", ")"]

  /** `char in characters_to_replace`: a character is a one-character
      string in Python, so it matches an entry only when the entry is that
      very string. */
  predicate Listed(c: char, toReplace: seq<string>) {
    [c] in toReplace
  }

  /** What the loop has built after reading `s`. */
  function Replaced(s: string, toReplace: seq<string>): string {
    if s == [] then ""
    else
      var c := s[|s| - 1];
      Replaced(s[..|s| - 1], toReplace) + [if Listed(c, toReplace) then '_' else c]
  }

  /** The result has the input's length; each character is `_` where the
      input's is listed, and the input's own character elsewhere. */
  lemma {:induction false} ReplacedSpec(s: string, toReplace: seq<string>)
    ensures |Replaced(s, toReplace)| == |s|
    ensures forall k :: 0 <= k < |s| ==>
      Replaced(s, toReplace)[k] == if Listed(s[k], toReplace) then '_' else s[k]
  {
    if s != [] {
      ReplacedSpec(s[..|s| - 1], toReplace);
    }
  }

  /** An entry that is not a single character never matches anything:
      removing it from any position of the list changes no result. */
  lemma {:induction false} LongEntriesInert(s: string, pre: seq<string>, entry: string, post: seq<string>)
    requires |entry| != 1
    ensures Replaced(s, pre + [entry] + post) == Replaced(s, pre + post)
  {
    if s != [] {
      LongEntriesInert(s[..|s| - 1], pre, entry, post);
      var c := s[|s| - 1];
      assert Listed(c, pre + [entry] + post) == Listed(c, pre + post) by {
        assert [c] != entry;
      }
    }
  }

  /** The list of main.py:189 acts as its eight one-character entries:
      "  " and "(1)" never match. */
  lemma SheetNameCharsSingles(s: string)
    ensures Replaced(s, SheetNameChars) == Replaced(s, [" ", ",", ".", ":", ";", "$", "(", ")"])
  {
    LongEntriesInert(s, [" "], "  ", [",", ".", ":", ";", "(1)", "$", "(", ")"]);
    assert [" "] + ["  "] + [",", ".", ":", ";", "(1)", "$", "(", ")"] == SheetNameChars;
    LongEntriesInert(s, [" ", ",", ".", ":", ";"], "(1)", ["$", "(", ")"]);
    assert [" ", ",", ".", ":", ";"] + ["(1)"] + ["$", "(", ")"] == [" "] + [",", ".", ":", ";", "(1)", "$", "(", ")"];
    assert [" ", ",", ".", ":", ";"] + ["$", "(", ")"] == [" ", ",", ".", ":", ";", "$", "(", ")"];
  }

  /** The entry "(1)" is never matched as a whole, yet "(1)" still comes out
      as "_1_" through the separate "(" and ")" entries. */
  lemma ParenthesisedOne()
    ensures Replaced("(1)", SheetNameChars) == "_1_"
  {
    assert Listed('(', SheetNameChars) && Listed(')', SheetNameChars);
    assert !Listed('1', SheetNameChars);
    assert "(1)"[..2] == "(1" && "(1"[..1] == "(";
  }

  /** With a list that does not contain "_", no listed character is left. */
  lemma NoneLeft(s: string, toReplace: seq<string>)
    requires "_" !in toReplace
    ensures forall k :: 0 <= k < |Replaced(s, toReplace)| ==> !Listed(Replaced(s, toReplace)[k], toReplace)
  {
    ReplacedSpec(s, toReplace);
  }

  /** With such a list, sanitising a sanitised name changes nothing. */
  lemma Idempotent(s: string, toReplace: seq<string>)
    requires "_" !in toReplace
    ensures Replaced(Replaced(s, toReplace), toReplace) == Replaced(s, toReplace)
  {
    var r := Replaced(s, toReplace);
    ReplacedSpec(s, toReplace);
    ReplacedSpec(r, toReplace);
    NoneLeft(s, toReplace);
  }

  /** The list of main.py:189 has no "_", so both properties hold for it. */
  lemma SheetNamesClean(s: string)
    ensures forall k :: 0 <= k < |Replaced(s, SheetNameChars)| ==>
      !Listed(Replaced(s, SheetNameChars)[k], SheetNameChars)
    ensures Replaced(Replaced(s, SheetNameChars), SheetNameChars) == Replaced(s, SheetNameChars)
  {
    assert "_" !in SheetNameChars;
    NoneLeft(s, SheetNameChars);
    Idempotent(s, SheetNameChars);
  }

  /** replace_characters. */
  method ReplaceCharacters(input: string, toReplace: seq<string>) returns (output: string)
    ensures output == Replaced(input, toReplace)
    ensures |output| == |input|
    ensures forall k :: 0 <= k < |input| ==> output[k] == if Listed(input[k], toReplace) then '_' else input[k]
  {
    output := "";
    for i := 0 to |input|
      invariant output == Replaced(input[..i], toReplace)
    {
      assert input[..i + 1][..i] == input[..i];
      if [input[i]] in toReplace {
        output := output + "_";
      } else {
        output := output + [input[i]];
      }
    }
    assert input[..|input|] == input;
    ReplacedSpec(input, toReplace);
  }
}
