/** The crisis classifier: a case-insensitive substring test of the user's
    message against a fixed keyword list (app.py, `detect_crisis`). */
module Crisis {
  import opened Text

  /** `CRISIS_KEYWORDS`; all of them are already in lower case. */
  const CrisisKeywords: seq<string> :=
    ["suicide", "hopeless", "self-harm", "end my life", "no reason to live", "can't go on"]

  /** `any(word in s for word in words)`. */
  function AnyContained(words: seq<string>, s: string): (r: bool)
    ensures r <==> exists k :: 0 <= k < |words| && Contains(words[k], s)
  {
    words != [] && (Contains(words[0], s) || AnyContained(words[1..], s))
  }

  /** `detect_crisis(message)`. */
  function DetectCrisis(message: string): bool
  {
    AnyContained(CrisisKeywords, Lower(message))
  }

  /** A message is classified as a crisis exactly when some keyword occurs, at
      some position, in the lower-cased message. */
  lemma DetectCrisisIff(message: string)
    ensures DetectCrisis(message) <==>
      exists k: nat, i: nat :: k < |CrisisKeywords| && OccursAt(CrisisKeywords[k], Lower(message), i)
  {
    forall k | 0 <= k < |CrisisKeywords| {
      ContainsIff(CrisisKeywords[k], Lower(message));
    }
  }

  /** The classification ignores letter case: upper-casing or lower-casing the
      message does not change it. */
  lemma CrisisIgnoresCase(message: string)
    ensures DetectCrisis(Upper(message)) == DetectCrisis(message)
    ensures DetectCrisis(Lower(message)) == DetectCrisis(message)
  {
    LowerOfUpper(message);
    assert Lower(Lower(message)) == Lower(message);
  }

  /** Any message holding a keyword, in any mix of letter case and at any
      position, is classified as a crisis. */
  lemma CrisisKeywordAnywhere(before: string, word: string, after: string, k: nat)
    requires k < |CrisisKeywords|
    requires Lower(word) == CrisisKeywords[k]
    ensures DetectCrisis(before + word + after)
  {
    var m := before + word + after;
    LowerConcat(before + word, after);
    LowerConcat(before, word);
    var lm := Lower(before) + CrisisKeywords[k] + Lower(after);
    assert Lower(m) == lm;
    assert lm[|before|..|before| + |CrisisKeywords[k]|] == CrisisKeywords[k];
    assert OccursAt(CrisisKeywords[k], Lower(m), |before|);
    ContainsIff(CrisisKeywords[k], Lower(m));
  }

  /** The message "I want to end my life" is classified as a crisis. */
  lemma EndMyLifeIsCrisis()
    ensures DetectCrisis("I want to end my life")
  {
    assert Lower("end my life") == CrisisKeywords[3];
    CrisisKeywordAnywhere("I want to ", "end my life", "", 3);
    assert "I want to " + "end my life" + "" == "I want to end my life";
  }
}
