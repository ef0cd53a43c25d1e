/** The moderation gate: a blunt, case-insensitive phrase denylist that runs before
    any retrieval. */
module Moderation {
  import opened Text

  /** The phrases that trip the gate. */
  const BiasedTerms: seq<string> := ["only man", "not for women", "typical male", "stereotype"]

  /** Some phrase of `terms` occurs in `s`: the loop over the denylist. */
  function AnyOccurs(s: string, terms: seq<string>): (r: bool)
    ensures r <==> exists k :: 0 <= k < |terms| && Contains(s, terms[k])
  {
    if terms == [] then false
    else
      assert forall k :: 0 < k < |terms| ==> terms[k] == terms[1..][k - 1];
      Contains(s, terms[0]) || AnyOccurs(s, terms[1..])
  }

  /** `detect_bias`: true exactly when one of the denylisted phrases occurs in the
      lower-cased message. */
  function DetectBias(message: string): (r: bool)
    ensures r <==> exists k :: 0 <= k < |BiasedTerms| && Contains(Lower(message), BiasedTerms[k])
  {
    AnyOccurs(Lower(message), BiasedTerms)
  }

  /** The gate does not see case: upper-casing or lower-casing a message first
      changes nothing. */
  lemma DetectBiasIgnoresCase(message: string)
    ensures DetectBias(Upper(message)) == DetectBias(message)
    ensures DetectBias(Lower(message)) == DetectBias(message)
  {
    LowerOfUpper(message);
    LowerOfLower(message);
  }

  /** A message in which every denylisted phrase misses one of its characters is let
      through. */
  lemma NotBiasedWithoutLetters(message: string, missing: seq<char>)
    requires |missing| == |BiasedTerms|
    requires forall k :: 0 <= k < |BiasedTerms| ==> missing[k] in BiasedTerms[k]
    requires forall k :: 0 <= k < |BiasedTerms| ==> missing[k] !in Lower(message)
    ensures !DetectBias(message)
  {
    if DetectBias(message) {
      var k :| 0 <= k < |BiasedTerms| && Contains(Lower(message), BiasedTerms[k]);
      var t := BiasedTerms[k];
      var j :| 0 <= j < |t| && t[j] == missing[k];
      ContainsChars(Lower(message), t, j);
    }
  }

  /** Every denylisted phrase starts with a letter, so a message without letters is
      let through. */
  lemma NoLettersNotBiased(message: string)
    requires NoLowerLetters(Lower(message))
    ensures !DetectBias(message)
  {
    forall k | 0 <= k < |BiasedTerms| ensures !Contains(Lower(message), BiasedTerms[k]) {
      NoLetterWord(Lower(message), BiasedTerms[k]);
    }
  }

  /** The gate on two sample messages. */
  lemma BiasedExample()
    ensures DetectBias("only man needed") && DetectBias("ONLY MAN needed")
  {
    var plain := "only man needed";
    assert Lower(plain) == plain;
    assert Lower("ONLY MAN needed") == plain;
    assert BiasedTerms[0] <= plain;
    assert Contains(Lower(plain), BiasedTerms[0]);
  }

  lemma InnocentExample()
    ensures !DetectBias("great opportunity")
  {
    var other := "great opportunity";
    assert Lower(other) == other;
    var missing := ['m', 'w', 'l', 's'];
    forall k | 0 <= k < |BiasedTerms|
      ensures missing[k] in BiasedTerms[k] && missing[k] !in Lower(other)
    {
      if k == 0 {} else if k == 1 {} else if k == 2 {} else {}
    }
    NotBiasedWithoutLetters(other, missing);
  }
}
