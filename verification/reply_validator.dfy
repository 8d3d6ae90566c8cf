/**
 * The quality gate a cleaned reply must pass before it is sent
 * (docker/bitnet-ai/app.py, `_is_valid_response`): a minimum length, a
 * denylist of assistant-speak phrases and a lexical-diversity ratio.
 */
module ReplyValidator {
  import opened Text
  import opened Py

  /** Phrases that betray a generic assistant rather than a seller; matched in the lower-cased reply. */
  const Denylist: seq<string> := [
    "i am an ai", "i am a language model", "i cannot", "i'm sorry but",
    "as an ai", "i don't have access", "i can't browse", "i'm not able to",
    "my knowledge cutoff", "training data", "openai", "chatgpt"
  ]

  /** The shortest stripped reply that is accepted. */
  const MinLength: nat := 5

  /** Whether lower-cased text holds a denylisted phrase. */
  predicate Denied(lower: string) {
    exists k :: 0 <= k < |Denylist| && Contains(lower, Denylist[k])
  }

  /** The distinct words of a word list. */
  function Distinct(words: seq<string>): (r: set<string>)
    ensures |r| <= |words|
    ensures forall w :: w in r <==> w in words
  {
    DistinctBound(words);
    set w | w in words
  }

  /** A word list has at most as many distinct words as words. */
  lemma {:induction false} DistinctBound(words: seq<string>)
    ensures |set w | w in words| <= |words|
    decreases |words|
  {
    if |words| > 0 {
      DistinctBound(words[1..]);
      assert (set w | w in words) == (set w | w in words[1..]) + {words[0]};
    }
  }

  /**
   * More than three words of which fewer than 60% are distinct; the ratio
   * `unique / total < 0.6` is compared as `5 * unique < 3 * total`.
   */
  predicate Repetitive(words: seq<string>) {
    |words| > 3 && 5 * |Distinct(words)| < 3 * |words|
  }

  /** The validator: long enough, no denylisted phrase, not repetitive. */
  predicate IsValidResponse(response: string) {
    var lower := Lower(response);
    |Strip(response)| >= MinLength && !Denied(lower) && !Repetitive(Words(lower))
  }

  /** For a positive divisor, a quotient is below `c` exactly when the dividend is below `c` times the divisor. */
  lemma DivBelow(u: real, t: real, c: real)
    requires t > 0.0
    ensures (u / t < c) <==> (u < c * t)
  {
    var q := u / t;
    assert q * t == u;
    if q < c {
      assert (c - q) * t > 0.0;
      assert c * t - q * t == (c - q) * t;
    } else {
      assert (q - c) * t >= 0.0;
      assert q * t - c * t == (q - c) * t;
    }
  }

  /** The integer comparison is the source's ratio test, read on exact fractions. */
  lemma RatioTest(unique: nat, total: nat)
    requires total > 0
    ensures 5 * unique < 3 * total <==> (unique as real) / (total as real) < 0.6
  {
    DivBelow(unique as real, total as real, 0.6);
  }

  /** Replies of at most three words, and replies whose words are all different, are never repetitive. */
  lemma DiverseNotRepetitive(words: seq<string>)
    requires |words| <= 3 || |Distinct(words)| == |words|
    ensures !Repetitive(words)
  {
  }

  /** An accepted reply has at least five non-space characters at its ends-trimmed core. */
  lemma ValidIsLongEnough(response: string)
    requires IsValidResponse(response)
    ensures |Strip(response)| >= MinLength && response != ""
  {
  }

  /** Any reply holding a denylisted phrase, in any ASCII letter case, is rejected. */
  lemma DeniedRejected(response: string, k: nat)
    requires k < |Denylist| && Contains(Lower(response), Denylist[k])
    ensures !IsValidResponse(response)
  {
  }

  /** The validator ignores letter case: a reply and its lower-cased form are judged alike. */
  lemma ValidIgnoresCase(response: string)
    ensures IsValidResponse(Lower(response)) == IsValidResponse(response)
  {
    StripLowerLength(response);
    AsciiLowerIdempotent(response);
  }
}
