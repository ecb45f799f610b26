/**
 * The contextual-query classifier of app.py: an input is a clarification
 * request when it is non-empty and its lower-cased form contains one of a
 * fixed list of Spanish phrases as a plain substring.
 */
module Classifier {
  import opened Common

  /** The phrase list `frases_contextuales`, in the source's order. */
  const ContextualPhrases: seq<string> := [
    "no entendí", "explica", "dudas", "más claro", "más simple", "no me parece",
    "repite", "aclara", "sencillo", "para qué sirve", "cuál es el objetivo",
    "qué finalidad tiene", "por qué se hace", "qué implica", "cuál es el propósito",
    "a qué se refiere", "qué significa esto", "no quedó claro", "detalla mejor",
    "en otras palabras", "hazlo más fácil", "explícame mejor", "no me queda claro"
  ]

  /** An upper-case letter of ASCII or of Latin-1 (U+00C0..U+00DE without U+00D7). */
  predicate IsUpper(c: char)
  {
    ('A' <= c <= 'Z') || ('À' <= c <= 'Þ' && c != '×')
  }

  /** `str.lower()` on one character: every upper-case letter of these two ranges
      sits exactly 32 code points below its lower-case form. */
  function LowerChar(c: char): (r: char)
    ensures IsUpper(c) ==> r as int == c as int + 32 && !IsUpper(r)
    ensures !IsUpper(c) ==> r == c
  {
    if IsUpper(c) then (c as int + 32) as char else c
  }

  /** `str.lower()` on a string, character by character. */
  function Lower(s: string): (r: string)
    ensures |r| == |s|
    ensures forall t :: 0 <= t < |s| ==> r[t] == LowerChar(s[t])
  {
    seq(|s|, t requires 0 <= t < |s| => LowerChar(s[t]))
  }

  /** `phrase` occurs in `text` starting at index i. */
  ghost predicate OccursAt(text: string, phrase: string, i: nat)
  {
    i + |phrase| <= |text| && text[i..i + |phrase|] == phrase
  }

  /** Python's `phrase in text`, as a left-to-right scan. */
  function Contains(text: string, phrase: string): bool
    decreases |text|
  {
    |phrase| <= |text| && (text[..|phrase|] == phrase || Contains(text[1..], phrase))
  }

  /** The scan finds an occurrence exactly when one exists. */
  lemma {:induction false} ContainsIff(text: string, phrase: string)
    ensures Contains(text, phrase) <==> exists i: nat :: OccursAt(text, phrase, i)
    decreases |text|
  {
    if |phrase| <= |text| {
      if text[..|phrase|] == phrase {
        assert OccursAt(text, phrase, 0);
      } else {
        ContainsIff(text[1..], phrase);
        if Contains(text[1..], phrase) {
          var i: nat :| OccursAt(text[1..], phrase, i);
          assert text[1..][i..i + |phrase|] == text[i + 1..i + 1 + |phrase|];
          assert OccursAt(text, phrase, i + 1);
        } else {
          forall i: nat | OccursAt(text, phrase, i) ensures false {
            if i > 0 {
              assert text[1..][i - 1..i - 1 + |phrase|] == text[i..i + |phrase|];
              assert OccursAt(text[1..], phrase, i - 1);
            }
          }
        }
      }
    } else {
      forall i: nat | OccursAt(text, phrase, i) ensures false { }
    }
  }

  /** `es_contextual`: `user_input and any(p in user_input.lower() for p in frases_contextuales)`,
      read for its truth value. */
  function IsContextual(input: Option<string>): bool
  {
    Truthy(input) &&
    exists j :: 0 <= j < |ContextualPhrases| && Contains(Lower(input.value), ContextualPhrases[j])
  }

  /** The classifier is false on a missing or empty input; on any other input it is true
      exactly when some listed phrase occurs in the lower-cased input. */
  lemma ContextualIff(input: Option<string>)
    ensures !Truthy(input) ==> !IsContextual(input)
    ensures Truthy(input) ==>
      (IsContextual(input) <==>
         exists j: int, i: nat :: 0 <= j < |ContextualPhrases| && OccursAt(Lower(input.value), ContextualPhrases[j], i))
  {
    if Truthy(input) {
      var low := Lower(input.value);
      forall j | 0 <= j < |ContextualPhrases|
        ensures Contains(low, ContextualPhrases[j]) <==> exists i: nat :: OccursAt(low, ContextualPhrases[j], i)
      {
        ContainsIff(low, ContextualPhrases[j]);
      }
    }
  }

  /** Case does not matter: "NO ENTENDÍ" is a clarification request. */
  lemma UpperCaseFollowUpIsContextual()
    ensures IsContextual(Some("NO ENTENDÍ nada"))
  {
    var low := Lower("NO ENTENDÍ nada");
    assert low == "no entendí nada";
    assert low[..|ContextualPhrases[0]|] == ContextualPhrases[0];
  }

  /** The scan finds nothing when the phrase is longer than the text. */
  lemma LongerPhraseNotContained(text: string, phrase: string)
    requires |text| < |phrase|
    ensures !Contains(text, phrase)
  {
  }

  /** Every listed phrase has at least five characters, so no shorter input is contextual. */
  lemma ShortInputNotContextual(input: Option<string>)
    requires input.Some? && |input.value| < 5
    ensures !IsContextual(input)
  {
    forall j | 0 <= j < |ContextualPhrases|
      ensures !Contains(Lower(input.value), ContextualPhrases[j])
    {
      assert |ContextualPhrases[j]| >= 5;
      LongerPhraseNotContained(Lower(input.value), ContextualPhrases[j]);
    }
  }

  /** Matching is by plain substring, not by word: a new question that merely contains
      "explicación" holds "explica" and is taken as a clarification request. */
  lemma SubstringMatchIsLoose(input: Option<string>)
    requires input == Some("Quiero una Explicación")
    ensures IsContextual(input)
  {
    var low := Lower(input.value);
    assert low == "quiero una explicación";
    assert OccursAt(low, ContextualPhrases[1], 11);
    ContainsIff(low, ContextualPhrases[1]);
  }
}
