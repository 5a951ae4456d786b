/** The word scrambler: four fixed word lists, flattened into one 40-entry
    pool, from which a phrase of wordCount entries is drawn and joined with
    single spaces. The random draws are given as pool indices. */
module Nonsense {
  import opened Text

  const Adjectives: seq<string> := ["purple", "invisible", "backwards", "electric", "wobbly",
                                    "quantum", "melodic", "suspicious", "inflatable", "magnetic"]
  const Nouns: seq<string> := ["elephant", "calculator", "banana", "philosophy", "refrigerator",
                               "saxophone", "algorithm", "spatula", "dimension", "waffle"]
  const Actions: seq<string> := ["dancing", "contemplating", "juggling", "harmonizing", "materializing",
                                 "vibrating", "fermented", "encrypted", "levitating", "mumbling"]
  const Circumstances: seq<string> := ["in zero gravity", "during breakfast", "backwards through time",
                                       "with extreme prejudice", "in perfect synchronization",
                                       "against all odds", "in morse code", "underwater",
                                       "accidentally", "professionally"]

  /** NONSENSE_WORDS: the four categories in order. */
  const NonsenseWords: seq<seq<string>> := [Adjectives, Nouns, Actions, Circumstances]

  /** Array.prototype.flat on a list of lists. */
  function Flatten<T>(lists: seq<seq<T>>): seq<T>
  {
    if |lists| == 0 then [] else lists[0] + Flatten(lists[1..])
  }

  /** An entry of the flattened list is an entry of one of the lists, and
      every entry of every list is kept: category identity is lost, nothing
      else. */
  lemma {:induction false} FlattenMembership<T>(lists: seq<seq<T>>, x: T)
    ensures x in Flatten(lists) <==> exists i :: 0 <= i < |lists| && x in lists[i]
  {
    if |lists| > 0 {
      FlattenMembership(lists[1..], x);
      if x in Flatten(lists[1..]) {
        var i :| 0 <= i < |lists[1..]| && x in lists[1..][i];
        assert x in lists[i + 1];
      }
      if exists i :: 0 <= i < |lists| && x in lists[i] {
        var i :| 0 <= i < |lists| && x in lists[i];
        if i > 0 {
          assert x in lists[1..][i - 1];
        }
      }
    }
  }

  /** The pool the scrambler draws from. */
  const AllWords: seq<string> := Flatten(NonsenseWords)

  /** The pool has forty entries, category by category, and some entries
      hold spaces of their own. */
  lemma AllWordsLayout()
    ensures |AllWords| == 40
    ensures AllWords[..10] == Adjectives && AllWords[10..20] == Nouns
    ensures AllWords[20..30] == Actions && AllWords[30..] == Circumstances
    ensures AllWords[30] == "in zero gravity" && ' ' in AllWords[30]
    ensures forall i :: 30 <= i < 37 <==> 0 <= i < 40 && ' ' in AllWords[i]
  {
    assert Flatten(NonsenseWords[3..]) == Circumstances + Flatten(NonsenseWords[4..]);
    assert Flatten(NonsenseWords[2..]) == Actions + Flatten(NonsenseWords[3..]);
    assert Flatten(NonsenseWords[1..]) == Nouns + Flatten(NonsenseWords[2..]);
    assert AllWords == Adjectives + Nouns + Actions + Circumstances;
    assert AllWords[30][2] == ' ';
    CircumstanceSpaces();
    NoSpaces(Adjectives);
    NoSpaces(Nouns);
    NoSpaces(Actions);
  }

  /** The first seven circumstances hold a space, the last three do not. */
  lemma CircumstanceSpaces()
    ensures forall i :: 0 <= i < 10 ==> (' ' in Circumstances[i] <==> i < 7)
  {
    assert Circumstances[0][2] == ' ' && Circumstances[1][6] == ' ' && Circumstances[2][9] == ' ';
    assert Circumstances[3][4] == ' ' && Circumstances[4][2] == ' ' && Circumstances[5][7] == ' ';
    assert Circumstances[6][2] == ' ';
    assert ' ' !in Circumstances[7] && ' ' !in Circumstances[8] && ' ' !in Circumstances[9];
  }

  /** A category of single words: no entry holds a space. */
  lemma NoSpaces(words: seq<string>)
    requires words == Adjectives || words == Nouns || words == Actions
    ensures forall i :: 0 <= i < |words| ==> ' ' !in words[i]
  {
  }

  /** The draws are valid when each is an index of the pool
      (Math.floor(Math.random() * allWords.length) lies in [0, 40)). */
  predicate ValidDraws(draws: seq<nat>)
  {
    forall i :: 0 <= i < |draws| ==> draws[i] < |AllWords|
  }

  /** The loop of generateNonsense that pushes one pool entry per draw. */
  method DrawWords(draws: seq<nat>, wordCount: nat) returns (words: seq<string>)
    requires |draws| == wordCount && ValidDraws(draws)
    ensures |words| == wordCount
    ensures forall i :: 0 <= i < wordCount ==> words[i] == AllWords[draws[i]]
    ensures forall i :: 0 <= i < wordCount ==> words[i] in AllWords
  {
    words := [];
    for i := 0 to wordCount
      invariant |words| == i
      invariant forall k :: 0 <= k < i ==> words[k] == AllWords[draws[k]]
    {
      words := words + [AllWords[draws[i]]];
    }
  }

  /** The entries picked by the draws, in order. */
  function Picked(draws: seq<nat>): seq<string>
    requires ValidDraws(draws)
  {
    seq(|draws|, i requires 0 <= i < |draws| => AllWords[draws[i]])
  }

  /** s is the single-space join of exactly n pool entries. */
  ghost predicate IsPhrase(s: string, n: nat)
  {
    exists words: seq<string> ::
      |words| == n && (forall i :: 0 <= i < n ==> words[i] in AllWords) && s == Join(words, " ")
  }

  /** The phrase built from valid draws is a join of exactly |draws| pool
      entries. */
  lemma PickedIsPhrase(draws: seq<nat>)
    requires ValidDraws(draws)
    ensures IsPhrase(Join(Picked(draws), " "), |draws|)
  {
    var words := Picked(draws);
    assert forall i :: 0 <= i < |draws| ==> words[i] in AllWords;
  }

  /** The spaces of a phrase of n > 0 entries are the n - 1 separators plus
      the spaces inside the entries themselves. */
  lemma PhraseSpaces(words: seq<string>)
    requires |words| > 0
    ensures Count(' ', Join(words, " ")) == |words| - 1 + CountAll(' ', words)
  {
    var sep := " ";
    assert Count(' ', sep) == 1 by { assert sep[1..] == []; }
    JoinCount(' ', words, sep);
    var n := |words| - 1;
    assert n * Count(' ', sep) == n;
  }

  /** A phrase of n > 0 entries has exactly n - 1 spaces, i.e. n
      space-separated tokens, if and only if no chosen entry holds a space. */
  lemma PhraseTokensExact(words: seq<string>)
    requires |words| > 0
    ensures Count(' ', Join(words, " ")) == |words| - 1 <==> forall i :: 0 <= i < |words| ==> ' ' !in words[i]
  {
    PhraseSpaces(words);
    CountAllZero(' ', words);
  }
}
