/** The application component: its state fields and the handlers that
    update them. Randomness and the clock are parameters of the handlers;
    the persisted collection is given to the constructor. */
module App {
  import opened Wrappers
  import opened Text
  import opened Moods
  import opened Nonsense
  import Calculator
  import opened Collection

  /** Number of break notices over the first n generations: a generation
      raises one exactly when the counter read 99 before it. */
  function NoticesAfter(n: nat): nat
  {
    if n == 0 then 0 else NoticesAfter(n - 1) + (if n - 1 == 99 then 1 else 0)
  }

  /** The notice is raised once, on the hundredth generation, and never
      again. */
  lemma {:induction false} NoticeOnce(n: nat)
    ensures NoticesAfter(n) == if n >= 100 then 1 else 0
  {
    if n > 0 {
      NoticeOnce(n - 1);
    }
  }

  class NonsenseApp {
    var savedNonsense: seq<NonsenseItem>
    var currentNonsense: string
    var generateCount: nat
    var wordCount: nat
    var calculation: string
    var calcResult: string
    var calcExplanation: string
    var moodText: string
    var selectedMood: Mood
    var translatedText: string
    /** Break notices raised so far. */
    ghost var notices: nat

    /** The slider keeps wordCount in [5, 10]; the notices are those the
        generations so far have raised. */
    ghost predicate Valid()
      reads this
    {
      5 <= wordCount <= 10 && notices == NoticesAfter(generateCount)
    }

    /** The initial state; stored is what the key-value store holds under
        the collection's key, if anything (the empty list otherwise). */
    constructor (stored: Option<seq<NonsenseItem>>)
      ensures Valid()
      ensures savedNonsense == (if stored.Some? then stored.value else [])
      ensures currentNonsense == [] && generateCount == 0 && wordCount == 5
      ensures calculation == [] && calcResult == [] && calcExplanation == []
      ensures moodText == [] && selectedMood == Catalog[0] && translatedText == []
      ensures notices == 0
    {
      savedNonsense := if stored.Some? then stored.value else [];
      currentNonsense := [];
      generateCount := 0;
      wordCount := 5;
      calculation := [];
      calcResult := [];
      calcExplanation := [];
      moodText := [];
      selectedMood := Ecstatic;
      translatedText := [];
      notices := 0;
    }

    /** The word-count slider: minimum 5, maximum 10, step 1. */
    method SetWordCount(n: nat)
      requires Valid() && 5 <= n <= 10
      modifies this`wordCount
      ensures Valid() && wordCount == n
    {
      wordCount := n;
    }

    method SetCalculation(s: string)
      modifies this`calculation
      ensures calculation == s
    {
      calculation := s;
    }

    method SetMoodText(s: string)
      modifies this`moodText
      ensures moodText == s
    {
      moodText := s;
    }

    method SelectMood(m: Mood)
      modifies this`selectedMood
      ensures selectedMood == m
    {
      selectedMood := m;
    }

    /** generateNonsense: the current phrase becomes the join of one pool
        entry per draw, the counter goes up by one, and the returned flag
        (the break notice) is raised exactly when the counter read 99. */
    method GenerateNonsense(draws: seq<nat>) returns (notify: bool)
      requires Valid() && |draws| == wordCount && ValidDraws(draws)
      modifies this`currentNonsense, this`generateCount, this`notices
      ensures Valid()
      ensures currentNonsense == Join(Picked(draws), " ")
      ensures IsPhrase(currentNonsense, wordCount)
      ensures generateCount == old(generateCount) + 1
      ensures notify <==> old(generateCount) == 99
      ensures notices <= 1
    {
      var words := DrawWords(draws, wordCount);
      assert words == Picked(draws);
      PickedIsPhrase(draws);
      currentNonsense := Join(words, " ");
      notify := generateCount == 99;
      generateCount := generateCount + 1;
      notices := notices + (if notify then 1 else 0);
      NoticeOnce(generateCount);
    }

    /** saveNonsense: with a non-empty current phrase, a record built from
        the two clock readings is put in front of the collection. */
    method SaveNonsense(idClock: nat, stampClock: nat)
      modifies this`savedNonsense
      ensures savedNonsense == Save(old(savedNonsense), currentNonsense, idClock, stampClock)
    {
      if currentNonsense == [] {
        return;
      }
      savedNonsense := Save(savedNonsense, currentNonsense, idClock, stampClock);
    }

    /** deleteNonsense: every record with the id is removed. */
    method DeleteNonsense(id: string)
      modifies this`savedNonsense
      ensures savedNonsense == Delete(old(savedNonsense), id)
    {
      savedNonsense := Delete(savedNonsense, id);
    }

    /** calculateWrong: with a non-empty expression, the answer and the
        explanation at the drawn indices are shown. */
    method CalculateWrong(a: nat, e: nat)
      requires a < |Calculator.WrongAnswers| && e < |Calculator.Explanations|
      modifies this`calcResult, this`calcExplanation
      ensures calculation == [] ==> calcResult == old(calcResult) && calcExplanation == old(calcExplanation)
      ensures calculation != [] ==>
                Calculator.CalculateWrong(calculation, a, e) == Some(Calculator.Verdict(calcResult, calcExplanation))
      ensures calculation != [] ==> calcResult in Calculator.WrongAnswers && calcExplanation in Calculator.Explanations
    {
      if calculation == [] {
        return;
      }
      var verdict := Calculator.CalculateWrong(calculation, a, e).value;
      calcResult := verdict.result;
      calcExplanation := verdict.explanation;
    }

    /** translateMood: with non-empty text, the selected mood's translation
        of it is shown; the coins are read by the Chaotic mood only. */
    method TranslateMood(coins: seq<bool>)
      requires selectedMood == Chaotic ==> |coins| == |moodText|
      modifies this`translatedText
      ensures moodText == [] ==> translatedText == old(translatedText)
      ensures moodText != [] ==> Translate(selectedMood, moodText, coins) == Some(translatedText)
    {
      if moodText == [] {
        return;
      }
      translatedText := Translate(selectedMood, moodText, coins).value;
    }
  }
}
