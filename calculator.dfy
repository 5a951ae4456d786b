/** The wrong calculator: the expression is only tested for emptiness; the
    answer and the explanation are picked from fixed pools by two random
    indices, given here as parameters. */
module Calculator {
  import opened Wrappers

  const WrongAnswers: seq<string> := ["\U{1F986}", "\U{221E}", "-0", "potato", "42", "yes",
                                      "undefined", "\U{1F3BA}", "purple", "ERROR 418: I'm a teapot"]

  const Explanations: seq<string> := [
    "According to quantum mechanics, numbers are just suggestions",
    "The calculator consulted a magic 8-ball",
    "Math is more of an art form, really",
    "In an alternate universe, this is correct",
    "The numbers told me this in a dream",
    "I used advanced backwards arithmetic",
    "This answer exists in the 5th dimension",
    "Trust me, I'm a calculator"
  ]

  datatype Verdict = Verdict(result: string, explanation: string)

  /** calculateWrong: nothing for an empty expression; otherwise the answer
      at index a and the explanation at index e, whatever the expression. */
  function CalculateWrong(calculation: string, a: nat, e: nat): (r: Option<Verdict>)
    requires a < |WrongAnswers| && e < |Explanations|
    ensures r.None? <==> calculation == []
    ensures r.Some? ==> r.value.result in WrongAnswers && r.value.explanation in Explanations
  {
    if calculation == [] then None else Some(Verdict(WrongAnswers[a], Explanations[e]))
  }

  /** The pools have ten and eight entries. */
  lemma PoolSizes()
    ensures |WrongAnswers| == 10 && |Explanations| == 8
  {
  }

  /** The verdict never depends on the expression: any two non-empty
      expressions get the same verdict from the same draws. */
  lemma VerdictIgnoresExpression(c1: string, c2: string, a: nat, e: nat)
    requires a < |WrongAnswers| && e < |Explanations|
    requires c1 != [] && c2 != []
    ensures CalculateWrong(c1, a, e) == CalculateWrong(c2, a, e)
  {
  }

  /** Every pool entry can come out: the draws reach the whole pools. */
  lemma EveryVerdictReachable(calculation: string, result: string, explanation: string)
    requires calculation != []
    requires result in WrongAnswers && explanation in Explanations
    ensures exists a: nat, e: nat :: a < |WrongAnswers| && e < |Explanations| &&
              CalculateWrong(calculation, a, e) == Some(Verdict(result, explanation))
  {
    var a :| 0 <= a < |WrongAnswers| && WrongAnswers[a] == result;
    var e :| 0 <= e < |Explanations| && Explanations[e] == explanation;
    assert CalculateWrong(calculation, a, e) == Some(Verdict(result, explanation));
  }
}
