/**
  `CountRightAnswersUseCase` whose `execute` takes a plain (non-optional) input.
 */
module CountRightAnswers {
  import opened StringExtension
  import opened QuizModels
  import opened AnswerMatching

  class CountRightAnswersUseCase {
    const cap: CaseMap
    const possibleAnswers: seq<Item>
    var userAnswers: seq<string>

    ghost predicate Valid()
      reads this
    {
      AcceptedAnswers(cap, possibleAnswers, userAnswers)
    }

    constructor (cap: CaseMap, possibleAnswers: seq<Item>)
      ensures Valid()
      ensures this.cap == cap && this.possibleAnswers == possibleAnswers && userAnswers == []
    {
      this.cap := cap;
      this.possibleAnswers := possibleAnswers;
      userAnswers := [];
    }

    /** `execute(input:)`: the number of accepted answers after submitting `input`. */
    method Execute(input: string) returns (count: int)
      requires Valid()
      modifies this
      ensures Valid()
      ensures userAnswers == Submit(cap, possibleAnswers, old(userAnswers), input)
      ensures count == |userAnswers|
    {
      var capitalizedInput := cap(input);
      var containsInput := ContainsMatchingAnswer(cap, possibleAnswers, capitalizedInput);
      var onUserAnswers := ContainsAnswer(userAnswers, capitalizedInput);
      var isNotOnUserAnswers := onUserAnswers == false;
      if containsInput && isNotOnUserAnswers {
        userAnswers := userAnswers + [capitalizedInput];
      }
      return |userAnswers|;
    }
  }
}
