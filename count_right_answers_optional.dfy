/**
  `CountRightAnswersUseCase` whose `execute` takes an optional input: a missing input only
  reads the count.
 */
module CountRightAnswersOptional {
  import opened Wrappers
  import opened StringExtension
  import opened QuizModels
  import opened AnswerMatching

  class CountRightAnswersUseCase {
    const cap: CaseMap
    const possibleAnswers: seq<Item>
    var userAnswers: seq<string>

    ghost predicate Valid()
      reads this
    {
      AcceptedAnswers(cap, possibleAnswers, userAnswers)
    }

    constructor (cap: CaseMap, possibleAnswers: seq<Item>)
      ensures Valid()
      ensures this.cap == cap && this.possibleAnswers == possibleAnswers && userAnswers == []
    {
      this.cap := cap;
      this.possibleAnswers := possibleAnswers;
      userAnswers := [];
    }

    /** `execute(input:)`: the number of accepted answers after submitting `input`, if any. */
    method Execute(input: Option<string>) returns (count: int)
      requires Valid()
      modifies this
      ensures Valid()
      ensures input.None? ==> userAnswers == old(userAnswers)
      ensures input.Some? ==> userAnswers == Submit(cap, possibleAnswers, old(userAnswers), input.value)
      ensures count == |userAnswers|
    {
      if input.None? {
        return |userAnswers|;
      }
      var capitalizedInput := cap(input.value);
      var containsInput := ContainsMatchingAnswer(cap, possibleAnswers, capitalizedInput);
      var onUserAnswers := ContainsAnswer(userAnswers, capitalizedInput);
      var isNotOnUserAnswers := onUserAnswers == false;
      if containsInput && isNotOnUserAnswers {
        userAnswers := userAnswers + [capitalizedInput];
      }
      return |userAnswers|;
    }
  }

  /** The four cases the source's tests check, each on a fresh use case over ["something"]:
      a right answer counts 1, a wrong one 0, a repeated one stays 1, and a missing input reads 1. */
  method TestedCounts(cap: CaseMap) returns (right: int, wrong: int, repeated: int, afterNil: int)
    requires cap("other_thing") != cap("something")
    ensures right == 1 && wrong == 0 && repeated == 1 && afterNil == 1
  {
    var possible := [Item("something")];
    assert cap("something") in CapitalizedTexts(cap, possible);

    var sut := new CountRightAnswersUseCase(cap, possible);
    right := sut.Execute(Some("something"));

    sut := new CountRightAnswersUseCase(cap, possible);
    wrong := sut.Execute(Some("other_thing"));

    sut := new CountRightAnswersUseCase(cap, possible);
    var _ := sut.Execute(Some("something"));
    afterNil := sut.Execute(None);

    sut := new CountRightAnswersUseCase(cap, possible);
    var _ := sut.Execute(Some("something"));
    repeated := sut.Execute(Some("something"));
  }
}
