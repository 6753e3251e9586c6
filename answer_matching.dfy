/**
  What both variants of `CountRightAnswersUseCase` share: the rule that decides when a
  submitted answer is accepted, the invariant the list of accepted answers keeps, and the
  two linear searches that implement the rule.

  Both sides are compared after `String.capitalized`, which is the parameter `cap`.
 */
module AnswerMatching {
  import opened StringExtension
  import opened QuizModels

  /** The possible answers, each through the case mapping. */
  function CapitalizedTexts(cap: CaseMap, possibleAnswers: seq<Item>): (texts: seq<string>)
    ensures |texts| == |possibleAnswers|
    ensures forall i :: 0 <= i < |possibleAnswers| ==> texts[i] == cap(possibleAnswers[i].text)
  {
    if possibleAnswers == [] then []
    else [cap(possibleAnswers[0].text)] + CapitalizedTexts(cap, possibleAnswers[1..])
  }

  predicate NoDuplicates(s: seq<string>) {
    forall i, j :: 0 <= i < j < |s| ==> s[i] != s[j]
  }

  /** The invariant of `userAnswers`: no answer twice, and each one a capitalised possible answer. */
  function AcceptedAnswers(cap: CaseMap, possibleAnswers: seq<Item>, userAnswers: seq<string>): (ok: bool)
    ensures ok <==>
      && NoDuplicates(userAnswers)
      && forall i :: 0 <= i < |userAnswers| ==>
           exists j :: 0 <= j < |possibleAnswers| && cap(possibleAnswers[j].text) == userAnswers[i]
  {
    && NoDuplicates(userAnswers)
    && forall i :: 0 <= i < |userAnswers| ==> userAnswers[i] in CapitalizedTexts(cap, possibleAnswers)
  }

  /** Whether a capitalised input is appended: it matches a possible answer and is not yet accepted. */
  function Accepts(cap: CaseMap, possibleAnswers: seq<Item>, userAnswers: seq<string>, capitalizedInput: string): (ok: bool)
    ensures ok <==>
      && (exists j :: 0 <= j < |possibleAnswers| && cap(possibleAnswers[j].text) == capitalizedInput)
      && forall k :: 0 <= k < |userAnswers| ==> userAnswers[k] != capitalizedInput
  {
    capitalizedInput in CapitalizedTexts(cap, possibleAnswers) && capitalizedInput !in userAnswers
  }

  /** The accepted answers after one submission of `input`: the invariant is kept, and the list
      only grows, by at most one, with earlier entries in place. */
  function Submit(cap: CaseMap, possibleAnswers: seq<Item>, userAnswers: seq<string>, input: string): (after: seq<string>)
    ensures AcceptedAnswers(cap, possibleAnswers, userAnswers) ==> AcceptedAnswers(cap, possibleAnswers, after)
    ensures |userAnswers| <= |after| <= |userAnswers| + 1 && after[..|userAnswers|] == userAnswers
  {
    if Accepts(cap, possibleAnswers, userAnswers, cap(input)) then userAnswers + [cap(input)] else userAnswers
  }

  /** Searches the possible answers, front to back, for one whose text capitalises to the input;
      stops at the first hit. */
  method ContainsMatchingAnswer(cap: CaseMap, possibleAnswers: seq<Item>, capitalizedInput: string) returns (found: bool)
    ensures found <==> capitalizedInput in CapitalizedTexts(cap, possibleAnswers)
  {
    found := false;
    var i := 0;
    while i < |possibleAnswers| && !found
      invariant 0 <= i <= |possibleAnswers|
      invariant found <==> exists k :: 0 <= k < i && cap(possibleAnswers[k].text) == capitalizedInput
    {
      found := cap(possibleAnswers[i].text) == capitalizedInput;
      i := i + 1;
    }
  }

  /** Searches the accepted answers, front to back, for one equal to the input; stops at the first hit. */
  method ContainsAnswer(userAnswers: seq<string>, capitalizedInput: string) returns (found: bool)
    ensures found <==> capitalizedInput in userAnswers
  {
    found := false;
    var i := 0;
    while i < |userAnswers| && !found
      invariant 0 <= i <= |userAnswers|
      invariant found <==> capitalizedInput in userAnswers[..i]
    {
      found := userAnswers[i] == capitalizedInput;
      i := i + 1;
    }
  }

  /** The capitalised input is appended exactly when it matches and is new; otherwise nothing changes. */
  lemma SubmitAppendsIffAccepted(cap: CaseMap, possibleAnswers: seq<Item>, userAnswers: seq<string>, input: string)
    ensures var after := Submit(cap, possibleAnswers, userAnswers, input);
      && (after == userAnswers + [cap(input)] <==> Accepts(cap, possibleAnswers, userAnswers, cap(input)))
      && (after != userAnswers <==> Accepts(cap, possibleAnswers, userAnswers, cap(input)))
  {
    var after := Submit(cap, possibleAnswers, userAnswers, input);
    if !Accepts(cap, possibleAnswers, userAnswers, cap(input)) {
      assert |after| != |userAnswers + [cap(input)]|;
    } else {
      assert |after| != |userAnswers|;
    }
  }

  /** Submitting the same answer again changes nothing. */
  lemma SubmitIsIdempotent(cap: CaseMap, possibleAnswers: seq<Item>, userAnswers: seq<string>, input: string)
    ensures var once := Submit(cap, possibleAnswers, userAnswers, input);
      Submit(cap, possibleAnswers, once, input) == once
  {
  }

  lemma {:induction false} DistinctElementsCount(s: seq<string>)
    requires NoDuplicates(s)
    ensures |set x | x in s| == |s|
  {
    if s != [] {
      var last := s[|s| - 1];
      var init := s[..|s| - 1];
      DistinctElementsCount(init);
      assert (set x | x in s) == (set x | x in init) + {last};
      assert last !in (set x | x in init);
    }
  }

  /** The count is bounded by the number of distinct capitalised possible answers. */
  lemma CountIsBounded(cap: CaseMap, possibleAnswers: seq<Item>, userAnswers: seq<string>)
    requires AcceptedAnswers(cap, possibleAnswers, userAnswers)
    ensures |userAnswers| <= |set t | t in CapitalizedTexts(cap, possibleAnswers)|
    ensures |userAnswers| <= |possibleAnswers|
  {
    DistinctWithinBound(userAnswers, CapitalizedTexts(cap, possibleAnswers));
  }

  lemma DistinctWithinBound(u: seq<string>, texts: seq<string>)
    requires NoDuplicates(u)
    requires forall i :: 0 <= i < |u| ==> u[i] in texts
    ensures |u| <= |set t | t in texts| <= |texts|
  {
    var accepted := set x | x in u;
    var possible := set t | t in texts;
    DistinctElementsCount(u);
    assert accepted <= possible by {
      forall x | x in accepted ensures x in possible {
        var i :| 0 <= i < |u| && u[i] == x;
      }
    }
    assert possible == accepted + (possible - accepted);
    assert |possible| == |accepted| + |possible - accepted|;
    SetOfSeqSize(texts);
  }

  lemma {:induction false} SetOfSeqSize(s: seq<string>)
    ensures |set x | x in s| <= |s|
  {
    if s != [] {
      var init := s[..|s| - 1];
      SetOfSeqSize(init);
      assert (set x | x in s) == (set x | x in init) + {s[|s| - 1]};
    }
  }
}
