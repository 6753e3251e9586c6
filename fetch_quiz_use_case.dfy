/**
  `FetchQuizUseCase.execute`: reports `loading`, asks the quiz service once, and reports
  either the mapped view data or the service's error.

  The service's answer is the parameter `result` (a service completing synchronously with
  it). What `execute` does is a list of steps in order: an emitted event, or the call into
  the service. `FetchQuizUseCaseError` has no cases, so the business-error type `E` is left
  free: no value of it is ever produced.
 */
module FetchQuiz {
  import opened Wrappers
  import opened UseCaseEvents
  import opened QuizModels

  type QuizEvent<E, F> = UseCaseEvent<QuizViewData, E, F>

  datatype FetchStep<E, F> = Emit(event: QuizEvent<E, F>) | CallService

  function ItemsOf(answers: seq<string>): (items: seq<Item>)
    ensures |items| == |answers|
    ensures forall i :: 0 <= i < |answers| ==> items[i] == Item(answers[i])
  {
    if answers == [] then [] else [Item(answers[0])] + ItemsOf(answers[1..])
  }

  function TextsOf(items: seq<Item>): (texts: seq<string>)
    ensures |texts| == |items|
    ensures forall i :: 0 <= i < |items| ==> texts[i] == items[i].text
  {
    if items == [] then [] else [items[0].text] + TextsOf(items[1..])
  }

  /** The mapping of the entity to view data: the question is the title, each answer an item, verbatim. */
  function ViewDataOf(entity: QuizEntity): (viewData: QuizViewData)
    ensures viewData.title == entity.question
    ensures TextsOf(viewData.items) == entity.answer
  {
    QuizViewData(entity.question, ItemsOf(entity.answer))
  }

  /** The completion closure: `try result.get()` either maps the entity or lands in `catch`. */
  function Completion<E, F>(result: Result<QuizEntity, F>): (ev: QuizEvent<E, F>)
    ensures ev.status.Data? <==> result.Success?
    ensures result.Success? ==>
      ev.status.data.title == result.value.question && TextsOf(ev.status.data.items) == result.value.answer
    ensures result.Failure? ==> ev.status.ServiceError? && ev.status.serviceError == result.error
  {
    match result
    case Success(entity) => DataEvent(ViewDataOf(entity))
    case Failure(error) => ServiceErrorEvent(error)
  }

  /** `execute(completion:)` against a service that answers with `result`: `loading` is emitted
      first, then the service is called, exactly once; the two events are `loading` and the
      completion of the service's answer. */
  function Execute<E, F>(result: Result<QuizEntity, F>): (steps: seq<FetchStep<E, F>>)
    ensures |steps| == 3 && steps[0] == Emit(LoadingEvent()) && steps[1] == CallService
    ensures ServiceCalls(steps) == 1
    ensures Events(steps) == [LoadingEvent(), Completion(result)]
  {
    var steps := [Emit(LoadingEvent()), CallService, Emit(Completion(result))];
    assert steps[1..] == [CallService, Emit(Completion(result))];
    assert steps[1..][1..] == [Emit(Completion(result))];
    assert steps[1..][1..][1..] == [];
    assert ServiceCalls(steps[1..][1..]) == 0;
    assert Events(steps[1..][1..]) == [Completion(result)];
    steps
  }

  /** The events the completion handler receives, in order: every step that is not the service
      call is an emitted event. */
  function Events<E, F>(steps: seq<FetchStep<E, F>>): (events: seq<QuizEvent<E, F>>)
    ensures |events| + ServiceCalls(steps) == |steps|
    ensures forall i :: 0 <= i < |events| ==> Emit(events[i]) in steps
  {
    if steps == [] then []
    else (if steps[0].Emit? then [steps[0].event] else []) + Events(steps[1..])
  }

  /** How many times the service is called. */
  function ServiceCalls<E, F>(steps: seq<FetchStep<E, F>>): (n: nat)
    ensures n <= |steps|
  {
    if steps == [] then 0
    else (if steps[0].CallService? then 1 else 0) + ServiceCalls(steps[1..])
  }

  /** Exactly two events: `loading`, then `data` of the mapped entity or `serviceError` with the service's error. */
  lemma TwoEventsPerExecute<E, F>(result: Result<QuizEntity, F>)
    ensures |Events(Execute<E, F>(result))| == 2
    ensures Events(Execute<E, F>(result))[0].status.Loading?
    ensures result.Success? ==> Events(Execute<E, F>(result))[1] == DataEvent(ViewDataOf(result.value))
    ensures result.Failure? ==> Events(Execute<E, F>(result))[1] == ServiceErrorEvent(result.error)
  {
  }

  /** `idle` and `businessError` are never emitted. */
  lemma NeverIdleNorBusinessError<E, F>(result: Result<QuizEntity, F>)
    ensures forall ev <- Events(Execute<E, F>(result)) :: !ev.status.Idle? && !ev.status.BusinessError?
  {
    TwoEventsPerExecute<E, F>(result);
  }

  /** On success the view data has the question as title and one item per answer, text unchanged. */
  lemma SuccessMapsVerbatim<E, F>(entity: QuizEntity)
    ensures |Events(Execute<E, F>(Success(entity)))| == 2
    ensures var ev := Events(Execute<E, F>(Success(entity)))[1];
      && ev.status.Data?
      && ev.status.data.title == entity.question
      && |ev.status.data.items| == |entity.answer|
      && forall i :: 0 <= i < |entity.answer| ==> ev.status.data.items[i].text == entity.answer[i]
  {
    TwoEventsPerExecute<E, F>(Success(entity));
  }
}
