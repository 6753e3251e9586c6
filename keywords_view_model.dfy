/**
  `KeywordsViewModel`: the screen's orchestrator. It owns a countdown timer, asks the fetch
  use case for the quiz, and publishes every change to its (weakly held, possibly absent)
  binder and renderer.

  Everything it sends out goes into one trace, `outputs`, in order: the binder's
  notifications, the renderer's states, and each call into the fetch use case. The fetch
  use case's completion closure is `OnFetchEvent`; one fire of the timer is `OnTimerFire`,
  which runs the view model's own tick and finish closures as the timer invokes them.
 */
module Keywords {
  import opened Wrappers
  import opened QuizModels
  import opened UseCaseEvents
  import opened Timer
  import CountdownFormatter
  import FetchQuiz

  datatype Output =
    | ViewTitleDidChange(title: Option<string>)
    | BottomRightTextDidChange(text: Option<string>)
    | BottomLeftTextDidChange(text: Option<string>)
    | BottomButtonTitleDidChange(title: Option<string>)
    | ShowTimerFinishedModal(modal: SimpleModalViewData)
    | Render(state: ViewState)
    | ExecuteFetch

  /** The closures `startTimer` hands to the timer. */
  const OnTickClosure: CallbackRef := CallbackRef(0)
  const OnFinishClosure: CallbackRef := CallbackRef(1)

  /** A closure slot holds nothing or the view model's own closure of that kind. */
  predicate OwnClosures(onTick: Option<CallbackRef>, onFinish: Option<CallbackRef>) {
    (onTick.None? || onTick == Some(OnTickClosure)) && (onFinish.None? || onFinish == Some(OnFinishClosure))
  }

  /** Every closure the timer holds, scheduled or recorded for `restart`, is the view model's. */
  predicate TimerOwnedByViewModel(s: TimerState) {
    && OwnClosures(s.lastOnTick, s.lastOnFinish)
    && (s.timer.Some? ==> OwnClosures(s.timer.value.onTick, s.timer.value.onFinish))
  }

  /** An invocation of the view model's own closure of that kind. */
  predicate OwnCall(call: TimerCall) {
    match call
    case FinishCall(ref, _) => ref == OnFinishClosure
    case TickCall(ref, _, _) => ref == OnTickClosure
  }

  /** A timer holding only the view model's closures invokes only those, and keeps holding only them. */
  lemma FireInvokesOwnClosures(s: TimerState)
    requires s.timer.Some? && TimerOwnedByViewModel(s)
    ensures TimerOwnedByViewModel(Fire(s).state)
    ensures forall i :: 0 <= i < |Fire(s).calls| ==> OwnCall(Fire(s).calls[i])
  {
  }

  /** `startTimer`'s period: five minutes, in seconds. */
  const TimerPeriod: int := 60 * 5

  /** The filler of the error screen. */
  const ErrorFiller: ViewFiller := ViewFiller("Ooops!", Some("Something wrong has happened"))

  /** The modal shown when time is up; the number of right answers is the constant 40. */
  function TimerModalData(possibleAnswerCount: nat): (modal: SimpleModalViewData)
    ensures modal.title == "Time finished" && modal.buttonText == Some("Try Again")
    ensures modal.subtitle == "Sorry, time is up! You got " + "40" + " out of "
                              + CountdownFormatter.Decimal(possibleAnswerCount) + " answers."
  {
    var rightAnswers := 40;
    SimpleModalViewData(
      "Time finished",
      "Sorry, time is up! You got " + CountdownFormatter.Decimal(rightAnswers) + " out of "
        + CountdownFormatter.Decimal(possibleAnswerCount) + " answers.",
      Some("Try Again"))
  }

  /** The score text `handleViewData` writes: "00/" and the unpadded number of answers. */
  function ScoreText(answerCount: nat): (text: string)
    ensures 3 <= |text| && text[..3] == "00/" && text[3..] == CountdownFormatter.Decimal(answerCount)
  {
    "00/" + CountdownFormatter.Decimal(answerCount)
  }

  /** What the view model's closures send out for one timer invocation. */
  function TimerCallOutputs(hasBinder: bool, possibleAnswerCount: nat, call: TimerCall): (out: seq<Output>)
    ensures !hasBinder ==> out == []
  {
    if !hasBinder then []
    else match call
      case FinishCall(_, _) => [ShowTimerFinishedModal(TimerModalData(possibleAnswerCount))]
      case TickCall(_, remaining, _) => [BottomRightTextDidChange(Some(CountdownFormatter.FormatToMinutes(remaining)))]
  }

  /** With a binder each invocation sends exactly one output, none without: `onFinish` the
      timer-finished modal, `onTick` the label, whose text reads back as the remaining seconds
      whenever they are not negative. */
  lemma TimerCallOutputsKinds(hasBinder: bool, possibleAnswerCount: nat, call: TimerCall)
    ensures var out := TimerCallOutputs(hasBinder, possibleAnswerCount, call);
      && |out| == (if hasBinder then 1 else 0)
      && (hasBinder ==> (out[0].ShowTimerFinishedModal? <==> call.FinishCall?))
      && (hasBinder ==> (out[0].BottomRightTextDidChange? <==> call.TickCall?))
      && (hasBinder && call.TickCall? && call.remainingSeconds >= 0 ==>
            out[0].text.Some? && CountdownFormatter.ParseMinutes(out[0].text.value) == Some(call.remainingSeconds))
  {
    if hasBinder && call.TickCall? && call.remainingSeconds >= 0 {
      CountdownFormatter.FormatRoundTrip(call.remainingSeconds);
    }
  }

  function TimerCallsOutputs(hasBinder: bool, possibleAnswerCount: nat, calls: seq<TimerCall>): (out: seq<Output>)
    ensures !hasBinder ==> out == []
  {
    if calls == [] then []
    else TimerCallOutputs(hasBinder, possibleAnswerCount, calls[0])
         + TimerCallsOutputs(hasBinder, possibleAnswerCount, calls[1..])
  }

  /** The time text after the closures ran: the last tick's value, formatted, if there was a tick. */
  function TextAfterCalls(calls: seq<TimerCall>, current: Option<string>): (text: Option<string>)
    ensures (forall i :: 0 <= i < |calls| ==> !calls[i].TickCall?) ==> text == current
  {
    if calls == [] then current
    else if calls[|calls| - 1].TickCall? then Some(CountdownFormatter.FormatToMinutes(calls[|calls| - 1].remainingSeconds))
    else TextAfterCalls(calls[..|calls| - 1], current)
  }

  class KeywordsViewModel {
    const countDownTimer: CountDownTimer
    /** Whether `viewStateRenderer` is set (it is held weakly). */
    var hasRenderer: bool
    /** Whether `viewModelBinder` is set (it is held weakly). */
    var hasBinder: bool
    var possibleAnswers: seq<Item>
    var viewTitle: Option<string>
    var bottomRightText: Option<string>
    var bottomLeftText: Option<string>
    var bottomButtonTitle: Option<string>
    var outputs: seq<Output>

    /** The timer the view model owns only ever holds the view model's two closures. */
    ghost predicate Valid()
      reads countDownTimer
    {
      TimerOwnedByViewModel(countDownTimer.State())
    }

    constructor ()
      ensures Valid()
      ensures fresh(countDownTimer) && countDownTimer.State() == Initial
      ensures !hasRenderer && !hasBinder
      ensures possibleAnswers == [] && outputs == []
      ensures viewTitle == None && bottomRightText == None && bottomLeftText == None && bottomButtonTitle == None
    {
      countDownTimer := new CountDownTimer();
      hasRenderer, hasBinder := false, false;
      possibleAnswers := [];
      viewTitle, bottomRightText, bottomLeftText, bottomButtonTitle := None, None, None, None;
      outputs := [];
    }

    /** A binder notification: sent only when there is a binder. */
    function Notified(o: Output): (out: seq<Output>)
      reads this
    {
      if hasBinder then [o] else []
    }

    /** A render request: sent only when there is a renderer. */
    function Rendered(state: ViewState): (out: seq<Output>)
      reads this
    {
      if hasRenderer then [Render(state)] else []
    }

    // The four notifying properties: every assignment notifies, also when the value is the same.

    method SetViewTitle(title: Option<string>)
      modifies this`viewTitle, this`outputs
      ensures viewTitle == title
      ensures outputs == old(outputs) + Notified(ViewTitleDidChange(title))
    {
      viewTitle := title;
      if hasBinder {
        outputs := outputs + [ViewTitleDidChange(viewTitle)];
      }
    }

    method SetBottomRightText(text: Option<string>)
      modifies this`bottomRightText, this`outputs
      ensures bottomRightText == text
      ensures outputs == old(outputs) + Notified(BottomRightTextDidChange(text))
    {
      bottomRightText := text;
      if hasBinder {
        outputs := outputs + [BottomRightTextDidChange(bottomRightText)];
      }
    }

    method SetBottomLeftText(text: Option<string>)
      modifies this`bottomLeftText, this`outputs
      ensures bottomLeftText == text
      ensures outputs == old(outputs) + Notified(BottomLeftTextDidChange(text))
    {
      bottomLeftText := text;
      if hasBinder {
        outputs := outputs + [BottomLeftTextDidChange(bottomLeftText)];
      }
    }

    method SetBottomButtonTitle(title: Option<string>)
      modifies this`bottomButtonTitle, this`outputs
      ensures bottomButtonTitle == title
      ensures outputs == old(outputs) + Notified(BottomButtonTitleDidChange(title))
    {
      bottomButtonTitle := title;
      if hasBinder {
        outputs := outputs + [BottomButtonTitleDidChange(bottomButtonTitle)];
      }
    }

    /** `onViewDidLoad`: the hard-coded defaults, in this order, then a fetch. */
    method OnViewDidLoad()
      modifies this`bottomButtonTitle, this`bottomLeftText, this`bottomRightText, this`outputs
      ensures bottomButtonTitle == Some("Reset") && bottomLeftText == Some("0/50") && bottomRightText == Some("05:00")
      ensures outputs == old(outputs)
                         + Notified(BottomButtonTitleDidChange(Some("Reset")))
                         + Notified(BottomLeftTextDidChange(Some("0/50")))
                         + Notified(BottomRightTextDidChange(Some("05:00")))
                         + [ExecuteFetch]
    {
      SetBottomButtonTitle(Some("Reset"));
      SetBottomLeftText(Some("0/50"));
      SetBottomRightText(Some("05:00"));
      LoadQuizData();
    }

    /** `numberOfAnswers` */
    function NumberOfAnswers(): (n: int)
      reads this
      ensures n == |possibleAnswers|
    {
      |possibleAnswers|
    }

    /** `answerItem(at:)`; an index out of range traps in the source. */
    function AnswerItem(index: int): (item: Item)
      reads this
      requires 0 <= index < |possibleAnswers|
      ensures item == possibleAnswers[index]
    {
      possibleAnswers[index]
    }

    /** `loadQuizData`: calls the fetch use case, whose events come back through `OnFetchEvent`. */
    method LoadQuizData()
      modifies this`outputs
      ensures outputs == old(outputs) + [ExecuteFetch]
    {
      outputs := outputs + [ExecuteFetch];
    }

    /** The completion closure `loadQuizData` passes to the fetch use case. */
    method OnFetchEvent<E, F>(event: UseCaseEvent<QuizViewData, E, F>)
      modifies this`viewTitle, this`possibleAnswers, this`bottomRightText, this`outputs
      ensures event.status.Data? ==>
        && viewTitle == Some(event.status.data.title)
        && possibleAnswers == event.status.data.items
        && bottomRightText == Some(ScoreText(|event.status.data.items|))
        && outputs == old(outputs)
                      + Notified(ViewTitleDidChange(Some(event.status.data.title)))
                      + Notified(BottomRightTextDidChange(Some(ScoreText(|event.status.data.items|))))
                      + Rendered(Content)
      ensures event.status.ServiceError? ==> outputs == old(outputs) + Rendered(Error(Some(ErrorFiller)))
      ensures event.status.Loading? ==> outputs == old(outputs) + Rendered(LoadingState)
      ensures event.status.Idle? || event.status.BusinessError? ==> outputs == old(outputs)
      ensures !event.status.Data? ==>
        viewTitle == old(viewTitle) && possibleAnswers == old(possibleAnswers) && bottomRightText == old(bottomRightText)
    {
      match event.status {
        case Data(viewData) =>
          HandleViewData(viewData);
        case ServiceError(_) =>
          HandleServiceError();
        case Loading =>
          if hasRenderer {
            outputs := outputs + [Render(LoadingState)];
          }
        case _ =>
      }
    }

    /** `toggleTimer`: a running timer is restarted, otherwise the timer is started. */
    method ToggleTimer()
      requires Valid()
      modifies countDownTimer
      ensures Valid()
      ensures old(countDownTimer.IsRunning()) ==> countDownTimer.State() == Restarted(old(countDownTimer.State()))
      ensures !old(countDownTimer.IsRunning()) ==>
        countDownTimer.State()
        == Dispatched(old(countDownTimer.State()), TimerPeriod, 1.0, Some(OnTickClosure), Some(OnFinishClosure))
      ensures countDownTimer.IsRunning()
    {
      if countDownTimer.IsRunning() {
        countDownTimer.Restart();
      } else {
        StartTimer();
      }
    }

    method HandleViewData(viewData: QuizViewData)
      modifies this`viewTitle, this`possibleAnswers, this`bottomRightText, this`outputs
      ensures viewTitle == Some(viewData.title) && possibleAnswers == viewData.items
      ensures bottomRightText == Some(ScoreText(|viewData.items|))
      ensures outputs == old(outputs)
                         + Notified(ViewTitleDidChange(Some(viewData.title)))
                         + Notified(BottomRightTextDidChange(Some(ScoreText(|viewData.items|))))
                         + Rendered(Content)
    {
      SetViewTitle(Some(viewData.title));
      possibleAnswers := viewData.items;
      SetBottomRightText(Some(ScoreText(|viewData.items|)));
      if hasRenderer {
        outputs := outputs + [Render(Content)];
      }
    }

    method HandleServiceError()
      modifies this`outputs
      ensures outputs == old(outputs) + Rendered(Error(Some(ErrorFiller)))
    {
      if hasRenderer {
        outputs := outputs + [Render(Error(Some(ErrorFiller)))];
      }
    }

    /** `startTimer`: five minutes at one-second interval, with the view model's two closures. */
    method StartTimer()
      modifies countDownTimer
      ensures countDownTimer.State()
           == Dispatched(old(countDownTimer.State()), TimerPeriod, 1.0, Some(OnTickClosure), Some(OnFinishClosure))
    {
      var timeLeft := 60 * 5;
      countDownTimer.Dispatch(timeLeft, 1.0, Some(OnTickClosure), Some(OnFinishClosure));
    }

    /** `buildTimerModalData` */
    function BuildTimerModalData(): (modal: SimpleModalViewData)
      reads this
      ensures modal == TimerModalData(|possibleAnswers|)
    {
      TimerModalData(|possibleAnswers|)
    }

    /** The onTick closure: the remaining time, formatted, becomes the bottom-right text. */
    method OnTick(remainingSeconds: int)
      modifies this`bottomRightText, this`outputs
      ensures bottomRightText == Some(CountdownFormatter.FormatToMinutes(remainingSeconds))
      ensures outputs == old(outputs) + Notified(BottomRightTextDidChange(bottomRightText))
    {
      SetBottomRightText(Some(CountdownFormatter.FormatToMinutes(remainingSeconds)));
    }

    /** The onFinish closure: the timer-finished modal goes to the binder. */
    method OnFinish()
      modifies this`outputs
      ensures outputs == old(outputs) + Notified(ShowTimerFinishedModal(BuildTimerModalData()))
    {
      var message := BuildTimerModalData();
      if hasBinder {
        outputs := outputs + [ShowTimerFinishedModal(message)];
      }
    }

    /** One fire of the scheduled timer, with the view model's closures run in the order the
        timer invokes them. */
    method OnTimerFire()
      requires Valid() && countDownTimer.IsRunning()
      modifies countDownTimer, this`bottomRightText, this`outputs
      ensures Valid()
      ensures forall i :: 0 <= i < |Fire(old(countDownTimer.State())).calls| ==> OwnCall(Fire(old(countDownTimer.State())).calls[i])
      ensures countDownTimer.State() == Fire(old(countDownTimer.State())).state
      ensures outputs == old(outputs) + TimerCallsOutputs(hasBinder, |possibleAnswers|, Fire(old(countDownTimer.State())).calls)
      ensures bottomRightText == TextAfterCalls(Fire(old(countDownTimer.State())).calls, old(bottomRightText))
    {
      FireInvokesOwnClosures(countDownTimer.State());
      var calls := countDownTimer.Tick();
      RunTimerCalls(calls);
    }

    /** `n` fires of the scheduled timer, one `OnTimerFire` each, as the run loop delivers them;
        once the timer has stopped nothing fires any more. The timer ends in `Run`'s state, and
        the trace and the label are those `Run`'s invocations call for. */
    method FireTimes(n: nat)
      requires Valid()
      modifies countDownTimer, this`bottomRightText, this`outputs
      ensures Valid()
      ensures countDownTimer.State() == Run(old(countDownTimer.State()), n).state
      ensures outputs == old(outputs) + TimerCallsOutputs(hasBinder, |possibleAnswers|, Run(old(countDownTimer.State()), n).calls)
      ensures bottomRightText == TextAfterCalls(Run(old(countDownTimer.State()), n).calls, old(bottomRightText))
    {
      ghost var s0 := countDownTimer.State();
      var i := 0;
      while i < n && countDownTimer.IsRunning()
        invariant 0 <= i <= n
        invariant Valid()
        invariant countDownTimer.State() == Run(s0, i).state
        invariant outputs == old(outputs) + TimerCallsOutputs(hasBinder, |possibleAnswers|, Run(s0, i).calls)
        invariant bottomRightText == TextAfterCalls(Run(s0, i).calls, old(bottomRightText))
      {
        FireStep(s0, i, old(outputs), old(bottomRightText));
        i := i + 1;
      }
      if i < n {
        RunAfterStop(s0, i, n);
      }
    }

    /** Fire `i + 1` of a session that started in `s0`, with the trace and the label of the
        first `i` fires already in place. */
    method FireStep(ghost s0: TimerState, ghost i: nat, ghost outputs0: seq<Output>, ghost text0: Option<string>)
      requires Valid() && countDownTimer.IsRunning()
      requires countDownTimer.State() == Run(s0, i).state
      requires outputs == outputs0 + TimerCallsOutputs(hasBinder, |possibleAnswers|, Run(s0, i).calls)
      requires bottomRightText == TextAfterCalls(Run(s0, i).calls, text0)
      modifies countDownTimer, this`bottomRightText, this`outputs
      ensures Valid()
      ensures countDownTimer.State() == Run(s0, i + 1).state
      ensures outputs == outputs0 + TimerCallsOutputs(hasBinder, |possibleAnswers|, Run(s0, i + 1).calls)
      ensures bottomRightText == TextAfterCalls(Run(s0, i + 1).calls, text0)
    {
      ghost var before, textBefore := outputs, bottomRightText;
      OnTimerFire();
      FireStepTrace(s0, i, hasBinder, |possibleAnswers|, outputs0, text0, before, outputs, textBefore, bottomRightText);
    }

    /** Runs the view model's closure for one timer invocation. */
    method RunTimerCall(call: TimerCall)
      modifies this`bottomRightText, this`outputs
      ensures outputs == old(outputs) + TimerCallOutputs(hasBinder, |possibleAnswers|, call)
      ensures bottomRightText == TextAfterCalls([call], old(bottomRightText))
    {
      match call {
        case FinishCall(_, _) => OnFinish();
        case TickCall(_, remaining, _) => OnTick(remaining);
      }
    }

    /** Runs the view model's closures for the timer's invocations, in order. */
    method RunTimerCalls(calls: seq<TimerCall>)
      modifies this`bottomRightText, this`outputs
      ensures outputs == old(outputs) + TimerCallsOutputs(hasBinder, |possibleAnswers|, calls)
      ensures bottomRightText == TextAfterCalls(calls, old(bottomRightText))
    {
      var i := 0;
      while i < |calls|
        invariant 0 <= i <= |calls|
        invariant outputs == old(outputs) + TimerCallsOutputs(hasBinder, |possibleAnswers|, calls[..i])
        invariant bottomRightText == TextAfterCalls(calls[..i], old(bottomRightText))
      {
        RunTimerCall(calls[i]);
        TimerCallsOutputsSnoc(hasBinder, |possibleAnswers|, calls, i);
        TextAfterCallsSnoc(calls, i, old(bottomRightText));
        i := i + 1;
      }
      assert calls[..|calls|] == calls;
    }
  }

  /** How many timer-finished modals a trace holds. */
  function ModalCount(outs: seq<Output>): (n: nat)
    ensures n <= |outs|
  {
    if outs == [] then 0 else (if outs[0].ShowTimerFinishedModal? then 1 else 0) + ModalCount(outs[1..])
  }

  lemma {:induction false} ModalCountAppend(a: seq<Output>, b: seq<Output>)
    ensures ModalCount(a + b) == ModalCount(a) + ModalCount(b)
  {
    if a == [] {
      assert a + b == b;
    } else {
      assert (a + b)[1..] == a[1..] + b;
      ModalCountAppend(a[1..], b);
    }
  }

  /** One more invocation adds its own outputs at the end. */
  lemma TimerCallsOutputsSnoc(hasBinder: bool, possibleAnswerCount: nat, calls: seq<TimerCall>, i: nat)
    requires i < |calls|
    ensures TimerCallsOutputs(hasBinder, possibleAnswerCount, calls[..i + 1])
         == TimerCallsOutputs(hasBinder, possibleAnswerCount, calls[..i]) + TimerCallOutputs(hasBinder, possibleAnswerCount, calls[i])
  {
    assert calls[..i + 1] == calls[..i] + [calls[i]];
    TimerCallsOutputsAppend(hasBinder, possibleAnswerCount, calls[..i], [calls[i]]);
    assert [calls[i]][1..] == [];
  }

  /** One more invocation sets the label when it is a tick and leaves it otherwise. */
  lemma TextAfterCallsSnoc(calls: seq<TimerCall>, i: nat, current: Option<string>)
    requires i < |calls|
    ensures TextAfterCalls(calls[..i + 1], current) == TextAfterCalls([calls[i]], TextAfterCalls(calls[..i], current))
  {
    var prefix := calls[..i + 1];
    assert prefix[..i] == calls[..i] && prefix[i] == calls[i];
    assert [calls[i]][..0] == [];
  }

  /** The closures' outputs for consecutive invocations are the outputs of each, in order;
      with the fire-by-fire decomposition of the timer, the outputs of a session are the
      outputs of its fires one after another. */
  lemma {:induction false} TimerCallsOutputsAppend(hasBinder: bool, possibleAnswerCount: nat,
                                                   xs: seq<TimerCall>, ys: seq<TimerCall>)
    ensures TimerCallsOutputs(hasBinder, possibleAnswerCount, xs + ys)
         == TimerCallsOutputs(hasBinder, possibleAnswerCount, xs) + TimerCallsOutputs(hasBinder, possibleAnswerCount, ys)
  {
    if xs == [] {
      assert xs + ys == ys;
    } else {
      assert (xs + ys)[0] == xs[0] && (xs + ys)[1..] == xs[1..] + ys;
      TimerCallsOutputsAppend(hasBinder, possibleAnswerCount, xs[1..], ys);
      var a := TimerCallOutputs(hasBinder, possibleAnswerCount, xs[0]);
      var b := TimerCallsOutputs(hasBinder, possibleAnswerCount, xs[1..]);
      var c := TimerCallsOutputs(hasBinder, possibleAnswerCount, ys);
      assert a + (b + c) == (a + b) + c;
    }
  }

  /** The label after consecutive invocations is the label after the second group, starting
      from the label the first group left. */
  lemma {:induction false} TextAfterCallsAppend(xs: seq<TimerCall>, ys: seq<TimerCall>, current: Option<string>)
    ensures TextAfterCalls(xs + ys, current) == TextAfterCalls(ys, TextAfterCalls(xs, current))
    decreases |ys|
  {
    if ys == [] {
      assert xs + ys == xs;
    } else {
      var init, last := ys[..|ys| - 1], ys[|ys| - 1];
      var zs := xs + ys;
      assert zs != [] && zs[..|zs| - 1] == xs + init && zs[|zs| - 1] == last;
      if last.TickCall? {
        assert TextAfterCalls(zs, current) == Some(CountdownFormatter.FormatToMinutes(last.remainingSeconds));
      } else {
        TextAfterCallsAppend(xs, init, current);
        assert TextAfterCalls(zs, current) == TextAfterCalls(xs + init, current);
        assert TextAfterCalls(ys, TextAfterCalls(xs, current)) == TextAfterCalls(init, TextAfterCalls(xs, current));
      }
    }
  }

  /** Fire `n + 1` of a session, seen from the view model: its outputs and its label are what
      `OnTimerFire` produces on the state and label fire `n` left. So `n` successive calls of
      `OnTimerFire` produce exactly the outputs and the label of `Run` over `n` fires. */
  lemma SessionFireByFire(s: TimerState, hasBinder: bool, possibleAnswerCount: nat, shown: Option<string>, n: nat)
    requires Run(s, n).state.timer.Some?
    ensures var before := Run(s, n); var last := Fire(before.state);
      && TimerCallsOutputs(hasBinder, possibleAnswerCount, Run(s, n + 1).calls)
         == TimerCallsOutputs(hasBinder, possibleAnswerCount, before.calls)
            + TimerCallsOutputs(hasBinder, possibleAnswerCount, last.calls)
      && TextAfterCalls(Run(s, n + 1).calls, shown) == TextAfterCalls(last.calls, TextAfterCalls(before.calls, shown))
  {
    var before := Run(s, n);
    var last := Fire(before.state);
    RunThenFire(s, n);
    TimerCallsOutputsAppend(hasBinder, possibleAnswerCount, before.calls, last.calls);
    TextAfterCallsAppend(before.calls, last.calls, shown);
  }

  /** The trace and the label after fire `i + 1`, from those after fire `i` and what one more
      `OnTimerFire` adds to them. */
  lemma FireStepTrace(s0: TimerState, i: nat, hasBinder: bool, possibleAnswerCount: nat,
                      outputs0: seq<Output>, text0: Option<string>,
                      before: seq<Output>, after: seq<Output>, textBefore: Option<string>, textAfter: Option<string>)
    requires Run(s0, i).state.timer.Some?
    requires before == outputs0 + TimerCallsOutputs(hasBinder, possibleAnswerCount, Run(s0, i).calls)
    requires after == before + TimerCallsOutputs(hasBinder, possibleAnswerCount, Fire(Run(s0, i).state).calls)
    requires textBefore == TextAfterCalls(Run(s0, i).calls, text0)
    requires textAfter == TextAfterCalls(Fire(Run(s0, i).state).calls, textBefore)
    ensures Fire(Run(s0, i).state).state == Run(s0, i + 1).state
    ensures after == outputs0 + TimerCallsOutputs(hasBinder, possibleAnswerCount, Run(s0, i + 1).calls)
    ensures textAfter == TextAfterCalls(Run(s0, i + 1).calls, text0)
  {
    RunThenFire(s0, i);
    SessionFireByFire(s0, hasBinder, possibleAnswerCount, text0, i);
    AppendAssociates(outputs0, TimerCallsOutputs(hasBinder, possibleAnswerCount, Run(s0, i).calls),
                     TimerCallsOutputs(hasBinder, possibleAnswerCount, Fire(Run(s0, i).state).calls));
  }

  lemma AppendAssociates<T>(a: seq<T>, b: seq<T>, c: seq<T>)
    ensures (a + b) + c == a + (b + c)
  {
  }

  /** With a binder, every `onFinish` invocation shows the modal once, and nothing else does. */
  lemma {:induction false} OneModalPerFinish(possibleAnswerCount: nat, calls: seq<TimerCall>)
    ensures ModalCount(TimerCallsOutputs(true, possibleAnswerCount, calls)) == FinishCount(calls)
  {
    if calls != [] {
      OneModalPerFinish(possibleAnswerCount, calls[1..]);
      ModalCountAppend(TimerCallOutputs(true, possibleAnswerCount, calls[0]),
                       TimerCallsOutputs(true, possibleAnswerCount, calls[1..]));
    }
  }

  /** A countdown started by `startTimer`: after fire `n` (`1 <= n < 300`) the bottom-right
      label shows the remaining `300 - n` seconds; fire 300 stops the timer, shows the
      timer-finished modal that single time, and leaves the label at "00:00". */
  lemma TimerSession(s: TimerState, possibleAnswerCount: nat, shown: Option<string>, n: nat)
    ensures var f := Run(Dispatched(s, TimerPeriod, 1.0, Some(OnTickClosure), Some(OnFinishClosure)), n);
      && ModalCount(TimerCallsOutputs(true, possibleAnswerCount, f.calls)) == (if n >= TimerPeriod then 1 else 0)
      && (f.state.timer.None? <==> n >= TimerPeriod)
      && (1 <= n < TimerPeriod ==>
            TextAfterCalls(f.calls, shown) == Some(CountdownFormatter.FormatToMinutes(TimerPeriod - n)))
      && (n >= TimerPeriod ==> TextAfterCalls(f.calls, shown) == Some("00:00"))
  {
    SessionModals(s, possibleAnswerCount, n);
    SessionLabel(s, shown, n);
  }

  /** The modal part of `TimerSession`: one modal, once the period has run out. */
  lemma SessionModals(s: TimerState, possibleAnswerCount: nat, n: nat)
    ensures var f := Run(Dispatched(s, TimerPeriod, 1.0, Some(OnTickClosure), Some(OnFinishClosure)), n);
      && ModalCount(TimerCallsOutputs(true, possibleAnswerCount, f.calls)) == (if n >= TimerPeriod then 1 else 0)
      && (f.state.timer.None? <==> n >= TimerPeriod)
  {
    var f := Run(Dispatched(s, TimerPeriod, 1.0, Some(OnTickClosure), Some(OnFinishClosure)), n);
    FinishOnceAfterPeriod(s, TimerPeriod, 1.0, OnTickClosure, OnFinishClosure, n);
    OneModalPerFinish(possibleAnswerCount, f.calls);
  }

  /** The label part of `TimerSession`: the remaining seconds, "00:00" at the end. */
  lemma SessionLabel(s: TimerState, shown: Option<string>, n: nat)
    ensures var f := Run(Dispatched(s, TimerPeriod, 1.0, Some(OnTickClosure), Some(OnFinishClosure)), n);
      && (1 <= n < TimerPeriod ==>
            TextAfterCalls(f.calls, shown) == Some(CountdownFormatter.FormatToMinutes(TimerPeriod - n)))
      && (n >= TimerPeriod ==> TextAfterCalls(f.calls, shown) == Some("00:00"))
  {
    var d := Dispatched(s, TimerPeriod, 1.0, Some(OnTickClosure), Some(OnFinishClosure));
    var f := Run(d, n);
    if n >= TimerPeriod {
      FinishOnceAfterPeriod(s, TimerPeriod, 1.0, OnTickClosure, OnFinishClosure, n);
      LabelAfterLastTick(f.calls, shown);
      CountdownFormatter.FormatExamples();
    } else if n >= 1 {
      Countdown(d, n);
      assert f.calls[n - 1] == TickCall(OnTickClosure, TimerPeriod - n, true);
      LabelAfterLastTick(f.calls, shown);
    }
  }

  /** When the last invocation is a tick, the label shows that tick's value. */
  lemma LabelAfterLastTick(calls: seq<TimerCall>, shown: Option<string>)
    requires calls != [] && calls[|calls| - 1].TickCall?
    ensures TextAfterCalls(calls, shown) == Some(CountdownFormatter.FormatToMinutes(calls[|calls| - 1].remainingSeconds))
  {
  }

  /** The label `onViewDidLoad` hard-codes is the timer's period, formatted. */
  lemma DefaultLabelIsThePeriod()
    ensures CountdownFormatter.FormatToMinutes(TimerPeriod) == "05:00"
  {
    CountdownFormatter.FormatExamples();
  }

  /** The screen against the fetch use case it is built with, the service answering at once:
      after `onViewDidLoad` a successful fetch renders loading, then the quiz with its title,
      its score label and its answers; a failed one renders loading, then the error screen. */
  method LoadScreen<E, F>(result: Result<QuizEntity, F>) returns (trace: seq<Output>, answerCount: int)
    ensures var defaults := [BottomButtonTitleDidChange(Some("Reset")), BottomLeftTextDidChange(Some("0/50")),
                             BottomRightTextDidChange(Some("05:00")), ExecuteFetch, Render(LoadingState)];
      && (result.Success? ==>
            && trace == defaults + [ViewTitleDidChange(Some(result.value.question)),
                                    BottomRightTextDidChange(Some(ScoreText(|result.value.answer|))),
                                    Render(Content)]
            && answerCount == |result.value.answer|)
      && (result.Failure? ==> trace == defaults + [Render(Error(Some(ErrorFiller)))] && answerCount == 0)
  {
    var viewModel := new KeywordsViewModel();
    viewModel.hasBinder, viewModel.hasRenderer := true, true;
    viewModel.OnViewDidLoad();
    ghost var defaults := [BottomButtonTitleDidChange(Some("Reset")), BottomLeftTextDidChange(Some("0/50")),
                           BottomRightTextDidChange(Some("05:00")), ExecuteFetch, Render(LoadingState)];
    assert viewModel.outputs == defaults[..4];
    var events := FetchQuiz.Events(FetchQuiz.Execute<E, F>(result));
    FetchQuiz.TwoEventsPerExecute<E, F>(result);
    viewModel.OnFetchEvent(events[0]);
    assert viewModel.outputs == defaults;
    viewModel.OnFetchEvent(events[1]);
    trace := viewModel.outputs;
    answerCount := viewModel.NumberOfAnswers();
  }

  /** Starting the timer on a fresh screen and letting it fire twice: the label reads "04:58"
      (298 seconds left), and the timer still runs. */
  method TwoFiresAfterStart() returns (shown: Option<string>, stillRunning: bool)
    ensures shown == Some(CountdownFormatter.FormatToMinutes(298))
    ensures stillRunning
  {
    var viewModel := new KeywordsViewModel();
    viewModel.hasBinder := true;
    viewModel.ToggleTimer();
    viewModel.OnTimerFire();
    viewModel.OnTimerFire();
    shown := viewModel.bottomRightText;
    stillRunning := viewModel.countDownTimer.IsRunning();
  }
}
