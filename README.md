# QuizChallenge keywords screen, modelled in Dafny

This project models the logic behind the "keywords" quiz screen of QuizChallenge, an iOS app.
The player has five minutes to type as many of a quiz's answers as they can. The model covers:

- **KeywordsViewModel** (`Keywords`, `keywords_view_model.dfy`). This is the screen's
  orchestrator. It sets the default labels, starts the fetch use case and reacts to its events.
  It toggles the countdown and reacts to the timer's closures. Every binder notification, render
  request and fetch call it makes goes into one trace, `outputs`.
- **CountDownTimer** (`Timer`, `countdown_timer.dfy`). This is the repeating countdown with
  `dispatch`, `restart`, `stop` and `isRunning`. One fire of its scheduled block is `Tick`.
  The spec functions `Fire` and `Run` describe what one fire and `n` fires do.
- **UseCaseEvent** (`UseCaseEvents`). This is the five-state event with its factories.
- **FetchQuizUseCase** (`FetchQuiz`). It emits loading, calls the quiz service once, then
  turns the service's result into a `data` or `serviceError` event.
- **CountRightAnswersUseCase**, in both variants: optional input (`CountRightAnswersOptional`)
  and plain input (`CountRightAnswers`). Both share the matching logic in `AnswerMatching`.
- **CountDownFormatter**, **String extension** (`CountdownFormatter`, `StringExtension`).
  `formatToMinutes` is specified using Swift's truncating `/` and `%` and `%02d`. It has an
  independent parser as its inverse. First-letter capitalisation is specified for any case mapping.
- **URLRequestError**, **URLSessionDispatcher** (`URLRequestErrors`, `URLSessionDispatcher`).
  These cover the error codes, the bridge to `NSError`, the classification of a data task's
  outcome, and the completion the caller receives.

Foundation's `String.capitalized` is unknown to the model, so it is a parameter
`cap: string -> string`. Every property holds for every case mapping. Where a property needs
something from the mapping (for example that it sends "s" to "S"), the lemma or method requires
exactly that. The quiz service is modelled as answering at once: `FetchQuiz.Execute` takes its
result as a parameter. Timer closures are identified by `CallbackRef` values.

The model follows the code. Three of its behaviours may be unexpected:

- `handleViewData` writes the score text `"00/N"` into `bottomRightText`, the label the
  countdown also writes. It does not write it into `bottomLeftText`.
- The timer-finished modal always reports 40 right answers.
- `isTimerRunning` is declared but never used.

## Model

| member | source | states |
|---|---|---|
| Keywords.KeywordsViewModel.constructor | App/QuizChallenge/App/Sources/Scenes/Keywords/KeywordsViewModel.swift:73-81 | a new view model has a fresh timer in its initial state, no binder and no renderer, no answers, all four labels nil and an empty trace; so `numberOfAnswers` is 0 (App/QuizChallengeTests/Tests/Scenes/Keywords/KeywordsViewModelTests.swift:16-21) |
| Keywords.KeywordsViewModel.SetViewTitle | App/QuizChallenge/App/Sources/Scenes/Keywords/KeywordsViewModel.swift:50-54 | the title takes the new value, and one `viewTitleDidChange` with that value is sent exactly when a binder is attached |
| Keywords.KeywordsViewModel.SetBottomRightText | App/QuizChallenge/App/Sources/Scenes/Keywords/KeywordsViewModel.swift:55-59 | the same for `bottomRightText` and `bottomRightTextDidChange` |
| Keywords.KeywordsViewModel.SetBottomLeftText | App/QuizChallenge/App/Sources/Scenes/Keywords/KeywordsViewModel.swift:60-64 | the same for `bottomLeftText` and `bottomLeftTextDidChange` |
| Keywords.KeywordsViewModel.SetBottomButtonTitle | App/QuizChallenge/App/Sources/Scenes/Keywords/KeywordsViewModel.swift:65-69 | the same for `bottomButtonTitle` and `bottomButtonTitleDidChange` |
| Keywords.KeywordsViewModel.OnViewDidLoad | App/QuizChallenge/App/Sources/Scenes/Keywords/KeywordsViewModel.swift:85-90 | the labels become "Reset", "0/50" and "05:00"; their three notifications go out in that order, then one fetch request; nothing else changes |
| Keywords.KeywordsViewModel.NumberOfAnswers | App/QuizChallenge/App/Sources/Scenes/Keywords/KeywordsViewModel.swift:92-94 | the number of loaded answers |
| Keywords.KeywordsViewModel.AnswerItem | App/QuizChallenge/App/Sources/Scenes/Keywords/KeywordsViewModel.swift:96-98 | the answer at that index; out-of-range indices are excluded because the array subscript traps |
| Keywords.KeywordsViewModel.LoadQuizData | App/QuizChallenge/App/Sources/Scenes/Keywords/KeywordsViewModel.swift:105-106 | exactly one call into the fetch use case is recorded |
| Keywords.KeywordsViewModel.OnFetchEvent | App/QuizChallenge/App/Sources/Scenes/Keywords/KeywordsViewModel.swift:106-117 | data: title, answers and score text "00/N" are set, notified, then `content` is rendered; service error: only the error screen is rendered; loading: only `loading` is rendered; idle and business error: nothing at all; only data changes the labels or the answers |
| Keywords.KeywordsViewModel.HandleViewData | App/QuizChallenge/App/Sources/Scenes/Keywords/KeywordsViewModel.swift:130-135 | title := the data's title, answers := its items, bottom-right text := "00/" and the item count; two notifications, then `content` when a renderer is attached |
| Keywords.KeywordsViewModel.HandleServiceError | App/QuizChallenge/App/Sources/Scenes/Keywords/KeywordsViewModel.swift:137-140 | only an error state is rendered, with filler ("Ooops!", "Something wrong has happened"), and only when a renderer is attached |
| Keywords.KeywordsViewModel.ToggleTimer | App/QuizChallenge/App/Sources/Scenes/Keywords/KeywordsViewModel.swift:120-126 | a running timer is restarted with its recorded session; a stopped one is dispatched for 300 s at 1.0 s with the view model's two closures; afterwards the timer runs; the timer keeps holding only the view model's own closures (`Valid`); the view model's own fields are untouched |
| Keywords.KeywordsViewModel.StartTimer | App/QuizChallenge/App/Sources/Scenes/Keywords/KeywordsViewModel.swift:144-165 | the timer is dispatched with period 60 * 5, interval 1.0 and the view model's tick and finish closures |
| Keywords.KeywordsViewModel.BuildTimerModalData | App/QuizChallenge/App/Sources/Scenes/Keywords/KeywordsViewModel.swift:167-177 | the modal is "Time finished", "Sorry, time is up! You got 40 out of N answers." with N the number of loaded answers, and the button "Try Again" |
| Keywords.KeywordsViewModel.OnTick | App/QuizChallenge/App/Sources/Scenes/Keywords/KeywordsViewModel.swift:148-150 | the formatted remaining time becomes the bottom-right text and is notified |
| Keywords.KeywordsViewModel.OnFinish | App/QuizChallenge/App/Sources/Scenes/Keywords/KeywordsViewModel.swift:152-156 | the timer-finished modal is sent to the binder, when there is one |
| Keywords.KeywordsViewModel.OnTimerFire | App/QuizChallenge/App/Sources/Scenes/Keywords/KeywordsViewModel.swift:148-156 | one timer fire: the timer moves to `Fire`'s state, every closure it invokes is the view model's own, and the view model's closures send exactly the outputs the fire's invocations call for, in order; the label ends at the last tick's formatted value; the timer keeps holding only the view model's closures |
| Keywords.KeywordsViewModel.FireTimes | App/QuizChallenge/App/Sources/Scenes/Keywords/KeywordsViewModel.swift:148-163 | n fires of the scheduled timer, each one `OnTimerFire`, stopping once the timer stops: the timer ends in the state of `Run` over n fires, the trace gains exactly the outputs of `Run`'s invocations in order, the label is the one they leave, and the timer still holds only the view model's closures |
| Keywords.KeywordsViewModel.RunTimerCalls | App/QuizChallenge/App/Sources/Scenes/Keywords/KeywordsViewModel.swift:148-156 | runs the closures for a sequence of invocations; its outputs and final label match `TimerCallsOutputs` and `TextAfterCalls` |
| Keywords.KeywordsViewModel.RunTimerCall | App/QuizChallenge/App/Sources/Scenes/Keywords/KeywordsViewModel.swift:148-156 | one invocation: its outputs are `TimerCallOutputs` of it, and the label afterwards is `TextAfterCalls` of it alone |
| Keywords.TimerModalData | App/QuizChallenge/App/Sources/Scenes/Keywords/KeywordsViewModel.swift:167-177 | the modal's title, button and subtitle text, with the answer count written in decimal |
| Keywords.ScoreText | App/QuizChallenge/App/Sources/Scenes/Keywords/KeywordsViewModel.swift:133 | "00/" followed by the answer count in decimal, unpadded |
| Keywords.TimerCallOutputs | App/QuizChallenge/App/Sources/Scenes/Keywords/KeywordsViewModel.swift:148-156 | what the closures send for one invocation: nothing without a binder; `TimerCallOutputsKinds` states the rest |
| Keywords.TimerCallsOutputs | App/QuizChallenge/App/Sources/Scenes/Keywords/KeywordsViewModel.swift:148-156 | without a binder, the closures send nothing at all; with one, `TimerCallOutputsKinds`, `TimerCallsOutputsSnoc` and `TimerCallsOutputsAppend` say what each invocation adds |
| Keywords.TimerCallOutputsKinds | App/QuizChallenge/App/Sources/Scenes/Keywords/KeywordsViewModel.swift:148-156 | with a binder every invocation sends exactly one output and without one none; `onFinish` sends the timer-finished modal, `onTick` the bottom-right label, and that label reads back, through the formatter's inverse, as the remaining seconds whenever they are not negative |
| Keywords.TimerCallsOutputsSnoc | App/QuizChallenge/App/Sources/Scenes/Keywords/KeywordsViewModel.swift:148-156 | one more invocation adds its own outputs at the end |
| Keywords.TextAfterCalls | App/QuizChallenge/App/Sources/Scenes/Keywords/KeywordsViewModel.swift:148-150 | a sequence of invocations with no tick leaves the label as it was; `TextAfterCallsSnoc` and `TextAfterCallsAppend` say what a tick does |
| Keywords.TextAfterCallsSnoc | App/QuizChallenge/App/Sources/Scenes/Keywords/KeywordsViewModel.swift:148-150 | one more invocation sets the label when it is a tick, and leaves it otherwise |
| Keywords.TextAfterCallsAppend | App/QuizChallenge/App/Sources/Scenes/Keywords/KeywordsViewModel.swift:148-150 | the label after consecutive groups of invocations is the label the second group leaves, starting from the label the first group left |
| Keywords.TimerCallsOutputsAppend | App/QuizChallenge/App/Sources/Scenes/Keywords/KeywordsViewModel.swift:148-156 | the closures' outputs for consecutive invocations are the outputs of each group in turn, so a session's outputs are its fires' outputs in sequence |
| Keywords.SessionFireByFire | App/QuizChallenge/App/Sources/Scenes/Keywords/KeywordsViewModel.swift:148-156 | fire n + 1 of a session adds, to the outputs and the label of the first n fires, exactly what one more `OnTimerFire` adds; `FireTimes` builds n calls of `OnTimerFire` on it |
| Keywords.FireInvokesOwnClosures | App/QuizChallenge/App/Sources/Scenes/Keywords/KeywordsViewModel.swift:148-163 | a timer holding only the view model's own closures invokes only those on a fire, and keeps holding only those |
| Keywords.OneModalPerFinish | App/QuizChallenge/App/Sources/Scenes/Keywords/KeywordsViewModel.swift:152-156 | with a binder, the number of modals shown equals the number of `onFinish` calls |
| Keywords.TimerSession | App/QuizChallenge/App/Sources/Scenes/Keywords/KeywordsViewModel.swift:144-165 | after `startTimer`, fire n (1 <= n < 300) leaves the label at the formatted 300 - n and the timer running; from fire 300 on, the timer is stopped, the modal has been shown exactly once and the label reads "00:00"; proved as `SessionModals` and `SessionLabel` |
| Keywords.SessionModals | App/QuizChallenge/App/Sources/Scenes/Keywords/KeywordsViewModel.swift:144-165 | after `startTimer` the modal has been shown once from fire 300 on and never before, and the timer is stopped exactly from fire 300 on |
| Keywords.SessionLabel | App/QuizChallenge/App/Sources/Scenes/Keywords/KeywordsViewModel.swift:144-165 | after `startTimer` fire n (1 <= n < 300) leaves the label at the formatted 300 - n, and from fire 300 on it reads "00:00" |
| Keywords.DefaultLabelIsThePeriod | App/QuizChallenge/App/Sources/Scenes/Keywords/KeywordsViewModel.swift:88 | the hard-coded "05:00" is the formatted timer period of 300 s |
| Keywords.LoadScreen | App/QuizChallenge/App/Sources/Scenes/Keywords/KeywordsViewModel.swift:85-135 | with binder and renderer and the real fetch use case: the defaults, the fetch, `loading`, then title, score and `content` with one answer per entity answer on success, or only the error screen on failure |
| Keywords.TwoFiresAfterStart | App/QuizChallenge/App/Sources/Scenes/Keywords/KeywordsViewModel.swift:120-165 | on a fresh screen with a binder, `toggleTimer` and two fires leave the label at the formatted 298 seconds and the timer still running |
| Timer.CountDownTimer.constructor | App/QuizChallenge/App/Sources/Conveniences/Utils/CountDownTimer.swift:41-47 | nothing is scheduled and the session is period 0, interval 1.0, no closures |
| Timer.CountDownTimer.IsRunning | App/QuizChallenge/App/Sources/Conveniences/Utils/CountDownTimer.swift:53-55 | true exactly when a timer is scheduled |
| Timer.CountDownTimer.Dispatch | App/QuizChallenge/App/Sources/Conveniences/Utils/CountDownTimer.swift:70-93 | the session is recorded and a timer counting down from the period is scheduled; the timer then runs |
| Timer.CountDownTimer.Restart | App/QuizChallenge/App/Sources/Conveniences/Utils/CountDownTimer.swift:96-104 | the old timer is invalidated and the recorded session is dispatched again |
| Timer.CountDownTimer.Stop | App/QuizChallenge/App/Sources/Conveniences/Utils/CountDownTimer.swift:107-110 | the timer is dropped; the session is kept; the timer no longer runs |
| Timer.CountDownTimer.Tick | App/QuizChallenge/App/Sources/Conveniences/Utils/CountDownTimer.swift:84-91 | one fire of the block: new state and closure invocations are those of `Fire`, including the `isRunning` value each closure sees |
| Timer.Dispatched | App/QuizChallenge/App/Sources/Conveniences/Utils/CountDownTimer.swift:70-93 | the state `dispatch` leaves: a scheduled timer counting down from the period with the given interval and closures, and the session (period, interval, closures) recorded |
| Timer.Stopped | App/QuizChallenge/App/Sources/Conveniences/Utils/CountDownTimer.swift:107-110 | no timer is scheduled; the session and the counter are kept |
| Timer.Restarted | App/QuizChallenge/App/Sources/Conveniences/Utils/CountDownTimer.swift:96-104 | the session is kept and a timer is scheduled again from the recorded period, interval and closures |
| Timer.Fire | App/QuizChallenge/App/Sources/Conveniences/Utils/CountDownTimer.swift:84-91 | one fire keeps the session, stops the timer exactly when the counter was at most 1 before the decrement, and invokes at most two closures; `FireSteps` gives the exact steps |
| Timer.Run | App/QuizChallenge/App/Sources/Conveniences/Utils/CountDownTimer.swift:84-91 | n fires invoke at most 2 n closures; without a scheduled timer nothing happens |
| Timer.FireSteps | App/QuizChallenge/App/Sources/Conveniences/Utils/CountDownTimer.swift:84-91 | the counter drops by one; at or below zero the timer stops, `onFinish` runs, then `onTick` runs with the new value, both seeing a stopped timer; above zero only `onTick` runs, with the timer running; the session never changes |
| Timer.Ticks | App/QuizChallenge/App/Sources/Conveniences/Utils/CountDownTimer.swift:90 | n running ticks reporting from, from - 1, and so on |
| Timer.Countdown | App/QuizChallenge/App/Sources/Conveniences/Utils/CountDownTimer.swift:82-91 | from a counter k >= 1: the first k - 1 fires report k - 1 down to 1 while running; fire k stops the timer and calls `onFinish` once, then `onTick(0)`; after that nothing fires |
| Timer.FinishOnceAfterPeriod | App/QuizChallenge/App/Sources/Conveniences/Utils/CountDownTimer.swift:70-93 | for a period p >= 1, `onFinish` runs exactly once over n >= p fires and never before; the timer is stopped exactly from fire p on; the last call is `onTick(0)` |
| Timer.RunThenFire | App/QuizChallenge/App/Sources/Conveniences/Utils/CountDownTimer.swift:84-91 | n + 1 fires are n fires followed by one more fire |
| Timer.RunAfterStop | App/QuizChallenge/App/Sources/Conveniences/Utils/CountDownTimer.swift:84-91 | once the timer has stopped, further fires change neither the state nor the invocations |
| Timer.RunKeepsSession | App/QuizChallenge/App/Sources/Conveniences/Utils/CountDownTimer.swift:84-91 | no number of fires changes the recorded session |
| Timer.StopIsIdempotent | App/QuizChallenge/App/Sources/Conveniences/Utils/CountDownTimer.swift:107-110 | stopping twice is stopping once, and the session is kept |
| Timer.RestartRepeatsSession | App/QuizChallenge/App/Sources/Conveniences/Utils/CountDownTimer.swift:96-104 | a restart after any number of fires gives exactly the state the original `dispatch` produced |
| Timer.RestartWithDefaults | App/QuizChallenge/App/Sources/Conveniences/Utils/CountDownTimer.swift:42-45 | restarting a never-dispatched timer runs period 0; its first fire stops it and calls nothing |
| UseCaseEvents.LoadingEvent | App/QuizChallenge/App/Sources/Conveniences/Models/UseCaseEvent.swift:21-23 | the event's status is `loading` |
| UseCaseEvents.IdleEvent | App/QuizChallenge/App/Sources/Conveniences/Models/UseCaseEvent.swift:28-30 | the event's status is `idle` |
| UseCaseEvents.BusinessErrorEvent | App/QuizChallenge/App/Sources/Conveniences/Models/UseCaseEvent.swift:36-38 | the event's status is `businessError` carrying the given error |
| UseCaseEvents.ServiceErrorEvent | App/QuizChallenge/App/Sources/Conveniences/Models/UseCaseEvent.swift:44-46 | the event's status is `serviceError` carrying the given error |
| UseCaseEvents.DataEvent | App/QuizChallenge/App/Sources/Conveniences/Models/UseCaseEvent.swift:52-54 | the event's status is `data` carrying the given value |
| UseCaseEvents.FactoriesCoverEveryEvent | App/QuizChallenge/App/Sources/Conveniences/Models/UseCaseEvent.swift:65-71 | every event is the one its kind's factory builds from its payload, and carries at most one payload |
| FetchQuiz.ItemsOf | App/QuizChallenge/App/Sources/Scenes/Keywords/Domain/FetchQuizUseCase/FetchQuizUseCase.swift:42 | one item per answer, in order, with the answer as its text |
| FetchQuiz.TextsOf | App/QuizChallenge/App/Sources/Scenes/Keywords/Domain/FetchQuizUseCase/QuizViewData.swift:11-19 | the items' texts, in order |
| FetchQuiz.ViewDataOf | App/QuizChallenge/App/Sources/Scenes/Keywords/Domain/FetchQuizUseCase/FetchQuizUseCase.swift:42-43 | the title is the question, and the items' texts are exactly the entity's answers |
| FetchQuiz.ServiceCalls | App/QuizChallenge/App/Sources/Scenes/Keywords/Domain/FetchQuizUseCase/FetchQuizUseCase.swift:39 | a count bounded by the number of steps |
| FetchQuiz.Completion | App/QuizChallenge/App/Sources/Scenes/Keywords/Domain/FetchQuizUseCase/FetchQuizUseCase.swift:39-48 | the completion is `data` exactly on success, with the question as title and the answers as the items' texts; on failure it is `serviceError` with the service's error |
| FetchQuiz.Execute | App/QuizChallenge/App/Sources/Scenes/Keywords/Domain/FetchQuizUseCase/FetchQuizUseCase.swift:37-49 | three steps: `loading` is emitted first, then the service is called, exactly once; the events are `loading` and then the completion of the service's result |
| FetchQuiz.Events | App/QuizChallenge/App/Sources/Scenes/Keywords/Domain/FetchQuizUseCase/FetchQuizUseCase.swift:37-49 | every step but the service calls is an event, and every event is one of the emitted steps |
| FetchQuiz.TwoEventsPerExecute | App/QuizChallenge/App/Sources/Scenes/Keywords/Domain/FetchQuizUseCase/FetchQuizUseCase.swift:37-49 | exactly two events: `loading`, then `data` of the converted entity on success, or `serviceError` with the service's error on failure |
| FetchQuiz.NeverIdleNorBusinessError | App/QuizChallenge/App/Sources/Scenes/Keywords/Domain/FetchQuizUseCase/FetchQuizUseCase.swift:37-49 | the use case never emits `idle` or `businessError` |
| FetchQuiz.SuccessMapsVerbatim | App/QuizChallenge/App/Sources/Scenes/Keywords/Domain/FetchQuizUseCase/FetchQuizUseCase.swift:41-44 | on success the data event's title is the question and its item texts are the answers, unchanged |
| AnswerMatching.CapitalizedTexts | App/QuizChallenge/App/Sources/Scenes/Keywords/Domain/CountRightAnswersUseCase.swift:33 | each possible answer's text through the case mapping, in order |
| AnswerMatching.ContainsMatchingAnswer | App/QuizChallenge/App/Sources/Scenes/Keywords/Domain/CountRightAnswersUseCase.swift:33 | true exactly when some possible answer's capitalised text equals the input |
| AnswerMatching.ContainsAnswer | App/QuizChallenge/App/Sources/Scenes/Keywords/Domain/CountRightAnswersUseCase.swift:34 | true exactly when the input is already among the user's answers |
| AnswerMatching.AcceptedAnswers | App/QuizChallenge/App/Sources/Scenes/Keywords/Domain/CountRightAnswersUseCase.swift:30-39 | the accepted answers hold no duplicates and every one is the capitalised text of some possible answer |
| AnswerMatching.Accepts | App/QuizChallenge/App/Sources/Scenes/Keywords/Domain/CountRightAnswersUseCase.swift:33-35 | the capitalised input is accepted exactly when some possible answer capitalises to it and it is not among the user's answers |
| AnswerMatching.Submit | App/QuizChallenge/App/Sources/Scenes/Keywords/Domain/CountRightAnswersUseCase.swift:32-37 | a submission keeps the accepted answers duplicate-free and each one a capitalised possible answer; the answers only grow, by at most one, and earlier entries stay in place |
| AnswerMatching.SubmitAppendsIffAccepted | App/QuizChallenge/App/Sources/Scenes/Keywords/Domain/CountRightAnswersUseCase.swift:32-37 | the capitalised input is appended exactly when it matches and is new; otherwise nothing changes |
| AnswerMatching.SubmitIsIdempotent | App/QuizChallenge/App/Sources/Scenes/Keywords/Domain/CountRightAnswersUseCase.swift:34-37 | submitting the same input twice has the effect of submitting it once |
| AnswerMatching.CountIsBounded | App/QuizChallenge/App/Sources/Scenes/Keywords/Domain/CountRightAnswersUseCase.swift:30-39 | the count never exceeds the number of distinct capitalised possible answers, nor the number of possible answers |
| CountRightAnswersOptional.CountRightAnswersUseCase.constructor | App/QuizChallenge/App/Sources/Scenes/Keywords/Domain/CountRightAnswersUseCase.swift:26-28 | the given possible answers and no user answers |
| CountRightAnswersOptional.CountRightAnswersUseCase.Execute | App/QuizChallenge/App/Sources/Scenes/Keywords/Domain/CountRightAnswersUseCase.swift:30-39 | nil changes nothing; otherwise the answers are the submission's result; the invariant is kept; the count returned is the number of accepted answers |
| CountRightAnswersOptional.TestedCounts | App/QuizChallengeTests/Tests/Scenes/Keywords/Domain/CountRightAnswersUseCaseTests.swift:14-64 | over ["something"]: a right answer counts 1, a wrong one 0, the same right answer twice 1, and nil after a right answer 1 |
| CountRightAnswers.CountRightAnswersUseCase.constructor | App/QuizChallenge/App/Sources/Scenes/Keywords/Domain/CountRightAnswersUseCase/CountRightAnswersUseCase.swift:20-22 | the given possible answers and no user answers |
| CountRightAnswers.CountRightAnswersUseCase.Execute | App/QuizChallenge/App/Sources/Scenes/Keywords/Domain/CountRightAnswersUseCase/CountRightAnswersUseCase.swift:24-32 | the answers are the submission's result; the invariant is kept; the count returned is the number of accepted answers |
| CountdownFormatter.Decimal | App/QuizChallenge/App/Sources/Scenes/Keywords/Domain/CountdownFormatter.swift:26 | a non-empty digit string with no leading zero except for 0 itself |
| CountdownFormatter.IntDescription | App/QuizChallenge/App/Sources/Scenes/Keywords/Domain/CountdownFormatter.swift:26 | a non-negative number in decimal; a negative one as "-" followed by its magnitude |
| CountdownFormatter.Pad2 | App/QuizChallenge/App/Sources/Scenes/Keywords/Domain/CountdownFormatter.swift:26 | at least two characters; all digits for a non-negative number |
| CountdownFormatter.Quot | App/QuizChallenge/App/Sources/Scenes/Keywords/Domain/CountdownFormatter.swift:24 | division truncated toward zero |
| CountdownFormatter.Rem | App/QuizChallenge/App/Sources/Scenes/Keywords/Domain/CountdownFormatter.swift:25 | the remainder takes the sign of the dividend and satisfies quotient * 60 + remainder == input |
| CountdownFormatter.FormatToMinutes | App/QuizChallenge/App/Sources/Scenes/Keywords/Domain/CountdownFormatter.swift:23-27 | at least five characters; for a non-negative input, digits, a colon third from the end, then two digits; the fields' values are in `FormatFields` and `FormatShape`, the inverse in `FormatRoundTrip` |
| CountdownFormatter.ParseMinutes | App/QuizChallenge/App/Sources/Scenes/Keywords/Domain/CountdownFormatter.swift:23-27 | the inverse of the formatter: a text without a colon has no value; one with a value is digits around exactly one colon |
| CountdownFormatter.DecimalValue | App/QuizChallenge/App/Sources/Scenes/Keywords/Domain/CountdownFormatter.swift:26 | the decimal digits denote the number |
| CountdownFormatter.DecimalLength | App/QuizChallenge/App/Sources/Scenes/Keywords/Domain/CountdownFormatter.swift:26 | one digit below 10, two below 100 |
| CountdownFormatter.Pad2Value | App/QuizChallenge/App/Sources/Scenes/Keywords/Domain/CountdownFormatter.swift:26 | a non-negative number padded with %02d denotes itself, in exactly two digits below 100 |
| CountdownFormatter.FormatFields | App/QuizChallenge/App/Sources/Scenes/Keywords/Domain/CountdownFormatter.swift:23-27 | for a non-negative input the fields are t / 60 and t % 60, with the seconds below 60 |
| CountdownFormatter.FormatShape | App/QuizChallenge/App/Sources/Scenes/Keywords/Domain/CountdownFormatter.swift:14-19 | below 6000 s the text is exactly "MM:SS": five characters, the colon at index 2, minutes t / 60 and seconds t % 60 < 60 |
| CountdownFormatter.FormatRoundTrip | App/QuizChallenge/App/Sources/Scenes/Keywords/Domain/CountdownFormatter.swift:23-27 | parsing the text back gives the input again, for every non-negative input |
| CountdownFormatter.FormatExamples | App/QuizChallengeTests/Tests/Scenes/Keywords/Domain/CountdownFormatterTests.swift:16-26 | 60 is "01:00", and the values the screen uses: 300 is "05:00", 0 is "00:00"; 65 is "01:05" and 3600 is "60:00" |
| CountdownFormatter.FormatNegative | App/QuizChallenge/App/Sources/Scenes/Keywords/Domain/CountdownFormatter.swift:24-26 | negative inputs follow the truncating operators: -1 is "00:-1", -61 is "-1:-1" |
| StringExtension.CapitalizingFirstLetter | App/QuizChallenge/App/Sources/Conveniences/Extensions/StringExtension.swift:16-18 | the case-mapped first character followed by the rest of the string, unchanged; the empty string maps to the mapping of "" |
| StringExtension.Prefix1 | App/QuizChallenge/App/Sources/Conveniences/Extensions/StringExtension.swift:17 | `prefix(1)`: the first character, or nothing for the empty string; followed by `DropFirst` it gives the string back |
| StringExtension.DropFirst | App/QuizChallenge/App/Sources/Conveniences/Extensions/StringExtension.swift:17 | `dropFirst()`: one character shorter, or empty for the empty string |
| StringExtension.CapitalizeFirstLetter | App/QuizChallenge/App/Sources/Conveniences/Extensions/StringExtension.swift:21-23 | the string is replaced by its `capitalizingFirstLetter` form |
| StringExtension.RestUnchanged | App/QuizChallenge/App/Sources/Conveniences/Extensions/StringExtension.swift:16-18 | the characters after the first are kept whatever the mapping does |
| StringExtension.EmptyStaysEmpty | App/QuizChallenge/App/Sources/Conveniences/Extensions/StringExtension.swift:16-18 | the empty string stays empty under a mapping that keeps it empty |
| StringExtension.CapitalizingIsIdempotent | App/QuizChallenge/App/Sources/Conveniences/Extensions/StringExtension.swift:16-18 | applying it twice equals applying it once, for a mapping that fixes its own image of the first character |
| StringExtension.SomethingBecomesCapitalised | App/QuizChallengeTests/Tests/Conveniences/Extensions/StringExtensionTests.swift:14-36 | "something" becomes "Something" through both forms, for a mapping that sends "s" to "S" |
| URLRequestErrors.Described | Libraries/Networking/Networking/URLRequests/Models/URLRequestError.swift:46-48 | an error in domain "URLRequestError" with the given code and only the description in its user info |
| URLRequestErrors.Code | Libraries/Networking/Networking/URLRequests/Models/URLRequestError.swift:26-39 | a raw error has its cause's code, a `withData` with a cause that cause's code, and every other error a code between -3 and -1; `CodeCases` gives the exact values |
| URLRequestErrors.RawError | Libraries/Networking/Networking/URLRequests/Models/URLRequestError.swift:41-55 | a raw error bridges to its cause; every other error bridges into the "URLRequestError" domain, with a description in the user info unless a JSON payload replaces it |
| URLRequestErrors.CodeCases | Libraries/Networking/Networking/URLRequests/Models/URLRequestError.swift:26-39 | `unknown` is -1, `requestBuilderFailed` -2, `withData` without a cause -3, otherwise the cause's own code |
| URLRequestErrors.RawErrorOfLocalErrors | Libraries/Networking/Networking/URLRequests/Models/URLRequestError.swift:41-48 | the two local errors bridge to their domain, code and fixed description; a raw error bridges to its cause |
| URLRequestErrors.RawErrorCodeAgreesWithCode | Libraries/Networking/Networking/URLRequests/Models/URLRequestError.swift:41-55 | the bridged error has the same code as `code`, except for a `withData` payload that is not a JSON object, which bridges to the `unknown` error with code -1; a JSON payload becomes the user info |
| URLSessionDispatcher.ParseErrors | Libraries/Networking/Networking/Dispatcher/URLSessionDispatcher.swift:68-85 | without an HTTP status the outcome is `unknown`; no error exactly when the status is in 200...299, whatever the transport error says; `withData` exactly for a 4xx status without transport error and with a UTF-8 payload, carrying that payload and no cause; every other error is `unknown` |
| URLSessionDispatcher.CompleteDataTask | Libraries/Networking/Networking/Dispatcher/URLSessionDispatcher.swift:41-55 | a parsed error completes as a failure; otherwise, or once the dispatcher is gone, the payload (possibly nil) completes as a success; failures are only `unknown` or `withData` |
| URLSessionDispatcher.StartExecute | Libraries/Networking/Networking/Dispatcher/URLSessionDispatcher.swift:34-64 | a token is returned exactly when the request could be built; a request that cannot be built completes at once, and only then, with `requestBuilderFailed` |

## Left out

- The user interface (view controllers, views, cells, keyboard handling, design constants) and the app's wiring (`AppDelegate`, dependency injection, the configurator, `Environment`) are not part of this model.
- Threads and run loops are not modelled. Each fire of the scheduled `Timer` is one call of `Tick` or `OnTimerFire`, and the interval is only recorded. Real time is not modelled.
- `URLSession`, `URLRequestToken`, `URLRequestBuilder`, `QuizService` and `QuizRequest` are I/O. They appear only as their outcomes: the `DataTaskResponse` value, the `requestBuilt` flag, and the service result passed to `FetchQuiz.Execute`. JSON and UTF-8 decoding are the parameters `jsonObject` and `isUtf8`, and `debugPrint` is omitted.
- The quiz service is modelled as answering synchronously. Overlapping or repeated fetches, and events arriving after the screen is gone, are not modelled.
- `Keywords.KeywordsViewModel.OnTimerFire`: it runs the view model's closures after the timer's state change, not inside the block. Nothing the closures do reads or writes the timer, so the resulting state and trace are the same.
- The view model's dependencies are fixed. It holds no fetch use case: `LoadQuizData` records the call, `OnFetchEvent` accepts any event, and `LoadScreen` composes it with `FetchQuiz.Execute`. The formatter is the concrete `CountDownFormatter`. The timer is the concrete `CountDownTimer`. The source types the timer as `CountDownTimerProtocol` and calls `dispatch(for:…)`, while the class conforms to `CountDownTimerProvider` with `dispatch(forTimePeriodInSeconds:…)`; the model takes these to be the same operation.
- `Keywords.KeywordsViewModel.OnFetchEvent`: the closures capture `self` weakly. A view model freed before an event arrives is not modelled; that case only drops the event.
- `Timer.CountDownTimer.Dispatch`: calling `dispatch` while a timer is running leaves the old `Timer` scheduled in the source. The model replaces it. The view model never does this, because `toggleTimer` restarts a running timer.
- `Timer.CountDownTimer.Tick`: the block holds the timer weakly. A timer freed while scheduled is not modelled.
- `timerWasStopped` in the timer and `isTimerRunning` in the view model are never read or written after their declaration, so they are omitted.
- `StringExtension.CapitalizingFirstLetter`: Foundation's `capitalized` and Unicode grapheme clusters are not modelled. A character is one `char`, and the case mapping is the parameter `cap`.
- Swift compares `String`s by canonical equivalence, in `==` and in the `contains(where:)` searches. The model compares code points (`AnswerMatching.NoDuplicates`, `ContainsMatchingAnswer`, `ContainsAnswer`). The counts and bounds hold for any case mapping, including one that normalises.
- `Timer.CountDownTimer.Tick`: `timeLeft -= 1` on a Swift `Int` traps at `Int.min`; the model's counter is unbounded. The view model always starts the counter at 300, so the trap cannot be reached from it.
- `CountdownFormatter.Pad2`: `%02d` formats a 32-bit `Int32`. Inputs beyond 32 bits are formatted as whole numbers.
- `URLRequestErrors.RawError`: the user info of a JSON payload is `[String: Any]` in the source and a string-to-string map here. `NSError(domain:code:description:)` is not part of this model; it is taken to store the description under `NSLocalizedDescription` and nothing else.
- `ViewFiller`'s optional image is not modelled; a filler is its title and subtitle. The `empty` view state is declared but never produced by the modelled code.
- KeywordsViewModelTests.swift expects different defaults ("", "Insert Word", "Start", "00/00") and an optional `answerItem` result. FetchQuizUseCaseTests.swift:20 expects the fetched items capitalised (`["A", "B", "C"]` for `["a", "b", "c"]`). The model follows the code of the view model and the use case instead.
- `NSObjectExtension` and `ThreadUtils` are not part of this model.
