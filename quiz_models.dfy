/**
  The plain data records of the quiz: the service's entity, the view data the use case
  builds from it, and the records handed to the rendering layer.
 */
module QuizModels {
  import opened Wrappers

  /** `QuizEntity`: what the quiz service decodes. */
  datatype QuizEntity = QuizEntity(question: string, answer: seq<string>)

  /** `QuizViewData.Item`: one acceptable answer. */
  datatype Item = Item(text: string)

  /** `QuizViewData`: the question and its acceptable answers. */
  datatype QuizViewData = QuizViewData(title: string, items: seq<Item>)

  /** `ViewFiller`: the texts shown on an error or empty screen (the optional image is not modelled). */
  datatype ViewFiller = ViewFiller(title: string, subtitle: Option<string>)

  /** `ViewState`: the coarse screen state pushed to the renderer. */
  datatype ViewState =
    | LoadingState
    | Content
    | Error(errorFiller: Option<ViewFiller>)
    | Empty(emptyFiller: Option<ViewFiller>)

  /** `SimpleModalViewData`: the texts of a modal alert. */
  datatype SimpleModalViewData = SimpleModalViewData(title: string, subtitle: string, buttonText: Option<string>)
}
