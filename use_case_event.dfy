/**
  `UseCaseEvent`: how a use case reports progress to its consumer. An event wraps one
  `Status`, a tagged union of five cases; three of them carry exactly one payload.

  `D` is the data type, `E` the use case's own (business) error type and `F` the type of
  the boxed `Swift.Error` a service failure carries.
 */
module UseCaseEvents {

  datatype Status<D, E, F> =
    | Idle
    | Loading
    | Data(data: D)
    | BusinessError(error: E)
    | ServiceError(serviceError: F)

  datatype UseCaseEvent<D, E, F> = UseCaseEvent(status: Status<D, E, F>)

  /** `UseCaseEvent.loading()` */
  function LoadingEvent<D, E, F>(): (ev: UseCaseEvent<D, E, F>)
    ensures ev.status.Loading?
  {
    UseCaseEvent(Loading)
  }

  /** `UseCaseEvent.idle()` */
  function IdleEvent<D, E, F>(): (ev: UseCaseEvent<D, E, F>)
    ensures ev.status.Idle?
  {
    UseCaseEvent(Idle)
  }

  /** `UseCaseEvent.businessError(_:)` */
  function BusinessErrorEvent<D, E, F>(error: E): (ev: UseCaseEvent<D, E, F>)
    ensures ev.status.BusinessError? && ev.status.error == error
  {
    UseCaseEvent(BusinessError(error))
  }

  /** `UseCaseEvent.serviceError(_:)` */
  function ServiceErrorEvent<D, E, F>(error: F): (ev: UseCaseEvent<D, E, F>)
    ensures ev.status.ServiceError? && ev.status.serviceError == error
  {
    UseCaseEvent(ServiceError(error))
  }

  /** `UseCaseEvent.data(_:)` */
  function DataEvent<D, E, F>(data: D): (ev: UseCaseEvent<D, E, F>)
    ensures ev.status.Data? && ev.status.data == data
  {
    UseCaseEvent(Data(data))
  }

  /** The number of payloads an event carries. */
  function PayloadCount<D, E, F>(ev: UseCaseEvent<D, E, F>): (n: nat)
  {
    match ev.status
    case Idle | Loading => 0
    case Data(_) | BusinessError(_) | ServiceError(_) => 1
  }

  /** Every event is what exactly one of the five factories builds, and carries at most one payload. */
  lemma FactoriesCoverEveryEvent<D, E, F>(ev: UseCaseEvent<D, E, F>)
    ensures PayloadCount(ev) <= 1
    ensures ev.status.Idle? ==> ev == IdleEvent()
    ensures ev.status.Loading? ==> ev == LoadingEvent()
    ensures ev.status.Data? ==> ev == DataEvent(ev.status.data)
    ensures ev.status.BusinessError? ==> ev == BusinessErrorEvent(ev.status.error)
    ensures ev.status.ServiceError? ==> ev == ServiceErrorEvent(ev.status.serviceError)
  {
  }
}
