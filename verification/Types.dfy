/** Values shared by the models: service instances, health statuses and the failover errors. */
module Types {
  datatype Option<+T> = None | Some(value: T)

  /** naming.Instance, restricted to the fields that the modelled code reads. */
  datatype Instance = Instance(id: string, address: string)

  datatype Status = Healthy | Unhealthy | Suspect | Isolated

  /** The error values of cluster/failover/interface.go, and those of the caller. */
  datatype Error =
    | ErrNoAvailableInstances
    | ErrMaxRetriesExceeded
    | ErrCircuitOpen
    | ErrRequestTimeout
    | ErrServiceUnavailable
    | ContextError(text: string)
    | OtherError(text: string)
  {
    /** One of the package's own errors. */
    predicate Own() { !ContextError? && !OtherError? }

    function Message(): string {
      match this
      case ErrNoAvailableInstances => "no available instances"
      case ErrMaxRetriesExceeded => "maximum retries exceeded"
      case ErrCircuitOpen => "circuit breaker is open"
      case ErrRequestTimeout => "request timeout"
      case ErrServiceUnavailable => "service is unavailable"
      case ContextError(t) => t
      case OtherError(t) => t
    }
  }
}
