/** How a failed send is judged: the AMQP error conditions and the policy that says whether to retry. */
module ErrorPolicies {
  datatype ErrorCode =
    | InternalServerError | IllegalState | DecodeError | NotFound | NotImplemented | NotAllowed
    | InvalidField | ResourceLocked | ResourceDeleted | UnauthorizedAccess | FrameSizeTooSmall
    | ResourceLimitExceeded | PreconditionFailed | ConnectionRedirect | ConnectionCloseForced
    | ConnectionFramingError | SessionWindowViolation | SessionErrantLink | SessionHandleInUse
    | SessionUnattachedHandle | LinkRedirect | LinkStolen | LinkDetachForced
    | LinkTransferLimitExceeded | LinkMessageSizeExceeded | ClientError | UnknownError | VendorError

  const NO_RETRY: set<ErrorCode> := {
    DecodeError, LinkMessageSizeExceeded, NotFound, NotImplemented, LinkRedirect, NotAllowed,
    UnauthorizedAccess, LinkStolen, ResourceLimitExceeded, ConnectionRedirect, PreconditionFailed,
    InvalidField, ResourceDeleted, IllegalState, FrameSizeTooSmall, ConnectionFramingError,
    SessionUnattachedHandle, SessionHandleInUse, SessionErrantLink, SessionWindowViolation
  }

  /** The condition named by a delivery state: one of the known codes, or anything else. */
  datatype Condition = Known(code: ErrorCode) | Unrecognized(name: string)

  /** What accompanies an Error result: a client exception, an error response, or nothing. */
  datatype Delivery = ClientException | Response(condition: Condition) | Missing

  datatype ErrorAction = ErrorAction(retry: bool, backoff: int, incrementRetries: bool)

  const RETRY := ErrorAction(true, 0, true)
  const FAIL := ErrorAction(false, 0, true)

  /** `onError`, when set, judges the conditions that are not known codes. */
  datatype ErrorHook = NoHook | Hook(judge: string -> ErrorAction)

  datatype ErrorPolicy = ErrorPolicy(maxRetries: int, onError: ErrorHook)
  {
    function OnUnrecognizedError(name: string): ErrorAction {
      if onError.Hook? then onError.judge(name) else RETRY
    }

    function OnMessageError(code: ErrorCode): ErrorAction {
      if code in NO_RETRY then FAIL else RETRY
    }

    /** The action for an Error result: client-side failures always retry. */
    function ActionFor(delivery: Delivery): ErrorAction {
      match delivery
      case ClientException => RETRY
      case Missing => RETRY
      case Response(Known(code)) => OnMessageError(code)
      case Response(Unrecognized(name)) => OnUnrecognizedError(name)
    }

    /** The largest value the retry counter of a message can reach. */
    function Budget(): nat {
      if maxRetries > 0 then maxRetries else 0
    }

    /** Every retry this policy grants is charged to the message. */
    ghost predicate ChargesRetries() {
      onError.Hook? ==> forall name :: onError.judge(name).retry ==> onError.judge(name).incrementRetries
    }
  }
}
