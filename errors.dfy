/**
 * The application error every layer returns: an HTTP status, a
 * human-readable message, a machine-readable code, optional field details
 * and an optional underlying cause, built by applying functional options
 * to a fresh error.
 */
module AppErrors {
  import opened Common

  const StatusBadRequest := 400
  const StatusUnauthorized := 401
  const StatusForbidden := 403
  const StatusNotFound := 404
  const StatusConflict := 409
  const StatusInternalServerError := 500

  /** The details attached to an error: in this code base always a field-to-message map. */
  type Details = map<string, string>

  /**
   * An error value. `code` is "" when no option set it (Go's zero value);
   * `cause` holds the text of the wrapped error, when there is one.
   */
  datatype AppError = AppError(
    message: string,
    statusCode: int,
    code: string,
    details: Option<Details>,
    cause: Option<string>)
  {
    /** The text of the error: "message: cause" with a cause, the bare message without. */
    function Error(): string {
      match cause
      case Some(c) => message + ": " + c
      case None => message
    }
  }

  /** The message always opens the text, and the cause, when present, closes it after ": ". */
  lemma ErrorTextParts(e: AppError)
    ensures |e.Error()| >= |e.message| && e.Error()[..|e.message|] == e.message
    ensures e.cause.Some? ==> e.Error()[|e.message|..] == ": " + e.cause.value
    ensures e.Error() == e.message <==> e.cause.None?
  {
    if e.cause.Some? {
      assert |e.Error()| == |e.message| + 2 + |e.cause.value|;
    }
  }

  /** One functional option: each one targets one field. */
  datatype AppErrorOption =
    | WithCode(code: string)
    | WithDetails(details: Details)
    | WithCause(cause: string)

  datatype Field = CodeField | DetailsField | CauseField

  predicate Targets(opt: AppErrorOption, f: Field) {
    match opt
    case WithCode(_) => f == CodeField
    case WithDetails(_) => f == DetailsField
    case WithCause(_) => f == CauseField
  }

  /** `opts[i]` targets `f` and no later option does. */
  predicate IsLast(opts: seq<AppErrorOption>, i: int, f: Field) {
    && 0 <= i < |opts|
    && Targets(opts[i], f)
    && forall j :: i < j < |opts| ==> !Targets(opts[j], f)
  }

  /** Runs one option on an error: it writes its own field and only that one. */
  function Apply(e: AppError, opt: AppErrorOption): (r: AppError)
    ensures r.message == e.message && r.statusCode == e.statusCode
    ensures r.code == (if opt.WithCode? then opt.code else e.code)
    ensures r.details == (if opt.WithDetails? then Some(opt.details) else e.details)
    ensures r.cause == (if opt.WithCause? then Some(opt.cause) else e.cause)
  {
    match opt
    case WithCode(c) => e.(code := c)
    case WithDetails(d) => e.(details := Some(d))
    case WithCause(c) => e.(cause := Some(c))
  }

  /** Runs the options left to right; message and status never change. */
  function ApplyOptions(e: AppError, opts: seq<AppErrorOption>): (r: AppError)
    ensures r.message == e.message && r.statusCode == e.statusCode
  {
    if opts == [] then e
    else Apply(ApplyOptions(e, opts[..|opts| - 1]), opts[|opts| - 1])
  }

  /**
   * The last option targeting a field decides it; a field that no option
   * targets keeps the value it had. One lemma per field.
   */
  lemma {:induction false} LastCodeWins(e: AppError, opts: seq<AppErrorOption>)
    ensures forall i :: IsLast(opts, i, CodeField) ==> ApplyOptions(e, opts).code == opts[i].code
  {
    if opts != [] {
      var n := |opts| - 1;
      var init := opts[..n];
      LastCodeWins(e, init);
      forall i | IsLast(opts, i, CodeField) && i < n
        ensures IsLast(init, i, CodeField)
      {
        forall j | i < j < |init| ensures !Targets(init[j], CodeField) {
          assert init[j] == opts[j];
        }
      }
    }
  }

  lemma {:induction false} CodeUntouched(e: AppError, opts: seq<AppErrorOption>)
    requires forall i :: 0 <= i < |opts| ==> !opts[i].WithCode?
    ensures ApplyOptions(e, opts).code == e.code
  {
    if opts != [] {
      var init := opts[..|opts| - 1];
      assert forall i :: 0 <= i < |init| ==> init[i] == opts[i];
      CodeUntouched(e, init);
    }
  }

  lemma {:induction false} LastDetailsWins(e: AppError, opts: seq<AppErrorOption>)
    ensures forall i :: IsLast(opts, i, DetailsField) ==> ApplyOptions(e, opts).details == Some(opts[i].details)
  {
    if opts != [] {
      var n := |opts| - 1;
      var init := opts[..n];
      LastDetailsWins(e, init);
      forall i | IsLast(opts, i, DetailsField) && i < n
        ensures IsLast(init, i, DetailsField)
      {
        forall j | i < j < |init| ensures !Targets(init[j], DetailsField) {
          assert init[j] == opts[j];
        }
      }
    }
  }

  lemma {:induction false} DetailsUntouched(e: AppError, opts: seq<AppErrorOption>)
    requires forall i :: 0 <= i < |opts| ==> !opts[i].WithDetails?
    ensures ApplyOptions(e, opts).details == e.details
  {
    if opts != [] {
      var init := opts[..|opts| - 1];
      assert forall i :: 0 <= i < |init| ==> init[i] == opts[i];
      DetailsUntouched(e, init);
    }
  }

  lemma {:induction false} LastCauseWins(e: AppError, opts: seq<AppErrorOption>)
    ensures forall i :: IsLast(opts, i, CauseField) ==> ApplyOptions(e, opts).cause == Some(opts[i].cause)
  {
    if opts != [] {
      var n := |opts| - 1;
      var init := opts[..n];
      LastCauseWins(e, init);
      forall i | IsLast(opts, i, CauseField) && i < n
        ensures IsLast(init, i, CauseField)
      {
        forall j | i < j < |init| ensures !Targets(init[j], CauseField) {
          assert init[j] == opts[j];
        }
      }
    }
  }

  lemma {:induction false} CauseUntouched(e: AppError, opts: seq<AppErrorOption>)
    requires forall i :: 0 <= i < |opts| ==> !opts[i].WithCause?
    ensures ApplyOptions(e, opts).cause == e.cause
  {
    if opts != [] {
      var init := opts[..|opts| - 1];
      assert forall i :: 0 <= i < |init| ==> init[i] == opts[i];
      CauseUntouched(e, init);
    }
  }

  /** The error `NewAppError` starts from before running its options. */
  function Fresh(statusCode: int, message: string): AppError {
    AppError(message, statusCode, "", None, None)
  }

  /** `NewAppError(statusCode, message, opts...)`: a fresh error, then each option in turn. */
  method NewAppError(statusCode: int, message: string, opts: seq<AppErrorOption>) returns (e: AppError)
    ensures e == ApplyOptions(Fresh(statusCode, message), opts)
    ensures e.statusCode == statusCode && e.message == message
    ensures forall i :: IsLast(opts, i, CodeField) ==> e.code == opts[i].code
    ensures forall i :: IsLast(opts, i, DetailsField) ==> e.details == Some(opts[i].details)
    ensures forall i :: IsLast(opts, i, CauseField) ==> e.cause == Some(opts[i].cause)
    ensures (forall i :: 0 <= i < |opts| ==> !opts[i].WithCode?) ==> e.code == ""
    ensures (forall i :: 0 <= i < |opts| ==> !opts[i].WithDetails?) ==> e.details.None?
    ensures (forall i :: 0 <= i < |opts| ==> !opts[i].WithCause?) ==> e.cause.None?
  {
    e := Fresh(statusCode, message);
    for k := 0 to |opts|
      invariant e == ApplyOptions(Fresh(statusCode, message), opts[..k])
    {
      assert opts[..k + 1][..k] == opts[..k];
      e := Apply(e, opts[k]);
    }
    assert opts[..|opts|] == opts;
    LastCodeWins(Fresh(statusCode, message), opts);
    LastDetailsWins(Fresh(statusCode, message), opts);
    LastCauseWins(Fresh(statusCode, message), opts);
    if forall i :: 0 <= i < |opts| ==> !opts[i].WithCode? {
      CodeUntouched(Fresh(statusCode, message), opts);
    }
    if forall i :: 0 <= i < |opts| ==> !opts[i].WithDetails? {
      DetailsUntouched(Fresh(statusCode, message), opts);
    }
    if forall i :: 0 <= i < |opts| ==> !opts[i].WithCause? {
      CauseUntouched(Fresh(statusCode, message), opts);
    }
  }

  const ErrNotFound := ApplyOptions(Fresh(StatusNotFound, "Resource not found"), [WithCode("NOT_FOUND")])
  const ErrInvalidInput := ApplyOptions(Fresh(StatusBadRequest, "Invalid input provided"), [WithCode("INVALID_INPUT")])
  const ErrUnauthorized := ApplyOptions(Fresh(StatusUnauthorized, "Authentication required"), [WithCode("UNAUTHORIZED")])
  const ErrForbidden := ApplyOptions(Fresh(StatusForbidden, "Access denied"), [WithCode("FORBIDDEN")])
  const ErrInternalServerError :=
    ApplyOptions(Fresh(StatusInternalServerError, "An unexpected error occurred"), [WithCode("INTERNAL_SERVER_ERROR")])
  const ErrConflict := ApplyOptions(Fresh(StatusConflict, "Conflict occurred"), [WithCode("CONFLICT")])

  /** The predefined errors pair each status with its code, and carry neither details nor a cause. */
  lemma PredefinedErrors()
    ensures ErrNotFound.statusCode == 404 && ErrNotFound.code == "NOT_FOUND"
    ensures ErrInvalidInput.statusCode == 400 && ErrInvalidInput.code == "INVALID_INPUT"
    ensures ErrUnauthorized.statusCode == 401 && ErrUnauthorized.code == "UNAUTHORIZED"
    ensures ErrForbidden.statusCode == 403 && ErrForbidden.code == "FORBIDDEN"
    ensures ErrInternalServerError.statusCode == 500 && ErrInternalServerError.code == "INTERNAL_SERVER_ERROR"
    ensures ErrConflict.statusCode == 409 && ErrConflict.code == "CONFLICT"
    ensures forall e :: e in {ErrNotFound, ErrInvalidInput, ErrUnauthorized, ErrForbidden, ErrInternalServerError, ErrConflict}
                      ==> e.details.None? && e.cause.None?
  {
    LastCodeWins(Fresh(StatusNotFound, "Resource not found"), [WithCode("NOT_FOUND")]);
    LastCodeWins(Fresh(StatusBadRequest, "Invalid input provided"), [WithCode("INVALID_INPUT")]);
    LastCodeWins(Fresh(StatusUnauthorized, "Authentication required"), [WithCode("UNAUTHORIZED")]);
    LastCodeWins(Fresh(StatusForbidden, "Access denied"), [WithCode("FORBIDDEN")]);
    LastCodeWins(Fresh(StatusInternalServerError, "An unexpected error occurred"), [WithCode("INTERNAL_SERVER_ERROR")]);
    LastCodeWins(Fresh(StatusConflict, "Conflict occurred"), [WithCode("CONFLICT")]);
    assert IsLast([WithCode("NOT_FOUND")], 0, CodeField);
    assert IsLast([WithCode("INVALID_INPUT")], 0, CodeField);
    assert IsLast([WithCode("UNAUTHORIZED")], 0, CodeField);
    assert IsLast([WithCode("FORBIDDEN")], 0, CodeField);
    assert IsLast([WithCode("INTERNAL_SERVER_ERROR")], 0, CodeField);
    assert IsLast([WithCode("CONFLICT")], 0, CodeField);
  }
}
