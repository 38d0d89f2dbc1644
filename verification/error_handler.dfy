/** The global error handler: an ordered classifier from a thrown value to a
    failure response. The older copy under `server/middlewares` has the same
    branches in the same order and is modelled by the same function. */
module ErrorHandler {
  import opened Wrappers
  import opened Constants

  /** The properties of a thrown value the handler reads; a number the value
      lacks is 0 and a string it lacks is "". */
  datatype Thrown = Thrown(
    isApiError: bool,
    name: string,
    code: int,
    statusCode: int,
    message: string,
    errors: seq<string>,
    path: string,
    value: string,
    keyValueKeys: seq<string>,
    fieldMessages: seq<string>)

  /** The JSON body sent, with its status. `errors` is absent from the bodies
      that do not carry it. */
  datatype ErrorResponse = ErrorResponse(status: int, success: bool, message: string, errors: Option<seq<string>>)

  const DUPLICATE_KEY: int := 11000
  const VALIDATION_ERROR: string := "Validation Error"

  /** `${Object.keys(err.keyValue)[0]} already exists` */
  function DuplicateMessage(keys: seq<string>): string
  {
    (if |keys| > 0 then keys[0] else "undefined") + " already exists"
  }

  /** The handler; the first matching branch answers. */
  function Handle(e: Thrown): (r: ErrorResponse)
    ensures !r.success
    ensures e.isApiError ==> r == ErrorResponse(e.statusCode, false, e.message, Some(e.errors))
    ensures !e.isApiError ==> r.status in {BAD_REQUEST, UNAUTHORIZED, CONFLICT, INTERNAL_SERVER_ERROR} || r.status == e.statusCode
    ensures !e.isApiError ==> r.status != 0 && r.message != ""
    ensures !e.isApiError && e.name == "CastError" ==> r.status == BAD_REQUEST && r.message == "Invalid " + e.path + ": " + e.value
    ensures !e.isApiError && e.name != "CastError" && e.code == DUPLICATE_KEY ==>
      r.status == CONFLICT && r.message == DuplicateMessage(e.keyValueKeys)
    ensures r.errors.Some? && !e.isApiError ==> r.message == VALIDATION_ERROR && r.errors.value == e.fieldMessages
  {
    if e.isApiError then ErrorResponse(e.statusCode, false, e.message, Some(e.errors))
    else if e.name == "CastError" then ErrorResponse(BAD_REQUEST, false, "Invalid " + e.path + ": " + e.value, None)
    else if e.code == DUPLICATE_KEY then ErrorResponse(CONFLICT, false, DuplicateMessage(e.keyValueKeys), None)
    else if e.name == "ValidationError" then ErrorResponse(BAD_REQUEST, false, VALIDATION_ERROR, Some(e.fieldMessages))
    else if e.name == "JsonWebTokenError" then ErrorResponse(UNAUTHORIZED, false, "Invalid token", None)
    else if e.name == "TokenExpiredError" then ErrorResponse(UNAUTHORIZED, false, "Token expired", None)
    else ErrorResponse(if e.statusCode != 0 then e.statusCode else INTERNAL_SERVER_ERROR, false,
                       if e.message != "" then e.message else "Internal Server Error", None)
  }

  /** Which branch a thrown value reaches. */
  datatype Branch = ApiBranch | CastBranch | DuplicateBranch | ValidationBranch | InvalidTokenBranch | ExpiredTokenBranch | FallbackBranch

  /** The branch as a priority list: the first test that holds. */
  function BranchOf(e: Thrown): Branch
  {
    var tests := [
      (ApiBranch, e.isApiError),
      (CastBranch, e.name == "CastError"),
      (DuplicateBranch, e.code == DUPLICATE_KEY),
      (ValidationBranch, e.name == "ValidationError"),
      (InvalidTokenBranch, e.name == "JsonWebTokenError"),
      (ExpiredTokenBranch, e.name == "TokenExpiredError")];
    FirstMatch(tests)
  }

  function FirstMatch(tests: seq<(Branch, bool)>): Branch
  {
    if |tests| == 0 then FallbackBranch
    else if tests[0].1 then tests[0].0
    else FirstMatch(tests[1..])
  }

  /** The status each branch answers with; the API and fallback branches read the value's own. */
  function BranchStatus(b: Branch, e: Thrown): int
  {
    match b
    case ApiBranch => e.statusCode
    case CastBranch => BAD_REQUEST
    case DuplicateBranch => CONFLICT
    case ValidationBranch => BAD_REQUEST
    case InvalidTokenBranch => UNAUTHORIZED
    case ExpiredTokenBranch => UNAUTHORIZED
    case FallbackBranch => if e.statusCode != 0 then e.statusCode else INTERNAL_SERVER_ERROR
  }

  /** The handler answers with the status of the first branch whose test holds. */
  lemma HandleFollowsPriority(e: Thrown)
    ensures Handle(e).status == BranchStatus(BranchOf(e), e)
  {
    var tests := [
      (ApiBranch, e.isApiError),
      (CastBranch, e.name == "CastError"),
      (DuplicateBranch, e.code == DUPLICATE_KEY),
      (ValidationBranch, e.name == "ValidationError"),
      (InvalidTokenBranch, e.name == "JsonWebTokenError"),
      (ExpiredTokenBranch, e.name == "TokenExpiredError")];
    if e.isApiError { FirstMatchAt(tests, 0); }
    else if e.name == "CastError" { FirstMatchAt(tests, 1); }
    else if e.code == DUPLICATE_KEY { FirstMatchAt(tests, 2); }
    else if e.name == "ValidationError" { FirstMatchAt(tests, 3); }
    else if e.name == "JsonWebTokenError" { FirstMatchAt(tests, 4); }
    else if e.name == "TokenExpiredError" { FirstMatchAt(tests, 5); }
    else { FirstMatchNone(tests); }
  }

  /** The first test that holds names the branch. */
  lemma {:induction false} FirstMatchAt(tests: seq<(Branch, bool)>, k: int)
    requires 0 <= k < |tests| && tests[k].1
    requires forall j :: 0 <= j < k ==> !tests[j].1
    ensures FirstMatch(tests) == tests[k].0
  {
    if k > 0 {
      FirstMatchAt(tests[1..], k - 1);
    }
  }

  /** When no test holds, the fallback answers. */
  lemma {:induction false} FirstMatchNone(tests: seq<(Branch, bool)>)
    requires forall j :: 0 <= j < |tests| ==> !tests[j].1
    ensures FirstMatch(tests) == FallbackBranch
  {
    if |tests| > 0 {
      FirstMatchNone(tests[1..]);
    }
  }

  /** A duplicate-key error that is also an ApiError answers as the ApiError:
      order, not specificity, decides. */
  lemma ApiErrorTakesPrecedence(e: Thrown)
    requires e.isApiError && e.code == DUPLICATE_KEY && e.statusCode == NOT_FOUND
    ensures Handle(e).status == NOT_FOUND
  {
  }
}
