/** The response-envelope helpers the response middleware attaches to each
    response. An argument left out (`undefined`) is None and takes the default. */
module ResponseHelpers {
  import opened Wrappers
  import opened Constants

  datatype Body<T> =
    | SuccessBody(statusCode: int, message: string, data: Option<T>)
    | ErrorBody(statusCode: int, message: string, errors: seq<string>)

  /** The HTTP status together with the JSON body. */
  datatype Response<T> = Response(status: int, body: Body<T>)

  function Or<U>(given: Option<U>, default: U): U
  {
    if given.Some? then given.value else default
  }

  /** `res.success(data = null, message = "Success", statusCode = 200)` */
  function Success<T>(data: Option<T>, message: Option<string>, statusCode: Option<int>): (r: Response<T>)
    ensures r.body.SuccessBody? && r.status == r.body.statusCode
    ensures r.body.data == data
    ensures message.None? ==> r.body.message == "Success"
    ensures statusCode.None? ==> r.status == OK
    ensures message.Some? ==> r.body.message == message.value
    ensures statusCode.Some? ==> r.status == statusCode.value
  {
    var status := Or(statusCode, OK);
    Response(status, SuccessBody(status, Or(message, "Success"), data))
  }

  /** `res.error(message = "Something went wrong", statusCode = 400, errors = [])`.
      An error body carries no data, so its data type is the unit type. */
  function Error(message: Option<string>, statusCode: Option<int>, errors: Option<seq<string>>): (r: Response<()>)
    ensures r.body.ErrorBody? && r.status == r.body.statusCode
    ensures message.None? ==> r.body.message == "Something went wrong"
    ensures statusCode.None? ==> r.status == BAD_REQUEST
    ensures errors.None? ==> r.body.errors == []
    ensures message.Some? ==> r.body.message == message.value
    ensures statusCode.Some? ==> r.status == statusCode.value
    ensures errors.Some? ==> r.body.errors == errors.value
  {
    var status := Or(statusCode, BAD_REQUEST);
    Response(status, ErrorBody(status, Or(message, "Something went wrong"), Or(errors, [])))
  }

  /** `res.created(data = null, message = "Created successfully")` */
  function Created<T>(data: Option<T>, message: Option<string>): (r: Response<T>)
    ensures r.status == CREATED && r.body.SuccessBody? && r.body.data == data
    ensures message.None? ==> r.body.message == "Created successfully"
    ensures message.Some? ==> r.body.message == message.value
  {
    Success(data, Some(Or(message, "Created successfully")), Some(CREATED))
  }

  function NotFound(message: Option<string>): (r: Response<()>)
    ensures r.status == NOT_FOUND && r.body.ErrorBody? && r.body.errors == []
    ensures message.None? ==> r.body.message == "Resource not found"
    ensures message.Some? ==> r.body.message == message.value
  {
    Error(Some(Or(message, "Resource not found")), Some(NOT_FOUND), None)
  }

  function Unauthorized(message: Option<string>): (r: Response<()>)
    ensures r.status == UNAUTHORIZED && r.body.ErrorBody? && r.body.errors == []
    ensures message.None? ==> r.body.message == "Unauthorized access"
    ensures message.Some? ==> r.body.message == message.value
  {
    Error(Some(Or(message, "Unauthorized access")), Some(UNAUTHORIZED), None)
  }

  function Forbidden(message: Option<string>): (r: Response<()>)
    ensures r.status == FORBIDDEN && r.body.ErrorBody? && r.body.errors == []
    ensures message.None? ==> r.body.message == "Access forbidden"
    ensures message.Some? ==> r.body.message == message.value
  {
    Error(Some(Or(message, "Access forbidden")), Some(FORBIDDEN), None)
  }

  /** `created` is `success` at 201, message defaults aside. */
  lemma CreatedIsSuccess<T>(data: Option<T>, message: string)
    ensures Created(data, Some(message)) == Success(data, Some(message), Some(CREATED))
  {
  }

  /** The shortcut helpers are `error` at their status with the same message. */
  lemma ShortcutsAreErrors(message: string)
    ensures NotFound(Some(message)) == Error(Some(message), Some(NOT_FOUND), None)
    ensures Unauthorized(Some(message)) == Error(Some(message), Some(UNAUTHORIZED), None)
    ensures Forbidden(Some(message)) == Error(Some(message), Some(FORBIDDEN), None)
  {
  }

  /** The helpers a response carries after the middleware ran, and how many
      times it handed on to the next handler. */
  datatype Attached = Attached(helpers: seq<string>, nextCalls: nat)

  function ResponseMiddleware(): (r: Attached)
    ensures r.nextCalls == 1
    ensures forall h :: h in r.helpers <==> h in ["success", "error", "created", "notFound", "unauthorized", "forbidden"]
  {
    Attached(["success", "error", "created", "notFound", "unauthorized", "forbidden"], 1)
  }
}
