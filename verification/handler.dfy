/** The request handlers of the lambda: validation and outcome mapping for
    POST, outcome mapping for GET, and the dispatch on the HTTP method. The
    storage they call is injected as a `Communicator`. */
module Handler {
  import opened Devices
  import Validation

  /** The parts of an API Gateway proxy request the handlers read. */
  datatype Request = Request(httpMethod: string, body: string, pathParameters: map<string, string>)

  /** An API Gateway proxy response: status code and body. */
  datatype Response = Response(statusCode: int, body: string)

  /** The two storage calls a handler may make. Any implementation will do:
      the DynamoDB adapter or a test double. */
  datatype Communicator = Communicator(getFromDB: string -> (Device, Outcome), postToDB: Device -> Outcome)

  const StatusOK := 200
  const StatusCreated := 201
  const StatusBadRequest := 400
  const StatusNotFound := 404
  const StatusMethodNotAllowed := 405
  const StatusInternalServerError := 500

  /** Every status a handler can answer with. */
  const Statuses: set<int> := {200, 201, 400, 404, 405, 500}

  /** The reason phrases of RFC 9110 section 15, restricted to the six
      statuses the handlers produce: this table gives a phrase for exactly
      those and "" for every other code. (Go's `http.StatusText` knows many
      more codes; the handlers never ask for them.) */
  function StatusText(code: int): (text: string)
    ensures code in Statuses <==> text != ""
    ensures code == 404 ==> text == "Not Found"
    ensures code == 405 ==> text == "Method Not Allowed"
    ensures code == 500 ==> text == "Internal Server Error"
  {
    match code
    case 200 => "OK"
    case 201 => "Created"
    case 400 => "Bad Request"
    case 404 => "Not Found"
    case 405 => "Method Not Allowed"
    case 500 => "Internal Server Error"
    case _ => ""
  }

  /** The body of a successful POST. */
  const CreatedBody := "HTTP 201 Created"

  /** The answer for a storage failure. */
  const ServerError := Response(StatusInternalServerError, StatusText(StatusInternalServerError))

  /** postDevice, given the device decoded from the request body: reject it
      with 400 and the list of empty fields, otherwise store it and map the
      storage outcome to 500 or 201. */
  function PostDevice(c: Communicator, received: Device): (r: Response)
    ensures r.statusCode in {StatusCreated, StatusBadRequest, StatusInternalServerError}
    ensures r.statusCode == StatusBadRequest <==> !Validation.Complete(received)
    ensures r.statusCode == StatusBadRequest ==>
      r.body == Validation.Prefix + Validation.Join(Validation.Missing(Validation.FieldNames, Validation.Fields(received)))
    ensures r.statusCode == StatusInternalServerError <==>
      Validation.Complete(received) && c.postToDB(received).Failed?
    ensures r.statusCode == StatusInternalServerError ==> r.body == "Internal Server Error"
    ensures r.statusCode == StatusCreated <==> Validation.Complete(received) && c.postToDB(received) == Ok
    ensures r.statusCode == StatusCreated ==> r.body == CreatedBody
  {
    Validation.EmptyFieldTextIsListing(received);
    var emptyField := Validation.EmptyFieldText(received);
    if emptyField != "" then
      Response(StatusBadRequest, Validation.Prefix + emptyField)
    else if c.postToDB(received).Failed? then
      ServerError
    else
      Response(StatusCreated, CreatedBody)
  }

  /** The id a GET asks for: the `id` path parameter, "" when it is missing. */
  function PathId(req: Request): (id: string)
    ensures "id" in req.pathParameters ==> id == req.pathParameters["id"]
    ensures "id" !in req.pathParameters ==> id == ""
  {
    if "id" in req.pathParameters then req.pathParameters["id"] else ""
  }

  /** getDevice: fetch the device named by the path, and answer 500 on a
      storage error (checked first, whatever device came back), 404 when the
      device has an empty id, and otherwise 200 with the device serialised by
      `serialise`, which stands for the JSON encoder. */
  function GetDevice(c: Communicator, req: Request, serialise: Device -> string): (r: Response)
    ensures r.statusCode in {StatusOK, StatusNotFound, StatusInternalServerError}
    ensures r.statusCode == StatusInternalServerError <==> c.getFromDB(PathId(req)).1.Failed?
    ensures r.statusCode == StatusInternalServerError ==> r.body == "Internal Server Error"
    ensures r.statusCode == StatusNotFound <==>
      c.getFromDB(PathId(req)).1 == Ok && c.getFromDB(PathId(req)).0.id == ""
    ensures r.statusCode == StatusNotFound ==> r.body == "Not Found"
    ensures r.statusCode == StatusOK <==>
      c.getFromDB(PathId(req)).1 == Ok && c.getFromDB(PathId(req)).0.id != ""
    ensures r.statusCode == StatusOK ==> r.body == serialise(c.getFromDB(PathId(req)).0)
  {
    var (device, err) := c.getFromDB(PathId(req));
    if err.Failed? then
      ServerError
    else if device.id == "" then
      Response(StatusNotFound, StatusText(StatusNotFound))
    else
      Response(StatusOK, serialise(device))
  }

  /** httpSpecifier: route the exact method "GET" to getDevice and "POST" to
      postDevice (its body decoded by `decodeBody`, which stands for the JSON
      decoder); anything else is 405. The error result is always nil. */
  function Dispatch(c: Communicator, req: Request, decodeBody: string -> Device, serialise: Device -> string)
    : (r: (Response, Outcome))
    ensures r.1 == Ok
    ensures r.0.statusCode in Statuses
    ensures req.httpMethod == "GET" ==> r.0 == GetDevice(c, req, serialise)
    ensures req.httpMethod == "POST" ==> r.0 == PostDevice(c, decodeBody(req.body))
    ensures req.httpMethod !in {"GET", "POST"} ==> r.0 == Response(405, "Method Not Allowed")
  {
    match req.httpMethod
    case "GET" => (GetDevice(c, req, serialise), Ok)
    case "POST" => (PostDevice(c, decodeBody(req.body)), Ok)
    case _ => (Response(StatusMethodNotAllowed, StatusText(StatusMethodNotAllowed)), Ok)
  }

  /** A device that fails validation is answered without regard to storage:
      any two communicators give the same 400. */
  lemma InvalidPostIgnoresStorage(c1: Communicator, c2: Communicator, received: Device)
    requires !Validation.Complete(received)
    ensures PostDevice(c1, received) == PostDevice(c2, received)
    ensures PostDevice(c1, received).statusCode == StatusBadRequest
  {
  }

  /** A valid device is answered from what storage says about that very
      device and nothing else. */
  lemma ValidPostDependsOnlyOnItsStore(c1: Communicator, c2: Communicator, received: Device)
    requires Validation.Complete(received)
    requires c1.postToDB(received) == c2.postToDB(received)
    ensures PostDevice(c1, received) == PostDevice(c2, received)
  {
  }

  /** The 400 body tells exactly which fields were empty. */
  lemma BadRequestBodyDeterminesEmptyFields(c: Communicator, d1: Device, d2: Device)
    requires PostDevice(c, d1).statusCode == StatusBadRequest
    requires PostDevice(c, d1) == PostDevice(c, d2)
    ensures forall i :: 0 <= i < |Validation.FieldNames| ==>
      (Validation.Fields(d1)[i] == "" <==> Validation.Fields(d2)[i] == "")
  {
    var b1 := PostDevice(c, d1).body;
    assert b1 == Validation.Prefix + Validation.EmptyFieldText(d1);
    assert b1 == Validation.Prefix + Validation.EmptyFieldText(d2);
    assert Validation.EmptyFieldText(d1) == b1[|Validation.Prefix|..];
    Validation.EmptyFieldTextDeterminesFields(d1, d2);
  }

  /** Method names are matched exactly: other spellings of GET and POST are 405. */
  lemma MethodMatchIsCaseSensitive(c: Communicator, req: Request, decodeBody: string -> Device, serialise: Device -> string)
    requires req.httpMethod in {"get", "Get", "post", "Post", "PUT", "DELETE", ""}
    ensures Dispatch(c, req, decodeBody, serialise).0 == Response(405, "Method Not Allowed")
  {
  }
}
