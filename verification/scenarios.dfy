/** The cases the repository's handler tests pin down, stated against the
    model with communicators that answer as the tests' mocks do. */
module Scenarios {
  import opened Devices
  import opened Handler
  import Validation

  /** A store double whose put answers `outcome` for every device. */
  function PostAnswering(outcome: Outcome): (c: Communicator)
  {
    Communicator((id: string) => (Zero, Ok), (d: Device) => outcome)
  }

  /** A complete device stored successfully is answered 201. */
  lemma PostCreated()
    ensures PostDevice(PostAnswering(Ok), Device("id1", "model1", "sensor1", "testing a sensor1", "serial1"))
      == Response(201, "HTTP 201 Created")
  {
  }

  /** An empty serial is answered 400 naming only Serial, although the store
      double would have failed. */
  lemma PostMissingSerial()
    ensures PostDevice(PostAnswering(Failed("empty fields")), Device("idSerialEmpty", "model", "sensor", "testing a sensor", ""))
      == Response(400, "Empty Field is not valid,Check the following: Serial, ")
  {
    var d := Device("idSerialEmpty", "model", "sensor", "testing a sensor", "");
    var fs := Validation.Fields(d);
    var names := Validation.FieldNames;
    assert Validation.Accumulate("", names[4..], fs[4..]) == "Serial, " by {
      assert names[4..][1..] == [] && fs[4..][1..] == [];
    }
    assert Validation.Accumulate("", names, fs) == Validation.Accumulate("", names[4..], fs[4..]) by {
      assert names[1..][1..] == names[2..] && fs[1..][1..] == fs[2..];
      assert names[2..][1..] == names[3..] && fs[2..][1..] == fs[3..];
      assert names[3..][1..] == names[4..] && fs[3..][1..] == fs[4..];
    }
  }

  /** A complete device the store fails to write is answered 500. */
  lemma PostStoreFailure()
    ensures PostDevice(PostAnswering(Failed("internal server error")), Device("idServerError", "model", "sensor", "testing a sensor", "serial"))
      == Response(500, "Internal Server Error")
  {
  }

  /** A device with every field empty lists all five names in order. */
  lemma PostAllEmpty(c: Communicator)
    ensures PostDevice(c, Zero) == Response(400, Validation.Prefix + Validation.Join(Validation.FieldNames))
  {
    Validation.EmptyFieldTextIsListing(Zero);
    Validation.AllEmptyListsAll(Validation.FieldNames, Validation.Fields(Zero));
  }

  /** A POST whose body is empty decodes to the zero device (the decoder's
      error is discarded) and is answered 400 before storage is consulted,
      whatever the store would say. */
  lemma DispatchPostEmptyBody(c: Communicator, decodeBody: string -> Device, serialise: Device -> string)
    requires decodeBody("") == Zero
    ensures Dispatch(c, Request("POST", "", map[]), decodeBody, serialise).0.statusCode == 400
    ensures Dispatch(c, Request("POST", "", map[]), decodeBody, serialise).1 == Ok
  {
  }

  /** The get double of the handler tests: "id1" finds a device, the id
      "id doesn't existed" finds nothing, "" fails. */
  function GetDouble(found: Device): (c: Communicator)
  {
    Communicator(
      (id: string) =>
        if id == "id1" then (found, Ok)
        else if id == "" then (Zero, Failed("error 500"))
        else (Zero, Ok),
      (d: Device) => Ok)
  }

  lemma GetCases(serialise: Device -> string)
    ensures var d := Device("id4", "id1", "sensor1", "testing a sensor1", "serial1");
      && GetDevice(GetDouble(d), Request("", "", map["id" := "id1"]), serialise) == Response(200, serialise(d))
      && GetDevice(GetDouble(d), Request("", "", map["id" := "id doesn't existed"]), serialise) == Response(404, "Not Found")
      && GetDevice(GetDouble(d), Request("", "", map["id" := ""]), serialise) == Response(500, "Internal Server Error")
      && GetDevice(GetDouble(d), Request("", "", map[]), serialise) == Response(500, "Internal Server Error")
  {
  }

  lemma UnknownMethod(c: Communicator, decodeBody: string -> Device, serialise: Device -> string)
    ensures Dispatch(c, Request("ERROR", "", map[]), decodeBody, serialise) == (Response(405, "Method Not Allowed"), Ok)
  {
  }
}
