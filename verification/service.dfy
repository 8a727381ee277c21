/** The lambda as deployed: the handlers wired to the DynamoDB storage
    adapter. A request is answered against a store and may leave a changed
    store behind. */
module Service {
  import opened Devices
  import opened DynamoDb
  import DataLayer
  import Validation
  import opened Handler

  /** The communicator backed by the store `db`. Only the outcome of a put is
      visible through it; the store a put leaves behind is `AfterRequest`. */
  function DatabaseCommunicator(db: Db, decodeItem: Item -> Device): (c: Communicator)
    ensures forall d :: c.postToDB(d) == db.fault
    ensures forall id :: c.getFromDB(id) == DataLayer.GetFromDB(db, id, decodeItem)
  {
    Communicator(
      (id: string) => DataLayer.GetFromDB(db, id, decodeItem),
      (d: Device) => DataLayer.PostToDB(db, d).1)
  }

  /** The store after `req` has been handled: only a POST of a complete
      device writes, and only to a healthy store. */
  function AfterRequest(db: Db, req: Request, decodeBody: string -> Device): (db': Db)
    ensures req.httpMethod != "POST" ==> db' == db
    ensures !Validation.Complete(decodeBody(req.body)) ==> db' == db
    ensures db.fault.Failed? ==> db' == db
    ensures req.httpMethod == "POST" && Validation.Complete(decodeBody(req.body)) && db.fault.Ok? ==>
      db'.items == db.items[(DataLayer.TableName, decodeBody(req.body).id) := DataLayer.DeviceItem(decodeBody(req.body))]
  {
    var d := decodeBody(req.body);
    if req.httpMethod == "POST" && Validation.Complete(d) then DataLayer.PostToDB(db, d).0 else db
  }

  /** Handle one request against the store: the response, and the store left
      behind. */
  function Handle(db: Db, req: Request, decodeBody: string -> Device, decodeItem: Item -> Device,
                  serialise: Device -> string): (r: (Response, Db))
    ensures r.0.statusCode in Statuses
    ensures r.1.fault == db.fault
    ensures r.0.statusCode == StatusInternalServerError <==>
      req.httpMethod in {"GET", "POST"} && db.fault.Failed?
        && (req.httpMethod == "POST" ==> Validation.Complete(decodeBody(req.body)))
    ensures r.1 != db ==> r.0.statusCode == StatusCreated
    ensures r.0.statusCode == StatusCreated ==>
      && req.httpMethod == "POST"
      && r.1.items == db.items[(DataLayer.TableName, decodeBody(req.body).id) := DataLayer.DeviceItem(decodeBody(req.body))]
  {
    (Dispatch(DatabaseCommunicator(db, decodeItem), req, decodeBody, serialise).0,
     AfterRequest(db, req, decodeBody))
  }

  /** The key prefix seen end to end: into a healthy store with nothing under
      the prefixed id, a POST of a complete device answers 201, and a GET of
      that id right after answers 404. */
  lemma PostedDeviceIsNotFound(db: Db, d: Device, decodeBody: string -> Device, decodeItem: Item -> Device,
                               serialise: Device -> string, body: string)
    requires db.fault.Ok?
    requires (DataLayer.TableName, DataLayer.ReadKey(d.id)) !in db.items
    requires Validation.Complete(d)
    requires decodeBody(body) == d
    ensures Handle(db, Request("POST", body, map[]), decodeBody, decodeItem, serialise).0
      == Response(201, "HTTP 201 Created")
    ensures Handle(Handle(db, Request("POST", body, map[]), decodeBody, decodeItem, serialise).1,
                   Request("GET", "", map["id" := d.id]), decodeBody, decodeItem, serialise).0
      == Response(404, "Not Found")
  {
    var db1 := Handle(db, Request("POST", body, map[]), decodeBody, decodeItem, serialise).1;
    assert db1 == DataLayer.PostToDB(db, d).0;
    DataLayer.PostThenGetSameId(db, d, decodeItem);
  }
}
