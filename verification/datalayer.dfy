/** The storage adapter: how a device becomes a store item on the way in,
    and how a lookup by id is made on the way out. */
module DataLayer {
  import opened Devices
  import opened DynamoDb

  /** The table both calls address. */
  const TableName := "Devices"

  /** What the adapter puts in front of the id when it reads. */
  const ReadPrefix := "/devices/"

  /** The item written for `d`: one string attribute per field, the key
      attribute carrying the id unmodified. */
  function DeviceItem(d: Device): (item: Item)
    ensures item.Keys == {KeyAttribute, "DeviceModel", "Name", "Note", "Serial"}
    ensures ItemFields(item) == d
  {
    map[KeyAttribute := d.id, "DeviceModel" := d.model, "Name" := d.name, "Note" := d.note, "Serial" := d.serial]
  }

  /** Read a device back from an item by the attribute names `DeviceItem`
      writes, an absent attribute reading as "". This is a reference reader
      that shows the written item loses no field; the decoder the adapter
      itself uses is a parameter of `GetFromDB`. */
  function ItemFields(item: Item): (d: Device)
  {
    Device(Attribute(item, KeyAttribute), Attribute(item, "DeviceModel"), Attribute(item, "Name"),
           Attribute(item, "Note"), Attribute(item, "Serial"))
  }

  /** The string value of attribute `name`, "" when the item lacks it. */
  function Attribute(item: Item, name: string): (value: string)
  {
    if name in item then item[name] else ""
  }

  /** The put request for `d`. */
  function PutRequest(d: Device): (input: PutItemInput)
    ensures KeyAttribute in input.item
  {
    PutItemInput(TableName, DeviceItem(d))
  }

  /** The key the adapter reads for `id`: the prefix, then the id. */
  function ReadKey(id: string): (k: string)
    ensures |k| == |ReadPrefix| + |id|
    ensures k[..|ReadPrefix|] == ReadPrefix
    ensures k[|ReadPrefix|..] == id
    ensures k != id
  {
    ReadPrefix + id
  }

  /** The get request for `id`. */
  function GetRequest(id: string): (input: GetItemInput)
    ensures input.tableName == TableName
    ensures input.key.Keys == {KeyAttribute}
    ensures input.key[KeyAttribute] == ReadKey(id)
  {
    GetItemInput(TableName, map[KeyAttribute := ReadKey(id)])
  }

  /** postToDB: write `d` into the devices table under its raw id, reporting
      exactly the store's error. */
  function PostToDB(db: Db, d: Device): (r: (Db, Outcome))
    ensures r.1 == db.fault
    ensures db.fault.Failed? ==> r.0 == db
    ensures db.fault.Ok? ==>
      && r.0.fault == Ok
      && r.0.items.Keys == db.items.Keys + {(TableName, d.id)}
      && r.0.items[(TableName, d.id)] == DeviceItem(d)
      && forall k :: k in db.items && k != (TableName, d.id) ==> r.0.items[k] == db.items[k]
  {
    PutItem(db, PutRequest(d))
  }

  /** getFromDB: look up the prefixed id in the devices table. A failing
      store yields the zero device with its error; an absent item yields the
      zero device and no error; a present item is turned into a device by
      `decode`, which stands for the attribute-unmarshalling library. */
  function GetFromDB(db: Db, id: string, decode: Item -> Device): (r: (Device, Outcome))
    ensures r.1 == db.fault
    ensures db.fault.Failed? ==> r.0 == Zero
    ensures db.fault.Ok? && (TableName, ReadKey(id)) !in db.items ==> r.0 == Zero
    ensures db.fault.Ok? && (TableName, ReadKey(id)) in db.items ==> r.0 == decode(db.items[(TableName, ReadKey(id))])
  {
    var (item, err) := GetItem(db, GetRequest(id));
    if err.Failed? then (Zero, err)
    else if item.None? then (Zero, Ok)
    else (decode(item.value), Ok)
  }

  /** For the same id, the key a read uses is never the key a write used. */
  lemma ReadKeyIsNeverWriteKey(d: Device)
    ensures GetRequest(d.id).key[KeyAttribute] != PutRequest(d).item[KeyAttribute]
  {
  }

  /** A post leaves every read unchanged unless the read's prefixed key is the
      posted id. */
  lemma GetUnaffectedByPost(db: Db, d: Device, id: string, decode: Item -> Device)
    requires d.id != ReadKey(id)
    ensures GetFromDB(PostToDB(db, d).0, id, decode) == GetFromDB(db, id, decode)
  {
    if db.fault.Ok? {
      ReadYourWrite(db, PutRequest(d), GetRequest(id));
    }
  }

  /** Posting a device and then getting it by the same id does not find what
      was posted: the result is whatever the prefixed key held before. */
  lemma PostThenGetSameId(db: Db, d: Device, decode: Item -> Device)
    ensures GetFromDB(PostToDB(db, d).0, d.id, decode) == GetFromDB(db, d.id, decode)
  {
    GetUnaffectedByPost(db, d, d.id, decode);
  }

  /** Into an empty store, a post followed by a get of the same id yields the
      not-found sentinel: the zero device and no error. */
  lemma PostIntoEmptyThenGetIsNotFound(d: Device, decode: Item -> Device)
    ensures PostToDB(Empty, d).1 == Ok
    ensures GetFromDB(PostToDB(Empty, d).0, d.id, decode) == (Zero, Ok)
  {
    PostThenGetSameId(Empty, d, decode);
  }

  /** A device whose id already carries the prefix is found by the id
      without it. */
  lemma PrefixedIdIsFound(db: Db, d: Device, id: string, decode: Item -> Device)
    requires db.fault.Ok?
    requires d.id == ReadKey(id)
    ensures GetFromDB(PostToDB(db, d).0, id, decode) == (decode(DeviceItem(d)), Ok)
  {
    ReadYourWrite(db, PutRequest(d), GetRequest(id));
  }
}
