/** An abstract key-value store standing in for the DynamoDB service: items
    are attribute maps stored under (table, key), and a fault flag says
    whether every call currently fails. Only the two calls the storage
    adapter makes are modelled. */
module DynamoDb {
  import opened Devices

  /** A stored item: attribute name to string value (every attribute the
      adapter writes is a string). */
  type Item = map<string, string>

  /** The name of the key attribute of the devices table. */
  const KeyAttribute := "ID"

  /** The store's contents and health. `fault` is the error every call
      reports while the store is failing, `Ok` otherwise. */
  datatype Db = Db(items: map<(string, string), Item>, fault: Outcome)

  datatype PutItemInput = PutItemInput(tableName: string, item: Item)

  datatype GetItemInput = GetItemInput(tableName: string, key: Item)

  /** The store where nothing has been written and nothing fails. */
  const Empty := Db(map[], Ok)

  /** Write `input.item` under its key attribute, replacing any item there;
      a failing store reports its fault and changes nothing. */
  function PutItem(db: Db, input: PutItemInput): (r: (Db, Outcome))
    requires KeyAttribute in input.item
    ensures r.1 == db.fault
    ensures r.0.fault == db.fault
    ensures db.fault.Failed? ==> r.0 == db
    ensures db.fault.Ok? ==>
      var k := (input.tableName, input.item[KeyAttribute]);
      && r.0.items.Keys == db.items.Keys + {k}
      && r.0.items[k] == input.item
      && forall k' :: k' in db.items && k' != k ==> r.0.items[k'] == db.items[k']
  {
    if db.fault.Failed? then (db, db.fault)
    else (db.(items := db.items[(input.tableName, input.item[KeyAttribute]) := input.item]), Ok)
  }

  /** Read the item under the key attribute of `input.key`: `None` when no
      item is stored there; a failing store reports its fault. */
  function GetItem(db: Db, input: GetItemInput): (r: (Option<Item>, Outcome))
    requires KeyAttribute in input.key
    ensures r.1 == db.fault
    ensures db.fault.Failed? ==> r.0 == None
    ensures db.fault.Ok? ==>
      var k := (input.tableName, input.key[KeyAttribute]);
      (r.0.Some? <==> k in db.items) && (r.0.Some? ==> r.0.value == db.items[k])
  {
    if db.fault.Failed? then (None, db.fault)
    else
      var k := (input.tableName, input.key[KeyAttribute]);
      if k in db.items then (Some(db.items[k]), Ok) else (None, Ok)
  }

  /** In this model a read sees the last write to its key and nothing else:
      reads are strongly consistent here, although DynamoDB's default GetItem
      is only eventually consistent. */
  lemma ReadYourWrite(db: Db, put: PutItemInput, get: GetItemInput)
    requires KeyAttribute in put.item && KeyAttribute in get.key
    requires db.fault.Ok?
    ensures GetItem(PutItem(db, put).0, get).0 ==
      if (get.tableName, get.key[KeyAttribute]) == (put.tableName, put.item[KeyAttribute])
      then Some(put.item)
      else GetItem(db, get).0
  {
  }
}
