# Device CRUD lambda — a Dafny model

The system is an AWS Lambda that serves one REST resource, a *device*
(id, model, name, note, serial), through API Gateway. A POST stores a device
in the DynamoDB table `Devices`; a GET fetches one by the `id` path
parameter. This project models its decision logic as pure functions and
proves what those functions promise:

- `Devices` (`devices.dfy`): the `device` record, Go's zero device, and an
  `Outcome` standing for a nil or non-nil Go `error`.
- `Validation` (`validation.dfy`): the field-presence check of `postDevice`.
  The five guarded appends to `emptyField` are modelled as one left fold,
  `Accumulate`, over the display names ID, Model, Name, Note, Serial. The fold
  is related to a reference definition, `Missing` (the names of the empty
  fields) joined by `Join` (each name followed by `", "`).
- `DynamoDb` (`dynamodb.dfy`): the store as an abstract map from
  (table, key-attribute value) to an attribute map, plus a fault flag. While
  the flag is set, every call reports that error and changes nothing.
- `DataLayer` (`datalayer.dfy`): `postToDB` and `getFromDB`. It covers the
  item the put writes, the prefixed key the get reads, and the get's three
  outcomes: error, absent and found.
- `Handler` (`handler.dfy`): `postDevice`, `getDevice` and `httpSpecifier`.
  They are parametrised by a `Communicator`, a pair of functions standing for
  the Go interface of that name.
- `Service` (`service.dfy`): the handlers wired to the data layer over one
  store. A request yields a response and the store it leaves behind.
- `Scenarios` (`scenarios.dfy`): the cases the repository's handler tests
  assert, stated over the model with test doubles built as communicators.

The get path reads the key `"/devices/" + id`, but the put path writes the
key `ID` unprefixed. The model keeps this as the code does. It proves the
consequences: for the same id the two keys never coincide, and a post never
changes what a get of the same id returns. So when the store is healthy, the
device is complete and nothing is stored under `"/devices/" + id`, a POST and
then a GET of the same id answer 201 and then 404. (If an item already sits
under the prefixed key, the GET answers from that item instead.) On a healthy
store, and with reads modelled as seeing the latest write, a device whose id
already carries the prefix is found by the id without it.

## Model

| member | source | states |
|---|---|---|
| Validation.EmptyFieldText | device/main.go:40-56 | the accumulated error-field text is empty exactly when all five fields are non-empty |
| Validation.AccumulateIsListing | device/main.go:40-55 | running the guarded appends from any starting text appends exactly the listing of the empty values' names, in order |
| Validation.EmptyFieldTextIsListing | device/main.go:40-55 | the handler's text equals the listing of the empty fields' display names, each followed by ", " |
| Validation.ListingNamesExactlyEmptyFields | device/main.go:40-55 | the listing holds a display name exactly when that field is empty; it has no repeats and keeps the order ID, Model, Name, Note, Serial |
| Validation.MissingListsExactlyEmpty | device/main.go:40-55 | with distinct names, a name is listed if and only if its value is empty |
| Validation.MissingWithin | device/main.go:40-55 | only names that were checked are ever listed |
| Validation.MissingDistinct | device/main.go:40-55 | with distinct names, no name is listed twice |
| Validation.MissingIsSubsequence | device/main.go:40-55 | the listed names appear in the order the fields are checked |
| Validation.NothingMissing | device/main.go:56 | the listing is empty exactly when no value is empty, so the 400 branch fires exactly on an empty field |
| Validation.AllEmptyListsAll | device/main.go:40-55 | when every field is empty, every name is listed |
| Validation.JoinInjective | device/main.go:59 | two listings of display names with equal text are the same listing |
| Validation.EmptyFieldTextDeterminesFields | device/main.go:40-59 | the error-field text determines exactly which fields were empty |
| Handler.StatusText | device/main.go:72 | "Not Found" for 404, "Method Not Allowed" for 405 and "Internal Server Error" for 500, as in RFC 9110 section 15; the table is restricted to the six statuses the handlers produce and is non-empty exactly for them |
| Handler.PostDevice | device/main.go:33-81 | 400 if and only if some field is empty, with the prefix and the ordered list of empty names as body; 500 if and only if the device is complete and the put fails; 201 "HTTP 201 Created" if and only if it is complete and the put succeeds |
| Handler.InvalidPostIgnoresStorage | device/main.go:56-64 | when validation fails the answer is 400 and is the same whatever the storage would do |
| Handler.ValidPostDependsOnlyOnItsStore | device/main.go:63-80 | a complete device's answer depends only on what storage reports for that very device |
| Handler.BadRequestBodyDeterminesEmptyFields | device/main.go:56-61 | two requests answered with the same 400 had the same empty fields |
| Handler.PathId | device/main.go:87 | the id is the `id` path parameter, or "" when that parameter is missing |
| Handler.GetDevice | device/main.go:84-115 | 500 if and only if storage errs, whatever device comes back; otherwise 404 "Not Found" if and only if the device's id is empty; otherwise 200 with exactly that device serialised |
| Handler.Dispatch | device/main.go:122-135 | "GET" goes to getDevice and "POST" to postDevice with the decoded body; any other string gets 405 "Method Not Allowed"; the error is always nil and every status is one of 200, 201, 400, 404, 405, 500 |
| Handler.MethodMatchIsCaseSensitive | device/main.go:124-133 | lower-case or mixed-case spellings of GET and POST, and other verbs, get 405 |
| DataLayer.DeviceItem | device/dataLayer.go:21-37 | the item has exactly the attributes ID, DeviceModel, Name, Note and Serial, and reading them back yields the device unchanged |
| DataLayer.ReadKey | device/dataLayer.go:52 | the read key is "/devices/" followed by the id, so it is strictly longer than the id and never equal to it |
| DataLayer.GetRequest | device/dataLayer.go:47-55 | the get request addresses table "Devices", names only the key attribute, and gives it the value "/devices/" + id |
| DataLayer.PostToDB | device/dataLayer.go:18-42 | returns exactly the store's error; a failing store is unchanged; otherwise the item for the device sits under ("Devices", raw id) and every other item is as before |
| DataLayer.GetFromDB | device/dataLayer.go:45-69 | returns the store's error; on an error the zero device; with no item under ("Devices", "/devices/" + id) the zero device and no error; otherwise the decoded item |
| DataLayer.ReadKeyIsNeverWriteKey | device/dataLayer.go:22-23 | for a device's own id, the key the get reads differs from the key the put wrote |
| DataLayer.GetUnaffectedByPost | device/dataLayer.go:18-69 | a put changes no get result unless the posted id equals the get's prefixed key |
| DataLayer.PostThenGetSameId | device/dataLayer.go:18-69 | getting by the id just posted returns what the store held before the post |
| DataLayer.PostIntoEmptyThenGetIsNotFound | device/dataLayer.go:58-63 | into an empty store, a put and then a get of the same id yields the zero device and no error |
| DataLayer.PrefixedIdIsFound | device/dataLayer.go:52 | on a healthy store, with reads seeing the latest write, a device posted with id "/devices/" + x is returned decoded, with no error, by getting x |
| Service.DatabaseCommunicator | device/main.go:14-30 | the store-backed communicator reports the store's fault for every put and answers gets as getFromDB does |
| Service.AfterRequest | device/main.go:56-64 | only a POST of a complete device to a healthy store changes the store, and then only the device's raw-id item |
| Service.Handle | device/main.go:122-135 | every answer is one of the six statuses; 500 exactly when a GET, or a POST of a complete device, meets a failing store; a changed store means 201, and a 201 means a POST whose device's item now sits under its raw id with every other item unchanged |
| Service.PostedDeviceIsNotFound | device/main.go:63-106 | over the real adapter, on a healthy store with nothing stored under ("Devices", "/devices/" + id), a POST whose body decodes to a complete device answers 201 and a GET of its id right after answers 404 |
| Scenarios.PostCreated | device/main_test.go:33-42 | a complete device with a succeeding put gets 201 "HTTP 201 Created" |
| Scenarios.PostMissingSerial | device/main_test.go:45-54 | an empty serial gets 400 naming only Serial, though the double's put would fail |
| Scenarios.PostStoreFailure | device/main_test.go:56-65 | a complete device with a failing put gets 500 "Internal Server Error" |
| Scenarios.PostAllEmpty | device/main.go:40-59 | the zero device gets 400 listing all five names in order |
| Scenarios.GetCases | device/main_test.go:78-104 | found gives 200 with the serialised device; an empty device gives 404; a storage error gives 500, as does a missing id parameter here |
| Scenarios.DispatchPostEmptyBody | device/main_test.go:130-137 | a POST with an empty body, decoded to the zero device, is answered 400 with a nil error whatever the store would do |
| Scenarios.UnknownMethod | device/main_test.go:140-147 | method "ERROR" gets 405 "Method Not Allowed" and a nil error |

## Left out

- JSON decoding of the POST body (`json.Unmarshal`) is a function parameter. Its error is discarded by the source, so a malformed body reaches validation as whatever device the decoder yields.
- JSON encoding in getDevice (`json.Marshal`) is an opaque `serialise` parameter. Its escaping is not modelled and its discarded error is not modelled.
- `dynamodbattribute.UnmarshalMap` is an opaque `decode` parameter. How it matches stored names such as "DeviceModel" to struct tags such as "deviceModel" is library behaviour, and so is its discarded error. `DataLayer.ItemFields` is only a reference reader that shows the written item loses no field.
- Reads are modelled as strongly consistent: a get sees the latest put. getFromDB actually issues DynamoDB's default GetItem, which is eventually consistent, so right after a put a real get may still miss that item. `DataLayer.PrefixedIdIsFound` relies on the stronger model. The 404 that follows from the key mismatch does not depend on it.
- DynamoDB itself is an abstract map with one fault flag. Its own request validation is not modelled: missing tables, empty key values and size limits. Neither are the network, retries or the AWS session.
- The global `db` and `handler` values, the region configuration and `main`/`lambda.Start` are not modelled. The handlers take the communicator as a parameter, and `Service` supplies the store-backed one.
- The httpSpecifier GET case in main_test.go (lines 112-127) runs against the live global store and accepts either 500 or 404, so it has no counterpart. The POST case (lines 130-137) is `Scenarios.DispatchPostEmptyBody`.
- Handler.StatusText: gives reason phrases only for the six statuses the handlers produce and "" otherwise; Go's `http.StatusText` covers many more codes, which this service never uses.
