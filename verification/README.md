# Resource repository of mysql-resources-db-go-service

This is a model of the resource repository of the service. A *resource* has a UUID, an integer
category and a content map from string keys to string values. The key `location` holds the
resource's own file location. Every other key must be the UUID of a *child resource*, and its value
is that child's location.

The service stores resources in a MySQL table `resources(id, category, content, created_at)` and
reads categories from a `categories` table. Three layers reach that table:

- `storage`, the current implementation, built on `sqlx.DB`;
- `dbcontrollers` together with `mysqldb`, the older controller path, where `mysqldb` issues the
  SQL statements;
- `service`, which calls `storage` and tags each error with the HTTP status the REST layer answers
  with.

## Modules

- `Errors` holds the error values and their messages. `RollbackError` is the error that
  `rollbackWithErrorStack` returns.
- `Uuids` holds 16-byte UUIDs, their canonical text `Format`, `Parse` (Go's `uuid.Parse`), which
  accepts the 36-character hyphenated form in either case, and `UuidToBin` (MySQL's
  `UUID_TO_BIN`), which also accepts that form in braces and the 32 digits without hyphens.
- `Models` holds `Resource` and `Category`, and the `ContentMap` column codec (`Value` and `Scan`)
  over a symbolic JSON value. It also holds `NewResource`, `GetField`, `SetField` and `ClearAsset`.
- `Tables` is the `resources` table, a sequence of rows in insertion order. Each row carries an
  explicit `created` stamp. It has the effect of each SQL statement: `INSERT` with its primary-key
  check, `UPDATE` reporting *changed* rows, `DELETE` by `UUID_TO_BIN` of a text id, and
  `SELECT … ORDER BY created_at DESC`.
- `Database.Db` is the database connection, as a class. It holds:
  - the committed table;
  - the table of the open write transaction;
  - whether a transaction is open;
  - the categories.

  Its `Begin`, `Commit` and `Rollback` fail as a `Faults` parameter says. A `Faults` value is a
  per-call choice of which driver calls fail, and with what message.
- `Repository` gives the reference semantics of each repository operation as a pure function.
  These are `Add`, `Update`, `Delete`, `GetResource`, `ListResources` and `AllCategories`, plus the
  child loops `InsertChildren` and `DeleteChildren`. They cover both code paths: `StoragePath` and
  `ControllerPath` differ only in how the content column is decoded, and in whether a bad child
  key is rolled back.
- `Storage.MySQL` (storage/*.go), `MySqlDb.Functions` with `MySqlDb.Connector`
  (mysqldb/*.go) and `DbControllers.Controller` (dbcontrollers/resources.go) are classes. Their
  methods run the Go code's steps against the `Db` object, loops included. Each method is proved
  to leave exactly the table and outcome that the `Repository` function gives.
- `Properties` holds what the operations promise. It covers:
  - what `Add` appends;
  - that `Add` then `GetResource` returns the resource;
  - duplicates;
  - what `Update` changes, and when it answers not found;
  - what `Delete` removes, and deleting twice;
  - the order and contents of lists.
- `Service` models service/resources.go: the status tagging.

Go's map iteration order is a parameter `keys` that lists the content keys once each (`IsOrder`).
An `Outcome` records two things:
- the result;
- whether the code returned while its transaction was still open.

One behaviour follows from the code and differs from what the operation's name suggests.
`UPDATE` reports changed rows, so updating a resource with its current category and content
affects no row. storage/functions.go:58-60 then returns `ErrResourcesMissing`, which
storage/resources.go:148-149 turns into not found. `Properties.UpdateUnchangedIsNotFound` proves
this; the model follows the code here.

## Model

| member | source | states |
|---|---|---|
| Errors.RollbackError | storage/functions.go:16-22 | with no rollback failure the original error is returned; otherwise a new error whose message contains both the original message and the rollback failure, and so differs from the original |
| Errors.DuplicateSurvivesRollback | storage/resources.go:44-49 | a duplicate-key driver error still contains "Duplicate entry" after rollbackWithErrorStack, whether or not the rollback failed, so AddResource's substring test still recognises it |
| Uuids.Parse | models/resources.go:80-84 | accepts only hyphenated 36-character text; every rejection is the invalid-UUID error |
| Uuids.Format | storage/resources.go:174 | the text a UUID is formatted to is in the hyphenated form |
| Uuids.ParseFormat | storage/resources.go:174 | parsing the formatted text of a UUID gives back that UUID |
| Uuids.UuidToBin | storage/functions.go:96-99 | accepts everything Parse accepts, with the same value; anything else it accepts is 32 bare digits or the hyphenated form in braces |
| Uuids.UuidToBinFormat | storage/functions.go:96-99 | UUID_TO_BIN of the canonical text of a UUID is that UUID |
| Uuids.UuidToBinBraced | mysqldb/resources.go:90 | UUID_TO_BIN reads the braced canonical text, which Parse refuses |
| Uuids.UuidToBinBare | mysqldb/resources.go:90 | UUID_TO_BIN reads the 32 digits without hyphens, which Parse refuses |
| Uuids.UnhexHex | models/resources.go:81 | decoding the hex text of any byte sequence gives back those bytes |
| Models.Marshal | models/resources.go:47 | unmarshalling what was marshalled gives back the same map |
| Models.Unmarshal | models/resources.go:35-38 | fails exactly on malformed JSON |
| Models.Value | models/resources.go:43-52 | an empty map is stored as NULL; any other map as JSON bytes that unmarshal to it |
| Models.Scanned | models/resources.go:23-41 | NULL leaves the map as it was; bytes give their unmarshalled map; any other column type is the incompatible-type error |
| Models.ScanValueRoundTrip | models/resources.go:23-52 | scanning the column value of any content map gives back that map, the empty map included |
| Models.ContentMapRef.Scan | models/resources.go:23-41 | the receiver's map is replaced exactly when Scanned succeeds, and kept on error |
| Models.NewResource | models/resources.go:80-96 | succeeds iff the id text parses; the resource has that id and category and content exactly {location: value} |
| Models.LocationIsNotAUuid | models/resources.go:80-84 | the key "location" never becomes a child resource: NewResource of it fails |
| Models.GetField | models/resources.go:64-70 | the stored value when the key is present, the default otherwise |
| Models.SetField | models/resources.go:60-62 | the map gains or overwrites exactly that key; all other keys are unchanged |
| Models.ClearAsset | models/resources.go:72-78 | fails with unknown content reference iff the key is absent; the key is removed and nothing else |
| Tables.Find | storage/functions.go:65-69 | finds a row with the given id exactly when one exists |
| Tables.FindUnique | storage/functions.go:65-69 | in a valid table, the row found for an id is the only row with that id |
| Tables.InsertRow | storage/functions.go:24-29 | fails with the duplicate-entry error iff the id is taken; otherwise appends one row stamped with the clock and keeps the table valid |
| Tables.UpdateRow | storage/functions.go:41-45 | sets category and content of the row with that id; reports one affected row iff such a row exists and differs from the new values, else changes nothing |
| Tables.DeleteRow | storage/functions.go:96-99 | text UUID_TO_BIN refuses is the incorrect-string-value error; otherwise removes the row with the id UUID_TO_BIN reads, one affected row iff it existed |
| Tables.Remove | storage/functions.go:96-99 | keeps exactly the rows with other ids |
| Tables.RemoveValid | storage/functions.go:96-99 | removing rows keeps ids distinct and stamps increasing |
| Tables.Select | storage/functions.go:156-161 | keeps exactly the rows matching the filter |
| Tables.SelectNewestFirst | storage/functions.go:156-161 | the selection from a valid table is ordered newest first |
| Database.FirstMatching | storage/functions.go:194-236 | a category with that name (or id) when one exists, none iff no category has it |
| Database.Db.Begin | storage/resources.go:24-27 | a failed begin leaves no transaction open; a successful one opens a transaction on the committed table |
| Database.Db.Commit | mysqldb/mysqldb.go:26-28 | the transaction's table becomes the committed one unless the commit fails, and the transaction is closed either way |
| Database.Db.Rollback | mysqldb/mysqldb.go:30-32 | the committed table is kept and the transaction is closed |
| Database.Db.Insert | storage/functions.go:31-39 | the transaction's table changes as InsertRow says, and only on success |
| Database.Db.Update | storage/functions.go:47-53 | the transaction's table and the affected count are those of UpdateRow |
| Database.Db.Delete | storage/functions.go:101-110 | the transaction's table and the affected count are those of DeleteRow |
| Repository.Decode | models/resources.go:23-41 | the storage path scans the column; the controller path needs JSON bytes holding an object, and NULL is invalid JSON |
| Repository.Encode | models/resources.go:43-52 | decoding what was encoded gives back the map on both paths |
| Repository.ToResource | storage/functions.go:137-138 | a row becomes the resource with its id, category and decoded content, or the decoding error |
| Repository.AsAlreadyExists | storage/resources.go:44-48 | the error becomes already-exists iff its message contains "Duplicate entry" (or it already was already-exists); every other error passes through unchanged |
| Repository.AsNotFound | storage/resources.go:147-151 | the error becomes not found iff it is ErrResourcesMissing (or already was not found); every other error passes through unchanged |
| Repository.InsertStep | storage/functions.go:31-39 | succeeds iff the id is free, appending the encoded row; a failure is recognised as already exists |
| Repository.UpdateStep | storage/functions.go:47-63 | fails iff UpdateRow changes no row, with ResourcesMissing after rollback; otherwise the table UpdateRow gives |
| Repository.DeleteStep | storage/functions.go:101-116 | succeeds iff UUID_TO_BIN reads the text as an id present in the table, removing it; otherwise ResourcesMissing, or the driver's incorrect-string-value error, after rollback |
| Repository.CategoryNamed | storage/functions.go:196-219 | a failed begin is its error; otherwise no-rows iff no category has the name; success returns a category with that name |
| Repository.CategoryWithID | storage/functions.go:226-249 | a failed begin is its error; otherwise no-rows iff no category has the id; success returns a category with that id |
| Repository.ResourceRow | storage/functions.go:71-94 | no-rows iff the id is absent; success returns the decoded row with that id |
| Repository.GetResource | storage/resources.go:97-107 | not found iff the id is absent; otherwise the row read, other errors unchanged |
| Repository.DecodeRows | storage/functions.go:135-143 | succeeds iff every row decodes, giving one resource per row in row order; a failure is a decoding error |
| Repository.ScanStart | storage/functions.go:135 | a scan with nothing decoded yet agrees with decoding all rows |
| Repository.ScanNext | storage/functions.go:136-142 | decoding one more row either extends the prefix or is the error of decoding all rows |
| Repository.ScanEnd | storage/functions.go:144-153 | a scan that has decoded every row has the result of decoding all rows |
| Repository.ScanRows | storage/functions.go:135-153 | no-rows iff there are no rows; otherwise the decoded rows, or the decoding error after rollback |
| Repository.ListResources | storage/resources.go:63-95 | not found, with the transaction left open, iff the selection is empty; a begin error and every scan error other than no-rows come back unchanged; a non-empty decodable selection is returned when the commit succeeds and the commit error otherwise |
| Repository.AllCategories | storage/functions.go:256-290 | succeeds iff begin succeeds and there is a category, returning all of them with the transaction left open |
| Repository.Finish | storage/resources.go:60 | success iff the commit succeeds; the table is the new one on success and the old one otherwise |
| Repository.InsertChildren | storage/resources.go:38-51 | the child loop only appends rows and keeps the table valid; a stop is an error, and is left open only for an unparsable key on the storage path |
| Repository.InsertChildrenNext | storage/resources.go:38-51 | one iteration: a skipped key continues, a non-UUID key stops (rolled back iff requested), and an insert either stops as already exists or continues on the grown table |
| Repository.Add | storage/resources.go:22-61 | a failure leaves the committed table unchanged; success needs begin, the category lookup and commit, and at most MaxContentItems entries; over the cap it returns too many attachments with the transaction open |
| Repository.AddAfterStop | storage/resources.go:38-51 | when the child loop stops, Add returns its outcome and keeps the table |
| Repository.AddAfterContinue | storage/resources.go:53-60 | after the child loop Add inserts the parent and commits, or answers already exists |
| Repository.Update | storage/resources.go:109-155 | a failure keeps the table; success needs an existing row, a successful resource lookup, category lookup and commit; over the cap and missing rows are rolled-back errors; a failed resource lookup returns its error with the transaction left open; a failed category lookup, under its own faults, is rolled back with its error |
| Repository.UpdateCategoryFails | storage/resources.go:127-130 | once the stored resource was read, a failed category lookup, under its own faults, ends Update rolled back with that lookup's error and keeps the table |
| Repository.UpdateAfterStop | storage/resources.go:132-145 | when the child loop stops, Update returns its outcome and keeps the table |
| Repository.UpdateAfterContinue | storage/resources.go:147-154 | after the child loop Update updates the parent row and commits, or answers not found |
| Repository.DeleteChildren | storage/resources.go:163-172 | a stop is an error with the transaction closed; continuing keeps the table valid and the clock unchanged |
| Repository.DeleteChildrenNext | storage/resources.go:163-172 | one iteration: "location" is skipped, a failed delete stops with not found, a successful one continues on the smaller table |
| Repository.DeleteChildrenShrinks | storage/resources.go:163-172 | the child loop only removes ids |
| Repository.Delete | storage/resources.go:157-182 | never leaves the transaction open; a failure keeps the table; success removes the resource's id, which was present |
| Repository.DeleteAfterStop | storage/resources.go:163-172 | when the child loop stops, Delete returns its outcome and keeps the table |
| Repository.DeleteAfterContinue | storage/resources.go:174-181 | after the child loop Delete removes the parent and commits, or answers not found |
| Storage.Repeat | storage/functions.go:121 | n copies of the fragment: n times its length |
| Storage.IdsQuery | storage/functions.go:118-121 | the query for n ids has exactly n placeholders; for one id it is GetResourcesByIDsQuery closed by the ORDER BY |
| Storage.IdsQueryPlaceholders | storage/functions.go:118-121 | the query built for n ids has exactly n placeholders, one per bound argument |
| Storage.PlaceholdersRepeat | storage/functions.go:121 | repeating a fragment n times repeats its placeholders n times |
| Storage.MySQL.RollbackWithErrorStack | storage/functions.go:16-22 | closes the transaction, keeps the committed table, and returns RollbackError of the error |
| Storage.MySQL.InsertResource | storage/functions.go:31-39 | the transaction's table and the error are those of InsertStep |
| Storage.MySQL.UpdateResourceRow | storage/functions.go:47-63 | the transaction's table and the error are those of UpdateStep |
| Storage.MySQL.DeleteResourceRow | storage/functions.go:101-116 | the transaction's table and the error are those of DeleteStep |
| Storage.MySQL.QueryResourceByID | storage/functions.go:71-94 | returns ResourceRow of the committed table |
| Storage.MySQL.ScanResource | storage/functions.go:137-138 | scanning one row gives ToResource of it |
| Storage.MySQL.ScanLoop | storage/functions.go:135-143 | the scan loop returns DecodeRows of the rows |
| Storage.MySQL.ScanResources | storage/functions.go:135-153 | returns ScanRows of the rows |
| Storage.MySQL.QueryResourcesByIDs | storage/functions.go:120-154 | returns ScanRows of the committed rows with those ids, newest first; the query it builds has one placeholder per id |
| Storage.MySQL.QueryResourcesByCategory | storage/functions.go:163-192 | returns ScanRows of the committed rows of that category, newest first |
| Storage.MySQL.QueryCategoryByName | storage/functions.go:196-219 | returns CategoryNamed |
| Storage.MySQL.GetCategoryByID | storage/functions.go:226-249 | returns CategoryWithID |
| Storage.MySQL.QueryCategories | storage/functions.go:256-290 | returns AllCategories |
| Storage.MySQL.InsertChildResource | storage/resources.go:39-50 | one iteration of the child loop advances InsertChildren by one key or stops with its outcome |
| Storage.MySQL.InsertChildResources | storage/resources.go:38-51 | the loop ends with the table InsertChildren gives, or stops with its outcome |
| Storage.MySQL.AddResource | storage/resources.go:22-61 | the outcome and committed table are those of Repository.Add |
| Storage.MySQL.GetResourcesByCategory | storage/resources.go:63-78 | returns ListResources by category |
| Storage.MySQL.GetResourcesByIDs | storage/resources.go:80-95 | returns ListResources by ids |
| Storage.MySQL.GetResourceByID | storage/resources.go:97-107 | returns GetResource |
| Storage.MySQL.UpdateResource | storage/resources.go:109-155 | the outcome and committed table are those of Repository.Update, the resource lookup and the category lookup each under faults of their own |
| Storage.MySQL.DeleteChildResource | storage/resources.go:164-170 | one iteration of the child loop advances DeleteChildren by one key or stops with its outcome |
| Storage.MySQL.DeleteChildResources | storage/resources.go:163-172 | the loop ends with the table DeleteChildren gives, or stops with its outcome |
| Storage.MySQL.DeleteResource | storage/resources.go:157-182 | the outcome and committed table are those of Repository.Delete |
| Storage.MySQL.GetCategories | storage/resources.go:184-191 | returns AllCategories |
| MySqlDb.Connector.ConnectSystem | mysqldb/mysqldb.go:72-86 | a transaction is open on the committed table iff begin succeeds |
| MySqlDb.Connector.Commit | mysqldb/mysqldb.go:26-28 | the transaction's table is committed unless the commit fails |
| MySqlDb.RollbackWithErrorStack | mysqldb/mysqldb.go:64-70 | closes the transaction and returns RollbackError of the error |
| MySqlDb.ScanBytes | mysqldb/resources.go:70-85 | a column scanned into bytes and unmarshalled decodes as the controller path says |
| MySqlDb.Functions.AddResource | mysqldb/resources.go:17-31 | the transaction's table and the error are those of InsertStep on the controller path |
| MySqlDb.Functions.UpdateResource | mysqldb/resources.go:35-56 | the transaction's table and the error are those of UpdateStep |
| MySqlDb.Functions.DeleteResource | mysqldb/resources.go:92-107 | the transaction's table and the error are those of DeleteStep |
| MySqlDb.Functions.GetResourceByID | mysqldb/resources.go:60-88 | returns ResourceRow on the controller path |
| MySqlDb.Functions.ScanLoop | mysqldb/resources.go:124-141 | the scan loop returns DecodeRows on the controller path |
| MySqlDb.Functions.ScanResources | mysqldb/resources.go:124-146 | returns ScanRows on the controller path |
| MySqlDb.Functions.GetResourcesByIDs | mysqldb/resources.go:111-147 | returns ScanRows of the committed rows with those ids |
| MySqlDb.Functions.GetResourcesByCategory | mysqldb/resources.go:151-182 | returns ScanRows of the committed rows of that category |
| MySqlDb.Functions.GetCategoryByName | mysqldb/resources.go:186-209 | returns CategoryNamed |
| MySqlDb.Functions.GetCategoryByID | mysqldb/resources.go:213-236 | returns CategoryWithID |
| MySqlDb.Functions.GetCategories | mysqldb/resources.go:240-272 | returns AllCategories |
| DbControllers.Controller.InsertChildResource | dbcontrollers/resources.go:38-49 | one iteration of the child loop advances InsertChildren by one key or stops with its outcome |
| DbControllers.Controller.InsertChildResources | dbcontrollers/resources.go:37-50 | the loop ends with the table InsertChildren gives, or stops with its outcome |
| DbControllers.Controller.AddResource | dbcontrollers/resources.go:22-60 | the outcome and committed table are those of Repository.Add on the controller path |
| DbControllers.Controller.GetResourcesByCategory | dbcontrollers/resources.go:62-77 | returns ListResources by category |
| DbControllers.Controller.GetResourcesByIDs | dbcontrollers/resources.go:79-94 | returns ListResources by ids |
| DbControllers.Controller.GetResourceByID | dbcontrollers/resources.go:96-106 | returns GetResource |
| DbControllers.Controller.UpdateResource | dbcontrollers/resources.go:108-154 | the outcome and committed table are those of Repository.Update, the resource lookup and the category lookup each under faults of their own |
| DbControllers.Controller.DeleteChildResource | dbcontrollers/resources.go:163-170 | one iteration of the child loop advances DeleteChildren by one key or stops with its outcome |
| DbControllers.Controller.DeleteChildResources | dbcontrollers/resources.go:162-171 | the loop ends with the table DeleteChildren gives, or stops with its outcome |
| DbControllers.Controller.DeleteResource | dbcontrollers/resources.go:156-181 | the outcome and committed table are those of Repository.Delete |
| DbControllers.Controller.GetCategories | dbcontrollers/resources.go:183-190 | returns AllCategories |
| Properties.ChildRows | storage/resources.go:38-51 | the child rows a content map asks for: one per non-skipped key, none if a key is not a UUID |
| Properties.InsertChildrenEffect | storage/resources.go:38-51 | the child loop continues iff every non-skipped key is a UUID and their ids are fresh and pairwise distinct; it then appends exactly those child rows |
| Properties.ChildRowsCover | storage/resources.go:39-44 | every non-skipped key has a child row with its id, the category and content {location: value} |
| Properties.ChildRowsNeedUuids | storage/resources.go:40-43 | a non-skipped key that is not a UUID means there are no child rows |
| Properties.InsertChildrenStopsOnDuplicate | storage/resources.go:44-48 | when every key parses, the only way the loop stops is already exists |
| Properties.InsertChildrenAllSkipped | storage/resources.go:132-133 | when every key is skipped, the loop changes nothing |
| Properties.AddEffect | storage/resources.go:22-61 | past the checks, Add succeeds iff the child rows exist with fresh distinct ids, the parent id is free after them and the commit succeeds; the table then has the child rows and then the parent appended |
| Properties.AddStoresChildren | storage/resources.go:38-51 | after a successful Add every content key other than location is a UUID stored as a child row with the content category and its location |
| Properties.AddDuplicate | storage/resources.go:53-58 | adding a resource whose id is taken answers already exists and keeps the table |
| Properties.AddThenGet | storage/resources.go:22-107 | after a successful Add, reading the resource back returns it, and the service answers success |
| Properties.UpdateEffect | storage/resources.go:132-154 | past the checks, Update appends the new child rows, then changes the parent row, then commits; it fails iff one of these fails |
| Properties.UpdateAddingLocationFails | storage/resources.go:132-137 | adding a location key to a resource stored without one fails and keeps the table |
| Properties.UpdateUnchangedIsNotFound | storage/functions.go:58-60 | updating a resource with the category and content it already has answers not found (202) and changes nothing |
| Properties.UpdateMissing | storage/resources.go:119-123 | updating an absent id answers not found (202), or a 500 if the rollback failed, and changes nothing |
| Properties.DeleteChildrenEffect | storage/resources.go:163-172 | the child loop continues iff every key other than location names a distinct present row; it removes exactly those rows |
| Properties.DeleteEffect | storage/resources.go:157-182 | Delete succeeds iff the child ids are present and distinct, the parent is present and not among them, and the commit succeeds; it removes exactly the children and the parent |
| Properties.DeleteChildrenStopsNotFound | storage/resources.go:165-168 | when the keys parse and rollback works, the loop stops only with not found |
| Properties.DeleteMissing | storage/resources.go:174-178 | deleting an absent resource answers not found and keeps the table |
| Properties.DeleteTwice | storage/resources.go:157-182 | a second delete of the same resource answers not found |
| Properties.DeleteThenGet | service/resources.go:53-69 | after a successful delete the resource reads as not found and the service's delete answers success |
| Properties.ListContents | storage/functions.go:135-153 | a listing has one resource per selected row, newest first, with distinct ids, and selects exactly the matching rows |
| Properties.ListNothingIsAccepted | storage/resources.go:69-73 | an empty selection is not found, answered 202 |
| Service.StatusOf | service/resources.go:31-34 | 202 iff the error's message is the not-found message, 500 otherwise |
| Service.Lookup | service/resources.go:82-106 | a successful read is passed through; an error is tagged by StatusOf |
| Service.UpdateResource | service/resources.go:40-51 | success iff storage succeeded; an error is 202 iff it reads as not found |
| Service.AddResource | service/resources.go:17-24 | returns the input resource on success; any error is wrapped with "mysql error" and answered 500 |
| Service.DeleteResource | service/resources.go:53-69 | a delete error is tagged by StatusOf; after a delete, only a re-read error other than not found fails the call, with 500 |
| Service.GetCategories | service/resources.go:71-80 | every error is answered 500 |
| Service.FailedRollbackIsInternal | service/resources.go:44-47 | a not found whose rollback failed no longer reads as not found and is answered 500 |

## Left out

- Connection handling is left out: `sql.Open`, `db.Close`, the `sqlx` pool, migrations
  (`BootstrapSystem`), configuration and logging. `Begin`, `Commit` and `Rollback` fail only
  through the `Faults` parameter.
- Errors of `tx.Exec` and `tx.Query` other than the table's own duplicate-key and `UUID_TO_BIN`
  errors are left out: network loss, timeouts, `rows.Err()` and `RowsAffected()` errors. So are
  the `defer rows.Close()` calls.
- Concurrency and transaction isolation are left out. The nested read-only transactions of
  `getResourceByID` and `getCategoryByName` read the committed table, each with faults of its
  own (`lookup` in `Add`; `rowLookup` and `categoryLookup` in `Update`); the open write transaction has not written anything at that point.
- JSON is symbolic: a column holds an object (a string map), malformed text, or NULL. Byte-level
  JSON syntax is not modelled. `json.Marshal` of a string map cannot fail, so that error path is
  left out.
- Uuids.Parse: does not accept the other forms `uuid.Parse` accepts: `urn:uuid:` text, braces,
  and 32 hex digits without hyphens. So a child key in one of those forms is refused by
  `NewResource` here, where Go would store the child. In particular the model cannot reach the Go
  state in which a `urn:uuid:` child key has been stored and every later delete of that resource
  fails in `UUID_TO_BIN`, which refuses that form.
- `errors.WithStack` and `errors.Wrap` keep the message. The model drops the stack, so an error
  identity comparison such as `err == sql.ErrNoRows` is modelled as equality of the error value.
- The categories table is a read-only sequence. The order in which categories are returned is the
  sequence order.
- Storage.MySQL.QueryResourcesByIDs, Storage.MySQL.GetResourcesByIDs, MySqlDb.Functions.GetResourcesByIDs
  and DbControllers.Controller.GetResourcesByIDs: require at least one id. The source panics on an
  empty list, because `strings.Repeat` is given a count of -1 (storage/functions.go:121,
  mysqldb/resources.go:112).
- Models.SetField: Go's nil `ContentMap` is modelled as the empty map. Go panics when `SetField`
  assigns into a nil map, which is what `Resource{}.Content` still is after a storage-path `Scan`
  of NULL; the model's `SetField` succeeds on every map and does not capture that panic.
- The copy of the ids into `interfaceList` (storage/functions.go:122-125) is not modelled. It is a
  type conversion only.
- Service.DeleteResource: calls storage's `DeleteResource` with an id and a content map, which
  does not match storage's signature of one `*models.Resource`. The service is therefore modelled
  on the two storage results it combines: the delete's error and the re-read.
- Service.Lookup and Service.UpdateResource do not attach `myerrors.WithFields`. They return the
  status next to the unchanged error.
