# User record store

A model of the in-memory user store behind the small Express service in
`index.js`: the module-level `users` array with its five seed records, the
`validateUser` middleware, and what the five route handlers do to the array
(list, get by id, add, update, delete).

The project has three modules:

- `UserRecords` (records.dfy): the `User` record, the request body
  (`Body`, each field an `Option<string>` so that a missing field and an
  empty string are both falsy), the response kinds (`Outcome`: `Listed`,
  `Ok`, `Created`, `Deleted`, `NotFound`, `Invalid` for the 200, 200, 201,
  200-with-message, 404 and 400 responses), `validateUser`, the first-match
  scans `findIndex` (with its -1 sentinel) and `find`, and the seed data.
- `UserRoutes` (routes.dfy): each handler as a function from the array
  before the request to the array after it and the response
  (`ListUsers`, `GetUser`, `AddUser`, `UpdateUser`, `DeleteUser`), the
  properties the handlers promise as lemmas about those functions, and a
  run of requests handled one after another (`Handle`, `Run`).
- `UserStore` (store.dfy): the shared array as a `Store` object whose
  methods change it in place; each handler method is proved to leave the
  array and answer exactly as the matching `UserRoutes` function says.

`AddUser`, `UpdateUser`, `DeleteUser`, `ListUsers`, `Handle` and `Run` carry
no contract of their own; what they do is stated by the lemmas below and
they are the specifications of the `Store` methods.

## Model

| member | source | states |
|---|---|---|
| UserRecords.ValidateUser | index.js:50-58 | a body is rejected exactly when one of firstName, lastName, hobby is missing or empty; otherwise the three values pass through unchanged and are non-empty |
| UserRecords.FindIndex | index.js:105-106 | the result is -1 exactly when no record has the id, and otherwise the index of the first record with that id |
| UserRecords.Find | index.js:68-69 | no result exactly when no record has the id, otherwise the record at the first matching index |
| UserRecords.FindIndexAfterPrefix | index.js:105 | records in front that do not match leave the first match of the rest where it was, shifted by their number |
| UserRecords.Seed | index.js:9-41 | the server starts with five records, the fourth and fifth both with id "4" |
| UserRoutes.GetUser | index.js:66-73 | GET /users/:id leaves the array alone and answers 404 exactly when no record has the id, otherwise 200 with the first record that has it |
| UserRoutes.ReadsLeaveStoreUnchanged | index.js:61-63 | GET /users answers with every record in insertion order, and neither GET changes the array |
| UserRoutes.InvalidBodyRejected | index.js:50-58 | a POST or PUT body with a missing or empty field is answered 400 with the array unchanged, and PUT answers 400 rather than 404 even for an id no record has |
| UserRoutes.InvalidExactlyWhenBodyInvalid | index.js:76 | POST and PUT answer 400 if and only if validateUser rejects the body |
| UserRoutes.AddAppendsOne | index.js:76-86 | a valid POST adds exactly one record at the end with the new id and the given fields, keeps every earlier record in place, and answers 201 with the new record |
| UserRoutes.UpdateRewritesFirstMatch | index.js:89-100 | a valid PUT on a present id overwrites all three non-id fields of the first record with that id, keeps its id, leaves the length and every other record unchanged, and answers 200 with the rewritten record |
| UserRoutes.MissingIdNotFound | index.js:91-94 | a valid PUT, and a DELETE, on an id no record has answer 404 and leave the array exactly as it was |
| UserRoutes.DeleteRemovesFirstMatch | index.js:103-111 | DELETE on a present id removes the first record with that id and only it: one record fewer, the rest in their old order, the multiset of records less exactly that record |
| UserRoutes.DeleteThenGetFindsNextMatch | index.js:105-109 | after a DELETE, a later record with the same id survives and GET of the id answers with the next match |
| UserRoutes.UpdateThenGet | index.js:89-100 | after a PUT that found its record, GET of the same id answers with exactly the new values |
| UserRoutes.AddThenGet | index.js:76-86 | after a POST with an id no record had, GET of that id answers with the created record and GET /users lists it last |
| UserRoutes.AddedRecordShadowed | index.js:68-84 | the new id is not checked for uniqueness: when an earlier record has it, GET of that id still answers with the earlier record |
| UserRoutes.SeedDuplicateFour | index.js:28-39 | with the seed data, GET /users/4 answers with Ankit Deepak, and after DELETE /delete-user/4 with Nirmala Sitaraman |
| UserRoutes.SeedDeleteOne | index.js:10-15 | with the seed data, GET /users/1 answers with Bruce Wayne, DELETE /delete-user/1 succeeds, and GET /users/1 then answers 404 |
| UserRoutes.HandleLength | index.js:84 | one request grows the array by one exactly when it answers 201, shrinks it by one exactly when it reports a deletion, and otherwise keeps its length |
| UserRoutes.RunLength | index.js:84-109 | after any sequence of requests the array's length is its old length plus the successful creates minus the successful deletes |
| UserStore.Store.constructor | index.js:9-41 | the store starts with the seed records |
| UserStore.Store.List | index.js:61-63 | answers with the current array, reading and not changing it |
| UserStore.Store.Get | index.js:66-73 | answers as GetUser does on the current array, reading and not changing it |
| UserStore.Store.Add | index.js:76-86 | pushes onto the array and answers exactly as AddUser says |
| UserStore.Store.Update | index.js:89-100 | rewrites the found record in the array and answers exactly as UpdateUser says |
| UserStore.Store.Delete | index.js:103-111 | splices the found record out of the array and answers exactly as DeleteUser says |
| UserStore.SeedDuplicateScenario | index.js:28-39 | on a fresh store, GET /users/4, DELETE /delete-user/4, GET /users/4 answer with Ankit and then Nirmala |

## Left out

- Express setup, JSON body parsing, routing and path parameters (index.js:1-6): framework plumbing; a request reaches the model as the handler's arguments.
- The request-logging middleware (index.js:44-47): console output only.
- The catch-all 404 and the 500 error handler (index.js:114-122): HTTP fallbacks that never touch the array.
- `app.listen` on port 4000 (index.js:125-127): network I/O.
- `uuidv4()` (index.js:79): a random foreign call; the new id is a parameter of `AddUser` and `Store.Add`, and no uniqueness is assumed (the seed data already repeats "4").
- Body fields that are JSON values other than strings (numbers, booleans, null, objects): each field is modelled as a string or absent; JavaScript truthiness of other values is not modelled.
- Object identity of records: the source mutates the record object that `find` returned; the model stores records as values and replaces the one at the first matching index, which is the same observable array since no other reference to a record outlives a request.
- Concurrency: Node runs each handler to completion, so requests are modelled as applied one after another (`Run`).
