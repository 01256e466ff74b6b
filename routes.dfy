/** What each route handler does to the store, as a function from the array
    before the request to the array after it and the response sent; and the
    properties the handlers promise, proved about those functions. */
module UserRoutes {
  import opened UserRecords

  /** GET /users: the whole array, as it is. */
  function ListUsers(users: seq<User>): (r: (seq<User>, Outcome))
  {
    (users, Listed(users))
  }

  /** GET /users/:id: the first record with that id, or 404. */
  function GetUser(users: seq<User>, id: string): (r: (seq<User>, Outcome))
    ensures r.0 == users
    ensures r.1.Ok? || r.1.NotFound?
    ensures r.1.NotFound? <==> Absent(users, id)
    ensures r.1.Ok? ==> exists k :: IsFirstMatch(users, id, k) && r.1.user == users[k]
  {
    match Find(users, id)
    case None => (users, NotFound)
    case Some(user) => (users, Ok(user))
  }

  /** POST /add-user: validate, then push a record with the id `newId`
      (the source draws it from `uuidv4()`) and the three given fields. */
  function AddUser(users: seq<User>, newId: string, body: Body): (r: (seq<User>, Outcome))
  {
    match ValidateUser(body)
    case None => (users, Invalid)
    case Some(f) =>
      var user := User(newId, f.firstName, f.lastName, f.hobby);
      (users + [user], Created(user))
  }

  /** PUT /update-user/:id: validate, then find the first match and overwrite
      its three non-id fields. */
  function UpdateUser(users: seq<User>, id: string, body: Body): (r: (seq<User>, Outcome))
  {
    match ValidateUser(body)
    case None => (users, Invalid)
    case Some(f) =>
      var k := FindIndex(users, id);
      if k == -1 then (users, NotFound)
      else
        var user := users[k].(firstName := f.firstName, lastName := f.lastName, hobby := f.hobby);
        (users[k := user], Ok(user))
  }

  /** DELETE /delete-user/:id: `findIndex`, then `splice(userIndex, 1)`. */
  function DeleteUser(users: seq<User>, id: string): (r: (seq<User>, Outcome))
  {
    var k := FindIndex(users, id);
    if k == -1 then (users, NotFound)
    else (users[..k] + users[k + 1..], Deleted)
  }

  // ---------------------------------------------------------------------
  // Properties of the single handlers

  /** GET /users answers with the current array in full and in order, and
      neither GET changes it. */
  lemma ReadsLeaveStoreUnchanged(users: seq<User>, id: string)
    ensures ListUsers(users).1.users == users && ListUsers(users).0 == users
    ensures |ListUsers(users).1.users| == |users|
    ensures forall j :: 0 <= j < |users| ==> ListUsers(users).1.users[j] == users[j]
    ensures GetUser(users, id).0 == users
  {
  }

  /** A body with a missing or empty field is answered 400 by both POST and
      PUT and changes nothing; PUT validates before it looks the id up, so it
      answers 400 and not 404 even when no record has that id. */
  lemma InvalidBodyRejected(users: seq<User>, newId: string, id: string, body: Body)
    requires body.firstName in {None, Some("")} ||
             body.lastName in {None, Some("")} ||
             body.hobby in {None, Some("")}
    ensures AddUser(users, newId, body) == (users, Invalid)
    ensures UpdateUser(users, id, body) == (users, Invalid)
    ensures Absent(users, id) ==> !UpdateUser(users, id, body).1.NotFound?
  {
  }

  /** 400 is answered exactly when the body is invalid. */
  lemma InvalidExactlyWhenBodyInvalid(users: seq<User>, newId: string, id: string, body: Body)
    ensures AddUser(users, newId, body).1.Invalid? <==> ValidateUser(body).None?
    ensures UpdateUser(users, id, body).1.Invalid? <==> ValidateUser(body).None?
  {
  }

  /** A valid POST appends exactly one record, at the end, carrying the new
      id and the three given fields; every earlier record stays where it was. */
  lemma AddAppendsOne(users: seq<User>, newId: string, body: Body, f: Fields)
    requires ValidateUser(body) == Some(f)
    ensures var (after, out) := AddUser(users, newId, body);
      |after| == |users| + 1 &&
      after[..|users|] == users &&
      after[|users|] == User(newId, f.firstName, f.lastName, f.hobby) &&
      out == Created(after[|users|])
  {
  }

  /** A valid PUT on an id that is present rewrites the first record with
      that id, and only it: the id is kept, all three other fields take the
      new values, the length and every other record stay as they were, and
      the response carries the rewritten record. */
  lemma UpdateRewritesFirstMatch(users: seq<User>, id: string, body: Body, f: Fields, k: int)
    requires ValidateUser(body) == Some(f)
    requires IsFirstMatch(users, id, k)
    ensures var (after, out) := UpdateUser(users, id, body);
      |after| == |users| &&
      after[k] == User(id, f.firstName, f.lastName, f.hobby) &&
      (forall j :: 0 <= j < |users| && j != k ==> after[j] == users[j]) &&
      out == Ok(after[k])
  {
  }

  /** PUT and DELETE on an id no record has answer 404 and change nothing. */
  lemma MissingIdNotFound(users: seq<User>, id: string, body: Body)
    requires Absent(users, id)
    requires ValidateUser(body).Some?
    ensures UpdateUser(users, id, body) == (users, NotFound)
    ensures DeleteUser(users, id) == (users, NotFound)
  {
  }

  /** DELETE on an id that is present removes the first record with that id
      and nothing else: one record fewer, the others in their old order, and
      the removed one is gone from the multiset of records exactly once. */
  lemma DeleteRemovesFirstMatch(users: seq<User>, id: string, k: int)
    requires IsFirstMatch(users, id, k)
    ensures var (after, out) := DeleteUser(users, id);
      out == Deleted &&
      |after| == |users| - 1 &&
      (forall j :: 0 <= j < k ==> after[j] == users[j]) &&
      (forall j :: k < j < |users| ==> after[j - 1] == users[j]) &&
      multiset(after) + multiset{users[k]} == multiset(users)
  {
    FirstMatchUnique(users, id, FindIndex(users, id), k);
    assert users == users[..k] + [users[k]] + users[k + 1..];
  }

  /** After DELETE, a later record with the same id survives, and a lookup
      of that id now finds the next match. */
  lemma DeleteThenGetFindsNextMatch(users: seq<User>, id: string, k: int)
    requires IsFirstMatch(users, id, k)
    ensures GetUser(DeleteUser(users, id).0, id).1 == GetUser(users[k + 1..], id).1
  {
    FirstMatchUnique(users, id, FindIndex(users, id), k);
    var front, back := users[..k], users[k + 1..];
    assert Absent(front, id);
    FindIndexAfterPrefix(front, back, id);
    var m := FindIndex(back, id);
    if m != -1 {
      assert (front + back)[|front| + m] == back[m];
    }
  }

  // ---------------------------------------------------------------------
  // Properties that relate two requests

  /** After a valid PUT that found its record, GET of the same id answers
      with exactly the new field values. */
  lemma UpdateThenGet(users: seq<User>, id: string, body: Body)
    requires UpdateUser(users, id, body).1.Ok?
    ensures GetUser(UpdateUser(users, id, body).0, id).1 == UpdateUser(users, id, body).1
  {
    var k := FindIndex(users, id);
    var after := UpdateUser(users, id, body).0;
    assert IsFirstMatch(after, id, k) by {
      assert forall j :: 0 <= j < k ==> after[j] == users[j];
    }
    FirstMatchUnique(after, id, FindIndex(after, id), k);
  }

  /** After a valid POST whose new id no record had, GET of that id answers
      with the created record, and GET /users lists it last. */
  lemma AddThenGet(users: seq<User>, newId: string, body: Body)
    requires ValidateUser(body).Some?
    requires Absent(users, newId)
    ensures var (after, out) := AddUser(users, newId, body);
      GetUser(after, newId).1 == Ok(out.user) &&
      ListUsers(after).1.users == users + [out.user]
  {
    var (after, out) := AddUser(users, newId, body);
    FindIndexAfterPrefix(users, [out.user], newId);
    assert FindIndex([out.user], newId) == 0;
  }

  /** Nothing checks that the new id is unused: when an earlier record has
      it, GET of that id keeps answering with the earlier record. */
  lemma AddedRecordShadowed(users: seq<User>, newId: string, body: Body, k: int)
    requires ValidateUser(body).Some?
    requires IsFirstMatch(users, newId, k)
    ensures GetUser(AddUser(users, newId, body).0, newId).1 == Ok(users[k])
  {
    var after := AddUser(users, newId, body).0;
    assert IsFirstMatch(after, newId, k) by {
      assert forall j :: 0 <= j < |users| ==> after[j] == users[j];
    }
    FirstMatchUnique(after, newId, FindIndex(after, newId), k);
  }

  // ---------------------------------------------------------------------
  // The seed data

  /** The two records with id "4": GET /users/4 answers with the first
      (Ankit); after DELETE /delete-user/4 it answers with the second
      (Nirmala), which the deletion left in place. */
  lemma SeedDuplicateFour()
    ensures GetUser(Seed(), "4").1 == Ok(User("4", "Ankit", "Deepak", "Gamer boy"))
    ensures GetUser(DeleteUser(Seed(), "4").0, "4").1 ==
      Ok(User("4", "Nirmala", "Sitaraman", "Tax collection"))
  {
  }

  /** GET /users/1 answers with Bruce Wayne; after DELETE /delete-user/1 it
      answers 404. */
  lemma SeedDeleteOne()
    ensures GetUser(Seed(), "1").1 == Ok(User("1", "Bruce", "Wayne", "Fighting Criminal"))
    ensures DeleteUser(Seed(), "1").1 == Deleted
    ensures GetUser(DeleteUser(Seed(), "1").0, "1").1 == NotFound
  {
  }

  // ---------------------------------------------------------------------
  // A run of requests

  datatype Request =
    | GetAll
    | GetOne(id: string)
    | Add(newId: string, body: Body)
    | Update(id: string, body: Body)
    | Remove(id: string)

  /** Dispatch of one request to its handler. */
  function Handle(users: seq<User>, req: Request): (seq<User>, Outcome)
  {
    match req
    case GetAll => ListUsers(users)
    case GetOne(id) => GetUser(users, id)
    case Add(newId, body) => AddUser(users, newId, body)
    case Update(id, body) => UpdateUser(users, id, body)
    case Remove(id) => DeleteUser(users, id)
  }

  /** Requests handled one after the other, each to completion: the final
      array and the responses in order. */
  function Run(users: seq<User>, reqs: seq<Request>): (seq<User>, seq<Outcome>)
    decreases |reqs|
  {
    if reqs == [] then (users, [])
    else
      var (next, out) := Handle(users, reqs[0]);
      var (last, outs) := Run(next, reqs[1..]);
      (last, [out] + outs)
  }

  /** How many of `outs` are 201 responses. */
  function CreatedCount(outs: seq<Outcome>): nat
  {
    if outs == [] then 0 else (if outs[0].Created? then 1 else 0) + CreatedCount(outs[1..])
  }

  /** How many of `outs` are successful deletions. */
  function DeletedCount(outs: seq<Outcome>): nat
  {
    if outs == [] then 0 else (if outs[0].Deleted? then 1 else 0) + DeletedCount(outs[1..])
  }

  /** One request grows the array by one exactly when it answers 201, shrinks
      it by one exactly when it answers with the deletion message, and
      leaves its length alone otherwise. */
  lemma HandleLength(users: seq<User>, req: Request)
    ensures var (after, out) := Handle(users, req);
      |after| == |users| + (if out.Created? then 1 else 0) - (if out.Deleted? then 1 else 0)
  {
  }

  /** The length of the array after any run of requests is its length before
      plus the number of successful creates minus the number of successful
      deletes. */
  lemma {:induction false} RunLength(users: seq<User>, reqs: seq<Request>)
    ensures var (after, outs) := Run(users, reqs);
      |after| + DeletedCount(outs) == |users| + CreatedCount(outs)
    decreases |reqs|
  {
    if reqs != [] {
      var (next, out) := Handle(users, reqs[0]);
      HandleLength(users, reqs[0]);
      RunLength(next, reqs[1..]);
      var (last, outs) := Run(next, reqs[1..]);
      assert ([out] + outs)[1..] == outs;
    }
  }
}
