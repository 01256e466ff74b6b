/** The module-level `users` array as an object that the route handlers share:
    GET reads it, POST pushes onto it, PUT overwrites a record of it and
    DELETE splices a record out of it. Each handler is proved to do exactly
    what the matching function of UserRoutes says. */
module UserStore {
  import opened UserRecords
  import opened UserRoutes

  class Store {
    /** The records, in insertion order. */
    var users: seq<User>

    /** The array as the server starts with it. */
    constructor ()
      ensures users == Seed()
    {
      users := Seed();
    }

    /** GET /users. */
    function List(): (r: Outcome)
      reads this
      ensures r == ListUsers(users).1
    {
      Listed(users)
    }

    /** GET /users/:id. */
    function Get(id: string): (r: Outcome)
      reads this
      ensures r == GetUser(users, id).1
    {
      match Find(users, id)
      case None => NotFound
      case Some(user) => Ok(user)
    }

    /** POST /add-user with `newId` standing for the `uuidv4()` result. */
    method Add(newId: string, body: Body) returns (out: Outcome)
      modifies this
      ensures (users, out) == AddUser(old(users), newId, body)
    {
      var fields := ValidateUser(body);
      if fields.None? {
        return Invalid;
      }
      var user := User(newId, fields.value.firstName, fields.value.lastName, fields.value.hobby);
      users := users + [user];
      out := Created(user);
    }

    /** PUT /update-user/:id: the three assignments to the found record. */
    method Update(id: string, body: Body) returns (out: Outcome)
      modifies this
      ensures (users, out) == UpdateUser(old(users), id, body)
    {
      var fields := ValidateUser(body);
      if fields.None? {
        return Invalid;
      }
      var k := FindIndex(users, id);
      if k == -1 {
        return NotFound;
      }
      var user := users[k];
      user := user.(firstName := fields.value.firstName);
      user := user.(lastName := fields.value.lastName);
      user := user.(hobby := fields.value.hobby);
      users := users[k := user];
      out := Ok(user);
    }

    /** DELETE /delete-user/:id. */
    method Delete(id: string) returns (out: Outcome)
      modifies this
      ensures (users, out) == DeleteUser(old(users), id)
    {
      var k := FindIndex(users, id);
      if k == -1 {
        return NotFound;
      }
      users := users[..k] + users[k + 1..];
      out := Deleted;
    }
  }

  /** The seed's duplicate id through the store object: GET /users/4, then
      DELETE /delete-user/4, then GET /users/4 again. */
  method SeedDuplicateScenario() returns (first: Outcome, second: Outcome)
    ensures first == Ok(User("4", "Ankit", "Deepak", "Gamer boy"))
    ensures second == Ok(User("4", "Nirmala", "Sitaraman", "Tax collection"))
  {
    var store := new Store();
    first := store.Get("4");
    var gone := store.Delete("4");
    second := store.Get("4");
    SeedDuplicateFour();
  }
}
