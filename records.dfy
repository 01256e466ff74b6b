/** User records, request bodies and the two lookups the route handlers share:
    the `validateUser` presence check and the first-match scans `find` and
    `findIndex` over the in-memory `users` array. */
module UserRecords {

  datatype Option<+T> = None | Some(value: T)

  /** One entry of the `users` array. */
  datatype User = User(id: string, firstName: string, lastName: string, hobby: string)

  /** The three fields a POST or PUT body is read for; `None` is a field the
      JSON body does not carry (JavaScript `undefined`). */
  datatype Body = Body(firstName: Option<string>, lastName: Option<string>, hobby: Option<string>)

  /** The response a handler sends: 200 with the array, 200 with a record,
      201 with a record, 200 with the deletion message, 404 and 400. */
  datatype Outcome =
    | Listed(users: seq<User>)
    | Ok(user: User)
    | Created(user: User)
    | Deleted
    | NotFound
    | Invalid

  /** JavaScript truthiness of a string-valued field: `undefined` and the
      empty string are falsy, every other string is truthy. */
  predicate Truthy(field: Option<string>)
  {
    field.Some? && field.value != ""
  }

  /** The three values of a body that `validateUser` lets through. */
  datatype Fields = Fields(firstName: string, lastName: string, hobby: string)

  /** `validateUser`: a body is rejected as soon as one of its three fields is
      falsy; otherwise the handler goes on with the three values as given. */
  function ValidateUser(body: Body): (r: Option<Fields>)
    ensures r.None? <==>
      body.firstName in {None, Some("")} ||
      body.lastName in {None, Some("")} ||
      body.hobby in {None, Some("")}
    ensures r.Some? ==>
      body == Body(Some(r.value.firstName), Some(r.value.lastName), Some(r.value.hobby)) &&
      r.value.firstName != "" && r.value.lastName != "" && r.value.hobby != ""
  {
    if !Truthy(body.firstName) || !Truthy(body.lastName) || !Truthy(body.hobby) then
      None
    else
      Some(Fields(body.firstName.value, body.lastName.value, body.hobby.value))
  }

  /** `k` is the position of the first record in `users` whose id is `id`. */
  predicate IsFirstMatch(users: seq<User>, id: string, k: int)
  {
    0 <= k < |users| && users[k].id == id &&
    forall j :: 0 <= j < k ==> users[j].id != id
  }

  /** No record in `users` has id `id`. */
  predicate Absent(users: seq<User>, id: string)
  {
    forall j :: 0 <= j < |users| ==> users[j].id != id
  }

  /** `users.findIndex((user) => user.id === id)`: the index of the first
      match, or -1 when there is none. */
  function FindIndex(users: seq<User>, id: string): (k: int)
    ensures -1 <= k < |users|
    ensures k == -1 <==> Absent(users, id)
    ensures k != -1 ==> IsFirstMatch(users, id, k)
  {
    if users == [] then -1
    else if users[0].id == id then 0
    else
      var rest := FindIndex(users[1..], id);
      if rest == -1 then -1 else rest + 1
  }

  /** `users.find((user) => user.id === id)`: the first matching record, or
      `undefined` (here `None`) when there is none. */
  function Find(users: seq<User>, id: string): (r: Option<User>)
    ensures r.None? <==> Absent(users, id)
    ensures r.Some? ==> exists k :: IsFirstMatch(users, id, k) && r.value == users[k]
  {
    var k := FindIndex(users, id);
    if k == -1 then None else Some(users[k])
  }

  /** Only one position can be the first match. */
  lemma FirstMatchUnique(users: seq<User>, id: string, k: int, k': int)
    requires IsFirstMatch(users, id, k) && IsFirstMatch(users, id, k')
    ensures k == k'
  {
  }

  /** Records in front of every match do not change where the first match is. */
  lemma {:induction false} FindIndexAfterPrefix(front: seq<User>, back: seq<User>, id: string)
    requires Absent(front, id)
    ensures FindIndex(front + back, id) ==
      (if FindIndex(back, id) == -1 then -1 else |front| + FindIndex(back, id))
  {
    var k := FindIndex(back, id);
    var whole := front + back;
    if k == -1 {
      assert Absent(whole, id) by {
        forall j | 0 <= j < |whole| ensures whole[j].id != id {
          if j >= |front| { assert whole[j] == back[j - |front|]; }
        }
      }
    } else {
      assert whole[|front| + k] == back[k];
      assert IsFirstMatch(whole, id, |front| + k) by {
        forall j | 0 <= j < |front| + k ensures whole[j].id != id {
          if j >= |front| { assert whole[j] == back[j - |front|]; }
        }
      }
      FirstMatchUnique(whole, id, FindIndex(whole, id), |front| + k);
    }
  }

  /** The seed data the server starts with; two records share the id "4". */
  function Seed(): (users: seq<User>)
    ensures |users| == 5
    ensures users[3].id == users[4].id == "4"
  {
    [ User("1", "Bruce", "Wayne", "Fighting Criminal"),
      User("2", "Punit", "Panda", "Tea Lover"),
      User("3", "Green", "Goblin", "Troubling spiderman"),
      User("4", "Ankit", "Deepak", "Gamer boy"),
      User("4", "Nirmala", "Sitaraman", "Tax collection") ]
  }
}
