/** The `User` collection as a mutable in-memory store, and the `/login` handler run against it
    step by step, as Backend/server.js does with `findOne` and `create`. */
module Store {
  import opened Wrappers
  import opened UserModel
  import opened Login

  class UserStore {
    /** The documents in insertion order. */
    var docs: seq<UserDoc>
    /** The counter that stamps the next created document. */
    var clock: nat

    function State(): Collection
      reads this
    {
      Collection(docs, clock)
    }

    ghost predicate Valid()
      reads this
    {
      Wellformed(State())
    }

    /** An empty collection. */
    constructor ()
      ensures Valid() && docs == [] && clock == 0
    {
      docs := [];
      clock := 0;
    }

    /** `User.findOne({ email })`: scans the documents in order for the first with that email. */
    method FindOne(email: string) returns (r: Option<nat>)
      ensures r == Find(docs, email)
      ensures r.Some? ==> r.value < |docs| && docs[r.value].email == email
      ensures r.None? ==> Unseen(docs, email)
    {
      var i := 0;
      while i < |docs|
        invariant 0 <= i <= |docs|
        invariant forall k :: 0 <= k < i ==> docs[k].email != email
      {
        if docs[i].email == email {
          return Some(i);
        }
        i := i + 1;
      }
      return None;
    }

    /** `User.create({ email, password })`: validates the required fields, enforces the unique
        index, and appends one stamped document; a refused document leaves the store as it was. */
    method Create(email: string, password: string) returns (r: Option<UserDoc>)
      requires Valid()
      modifies this
      ensures Valid()
      ensures match Insert(old(State()), email, password)
        case Inserted(d, after) => r == Some(d) && State() == after
        case Rejected(_) => r == None && State() == old(State())
    {
      if email == "" || password == "" {
        return None;
      }
      var existing := FindOne(email);
      if existing.Some? {
        return None;
      }
      var d := NextDoc(State(), email, password);
      docs := docs + [d];
      clock := clock + 1;
      r := Some(d);
    }

    /** The `/login` handler: the reply, and the store changed exactly as `Step` says. */
    method Login(email: Option<string>, password: Option<string>, f: Faults) returns (resp: Response)
      requires Valid()
      modifies this
      ensures Valid()
      ensures (resp, State()) == Step(old(State()), email, password, f)
    {
      if !Truthy(email) || !Truthy(password) {
        return BAD_REQUEST;
      }
      if f.findFails {
        return SERVER_ERROR;
      }
      var found := FindOne(email.value);
      var user: UserDoc;
      if found.None? {
        if f.createFails {
          return SERVER_ERROR;
        }
        var created := Create(email.value, password.value);
        if created.None? {
          return SERVER_ERROR;
        }
        user := created.value;
      } else {
        user := docs[found.value];
        if user.password != password.value {
          return INVALID_PASSWORD;
        }
      }
      resp := Success(user);
    }
  }
}
