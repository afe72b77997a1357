/** The `/login` decision of Backend/server.js, stated on collection values: validate the body,
    look the email up, then create, accept or reject. The store class runs the same steps in place. */
module Login {
  import opened Wrappers
  import opened UserModel

  /** The `user` object of a successful reply: `{ id: user._id, email: user.email }`. */
  datatype UserRef = UserRef(id: nat, email: string)

  /** A reply: HTTP status and the JSON body's `success`, `message` and `user` fields. */
  datatype Response = Response(status: nat, success: bool, message: string, user: Option<UserRef>)

  /** Storage failures the handler can meet: `findOne` or `create` throwing (connectivity, a
      timeout, a failed write). Either lands in the handler's catch. */
  datatype Faults = Faults(findFails: bool, createFails: bool)

  const NO_FAULTS := Faults(false, false)

  const BAD_REQUEST := Response(400, false, "Email and password required", None)
  const INVALID_PASSWORD := Response(401, false, "Invalid password", None)
  const SERVER_ERROR := Response(500, false, "Server error", None)

  /** The 200 reply naming the logged-in account. */
  function Success(d: UserDoc): Response
  {
    Response(200, true, "Login successful", Some(UserRef(d.id, d.email)))
  }

  /** One `/login` call against collection `c`: the reply and the collection afterwards. */
  function Step(c: Collection, email: Option<string>, password: Option<string>, f: Faults): (r: (Response, Collection))
    ensures r.0.status in {200, 400, 401, 500}
    ensures r.0.success <==> r.0.status == 200
    ensures r.0.user.Some? <==> r.0.success
    ensures !r.0.success ==> r.1 == c
    ensures Wellformed(c) ==> Wellformed(r.1) && c.docs <= r.1.docs
    ensures r.1 != c ==> r.0.success && Truthy(email) && Unseen(c.docs, email.value)
  {
    if !Truthy(email) || !Truthy(password) then (BAD_REQUEST, c)
    else if f.findFails then (SERVER_ERROR, c)
    else match Find(c.docs, email.value)
      case Some(i) =>
        if c.docs[i].password != password.value then (INVALID_PASSWORD, c)
        else (Success(c.docs[i]), c)
      case None =>
        if f.createFails then (SERVER_ERROR, c)
        else match Insert(c, email.value, password.value)
          case Rejected(_) => (SERVER_ERROR, c)
          case Inserted(d, after) => (Success(d), after)
  }

  /** A missing or empty field is refused with 400 before the store is consulted. */
  lemma MissingFieldsRejected(c: Collection, email: Option<string>, password: Option<string>, f: Faults)
    requires !Truthy(email) || !Truthy(password)
    ensures Step(c, email, password, f) == (BAD_REQUEST, c)
  {
  }

  /** Every call keeps the collection invariant, and no call alters or removes a stored document:
      the old documents stay a prefix, with at most one appended. Stored passwords in particular
      are never overwritten. */
  lemma StepOnlyAppends(c: Collection, email: Option<string>, password: Option<string>, f: Faults)
    requires Wellformed(c)
    ensures var (_, c') := Step(c, email, password, f);
      && Wellformed(c')
      && c.docs <= c'.docs && |c'.docs| <= |c.docs| + 1
      && c'.clock >= c.clock
  {
  }

  /** First login for an unseen email: one document with that email and password is appended
      under an id no stored document has, and the reply names it. */
  lemma UnseenEmailCreates(c: Collection, email: string, password: string)
    requires Wellformed(c) && email != "" && password != ""
    requires Unseen(c.docs, email)
    ensures var (r, c') := Step(c, Some(email), Some(password), NO_FAULTS);
      && |c'.docs| == |c.docs| + 1 && c'.docs[..|c.docs|] == c.docs
      && c'.docs[|c.docs|].email == email && c'.docs[|c.docs|].password == password
      && (forall i :: 0 <= i < |c.docs| ==> c.docs[i].id != c'.docs[|c.docs|].id)
      && r == Success(c'.docs[|c.docs|])
      && r.user == Some(UserRef(c'.docs[|c.docs|].id, email))
  {
  }

  /** A known email with the stored password: 200 naming that account, collection unchanged. */
  lemma MatchingPasswordAccepted(c: Collection, i: nat, password: string, f: Faults)
    requires Wellformed(c) && i < |c.docs| && !f.findFails
    requires c.docs[i].password == password
    ensures Step(c, Some(c.docs[i].email), Some(password), f) == (Success(c.docs[i]), c)
  {
  }

  /** A known email with another password: 401, collection (and stored password) unchanged. */
  lemma MismatchingPasswordRejected(c: Collection, i: nat, password: string, f: Faults)
    requires Wellformed(c) && i < |c.docs| && !f.findFails && password != ""
    requires c.docs[i].password != password
    ensures Step(c, Some(c.docs[i].email), Some(password), f) == (INVALID_PASSWORD, c)
  {
  }

  /** A `findOne` that throws, or a `create` that throws for an unseen email, lands in the catch:
      500 "Server error", never the 400 or 401 of a bad request, and the collection unchanged. */
  lemma StoreFailureIsServerError(c: Collection, email: Option<string>, password: Option<string>, f: Faults)
    requires Truthy(email) && Truthy(password)
    requires f.findFails || (f.createFails && Unseen(c.docs, email.value))
    ensures Step(c, email, password, f) == (SERVER_ERROR, c)
  {
  }

  /** After any successful call the collection holds exactly one account for that email, and
      it is the one the reply names, with the password just supplied. */
  lemma ExactlyOneAfterSuccess(c: Collection, email: Option<string>, password: Option<string>, f: Faults)
    requires Wellformed(c)
    requires Step(c, email, password, f).0.success
    ensures Truthy(email) && Truthy(password)
    ensures var (r, c') := Step(c, email, password, f);
      && CountEmail(c'.docs, email.value) == 1
      && exists i :: 0 <= i < |c'.docs| && c'.docs[i].email == email.value
                     && c'.docs[i].password == password.value
                     && r == Success(c'.docs[i])
  {
    var (r, c') := Step(c, email, password, f);
    StepOnlyAppends(c, email, password, f);
    var k: nat := match Find(c.docs, email.value) case Some(i) => i case None => |c.docs|;
    assert c'.docs[k].email == email.value;
    UniqueCount(c'.docs, email.value);
  }

  /** Logging in again with the same credentials after a success gives the same reply and
      changes nothing, whatever the first call had to do. */
  lemma RepeatLoginStable(c: Collection, email: Option<string>, password: Option<string>, f1: Faults, f2: Faults)
    requires Wellformed(c) && !f2.findFails
    requires Step(c, email, password, f1).0.success
    ensures var (r1, c1) := Step(c, email, password, f1);
      Step(c1, email, password, f2) == (r1, c1)
  {
    var (r1, c1) := Step(c, email, password, f1);
    ExactlyOneAfterSuccess(c, email, password, f1);
    var i :| 0 <= i < |c1.docs| && c1.docs[i].email == email.value
             && c1.docs[i].password == password.value && r1 == Success(c1.docs[i]);
    StepOnlyAppends(c, email, password, f1);
    MatchingPasswordAccepted(c1, i, password.value, f2);
  }

  /** The whole decision on a well-formed collection, stated without `Step`: success exactly
      when both fields are given, the lookup worked, and either the stored password matches or
      the email is unseen and the create worked. */
  lemma SuccessCharacterised(c: Collection, email: Option<string>, password: Option<string>, f: Faults)
    requires Wellformed(c)
    ensures Step(c, email, password, f).0.success <==>
      && Truthy(email) && Truthy(password) && !f.findFails
      && ((exists i :: 0 <= i < |c.docs| && c.docs[i].email == email.value && c.docs[i].password == password.value)
          || (!f.createFails && Unseen(c.docs, email.value)))
  {
    if Truthy(email) && Truthy(password) && !f.findFails {
      var found := Find(c.docs, email.value);
      if found.Some? {
        forall i | 0 <= i < |c.docs| && c.docs[i].email == email.value
          ensures i == found.value
        {
        }
      }
    }
  }
}
