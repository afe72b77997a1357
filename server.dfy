/** The two routes behind the origin gate: a denied origin is refused before any route runs. */
module Server {
  import opened Wrappers
  import opened Cors
  import opened UserModel
  import opened Login
  import opened Listing
  import opened Store

  /** What a request gets: the gate's refusal, or the route's own reply. */
  datatype Reply<T> = CorsRejected(message: string) | Routed(body: T)

  /** `POST /login` from `origin`. */
  method PostLogin(store: UserStore, origin: Option<string>, email: Option<string>,
                   password: Option<string>, f: Faults) returns (r: Reply<Response>)
    requires store.Valid()
    modifies store
    ensures store.Valid()
    ensures Decide(origin, ALLOWED_ORIGINS).Deny? ==>
      r == CorsRejected(NOT_ALLOWED) && store.State() == old(store.State())
    ensures Decide(origin, ALLOWED_ORIGINS).Allow? ==>
      r.Routed? && (r.body, store.State()) == Step(old(store.State()), email, password, f)
  {
    if Decide(origin, ALLOWED_ORIGINS).Deny? {
      return CorsRejected(NOT_ALLOWED);
    }
    var resp := store.Login(email, password, f);
    r := Routed(resp);
  }

  /** `GET /users` from `origin`; reads the store and changes nothing. */
  method GetUsers(store: UserStore, origin: Option<string>, storeFails: bool) returns (r: Reply<UsersReply>)
    ensures Decide(origin, ALLOWED_ORIGINS).Deny? <==> r == CorsRejected(NOT_ALLOWED)
    ensures Decide(origin, ALLOWED_ORIGINS).Allow? ==> r == Routed(List(store.State(), storeFails))
  {
    if Decide(origin, ALLOWED_ORIGINS).Deny? {
      return CorsRejected(NOT_ALLOWED);
    }
    r := Routed(List(store.State(), storeFails));
  }

  /** The collection after a `/login` call that met no storage failure. */
  function After(s: Collection, email: string, password: string): Collection
  {
    Step(s, Some(email), Some(password), NO_FAULTS).1
  }

  /** A first login on a well-formed collection appends one account with that email and keeps
      every other email unseen that was unseen before. */
  lemma SignupAppends(s: Collection, email: string, password: string)
    requires Wellformed(s) && email != "" && password != ""
    requires Unseen(s.docs, email)
    ensures var s' := After(s, email, password);
      && Wellformed(s') && |s'.docs| == |s.docs| + 1
      && s'.docs[..|s.docs|] == s.docs && s'.docs[|s.docs|].email == email
      && (forall e :: Unseen(s.docs, e) && e != email ==> Unseen(s'.docs, e))
  {
    var s' := After(s, email, password);
    UnseenEmailCreates(s, email, password);
    StepOnlyAppends(s, Some(email), Some(password), NO_FAULTS);
  }

  /** A first login puts the new account at the head of the listing, ahead of every account
      listed before. */
  lemma SignupListedFirst(s: Collection, email: string, password: string)
    requires Wellformed(s) && email != "" && password != ""
    requires Unseen(s.docs, email)
    ensures var s' := After(s, email, password);
      && |s'.docs| == |s.docs| + 1
      && List(s', false).users == [Redact(s'.docs[|s.docs|])] + List(s, false).users
  {
    var s' := After(s, email, password);
    SignupAppends(s, email, password);
    ListingIsReverseCreation(s);
    ListingIsReverseCreation(s');
    assert Project(s'.docs) == Project(s.docs) + [Redact(s'.docs[|s.docs|])];
    ReverseAppend(Project(s.docs), Redact(s'.docs[|s.docs|]));
  }

  /** First logins for distinct unseen emails A, then B, then C list as C, B, A, ahead of the
      accounts that were there before. */
  lemma CreatedInOrderListedNewestFirst(s0: Collection, a: string, b: string, c: string, pa: string, pb: string, pc: string)
    requires Wellformed(s0)
    requires a != "" && b != "" && c != "" && pa != "" && pb != "" && pc != ""
    requires a != b && b != c && a != c
    requires Unseen(s0.docs, a) && Unseen(s0.docs, b) && Unseen(s0.docs, c)
    ensures var users := List(After(After(After(s0, a, pa), b, pb), c, pc), false).users;
      && |users| == |s0.docs| + 3
      && users[0].email == c && users[1].email == b && users[2].email == a
      && users[3..] == List(s0, false).users
  {
    var s1 := After(s0, a, pa);
    SignupAppends(s0, a, pa);
    SignupListedFirst(s0, a, pa);
    var s2 := After(s1, b, pb);
    SignupAppends(s1, b, pb);
    SignupListedFirst(s1, b, pb);
    SignupAppends(s2, c, pc);
    SignupListedFirst(s2, c, pc);
    ListingIsReverseCreation(s0);
  }
}
