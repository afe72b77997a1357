/** The `/users` route of Backend/server.js: `User.find().select("-password").sort({ createdAt: -1 })`. */
module Listing {
  import opened UserModel

  /** A listed account: the document with its password left out. */
  datatype PublicUser = PublicUser(id: nat, email: string, createdAt: nat, updatedAt: nat)

  /** The route's reply: the array of accounts, or the 500 body on a store failure. */
  datatype UsersReply = UserList(users: seq<PublicUser>) | ListError(status: nat, message: string)

  const LIST_ERROR := ListError(500, "Error fetching users")

  /** `select("-password")` on one document. */
  function Redact(d: UserDoc): PublicUser
  {
    PublicUser(d.id, d.email, d.createdAt, d.updatedAt)
  }

  /** `select("-password")` on every document, in collection order. */
  function Project(docs: seq<UserDoc>): seq<PublicUser>
  {
    seq(|docs|, i requires 0 <= i < |docs| => Redact(docs[i]))
  }

  /** Ordered by `createdAt`, newest first. */
  predicate NewestFirst(s: seq<PublicUser>)
  {
    forall i, j :: 0 <= i < j < |s| ==> s[i].createdAt >= s[j].createdAt
  }

  /** Puts `x` into a newest-first sequence, before the first record no newer than it. */
  function InsertByDate(x: PublicUser, s: seq<PublicUser>): (r: seq<PublicUser>)
    requires NewestFirst(s)
    ensures NewestFirst(r) && multiset(r) == multiset(s) + multiset{x}
  {
    if s == [] then [x]
    else if x.createdAt >= s[0].createdAt then [x] + s
    else
      assert s == [s[0]] + s[1..];
      var rest := InsertByDate(x, s[1..]);
      assert forall y :: y in rest ==> s[0].createdAt >= y.createdAt by {
        forall y | y in rest ensures s[0].createdAt >= y.createdAt {
          assert y in multiset(rest);
        }
      }
      [s[0]] + rest
  }

  /** `sort({ createdAt: -1 })`: a newest-first permutation of its input. */
  function SortNewestFirst(s: seq<PublicUser>): (r: seq<PublicUser>)
    ensures NewestFirst(r) && multiset(r) == multiset(s)
  {
    if s == [] then []
    else
      assert s == [s[0]] + s[1..];
      InsertByDate(s[0], SortNewestFirst(s[1..]))
  }

  /** One `/users` call against collection `c`, or its failure. */
  function List(c: Collection, storeFails: bool): (r: UsersReply)
    ensures storeFails <==> r == LIST_ERROR
    ensures !storeFails ==> r.UserList?
    ensures r.UserList? ==> NewestFirst(r.users) && multiset(r.users) == multiset(Project(c.docs))
  {
    if storeFails then LIST_ERROR else UserList(SortNewestFirst(Project(c.docs)))
  }

  /** The listing holds one record per stored account, with that account's id, email and
      stamps, and no other records. */
  lemma OneRecordPerAccount(c: Collection)
    ensures var users := List(c, false).users;
      && |users| == |c.docs|
      && (forall i :: 0 <= i < |c.docs| ==> Redact(c.docs[i]) in users)
      && (forall u :: u in users ==> exists i :: 0 <= i < |c.docs| && u == Redact(c.docs[i]))
  {
    var users := List(c, false).users;
    var p := Project(c.docs);
    assert |users| == |multiset(users)| == |multiset(p)| == |p|;
    forall i | 0 <= i < |c.docs| ensures Redact(c.docs[i]) in users {
      assert p[i] in multiset(p);
    }
    forall u | u in users ensures exists i :: 0 <= i < |c.docs| && u == Redact(c.docs[i]) {
      assert u in multiset(p);
    }
  }

  function Reverse(s: seq<PublicUser>): (r: seq<PublicUser>)
    ensures |r| == |s|
  {
    if s == [] then [] else Reverse(s[1..]) + [s[0]]
  }

  lemma {:induction false} ReverseAppend(s: seq<PublicUser>, x: PublicUser)
    ensures Reverse(s + [x]) == [x] + Reverse(s)
  {
    if s != [] {
      assert (s + [x])[1..] == s[1..] + [x];
      ReverseAppend(s[1..], x);
    } else {
      assert (s + [x])[1..] == [];
    }
  }

  /** Creation stamps strictly increase along the sequence. */
  predicate OldestFirstStrict(s: seq<PublicUser>)
  {
    forall i, j :: 0 <= i < j < |s| ==> s[i].createdAt < s[j].createdAt
  }

  /** A record older than all others goes last. */
  lemma {:induction false} InsertOldest(x: PublicUser, s: seq<PublicUser>)
    requires NewestFirst(s)
    requires forall y :: y in s ==> x.createdAt < y.createdAt
    ensures InsertByDate(x, s) == s + [x]
  {
    if s != [] {
      InsertOldest(x, s[1..]);
    }
  }

  /** Sorting records that were created in order yields them newest first, i.e. reversed. */
  lemma {:induction false} SortReversesCreationOrder(s: seq<PublicUser>)
    requires OldestFirstStrict(s)
    ensures SortNewestFirst(s) == Reverse(s)
  {
    if s != [] {
      SortReversesCreationOrder(s[1..]);
      var t := SortNewestFirst(s[1..]);
      forall y | y in t ensures s[0].createdAt < y.createdAt {
        assert y in multiset(s[1..]);
      }
      InsertOldest(s[0], t);
    }
  }

  /** On a well-formed collection the listing is its documents, redacted, last created first. */
  lemma ListingIsReverseCreation(c: Collection)
    requires Wellformed(c)
    ensures List(c, false) == UserList(Reverse(Project(c.docs)))
  {
    SortReversesCreationOrder(Project(c.docs));
  }
}
