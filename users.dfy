/** The `User` collection of Backend/server.js as a value: its documents in insertion order,
    the schema's constraints on them, and the collection's own operations (findOne, create). */
module UserModel {
  import opened Wrappers

  /** One stored account. `id` stands for `_id`; the two stamps come from `timestamps: true`. */
  datatype UserDoc = UserDoc(id: nat, email: string, password: string, createdAt: nat, updatedAt: nat)

  /** The collection's documents in insertion order, and the store's counter, which supplies
      ids and creation stamps and only ever grows. */
  datatype Collection = Collection(docs: seq<UserDoc>, clock: nat)

  /** The unique index on `email`: no two documents share one. */
  predicate EmailsUnique(docs: seq<UserDoc>)
  {
    forall i, j :: 0 <= i < j < |docs| ==> docs[i].email != docs[j].email
  }

  /** Ids and creation stamps strictly increase in insertion order and lie below the counter. */
  predicate CreationOrdered(c: Collection)
  {
    && (forall i, j :: 0 <= i < j < |c.docs| ==> c.docs[i].id < c.docs[j].id)
    && (forall i, j :: 0 <= i < j < |c.docs| ==> c.docs[i].createdAt < c.docs[j].createdAt)
    && (forall i :: 0 <= i < |c.docs| ==> c.docs[i].id < c.clock && c.docs[i].createdAt < c.clock)
  }

  /** What the schema guarantees of every stored document: both required fields non-empty,
      and a record never updated since its creation. */
  predicate SchemaValid(d: UserDoc)
  {
    d.email != "" && d.password != "" && d.updatedAt == d.createdAt
  }

  /** The collection invariant. Under it no email has more than one account. */
  predicate Wellformed(c: Collection): (b: bool)
    ensures b ==> forall e :: CountEmail(c.docs, e) <= 1
  {
    && EmailsUnique(c.docs)
    && (UniqueCountAll(c.docs); CreationOrdered(c))
    && (forall i :: 0 <= i < |c.docs| ==> SchemaValid(c.docs[i]))
  }

  /** No document carries `email`. */
  predicate Unseen(docs: seq<UserDoc>, email: string)
  {
    forall i :: 0 <= i < |docs| ==> docs[i].email != email
  }

  /** `findOne({ email })`: the position of the first document with that email, if any. */
  function Find(docs: seq<UserDoc>, email: string): (r: Option<nat>)
    ensures r.Some? ==> r.value < |docs| && docs[r.value].email == email
    ensures r.Some? ==> forall i :: 0 <= i < r.value ==> docs[i].email != email
    ensures r.None? <==> Unseen(docs, email)
  {
    if docs == [] then None
    else if docs[0].email == email then Some(0)
    else match Find(docs[1..], email)
      case None => None
      case Some(k) => Some(k + 1)
  }

  /** How many documents carry `email`. */
  function CountEmail(docs: seq<UserDoc>, email: string): nat
  {
    if docs == [] then 0 else (if docs[0].email == email then 1 else 0) + CountEmail(docs[1..], email)
  }

  /** Under the unique index an email names one document if `findOne` finds it, none otherwise. */
  lemma {:induction false} UniqueCount(docs: seq<UserDoc>, email: string)
    requires EmailsUnique(docs)
    ensures CountEmail(docs, email) == if Find(docs, email).Some? then 1 else 0
  {
    if docs != [] {
      assert EmailsUnique(docs[1..]) by {
        forall i, j | 0 <= i < j < |docs[1..]| ensures docs[1..][i].email != docs[1..][j].email {
          assert docs[1..][i] == docs[i + 1] && docs[1..][j] == docs[j + 1];
        }
      }
      UniqueCount(docs[1..], email);
      if docs[0].email == email {
        assert Find(docs[1..], email).None? by {
          forall i | 0 <= i < |docs[1..]| ensures docs[1..][i].email != email {
            assert docs[1..][i] == docs[i + 1];
          }
        }
      }
    }
  }

  lemma UniqueCountAll(docs: seq<UserDoc>)
    requires EmailsUnique(docs)
    ensures forall e :: CountEmail(docs, e) <= 1
  {
    forall e ensures CountEmail(docs, e) <= 1 {
      UniqueCount(docs, e);
    }
  }

  /** Why `User.create` can refuse a document. */
  datatype InsertError = MissingField | DuplicateKey

  datatype InsertResult = Inserted(doc: UserDoc, after: Collection) | Rejected(error: InsertError)

  /** The document `create` would store next: stamped with the counter, created and updated now. */
  function NextDoc(c: Collection, email: string, password: string): UserDoc
  {
    UserDoc(c.clock, email, password, c.clock, c.clock)
  }

  /** `User.create({ email, password })`: the `required` validators refuse an empty field, the
      unique index refuses a second document for an email, and otherwise one document is appended. */
  function Insert(c: Collection, email: string, password: string): (r: InsertResult)
    ensures r.Rejected? <==> email == "" || password == "" || !Unseen(c.docs, email)
    ensures r.Rejected? && (email == "" || password == "") ==> r.error == MissingField
    ensures r.Rejected? && email != "" && password != "" ==> r.error == DuplicateKey
    ensures r.Inserted? ==> && r.doc.email == email && r.doc.password == password
                            && r.after.docs == c.docs + [r.doc] && r.after.clock > c.clock
    ensures r.Inserted? && Wellformed(c) ==> forall i :: 0 <= i < |c.docs| ==> c.docs[i].id < r.doc.id
    ensures r.Inserted? && Wellformed(c) ==> Wellformed(r.after)
  {
    if email == "" || password == "" then Rejected(MissingField)
    else if Find(c.docs, email).Some? then Rejected(DuplicateKey)
    else
      var d := NextDoc(c, email, password);
      Inserted(d, Collection(c.docs + [d], c.clock + 1))
  }
}
