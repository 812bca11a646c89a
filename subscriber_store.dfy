/**
  The subscriber collection and its lifecycle: the mongoose document with its
  pre('save') token hook, the unique indexes on `email` and
  `unsubscribeToken`, the subscribe state machine of the two POST handlers,
  and the `find` queries (all subscribers by signup date, active ones for
  dispatch).
 */
module SubscriberStore {
  import opened Wrappers
  import opened Records
  import opened Token
  import Sorting

  /** An HTTP JSON reply: status, `message`, and the created document when there is one. */
  datatype Response = Response(status: int, message: string, subscriber: Option<Subscriber>)

  /** The catch-all reply of the handlers (a failed save or an unparseable body surfaces here). */
  const ServerError := Response(500, "Server error", None)

  /** The fields `const { email, name = '' } = await req.json()` reads; either may be missing. */
  datatype SubscribeFields = SubscribeFields(email: Option<string>, name: Option<string>)

  // ---------------------------------------------------------------------
  // The pre('save') hook

  /** The hook as a function of the document: give it a token only when it has none. */
  function WithToken(rec: Subscriber, random: Bytes32): (r: Subscriber)
    ensures r.token != ""
    ensures rec.token != "" ==> r == rec
    ensures rec.token == "" ==> r == rec.(token := Generate(random)) && IsToken(r.token)
  {
    if rec.token == "" then rec.(token := Generate(random)) else rec
  }

  /** Once a record has a token, no later save replaces it, whatever the random bytes. */
  lemma TokenAssignedOnce(rec: Subscriber, first: Bytes32, later: Bytes32)
    ensures WithToken(WithToken(rec, first), later) == WithToken(rec, first)
    ensures rec.token != "" ==> WithToken(rec, first).token == rec.token
  {
  }

  /** A mongoose subscriber document in memory, as `findOne` or `create` produce it. */
  class SubscriberDoc {
    var email: string
    var name: string
    var status: Status
    var token: string
    var signupDate: int
    /** True until the document has been inserted. */
    var isNew: bool

    /** The new document of `Subscriber.create({ email, name, status })`; the schema setters normalise the email. */
    constructor Create(email: string, name: string, status: Status, now: int)
      ensures Value() == Subscriber(Normalize(email), name, status, "", now) && isNew
    {
      this.email := Normalize(email);
      this.name := name;
      this.status := status;
      this.token := "";
      this.signupDate := now;
      this.isNew := true;
    }

    /** A document loaded from the collection. */
    constructor Load(rec: Subscriber)
      ensures Value() == rec && !isNew
    {
      email := rec.email;
      name := rec.name;
      status := rec.status;
      token := rec.token;
      signupDate := rec.signupDate;
      isNew := false;
    }

    function Value(): Subscriber
      reads this
    {
      Subscriber(email, name, status, token, signupDate)
    }

    /** SubscriberSchema.pre('save'): `if (!this.unsubscribeToken) this.unsubscribeToken = ...`. */
    method PreSave(random: Bytes32)
      modifies this`token
      ensures Value() == WithToken(old(Value()), random)
    {
      if token == "" {
        token := Generate(random);
      }
    }
  }

  // ---------------------------------------------------------------------
  // The collection and its indexes

  /** Some record other than the one stored under `except` already holds `token`. */
  predicate TokenTaken(db: map<string, Subscriber>, token: string, except: string) {
    exists k :: k in db && k != except && db[k].token == token
  }

  /** Each record is stored under its own email. */
  predicate KeyedByEmail(db: map<string, Subscriber>) {
    forall k :: k in db ==> db[k].email == k
  }

  /**
    What the collection guarantees: one record per normalised email (the
    map key is the record's email), a non-empty token on every record, and
    no two records sharing a token (the unique index on unsubscribeToken).
   */
  predicate Invariant(db: map<string, Subscriber>) {
    && KeyedByEmail(db)
    && (forall k :: k in db ==> k != "" && IsNormalized(k) && db[k].token != "")
    && (forall k1, k2 :: k1 in db && k2 in db && k1 != k2 ==> db[k1].token != db[k2].token)
  }

  /**
    `doc.save()`: run the hook, then the `required` validator on email and
    the two unique indexes; on success the record is written under its email.
   */
  function SaveSpec(db: map<string, Subscriber>, doc: Subscriber, isNew: bool, random: Bytes32): Option<map<string, Subscriber>> {
    var rec := WithToken(doc, random);
    if rec.email == "" || (isNew && rec.email in db) || TokenTaken(db, rec.token, rec.email) then None
    else Some(db[rec.email := rec])
  }

  /** The reply and the collection after one subscribe request. */
  datatype Outcome = Outcome(response: Response, db: map<string, Subscriber>)

  /**
    The POST subscribe handler on request `{ email, name }`: a missing or
    empty email is rejected; otherwise the handler goes on with the email as
    the schema setters normalise it.
   */
  function SubscribeSpec(db: map<string, Subscriber>, email: Option<string>, name: Option<string>, random: Bytes32, now: int): Outcome {
    if email.None? || email.value == "" then Outcome(Response(400, "Email is required", None), db)
    else SubscribeKey(db, Normalize(email.value), name, random, now)
  }

  /**
    The whole POST subscribe handler: a body that is not JSON makes
    `req.json()` throw, and the catch block answers with the server error
    before anything is read or written; a parsed body goes on as
    `SubscribeSpec`.
   */
  function HandleSubscribe(db: map<string, Subscriber>, body: JsonBody<SubscribeFields>, random: Bytes32, now: int): Outcome {
    match body
    case Malformed => Outcome(ServerError, db)
    case Parsed(f) => SubscribeSpec(db, f.email, f.name, random, now)
  }

  /**
    The handler after validation, for the normalised email `key`: an active
    record is a duplicate, any other existing record is switched to active
    and saved, and otherwise a new active record is created (name
    defaulting to ""). A failed save is a server error.
   */
  function SubscribeKey(db: map<string, Subscriber>, key: string, name: Option<string>, random: Bytes32, now: int): Outcome {
    if key in db && db[key].status == Active then Outcome(Response(400, "Already subscribed", None), db)
    else if key in db then
      match SaveSpec(db, db[key].(status := Active), false, random)
      case Some(db') => Outcome(Response(200, "Subscription reactivated", None), db')
      case None => Outcome(ServerError, db)
    else
      var created := Subscriber(key, name.GetOr(""), Active, "", now);
      match SaveSpec(db, created, true, random)
      case Some(db') => Outcome(Response(201, "Successfully subscribed", Some(db'[key])), db')
      case None => Outcome(ServerError, db)
  }

  // ---------------------------------------------------------------------
  // Properties of the subscribe state machine

  /** A save keeps the collection's guarantees when the document's email is in stored form. */
  lemma SaveKeepsInvariant(db: map<string, Subscriber>, doc: Subscriber, isNew: bool, random: Bytes32)
    requires Invariant(db)
    requires IsNormalized(doc.email)
    requires !isNew ==> doc.email in db && doc.token == db[doc.email].token
    ensures SaveSpec(db, doc, isNew, random).Some? ==> Invariant(SaveSpec(db, doc, isNew, random).value)
  {
    var rec := WithToken(doc, random);
    if SaveSpec(db, doc, isNew, random).Some? {
      var db' := db[rec.email := rec];
      forall k1, k2 | k1 in db' && k2 in db' && k1 != k2 ensures db'[k1].token != db'[k2].token {
        if k1 == rec.email {
          assert !(k2 in db && k2 != rec.email && db[k2].token == rec.token);
        } else if k2 == rec.email {
          assert !(k1 in db && k1 != rec.email && db[k1].token == rec.token);
        }
      }
    }
  }

  /** Every subscribe request leaves the collection's guarantees intact. */
  lemma SubscribeKeepsInvariant(db: map<string, Subscriber>, email: Option<string>, name: Option<string>, random: Bytes32, now: int)
    requires Invariant(db)
    ensures Invariant(SubscribeSpec(db, email, name, random, now).db)
  {
    if email.Some? && email.value != "" {
      SubscribeKeyKeepsInvariant(db, Normalize(email.value), name, random, now);
    }
  }

  /** A body that is not JSON is a 500 that leaves the collection as it was. */
  lemma MalformedBodyIsServerError(db: map<string, Subscriber>, random: Bytes32, now: int)
    ensures HandleSubscribe(db, Malformed, random, now) == Outcome(ServerError, db)
  {
  }

  /** Whatever the body, the whole handler keeps the collection's guarantees. */
  lemma HandleSubscribeKeepsInvariant(db: map<string, Subscriber>, body: JsonBody<SubscribeFields>, random: Bytes32, now: int)
    requires Invariant(db)
    ensures Invariant(HandleSubscribe(db, body, random, now).db)
  {
    if body.Parsed? {
      SubscribeKeepsInvariant(db, body.fields.email, body.fields.name, random, now);
    }
  }

  lemma SubscribeKeyKeepsInvariant(db: map<string, Subscriber>, key: string, name: Option<string>, random: Bytes32, now: int)
    requires Invariant(db) && IsNormalized(key)
    ensures Invariant(SubscribeKey(db, key, name, random, now).db)
  {
    var doc := if key in db then db[key].(status := Active) else Subscriber(key, name.GetOr(""), Active, "", now);
    SaveKeepsInvariant(db, doc, key !in db, random);
  }

  /** A request without an email, or with an empty one, is a validation failure that changes nothing. */
  lemma MissingEmailRejected(db: map<string, Subscriber>, email: Option<string>, name: Option<string>, random: Bytes32, now: int)
    requires email.None? || email.value == ""
    ensures SubscribeSpec(db, email, name, random, now) == Outcome(Response(400, "Email is required", None), db)
  {
  }

  /** Subscribing an email that has an active record is a conflict that changes nothing. */
  lemma ActiveDuplicateRejected(db: map<string, Subscriber>, key: string, name: Option<string>, random: Bytes32, now: int)
    requires key in db && db[key].status == Active
    ensures SubscribeKey(db, key, name, random, now) == Outcome(Response(400, "Already subscribed", None), db)
  {
  }

  /**
    A record with any other status is switched to active; its name, token
    and signup date stay as they were, no record is added and no other
    record changes.
   */
  lemma InactiveReactivated(db: map<string, Subscriber>, key: string, name: Option<string>, random: Bytes32, now: int)
    requires Invariant(db)
    requires key in db && db[key].status != Active
    ensures var out := SubscribeKey(db, key, name, random, now);
      && out.response == Response(200, "Subscription reactivated", None)
      && out.db == db[key := db[key].(status := Active)]
      && out.db.Keys == db.Keys
      && out.db[key].token == db[key].token
  {
    var rec := db[key].(status := Active);
    assert WithToken(rec, random) == rec;
    assert !TokenTaken(db, rec.token, key);
  }

  /**
    An email with no record gets exactly one new active record holding the
    normalised email, the supplied name (or ""), a freshly generated token
    and the current time, and the reply is 201 with that record. That is,
    unless the fresh token collides with a stored one, when the unique
    index makes the insert fail.
   */
  lemma NewEmailCreated(db: map<string, Subscriber>, key: string, name: Option<string>, random: Bytes32, now: int)
    requires key != "" && key !in db
    requires !TokenTaken(db, Generate(random), key)
    ensures var out := SubscribeKey(db, key, name, random, now);
      var rec := Subscriber(key, name.GetOr(""), Active, Generate(random), now);
      && out.response == Response(201, "Successfully subscribed", Some(rec))
      && out.db == db[key := rec]
      && out.db.Keys == db.Keys + {key}
      && |out.db| == |db| + 1
  {
    var rec := Subscriber(key, name.GetOr(""), Active, Generate(random), now);
    assert (db[key := rec]).Keys == db.Keys + {key};
  }

  /** A new record whose fresh token is already taken is not stored; the client sees a server error. */
  lemma TokenCollisionFails(db: map<string, Subscriber>, key: string, name: Option<string>, random: Bytes32, now: int)
    requires key !in db
    requires key == "" || TokenTaken(db, Generate(random), key)
    ensures SubscribeKey(db, key, name, random, now) == Outcome(ServerError, db)
  {
  }

  /** Writing a record under its own email leaves that email with exactly that record. */
  lemma WriteKeepsOneRecord(db: map<string, Subscriber>, rec: Subscriber)
    requires KeyedByEmail(db)
    ensures var out := db[rec.email := rec];
      && KeyedByEmail(out)
      && (forall k :: k in out && out[k].email == rec.email ==> k == rec.email)
      && |out| <= |db| + 1
  {
    var out := db[rec.email := rec];
    forall k | k in out ensures out[k].email == k {
      if k != rec.email { assert out[k] == db[k]; }
    }
    if rec.email in db {
      assert out.Keys == db.Keys;
    } else {
      assert out.Keys == db.Keys + {rec.email};
    }
  }

  /**
    After a successful subscribe the collection holds exactly one record for
    the email, it is active, every earlier record is still there with its
    token, and the number of records grew by at most one.
   */
  lemma SuccessLeavesOneActiveRecord(db: map<string, Subscriber>, key: string, name: Option<string>, random: Bytes32, now: int)
    requires Invariant(db)
    requires SubscribeKey(db, key, name, random, now).response.status in {200, 201}
    ensures var out := SubscribeKey(db, key, name, random, now).db;
      && key in out && out[key].status == Active
      && (forall k :: k in out && out[k].email == key ==> k == key)
      && (forall k :: k in db ==> k in out && out[k].token == db[k].token)
      && |out| <= |db| + 1
  {
    if key in db {
      assert db[key].status != Active;
      InactiveReactivated(db, key, name, random, now);
      WriteKeepsOneRecord(db, db[key].(status := Active));
    } else {
      var doc := Subscriber(key, name.GetOr(""), Active, "", now);
      assert SaveSpec(db, doc, true, random).Some?;
      NewEmailCreated(db, key, name, random, now);
      WriteKeepsOneRecord(db, Subscriber(key, name.GetOr(""), Active, Generate(random), now));
    }
  }

  /** No request removes a record or replaces a stored token. */
  lemma TokensNeverChange(db: map<string, Subscriber>, key: string, name: Option<string>, random: Bytes32, now: int)
    requires Invariant(db)
    ensures var out := SubscribeKey(db, key, name, random, now).db;
      forall k :: k in db ==> k in out && out[k].token == db[k].token
  {
    var r := SubscribeKey(db, key, name, random, now);
    if r.response.status in {200, 201} {
      SuccessLeavesOneActiveRecord(db, key, name, random, now);
    } else {
      assert r.db == db;
    }
  }

  /**
    Subscribing again right after a success, with the same address in any
    case or surrounding whitespace, is a conflict, not a second record.
   */
  lemma ResubscribeIsConflict(db: map<string, Subscriber>, email: string, again: string, name: Option<string>,
                              name2: Option<string>, random: Bytes32, random2: Bytes32, now: int, now2: int)
    requires Invariant(db)
    requires SubscribeSpec(db, Some(email), name, random, now).response.status in {200, 201}
    requires again != "" && Normalize(again) == Normalize(email)
    ensures var db1 := SubscribeSpec(db, Some(email), name, random, now).db;
      SubscribeSpec(db1, Some(again), name2, random2, now2) == Outcome(Response(400, "Already subscribed", None), db1)
  {
    var key := Normalize(email);
    assert SubscribeSpec(db, Some(email), name, random, now) == SubscribeKey(db, key, name, random, now);
    SuccessLeavesOneActiveRecord(db, key, name, random, now);
    var db1 := SubscribeKey(db, key, name, random, now).db;
    assert key in db1 && db1[key].status == Active;
    assert SubscribeSpec(db1, Some(again), name2, random2, now2) == SubscribeKey(db1, key, name2, random2, now2);
  }

  // ---------------------------------------------------------------------
  // The collection as an object

  function SignupDate(s: Subscriber): int { s.signupDate }

  predicate Matches(s: Subscriber, filter: Option<Status>) {
    filter.None? || s.status == filter.value
  }

  /** The keys whose records a `find(filter)` selects. */
  function Selected(db: map<string, Subscriber>, filter: Option<Status>): set<string> {
    set k | k in db && Matches(db[k], filter)
  }

  class Store {
    var records: map<string, Subscriber>

    ghost predicate Valid()
      reads this
    {
      Invariant(records)
    }

    constructor ()
      ensures Valid() && records == map[]
    {
      records := map[];
    }

    /** `doc.save()`, as SaveSpec describes it. */
    method Save(doc: SubscriberDoc, random: Bytes32) returns (ok: bool)
      modifies this, doc`token
      ensures doc.Value() == WithToken(old(doc.Value()), random)
      ensures var spec := SaveSpec(old(records), old(doc.Value()), doc.isNew, random);
        ok == spec.Some? && records == (if ok then spec.value else old(records))
    {
      doc.PreSave(random);
      var rec := doc.Value();
      if rec.email == "" || (doc.isNew && rec.email in records) || TokenTaken(records, rec.token, rec.email) {
        return false;
      }
      records := records[rec.email := rec];
      return true;
    }

    /** POST /api/subscribers. */
    method Subscribe(body: JsonBody<SubscribeFields>, random: Bytes32, now: int) returns (resp: Response)
      requires Valid()
      modifies this
      ensures Valid()
      ensures Outcome(resp, records) == HandleSubscribe(old(records), body, random, now)
    {
      if body.Malformed? {
        return ServerError;
      }
      var email, name := body.fields.email, body.fields.name;
      if email.None? || email.value == "" {
        return Response(400, "Email is required", None);
      }
      resp := SubscribeAddress(email.value, name, random, now);
    }

    /** The handler once the email is known to be present: `findOne`, then reactivate or create. */
    method SubscribeAddress(email: string, name: Option<string>, random: Bytes32, now: int) returns (resp: Response)
      requires Valid()
      modifies this
      ensures Valid()
      ensures Outcome(resp, records) == SubscribeKey(old(records), Normalize(email), name, random, now)
    {
      var key := Normalize(email);
      if key in records {
        var existing := new SubscriberDoc.Load(records[key]);
        if existing.status == Active {
          return Response(400, "Already subscribed", None);
        }
        resp := Reactivate(existing, name, random, now);
        return;
      }
      resp := Insert(email, name, random, now);
    }

    /** `existing.status = 'active'; await existing.save()` for a stored record that is not active. */
    method Reactivate(existing: SubscriberDoc, ghost name: Option<string>, random: Bytes32, ghost now: int) returns (resp: Response)
      requires Valid() && !existing.isNew
      requires existing.email in records && existing.Value() == records[existing.email] && existing.status != Active
      modifies this, existing
      ensures Valid()
      ensures Outcome(resp, records) == SubscribeKey(old(records), old(existing.email), name, random, now)
    {
      var key := existing.email;
      ghost var db := records;
      SubscribeKeyKeepsInvariant(records, key, name, random, now);
      existing.status := Active;
      assert existing.Value() == db[key].(status := Active);
      var saved := Save(existing, random);
      if !saved {
        return ServerError;
      }
      return Response(200, "Subscription reactivated", None);
    }

    /** `Subscriber.create({ email, name: name || '', status: 'active' })` for an email with no record. */
    method Insert(email: string, name: Option<string>, random: Bytes32, now: int) returns (resp: Response)
      requires Valid() && Normalize(email) !in records
      modifies this
      ensures Valid()
      ensures Outcome(resp, records) == SubscribeKey(old(records), Normalize(email), name, random, now)
    {
      var key := Normalize(email);
      SubscribeKeyKeepsInvariant(records, key, name, random, now);
      var created := new SubscriberDoc.Create(email, name.GetOr(""), Active, now);
      assert created.Value() == Subscriber(key, name.GetOr(""), Active, "", now);
      var saved := Save(created, random);
      if !saved {
        return ServerError;
      }
      resp := Response(201, "Successfully subscribed", Some(created.Value()));
    }

    /** POST /api/subscribers/subscribe: the same handler under a second path. */
    method PostSubscribe(body: JsonBody<SubscribeFields>, random: Bytes32, now: int) returns (resp: Response)
      requires Valid()
      modifies this
      ensures Valid()
      ensures Outcome(resp, records) == HandleSubscribe(old(records), body, random, now)
    {
      resp := Subscribe(body, random, now);
    }

    /** `Subscriber.find(filter)`: each selected record once, in no particular order. */
    method Find(filter: Option<Status>) returns (r: seq<Subscriber>)
      requires KeyedByEmail(records)
      ensures forall i :: 0 <= i < |r| ==> r[i].email in records && records[r[i].email] == r[i] && Matches(r[i], filter)
      ensures forall k :: k in records && Matches(records[k], filter) ==> records[k] in r
      ensures forall i, j :: 0 <= i < j < |r| ==> r[i].email != r[j].email
      ensures |r| == |Selected(records, filter)|
    {
      r := [];
      var db := records;
      var todo := db.Keys;
      ghost var done: set<string> := {};
      ghost var selected := Selected(db, filter);
      while todo != {}
        invariant todo <= db.Keys
        invariant done <= selected && done !! todo
        invariant forall k :: k in selected && k !in todo ==> k in done
        invariant forall i :: 0 <= i < |r| ==> r[i].email in done && db[r[i].email] == r[i] && Matches(r[i], filter)
        invariant forall k :: k in done ==> db[k] in r
        invariant forall i, j :: 0 <= i < j < |r| ==> r[i].email != r[j].email
        invariant |r| == |done|
        decreases todo
      {
        var k :| k in todo;
        if Matches(db[k], filter) {
          assert db[k].email == k && k !in done && k in selected;
          assert forall i :: 0 <= i < |r| ==> r[i].email != k;
          r := r + [db[k]];
          done := done + {k};
        }
        todo := todo - {k};
      }
      assert done == selected;
    }

    /** GET /api/subscribers: `find().sort({ signupDate: -1 })`. */
    method ListBySignupDate() returns (r: seq<Subscriber>)
      requires Valid()
      ensures forall i :: 0 <= i < |r| ==> r[i].email in records && records[r[i].email] == r[i]
      ensures forall k :: k in records ==> records[k] in r
      ensures |r| == |records|
      ensures Sorting.SortedDesc(r, SignupDate)
    {
      var all := Find(None);
      assert Selected(records, None) == records.Keys;
      r := Sorting.SortDesc(all, SignupDate);
      forall i | 0 <= i < |r| ensures r[i].email in records && records[r[i].email] == r[i] {
        assert r[i] in multiset(r);
        var j :| 0 <= j < |all| && all[j] == r[i];
      }
      forall k | k in records ensures records[k] in r {
        assert records[k] in multiset(all);
      }
    }

    /** The recipients of a dispatch: `find({ status: 'active' })`. */
    method ActiveSubscribers() returns (r: seq<Subscriber>)
      requires Valid()
      ensures forall i :: 0 <= i < |r| ==> r[i].email in records && records[r[i].email] == r[i] && r[i].status == Active
      ensures forall k :: k in records && records[k].status == Active ==> records[k] in r
      ensures forall i, j :: 0 <= i < j < |r| ==> r[i].email != r[j].email
      ensures |r| == |Selected(records, Some(Active))|
    {
      r := Find(Some(Active));
    }
  }
}
