/**
  GET /api/subscribers/stats: four `countDocuments` queries over the
  subscriber collection, one unfiltered and one per status.
 */
module SubscriberStats {
  import opened Wrappers
  import opened Records
  import opened SubscriberStore
  import Token

  /** The JSON body `{ total, active, unsubscribed, pending }`. */
  datatype Stats = Stats(total: nat, active: nat, unsubscribed: nat, pending: nat)

  /** `Subscriber.countDocuments(filter)`. */
  function CountDocuments(db: map<string, Subscriber>, filter: Option<Status>): nat {
    |Selected(db, filter)|
  }

  function GetStats(db: map<string, Subscriber>): Stats {
    Stats(CountDocuments(db, None), CountDocuments(db, Some(Active)),
          CountDocuments(db, Some(Unsubscribed)), CountDocuments(db, Some(Pending)))
  }

  /** The unfiltered count is the number of stored records. */
  lemma TotalIsSize(db: map<string, Subscriber>)
    ensures GetStats(db).total == |db|
  {
    assert Selected(db, None) == db.Keys;
  }

  /**
    Every record has exactly one of the three statuses, so the three
    per-status counts add up to the total and none exceeds it.
   */
  lemma StatusCountsPartitionTotal(db: map<string, Subscriber>)
    ensures var st := GetStats(db);
      && st.active + st.unsubscribed + st.pending == st.total
      && st.active <= st.total && st.unsubscribed <= st.total && st.pending <= st.total
  {
    var a, u, p := Selected(db, Some(Active)), Selected(db, Some(Unsubscribed)), Selected(db, Some(Pending));
    forall k | k in Selected(db, None) ensures k in a + u + p {
      match db[k].status
      case Active => assert k in a;
      case Unsubscribed => assert k in u;
      case Pending => assert k in p;
    }
    assert Selected(db, None) == a + u + p;
    assert a !! u && (a + u) !! p;
    assert |a + u| == |a| + |u|;
    assert |a + u + p| == |a + u| + |p|;
  }

  /** Inserting a record under a new key adds that key to exactly the counts the record matches. */
  lemma InsertCounts(db: map<string, Subscriber>, key: string, rec: Subscriber, filter: Option<Status>)
    requires key !in db
    ensures CountDocuments(db[key := rec], filter) == CountDocuments(db, filter) + (if Matches(rec, filter) then 1 else 0)
  {
    var before, after := Selected(db, filter), Selected(db[key := rec], filter);
    if Matches(rec, filter) {
      assert after == before + {key};
    } else {
      assert after == before;
    }
  }

  /** A successful subscribe of a new address adds one to the total and one to the active count. */
  lemma NewSubscriberCounted(db: map<string, Subscriber>, key: string, name: Option<string>, random: Token.Bytes32, now: int)
    requires key != "" && key !in db
    requires !TokenTaken(db, Token.Generate(random), key)
    ensures var db' := SubscribeKey(db, key, name, random, now).db;
      && GetStats(db').total == GetStats(db).total + 1
      && GetStats(db').active == GetStats(db).active + 1
      && GetStats(db').unsubscribed == GetStats(db).unsubscribed
      && GetStats(db').pending == GetStats(db).pending
  {
    NewEmailCreated(db, key, name, random, now);
    var rec := Subscriber(key, name.GetOr(""), Active, Token.Generate(random), now);
    InsertCounts(db, key, rec, None);
    InsertCounts(db, key, rec, Some(Active));
    InsertCounts(db, key, rec, Some(Unsubscribed));
    InsertCounts(db, key, rec, Some(Pending));
  }
}
