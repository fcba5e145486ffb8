/**
 * The `history` collection of server.js: conversion records, the store they are
 * appended to, and the query `where("email", "==", e).orderBy("timestamp", "desc")`.
 */
module History {
  import opened Json

  /** One stored conversion; `email` and `timestamp` are set by the server, the rest come from the body. */
  datatype Record = Record(
    email: string,
    from: Value,
    to: Value,
    amount: Value,
    rate: Value,
    result: Value,
    timestamp: int)

  /**
   * The document `/api/save-history` adds: `email` from the verified identity, the
   * server's clock reading as `timestamp`, and the five conversion fields copied
   * from the body as they are.
   */
  function NewRecord(email: string, body: map<string, Value>, now: int): (r: Record)
    ensures r.email == email && r.timestamp == now
    ensures r.from == Field(body, "from") && r.to == Field(body, "to")
    ensures r.amount == Field(body, "amount")
    ensures r.rate == Field(body, "rate") && r.result == Field(body, "result")
  {
    Record(email, Field(body, "from"), Field(body, "to"), Field(body, "amount"),
           Field(body, "rate"), Field(body, "result"), now)
  }

  /** Any other key of the body (an `email`, a `token`, a `timestamp`, …) has no effect on the record. */
  lemma NewRecordIgnoresOtherFields(email: string, body: map<string, Value>, key: string, v: Value, now: int)
    requires key !in {"from", "to", "amount", "rate", "result"}
    ensures NewRecord(email, body[key := v], now) == NewRecord(email, body, now)
  {
  }

  // ---------------------------------------------------------------------------
  // The query.
  // ---------------------------------------------------------------------------

  /** The records of `records` whose `email` is `email`, in store order. */
  function OwnedBy(records: seq<Record>, email: string): (r: seq<Record>)
    ensures |r| <= |records|
    ensures forall i :: 0 <= i < |r| ==> r[i].email == email
    ensures forall x :: multiset(r)[x] == if x.email == email then multiset(records)[x] else 0
  {
    if records == [] then []
    else
      var init, last := records[..|records| - 1], records[|records| - 1];
      assert records == init + [last];
      OwnedBy(init, email) + (if last.email == email then [last] else [])
  }

  /** Most recent first: timestamps never increase along the sequence. */
  predicate NewestFirst(s: seq<Record>) {
    forall i, j :: 0 <= i < j < |s| ==> s[i].timestamp >= s[j].timestamp
  }

  /** Puts `x` in front of the first record that is not newer than it. */
  function Insert(x: Record, s: seq<Record>): (r: seq<Record>)
    ensures multiset(r) == multiset(s) + multiset{x}
  {
    if s == [] || x.timestamp >= s[0].timestamp then [x] + s
    else
      assert s == [s[0]] + s[1..];
      [s[0]] + Insert(x, s[1..])
  }

  /** Inserting a record no newer than `bound` among records no newer than `bound` gives records no newer than `bound`. */
  lemma {:induction false} InsertBounded(x: Record, s: seq<Record>, bound: int)
    requires x.timestamp <= bound
    requires forall k :: 0 <= k < |s| ==> s[k].timestamp <= bound
    ensures forall k :: 0 <= k < |Insert(x, s)| ==> Insert(x, s)[k].timestamp <= bound
  {
    if s != [] && x.timestamp < s[0].timestamp {
      InsertBounded(x, s[1..], bound);
      var r := Insert(x, s);
      var rest := Insert(x, s[1..]);
      assert r == [s[0]] + rest;
      forall k | 0 <= k < |r| ensures r[k].timestamp <= bound {
        if k > 0 { assert r[k] == rest[k - 1]; }
      }
    }
  }

  /** Inserting into a newest-first sequence keeps it newest first. */
  lemma {:induction false} InsertKeepsNewestFirst(x: Record, s: seq<Record>)
    requires NewestFirst(s)
    ensures NewestFirst(Insert(x, s))
  {
    if s != [] && x.timestamp < s[0].timestamp {
      var tail := s[1..];
      InsertKeepsNewestFirst(x, tail);
      InsertBounded(x, tail, s[0].timestamp);
      var rest := Insert(x, tail);
      var r := [s[0]] + rest;
      assert Insert(x, s) == r;
      forall i, j | 0 <= i < j < |r| ensures r[i].timestamp >= r[j].timestamp {
        assert r[j] == rest[j - 1];
        if i > 0 {
          assert r[i] == rest[i - 1];
        }
      }
    }
  }

  /** `orderBy("timestamp", "desc")` on a snapshot: the same records, newest first. */
  function NewestFirstOrder(s: seq<Record>): (r: seq<Record>)
    ensures multiset(r) == multiset(s)
    ensures NewestFirst(r)
  {
    if s == [] then []
    else
      var init, last := s[..|s| - 1], s[|s| - 1];
      assert s == init + [last];
      var sorted := NewestFirstOrder(init);
      InsertKeepsNewestFirst(last, sorted);
      Insert(last, sorted)
  }

  /**
   * The snapshot of the history query for `email`: newest first, only that
   * identity's records, and every one of them as often as it is stored.
   */
  function Query(records: seq<Record>, email: string): (r: seq<Record>)
    ensures NewestFirst(r)
    ensures forall i :: 0 <= i < |r| ==> r[i].email == email
    ensures forall x :: multiset(r)[x] == if x.email == email then multiset(records)[x] else 0
  {
    NewestFirstOrder(OwnedBy(records, email))
  }

  /** An identity that has stored nothing gets the empty list, and only such an identity does. */
  lemma QueryEmptyIff(records: seq<Record>, email: string)
    ensures Query(records, email) == [] <==> forall i :: 0 <= i < |records| ==> records[i].email != email
  {
    var q := Query(records, email);
    if q == [] {
      forall i | 0 <= i < |records| ensures records[i].email != email {
        assert records[i] in multiset(records);
      }
    } else {
      assert q[0] in multiset(q);
      assert q[0] in multiset(records);
      var i :| 0 <= i < |records| && records[i] == q[0];
    }
  }

  /** A record is in an identity's history exactly when it is stored and owned by that identity. */
  lemma QueryMembers(records: seq<Record>, email: string, x: Record)
    ensures x in Query(records, email) <==> x in records && x.email == email
  {
    assert x in Query(records, email) <==> x in multiset(Query(records, email));
    assert x in records <==> x in multiset(records);
  }

  /** Adding a record extends the owner's filtered list by that record and leaves all others alone. */
  lemma OwnedByAppend(records: seq<Record>, rec: Record, email: string)
    ensures OwnedBy(records + [rec], email) == OwnedBy(records, email) + (if rec.email == email then [rec] else [])
  {
    var all := records + [rec];
    assert all[..|all| - 1] == records;
  }

  /** Every record of an identity's history is no newer than a bound that all its stored records respect. */
  lemma QueryBounded(records: seq<Record>, email: string, bound: int)
    requires forall i :: 0 <= i < |records| && records[i].email == email ==> records[i].timestamp <= bound
    ensures forall k :: 0 <= k < |Query(records, email)| ==> Query(records, email)[k].timestamp <= bound
  {
    var q := Query(records, email);
    forall k | 0 <= k < |q| ensures q[k].timestamp <= bound {
      QueryMembers(records, email, q[k]);
      var i :| 0 <= i < |records| && records[i] == q[k];
    }
  }

  /**
   * A record saved with a timestamp strictly newer than every earlier one of its
   * owner heads that owner's history, in front of the history as it was.
   */
  lemma SavedRecordComesFirst(records: seq<Record>, rec: Record)
    requires forall i :: 0 <= i < |records| && records[i].email == rec.email ==> records[i].timestamp < rec.timestamp
    ensures Query(records + [rec], rec.email) == [rec] + Query(records, rec.email)
  {
    var owned := OwnedBy(records, rec.email);
    OwnedByAppend(records, rec, rec.email);
    var s := owned + [rec];
    assert s[..|s| - 1] == owned;
    var before := Query(records, rec.email);
    assert NewestFirstOrder(s) == Insert(rec, before);
    QueryBounded(records, rec.email, rec.timestamp - 1);
  }

  /** A record saved for one identity is invisible in every other identity's history. */
  lemma SaveInvisibleToOthers(records: seq<Record>, rec: Record, email: string)
    requires rec.email != email
    ensures Query(records + [rec], email) == Query(records, email)
  {
    OwnedByAppend(records, rec, email);
    var owned := OwnedBy(records, email);
    assert owned + [] == owned;
    assert OwnedBy(records + [rec], email) == owned;
  }

  // ---------------------------------------------------------------------------
  // The store.
  // ---------------------------------------------------------------------------

  /** The Firestore collection, kept in the order documents were added. It only grows. */
  class HistoryStore {
    var records: seq<Record>

    /** A handle on the collection, which persists between runs and may already hold records. */
    constructor (initial: seq<Record>)
      ensures records == initial
    {
      records := initial;
    }

    /** `historyRef.add(doc)`: exactly one record more, the earlier ones untouched. */
    method Add(rec: Record)
      modifies this
      ensures records == old(records) + [rec]
    {
      records := records + [rec];
    }
  }
}
