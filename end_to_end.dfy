/**
 * The client's requests as the server receives them: what the save body turns
 * into, what a signed-out save gets, how the raw-token history fetch passes the
 * gate, and the save-then-read scenarios of two users.
 */
module EndToEnd {
  import opened Wrappers
  import opened Json
  import opened Auth
  import opened History
  import opened Server
  import opened Client

  /**
   * A save body built by `handleConvert` becomes a record that carries the verified
   * email, the form's currencies and amount, and the looked-up value as both rate
   * and result; the body's token is not stored.
   */
  lemma ClientSaveBodyRecord(idToken: Option<string>, from: string, to: string, amount: string, out: Value, email: string, now: int)
    ensures NewRecord(email, SaveBody(idToken, from, to, amount, out), now) ==
              Record(email, Str(from), Str(to), Str(amount), out, out, now)
  {
  }

  /** A signed-out session posts a null token and no header: the save route refuses it before verifying. */
  lemma SignedOutSaveIsRefused(from: string, to: string, amount: string, out: Value, verify: Verifier)
    ensures Gate(Request(SaveBody(None, from, to, amount, out), None), verify) == NoTokenProvided
  {
    NoTokenIff(Null, None, verify);
  }

  /**
   * A signed-in save carries the session token in the body, so the verifier is
   * asked about exactly that token.
   */
  lemma SignedInSaveVerifiesSessionToken(t: string, from: string, to: string, amount: string, out: Value, verify: Verifier)
    requires t != ""
    ensures Gate(Request(SaveBody(Some(t), from, to, amount, out), None), verify) ==
              if verify(Str(t)).Some? then Proceed(verify(Str(t)).value) else InvalidToken
  {
    BodyTokenWins(Str(t), None, None, verify);
  }

  /**
   * The history fetch sends the token raw as `Authorization: <token>` with an empty
   * body; a token without a space passes the gate exactly as a body token would.
   */
  lemma HistoryFetchWithRawToken(t: string, verify: Verifier)
    requires ' ' !in t
    ensures Gate(Request(map[], Some(t)), verify) == VerifyToken(Str(t), None, verify)
  {
    RawHeaderActsAsBodyToken(Undefined, t, verify);
  }

  /** Two users' records, saved in either order, each show up only in their owner's history. */
  lemma {:induction false} TwoUsersSeeOnlyTheirOwn(recA: Record, recB: Record)
    requires recA.email != recB.email
    ensures Query([recA, recB], recA.email) == [recA]
    ensures Query([recA, recB], recB.email) == [recB]
  {
    assert [recA, recB] == [recA] + [recB];
    SaveInvisibleToOthers([recA], recB, recA.email);
    SavedRecordComesFirst([], recA);
    assert [] + [recA] == [recA];
    SavedRecordComesFirst([recA], recB);
    SaveInvisibleToOthers([], recA, recB.email);
  }

  /**
   * A signed-in user saves one conversion and reads the history back: it holds just
   * that record, and a second read gives the same answer.
   */
  method SaveThenReadScenario(now: int)
  {
    var alice := Identity("uid-a", "user@x.com");
    var verify: Verifier := (t: Value) => if t == Str("tok-a") then Some(alice) else None;
    HistoryFetchWithRawToken("tok-a", verify);
    assert Gate(Request(map[], Some("tok-a")), verify) == Proceed(alice);
    var store := new HistoryStore([]);

    var body := SaveBody(Some("tok-a"), "USD", "EUR", "100", Num(92.3));
    var saved := SaveHistory(store, Request(body, None), verify, now);
    assert saved == Response(200, Message("Saved"));
    var rec := Record("user@x.com", Str("USD"), Str("EUR"), Str("100"), Num(92.3), Num(92.3), now);
    assert store.records == [rec];

    SavedRecordComesFirst([], rec);
    assert Query([rec], "user@x.com") == [rec];
    var first := GetHistory(store, Request(map[], Some("tok-a")), verify);
    assert first == Response(200, HistoryList([rec]));
    var second := GetHistory(store, Request(map[], Some("tok-a")), verify);
    assert second == first;
  }
}
