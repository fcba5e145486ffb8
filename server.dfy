/**
 * The three authenticated routes of server.js. Each runs the token gate first and
 * answers 401 without touching the store when it refuses; past the gate, save
 * appends one record and get copies the identity's history into the response.
 */
module Server {
  import opened Wrappers
  import opened Json
  import opened Auth
  import opened History

  /** What a route reads of an HTTP request: the parsed JSON body and the Authorization header value as the HTTP parser delivers it. */
  datatype Request = Request(body: map<string, Value>, authorization: Option<string>)

  datatype Body =
    | Error(error: string)
    | Message(message: string)
    | HistoryList(history: seq<Record>)

  datatype Response = Response(status: int, body: Body)

  /** The gate as the routes run it: the body's `token` field and the header. */
  function Gate(req: Request, verify: Verifier): (o: Outcome)
    ensures o == NoTokenProvided <==>
              !Truthy(Field(req.body, "token")) &&
              (req.authorization.None? || req.authorization.value == "" || req.authorization.value == BearerPrefix)
    ensures o == InvalidToken ==> verify(SelectToken(Field(req.body, "token"), req.authorization)).None?
    ensures o.Proceed? ==> verify(SelectToken(Field(req.body, "token"), req.authorization)) == Some(o.user)
  {
    NoTokenIff(Field(req.body, "token"), req.authorization, verify);
    VerifyToken(Field(req.body, "token"), req.authorization, verify)
  }

  /** `res.status(401).json({ error: … })` for a refused request. */
  function Unauthorized(o: Outcome): (r: Response)
    requires !o.Proceed?
    ensures r.status == 401
    ensures o == NoTokenProvided ==> r.body == Error("No token provided")
    ensures o == InvalidToken ==> r.body == Error("Invalid token")
  {
    Response(401, Error(if o.NoTokenProvided? then "No token provided" else "Invalid token"))
  }

  /** `POST /auth`: a sign-in round trip that answers "Authenticated" exactly when the gate lets it through. */
  function AuthRoute(req: Request, verify: Verifier): (r: Response)
    ensures r.status == 200 <==> Gate(req, verify).Proceed?
    ensures r.status == 200 ==> r.body == Message("Authenticated")
    ensures Gate(req, verify) == NoTokenProvided ==> r == Response(401, Error("No token provided"))
    ensures Gate(req, verify) == InvalidToken ==> r == Response(401, Error("Invalid token"))
  {
    var o := Gate(req, verify);
    if o.Proceed? then Response(200, Message("Authenticated")) else Unauthorized(o)
  }

  /**
   * `POST /api/save-history` with the clock reading `now`: past the gate, exactly
   * one record is appended, owned by the verified email; refused, the store is left
   * as it was.
   */
  method SaveHistory(store: HistoryStore, req: Request, verify: Verifier, now: int) returns (resp: Response)
    modifies store
    ensures var o := Gate(req, verify);
      if o.Proceed? then
        store.records == old(store.records) + [NewRecord(o.user.email, req.body, now)] &&
        resp == Response(200, Message("Saved"))
      else
        store.records == old(store.records) && resp == Unauthorized(o)
  {
    var outcome := Gate(req, verify);
    if !outcome.Proceed? {
      return Unauthorized(outcome);
    }
    store.Add(NewRecord(outcome.user.email, req.body, now));
    resp := Response(200, Message("Saved"));
  }

  /**
   * `GET /api/get-history`: past the gate, the response lists the verified
   * identity's records newest first, copied one by one out of the query snapshot.
   * The store is only read.
   */
  method GetHistory(store: HistoryStore, req: Request, verify: Verifier) returns (resp: Response)
    ensures var o := Gate(req, verify);
      if o.Proceed? then resp == Response(200, HistoryList(Query(store.records, o.user.email)))
      else resp == Unauthorized(o)
  {
    var outcome := Gate(req, verify);
    if !outcome.Proceed? {
      return Unauthorized(outcome);
    }
    var snapshot := Query(store.records, outcome.user.email);
    var items := CopyDocs(snapshot);
    resp := Response(200, HistoryList(items));
  }

  /** `snapshot.forEach(doc => items.push(doc.data()))`: every document, in snapshot order. */
  method CopyDocs(snapshot: seq<Record>) returns (items: seq<Record>)
    ensures items == snapshot
  {
    items := [];
    var i := 0;
    while i < |snapshot|
      invariant 0 <= i <= |snapshot|
      invariant items == snapshot[..i]
    {
      items := items + [snapshot[i]];
      i := i + 1;
    }
    assert snapshot[..i] == snapshot;
  }
}
