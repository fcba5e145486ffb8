# Currency converter: token gate, conversion history, client logic

A Dafny model of the logic in a small Express + React currency converter:

- **Token gate** (`Auth`, the `verifyToken` middleware of `server.js`). The token
  is the body's `token` field when that is truthy; otherwise the `Authorization`
  header with its first `"Bearer "` cut out. A falsy token gets 401
  `{error: "No token provided"}` before the identity provider is consulted. A token
  the provider rejects gets 401 `{error: "Invalid token"}`. Any other request goes
  on with the decoded identity. The provider's `verifyIdToken` is a function
  parameter (`Verifier`, from a JSON value to an optional identity).
- **History store** (`History`, `Server`). The Firestore `history` collection is
  the class `HistoryStore`, holding a `seq<Record>` that only grows. For a request
  that passes the gate, `/api/save-history` appends exactly one record. Its `email`
  comes from the verified identity. Its `timestamp` is the `now` parameter, which
  stands for `Date.now()`. The other five fields are copied from the body.
  `/api/get-history` runs the query "this email, newest first" (`Query`). It then
  copies the snapshot record by record into the response, in a loop.
- **Client** (`Client`, `public/script.js`). `getFlag` maps a currency to a flag,
  as a sequence of Unicode code points (regional indicators, Unicode Technical
  Standard #51, Annex B). The flag table is a `map<string, string>` parameter. The
  App component's navbar and swap state is a class with `modifies` methods.
  `handleConvert` has an empty-amount guard and builds the body it posts. The
  rate service is a function parameter.
- **End to end** (`EndToEnd`). This module ties what the client sends to what the
  server does with it.

JSON values (`Json.Value`) follow JavaScript truthiness. A request body is a
`map<string, Value>`, and a key it lacks reads as `Undefined`. The conversion
values are opaque: they are only copied.

The body token is read first; the header is used only when it is falsy.
`Request.authorization` is the header value as the HTTP parser hands it over,
so the "exactly `"Bearer "`" case of `Auth.NoTokenIff` and `Server.Gate` is
about that parsed value (a parser that trims surrounding whitespace turns a
sent `Bearer ` into `Bearer`).
The client posts `amount` as the input field's text.

## Model

| member | source | states |
|---|---|---|
| `Auth.IndexOfFrom` | server.js:25 | the first index at or after `from` where the pattern occurs, or None when no occurrence exists there |
| `Auth.RemoveFirst` | server.js:25 | a string with no occurrence of the pattern is returned unchanged; otherwise exactly the first occurrence is cut out |
| `Auth.StripBearerOfBearerForm` | server.js:23-25 | an `Authorization: Bearer <t>` header yields exactly `<t>` |
| `Auth.StripBearerOfRawToken` | server.js:24-25 | a header holding a raw token without a space (the client's history fetch) is used verbatim |
| `Auth.StripBearerEmptyIff` | server.js:24-28 | a non-empty header strips to the empty token if and only if it is exactly `"Bearer "` |
| `Json.Truthy` | server.js:24-28 | a value is truthy exactly when it is none of undefined, null, false, 0 and the empty string |
| `Json.Field` | server.js:21 | a body key reads as its value, a missing key as undefined |
| `Auth.StripBearer` | server.js:25 | a header without `"Bearer "` is kept; otherwise exactly its first `"Bearer "` is cut out |
| `Auth.SelectToken` | server.js:21-26 | a truthy body token is used as it is; a falsy one gives way to a non-empty header minus its first `"Bearer "`; with no usable header the body value stays |
| `Auth.VerifyToken` | server.js:20-37 | NoTokenProvided if and only if the selected token is falsy; InvalidToken if and only if it is truthy and the verifier rejects it; Proceed carries the verifier's identity |
| `Auth.NoTokenIff` | server.js:21-28 | "No token provided" exactly when the body token is falsy and the header is missing, empty or exactly `"Bearer "`, whatever the verifier would answer |
| `Auth.OnlySelectedTokenIsVerified` | server.js:28-36 | two verifiers that agree on the selected token give the same outcome, so the verifier is asked only about that token, and not at all when it is falsy |
| `Auth.BodyTokenWins` | server.js:21-26 | with a truthy body token the header has no effect; the outcome is the verifier's answer for the body token |
| `Auth.BearerHeaderActsAsBodyToken` | server.js:21-26 | without a body token, `Authorization: Bearer t` behaves exactly like body token `t` |
| `Auth.RawHeaderActsAsBodyToken` | server.js:21-26 | without a body token, `Authorization: t` (no space in `t`) behaves exactly like body token `t` |
| `History.NewRecord` | server.js:45-51 | the record's email is the verified email and its timestamp the server clock; from, to, amount, rate and result are the body's fields verbatim |
| `History.NewRecordIgnoresOtherFields` | server.js:45-49 | no other body key (an `email`, a `token`, a `timestamp`) changes the stored record |
| `History.OwnedBy` | server.js:60 | keeps exactly the records with the given email, each as many times as it is stored |
| `History.Insert` | server.js:61 | inserting adds exactly that one record (multiset) |
| `History.InsertBounded` | server.js:61 | inserting a record no newer than a bound among records no newer than it gives records no newer than it |
| `History.InsertKeepsNewestFirst` | server.js:61 | inserting into a newest-first list keeps it newest first |
| `History.NewestFirstOrder` | server.js:61 | the ordered result is a permutation of its input with timestamps descending |
| `History.Query` | server.js:59-62 | the snapshot is newest first, holds only the given email's records, and holds each of them as often as it is stored |
| `History.QueryMembers` | server.js:59-62 | a record is in the history if and only if it is stored with that email |
| `History.QueryBounded` | server.js:59-62 | a timestamp bound that all of an identity's stored records respect holds for its whole history |
| `History.QueryEmptyIff` | server.js:59-67 | the history is empty (not an error) if and only if no stored record has that email |
| `History.OwnedByAppend` | server.js:47-60 | an appended record extends its owner's filtered list by itself and leaves every other identity's list alone |
| `History.SavedRecordComesFirst` | server.js:47-62 | a record saved with a timestamp strictly newer than its owner's earlier ones heads the owner's history, followed by the history as it was |
| `History.SaveInvisibleToOthers` | server.js:47-62 | a save by one identity leaves every other identity's history unchanged |
| `History.HistoryStore.constructor` | server.js:17 | the handle sees the collection with whatever records it already holds |
| `History.HistoryStore.Add` | server.js:47 | exactly one record is appended; the earlier records are unchanged |
| `Server.Unauthorized` | server.js:28-35 | a refused request is answered with status 401 and `{error: "No token provided"}` or `{error: "Invalid token"}` according to the refusal |
| `Server.Gate` | server.js:20-37 | the routes' gate refuses with "No token provided" exactly when the body's `token` is falsy and the header is missing, empty or exactly `"Bearer "`; otherwise it gives the verifier's answer for the selected token |
| `Server.AuthRoute` | server.js:40-42 | 200 "Authenticated" if and only if the gate passes; otherwise 401 with the gate's error message |
| `Server.SaveHistory` | server.js:44-54 | past the gate, exactly one record for the verified email is appended and "Saved" is answered; refused, the store is unchanged and 401 is answered |
| `Server.GetHistory` | server.js:56-68 | past the gate, 200 with the verified identity's query result, copied in full by the loop; refused, 401; the store is only read |
| `Server.CopyDocs` | server.js:64-65 | the forEach/push loop copies every snapshot document, in snapshot order |
| `Client.AsciiUpper` | public/script.js:9 | lower-case ASCII letters move down by 32 (a–z become A–Z); every other character is unchanged |
| `Client.AsciiUpperString` | public/script.js:9 | upper-casing keeps the length and upper-cases each character on its own |
| `Client.Flag` | public/script.js:4-13 | the globe U+1F310 for a missing or empty country; otherwise one code point per character, the upper-cased character plus 127397 |
| `Client.FlagOfUnitedStates` | public/script.js:8-12 | "us" and "US" both give U+1F1FA U+1F1F8 |
| `Client.FlagIsRegionalIndicators` | public/script.js:8-12 | a non-empty country of ASCII letters gives only regional-indicator symbols (U+1F1E6 to U+1F1FF), never the globe |
| `Client.SameFlagIff` | public/script.js:8-12 | two currencies with non-empty countries show the same flag if and only if their countries agree up to ASCII case |
| `Client.SaveBody` | public/script.js:214-221 | the posted body has exactly the token (null when signed out), from, to and amount as entered, and the looked-up value as both result and rate |
| `Client.App.constructor` | public/script.js:166-171 | empty amount, USD to EUR, both panels hidden |
| `Client.App.OnHistory` | public/script.js:229-232 | the profile panel is hidden, the history panel's visibility is negated, at most one panel is open, and the form is untouched |
| `Client.App.OnProfile` | public/script.js:233-236 | the history panel is hidden, the profile panel's visibility is negated, at most one panel is open, and the form is untouched |
| `Client.App.Swap` | public/script.js:252 | from and to are exchanged and nothing else changes, so two swaps restore the pair |
| `Client.App.HandleConvert` | public/script.js:199-222 | an empty amount ends at the alert, with no rate query and no save; otherwise one query (amount, from, to) and a save body with the looked-up value |
| `EndToEnd.ClientSaveBodyRecord` | public/script.js:214-221 | the client's save body becomes the record (verified email, from, to, amount, out, out, now) |
| `EndToEnd.SignedOutSaveIsRefused` | public/script.js:210-215 | a save posted with no signed-in user (null token, no header) is answered "No token provided" |
| `EndToEnd.SignedInSaveVerifiesSessionToken` | public/script.js:210-215 | a signed-in save is decided by the verifier's answer for the session token alone |
| `EndToEnd.HistoryFetchWithRawToken` | public/script.js:188-191 | the history fetch's raw `Authorization: <token>` header passes the gate exactly as a body token would |
| `EndToEnd.TwoUsersSeeOnlyTheirOwn` | server.js:56-62 | after two identities each save one record, each identity's history is exactly its own record |

`Client.NavbarScenario` and `EndToEnd.SaveThenReadScenario` are client methods
that use only the contracts above. The first goes through the navbar and swap
events from the initial state. The second saves a conversion, then reads the
history twice and gets the same single record both times.

## Left out

- Firebase Admin initialisation, the service-account key and `process.env` parsing (server.js:9-17): configuration I/O.
- Express setup, static serving, the catch-all `sendFile` and `app.listen` (server.js:5-7, 70-79): HTTP plumbing.
- `verifyIdToken` (server.js:31): a foreign library call, modelled only as the `Verifier` function parameter.
- Identities without an email: such an identity would make the store calls fail, and the model's `Identity` always has an email.
- `Date.now()` (server.js:50): a clock read, taken as the `now` parameter.
- Store failures (a rejected `historyRef.add`, for instance Firestore refusing `undefined` field values, and a rejected query `.get()` at server.js:59-62, for instance for a missing index on the where + orderBy pair): the source catches neither, while the model's `Add` always succeeds and `Server.GetHistory` always answers 200 past the gate.
- Server.GetHistory: its exact response sequence uses the model's tie order. Firestore orders records with equal timestamps by their random document ids; the model puts the later-saved one first. `History.Query`'s own contract (newest first, exact multiset) and `History.SavedRecordComesFirst` (a strictly newer record) hold for any tie order; the exact order among equal timestamps does not.
- JavaScript truthiness of `NaN`: `Json.Num` holds a `real`, so NaN cannot occur.
- JSON serialisation round trips: `JSON.stringify` drops `undefined` fields, and a missing key reads back as `Undefined`, so that case agrees. Number formatting is not modelled.
- Client.AsciiUpper: upper-cases ASCII letters only, not JavaScript's full Unicode `toUpperCase`, which can also change a string's length. Characters count as one UTF-16 unit each, which holds for the Basic Multilingual Plane.
- The contents of `window.currencyFlags`: not shown in the source; taken as the `flags` parameter.
- The rate service (public/script.js:202-207) is the `RateLookup` parameter. Its failures (network errors, or `from == to` leaving `data.rates` undefined) are not handled in the source and are not modelled.
- `setResult` (public/script.js:208): the result text depends on float formatting and is not modelled.
- Firebase client auth: sign-in, popup, registration, sign-out, `onAuthStateChanged` and `getIdToken` (public/script.js:18-22, 43-124, 183-197, 237-240, 279-293). These are foreign calls and async callbacks. The session token is the `idToken` parameter.
- The fetches to `/auth`, `/api/save-history`, `/api/get-history` and the currency list (public/script.js:54-58, 73-77, 176-180, 189-194, 211-222): network I/O. The save body and the history fetch's header appear in the `EndToEnd` lemmas; the `/auth` body and the currency-list fetch do not.
- JSX rendering, `ReactDOM`, `alert`, `window.location.reload`, `toLocaleString`, and the input and select `onChange` setters (public/script.js:27-159, 225-273): UI.
