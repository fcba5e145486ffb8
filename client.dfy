/**
 * The logic of public/script.js that is not rendering or network: the flag emoji
 * of a currency, the App component's navbar, swap and convert state, and the body
 * that `handleConvert` posts to the save route.
 */
module Client {
  import opened Wrappers
  import opened Json

  /** U+1F310 GLOBE WITH MERIDIANS, shown for a currency without a country. */
  const Globe: seq<int> := [0x1F310]

  /** U+1F1E6 REGIONAL INDICATOR SYMBOL LETTER A minus 'A'. */
  const RegionalIndicatorOffset: int := 127397

  /** `toUpperCase` on one character, for the ASCII letters. */
  function AsciiUpper(c: char): (u: char)
    ensures 'a' <= c <= 'z' ==> u as int == c as int - 32
    ensures !('a' <= c <= 'z') ==> u == c
  {
    if 'a' <= c <= 'z' then (c as int - 32) as char else c
  }

  function AsciiUpperString(s: string): (u: string)
    ensures |u| == |s|
    ensures forall i :: 0 <= i < |s| ==> u[i] == AsciiUpper(s[i])
  {
    seq(|s|, i requires 0 <= i < |s| => AsciiUpper(s[i]))
  }

  predicate IsAsciiLetters(s: string) {
    forall i :: 0 <= i < |s| ==> 'a' <= s[i] <= 'z' || 'A' <= s[i] <= 'Z'
  }

  /**
   * `getFlag(code)`: the globe when the table has no (or an empty) country for the
   * code; otherwise one code point per character of the country, its upper-case
   * letter shifted into the regional-indicator block.
   */
  function Flag(flags: map<string, string>, code: string): (r: seq<int>)
    ensures code !in flags || flags[code] == "" ==> r == Globe
    ensures code in flags && flags[code] != "" ==>
              |r| == |flags[code]| &&
              forall i :: 0 <= i < |r| ==> r[i] == AsciiUpper(flags[code][i]) as int + RegionalIndicatorOffset
  {
    if code !in flags || flags[code] == "" then Globe
    else
      var country := flags[code];
      seq(|country|, i requires 0 <= i < |country| => AsciiUpper(country[i]) as int + RegionalIndicatorOffset)
  }

  /** "US" (in either case) becomes U+1F1FA U+1F1F8, the flag of the United States. */
  lemma FlagOfUnitedStates()
    ensures Flag(map["USD" := "us"], "USD") == [0x1F1FA, 0x1F1F8]
    ensures Flag(map["USD" := "US"], "USD") == [0x1F1FA, 0x1F1F8]
  {
  }

  /** A country written in ASCII letters becomes a sequence of regional-indicator symbols. */
  lemma FlagIsRegionalIndicators(flags: map<string, string>, code: string)
    requires code in flags && flags[code] != "" && IsAsciiLetters(flags[code])
    ensures forall i :: 0 <= i < |Flag(flags, code)| ==> 0x1F1E6 <= Flag(flags, code)[i] <= 0x1F1FF
    ensures Flag(flags, code) != Globe
  {
    var r := Flag(flags, code);
    assert 0x1F1E6 <= r[0] <= 0x1F1FF;
  }

  /** Two currencies show the same flag exactly when their countries agree up to letter case. */
  lemma SameFlagIff(flags: map<string, string>, a: string, b: string)
    requires a in flags && flags[a] != "" && b in flags && flags[b] != ""
    ensures Flag(flags, a) == Flag(flags, b) <==> AsciiUpperString(flags[a]) == AsciiUpperString(flags[b])
  {
    var fa, fb := Flag(flags, a), Flag(flags, b);
    var ua, ub := AsciiUpperString(flags[a]), AsciiUpperString(flags[b]);
    if fa == fb {
      forall i | 0 <= i < |ua| ensures ua[i] == ub[i] {
        assert fa[i] == fb[i];
      }
    }
    if ua == ub {
      forall i | 0 <= i < |fa| ensures fa[i] == fb[i] {
        assert ua[i] == ub[i];
      }
    }
  }

  // ---------------------------------------------------------------------------
  // handleConvert
  // ---------------------------------------------------------------------------

  /** The query sent to the rate service: `latest?amount=…&from=…&to=…`. */
  datatype RateQuery = RateQuery(amount: string, from: string, to: string)

  /** The rate service as the client uses it: `data.rates[to]` for a query. */
  type RateLookup = RateQuery -> Value

  /** What one click on Convert does. */
  datatype ConvertOutcome =
    | EnterAmountAlert                                            // alert, nothing fetched, nothing saved
    | SaveRequested(query: RateQuery, body: map<string, Value>)  // looked up, then posted to the save route

  /**
   * The JSON body posted to `/api/save-history`: the session token (`null` when no
   * one is signed in), the form's currencies and amount, and the looked-up value
   * as both `result` and `rate`.
   */
  function SaveBody(idToken: Option<string>, from: string, to: string, amount: string, out: Value): (b: map<string, Value>)
    ensures b.Keys == {"token", "from", "to", "amount", "result", "rate"}
    ensures b["token"] == (if idToken.Some? then Str(idToken.value) else Null)
    ensures b["from"] == Str(from) && b["to"] == Str(to) && b["amount"] == Str(amount)
    ensures b["result"] == out && b["rate"] == out
  {
    map["token" := (if idToken.Some? then Str(idToken.value) else Null),
        "from" := Str(from), "to" := Str(to), "amount" := Str(amount),
        "result" := out, "rate" := out]
  }

  // ---------------------------------------------------------------------------
  // The App component's state.
  // ---------------------------------------------------------------------------

  /** The React state of `App` that the event handlers read and set. */
  class App {
    var amount: string
    var from: string
    var to: string
    var historyVisible: bool
    var profileVisible: bool

    /** The initial `useState` values. */
    constructor ()
      ensures amount == "" && from == "USD" && to == "EUR"
      ensures !historyVisible && !profileVisible
    {
      amount, from, to := "", "USD", "EUR";
      historyVisible, profileVisible := false, false;
    }

    /** At most one of the two panels is open; every navbar event leaves it so. */
    predicate PanelsExclusive()
      reads this
    {
      !(historyVisible && profileVisible)
    }

    /** The History button: the profile closes and the history panel flips. */
    method OnHistory()
      modifies this
      ensures !profileVisible && historyVisible == !old(historyVisible)
      ensures PanelsExclusive()
      ensures amount == old(amount) && from == old(from) && to == old(to)
    {
      var wasVisible := historyVisible;
      profileVisible := false;
      historyVisible := !wasVisible;
    }

    /** The Profile button: the history closes and the profile panel flips. */
    method OnProfile()
      modifies this
      ensures !historyVisible && profileVisible == !old(profileVisible)
      ensures PanelsExclusive()
      ensures amount == old(amount) && from == old(from) && to == old(to)
    {
      var wasVisible := profileVisible;
      historyVisible := false;
      profileVisible := !wasVisible;
    }

    /** The ⇆ control: the two currencies trade places. */
    method Swap()
      modifies this
      ensures from == old(to) && to == old(from)
      ensures amount == old(amount)
      ensures historyVisible == old(historyVisible) && profileVisible == old(profileVisible)
    {
      var oldFrom, oldTo := from, to;
      from := oldTo;
      to := oldFrom;
    }

    /**
     * `handleConvert` with the rate service `lookup` and the session token
     * `idToken`: an empty amount stops at the alert; otherwise the rate service is
     * asked once and its answer is posted with the form's fields.
     */
    function HandleConvert(lookup: RateLookup, idToken: Option<string>): (c: ConvertOutcome)
      reads this
      ensures c == EnterAmountAlert <==> amount == ""
      ensures c.SaveRequested? ==> c.query == RateQuery(amount, from, to)
      ensures c.SaveRequested? ==> c.body == SaveBody(idToken, from, to, amount, lookup(c.query))
    {
      if amount == "" then EnterAmountAlert
      else
        var q := RateQuery(amount, from, to);
        SaveRequested(q, SaveBody(idToken, from, to, amount, lookup(q)))
    }
  }

  /** The navbar from the initial state: at most one panel is ever open, and swapping twice changes nothing. */
  method NavbarScenario()
  {
    var app := new App();
    app.OnHistory();
    assert app.historyVisible && !app.profileVisible;
    app.OnProfile();
    assert !app.historyVisible && app.profileVisible;
    app.OnProfile();
    assert !app.historyVisible && !app.profileVisible;
    app.Swap();
    assert app.from == "EUR" && app.to == "USD";
    app.Swap();
    assert app.from == "USD" && app.to == "EUR";
  }
}
