/**
 * The JavaScript bridge of the app's JsInterface.java: `postMessage(name, data)` and
 * `eventTracker(type, values)` both hand an event name and a JSON text to `handleEvent`, which
 * looks the name up in a fixed table and tracks an Adjust event, with revenue for the deposit
 * events, or opens a URL for `openWindow`.
 *
 * Parsing the JSON text is a parameter (`parse`, `None` for text that `new JSONObject(..)`
 * rejects); an `AdjustEvent` built by successive setter calls is a record; what the Adjust SDK
 * and the activity do with it is an `Action`.
 */
module JsInterface {
  import opened Wrappers

  const TokenLogin: string := "p9dh8r"
  const TokenLogout: string := "bp18i2"
  const TokenRegisterClick: string := "wtjysl"
  const TokenRegister: string := "he7g8i"
  const TokenRechargeClick: string := "mf0wxn"
  const TokenRecharge: string := "47qwd6"
  const TokenFirstRecharge: string := "yvgfgt"
  const TokenEnterGame: string := "z0p9lo"

  const DefaultCurrency: string := "USD"

  /**
   * A JSON value: a string keeps what `Double.valueOf` makes of it, a number the text Java
   * prints for it, and a nested object or array its JSON text.
   */
  datatype JsonValue =
    | JString(s: string, asNumber: Option<real>)
    | JNumber(n: real, text: string)
    | JBool(b: bool)
    | JNull
    | JNested(text: string)

  type JsonObject = map<string, JsonValue>

  /** The text `optString` gives for a present value. */
  function ValueText(v: JsonValue): string {
    match v
    case JString(s, _) => s
    case JNumber(_, text) => text
    case JBool(b) => if b then "true" else "false"
    case JNull => "null"
    case JNested(text) => text
  }

  /** `json.optString(key, fallback)`: the value's text, or `fallback` when the key is missing. */
  function OptString(json: JsonObject, key: string, fallback: string): (r: string)
    ensures key !in json ==> r == fallback
    ensures key in json && json[key].JString? ==> r == json[key].s
  {
    if key in json then ValueText(json[key]) else fallback
  }

  /** `json.optDouble(key, fallback)`: a number, or a string that reads as one; otherwise `fallback`. */
  function OptDouble(json: JsonObject, key: string, fallback: real): (r: real)
    ensures key !in json ==> r == fallback
    ensures key in json && json[key].JNumber? ==> r == json[key].n
  {
    if key !in json then fallback
    else
      match json[key]
      case JNumber(n, _) => n
      case JString(_, asNumber) => if asNumber.Some? then asNumber.value else fallback
      case _ => fallback
  }

  /** An Adjust event as the setters leave it. */
  datatype AdjustEvent = AdjustEvent(token: string, revenue: Option<(real, string)>, callbackParameters: seq<(string, string)>)

  /** What one call of `handleEvent` does. */
  datatype Action =
    | Nothing
    | Track(event: AdjustEvent)   // `Adjust.trackEvent(event)`
    | Open(url: string)           // `activity.startActivity` on a VIEW intent for `url`

  /** The `uid` and then the `cid` callback parameter, each only when the data has it. */
  function CallbackParameters(json: JsonObject): (r: seq<(string, string)>)
    ensures forall key :: (exists i :: 0 <= i < |r| && r[i].0 == key) <==> (key == "uid" || key == "cid") && key in json
    ensures forall i :: 0 <= i < |r| ==> r[i].1 == OptString(json, r[i].0, "")
    ensures forall i, j :: 0 <= i < j < |r| ==> r[i].0 == "uid" && r[j].0 == "cid"
  {
    var uid := if "uid" in json then [("uid", OptString(json, "uid", ""))] else [];
    var cid := if "cid" in json then [("cid", OptString(json, "cid", ""))] else [];
    var r := uid + cid;
    assert "uid" in json ==> r[0].0 == "uid";
    assert "cid" in json ==> r[|r| - 1].0 == "cid";
    r
  }

  /** `sendEvent(token, json)`: the token and the callback parameters, no revenue. */
  function PlainEvent(token: string, json: JsonObject): (e: AdjustEvent)
    ensures e.token == token && e.revenue.None?
    ensures e.callbackParameters == CallbackParameters(json)
  {
    AdjustEvent(token, None, CallbackParameters(json))
  }

  /**
   * `sendRevenueEvent(token, json)`: revenue is set only for a positive amount, in the data's
   * currency or `USD` when it has none.
   */
  function RevenueEvent(token: string, json: JsonObject): (e: AdjustEvent)
    ensures e.token == token
    ensures e.revenue.Some? <==> OptDouble(json, "amount", 0.0) > 0.0
    ensures e.revenue.Some? ==> e.revenue.value.0 == OptDouble(json, "amount", 0.0)
    ensures e.revenue.Some? ==> e.revenue.value.1 == if "currency" in json then ValueText(json["currency"]) else DefaultCurrency
    ensures e.callbackParameters == CallbackParameters(json)
  {
    var amount := OptDouble(json, "amount", 0.0);
    var currency := OptString(json, "currency", DefaultCurrency);
    AdjustEvent(token, if amount > 0.0 then Some((amount, currency)) else None, CallbackParameters(json))
  }

  /** What `handleEvent`'s `switch` does for an event name. */
  datatype Handler = Plain(token: string) | Revenue(token: string) | OpenWindow | Ignored

  /** The `switch (name)` table. */
  function HandlerOf(name: string): Handler {
    match name
    case "login" => Plain(TokenLogin)
    case "logout" => Plain(TokenLogout)
    case "registerClick" => Plain(TokenRegisterClick)
    case "register" => Plain(TokenRegister)
    case "rechargeClick" => Plain(TokenRechargeClick)
    case "recharge" => Revenue(TokenRecharge)
    case "firstrecharge" => Revenue(TokenFirstRecharge)
    case "firstDepositArrival" => Revenue(TokenFirstRecharge)
    case "enterGame" => Plain(TokenEnterGame)
    case "openWindow" => OpenWindow
    case _ => Ignored
  }

  /** The names the table handles. */
  const KnownNames: set<string> := {
    "login", "logout", "registerClick", "register", "rechargeClick",
    "recharge", "firstrecharge", "firstDepositArrival", "enterGame", "openWindow" }

  /** The event names that carry revenue. */
  const RevenueNames: set<string> := {"recharge", "firstrecharge", "firstDepositArrival"}

  /**
   * The table handles exactly the known names; revenue goes with the deposit names only;
   * two names share a token only when both are first-deposit names.
   */
  lemma HandlerTable(name: string, other: string)
    ensures HandlerOf(name) != Ignored <==> name in KnownNames
    ensures HandlerOf(name).Revenue? <==> name in RevenueNames
    ensures HandlerOf(name).Plain? || HandlerOf(name).Revenue? ==>
      (HandlerOf(other).Plain? || HandlerOf(other).Revenue?) && HandlerOf(name).token == HandlerOf(other).token
      ==> name == other || {name, other} == {"firstrecharge", "firstDepositArrival"}
  {
  }

  /** The data `handleEvent` works on: an empty object for `null` or empty text, else the parse. */
  function DataObject(data: Option<string>, parse: string -> Option<JsonObject>): (r: Option<JsonObject>)
    ensures data.None? || data.value == "" ==> r == Some(map[])
    ensures data.Some? && data.value != "" ==> r == parse(data.value)
  {
    if data.None? || data.value == "" then Some(map[]) else parse(data.value)
  }

  /**
   * `handleEvent(name, data)`: a `null` name or data that does not parse raise an exception
   * that is caught, and nothing happens; otherwise the name's handler runs on the data.
   * `openWindow` opens the data's `url` unless it is missing or empty.
   */
  function HandleEvent(name: Option<string>, data: Option<string>, parse: string -> Option<JsonObject>): (a: Action)
    ensures name.None? || DataObject(data, parse).None? ==> a == Nothing
    ensures a.Track? ==> name.Some? && DataObject(data, parse).Some?
    ensures a.Track? ==> HandlerOf(name.value) == Plain(a.event.token) || HandlerOf(name.value) == Revenue(a.event.token)
    ensures a.Track? && a.event.revenue.Some? ==> name.value in RevenueNames
    ensures a.Open? ==> name == Some("openWindow") && a.url != ""
    ensures name.Some? && HandlerOf(name.value) == Ignored ==> a == Nothing
    ensures name.Some? && DataObject(data, parse).Some? ==>
      var json := DataObject(data, parse).value;
      && (HandlerOf(name.value).Plain? ==> a == Track(PlainEvent(HandlerOf(name.value).token, json)))
      && (HandlerOf(name.value).Revenue? ==> a == Track(RevenueEvent(HandlerOf(name.value).token, json)))
      && (HandlerOf(name.value).OpenWindow? ==>
            a == if OptString(json, "url", "") != "" then Open(OptString(json, "url", "")) else Nothing)
  {
    match (name, DataObject(data, parse))
    case (None, _) => Nothing
    case (_, None) => Nothing
    case (Some(n), Some(json)) =>
      HandlerTable(n, n);
      match HandlerOf(n)
      case Plain(token) => Track(PlainEvent(token, json))
      case Revenue(token) => Track(RevenueEvent(token, json))
      case OpenWindow =>
        var url := OptString(json, "url", "");
        if url == "" then Nothing else Open(url)
      case Ignored => Nothing
  }

  /** `firstrecharge` and `firstDepositArrival` are one event under two names. */
  lemma FirstDepositAliases(data: Option<string>, parse: string -> Option<JsonObject>)
    ensures HandleEvent(Some("firstrecharge"), data, parse) == HandleEvent(Some("firstDepositArrival"), data, parse)
  {
  }

  /** Empty data and `null` data are handled alike, as an empty object. */
  lemma EmptyDataIsNull(name: Option<string>, parse: string -> Option<JsonObject>)
    ensures HandleEvent(name, Some(""), parse) == HandleEvent(name, None, parse)
  {
  }

  /** A deposit with an amount above zero is tracked with that revenue, in `USD` unless the data names a currency. */
  lemma DepositRevenue(name: string, json: JsonObject, amount: real, text: string)
    requires name in RevenueNames && "amount" in json && json["amount"] == JNumber(amount, text) && amount > 0.0
    requires "currency" !in json
    ensures var a := HandleEvent(Some(name), Some("{}"), (t: string) => Some(json));
      a.Track? && a.event.revenue == Some((amount, DefaultCurrency))
  {
  }
}
