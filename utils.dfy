/** The request wrapper and the response log line of the application's utilities: the time budget
    a request hands to its upstream calls, the referer validation every request passes, and the
    ten-field `" | "`-separated line written for each response. */
module Utils {
  import opened Json
  import opened JsText

  /** What the request library reports about the client; `None` is a null value. */
  datatype ClientInfo = ClientInfo(
    ip: Option<string>,
    userAgent: Option<string>,
    origin: Option<string>,
    referer: Option<string>,
    route: Option<string>)

  /** How `Array.prototype.join` renders a value that may be null: null as the empty string. */
  function Text(v: Option<string>): string
  {
    if v.Some? then v.value else ""
  }

  /** The remaining time the platform clock reports, with the `|| 1000` fallback: a reading of 0
      (falsy) becomes 1000 ms, any other reading is kept. */
  function RemainingTime(reading: int): (ms: int)
    ensures ms != 0
    ensures reading != 0 ==> ms == reading
    ensures reading == 0 ==> ms == 1000
  {
    if reading != 0 then reading else 1000
  }

  /** The time left once `headroom` is set aside, never negative. */
  function Budget(remaining: int, headroom: int): (ms: nat)
    ensures ms >= remaining - headroom
    ensures ms == 0 || ms == remaining - headroom
  {
    var rt := remaining - headroom;
    if rt > 0 then rt else 0
  }

  /** More headroom never leaves more time. */
  lemma BudgetAntitone(remaining: int, h1: int, h2: int)
    requires h1 <= h2
    ensures Budget(remaining, h2) <= Budget(remaining, h1)
  {
  }

  /** More headroom leaves strictly less time until the budget reaches 0. */
  lemma BudgetStrictlyDecreasing(remaining: int, h1: int, h2: int)
    requires h1 < h2 && Budget(remaining, h1) > 0
    ensures Budget(remaining, h2) < Budget(remaining, h1)
  {
  }

  /** The default headroom 0 leaves the whole remaining time when that is positive. */
  lemma BudgetNoHeadroom(remaining: int)
    requires remaining > 0
    ensures Budget(remaining, 0) == remaining
  {
  }

  /** A request: the client information, whether a platform context was given (`#context` is not
      null), and the validity set by the constructor. */
  class Request {
    var client: ClientInfo
    var hasContext: bool
    var isValid: bool

    /** The referer validation a request runs at construction: every referer is accepted. */
    static function IsValidReferer(): (r: bool)
      ensures r
    {
      true
    }

    /** The constructor records the validity (always true) and the context. */
    constructor (client: ClientInfo, hasContext: bool)
      ensures this.client == client && this.hasContext == hasContext
      ensures isValid
    {
      this.client := client;
      this.hasContext := hasContext;
      isValid := IsValidReferer();
    }

    /** `getRemainingTimeInMillis()`, given the reading of the context's clock. Without a context
        the call is made on null and throws, though the documentation promises 1000. */
    method GetRemainingTimeInMillis(reading: int) returns (r: Outcome<int>)
      ensures hasContext ==> r == Returns(RemainingTime(reading))
      ensures !hasContext ==> r == Throws(TypeError)
    {
      if !hasContext {
        r := Throws(TypeError);
      } else {
        r := Returns(if reading != 0 then reading else 1000);
      }
    }

    /** `calcRemainingTimeInMillis(headroom)`: the remaining time less the headroom, at least 0. */
    method CalcRemainingTimeInMillis(reading: int, headroom: int) returns (r: Outcome<int>)
      ensures hasContext ==> r.Returns? && r.value >= 0 && r.value == Budget(RemainingTime(reading), headroom)
      ensures !hasContext ==> r == Throws(TypeError)
    {
      var remaining := GetRemainingTimeInMillis(reading);
      match remaining {
        case Throws(e) =>
          r := Throws(e);
        case Returns(ms) =>
          var rt := ms - headroom;
          r := Returns(if rt > 0 then rt else 0);
      }
    }
  }

  /** What the response log line reads from the response: its status code, the byte length of its
      body (`None` for a null body) and its headers. */
  datatype ResponseInfo = ResponseInfo(statusCode: int, bodyBytes: Option<nat>, headers: map<string, string>)

  /** A client value, or "-" when it is empty or null. */
  function OrDash(v: Option<string>): (r: string)
    ensures r != ""
    ensures v.Some? && v.value != "" ==> r == v.value
    ensures !(v.Some? && v.value != "") ==> r == "-"
  {
    if v.Some? && v.value != "" then v.value else "-"
  }

  /** The user-agent field is empty only for the user agent "|". */
  lemma UserAgentField(ua: Option<string>)
    ensures RemoveFirst(OrDash(ua), '|') == "" <==> ua == Some("|")
  {
    var s := OrDash(ua);
    RemoveFirstCount(s, '|');
    if RemoveFirst(s, '|') == "" {
      assert '|' in s && |s| == 1;
      assert s == [s[0]] && s[0] == '|';
    }
  }

  /** The body size field: the byte length of the body, "0" for a null body. */
  function Bytes(response: ResponseInfo): (r: string)
    ensures response.bodyBytes.None? ==> r == "0"
    ensures response.bodyBytes.Some? ==> r == Decimal(response.bodyBytes.value)
  {
    ZeroBytes();
    Decimal(if response.bodyBytes.Some? then response.bodyBytes.value else 0)
  }

  /** The execution time field: the `x-exec-ms` header, "-" when there is none. */
  function ExecMs(response: ResponseInfo): (r: string)
    ensures "x-exec-ms" in response.headers ==> r == response.headers["x-exec-ms"]
    ensures "x-exec-ms" !in response.headers ==> r == "-"
  {
    if "x-exec-ms" in response.headers then response.headers["x-exec-ms"] else "-"
  }

  /** The ten fields of the response log line, in the order the log parser expects: status code,
      body bytes, execution time, client IP, user agent with its first "|" removed, origin,
      referer, route, params and key. A null client IP or route joins as the empty string. */
  function ResponseFields(response: ResponseInfo, client: ClientInfo): (r: seq<string>)
    ensures |r| == 10
    ensures r[0] == Decimal(response.statusCode)
    ensures r[1] == Bytes(response) && r[2] == ExecMs(response)
    ensures r[3] == Text(client.ip)
    ensures r[4] == RemoveFirst(OrDash(client.userAgent), '|')
    ensures r[5] == OrDash(client.origin) && r[6] == OrDash(client.referer)
    ensures r[7] == Text(client.route)
    ensures r[8] == "-" && r[9] == "-"
  {
    [ Decimal(response.statusCode),
      Bytes(response),
      ExecMs(response),
      Text(client.ip),
      RemoveFirst(OrDash(client.userAgent), '|'),
      OrDash(client.origin),
      OrDash(client.referer),
      Text(client.route),
      "-",
      "-" ]
  }

  /** `Log.response`: the fields pushed one by one, then joined with " | ". */
  method Response(response: ResponseInfo, client: ClientInfo) returns (msg: string)
    ensures msg == Join(ResponseFields(response, client), " | ")
  {
    var logFields: seq<string> := [];
    logFields := logFields + [Decimal(response.statusCode)];
    logFields := logFields + [Bytes(response)];
    logFields := logFields + [ExecMs(response)];
    logFields := logFields + [Text(client.ip)];
    logFields := logFields + [RemoveFirst(OrDash(client.userAgent), '|')];
    logFields := logFields + [OrDash(client.origin)];
    logFields := logFields + [OrDash(client.referer)];
    logFields := logFields + [Text(client.route)];
    logFields := logFields + ["-"];
    logFields := logFields + ["-"];
    assert logFields == ResponseFields(response, client);
    msg := Join(logFields, " | ");
  }

  /** A null body logs "0" bytes. */
  lemma ZeroBytes()
    ensures Decimal(0) == "0"
  {
    assert DigitChar(0) == '0';
  }

  lemma DecimalHasNoPipe(n: int)
    ensures '|' !in Decimal(n)
  {
    var d := Decimal(n);
    assert forall i | 0 <= i < |d| :: d[i] != '|' by {
      if n < 0 {
        assert forall i | 1 <= i < |d| :: d[i] == NatDecimal(-n)[i - 1];
      }
    }
  }

  /** A value with at most one "|", with that one removed, holds none. */
  lemma RemoveOnlyPipe(s: string)
    requires Count(s, '|') <= 1
    ensures '|' !in RemoveFirst(s, '|')
  {
    RemoveFirstCount(s, '|');
    CountAbsent(s, '|');
    CountAbsent(RemoveFirst(s, '|'), '|');
  }

  /** Pipe-free client values (and at most one "|" in the user agent, which is removed) give a
      line the log parser splits back into the ten fields: piece `k` is field `k` with the spaces
      around the separators, so the line has exactly nine "|". */
  lemma {:induction false} ResponseLineSplitsIntoTen(response: ResponseInfo, client: ClientInfo)
    requires '|' !in Text(client.ip) && '|' !in OrDash(client.origin) && '|' !in OrDash(client.referer)
    requires '|' !in Text(client.route)
    requires "x-exec-ms" in response.headers ==> '|' !in response.headers["x-exec-ms"]
    requires client.userAgent.Some? ==> Count(client.userAgent.value, '|') <= 1
    ensures var pieces := Split(Join(ResponseFields(response, client), " | "), '|');
      |pieces| == 10 && forall k | 0 <= k < 10 :: pieces[k] == Padded(ResponseFields(response, client), k)
    ensures Count(Join(ResponseFields(response, client), " | "), '|') == 9
  {
    var f := ResponseFields(response, client);
    DecimalHasNoPipe(response.statusCode);
    DecimalHasNoPipe(if response.bodyBytes.Some? then response.bodyBytes.value else 0);
    assert Count("-", '|') == 0;
    RemoveOnlyPipe(OrDash(client.userAgent));
    assert forall i | 0 <= i < |f| :: '|' !in f[i];
    assert [' ', '|', ' '] == " | ";
    SplitPadded(f, '|');
  }

  /** Only the first "|" of the user agent is removed: one with two keeps the second. */
  lemma UserAgentKeepsSecondPipe(response: ResponseInfo, client: ClientInfo)
    requires client.userAgent.Some? && Count(client.userAgent.value, '|') == 2
    ensures '|' in ResponseFields(response, client)[4]
  {
    CountAbsent(client.userAgent.value, '|');
    RemoveFirstCount(OrDash(client.userAgent), '|');
    CountAbsent(ResponseFields(response, client)[4], '|');
  }
}
