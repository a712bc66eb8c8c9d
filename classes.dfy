/** The application classes of the earlier single-file application: its request wrapper, the
    `Tests` response model and its two log lines. (Its `Config` getters and referer check are the
    same code as the application's configuration module and are modelled there.) */
module Classes {
  import opened Json
  import opened JsText
  import Utils

  /** A request of the earlier application: client information and the validity set at
      construction. It keeps no platform context. */
  class Request {
    var client: Utils.ClientInfo
    var isValid: bool

    /** The referer validation: every referer is accepted. */
    static function IsValidReferer(): (r: bool)
      ensures r
    {
      true
    }

    constructor (client: Utils.ClientInfo)
      ensures this.client == client
      ensures isValid
    {
      this.client := client;
      isValid := IsValidReferer();
    }
  }

  /** A test object in `Object.keys` order: its keys paired with their values. */
  type TestObject = seq<(string, Json)>

  /** The items the test objects contribute, objects in array order and keys in key order. */
  function Flatten(objects: seq<TestObject>): seq<(string, Json)>
  {
    if objects == [] then [] else objects[0] + Flatten(objects[1..])
  }

  lemma {:induction false} FlattenAppend(objects: seq<TestObject>, last: TestObject)
    ensures Flatten(objects + [last]) == Flatten(objects) + last
  {
    if objects == [] {
      assert [] + [last] == [last];
      assert [last][1..] == [];
    } else {
      assert (objects + [last])[1..] == objects[1..] + [last];
      FlattenAppend(objects[1..], last);
    }
  }

  /** Sum of the numbers of keys of the test objects. */
  function KeyCount(objects: seq<TestObject>): nat
  {
    if objects == [] then 0 else |objects[0]| + KeyCount(objects[1..])
  }

  /** One item per key of each object: no key is skipped or added twice. */
  lemma {:induction false} FlattenLength(objects: seq<TestObject>)
    ensures |Flatten(objects)| == KeyCount(objects)
  {
    if objects != [] {
      FlattenLength(objects[1..]);
    }
  }

  /** Each key in its place: key `k` of object `o` is the item after the keys of the objects
      before `o` and the `k` keys before it in `o`. */
  lemma {:induction false} FlattenAt(objects: seq<TestObject>, o: nat, k: nat)
    requires o < |objects| && k < |objects[o]|
    ensures KeyCount(objects[..o]) + k < |Flatten(objects)|
    ensures Flatten(objects)[KeyCount(objects[..o]) + k] == objects[o][k]
  {
    FlattenLength(objects);
    if o == 0 {
      assert objects[..0] == [];
    } else {
      var rest := objects[1..];
      assert objects[..o][1..] == rest[..o - 1];
      FlattenAt(rest, o - 1, k);
      FlattenLength(rest);
      assert KeyCount(objects[..o]) == |objects[0]| + KeyCount(rest[..o - 1]);
    }
  }

  /** The `Tests` response model; `items` records the `addItemByKey` calls made on it, in order. */
  class Tests {
    var items: seq<(string, Json)>

    constructor ()
      ensures items == []
    {
      items := [];
    }

    /** The library's `addItemByKey(key, value)`, seen as one recorded call. */
    method AddItemByKey(key: string, value: Json)
      modifies this
      ensures items == old(items) + [(key, value)]
    {
      items := items + [(key, value)];
    }

    /** `addTests(objArray)`: for each object in turn, one `addItemByKey` call per key. */
    method AddTests(objArray: seq<TestObject>)
      modifies this
      ensures items == old(items) + Flatten(objArray)
    {
      var i := 0;
      while i < |objArray|
        invariant 0 <= i <= |objArray|
        invariant items == old(items) + Flatten(objArray[..i])
      {
        var test := objArray[i];
        var j := 0;
        while j < |test|
          invariant 0 <= j <= |test|
          invariant items == old(items) + Flatten(objArray[..i]) + test[..j]
        {
          AddItemByKey(test[j].0, test[j].1);
          assert test[..j + 1] == test[..j] + [test[j]];
          j := j + 1;
        }
        assert test[..j] == test;
        assert objArray[..i + 1] == objArray[..i] + [test];
        FlattenAppend(objArray[..i], test);
        i := i + 1;
      }
      assert objArray[..i] == objArray;
    }
  }

  /** A client value, "-" when it is the empty string. A null value is kept, and `join` renders it
      as the empty string. */
  function DashIfEmpty(v: Option<string>): (r: string)
    ensures v == Some("") ==> r == "-"
    ensures v.None? ==> r == ""
    ensures v.Some? && v.value != "" ==> r == v.value
  {
    if v == Some("") then "-" else Utils.Text(v)
  }

  /** The client fields both log lines start with: IP, user agent with its first "|" removed,
      origin, referer. A null user agent throws: `replace` is called on null. */
  function ClientFields(client: Utils.ClientInfo): (r: Outcome<seq<string>>)
    ensures r.Throws? <==> client.userAgent.None?
    ensures r.Returns? ==> |r.value| == 4
    ensures r.Returns? ==> r.value[0] == Utils.Text(client.ip)
    ensures r.Returns? ==> r.value[1] == RemoveFirst(DashIfEmpty(client.userAgent), '|')
    ensures r.Returns? ==> r.value[2] == DashIfEmpty(client.origin)
    ensures r.Returns? ==> r.value[3] == DashIfEmpty(client.referer)
  {
    if client.userAgent.None? then Throws(TypeError)
    else Returns([
      Utils.Text(client.ip),
      RemoveFirst(DashIfEmpty(client.userAgent), '|'),
      DashIfEmpty(client.origin),
      DashIfEmpty(client.referer)])
  }

  /** `Log.critical(text, obj, request)`: the four client fields joined with " | ", then the text. */
  method Critical(text: string, client: Utils.ClientInfo) returns (msg: Outcome<string>)
    ensures msg.Throws? <==> client.userAgent.None?
    ensures msg.Returns? ==> msg.value == Join(ClientFields(client).value, " | ") + " | " + text
  {
    if client.userAgent.None? {
      msg := Throws(TypeError);
      return;
    }
    var logFields: seq<string> := [];
    logFields := logFields + [Utils.Text(client.ip)];
    logFields := logFields + [RemoveFirst(DashIfEmpty(client.userAgent), '|')];
    logFields := logFields + [DashIfEmpty(client.origin)];
    logFields := logFields + [DashIfEmpty(client.referer)];
    assert logFields == ClientFields(client).value;
    msg := Returns(Join(logFields, " | ") + " | " + text);
  }

  /** `Log.response(response, elapsed, request)`: status code and elapsed time, then the four client
      fields, joined with " | ". */
  method Response(statusCode: int, elapsed: int, client: Utils.ClientInfo) returns (msg: Outcome<string>)
    ensures msg.Throws? <==> client.userAgent.None?
    ensures msg.Returns? ==>
      msg.value == Join([Decimal(statusCode), Decimal(elapsed)] + ClientFields(client).value, " | ")
  {
    if client.userAgent.None? {
      msg := Throws(TypeError);
      return;
    }
    var logFields: seq<string> := [];
    logFields := logFields + [Decimal(statusCode)];
    logFields := logFields + [Decimal(elapsed)];
    logFields := logFields + [Utils.Text(client.ip)];
    logFields := logFields + [RemoveFirst(DashIfEmpty(client.userAgent), '|')];
    logFields := logFields + [DashIfEmpty(client.origin)];
    logFields := logFields + [DashIfEmpty(client.referer)];
    assert logFields == [Decimal(statusCode), Decimal(elapsed)] + ClientFields(client).value;
    msg := Returns(Join(logFields, " | "));
  }

  /** With pipe-free values (at most one "|" in the user agent, which is removed), no client
      field holds a "|". */
  lemma ClientFieldsPipeFree(client: Utils.ClientInfo)
    requires client.userAgent.Some? && Count(client.userAgent.value, '|') <= 1
    requires '|' !in Utils.Text(client.ip) && '|' !in Utils.Text(client.origin) && '|' !in Utils.Text(client.referer)
    ensures forall i | 0 <= i < 4 :: '|' !in ClientFields(client).value[i]
  {
    assert '|' !in "-";
    Utils.RemoveOnlyPipe(DashIfEmpty(client.userAgent));
  }

  /** With pipe-free values and text (at most one "|" in the user agent), the critical line splits
      back on "|" into five pieces: the four client fields and the text, each with the spaces
      around the separators. */
  lemma {:induction false} CriticalLineFields(text: string, client: Utils.ClientInfo)
    requires client.userAgent.Some? && Count(client.userAgent.value, '|') <= 1
    requires '|' !in Utils.Text(client.ip) && '|' !in Utils.Text(client.origin) && '|' !in Utils.Text(client.referer)
    requires '|' !in text
    ensures var pieces := Split(Join(ClientFields(client).value, " | ") + " | " + text, '|');
      |pieces| == 5 && forall k | 0 <= k < 5 :: pieces[k] == Padded(ClientFields(client).value + [text], k)
    ensures Count(Join(ClientFields(client).value, " | ") + " | " + text, '|') == 4
  {
    var f := ClientFields(client).value + [text];
    ClientFieldsPipeFree(client);
    assert forall i | 0 <= i < |f| :: '|' !in f[i];
    JoinSnoc(ClientFields(client).value, text, " | ");
    assert [' ', '|', ' '] == " | ";
    SplitPadded(f, '|');
  }

  /** With pipe-free values (at most one "|" in the user agent), the response line splits back on
      "|" into six pieces: status code, elapsed time and the four client fields, each with the
      spaces around the separators. */
  lemma {:induction false} ResponseLineFields(statusCode: int, elapsed: int, client: Utils.ClientInfo)
    requires client.userAgent.Some? && Count(client.userAgent.value, '|') <= 1
    requires '|' !in Utils.Text(client.ip) && '|' !in Utils.Text(client.origin) && '|' !in Utils.Text(client.referer)
    ensures var f := [Decimal(statusCode), Decimal(elapsed)] + ClientFields(client).value;
      var pieces := Split(Join(f, " | "), '|');
      |pieces| == 6 && forall k | 0 <= k < 6 :: pieces[k] == Padded(f, k)
    ensures Count(Join([Decimal(statusCode), Decimal(elapsed)] + ClientFields(client).value, " | "), '|') == 5
  {
    var f := [Decimal(statusCode), Decimal(elapsed)] + ClientFields(client).value;
    ClientFieldsPipeFree(client);
    Utils.DecimalHasNoPipe(statusCode);
    Utils.DecimalHasNoPipe(elapsed);
    assert forall i | 0 <= i < |f| :: '|' !in f[i];
    assert [' ', '|', ' '] == " | ";
    SplitPadded(f, '|');
  }
}
