/** The application's configuration: the `policies`, `settings` and `referers` sections taken from
    the custom settings file, the getters that hand out copies of them, and the referer whitelist
    check. The static fields of the source's `Config` class are the fields of one `Config` object. */
module AppConfig {
  import opened Json
  import opened JsText

  /** Names every plain object inherits from `Object.prototype`; `key in obj` is true for them
      although they are not keys of the settings file. All are methods except `__proto__`. */
  const InheritedMethods: set<string> := {
    "constructor", "hasOwnProperty", "isPrototypeOf", "propertyIsEnumerable", "toLocaleString",
    "toString", "valueOf", "__defineGetter__", "__defineSetter__", "__lookupGetter__", "__lookupSetter__"
  }
  const ProtoKey := "__proto__"

  /** A lookup in one section followed by the `JSON.parse(JSON.stringify(...))` copy (identity on
      JSON values). No key gives the whole section; a key of the section gives its value; a key
      that is neither the section's nor inherited gives null. An inherited method is found by `in`,
      stringifies to `undefined`, and `JSON.parse` then throws; `__proto__` gives `{}`. */
  function Lookup(section: map<string, Json>, key: Option<string>): (r: Outcome<Json>)
    ensures key.None? ==> r == Returns(JObj(section))
    ensures key.Some? && key.value in section ==> r == Returns(section[key.value])
    ensures key.Some? && key.value !in section ==>
      (r == Returns(JNull) <==> key.value !in InheritedMethods && key.value != ProtoKey)
    ensures r.Throws? <==> key.Some? && key.value !in section && key.value in InheritedMethods
    ensures key.Some? && key.value !in section && key.value == ProtoKey ==> r == Returns(JObj(map[]))
    ensures r.Throws? ==> r.error == SyntaxError
  {
    match key
    case None => Returns(JObj(section))
    case Some(k) =>
      if k in section then Returns(section[k])
      else if k in InheritedMethods then Throws(SyntaxError)
      else if k == ProtoKey then Returns(JObj(map[]))
      else Returns(JNull)
  }

  /** The referer check: any referer passes when no referers are configured; otherwise an empty or
      missing referer fails, and any other passes when the third `/`-separated piece (the host of
      `https://host/...`) ends with a configured item. With fewer than three pieces the piece is
      `undefined` and calling `endsWith` on it throws. */
  function RefererCheck(referers: seq<string>, referer: Option<string>): (r: Outcome<bool>)
    ensures |referers| == 0 ==> r == Returns(true)
    ensures |referers| > 0 && (referer.None? || referer.value == "") ==> r == Returns(false)
  {
    if |referers| == 0 then Returns(true)
    else if referer.None? || referer.value == "" then Returns(false)
    else
      var pieces := Split(referer.value, '/');
      if |pieces| < 3 then Throws(TypeError)
      else Returns(exists item | item in referers :: EndsWith(pieces[2], item))
  }

  /** The sections of the custom settings file; `None` for a section the file does not have. */
  datatype CustomSettings = CustomSettings(
    policies: Option<map<string, Json>>,
    settings: Option<map<string, Json>>,
    referers: Option<seq<string>>)

  class Config {
    var policies: map<string, Json>
    var settings: map<string, Json>
    var referers: seq<string>

    /** The class-level defaults: empty sections. */
    constructor ()
      ensures policies == map[] && settings == map[] && referers == []
    {
      policies, settings, referers := map[], map[], [];
    }

    /** The section assignments of `init`: a section the file has replaces the stored one, a
        section it lacks leaves the stored one. */
    method Init(custom: CustomSettings)
      modifies this
      ensures policies == if custom.policies.Some? then custom.policies.value else old(policies)
      ensures settings == if custom.settings.Some? then custom.settings.value else old(settings)
      ensures referers == if custom.referers.Some? then custom.referers.value else old(referers)
    {
      if custom.policies.Some? { policies := custom.policies.value; }
      if custom.settings.Some? { settings := custom.settings.value; }
      if custom.referers.Some? { referers := custom.referers.value; }
    }

    /** `getSettings(key)`; `None` is the default `key = null`. */
    function GetSettings(key: Option<string>): (r: Outcome<Json>)
      reads this
      ensures key.None? ==> r == Returns(JObj(settings))
      ensures key.Some? && key.value in settings ==> r == Returns(settings[key.value])
      ensures key.Some? && key.value !in settings && key.value !in InheritedMethods && key.value != ProtoKey
        ==> r == Returns(JNull)
    {
      Lookup(settings, key)
    }

    /** `getPolicies(key)`: the same lookup over the policies. */
    function GetPolicies(key: Option<string>): (r: Outcome<Json>)
      reads this
      ensures key.None? ==> r == Returns(JObj(policies))
      ensures key.Some? && key.value in policies ==> r == Returns(policies[key.value])
      ensures key.Some? && key.value !in policies && key.value !in InheritedMethods && key.value != ProtoKey
        ==> r == Returns(JNull)
    {
      Lookup(policies, key)
    }

    /** `getReferers()`: the configured referers in their order, `[]` when there are none. */
    function GetReferers(): (r: seq<string>)
      reads this
      ensures |r| == |referers| && forall i | 0 <= i < |r| :: r[i] == referers[i]
    {
      if |referers| > 0 then referers else []
    }

    /** `isValidReferer(referer)`. */
    function IsValidReferer(referer: Option<string>): (r: Outcome<bool>)
      reads this
      ensures |referers| == 0 ==> r == Returns(true)
      ensures |referers| > 0 && (referer.None? || referer.value == "") ==> r == Returns(false)
    {
      RefererCheck(referers, referer)
    }
  }

  /** After `init`, `getSettings` hands out what the settings file holds under each key. */
  method InitThenGetSettings(custom: map<string, Json>, key: string) returns (r: Outcome<Json>)
    requires key in custom
    ensures r == Returns(custom[key])
  {
    var config := new Config();
    config.Init(CustomSettings(None, Some(custom), None));
    r := config.GetSettings(Some(key));
  }

  /** After `init` without a settings section, every non-inherited key gives null. */
  method InitWithoutSettings(key: string) returns (r: Outcome<Json>)
    requires key !in InheritedMethods && key != ProtoKey
    ensures r == Returns(JNull)
  {
    var config := new Config();
    config.Init(CustomSettings(None, None, None));
    r := config.GetSettings(Some(key));
  }

  /** A plain suffix match: `https://evilchadkluck.net/...` passes when `chadkluck.net` is listed. */
  lemma {:induction false} RefererHostSuffix(referers: seq<string>, scheme: string, host: string, path: string)
    requires |referers| > 0
    requires '/' !in scheme && '/' !in host
    ensures RefererCheck(referers, Some(scheme + "//" + host + "/" + path))
         == Returns(exists item | item in referers :: EndsWith(host, item))
  {
    var referer := scheme + "//" + host + "/" + path;
    assert referer == scheme + ['/'] + ("" + ['/'] + (host + ['/'] + path));
    SplitAfterPiece(scheme, "" + ['/'] + (host + ['/'] + path), '/');
    SplitAfterPiece("", host + ['/'] + path, '/');
    SplitAfterPiece(host, path, '/');
  }

  /** A host that merely ends with a listed item passes the check. */
  lemma {:induction false} SuffixHostPasses(scheme: string, prefix: string, item: string, path: string)
    requires '/' !in scheme && '/' !in prefix + item && item != ""
    ensures RefererCheck([item], Some(scheme + "//" + (prefix + item) + "/" + path)) == Returns(true)
  {
    var host := prefix + item;
    RefererHostSuffix([item], scheme, host, path);
    assert host[|host| - |item|..] == item;
    assert item in [item] && EndsWith(host, item);
  }

  /** The host of the source's own referer header, listed, lets a lookalike host through. */
  lemma LookalikeHostPasses(path: string)
    ensures RefererCheck(["chadkluck.net"], Some("https://evilchadkluck.net/" + path)) == Returns(true)
  {
    var scheme, prefix, item := "https:", "evil", "chadkluck.net";
    assert '/' !in scheme && '/' !in prefix + item;
    SuffixHostPasses(scheme, prefix, item, path);
    assert scheme + "//" + (prefix + item) + "/" + path == "https://evilchadkluck.net/" + path;
  }

  /** With referers configured, a non-empty referer with fewer than two `/` throws rather than
      failing the check. */
  lemma RefererWithoutSlashesThrows(referers: seq<string>, referer: string)
    requires |referers| > 0 && referer != "" && Count(referer, '/') < 2
    ensures RefererCheck(referers, Some(referer)) == Throws(TypeError)
  {
  }
}
