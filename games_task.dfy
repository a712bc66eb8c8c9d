/** The older selection and search made inside the game tasks, as pure functions of the fetched
    games data and the request properties. The positive selector is zero-based here, a negative
    one reads `hiddengames` at `(-i) + 1`, and the `hiddengames` search runs only when the fetched
    data has no `gamechoices` array. */
module GamesTask {
  import opened Json
  import opened JsText
  import opened JsMath
  import GamesUtils

  const InvalidSelection := "Invalid game selection"

  /** The fetched data carries a `gamechoices` array. */
  predicate HasChoices(data: Json)
  {
    data.JObj? && "gamechoices" in data.fields && data.fields["gamechoices"].JArr?
  }

  function Choices(data: Json): seq<Json>
    requires HasChoices(data)
  {
    data.fields["gamechoices"].items
  }

  /** The fetched data carries a `hiddengames` array. */
  predicate HasHidden(data: Json)
  {
    data.JObj? && "hiddengames" in data.fields && data.fields["hiddengames"].JArr?
  }

  function HiddenItems(data: Json): seq<Json>
    requires HasHidden(data)
  {
    data.fields["hiddengames"].items
  }

  /** The value `getGame` resolves with, given the data the games service returned, the request
      properties (`play` is the requested game number) and the value `Math.random()` returns. */
  function GetGame(data: Json, props: map<string, string>, random: real): (r: Value)
    requires 0.0 <= random < 1.0
    ensures !HasChoices(data) ==> r == Def(JStr(""))
    ensures HasChoices(data) && "play" !in props && |Choices(data)| > 0 ==> r.Def? && r.json in Choices(data)
    ensures r == Undefined <==> HasChoices(data) && "play" !in props && |Choices(data)| == 0
  {
    if !HasChoices(data) then Def(JStr(""))
    else
      var choices := Choices(data);
      if "play" in props then
        match ParseInt(props["play"])
        case None => Def(JStr(InvalidSelection))
        case Some(i) =>
          if 0 <= i < |choices| then Def(choices[i])
          else if i < 0 && HasHidden(data) && -i + 1 < |HiddenItems(data)| then Def(HiddenItems(data)[-i + 1])
          else Def(JStr(InvalidSelection))
      else
        assert |choices| > 0 ==> 0 <= FloorDraw(random, |choices|) < |choices| by {
          if |choices| > 0 { FloorScaledInRange(random, |choices|); }
        }
        At(choices, FloorDraw(random, |choices|))
  }

  /** The value `findGame` resolves with: null without a `game` property, else the zero-based
      index of the game in `gamechoices` (-1 when absent); only when there is no `gamechoices`
      array is `hiddengames` searched. Using `in` on a non-object throws. */
  function FindGame(data: Json, props: map<string, string>): (r: Outcome<Json>)
    ensures !("game" in props && props["game"] != "") ==> r == Returns(JNull)
    ensures r.Returns? ==> r.value.JNull? || r.value.JNum?
    ensures r.Returns? && r.value.JNum? && HasChoices(data) ==> -1 <= r.value.n < |Choices(data)|
    ensures r.Returns? && r.value.JNum? && !HasChoices(data) ==>
      HasHidden(data) && -|HiddenItems(data)| <= r.value.n <= 0
    ensures r.Throws? ==> r.error == TypeError
  {
    if !("game" in props && props["game"] != "") then Returns(JNull)
    else
      var key := Upper(props["game"]);
      var first :=
        if HasChoices(data) then
          match GamesUtils.FindUpper(Choices(data), key)
          case Throws(e) => Throws(e)
          case Returns(i) => Returns(JNum(i))
        else Returns(JNull);
      if first != Returns(JNull) then first
      else if !(data.JObj? || data.JArr?) then Throws(TypeError)
      else if !HasHidden(data) then Returns(JNull)
      else
        match GamesUtils.FindUpper(HiddenItems(data), key)
        case Throws(e) => Throws(e)
        // `if (i)`: only a match at index 0 is falsy; not found (-1) becomes -0, i.e. 0
        case Returns(i) => if i != 0 then Returns(JNum(-(i + 1))) else Returns(JNull)
  }

  // ----- getGame -----

  /** `play` parsing to `i` with `0 <= i < |gamechoices|` gives `gamechoices[i]`: zero-based. */
  lemma GetGameVisible(data: Json, props: map<string, string>, random: real, i: int)
    requires 0.0 <= random < 1.0 && HasChoices(data)
    requires "play" in props && ParseInt(props["play"]) == Some(i) && 0 <= i < |Choices(data)|
    ensures GetGame(data, props, random) == Def(Choices(data)[i])
  {
  }

  /** `play` parsing to `i < 0` reads `hiddengames[(-i) + 1]` when that index is in range. */
  lemma GetGameHidden(data: Json, props: map<string, string>, random: real, i: int)
    requires 0.0 <= random < 1.0 && HasChoices(data) && HasHidden(data)
    requires "play" in props && ParseInt(props["play"]) == Some(i) && i < 0 && -i + 1 < |HiddenItems(data)|
    ensures GetGame(data, props, random) == Def(HiddenItems(data)[-i + 1])
  {
  }

  /** Every other `play` gives the literal "Invalid game selection". */
  lemma GetGameInvalid(data: Json, props: map<string, string>, random: real)
    requires 0.0 <= random < 1.0 && HasChoices(data) && "play" in props
    requires match ParseInt(props["play"])
      case None => true
      case Some(i) => i >= |Choices(data)| || (i < 0 && !(HasHidden(data) && -i + 1 < |HiddenItems(data)|))
    ensures GetGame(data, props, random) == Def(JStr(InvalidSelection))
  {
  }

  /** `play=-1` reads `hiddengames[2]`; the first two hidden games cannot be requested. */
  lemma GetGameMinusOne(data: Json, props: map<string, string>, random: real)
    requires 0.0 <= random < 1.0 && HasChoices(data) && HasHidden(data) && |HiddenItems(data)| > 2
    requires props == map["play" := "-1"]
    ensures GetGame(data, props, random) == Def(HiddenItems(data)[2])
  {
    ParseIntDecimal(-1);
    assert Decimal(-1) == "-1";
  }

  /** The two conventions compared: `play=i` in the task picks what `selectedGame(i + 1)` picks. */
  lemma {:induction false} ConventionsVisible(games: Json, i: int, random: real)
    requires 0.0 <= random < 1.0 && GamesUtils.WellFormed(games) && 0 <= i < |Choices(games)|
    ensures GetGame(games, map["play" := Decimal(i)], random).Def?
    ensures GamesUtils.SelectedGame(Decimal(i + 1), games, random)
         == Returns(GetGame(games, map["play" := Decimal(i)], random))
  {
    ParseIntDecimal(i);
    ParseIntDecimal(i + 1);
    GamesUtils.SelectVisible(Decimal(i + 1), games, random, i + 1);
  }

  /** ... and `play=-k` in the task picks what `selectedGame(-(k + 2))` picks. */
  lemma {:induction false} ConventionsHidden(games: Json, k: int, random: real)
    requires 0.0 <= random < 1.0 && GamesUtils.WellFormed(games) && HasHidden(games)
    requires 1 <= k && k + 1 < |HiddenItems(games)|
    ensures GetGame(games, map["play" := Decimal(-k)], random).Def?
    ensures GamesUtils.SelectedGame(Decimal(-(k + 2)), games, random)
         == Returns(GetGame(games, map["play" := Decimal(-k)], random))
  {
    ParseIntDecimal(-k);
    ParseIntDecimal(-(k + 2));
    GamesUtils.SelectHidden(Decimal(-(k + 2)), games, random, k + 2);
  }

  // ----- findGame -----

  /** With a `gamechoices` array of strings, the result is the zero-based index of the first
      case-insensitive match, or -1; `hiddengames` is never searched, so it is never negative below -1. */
  lemma FindGameVisible(data: Json, props: map<string, string>)
    requires "game" in props && props["game"] != ""
    requires HasChoices(data) && GamesUtils.AllStrings(Choices(data))
    ensures FindGame(data, props).Returns? && FindGame(data, props).value.JNum?
    ensures var i := FindGame(data, props).value.n;
      -1 <= i < |Choices(data)|
      && (i >= 0 ==> Upper(Choices(data)[i].s) == Upper(props["game"]))
      && (forall k | 0 <= k < i :: Upper(Choices(data)[k].s) != Upper(props["game"]))
      && (i == -1 <==> !GamesUtils.Listed(Choices(data), props["game"]))
  {
  }

  /** Without a `gamechoices` array, the `hiddengames` search: a match at `j > 0` gives
      `-(j + 1)`, a match at 0 leaves null, and no match gives 0 (the -0 of `(-1 + 1) * -1`). */
  lemma {:induction false} FindGameHidden(data: Json, props: map<string, string>)
    requires "game" in props && props["game"] != ""
    requires !HasChoices(data) && HasHidden(data) && GamesUtils.AllStrings(HiddenItems(data))
    ensures var j := GamesUtils.FindUpper(HiddenItems(data), Upper(props["game"]));
      j.Returns?
      && FindGame(data, props) == (if j.value == 0 then Returns(JNull) else Returns(JNum(-(j.value + 1))))
    ensures !GamesUtils.Listed(HiddenItems(data), props["game"]) ==> FindGame(data, props) == Returns(JNum(0))
  {
  }

  /** Data that is not an object or array, with a `game` property, throws at `"hiddengames" in data`. */
  lemma FindGamePrimitive(data: Json, props: map<string, string>)
    requires "game" in props && props["game"] != ""
    requires !(data.JObj? || data.JArr?)
    ensures FindGame(data, props) == Throws(TypeError)
  {
  }
}
