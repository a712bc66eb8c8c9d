/** The game selector of the games controller: a signed selector picks an entry of one of two
    lists (`gamechoices` for positive selectors, 1-based; `hiddengames` for negative ones, by
    magnitude; 0 draws at random from `gamechoices`), and a name lookup gives the selector back. */
module GamesUtils {
  import opened Json
  import opened JsText
  import opened JsMath

  /** The shape both functions accept: an object with a `gamechoices` array and a `hiddengames`
      key. Whether `hiddengames` holds an array is never tested (the array test is made twice on
      `gamechoices` instead). */
  predicate WellFormed(games: Json)
  {
    games.JObj? && "gamechoices" in games.fields && games.fields["gamechoices"].JArr?
    && "hiddengames" in games.fields
  }

  function Choices(games: Json): seq<Json>
    requires WellFormed(games)
  {
    games.fields["gamechoices"].items
  }

  function Hidden(games: Json): Json
    requires WellFormed(games)
  {
    games.fields["hiddengames"]
  }

  /** The last step of `selectedGame`: compare the 1-based position `p` with `list.length` and
      read `list[p - 1]`, or give `null`. Arrays and strings have a length; the other JSON values
      read `undefined` for it, so the comparison is false. (Reading `length` of `null` throws; the
      caller handles that case.) */
  function PickAt(list: Json, p: int): (v: Value)
    ensures list.JArr? && 1 <= p <= |list.items| ==> v == Def(list.items[p - 1])
    ensures v == Def(JNull) <== !(list.JArr? || list.JStr?)
  {
    match list
    case JArr(items) => if p <= |items| then At(items, p - 1) else Def(JNull)
    case JStr(s) =>
      if p <= |s| then (if 1 <= p then Def(JStr([s[p - 1]])) else Undefined) else Def(JNull)
    case _ => Def(JNull)
  }

  /** `selectedGame(selection, games)`. `selection` is the text `parseInt` reads (for a number,
      its decimal rendering) and `random` the value `Math.random()` would return. */
  function SelectedGame(selection: string, games: Json, random: real): (r: Outcome<Value>)
    requires 0.0 <= random < 1.0
    ensures !WellFormed(games) ==> r == Returns(Def(JNull))
    ensures r.Throws? ==> r.error == TypeError && WellFormed(games) && Hidden(games).JNull?
    ensures WellFormed(games) && !Hidden(games).JNull? && ParseInt(selection).None? ==> r == Returns(Def(JNull))
  {
    var parsed := ParseInt(selection);
    if !WellFormed(games) then Returns(Def(JNull))
    else
      // NaN >= 0 is false, so a NaN selection reads hiddengames
      var list := if parsed.Some? && parsed.value >= 0 then games.fields["gamechoices"] else Hidden(games);
      var drawn := if parsed == Some(0) then Some(CeilDraw(random, |Choices(games)|)) else parsed;
      var position := if drawn.Some? && drawn.value < 0 then Some(-drawn.value) else drawn;
      if list.JNull? then Throws(TypeError)
      else if position.None? then Returns(Def(JNull))
      else Returns(PickAt(list, position.value))
  }

  /** `findIndex` over a list with the callback `game => game.toUpperCase() === key`: the first
      index whose entry upper-cases to `key`, or -1. The callback throws on an entry that is not a
      string, so the search throws when it reaches one before a match. */
  function FindUpper(items: seq<Json>, key: string): (r: Outcome<int>)
    ensures r.Returns? ==> -1 <= r.value < |items|
    ensures r.Returns? && r.value >= 0 ==>
      items[r.value].JStr? && Upper(items[r.value].s) == key
      && forall k | 0 <= k < r.value :: items[k].JStr? && Upper(items[k].s) != key
    ensures r == Returns(-1) <==> forall k | 0 <= k < |items| :: items[k].JStr? && Upper(items[k].s) != key
    ensures r.Throws? ==> r.error == TypeError && exists k | 0 <= k < |items| :: !items[k].JStr?
  {
    if items == [] then Returns(-1)
    else if !items[0].JStr? then Throws(TypeError)
    else if Upper(items[0].s) == key then Returns(0)
    else
      match FindUpper(items[1..], key)
      case Throws(e) =>
        ghost var k :| 0 <= k < |items[1..]| && !items[1..][k].JStr?;
        assert !items[k + 1].JStr?;
        Throws(e)
      case Returns(i) => Returns(if i == -1 then -1 else i + 1)
  }

  /** An entry at `i` that upper-cases to `key`, with only non-matching strings before it, is what
      the search finds. */
  lemma {:induction false} FindUpperFirst(items: seq<Json>, key: string, i: int)
    requires 0 <= i < |items| && items[i].JStr? && Upper(items[i].s) == key
    requires forall k | 0 <= k < i :: items[k].JStr? && Upper(items[k].s) != key
    ensures FindUpper(items, key) == Returns(i)
  {
    if i > 0 {
      var rest := items[1..];
      assert rest[i - 1] == items[i];
      assert forall k | 0 <= k < i - 1 :: rest[k] == items[k + 1];
      FindUpperFirst(rest, key, i - 1);
    }
  }

  /** The search throws exactly when it reaches an entry that is not a string before any match. */
  lemma {:induction false} FindUpperThrows(items: seq<Json>, key: string)
    ensures FindUpper(items, key).Throws? <==>
      exists k | 0 <= k < |items| :: !items[k].JStr?
        && forall m | 0 <= m < k :: items[m].JStr? && Upper(items[m].s) != key
  {
    if items != [] && items[0].JStr? && Upper(items[0].s) != key {
      var rest := items[1..];
      FindUpperThrows(rest, key);
      if FindUpper(items, key).Throws? {
        var k :| 0 <= k < |rest| && !rest[k].JStr?
          && forall m | 0 <= m < k :: rest[m].JStr? && Upper(rest[m].s) != key;
        assert !items[k + 1].JStr?;
        assert forall m | 0 <= m < k + 1 :: items[m].JStr? && Upper(items[m].s) != key by {
          forall m | 0 <= m < k + 1
            ensures items[m].JStr? && Upper(items[m].s) != key
          {
            if m > 0 { assert items[m] == rest[m - 1]; }
          }
        }
      } else {
        forall k | 0 <= k < |items| && !items[k].JStr?
          ensures exists m | 0 <= m < k :: !(items[m].JStr? && Upper(items[m].s) != key)
        {
          assert k > 0 && !rest[k - 1].JStr?;
          var m :| 0 <= m < k - 1 && !(rest[m].JStr? && Upper(rest[m].s) != key);
          assert items[m + 1] == rest[m];
        }
      }
    }
  }

  /** `getIndexOfGame(name, games)`: the 1-based position of the first case-insensitive match in
      `gamechoices`, else minus the 1-based position of the first in `hiddengames`, else 0. */
  function GetIndexOfGame(name: Json, games: Json): (r: Outcome<int>)
    ensures !(name.JStr? && WellFormed(games)) ==> r == Returns(0)
    ensures r.Returns? && r.value > 0 ==> r.value <= |Choices(games)|
    ensures r.Returns? && r.value < 0 ==> Hidden(games).JArr? && -r.value <= |Hidden(games).items|
    ensures r.Throws? ==> r.error == TypeError
  {
    if !(name.JStr? && WellFormed(games)) then Returns(0)
    else
      var key := Upper(name.s);
      match FindUpper(Choices(games), key)
      case Throws(e) => Throws(e)
      case Returns(i) =>
        if i != -1 then Returns(i + 1)
        else if !Hidden(games).JArr? then Throws(TypeError)  // no findIndex on a non-array
        else
          match FindUpper(Hidden(games).items, key)
          case Throws(e) => Throws(e)
          case Returns(j) => Returns(if j != -1 then -(j + 1) else 0)
  }

  // ----- selectedGame -----

  /** A positive selector `s` picks entry `s` (1-based) of `gamechoices`. */
  lemma SelectVisible(selection: string, games: Json, random: real, s: int)
    requires 0.0 <= random < 1.0 && WellFormed(games)
    requires ParseInt(selection) == Some(s) && 1 <= s <= |Choices(games)|
    ensures SelectedGame(selection, games, random) == Returns(Def(Choices(games)[s - 1]))
  {
    var list := games.fields["gamechoices"];
    assert PickAt(list, s) == Def(Choices(games)[s - 1]);
  }

  /** A negative selector `-k` picks entry `k` (1-based) of `hiddengames`. */
  lemma SelectHidden(selection: string, games: Json, random: real, k: int)
    requires 0.0 <= random < 1.0 && WellFormed(games) && Hidden(games).JArr?
    requires ParseInt(selection) == Some(-k) && 1 <= k <= |Hidden(games).items|
    ensures SelectedGame(selection, games, random) == Returns(Def(Hidden(games).items[k - 1]))
  {
    var list := Hidden(games);
    assert !(-k >= 0) && -k != 0 && -(-k) == k;
    assert PickAt(list, k) == Def(list.items[k - 1]);
  }

  /** Selector 0 draws from `gamechoices` only: the result is one of its entries. */
  lemma {:induction false} SelectRandom(selection: string, games: Json, random: real)
    requires 0.0 < random < 1.0 && WellFormed(games) && |Choices(games)| > 0
    requires ParseInt(selection) == Some(0)
    ensures exists i | 0 <= i < |Choices(games)| ::
      SelectedGame(selection, games, random) == Returns(Def(Choices(games)[i]))
  {
    var n := |Choices(games)|;
    CeilScaledInRange(random, n);
    var p := CeilDraw(random, n);
    var list := games.fields["gamechoices"];
    assert PickAt(list, p) == Def(Choices(games)[p - 1]);
    assert SelectedGame(selection, games, random) == Returns(Def(Choices(games)[p - 1]));
  }

  /** The edge of the draw: when `Math.random()` returns 0, or `gamechoices` is empty, `Math.ceil`
      gives 0 and the read of entry -1 yields `undefined`. */
  lemma {:induction false} SelectRandomEdge(selection: string, games: Json, random: real)
    requires 0.0 <= random < 1.0 && WellFormed(games)
    requires random == 0.0 || |Choices(games)| == 0
    requires ParseInt(selection) == Some(0)
    ensures SelectedGame(selection, games, random) == Returns(Undefined)
  {
    CeilScaledZero(random, |Choices(games)|);
    var list := games.fields["gamechoices"];
    assert PickAt(list, 0) == Undefined;
  }

  /** A positive selector beyond `gamechoices` gives null. */
  lemma SelectBeyondVisible(selection: string, games: Json, random: real, s: int)
    requires 0.0 <= random < 1.0 && WellFormed(games)
    requires ParseInt(selection) == Some(s) && s > |Choices(games)|
    ensures SelectedGame(selection, games, random) == Returns(Def(JNull))
  {
    var list := games.fields["gamechoices"];
    assert PickAt(list, s) == Def(JNull);
  }

  /** A negative selector beyond an array `hiddengames` gives null. */
  lemma SelectBeyondHidden(selection: string, games: Json, random: real, k: int)
    requires 0.0 <= random < 1.0 && WellFormed(games) && Hidden(games).JArr?
    requires ParseInt(selection) == Some(-k) && k > |Hidden(games).items|
    ensures SelectedGame(selection, games, random) == Returns(Def(JNull))
  {
  }

  /** Malformed games give null whatever the selection. */
  lemma SelectMalformed(selection: string, games: Json, random: real)
    requires 0.0 <= random < 1.0 && !WellFormed(games)
    ensures SelectedGame(selection, games, random) == Returns(Def(JNull))
  {
  }

  /** A selection `parseInt` cannot read gives null; but the length of `hiddengames` is read first,
      so a `null` there throws instead. */
  lemma SelectNaN(selection: string, games: Json, random: real)
    requires 0.0 <= random < 1.0 && WellFormed(games)
    requires ParseInt(selection) == None
    ensures Hidden(games).JNull? ==> SelectedGame(selection, games, random) == Throws(TypeError)
    ensures !Hidden(games).JNull? ==> SelectedGame(selection, games, random) == Returns(Def(JNull))
  {
  }

  /** A negative selector reads `hiddengames`, which is never checked to be an array: a null
      `hiddengames` throws at its `length`. */
  lemma SelectHiddenNull(games: Json, random: real, k: int)
    requires 0.0 <= random < 1.0 && WellFormed(games) && Hidden(games).JNull? && k >= 1
    ensures SelectedGame(Decimal(-k), games, random) == Throws(TypeError)
  {
    ParseIntDecimal(-k);
  }

  /** Whatever the input, the result is null, undefined, or an entry of one of the two lists
      (for a string `hiddengames`, one of its characters). */
  lemma {:induction false} SelectedFromLists(selection: string, games: Json, random: real)
    requires 0.0 <= random < 1.0
    ensures match SelectedGame(selection, games, random)
      case Throws(e) => WellFormed(games) && Hidden(games).JNull?
      case Returns(v) =>
        v == Def(JNull) || v == Undefined
        || (WellFormed(games) && v.json in Choices(games))
        || (WellFormed(games) && Hidden(games).JArr? && v.json in Hidden(games).items)
        || (WellFormed(games) && Hidden(games).JStr? && v.json.JStr? && |v.json.s| == 1)
  {
  }

  // ----- getIndexOfGame -----

  /** A name found in `gamechoices` at index `i` (its first case-insensitive match) gives `i + 1`. */
  lemma IndexOfVisible(name: string, games: Json, i: int)
    requires WellFormed(games) && 0 <= i < |Choices(games)|
    requires Choices(games)[i].JStr? && Upper(Choices(games)[i].s) == Upper(name)
    requires forall k | 0 <= k < i :: Choices(games)[k].JStr? && Upper(Choices(games)[k].s) != Upper(name)
    ensures GetIndexOfGame(JStr(name), games) == Returns(i + 1)
  {
    FindUpperFirst(Choices(games), Upper(name), i);
  }

  /** A name absent from `gamechoices` and first found in `hiddengames` at `j` gives `-(j + 1)`. */
  lemma IndexOfHidden(name: string, games: Json, j: int)
    requires WellFormed(games) && Hidden(games).JArr?
    requires forall k | 0 <= k < |Choices(games)| :: Choices(games)[k].JStr? && Upper(Choices(games)[k].s) != Upper(name)
    requires 0 <= j < |Hidden(games).items|
    requires Hidden(games).items[j].JStr? && Upper(Hidden(games).items[j].s) == Upper(name)
    requires forall k | 0 <= k < j :: Hidden(games).items[k].JStr? && Upper(Hidden(games).items[k].s) != Upper(name)
    ensures GetIndexOfGame(JStr(name), games) == Returns(-(j + 1))
  {
    FindUpperFirst(Hidden(games).items, Upper(name), j);
    IndexOfFoundHidden(name, games, j);
  }

  /** A name in neither list gives 0. */
  lemma IndexOfAbsent(name: string, games: Json)
    requires WellFormed(games) && Hidden(games).JArr?
    requires forall k | 0 <= k < |Choices(games)| :: Choices(games)[k].JStr? && Upper(Choices(games)[k].s) != Upper(name)
    requires forall k | 0 <= k < |Hidden(games).items| :: Hidden(games).items[k].JStr? && Upper(Hidden(games).items[k].s) != Upper(name)
    ensures GetIndexOfGame(JStr(name), games) == Returns(0)
  {
  }

  /** A name that is not a string, or malformed games, give 0. */
  lemma IndexOfInvalid(name: Json, games: Json)
    requires !name.JStr? || !WellFormed(games)
    ensures GetIndexOfGame(name, games) == Returns(0)
  {
  }

  /** Every list entry is a string: the lookups never throw. */
  predicate AllStrings(items: seq<Json>)
  {
    forall k | 0 <= k < |items| :: items[k].JStr?
  }

  /** The name is one of the list's entries, up to upper-casing. */
  predicate Listed(items: seq<Json>, name: string)
  {
    exists k | 0 <= k < |items| :: items[k].JStr? && Upper(items[k].s) == Upper(name)
  }

  /** Round trip, `gamechoices` side: the selector of a name first matched there at `i` is
      `i + 1`, and it selects that entry. */
  lemma {:induction false} IndexThenSelectVisible(name: string, games: Json, random: real, i: int)
    requires 0.0 <= random < 1.0 && WellFormed(games)
    requires FindUpper(Choices(games), Upper(name)) == Returns(i) && i != -1
    ensures GetIndexOfGame(JStr(name), games) == Returns(i + 1)
    ensures SelectedGame(Decimal(i + 1), games, random) == Returns(Def(Choices(games)[i]))
  {
    ParseIntDecimal(i + 1);
    SelectVisible(Decimal(i + 1), games, random, i + 1);
  }

  /** The selector of a name absent from `gamechoices` and first matched in `hiddengames` at `j`
      is `-(j + 1)`. */
  lemma IndexOfFoundHidden(name: string, games: Json, j: int)
    requires WellFormed(games) && Hidden(games).JArr?
    requires FindUpper(Choices(games), Upper(name)) == Returns(-1)
    requires FindUpper(Hidden(games).items, Upper(name)) == Returns(j) && j != -1
    ensures GetIndexOfGame(JStr(name), games) == Returns(-(j + 1))
  {
  }

  /** The selector `-(j + 1)`, as a number, selects `hiddengames[j]`. */
  lemma {:induction false} SelectHiddenDecimal(games: Json, random: real, j: int)
    requires 0.0 <= random < 1.0 && WellFormed(games) && Hidden(games).JArr? && 0 <= j < |Hidden(games).items|
    ensures SelectedGame(Decimal(-(j + 1)), games, random) == Returns(Def(Hidden(games).items[j]))
  {
    var k := j + 1;
    ParseIntDecimal(-k);
    SelectHidden(Decimal(-k), games, random, k);
  }

  /** Round trip: for a name in either list, the selector `getIndexOfGame` returns is not 0, and
      `selectedGame` on it (given as a number, i.e. its decimal rendering) returns an entry that
      equals the name up to upper-casing. */
  lemma {:induction false} IndexThenSelect(name: string, games: Json, random: real)
    requires 0.0 <= random < 1.0 && WellFormed(games) && Hidden(games).JArr?
    requires AllStrings(Choices(games)) && AllStrings(Hidden(games).items)
    requires Listed(Choices(games), name) || Listed(Hidden(games).items, name)
    ensures GetIndexOfGame(JStr(name), games).Returns?
    ensures GetIndexOfGame(JStr(name), games).value != 0
    ensures
      var g := SelectedGame(Decimal(GetIndexOfGame(JStr(name), games).value), games, random);
      g.Returns? && g.value.Def? && g.value.json.JStr? && Upper(g.value.json.s) == Upper(name)
  {
    var key := Upper(name);
    var first := FindUpper(Choices(games), key);
    assert first.Returns?;
    if first.value != -1 {
      IndexThenSelectVisible(name, games, random, first.value);
    } else {
      var second := FindUpper(Hidden(games).items, key);
      assert second.Returns? && second.value != -1;
      IndexOfFoundHidden(name, games, second.value);
      SelectHiddenDecimal(games, random, second.value);
    }
  }
}
