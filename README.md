# Request-handling core of the serverless web-service template

This Dafny project models the deterministic logic of a serverless web-service template and proves
properties of that model. The template has two generations: the `application-infrastructure`
application and the earlier single-file application under `app/`. The modelled logic is:

- the game selector of the games controller (`selectedGame`, `getIndexOfGame`). It uses a signed
  1-based selector: positive values address `gamechoices`, negative values address `hiddengames`,
  and 0 draws at random;
- the older in-task selection and search (`getGame`, `findGame`). Positive indices are zero-based
  there, a negative one reads `hiddengames` at `(-i) + 1`, and the hidden-list search runs only
  when the data has no `gamechoices` array;
- the prediction projection (`getPrediction`);
- the request wrapper's time budget (`getRemainingTimeInMillis`, `calcRemainingTimeInMillis`) and
  its always-true referer validation;
- the `" | "`-separated response log line, with ten fields in the newer application. The earlier
  application has a six-field response line and a critical line;
- the configuration sections, their getters and the referer whitelist;
- the `Tests` model, which records one `addItemByKey` call per key of each test object.

JavaScript behaviour the code relies on is written out in the model:

- `parseInt(s, 10)` is `JsText.ParseInt`, with NaN as `None`.
- `toUpperCase` is an ASCII case fold (`JsText.Upper`).
- `findIndex` with an upper-casing callback is `GamesUtils.FindUpper`. It throws on an entry that
  is not a string.
- `key in obj` also sees the names every object inherits from `Object.prototype`.
- The `JSON.parse(JSON.stringify(x))` copy is the identity on JSON values. For an inherited method
  it throws a `SyntaxError`.
- `split('/')[2].endsWith(...)` throws when there are fewer than three pieces.
- `replace("|", "")` removes only the first `|`.
- `Array.prototype.join` renders null as the empty string.
- Thrown exceptions are the `Throws` case of `Json.Outcome`.

Three inputs that are not source logic become parameters:

- `Math.random()` is a real `random` in `[0, 1)`;
- the platform clock is the integer `reading` its `getRemainingTimeInMillis()` reports;
- `Buffer.byteLength` of the response body is an optional natural number.

Modules and files:

- `Json` (json.dfy): the JSON value model.
- `JsText` (text.dfy) and `JsMath` (math.dfy): the JavaScript string and number operations listed
  above.
- `GamesUtils` (games_utils.dfy): the controller's game selector and name lookup.
- `GamesTask` (games_task.dfy): the in-task selection and search.
- `PredictionTask` (prediction_task.dfy): the prediction projection.
- `Utils` (utils.dfy): the request wrapper, the time budget and the ten-field response log line.
- `AppConfig` (config.dfy): the configuration sections, getters and referer check. The earlier
  application's `Config` (app/classes.js:135-192 and its section assignments at lines 224-226) is
  the same code, and `AppConfig` models both: `Lookup` and `RefererCheck` cite the earlier
  application, the `Config` members cite the newer one.
- `Classes` (classes.dfy): the earlier application's request, `Tests`
  and log lines. The `Tests` class of the newer utilities is the same code as the earlier
  application's, and `Classes.Tests` models both.

Where a documentation comment and the code disagree, the model follows the code:

- `getRemainingTimeInMillis` promises 1000 without a context, but the code calls a method on null.
  The model throws.
- `findGame` promises "null if not found", but a game absent from `gamechoices` gives -1, and
  without `gamechoices` a game absent from `hiddengames` gives 0.
- The signed-selector comment of `selectedGame` says nothing about the array check. That check is
  made twice on `gamechoices` and never on `hiddengames`, so a null `hiddengames` throws for
  negative selectors.

## Model

| member | source | states |
|---|---|---|
| Json.At | application-infrastructure/app/controllers/games.utils.js:41 | a JavaScript array read is defined exactly inside the bounds, and then it is the entry |
| JsText.ParseIntDecimal | application-infrastructure/app/controllers/games.utils.js:18 | `parseInt` reads back every integer from its decimal rendering |
| JsText.Split | application-infrastructure/app/config/index.js:80 | `split` gives one more piece than there are separators, and no piece holds the separator |
| JsText.SplitJoin | application-infrastructure/app/config/index.js:80 | joining the pieces of `split` with the separator gives back the string |
| JsText.RemoveFirst | application-infrastructure/app/utils/index.js:256 | definition of `replace` with a one-character string pattern; its properties are stated by JsText.RemoveFirstAt and JsText.RemoveFirstCount |
| JsText.RemoveFirstAt | application-infrastructure/app/utils/index.js:256 | it is the first occurrence that is removed, the text before it and after it kept in order; a string without one is unchanged |
| JsText.RemoveFirstCount | application-infrastructure/app/utils/index.js:256 | with an occurrence, the result has one occurrence fewer and is one character shorter |
| JsText.ParseInt | application-infrastructure/app/controllers/games.utils.js:18 | definition of `parseInt(s, 10)`; its properties are stated by JsText.ParseIntDecimal |
| JsText.Upper | application-infrastructure/app/controllers/games.utils.js:68 | `toUpperCase` keeps the length, turns each lower-case ASCII letter into its capital, leaves no lower-case ASCII letter, and keeps every other character in its place |
| JsText.Join | application-infrastructure/app/utils/index.js:264 | definition of `join`; its properties are stated by JsText.SplitJoin, JsText.JoinSnoc and JsText.SplitPadded |
| JsText.JoinSnoc | app/classes.js:351 | appending one more field adds the separator and the field to the joined text |
| JsText.SplitPadded | application-infrastructure/app/utils/index.js:264 | joining fields that do not hold a character with space, that character, space as separator, then splitting on the character, gives one piece per field: piece `k` is field `k` with the spaces around the separators |
| JsText.EndsWith | application-infrastructure/app/config/index.js:80 | definition of `endsWith`; its properties are stated by AppConfig.RefererHostSuffix, AppConfig.SuffixHostPasses and AppConfig.LookalikeHostPasses |
| JsMath.CeilScaledInRange | application-infrastructure/app/controllers/games.utils.js:32 | for `0 < random < 1` and a non-empty list, the draw `ceil(random * length)` is a 1-based position of the list |
| JsMath.CeilScaledZero | application-infrastructure/app/controllers/games.utils.js:32 | the draw is 0 when `random` is 0 or the list is empty |
| JsMath.FloorScaledInRange | application-infrastructure/app/controllers/games.task.js:53 | the draw `floor(random * length)` is a zero-based index of a non-empty list |
| GamesUtils.PickAt | application-infrastructure/app/controllers/games.utils.js:41 | position `p` in `1..length` of an array reads entry `p - 1`; a list without a length gives null |
| GamesUtils.SelectedGame | application-infrastructure/app/controllers/games.utils.js:12-47 | malformed games give null; a throw is a TypeError and happens only with a null `hiddengames`; otherwise an unreadable selection gives null; the other cases are stated by GamesUtils.SelectVisible, SelectHidden, SelectRandom, SelectRandomEdge, SelectBeyondVisible, SelectBeyondHidden and SelectedFromLists |
| GamesUtils.GetIndexOfGame | application-infrastructure/app/controllers/games.utils.js:55-92 | a non-string name or malformed games give 0; a positive result is a 1-based position in `gamechoices`, a negative one minus a 1-based position in an array `hiddengames`; a throw is a TypeError; the matches are stated by GamesUtils.IndexOfVisible, IndexOfHidden, IndexOfAbsent and IndexThenSelect |
| GamesUtils.FindUpper | application-infrastructure/app/controllers/games.utils.js:74 | the search finds the first entry that upper-cases to the key, or gives -1 exactly when every entry is a non-matching string |
| GamesUtils.FindUpperFirst | application-infrastructure/app/controllers/games.utils.js:79 | a match at `i` with only non-matching strings before it is found at `i` |
| GamesUtils.FindUpperThrows | application-infrastructure/app/controllers/games.utils.js:74 | the search throws exactly when it reaches a non-string entry before any match |
| GamesUtils.SelectVisible | application-infrastructure/app/controllers/games.utils.js:28-41 | selector `s` from 1 to the length of `gamechoices` gives `gamechoices[s-1]` |
| GamesUtils.SelectHidden | application-infrastructure/app/controllers/games.utils.js:28-41 | selector `-k` with `k` from 1 to the length of `hiddengames` gives `hiddengames[k-1]` |
| GamesUtils.SelectRandom | application-infrastructure/app/controllers/games.utils.js:28-41 | for `0 < random < 1`, selector 0 gives an entry of a non-empty `gamechoices` |
| GamesUtils.SelectRandomEdge | application-infrastructure/app/controllers/games.utils.js:31-41 | selector 0 with `random` 0 or an empty list gives `undefined` |
| GamesUtils.SelectBeyondVisible | application-infrastructure/app/controllers/games.utils.js:41 | a positive selector beyond `gamechoices` gives null |
| GamesUtils.SelectBeyondHidden | application-infrastructure/app/controllers/games.utils.js:36-41 | a negative selector whose magnitude is beyond an array `hiddengames` gives null |
| GamesUtils.SelectMalformed | application-infrastructure/app/controllers/games.utils.js:21-25 | a games value that is not an object, lacks a key, or whose `gamechoices` is not an array gives null |
| GamesUtils.SelectHiddenNull | application-infrastructure/app/controllers/games.utils.js:28-41 | every negative selector throws when `hiddengames` is null, since only `gamechoices` is checked to be an array |
| GamesUtils.SelectNaN | application-infrastructure/app/controllers/games.utils.js:18-41 | an unreadable selection gives null, except that a null `hiddengames` throws |
| GamesUtils.SelectedFromLists | application-infrastructure/app/controllers/games.utils.js:12-47 | any result is null, `undefined`, or an entry of one of the two lists; only a null `hiddengames` throws |
| GamesUtils.IndexOfVisible | application-infrastructure/app/controllers/games.utils.js:68-84 | the first case-insensitive match at `i` in `gamechoices` gives `i + 1` |
| GamesUtils.IndexOfHidden | application-infrastructure/app/controllers/games.utils.js:74-84 | a name absent from `gamechoices` and first matched at `j` in `hiddengames` gives `-(j + 1)` |
| GamesUtils.IndexOfFoundHidden | application-infrastructure/app/controllers/games.utils.js:78-84 | a search result `j` in `hiddengames` after -1 in `gamechoices` gives `-(j + 1)` |
| GamesUtils.IndexOfAbsent | application-infrastructure/app/controllers/games.utils.js:78-87 | a name in neither list gives 0 |
| GamesUtils.IndexOfInvalid | application-infrastructure/app/controllers/games.utils.js:61-66 | a name that is not a string, or malformed games, give 0 |
| GamesUtils.IndexThenSelectVisible | application-infrastructure/app/controllers/games.utils.js:12-92 | the selector of a name found in `gamechoices` at `i` is `i + 1`, and it selects that entry |
| GamesUtils.SelectHiddenDecimal | application-infrastructure/app/controllers/games.utils.js:28-41 | the number `-(j + 1)` selects `hiddengames[j]` |
| GamesUtils.IndexThenSelect | application-infrastructure/app/controllers/games.utils.js:12-92 | round trip: for a name in either list, `selectedGame(getIndexOfGame(name))` is the name up to upper-casing |
| GamesTask.GetGame | application-infrastructure/app/controllers/games.task.js:26-62 | data without a `gamechoices` array gives the empty string; without `play`, a non-empty `gamechoices` gives one of its entries; the result is `undefined` exactly when there is no `play` and `gamechoices` is empty; the `play` cases are stated by the GetGame lemmas below |
| GamesTask.GetGameVisible | application-infrastructure/app/controllers/games.task.js:39-43 | `play` reading a zero-based index `i` of `gamechoices` gives `gamechoices[i]` |
| GamesTask.GetGameHidden | application-infrastructure/app/controllers/games.task.js:44-47 | `play` reading `i < 0` with `(-i)+1` inside `hiddengames` gives `hiddengames[(-i)+1]` |
| GamesTask.GetGameInvalid | application-infrastructure/app/controllers/games.task.js:48-49 | every other `play`, NaN included, gives "Invalid game selection" |
| GamesTask.GetGameMinusOne | application-infrastructure/app/controllers/games.task.js:44-47 | `play=-1` reads `hiddengames[2]` |
| GamesTask.ConventionsVisible | application-infrastructure/app/controllers/games.task.js:39-43 | task index `i` picks what `selectedGame(i + 1)` picks |
| GamesTask.ConventionsHidden | application-infrastructure/app/controllers/games.task.js:44-47 | task index `-k` picks what `selectedGame(-(k + 2))` picks |
| GamesTask.FindGame | application-infrastructure/app/controllers/games.task.js:69-99 | no truthy `game` property gives null; a result is null or a number, from -1 to the last index of `gamechoices` when there is one, otherwise from minus the length of `hiddengames` to 0; a throw is a TypeError |
| GamesTask.FindGameVisible | application-infrastructure/app/controllers/games.task.js:81-83 | with `gamechoices` strings, the result is the zero-based index of a case-insensitive match with no match before it, and -1 exactly when the name is absent |
| GamesTask.FindGameHidden | application-infrastructure/app/controllers/games.task.js:86-91 | without `gamechoices`, a match at `j > 0` gives `-(j+1)`, a match at 0 leaves null, and an absent name gives 0 |
| GamesTask.FindGamePrimitive | application-infrastructure/app/controllers/games.task.js:86 | data that is neither object nor array throws at the `in` test |
| PredictionTask.GetPrediction | application-infrastructure/app/controllers/prediction.task.js:16-23 | a non-empty result is the data's string `prediction` |
| PredictionTask.PredictionKept | application-infrastructure/app/controllers/prediction.task.js:19-20 | a string `prediction` is returned unchanged |
| PredictionTask.PredictionDropped | application-infrastructure/app/controllers/prediction.task.js:16-21 | data that is not an object, lacks `prediction`, or has a non-string one gives "" |
| PredictionTask.ServiceFailureGivesEmpty | application-infrastructure/app/models/prediction.service.js:29 | the service's failure placeholder projects to "" |
| Utils.RemainingTime | application-infrastructure/app/utils/index.js:93 | the reported time is kept unless it is 0, which becomes 1000; the result is never 0 |
| Utils.Budget | application-infrastructure/app/utils/index.js:104-105 | the budget is `remaining - headroom` when positive and 0 otherwise, never negative |
| Utils.BudgetAntitone | application-infrastructure/app/utils/index.js:104-105 | more headroom never gives more time |
| Utils.BudgetStrictlyDecreasing | application-infrastructure/app/utils/index.js:104-105 | more headroom gives strictly less time while the budget is positive |
| Utils.BudgetNoHeadroom | application-infrastructure/app/utils/index.js:103-105 | the default headroom 0 gives the whole positive remaining time |
| Utils.Request.IsValidReferer | application-infrastructure/app/utils/index.js:129-132 | every referer is accepted: the configured check is commented out |
| Utils.Request.constructor | application-infrastructure/app/utils/index.js:71-75 | every constructed request is valid, because the referer validation accepts everything |
| Utils.Request.GetRemainingTimeInMillis | application-infrastructure/app/utils/index.js:92-94 | with a context: the reading, or 1000 for a reading of 0; without one: it throws |
| Utils.Request.CalcRemainingTimeInMillis | application-infrastructure/app/utils/index.js:103-106 | with a context: a non-negative budget of the remaining time; without one: it throws |
| Utils.Text | application-infrastructure/app/utils/index.js:264 | definition of how `join` renders a nullable value: null as the empty string; used by Utils.ResponseFields and Classes.ClientFields |
| Utils.Bytes | application-infrastructure/app/utils/index.js:241 | the byte length of the body, and "0" for a null body |
| Utils.ExecMs | application-infrastructure/app/utils/index.js:242 | the `x-exec-ms` header when present, "-" otherwise |
| Utils.OrDash | application-infrastructure/app/utils/index.js:256-258 | a non-empty string is kept; an empty or null value becomes "-"; the result is never empty |
| Utils.UserAgentField | application-infrastructure/app/utils/index.js:256 | the user-agent field is empty only for the user agent made of one pipe character |
| Utils.ResponseFields | application-infrastructure/app/utils/index.js:239-261 | ten fields in the order the log parser reads them: status code, body bytes, execution time, client IP, user agent (or "-") with its first pipe character removed, origin or "-", referer or "-", route, then "-" for params and key |
| Utils.Response | application-infrastructure/app/utils/index.js:251-264 | the pushed fields, joined, are the ten fields in the parser's order |
| Utils.ResponseLineSplitsIntoTen | application-infrastructure/app/utils/index.js:251-264 | with pipe-free values (at most one pipe character in the user agent), splitting the line on the pipe character gives ten pieces, piece `k` being field `k` with the spaces around the separators; the line has nine pipe characters |
| Utils.RemoveOnlyPipe | application-infrastructure/app/utils/index.js:256 | a user agent with at most one pipe character has none left after the `replace` |
| Utils.UserAgentKeepsSecondPipe | application-infrastructure/app/utils/index.js:256 | a user agent with two pipe characters still has one in its field |
| AppConfig.Lookup | app/classes.js:144-168 | the lookup both getters share: no key gives the section; a section key gives its value; a key outside the section throws exactly when it is an inherited method name, `__proto__` gives an empty object, and any other key gives null |
| AppConfig.RefererCheck | app/classes.js:183-192 | the check both applications share: no referers accepts everything; with referers, an empty or null referer is rejected |
| AppConfig.Config.constructor | application-infrastructure/app/config/index.js:25-27 | the sections start empty |
| AppConfig.Config.Init | application-infrastructure/app/config/index.js:113-115 | a section present in the file replaces the stored one, and an absent one leaves it |
| AppConfig.Config.GetSettings | application-infrastructure/app/config/index.js:34-43 | null key gives all settings, a present key its value, a missing non-inherited key null |
| AppConfig.Config.GetPolicies | application-infrastructure/app/config/index.js:50-58 | the same lookup over the policies |
| AppConfig.Config.GetReferers | application-infrastructure/app/config/index.js:64-66 | the configured referers in their order, `[]` when none |
| AppConfig.Config.IsValidReferer | application-infrastructure/app/config/index.js:73-81 | empty list accepts everything; with a list, an empty or null referer is rejected |
| AppConfig.InitThenGetSettings | application-infrastructure/app/config/index.js:113-115 | after `init`, `getSettings(key)` gives the file's value for the key |
| AppConfig.InitWithoutSettings | application-infrastructure/app/config/index.js:25-27 | after `init` without a settings section, every non-inherited key gives null |
| AppConfig.RefererHostSuffix | application-infrastructure/app/config/index.js:80 | for `scheme//host/path`, the check is "the host ends with some listed item" |
| AppConfig.SuffixHostPasses | application-infrastructure/app/config/index.js:80 | any host that ends with a listed item passes |
| AppConfig.LookalikeHostPasses | application-infrastructure/app/config/index.js:80 | `https://evilchadkluck.net/...` passes when `chadkluck.net` is listed |
| AppConfig.RefererWithoutSlashesThrows | application-infrastructure/app/config/index.js:80 | with a list, a non-empty referer with fewer than two "/" throws instead of failing |
| Classes.Request.constructor | app/classes.js:35-64 | every constructed request is valid |
| Classes.Request.IsValidReferer | app/classes.js:61-64 | every referer is accepted: the configured check is commented out |
| Classes.Tests.constructor | app/classes.js:96 | the model starts with no items |
| Classes.Tests.AddItemByKey | app/classes.js:110 | one call appends one key/value item |
| Classes.Tests.AddTests | app/classes.js:104-114 | the items gain the keys of each object, objects in array order and keys in key order |
| Classes.Flatten | app/classes.js:104-114 | definition of the items `addTests` records; its properties are stated by Classes.FlattenAppend, Classes.FlattenLength and Classes.FlattenAt |
| Classes.FlattenAppend | app/classes.js:104-114 | one more object adds its keys after those of the earlier objects |
| Classes.FlattenLength | app/classes.js:104-114 | exactly one item per key: none skipped, none repeated |
| Classes.FlattenAt | app/classes.js:104-114 | each key in its place: key `k` of object `o` comes after the keys of the objects before `o` and the `k` keys before it in `o` |
| Classes.DashIfEmpty | app/classes.js:346-348 | a non-empty value is kept; an empty one becomes "-"; a null one is kept and joins as "" |
| Classes.ClientFields | app/classes.js:344-348 | four fields in order: client IP, user agent with "-" for empty and its first pipe character removed, origin and referer with "-" for empty; a throw exactly when the user agent is null |
| Classes.Critical | app/classes.js:344-351 | the critical line is the four client fields of Classes.ClientFields, in order, then the text, joined with the pipe separator; a null user agent throws |
| Classes.Response | app/classes.js:378-387 | the response line is status code, elapsed time, then the four client fields of Classes.ClientFields, in order, joined with the pipe separator; a null user agent throws |
| Classes.ClientFieldsPipeFree | app/classes.js:344-348 | pipe-free client values (at most one pipe character in the user agent) give client fields without a pipe character |
| Classes.CriticalLineFields | app/classes.js:344-351 | with pipe-free values and text, splitting the critical line on the pipe character gives five pieces: the four client fields and the text, each with the spaces around the separators; the line has four pipe characters |
| Classes.ResponseLineFields | app/classes.js:378-387 | with pipe-free values, splitting the earlier response line on the pipe character gives six pieces: status code, elapsed time and the four client fields, each with the spaces around the separators; the line has five pipe characters |

## Left out

- The `@chadkluck/cache-data` library is not part of this model. This covers request parsing,
  `addItemByKey`'s storage, timers, the debug log, SSM parameters and the cache. `addItemByKey`
  is modelled only as the call it records.
- `Config.init` beyond the three section assignments is I/O and configuration plumbing. This
  covers the parameter store, the `require` of the settings file, connections and cache
  initialisation.
- The `Promise.all` fan-out, the async wrappers and the timers around every task are concurrency
  glue. The tasks are modelled by the value they resolve with, and a throw inside one is a
  `Throws` outcome rather than a never-settled promise.
- The services, handlers, routes, views and `generateErrorResponse` depend on the network, clocks
  and environment variables.
- The log output itself is I/O. `Log.critical`'s `obj` argument goes only to the log, so the model
  keeps the message text.
- JsText.Upper folds only ASCII letters. The full Unicode `toUpperCase` mapping is not modelled.
- GamesUtils.PickAt: strings are sequences of code points here, while JavaScript indexes a string
  and measures its `length` in UTF-16 code units. A `gamechoices` or `hiddengames` string with
  characters outside the Basic Multilingual Plane is read at different positions.
- Classes.Response: `elapsed` is an integer and is rendered by `Decimal`. A fractional elapsed
  time, which JavaScript renders with a decimal point, is not modelled.
- `JsText.IsSpace` covers ASCII white space, no-break space, the byte-order mark and the two line
  terminators. The other Unicode space separators `parseInt` skips are not modelled.
- JSON numbers are integers, and `Decimal` renders them exactly. Fractions, exponents and integers
  beyond 2^53 are not modelled.
- A configuration section holding something other than an object (or, for `referers`, an array of
  strings) is not modelled.
- An object with its own `length` key given as `hiddengames` is treated like any other object, as
  if it had no length.
- The `Tests` constructor's call of `addTests` on the superclass is not modelled. That method is
  the library's, whose source is not part of this model.
- Utils.Request.GetRemainingTimeInMillis: the clock reading is an integer parameter, so how the
  platform measures time is not modelled.
