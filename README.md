# ABCD task loggers and continuous movement, in Dafny

This project models three pieces of a Unity navigation task (the "ABCD" reward-sequence task).

- **The desktop event logger** (`DataLogger`). It writes one CSV line per event.
  - `LogEvent` first fills six identity and time entries (`participant`, `study_id`, `session_id`, `session`, `date`, `t_global`) into the caller's event dictionary, but only where the caller left them out.
  - It then writes the dictionary's values in the order of a fixed list of 41 column headers. A missing key gives an empty field.
  - Each field is quoted in the manner of section 2 of RFC 4180 (rules 6 and 7) when it holds a comma, a double quote or a line feed. Quotes inside a quoted field are doubled.
  - The file's first line is the comma-joined header list.
- **The browser event logger** (`WebDataLogger`).
  - It takes the participant's identity from a `PID|STUDY|SESSION` string sent by the page.
  - It fills the same six defaults, then turns the dictionary into a JSON-like object string. There is one `"key":value` entry per entry, in enumeration order:
    - `int`, `float` and `double` values are written bare, as their `ToString()` text; other numeric types (`long`, `short`, `decimal`, ...) fall to the last case and are quoted;
    - booleans are written as `true`/`false`;
    - anything else, null included, is quoted, with its double quotes backslash-escaped.
- **The free-roaming movement controller** (`ContinuousMovement`).
  - Each frame it acts on at most one arrow key. The priority is up > left > right > down.
  - A forward step that would leave the play area is refused, and a refused up press still shuts out the turn keys.
  - Every acted frame hides the mini-map.
  - At the end of a frame in which the player has moved and its position is within 0.001 of last frame's, the controller reports the position to the reward manager. After a forward walk this happens once per stop. A turn leaves the position where it was, so it is reported on every frame a turn key is held.

Modules:

- `Values` (values.dfy): the run-time values an event dictionary holds, `ToString()` and `string.Join`.
- `EventDict` (event_dict.dfy): the event dictionary (a class the loggers change in place) and the default-filling shared by both loggers.
- `CsvLogger` (csv_logger.dfy): CSV escaping, a CSV line reader that is the inverse of escaping and joining, row building and the `DataLogger` class.
- `WebLogger` (web_logger.dfy): `Split`, the identity parser, value rendering, the object string and the `WebDataLogger` class.
- `Movement` (movement.dfy): the frame step as pure functions, and the `ContinuousMovement` class whose methods are proved against them.

Modelling decisions:

- A C# `object` in a dictionary is a `Value`: an `int`, a `float`, a `double`, a `bool`, a string, null, or any other object, which carries the text its `ToString()` returns.
- The event dictionary keeps its keys in insertion order, and the web logger's entries follow that order (see "## Left out").
- Calling `ToString()` on a null value throws in `DataLogger.LogEvent`. The model returns the failing column instead of a row, and nothing is written.
- The identity fields are C# strings that may be null, so the model uses `Option<string>`. A missing identity is filled in as a null value.
- Clocks are parameters:
  - `DateTime.Now`/`UtcNow` formatted as `yyyy-MM-dd`;
  - `Time.realtimeSinceStartup`;
  - the Unix timestamp.
- Culture-dependent number formatting is an abstract function `showReal`.
- Positions are exact reals. `Vector3.Distance(a, b) < 0.001` is compared as a squared distance below 0.000001.
- The forward direction (`transform.forward`) and the frame time (`Time.deltaTime`) are inputs of each frame. A turn adds its angle to a yaw in degrees.

Two points of the movement code are easy to misread:

- `WithinBounds` is strict on every side (Assets/Scripts/ContinuousMovement.cs:84-87), so a position exactly on a widened bound is out.
- `DisableMiniMap` is called on every acted frame (Assets/Scripts/ContinuousMovement.cs:70-73), although the comment on line 70 says "at first input". The model follows the code; whether repeated calls matter is up to the camera manager.
- `RewardFound` is called on every frame a turn key is held (Assets/Scripts/ContinuousMovement.cs:51-67 set `hasMoved` without moving the player, and line 24 then sees a distance of zero), although the comment on line 23 says "if we have stopped moving". The model follows the code: `TurnHeldReportsEveryFrame` proves one report per turning frame.

## Model

| member | source | states |
|---|---|---|
| Values.IntText | Assets/Scripts/DataLogger.cs:133 | `int.ToString()` starts with `-` exactly for negative numbers and is otherwise decimal digits |
| Values.DigitsValue | Assets/Scripts/DataLogger.cs:133 | the digits written for a natural number denote that number, with no leading zero |
| Values.IntTextValue | Assets/Scripts/DataLogger.cs:133 | `int.ToString()` denotes the integer: a non-negative one is its decimal value, a negative one is `-` and the value of its magnitude, never with a leading zero |
| Values.JoinCons | Assets/Scripts/DataLogger.cs:141 | `string.Join` puts exactly one separator between the first part and the joined rest |
| EventDict.Put | Assets/Scripts/DataLogger.cs:113 | `data[k] = v` replaces the value of an existing key without moving it, or adds the key last; keys stay distinct |
| EventDict.PutIfAbsent | Assets/Scripts/DataLogger.cs:113 | the guarded insert leaves a present key and every other value alone, and otherwise adds the key last with the value |
| EventDict.FillFromKeys | Assets/Scripts/DataLogger.cs:113-118 | filling keeps the caller's keys first and appends exactly the missing default keys, in filling order |
| EventDict.FillFromKeeps | Assets/Scripts/DataLogger.cs:113-118 | filling keeps the dictionary well formed, never changes a supplied value and adds no key outside the filled ones |
| EventDict.FillFromSets | Assets/Scripts/DataLogger.cs:113-118 | each missing key ends up with its own default value |
| EventDict.WithDefaultsUnfold | Assets/Scripts/DataLogger.cs:113-118 | filling the defaults is the six guarded inserts, in the source's order |
| EventDict.WithDefaultsSpec | Assets/Scripts/DataLogger.cs:113-118 | after filling, all six keys are present, supplied values are unchanged, no other key is added, the caller's keys come first |
| EventDict.WithDefaultsValues | Assets/Scripts/DataLogger.cs:113-118 | all six keys are present after filling, and a missing key gets the logger's participant/study/session field, `"001"`, the date or the time |
| EventDict.DefaultAt | Assets/Scripts/DataLogger.cs:113-118 | each default key is present after filling and, when the caller lacked it, holds its own default |
| EventDict.WithDefaultsSize | Assets/Scripts/WebDataLogger.cs:293-298 | a filled dictionary has at least six entries |
| EventDict.Dict.Set | Assets/Scripts/DataLogger.cs:113 | the indexer assignment changes the dictionary as `Put` says and keeps its keys distinct |
| EventDict.Dict.SetIfAbsent | Assets/Scripts/DataLogger.cs:113 | `if (!data.ContainsKey(k)) data[k] = v` changes the dictionary as `PutIfAbsent` says and keeps its keys distinct |
| EventDict.Dict.FillDefaults | Assets/Scripts/DataLogger.cs:113-118 | the six statements leave the dictionary equal to `WithDefaults` of the old one, still well formed |
| CsvLogger.DoubleQuotes | Assets/Scripts/DataLogger.cs:150 | doubling lengthens the text by its number of quotes |
| CsvLogger.EscapeCsv | Assets/Scripts/DataLogger.cs:146-153 | a field is left unchanged exactly when it holds no comma, quote or line feed; otherwise it is wrapped in quotes and grows by 2 plus its quote count |
| CsvLogger.UndoubleDouble | Assets/Scripts/DataLogger.cs:150 | halving doubled quotes undoes `Replace("\"", "\"\"")` |
| CsvLogger.EscapeCsvRoundTrip | Assets/Scripts/DataLogger.cs:148-152 | unquoting and halving an escaped field gives back the field |
| CsvLogger.UnquotedField | Assets/Scripts/DataLogger.cs:141 | an unquoted field and its rest make up the line, and the rest starts at a comma |
| CsvLogger.QuotedField | Assets/Scripts/DataLogger.cs:150 | a quoted field read from the line consumes input and stops at a comma or the end |
| CsvLogger.ParseField | Assets/Scripts/DataLogger.cs:141 | one field read from the line stops at a comma or the end |
| CsvLogger.ParseRow | Assets/Scripts/DataLogger.cs:141 | a line that reads back has at least one field |
| CsvLogger.UnquotedFieldOfPlain | Assets/Scripts/DataLogger.cs:148-152 | a field without a comma reads back as itself |
| CsvLogger.QuotedFieldOfDoubled | Assets/Scripts/DataLogger.cs:150 | a doubled text followed by a closing quote reads back as the text |
| CsvLogger.QuotedFieldOfDoubledQuote | Assets/Scripts/DataLogger.cs:150 | the same, when the text starts with a quote |
| CsvLogger.QuotedFieldOfDoubledChar | Assets/Scripts/DataLogger.cs:150 | the same, when the text starts with any other character |
| CsvLogger.ParseFieldOfEscaped | Assets/Scripts/DataLogger.cs:146-153 | an escaped field followed by a comma or the end of the line reads back as the field |
| CsvLogger.ParseRowOfJoined | Assets/Scripts/DataLogger.cs:141 | escaping every field and joining with commas gives a line that reads back as exactly those fields |
| CsvLogger.ColumnHeaderIsPlain | Assets/Scripts/DataLogger.cs:21-64 | no column name needs quoting |
| CsvLogger.HeadersArePlain | Assets/Scripts/DataLogger.cs:21-64 | no column name holds a comma, quote or line feed |
| CsvLogger.HeaderLineReadsBack | Assets/Scripts/DataLogger.cs:101 | a comma-joined list of plain names reads back as that list |
| CsvLogger.ColumnHeaderLineReadsBack | Assets/Scripts/DataLogger.cs:21-64 | there are 41 columns, and the header line reads back as exactly the 41 names |
| CsvLogger.CellText | Assets/Scripts/DataLogger.cs:131-138 | a column has no text exactly when its key is present with a null value, and an absent key gives an empty field |
| CsvLogger.RowTexts | Assets/Scripts/DataLogger.cs:128-139 | a built row has one text per column |
| CsvLogger.RowTextsSpec | Assets/Scripts/DataLogger.cs:128-139 | a row is built exactly when no column's value is null, holds each column's text in header order, and otherwise fails naming the first null column |
| CsvLogger.RowReadsBack | Assets/Scripts/DataLogger.cs:128-141 | a written row reads back as one text per column, as many fields as the header line |
| CsvLogger.RowIgnoresOtherKeys | Assets/Scripts/DataLogger.cs:128-139 | keys that are not column headers never change the row |
| CsvLogger.RowTextsStep | Assets/Scripts/DataLogger.cs:129-138 | one more column either appends its text or fails with its header |
| CsvLogger.PrefixFailure | Assets/Scripts/DataLogger.cs:133 | a null in an earlier column fails the whole row, whatever follows |
| CsvLogger.DataLogger.constructor | Assets/Scripts/DataLogger.cs:12-21 | the columns are the 41 headers, the identity is unset and no file is open |
| CsvLogger.DataLogger.InitializeWithInfo | Assets/Scripts/DataLogger.cs:78-102 | the identity is stored and the file's only line is the header line |
| CsvLogger.DataLogger.LogEvent | Assets/Scripts/DataLogger.cs:110-143 | the defaults are filled in even when no file is open; without a file nothing is written; otherwise the built row is appended, or nothing when a value is null, and the outcome names which |
| CsvLogger.DataLogger.WriteRow | Assets/Scripts/DataLogger.cs:120-141 | without a file nothing is written; otherwise exactly the built row is appended, or nothing when a column's value is null |
| CsvLogger.DataLogger.BuildRow | Assets/Scripts/DataLogger.cs:128-141 | the loop over the headers yields the row `RowLine` specifies, or the first null column |
| WebLogger.Split | Assets/Scripts/WebDataLogger.cs:172 | `Split('\|')` gives one more piece than there are separators, none holding a separator |
| WebLogger.JoinSplit | Assets/Scripts/WebDataLogger.cs:172 | joining the pieces with the separator gives back the string |
| WebLogger.SplitPlain | Assets/Scripts/WebDataLogger.cs:172 | a string without the separator is a single piece |
| WebLogger.SplitAppend | Assets/Scripts/WebDataLogger.cs:172 | a piece and a separator come first, and the rest splits on its own |
| WebLogger.SplitJoin | Assets/Scripts/WebDataLogger.cs:172 | splitting undoes joining when no piece holds the separator |
| WebLogger.SplitTwo | Assets/Scripts/WebDataLogger.cs:172-177 | two plain pieces each followed by `\|` are the first two parts |
| WebLogger.ParticipantFields | Assets/Scripts/WebDataLogger.cs:172-177 | there is an identity exactly when the string holds at least two `\|`, and no field holds a `\|` |
| WebLogger.ParticipantFieldsRoundTrip | Assets/Scripts/WebDataLogger.cs:170-180 | `p\|s\|se` gives back exactly `p`, `s`, `se`, empty pieces included |
| WebLogger.ParticipantFieldsIgnoresRest | Assets/Scripts/WebDataLogger.cs:172-177 | pieces after the third are ignored |
| WebLogger.WebDataLogger.SetParticipantInfo | Assets/Scripts/WebDataLogger.cs:170-180 | with three or more pieces the three ids become the first three; otherwise none changes |
| WebLogger.WebDataLogger.InitializeWithInfo | Assets/Scripts/WebDataLogger.cs:153-160 | the identity and the start time are stored |
| WebLogger.WebDataLogger.constructor | Assets/Scripts/WebDataLogger.cs:106-113 | the identity starts unset (null) |
| WebLogger.EscapeQuotes | Assets/Scripts/WebDataLogger.cs:311 | escaping lengthens the text by its number of quotes |
| WebLogger.EscapedQuotesAreMarked | Assets/Scripts/WebDataLogger.cs:311 | every quote in an escaped text follows a backslash |
| WebLogger.UnescapeEscape | Assets/Scripts/WebDataLogger.cs:311 | reading `\"` as `"` undoes the escaping |
| WebLogger.RenderBare | Assets/Scripts/WebDataLogger.cs:304-309 | ints, floats and doubles are written as their text with no quote; booleans as lower-case literals, unlike their `ToString()` |
| WebLogger.RenderQuotedReadsBack | Assets/Scripts/WebDataLogger.cs:304-311 | any other value, null included, is quoted, its inner quotes are escaped, and unescaping the inside gives its text back |
| WebLogger.Entries | Assets/Scripts/WebDataLogger.cs:301-312 | one entry per key |
| WebLogger.EntriesAt | Assets/Scripts/WebDataLogger.cs:301-312 | entry `i` is built from key `i` and its value, in enumeration order |
| WebLogger.EntriesAppend | Assets/Scripts/WebDataLogger.cs:301-312 | the entries of two key lists in a row are the entries of each, in order |
| WebLogger.EntriesAgree | Assets/Scripts/WebDataLogger.cs:301-312 | the entries depend only on the values of their own keys |
| WebLogger.EntriesOfExtended | Assets/Scripts/WebDataLogger.cs:301-312 | after only additions, the entries are the old object's entries, unchanged, followed by one entry per added key |
| WebLogger.LogEventObject | Assets/Scripts/WebDataLogger.cs:291-313 | after filling, there are at least six entries: the caller's entries unchanged, then one for each default it lacked |
| WebLogger.SessionEntry | Assets/Scripts/WebDataLogger.cs:296-311 | a missing session is filled with the string "001", which, being a string, is written quoted: `"session":"001"` |
| WebLogger.WebDataLogger.LogEvent | Assets/Scripts/WebDataLogger.cs:291-313 | the dictionary is filled with the defaults and stays well formed, and the returned string is the object of the filled dictionary |
| WebLogger.WebDataLogger.RenderObject | Assets/Scripts/WebDataLogger.cs:300-313 | the loop builds the object string: braces around the comma-joined entries, in enumeration order |
| Movement.DistanceSquared | Assets/Scripts/ContinuousMovement.cs:24 | the squared distance is never negative and is zero from a point to itself |
| Movement.WithinBoundsBox | Assets/Scripts/ContinuousMovement.cs:76-88 | inside bounds exactly when -5.4 < x < 15.4 and 4.9 < z < 25.7, whatever the height |
| Movement.ActionPriority | Assets/Scripts/ContinuousMovement.cs:40-68 | at most one action, in the order up, left, right, down; an up press moves exactly when in bounds and shuts out the turns either way |
| Movement.BlockedForwardIsIgnored | Assets/Scripts/ContinuousMovement.cs:42-50 | a refused up press leaves the input step without effect and the turn keys unread; the frame keeps position and heading and does not hide the mini-map |
| Movement.TurnAlwaysActs | Assets/Scripts/ContinuousMovement.cs:51-68 | a turn key turns by its angle, sets `hasMoved`, keeps the position and hides the mini-map |
| Movement.MiniMapEveryActedFrame | Assets/Scripts/ContinuousMovement.cs:70-73 | the mini-map is hidden on a frame exactly when its input is acted on, as the frame's first call |
| Movement.RewardFoundWhenSettled | Assets/Scripts/ContinuousMovement.cs:24-28 | the reward is reported exactly when the player has moved and is within 0.001 of last frame's position; then exactly once, only ever with the current position, and `hasMoved` is cleared |
| Movement.LastPositionIsCurrent | Assets/Scripts/ContinuousMovement.cs:30 | every frame ends with the last position equal to the position |
| Movement.TurnFrameReportsAtOnce | Assets/Scripts/ContinuousMovement.cs:21-28 | a turn-only frame hides the mini-map and reports the reward in the same frame |
| Movement.TurnHeldReportsEveryFrame | Assets/Scripts/ContinuousMovement.cs:21-67 | with a turn key held from rest, every frame reports the reward, so n turning frames make n reports, and the position never changes |
| Movement.LongStepIsNoStop | Assets/Scripts/ContinuousMovement.cs:24-28 | a forward step of 0.001 or more reports nothing and leaves `hasMoved` set |
| Movement.NoKeyboardNoInput | Assets/Scripts/ContinuousMovement.cs:35-36 | without a keyboard the input step changes nothing and hides nothing |
| Movement.QuietWhileIdle | Assets/Scripts/ContinuousMovement.cs:24-30 | after the report, frames without acted input make no call and change nothing |
| Movement.OneRewardPerStop | Assets/Scripts/ContinuousMovement.cs:24-28 | however many frames pass without acted input, the reward is reported at most once |
| Movement.ContinuousMovement.constructor | Assets/Scripts/ContinuousMovement.cs:6-17 | default speeds 5 and 50, `hasMoved` false, last position the start position |
| Movement.ContinuousMovement.CheckContinuousInput | Assets/Scripts/ContinuousMovement.cs:33-74 | the fields change as `AfterInput` says, and the mini-map call is made exactly when input was acted on |
| Movement.ContinuousMovement.Update | Assets/Scripts/ContinuousMovement.cs:19-31 | the fields and the calls made change as `Step` says |

## Left out

- File I/O in `DataLogger`: the data directory, the file name, `StreamWriter`, `Flush` and `Close`. The file is the list of lines written.
- The `UNITY_WEBGL` build of `DataLogger`, which writes nothing. Only the desktop build is modelled.
- The page bridge (`SendDataToJS`), its `try`/`catch`, and every `Debug.Log`. These are foreign calls; `WebDataLogger.LogEvent` returns the string it would send.
- The typed records and `Log*` methods of `WebDataLogger`, and its startup smoke test. They are serialised by `JsonUtility`, a library outside the model.
- `GetCurrentRunTime` in both loggers and `GetUnixTimestamp`: clock arithmetic only. Clocks are parameters.
- The singleton `Awake`/`Destroy`/`DontDestroyOnLoad` logic: engine lifecycle.
- CsvLogger.DataLogger.constructor: the inspector can preset the three public identity fields. The model starts them unset.
- Values.ToText: `float` and `double` text comes from one abstract culture-dependent function, not from .NET's formatting rules.
- Movement.ContinuousMovement.CheckContinuousInput: the candidate position and the turn angles are exact real arithmetic, not 32-bit floats. The float rounding of the bound constants (`-5.3f - 0.1f` and so on) is not modelled.
- Movement.ContinuousMovement.CheckContinuousInput: `transform.forward` is a frame input, not derived from the heading by trigonometry. `transform.Rotate` is modelled as adding the angle to a yaw, without wrapping at 360 degrees.
- The reward manager, the camera manager and `FreeNavigationCamera` are not part of this model. Calls into them are recorded, not executed.
- The discrete grid movement controller and the reward-sequence controller are not part of this model.
- The enumeration order of `Dictionary<string, object>`: .NET leaves it unspecified. The model assumes the order the runtime gives when nothing has been removed (insertion order, with a replaced value keeping its key's place); the loggers never remove a key. Everything the model states about entry order rests on this assumption.
- General JSON validity of the web logger's output is not claimed. Keys and backslashes in values are not escaped.
