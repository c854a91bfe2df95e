# TheOracle: oracle roller, asset cards and settlement locations in Dafny

TheOracle is a chat bot for the tabletop games Ironsworn and Starforged. This
project models four parts of it and proves properties of the model.

- **The oracle roller** (`OracleRoller`). It turns a request such as `Action`,
  `[Action/Theme]` or a table whose row reads `[2x]` into an ordered list of
  roll results. Each result has a depth. The roller:
  - matches table names and aliases, ignoring case;
  - filters the tables by the roller's game;
  - splits a bracketed group into its members and rejects ambiguous requests;
  - rolls each table and records the row it lands on;
  - follows nested sub-tables and rows whose text is a reference to another
    table, and handles the `[Nx]` repeat form;
  - prints the list, one tab per depth level.
- **The numeric asset track**. Its `ActiveNumber` setter ignores values outside
  `[Min, Max]`. The asset reaction handlers step it up or down by one, each step
  behind a bounds guard.
- **Asset cards** (`Asset`). `GetEmbed` renders an asset into an embed. An
  argument cursor is shared by the asset's own input fields and those of every
  asset field. Each asset field is labelled enabled or disabled, and the numeric
  track's range is rendered with the active number marked. The model also covers
  `DeepCopy` and the part of `FromEmbed` that reads the two tracks back from a
  rendered card.
- **Settlement locations** (`ExtractAnySettlementLocation`). This finds the first
  of "Planetside", "Orbital" and "Deep space" that a text contains, ignoring
  case. It can also cut that keyword out of the text and tidy the spaces left
  behind.

## Modules

| file | module | what it holds |
|---|---|---|
| `wrappers.dfy` | `Wrappers`, `Games` | `Option`, `Result`, and the game enumeration with its `ToString` |
| `text.dfy` | `Text` | the .NET string operations the code relies on: `char.IsWhiteSpace`, `Trim`, ordinal and ordinal-ignore-case comparison, `Contains`, `Replace`, the `"  +"` collapse, `int.ToString()`, `int.TryParse` |
| `oracle.dfy` | `Oracle` | the roller: the data model, specification functions that thread the state (the result list and the position in the random stream), lemmas about them, and the class `OracleRoller`, whose methods are proved equal to the functions |
| `numeric_asset_track.dfy` | `NumericTracks` | 32-bit `int`, the guarded setter, the ±1 steps, and the class `NumericAssetTrack` |
| `asset_card.dfy` | `AssetCards` | the card as a value: what `GetEmbed` produces from an asset's contents, reading the tracks back, and the round trips |
| `asset.dfy` | `Assets` | the classes `Asset`, `AssetField` and `CountingAssetTrack`; `GetEmbed`, `DeepCopy` and the track read-back as methods proved against `AssetCards` |
| `settlement_location.dfy` | `Settlements` | `ExtractAnySettlementLocation` and its properties |

Randomness, the row lookup and the table registry are parameters of the roller
(`Env`):
- `draws` is an infinite stream of numbers, and the roller's `cursor` field
  marks how far into it the roller has read. `Random.Next(lo, hi)` uses one draw
  and returns a value in `[lo, hi)`.
- `lookup` stands for `LookupOracle`. The model only assumes that it returns one
  of the rows it was given.
- `oracleList` stands for `OracleService.OracleList`.

The resource string `AssetResources.UserInputField` is a parameter (`Template`):
the text before, between and after its two slots.

### Behaviour of the code that the model keeps

- Rolls: `Random.Next(1, d)` excludes `d`. A top-level roll therefore lies in
  `[1, d-1]`, or is 1 when `d` is 1. Nested rolls always use `Next(1, 100)`,
  whatever the size of the sub-table, so they lie in `[1, 99]`.
- Nested results start at depth 1 whatever the depth of the row that triggers
  them (OracleRoller.cs line 86), and go one level deeper per nested level.
- Game filter: a roller with no game keeps every matching table; a roller with
  a game keeps only the matching tables of exactly that game.
- Ambiguity: the parse throws only when more than one game has two or more
  matching tables (`Oracle.ParseAmbiguity`). Two tables called "Foo", one per
  game, are both rolled. The check applies to `[a/b]` groups as well.
- A row lookup that finds nothing at the top level makes the next statement
  dereference null. In the model this is the `NullReference` error, raised after
  the result has been appended. In a nested roll the same case ends the nested
  rolls silently.
- A description that is a bracketed reference is rolled as a request one level
  deeper. When it has the `[Nx]` form it is first handed to `MultiRollFacade`,
  and as written the count comes out as 0 (see Findings).
- The code has no recursion bound. The model has a `fuel` parameter and fails
  with `RecursionLimit` when it is used up.

## Model

| member | source | states |
|---|---|---|
| Oracle.Next | TheOracle/GameCore/Oracle/OracleRoller.cs:79 | `Random.Next(lo, hi)` succeeds iff `lo <= hi`, and then gives a value in `[lo, hi)`, or `lo` when the two are equal |
| Oracle.AnyAliasFolds | TheOracle/GameCore/Oracle/OracleRoller.cs:157 | the alias scan is true iff some alias equals the request after case folding |
| Oracle.MatchTableAliasByKeys | TheOracle/GameCore/Oracle/OracleRoller.cs:155-158 | a table matches iff the folded request is its folded name or one of its folded aliases; with null aliases only the name counts |
| Oracle.WhereMembers | TheOracle/GameCore/Oracle/OracleRoller.cs:141 | the filter keeps exactly the registered tables that match the request and pass the game filter, and never adds any |
| Oracle.NoGameKeepsAll | TheOracle/GameCore/Oracle/OracleRoller.cs:136 | when the roller has no game, every matching table is kept |
| Oracle.WhereNone | TheOracle/GameCore/Oracle/OracleRoller.cs:141 | when no table matches, the filter returns nothing |
| Oracle.WhereAppend | TheOracle/GameCore/Oracle/OracleRoller.cs:141 | filtering keeps registry order: filtering a concatenated registry filters each part in turn |
| Oracle.MatchGroupMembers | TheOracle/GameCore/Oracle/OracleRoller.cs:133-137 | a table is among a group's matches iff it is registered, passes the game filter and matches some member of the group |
| Oracle.HasBracketPairIff | TheOracle/GameCore/Oracle/OracleRoller.cs:130-131 | the scan finds a bracket pair iff `\[.*\]` matches: some `[` has a later `]` with no line break between them |
| Oracle.GroupItemsShape | TheOracle/GameCore/Oracle/OracleRoller.cs:133 | the group has at least one member; no member holds `[`, `]` or `/`; the members joined with `/` give the request with its brackets removed |
| Oracle.CandidatesMembership | TheOracle/GameCore/Oracle/OracleRoller.cs:127-142 | a table is a candidate iff it is registered, passes the game filter, and matches the request (or one member of its bracket group, when it has a bracket pair) |
| Oracle.CandidatesRegistered | TheOracle/GameCore/Oracle/OracleRoller.cs:136-141 | every candidate is a registered table that the game filter admits |
| Oracle.PlainRequest | TheOracle/GameCore/Oracle/OracleRoller.cs:139-142 | a request without `[` is matched whole, in registry order |
| Oracle.DistinctGamesShape | TheOracle/GameCore/Oracle/OracleRoller.cs:146-148 | the games named in the ambiguity message are exactly those of the candidates, each once |
| Oracle.CrowdedIff | TheOracle/GameCore/Oracle/OracleRoller.cs:144 | more than one game with two or more tables iff two different games each have two or more tables |
| Oracle.ParseAmbiguity | TheOracle/GameCore/Oracle/OracleRoller.cs:144-152 | the parse throws iff two different games each have two or more candidates; the exception names the distinct games; otherwise the candidate list comes back unchanged |
| Oracle.ChainReference | TheOracle/GameCore/Oracle/OracleRoller.cs:90-93 | a chained reference is the whole description, or the description without a final line break; it is at least two characters, bracketed, and on one line |
| Oracle.RepeatAtShape | TheOracle/GameCore/Oracle/OracleRoller.cs:94 | a `^\[\d+x\]` match is `[`, one or more digits, then `x]` |
| Oracle.FindRepeatDigits | TheOracle/GameCore/Oracle/OracleRoller.cs:165-167 | the leftmost `\[\d+x\]` match captures a non-empty run of digits |
| Oracle.ResolveUnknown | TheOracle/GameCore/Oracle/OracleRoller.cs:68-75 | whenever the parse of the trimmed request returns no table (no match, no member of a bracket group matches, or every match is of another game), the roll throws "Unknown Oracle Table" with the trimmed request, before any result is appended or any number drawn |
| Oracle.UnknownInGame | TheOracle/GameCore/Oracle/OracleRoller.cs:70-75 | with a game chosen, a plain request whose only matching tables belong to other games throws "Unknown Oracle Table" with nothing appended |
| Oracle.ResolveNested | TheOracle/GameCore/Oracle/OracleRoller.cs:106-123 | a nested roll never throws: a missing row or sub-table ends it silently |
| Oracle.ResolveNestedShape | TheOracle/GameCore/Oracle/OracleRoller.cs:106-123 | `RollNested(row, k)` keeps the earlier results and appends only results with a null table name, a row and a roll in [1, 99]; the first is at depth k and each later one a level deeper. A row without a sub-table appends nothing and draws nothing; a lookup that finds no row draws once and appends nothing |
| Oracle.ResolveTableNested | TheOracle/GameCore/Oracle/OracleRoller.cs:81-87 | right after a table's own result come the nested results of the row found, those of `RollNested(row, 1)`: unnamed and at depths 1, 2, ... whatever the depth of the table's roll |
| Oracle.ResolveGrows | TheOracle/GameCore/Oracle/OracleRoller.cs:66-97 | `RollFacade` keeps the earlier results as a prefix and only moves the random stream forward. Every new result is well formed (`Entry`): a named result comes from a registered table the game filter admits, has a roll in that table's range and one of its rows, and lies at the call's depth or deeper; a nested (unnamed) result has a row, a roll in [1, 99] and depth >= 1. When nothing is thrown, every new result has a row |
| Oracle.ResolveEachGrows | TheOracle/GameCore/Oracle/OracleRoller.cs:77-97 | the loop over the tables to roll keeps these same guarantees |
| Oracle.ResolveTableGrows | TheOracle/GameCore/Oracle/OracleRoller.cs:79-96 | rolling a table: a roll range below 1 throws with nothing appended. Otherwise the first new result is `(roll, table name, row found, depth)`, appended before anything it triggers; every named result it triggers lies at depth + 1 or deeper, and every nested result at depth >= 1 |
| Oracle.ChainGrows | TheOracle/GameCore/Oracle/OracleRoller.cs:89-96 | every named result a description chains to lies at least one level deeper than the table rolled; nested results lie at depth >= 1 |
| Oracle.RepeatChainGrows | TheOracle/GameCore/Oracle/OracleRoller.cs:94-95 | the `[Nx]` branch, the repeat followed by the roll of the reference itself, adds named results only at depth + 1 or deeper, and nested results at depth >= 1 |
| Oracle.ResolveNestedGrows | TheOracle/GameCore/Oracle/OracleRoller.cs:106-123 | the results nested rolls append are well formed for any depth of call; the exact shape of those results is `ResolveNestedShape` |
| Oracle.MultiRollGrows | TheOracle/GameCore/Oracle/OracleRoller.cs:160-182 | `MultiRollFacade` adds only well-formed results: named ones at least one level below its table, nested ones at depth >= 1 |
| Oracle.RepeatGrows | TheOracle/GameCore/Oracle/OracleRoller.cs:176-179 | the repeat loop adds only well-formed results: named ones at least one level below its table, nested ones at depth >= 1 |
| Oracle.ResolveEachTopLevel | TheOracle/GameCore/Oracle/OracleRoller.cs:77-81 | a successful loop adds exactly one result at the call's own depth per table rolled, named after it, in list order |
| Oracle.ResolveTableTopLevel | TheOracle/GameCore/Oracle/OracleRoller.cs:79-81 | a successful roll of one table adds exactly one result at the call's depth, and it carries that table's name |
| Oracle.ResolveTopLevel | TheOracle/GameCore/Oracle/OracleRoller.cs:66-97 | a successful `RollFacade` parsed its request without error, and at its depth it added one result per table of the parse, in order |
| Oracle.RepeatTopLevel | TheOracle/GameCore/Oracle/OracleRoller.cs:176-179 | a successful repeat of `n` rolls adds, one level down, `n` copies of the table's top-level names |
| Oracle.FindRepeatOf | TheOracle/GameCore/Oracle/OracleRoller.cs:165-167 | both repeat patterns find the digits of a `[Nx]` text |
| Oracle.RepeatCountAsWritten | TheOracle/GameCore/Oracle/OracleRoller.cs:167-168 | as written, parsing `Captures[0]` gives a `[Nx]` text a count of 0 |
| Oracle.RepeatCountIntended | TheOracle/GameCore/Oracle/OracleRoller.cs:167-168 | parsing the captured digits gives the count N |
| Oracle.GroupItemsOfRepeat | TheOracle/GameCore/Oracle/OracleRoller.cs:130-133 | rolled as a request, `[Nx]` is a bracket group whose single member is `Nx` |
| Oracle.RepeatRowAsWritten | TheOracle/GameCore/Oracle/OracleRoller.cs:90-95 | as written, a row `[Nx]` rolls nothing more. When no table is called `Nx`, the roll then throws "Unknown Oracle Table" with the result list and the random stream unchanged |
| Oracle.RepeatRowIntended | TheOracle/GameCore/Oracle/OracleRoller.cs:90-95 | read as intended, a row `[Nx]` rolls its table N more times one level deeper, and nothing else. When this succeeds, it adds N copies of that table's top-level names |
| Oracle.OracleRoller.constructor | TheOracle/GameCore/Oracle/OracleRoller.cs:26-30 | the roller keeps the registry and the game it is given. Its list starts empty, where the C# constructor leaves it null; no caller can tell, because `RollAsString` resets the list before using it (line 34) |
| Oracle.OracleRoller.RollAsString | TheOracle/GameCore/Oracle/OracleRoller.cs:32-48 | resets the list, then rolls at depth 0. The list and the stream position become those of `Resolve`. An exception is passed on; otherwise every result has a row and the reply is `Render` of the list |
| Oracle.OracleRoller.WriteResults | TheOracle/GameCore/Oracle/OracleRoller.cs:40-47 | for each result in order: `Depth` tabs and the heading line, only when the table name is non-empty; then, always, `Depth` tabs and `[roll]: description` |
| Oracle.OracleRoller.RollFacade | TheOracle/GameCore/Oracle/OracleRoller.cs:66-97 | the new list, the new stream position and the exception thrown are exactly those of `Resolve` |
| Oracle.OracleRoller.RollTable | TheOracle/GameCore/Oracle/OracleRoller.cs:79-96 | one pass of the loop leaves the state `ResolveTable` gives |
| Oracle.OracleRoller.FollowChain | TheOracle/GameCore/Oracle/OracleRoller.cs:90-96 | the chained-reference check leaves the state `Chain` gives |
| Oracle.OracleRoller.FollowRepeat | TheOracle/GameCore/Oracle/OracleRoller.cs:93-95 | the `[Nx]` branch leaves the state `RepeatChain` gives |
| Oracle.OracleRoller.RollNested | TheOracle/GameCore/Oracle/OracleRoller.cs:106-123 | leaves the state `ResolveNested` gives, and throws nothing |
| Oracle.OracleRoller.MultiRollFacade | TheOracle/GameCore/Oracle/OracleRoller.cs:160-182 | leaves the state and the exception that `MultiRoll` gives |
| Oracle.OracleRoller.ParseOracleTables | TheOracle/GameCore/Oracle/OracleRoller.cs:125-153 | returns the `ParseResult` of the request: the candidates, or the ambiguity exception |
| NumericTracks.Wrap | TheOracle/GameCore/Assets/AssetCommand.cs:150 | unchecked 32-bit arithmetic: values in range stay as they are; `MaxValue + 1` becomes `MinValue` and `MinValue - 1` becomes `MaxValue` |
| NumericTracks.Assigned | TheOracle/GameCore/Assets/NumericAssetTrack.cs:15-22 | the setter stores the new value or keeps the old one. It stores it whenever the value is in `[Min, Max]`, it only ever stores an in-range value, and an in-range current value stays in range |
| NumericTracks.StepUpExact | TheOracle/GameCore/Assets/AssetCommand.cs:150-152 | below `int.MaxValue`, a step up adds exactly one when the result is in `[Min, Max]`, and changes nothing otherwise |
| NumericTracks.StepDownExact | TheOracle/GameCore/Assets/AssetCommand.cs:137-139 | above `int.MinValue`, a step down subtracts exactly one when the result is in `[Min, Max]`, and changes nothing otherwise |
| NumericTracks.StepsKeepBounds | TheOracle/GameCore/Assets/AssetCommand.cs:137-152 | both guarded steps keep an in-range value in range |
| NumericTracks.StepUpWrapsAtMaxValue | TheOracle/GameCore/Assets/AssetCommand.cs:150-152 | at `int.MaxValue` on a track spanning the whole `int` range, the unchecked `+ 1` passes the guard and the value jumps to `int.MinValue` |
| NumericTracks.NumericAssetTrack.constructor | TheOracle/GameCore/Assets/NumericAssetTrack.cs:7-13 | a new track has every field at its default, so it reports 0 |
| NumericTracks.NumericAssetTrack.SetActiveNumber | TheOracle/GameCore/Assets/NumericAssetTrack.cs:18-21 | the active number becomes `Assigned(old, value, Min, Max)`; Id, Name, Min and Max do not change |
| NumericTracks.NumericAssetTrack.DeepCopy | TheOracle/GameCore/Assets/NumericAssetTrack.cs:24-29 | a new track with equal field values |
| NumericTracks.NumericAssetTrack.Increase | TheOracle/GameCore/Assets/AssetCommand.cs:150-152 | the guard holds iff the 32-bit `ActiveNumber + 1 <= Max`; the new value is `StepUp`; the other fields do not change |
| NumericTracks.NumericAssetTrack.Decrease | TheOracle/GameCore/Assets/AssetCommand.cs:137-139 | the guard holds iff the 32-bit `ActiveNumber - 1 >= Min`; the new value is `StepDown`; the other fields do not change |
| NumericTracks.AssignToCopy | TheOracle/GameCore/Assets/NumericAssetTrack.cs:24-29 | assigning to a copy leaves the original unchanged; the copy takes the value the setter rules give |
| AssetCards.DescriptionShape | TheOracle/GameCore/Assets/Asset.cs:142-151 | with no input fields, the description is the asset's text alone; otherwise it is the input lines, an empty line, then the text |
| AssetCards.InputLinesPrefix | TheOracle/GameCore/Assets/Asset.cs:143-148 | the j-th top-level input field takes argument j, or eight spaces when there is none |
| AssetCards.LabelIff | TheOracle/GameCore/Assets/Asset.cs:155 | the label is the enabled emoji iff the field is enabled, and the disabled emoji iff it is not |
| AssetCards.ItemInputsPrefix | TheOracle/GameCore/Assets/Asset.cs:158-166 | the m-th input of an asset field takes the argument m places after the field's first |
| AssetCards.FieldEntriesPrefix | TheOracle/GameCore/Assets/Asset.cs:153-169 | one field per asset field, in order; the i-th starts its inputs right after those of the fields before it |
| AssetCards.ItemCountMonotone | TheOracle/GameCore/Assets/Asset.cs:162-164 | the argument cursor never moves back along the asset fields |
| AssetCards.ArgumentsDisjoint | TheOracle/GameCore/Assets/Asset.cs:145-164 | each argument is used at most once: the arguments of asset field i all lie before those of any later field |
| AssetCards.TrackEntriesAt | TheOracle/GameCore/Assets/Asset.cs:171-178 | one inline field per track item, in order, showing the active text iff the item is active |
| AssetCards.TrackEntriesPrefix | TheOracle/GameCore/Assets/Asset.cs:173-177 | each track item adds its own field after those of the items before it |
| AssetCards.NumbersSplit | TheOracle/GameCore/Assets/Asset.cs:188 | the range text splits at any number in it: the numbers before it, then that number and a space, then the numbers after it |
| AssetCards.TrimmedNumbers | TheOracle/GameCore/Assets/Asset.cs:189 | trimming a non-empty range of non-negative numbers drops only its final space |
| AssetCards.ActiveOccurs | TheOracle/GameCore/Assets/Asset.cs:189 | within the bounds, the active number's digits occur in the trimmed range |
| AssetCards.FindBoldReplace | TheOracle/GameCore/Assets/Asset.cs:189 | in a text without underscores that contains N, marking every N puts a marked N first |
| AssetCards.NumericRoundTrip | TheOracle/GameCore/Assets/Asset.cs:91-94 | when 0 <= Min <= ActiveNumber <= Max, the `__\*\*(\d+)\*\*__` read of the track text gives back ActiveNumber |
| AssetCards.CountingRoundTrip | TheOracle/GameCore/Assets/Asset.cs:100-103 | the `-?\d+` read of a rendered starting value gives that value back, for every 32-bit value |
| AssetCards.FirstNamed | TheOracle/GameCore/Assets/Asset.cs:90 | `First(f => f.Name == name)`: the field found has that name; `None` (where `First` throws) iff no field has it |
| AssetCards.FieldLabels | TheOracle/GameCore/Assets/Asset.cs:155-168 | every asset-field entry is named by one of the two labels |
| AssetCards.CardCountingRoundTrip | TheOracle/GameCore/Assets/Asset.cs:97-104 | render, then read: the counting field is found by the track's name and reads back as the starting value, when no earlier field has that name |
| AssetCards.CardNumericRoundTrip | TheOracle/GameCore/Assets/Asset.cs:88-95 | render, then read: with 0 <= Min <= ActiveNumber <= Max and Max != 0, the numeric field is found by the track's name and reads back as the active number, when no earlier field has that name |
| Assets.AssetField.constructor | TheOracle/GameCore/Assets/AssetField.cs:9-13 | a field with the given id, text, enabled flag and input list |
| Assets.AssetField.ShallowCopy | TheOracle/GameCore/Assets/AssetField.cs:15-21 | a new field with the same id and values |
| Assets.CountingAssetTrack.constructor | TheOracle/GameCore/Assets/CountingAssetTrack.cs:7-8 | a track with the given name and starting value |
| Assets.CountingAssetTrack.DeepCopy | TheOracle/GameCore/Assets/CountingAssetTrack.cs:10-13 | a new track with equal values |
| Assets.Asset.constructor | TheOracle/GameCore/Assets/Asset.cs:40-63 | an asset with the given contents and no arguments |
| Assets.Asset.GetEmbed | TheOracle/GameCore/Assets/Asset.cs:134-196 | the embed is `RenderEmbed` of the asset's contents: author, title, description, then the fields of the asset fields, the multi-field track, the counting track and the numeric track, in that order, and the game as footer |
| Assets.Asset.DescriptionText | TheOracle/GameCore/Assets/Asset.cs:142-149 | the description is `FullDescription`, and the cursor ends at the number of top-level input fields |
| Assets.Asset.AssetFieldEntries | TheOracle/GameCore/Assets/Asset.cs:153-169 | the asset fields' entries are `FieldEntries` of their values, starting at the given argument |
| Assets.Asset.MultiTrackEntries | TheOracle/GameCore/Assets/Asset.cs:171-178 | the multi-field track's entries, none when the track or its list is null |
| Assets.Asset.CountingTrackEntries | TheOracle/GameCore/Assets/Asset.cs:180-183 | the counting track's field when it has a name, and none otherwise |
| Assets.Asset.NumericTrackEntries | TheOracle/GameCore/Assets/Asset.cs:185-191 | the numeric track's field, except when there is no track or both bounds are 0 |
| Assets.Asset.NumericTrackText | TheOracle/GameCore/Assets/Asset.cs:187-189 | the loop's text is `TrackText`: Min to Max, each number followed by a space, trimmed, with every occurrence of the active number marked |
| Assets.Asset.DeepCopy | TheOracle/GameCore/Assets/Asset.cs:27-38 | a new asset with the same contents and no arguments; its asset fields and tracks are new objects |
| Assets.Asset.ReadTracks | TheOracle/GameCore/Assets/Asset.cs:88-104 | the numeric track is sent, through its setter, the marked number of the first field named like it; the counting track takes the first number of the first field named like it; a missing field throws "Sequence contains no matching element"; nothing else changes |
| Assets.EntriesOf | TheOracle/GameCore/Assets/Asset.cs:153-169 | the loop over the asset fields yields `FieldEntries` of their values |
| Assets.FieldEntryOf | TheOracle/GameCore/Assets/Asset.cs:155-168 | one asset field's entry, and the cursor moved past its inputs |
| Assets.CopyFields | TheOracle/GameCore/Assets/Asset.cs:31 | one new shallow copy per asset field, in order, with equal values |
| Assets.RenderAndReload | TheOracle/GameCore/Assets/Asset.cs:78-104 | render a card, copy the asset and read the copy's tracks back from the card: when the tracks satisfy `Reloadable`, the read succeeds and the copy matches the original |
| Settlements.FirstContained | TheOracle/StarForged/Settlements/StarforgedSettlementCommands.cs:182 | the result is empty or one of the keywords, and a non-empty result occurs in the text, ignoring case |
| Settlements.ExtractAnySettlementLocation | TheOracle/StarForged/Settlements/StarforgedSettlementCommands.cs:177-191 | the location is `FoundLocation(value)`. When the location is empty or no removal is asked for, the text is unchanged. Otherwise every occurrence is replaced, then the text is trimmed and runs of spaces are collapsed |
| Settlements.FirstContainedNone | TheOracle/StarForged/Settlements/StarforgedSettlementCommands.cs:182 | the search returns "" iff no keyword of the list occurs, ignoring case |
| Settlements.FirstContainedAt | TheOracle/StarForged/Settlements/StarforgedSettlementCommands.cs:179-182 | the search returns the keyword at index i iff it occurs and no earlier keyword does |
| Settlements.LocationIsKeyword | TheOracle/StarForged/Settlements/StarforgedSettlementCommands.cs:179-182 | the location is "Planetside", "Orbital", "Deep space" (in that casing) or "" |
| Settlements.LocationEmptyIff | TheOracle/StarForged/Settlements/StarforgedSettlementCommands.cs:182 | the location is "" iff none of the three keywords occurs, ignoring case |
| Settlements.LocationPriority | TheOracle/StarForged/Settlements/StarforgedSettlementCommands.cs:179-182 | "Planetside" wins whenever it occurs, "Orbital" only without "Planetside", and "Deep space" only without the other two |
| Settlements.RemovedIsTidy | TheOracle/StarForged/Settlements/StarforgedSettlementCommands.cs:186-187 | after a removal the text has no white space at either end and no two spaces in a row |
| Settlements.KeywordsDoNotOverlap | TheOracle/StarForged/Settlements/StarforgedSettlementCommands.cs:179 | no keyword's first letter comes back later in it, ignoring case, so no two occurrences of a keyword can overlap |
| Settlements.RemovalDeletesEvery | TheOracle/StarForged/Settlements/StarforgedSettlementCommands.cs:186 | at least one occurrence is removed, and the text shrinks by the keyword's length for every position at which the keyword starts in the original |
| Text.TrimShape | TheOracle/StarForged/Settlements/StarforgedSettlementCommands.cs:186 | `Trim` returns a slice of its input: it drops only white space at the two ends, and the result starts and ends with something else |
| Text.ReplaceCountIsOccurrences | TheOracle/StarForged/Settlements/StarforgedSettlementCommands.cs:186 | for a pattern that cannot overlap itself, one left-to-right `Replace` pass replaces every position at which the pattern starts |
| Text.RemoveAllLength | TheOracle/StarForged/Settlements/StarforgedSettlementCommands.cs:186 | replacing with "" shortens the text by the pattern's length once per replacement |
| Text.CollapseSpaces | TheOracle/StarForged/Settlements/StarforgedSettlementCommands.cs:187 | `Regex.Replace(s, "  +", " ")` leaves no two spaces in a row, never lengthens the text, and keeps its first and last characters |
| Text.CollapseIdempotent | TheOracle/StarForged/Settlements/StarforgedSettlementCommands.cs:187 | a text without double spaces is left as it is |
| Text.IntRoundTrip | TheOracle/GameCore/Assets/Asset.cs:102 | `int.TryParse` recovers every 32-bit value from its `ToString()` |

## Left out

- The Discord plumbing: reaction handlers, `ModifyAsync`, message lookup and everything asynchronous. Only the ±1 guard rule of the two numeric-track handlers is kept, as `Increase` and `Decrease`.
- RollAsEmbed and the embed builder. An embed is the plain value `AssetCards.Embed`.
- The discarded debug string built at the end of `RollFacade` (OracleRoller.cs lines 99-103). It has no effect.
- The random number algorithm. Draws come from an injected stream (`Env.draws`), and only the ranges asked for matter.
- LookupOracle, `OracleService`, and the internals of `OracleTable` and `StandardOracle`. These are not part of this model: the lookup is a parameter that returns one of the rows it was given, the registry is a sequence of values, and `d`, `Name`, `Aliases`, `Game` and `Oracles` are fields.
- Case folding is ASCII only, and apart from white space and the bracket patterns every character is compared as is. `\d` is ASCII digits only.
- `fuel`: the chained recursion of `RollFacade` has no bound in the code and would overflow the stack on a reference cycle. The model stops with `RecursionLimit` once the fuel runs out, so results past that depth are not modelled.
- AssetResources.UserInputField is a parameter (`Template`) rather than its actual text.
- MultiFieldAssetTrack is a value, not an object, because its source (and its `DeepCopy`) is not part of this model. Its items are therefore copied by value.
- The parameterless `Asset()` constructor, `ToString` and `IsAssetMessage`. The model's constructor takes the contents directly, as loading from the asset definitions would give them.
- FromEmbed apart from lines 88-104. The service lookup of the asset, the asset-field toggles, the multi-field track and the input-field recovery rely on helpers that are not part of this model (`UndoFormatString`, `GetGameContainedInString`).
- Assets.Asset.GetEmbed requires a numeric track's Max below `int.MaxValue`. There the source's `i <= Max; i++` counter wraps around and the loop never ends, which the model does not represent.
- AssetCards.NumericRoundTrip is stated only for 0 <= Min. With a negative number on the track, the `__\*\*(\d+)\*\*__` read drops the minus sign and does not give the active number back.
- AssetCards.CardNumericRoundTrip also needs Max != 0, because a track with Min == Max == 0 is not rendered at all.
- Assets.RenderAndReload requires `Reloadable`: bounds as for the numeric round trip, a named counting track, and no earlier field named like either track. Without these, `First` can pick another field or throw.
- Settlements.RemovalDeletesEvery is about occurrences in the original text. A single `Replace` pass can create a new occurrence where two pieces meet; for example "OrbOrbitalital" becomes "Orbital". The model does not claim that the result is free of the keyword.
- Null strings in the table data. Strings in the model cannot be null, so two exceptions of the code are not modelled: a row with a null `Description` makes `Regex.Match` throw `ArgumentNullException` (OracleRoller.cs line 90), and a table with a null `Name` makes `MatchTableAlias` throw (line 157).
- The rest of `StarforgedSettlementCommands.cs` (settlement posts, reactions, planet lookups) is outside this model.

## Findings

| source | as written | input that shows it | evidently intended | confidence | as-written member | corrected member |
|---|---|---|---|---|---|---|
| TheOracle/GameCore/Oracle/OracleRoller.cs:94-95, 167-168 | the count is parsed from `match.Captures[0]`, the whole `[Nx]` text, so `int.TryParse` fails and the count is 0. Then `RollFacade` is also called on the `[Nx]` text itself, which is read as the bracket group `Nx` | a table whose rolled row reads `[2x]`, with no table called `2x`: no extra roll, then "Unknown Oracle Table: [2x]" | parse the captured digits (`Groups[1]`) and roll the current table N more times one level deeper, without rolling `[Nx]` as a table name | not executed | Oracle.RepeatRowAsWritten | Oracle.RepeatRowIntended |

The two readings are the two values of `Oracle.RepeatRule`, and this choice is a field of the roller:
- AsWritten reproduces the code;
- Intended is the corrected behaviour, which `Oracle.RepeatCountIntended` and `Oracle.RepeatRowIntended` are proved about.
