/**
 * The oracle roller: it resolves a request such as "Action", "[Action/Theme]"
 * or a table whose row reads "[2x]" into an ordered list of depth-annotated
 * roll results, rolling nested sub-tables and following chained references.
 *
 * The specification functions (`Candidates`, `ParseResult`, `Resolve` and
 * their helpers) thread the state the roller mutates (the result list and the
 * position in the random stream) and return it together with the exception
 * thrown, if any. The class `OracleRoller` holds that state in fields and its
 * methods are proved to agree with the functions; the lemmas state what the
 * roller promises.
 */
module Oracle {
  import opened Wrappers
  import opened Text
  import opened Games

  // ---------------------------------------------------------------------------
  // Data model

  /**
   * A row of an oracle table (`StandardOracle`): its chance, its description
   * and its sub-table (`Oracles`).
   */
  datatype StandardOracle = StandardOracle(chance: int, description: string, oracles: SubTable)

  /** A row's `Oracles` list: null, or the rows of a sub-table. */
  datatype SubTable = NoSubTable | SubTable(rows: seq<StandardOracle>)

  /** An oracle table as the roller sees it (`OracleTable`). */
  datatype OracleTable = OracleTable(
    name: string,
    aliases: Option<seq<string>>,
    game: GameName,
    d: int,
    oracles: seq<StandardOracle>)

  /**
   * One rolled line (`RollResult`). `tableName` is `None` for a nested roll,
   * `result` is `None` when the row lookup found nothing.
   */
  datatype RollResult = RollResult(roll: int, tableName: Option<string>, result: Option<StandardOracle>, depth: nat)

  /** The exceptions the roller throws. */
  datatype RollError =
    | UnknownTable(table: string)           // ArgumentException "Unknown Oracle Table: ..."
    | AmbiguousTable(games: seq<GameName>)  // ArgumentException "Too many tables with that name, ..."
    | NullReference                         // the row lookup of a top-level roll returned null
    | RollRange(d: int)                     // Random.Next(1, d) with d < 1
    | NotANumber(value: string)             // MultiRollFacade: "Couldn't parse ... as int"
    | RecursionLimit                        // the chain went deeper than the fuel allows

  /**
   * How a "[Nx]" row is read. `AsWritten` is the code as it stands (the count
   * is parsed from the whole "[Nx]" text and the text is then rolled as a
   * table name); `Intended` parses N and rolls the table N more times.
   */
  datatype RepeatRule = AsWritten | Intended

  /** `LookupOracle(rows, roll)`: the row a roll selects, if any. */
  type Lookup = (seq<StandardOracle>, int) -> Option<StandardOracle>

  /** What the roller reads but never changes. */
  datatype Env = Env(
    oracleList: seq<OracleTable>,  // OracleService.OracleList
    game: GameName,                // the roller's Game
    lookup: Lookup,                // LookupOracle
    draws: nat -> nat,             // the random stream
    rule: RepeatRule)

  /** The row lookup only ever returns one of the rows it was given. */
  ghost predicate LookupValid(lookup: Lookup) {
    forall rows, roll :: lookup(rows, roll).Some? ==> lookup(rows, roll).value in rows
  }

  /** The roller's mutable state after a call and the exception it threw, if any. */
  datatype Run = Run(log: seq<RollResult>, cursor: nat, failure: Option<RollError>)

  // ---------------------------------------------------------------------------
  // Randomness

  /**
   * `Random.Next(lo, hi)` drawing `draws(cursor)`: a value in [lo, hi), or lo
   * when lo == hi; it throws when hi < lo.
   */
  function Next(draws: nat -> nat, cursor: nat, lo: int, hi: int): (r: Result<int, RollError>)
    ensures r.Success? <==> lo <= hi
    ensures r.Success? ==> lo <= r.value && (r.value < hi || r.value == lo == hi)
  {
    if hi < lo then Failure(RollRange(hi))
    else if hi == lo then Success(lo)
    else Success(lo + draws(cursor) % (hi - lo))
  }

  // ---------------------------------------------------------------------------
  // Table matching and request parsing

  /** `Aliases?.Any(alias => alias.Equals(table, OrdinalIgnoreCase))`, scanning the list. */
  predicate AnyAlias(aliases: seq<string>, table: string) {
    aliases != [] && (Equal(aliases[0], table, OrdinalIgnoreCase) || AnyAlias(aliases[1..], table))
  }

  /** `MatchTableAlias`: the name or some alias equals the request, ignoring case. */
  predicate MatchTableAlias(t: OracleTable, table: string) {
    Equal(t.name, table, OrdinalIgnoreCase) || (t.aliases.Some? && AnyAlias(t.aliases.value, table))
  }

  /** The case-folded keys a table answers to. */
  function Keys(t: OracleTable): set<string> {
    {Fold(t.name)} + (if t.aliases.Some? then set a | a in t.aliases.value :: Fold(a) else {})
  }

  lemma {:induction false} AnyAliasFolds(aliases: seq<string>, table: string)
    ensures AnyAlias(aliases, table) <==> exists a :: a in aliases && Fold(a) == Fold(table)
  {
    if aliases != [] {
      AnyAliasFolds(aliases[1..], table);
      EqualIgnoreCaseIsFold(aliases[0], table);
      assert forall a :: a in aliases <==> a == aliases[0] || a in aliases[1..];
    }
  }

  /** A table matches a request exactly when the folded request is one of its keys. */
  lemma MatchTableAliasByKeys(t: OracleTable, table: string)
    ensures MatchTableAlias(t, table) <==> Fold(table) in Keys(t)
  {
    EqualIgnoreCaseIsFold(t.name, table);
    if t.aliases.Some? {
      AnyAliasFolds(t.aliases.value, table);
    }
  }

  /** The roller's game filter: `Game == GameName.None || Game == o.Game`. */
  predicate GameAllows(game: GameName, t: OracleTable) {
    game == NoGame || game == t.game
  }

  /** The condition of the roller's `Where`: the table matches the request and passes the game filter. */
  predicate Admits(t: OracleTable, item: string, game: GameName) {
    MatchTableAlias(t, item) && GameAllows(game, t)
  }

  /** `OracleList.Where(o => MatchTableAlias(o, item) && game filter)`, in registry order. */
  function Where(tables: seq<OracleTable>, item: string, game: GameName): seq<OracleTable> {
    if tables == [] then []
    else
      (if Admits(tables[0], item, game) then [tables[0]] else []) + Where(tables[1..], item, game)
  }

  /** The filter keeps exactly the registered tables that match and pass the game filter. */
  lemma {:induction false} WhereMembers(tables: seq<OracleTable>, item: string, game: GameName)
    ensures |Where(tables, item, game)| <= |tables|
    ensures forall t :: t in Where(tables, item, game) <==> t in tables && MatchTableAlias(t, item) && GameAllows(game, t)
  {
    if tables != [] {
      WhereMembers(tables[1..], item, game);
      assert forall t :: t in tables <==> t == tables[0] || t in tables[1..];
    }
  }

  /** No table answers to the request under the game filter: the filter finds nothing. */
  lemma {:induction false} WhereNone(tables: seq<OracleTable>, item: string, game: GameName)
    requires forall t :: t in tables ==> !Admits(t, item, game)
    ensures Where(tables, item, game) == []
  {
    if tables != [] {
      assert tables[0] in tables;
      assert forall t :: t in tables[1..] ==> t in tables;
      WhereNone(tables[1..], item, game);
    }
  }

  /** Filtering a concatenated registry filters each part in turn (order is kept). */
  lemma {:induction false} WhereAppend(a: seq<OracleTable>, b: seq<OracleTable>, item: string, game: GameName)
    ensures Where(a + b, item, game) == Where(a, item, game) + Where(b, item, game)
  {
    if a != [] {
      assert (a + b)[1..] == a[1..] + b;
      WhereAppend(a[1..], b, item, game);
    } else {
      assert a + b == b;
    }
  }

  /** The matches of each group member, concatenated in the order of the members (`AddRange`). */
  function MatchGroup(tables: seq<OracleTable>, items: seq<string>, game: GameName): seq<OracleTable> {
    if items == [] then []
    else MatchGroup(tables, items[..|items| - 1], game) + Where(tables, items[|items| - 1], game)
  }

  /** A table is in the group's matches exactly when it passes the filter for some member. */
  lemma {:induction false} MatchGroupMembers(tables: seq<OracleTable>, items: seq<string>, game: GameName)
    ensures forall t :: t in MatchGroup(tables, items, game) <==>
      t in tables && GameAllows(game, t) && exists k :: 0 <= k < |items| && MatchTableAlias(t, items[k])
  {
    if items != [] {
      var front := items[..|items| - 1];
      MatchGroupMembers(tables, front, game);
      WhereMembers(tables, items[|items| - 1], game);
      assert forall k :: 0 <= k < |front| ==> front[k] == items[k];
      forall t | t in tables && GameAllows(game, t) && (exists k :: 0 <= k < |items| && MatchTableAlias(t, items[k]))
        ensures t in MatchGroup(tables, items, game)
      {
        var k :| 0 <= k < |items| && MatchTableAlias(t, items[k]);
        if k < |front| {
          assert MatchTableAlias(t, front[k]);
        }
      }
    }
  }

  /** Some ']' occurs before the end of the first line of `s`. */
  predicate ClosesOnLine(s: string) {
    s != [] && s[0] != '\n' && (s[0] == ']' || ClosesOnLine(s[1..]))
  }

  /** `Regex.Match(s, @"\[.*\]").Success`, scanning for the leftmost '['. */
  predicate HasBracketPair(s: string) {
    s != [] && ((s[0] == '[' && ClosesOnLine(s[1..])) || HasBracketPair(s[1..]))
  }

  /** What the pattern `\[.*\]` asks for: a '[' and a later ']' with no line break between. */
  ghost predicate BracketPairAt(s: string) {
    exists i, j :: 0 <= i < j < |s| && s[i] == '[' && s[j] == ']' && '\n' !in s[i + 1..j]
  }

  lemma {:induction false} ClosesOnLineIff(s: string)
    ensures ClosesOnLine(s) <==> exists j :: 0 <= j < |s| && s[j] == ']' && '\n' !in s[..j]
  {
    if s != [] {
      ClosesOnLineIff(s[1..]);
      if ClosesOnLine(s) && s[0] != ']' {
        var j :| 0 <= j < |s[1..]| && s[1..][j] == ']' && '\n' !in s[1..][..j];
        assert s[..j + 1] == [s[0]] + s[1..][..j];
        assert s[j + 1] == ']';
      }
      if exists j :: 0 <= j < |s| && s[j] == ']' && '\n' !in s[..j] {
        var j :| 0 <= j < |s| && s[j] == ']' && '\n' !in s[..j];
        if j > 0 {
          assert s[0] in s[..j];
          assert s[..j] == [s[0]] + s[1..][..j - 1];
          assert s[1..][j - 1] == ']';
        }
      }
    }
  }

  /** The scan finds a bracket pair exactly when the pattern has a match. */
  lemma {:induction false} HasBracketPairIff(s: string)
    ensures HasBracketPair(s) <==> BracketPairAt(s)
  {
    if s != [] {
      HasBracketPairIff(s[1..]);
      ClosesOnLineIff(s[1..]);
      if HasBracketPair(s) {
        if s[0] == '[' && ClosesOnLine(s[1..]) {
          var j :| 0 <= j < |s[1..]| && s[1..][j] == ']' && '\n' !in s[1..][..j];
          assert s[1..][..j] == s[1..j + 1];
          assert s[j + 1] == ']';
        } else {
          var i, j :| 0 <= i < j < |s[1..]| && s[1..][i] == '[' && s[1..][j] == ']' && '\n' !in s[1..][i + 1..j];
          assert s[1..][i + 1..j] == s[i + 2..j + 1];
          assert s[i + 1] == '[' && s[j + 1] == ']';
        }
      }
      if BracketPairAt(s) {
        var i, j :| 0 <= i < j < |s| && s[i] == '[' && s[j] == ']' && '\n' !in s[i + 1..j];
        if i == 0 {
          assert s[1..][..j - 1] == s[1..j];
          assert s[1..][j - 1] == ']';
        } else {
          assert s[1..][i..j - 1] == s[i + 1..j];
          assert s[1..][i - 1] == '[' && s[1..][j - 1] == ']';
        }
      }
    }
  }

  /** `tableName.Replace("[", "").Replace("]", "").Split('/')`. */
  function GroupItems(tableName: string): seq<string> {
    Split(Replace(Replace(tableName, "[", "", Ordinal), "]", "", Ordinal), '/')
  }

  /** The group members carry no brackets and no '/', and joined with '/' they give the request without brackets. */
  lemma GroupItemsShape(tableName: string)
    ensures |GroupItems(tableName)| >= 1
    ensures Join(GroupItems(tableName), '/') == Without(Without(tableName, '['), ']')
    ensures forall k :: 0 <= k < |GroupItems(tableName)| ==>
      '[' !in GroupItems(tableName)[k] && ']' !in GroupItems(tableName)[k] && '/' !in GroupItems(tableName)[k]
  {
    ReplaceCharIsWithout(tableName, '[');
    ReplaceCharIsWithout(Without(tableName, '['), ']');
    var stripped := Without(Without(tableName, '['), ']');
    WithoutMembers(tableName, '[');
    WithoutMembers(Without(tableName, '['), ']');
    SplitJoin(stripped, '/');
    SplitPiecesFromString(stripped, '/');
    assert '[' !in Without(tableName, '[');
    assert '[' !in stripped && ']' !in stripped;
  }

  /** Every character of a piece of a split occurs in the string. */
  lemma {:induction false} SplitPiecesFromString(s: string, sep: char)
    ensures forall k, c :: 0 <= k < |Split(s, sep)| && c in Split(s, sep)[k] ==> c in s
  {
    if s != [] {
      SplitPiecesFromString(s[1..], sep);
      var r, rest := Split(s, sep), Split(s[1..], sep);
      forall k, c | 0 <= k < |r| && c in r[k]
        ensures c in s
      {
        if s[0] == sep {
          assert k > 0 && r[k] == rest[k - 1];
        } else if k == 0 {
          assert r[0] == [s[0]] + rest[0];
        } else {
          assert r[k] == rest[k];
        }
        assert c in s[1..] || c == s[0];
      }
    }
  }

  /** The result list of `ParseOracleTables` before its ambiguity check. */
  function Candidates(env: Env, tableName: string): seq<OracleTable> {
    if HasBracketPair(tableName) then MatchGroup(env.oracleList, GroupItems(tableName), env.game)
    else Where(env.oracleList, tableName, env.game)
  }

  /** How many tables of the list belong to game `g` (`grp.Count()`). */
  function CountGame(ts: seq<OracleTable>, g: GameName): nat {
    if ts == [] then 0 else (if ts[0].game == g then 1 else 0) + CountGame(ts[1..], g)
  }

  /** How many of the games `gs` have two or more tables in the list. */
  function CrowdedCount(ts: seq<OracleTable>, gs: seq<GameName>): nat {
    if gs == [] then 0 else (if CountGame(ts, gs[0]) > 1 then 1 else 0) + CrowdedCount(ts, gs[1..])
  }

  /** Every game, once each: the groups `GroupBy(t => t.Game)` can form. */
  const AllGames: seq<GameName> := [NoGame, Ironsworn, Starforged]

  /** The distinct games of the list, in order of first appearance (the `GroupBy` keys). */
  function DistinctGames(ts: seq<OracleTable>): seq<GameName> {
    if ts == [] then []
    else
      var r := DistinctGames(ts[..|ts| - 1]);
      if ts[|ts| - 1].game in r then r else r + [ts[|ts| - 1].game]
  }

  /** The games named in the exception are those of the list, each once. */
  lemma {:induction false} DistinctGamesShape(ts: seq<OracleTable>)
    ensures forall g :: g in DistinctGames(ts) <==> exists t :: t in ts && t.game == g
    ensures forall i, j :: 0 <= i < j < |DistinctGames(ts)| ==> DistinctGames(ts)[i] != DistinctGames(ts)[j]
  {
    if ts != [] {
      var front := ts[..|ts| - 1];
      DistinctGamesShape(front);
      assert ts == front + [ts[|ts| - 1]];
      assert forall t :: t in ts <==> t in front || t == ts[|ts| - 1];
    }
  }

  /** `ParseOracleTables`: the candidates, or the ambiguity exception. */
  function ParseResult(env: Env, tableName: string): Result<seq<OracleTable>, RollError> {
    var result := Candidates(env, tableName);
    if CrowdedCount(result, AllGames) > 1 then Failure(AmbiguousTable(DistinctGames(result))) else Success(result)
  }

  // ---------------------------------------------------------------------------
  // Properties of the parse

  /**
   * A table is a candidate exactly when it is registered, passes the game
   * filter and matches the request or, for a request with a bracket pair, one
   * of its '/'-separated members.
   */
  lemma CandidatesMembership(env: Env, tableName: string, t: OracleTable)
    ensures t in Candidates(env, tableName) <==>
      t in env.oracleList && GameAllows(env.game, t) &&
      if BracketPairAt(tableName)
      then exists k :: 0 <= k < |GroupItems(tableName)| && MatchTableAlias(t, GroupItems(tableName)[k])
      else MatchTableAlias(t, tableName)
  {
    HasBracketPairIff(tableName);
    WhereMembers(env.oracleList, tableName, env.game);
    MatchGroupMembers(env.oracleList, GroupItems(tableName), env.game);
  }

  /** Every table a parse returns is registered and admitted by the game filter. */
  lemma CandidatesRegistered(env: Env, tableName: string)
    ensures forall t :: t in Candidates(env, tableName) ==> t in env.oracleList && GameAllows(env.game, t)
  {
    WhereMembers(env.oracleList, tableName, env.game);
    MatchGroupMembers(env.oracleList, GroupItems(tableName), env.game);
  }

  /** A bracket pair needs a '['. */
  lemma {:induction false} BracketPairOpens(s: string)
    requires HasBracketPair(s)
    ensures '[' in s
  {
    if s[0] != '[' {
      BracketPairOpens(s[1..]);
    }
  }

  /** A request without brackets finds the matching tables in registry order, each once. */
  lemma PlainRequest(env: Env, tableName: string)
    requires '[' !in tableName
    ensures Candidates(env, tableName) == Where(env.oracleList, tableName, env.game)
  {
    if HasBracketPair(tableName) {
      BracketPairOpens(tableName);
    }
  }

  /** More than one crowded game means two different games with two or more tables each. */
  lemma CrowdedIff(c: seq<OracleTable>)
    ensures CrowdedCount(c, AllGames) > 1 <==> exists g1, g2 :: g1 != g2 && CountGame(c, g1) > 1 && CountGame(c, g2) > 1
  {
    var a, b, d := CountGame(c, NoGame) > 1, CountGame(c, Ironsworn) > 1, CountGame(c, Starforged) > 1;
    assert CrowdedCount(c, [Starforged]) == (if d then 1 else 0) by {
      assert [Starforged][1..] == [];
    }
    assert CrowdedCount(c, [Ironsworn, Starforged]) == (if b then 1 else 0) + (if d then 1 else 0) by {
      assert [Ironsworn, Starforged][1..] == [Starforged];
    }
    assert CrowdedCount(c, AllGames) == (if a then 1 else 0) + (if b then 1 else 0) + (if d then 1 else 0) by {
      assert AllGames[1..] == [Ironsworn, Starforged];
    }
    if exists g1, g2 :: g1 != g2 && CountGame(c, g1) > 1 && CountGame(c, g2) > 1 {
      var g1, g2 :| g1 != g2 && CountGame(c, g1) > 1 && CountGame(c, g2) > 1;
      assert g1.NoGame? || g1.Ironsworn? || g1.Starforged?;
      assert g2.NoGame? || g2.Ironsworn? || g2.Starforged?;
    }
    if CrowdedCount(c, AllGames) > 1 {
      var g1, g2 := if a then NoGame else Ironsworn, if d then Starforged else Ironsworn;
      assert g1 != g2 && CountGame(c, g1) > 1 && CountGame(c, g2) > 1;
      assert exists x, y :: x != y && CountGame(c, x) > 1 && CountGame(c, y) > 1;
    }
  }

  /**
   * The parse throws exactly when two different games each have two or more
   * matching tables; otherwise it returns the candidate list unchanged.
   */
  lemma ParseAmbiguity(env: Env, tableName: string)
    ensures ParseResult(env, tableName).Failure? <==>
      exists g1, g2 :: g1 != g2 && CountGame(Candidates(env, tableName), g1) > 1 && CountGame(Candidates(env, tableName), g2) > 1
    ensures ParseResult(env, tableName).Success? ==> ParseResult(env, tableName).value == Candidates(env, tableName)
    ensures ParseResult(env, tableName).Failure? ==>
      ParseResult(env, tableName).error == AmbiguousTable(DistinctGames(Candidates(env, tableName)))
  {
    CrowdedIff(Candidates(env, tableName));
  }

  /** With no game chosen, the game filter keeps every matching table. */
  lemma NoGameKeepsAll(tables: seq<OracleTable>, item: string)
    ensures forall t :: t in Where(tables, item, NoGame) <==> t in tables && MatchTableAlias(t, item)
  {
    WhereMembers(tables, item, NoGame);
  }

  // ---------------------------------------------------------------------------
  // Chained references and "[Nx]"

  /**
   * `Regex.Match(desc, @"^\[(.*)\]$")`: the whole description is one
   * bracketed line (a final '\n' is allowed and not part of the match);
   * the result is `Groups[0]`.
   */
  function ChainReference(desc: string): (r: Option<string>)
    ensures r.Some? ==> |r.value| >= 2 && r.value[0] == '[' && r.value[|r.value| - 1] == ']' && '\n' !in r.value
    ensures r.Some? ==> desc == r.value || desc == r.value + "\n"
  {
    var body := if |desc| > 0 && desc[|desc| - 1] == '\n' then desc[..|desc| - 1] else desc;
    if |body| >= 2 && body[0] == '[' && body[|body| - 1] == ']' && '\n' !in body then Some(body) else None
  }

  /** A `\[\d+x\]` match at the start of `s`: its digits. */
  function RepeatAt(s: string): Option<string> {
    if |s| > 0 && s[0] == '[' then
      var ds := LeadingDigits(s[1..]);
      if |ds| > 0 && |s| >= |ds| + 3 && s[|ds| + 1] == 'x' && s[|ds| + 2] == ']' then Some(ds) else None
    else None
  }

  /** A match at the start is "[", one or more digits, then "x]". */
  lemma RepeatAtShape(s: string)
    ensures var r := RepeatAt(s);
      r.Some? ==> |r.value| > 0 && AllDigits(r.value) && |s| >= |r.value| + 3 && s[..|r.value| + 3] == "[" + r.value + "x]"
  {
    if |s| > 0 && s[0] == '[' {
      var ds := LeadingDigits(s[1..]);
      LeadingDigitsShape(s[1..]);
      if |ds| > 0 && |s| >= |ds| + 3 && s[|ds| + 1] == 'x' && s[|ds| + 2] == ']' {
        assert s[1..][..|ds|] == s[1..|ds| + 1];
        assert s[..|ds| + 3] == "[" + ds + "x]";
      }
    }
  }

  /** The leftmost `\[\d+x\]` match in `s`: its digits. */
  function FindRepeat(s: string): Option<string> {
    if s == [] then None else if RepeatAt(s).Some? then RepeatAt(s) else FindRepeat(s[1..])
  }

  /** The leftmost match is a match: a non-empty run of digits. */
  lemma {:induction false} FindRepeatDigits(s: string)
    ensures FindRepeat(s).Some? ==> |FindRepeat(s).value| > 0 && AllDigits(FindRepeat(s).value)
  {
    if s != [] {
      RepeatAtShape(s);
      FindRepeatDigits(s[1..]);
    }
  }

  /**
   * `numberOfRolls` in `MultiRollFacade`. As written the count is parsed from
   * `Captures[0]`, the whole "[Nx]" text, so the parse fails and the count is 0;
   * the intended count parses the digits. A failed `TryParse` leaves 0.
   */
  function RepeatCount(rule: RepeatRule, value: string): Result<int, RollError> {
    match FindRepeat(value)
    case Some(ds) =>
      var text := if rule == AsWritten then "[" + ds + "x]" else ds;
      Success(match TryParseInt(text) case Some(n) => n case None => 0)
    case None =>
      match TryParseInt(value)
      case Some(n) => Success(n)
      case None => Failure(NotANumber(value))
  }

  // ---------------------------------------------------------------------------
  // Resolution

  /** `RollFacade(table, depth)`. */
  function Resolve(env: Env, table: string, depth: nat, fuel: nat, log: seq<RollResult>, cursor: nat): Run
    requires LookupValid(env.lookup)
    decreases fuel, 3, 0
  {
    if fuel == 0 then Run(log, cursor, Some(RecursionLimit))
    else
      var t := Trim(table);
      match ParseResult(env, t)
      case Failure(e) => Run(log, cursor, Some(e))
      case Success(tables) =>
        if |tables| == 0 then Run(log, cursor, Some(UnknownTable(t)))
        else ResolveEach(env, tables, depth, fuel, log, cursor)
  }

  /** The `foreach` over `TablesToRoll` in `RollFacade`. */
  function ResolveEach(env: Env, tables: seq<OracleTable>, depth: nat, fuel: nat, log: seq<RollResult>, cursor: nat): Run
    requires LookupValid(env.lookup) && fuel >= 1
    decreases fuel, 2, |tables|
  {
    if tables == [] then Run(log, cursor, None)
    else
      var r := ResolveTable(env, tables[0], depth, fuel, log, cursor);
      if r.failure.Some? then r else ResolveEach(env, tables[1..], depth, fuel, r.log, r.cursor)
  }

  /** One pass of that loop: roll the table, record the result, then its nested and chained rolls. */
  function ResolveTable(env: Env, t: OracleTable, depth: nat, fuel: nat, log: seq<RollResult>, cursor: nat): Run
    requires LookupValid(env.lookup) && fuel >= 1
    decreases fuel, 1, 0
  {
    match Next(env.draws, cursor, 1, t.d)
    case Failure(e) => Run(log, cursor, Some(e))
    case Success(roll) =>
      var found := env.lookup(t.oracles, roll);
      var log1 := log + [RollResult(roll, Some(t.name), found, depth)];
      if found.None? then Run(log1, cursor + 1, Some(NullReference))
      else
        var nested := ResolveNested(env, found.value, 1, log1, cursor + 1);
        Chain(env, t, found.value.description, depth, fuel, nested.log, nested.cursor)
  }

  /**
   * What a rolled row's description chains to: nothing, a "[Nx]" repeat of the
   * table (followed, as written, by a roll of the "[Nx]" text itself), or
   * another table one level deeper.
   */
  function Chain(env: Env, t: OracleTable, desc: string, depth: nat, fuel: nat, log: seq<RollResult>, cursor: nat): Run
    requires LookupValid(env.lookup) && fuel >= 1
    decreases fuel, 0, 1
  {
    match ChainReference(desc)
    case None => Run(log, cursor, None)
    case Some(next) =>
      if RepeatAt(next).Some? then RepeatChain(env, t, next, depth, fuel, log, cursor)
      else Resolve(env, next, depth + 1, fuel - 1, log, cursor)
  }

  /**
   * A reference of the "[Nx]" form: the repeated rolls on the current table, then
   * (as written) a roll on a table named by the reference itself.
   */
  function RepeatChain(env: Env, t: OracleTable, next: string, depth: nat, fuel: nat, log: seq<RollResult>, cursor: nat): Run
    requires LookupValid(env.lookup) && fuel >= 1
    decreases fuel, 0, 0
  {
    var multi := MultiRoll(env, next, t, depth, fuel - 1, log, cursor);
    if multi.failure.Some? || env.rule == Intended then multi
    else Resolve(env, next, depth + 1, fuel - 1, multi.log, multi.cursor)
  }

  /** The two ways a "[Nx]" reference ends: after the repeat, or after rolling the reference itself. */
  lemma RepeatChainCases(env: Env, t: OracleTable, next: string, depth: nat, fuel: nat, log: seq<RollResult>, cursor: nat, multi: Run)
    requires LookupValid(env.lookup) && fuel >= 1
    requires multi == MultiRoll(env, next, t, depth, fuel - 1, log, cursor)
    ensures multi.failure.Some? || env.rule == Intended ==> RepeatChain(env, t, next, depth, fuel, log, cursor) == multi
    ensures multi.failure.None? && env.rule != Intended ==>
      RepeatChain(env, t, next, depth, fuel, log, cursor) == Resolve(env, next, depth + 1, fuel - 1, multi.log, multi.cursor)
  {
  }

  /**
   * `RollNested(row, depth)`: when the row has a sub-table, a d99 roll on it
   * (a row that is not found is skipped silently), then the same for the row found.
   */
  function ResolveNested(env: Env, row: StandardOracle, depth: nat, log: seq<RollResult>, cursor: nat): (r: Run)
    requires LookupValid(env.lookup)
    ensures r.failure == None
    decreases row
  {
    if row.oracles.NoSubTable? then Run(log, cursor, None)
    else
      var rows := row.oracles.rows;
      var roll := Next(env.draws, cursor, 1, 100).value;
      var inner := env.lookup(rows, roll);
      if inner.None? then Run(log, cursor + 1, None)
      else
        assert inner.value in rows;
        ResolveNested(env, inner.value, depth + 1, log + [RollResult(roll, None, inner, depth)], cursor + 1)
  }

  /** `MultiRollFacade(value, table, depth)`. */
  function MultiRoll(env: Env, value: string, t: OracleTable, depth: nat, fuel: nat, log: seq<RollResult>, cursor: nat): Run
    requires LookupValid(env.lookup)
    decreases fuel, 5, 0
  {
    match RepeatCount(env.rule, value)
    case Failure(e) => Run(log, cursor, Some(e))
    case Success(n) => Repeat(env, t.name, n, depth, fuel, log, cursor)
  }

  /** `for (i = 1; i <= n; i++) RollFacade(name, depth + 1)`. */
  function Repeat(env: Env, name: string, n: int, depth: nat, fuel: nat, log: seq<RollResult>, cursor: nat): Run
    requires LookupValid(env.lookup)
    decreases fuel, 4, n
  {
    if n <= 0 then Run(log, cursor, None)
    else
      var r := Resolve(env, name, depth + 1, fuel, log, cursor);
      if r.failure.Some? then r else Repeat(env, name, n - 1, depth, fuel, r.log, r.cursor)
  }

  /**
   * A request whose parse finds no table throws "Unknown Oracle Table" with
   * the trimmed request, before anything is appended or drawn. The parse is
   * empty for a plain request or a bracket group none of whose members match,
   * and when every match is of another game than the roller's
   * (`CandidatesMembership`).
   */
  lemma ResolveUnknown(env: Env, table: string, depth: nat, fuel: nat, log: seq<RollResult>, cursor: nat)
    requires LookupValid(env.lookup) && fuel >= 1
    requires Candidates(env, Trim(table)) == []
    ensures Resolve(env, table, depth, fuel, log, cursor) == Run(log, cursor, Some(UnknownTable(Trim(table))))
  {
    assert CrowdedCount([], AllGames) == 0 by {
      assert CountGame([], NoGame) == 0 && CountGame([], Ironsworn) == 0 && CountGame([], Starforged) == 0;
      assert AllGames[1..][1..][1..] == [];
    }
    assert ParseResult(env, Trim(table)) == Success([]);
  }

  /** With a game chosen, a request whose only matches are of other games is unknown. */
  lemma UnknownInGame(env: Env, table: string, depth: nat, fuel: nat, log: seq<RollResult>, cursor: nat)
    requires LookupValid(env.lookup) && fuel >= 1
    requires forall t :: t in env.oracleList && t.game == env.game ==> !MatchTableAlias(t, Trim(table))
    requires env.game != NoGame && '[' !in Trim(table)
    ensures Resolve(env, table, depth, fuel, log, cursor) == Run(log, cursor, Some(UnknownTable(Trim(table))))
  {
    PlainRequest(env, Trim(table));
    WhereNone(env.oracleList, Trim(table), env.game);
    ResolveUnknown(env, table, depth, fuel, log, cursor);
  }

  // ---------------------------------------------------------------------------
  // Rendering

  /** `"{Game} "` when the roller has a game, else empty. */
  function GameLabel(game: GameName): string {
    if game != NoGame then GameText(game) + " " else ""
  }

  /** Every result carries a row. */
  predicate AllResolved(log: seq<RollResult>) {
    forall i :: 0 <= i < |log| ==> log[i].result.Some?
  }

  /** The heading line `RollAsString` writes before a named result. */
  function Heading(gameName: string, item: RollResult): string {
    if item.tableName.Some? && |item.tableName.value| > 0
    then Tabs(item.depth) + "Rolling the " + gameName + "oracle for " + item.tableName.value + "\n"
    else ""
  }

  /** The line `RollAsString` writes for every result: the roll and the row's description. */
  function Line(item: RollResult): string
    requires item.result.Some?
  {
    Tabs(item.depth) + "[" + IntToString(item.roll) + "]: " + item.result.value.description + "\n"
  }

  /** The text `RollAsString` returns for a result list. */
  function Render(gameName: string, log: seq<RollResult>): string
    requires AllResolved(log)
  {
    if log == [] then ""
    else Render(gameName, log[..|log| - 1]) + Heading(gameName, log[|log| - 1]) + Line(log[|log| - 1])
  }

  /** Rendering one more result of the list appends its heading and its line. */
  lemma RenderPrefix(gameName: string, log: seq<RollResult>, k: nat)
    requires AllResolved(log) && k < |log|
    ensures Render(gameName, log[..k + 1]) == Render(gameName, log[..k]) + Heading(gameName, log[k]) + Line(log[k])
  {
    assert log[..k + 1][..k] == log[..k];
  }

  // ---------------------------------------------------------------------------
  // What a roll leaves in the result list

  /** `Random.Next(1, d)` as the roller calls it: in [1, d) or 1 when d is 1. */
  predicate RollInRange(roll: int, d: int) {
    1 <= roll && (roll < d || roll == d == 1)
  }

  /**
   * A well-formed result for a call at `depth`: a named result comes from a
   * registered table the game filter admits, its roll is in that table's range,
   * its row is one of that table's rows and it sits at `depth` or deeper; a
   * nested result has a row, a roll in [1, 99] and depth 1 or more.
   */
  ghost predicate Entry(env: Env, e: RollResult, depth: nat) {
    if e.tableName.Some? then
      depth <= e.depth &&
      exists t :: t in env.oracleList && GameAllows(env.game, t) && t.name == e.tableName.value
        && RollInRange(e.roll, t.d) && (e.result.Some? ==> e.result.value in t.oracles)
    else
      1 <= e.depth && 1 <= e.roll < 100 && e.result.Some?
  }

  /** Every result of `es` is well-formed for a call at `depth` and, when `complete`, has a row. */
  ghost predicate Entries(env: Env, es: seq<RollResult>, depth: nat, complete: bool) {
    es == [] ||
    (Entry(env, es[0], depth) && (complete ==> es[0].result.Some?) && Entries(env, es[1..], depth, complete))
  }

  lemma {:induction false} EntriesAppend(env: Env, a: seq<RollResult>, b: seq<RollResult>, depth: nat, complete: bool)
    requires Entries(env, a, depth, complete) && Entries(env, b, depth, complete)
    ensures Entries(env, a + b, depth, complete)
  {
    if a != [] {
      assert (a + b)[1..] == a[1..] + b;
      EntriesAppend(env, a[1..], b, depth, complete);
    } else {
      assert a + b == b;
    }
  }

  /** A list well-formed for a deeper call is well-formed for a shallower one. */
  lemma {:induction false} EntriesWeaken(env: Env, es: seq<RollResult>, d1: nat, d2: nat, c1: bool, c2: bool)
    requires d1 <= d2 && (c1 ==> c2) && Entries(env, es, d2, c2)
    ensures Entries(env, es, d1, c1)
  {
    if es != [] {
      EntriesWeaken(env, es[1..], d1, d2, c1, c2);
    }
  }

  /** In a complete list every result carries a row. */
  lemma {:induction false} EntriesResolved(env: Env, es: seq<RollResult>, depth: nat)
    requires Entries(env, es, depth, true)
    ensures AllResolved(es)
  {
    if es != [] {
      EntriesResolved(env, es[1..], depth);
      assert forall i :: 1 <= i < |es| ==> es[i] == es[1..][i - 1];
    }
  }

  /**
   * `r` extends the state (log, cursor): the old results are kept as a prefix,
   * the random stream only moves forward, every new result is well-formed, and
   * when no exception was thrown every new result has a row.
   */
  ghost predicate Grows(env: Env, r: Run, log: seq<RollResult>, cursor: nat, depth: nat) {
    log <= r.log && cursor <= r.cursor && Entries(env, r.log[|log|..], depth, r.failure.None?)
  }

  lemma GrowsTrans(env: Env, r1: Run, r2: Run, log: seq<RollResult>, cursor: nat, d1: nat, d2: nat)
    requires d1 <= d2 && r1.failure.None?
    requires Grows(env, r1, log, cursor, d1) && Grows(env, r2, r1.log, r1.cursor, d2)
    ensures Grows(env, r2, log, cursor, d1)
  {
    var a, b := r1.log[|log|..], r2.log[|r1.log|..];
    assert r2.log[|log|..] == a + b;
    EntriesWeaken(env, a, d1, d1, r2.failure.None?, true);
    EntriesWeaken(env, b, d1, d2, r2.failure.None?, r2.failure.None?);
    EntriesAppend(env, a, b, d1, r2.failure.None?);
  }

  /** `RollFacade` keeps the results already there and adds only well-formed ones. */
  lemma ResolveGrows(env: Env, table: string, depth: nat, fuel: nat, log: seq<RollResult>, cursor: nat)
    requires LookupValid(env.lookup)
    ensures Grows(env, Resolve(env, table, depth, fuel, log, cursor), log, cursor, depth)
    decreases fuel, 3, 0
  {
    if fuel > 0 {
      var t := Trim(table);
      var p := ParseResult(env, t);
      if p.Success? && |p.value| > 0 {
        CandidatesRegistered(env, t);
        ResolveEachGrows(env, p.value, depth, fuel, log, cursor);
      }
    }
  }

  lemma ResolveEachGrows(env: Env, tables: seq<OracleTable>, depth: nat, fuel: nat, log: seq<RollResult>, cursor: nat)
    requires LookupValid(env.lookup) && fuel >= 1
    requires forall t :: t in tables ==> t in env.oracleList && GameAllows(env.game, t)
    ensures Grows(env, ResolveEach(env, tables, depth, fuel, log, cursor), log, cursor, depth)
    decreases fuel, 2, |tables|
  {
    if tables != [] {
      var r := ResolveTable(env, tables[0], depth, fuel, log, cursor);
      ResolveTableGrows(env, tables[0], depth, fuel, log, cursor);
      if r.failure.None? {
        ResolveEachGrows(env, tables[1..], depth, fuel, r.log, r.cursor);
        GrowsTrans(env, r, ResolveEach(env, tables[1..], depth, fuel, r.log, r.cursor), log, cursor, depth, depth);
      }
    }
  }

  /**
   * Rolling one table: when its roll is in range the first new result is that
   * table's, at the call's depth, and everything it chains to lies deeper.
   */
  lemma ResolveTableGrows(env: Env, t: OracleTable, depth: nat, fuel: nat, log: seq<RollResult>, cursor: nat)
    requires LookupValid(env.lookup) && fuel >= 1
    requires t in env.oracleList && GameAllows(env.game, t)
    ensures Grows(env, ResolveTable(env, t, depth, fuel, log, cursor), log, cursor, depth)
    ensures Next(env.draws, cursor, 1, t.d).Failure? ==>
      ResolveTable(env, t, depth, fuel, log, cursor) == Run(log, cursor, Some(RollRange(t.d)))
    ensures Next(env.draws, cursor, 1, t.d).Success? ==>
      var r := ResolveTable(env, t, depth, fuel, log, cursor);
      var roll := Next(env.draws, cursor, 1, t.d).value;
      var first := RollResult(roll, Some(t.name), env.lookup(t.oracles, roll), depth);
      |r.log| > |log| && r.log[|log|] == first && Grows(env, r, log + [first], cursor + 1, depth + 1)
    decreases fuel, 1, 0
  {
    var next := Next(env.draws, cursor, 1, t.d);
    if next.Success? {
      var roll := next.value;
      var found := env.lookup(t.oracles, roll);
      var first := RollResult(roll, Some(t.name), found, depth);
      var log1 := log + [first];
      assert Entry(env, first, depth);
      assert log1[|log|..] == [first];
      if found.Some? {
        var nested := ResolveNested(env, found.value, 1, log1, cursor + 1);
        ResolveNestedGrows(env, found.value, 1, depth + 1, log1, cursor + 1);
        ChainGrows(env, t, found.value.description, depth, fuel, nested.log, nested.cursor);
        var r := Chain(env, t, found.value.description, depth, fuel, nested.log, nested.cursor);
        GrowsTrans(env, nested, r, log1, cursor + 1, depth + 1, depth + 1);
        GrowsTrans(env, Run(log1, cursor + 1, None), r, log, cursor, depth, depth + 1);
        assert r.log[|log|] == log1[|log|];
      } else {
        assert log1[|log1|..] == [];
      }
    }
  }

  /**
   * Right after a table's own result come the nested rolls of the row found:
   * those `ResolveNested(row, 1)` appends, unnamed and at depths 1, 2, ...
   * whatever the depth of the table's roll; the chained rolls come after them.
   */
  lemma ResolveTableNested(env: Env, t: OracleTable, depth: nat, fuel: nat, log: seq<RollResult>, cursor: nat)
    requires LookupValid(env.lookup) && fuel >= 1
    requires Next(env.draws, cursor, 1, t.d).Success?
    requires env.lookup(t.oracles, Next(env.draws, cursor, 1, t.d).value).Some?
    ensures var roll := Next(env.draws, cursor, 1, t.d).value;
      var found := env.lookup(t.oracles, roll);
      var first := RollResult(roll, Some(t.name), found, depth);
      var nested := ResolveNested(env, found.value, 1, log + [first], cursor + 1);
      var r := ResolveTable(env, t, depth, fuel, log, cursor);
      nested.log <= r.log &&
      forall i :: |log| < i < |nested.log| ==> r.log[i].tableName.None? && r.log[i].depth == i - |log|
  {
    var roll := Next(env.draws, cursor, 1, t.d).value;
    var found := env.lookup(t.oracles, roll);
    var first := RollResult(roll, Some(t.name), found, depth);
    var nested := ResolveNested(env, found.value, 1, log + [first], cursor + 1);
    ResolveNestedShape(env, found.value, 1, log + [first], cursor + 1);
    ChainGrows(env, t, found.value.description, depth, fuel, nested.log, nested.cursor);
  }

  /** Whatever a description chains to lies one level deeper than the table rolled. */
  lemma ChainGrows(env: Env, t: OracleTable, desc: string, depth: nat, fuel: nat, log: seq<RollResult>, cursor: nat)
    requires LookupValid(env.lookup) && fuel >= 1
    ensures Grows(env, Chain(env, t, desc, depth, fuel, log, cursor), log, cursor, depth + 1)
    decreases fuel, 0, 2
  {
    var reference := ChainReference(desc);
    if reference.Some? {
      if RepeatAt(reference.value).Some? {
        RepeatChainGrows(env, t, reference.value, depth, fuel, log, cursor);
      } else {
        ResolveGrows(env, reference.value, depth + 1, fuel - 1, log, cursor);
      }
    } else {
      assert log[|log|..] == [];
    }
  }

  /** The "[Nx]" branch of `Chain`. */
  lemma RepeatChainGrows(env: Env, t: OracleTable, next: string, depth: nat, fuel: nat, log: seq<RollResult>, cursor: nat)
    requires LookupValid(env.lookup) && fuel >= 1
    ensures Grows(env, RepeatChain(env, t, next, depth, fuel, log, cursor), log, cursor, depth + 1)
    decreases fuel, 0, 1
  {
    var multi := MultiRoll(env, next, t, depth, fuel - 1, log, cursor);
    var after := Resolve(env, next, depth + 1, fuel - 1, multi.log, multi.cursor);
    MultiRollGrows(env, next, t, depth, fuel - 1, log, cursor);
    ResolveGrows(env, next, depth + 1, fuel - 1, multi.log, multi.cursor);
    RepeatChainCases(env, t, next, depth, fuel, log, cursor, multi);
    GrowsEither(env, RepeatChain(env, t, next, depth, fuel, log, cursor), multi, after, log, cursor, depth + 1);
  }

  /** A run that either stops after `multi` or goes on with `after` from where `multi` ended grows like both. */
  lemma GrowsEither(env: Env, r: Run, multi: Run, after: Run, log: seq<RollResult>, cursor: nat, depth: nat)
    requires Grows(env, multi, log, cursor, depth) && Grows(env, after, multi.log, multi.cursor, depth)
    requires r == multi || (multi.failure.None? && r == after)
    ensures Grows(env, r, log, cursor, depth)
  {
    if r != multi {
      GrowsTrans(env, multi, after, log, cursor, depth, depth);
    }
  }

  /** A nested roll adds only unnamed results with a row, a roll in [1, 99] and depth >= 1. */
  lemma ResolveNestedGrows(env: Env, row: StandardOracle, nestDepth: nat, depth: nat, log: seq<RollResult>, cursor: nat)
    requires LookupValid(env.lookup) && nestDepth >= 1
    ensures Grows(env, ResolveNested(env, row, nestDepth, log, cursor), log, cursor, depth)
    decreases row
  {
    if row.oracles.SubTable? {
      var rows := row.oracles.rows;
      var roll := Next(env.draws, cursor, 1, 100).value;
      var inner := env.lookup(rows, roll);
      if inner.Some? {
        var e := RollResult(roll, None, inner, nestDepth);
        var log1 := log + [e];
        assert Entry(env, e, depth);
        assert log1[|log|..] == [e];
        assert inner.value in rows;
        ResolveNestedGrows(env, inner.value, nestDepth + 1, depth, log1, cursor + 1);
        GrowsTrans(env, Run(log1, cursor + 1, None), ResolveNested(env, inner.value, nestDepth + 1, log1, cursor + 1),
          log, cursor, depth, depth);
      } else {
        assert log[|log|..] == [];
      }
    } else {
      assert log[|log|..] == [];
    }
  }

  /**
   * The results of `RollNested(row, k)`: unnamed, with a row and a roll in
   * [1, 99], the first at depth k and each one a level deeper than the one
   * before. A row without a sub-table adds nothing and draws nothing; a
   * sub-table roll that finds no row draws once and adds nothing.
   */
  lemma {:induction false} ResolveNestedShape(env: Env, row: StandardOracle, k: nat, log: seq<RollResult>, cursor: nat)
    requires LookupValid(env.lookup)
    ensures var r := ResolveNested(env, row, k, log, cursor);
      log <= r.log && cursor <= r.cursor &&
      forall i :: |log| <= i < |r.log| ==>
        r.log[i].tableName.None? && r.log[i].depth == k + (i - |log|) && r.log[i].result.Some? && 1 <= r.log[i].roll < 100
    ensures row.oracles.NoSubTable? ==> ResolveNested(env, row, k, log, cursor) == Run(log, cursor, None)
    ensures row.oracles.SubTable? && env.lookup(row.oracles.rows, Next(env.draws, cursor, 1, 100).value).None? ==>
      ResolveNested(env, row, k, log, cursor) == Run(log, cursor + 1, None)
    decreases row
  {
    if row.oracles.SubTable? {
      var roll := Next(env.draws, cursor, 1, 100).value;
      var inner := env.lookup(row.oracles.rows, roll);
      if inner.Some? {
        assert inner.value in row.oracles.rows;
        var e := RollResult(roll, None, inner, k);
        ResolveNestedShape(env, inner.value, k + 1, log + [e], cursor + 1);
      }
    }
  }

  /** `MultiRollFacade` adds only well-formed results, one level below its table. */
  lemma MultiRollGrows(env: Env, value: string, t: OracleTable, depth: nat, fuel: nat, log: seq<RollResult>, cursor: nat)
    requires LookupValid(env.lookup)
    ensures Grows(env, MultiRoll(env, value, t, depth, fuel, log, cursor), log, cursor, depth + 1)
    decreases fuel, 5, 0
  {
    var count := RepeatCount(env.rule, value);
    if count.Success? {
      RepeatGrows(env, t.name, count.value, depth, fuel, log, cursor);
    } else {
      assert log[|log|..] == [];
    }
  }

  lemma RepeatGrows(env: Env, name: string, n: int, depth: nat, fuel: nat, log: seq<RollResult>, cursor: nat)
    requires LookupValid(env.lookup)
    ensures Grows(env, Repeat(env, name, n, depth, fuel, log, cursor), log, cursor, depth + 1)
    decreases fuel, 4, n
  {
    if n > 0 {
      var r := Resolve(env, name, depth + 1, fuel, log, cursor);
      ResolveGrows(env, name, depth + 1, fuel, log, cursor);
      if r.failure.None? {
        RepeatGrows(env, name, n - 1, depth, fuel, r.log, r.cursor);
        GrowsTrans(env, r, Repeat(env, name, n - 1, depth, fuel, r.log, r.cursor), log, cursor, depth + 1, depth + 1);
      }
    } else {
      assert log[|log|..] == [];
    }
  }
  // ---------------------------------------------------------------------------
  // The top-level results of a roll

  /** The table names of the results that sit exactly at `depth`, in order. */
  function TopLevel(log: seq<RollResult>, depth: nat): seq<string> {
    if log == [] then []
    else
      (if log[0].tableName.Some? && log[0].depth == depth then [log[0].tableName.value] else [])
      + TopLevel(log[1..], depth)
  }

  function Names(ts: seq<OracleTable>): (r: seq<string>)
    ensures |r| == |ts| && forall i :: 0 <= i < |ts| ==> r[i] == ts[i].name
  {
    seq(|ts|, i requires 0 <= i < |ts| => ts[i].name)
  }

  /** `n` copies of `s` one after the other. */
  function Copies(s: seq<string>, n: int): seq<string>
    decreases n
  {
    if n <= 0 then [] else s + Copies(s, n - 1)
  }

  lemma {:induction false} TopLevelAppend(a: seq<RollResult>, b: seq<RollResult>, depth: nat)
    ensures TopLevel(a + b, depth) == TopLevel(a, depth) + TopLevel(b, depth)
  {
    if a != [] {
      assert (a + b)[1..] == a[1..] + b;
      TopLevelAppend(a[1..], b, depth);
    } else {
      assert a + b == b;
    }
  }

  /** Results well-formed for a deeper call add nothing at `depth`. */
  lemma {:induction false} TopLevelDeeper(env: Env, es: seq<RollResult>, depth: nat, complete: bool)
    requires Entries(env, es, depth + 1, complete)
    ensures TopLevel(es, depth) == []
  {
    if es != [] {
      TopLevelDeeper(env, es[1..], depth, complete);
    }
  }

  /** The results a state change added at `depth` or below, as table names at `depth`. */
  lemma GrowsTopLevel(env: Env, r: Run, log: seq<RollResult>, cursor: nat, depth: nat)
    requires Grows(env, r, log, cursor, depth + 1)
    ensures TopLevel(r.log[|log|..], depth) == []
  {
    TopLevelDeeper(env, r.log[|log|..], depth, r.failure.None?);
  }

  /**
   * A successful roll of a list of tables adds, at the call's depth, exactly
   * one named result per table, in the order of the list.
   */
  lemma {:induction false} ResolveEachTopLevel(env: Env, tables: seq<OracleTable>, depth: nat, fuel: nat, log: seq<RollResult>, cursor: nat)
    requires LookupValid(env.lookup) && fuel >= 1
    requires forall t :: t in tables ==> t in env.oracleList && GameAllows(env.game, t)
    requires ResolveEach(env, tables, depth, fuel, log, cursor).failure.None?
    ensures var r := ResolveEach(env, tables, depth, fuel, log, cursor);
      log <= r.log && TopLevel(r.log[|log|..], depth) == Names(tables)
    decreases |tables|
  {
    if tables == [] {
      assert log[|log|..] == [];
    } else {
      var r1 := ResolveTable(env, tables[0], depth, fuel, log, cursor);
      ResolveEachUnfold(env, tables, depth, fuel, log, cursor);
      ResolveTableTopLevel(env, tables[0], depth, fuel, log, cursor);
      ResolveEachTopLevel(env, tables[1..], depth, fuel, r1.log, r1.cursor);
      var r := ResolveEach(env, tables[1..], depth, fuel, r1.log, r1.cursor);
      CombineTopLevel(log, r1.log, r.log, depth, tables[0].name, Names(tables[1..]));
      NamesCons(tables);
    }
  }

  /** After a successful first table, the loop goes on with the rest of the list from the new state. */
  lemma ResolveEachUnfold(env: Env, tables: seq<OracleTable>, depth: nat, fuel: nat, log: seq<RollResult>, cursor: nat)
    requires LookupValid(env.lookup) && fuel >= 1 && tables != []
    requires ResolveEach(env, tables, depth, fuel, log, cursor).failure.None?
    ensures var r1 := ResolveTable(env, tables[0], depth, fuel, log, cursor);
      r1.failure.None? && ResolveEach(env, tables, depth, fuel, log, cursor) == ResolveEach(env, tables[1..], depth, fuel, r1.log, r1.cursor)
  {
  }

  lemma NamesCons(ts: seq<OracleTable>)
    requires ts != []
    ensures Names(ts) == [ts[0].name] + Names(ts[1..])
  {
  }

  /** One name from the first extension, then those of the second. */
  lemma CombineTopLevel(log: seq<RollResult>, mid: seq<RollResult>, full: seq<RollResult>, depth: nat, first: string, rest: seq<string>)
    requires log <= mid <= full
    requires TopLevel(mid[|log|..], depth) == [first] && TopLevel(full[|mid|..], depth) == rest
    ensures TopLevel(full[|log|..], depth) == [first] + rest
  {
    TopLevelConcat(log, mid, full, depth);
  }

  /** A successful roll of one table adds exactly that table's name at the call's depth. */
  lemma ResolveTableTopLevel(env: Env, t: OracleTable, depth: nat, fuel: nat, log: seq<RollResult>, cursor: nat)
    requires LookupValid(env.lookup) && fuel >= 1
    requires t in env.oracleList && GameAllows(env.game, t)
    requires ResolveTable(env, t, depth, fuel, log, cursor).failure.None?
    ensures var r := ResolveTable(env, t, depth, fuel, log, cursor);
      log <= r.log && TopLevel(r.log[|log|..], depth) == [t.name]
  {
    var r := ResolveTable(env, t, depth, fuel, log, cursor);
    ResolveTableGrows(env, t, depth, fuel, log, cursor);
    var first := r.log[|log|];
    GrowsTopLevel(env, r, log + [first], cursor + 1, depth);
    assert r.log[|log|..] == [first] + r.log[|log| + 1..];
    TopLevelAppend([first], r.log[|log| + 1..], depth);
  }

  /** The top-level names of two successive extensions, one after the other. */
  lemma TopLevelConcat(log: seq<RollResult>, mid: seq<RollResult>, full: seq<RollResult>, depth: nat)
    requires log <= mid <= full
    ensures TopLevel(full[|log|..], depth) == TopLevel(mid[|log|..], depth) + TopLevel(full[|mid|..], depth)
  {
    assert full[|log|..] == mid[|log|..] + full[|mid|..];
    TopLevelAppend(mid[|log|..], full[|mid|..], depth);
  }

  /**
   * A successful `RollFacade(table, depth)` adds, at `depth`, one named result
   * per table the parse of the trimmed request returns, in that order.
   */
  lemma ResolveTopLevel(env: Env, table: string, depth: nat, fuel: nat, log: seq<RollResult>, cursor: nat)
    requires LookupValid(env.lookup)
    requires Resolve(env, table, depth, fuel, log, cursor).failure.None?
    ensures ParseResult(env, Trim(table)).Success?
    ensures var r := Resolve(env, table, depth, fuel, log, cursor);
      |log| <= |r.log| && TopLevel(r.log[|log|..], depth) == RolledNames(env, table)
  {
    CandidatesRegistered(env, Trim(table));
    ResolveEachTopLevel(env, ParseResult(env, Trim(table)).value, depth, fuel, log, cursor);
  }

  /** The names of the tables a request rolls at its own depth (none when the parse throws). */
  function RolledNames(env: Env, table: string): seq<string> {
    match ParseResult(env, Trim(table))
    case Success(ts) => Names(ts)
    case Failure(_) => []
  }

  /** A successful repeat of `n` rolls of `name` adds `n` copies of its top-level results. */
  lemma {:induction false} RepeatTopLevel(env: Env, name: string, n: int, depth: nat, fuel: nat, log: seq<RollResult>, cursor: nat)
    requires LookupValid(env.lookup)
    requires Repeat(env, name, n, depth, fuel, log, cursor).failure.None?
    ensures var r := Repeat(env, name, n, depth, fuel, log, cursor);
      |log| <= |r.log| && TopLevel(r.log[|log|..], depth + 1) == Copies(RolledNames(env, name), n)
    decreases n
  {
    var r := Repeat(env, name, n, depth, fuel, log, cursor);
    if n <= 0 {
      assert r.log[|log|..] == [];
    } else {
      var r1 := Resolve(env, name, depth + 1, fuel, log, cursor);
      RepeatStep(env, name, n, depth, fuel, log, cursor, r1);
      ResolveTopLevel(env, name, depth + 1, fuel, log, cursor);
      RepeatTopLevel(env, name, n - 1, depth, fuel, r1.log, r1.cursor);
      ResolvePrefix(env, name, depth + 1, fuel, log, cursor);
      RepeatPrefix(env, name, n - 1, depth, fuel, r1.log, r1.cursor);
      TopLevelConcat(log, r1.log, r.log, depth + 1);
    }
  }

  /** One successful roll of a repeat, and the rest of the repeat after it. */
  lemma RepeatStep(env: Env, name: string, n: int, depth: nat, fuel: nat, log: seq<RollResult>, cursor: nat, r1: Run)
    requires LookupValid(env.lookup) && n > 0
    requires r1 == Resolve(env, name, depth + 1, fuel, log, cursor) && r1.failure.None?
    ensures Repeat(env, name, n, depth, fuel, log, cursor) == Repeat(env, name, n - 1, depth, fuel, r1.log, r1.cursor)
  {
  }

  /** `RollFacade` and the repeat loop only ever append to the list. */
  lemma ResolvePrefix(env: Env, table: string, depth: nat, fuel: nat, log: seq<RollResult>, cursor: nat)
    requires LookupValid(env.lookup)
    ensures log <= Resolve(env, table, depth, fuel, log, cursor).log
  {
    ResolveGrows(env, table, depth, fuel, log, cursor);
  }

  lemma RepeatPrefix(env: Env, name: string, n: int, depth: nat, fuel: nat, log: seq<RollResult>, cursor: nat)
    requires LookupValid(env.lookup)
    ensures log <= Repeat(env, name, n, depth, fuel, log, cursor).log
  {
    RepeatGrows(env, name, n, depth, fuel, log, cursor);
  }

  // ---------------------------------------------------------------------------
  // A "[Nx]" row

  /** The repeat patterns find the digits of a "[Nx]" text at its start. */
  lemma FindRepeatOf(ds: string)
    requires |ds| > 0 && AllDigits(ds)
    ensures RepeatAt("[" + ds + "x]") == Some(ds) && FindRepeat("[" + ds + "x]") == Some(ds)
  {
    var s := "[" + ds + "x]";
    assert s[1..] == ds + "x]";
    LeadingDigitsOf(ds, "x]");
  }

  /** As written, the count of a "[Nx]" row is parsed from the whole "[Nx]" text and is 0. */
  lemma RepeatCountAsWritten(ds: string)
    requires |ds| > 0 && AllDigits(ds)
    ensures RepeatCount(AsWritten, "[" + ds + "x]") == Success(0)
  {
    FindRepeatOf(ds);
    TryParseRejects("[" + ds + "x]");
  }

  /** Read as intended, the count of a "[Nx]" row is N. */
  lemma RepeatCountIntended(ds: string)
    requires |ds| > 0 && AllDigits(ds) && DigitsValue(ds) <= MaxInt32
    ensures RepeatCount(Intended, "[" + ds + "x]") == Success(DigitsValue(ds) as int)
  {
    FindRepeatOf(ds);
    TryParseDigits(ds);
  }

  /** A digit string holds no character that is not a digit. */
  lemma DigitsExclude(ds: string, c: char)
    requires AllDigits(ds) && !IsDigit(c)
    ensures c !in ds
  {
  }

  /** After digits, "x]" closes the bracket on the same line. */
  lemma {:induction false} ClosesAfterDigits(ds: string)
    requires AllDigits(ds)
    ensures ClosesOnLine(ds + "x]")
  {
    if ds != [] {
      assert (ds + "x]")[1..] == ds[1..] + "x]";
      ClosesAfterDigits(ds[1..]);
    } else {
      assert (ds + "x]")[1..] == "]";
    }
  }

  /** Taking the brackets out of "[Nx]" leaves "Nx". */
  lemma StripRepeat(ds: string)
    requires AllDigits(ds)
    ensures Without(Without("[" + ds + "x]", '['), ']') == ds + "x"
  {
    var body := ds + "x";
    var closed := body + "]";
    DigitsExclude(ds, '[');
    DigitsExclude(ds, ']');
    assert '[' !in closed && ']' !in body;
    assert "[" + ds + "x]" == "[" + closed;
    assert Without("[" + closed, '[') == closed by {
      WithoutAppend("[", closed, '[');
      WithoutAbsent(closed, '[');
      assert Without("[", '[') == [];
    }
    assert Without(closed, ']') == body by {
      WithoutAppend(body, "]", ']');
      WithoutAbsent(body, ']');
      assert Without("]", ']') == [];
    }
  }

  /** Rolled as a table name, "[Nx]" is a bracket group with the single member "Nx". */
  lemma GroupItemsOfRepeat(ds: string)
    requires AllDigits(ds)
    ensures HasBracketPair("[" + ds + "x]") && GroupItems("[" + ds + "x]") == [ds + "x"]
  {
    var s := "[" + ds + "x]";
    assert s[1..] == ds + "x]";
    ClosesAfterDigits(ds);
    ReplaceCharIsWithout(s, '[');
    ReplaceCharIsWithout(Without(s, '['), ']');
    StripRepeat(ds);
    DigitsExclude(ds, '/');
    SplitWithoutSeparator(ds + "x", '/');
  }

  /**
   * As written, a row "[Nx]" rolls nothing more and then fails: the count is 0,
   * and the "[Nx]" text rolled as a table name finds no table when no table is
   * called "Nx", so the whole roll ends with "Unknown Oracle Table".
   */
  lemma RepeatRowAsWritten(env: Env, t: OracleTable, ds: string, depth: nat, fuel: nat, log: seq<RollResult>, cursor: nat)
    requires LookupValid(env.lookup) && env.rule == AsWritten && fuel >= 2
    requires |ds| > 0 && AllDigits(ds)
    requires forall u :: u in env.oracleList ==> !MatchTableAlias(u, ds + "x")
    ensures Chain(env, t, "[" + ds + "x]", depth, fuel, log, cursor) == Run(log, cursor, Some(UnknownTable("[" + ds + "x]")))
  {
    var s := "[" + ds + "x]";
    assert '\n' !in s by {
      assert forall i :: 0 <= i < |ds| ==> s[i + 1] == ds[i];
    }
    assert ChainReference(s) == Some(s);
    RepeatCountAsWritten(ds);
    FindRepeatOf(ds);
    assert MultiRoll(env, s, t, depth, fuel - 1, log, cursor) == Run(log, cursor, None);
    assert Chain(env, t, s, depth, fuel, log, cursor) == RepeatChain(env, t, s, depth, fuel, log, cursor);
    TrimUnchanged(s);
    GroupItemsOfRepeat(ds);
    WhereNone(env.oracleList, ds + "x", env.game);
    assert [ds + "x"][..0] == [];
    assert MatchGroup(env.oracleList, [ds + "x"], env.game) == [];
  }

  /**
   * Read as intended, a row "[Nx]" rolls its table N more times, one level
   * deeper, and those rolls add N copies of that table's top-level results.
   */
  lemma RepeatRowIntended(env: Env, t: OracleTable, ds: string, depth: nat, fuel: nat, log: seq<RollResult>, cursor: nat)
    requires LookupValid(env.lookup) && env.rule == Intended && fuel >= 1
    requires |ds| > 0 && AllDigits(ds) && DigitsValue(ds) <= MaxInt32
    ensures var r := Chain(env, t, "[" + ds + "x]", depth, fuel, log, cursor);
      r == Repeat(env, t.name, DigitsValue(ds), depth, fuel - 1, log, cursor) &&
      (r.failure.None? ==>
        |log| <= |r.log| && TopLevel(r.log[|log|..], depth + 1) == Copies(RolledNames(env, t.name), DigitsValue(ds)))
  {
    var s := "[" + ds + "x]";
    assert '\n' !in s by {
      assert forall i :: 0 <= i < |ds| ==> s[i + 1] == ds[i];
    }
    assert ChainReference(s) == Some(s);
    RepeatCountIntended(ds);
    FindRepeatOf(ds);
    assert Chain(env, t, s, depth, fuel, log, cursor) == RepeatChain(env, t, s, depth, fuel, log, cursor);
    var r := Repeat(env, t.name, DigitsValue(ds), depth, fuel - 1, log, cursor);
    if r.failure.None? {
      RepeatTopLevel(env, t.name, DigitsValue(ds), depth, fuel - 1, log, cursor);
    }
  }

  // ---------------------------------------------------------------------------
  // The roller object

  /** `OracleRoller`: the registry and game it was built with, and the state it mutates. */
  class OracleRoller {
    const oracleList: seq<OracleTable>
    const game: GameName
    const lookup: Lookup
    const draws: nat -> nat
    const rule: RepeatRule
    var rollResultList: seq<RollResult>
    var cursor: nat

    ghost predicate Valid() {
      LookupValid(lookup)
    }

    /** What the roller reads but never changes, as one value. */
    function Environment(): Env {
      Env.Env(oracleList, game, lookup, draws, rule)
    }

    constructor (oracleList: seq<OracleTable>, game: GameName, lookup: Lookup, draws: nat -> nat, rule: RepeatRule)
      requires LookupValid(lookup)
      ensures Valid()
      ensures Environment() == Env.Env(oracleList, game, lookup, draws, rule)
      ensures rollResultList == [] && cursor == 0
    {
      this.oracleList := oracleList;
      this.game := game;
      this.lookup := lookup;
      this.draws := draws;
      this.rule := rule;
      rollResultList := [];
      cursor := 0;
    }

    /** `RollAsString`: reset the list, roll, and write one or two lines per result. */
    method RollAsString(tableName: string, fuel: nat) returns (reply: Result<string, RollError>)
      requires Valid()
      modifies this
      ensures var r := Resolve(Environment(), tableName, 0, fuel, [], old(cursor));
        rollResultList == r.log && cursor == r.cursor &&
        (r.failure.Some? ==> reply == Failure(r.failure.value)) &&
        (r.failure.None? ==> AllResolved(r.log) && reply == Success(Render(GameLabel(game), r.log)))
    {
      ghost var c0 := cursor;
      rollResultList := [];
      var failure := RollFacade(tableName, 0, fuel);
      if failure.Some? {
        return Failure(failure.value);
      }
      ResolveGrows(Environment(), tableName, 0, fuel, [], c0);
      assert rollResultList[0..] == rollResultList;
      EntriesResolved(Environment(), rollResultList, 0);
      var gameName := if game != NoGame then GameText(game) + " " else "";
      var text := WriteResults(gameName, rollResultList);
      return Success(text);
    }

    /** The `foreach` of `RollAsString`: one or two lines per result, in list order. */
    static method WriteResults(gameName: string, results: seq<RollResult>) returns (text: string)
      requires AllResolved(results)
      ensures text == Render(gameName, results)
    {
      text := "";
      var k := 0;
      while k < |results|
        invariant 0 <= k <= |results|
        invariant text == Render(gameName, results[..k])
      {
        var item := results[k];
        var padding := Tabs(item.depth);
        ghost var before := text;
        if item.tableName.Some? && |item.tableName.value| > 0 {
          text := text + (padding + "Rolling the " + gameName + "oracle for " + item.tableName.value + "\n");
        }
        assert text == before + Heading(gameName, item);
        text := text + (padding + "[" + IntToString(item.roll) + "]: " + item.result.value.description + "\n");
        RenderPrefix(gameName, results, k);
        k := k + 1;
      }
      assert results[..k] == results;
    }

    /** `RollFacade`. */
    method RollFacade(table: string, depth: nat, fuel: nat) returns (failure: Option<RollError>)
      requires Valid()
      modifies this
      ensures Run(rollResultList, cursor, failure) == Resolve(Environment(), table, depth, fuel, old(rollResultList), old(cursor))
      decreases fuel, 3, 0
    {
      if fuel == 0 {
        return Some(RecursionLimit);
      }
      var t := Trim(table);
      var parsed := ParseOracleTables(t);
      if parsed.Failure? {
        return Some(parsed.error);
      }
      var tablesToRoll := parsed.value;
      if |tablesToRoll| == 0 {
        return Some(UnknownTable(t));
      }
      ghost var log0, c0 := rollResultList, cursor;
      var i := 0;
      while i < |tablesToRoll|
        invariant 0 <= i <= |tablesToRoll|
        invariant ResolveEach(Environment(), tablesToRoll, depth, fuel, log0, c0)
               == ResolveEach(Environment(), tablesToRoll[i..], depth, fuel, rollResultList, cursor)
      {
        assert tablesToRoll[i..][1..] == tablesToRoll[i + 1..];
        failure := RollTable(tablesToRoll[i], depth, fuel);
        if failure.Some? {
          return;
        }
        i := i + 1;
      }
      return None;
    }

    /** The body of `RollFacade`'s loop for one table. */
    method RollTable(t: OracleTable, depth: nat, fuel: nat) returns (failure: Option<RollError>)
      requires Valid() && fuel >= 1
      modifies this
      ensures Run(rollResultList, cursor, failure) == ResolveTable(Environment(), t, depth, fuel, old(rollResultList), old(cursor))
      decreases fuel, 1, 0
    {
      var next := Next(draws, cursor, 1, t.d);
      if next.Failure? {
        return Some(next.error);
      }
      var roll := next.value;
      cursor := cursor + 1;
      var oracleResult := lookup(t.oracles, roll);
      rollResultList := rollResultList + [RollResult(roll, Some(t.name), oracleResult, depth)];
      if oracleResult.None? {
        return Some(NullReference);
      }
      var row := oracleResult.value;
      if row.oracles.SubTable? {
        RollNested(row, 1);
      }
      failure := FollowChain(t, row.description, depth, fuel);
    }

    /** The chained-reference check at the end of `RollFacade`'s loop body. */
    method FollowChain(t: OracleTable, desc: string, depth: nat, fuel: nat) returns (failure: Option<RollError>)
      requires Valid() && fuel >= 1
      modifies this
      ensures Run(rollResultList, cursor, failure) == Chain(Environment(), t, desc, depth, fuel, old(rollResultList), old(cursor))
      decreases fuel, 0, 1
    {
      var chained := ChainReference(desc);
      if chained.None? {
        return None;
      }
      var nextTable := chained.value;
      if RepeatAt(nextTable).Some? {
        failure := FollowRepeat(t, nextTable, depth, fuel);
      } else {
        failure := RollFacade(nextTable, depth + 1, fuel - 1);
      }
    }

    /** A chained reference of the "[Nx]" form. */
    method FollowRepeat(t: OracleTable, nextTable: string, depth: nat, fuel: nat) returns (failure: Option<RollError>)
      requires Valid() && fuel >= 1
      modifies this
      ensures Run(rollResultList, cursor, failure) == RepeatChain(Environment(), t, nextTable, depth, fuel, old(rollResultList), old(cursor))
      decreases fuel, 0, 0
    {
      ghost var log0, c0 := rollResultList, cursor;
      failure := MultiRollFacade(nextTable, t, depth, fuel - 1);
      RepeatChainCases(Environment(), t, nextTable, depth, fuel, log0, c0, Run(rollResultList, cursor, failure));
      if failure.Some? || rule == Intended {
        return;
      }
      failure := RollFacade(nextTable, depth + 1, fuel - 1);
    }

    /** `RollNested`. */
    method RollNested(row: StandardOracle, depth: nat)
      requires Valid()
      modifies this
      ensures Run(rollResultList, cursor, None) == ResolveNested(Environment(), row, depth, old(rollResultList), old(cursor))
      decreases row
    {
      if row.oracles.NoSubTable? {
        return;
      }
      var roll := Next(draws, cursor, 1, 100).value;
      cursor := cursor + 1;
      var innerRow := lookup(row.oracles.rows, roll);
      if innerRow.None? {
        return;
      }
      rollResultList := rollResultList + [RollResult(roll, None, innerRow, depth)];
      if innerRow.value.oracles.SubTable? {
        RollNested(innerRow.value, depth + 1);
      }
    }

    /** `MultiRollFacade`. */
    method MultiRollFacade(value: string, t: OracleTable, depth: nat, fuel: nat) returns (failure: Option<RollError>)
      requires Valid()
      modifies this
      ensures Run(rollResultList, cursor, failure) == MultiRoll(Environment(), value, t, depth, fuel, old(rollResultList), old(cursor))
      decreases fuel, 5, 0
    {
      var count := RepeatCount(rule, value);
      if count.Failure? {
        return Some(count.error);
      }
      var numberOfRolls := count.value;
      ghost var log0, c0 := rollResultList, cursor;
      var i := 1;
      while i <= numberOfRolls
        invariant 1 <= i && (numberOfRolls >= 0 ==> i <= numberOfRolls + 1)
        invariant Repeat(Environment(), t.name, numberOfRolls, depth, fuel, log0, c0)
               == Repeat(Environment(), t.name, numberOfRolls - i + 1, depth, fuel, rollResultList, cursor)
      {
        failure := RollFacade(t.name, depth + 1, fuel);
        if failure.Some? {
          return;
        }
        i := i + 1;
      }
      return None;
    }

    /** `ParseOracleTables`. */
    method ParseOracleTables(tableName: string) returns (r: Result<seq<OracleTable>, RollError>)
      ensures r == ParseResult(Environment(), tableName)
    {
      var result: seq<OracleTable> := [];
      if HasBracketPair(tableName) {
        var splits := GroupItems(tableName);
        for k := 0 to |splits|
          invariant result == MatchGroup(oracleList, splits[..k], game)
        {
          assert splits[..k + 1][..k] == splits[..k];
          result := result + Where(oracleList, splits[k], game);
        }
        assert splits[..|splits|] == splits;
      } else {
        result := Where(oracleList, tableName, game);
      }
      if CrowdedCount(result, AllGames) > 1 {
        return Failure(AmbiguousTable(DistinctGames(result)));
      }
      return Success(result);
    }
  }
}
