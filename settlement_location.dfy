/**
 * Settlement location extraction (StarforgedSettlementCommands
 * `ExtractAnySettlementLocation`): find the first of the three location
 * keywords that a text contains, ignoring case, and optionally cut every
 * occurrence of it out of the text, tidying the spaces left behind.
 */
module Settlements {
  import opened Text

  /** The location keywords, in the order they are tried. */
  const Locations: seq<string> := ["Planetside", "Orbital", "Deep space"]

  /** No keyword occurs twice in a list. */
  predicate Distinct(locs: seq<string>) {
    forall i, j :: 0 <= i < j < |locs| ==> locs[i] != locs[j]
  }

  /** `locs.FirstOrDefault(loc => value.Contains(loc, OrdinalIgnoreCase)) ?? ""`. */
  function FirstContained(value: string, locs: seq<string>): (r: string)
    ensures r == "" || r in locs
    ensures r != "" ==> Contains(value, r, OrdinalIgnoreCase)
  {
    if locs == [] then ""
    else if Contains(value, locs[0], OrdinalIgnoreCase) then locs[0]
    else FirstContained(value, locs[1..])
  }

  /** The location keyword `ExtractAnySettlementLocation` reports for `value`. */
  function FoundLocation(value: string): string {
    FirstContained(value, Locations)
  }

  /** What is left of `value` once `location` is cut out: every occurrence removed, trimmed, runs of spaces collapsed. */
  function Removed(value: string, location: string): string
    requires |location| > 0
  {
    CollapseSpaces(Trim(Replace(value, location, "", OrdinalIgnoreCase)))
  }

  /**
   * `ExtractAnySettlementLocation(ref value, removeSettlement)`: the keyword
   * found, and the new contents of `value`.
   */
  method ExtractAnySettlementLocation(value: string, removeSettlement: bool) returns (location: string, newValue: string)
    ensures location == FoundLocation(value)
    ensures location == "" || !removeSettlement ==> newValue == value
    ensures location != "" && removeSettlement ==> newValue == Removed(value, location)
  {
    location := FirstContained(value, Locations);
    newValue := value;
    if |location| > 0 && removeSettlement {
      newValue := Replace(newValue, location, "", OrdinalIgnoreCase);
      newValue := Trim(newValue);
      newValue := CollapseSpaces(newValue);
    }
  }

  /** Every string contains the empty string. */
  lemma ContainsEmpty(value: string)
    ensures Contains(value, "", OrdinalIgnoreCase)
  {
    assert MatchAt(value, "", 0, OrdinalIgnoreCase);
  }

  /**
   * The search finds nothing exactly when no (non-empty) keyword of the list
   * occurs in `value`, ignoring case.
   */
  lemma {:induction false} FirstContainedNone(value: string, locs: seq<string>)
    requires forall k :: 0 <= k < |locs| ==> |locs[k]| > 0
    ensures FirstContained(value, locs) == "" <==> forall k :: 0 <= k < |locs| ==> !Contains(value, locs[k], OrdinalIgnoreCase)
  {
    if locs != [] {
      FirstContainedNone(value, locs[1..]);
      assert forall k :: 1 <= k < |locs| ==> locs[1..][k - 1] == locs[k];
    }
  }

  /**
   * Priority: the search returns the keyword at index i exactly when it
   * occurs in `value` and none of the keywords before it does.
   */
  lemma {:induction false} FirstContainedAt(value: string, locs: seq<string>, i: nat)
    requires i < |locs| && Distinct(locs)
    ensures FirstContained(value, locs) == locs[i]
        <==> Contains(value, locs[i], OrdinalIgnoreCase) && forall j :: 0 <= j < i ==> !Contains(value, locs[j], OrdinalIgnoreCase)
  {
    if !Contains(value, locs[0], OrdinalIgnoreCase) {
      var rest := locs[1..];
      ContainsEmpty(value);
      if i == 0 {
        assert locs[0] !in rest;
      } else {
        assert Distinct(rest);
        FirstContainedAt(value, rest, i - 1);
        assert rest[i - 1] == locs[i];
        assert forall j :: 1 <= j < i ==> rest[j - 1] == locs[j];
      }
    }
  }

  /** The location is one of the three keywords, in their own spelling, or empty. */
  lemma LocationIsKeyword(value: string)
    ensures var r := FoundLocation(value); r == "Planetside" || r == "Orbital" || r == "Deep space" || r == ""
  {
    var r := FoundLocation(value);
    if r != "" {
      var i :| 0 <= i < |Locations| && Locations[i] == r;
    }
  }

  /** No location is reported exactly when none of the three keywords occurs, ignoring case. */
  lemma LocationEmptyIff(value: string)
    ensures FoundLocation(value) == ""
        <==> !Contains(value, "Planetside", OrdinalIgnoreCase) && !Contains(value, "Orbital", OrdinalIgnoreCase)
             && !Contains(value, "Deep space", OrdinalIgnoreCase)
  {
    FirstContainedNone(value, Locations);
    assert Locations[0] == "Planetside" && Locations[1] == "Orbital" && Locations[2] == "Deep space";
    forall k | 0 <= k < |Locations|
      ensures Locations[k] == "Planetside" || Locations[k] == "Orbital" || Locations[k] == "Deep space"
    {
    }
  }

  /**
   * Priority follows the array: "Planetside" wins whenever it occurs,
   * "Orbital" only without "Planetside", "Deep space" only without the other two.
   */
  lemma LocationPriority(value: string)
    ensures FoundLocation(value) == "Planetside" <==> Contains(value, "Planetside", OrdinalIgnoreCase)
    ensures FoundLocation(value) == "Orbital"
        <==> Contains(value, "Orbital", OrdinalIgnoreCase) && !Contains(value, "Planetside", OrdinalIgnoreCase)
    ensures FoundLocation(value) == "Deep space"
        <==> Contains(value, "Deep space", OrdinalIgnoreCase) && !Contains(value, "Planetside", OrdinalIgnoreCase)
             && !Contains(value, "Orbital", OrdinalIgnoreCase)
  {
    assert Distinct(Locations);
    FirstContainedAt(value, Locations, 0);
    FirstContainedAt(value, Locations, 1);
    FirstContainedAt(value, Locations, 2);
  }

  /** After a removal the text has no white space at either end and no two spaces in a row. */
  lemma RemovedIsTidy(value: string, location: string)
    requires |location| > 0
    ensures var r := Removed(value, location);
      NoDoubleSpace(r) && (r == [] || (!IsWhiteSpace(r[0]) && !IsWhiteSpace(r[|r| - 1])))
  {
    TrimShape(Replace(value, location, "", OrdinalIgnoreCase));
  }

  /** No keyword can overlap itself: each one's first letter does not come back in it, ignoring case. */
  lemma KeywordsDoNotOverlap(i: nat)
    requires i < |Locations|
    ensures FirstCharUnique(Locations[i], OrdinalIgnoreCase)
  {
  }

  /**
   * The removal takes out every occurrence of the found keyword, ignoring
   * case: at least one, and the text shrinks by the keyword's length once per
   * position where the keyword starts.
   */
  lemma RemovalDeletesEvery(value: string)
    requires FoundLocation(value) != ""
    ensures var loc := FoundLocation(value);
      Occurrences(value, loc, OrdinalIgnoreCase) > 0
      && |Replace(value, loc, "", OrdinalIgnoreCase)| == |value| - Occurrences(value, loc, OrdinalIgnoreCase) * |loc|
  {
    var loc := FoundLocation(value);
    var i :| 0 <= i < |Locations| && Locations[i] == loc;
    KeywordsDoNotOverlap(i);
    ReplaceCountIsOccurrences(value, loc, OrdinalIgnoreCase);
    ReplaceCountPositive(value, loc, OrdinalIgnoreCase);
    RemoveAllLength(value, loc, OrdinalIgnoreCase);
  }
}
