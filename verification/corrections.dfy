/**
 * The destination normaliser: a free-text destination is stripped and
 * title-cased, then snapped onto a table of known destination names, first by
 * exact match and then by a case-insensitive prefix search.
 */
module Corrections {
  import opened Wrappers
  import opened AsciiText

  /** No name appears twice, as in the set the table is loaded into. */
  predicate Distinct(names: seq<string>) {
    forall i, j :: 0 <= i < j < |names| ==> names[i] != names[j]
  }

  /** The known-destination set, listed in the order it is iterated. */
  type KnownDestinations = names: seq<string> | Distinct(names) witness []

  /** One entry of the destinations file, as the table stores it: stripped and title-cased. */
  function Clean(item: string): string {
    Title(Strip(item))
  }

  /** A name that cleaning leaves as it is. */
  predicate IsClean(name: string) {
    Clean(name) == name
  }

  /** Cleaning is idempotent, so every name the table holds is clean. */
  lemma CleanIsClean(item: string)
    ensures IsClean(Clean(item))
  {
    var t := Clean(item);
    TitleOfStrippedIsStripped(item);
    assert Strip(t) == t;
    TitleIdempotent(Strip(item));
  }

  /** The set comprehension that builds the table from the decoded list. */
  function CleanKnown(data: seq<string>): (known: set<string>)
    ensures forall i :: 0 <= i < |data| ==> Clean(data[i]) in known
    ensures forall name :: name in known ==> exists i :: 0 <= i < |data| && Clean(data[i]) == name
  {
    set i | 0 <= i < |data| :: Clean(data[i])
  }

  /** Every entry of the loaded table is a clean name. */
  lemma KnownEntriesAreClean(data: seq<string>)
    ensures forall name :: name in CleanKnown(data) ==> IsClean(name)
  {
    forall name | name in CleanKnown(data)
      ensures IsClean(name)
    {
      var i :| 0 <= i < |data| && Clean(data[i]) == name;
      CleanIsClean(data[i]);
    }
  }

  /** `name.lower().startswith(stem.lower())` */
  predicate MatchesPrefix(name: string, stem: string) {
    StartsWith(Lower(name), Lower(stem))
  }

  /** The index of the first name that `stem` is a case-insensitive prefix of. */
  function FirstPrefixMatch(names: seq<string>, stem: string): (r: Option<nat>)
    ensures r.Some? ==> r.value < |names| && MatchesPrefix(names[r.value], stem)
    ensures r.Some? ==> forall j :: 0 <= j < r.value ==> !MatchesPrefix(names[j], stem)
    ensures r.None? ==> forall j :: 0 <= j < |names| ==> !MatchesPrefix(names[j], stem)
  {
    if names == [] then None
    else if MatchesPrefix(names[0], stem) then Some(0)
    else match FirstPrefixMatch(names[1..], stem)
      case None => None
      case Some(i) => Some(i + 1)
  }

  /** What `normalize_destination(value)` returns against the table `known`. */
  function Normalize(value: string, known: KnownDestinations): (r: string)
    ensures value == "" ==> r == ""
    ensures value != "" && known == [] ==> r == Clean(value)
    ensures value != "" && Clean(value) in known ==> r == Clean(value)
    ensures value != "" ==> r == Clean(value) || r in known
    ensures value != "" && r != Clean(value) ==> MatchesPrefix(r, Clean(value))
    ensures value != "" && (forall j :: 0 <= j < |known| ==> !MatchesPrefix(known[j], Clean(value)))
            ==> r == Clean(value)
  {
    if value == "" then value
    else
      var titleCased := Clean(value);
      if known == [] then titleCased
      else if titleCased in known then titleCased
      else match FirstPrefixMatch(known, titleCased)
        case Some(i) => known[i]
        case None => titleCased
  }

  /** The guards and the first-match loop of `normalize_destination`. */
  method NormalizeDestination(value: string, known: KnownDestinations) returns (r: string)
    ensures r == Normalize(value, known)
  {
    if value == "" {
      return value;
    }
    var titleCased := Title(Strip(value));
    if |known| == 0 {
      return titleCased;
    }
    if titleCased in known {
      return titleCased;
    }
    var stem := Lower(titleCased);
    for i := 0 to |known|
      invariant forall j :: 0 <= j < i ==> !MatchesPrefix(known[j], titleCased)
    {
      if StartsWith(Lower(known[i]), stem) {
        NormalizePicksFirstMatch(value, known, i);
        return known[i];
      }
    }
    assert FirstPrefixMatch(known, titleCased).None?;
    return titleCased;
  }

  /** When the cleaned value is not in the table, the prefix search returns
      the first matching name in iteration order. */
  lemma NormalizePicksFirstMatch(value: string, known: KnownDestinations, i: nat)
    requires value != "" && Clean(value) !in known
    requires i < |known| && MatchesPrefix(known[i], Clean(value))
    requires forall j :: 0 <= j < i ==> !MatchesPrefix(known[j], Clean(value))
    ensures Normalize(value, known) == known[i]
  {
    var m := FirstPrefixMatch(known, Clean(value));
    assert m.Some?;
  }

  /** A non-empty value made only of whitespace cleans to "", which every name
      starts with: against a non-empty table the result is a known name, the
      first one unless "" itself is in the table. */
  lemma WhitespaceOnlyPicksKnown(value: string, known: KnownDestinations)
    requires value != "" && known != []
    requires forall i :: 0 <= i < |value| ==> IsSpace(value[i])
    ensures Normalize(value, known) in known
    ensures "" !in known ==> Normalize(value, known) == known[0]
  {
    assert Strip(value) == "";
    assert Clean(value) == "";
    if "" !in known {
      assert MatchesPrefix(known[0], "");
      NormalizePicksFirstMatch(value, known, 0);
    }
  }

  /** Against a table of clean names the result is always clean, that is,
      stripped and title-cased. */
  lemma NormalizeIsClean(value: string, known: KnownDestinations)
    requires forall i :: 0 <= i < |known| ==> IsClean(known[i])
    ensures IsClean(Normalize(value, known))
  {
    var r := Normalize(value, known);
    if value == "" {
      assert Clean(r) == r by {
        assert Strip(r) == [];
      }
    } else if r == Clean(value) {
      CleanIsClean(value);
    } else {
      var i :| 0 <= i < |known| && known[i] == r;
    }
  }

  /** The table the program loads qualifies: whatever order its set is
      iterated in, normalising against it gives a clean name. */
  lemma NormalizeAgainstLoadedTableIsClean(value: string, data: seq<string>, known: KnownDestinations)
    requires forall name :: name in known <==> name in CleanKnown(data)
    ensures IsClean(Normalize(value, known))
  {
    KnownEntriesAreClean(data);
    assert forall i :: 0 <= i < |known| ==> known[i] in CleanKnown(data);
    NormalizeIsClean(value, known);
  }
}
