/**
 * Preference extraction: the outcome of the structured-extraction call is
 * merged into the traveller's preference map, and the map is rendered as the
 * sentence embedded in the system prompt.
 */
module Extraction {
  import opened Wrappers
  import opened AsciiText
  import opened Corrections

  /** The four fields the extraction call may fill in; `None` is Python's `None`. */
  datatype TripPreferences = TripPreferences(
    destination: Option<string>,
    season: Option<string>,
    groupSize: Option<int>,
    budget: Option<int>)

  const DestinationKey := "destination"
  const SeasonKey := "season"
  const GroupSizeKey := "group_size"
  const BudgetKey := "budget"

  // ---------------------------------------------------------------------------
  // The preference map: a Python dict, i.e. an insertion-ordered association list.

  type Entry = (string, string)

  predicate KeysUnique(m: seq<Entry>) {
    forall i, j :: 0 <= i < j < |m| ==> m[i].0 != m[j].0
  }

  type PrefMap = m: seq<Entry> | KeysUnique(m) witness []

  /** The keys in insertion order. */
  function Keys(m: seq<Entry>): (ks: seq<string>)
    ensures |ks| == |m|
    ensures forall i :: 0 <= i < |m| ==> ks[i] == m[i].0
  {
    seq(|m|, i requires 0 <= i < |m| => m[i].0)
  }

  function IndexOf(ks: seq<string>, k: string): (i: nat)
    requires k in ks
    ensures i < |ks| && ks[i] == k
    ensures forall j :: 0 <= j < i ==> ks[j] != k
  {
    if ks[0] == k then 0 else 1 + IndexOf(ks[1..], k)
  }

  /** `m.get(k)` */
  function Lookup(m: seq<Entry>, k: string): (v: Option<string>)
    ensures v.Some? <==> k in Keys(m)
  {
    if k in Keys(m) then Some(m[IndexOf(Keys(m), k)].1) else None
  }

  /** In a map with unique keys, looking a key up finds exactly its entry. */
  lemma LookupIff(m: seq<Entry>, k: string, v: string)
    requires KeysUnique(m)
    ensures Lookup(m, k) == Some(v) <==> (k, v) in m
  {
    if (k, v) in m {
      var i :| 0 <= i < |m| && m[i] == (k, v);
      assert Keys(m)[i] == k;
      assert IndexOf(Keys(m), k) == i;
    }
  }

  /** `m[k] = v`: an existing key keeps its position and takes the new value;
      a new key is appended at the end. */
  function Assign(m: PrefMap, k: string, v: string): (r: PrefMap)
    ensures k in Keys(m) ==> |r| == |m|
    ensures k in Keys(m) ==> forall i :: 0 <= i < |m| ==> r[i] == if m[i].0 == k then (k, v) else m[i]
    ensures k !in Keys(m) ==> r == m + [(k, v)]
  {
    if k in Keys(m) then m[IndexOf(Keys(m), k) := (k, v)] else m + [(k, v)]
  }

  /** After `m[k] = v`, `k` maps to `v` and every other key to what it did. */
  lemma AssignLookup(m: PrefMap, k: string, v: string)
    ensures Lookup(Assign(m, k, v), k) == Some(v)
    ensures forall k' :: k' != k ==> Lookup(Assign(m, k, v), k') == Lookup(m, k')
  {
    var r := Assign(m, k, v);
    assert (k, v) in r by {
      if k in Keys(m) {
        var i := IndexOf(Keys(m), k);
        assert r[i] == (k, v);
      } else {
        assert r[|m|] == (k, v);
      }
    }
    LookupIff(r, k, v);
    forall k' | k' != k
      ensures Lookup(r, k') == Lookup(m, k')
    {
      if k' in Keys(m) {
        var i := IndexOf(Keys(m), k');
        assert m[i] in r by {
          if k in Keys(m) { assert r[i] == m[i]; } else { assert r[i] == m[i]; }
        }
        LookupIff(m, k', m[i].1);
        LookupIff(r, k', m[i].1);
      } else {
        forall j | 0 <= j < |r|
          ensures r[j].0 != k'
        {
          if j < |m| {
            assert Keys(m)[j] == m[j].0;
          }
        }
      }
    }
  }

  /** Assigning a key the value it already has changes nothing. */
  lemma AssignSame(m: PrefMap, k: string, v: string)
    requires Lookup(m, k) == Some(v)
    ensures Assign(m, k, v) == m
  {
    LookupIff(m, k, v);
    var j :| 0 <= j < |m| && m[j] == (k, v);
    assert Keys(m)[j] == k;
  }

  /** The updates one after another, as the dict assignments happen. */
  function AssignAll(m: PrefMap, updates: seq<Entry>): PrefMap
    decreases |updates|
  {
    if updates == [] then m
    else AssignAll(Assign(m, updates[0].0, updates[0].1), updates[1..])
  }

  /** A key the updates name maps to its update; every other key to what it did. */
  lemma {:induction false} AssignAllLookup(m: PrefMap, updates: seq<Entry>, k: string)
    requires KeysUnique(updates)
    ensures Lookup(AssignAll(m, updates), k) ==
      if k in Keys(updates) then Lookup(updates, k) else Lookup(m, k)
    decreases |updates|
  {
    if updates != [] {
      var u, rest := updates[0], updates[1..];
      var m' := Assign(m, u.0, u.1);
      assert KeysUnique(rest);
      AssignAllLookup(m', rest, k);
      AssignLookup(m, u.0, u.1);
      LookupCons(updates, k);
    }
  }

  /** Looking up in a unique-key list: the first entry, or else the rest. */
  lemma LookupCons(updates: seq<Entry>, k: string)
    requires KeysUnique(updates) && updates != []
    ensures k in Keys(updates) <==> k == updates[0].0 || k in Keys(updates[1..])
    ensures k in Keys(updates[1..]) ==> Lookup(updates, k) == Lookup(updates[1..], k)
    ensures k == updates[0].0 ==> Lookup(updates, k) == Some(updates[0].1)
  {
    var rest := updates[1..];
    assert Keys(updates) == [updates[0].0] + Keys(rest);
    if k in Keys(rest) {
      var v := Lookup(rest, k).value;
      LookupIff(rest, k, v);
      LookupIff(updates, k, v);
      var i := IndexOf(Keys(rest), k);
      assert rest[i].0 == k && updates[i + 1] == rest[i];
    } else if k == updates[0].0 {
      LookupIff(updates, k, updates[0].1);
    }
  }

  /** The keys of `ks` that `known` lacks, in order. */
  function NewKeys(known: seq<string>, ks: seq<string>): seq<string> {
    if ks == [] then []
    else (if ks[0] in known then [] else [ks[0]]) + NewKeys(known, ks[1..])
  }

  lemma {:induction false} NewKeysIgnores(known: seq<string>, x: string, ks: seq<string>)
    requires x !in ks
    ensures NewKeys(known + [x], ks) == NewKeys(known, ks)
  {
    if ks != [] {
      NewKeysIgnores(known, x, ks[1..]);
    }
  }

  /** The updates keep the existing keys in place and append the new ones in
      the order they are assigned. */
  lemma {:induction false} AssignAllKeys(m: PrefMap, updates: seq<Entry>)
    requires KeysUnique(updates)
    ensures Keys(AssignAll(m, updates)) == Keys(m) + NewKeys(Keys(m), Keys(updates))
  {
    AssignAllKeysFold(m, updates);
    assert Distinct(Keys(updates));
    FoldKeysAppendsNew(Keys(m), Keys(updates));
  }

  /** The key list after assigning `k`: unchanged if present, `k` appended if not. */
  function KeysAfter(ks: seq<string>, k: string): seq<string> {
    if k in ks then ks else ks + [k]
  }

  function FoldKeys(ks: seq<string>, added: seq<string>): seq<string>
    decreases |added|
  {
    if added == [] then ks else FoldKeys(KeysAfter(ks, added[0]), added[1..])
  }

  lemma AssignKeys(m: PrefMap, k: string, v: string)
    ensures Keys(Assign(m, k, v)) == KeysAfter(Keys(m), k)
  {
  }

  lemma {:induction false} AssignAllKeysFold(m: PrefMap, updates: seq<Entry>)
    ensures Keys(AssignAll(m, updates)) == FoldKeys(Keys(m), Keys(updates))
    decreases |updates|
  {
    if updates == [] {
      assert Keys(updates) == [];
    } else {
      var m' := Assign(m, updates[0].0, updates[0].1);
      AssignAllKeysFold(m', updates[1..]);
      AssignKeys(m, updates[0].0, updates[0].1);
      assert Keys(updates)[0] == updates[0].0;
      assert Keys(updates)[1..] == Keys(updates[1..]);
    }
  }

  lemma {:induction false} FoldKeysAppendsNew(ks: seq<string>, added: seq<string>)
    requires Distinct(added)
    ensures FoldKeys(ks, added) == ks + NewKeys(ks, added)
    decreases |added|
  {
    if added == [] {
      assert ks + [] == ks;
    } else {
      var k := added[0];
      var rest := added[1..];
      var ks' := KeysAfter(ks, k);
      assert Distinct(rest);
      FoldKeysAppendsNew(ks', rest);
      if k !in ks {
        assert k !in rest by {
          forall i | 0 <= i < |rest| ensures rest[i] != k {
            assert rest[i] == added[i + 1];
          }
        }
        NewKeysIgnores(ks, k, rest);
        assert ks + [k] + NewKeys(ks, rest) == ks + ([k] + NewKeys(ks, rest));
      }
    }
  }

  /** An entry whose key the updates do not name keeps its value and position. */
  lemma {:induction false} AssignAllKeepsOthers(m: PrefMap, updates: seq<Entry>, i: nat)
    requires i < |m| && m[i].0 !in Keys(updates)
    ensures i < |AssignAll(m, updates)| && AssignAll(m, updates)[i] == m[i]
    decreases |updates|
  {
    if updates != [] {
      var u := updates[0];
      assert Keys(updates)[0] == u.0;
      assert Keys(updates[1..]) == Keys(updates)[1..];
      var m' := Assign(m, u.0, u.1);
      assert i < |m'| && m'[i] == m[i];
      AssignAllKeepsOthers(m', updates[1..], i);
    }
  }

  lemma {:induction false} AssignAllNoop(m: PrefMap, updates: seq<Entry>)
    requires forall i :: 0 <= i < |updates| ==> Lookup(m, updates[i].0) == Some(updates[i].1)
    ensures AssignAll(m, updates) == m
    decreases |updates|
  {
    if updates != [] {
      AssignSame(m, updates[0].0, updates[0].1);
      AssignAllNoop(m, updates[1..]);
    }
  }

  // ---------------------------------------------------------------------------
  // _merge_preferences

  /** Python truthiness of an optional string: present and not empty. */
  predicate Supplied(o: Option<string>) {
    o.Some? && o.value != ""
  }

  /** The value an extraction stores under `destination`, if any. */
  function StoredDestination(e: TripPreferences, known: KnownDestinations): Option<string> {
    if Supplied(e.destination) then Some(Normalize(e.destination.value, known)) else None
  }

  /** The value an extraction stores under `season`, if any. */
  function StoredSeason(e: TripPreferences): Option<string> {
    if Supplied(e.season) then Some(Lower(e.season.value)) else None
  }

  /** The value stored for a numeric field: `str(n)` whenever `n is not None`. */
  function StoredNumber(n: Option<int>): Option<string> {
    match n
    case Some(i) => Some(IntToDecimal(i))
    case None => None
  }

  /** One dict assignment, made only when there is a value to store. */
  function Part(k: string, v: Option<string>): seq<Entry> {
    match v
    case Some(x) => [(k, x)]
    case None => []
  }

  /** The assignments for the four fields, in the order the merge makes them. */
  function FieldUpdates(d: Option<string>, s: Option<string>, g: Option<string>, b: Option<string>)
    : (us: seq<Entry>)
    ensures KeysUnique(us)
  {
    var pd, ps, pg, pb := Part(DestinationKey, d), Part(SeasonKey, s), Part(GroupSizeKey, g), Part(BudgetKey, b);
    assert SeasonKey[0] != BudgetKey[0];
    assert KeysUnique(pd + ps) by {
      UniqueConcat(pd, ps);
    }
    assert KeysUnique(pd + ps + pg) by {
      UniqueConcat(pd + ps, pg);
    }
    assert KeysUnique(pd + ps + pg + pb) by {
      UniqueConcat(pd + ps + pg, pb);
    }
    pd + ps + pg + pb
  }

  /** The dict assignments an extraction asks for: at most one per field, each
      under its own key. */
  function SuppliedFields(e: TripPreferences, known: KnownDestinations): seq<Entry> {
    FieldUpdates(StoredDestination(e, known), StoredSeason(e), StoredNumber(e.groupSize), StoredNumber(e.budget))
  }

  /** Two unique-key lists with no key in common concatenate to a unique-key list. */
  lemma UniqueConcat(a: seq<Entry>, b: seq<Entry>)
    requires KeysUnique(a) && KeysUnique(b)
    requires forall i, j :: 0 <= i < |a| && 0 <= j < |b| ==> a[i].0 != b[j].0
    ensures KeysUnique(a + b)
  {
  }

  lemma {:induction false} AssignAllConcat(m: PrefMap, a: seq<Entry>, b: seq<Entry>)
    ensures AssignAll(m, a + b) == AssignAll(AssignAll(m, a), b)
    decreases |a|
  {
    if a == [] {
      assert a + b == b;
    } else {
      assert (a + b)[1..] == a[1..] + b;
      AssignAllConcat(Assign(m, a[0].0, a[0].1), a[1..], b);
    }
  }

  /** The four assignments, one stage per field. */
  lemma FieldUpdatesInStages(m: PrefMap, d: Option<string>, s: Option<string>, g: Option<string>, b: Option<string>)
    ensures AssignAll(m, FieldUpdates(d, s, g, b)) ==
      AssignAll(AssignAll(AssignAll(AssignAll(m, Part(DestinationKey, d)), Part(SeasonKey, s)),
                          Part(GroupSizeKey, g)), Part(BudgetKey, b))
  {
    var pd, ps, pg, pb := Part(DestinationKey, d), Part(SeasonKey, s), Part(GroupSizeKey, g), Part(BudgetKey, b);
    AssignAllConcat(m, pd + ps + pg, pb);
    AssignAllConcat(m, pd + ps, pg);
    AssignAllConcat(m, pd, ps);
  }

  /** One stage: a present value is assigned, an absent one changes nothing. */
  lemma PartLookup(m: PrefMap, k: string, v: Option<string>, k': string)
    ensures Lookup(AssignAll(m, Part(k, v)), k') == if k' == k && v.Some? then v else Lookup(m, k')
  {
    if v.Some? {
      assert AssignAll(m, Part(k, v)) == Assign(m, k, v.value);
      AssignLookup(m, k, v.value);
    }
  }

  /** After the four assignments each field's key holds its value when one was
      given, and every key keeps its old value otherwise. */
  lemma FieldUpdatesLookup(m: PrefMap, d: Option<string>, s: Option<string>, g: Option<string>, b: Option<string>, k: string)
    ensures Lookup(AssignAll(m, FieldUpdates(d, s, g, b)), k) ==
      if k == DestinationKey && d.Some? then d
      else if k == SeasonKey && s.Some? then s
      else if k == GroupSizeKey && g.Some? then g
      else if k == BudgetKey && b.Some? then b
      else Lookup(m, k)
  {
    assert SeasonKey[0] != BudgetKey[0];
    FieldUpdatesInStages(m, d, s, g, b);
    var m1 := AssignAll(m, Part(DestinationKey, d));
    var m2 := AssignAll(m1, Part(SeasonKey, s));
    var m3 := AssignAll(m2, Part(GroupSizeKey, g));
    PartLookup(m, DestinationKey, d, k);
    PartLookup(m1, SeasonKey, s, k);
    PartLookup(m2, GroupSizeKey, g, k);
    PartLookup(m3, BudgetKey, b, k);
  }

  /** The map `_merge_preferences(e, current)` returns. */
  function Merged(e: TripPreferences, current: PrefMap, known: KnownDestinations): PrefMap {
    AssignAll(current, SuppliedFields(e, known))
  }

  /** `_merge_preferences`: copy the current map, then assign each supplied field in turn. */
  method MergePreferences(extracted: TripPreferences, current: PrefMap, known: KnownDestinations)
    returns (updated: PrefMap)
    ensures updated == Merged(extracted, current, known)
  {
    FieldUpdatesInStages(current, StoredDestination(extracted, known), StoredSeason(extracted),
                         StoredNumber(extracted.groupSize), StoredNumber(extracted.budget));
    updated := current;

    if Supplied(extracted.destination) {
      var destination := NormalizeDestination(extracted.destination.value, known);
      updated := Assign(updated, DestinationKey, destination);
    }
    assert updated == AssignAll(current, Part(DestinationKey, StoredDestination(extracted, known)));
    ghost var stage := updated;

    if Supplied(extracted.season) {
      updated := Assign(updated, SeasonKey, Lower(extracted.season.value));
    }
    assert updated == AssignAll(stage, Part(SeasonKey, StoredSeason(extracted)));
    stage := updated;

    if extracted.groupSize.Some? {
      updated := Assign(updated, GroupSizeKey, IntToDecimal(extracted.groupSize.value));
    }
    assert updated == AssignAll(stage, Part(GroupSizeKey, StoredNumber(extracted.groupSize)));
    stage := updated;

    if extracted.budget.Some? {
      updated := Assign(updated, BudgetKey, IntToDecimal(extracted.budget.value));
    }
    assert updated == AssignAll(stage, Part(BudgetKey, StoredNumber(extracted.budget)));
  }

  /** Field by field: a supplied destination is stored normalised, a supplied
      season lower-cased, a present number as its decimal string (zero and
      negative values included); an absent or empty field, and every other
      key, keeps its current value. */
  lemma MergedLookup(e: TripPreferences, current: PrefMap, known: KnownDestinations)
    ensures Lookup(Merged(e, current, known), DestinationKey) ==
      if Supplied(e.destination) then Some(Normalize(e.destination.value, known))
      else Lookup(current, DestinationKey)
    ensures Lookup(Merged(e, current, known), SeasonKey) ==
      if Supplied(e.season) then Some(Lower(e.season.value)) else Lookup(current, SeasonKey)
    ensures Lookup(Merged(e, current, known), GroupSizeKey) ==
      if e.groupSize.Some? then Some(IntToDecimal(e.groupSize.value)) else Lookup(current, GroupSizeKey)
    ensures Lookup(Merged(e, current, known), BudgetKey) ==
      if e.budget.Some? then Some(IntToDecimal(e.budget.value)) else Lookup(current, BudgetKey)
    ensures forall k :: k !in [DestinationKey, SeasonKey, GroupSizeKey, BudgetKey] ==>
      Lookup(Merged(e, current, known), k) == Lookup(current, k)
  {
    var d, s, g, b := StoredDestination(e, known), StoredSeason(e), StoredNumber(e.groupSize), StoredNumber(e.budget);
    assert SeasonKey[0] != BudgetKey[0];
    FieldUpdatesLookup(current, d, s, g, b, DestinationKey);
    FieldUpdatesLookup(current, d, s, g, b, SeasonKey);
    FieldUpdatesLookup(current, d, s, g, b, GroupSizeKey);
    FieldUpdatesLookup(current, d, s, g, b, BudgetKey);
    forall k | k !in [DestinationKey, SeasonKey, GroupSizeKey, BudgetKey]
      ensures Lookup(Merged(e, current, known), k) == Lookup(current, k)
    {
      FieldUpdatesLookup(current, d, s, g, b, k);
    }
  }

  /** The merge never removes or reorders a key: the current keys come first,
      in their order, followed by the supplied keys that were new. */
  lemma MergedKeys(e: TripPreferences, current: PrefMap, known: KnownDestinations)
    ensures Keys(Merged(e, current, known)) ==
      Keys(current) + NewKeys(Keys(current), Keys(SuppliedFields(e, known)))
  {
    AssignAllKeys(current, SuppliedFields(e, known));
  }

  /** An entry whose key is none of the four fields keeps its value and position. */
  lemma MergedKeepsOtherEntries(e: TripPreferences, current: PrefMap, known: KnownDestinations, i: nat)
    requires i < |current| && current[i].0 !in [DestinationKey, SeasonKey, GroupSizeKey, BudgetKey]
    ensures i < |Merged(e, current, known)| && Merged(e, current, known)[i] == current[i]
  {
    var us := SuppliedFields(e, known);
    assert current[i].0 !in Keys(us) by {
      forall j | 0 <= j < |us| ensures us[j].0 != current[i].0 {
        FieldUpdatesKeys(StoredDestination(e, known), StoredSeason(e), StoredNumber(e.groupSize),
                         StoredNumber(e.budget), j);
      }
    }
    AssignAllKeepsOthers(current, us, i);
  }

  /** Every assignment the merge makes is to one of the four field keys. */
  lemma FieldUpdatesKeys(d: Option<string>, s: Option<string>, g: Option<string>, b: Option<string>, j: nat)
    requires j < |FieldUpdates(d, s, g, b)|
    ensures FieldUpdates(d, s, g, b)[j].0 in [DestinationKey, SeasonKey, GroupSizeKey, BudgetKey]
  {
    var pd, ps, pg, pb := Part(DestinationKey, d), Part(SeasonKey, s), Part(GroupSizeKey, g), Part(BudgetKey, b);
    var us := FieldUpdates(d, s, g, b);
    assert us == pd + ps + pg + pb;
  }

  /** An extraction with nothing usable in it (absent fields, or empty strings
      for destination and season) leaves the map as it is. */
  lemma MergeNothingSupplied(e: TripPreferences, current: PrefMap, known: KnownDestinations)
    requires !Supplied(e.destination) && !Supplied(e.season)
    requires e.groupSize.None? && e.budget.None?
    ensures Merged(e, current, known) == current
  {
    assert SuppliedFields(e, known) == [];
  }

  /** Merging the same extraction a second time changes nothing. */
  lemma MergeIdempotent(e: TripPreferences, current: PrefMap, known: KnownDestinations)
    ensures Merged(e, Merged(e, current, known), known) == Merged(e, current, known)
  {
    var us := SuppliedFields(e, known);
    var once := Merged(e, current, known);
    forall i | 0 <= i < |us|
      ensures Lookup(once, us[i].0) == Some(us[i].1)
    {
      assert Keys(us)[i] == us[i].0;
      AssignAllLookup(current, us, us[i].0);
      LookupIff(us, us[i].0, us[i].1);
    }
    AssignAllNoop(once, us);
  }

  // ---------------------------------------------------------------------------
  // extract_preferences

  /** `extract_preferences`, given the outcome of the extraction call: `None`
      when the call or the parse raised, which leaves the map unchanged. */
  method ExtractPreferences(outcome: Option<TripPreferences>, current: PrefMap, known: KnownDestinations)
    returns (r: PrefMap)
    ensures outcome.None? ==> r == current
    ensures outcome.Some? ==> r == Merged(outcome.value, current, known)
  {
    match outcome
    case None =>
      return current;
    case Some(result) =>
      r := MergePreferences(result, current, known);
  }

  // ---------------------------------------------------------------------------
  // preferences_to_text

  const NoPreferencesText := "No confirmed traveller preferences yet. " + "Ask follow-up questions to learn more."

  /** The fixed lead-in, including the three characters U+00E2 U+20AC U+201D
      that a mis-decoded em dash left in the literal. */
  const ConfirmedPrefix := "Confirmed traveller " + "preferences \U{00E2}\U{20AC}\U{201D} "

  function EntryText(e: Entry): string {
    e.0 + ": " + e.1
  }

  /** `", ".join(f"{key}: {value}" for key, value in m.items())` */
  function JoinEntries(m: seq<Entry>): string {
    if m == [] then ""
    else if |m| == 1 then EntryText(m[0])
    else EntryText(m[0]) + ", " + JoinEntries(m[1..])
  }

  /** `preferences_to_text` */
  function PreferencesToText(m: PrefMap): (text: string)
    ensures m == [] <==> text == NoPreferencesText
    ensures m != [] ==> StartsWith(text, ConfirmedPrefix) && text[|text| - 1] == '.'
    ensures m != [] ==> text == ConfirmedPrefix + JoinEntries(m) + "."
  {
    if m == [] then NoPreferencesText
    else
      var text := ConfirmedPrefix + JoinEntries(m) + ".";
      assert ConfirmedPrefix[0] == 'C' && text[0] == ConfirmedPrefix[0];
      assert NoPreferencesText[0] == 'N';
      text
  }

  /** Joining two non-empty runs of entries puts one separator between them. */
  lemma {:induction false} JoinConcat(a: seq<Entry>, b: seq<Entry>)
    requires a != [] && b != []
    ensures JoinEntries(a + b) == JoinEntries(a) + ", " + JoinEntries(b)
    decreases |a|
  {
    if |a| == 1 {
      assert (a + b)[1..] == b;
    } else {
      assert (a + b)[1..] == a[1..] + b;
      JoinConcat(a[1..], b);
    }
  }

  /** The entries are rendered in insertion order: the join of a run of two or
      more entries is the join of all but the last, a comma, and the last. */
  lemma JoinEntriesSnoc(m: seq<Entry>)
    requires |m| > 1
    ensures JoinEntries(m) == JoinEntries(m[..|m| - 1]) + ", " + EntryText(m[|m| - 1])
  {
    var init, last := m[..|m| - 1], m[|m| - 1];
    assert init + [last] == m;
    JoinConcat(init, [last]);
    assert JoinEntries([last]) == EntryText(last);
  }

  /** The rendering follows insertion order: a key appended to a non-empty map
      appears last, after a comma. */
  lemma RenderAppend(m: PrefMap, k: string, v: string)
    requires m != [] && k !in Keys(m)
    ensures PreferencesToText(Assign(m, k, v)) ==
      ConfirmedPrefix + (JoinEntries(m) + ", " + EntryText((k, v))) + "."
  {
    var r := Assign(m, k, v);
    assert r == m + [(k, v)];
    JoinConcat(m, [(k, v)]);
    var joined, last := JoinEntries(m), EntryText((k, v));
    assert JoinEntries(r) == joined + ", " + last;
  }

  /** A single entry renders as `key: value` between the lead-in and the full stop. */
  lemma RenderSingle(k: string, v: string)
    ensures PreferencesToText([(k, v)]) == ConfirmedPrefix + k + ": " + v + "."
  {
  }
}
