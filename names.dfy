/**
 * Dataset name allocation of the harvester base class: `_gen_new_name`
 * and `_ensure_name_is_unique`. The record store is the finite set of
 * package names; the title munger and the random uuid are parameters.
 */
module Names {
  import opened Text

  const PACKAGE_NAME_MAX_LENGTH: nat := 100
  const MAX_NUMBER_APPENDED: nat := 999
  const HEX_APPEND_CHARS: nat := 5

  /** The `append_type` argument: the two supported strategies, or any other string. */
  datatype AppendType = NumberSequence | RandomHex | OtherAppendType(given: string)

  /** A chosen name, the `None` returned when 1..999 are all taken, or the `NotImplementedError`. */
  datatype NameResult = Named(name: string) | NoNumberLeft | AppendTypeNotImplemented(given: string)

  /** `APPEND_MAX_CHARS`: `len(str(999))` for number sequences, 5 for random hex. */
  function AppendMaxChars(t: AppendType): (n: nat)
    requires !t.OtherAppendType?
    ensures n < PACKAGE_NAME_MAX_LENGTH
  {
    NatToStringLength(MAX_NUMBER_APPENDED);
    if t == NumberSequence then |NatToString(MAX_NUMBER_APPENDED)| else HEX_APPEND_CHARS
  }

  /** The prefix the store query looks names up by (the `like_q` pattern). */
  function LikePrefix(ideal: string, t: AppendType): string
    requires !t.OtherAppendType?
  {
    Take(ideal, PACKAGE_NAME_MAX_LENGTH - AppendMaxChars(t))
  }

  /** The `taken` set: store names with the query prefix, less the dataset's own existing name. */
  function Taken(store: set<string>, ideal: string, existing: Option<string>, t: AppendType): set<string>
    requires !t.OtherAppendType?
  {
    (set n | n in store && StartsWith(n, LikePrefix(ideal, t)))
      - (if Truthy(existing) then {existing.value} else {})
  }

  /** The candidate `ideal[:100-len(str(k))] + str(k)`. */
  function Numbered(ideal: string, k: nat): (r: string)
    requires 1 <= k <= MAX_NUMBER_APPENDED
    ensures |r| <= PACKAGE_NAME_MAX_LENGTH
  {
    NatToStringLength(k);
    Take(ideal, PACKAGE_NAME_MAX_LENGTH - |NatToString(k)|) + NatToString(k)
  }

  /** The least suffix from `k` up to 999 whose candidate is not taken. */
  function FirstFreeNumber(ideal: string, taken: set<string>, k: nat): (r: Option<nat>)
    requires 1 <= k
    decreases MAX_NUMBER_APPENDED + 1 - k
    ensures r.Some? ==> k <= r.value <= MAX_NUMBER_APPENDED && Numbered(ideal, r.value) !in taken
    ensures r.Some? ==> forall j :: k <= j < r.value ==> Numbered(ideal, j) in taken
    ensures r.None? ==> forall j :: k <= j <= MAX_NUMBER_APPENDED ==> Numbered(ideal, j) in taken
  {
    if k > MAX_NUMBER_APPENDED then None
    else if Numbered(ideal, k) !in taken then Some(k)
    else FirstFreeNumber(ideal, taken, k + 1)
  }

  /** What `_ensure_name_is_unique` returns, as a function of its inputs and the store. */
  function UniqueName(idealName: string, existing: Option<string>, appendType: AppendType,
                      store: set<string>, uuid4: string): NameResult
    requires |uuid4| >= HEX_APPEND_CHARS
  {
    var ideal := Take(idealName, PACKAGE_NAME_MAX_LENGTH);
    if existing == Some(ideal) then Named(ideal)
    else if appendType.OtherAppendType? then AppendTypeNotImplemented(appendType.given)
    else
      var taken := Taken(store, ideal, existing, appendType);
      if ideal !in taken then Named(ideal)
      else if Truthy(existing) && StartsWith(existing.value, ideal) then Named(existing.value)
      else if appendType == NumberSequence then
        match FirstFreeNumber(ideal, taken, 1)
        case Some(k) => Named(Numbered(ideal, k))
        case None => NoNumberLeft
      else Named(LikePrefix(ideal, RandomHex) + uuid4[..HEX_APPEND_CHARS])
  }

  /** The imperative search of the source: the `while counter` loop over the `taken` set. */
  method EnsureNameIsUnique(idealName: string, existing: Option<string>, appendType: AppendType,
                            store: set<string>, uuid4: string) returns (r: NameResult)
    requires |uuid4| >= HEX_APPEND_CHARS
    ensures r == UniqueName(idealName, existing, appendType, store, uuid4)
  {
    var ideal := Take(idealName, PACKAGE_NAME_MAX_LENGTH);
    if existing == Some(ideal) {
      return Named(ideal);
    }
    var appendMaxChars: nat;
    if appendType == NumberSequence {
      NatToStringLength(MAX_NUMBER_APPENDED);
      appendMaxChars := |NatToString(MAX_NUMBER_APPENDED)|;
    } else if appendType == RandomHex {
      appendMaxChars := HEX_APPEND_CHARS;
    } else {
      return AppendTypeNotImplemented(appendType.given);
    }
    var likePrefix := Take(ideal, PACKAGE_NAME_MAX_LENGTH - appendMaxChars);
    assert likePrefix == LikePrefix(ideal, appendType);
    var taken := set n | n in store && StartsWith(n, likePrefix);
    if Truthy(existing) && existing.value in taken {
      taken := taken - {existing.value};
    }
    assert taken == Taken(store, ideal, existing, appendType);
    if ideal !in taken {
      return Named(ideal);
    } else if Truthy(existing) && StartsWith(existing.value, ideal) {
      return Named(existing.value);
    } else if appendType == NumberSequence {
      r := NextFreeNumbered(ideal, taken);
    } else {
      return Named(likePrefix + uuid4[..appendMaxChars]);
    }
  }

  /** The `while counter <= MAX_NUMBER_APPENDED` loop: the first free numbered candidate. */
  method NextFreeNumbered(ideal: string, taken: set<string>) returns (r: NameResult)
    ensures r == match FirstFreeNumber(ideal, taken, 1)
                 case Some(k) => Named(Numbered(ideal, k))
                 case None => NoNumberLeft
  {
    var counter := 1;
    while counter <= MAX_NUMBER_APPENDED
      invariant 1 <= counter <= MAX_NUMBER_APPENDED + 1
      invariant FirstFreeNumber(ideal, taken, 1) == FirstFreeNumber(ideal, taken, counter)
    {
      NatToStringLength(counter);
      var candidate := Take(ideal, PACKAGE_NAME_MAX_LENGTH - |NatToString(counter)|) + NatToString(counter);
      if candidate !in taken {
        return Named(candidate);
      }
      counter := counter + 1;
    }
    return NoNumberLeft;
  }

  // ---------------------------------------------------------------------------
  // `_gen_new_name`: munge the title, collapse runs of dashes, then allocate.

  /** `re.sub('-+', '-', s)`, scanning with a flag that says the previous kept character was a dash. */
  function CollapseFrom(s: string, afterDash: bool): string {
    if s == [] then []
    else if s[0] == '-' then
      (if afterDash then [] else "-") + CollapseFrom(s[1..], true)
    else [s[0]] + CollapseFrom(s[1..], false)
  }

  function CollapseDashes(s: string): string {
    CollapseFrom(s, false)
  }

  predicate NoDoubleDash(s: string) {
    forall i :: 0 <= i < |s| - 1 ==> !(s[i] == '-' && s[i + 1] == '-')
  }

  /** `s` with every dash removed. */
  function Undashed(s: string): string {
    if s == [] then [] else (if s[0] == '-' then [] else [s[0]]) + Undashed(s[1..])
  }

  /** The collapsed name never holds two dashes in a row. */
  lemma {:induction false} CollapseLeavesNoDoubleDash(s: string, afterDash: bool)
    ensures NoDoubleDash(CollapseFrom(s, afterDash))
    ensures afterDash ==> CollapseFrom(s, afterDash) == [] || CollapseFrom(s, afterDash)[0] != '-'
  {
    if s != [] {
      CollapseLeavesNoDoubleDash(s[1..], s[0] == '-');
    }
  }

  /** Collapsing keeps every other character, in order. */
  lemma {:induction false} CollapseKeepsOtherChars(s: string, afterDash: bool)
    ensures Undashed(CollapseFrom(s, afterDash)) == Undashed(s)
  {
    if s != [] {
      CollapseKeepsOtherChars(s[1..], s[0] == '-');
      var rest := CollapseFrom(s[1..], s[0] == '-');
      if s[0] == '-' {
        UndashedAppend(if afterDash then [] else "-", rest);
      } else {
        UndashedAppend([s[0]], rest);
      }
    }
  }

  lemma {:induction false} UndashedAppend(a: string, b: string)
    ensures Undashed(a + b) == Undashed(a) + Undashed(b)
  {
    if a != [] {
      var head: string := if a[0] == '-' then [] else [a[0]];
      assert (a + b)[0] == a[0];
      assert (a + b)[1..] == a[1..] + b;
      UndashedAppend(a[1..], b);
      calc {
        Undashed(a + b);
        head + Undashed(a[1..] + b);
        head + (Undashed(a[1..]) + Undashed(b));
        (head + Undashed(a[1..])) + Undashed(b);
        Undashed(a) + Undashed(b);
      }
    } else {
      assert a + b == b;
    }
  }

  /** A name without double dashes is left as it is. */
  lemma {:induction false} CollapseFixesCollapsed(s: string)
    requires NoDoubleDash(s)
    ensures CollapseDashes(s) == s
  {
    CollapseFromFixes(s, false);
  }

  lemma {:induction false} CollapseFromFixes(s: string, afterDash: bool)
    requires NoDoubleDash(s)
    requires afterDash ==> s == [] || s[0] != '-'
    ensures CollapseFrom(s, afterDash) == s
  {
    if s != [] {
      assert NoDoubleDash(s[1..]);
      CollapseFromFixes(s[1..], s[0] == '-');
    }
  }

  /** `_gen_new_name`: the munged, dash-collapsed title given to `_ensure_name_is_unique`. */
  method GenNewName(title: string, existing: Option<string>, appendType: AppendType,
                    store: set<string>, uuid4: string, mungeTitleToName: string -> string)
    returns (r: NameResult)
    requires |uuid4| >= HEX_APPEND_CHARS
    ensures r == UniqueName(CollapseDashes(mungeTitleToName(title)), existing, appendType, store, uuid4)
  {
    var idealName := CollapseDashes(mungeTitleToName(title));
    r := EnsureNameIsUnique(idealName, existing, appendType, store, uuid4);
  }

  // ---------------------------------------------------------------------------
  // Properties of the allocation.

  /** A name is free for this dataset when no other package holds it. */
  predicate Available(n: string, store: set<string>, existing: Option<string>) {
    n !in store || (Truthy(existing) && existing.value == n)
  }

  lemma TakenMembership(store: set<string>, ideal: string, existing: Option<string>, t: AppendType, c: string)
    requires !t.OtherAppendType?
    requires StartsWith(c, LikePrefix(ideal, t))
    ensures c in Taken(store, ideal, existing, t) <==> !Available(c, store, existing)
  {
  }

  lemma NumberedHasLikePrefix(ideal: string, k: nat)
    requires 1 <= k <= MAX_NUMBER_APPENDED
    ensures StartsWith(Numbered(ideal, k), LikePrefix(ideal, NumberSequence))
  {
    NatToStringLength(k);
    NatToStringLength(MAX_NUMBER_APPENDED);
    var p := LikePrefix(ideal, NumberSequence);
    var c := Numbered(ideal, k);
    assert c[..|p|] == p;
  }

  /** Every name returned is at most 100 characters, given the existing name is a valid package name. */
  lemma UniqueNameLength(idealName: string, existing: Option<string>, appendType: AppendType,
                         store: set<string>, uuid4: string)
    requires |uuid4| >= HEX_APPEND_CHARS
    requires existing.Some? ==> |existing.value| <= PACKAGE_NAME_MAX_LENGTH
    ensures var r := UniqueName(idealName, existing, appendType, store, uuid4);
      r.Named? ==> |r.name| <= PACKAGE_NAME_MAX_LENGTH
  {
  }

  /** An existing name equal to the truncated ideal name is kept, whatever the store and strategy. */
  lemma UniqueNameKeepsCurrentName(idealName: string, appendType: AppendType, store: set<string>, uuid4: string)
    requires |uuid4| >= HEX_APPEND_CHARS
    ensures var ideal := Take(idealName, PACKAGE_NAME_MAX_LENGTH);
      UniqueName(idealName, Some(ideal), appendType, store, uuid4) == Named(ideal)
  {
  }

  /** An unknown strategy raises, unless the existing name already is the ideal one. */
  lemma UniqueNameRejectsUnknownStrategy(idealName: string, existing: Option<string>, given: string,
                                         store: set<string>, uuid4: string)
    requires |uuid4| >= HEX_APPEND_CHARS
    requires existing != Some(Take(idealName, PACKAGE_NAME_MAX_LENGTH))
    ensures UniqueName(idealName, existing, OtherAppendType(given), store, uuid4) == AppendTypeNotImplemented(given)
  {
  }

  /** The ideal name is used whenever no other package holds it. */
  lemma UniqueNameIdealWhenFree(idealName: string, existing: Option<string>, appendType: AppendType,
                                store: set<string>, uuid4: string)
    requires |uuid4| >= HEX_APPEND_CHARS
    requires !appendType.OtherAppendType?
    requires Available(Take(idealName, PACKAGE_NAME_MAX_LENGTH), store, existing)
    ensures UniqueName(idealName, existing, appendType, store, uuid4) == Named(Take(idealName, PACKAGE_NAME_MAX_LENGTH))
  {
    var ideal := Take(idealName, PACKAGE_NAME_MAX_LENGTH);
    assert StartsWith(ideal, LikePrefix(ideal, appendType));
    TakenMembership(store, ideal, existing, appendType, ideal);
  }

  /** When the ideal name is held by another package, an existing name extending it is kept. */
  lemma UniqueNameKeepsPrefixedName(idealName: string, existing: string, appendType: AppendType,
                                    store: set<string>, uuid4: string)
    requires |uuid4| >= HEX_APPEND_CHARS
    requires !appendType.OtherAppendType? && existing != ""
    requires !Available(Take(idealName, PACKAGE_NAME_MAX_LENGTH), store, Some(existing))
    requires StartsWith(existing, Take(idealName, PACKAGE_NAME_MAX_LENGTH))
    ensures UniqueName(idealName, Some(existing), appendType, store, uuid4) == Named(existing)
  {
    var ideal := Take(idealName, PACKAGE_NAME_MAX_LENGTH);
    assert StartsWith(ideal, LikePrefix(ideal, appendType));
    TakenMembership(store, ideal, Some(existing), appendType, ideal);
  }

  /**
   * Otherwise the number-sequence strategy takes the least suffix 1..999
   * whose candidate is free, and gives up only when all 999 are held.
   */
  lemma UniqueNameLeastFreeNumber(idealName: string, existing: Option<string>, store: set<string>, uuid4: string)
    requires |uuid4| >= HEX_APPEND_CHARS
    requires existing != Some(Take(idealName, PACKAGE_NAME_MAX_LENGTH))
    requires !Available(Take(idealName, PACKAGE_NAME_MAX_LENGTH), store, existing)
    requires !(Truthy(existing) && StartsWith(existing.value, Take(idealName, PACKAGE_NAME_MAX_LENGTH)))
    ensures var ideal := Take(idealName, PACKAGE_NAME_MAX_LENGTH);
      var r := UniqueName(idealName, existing, NumberSequence, store, uuid4);
      (r.Named? ==>
         exists k :: 1 <= k <= MAX_NUMBER_APPENDED && r.name == Numbered(ideal, k) &&
           Available(Numbered(ideal, k), store, existing) &&
           forall j :: 1 <= j < k ==> !Available(Numbered(ideal, j), store, existing)) &&
      (r == NoNumberLeft <==> forall j :: 1 <= j <= MAX_NUMBER_APPENDED ==> !Available(Numbered(ideal, j), store, existing))
  {
    var ideal := Take(idealName, PACKAGE_NAME_MAX_LENGTH);
    var taken := Taken(store, ideal, existing, NumberSequence);
    assert StartsWith(ideal, LikePrefix(ideal, NumberSequence));
    TakenMembership(store, ideal, existing, NumberSequence, ideal);
    forall j | 1 <= j <= MAX_NUMBER_APPENDED
      ensures Numbered(ideal, j) in taken <==> !Available(Numbered(ideal, j), store, existing)
    {
      NumberedHasLikePrefix(ideal, j);
      TakenMembership(store, ideal, existing, NumberSequence, Numbered(ideal, j));
    }
    var r := UniqueName(idealName, existing, NumberSequence, store, uuid4);
    match FirstFreeNumber(ideal, taken, 1)
    case Some(k) =>
      assert r == Named(Numbered(ideal, k));
    case None =>
  }

  /** A number-sequence name never collides with another package's name. */
  lemma NumberSequenceIsCollisionFree(idealName: string, existing: Option<string>, store: set<string>, uuid4: string)
    requires |uuid4| >= HEX_APPEND_CHARS
    ensures var r := UniqueName(idealName, existing, NumberSequence, store, uuid4);
      r.Named? ==> Available(r.name, store, existing) || existing == Some(r.name)
  {
    var ideal := Take(idealName, PACKAGE_NAME_MAX_LENGTH);
    var taken := Taken(store, ideal, existing, NumberSequence);
    var r := UniqueName(idealName, existing, NumberSequence, store, uuid4);
    if existing != Some(ideal) {
      assert StartsWith(ideal, LikePrefix(ideal, NumberSequence));
      TakenMembership(store, ideal, existing, NumberSequence, ideal);
      if ideal in taken && !(Truthy(existing) && StartsWith(existing.value, ideal)) {
        match FirstFreeNumber(ideal, taken, 1)
        case Some(k) =>
          NumberedHasLikePrefix(ideal, k);
          TakenMembership(store, ideal, existing, NumberSequence, Numbered(ideal, k));
        case None =>
      }
    }
  }

  /** The random-hex strategy appends the uuid's first five characters to the first 95 of the name. */
  lemma RandomHexSuffix(idealName: string, existing: Option<string>, store: set<string>, uuid4: string)
    requires |uuid4| >= HEX_APPEND_CHARS
    requires existing != Some(Take(idealName, PACKAGE_NAME_MAX_LENGTH))
    requires !Available(Take(idealName, PACKAGE_NAME_MAX_LENGTH), store, existing)
    requires !(Truthy(existing) && StartsWith(existing.value, Take(idealName, PACKAGE_NAME_MAX_LENGTH)))
    ensures var r := UniqueName(idealName, existing, RandomHex, store, uuid4);
      r == Named(Take(idealName, PACKAGE_NAME_MAX_LENGTH - HEX_APPEND_CHARS) + uuid4[..HEX_APPEND_CHARS])
      && |r.name| <= PACKAGE_NAME_MAX_LENGTH
  {
    var ideal := Take(idealName, PACKAGE_NAME_MAX_LENGTH);
    assert StartsWith(ideal, LikePrefix(ideal, RandomHex));
    TakenMembership(store, ideal, existing, RandomHex, ideal);
    assert LikePrefix(ideal, RandomHex) == Take(ideal, PACKAGE_NAME_MAX_LENGTH - HEX_APPEND_CHARS);
    assert Take(ideal, PACKAGE_NAME_MAX_LENGTH - HEX_APPEND_CHARS)
        == Take(idealName, PACKAGE_NAME_MAX_LENGTH - HEX_APPEND_CHARS);
  }

  /** The scenarios of the base-class test suite. */
  lemma {:induction false} TestSuiteScenarios(uuid4: string)
    requires |uuid4| >= HEX_APPEND_CHARS
    ensures UniqueName("trees", None, NumberSequence, {"unrelated"}, uuid4) == Named("trees")
    ensures UniqueName("trees", None, NumberSequence, {"trees"}, uuid4) == Named("trees1")
    ensures UniqueName("trees", None, NumberSequence, {"trees", "trees1"}, uuid4) == Named("trees2")
    ensures UniqueName("trees", Some("trees2"), NumberSequence, {"trees", "trees2"}, uuid4) == Named("trees2")
    ensures UniqueName("frogs", Some("trees2"), NumberSequence, {"trees", "trees2", "frogs"}, uuid4) == Named("frogs1")
  {
    assert NatToString(1) == "1" && NatToString(2) == "2";
    assert Numbered("trees", 1) == "trees1";
    assert Numbered("trees", 2) == "trees2";
    assert Numbered("frogs", 1) == "frogs1";
    UniqueNameIdealWhenFree("trees", None, NumberSequence, {"unrelated"}, uuid4);
    UniqueNameKeepsPrefixedName("trees", "trees2", NumberSequence, {"trees", "trees2"}, uuid4);
    assert "trees" in Taken({"trees"}, "trees", None, NumberSequence);
    assert "trees" in Taken({"trees", "trees1"}, "trees", None, NumberSequence);
    assert "trees1" in Taken({"trees", "trees1"}, "trees", None, NumberSequence);
    assert "frogs" in Taken({"trees", "trees2", "frogs"}, "frogs", Some("trees2"), NumberSequence);
    assert !StartsWith("trees2", "frogs");
  }
}
