/**
 * Tag clean-up of the harvester base module: `remove_duplicates_in_a_list`
 * and `munge_tags`. The tag munger of the record store is a parameter.
 */
module Tags {
  import opened Text

  predicate NoDuplicates<T(==,!new)>(xs: seq<T>) {
    forall i, j :: 0 <= i < j < |xs| ==> xs[i] != xs[j]
  }

  /**
   * The comprehension `[x for x in list_ if not (x in seen or seen_add(x))]`,
   * with `seen` the elements met so far: each element is kept the first time
   * it is met and recorded in `seen`.
   */
  function DedupFrom<T(==,!new)>(xs: seq<T>, seen: seq<T>): (r: seq<T>)
    ensures forall x :: x in r <==> x in xs && x !in seen
    ensures NoDuplicates(r)
  {
    if xs == [] then []
    else if xs[0] in seen then DedupFrom(xs[1..], seen)
    else
      var rest := DedupFrom(xs[1..], seen + [xs[0]]);
      assert xs[0] !in rest;
      [xs[0]] + rest
  }

  /** `remove_duplicates_in_a_list`. */
  function RemoveDuplicates<T(==,!new)>(xs: seq<T>): seq<T> {
    DedupFrom(xs, [])
  }

  /**
   * An independent statement of "keep the first occurrence, in order":
   * the last element is kept exactly when it does not occur before.
   */
  function KeepFirst<T(==,!new)>(xs: seq<T>): seq<T> {
    if xs == [] then []
    else
      var init := xs[..|xs| - 1];
      KeepFirst(init) + (if xs[|xs| - 1] in init then [] else [xs[|xs| - 1]])
  }

  lemma {:induction false} DedupFromSnoc<T(!new)>(xs: seq<T>, x: T, seen: seq<T>)
    ensures DedupFrom(xs + [x], seen) == DedupFrom(xs, seen) + (if x in xs || x in seen then [] else [x])
    decreases |xs|
  {
    if xs == [] {
      assert xs + [x] == [x];
      assert [x][1..] == [];
    } else {
      assert (xs + [x])[0] == xs[0] && (xs + [x])[1..] == xs[1..] + [x];
      if xs[0] in seen {
        DedupFromSnoc(xs[1..], x, seen);
      } else {
        DedupFromSnoc(xs[1..], x, seen + [xs[0]]);
      }
    }
  }

  /** The source's de-duplication keeps the first occurrence of each element, in order. */
  lemma {:induction false} RemoveDuplicatesKeepsFirst<T(!new)>(xs: seq<T>)
    ensures RemoveDuplicates(xs) == KeepFirst(xs)
    decreases |xs|
  {
    if xs != [] {
      var init := xs[..|xs| - 1];
      assert xs == init + [xs[|xs| - 1]];
      RemoveDuplicatesKeepsFirst(init);
      DedupFromSnoc(init, xs[|xs| - 1], []);
    }
  }

  /** Same elements, none twice; a list without repeats is returned as it is. */
  lemma {:induction false} RemoveDuplicatesSpec<T(!new)>(xs: seq<T>)
    ensures forall x :: x in RemoveDuplicates(xs) <==> x in xs
    ensures NoDuplicates(RemoveDuplicates(xs))
    ensures NoDuplicates(xs) ==> RemoveDuplicates(xs) == xs
    ensures RemoveDuplicates(RemoveDuplicates(xs)) == RemoveDuplicates(xs)
  {
    if NoDuplicates(xs) {
      NoDuplicatesFixed(xs, []);
    }
    NoDuplicatesFixed(RemoveDuplicates(xs), []);
  }

  lemma {:induction false} NoDuplicatesFixed<T(!new)>(xs: seq<T>, seen: seq<T>)
    requires NoDuplicates(xs) && forall x :: x in xs ==> x !in seen
    ensures DedupFrom(xs, seen) == xs
    decreases |xs|
  {
    if xs != [] {
      assert forall x :: x in xs[1..] ==> x != xs[0] by {
        forall x | x in xs[1..] ensures x != xs[0] {
          var k :| 0 <= k < |xs[1..]| && xs[1..][k] == x;
          assert xs[k + 1] == x;
        }
      }
      NoDuplicatesFixed(xs[1..], seen + [xs[0]]);
    }
  }

  // ---------------------------------------------------------------------------
  // munge_tags

  /**
   * An element of a package's `tags` list: something falsy (`None`, `{}`), a
   * dict with or without `name`, or a truthy value that is not a dict (a
   * string, say), which `t['name']` cannot index.
   */
  datatype TagEntry = Falsy | TagDict(name: Option<string>) | NotDict

  /** A truthy entry `t['name']` raises on: KeyError for a dict without `name`, TypeError for a non-dict. */
  predicate Unreadable(e: TagEntry) {
    e == TagDict(None) || e == NotDict
  }

  /** The package dict, as far as `munge_tags` touches it: the `tags` key, if present. */
  class PackageDict {
    var tags: Option<seq<TagEntry>>

    constructor (tags: Option<seq<TagEntry>>)
      ensures this.tags == tags
    {
      this.tags := tags;
    }
  }

  /**
   * `[munge_tag(t['name']) for t in tags if t]`: the munged names of the
   * truthy entries, or `None` when `t['name']` raises for one of them.
   */
  function MungeEach(entries: seq<TagEntry>, mungeTag: string -> string): (r: Option<seq<string>>)
    ensures r.None? <==> exists i :: 0 <= i < |entries| && Unreadable(entries[i])
    ensures r.Some? ==> forall n :: n in r.value <==>
      exists i :: 0 <= i < |entries| && entries[i].TagDict? && n == mungeTag(entries[i].name.value)
  {
    if entries == [] then Some([])
    else
      var rest := MungeEach(entries[1..], mungeTag);
      match entries[0]
      case Falsy => rest
      case TagDict(None) => None
      case NotDict => None
      case TagDict(Some(n)) => if rest.None? then None else Some([mungeTag(n)] + rest.value)
  }

  function DropPadding(names: seq<string>): (r: seq<string>)
    ensures forall n :: n in r <==> n in names && n != "__"
  {
    if names == [] then []
    else (if names[0] == "__" then [] else [names[0]]) + DropPadding(names[1..])
  }

  /** The tag names `munge_tags` leaves on the package, or `None` if it raises. */
  function MungedNames(tags: Option<seq<TagEntry>>, mungeTag: string -> string): Option<seq<string>> {
    var entries := if tags.Some? then tags.value else [];
    match MungeEach(entries, mungeTag)
    case None => None
    case Some(names) => Some(RemoveDuplicates(DropPadding(names)))
  }

  function AsTagDicts(names: seq<string>): (r: seq<TagEntry>)
    ensures |r| == |names| && forall i :: 0 <= i < |names| ==> r[i] == TagDict(Some(names[i]))
  {
    seq(|names|, i requires 0 <= i < |names| => TagDict(Some(names[i])))
  }

  /** `munge_tags(package_dict)`: rewrites `tags`, or raises and leaves the dict as it was. */
  method MungeTags(pkg: PackageDict, mungeTag: string -> string) returns (raised: bool)
    modifies pkg
    ensures raised <==> MungedNames(old(pkg.tags), mungeTag).None?
    ensures !raised ==> pkg.tags == Some(AsTagDicts(MungedNames(old(pkg.tags), mungeTag).value))
    ensures raised ==> pkg.tags == old(pkg.tags)
  {
    var entries := if pkg.tags.Some? then pkg.tags.value else [];
    var munged := MungeEach(entries, mungeTag);
    if munged.None? {
      return true;
    }
    var names := DropPadding(munged.value);
    names := RemoveDuplicates(names);
    pkg.tags := Some(AsTagDicts(names));
    return false;
  }

  /**
   * The tags `munge_tags` leaves: no padding tag `__`, no name twice, each
   * one the munged name of a tag of the package, and every munged name
   * other than `__` kept; it raises exactly when a truthy tag is not a dict
   * with a name.
   */
  lemma MungedNamesSpec(tags: Option<seq<TagEntry>>, mungeTag: string -> string)
    ensures var entries := if tags.Some? then tags.value else [];
      var r := MungedNames(tags, mungeTag);
      (r.None? <==> exists i :: 0 <= i < |entries| && Unreadable(entries[i]))
      && (r.Some? ==> "__" !in r.value && NoDuplicates(r.value))
      && (r.Some? ==> forall n :: n in r.value <==>
            (n != "__" && exists i :: 0 <= i < |entries| && entries[i].TagDict? && n == mungeTag(entries[i].name.value)))
  {
    var entries := if tags.Some? then tags.value else [];
    var m := MungeEach(entries, mungeTag);
    if m.Some? {
      RemoveDuplicatesSpec(DropPadding(m.value));
    }
  }

  lemma MungeEachNamed(n: string, rest: seq<TagEntry>, mungeTag: string -> string)
    requires MungeEach(rest, mungeTag).Some?
    ensures MungeEach([TagDict(Some(n))] + rest, mungeTag) == Some([mungeTag(n)] + MungeEach(rest, mungeTag).value)
  {
    var e := [TagDict(Some(n))] + rest;
    assert e[0] == TagDict(Some(n)) && e[1..] == rest;
  }

  lemma MungeEachGeo(mungeTag: string -> string)
    requires mungeTag("Geo") == "geo"
    ensures MungeEach([TagDict(Some("Geo"))], mungeTag) == Some(["geo"])
  {
    assert MungeEach([], mungeTag) == Some([]);
    MungeEachNamed("Geo", [], mungeTag);
    assert [TagDict(Some("Geo"))] + [] == [TagDict(Some("Geo"))];
    assert [mungeTag("Geo")] + [] == ["geo"];
  }

  /** `test_basic` of the base harvester's tests, for a munger that behaves as the record store's does there. */
  lemma MungeTagsBasic(mungeTag: string -> string)
    requires mungeTag("river quality") == "river-quality" && mungeTag("Geo") == "geo"
    ensures MungedNames(Some([TagDict(Some("river quality")), TagDict(Some("Geo"))]), mungeTag)
         == Some(["river-quality", "geo"])
  {
    var geo := [TagDict(Some("Geo"))];
    MungeEachGeo(mungeTag);
    MungeEachNamed("river quality", geo, mungeTag);
    assert [TagDict(Some("river quality"))] + geo == [TagDict(Some("river quality")), TagDict(Some("Geo"))];
    assert "river-quality" != "__" && "geo" != "__" && "river-quality" != "geo";
    assert DropPadding(["river-quality", "geo"]) == ["river-quality", "geo"] by {
      assert ["river-quality", "geo"][1..] == ["geo"];
    }
    RemoveDuplicatesSpec(["river-quality", "geo"]);
  }

  /** `test_blank` and `test_replaced`: a tag the munger pads to `__` is dropped. */
  lemma MungeTagsPadded(mungeTag: string -> string, name: string)
    requires mungeTag(name) == "__" && mungeTag("Geo") == "geo"
    ensures MungedNames(Some([TagDict(Some(name)), TagDict(Some("Geo"))]), mungeTag) == Some(["geo"])
  {
    var geo := [TagDict(Some("Geo"))];
    MungeEachGeo(mungeTag);
    MungeEachNamed(name, geo, mungeTag);
    assert [TagDict(Some(name))] + geo == [TagDict(Some(name)), TagDict(Some("Geo"))];
    assert DropPadding(["__", "geo"]) == ["geo"] by {
      assert ["__", "geo"][1..] == ["geo"];
      assert "geo" != "__";
    }
    RemoveDuplicatesSpec(["geo"]);
  }
}
