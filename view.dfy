/**
 * The two checks of the harvest source controller: `is_uuid`, a test of a
 * reference against the pattern `[0-9a-f]{8}-[0-9a-f]{4}-[0-9a-f]{4}-[0-9a-f]{4}-[0-9a-f]{12}`
 * with `re.match` (anchored at the start only), and `_check_data_dict`, which
 * fills in the posting user and refuses a form with schema fields missing.
 */
module FormChecks {
  import opened Text

  // ---------------------------------------------------------------------------
  // is_uuid

  /** The matcher for `[0-9a-f]{n}`: what follows `n` lowercase hex digits at the start of `s`. */
  function HexRun(s: string, n: nat): (rest: Option<string>)
    ensures rest.Some? <==> |s| >= n && forall i :: 0 <= i < n ==> IsLowerHexDigit(s[i])
    ensures rest.Some? ==> rest.value == s[n..]
  {
    if n == 0 then Some(s)
    else if s != [] && IsLowerHexDigit(s[0]) then HexRun(s[1..], n - 1)
    else None
  }

  /** The matcher for a literal `-`. */
  function Dash(s: string): (rest: Option<string>)
    ensures rest.Some? <==> |s| >= 1 && s[0] == '-'
    ensures rest.Some? ==> rest.value == s[1..]
  {
    if s != [] && s[0] == '-' then Some(s[1..]) else None
  }

  /**
   * `re.match` of the pattern: hex runs of the lengths in `groups`, separated
   * by dashes, at the start of `s`; whatever follows is ignored.
   */
  function MatchGroups(s: string, groups: seq<nat>): bool
    decreases |groups|
  {
    if groups == [] then true
    else match HexRun(s, groups[0])
      case None => false
      case Some(rest) =>
        if |groups| == 1 then true
        else match Dash(rest)
          case None => false
          case Some(next) => MatchGroups(next, groups[1..])
  }

  const UUID_GROUPS: seq<nat> := [8, 4, 4, 4, 12]

  /** `is_uuid(ref)`. */
  function IsUuid(ref: string): bool {
    MatchGroups(ref, UUID_GROUPS)
  }

  /** The positions of the dashes in a uuid's canonical text form. */
  predicate DashAt(i: int) {
    i == 8 || i == 13 || i == 18 || i == 23
  }

  /**
   * The canonical text form, character by character: 36 characters, dashes
   * at positions 8, 13, 18 and 23, lowercase hex digits elsewhere.
   */
  predicate UuidShape(s: string) {
    |s| == 36 && forall i :: 0 <= i < 36 ==> if DashAt(i) then s[i] == '-' else IsLowerHexDigit(s[i])
  }

  /** The pattern of hex runs and dashes a group list spells out, as positions in the text. */
  function Layout(groups: seq<nat>): (l: seq<bool>)
    decreases |groups|
  {
    if groups == [] then []
    else if |groups| == 1 then seq(groups[0], _ => true)
    else seq(groups[0], _ => true) + [false] + Layout(groups[1..])
  }

  /** `s` starts with text following `layout`: hex digits where it says true, dashes where false. */
  predicate Fits(s: string, layout: seq<bool>) {
    |s| >= |layout| && forall i :: 0 <= i < |layout| ==> if layout[i] then IsLowerHexDigit(s[i]) else s[i] == '-'
  }

  /** The matcher accepts exactly the strings whose start fits the layout. */
  lemma {:induction false} MatchGroupsFits(s: string, groups: seq<nat>)
    ensures MatchGroups(s, groups) <==> Fits(s, Layout(groups))
    decreases |groups|
  {
    if groups == [] || |groups| == 1 {
      return;
    }
    var n := groups[0];
    var run := seq(n, _ => true);
    var layout := Layout(groups);
    assert layout == run + [false] + Layout(groups[1..]);
    if |s| >= n + 1 && s[n] == '-' {
      var next := s[n + 1..];
      MatchGroupsFits(next, groups[1..]);
      if Fits(s, layout) {
        forall i | 0 <= i < n ensures IsLowerHexDigit(s[i]) {
          assert layout[i];
        }
        assert HexRun(s, n) == Some(s[n..]);
        assert Dash(s[n..]) == Some(next);
        forall i | 0 <= i < |Layout(groups[1..])|
          ensures if Layout(groups[1..])[i] then IsLowerHexDigit(next[i]) else next[i] == '-'
        {
          assert layout[n + 1 + i] == Layout(groups[1..])[i];
        }
      }
      if MatchGroups(s, groups) {
        assert HexRun(s, n) == Some(s[n..]);
        forall i | 0 <= i < |layout| ensures if layout[i] then IsLowerHexDigit(s[i]) else s[i] == '-' {
          if n + 1 <= i {
            assert layout[i] == Layout(groups[1..])[i - n - 1];
            assert s[i] == next[i - n - 1];
          }
        }
      }
    } else {
      if |s| >= n + 1 {
        assert !layout[n];
      }
    }
  }

  /** The layout of the uuid pattern is the canonical text form. */
  lemma UuidLayout()
    ensures |Layout(UUID_GROUPS)| == 36
    ensures forall i :: 0 <= i < 36 ==> Layout(UUID_GROUPS)[i] == !DashAt(i)
  {
    var h4 := seq(4, _ => true);
    assert Layout([12]) == seq(12, _ => true);
    assert Layout([4, 12]) == h4 + [false] + Layout([12]) by { assert [4, 12][1..] == [12]; }
    assert Layout([4, 4, 12]) == h4 + [false] + Layout([4, 12]) by { assert [4, 4, 12][1..] == [4, 12]; }
    assert Layout([4, 4, 4, 12]) == h4 + [false] + Layout([4, 4, 12]) by { assert [4, 4, 4, 12][1..] == [4, 4, 12]; }
    assert Layout(UUID_GROUPS) == seq(8, _ => true) + [false] + Layout([4, 4, 4, 12]) by {
      assert UUID_GROUPS[1..] == [4, 4, 4, 12];
    }
  }

  /**
   * `is_uuid` holds exactly when the reference begins with a uuid in its
   * canonical lowercase form.
   */
  lemma IsUuidSpec(ref: string)
    ensures IsUuid(ref) <==> |ref| >= 36 && UuidShape(ref[..36])
  {
    MatchGroupsFits(ref, UUID_GROUPS);
    UuidLayout();
    if |ref| >= 36 && UuidShape(ref[..36]) {
      forall i | 0 <= i < 36 ensures if Layout(UUID_GROUPS)[i] then IsLowerHexDigit(ref[i]) else ref[i] == '-' {
        assert ref[..36][i] == ref[i];
      }
    }
  }

  /** Because `re.match` anchors only at the start, anything may follow a uuid. */
  lemma UuidWithSuffix(u: string, suffix: string)
    requires UuidShape(u)
    ensures IsUuid(u + suffix)
  {
    IsUuidSpec(u + suffix);
    assert (u + suffix)[..36] == u;
  }

  /** Fewer than 36 characters never match. */
  lemma ShortRefIsNotUuid(ref: string)
    requires |ref| < 36
    ensures !IsUuid(ref)
  {
    IsUuidSpec(ref);
  }

  /** An uppercase hex digit anywhere in the first 36 characters is refused. */
  lemma UppercaseIsNotUuid(ref: string, i: nat)
    requires i < |ref| && i < 36 && 'A' <= ref[i] <= 'F'
    ensures !IsUuid(ref)
  {
    IsUuidSpec(ref);
    if |ref| >= 36 {
      assert ref[..36][i] == ref[i];
    }
  }

  // ---------------------------------------------------------------------------
  // _check_data_dict

  /** Schema fields the form does not have to post. */
  const SURPLUS_KEYS: set<string> := {"id", "publisher_id", "user_id", "config", "save"}

  /** The schema fields missing from the posted form (`keys_in_schema - set(data_dict.keys())`). */
  function MissingKeys(schemaKeys: set<string>, fields: map<string, Option<string>>): set<string> {
    schemaKeys - SURPLUS_KEYS - fields.Keys
  }

  /** The form after `user_id` is filled in with the logged-in user's id, when it is missing or empty. */
  function FillUser(fields: map<string, Option<string>>, user: Option<string>): map<string, Option<string>> {
    if !("user_id" in fields && Truthy(fields["user_id"])) && user.Some? then fields["user_id" := Some(user.value)]
    else fields
  }

  /** The posted form, which `_check_data_dict` updates in place. */
  class DataDict {
    var fields: map<string, Option<string>>

    constructor(fields: map<string, Option<string>>)
      ensures this.fields == fields
    {
      this.fields := fields;
    }
  }

  /**
   * `_check_data_dict(data_dict)`: `schemaKeys` are the keys of
   * `harvest_source_form_schema()` and `user` the logged-in user's id, if any;
   * `raised` is the exception for a form with fields missing.
   */
  method CheckDataDict(d: DataDict, schemaKeys: set<string>, user: Option<string>) returns (raised: bool)
    modifies d
    ensures d.fields == FillUser(old(d.fields), user)
    ensures raised <==> MissingKeys(schemaKeys, d.fields) != {}
  {
    var keysInSchema := schemaKeys - SURPLUS_KEYS;
    if !("user_id" in d.fields && Truthy(d.fields["user_id"])) {
      if user.Some? {
        d.fields := d.fields["user_id" := Some(user.value)];
      }
    }
    raised := keysInSchema - d.fields.Keys != {};
  }

  /**
   * Filling in the user touches `user_id` and nothing else; it keeps a
   * non-empty `user_id`; it leaves `user_id` set whenever there is a user;
   * and doing it twice is doing it once.
   */
  lemma FillUserSpec(fields: map<string, Option<string>>, user: Option<string>)
    ensures var r := FillUser(fields, user);
      && (forall k :: k != "user_id" ==> (k in r <==> k in fields))
      && (forall k :: k in fields && k != "user_id" ==> r[k] == fields[k])
      && ("user_id" in fields && Truthy(fields["user_id"]) ==> r == fields)
      && (user.Some? && user.value != "" ==> "user_id" in r && Truthy(r["user_id"]))
      && (user.None? ==> r == fields)
      && FillUser(r, user) == r
  {
  }

  /**
   * Whether `_check_data_dict` raises depends only on the fields posted:
   * filling in `user_id` never changes the verdict, since `user_id` is one of
   * the surplus keys. It raises exactly when a required field is absent.
   */
  lemma CheckVerdictIgnoresUser(schemaKeys: set<string>, fields: map<string, Option<string>>, user: Option<string>)
    ensures MissingKeys(schemaKeys, FillUser(fields, user)) == MissingKeys(schemaKeys, fields)
    ensures MissingKeys(schemaKeys, fields) != {} <==>
      exists k :: k in schemaKeys && k !in SURPLUS_KEYS && k !in fields
  {
  }

  /** A form posting every schema field passes, whatever it leaves out of the surplus keys. */
  lemma CompleteFormPasses(schemaKeys: set<string>, fields: map<string, Option<string>>)
    requires schemaKeys - SURPLUS_KEYS <= fields.Keys
    ensures MissingKeys(schemaKeys, fields) == {}
  {
  }
}
