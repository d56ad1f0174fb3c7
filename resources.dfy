/**
 * `_match_resources_with_existing_ones`: give the remote resource dicts
 * the ids of existing resources, so that an update edits resources rather
 * than deleting and recreating them. Two greedy passes, first on
 * url + name + description, then on url alone; each existing resource is
 * consumed by at most one match.
 */
module Resources {
  import opened Text

  /** A remote resource dict: `id` only once matched (or if the remote sent one). */
  datatype RemoteResource = RemoteResource(
    id: Option<string>, url: string, name: Option<string>, description: Option<string>)

  /** An existing resource of the local dataset. */
  datatype ExistingResource = ExistingResource(
    id: string, url: string, name: Option<string>, description: Option<string>)

  datatype Pass = ExactPass | UrlPass

  /** The two `match_func` lambdas. */
  predicate Matches(r: RemoteResource, e: ExistingResource, pass: Pass) {
    r.url == e.url && (pass == UrlPass || (r.name == e.name && r.description == e.description))
  }

  /**
   * The matcher's working state: the resource dicts, the remote positions
   * left unmatched by the pass so far (`unmatched_res_dicts`), the existing
   * positions still free (`unmatched_existing_res_dicts`) and, as a record
   * of the run, which existing position each matched remote position took.
   */
  datatype Matching = Matching(res: seq<RemoteResource>, unmatched: seq<nat>, pool: seq<nat>, assign: map<nat, nat>)

  predicate IndicesBelow(xs: seq<nat>, n: nat) {
    forall q :: 0 <= q < |xs| ==> xs[q] < n
  }

  /** The positions, from `from` on, of the resource dicts without an `id`, in order. */
  function IndicesWithoutId(res: seq<RemoteResource>, from: nat): (r: seq<nat>)
    requires from <= |res|
    decreases |res| - from
    ensures forall q :: 0 <= q < |r| ==> from <= r[q] < |res| && res[r[q]].id.None?
    ensures forall i :: from <= i < |res| && res[i].id.None? ==> i in r
    ensures forall q, p :: 0 <= q < p < |r| ==> r[q] < r[p]
  {
    if from == |res| then []
    else (if res[from].id.None? then [from] else []) + IndicesWithoutId(res, from + 1)
  }

  function AllIndices(n: nat): (r: seq<nat>)
    ensures |r| == n && forall q :: 0 <= q < n ==> r[q] == q
  {
    seq(n, q => q)
  }

  /** The position in `pool` of the first existing resource that matches `r`. */
  function FirstMatch(r: RemoteResource, existing: seq<ExistingResource>, pool: seq<nat>, pass: Pass, from: nat): (k: Option<nat>)
    requires IndicesBelow(pool, |existing|) && from <= |pool|
    decreases |pool| - from
    ensures k.Some? ==> from <= k.value < |pool| && Matches(r, existing[pool[k.value]], pass)
    ensures k.Some? ==> forall q :: from <= q < k.value ==> !Matches(r, existing[pool[q]], pass)
    ensures k.None? ==> forall q :: from <= q < |pool| ==> !Matches(r, existing[pool[q]], pass)
  {
    if from == |pool| then None
    else if Matches(r, existing[pool[from]], pass) then Some(from)
    else FirstMatch(r, existing, pool, pass, from + 1)
  }

  function RemoveAt(xs: seq<nat>, k: nat): (r: seq<nat>)
    requires k < |xs|
    ensures |r| == |xs| - 1
    ensures forall q :: 0 <= q < |r| ==> r[q] == if q < k then xs[q] else xs[q + 1]
  {
    xs[..k] + xs[k + 1..]
  }

  /**
   * One iteration of `find_matches` on the dict at position `i`: take the
   * first free existing resource that matches, or leave `i` unmatched.
   * (The source removes the matched entries with `list.remove`, which drops
   * the first EQUAL entry; for the existing list that is the first match
   * itself, and the matched dict is the only one that now has an `id`.)
   */
  function Step(m: Matching, i: nat, existing: seq<ExistingResource>, pass: Pass): (r: Matching)
    requires i < |m.res| && IndicesBelow(m.pool, |existing|) && IndicesBelow(m.unmatched, |m.res|)
    ensures |r.res| == |m.res| && IndicesBelow(r.pool, |existing|) && IndicesBelow(r.unmatched, |r.res|)
    ensures forall p :: p in r.pool ==> p in m.pool
  {
    match FirstMatch(m.res[i], existing, m.pool, pass, 0)
    case None =>
      m.(unmatched := m.unmatched + [i])
    case Some(k) =>
      var e := m.pool[k];
      Matching(m.res[i := m.res[i].(id := Some(existing[e].id))], m.unmatched,
               RemoveAt(m.pool, k), m.assign[i := e])
  }

  /** One `find_matches` pass over the positions `todo`, in order. */
  function RunPass(m: Matching, todo: seq<nat>, existing: seq<ExistingResource>, pass: Pass): (r: Matching)
    requires IndicesBelow(todo, |m.res|) && IndicesBelow(m.pool, |existing|) && IndicesBelow(m.unmatched, |m.res|)
    decreases |todo|
    ensures |r.res| == |m.res| && IndicesBelow(r.pool, |existing|) && IndicesBelow(r.unmatched, |r.res|)
    ensures forall p :: p in r.pool ==> p in m.pool
  {
    if todo == [] then m
    else RunPass(Step(m, todo[0], existing, pass), todo[1..], existing, pass)
  }

  /** The whole of `_match_resources_with_existing_ones`, as a function of its inputs. */
  function MatchResources(res: seq<RemoteResource>, existing: seq<ExistingResource>): Matching {
    var todo := IndicesWithoutId(res, 0);
    var start := Start(res, existing);
    if todo == [] then start
    else
      var first := RunPass(start, todo, existing, ExactPass);
      RunPass(first.(unmatched := []), first.unmatched, existing, UrlPass)
  }

  // ---------------------------------------------------------------------------
  // The in-place algorithm.

  /** The inner `for existing_res_dict in ...: if match_func(...): ... break`. */
  method FindFirstMatch(r: RemoteResource, existing: seq<ExistingResource>, pool: seq<nat>, pass: Pass)
    returns (k: Option<nat>)
    requires IndicesBelow(pool, |existing|)
    ensures k == FirstMatch(r, existing, pool, pass, 0)
  {
    var j := 0;
    while j < |pool|
      invariant 0 <= j <= |pool|
      invariant FirstMatch(r, existing, pool, pass, 0) == FirstMatch(r, existing, pool, pass, j)
    {
      if Matches(r, existing[pool[j]], pass) {
        return Some(j);
      }
      j := j + 1;
    }
    return None;
  }

  /** `find_matches(match_func)`: writes ids into `resDicts` and returns the lists left unmatched. */
  method FindMatches(resDicts: array<RemoteResource>, existing: seq<ExistingResource>,
                     todo: seq<nat>, pool: seq<nat>, ghost assign: map<nat, nat>, pass: Pass)
    returns (unmatched: seq<nat>, unused: seq<nat>, ghost taken: map<nat, nat>)
    requires IndicesBelow(todo, resDicts.Length) && IndicesBelow(pool, |existing|)
    modifies resDicts
    ensures Matching(resDicts[..], unmatched, unused, taken)
         == RunPass(Matching(old(resDicts[..]), [], pool, assign), todo, existing, pass)
  {
    ghost var goal := RunPass(Matching(resDicts[..], [], pool, assign), todo, existing, pass);
    unmatched, unused, taken := [], pool, assign;
    var t := 0;
    while t < |todo|
      invariant 0 <= t <= |todo|
      invariant IndicesBelow(unused, |existing|) && IndicesBelow(unmatched, resDicts.Length)
      invariant goal == RunPass(Matching(resDicts[..], unmatched, unused, taken), todo[t..], existing, pass)
    {
      var i := todo[t];
      ghost var before := Matching(resDicts[..], unmatched, unused, taken);
      assert todo[t..][0] == i && todo[t..][1..] == todo[t + 1..];
      var k := FindFirstMatch(resDicts[i], existing, unused, pass);
      if k.Some? {
        resDicts[i] := resDicts[i].(id := Some(existing[unused[k.value]].id));
        taken := taken[i := unused[k.value]];
        unused := RemoveAt(unused, k.value);
      } else {
        unmatched := unmatched + [i];
      }
      assert Matching(resDicts[..], unmatched, unused, taken) == Step(before, i, existing, pass);
      t := t + 1;
    }
  }

  /** The source's entry point: edits `resDicts` in place. */
  method MatchResourcesWithExistingOnes(resDicts: array<RemoteResource>, existing: seq<ExistingResource>)
    modifies resDicts
    ensures resDicts[..] == MatchResources(old(resDicts[..]), existing).res
  {
    var unmatched := IndicesWithoutId(resDicts[..], 0);
    if unmatched == [] {
      return;
    }
    var unused := AllIndices(|existing|);
    ghost var taken: map<nat, nat> := map[];
    unmatched, unused, taken := FindMatches(resDicts, existing, unmatched, unused, taken, ExactPass);
    unmatched, unused, taken := FindMatches(resDicts, existing, unmatched, unused, taken, UrlPass);
  }

  // ---------------------------------------------------------------------------
  // Properties of the matching.

  /** `res` differs from `res0` at most in the `id`s. */
  ghost predicate SameButIds(res0: seq<RemoteResource>, res: seq<RemoteResource>) {
    |res| == |res0| && forall i :: 0 <= i < |res0| ==> res[i] == res0[i].(id := res[i].id)
  }

  /** The indices a step or a pass works on are in range. */
  predicate InRange(m: Matching, todo: seq<nat>, existing: seq<ExistingResource>) {
    IndicesBelow(todo, |m.res|) && IndicesBelow(m.pool, |existing|) && IndicesBelow(m.unmatched, |m.res|)
  }

  /**
   * The record of matches: a dict outside it is untouched; a dict in it
   * had no id and now carries the id of an existing resource with its url;
   * no existing resource is recorded twice.
   */
  ghost predicate Ledger(res0: seq<RemoteResource>, existing: seq<ExistingResource>, m: Matching)
    requires |m.res| == |res0|
  {
    (forall i :: 0 <= i < |res0| && i !in m.assign ==> m.res[i] == res0[i])
    && (forall i :: i in m.assign ==>
          i < |res0| && res0[i].id.None? && m.assign[i] < |existing|
          && m.res[i].id == Some(existing[m.assign[i]].id) && res0[i].url == existing[m.assign[i]].url)
    && (forall i, j :: i in m.assign && j in m.assign && i != j ==> m.assign[i] != m.assign[j])
  }

  /** The free existing positions: in range, distinct, not recorded, and with the recorded ones all of them. */
  ghost predicate FreePool(existing: seq<ExistingResource>, m: Matching) {
    (forall q :: 0 <= q < |m.pool| ==> m.pool[q] < |existing| && m.pool[q] !in m.assign.Values)
    && (forall q, p :: 0 <= q < p < |m.pool| ==> m.pool[q] != m.pool[p])
    && (forall p :: 0 <= p < |existing| ==> p in m.pool || p in m.assign.Values)
  }

  /** What holds of every state of the matcher against the original dicts `res0`. */
  ghost predicate Consistent(res0: seq<RemoteResource>, existing: seq<ExistingResource>, m: Matching) {
    SameButIds(res0, m.res) && Ledger(res0, existing, m) && FreePool(existing, m)
    && IndicesBelow(m.unmatched, |res0|)
  }

  /** The positions a pass is given are not matched yet and each occurs once. */
  ghost predicate Fresh(m: Matching, todo: seq<nat>) {
    (forall q :: 0 <= q < |todo| ==> todo[q] !in m.assign)
    && (forall q, p :: 0 <= q < p < |todo| ==> todo[q] != todo[p])
  }

  /** ... and are dicts without an id. */
  ghost predicate Pending(res0: seq<RemoteResource>, m: Matching, todo: seq<nat>) {
    Fresh(m, todo) && forall q :: 0 <= q < |todo| ==> todo[q] < |res0| && res0[todo[q]].id.None?
  }

  /** The bookkeeping of one step: which lists grow, and why a dict stays unmatched. */
  lemma StepShape(res0: seq<RemoteResource>, existing: seq<ExistingResource>, m: Matching, i: nat, pass: Pass)
    requires i < |m.res| && IndicesBelow(m.pool, |existing|) && IndicesBelow(m.unmatched, |m.res|)
    requires SameButIds(res0, m.res) && i !in m.assign
    ensures var r := Step(m, i, existing, pass);
      SameButIds(res0, r.res)
      && (forall j :: j != i ==> (j in r.assign <==> j in m.assign))
      && (i in r.assign ==> r.unmatched == m.unmatched)
      && (i !in r.assign ==>
            r.unmatched == m.unmatched + [i] && forall p :: p in r.pool ==> !Matches(res0[i], existing[p], pass))
  {
    var r := Step(m, i, existing, pass);
    assert m.res[i] == res0[i].(id := m.res[i].id);
    assert forall e :: Matches(m.res[i], e, pass) == Matches(res0[i], e, pass);
    if FirstMatch(m.res[i], existing, m.pool, pass, 0).None? {
      forall p | p in r.pool ensures !Matches(res0[i], existing[p], pass) {
        var q :| 0 <= q < |m.pool| && m.pool[q] == p;
      }
    }
  }

  /** What one step does to a consistent state. */
  lemma StepSound(res0: seq<RemoteResource>, existing: seq<ExistingResource>, m: Matching, i: nat, pass: Pass)
    requires Consistent(res0, existing, m) && i < |res0| && res0[i].id.None? && i !in m.assign
    ensures var r := Step(m, i, existing, pass);
      Consistent(res0, existing, r)
      && (forall j :: j in m.assign ==> j in r.assign && r.assign[j] == m.assign[j])
      && (forall j :: j in r.assign && j !in m.assign ==> j == i && Matches(res0[i], existing[r.assign[i]], pass))
  {
    var r := Step(m, i, existing, pass);
    StepShape(res0, existing, m, i, pass);
    StepLedger(res0, existing, m, i, pass);
    StepPool(m, i, existing, pass);
    if i in r.assign {
      assert m.res[i] == res0[i].(id := m.res[i].id);
    }
  }

  lemma StepLedger(res0: seq<RemoteResource>, existing: seq<ExistingResource>, m: Matching, i: nat, pass: Pass)
    requires SameButIds(res0, m.res) && Ledger(res0, existing, m)
    requires i < |res0| && res0[i].id.None? && i !in m.assign
    requires IndicesBelow(m.pool, |existing|) && IndicesBelow(m.unmatched, |m.res|)
    requires forall q :: 0 <= q < |m.pool| ==> m.pool[q] !in m.assign.Values
    ensures Ledger(res0, existing, Step(m, i, existing, pass))
  {
    var r := Step(m, i, existing, pass);
    match FirstMatch(m.res[i], existing, m.pool, pass, 0)
    case None =>
    case Some(k) =>
      assert m.res[i] == res0[i].(id := m.res[i].id);
      forall a, b | a in r.assign && b in r.assign && a != b
        ensures r.assign[a] != r.assign[b]
      {
        if a == i {
          assert m.assign[b] in m.assign.Values;
        } else if b == i {
          assert m.assign[a] in m.assign.Values;
        }
      }
  }

  lemma StepPool(m: Matching, i: nat, existing: seq<ExistingResource>, pass: Pass)
    requires i < |m.res| && IndicesBelow(m.unmatched, |m.res|) && i !in m.assign
    requires FreePool(existing, m)
    ensures FreePool(existing, Step(m, i, existing, pass))
  {
    StepPoolUntaken(m, i, existing, pass);
    StepCovers(m, i, existing, pass);
  }

  lemma StepPoolUntaken(m: Matching, i: nat, existing: seq<ExistingResource>, pass: Pass)
    requires i < |m.res| && IndicesBelow(m.unmatched, |m.res|) && IndicesBelow(m.pool, |existing|)
    requires forall q :: 0 <= q < |m.pool| ==> m.pool[q] !in m.assign.Values
    requires forall q, p :: 0 <= q < p < |m.pool| ==> m.pool[q] != m.pool[p]
    ensures var r := Step(m, i, existing, pass);
      (forall q :: 0 <= q < |r.pool| ==> r.pool[q] < |existing| && r.pool[q] !in r.assign.Values)
      && (forall q, p :: 0 <= q < p < |r.pool| ==> r.pool[q] != r.pool[p])
  {
    var r := Step(m, i, existing, pass);
    match FirstMatch(m.res[i], existing, m.pool, pass, 0)
    case None =>
    case Some(k) =>
      var e := m.pool[k];
      forall q | 0 <= q < |r.pool| ensures r.pool[q] !in r.assign.Values {
        assert r.pool[q] != e;
        assert r.pool[q] !in m.assign.Values;
      }
  }

  /** Every existing position stays either free or taken. */
  lemma StepCovers(m: Matching, i: nat, existing: seq<ExistingResource>, pass: Pass)
    requires i < |m.res| && IndicesBelow(m.pool, |existing|) && IndicesBelow(m.unmatched, |m.res|)
    requires i !in m.assign && forall p :: 0 <= p < |existing| ==> p in m.pool || p in m.assign.Values
    ensures var r := Step(m, i, existing, pass);
      forall p :: 0 <= p < |existing| ==> p in r.pool || p in r.assign.Values
  {
    var r := Step(m, i, existing, pass);
    match FirstMatch(m.res[i], existing, m.pool, pass, 0)
    case None =>
    case Some(k) =>
      var e := m.pool[k];
      forall p | 0 <= p < |existing| ensures p in r.pool || p in r.assign.Values {
        if p == e {
          assert r.assign[i] == e;
        } else if p in m.pool {
          var q :| 0 <= q < |m.pool| && m.pool[q] == p;
          assert p == r.pool[if q < k then q else q - 1];
        } else {
          var j :| j in m.assign && m.assign[j] == p;
          assert r.assign[j] == p;
        }
      }
  }

  /** A pass keeps the state consistent and only adds matches of its own positions, by its own rule. */
  lemma {:induction false} RunPassConsistent(res0: seq<RemoteResource>, existing: seq<ExistingResource>,
                                             m: Matching, todo: seq<nat>, pass: Pass)
    requires Consistent(res0, existing, m) && Pending(res0, m, todo)
    decreases |todo|
    ensures InRange(m, todo, existing)
    ensures var r := RunPass(m, todo, existing, pass);
      Consistent(res0, existing, r)
      && (forall i :: i in m.assign ==> i in r.assign && r.assign[i] == m.assign[i])
      && (forall i :: i in r.assign && i !in m.assign ==> i in todo && Matches(res0[i], existing[r.assign[i]], pass))
  {
    if todo != [] {
      var i := todo[0];
      StepSound(res0, existing, m, i, pass);
      var next := Step(m, i, existing, pass);
      assert Pending(res0, next, todo[1..]);
      RunPassConsistent(res0, existing, next, todo[1..], pass);
    }
  }

  /** The bookkeeping of a pass: `unmatched` only grows at its end, by positions of the pass. */
  lemma {:induction false} RunPassShape(res0: seq<RemoteResource>, existing: seq<ExistingResource>,
                                        m: Matching, todo: seq<nat>, pass: Pass)
    requires InRange(m, todo, existing) && SameButIds(res0, m.res) && Fresh(m, todo)
    decreases |todo|
    ensures var r := RunPass(m, todo, existing, pass);
      SameButIds(res0, r.res)
      && (forall j :: j in m.assign ==> j in r.assign)
      && (forall j :: j in r.assign && j !in m.assign ==> j in todo)
      && |m.unmatched| <= |r.unmatched| && r.unmatched[..|m.unmatched|] == m.unmatched
      && (forall q :: |m.unmatched| <= q < |r.unmatched| ==> r.unmatched[q] in todo)
  {
    if todo != [] {
      var i := todo[0];
      StepShape(res0, existing, m, i, pass);
      var next := Step(m, i, existing, pass);
      assert Fresh(next, todo[1..]);
      RunPassShape(res0, existing, next, todo[1..], pass);
      var r := RunPass(next, todo[1..], existing, pass);
      assert r.unmatched[..|m.unmatched|] == next.unmatched[..|m.unmatched|];
      forall q | |m.unmatched| <= q < |r.unmatched| ensures r.unmatched[q] in todo {
        if q < |next.unmatched| {
          assert r.unmatched[q] == next.unmatched[q] == i;
        } else {
          assert r.unmatched[q] in todo[1..];
        }
      }
    }
  }

  /**
   * A pass leaves unmatched exactly the positions it could not match, and
   * none of them matches an existing resource still free at its end.
   */
  lemma {:induction false} RunPassLeftovers(res0: seq<RemoteResource>, existing: seq<ExistingResource>,
                                            m: Matching, todo: seq<nat>, pass: Pass)
    requires InRange(m, todo, existing) && SameButIds(res0, m.res) && Fresh(m, todo)
    decreases |todo|
    ensures var r := RunPass(m, todo, existing, pass);
      |m.unmatched| <= |r.unmatched|
      && (forall q :: |m.unmatched| <= q < |r.unmatched| ==>
         r.unmatched[q] !in r.assign
         && forall p :: p in r.pool ==> !Matches(res0[r.unmatched[q]], existing[p], pass))
      && (forall t :: t in todo && t !in r.assign ==> t in r.unmatched[|m.unmatched|..])
  {
    if todo != [] {
      var i := todo[0];
      StepShape(res0, existing, m, i, pass);
      var next := Step(m, i, existing, pass);
      assert Fresh(next, todo[1..]);
      RunPassShape(res0, existing, next, todo[1..], pass);
      RunPassLeftovers(res0, existing, next, todo[1..], pass);
      var r := RunPass(next, todo[1..], existing, pass);
      assert i !in todo[1..];
      forall t | t in todo && t !in r.assign ensures t in r.unmatched[|m.unmatched|..] {
        if t != i {
          assert t in todo[1..];
          assert r.unmatched[|next.unmatched|..] == r.unmatched[|m.unmatched|..][|next.unmatched| - |m.unmatched|..];
        } else {
          assert r.unmatched[..|next.unmatched|] == next.unmatched;
          assert r.unmatched[|m.unmatched|] == next.unmatched[|m.unmatched|] == i;
        }
      }
      forall q | |m.unmatched| <= q < |next.unmatched| && q < |r.unmatched|
        ensures r.unmatched[q] !in r.assign
        ensures forall p :: p in r.pool ==> !Matches(res0[r.unmatched[q]], existing[p], pass)
      {
        assert r.unmatched[..|next.unmatched|] == next.unmatched;
        assert r.unmatched[q] == next.unmatched[q] == i;
      }
    }
  }

  /** A pass appends each of its unmatched positions once. */
  lemma {:induction false} UnmatchedDistinct(res0: seq<RemoteResource>, existing: seq<ExistingResource>,
                                             m: Matching, todo: seq<nat>, pass: Pass)
    requires InRange(m, todo, existing) && SameButIds(res0, m.res) && Fresh(m, todo)
    decreases |todo|
    ensures var u := RunPass(m, todo, existing, pass).unmatched;
      forall q, p :: |m.unmatched| <= q < p < |u| ==> u[q] != u[p]
  {
    if todo != [] {
      var i := todo[0];
      StepShape(res0, existing, m, i, pass);
      var next := Step(m, i, existing, pass);
      assert Fresh(next, todo[1..]);
      RunPassShape(res0, existing, next, todo[1..], pass);
      UnmatchedDistinct(res0, existing, next, todo[1..], pass);
      var u := RunPass(next, todo[1..], existing, pass).unmatched;
      forall q, p | |m.unmatched| <= q < p < |u| ensures u[q] != u[p] {
        if q < |next.unmatched| && p >= |next.unmatched| {
          assert u[..|next.unmatched|] == next.unmatched;
          assert u[q] == next.unmatched[q] == i;
          assert u[p] in todo[1..];
        }
      }
    }
  }

  function Start(res: seq<RemoteResource>, existing: seq<ExistingResource>): Matching {
    Matching(res, [], AllIndices(|existing|), map[])
  }

  /** The exact pass from the initial state keeps the state consistent and matches exactly. */
  lemma FirstPassConsistent(res: seq<RemoteResource>, existing: seq<ExistingResource>)
    requires IndicesWithoutId(res, 0) != []
    ensures InRange(Start(res, existing), IndicesWithoutId(res, 0), existing)
    ensures var first := RunPass(Start(res, existing), IndicesWithoutId(res, 0), existing, ExactPass);
      Consistent(res, existing, first)
      && (forall i :: i in first.assign ==> Matches(res[i], existing[first.assign[i]], ExactPass))
  {
    var todo := IndicesWithoutId(res, 0);
    var start := Start(res, existing);
    StartConsistent(res, existing);
    forall q, p | 0 <= q < p < |todo| ensures todo[q] != todo[p] {
      assert todo[q] < todo[p];
    }
    RunPassConsistent(res, existing, start, todo, ExactPass);
  }

  /** The exact pass hands the url pass distinct, unmatched dicts without ids. */
  lemma FirstPassPending(res: seq<RemoteResource>, existing: seq<ExistingResource>)
    requires IndicesWithoutId(res, 0) != []
    ensures InRange(Start(res, existing), IndicesWithoutId(res, 0), existing)
    ensures var first := RunPass(Start(res, existing), IndicesWithoutId(res, 0), existing, ExactPass);
      Pending(res, first.(unmatched := []), first.unmatched)
  {
    var todo := IndicesWithoutId(res, 0);
    var start := Start(res, existing);
    StartFresh(res, existing);
    var first := RunPass(start, todo, existing, ExactPass);
    RunPassLeftovers(res, existing, start, todo, ExactPass);
    RunPassShape(res, existing, start, todo, ExactPass);
    UnmatchedDistinct(res, existing, start, todo, ExactPass);
    forall q | 0 <= q < |first.unmatched|
      ensures first.unmatched[q] < |res| && res[first.unmatched[q]].id.None?
    {
      var x := first.unmatched[q];
      assert x in todo;
      var k :| 0 <= k < |todo| && todo[k] == x;
    }
  }

  /** A dict the exact pass leaves unmatched has no exact match among the existing resources it leaves free. */
  lemma FirstPassLeftovers(res: seq<RemoteResource>, existing: seq<ExistingResource>)
    requires IndicesWithoutId(res, 0) != []
    ensures InRange(Start(res, existing), IndicesWithoutId(res, 0), existing)
    ensures var first := RunPass(Start(res, existing), IndicesWithoutId(res, 0), existing, ExactPass);
      (forall i :: 0 <= i < |res| && res[i].id.None? && i !in first.assign ==> i in first.unmatched)
      && (forall i, p :: i in first.unmatched && p in first.pool ==> !Matches(res[i], existing[p], ExactPass))
  {
    var todo := IndicesWithoutId(res, 0);
    var start := Start(res, existing);
    StartFresh(res, existing);
    var first := RunPass(start, todo, existing, ExactPass);
    RunPassLeftovers(res, existing, start, todo, ExactPass);
    assert first.unmatched[0..] == first.unmatched;
    forall i, p | i in first.unmatched && p in first.pool ensures !Matches(res[i], existing[p], ExactPass) {
      var q :| 0 <= q < |first.unmatched| && first.unmatched[q] == i;
    }
  }

  lemma StartConsistent(res: seq<RemoteResource>, existing: seq<ExistingResource>)
    ensures Consistent(res, existing, Start(res, existing))
  {
    var start := Start(res, existing);
    assert FreePool(existing, start) by {
      forall p | 0 <= p < |existing| ensures p in start.pool {
        assert start.pool[p] == p;
      }
    }
  }

  lemma StartFresh(res: seq<RemoteResource>, existing: seq<ExistingResource>)
    ensures InRange(Start(res, existing), IndicesWithoutId(res, 0), existing)
    ensures SameButIds(res, Start(res, existing).res)
    ensures Fresh(Start(res, existing), IndicesWithoutId(res, 0))
  {
    var todo := IndicesWithoutId(res, 0);
    forall q, p | 0 <= q < p < |todo| ensures todo[q] != todo[p] {
      assert todo[q] < todo[p];
    }
  }

  /** What the url pass adds to the state the exact pass left. */
  lemma SecondPass(res: seq<RemoteResource>, existing: seq<ExistingResource>, first: Matching)
    requires Consistent(res, existing, first) && Pending(res, first.(unmatched := []), first.unmatched)
    ensures IndicesBelow(first.unmatched, |first.res|)
    ensures var m := RunPass(first.(unmatched := []), first.unmatched, existing, UrlPass);
      Consistent(res, existing, m)
      && (forall i :: i in first.assign ==> i in m.assign && m.assign[i] == first.assign[i])
      && (forall i :: i in m.assign && i !in first.assign ==> i in first.unmatched)
      && (forall i, p :: i in first.unmatched && i !in m.assign && p in m.pool ==> !Matches(res[i], existing[p], UrlPass))
      && (forall p :: p in m.pool ==> p in first.pool)
  {
    var second := first.(unmatched := []);
    RunPassConsistent(res, existing, second, first.unmatched, UrlPass);
    RunPassLeftovers(res, existing, second, first.unmatched, UrlPass);
    var m := RunPass(second, first.unmatched, existing, UrlPass);
    assert m.unmatched[0..] == m.unmatched;
    forall i, p | i in first.unmatched && i !in m.assign && p in m.pool ensures !Matches(res[i], existing[p], UrlPass) {
      var q :| 0 <= q < |m.unmatched| && m.unmatched[q] == i;
    }
  }

  /** The state the two passes end in is consistent. */
  lemma FinalConsistent(res: seq<RemoteResource>, existing: seq<ExistingResource>)
    ensures Consistent(res, existing, MatchResources(res, existing))
  {
    var todo := IndicesWithoutId(res, 0);
    if todo != [] {
      var first := RunPass(Start(res, existing), todo, existing, ExactPass);
      FirstPassConsistent(res, existing);
      FirstPassPending(res, existing);
      SecondPass(res, existing, first);
    } else {
      StartConsistent(res, existing);
    }
  }

  /** A dict left without an id has no free existing resource with its url. */
  lemma FinalMaximal(res: seq<RemoteResource>, existing: seq<ExistingResource>)
    ensures var m := MatchResources(res, existing);
      forall i, p :: 0 <= i < |res| && res[i].id.None? && i !in m.assign && p in m.pool ==>
        existing[p].url != res[i].url
  {
    var todo := IndicesWithoutId(res, 0);
    if todo != [] {
      var first := RunPass(Start(res, existing), todo, existing, ExactPass);
      FirstPassConsistent(res, existing);
      FirstPassPending(res, existing);
      FirstPassLeftovers(res, existing);
      SecondPass(res, existing, first);
    } else {
      assert forall i :: 0 <= i < |res| ==> res[i].id.Some?;
    }
  }

  /** A url-only match is made only when no exact match was left free. */
  lemma FinalExact(res: seq<RemoteResource>, existing: seq<ExistingResource>)
    ensures Consistent(res, existing, MatchResources(res, existing))
    ensures var m := MatchResources(res, existing);
      forall i, p :: i in m.assign && p in m.pool && !Matches(res[i], existing[m.assign[i]], ExactPass) ==>
        !Matches(res[i], existing[p], ExactPass)
  {
    FinalConsistent(res, existing);
    var todo := IndicesWithoutId(res, 0);
    var m := MatchResources(res, existing);
    if todo != [] {
      var first := RunPass(Start(res, existing), todo, existing, ExactPass);
      FirstPassConsistent(res, existing);
      FirstPassPending(res, existing);
      FirstPassLeftovers(res, existing);
      SecondPass(res, existing, first);
      forall i, p | i in m.assign && p in m.pool && !Matches(res[i], existing[m.assign[i]], ExactPass)
        ensures !Matches(res[i], existing[p], ExactPass)
      {
        assert i !in first.assign;
        assert i in first.unmatched;
        assert p in first.pool;
      }
    }
  }

  /**
   * The contract of the whole matcher: only ids are written (a dict that
   * had an id is untouched); every written id belongs to an existing
   * resource with the same url; no existing resource is used twice, and
   * every one is either used or left free; a dict left without an id has
   * no free existing resource with its url; and a url-only match is made
   * only when no exact match was left free.
   */
  lemma MatchResourcesSound(res: seq<RemoteResource>, existing: seq<ExistingResource>)
    ensures var m := MatchResources(res, existing);
      |m.res| == |res|
      && (forall i :: 0 <= i < |res| ==> m.res[i] == res[i].(id := m.res[i].id))
      && (forall i :: 0 <= i < |res| && res[i].id.Some? ==> m.res[i] == res[i])
      && (forall i :: 0 <= i < |res| && i !in m.assign ==> m.res[i] == res[i])
      && (forall i :: i in m.assign ==>
            i < |res| && m.assign[i] < |existing| && res[i].id.None?
            && m.res[i].id == Some(existing[m.assign[i]].id) && res[i].url == existing[m.assign[i]].url)
      && (forall i, j :: i in m.assign && j in m.assign && i != j ==> m.assign[i] != m.assign[j])
      && (forall p :: 0 <= p < |existing| ==> p in m.pool || p in m.assign.Values)
      && (forall i, p :: 0 <= i < |res| && res[i].id.None? && i !in m.assign && p in m.pool ==>
            existing[p].url != res[i].url)
      && (forall i, p :: i in m.assign && p in m.pool && !Matches(res[i], existing[m.assign[i]], ExactPass) ==>
            !Matches(res[i], existing[p], ExactPass))
  {
    FinalConsistent(res, existing);
    FinalMaximal(res, existing);
    FinalExact(res, existing);
  }

  /**
   * A dict without id whose url exactly one existing resource has, and no
   * other dict without id has, gets that resource's id.
   */
  lemma SoleUrlIsMatched(res: seq<RemoteResource>, existing: seq<ExistingResource>, i: nat, p: nat)
    requires i < |res| && res[i].id.None? && p < |existing| && existing[p].url == res[i].url
    requires forall j :: 0 <= j < |res| && j != i && res[j].id.None? ==> res[j].url != res[i].url
    requires forall q :: 0 <= q < |existing| && q != p ==> existing[q].url != res[i].url
    ensures MatchResources(res, existing).res[i].id == Some(existing[p].id)
  {
    var m := MatchResources(res, existing);
    FinalConsistent(res, existing);
    FinalMaximal(res, existing);
    assert i in m.assign;
    assert m.assign[i] == p;
  }

  /** A dict whose url no existing resource has keeps no id. */
  lemma UnknownUrlIsUnmatched(res: seq<RemoteResource>, existing: seq<ExistingResource>, i: nat)
    requires i < |res| && res[i].id.None?
    requires forall q :: 0 <= q < |existing| ==> existing[q].url != res[i].url
    ensures MatchResources(res, existing).res[i].id == None
  {
    FinalConsistent(res, existing);
    FinalMaximal(res, existing);
    FinalExact(res, existing);
  }

  /**
   * The scenario of the base harvester's tests, whatever the names and
   * descriptions: the first dict matches exactly, the second finds no
   * existing resource with its url ...
   */
  lemma MatchResourcesExample(res: seq<RemoteResource>, existing: seq<ExistingResource>)
    requires |res| == 4 && forall i :: 0 <= i < 4 ==> res[i].id.None?
    requires res[0].url == "url1" && res[1].url == "url3" && res[2].url == "url2" && res[3].url == "url4"
    requires |existing| == 4
    requires existing[0] == ExistingResource("1", "url1", Some("name"), Some("desc"))
    requires existing[1].url == "BAD" && existing[2].id == "2" && existing[2].url == "url2"
    requires existing[3].id == "4" && existing[3].url == "url4"
    ensures var r := MatchResources(res, existing).res;
      r[0].id == Some("1") && r[1].id == None
  {
    assert "url1"[3] == '1' && "url2"[3] == '2' && "url3"[3] == '3' && "url4"[3] == '4' && |"BAD"| == 3;
    SoleUrlIsMatched(res, existing, 0, 0);
    UnknownUrlIsUnmatched(res, existing, 1);
  }

  /** ... and the last two match by url alone. */
  lemma MatchResourcesExampleByUrl(res: seq<RemoteResource>, existing: seq<ExistingResource>)
    requires |res| == 4 && forall i :: 0 <= i < 4 ==> res[i].id.None?
    requires res[0].url == "url1" && res[1].url == "url3" && res[2].url == "url2" && res[3].url == "url4"
    requires |existing| == 4
    requires existing[0] == ExistingResource("1", "url1", Some("name"), Some("desc"))
    requires existing[1].url == "BAD" && existing[2].id == "2" && existing[2].url == "url2"
    requires existing[3].id == "4" && existing[3].url == "url4"
    ensures var r := MatchResources(res, existing).res;
      r[2].id == Some("2") && r[3].id == Some("4")
  {
    assert "url1"[3] == '1' && "url2"[3] == '2' && "url3"[3] == '3' && "url4"[3] == '4' && |"BAD"| == 3;
    SoleUrlIsMatched(res, existing, 2, 2);
    SoleUrlIsMatched(res, existing, 3, 3);
  }
}
