/** The in-memory centroid repository of the k-means iterations test: a map
    from group to its current centroids and a map from group to the
    centroids deleted from it, the seeding job that fills them, and the
    state the test asserts once the runner has finished. */
module CentroidStore {
  import opened Items

  datatype Coordinate = Coordinate(x: real, y: real)

  /** The geometry feature a centroid wraps: its name and its point. */
  datatype Feature = Feature(name: string, position: Coordinate)

  type Centroid = ItemWrapper<Feature>

  /** What the repository's lookups throw: no centroid with the id in the
      group, or a NullPointerException when the group has no list at all. */
  datatype StoreError = MatchingCentroidNotFound(id: string) | NullPointer

  /** The groups the seeding job fills, in order. */
  const SeedGroupIds: seq<string> := ["g1", "g2"]

  /** Centroids the seeding job adds to each group. */
  const CentroidsPerGroup: nat := 3

  const SeedBatchId: string := "b1"

  /** The seed points, consumed in order across the groups. */
  const SeedPoints: seq<Coordinate> := [
    Coordinate(2.3, 2.3), Coordinate(2.31, 2.31), Coordinate(2.32, 2.31),
    Coordinate(2.31, 2.33), Coordinate(2.29, 2.31), Coordinate(2.3, 2.32),
    Coordinate(2.28, 2.3), Coordinate(2.28, 2.27), Coordinate(2.27, 2.31),
    Coordinate(2.33, 2.3), Coordinate(2.31, 2.35)]

  /** The repository's whole state: current centroids per group, deleted
      centroids per group, and the runner's iteration counter. */
  datatype Snapshot = Snapshot(groups: map<string, seq<Centroid>>, deleted: map<string, seq<Centroid>>, iteration: int)

  /** Every group has a deleted list, and only groups do. */
  predicate WellFormed(s: Snapshot) {
    s.groups.Keys == s.deleted.Keys
  }

  /** The state before the first seeding: no groups, counter at 1. */
  function Initial(): (s: Snapshot)
    ensures WellFormed(s) && s.groups == map[] && s.iteration == 1
  {
    Snapshot(map[], map[], 1)
  }

  /** The centroids whose id is not in `ids`, in their original order. */
  function Without(cs: seq<Centroid>, ids: seq<string>): seq<Centroid>
  {
    if cs == [] then []
    else (if cs[0].id in ids then [] else [cs[0]]) + Without(cs[1..], ids)
  }

  /** The centroids whose id is in `ids`, in their original order. */
  function Matching(cs: seq<Centroid>, ids: seq<string>): seq<Centroid>
  {
    if cs == [] then []
    else (if cs[0].id in ids then [cs[0]] else []) + Matching(cs[1..], ids)
  }

  lemma {:induction false} WithoutAppend(a: seq<Centroid>, b: seq<Centroid>, ids: seq<string>)
    ensures Without(a + b, ids) == Without(a, ids) + Without(b, ids)
  {
    if a == [] {
      assert a + b == b;
    } else {
      assert (a + b)[1..] == a[1..] + b;
      WithoutAppend(a[1..], b, ids);
    }
  }

  lemma {:induction false} MatchingAppend(a: seq<Centroid>, b: seq<Centroid>, ids: seq<string>)
    ensures Matching(a + b, ids) == Matching(a, ids) + Matching(b, ids)
  {
    if a == [] {
      assert a + b == b;
    } else {
      assert (a + b)[1..] == a[1..] + b;
      MatchingAppend(a[1..], b, ids);
    }
  }

  /** Deletion removes exactly the centroids whose id is named: those are
      the ones moved, the others are the ones kept. */
  lemma {:induction false} FiltersMembership(cs: seq<Centroid>, ids: seq<string>)
    ensures forall c :: c in Without(cs, ids) <==> c in cs && c.id !in ids
    ensures forall c :: c in Matching(cs, ids) <==> c in cs && c.id in ids
  {
    if cs != [] {
      FiltersMembership(cs[1..], ids);
      assert cs == [cs[0]] + cs[1..];
    }
  }

  /** Deletion moves centroids and loses none: the kept and the removed
      centroids together are the original list. */
  lemma {:induction false} FiltersPartition(cs: seq<Centroid>, ids: seq<string>)
    ensures multiset(Without(cs, ids)) + multiset(Matching(cs, ids)) == multiset(cs)
  {
    if cs != [] {
      FiltersPartition(cs[1..], ids);
      assert cs == [cs[0]] + cs[1..];
    }
  }

  /** Filtering twice by the same ids removes nothing more. */
  lemma {:induction false} WithoutIdempotent(cs: seq<Centroid>, ids: seq<string>)
    ensures Without(Without(cs, ids), ids) == Without(cs, ids)
    ensures Matching(Without(cs, ids), ids) == []
  {
    if cs != [] {
      WithoutIdempotent(cs[1..], ids);
      var head := if cs[0].id in ids then [] else [cs[0]];
      WithoutAppend(head, Without(cs[1..], ids), ids);
      MatchingAppend(head, Without(cs[1..], ids), ids);
    }
  }

  /** Ids that no centroid carries change nothing. */
  lemma {:induction false} FiltersAbsent(cs: seq<Centroid>, ids: seq<string>)
    requires forall c :: c in cs ==> c.id !in ids
    ensures Without(cs, ids) == cs && Matching(cs, ids) == []
  {
    if cs != [] {
      FiltersAbsent(cs[1..], ids);
      assert cs == [cs[0]] + cs[1..];
    }
  }

  /** When every centroid's id is named, all of them are removed. */
  lemma {:induction false} FiltersAllNamed(cs: seq<Centroid>, ids: seq<string>)
    requires forall c :: c in cs ==> c.id in ids
    ensures Without(cs, ids) == [] && Matching(cs, ids) == cs
  {
    if cs != [] {
      FiltersAllNamed(cs[1..], ids);
      assert cs == [cs[0]] + cs[1..];
    }
  }

  /** The state after `delete(ids)`: every group keeps the centroids whose id
      is not named, and its deleted list gains, in order, the ones that are. */
  function AfterDelete(s: Snapshot, ids: seq<string>): (r: Snapshot)
    requires WellFormed(s)
    ensures WellFormed(r) && r.iteration == s.iteration
  {
    Snapshot(
      map g | g in s.groups :: Without(s.groups[g], ids),
      map g | g in s.deleted :: s.deleted[g] + Matching(s.groups[g], ids),
      s.iteration)
  }

  /** A state whose every group already holds what deletion leaves in it is
      the state after deletion. */
  lemma AfterDeleteByGroup(s: Snapshot, ids: seq<string>, r: Snapshot)
    requires WellFormed(s) && WellFormed(r)
    requires r.groups.Keys == s.groups.Keys && r.iteration == s.iteration
    requires forall g :: g in r.groups ==>
      r.groups[g] == Without(s.groups[g], ids) && r.deleted[g] == s.deleted[g] + Matching(s.groups[g], ids)
    ensures r == AfterDelete(s, ids)
  {
    var t := AfterDelete(s, ids);
    assert r.groups == t.groups;
    assert r.deleted == t.deleted;
  }

  /** Deleting the same ids a second time leaves the state as the first
      deletion left it. */
  lemma DeleteIdempotent(s: Snapshot, ids: seq<string>)
    requires WellFormed(s)
    ensures AfterDelete(AfterDelete(s, ids), ids) == AfterDelete(s, ids)
  {
    var once := AfterDelete(s, ids);
    var twice := AfterDelete(once, ids);
    forall g | g in s.groups
      ensures twice.groups[g] == once.groups[g] && twice.deleted[g] == once.deleted[g]
    {
      WithoutIdempotent(s.groups[g], ids);
    }
    assert twice.groups == once.groups;
    assert twice.deleted == once.deleted;
  }

  /** Deleting ids that no current centroid carries changes nothing. */
  lemma DeleteAbsentIds(s: Snapshot, ids: seq<string>)
    requires WellFormed(s)
    requires forall g, c :: g in s.groups && c in s.groups[g] ==> c.id !in ids
    ensures AfterDelete(s, ids) == s
  {
    var r := AfterDelete(s, ids);
    forall g | g in s.groups
      ensures r.groups[g] == s.groups[g] && r.deleted[g] == s.deleted[g]
    {
      FiltersAbsent(s.groups[g], ids);
    }
    assert r.groups == s.groups;
    assert r.deleted == s.deleted;
  }

  /** The name the seeding job gives its i-th centroid of a group: "nn" + i. */
  function SeedName(i: nat): string
    requires i < 10
  {
    "nn" + [('0' as int + i) as char]
  }

  /** The centroid created from the j-th seed point and the j-th fresh id. */
  function SeedCentroid(g: string, i: nat, j: nat, iteration: int, uuids: seq<string>): Centroid
    requires i < CentroidsPerGroup && j < |uuids| && j < |SeedPoints|
  {
    ItemWrapper(uuids[j], g, SeedBatchId, iteration, Feature(SeedName(i), SeedPoints[j]))
  }

  /** The centroids the seeding job appends to the gi-th group. */
  function NewCentroids(g: string, gi: nat, iteration: int, uuids: seq<string>): (cs: seq<Centroid>)
    requires gi < |SeedGroupIds| && |uuids| == |SeedGroupIds| * CentroidsPerGroup
    ensures |cs| == CentroidsPerGroup
    ensures forall i :: 0 <= i < |cs| ==>
      cs[i].groupId == g && cs[i].iteration == iteration && cs[i].id == uuids[CentroidsPerGroup * gi + i]
  {
    var cs := seq(CentroidsPerGroup, i requires 0 <= i < CentroidsPerGroup =>
      SeedCentroid(g, i, CentroidsPerGroup * gi + i, iteration, uuids));
    assert forall i :: 0 <= i < |cs| ==> cs[i] == SeedCentroid(g, i, CentroidsPerGroup * gi + i, iteration, uuids);
    cs
  }

  /** Seeding one group: create its two lists on first sight, then append
      its new centroids. */
  function SeedGroup(s: Snapshot, gi: nat, uuids: seq<string>): (r: Snapshot)
    requires gi < |SeedGroupIds| && |uuids| == |SeedGroupIds| * CentroidsPerGroup
  {
    var g := SeedGroupIds[gi];
    var base := if g in s.groups then s else Snapshot(s.groups[g := []], s.deleted[g := []], s.iteration);
    base.(groups := base.groups[g := base.groups[g] + NewCentroids(g, gi, s.iteration, uuids)])
  }

  /** Seeding the groups from the gi-th on. */
  function SeedGroupsFrom(s: Snapshot, gi: nat, uuids: seq<string>): Snapshot
    requires gi <= |SeedGroupIds| && |uuids| == |SeedGroupIds| * CentroidsPerGroup
    decreases |SeedGroupIds| - gi
  {
    if gi == |SeedGroupIds| then s else SeedGroupsFrom(SeedGroup(s, gi, uuids), gi + 1, uuids)
  }

  /** The state after one run of the seeding job. */
  function AfterRunJob(s: Snapshot, uuids: seq<string>): Snapshot
    requires |uuids| == |SeedGroupIds| * CentroidsPerGroup
  {
    var t := SeedGroupsFrom(s, 0, uuids);
    t.(iteration := t.iteration + 1)
  }

  /** The seeding job from a well-formed state: each seeded group holds its
      previous list followed by three centroids tagged with the counter, its
      deleted list is kept (or created empty), other groups are untouched,
      and the counter advances by one. */
  lemma AfterRunJobShape(s: Snapshot, uuids: seq<string>)
    requires WellFormed(s) && |uuids| == |SeedGroupIds| * CentroidsPerGroup
    ensures var r := AfterRunJob(s, uuids);
      && WellFormed(r)
      && r.iteration == s.iteration + 1
      && r.groups.Keys == s.groups.Keys + {"g1", "g2"}
      && r.groups["g1"] == (if "g1" in s.groups then s.groups["g1"] else []) + NewCentroids("g1", 0, s.iteration, uuids)
      && r.groups["g2"] == (if "g2" in s.groups then s.groups["g2"] else []) + NewCentroids("g2", 1, s.iteration, uuids)
      && r.deleted["g1"] == (if "g1" in s.deleted then s.deleted["g1"] else [])
      && r.deleted["g2"] == (if "g2" in s.deleted then s.deleted["g2"] else [])
      && (forall g :: g in s.groups && g !in SeedGroupIds ==> r.groups[g] == s.groups[g] && r.deleted[g] == s.deleted[g])
  {
    var s1 := SeedGroup(s, 0, uuids);
    var s2 := SeedGroup(s1, 1, uuids);
    assert SeedGroupsFrom(s, 0, uuids) == s2;
  }

  /** What the test asserts after the runner has finished: the two groups
      each hold three centroids of iteration 2 whose ids are not among the
      group's deleted centroids, and each deleted list holds three centroids
      of iteration 1. */
  predicate TestRunAsserted(s: Snapshot) {
    && WellFormed(s)
    && s.groups.Keys == {"g1", "g2"}
    && (forall g :: g in s.groups ==> |s.groups[g]| == 3)
    && (forall g, c :: g in s.groups && c in s.groups[g] ==>
          c.iteration == 2 && forall o :: o in s.deleted[g] ==> o.id != c.id)
    && (forall g :: g in s.deleted ==> |s.deleted[g]| == 3)
    && (forall g, o :: g in s.deleted && o in s.deleted[g] ==> o.iteration == 1)
  }

  /** Deleting the first generation's ids from a list that holds the first
      generation followed by the second leaves the second and moves the
      first. */
  lemma RetireGeneration(older: seq<Centroid>, newer: seq<Centroid>, ids: seq<string>)
    requires forall c :: c in older ==> c.id in ids
    requires forall c :: c in newer ==> c.id !in ids
    ensures Without(older + newer, ids) == newer && Matching(older + newer, ids) == older
  {
    WithoutAppend(older, newer, ids);
    MatchingAppend(older, newer, ids);
    FiltersAllNamed(older, ids);
    FiltersAbsent(newer, ids);
  }

  /** One seed group after seeding twice and deleting the first generation. */
  lemma TestRunGroup(u1: seq<string>, u2: seq<string>, gi: nat)
    requires |u1| == |SeedGroupIds| * CentroidsPerGroup && |u2| == |SeedGroupIds| * CentroidsPerGroup
    requires forall a, b :: 0 <= a < |u1| && 0 <= b < |u2| ==> u1[a] != u2[b]
    requires gi < |SeedGroupIds|
    ensures var g := SeedGroupIds[gi];
      var old1 := NewCentroids(g, gi, 1, u1);
      var new2 := NewCentroids(g, gi, 2, u2);
      && Without(old1 + new2, u1) == new2 && Matching(old1 + new2, u1) == old1
      && (forall c, o :: c in new2 && o in old1 ==> c.iteration == 2 && o.iteration == 1 && o.id != c.id)
  {
    var g := SeedGroupIds[gi];
    var old1 := NewCentroids(g, gi, 1, u1);
    var new2 := NewCentroids(g, gi, 2, u2);
    forall c | c in old1 ensures c.id in u1 {
      var i :| 0 <= i < |old1| && old1[i] == c;
    }
    forall c | c in new2 ensures c.id !in u1 {
      var i :| 0 <= i < |new2| && new2[i] == c;
      assert c.id == u2[CentroidsPerGroup * gi + i];
    }
    RetireGeneration(old1, new2, u1);
    forall c, o | c in new2 && o in old1 ensures c.iteration == 2 && o.iteration == 1 && o.id != c.id {
      var i :| 0 <= i < |new2| && new2[i] == c;
      var k :| 0 <= k < |old1| && old1[k] == o;
      assert c.id == u2[CentroidsPerGroup * gi + i];
      assert o.id == u1[CentroidsPerGroup * gi + k];
    }
  }

  /** The state after two seedings from the initial state: both seed groups
      hold the first generation followed by the second, and nothing has been
      deleted yet. */
  lemma TwoSeedings(u1: seq<string>, u2: seq<string>)
    requires |u1| == |SeedGroupIds| * CentroidsPerGroup && |u2| == |SeedGroupIds| * CentroidsPerGroup
    ensures var s2 := AfterRunJob(AfterRunJob(Initial(), u1), u2);
      && WellFormed(s2)
      && s2.groups.Keys == {"g1", "g2"}
      && (forall gi :: 0 <= gi < |SeedGroupIds| ==>
            s2.groups[SeedGroupIds[gi]] == NewCentroids(SeedGroupIds[gi], gi, 1, u1) + NewCentroids(SeedGroupIds[gi], gi, 2, u2)
            && s2.deleted[SeedGroupIds[gi]] == [])
  {
    var s0 := Initial();
    AfterRunJobShape(s0, u1);
    var s1 := AfterRunJob(s0, u1);
    AfterRunJobShape(s1, u2);
    assert s1.groups["g1"] == NewCentroids("g1", 0, 1, u1);
    assert s1.groups["g2"] == NewCentroids("g2", 1, 1, u1);
  }

  /** Two seedings with fresh ids, followed by the deletion of the first
      generation's ids, reach the asserted state. */
  lemma TestRunPostState(u1: seq<string>, u2: seq<string>)
    requires |u1| == |SeedGroupIds| * CentroidsPerGroup && |u2| == |SeedGroupIds| * CentroidsPerGroup
    requires forall a, b :: 0 <= a < |u1| && 0 <= b < |u2| ==> u1[a] != u2[b]
    ensures TestRunAsserted(AfterDelete(AfterRunJob(AfterRunJob(Initial(), u1), u2), u1))
  {
    var s2 := AfterRunJob(AfterRunJob(Initial(), u1), u2);
    TwoSeedings(u1, u2);
    var s3 := AfterDelete(s2, u1);
    forall g | g in s3.groups
      ensures |s3.groups[g]| == 3 && |s3.deleted[g]| == 3
      ensures forall c :: c in s3.groups[g] ==> c.iteration == 2 && forall o :: o in s3.deleted[g] ==> o.id != c.id
      ensures forall o :: o in s3.deleted[g] ==> o.iteration == 1
    {
      var gi := if g == "g1" then 0 else 1;
      assert g == SeedGroupIds[gi];
      TestRunGroup(u1, u2, gi);
    }
  }

  /** The test's job runner together with the anonymous in-memory centroid
      manager it constructs; the two maps are the ones they share. */
  class RunnerForTest {
    var groups: map<string, seq<Centroid>>
    var deletedSet: map<string, seq<Centroid>>
    var iteration: int

    function State(): Snapshot
      reads this
    {
      Snapshot(groups, deletedSet, iteration)
    }

    predicate Valid()
      reads this
    {
      WellFormed(State())
    }

    constructor ()
      ensures Valid() && State() == Initial()
    {
      groups, deletedSet, iteration := map[], map[], 1;
    }

    /** The iterator loop of delete over one group's list: the centroids it
        keeps, and the group's deleted list with the removed ones appended. */
    static method FilterGroup(list: seq<Centroid>, dataIds: seq<string>, deleted: seq<Centroid>)
      returns (kept: seq<Centroid>, moved: seq<Centroid>)
      ensures kept == Without(list, dataIds)
      ensures moved == deleted + Matching(list, dataIds)
    {
      kept, moved := [], deleted;
      for i := 0 to |list|
        invariant kept == Without(list[..i], dataIds)
        invariant moved == deleted + Matching(list[..i], dataIds)
      {
        WithoutAppend(list[..i], [list[i]], dataIds);
        MatchingAppend(list[..i], [list[i]], dataIds);
        assert list[..i + 1] == list[..i] + [list[i]];
        if list[i].id in dataIds {
          moved := moved + [list[i]];
        } else {
          kept := kept + [list[i]];
        }
      }
      assert list[..|list|] == list;
    }

    /** delete(dataIds): removes from every group, in place, the centroids
        whose id is named, appending each to the group's deleted list. */
    method Delete(dataIds: seq<string>)
      requires Valid()
      modifies this
      ensures Valid()
      ensures State() == AfterDelete(old(State()), dataIds)
    {
      ghost var start := State();
      var current, deleted := groups, deletedSet;
      var remaining := current.Keys;
      while remaining != {}
        invariant remaining <= current.Keys
        invariant iteration == start.iteration
        invariant current.Keys == start.groups.Keys && deleted.Keys == start.deleted.Keys
        invariant forall g :: g in remaining ==> current[g] == start.groups[g] && deleted[g] == start.deleted[g]
        invariant forall g :: g in current && g !in remaining ==> current[g] == Without(start.groups[g], dataIds)
        invariant forall g :: g in current && g !in remaining ==>
          deleted[g] == start.deleted[g] + Matching(start.groups[g], dataIds)
        decreases remaining
      {
        var g :| g in remaining;
        var kept, moved := FilterGroup(current[g], dataIds, deleted[g]);
        current := current[g := kept];
        deleted := deleted[g := moved];
        remaining := remaining - {g};
      }
      AfterDeleteByGroup(start, dataIds, Snapshot(current, deleted, start.iteration));
      groups, deletedSet := current, deleted;
    }

    /** getAllCentroidGroups: every key of the group map, once each, in the
        map's iteration order (groups with an empty list included). */
    method GetAllCentroidGroups() returns (ll: seq<string>)
      ensures forall g :: g in ll <==> g in groups
      ensures forall a, b :: 0 <= a < b < |ll| ==> ll[a] != ll[b]
    {
      var remaining := groups.Keys;
      ll := [];
      while remaining != {}
        invariant remaining <= groups.Keys
        invariant forall g :: g in ll ==> g in groups && g !in remaining
        invariant forall g :: g in groups ==> g in ll || g in remaining
        invariant forall a, b :: 0 <= a < b < |ll| ==> ll[a] != ll[b]
        decreases remaining
      {
        var g :| g in remaining;
        ll := ll + [g];
        remaining := remaining - {g};
      }
    }

    /** getCentroidsForGroup(groupID): the group's list, or null for an
        unknown group. */
    function GetCentroidsForGroup(groupId: string): (r: Option<seq<Centroid>>)
      reads this
      ensures r.Some? <==> groupId in groups
      ensures r.Some? ==> r.value == groups[groupId]
    {
      if groupId in groups then Some(groups[groupId]) else None
    }

    /** getCentroidsForGroup(batchID, groupID): the batch is ignored. */
    function GetCentroidsForBatchGroup(batchId: string, groupId: string): (r: Option<seq<Centroid>>)
      reads this
      ensures r == GetCentroidsForGroup(groupId)
    {
      GetCentroidsForGroup(groupId)
    }

    /** processForAllGroups(fn): applies `fn` to the groups in the map's
        iteration order (returned as `visited`) and stops at the first
        negative status, which it returns; 0 when none is negative. */
    method ProcessForAllGroups(fn: (string, seq<Centroid>) -> int) returns (status: int, visited: seq<string>)
      ensures forall g :: g in visited ==> g in groups
      ensures forall a, b :: 0 <= a < b < |visited| ==> visited[a] != visited[b]
      ensures status <= 0
      ensures status < 0 ==> (visited != []
        && status == fn(visited[|visited| - 1], groups[visited[|visited| - 1]])
        && forall a :: 0 <= a < |visited| - 1 ==> fn(visited[a], groups[visited[a]]) >= 0)
      ensures status == 0 ==> ((forall g :: g in groups ==> g in visited)
        && forall a :: 0 <= a < |visited| ==> fn(visited[a], groups[visited[a]]) >= 0)
    {
      var remaining := groups.Keys;
      visited := [];
      while remaining != {}
        invariant remaining <= groups.Keys
        invariant forall g :: g in visited ==> g in groups && g !in remaining
        invariant forall g :: g in groups ==> g in visited || g in remaining
        invariant forall a, b :: 0 <= a < b < |visited| ==> visited[a] != visited[b]
        invariant forall a :: 0 <= a < |visited| ==> fn(visited[a], groups[visited[a]]) >= 0
        decreases remaining
      {
        var g :| g in remaining;
        visited := visited + [g];
        var st := fn(g, groups[g]);
        if st < 0 {
          status := st;
          return;
        }
        remaining := remaining - {g};
      }
      status := 0;
    }

    /** getCentroidById(id, groupID): the first centroid of the group's list
        with that id; MatchingCentroidNotFoundException when there is none,
        and a NullPointerException when the group has no list. */
    method GetCentroidById(id: string, groupId: string) returns (r: Result<Centroid, StoreError>)
      ensures groupId !in groups ==> r == Failure(NullPointer)
      ensures groupId in groups && r.Success? ==> (r.value.id == id
        && exists k :: 0 <= k < |groups[groupId]| && groups[groupId][k] == r.value
             && forall j :: 0 <= j < k ==> groups[groupId][j].id != id)
      ensures groupId in groups && r.Failure? ==> (r.error == MatchingCentroidNotFound(id)
        && forall c :: c in groups[groupId] ==> c.id != id)
    {
      var found := GetCentroidsForGroup(groupId);
      if found.None? {
        return Failure(NullPointer);
      }
      var cs := found.value;
      var k := 0;
      while k < |cs|
        invariant 0 <= k <= |cs|
        invariant forall j :: 0 <= j < k ==> cs[j].id != id
      {
        if cs[k].id == id {
          return Success(cs[k]);
        }
        k := k + 1;
      }
      return Failure(MatchingCentroidNotFound(id));
    }

    /** One pass of runJob's group loop: create the group's lists on first
        sight, then append its three centroids, consuming seed points and
        ids from the j-th on. */
    method SeedOneGroup(gi: nat, j: nat, uuids: seq<string>)
      requires Valid() && gi < |SeedGroupIds| && |uuids| == |SeedGroupIds| * CentroidsPerGroup
      requires j == CentroidsPerGroup * gi
      modifies this
      ensures Valid()
      ensures State() == SeedGroup(old(State()), gi, uuids)
    {
      ghost var before := State();
      var g := SeedGroupIds[gi];
      if g !in groups {
        groups := groups[g := []];
        deletedSet := deletedSet[g := []];
      }
      var list := groups[g];
      ghost var base := list;
      ghost var added := NewCentroids(g, gi, iteration, uuids);
      assert base + added[..0] == base;
      var k := j;
      for i := 0 to CentroidsPerGroup
        invariant k == j + i
        invariant list == base + added[..i]
      {
        var c := SeedCentroid(g, i, k, iteration, uuids);
        assert added[..i + 1] == added[..i] + [c];
        list := list + [c];
        k := k + 1;
      }
      assert added[..CentroidsPerGroup] == added;
      groups := groups[g := list];
    }

    /** runJob, the seeding job: for each seed group, create its lists on
        first sight and append three centroids built from the next seed
        points and the next fresh ids, tagged with the counter; then advance
        the counter. `uuids` are the ids UUID.randomUUID would produce. */
    method RunJob(uuids: seq<string>) returns (status: int)
      requires Valid() && |uuids| == |SeedGroupIds| * CentroidsPerGroup
      modifies this
      ensures Valid()
      ensures State() == AfterRunJob(old(State()), uuids)
      ensures status == 0
    {
      ghost var start := State();
      var j := 0;
      for gi := 0 to |SeedGroupIds|
        invariant Valid() && iteration == start.iteration
        invariant j == CentroidsPerGroup * gi
        invariant SeedGroupsFrom(State(), gi, uuids) == SeedGroupsFrom(start, 0, uuids)
      {
        SeedOneGroup(gi, j, uuids);
        j := j + CentroidsPerGroup;
      }
      iteration := iteration + 1;
      status := 0;
    }
  }
}
