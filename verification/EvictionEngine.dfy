/** The eviction pass step by step: listing and grouping, then family by family. */
module EvictionEngine {
  import opened Text
  import opened EvictionOrder
  import opened Eviction

  datatype Report = Report(version: Version, family: string, lastAccess: int, protectedByAccess: bool)

  /** What the pass selects from one family. */
  ghost function FamilySelection(p: Pass, family: set<Version>): set<Version> {
    set v | v in family && Rank(v, family) >= p.policy.minVersions && p.Idle(v)
  }

  ghost function KeysOf(versions: set<Version>): set<Key> {
    set v | v in versions :: v.key
  }

  /** The versions that the reports call candidates. */
  ghost function Unprotected(reports: seq<Report>): set<Version> {
    set r | r in reports && !r.protectedByAccess :: r.version
  }

  /** The access of a version that the pass has to look at cannot be read. */
  ghost predicate Unknown(p: Pass, family: set<Version>, v: Version) {
    v in family && Rank(v, family) >= p.policy.minVersions && p.access(v.key).Unreadable?
  }

  /** A version that the policy has to judge, and whose access state cannot be read. */
  ghost predicate Unjudged(p: Pass, family: set<Version>, v: Version) {
    v in family && |NewerIn(v, family)| >= p.policy.minVersions && p.access(v.key).Unreadable?
  }

  lemma FamilyRaw(p: Pass, family: set<Version>)
    ensures forall v :: v in FamilySelection(p, family) <==> LetsGo(p, family, v)
    ensures forall v :: Unknown(p, family, v) <==> Unjudged(p, family, v)
  {
    hide Rank, NewerIn, Pass.Idle;
    forall v ensures v in FamilySelection(p, family) <==> LetsGo(p, family, v) {
      RankMeans(v, family);
      IdleMeans(p, v);
    }
    forall v ensures Unknown(p, family, v) <==> Unjudged(p, family, v) {
      RankMeans(v, family);
    }
  }

  function CountUnprotected(reports: seq<Report>): nat {
    if reports == [] then 0
    else
      CountUnprotected(reports[..|reports| - 1]) + (if reports[|reports| - 1].protectedByAccess then 0 else 1)
  }

  /** No version is reported as a candidate twice. */
  ghost predicate CountsExact(reports: seq<Report>) {
    |Unprotected(reports)| == CountUnprotected(reports)
  }

  lemma ReportedOne(reports: seq<Report>, r: Report)
    ensures Unprotected(reports + [r]) == Unprotected(reports) + (if r.protectedByAccess then {} else {r.version})
    ensures CountUnprotected(reports + [r]) == CountUnprotected(reports) + (if r.protectedByAccess then 0 else 1)
    ensures r.version !in Unprotected(reports) && CountsExact(reports) ==> CountsExact(reports + [r])
  {
    var all := reports + [r];
    assert all[..|all| - 1] == reports;
    assert r in all;
    assert forall x :: x in reports ==> x in all;
  }

  /** The selection of a family as far as its sorted members have been looked at. */
  ghost function Part(p: Pass, all: set<Version>, seen: seq<Version>): set<Version> {
    set v | v in seen && v in FamilySelection(p, all)
  }

  lemma PartGrows(p: Pass, all: set<Version>, sorted: seq<Version>, i: nat)
    requires IsSorted(sorted) && Elements(sorted) == all && i < |sorted|
    ensures Rank(sorted[i], all) == i && sorted[i] in all
    ensures Part(p, all, sorted[..i + 1])
         == Part(p, all, sorted[..i]) + (if i >= p.policy.minVersions && p.Idle(sorted[i]) then {sorted[i]} else {})
  {
    PositionIsRank(sorted, i);
    assert sorted[..i + 1] == sorted[..i] + [sorted[i]];
    assert sorted[i] in all;
  }

  lemma PartEnds(p: Pass, all: set<Version>, sorted: seq<Version>)
    requires Elements(sorted) == all
    ensures Part(p, all, sorted[..0]) == {} && Part(p, all, sorted[..|sorted|]) == FamilySelection(p, all)
  {
    assert sorted[..|sorted|] == sorted;
  }

  /** Counters of a pass; missing counts deletions that found nothing, which the source
      counts nowhere. */
  datatype Result = Result(families: nat, scanned: nat, candidates: nat, deleted: nat, missing: nat,
                           failedDeletes: nat, bytesFreed: nat, protectedByMin: nat, protectedByAccess: nat)

  /** The counters of a pass that has not begun. */
  predicate Unused(r: Result) {
    && r.families == r.scanned == r.candidates == 0 && Outcomes(r) == r.bytesFreed == 0
    && r.protectedByMin == r.protectedByAccess == 0
  }

  function SizeSum(versions: seq<Version>): nat {
    if versions == [] then 0 else SizeSum(versions[..|versions| - 1]) + versions[|versions| - 1].size
  }

  function Outcomes(res: Result): nat {
    res.deleted + res.missing + res.failedDeletes
  }

  /** What a pass starts from: the objects it lists, the keys that are stored, and the
      deletions that the medium refuses. */
  datatype Ground = Ground(listed: set<Version>, stored: set<Key>, refused: set<Key>, dryRun: bool)

  ghost predicate KeysUnique(all: set<Version>) {
    forall u, v :: u in all && v in all && u.key == v.key ==> u == v
  }

  ghost predicate Goes(g: Ground, v: Version) {
    !g.dryRun && v.key !in g.refused && v.key in g.stored
  }

  ghost predicate Stays(g: Ground, v: Version) {
    !g.dryRun && v.key in g.refused
  }

  ghost function Gone(g: Ground, chosen: set<Version>): set<Version> {
    set v | v in chosen && Goes(g, v)
  }

  ghost function Refused(g: Ground, chosen: set<Version>): set<Version> {
    set v | v in chosen && Stays(g, v)
  }

  /** What has not been chosen still is where it was. */
  ghost predicate Untouched(g: Ground, chosen: set<Version>, storage: set<Key>) {
    && chosen <= g.listed && KeysUnique(g.listed)
    && forall v :: v in g.listed && v !in chosen ==> (v.key in storage <==> v.key in g.stored)
  }

  /** The deletions are those of the chosen versions that were stored and not refused, and
      the failures those of the refused ones. */
  ghost predicate Exact(g: Ground, chosen: set<Version>, freed: seq<Version>, deleted: nat, failed: nat, bytes: nat) {
    && (forall v :: v in freed <==> v in Gone(g, chosen))
    && deleted == |freed| == |Gone(g, chosen)| && failed == |Refused(g, chosen)| && bytes == SizeSum(freed)
  }

  ghost predicate Tallied(
      g: Ground, chosen: set<Version>, storage: set<Key>, freed: seq<Version>, deleted: nat, failed: nat, bytes: nat) {
    Untouched(g, chosen, storage) && Exact(g, chosen, freed, deleted, failed, bytes)
  }

  lemma ChosenMore(g: Ground, chosen: set<Version>, v: Version)
    requires v !in chosen
    ensures forall x :: x in Gone(g, chosen + {v}) <==> x in Gone(g, chosen) || (x == v && Goes(g, v))
    ensures |Gone(g, chosen + {v})| == |Gone(g, chosen)| + (if Goes(g, v) then 1 else 0)
    ensures |Refused(g, chosen + {v})| == |Refused(g, chosen)| + (if Stays(g, v) then 1 else 0)
  {
    hide Goes, Stays;
    assert Gone(g, chosen + {v}) == if Goes(g, v) then Gone(g, chosen) + {v} else Gone(g, chosen);
    assert Refused(g, chosen + {v}) == if Stays(g, v) then Refused(g, chosen) + {v} else Refused(g, chosen);
  }

  lemma OthersStored(g: Ground, chosen: set<Version>, storage: set<Key>, v: Version)
    requires Untouched(g, chosen, storage) && v in g.listed
    ensures Untouched(g, chosen + {v}, storage - {v.key}) && Untouched(g, chosen + {v}, storage)
  {
  }

  /** One more chosen version, and what becomes of it: nothing in a dry run, ... */
  lemma TallyDry(
      g: Ground, chosen: set<Version>, storage: set<Key>, freed: seq<Version>, deleted: nat, failed: nat, bytes: nat, v: Version)
    requires Tallied(g, chosen, storage, freed, deleted, failed, bytes) && v in g.listed && v !in chosen && g.dryRun
    ensures Tallied(g, chosen + {v}, storage, freed, deleted, failed, bytes)
  {
    OthersStored(g, chosen, storage, v);
    ChosenMore(g, chosen, v);
    hide Gone, Refused, Untouched;
  }

  /** ... a refusal, ... */
  lemma TallyRefused(
      g: Ground, chosen: set<Version>, storage: set<Key>, freed: seq<Version>, deleted: nat, failed: nat, bytes: nat, v: Version)
    requires Tallied(g, chosen, storage, freed, deleted, failed, bytes) && v in g.listed && v !in chosen && Stays(g, v)
    ensures Tallied(g, chosen + {v}, storage, freed, deleted, failed + 1, bytes)
  {
    OthersStored(g, chosen, storage, v);
    ChosenMore(g, chosen, v);
    assert !Goes(g, v);
    hide Gone, Refused, Untouched, Stays, Goes;
  }

  /** ... a deletion ... */
  lemma TallyDeleted(
      g: Ground, chosen: set<Version>, storage: set<Key>, freed: seq<Version>, deleted: nat, failed: nat, bytes: nat, v: Version)
    requires Tallied(g, chosen, storage, freed, deleted, failed, bytes) && v in g.listed && v !in chosen
    requires !g.dryRun && v.key !in g.refused && v.key in storage
    ensures Tallied(g, chosen + {v}, storage - {v.key}, freed + [v], deleted + 1, failed, bytes + v.size)
  {
    OthersStored(g, chosen, storage, v);
    ChosenMore(g, chosen, v);
    assert Goes(g, v) && !Stays(g, v);
    FreedMore(freed, v);
    hide Gone, Refused, Untouched, Stays, Goes, SizeSum;
  }

  lemma FreedMore(freed: seq<Version>, v: Version)
    ensures SizeSum(freed + [v]) == SizeSum(freed) + v.size
  {
    assert (freed + [v])[..|freed|] == freed;
  }

  /** ... or the finding that it is gone already. */
  lemma TallyMissing(
      g: Ground, chosen: set<Version>, storage: set<Key>, freed: seq<Version>, deleted: nat, failed: nat, bytes: nat, v: Version)
    requires Tallied(g, chosen, storage, freed, deleted, failed, bytes) && v in g.listed && v !in chosen
    requires !g.dryRun && v.key !in g.refused && v.key !in storage
    ensures Tallied(g, chosen + {v}, storage, freed, deleted, failed, bytes)
  {
    OthersStored(g, chosen, storage, v);
    ChosenMore(g, chosen, v);
    assert !Goes(g, v) && !Stays(g, v);
    hide Gone, Refused, Untouched, Stays, Goes;
  }

  lemma TallyNone(g: Ground)
    requires KeysUnique(g.listed)
    ensures Tallied(g, {}, g.stored, [], 0, 0, 0)
  {
    assert Gone(g, {}) == {} && Refused(g, {}) == {};
  }

  lemma NothingReported()
    ensures Unprotected([]) == {} && CountUnprotected([]) == 0 && CountsExact([])
  {
  }

  predicate SameButOutcomes(a: Result, b: Result) {
    b.(deleted := 0, missing := 0, failedDeletes := 0, bytesFreed := 0) == a.(deleted := 0, missing := 0, failedDeletes := 0, bytesFreed := 0)
  }

  lemma Regroup<T>(a: set<T>, b: set<T>, c: set<T>)
    ensures a + b + c == a + (b + c) && a - b - c == a - (b + c)
  {
  }

  /** What a family's sweep starts from. */
  datatype Start = Start(chosen: set<Version>, storage: set<Key>, counted: nat)

  class Sweep {
    const p: Pass
    const dryRun: bool
    const failing: set<Key>       // deletions that the medium refuses
    var storage: set<Key>
    var res: Result
    var reports: seq<Report>
    ghost var freed: seq<Version> // what was really deleted
    ghost const listed: set<Version>
    ghost const initial: set<Key>

    ghost function G(): Ground {
      Ground(listed, initial, failing, dryRun)
    }

    /** The counters tell what happened to the versions that were considered. */
    ghost predicate Valid()
      reads this
    {
      && res.candidates == CountUnprotected(reports) && CountsExact(reports)
      && res.candidates + res.protectedByAccess == |reports|
      && Outcomes(res) == (if dryRun then 0 else res.candidates) 
      && Tallied(G(), Unprotected(reports), storage, freed, res.deleted, res.failedDeletes, res.bytesFreed)
    }

    constructor (pass: Pass, dry: bool, refused: set<Key>, stored: set<Key>, ghost objects: set<Version>)
      requires KeysUnique(objects)
      ensures Valid() && p == pass && dryRun == dry && failing == refused && storage == initial == stored && listed == objects
      ensures reports == [] && Unused(res)
    {
      NothingReported();
      TallyNone(Ground(objects, stored, refused, dry));
      hide Unprotected, CountUnprotected, CountsExact, Tallied;
      p, dryRun, failing, storage, res, reports, freed := pass, dry, refused, stored, Result(0, 0, 0, 0, 0, 0, 0, 0, 0), [], [];
      listed, initial := objects, stored;
    }

    /** The keys that a real pass removes for the versions it has chosen. */
    ghost function Removed(versions: set<Version>): set<Key> {
      if dryRun then {} else KeysOf(versions) - failing
    }

    /** deleteKey: a key that is already gone is no failure, and nothing stops the pass. */
    method DeleteKey(v: Version)
      modifies this`storage, this`res, this`freed
      ensures storage == old(storage) - (if v.key in failing then {} else {v.key})
      ensures res == if v.key in failing then old(res).(failedDeletes := old(res).failedDeletes + 1)
                     else if v.key in old(storage)
                     then old(res).(deleted := old(res).deleted + 1, bytesFreed := old(res).bytesFreed + v.size)
                     else old(res).(missing := old(res).missing + 1)
      ensures freed == if v.key !in failing && v.key in old(storage) then old(freed) + [v] else old(freed)
    {
      if v.key in failing {
        res := res.(failedDeletes := res.failedDeletes + 1);
        return;
      }
      if v.key !in storage {
        res := res.(missing := res.missing + 1);
        return;
      }
      storage := storage - {v.key};
      res := res.(deleted := res.deleted + 1, bytesFreed := res.bytesFreed + v.size);
      freed := freed + [v];
    }

    /** When the version was last used, and whether that protects it. */
    method Judge(v: Version) returns (lastAccess: int, recent: bool)
      requires !p.access(v.key).Unreadable?
      ensures recent <==> !p.Idle(v)
      ensures lastAccess == p.LastAccess(v)
    {
      lastAccess := v.modTime;
      if p.access(v.key).Recorded? {
        lastAccess := p.access(v.key).at;
      }
      recent := p.Cutoff().Some? && !(lastAccess < p.Cutoff().value);
    }

    /** A chosen version is deleted unless the pass is a dry run. */
    method Dispose(v: Version, ghost chosen: set<Version>)
      requires v in listed && v !in chosen
      requires Tallied(G(), chosen, storage, freed, res.deleted, res.failedDeletes, res.bytesFreed)
      modifies this`storage, this`res, this`freed
      ensures Tallied(G(), chosen + {v}, storage, freed, res.deleted, res.failedDeletes, res.bytesFreed)
      ensures storage == old(storage) - Removed({v})
      ensures Outcomes(res) == Outcomes(old(res)) + (if dryRun then 0 else 1)
      ensures SameButOutcomes(old(res), res)
    {
      RemovedOne(v);
      hide Removed, Tallied;
      if dryRun {
        TallyDry(G(), chosen, storage, freed, res.deleted, res.failedDeletes, res.bytesFreed, v);
        return;
      }
      if v.key in failing {
        TallyRefused(G(), chosen, storage, freed, res.deleted, res.failedDeletes, res.bytesFreed, v);
      } else if v.key in storage {
        TallyDeleted(G(), chosen, storage, freed, res.deleted, res.failedDeletes, res.bytesFreed, v);
      } else {
        TallyMissing(G(), chosen, storage, freed, res.deleted, res.failedDeletes, res.bytesFreed, v);
      }
      DeleteKey(v);
      assert v.key !in old(storage) ==> storage == old(storage);
    }

    /** One version outside the protected top. */
    method Consider(family: string, v: Version)
      requires Valid() && !p.access(v.key).Unreadable? && v in listed && v !in Unprotected(reports)
      modifies this
      ensures Valid() && reports == old(reports) + [Report(v, family, p.LastAccess(v), !p.Idle(v))]
      ensures storage == if p.Idle(v) then old(storage) - Removed({v}) else old(storage)
      ensures res.protectedByMin == old(res).protectedByMin && res.families == old(res).families && res.scanned == old(res).scanned
    {
      hide Pass.Idle, Pass.LastAccess, Unprotected, Removed, Tallied;
      var lastAccess, recent := Judge(v);
      var report := Report(v, family, lastAccess, recent);
      ghost var chosen := Unprotected(reports);
      ReportedOne(reports, report);
      assert chosen + {} == chosen;
      hide CountUnprotected, CountsExact;
      reports := reports + [report];
      if recent {
        res := res.(protectedByAccess := res.protectedByAccess + 1);
      } else {
        res := res.(candidates := res.candidates + 1);
        Dispose(v, chosen);
      }
    }

    /** sweepFamily: the first minVersions of the sorted family are protected. An access
        that cannot be read ends the pass. */
    method SweepFamily(family: string, versions: seq<Version>) returns (ok: bool)
      requires Valid() && DistinctKeys(versions) && p.policy.minVersions > 0
      requires Elements(versions) <= listed && Elements(versions) !! Unprotected(reports)
      modifies this
      ensures Valid() && res.families == old(res).families && res.scanned == old(res).scanned
      ensures ok <==> forall v :: !Unknown(p, Elements(versions), v)
      ensures ok ==> Swept(Elements(versions), |versions|, old(Now()), Now())
      ensures forall v :: v in FamilySelection(p, Elements(versions)) <==> LetsGo(p, Elements(versions), v)
      ensures forall v :: Unknown(p, Elements(versions), v) <==> Unjudged(p, Elements(versions), v)
    {
      FamilyRaw(p, Elements(versions));
      var sorted := Sort(versions);
      SortSorts(versions);
      hide Sort, Rank, Unprotected, Part, Removed, FamilySelection, DistinctKeys, Unknown;
      ok := SweepSorted(family, sorted);
    }

    /** The whole family has been dealt with. */
    ghost predicate Swept(family: set<Version>, size: nat, start: Start, now: Start) {
      && now.chosen == start.chosen + FamilySelection(p, family)
      && now.storage == start.storage - Removed(FamilySelection(p, family))
      && now.counted == start.counted + size
    }

    method SweepSorted(family: string, sorted: seq<Version>) returns (ok: bool)
      requires Valid() && IsSorted(sorted) && p.policy.minVersions > 0
      requires Elements(sorted) <= listed && Elements(sorted) !! Unprotected(reports)
      modifies this
      ensures Valid() && res.families == old(res).families && res.scanned == old(res).scanned
      ensures ok <==> forall v :: !Unknown(p, Elements(sorted), v)
      ensures ok ==> Swept(Elements(sorted), |sorted|, old(Now()), Now())
    {
      ghost var all, start := Elements(sorted), Now();
      var top := p.policy.minVersions;
      if top > |sorted| {
        top := |sorted|;
      }
      ProgressStarts(all, sorted, start);
      hide Valid, Unprotected, Progress, IsSorted, Rank, Elements, Unknown, Removed, FamilySelection;
      for i := 0 to |sorted|
        invariant Valid() && res.families == old(res).families && res.scanned == old(res).scanned
        invariant Progress(all, sorted, i, start, Now())
      {
        ghost var now := Now();
        ProgressFresh(sorted, i, start, now);
        ok := SweepOne(family, sorted[i], i < top);
        if !ok {
          UnknownFound(all, sorted, i);
          return;
        }
        ProgressGoesOn(all, sorted, i, start, now);
      }
      ProgressEnds(all, sorted, start, Now());
      return true;
    }

    lemma ProgressStarts(all: set<Version>, sorted: seq<Version>, now: Start)
      ensures Progress(all, sorted, 0, now, now)
    {
      assert Part(p, all, sorted[..0]) == {};
      assert Removed({}) == {};
    }

    lemma ProgressFresh(sorted: seq<Version>, i: nat, start: Start, now: Start)
      requires Progress(Elements(sorted), sorted, i, start, now) && i < |sorted| && IsSorted(sorted)
      requires Elements(sorted) !! start.chosen
      ensures sorted[i] in Elements(sorted) && sorted[i] !in now.chosen
    {
      FreshInSweep(Elements(sorted), sorted, i, start.chosen);
    }

    lemma ProgressEnds(all: set<Version>, sorted: seq<Version>, start: Start, now: Start)
      requires Elements(sorted) == all && Progress(all, sorted, |sorted|, start, now)
      ensures Swept(all, |sorted|, start, now) && forall v :: !Unknown(p, all, v)
    {
      PartEnds(p, all, sorted);
      AllKnown(all, sorted);
    }

    lemma UnknownFound(all: set<Version>, sorted: seq<Version>, i: nat)
      requires IsSorted(sorted) && Elements(sorted) == all && i < |sorted|
      requires i >= p.policy.minVersions && p.access(sorted[i].key).Unreadable?
      ensures Unknown(p, all, sorted[i])
    {
      PositionIsRank(sorted, i);
      assert sorted[i] in all;
    }

    ghost function Now(): Start
      reads this
    {
      Start(Unprotected(reports), storage, Counted())
    }

    /** How far the sweep of one family has come since it started. */
    ghost predicate Progress(all: set<Version>, sorted: seq<Version>, i: nat, start: Start, now: Start) {
      && i <= |sorted|
      && now.chosen == start.chosen + Part(p, all, sorted[..i])
      && now.storage == start.storage - Removed(Part(p, all, sorted[..i]))
      && now.counted == start.counted + i
      && forall j :: 0 <= j < i ==> !Unknown(p, all, sorted[j])
    }

    /** A version that is kept, or one that is chosen and removed. */
    ghost function After(v: Version, chosen: bool, now: Start): Start {
      if chosen then Start(now.chosen + {v}, now.storage - Removed({v}), now.counted + 1)
      else now.(counted := now.counted + 1)
    }

    lemma ProgressGoesOn(all: set<Version>, sorted: seq<Version>, i: nat, start: Start, now: Start)
      requires i < |sorted| && IsSorted(sorted) && Elements(sorted) == all && Progress(all, sorted, i, start, now)
      requires i >= p.policy.minVersions ==> !p.access(sorted[i].key).Unreadable?
      ensures Progress(all, sorted, i + 1, start, After(sorted[i], i >= p.policy.minVersions && p.Idle(sorted[i]), now))
    {
      var v, seen := sorted[i], Part(p, all, sorted[..i]);
      PartGrows(p, all, sorted, i);
      hide Part, Removed, FamilySelection, IsSorted, Elements, Pass.Idle, Rank;
      if i >= p.policy.minVersions && p.Idle(v) {
        RemovedMore(seen, v);
        Regroup(start.chosen, seen, {v});
        Regroup(start.storage, Removed(seen), Removed({v}));
      } else {
        assert seen + {} == seen;
      }
    }

    /** One round of the loop over the sorted family. */
    method SweepOne(family: string, v: Version, protects: bool) returns (ok: bool)
      requires Valid() && v in listed && v !in Unprotected(reports)
      modifies this
      ensures Valid() && res.families == old(res).families && res.scanned == old(res).scanned
      ensures ok <==> protects || !p.access(v.key).Unreadable?
      ensures ok ==> Now() == After(v, !protects && p.Idle(v), old(Now()))
    {
      hide Unprotected, Pass.Idle, Pass.LastAccess, Removed, CountsExact, CountUnprotected, Tallied;
      if protects {
        res := res.(protectedByMin := res.protectedByMin + 1);
        return true;
      }
      if p.access(v.key).Unreadable? {
        return false;
      }
      ReportedOne(reports, Report(v, family, p.LastAccess(v), !p.Idle(v)));
      Consider(family, v);
      return true;
    }

    function Counted(): nat
      reads this
    {
      res.protectedByMin + |reports|
    }

    lemma RemovedMore(versions: set<Version>, v: Version)
      ensures Removed(versions + {v}) == Removed(versions) + Removed({v})
    {
      var all := versions + {v};
      forall k | k in KeysOf(all) ensures k in KeysOf(versions) || k in KeysOf({v}) {
      }
      forall u | u in versions ensures u in all && u.key in KeysOf(all) {
      }
      assert v in all && v in {v};
    }

    lemma FreshInSweep(all: set<Version>, sorted: seq<Version>, i: nat, before: set<Version>)
      requires IsSorted(sorted) && Elements(sorted) == all && i < |sorted| && all !! before
      ensures sorted[i] !in before + Part(p, all, sorted[..i])
    {
      assert sorted[i] in all;
      if sorted[i] in sorted[..i] {
        PrecedesStrict(sorted[i], sorted[i]);
      }
    }

    lemma AllKnown(all: set<Version>, sorted: seq<Version>)
      requires Elements(sorted) == all && forall j :: 0 <= j < |sorted| ==> !Unknown(p, all, sorted[j])
      ensures forall v :: !Unknown(p, all, v)
    {
      forall v ensures !Unknown(p, all, v) {
        if v in all {
          var j :| 0 <= j < |sorted| && sorted[j] == v;
        }
      }
    }

    // ---- the whole pass ----

    /** The grouping of what has been listed so far. */
    ghost predicate Grouped(families: map<string, seq<Version>>, listed: set<Version>) {
      && (forall f :: f in families ==> Gathers(families[f], FamilySet(p, listed, f)))
      && forall f :: f !in families ==> FamilySet(p, listed, f) == {}
    }

    ghost predicate Ordered(families: map<string, seq<Version>>, order: seq<string>) {
      && (forall f :: f in families <==> f in order)
      && forall i, j :: 0 <= i < j < |order| ==> order[i] != order[j]
    }

    ghost predicate Gathers(versions: seq<Version>, family: set<Version>) {
      DistinctKeys(versions) && Elements(versions) == family
    }

    /** Where the families of the first `n` listed objects appear first: in increasing places. */
    ghost predicate FirstSeen(listing: seq<Version>, n: nat, order: seq<string>, first: seq<nat>)
      requires n <= |listing|
    {
      && |first| == |order|
      && (forall i :: 0 <= i < |order| ==> first[i] < n && FamilyOf(p, listing[first[i]].key) == Some(order[i]))
      && (forall i, m :: 0 <= i < |order| && 0 <= m < first[i] ==> m < |listing| && FamilyOf(p, listing[m].key) != Some(order[i]))
      && forall i, j :: 0 <= i < j < |first| ==> first[i] < first[j]
    }

    lemma SeenFirst(listing: seq<Version>, n: nat, families: map<string, seq<Version>>, order: seq<string>, first: seq<nat>, f: string)
      requires n < |listing| && FirstSeen(listing, n, order, first) && FamilyOf(p, listing[n].key) == Some(f)
      requires Grouped(families, Elements(listing[..n]))
      ensures if f in families then FirstSeen(listing, n + 1, order, first)
              else FirstSeen(listing, n + 1, order + [f], first + [n])
    {
      if f !in families {
        forall m | 0 <= m < n ensures FamilyOf(p, listing[m].key) != Some(f) {
          assert listing[..n][m] in Elements(listing[..n]);
          assert listing[m] !in FamilySet(p, Elements(listing[..n]), f);
        }
      }
      hide FamilyOf, Grouped, FamilySet, Elements;
    }

    lemma SeenOn(listing: seq<Version>, n: nat, order: seq<string>, first: seq<nat>)
      requires n < |listing| && FirstSeen(listing, n, order, first)
      ensures FirstSeen(listing, n + 1, order, first)
    {
    }

    /** The listing of apply: families in the order of their first members, whose places in
        the listing are `first`. */
    method Group(listing: seq<Version>)
      returns (families: map<string, seq<Version>>, order: seq<string>, ghost first: seq<nat>)
      requires DistinctKeys(listing)
      ensures Grouped(families, Elements(listing)) && Ordered(families, order)
      ensures FirstSeen(listing, |listing|, order, first)
    {
      families, order, first := map[], [], [];
      assert listing[..0] == [] && listing[..|listing|] == listing;
      GroupedNone();
      hide Grouped, Ordered, FamilyOf, Elements, DistinctKeys, FirstSeen;
      assert FirstSeen(listing, 0, order, first) by {
        SeenNone(listing);
      }
      for i := 0 to |listing|
        invariant Grouped(families, Elements(listing[..i])) && Ordered(families, order)
        invariant FirstSeen(listing, i, order, first)
      {
        families, order, first := GroupOne(listing, i, families, order, first);
      }
    }

    /** One listed object. */
    method GroupOne(listing: seq<Version>, i: nat, before: map<string, seq<Version>>, seen: seq<string>, ghost places: seq<nat>)
      returns (families: map<string, seq<Version>>, order: seq<string>, ghost first: seq<nat>)
      requires DistinctKeys(listing) && i < |listing| && FirstSeen(listing, i, seen, places)
      requires Grouped(before, Elements(listing[..i])) && Ordered(before, seen)
      ensures Grouped(families, Elements(listing[..i + 1])) && Ordered(families, order)
      ensures FirstSeen(listing, i + 1, order, first)
    {
      hide Grouped, Ordered, FamilyOf, Elements, DistinctKeys, FirstSeen;
      var v := listing[i];
      NextListed(listing, i);
      var family := FamilyOf(p, v.key);
      if family.None? {
        GroupedSkip(before, Elements(listing[..i]), v);
        SeenOn(listing, i, seen, places);
        return before, seen, places;
      }
      SeenFirst(listing, i, before, seen, places, family.value);
      first := if family.value in before then places else places + [i];
      GroupedMore(before, Elements(listing[..i]), v, family.value);
      OrderGrows(before, seen, family.value, Members(before, family.value) + [v]);
      families, order := AddMember(before, seen, v, family.value);
    }

    method AddMember(before: map<string, seq<Version>>, seen: seq<string>, v: Version, f: string)
      returns (families: map<string, seq<Version>>, order: seq<string>)
      ensures families == before[f := Members(before, f) + [v]]
      ensures order == if f in before then seen else seen + [f]
    {
      families, order := before, seen;
      if f !in families {
        order := order + [f];
        families := families[f := []];
      }
      families := families[f := families[f] + [v]];
    }

    lemma SeenNone(listing: seq<Version>)
      ensures FirstSeen(listing, 0, [], [])
    {
    }

    lemma GroupedNone()
      ensures Grouped(map[], Elements([])) && Ordered(map[], [])
    {
    }

    lemma NextListed(listing: seq<Version>, i: nat)
      requires DistinctKeys(listing) && i < |listing|
      ensures Elements(listing[..i + 1]) == Elements(listing[..i]) + {listing[i]}
      ensures forall u :: u in Elements(listing[..i]) ==> u.key != listing[i].key
    {
      assert listing[..i + 1] == listing[..i] + [listing[i]];
    }

    lemma GroupedSkip(families: map<string, seq<Version>>, listed: set<Version>, v: Version)
      requires Grouped(families, listed) && FamilyOf(p, v.key).None?
      ensures Grouped(families, listed + {v})
    {
      forall f ensures FamilySet(p, listed + {v}, f) == FamilySet(p, listed, f) {
      }
    }

    function Members(families: map<string, seq<Version>>, f: string): seq<Version> {
      if f in families then families[f] else []
    }

    lemma GroupedMore(families: map<string, seq<Version>>, listed: set<Version>, v: Version, f: string)
      requires Grouped(families, listed) && FamilyOf(p, v.key) == Some(f)
      requires forall u :: u in listed ==> u.key != v.key
      ensures Grouped(families[f := Members(families, f) + [v]], listed + {v})
    {
      FamilyGrows(listed, v, f);
      OthersAbsent(listed, v, f);
      hide FamilySet, Gathers, FamilyOf;
      MembersGather(families, listed, f);
      OneMore(Members(families, f), FamilySet(p, listed, f), v);
    }

    lemma FamilyGrows(listed: set<Version>, v: Version, f: string)
      requires FamilyOf(p, v.key) == Some(f)
      ensures FamilySet(p, listed + {v}, f) == FamilySet(p, listed, f) + {v}
      ensures forall g :: g != f ==> FamilySet(p, listed + {v}, g) == FamilySet(p, listed, g)
    {
    }

    lemma OthersAbsent(listed: set<Version>, v: Version, f: string)
      requires forall u :: u in listed ==> u.key != v.key
      ensures forall u :: u in FamilySet(p, listed, f) ==> u.key != v.key
    {
    }

    lemma MembersGather(families: map<string, seq<Version>>, listed: set<Version>, f: string)
      requires f in families ==> Gathers(families[f], FamilySet(p, listed, f))
      requires f !in families ==> FamilySet(p, listed, f) == {}
      ensures Gathers(Members(families, f), FamilySet(p, listed, f))
    {
    }

    lemma OneMore(versions: seq<Version>, family: set<Version>, v: Version)
      requires Gathers(versions, family) && forall u :: u in family ==> u.key != v.key
      ensures Gathers(versions + [v], family + {v})
    {
      forall i | 0 <= i < |versions| ensures versions[i] in family {
        assert versions[i] in Elements(versions);
      }
    }

    lemma OrderGrows(families: map<string, seq<Version>>, order: seq<string>, f: string, members: seq<Version>)
      requires Ordered(families, order)
      ensures Ordered(families[f := members], if f in families then order else order + [f])
    {
    }

    // ---- family after family ----

    ghost predicate InFamilies(v: Version, fs: seq<string>) {
      FamilyOf(p, v.key).Some? && FamilyOf(p, v.key).value in fs
    }

    ghost function SelectedIn(all: set<Version>, fs: seq<string>): set<Version> {
      set v | v in Selection(p, all) && InFamilies(v, fs)
    }

    ghost function TakingPart(all: set<Version>, fs: seq<string>): set<Version> {
      set v | v in all && InFamilies(v, fs)
    }

    /** The families dealt with so far, when the pass began with the given storage. */
    ghost predicate PassProgress(all: set<Version>, fs: seq<string>, stored: set<Key>, now: Start) {
      && now.chosen == SelectedIn(all, fs)
      && now.storage == stored - Removed(SelectedIn(all, fs))
      && now.counted == |TakingPart(all, fs)|
    }

    lemma SelectedMore(all: set<Version>, fs: seq<string>, f: string)
      ensures SelectedIn(all, fs + [f]) == SelectedIn(all, fs) + FamilySelection(p, FamilySet(p, all, f))
      ensures TakingPart(all, fs + [f]) == TakingPart(all, fs) + FamilySet(p, all, f)
      ensures f !in fs ==> TakingPart(all, fs) !! FamilySet(p, all, f) && SelectedIn(all, fs) !! FamilySet(p, all, f)
    {
      hide FamilyOf, Rank, Pass.Idle;
    }

    lemma RemovedUnion(a: set<Version>, b: set<Version>)
      ensures Removed(a + b) == Removed(a) + Removed(b)
    {
      forall v | v in a ensures v in a + b && v.key in KeysOf(a + b) {
      }
      forall v | v in b ensures v in a + b && v.key in KeysOf(a + b) {
      }
    }

    lemma GatheredCount(versions: seq<Version>, family: set<Version>)
      requires Gathers(versions, family)
      ensures |versions| == |family|
    {
      SortSorts(versions);
      DistinctCount(Sort(versions));
    }

    lemma UnionCount(a: set<Version>, b: set<Version>)
      requires a !! b
      ensures |a + b| == |a| + |b|
    {
    }

    lemma FamilySwept(all: set<Version>, fs: seq<string>, f: string, stored: set<Key>, size: nat, before: Start, now: Start)
      requires PassProgress(all, fs, stored, before) && f !in fs && size == |FamilySet(p, all, f)|
      requires Swept(FamilySet(p, all, f), size, before, now)
      ensures PassProgress(all, fs + [f], stored, now)
    {
      var family := FamilySet(p, all, f);
      SelectedMore(all, fs, f);
      RemovedUnion(SelectedIn(all, fs), FamilySelection(p, family));
      UnionCount(TakingPart(all, fs), family);
      Regroup(stored, Removed(SelectedIn(all, fs)), Removed(FamilySelection(p, family)));
      hide SelectedIn, TakingPart, FamilySet, FamilySelection, Removed;
    }

    lemma PassStarts(all: set<Version>, stored: set<Key>)
      ensures PassProgress(all, [], stored, Start({}, stored, 0))
    {
      assert SelectedIn(all, []) == {} && TakingPart(all, []) == {};
      assert Removed({}) == {};
    }

    /** The objects that take part in the pass at all. */
    ghost function Eligible(all: set<Version>): set<Version> {
      set v | v in all && FamilyOf(p, v.key).Some?
    }

    lemma PassEnds(all: set<Version>, families: map<string, seq<Version>>, order: seq<string>)
      requires Grouped(families, all) && Ordered(families, order)
      ensures SelectedIn(all, order) == Selection(p, all) && TakingPart(all, order) == Eligible(all)
    {
      forall v | v in Eligible(all) ensures InFamilies(v, order) {
        assert v in FamilySet(p, all, FamilyOf(p, v.key).value);
      }
    }

    /** What a whole pass did: exactly the policy's selection is chosen and removed, and the
        three counters account for every object that belongs to a family. */
    ghost predicate Applied(all: set<Version>, stored: set<Key>, now: Start) {
      && now.chosen == Selection(p, all)
      && now.storage == stored - Removed(Selection(p, all))
      && now.counted == |Eligible(all)|
    }

    lemma PassRaw(all: set<Version>)
      ensures forall v :: v in Selection(p, all) <==>
        v in all && FamilyOf(p, v.key).Some? && LetsGo(p, FamilySet(p, all, FamilyOf(p, v.key).value), v)
      ensures forall v :: Blind(all, v) <==>
        FamilyOf(p, v.key).Some? && Unjudged(p, FamilySet(p, all, FamilyOf(p, v.key).value), v)
    {
      forall v ensures v in Selection(p, all) <==>
        v in all && FamilyOf(p, v.key).Some? && LetsGo(p, FamilySet(p, all, FamilyOf(p, v.key).value), v)
      {
        SelectionMeans(p, all, v);
      }
      forall v ensures Blind(all, v) <==>
        FamilyOf(p, v.key).Some? && Unjudged(p, FamilySet(p, all, FamilyOf(p, v.key).value), v)
      {
        if FamilyOf(p, v.key).Some? {
          FamilyRaw(p, FamilySet(p, all, FamilyOf(p, v.key).value));
        }
      }
    }

    method NoteFamily()
      requires Valid()
      modifies this`res
      ensures Valid() && res == old(res).(families := old(res).families + 1)
    {
      hide Tallied, CountsExact, CountUnprotected;
      res := res.(families := res.families + 1);
    }

    method NoteScanned(n: nat)
      requires Valid()
      modifies this`res
      ensures Valid() && res == old(res).(scanned := n)
    {
      hide Tallied, CountsExact, CountUnprotected;
      res := res.(scanned := n);
    }

    /** apply; Preview is the same pass as a dry run with its reports. */
    method Apply(listing: seq<Version>, listFails: bool) returns (ok: bool)
      requires Valid() && DistinctKeys(listing) && Elements(listing) == listed && reports == [] && Unused(res)
      modifies this
      ensures Valid()
      ensures p.policy.minVersions <= 0 || p.mirror ==> ok && reports == [] && storage == old(storage) && res == old(res)
      ensures p.policy.minVersions > 0 && !p.mirror && ok ==>
        Applied(Elements(listing), old(storage), Now()) && res.scanned == |listing|
      ensures p.policy.minVersions > 0 && !p.mirror && (listFails || !p.resolves) ==> !ok && storage == old(storage)
      ensures p.policy.minVersions > 0 && !p.mirror && !listFails && p.resolves ==>
        (ok <==> forall v :: !Blind(Elements(listing), v))
      ensures forall v :: v in Selection(p, listed) <==>
        v in listed && FamilyOf(p, v.key).Some? && LetsGo(p, FamilySet(p, listed, FamilyOf(p, v.key).value), v)
      ensures forall v :: Blind(listed, v) <==>
        FamilyOf(p, v.key).Some? && Unjudged(p, FamilySet(p, listed, FamilyOf(p, v.key).value), v)
    {
      PassRaw(listed);
      hide Valid, Applied, Blind, Elements, DistinctKeys, Now;
      if !p.policy.Enabled() {
        return true;
      }
      if p.mirror {
        return true;
      }
      if !p.resolves {
        return false;
      }
      ok := ListAndSweep(listing, listFails);
    }

    /** The pass itself. */
    method ListAndSweep(listing: seq<Version>, listFails: bool) returns (ok: bool)
      requires Valid() && DistinctKeys(listing) && Elements(listing) == listed && reports == [] && Unused(res)
      requires p.policy.Enabled()
      modifies this
      ensures Valid()
      ensures ok ==> Applied(Elements(listing), old(storage), Now()) && res.scanned == |listing|
      ensures listFails ==> !ok && storage == old(storage)
      ensures !listFails ==> (ok <==> forall v :: !Blind(Elements(listing), v))
    {
      hide SelectedIn, TakingPart, Selection, Eligible, Removed, Grouped, Ordered, FamilySelection, Elements, Rank, Unprotected;
      hide Blind, DistinctKeys, Valid, FirstSeen;
      var families, order;
      ghost var first;
      families, order, first := Group(listing);
      NoteScanned(|listing|);
      if listFails {
        return false;
      }
      PassEnds(Elements(listing), families, order);
      ok := SweepAll(listing, families, order);
    }

    lemma SweepStarts(all: set<Version>, order: seq<string>)
      requires reports == [] && Counted() == 0
      ensures PassProgress(all, order[..0], storage, Now())
    {
      PassStarts(all, storage);
      NothingReported();
      assert order[..0] == [];
      hide PassProgress, Unprotected;
    }

    /** The second loop of apply. */
    method SweepAll(listing: seq<Version>, families: map<string, seq<Version>>, order: seq<string>) returns (ok: bool)
      requires Valid() && reports == [] && Counted() == 0 && p.policy.minVersions > 0
      requires Grouped(families, Elements(listing)) && Ordered(families, order) && Elements(listing) == listed
      modifies this
      ensures Valid() && res.scanned == old(res).scanned
      ensures ok ==> PassProgress(Elements(listing), order, old(storage), Now())
      ensures ok ==> res.families == old(res).families + |order|
      ensures ok <==> forall v :: !Blind(Elements(listing), v)
    {
      ghost var all := Elements(listing);
      hide Valid, Now, Counted, Removed, PassProgress, Unprotected, Elements, CountsExact, CountUnprotected, Tallied;
      hide Blind, Sighted, Unknown, Grouped, Ordered, Outcomes;
      SweepStarts(all, order);
      for j := 0 to |order|
        invariant Valid() && res.scanned == old(res).scanned && res.families == old(res).families + j
        invariant PassProgress(all, order[..j], old(storage), Now())
        invariant forall i :: 0 <= i < j ==> Sighted(all, order[i])
      {
        OrderNext(families, order, j);
        ok := SweepNext(families, order, j, all, old(storage));
        if !ok {
          return;
        }
      }
      NoneBlind(all, families, order);
      assert order[..|order|] == order;
      return true;
    }

    /** One family of the pass. */
    method SweepNext(families: map<string, seq<Version>>, order: seq<string>, j: nat, ghost all: set<Version>, ghost stored: set<Key>)
      returns (ok: bool)
      requires Valid() && p.policy.minVersions > 0 && j < |order| && order[j] in families
      requires Grouped(families, all) && Ordered(families, order) && PassProgress(all, order[..j], stored, Now()) && all == listed
      modifies this
      ensures Valid() && res.scanned == old(res).scanned && res.families == old(res).families + 1
      ensures ok <==> Sighted(all, order[j])
      ensures ok ==> PassProgress(all, order[..j + 1], stored, Now())
      ensures !ok ==> exists v :: Blind(all, v)
    {
      var f := order[j];
      NoteFamily();
      hide Valid;
      FamilyReady(families, order, j, all, stored, Now());
      hide PassProgress, Unprotected, Elements, Selection, FamilySelection, Rank, Removed, CountsExact, CountUnprotected;
      hide Tallied, Blind, Sighted, Unknown, Grouped, Ordered, DistinctKeys, FamilySet, Outcomes;
      ghost var before := Now();
      ok := SweepFamily(f, families[f]);
      BlindFamily(all, f, families[f]);
      if ok {
        FamilySwept(all, order[..j], f, stored, |families[f]|, before, Now());
      }
    }

    /** A version that the policy has to judge, with an access state that cannot be read. */
    ghost predicate Blind(all: set<Version>, v: Version) {
      FamilyOf(p, v.key).Some? && Unknown(p, FamilySet(p, all, FamilyOf(p, v.key).value), v)
    }

    ghost predicate Sighted(all: set<Version>, f: string) {
      forall v :: !Unknown(p, FamilySet(p, all, f), v)
    }

    lemma BlindFamily(all: set<Version>, f: string, versions: seq<Version>)
      requires Elements(versions) == FamilySet(p, all, f)
      ensures Sighted(all, f) <==> forall v :: !Unknown(p, Elements(versions), v)
      ensures !Sighted(all, f) ==> exists v :: Blind(all, v)
    {
      if v :| Unknown(p, FamilySet(p, all, f), v) {
        assert Blind(all, v);
      }
    }

    lemma BlindInOrder(all: set<Version>, families: map<string, seq<Version>>, order: seq<string>, v: Version)
      requires Grouped(families, all) && Ordered(families, order) && Blind(all, v)
      ensures exists i :: 0 <= i < |order| && !Sighted(all, order[i])
    {
      var f := FamilyOf(p, v.key).value;
      assert v in FamilySet(p, all, f);
      assert f in order;
      var i :| 0 <= i < |order| && order[i] == f;
      assert !Sighted(all, order[i]);
    }

    lemma NoneBlind(all: set<Version>, families: map<string, seq<Version>>, order: seq<string>)
      requires Grouped(families, all) && Ordered(families, order)
      requires forall i :: 0 <= i < |order| ==> Sighted(all, order[i])
      ensures forall v :: !Blind(all, v)
    {
      forall v ensures !Blind(all, v) {
        if Blind(all, v) {
          BlindInOrder(all, families, order, v);
        }
      }
    }

    lemma FamilyReady(families: map<string, seq<Version>>, order: seq<string>, j: nat, all: set<Version>, stored: set<Key>, now: Start)
      requires Grouped(families, all) && Ordered(families, order) && j < |order|
      requires PassProgress(all, order[..j], stored, now)
      ensures order[j] in families && DistinctKeys(families[order[j]]) && order[j] !in order[..j]
      ensures Elements(families[order[j]]) == FamilySet(p, all, order[j])
      ensures |families[order[j]]| == |FamilySet(p, all, order[j])|
      ensures Elements(families[order[j]]) !! now.chosen
      ensures order[..j + 1] == order[..j] + [order[j]]
    {
      var f := order[j];
      OrderNext(families, order, j);
      SelectedMore(all, order[..j], f);
      hide FamilySet, SelectedIn, TakingPart, Removed, FamilySelection, Ordered;
      GatheredCount(families[f], FamilySet(p, all, f));
    }

    lemma OrderNext(families: map<string, seq<Version>>, order: seq<string>, j: nat)
      requires Ordered(families, order) && j < |order|
      ensures order[j] in families && order[j] !in order[..j] && order[..j + 1] == order[..j] + [order[j]]
    {
      assert order[j] in order;
    }

    lemma RemovedOne(v: Version)
      ensures Removed({v}) == if dryRun || v.key in failing then {} else {v.key}
    {
      assert v in {v};
    }
  }
}
