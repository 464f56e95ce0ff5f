/** Two synchronisations of a remote over one cache: what the second still has to do. */
module MirrorResume {
  import opened Text
  import opened CacheModel
  import opened CacheRuns
  import opened CacheEngine
  import opened MirrorDiff

  /** What the environment contributes to one visit of the diff: the clock, the failing
      reads, and what others do before the index is asked and before the storage is. */
  datatype Glance = Glance(now: int, indexFault: bool, statFault: bool, before: seq<Label>, between: seq<Label>)

  /** One path of the remote. */
  datatype Item = Item(path: string, resolved: Resolved)

  /** The visit asked the states at these positions of the run. */
  ghost predicate Taken(h: History, from: nat, item: Item, glance: Glance, v: Visit, asked: nat, statted: nat) {
    && from <= asked <= statted < |h.states| && v.asked == h.states[asked] && v.statted == h.states[statted]
    && v.path == item.path && v.resolved == item.resolved
    && v.now == glance.now && v.indexFault == glance.indexFault && v.statFault == glance.statFault
  }

  ghost predicate Evictionless(h: History, from: nat) {
    forall n :: from <= n < |h.labels| ==> !Evicts(h.labels[n])
  }

  // ---- the fate of one path ----

  /** The record of a mutable path is there and has not expired. */
  predicate Unexpired(c: Config, v: Visit) {
    v.resolved.Target? && c.kind(v.resolved.key) == Mutable ==>
      v.resolved.key in v.asked.index && !v.asked.index[v.resolved.key].Expired(v.now)
  }

  /** Between the two questions of the diff the version that the record named was deleted. */
  ghost predicate Overtaken(c: Config, h: History, v: Visit, asked: nat, statted: nat)
    requires v.resolved.Target?
  {
    && c.kind(v.resolved.key) == Mutable && v.resolved.key in v.asked.index
    && exists n :: asked <= n < statted && n < |h.labels| && h.labels[n] == Delete(v.asked.index[v.resolved.key].BytesKey(), false)
  }

  /** What a later pass still selects of the paths whose objects are known. */
  ghost predicate Remains(c: Config, h: History, v: Visit, asked: nat, statted: nat) {
    v.resolved.Target? && (!Unexpired(c, v) || Overtaken(c, h, v, asked, statted))
  }

  /** The object of the path, if it has one, was known at this position of the run. */
  ghost predicate Settled(c: Config, h: History, from: nat, resolved: Resolved, at: nat) {
    resolved.Target? ==> from <= at < |h.states| && Known(c, h.states[at], resolved.key)
  }

  predicate Proper(c: Config, resolved: Resolved) {
    resolved.Target? ==> c.kind(resolved.key) != Version
  }

  /** A path whose object has become known is selected by a later diff exactly when its
      record has expired, or was replaced just then. */
  lemma SettledIsSelected(
      c: Config, h0: History, h: History, from: nat, done: nat, item: Item, g: Glance, v: Visit, asked: nat, statted: nat)
    requires c.WellFormed() && h.Of(c) && |h.states| == |h.labels| + 1 && h.Extends(h0) && Evictionless(h, from)
    requires |h0.states| == |h0.labels| + 1
    requires Settled(c, h0, from, item.resolved, done) && Proper(c, item.resolved)
    requires Taken(h, h0.Now(), item, g, v, asked, statted) && Sound(g)
    ensures StatusOf(c, v) == ToSync <==> Remains(c, h, v, asked, statted)
    ensures StatusOf(c, v) != Broken
  {
    hide Run, Known;
    if v.resolved.Target? {
      var k := v.resolved.key;
      assert h.states[done] == h0.states[done];
      KnownStays(c, h.states, h.labels, done, asked, k);
      KnownStays(c, h.states, h.labels, done, statted, k);
      if c.kind(k) == Mutable {
        KnownRecord(c, v.asked, k);
        BytesStayUnlessDeleted(c, h.states, h.labels, asked, statted, k);
      } else {
        KnownObject(c, v.statted, k);
      }
    }
  }

  lemma KnownRecord(c: Config, s: State, k: Key)
    requires c.kind(k) == Mutable
    ensures Known(c, s, k) <==> k in s.index
  {
  }

  lemma KnownObject(c: Config, s: State, k: Key)
    requires c.kind(k) != Mutable
    ensures Known(c, s, k) <==> k in s.storage
  {
  }

  predicate Sound(g: Glance) {
    !g.indexFault && !g.statFault
  }

  /** What the first diff found present was known then. */
  lemma PresentIsKnown(c: Config, v: Visit)
    requires StatusOf(c, v) == Here
    ensures Known(c, if c.kind(v.resolved.key) == Mutable then v.asked else v.statted, v.resolved.key)
  {
  }

  // ---- the two passes and the download between them ----

  /** One pass of the diff over the cache while others use it. */
  method Survey(e: Engine, items: seq<Item>, glances: seq<Glance>)
    returns (visits: seq<Visit>, ghost asked: seq<nat>, ghost statted: seq<nat>)
    requires e.Valid() && |glances| == |items|
    modifies e
    ensures e.Valid() && e.run.Extends(old(e.run))
    ensures |visits| == |asked| == |statted| == |items|
    ensures forall i :: 0 <= i < |items| ==>
      Taken(e.run, old(e.run).Now(), items[i], glances[i], visits[i], asked[i], statted[i])
  {
    hide Inv, Run;
    visits, asked, statted := [], [], [];
    for i := 0 to |items|
      invariant e.Valid() && e.run.Extends(old(e.run))
      invariant |visits| == |asked| == |statted| == i
      invariant forall j :: 0 <= j < i ==>
        Taken(e.run, old(e.run).Now(), items[j], glances[j], visits[j], asked[j], statted[j])
    {
      var g := glances[i];
      ghost var begun := e.run;
      e.Others(g.before, None);
      var first := e.Abs();
      ghost var a := e.run;
      e.Others(g.between, None);
      visits := visits + [Visit(items[i].path, items[i].resolved, first, e.Abs(), g.now, g.indexFault, g.statFault)];
      asked, statted := asked + [a.Now()], statted + [e.run.Now()];
    }
  }

  /** The prefetch went through. */
  predicate Through(r: Prefetched) {
    r.Warm? || r.Got?
  }

  /** No further attempt is made: the object is there, or upstream does not have it. */
  predicate Final(r: Prefetched) {
    r.NotFetched? ==> r.error.NotFound?
  }

  /** prefetchWithRetry over the cache; the attempts are numbered from zero. */
  method PrefetchPath(e: Engine, k: Key, retryMax: nat, world: nat -> World) returns (r: Prefetched, tried: nat, ghost at: nat)
    requires e.Valid() && e.c.kind(k) != Version
    modifies e
    ensures e.Valid() && e.run.Extends(old(e.run)) && old(e.run).Now() <= at <= e.run.Now()
    ensures Through(r) ==> Known(e.c, e.run.states[at], k)
    ensures 0 < tried <= retryMax + 1 && (r.NotFetched? && r.error != NotFound ==> tried == retryMax + 1)
  {
    hide Inv, Run, Known;
    ghost var via;
    r, via, at := e.Prefetch(k, world(0));
    tried := 1;
    while !Final(r) && tried <= retryMax
      invariant e.Valid() && e.run.Extends(old(e.run)) && old(e.run).Now() <= at <= e.run.Now()
      invariant Through(r) ==> Known(e.c, e.run.states[at], k)
      invariant 0 < tried <= retryMax + 1
    {
      ghost var before := e.run;
      r, via, at := e.Prefetch(k, world(tried));
      tried := tried + 1;
    }
  }

  /** The download of what the diff selected; several workers are others to each other. */
  method Download(e: Engine, visits: seq<Visit>, retryMax: nat, worlds: seq<nat -> World>)
    returns (results: map<nat, Prefetched>, ghost done: map<nat, nat>)
    requires e.Valid() && |worlds| == |visits| && forall v :: v in visits ==> Proper(e.c, v.resolved)
    modifies e
    ensures e.Valid() && e.run.Extends(old(e.run))
    ensures forall i: nat :: i in results <==> i < |visits| && StatusOf(e.c, visits[i]) == ToSync
    ensures forall i: nat :: i in results && Through(results[i]) ==>
      i in done && Settled(e.c, e.run, old(e.run).Now(), visits[i].resolved, done[i])
  {
    hide Inv, Run;
    results, done := map[], map[];
    for i := 0 to |visits|
      invariant e.Valid() && e.run.Extends(old(e.run))
      invariant forall j: nat :: j in results <==> j < i && StatusOf(e.c, visits[j]) == ToSync
      invariant forall j: nat :: j in results && Through(results[j]) ==>
        j in done && Settled(e.c, e.run, old(e.run).Now(), visits[j].resolved, done[j])
    {
      if StatusOf(e.c, visits[i]) == ToSync {
        var r, tried;
        ghost var at;
        r, tried, at := PrefetchPath(e, visits[i].resolved.key, retryMax, worlds[i]);
        results, done := results[i := r], done[i := at];
      }
    }
  }

  /** Diff and download. Every path that the diff found present or that was fetched without
      failure has its object known at some position of the run. */
  method Synchronise(e: Engine, items: seq<Item>, glances: seq<Glance>, retryMax: nat, worlds: seq<nat -> World>)
    returns (todo: Result, results: map<nat, Prefetched>, ghost known: seq<nat>)
    requires e.Valid() && |glances| == |worlds| == |items|
    requires forall item :: item in items ==> Proper(e.c, item.resolved)
    modifies e
    ensures e.Valid() && e.run.Extends(old(e.run)) && |known| == |items|
    ensures todo.Diff? ==> forall i: nat :: i < |items| && (i in results ==> Through(results[i])) ==>
      Settled(e.c, e.run, old(e.run).Now(), items[i].resolved, known[i])
  {
    hide Inv, Run, StatusOf, Settled;
    ghost var begun := e.run;
    var seen;
    ghost var a, s, done;
    seen, a, s := Survey(e, items, glances);
    todo := Compare(e.c, seen);
    results, known := map[], seq(|items|, _ => 0);
    if todo.Aborted? {
      return;
    }
    ghost var surveyed := e.run;
    results, done := Download(e, seen, retryMax, worlds);
    known := seq(|items|, i requires 0 <= i < |items| => Position(e.c, seen[i], a[i], s[i], i, results.Keys, done));
    forall i: nat | i < |items| && (i in results ==> Through(results[i]))
      ensures Settled(e.c, e.run, begun.Now(), items[i].resolved, known[i])
    {
      PathSettled(e.c, begun, surveyed, e.run, items[i], glances[i], seen[i], a[i], s[i], i, results.Keys, done);
    }
  }

  /** Where the object of a path became known: at its prefetch or at its visit. */
  ghost function Position(c: Config, v: Visit, asked: nat, statted: nat, i: nat, fetched: set<nat>, done: map<nat, nat>): nat {
    if i in fetched then (if i in done then done[i] else 0)
    else if v.resolved.Target? && c.kind(v.resolved.key) == Mutable then asked else statted
  }

  lemma PathSettled(
      c: Config, begun: History, surveyed: History, h: History, item: Item, g: Glance, v: Visit,
      asked: nat, statted: nat, i: nat, fetched: set<nat>, done: map<nat, nat>)
    requires h.Extends(surveyed) && Taken(surveyed, begun.Now(), item, g, v, asked, statted) && begun.Now() <= surveyed.Now()
    requires StatusOf(c, v) != Broken && (i in fetched <==> StatusOf(c, v) == ToSync)
    requires i in fetched ==> i in done && Settled(c, h, surveyed.Now(), v.resolved, done[i])
    ensures Settled(c, h, begun.Now(), item.resolved, Position(c, v, asked, statted, i, fetched, done))
  {
    hide Known;
    if StatusOf(c, v) == Here {
      PresentIsKnown(c, v);
    }
  }

  /** A later pass over paths of which it is known where in the run their objects became
      known: it selects exactly those that have expired or are replaced at that moment. */
  method Resume(e: Engine, items: seq<Item>, glances: seq<Glance>, ghost from: nat, ghost known: seq<nat>)
    returns (again: Result, ghost visits: seq<Visit>, ghost asked: seq<nat>, ghost statted: seq<nat>)
    requires e.Valid() && |glances| == |known| == |items|
    requires forall item :: item in items ==> Proper(e.c, item.resolved)
    modifies e
    ensures e.Valid() && e.run.Extends(old(e.run)) && |visits| == |asked| == |statted| == |items|
    ensures forall i :: 0 <= i < |items| ==> Taken(e.run, old(e.run).Now(), items[i], glances[i], visits[i], asked[i], statted[i])
    ensures again.Diff? ==> again.toSync == Select(e.c, visits, ToSync)
    ensures Evictionless(e.run, from) ==>
      forall i :: 0 <= i < |items| && Sound(glances[i]) && Settled(e.c, old(e.run), from, items[i].resolved, known[i]) ==>
        (StatusOf(e.c, visits[i]) == ToSync <==> Remains(e.c, e.run, visits[i], asked[i], statted[i]))
    ensures
      && Evictionless(e.run, from)
      && (forall i :: 0 <= i < |items| ==> Sound(glances[i]) && Settled(e.c, old(e.run), from, items[i].resolved, known[i]))
      ==>
      && again.Diff?
      && (again.toSync == [] <==> forall i :: 0 <= i < |items| ==> !Remains(e.c, e.run, visits[i], asked[i], statted[i]))
  {
    hide Inv, Run, StatusOf, Remains, Settled;
    ghost var before := e.run;
    var later;
    later, asked, statted := Survey(e, items, glances);
    visits := later;
    again := Compare(e.c, later);
    if Evictionless(e.run, from) {
      forall i | 0 <= i < |items| && Sound(glances[i]) && Settled(e.c, before, from, items[i].resolved, known[i])
        ensures StatusOf(e.c, visits[i]) == ToSync <==> Remains(e.c, e.run, visits[i], asked[i], statted[i])
        ensures StatusOf(e.c, visits[i]) != Broken
      {
        SettledIsSelected(e.c, before, e.run, from, known[i], items[i], glances[i], visits[i], asked[i], statted[i]);
      }
      NothingSelected(e.c, visits, ToSync);
    }
  }

  /** Two synchronisations in a row: when the first fetched everything it had to, the
      second has nothing to do exactly when no record has expired meanwhile and none is
      being replaced. Whatever else the cache did, short of evictions, is of no account. */
  method SyncTwice(e: Engine, items: seq<Item>, first: seq<Glance>, retryMax: nat, worlds: seq<nat -> World>, second: seq<Glance>)
    returns (todo: Result, results: map<nat, Prefetched>, again: Result,
             ghost visits: seq<Visit>, ghost asked: seq<nat>, ghost statted: seq<nat>)
    requires e.Valid() && |first| == |worlds| == |second| == |items|
    requires forall item :: item in items ==> Proper(e.c, item.resolved)
    modifies e
    ensures e.Valid() && e.run.Extends(old(e.run)) && |visits| == |asked| == |statted| == |items|
    ensures forall i :: 0 <= i < |items| ==> Taken(e.run, old(e.run).Now(), items[i], second[i], visits[i], asked[i], statted[i])
    ensures
      && Evictionless(e.run, old(e.run).Now()) && todo.Diff?
      && (forall i :: i in results ==> Through(results[i])) && (forall g :: g in second ==> Sound(g))
      ==>
      && again.Diff?
      && (again.toSync == [] <==> forall i :: 0 <= i < |items| ==> !Remains(e.c, e.run, visits[i], asked[i], statted[i]))
  {
    hide Inv, Run, Settled, Remains, Sound, Through;
    ghost var begun := e.run;
    ghost var known;
    todo, results, known := Synchronise(e, items, first, retryMax, worlds);
    ghost var synced := e.run;
    again, visits, asked, statted := Resume(e, items, second, begun.Now(), known);
    forall i | 0 <= i < |items| ensures Taken(e.run, begun.Now(), items[i], second[i], visits[i], asked[i], statted[i]) {
      assert Taken(e.run, synced.Now(), items[i], second[i], visits[i], asked[i], statted[i]);
    }
  }
}
