/** Resume by comparison: which of a remote's paths still have to be fetched. */
module MirrorDiff {
  import opened CacheModel

  /** What the ecosystem makes of a path: nothing, a target it cannot classify, or a key
      whose kind the cache's configuration knows. */
  datatype Resolved = Unknown | Unclassified | Target(key: Key)

  /** One path as the diff met it: the states in which the index and the storage were asked,
      the time, and which of the two failed. */
  datatype Visit = Visit(
    path: string, resolved: Resolved, asked: State, statted: State, now: int, indexFault: bool, statFault: bool)

  datatype Status = Skipped | Here | ToSync | Broken

  /** The object is here and usable: its record has not expired, and its bytes were found. */
  predicate Present(c: Config, v: Visit)
    requires v.resolved.Target?
  {
    var k := v.resolved.key;
    if c.kind(k) == Mutable then
      k in v.asked.index && v.asked.index[k].BytesKey() in v.statted.storage && !v.asked.index[k].Expired(v.now)
    else k in v.statted.storage
  }

  /** Fail-closed for the index, while an object that cannot be statted is fetched again. */
  function StatusOf(c: Config, v: Visit): Status {
    if !v.resolved.Target? then Skipped
    else if c.kind(v.resolved.key) == Mutable && v.indexFault then Broken
    else if Present(c, v) && !v.statFault then Here
    else ToSync
  }

  /** The index could not be read for a path of a mutable object. */
  predicate IndexUnread(c: Config, v: Visit) {
    v.resolved.Target? && c.kind(v.resolved.key) == Mutable && v.indexFault
  }

  /** The object has to be fetched: a mutable one without a record, with one whose lifetime
      is over or whose bytes were not found, and any other whose bytes were not found. */
  predicate Wanted(c: Config, v: Visit) {
    && v.resolved.Target? && !IndexUnread(c, v)
    && if c.kind(v.resolved.key) != Mutable then v.statFault || v.resolved.key !in v.statted.storage
       else if v.resolved.key !in v.asked.index then true
       else
         var record := v.asked.index[v.resolved.key];
         || (record.expiresAt.Some? && record.expiresAt.value <= v.now)
         || v.statFault || (if record.storageKey == "" then record.key else record.storageKey) !in v.statted.storage
  }

  lemma StatusMeans(c: Config, v: Visit)
    ensures StatusOf(c, v) == Skipped <==> !v.resolved.Target?
    ensures StatusOf(c, v) == Broken <==> IndexUnread(c, v)
    ensures StatusOf(c, v) == ToSync <==> Wanted(c, v)
  {
  }

  /** Every wanted path is to be fetched, and no other. */
  ghost predicate FetchesWanted(c: Config, visits: seq<Visit>, toSync: seq<string>) {
    && (forall i :: 0 <= i < |visits| && Wanted(c, visits[i]) ==> visits[i].path in toSync)
    && (forall path :: path in toSync ==> exists i :: 0 <= i < |visits| && visits[i].path == path && Wanted(c, visits[i]))
  }

  ghost function Select(c: Config, visits: seq<Visit>, status: Status): seq<string> {
    if visits == [] then []
    else
      Select(c, visits[..|visits| - 1], status)
      + (if StatusOf(c, visits[|visits| - 1]) == status then [visits[|visits| - 1].path] else [])
  }

  datatype Result = Diff(toSync: seq<string>, skipped: nat) | Aborted

  /** diff: one pass that keeps the order of the paths. */
  method Compare(c: Config, visits: seq<Visit>) returns (r: Result)
    ensures r.Aborted? <==> exists i :: 0 <= i < |visits| && StatusOf(c, visits[i]) == Broken
    ensures r.Diff? ==> r.toSync == Select(c, visits, ToSync) && r.skipped == |Select(c, visits, Skipped)|
    ensures r.Aborted? <==> exists i :: 0 <= i < |visits| && IndexUnread(c, visits[i])
    ensures r.Diff? ==> FetchesWanted(c, visits, r.toSync)
  {
    hide IndexUnread, Wanted, FetchesWanted;
    DiffMeans(c, visits);
    var toSync: seq<string> := [];
    var skipped := 0;
    for i := 0 to |visits|
      invariant toSync == Select(c, visits[..i], ToSync) && skipped == |Select(c, visits[..i], Skipped)|
      invariant forall j :: 0 <= j < i ==> StatusOf(c, visits[j]) != Broken
    {
      var v := visits[i];
      assert visits[..i + 1][..i] == visits[..i];
      if !v.resolved.Target? {
        skipped := skipped + 1;
        continue;
      }
      var key, present := v.resolved.key, false;
      if c.kind(key) == Mutable {
        if v.indexFault {
          return Aborted;
        }
        if key in v.asked.index {
          var record := v.asked.index[key];
          present := !v.statFault && record.BytesKey() in v.statted.storage && !record.Expired(v.now);
        }
      } else if !v.statFault && key in v.statted.storage {
        present := true;
      }
      if present {
        continue;
      }
      toSync := toSync + [v.path];
    }
    assert visits[..|visits|] == visits;
    return Diff(toSync, skipped);
  }

  /** Every path ends up in exactly one place, in its order. */
  lemma {:induction false} DiffPartitions(c: Config, visits: seq<Visit>)
    requires forall i :: 0 <= i < |visits| ==> StatusOf(c, visits[i]) != Broken
    ensures |Select(c, visits, ToSync)| + |Select(c, visits, Here)| + |Select(c, visits, Skipped)| == |visits|
  {
    if visits != [] {
      var init := visits[..|visits| - 1];
      forall i | 0 <= i < |init| ensures StatusOf(c, init[i]) != Broken {
        assert init[i] == visits[i];
      }
      DiffPartitions(c, init);
      assert StatusOf(c, visits[|visits| - 1]) != Broken;
    }
  }

  /** The positions of the selected paths: increasing, and exactly those of that status. */
  lemma {:induction false} SelectInOrder(c: Config, visits: seq<Visit>, status: Status) returns (at: seq<nat>)
    ensures |at| == |Select(c, visits, status)|
    ensures forall k :: 0 <= k < |at| ==>
      at[k] < |visits| && StatusOf(c, visits[at[k]]) == status && Select(c, visits, status)[k] == visits[at[k]].path
    ensures forall k, l :: 0 <= k < l < |at| ==> at[k] < at[l]
    ensures forall i :: 0 <= i < |visits| && StatusOf(c, visits[i]) == status ==> i in at
  {
    if visits == [] {
      return [];
    }
    var n := |visits| - 1;
    at := SelectInOrder(c, visits[..n], status);
    assert forall i :: 0 <= i < n ==> visits[..n][i] == visits[i];
    if StatusOf(c, visits[n]) == status {
      at := at + [n];
    }
  }

  lemma DiffMeans(c: Config, visits: seq<Visit>)
    ensures forall i :: 0 <= i < |visits| ==> (StatusOf(c, visits[i]) == Broken <==> IndexUnread(c, visits[i]))
    ensures FetchesWanted(c, visits, Select(c, visits, ToSync))
  {
    forall i | 0 <= i < |visits|
      ensures StatusOf(c, visits[i]) == Broken <==> IndexUnread(c, visits[i])
      ensures StatusOf(c, visits[i]) == ToSync <==> Wanted(c, visits[i])
    {
      StatusMeans(c, visits[i]);
    }
    hide StatusOf, Wanted, IndexUnread;
    var at := SelectInOrder(c, visits, ToSync);
    var toSync := Select(c, visits, ToSync);
    forall i | 0 <= i < |visits| && Wanted(c, visits[i]) ensures visits[i].path in toSync {
      var k :| 0 <= k < |at| && at[k] == i;
      assert toSync[k] == visits[i].path;
    }
    forall path | path in toSync ensures exists i :: 0 <= i < |visits| && visits[i].path == path && Wanted(c, visits[i]) {
      var k :| 0 <= k < |toSync| && toSync[k] == path;
      assert visits[at[k]].path == path && Wanted(c, visits[at[k]]);
    }
  }

  /** The first synchronisation over empty stores fetches every path that resolves. */
  lemma EmptyStores(c: Config, visits: seq<Visit>)
    requires forall i :: 0 <= i < |visits| ==>
      visits[i].asked.index == map[] && visits[i].statted.storage == map[] && !visits[i].indexFault
    ensures forall i :: 0 <= i < |visits| ==> (Wanted(c, visits[i]) <==> visits[i].resolved.Target?)
    ensures |Select(c, visits, ToSync)| + |Select(c, visits, Skipped)| == |visits|
  {
    forall i | 0 <= i < |visits|
      ensures StatusOf(c, visits[i]) != Broken && StatusOf(c, visits[i]) != Here
    {
      StatusMeans(c, visits[i]);
    }
    DiffPartitions(c, visits);
    NothingSelected(c, visits, Here);
  }

  lemma NothingSelected(c: Config, visits: seq<Visit>, status: Status)
    ensures Select(c, visits, status) == [] <==> forall i :: 0 <= i < |visits| ==> StatusOf(c, visits[i]) != status
  {
    var at := SelectInOrder(c, visits, status);
    if at != [] {
      assert StatusOf(c, visits[at[0]]) == status;
    }
  }
}
