/** Batched accounting of accesses against writing every access to the store directly. */
module AccessKeeper {
  import opened Text

  const MAX_KEYS := 100_000
  const SEPARATOR := '\0'

  type Id = string

  datatype Object = Object(scope: string, key: string)

  /** Last access (nanoseconds) and number of accesses. */
  datatype Acc = Acc(at: int, hits: nat)

  /** One call of Record at one reading of the clock. */
  datatype Access = Access(obj: Object, now: int)

  // ---- the composite key ----

  function IdOf(o: Object): Id {
    o.scope + [SEPARATOR] + o.key
  }

  /** strings.Cut at the first separator. */
  function Cut(id: Id): Option<Object> {
    if id == "" then None
    else if id[0] == SEPARATOR then Some(Object("", id[1..]))
    else
      match Cut(id[1..])
      case None => None
      case Some(o) => Some(Object([id[0]] + o.scope, o.key))
  }

  /** The composite key gives the object back exactly when the scope has no separator. */
  lemma {:induction false} CutJoin(o: Object)
    ensures Cut(IdOf(o)) == Some(o) <==> Free(o.scope, '\0')
    ensures IdOf(o) == o.scope + "\0" + o.key
    decreases |o.scope|
  {
    var id := IdOf(o);
    if o.scope == "" {
      assert id[1..] == o.key;
    } else {
      var rest := Object(o.scope[1..], o.key);
      assert id[1..] == IdOf(rest) && id[0] == o.scope[0];
      CutJoin(rest);
      assert o.scope == [o.scope[0]] + o.scope[1..];
    }
  }

  lemma {:induction false} JoinCut(id: Id)
    requires Cut(id).Some?
    ensures IdOf(Cut(id).value) == id && Free(Cut(id).value.scope, SEPARATOR)
  {
    if id[0] != SEPARATOR {
      JoinCut(id[1..]);
      assert id == [id[0]] + id[1..];
    }
  }

  // ---- merging is addition ----

  /** MergeAccess on one row: hits add up, the later time wins. */
  function Plus(a: Option<Acc>, b: Option<Acc>): Option<Acc> {
    if a.None? then b
    else if b.None? then a
    else Some(Acc(if b.value.at > a.value.at then b.value.at else a.value.at, a.value.hits + b.value.hits))
  }

  lemma PlusAssociates(a: Option<Acc>, b: Option<Acc>, c: Option<Acc>)
    ensures Plus(Plus(a, b), c) == Plus(a, Plus(b, c))
  {
  }

  lemma PlusCommutes(a: Option<Acc>, b: Option<Acc>)
    ensures Plus(a, b) == Plus(b, a)
  {
  }

  lemma PlusNone(a: Option<Acc>)
    ensures Plus(a, None) == a == Plus(None, a)
  {
  }

  /** The last summand may be moved outwards. */
  lemma PlusLast(a: Option<Acc>, b: Option<Acc>, x: Option<Acc>)
    ensures Plus(Plus(a, x), b) == Plus(Plus(a, b), x)
  {
    PlusAssociates(a, x, b);
    PlusAssociates(a, b, x);
    PlusCommutes(x, b);
  }

  function Get<K>(m: map<K, Acc>, k: K): Option<Acc> {
    if k in m then Some(m[k]) else None
  }

  function SumBatches(batches: seq<map<Id, Acc>>, id: Id): Option<Acc> {
    if batches == [] then None
    else Plus(SumBatches(batches[..|batches| - 1], id), Get(batches[|batches| - 1], id))
  }

  lemma {:induction false} SumConcat(a: seq<map<Id, Acc>>, b: seq<map<Id, Acc>>, id: Id)
    ensures SumBatches(a + b, id) == Plus(SumBatches(a, id), SumBatches(b, id))
  {
    if b == [] {
      assert a + b == a;
    } else {
      assert (a + b)[..|a + b| - 1] == a + b[..|b| - 1];
      SumConcat(a, b[..|b| - 1], id);
    }
  }

  lemma SumOne(b: map<Id, Acc>, id: Id)
    ensures SumBatches([b], id) == Get(b, id)
  {
    assert [b][..0] == [];
  }

  /** Taking one batch out of a sum. */
  lemma SumWithout(batches: seq<map<Id, Acc>>, i: nat, id: Id)
    requires i < |batches|
    ensures SumBatches(batches, id) == Plus(SumBatches(batches[..i] + batches[i + 1..], id), Get(batches[i], id))
  {
    var before, after := batches[..i], batches[i + 1..];
    assert batches == before + [batches[i]] + after;
    hide Plus, Get, SumBatches;
    SumConcat(before + [batches[i]], after, id);
    SumConcat(before, [batches[i]], id);
    SumConcat(before, after, id);
    SumOne(batches[i], id);
    PlusLast(SumBatches(before, id), SumBatches(after, id), Get(batches[i], id));
  }

  // ---- what the accepted accesses amount to ----

  /** The keeper's times start at zero. */
  function Clamped(now: int): int {
    if now > 0 then now else 0
  }

  function Exact(now: int): int {
    now
  }

  function Of(history: seq<Access>, o: Object, read: int -> int): Option<Acc> {
    if history == [] then None
    else
      var last := history[|history| - 1];
      Plus(Of(history[..|history| - 1], o, read), if last.obj == o then Some(Acc(read(last.now), 1)) else None)
  }

  function Count(history: seq<Access>, o: Object): nat {
    if history == [] then 0
    else Count(history[..|history| - 1], o) + (if history[|history| - 1].obj == o then 1 else 0)
  }

  function Latest(history: seq<Access>, o: Object): Option<int> {
    if history == [] then None
    else
      var before, last := Latest(history[..|history| - 1], o), history[|history| - 1];
      if last.obj != o then before
      else if before.None? || last.now > before.value then Some(last.now) else before
  }

  /** Accounting directly would count every access and keep the latest time; the keeper
      does the same with times below zero read as zero. */
  lemma {:induction false} OfMeans(history: seq<Access>, o: Object)
    ensures Of(history, o, Clamped).None? <==> Latest(history, o).None?
    ensures Latest(history, o).None? <==> Count(history, o) == 0
    ensures Latest(history, o).Some? ==>
      && Of(history, o, Clamped) == Some(Acc(Clamped(Latest(history, o).value), Count(history, o)))
      && Of(history, o, Exact) == Some(Acc(Latest(history, o).value, Count(history, o)))
    ensures Of(history, o, Exact).None? <==> Latest(history, o).None?
  {
    if history != [] {
      OfMeans(history[..|history| - 1], o);
    }
  }

  /** Batched and direct accounting agree on an object exactly when its latest accepted
      access was not before the epoch. */
  lemma ClampingShows(history: seq<Access>, o: Object)
    ensures Of(history, o, Clamped) == Of(history, o, Exact) <==>
      (Latest(history, o).Some? ==> Latest(history, o).value >= 0)
  {
    OfMeans(history, o);
  }

  // ---- the keeper ----

  /** Everything that has been accepted for an object, wherever it is now. */
  ghost predicate Balanced(
      base: map<Object, Acc>, store: map<Object, Acc>, inFlight: seq<map<Id, Acc>>, acc: map<Id, Acc>,
      lost: seq<map<Id, Acc>>, history: seq<Access>, o: Object) {
    Plus(Plus(Get(store, o), SumBatches(inFlight, IdOf(o))), Plus(Get(acc, IdOf(o)), SumBatches(lost, IdOf(o))))
    == Plus(Get(base, o), Of(history, o, Clamped))
  }

  function Hits(a: Option<Acc>): nat {
    if a.Some? then a.value.hits else 0
  }

  function HitsIn(batches: seq<map<Id, Acc>>, id: Id): nat {
    if batches == [] then 0 else HitsIn(batches[..|batches| - 1], id) + Hits(Get(batches[|batches| - 1], id))
  }

  lemma {:induction false} HitsAdd(batches: seq<map<Id, Acc>>, id: Id)
    ensures Hits(SumBatches(batches, id)) == HitsIn(batches, id)
  {
    if batches != [] {
      HitsAdd(batches[..|batches| - 1], id);
    }
  }

  /** No accepted access is counted twice or forgotten: it is stored, in a batch under
      way, pending, or in a batch whose transaction failed. */
  lemma HitsConserved(
      base: map<Object, Acc>, store: map<Object, Acc>, inFlight: seq<map<Id, Acc>>, acc: map<Id, Acc>,
      lost: seq<map<Id, Acc>>, history: seq<Access>, o: Object)
    requires Balanced(base, store, inFlight, acc, lost, history, o)
    ensures Hits(Get(store, o)) + HitsIn(inFlight, IdOf(o)) + Hits(Get(acc, IdOf(o))) + HitsIn(lost, IdOf(o))
         == Hits(Get(base, o)) + Count(history, o)
  {
    HitsAdd(inFlight, IdOf(o));
    HitsAdd(lost, IdOf(o));
    OfMeans(history, o);
    hide Get, HitsIn, SumBatches, Of, IdOf;
  }

  /** When everything is flushed and nothing was lost, the store is what merging every
      accepted access on its own into what it held at the start would have made it, for
      every object whose latest time, from then or now, is not before the epoch, and only
      for those. */
  lemma BatchedIsDirect(base: map<Object, Acc>, store: map<Object, Acc>, history: seq<Access>, o: Object)
    requires Balanced(base, store, [], map[], [], history, o)
    ensures Get(store, o) == Plus(Get(base, o), Of(history, o, Exact)) <==>
      (Latest(history, o).Some? ==> Latest(history, o).value >= 0 || (o in base && base[o].at >= 0))
  {
    OfMeans(history, o);
  }

  predicate Keyed(m: map<Id, Acc>) {
    forall id :: id in m ==> Cut(id).Some?
  }

  /** One row of a batch, and what all rows say about an object. */
  datatype Row = Row(obj: Object, acc: Acc)

  function SumRows(rows: seq<Row>, o: Object): Option<Acc> {
    if rows == [] then None
    else Plus(SumRows(rows[..|rows| - 1], o), if rows[|rows| - 1].obj == o then Some(rows[|rows| - 1].acc) else None)
  }

  /** The calls of Record that are accepted while these keys are pending. */
  function Accepted(keys: set<Id>, max: nat, calls: seq<Access>): seq<Access>
    decreases |calls|
  {
    if calls == [] then []
    else if IdOf(calls[0].obj) in keys || |keys| < max then
      [calls[0]] + Accepted(keys + {IdOf(calls[0].obj)}, max, calls[1..])
    else Accepted(keys, max, calls[1..])
  }

  class Keeper {
    const maxKeys: nat
    var acc: map<Id, Acc>
    var dropped: nat
    var store: map<Object, Acc>
    ghost const base: map<Object, Acc>
    ghost var inFlight: seq<map<Id, Acc>>
    ghost var lost: seq<map<Id, Acc>>
    ghost var history: seq<Access>

    ghost predicate BalancedFor(o: Object)
      reads this
    {
      Balanced(base, store, inFlight, acc, lost, history, o)
    }

    /** Stored, batched, pending and lost accesses together are the accepted ones. */
    ghost predicate Valid()
      reads this
    {
      && |acc| <= maxKeys && Keyed(acc) && (forall id :: id in acc ==> acc[id].at >= 0) && (forall b :: b in inFlight ==> Keyed(b))
      && forall o: Object :: Free(o.scope, SEPARATOR) ==> BalancedFor(o)
    }

    constructor (initial: map<Object, Acc>)
      ensures Valid() && store == base == initial && history == [] && acc == map[] && lost == [] && inFlight == []
      ensures maxKeys == 100_000
    {
      maxKeys, acc, dropped, store, base, inFlight, lost, history := MAX_KEYS, map[], 0, initial, initial, [], [], [];
    }

    /** Record: a new key beyond the cap is dropped, never an old one. */
    method Record(scope: string, key: string, now: int)
      requires Valid() && Free(scope, SEPARATOR)
      modifies this`acc, this`dropped, this`history
      ensures Valid()
      ensures var accepted := IdOf(Object(scope, key)) in old(acc) || |old(acc)| < maxKeys;
        && history == (if accepted then old(history) + [Access(Object(scope, key), now)] else old(history))
        && dropped == old(dropped) + (if accepted then 0 else 1)
        && (!accepted ==> acc == old(acc))
        && acc.Keys == old(acc).Keys + (if accepted then {IdOf(Object(scope, key))} else {})
    {
      var o := Object(scope, key);
      var id := IdOf(o);
      CutJoin(o);
      if id !in acc && |acc| >= maxKeys {
        dropped := dropped + 1;
        return;
      }
      hide IdOf, Cut;
      Bump(o, now);
    }

    method Bump(o: Object, now: int)
      requires Valid() && Free(o.scope, SEPARATOR) && Cut(IdOf(o)).Some? && (IdOf(o) in acc || |acc| < maxKeys)
      modifies this`acc, this`history
      ensures Valid() && history == old(history) + [Access(o, now)] && acc.Keys == old(acc).Keys + {IdOf(o)}
    {
      var id := IdOf(o);
      hide IdOf, Cut;
      var e := if id in acc then acc[id] else Acc(0, 0);
      if now > e.at {
        e := e.(at := now);
      }
      e := e.(hits := e.hits + 1);
      Counted(acc, o, now, e);
      RecordBalances(acc[id := e], o, now);
      GrowsByOne(acc, id, e);
      hide Balanced, Of, Plus, Get;
      acc := acc[id := e];
      history := history + [Access(o, now)];
    }

    lemma Counted(m: map<Id, Acc>, o: Object, now: int, e: Acc)
      requires IdOf(o) in m ==> m[IdOf(o)].at >= 0
      requires var was := if IdOf(o) in m then m[IdOf(o)] else Acc(0, 0);
        e == Acc(if now > was.at then now else was.at, was.hits + 1)
      ensures Get(m[IdOf(o) := e], IdOf(o)) == Plus(Get(m, IdOf(o)), Some(Acc(Clamped(now), 1)))
    {
    }

    lemma GrowsByOne(m: map<Id, Acc>, id: Id, e: Acc)
      requires id in m || |m| < maxKeys
      requires |m| <= maxKeys
      ensures |m[id := e]| <= maxKeys
    {
      if id in m {
        assert m[id := e].Keys == m.Keys;
      } else {
        assert m[id := e].Keys == m.Keys + {id};
      }
    }

    lemma RecordBalances(after: map<Id, Acc>, o: Object, now: int)
      requires Free(o.scope, SEPARATOR)
      requires forall x: Object :: Free(x.scope, SEPARATOR) ==> BalancedFor(x)
      requires Get(after, IdOf(o)) == Plus(Get(acc, IdOf(o)), Some(Acc(Clamped(now), 1)))
      requires forall id :: id != IdOf(o) ==> Get(after, id) == Get(acc, id)
      ensures forall x: Object :: Free(x.scope, SEPARATOR) ==>
        Balanced(base, store, inFlight, after, lost, history + [Access(o, now)], x)
    {
      forall x: Object | Free(x.scope, SEPARATOR)
        ensures Balanced(base, store, inFlight, after, lost, history + [Access(o, now)], x)
      {
        assert BalancedFor(x);
        OtherId(o, x);
        OfMore(history, Access(o, now), x);
        hide Get, IdOf, SumBatches, Of, Plus, Clamped;
        if x == o {
          PendingMore(Plus(Get(store, x), SumBatches(inFlight, IdOf(x))), Get(acc, IdOf(x)), SumBatches(lost, IdOf(x)),
                      Some(Acc(Clamped(now), 1)));
          PlusAssociates(Get(base, x), Of(history, x, Clamped), Some(Acc(Clamped(now), 1)));
        } else {
          PlusNone(Of(history, x, Clamped));
        }
      }
    }

    lemma OtherId(o: Object, x: Object)
      requires Free(o.scope, SEPARATOR) && Free(x.scope, SEPARATOR)
      ensures x != o ==> IdOf(x) != IdOf(o)
    {
      CutJoin(o);
      CutJoin(x);
    }

    lemma OfMore(h: seq<Access>, a: Access, x: Object)
      ensures Of(h + [a], x, Clamped) == Plus(Of(h, x, Clamped), if a.obj == x then Some(Acc(Clamped(a.now), 1)) else None)
    {
      assert (h + [a])[..|h|] == h;
    }

    lemma PendingMore(s: Option<Acc>, a: Option<Acc>, l: Option<Acc>, x: Option<Acc>)
      ensures Plus(s, Plus(Plus(a, x), l)) == Plus(Plus(s, Plus(a, l)), x)
    {
      hide Plus;
      PlusLast(a, l, x);
      PlusAssociates(s, Plus(a, l), x);
    }

    // ---- flushing ----

    /** The swap under the mutex: what Record adds from now on belongs to the next batch. */
    method Swap() returns (batch: Option<map<Id, Acc>>)
      requires Valid()
      modifies this`acc, this`dropped, this`inFlight
      ensures Valid()
      ensures batch.None? <==> old(acc) == map[]
      ensures acc == map[] && (batch.None? ==> inFlight == old(inFlight) && dropped == old(dropped))
      ensures batch.Some? ==> batch.value == old(acc) && inFlight == old(inFlight) + [batch.value] && dropped == 0
    {
      if acc == map[] {
        return None;
      }
      SwapBalances();
      hide BalancedFor, Balanced;
      batch := Some(acc);
      inFlight := inFlight + [acc];
      acc, dropped := map[], 0;
    }

    lemma SwapBalances()
      requires forall x: Object :: Free(x.scope, SEPARATOR) ==> BalancedFor(x)
      ensures forall x: Object :: Free(x.scope, SEPARATOR) ==>
        Balanced(base, store, inFlight + [acc], map[], lost, history, x)
    {
      forall x: Object | Free(x.scope, SEPARATOR) ensures Balanced(base, store, inFlight + [acc], map[], lost, history, x) {
        assert BalancedFor(x);
        var id := IdOf(x);
        SumConcat(inFlight, [acc], id);
        SumOne(acc, id);
        assert Get(map[], id) == None;
        hide Get, IdOf, SumBatches, Of, Plus;
        Regroup(Get(store, x), SumBatches(inFlight, id), Get(acc, id), SumBatches(lost, id));
      }
    }

    lemma Regroup(s: Option<Acc>, f: Option<Acc>, a: Option<Acc>, l: Option<Acc>)
      ensures Plus(Plus(s, Plus(f, a)), Plus(None, l)) == Plus(Plus(s, f), Plus(a, l))
    {
      hide Plus;
      PlusNone(l);
      PlusAssociates(s, f, a);
      PlusAssociates(Plus(s, f), a, l);
    }

    /** The rows of a batch, in any order; Cut inverts the composite key. */
    method Rows(batch: map<Id, Acc>) returns (rows: seq<Row>)
      requires Keyed(batch)
      ensures forall o: Object :: Free(o.scope, SEPARATOR) ==> SumRows(rows, o) == Get(batch, IdOf(o))
    {
      rows := [];
      var rest := batch.Keys;
      while rest != {}
        invariant rest <= batch.Keys
        invariant forall o: Object :: Free(o.scope, SEPARATOR) ==>
                    SumRows(rows, o) == if IdOf(o) in rest then None else Get(batch, IdOf(o))
      {
        var id :| id in rest;
        var o := Cut(id).value;
        RowAdded(batch, rows, rest, id);
        rest := rest - {id};
        rows := rows + [Row(o, batch[id])];
      }
    }

    lemma RowAdded(batch: map<Id, Acc>, rows: seq<Row>, rest: set<Id>, id: Id)
      requires Keyed(batch) && id in rest && rest <= batch.Keys
      requires forall o: Object :: Free(o.scope, SEPARATOR) ==>
                 SumRows(rows, o) == if IdOf(o) in rest then None else Get(batch, IdOf(o))
      ensures var all := rows + [Row(Cut(id).value, batch[id])];
        forall o: Object :: Free(o.scope, SEPARATOR) ==>
          SumRows(all, o) == if IdOf(o) in rest - {id} then None else Get(batch, IdOf(o))
    {
      var all := rows + [Row(Cut(id).value, batch[id])];
      assert all[..|rows|] == rows;
      JoinCut(id);
      forall o: Object | Free(o.scope, SEPARATOR)
        ensures SumRows(all, o) == if IdOf(o) in rest - {id} then None else Get(batch, IdOf(o))
      {
        OtherId(o, Cut(id).value);
      }
    }

    /** MergeAccess of the store: one transaction over all rows. */
    method MergeAccess(rows: seq<Row>)
      modifies this`store
      ensures forall o :: Get(store, o) == Plus(Get(old(store), o), SumRows(rows, o))
    {
      for i := 0 to |rows|
        invariant forall o :: Get(store, o) == Plus(Get(old(store), o), SumRows(rows[..i], o))
      {
        var o := rows[i].obj;
        RowMerged(old(store), store, rows, i);
        store := store[o := Plus(Get(store, o), Some(rows[i].acc)).value];
      }
      assert rows[..|rows|] == rows;
    }

    lemma RowMerged(before: map<Object, Acc>, now: map<Object, Acc>, rows: seq<Row>, i: nat)
      requires i < |rows| && forall o :: Get(now, o) == Plus(Get(before, o), SumRows(rows[..i], o))
      ensures var o := rows[i].obj;
        forall x :: Get(now[o := Plus(Get(now, o), Some(rows[i].acc)).value], x) == Plus(Get(before, x), SumRows(rows[..i + 1], x))
    {
      assert rows[..i + 1][..i] == rows[..i];
      var o := rows[i].obj;
      forall x ensures Get(now[o := Plus(Get(now, o), Some(rows[i].acc)).value], x) == Plus(Get(before, x), SumRows(rows[..i + 1], x)) {
        PlusAssociates(Get(before, x), SumRows(rows[..i], x), Some(rows[i].acc));
      }
    }

    /** The end of a flush: a batch is merged, or lost with the failed transaction. */
    method Merge(batch: map<Id, Acc>, ghost i: nat, fails: bool)
      requires Valid() && i < |inFlight| && inFlight[i] == batch
      modifies this`store, this`inFlight, this`lost
      ensures Valid() && inFlight == old(inFlight)[..i] + old(inFlight)[i + 1..]
      ensures lost == if fails then old(lost) + [batch] else old(lost)
      ensures if fails then store == old(store)
              else forall o: Object :: Free(o.scope, SEPARATOR) ==> Get(store, o) == Plus(Get(old(store), o), Get(batch, IdOf(o)))
    {
      assert batch in inFlight;
      RestKeyed(inFlight, i);
      var rows := Rows(batch);
      if fails {
        LossBalances(i);
        hide Balanced, Keyed;
        lost := lost + [batch];
      } else {
        ghost var before := store;
        MergeAccess(rows);
        MergeBalances(before, rows, i);
        hide Balanced, Keyed;
      }
      inFlight := inFlight[..i] + inFlight[i + 1..];
    }

    lemma RestKeyed(batches: seq<map<Id, Acc>>, i: nat)
      requires i < |batches| && forall b :: b in batches ==> Keyed(b)
      ensures forall b :: b in batches[..i] + batches[i + 1..] ==> Keyed(b)
    {
    }

    lemma LossBalances(i: nat)
      requires i < |inFlight| && forall x: Object :: Free(x.scope, SEPARATOR) ==> BalancedFor(x)
      ensures forall x: Object :: Free(x.scope, SEPARATOR) ==>
        Balanced(base, store, inFlight[..i] + inFlight[i + 1..], acc, lost + [inFlight[i]], history, x)
    {
      forall x: Object | Free(x.scope, SEPARATOR)
        ensures Balanced(base, store, inFlight[..i] + inFlight[i + 1..], acc, lost + [inFlight[i]], history, x)
      {
        assert BalancedFor(x);
        var id := IdOf(x);
        SumWithout(inFlight, i, id);
        SumConcat(lost, [inFlight[i]], id);
        SumOne(inFlight[i], id);
        hide Get, IdOf, SumBatches, Of, Plus;
        Lose(Get(store, x), SumBatches(inFlight[..i] + inFlight[i + 1..], id), Get(inFlight[i], id),
             Get(acc, id), SumBatches(lost, id));
      }
    }

    lemma Lose(s: Option<Acc>, f: Option<Acc>, b: Option<Acc>, a: Option<Acc>, l: Option<Acc>)
      ensures Plus(Plus(s, f), Plus(a, Plus(l, b))) == Plus(Plus(s, Plus(f, b)), Plus(a, l))
    {
      hide Plus;
      PlusAssociates(a, l, b);
      PlusAssociates(Plus(s, f), Plus(a, l), b);
      PlusAssociates(s, f, b);
      PlusLast(Plus(s, f), Plus(a, l), b);
    }

    lemma MergeBalances(before: map<Object, Acc>, rows: seq<Row>, i: nat)
      requires i < |inFlight|
      requires forall x: Object :: Free(x.scope, SEPARATOR) ==> Balanced(base, before, inFlight, acc, lost, history, x)
      requires forall x: Object :: Free(x.scope, SEPARATOR) ==> SumRows(rows, x) == Get(inFlight[i], IdOf(x))
      requires forall x :: Get(store, x) == Plus(Get(before, x), SumRows(rows, x))
      ensures forall x: Object :: Free(x.scope, SEPARATOR) ==>
        Balanced(base, store, inFlight[..i] + inFlight[i + 1..], acc, lost, history, x)
    {
      forall x: Object | Free(x.scope, SEPARATOR)
        ensures Balanced(base, store, inFlight[..i] + inFlight[i + 1..], acc, lost, history, x)
      {
        var id := IdOf(x);
        SumWithout(inFlight, i, id);
        hide Get, IdOf, SumBatches, Of, Plus;
        PlusAssociates(Get(before, x), SumBatches(inFlight[..i] + inFlight[i + 1..], id), Get(inFlight[i], id));
        PlusLast(Get(before, x), SumBatches(inFlight[..i] + inFlight[i + 1..], id), Get(inFlight[i], id));
      }
    }

    lemma AcceptFirst(keys: set<Id>, calls: seq<Access>, i: nat)
      requires i < |calls|
      ensures var id := IdOf(Object(calls[i].obj.scope, calls[i].obj.key));
        Accepted(keys, maxKeys, calls[i..])
        == if id in keys || |keys| < maxKeys then [calls[i]] + Accepted(keys + {id}, maxKeys, calls[i + 1..])
           else Accepted(keys, maxKeys, calls[i + 1..])
    {
      assert calls[i..][1..] == calls[i + 1..];
    }

    lemma NoneLeft(keys: set<Id>, calls: seq<Access>)
      ensures Accepted(keys, maxKeys, calls[|calls|..]) == []
    {
    }

    /** What others do between the swap and the end of the transaction. */
    method RecordAll(calls: seq<Access>)
      requires Valid() && forall a :: a in calls ==> Free(a.obj.scope, SEPARATOR)
      modifies this`acc, this`dropped, this`history
      ensures Valid() && history == old(history) + Accepted(old(acc).Keys, maxKeys, calls)
      ensures dropped + |history| == |old(history)| + |calls| + old(dropped)
    {
      hide Balanced, BalancedFor, Keyed, Get, IdOf, Plus, Accepted;
      assert calls[0..] == calls;
      for i := 0 to |calls|
        invariant Valid()
        invariant history + Accepted(acc.Keys, maxKeys, calls[i..]) == old(history) + Accepted(old(acc).Keys, maxKeys, calls)
        invariant dropped + |history| == |old(history)| + i + old(dropped)
      {
        AcceptFirst(acc.Keys, calls, i);
        Record(calls[i].obj.scope, calls[i].obj.key, calls[i].now);
      }
      NoneLeft(acc.Keys, calls);
    }

    /** Flush, while others record between the swap and the end of the transaction: one
        batch is merged or lost, and the calls of the others are accepted as the cap has
        it, into the next batch. */
    method Flush(others: seq<Access>, fails: bool)
      requires Valid() && forall a :: a in others ==> Free(a.obj.scope, SEPARATOR)
      modifies this
      ensures Valid() && inFlight == old(inFlight)
      ensures lost == if fails && old(acc) != map[] then old(lost) + [old(acc)] else old(lost)
      ensures if fails then store == old(store)
              else forall o: Object :: Free(o.scope, SEPARATOR) ==> Get(store, o) == Plus(Get(old(store), o), Get(old(acc), IdOf(o)))
      ensures history == old(history) + Accepted({}, maxKeys, others)
      ensures dropped + |history| == |old(history)| + |others| + (if old(acc) == map[] then old(dropped) else 0)
    {
      hide Balanced, Keyed, Get, IdOf, Plus;
      var batch := Swap();
      ghost var flying := inFlight;
      assert acc.Keys == {};
      RecordAll(others);
      if batch.Some? {
        Merge(batch.value, |inFlight| - 1, fails);
        assert flying[..|flying| - 1] + flying[|flying| - 1 + 1..] == old(inFlight);
      } else {
        NothingPending(store);
      }
    }

    lemma NothingPending(m: map<Object, Acc>)
      ensures forall o: Object :: Get(m, o) == Plus(Get(m, o), Get(map[], IdOf(o)))
    {
    }

    /** A keeper that has flushed everything without loss has left in the store what direct
        accounting would have. */
    lemma FlushedIsDirect(o: Object)
      requires Valid() && inFlight == [] && acc == map[] && lost == [] && Free(o.scope, SEPARATOR)
      ensures Get(store, o) == Plus(Get(base, o), Of(history, o, Exact)) <==>
        (Latest(history, o).Some? ==> Latest(history, o).value >= 0 || (o in base && base[o].at >= 0))
    {
      assert BalancedFor(o);
      BatchedIsDirect(base, store, history, o);
    }
  }
}
