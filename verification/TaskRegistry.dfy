/** The registry of background tasks: one table of claimed kind|label keys that manual
    starts and planned ticks share, a semaphore, and a bounded history. */
module TaskRegistry {
  import opened Sums
  import opened Text

  type Key = string
  type Id = string

  /** active and claims are indexed by kind|label; kinds never contain the separator. */
  function KeyOf(kind: string, name: string): Key {
    kind + "|" + name
  }

  lemma SeparatorInside(kind: string, name: string, kind': string, name': string)
    requires KeyOf(kind, name) == KeyOf(kind', name') && |kind| < |kind'|
    ensures '|' in kind'
  {
    assert KeyOf(kind, name)[|kind|] == '|';
    assert KeyOf(kind', name')[|kind|] == kind'[|kind|];
  }

  lemma KeyDeterminesTask(kind: string, name: string, kind': string, name': string)
    requires Free(kind, '|') && Free(kind', '|') && KeyOf(kind, name) == KeyOf(kind', name')
    ensures kind == kind' && name == name'
  {
    if |kind| < |kind'| {
      SeparatorInside(kind, name, kind', name');
    } else if |kind'| < |kind| {
      SeparatorInside(kind', name', kind, name);
    } else {
      var key := KeyOf(kind, name);
      assert key[..|kind|] == kind && key[..|kind|] == kind';
      assert key[|kind| + 1..] == name && key[|kind| + 1..] == name';
    }
  }

  // ---- history ----

  datatype TaskEntry = TaskEntry(key: Key, startedAt: int, running: bool)

  const MAX_HISTORY := 1000

  predicate Older(a: TaskEntry, id: Id, b: TaskEntry, id': Id) {
    a.startedAt < b.startedAt || (a.startedAt == b.startedAt && Less(id, id'))
  }

  /** Started earlier, or at the same time with the smaller id. */
  lemma OlderMeans(a: TaskEntry, id: Id, b: TaskEntry, id': Id)
    ensures Older(a, id, b, id') <==> a.startedAt < b.startedAt || (a.startedAt == b.startedAt && Before(id, id'))
  {
    LessMeans(id, id');
  }

  function Finished(tasks: map<Id, TaskEntry>): set<Id> {
    set id | id in tasks && !tasks[id].running
  }

  /** What the cap leaves of a history: everything while it fits; otherwise the oldest
      finished tasks are gone, no more of them than needed, and no running one. */
  predicate Retained(before: map<Id, TaskEntry>, after: map<Id, TaskEntry>) {
    && (forall id :: id in after ==> id in before && after[id] == before[id])
    && (forall id :: id in before && id !in after ==> !before[id].running)
    && (forall id, id' :: id in before && id !in after && id' in after && !after[id'].running ==>
          Older(before[id], id, after[id'], id'))
    && (|before| <= MAX_HISTORY ==> after == before)
    && (|before| > MAX_HISTORY ==> |after| == MAX_HISTORY || (|after| > MAX_HISTORY && Finished(after) == {}))
  }

  /** The same in numbers: a thousand tasks are kept, and of the finished ones those that
      started last. */
  lemma RetainedMeans(before: map<Id, TaskEntry>, after: map<Id, TaskEntry>)
    requires Retained(before, after)
    ensures |before| <= 1000 ==> after == before
    ensures |before| > 1000 ==> |after| == 1000 || (|after| > 1000 && forall id :: id in after ==> after[id].running)
    ensures forall id :: id in before && id !in after ==> !before[id].running
    ensures forall id, id' :: id in before && id !in after && id' in after && !after[id'].running ==>
      before[id].startedAt <= after[id'].startedAt
  {
    if |before| > 1000 && |after| != 1000 {
      forall id | id in after ensures after[id].running {
        assert id !in Finished(after);
      }
    }
  }

  lemma OlderTransitive(a: TaskEntry, i: Id, b: TaskEntry, j: Id, c: TaskEntry, k: Id)
    requires Older(a, i, b, j) && Older(b, j, c, k)
    ensures Older(a, i, c, k)
  {
    if a.startedAt == b.startedAt == c.startedAt {
      LessTransitive(i, j, k);
    }
  }

  /** The scan of evictHistoryLocked over a map in any order. */
  method OldestFinished(tasks: map<Id, TaskEntry>) returns (oldest: Option<Id>)
    ensures oldest.None? <==> Finished(tasks) == {}
    ensures oldest.Some? ==>
      && oldest.value in Finished(tasks)
      && forall id :: id in Finished(tasks) && id != oldest.value ==> Older(tasks[oldest.value], oldest.value, tasks[id], id)
  {
    oldest := None;
    var rest := tasks.Keys;
    while rest != {}
      invariant rest <= tasks.Keys
      invariant oldest.Some? ==> oldest.value in Finished(tasks)
      invariant oldest.None? ==> Finished(tasks) <= rest
      invariant oldest.Some? ==> forall id :: id in Finished(tasks) && id !in rest && id != oldest.value ==>
                                   Older(tasks[oldest.value], oldest.value, tasks[id], id)
    {
      var id :| id in rest;
      rest := rest - {id};
      if tasks[id].running {
        continue;
      }
      if oldest.None? {
        oldest := Some(id);
      } else {
        LessTotal(id, oldest.value);
        if Older(tasks[id], id, tasks[oldest.value], oldest.value) {
          forall id' | id' in Finished(tasks) && id' !in rest && id' != id ensures Older(tasks[id], id, tasks[id'], id') {
            if id' != oldest.value {
              OlderTransitive(tasks[id], id, tasks[oldest.value], oldest.value, tasks[id'], id');
            }
          }
          oldest := Some(id);
        }
      }
    }
  }

  /** evictHistoryLocked. */
  method EvictHistory(before: map<Id, TaskEntry>) returns (tasks: map<Id, TaskEntry>)
    ensures Retained(before, tasks)
  {
    tasks := before;
    while |tasks| > MAX_HISTORY
      invariant forall id :: id in tasks ==> id in before && tasks[id] == before[id]
      invariant forall id :: id in before && id !in tasks ==> !before[id].running
      invariant forall id, id' :: id in before && id !in tasks && id' in tasks && !tasks[id'].running ==>
                  Older(before[id], id, tasks[id'], id')
      invariant |before| <= MAX_HISTORY ==> tasks == before
      invariant |before| > MAX_HISTORY ==> |tasks| >= MAX_HISTORY
    {
      var oldest := OldestFinished(tasks);
      if oldest.None? {
        return;
      }
      var less := tasks - {oldest.value};
      assert tasks.Keys == less.Keys + {oldest.value};
      assert |less.Keys| == |tasks.Keys| - 1;
      tasks := less;
    }
  }

  // ---- the registry as a state machine ----

  /** A started task's goroutine: its function runs; its state is final but it still owns
      its slot; the slot is returned but the key is not yet free. */
  datatype Phase = Executing | Settled | Leaving

  datatype Live = Live(key: Key, phase: Phase)

  /** claimants are the outstanding Claims, by who made them. */
  datatype State = State(
    workers: nat, tasks: map<Id, TaskEntry>, active: map<Key, Id>, claims: set<Key>, sem: nat,
    live: map<Id, Live>, claimants: map<nat, Key>)

  datatype Answer = Accepted | Duplicate | LimitReached

  datatype Label =
    | Start(id: Id, key: Key, now: int, kept: map<Id, TaskEntry>)
    | Settle(id: Id)
    | ReturnSlot(id: Id)
    | Leave(id: Id)
    | Claim(who: nat, key: Key)
    | Release(who: nat)

  predicate Busy(s: State, key: Key) {
    key in s.active || key in s.claims
  }

  function StartAnswer(s: State, key: Key): Answer {
    if Busy(s, key) then Duplicate else if s.sem >= s.workers then LimitReached else Accepted
  }

  /** Task ids are fresh: newTaskID draws them at random. */
  predicate Enabled(s: State, l: Label) {
    match l
    case Start(id, key, now, kept) =>
      && id !in s.tasks && id !in s.live
      && (StartAnswer(s, key).Accepted? ==> Retained(s.tasks[id := TaskEntry(key, now, true)], kept))
    case Settle(id) => id in s.live && s.live[id].phase.Executing?
    case ReturnSlot(id) => id in s.live && s.live[id].phase.Settled?
    case Leave(id) => id in s.live && s.live[id].phase.Leaving?
    case Claim(who, _) => who !in s.claimants
    case Release(who) => who in s.claimants
  }

  function Step(s: State, l: Label): State
    requires Enabled(s, l)
  {
    match l
    case Start(id, key, now, kept) =>
      if StartAnswer(s, key) != Accepted then s
      else s.(tasks := kept, active := s.active[key := id], claims := s.claims + {key}, sem := s.sem + 1,
              live := s.live[id := Live(key, Executing)])
    case Settle(id) =>
      s.(tasks := if id in s.tasks then s.tasks[id := s.tasks[id].(running := false)] else s.tasks,
         live := s.live[id := s.live[id].(phase := Settled)])
    case ReturnSlot(id) =>
      s.(sem := if s.sem > 0 then s.sem - 1 else 0, live := s.live[id := s.live[id].(phase := Leaving)])
    case Leave(id) =>
      s.(active := s.active - {s.live[id].key}, claims := s.claims - {s.live[id].key}, live := s.live - {id})
    case Claim(who, key) =>
      if Busy(s, key) then s else s.(claims := s.claims + {key}, claimants := s.claimants[who := key])
    case Release(who) =>
      s.(claims := s.claims - {s.claimants[who]}, claimants := s.claimants - {who})
  }

  // ---- what holds in every state ----

  datatype Holder = ByTask(id: Id) | ByClaim(who: nat)

  /** The holder owns the key: a started task until its key is free, or an outstanding claim. */
  ghost predicate Holds(s: State, h: Holder, key: Key) {
    match h
    case ByTask(id) => id in s.live && s.live[id].key == key
    case ByClaim(who) => who in s.claimants && s.claimants[who] == key
  }

  ghost predicate OneHolder(s: State) {
    forall h, h', key :: Holds(s, h, key) && Holds(s, h', key) ==> h == h'
  }

  function SlotOwners(live: map<Id, Live>): set<Id> {
    set id | id in live && !live[id].phase.Leaving?
  }

  function Running(live: map<Id, Live>): set<Id> {
    set id | id in live && live[id].phase.Executing?
  }

  function ClaimedKeys(claimants: map<nat, Key>): set<Key> {
    set who | who in claimants :: claimants[who]
  }

  /** active and claims are exactly what the holders own. */
  ghost predicate TablesExact(s: State) {
    && (forall key :: key in s.active ==> s.active[key] in s.live && s.live[s.active[key]].key == key)
    && (forall id :: id in s.live ==> s.live[id].key in s.active && s.active[s.live[id].key] == id)
    && (forall who :: who in s.claimants ==> s.claimants[who] in s.claims && s.claimants[who] !in s.active)
    && (forall who, who' :: who in s.claimants && who' in s.claimants && who != who' ==> s.claimants[who] != s.claimants[who'])
  }

  ghost predicate ClaimsExact(s: State) {
    s.claims == s.active.Keys + ClaimedKeys(s.claimants)
  }

  /** A task that still runs is in the history, and only a task whose function runs does. */
  ghost predicate HistoryExact(s: State) {
    && (forall id :: id in s.tasks && s.tasks[id].running ==>
          id in s.live && s.live[id].phase.Executing? && s.live[id].key == s.tasks[id].key)
    && (forall id :: id in s.live && s.live[id].phase.Executing? ==> id in s.tasks && s.tasks[id].running)
  }

  ghost predicate Inv(s: State) {
    TablesExact(s) && ClaimsExact(s) && HistoryExact(s) && s.sem == |SlotOwners(s.live)| && s.sem <= s.workers
  }

  lemma HoldersUnique(s: State)
    requires TablesExact(s)
    ensures OneHolder(s)
  {
  }

  lemma StepKeepsTables(s: State, l: Label)
    requires TablesExact(s) && Enabled(s, l)
    ensures TablesExact(Step(s, l))
  {
    hide Retained;
    match l
    case Start(id, key, _, _) => StartKeepsTables(s, l);
    case Leave(id) => LeaveKeepsTables(s, l);
    case _ =>
  }

  lemma StartKeepsTables(s: State, l: Label)
    requires TablesExact(s) && Enabled(s, l) && l.Start?
    ensures TablesExact(Step(s, l))
  {
    hide Retained;
  }

  lemma LeaveKeepsTables(s: State, l: Label)
    requires TablesExact(s) && Enabled(s, l) && l.Leave?
    ensures TablesExact(Step(s, l))
  {
    hide Retained;
  }

  lemma ClaimAdded(claimants: map<nat, Key>, who: nat, key: Key)
    requires who !in claimants
    ensures ClaimedKeys(claimants[who := key]) == ClaimedKeys(claimants) + {key}
  {
    var after := claimants[who := key];
    assert after[who] == key;
    forall k | k in ClaimedKeys(claimants) ensures k in ClaimedKeys(after) {
      var w :| w in claimants && claimants[w] == k;
      assert w in after && after[w] == k;
    }
  }

  lemma ClaimDropped(claimants: map<nat, Key>, who: nat)
    requires who in claimants
    requires forall w, w' :: w in claimants && w' in claimants && w != w' ==> claimants[w] != claimants[w']
    ensures ClaimedKeys(claimants - {who}) == ClaimedKeys(claimants) - {claimants[who]}
  {
    var after := claimants - {who};
    forall k | k in ClaimedKeys(claimants) && k != claimants[who] ensures k in ClaimedKeys(after) {
      var w :| w in claimants && claimants[w] == k;
      assert w in after && after[w] == k;
    }
  }

  lemma StepKeepsClaims(s: State, l: Label)
    requires TablesExact(s) && ClaimsExact(s) && Enabled(s, l)
    ensures ClaimsExact(Step(s, l))
  {
    hide Retained, ClaimedKeys;
    match l
    case Claim(who, key) =>
      ClaimAdded(s.claimants, who, key);
    case Release(who) =>
      ClaimDropped(s.claimants, who);
    case Leave(id) =>
      NotClaimed(s, s.live[id].key);
    case _ =>
  }

  lemma NotClaimed(s: State, key: Key)
    requires TablesExact(s) && key in s.active
    ensures key !in ClaimedKeys(s.claimants)
  {
  }

  lemma StepKeepsHistory(s: State, l: Label)
    requires HistoryExact(s) && Enabled(s, l)
    ensures HistoryExact(Step(s, l))
  {
    hide Retained;
    match l
    case Start(id, key, now, kept) =>
      if StartAnswer(s, key) == Accepted {
        RetainedRunning(s.tasks[id := TaskEntry(key, now, true)], kept);
        StartedHistory(s, id, key, now, kept);
      }
    case Settle(id) =>
    case _ =>
  }

  lemma StartedHistory(s: State, id: Id, key: Key, now: int, kept: map<Id, TaskEntry>)
    requires HistoryExact(s) && id !in s.tasks && id !in s.live
    requires var before := s.tasks[id := TaskEntry(key, now, true)];
      && (forall i :: i in kept ==> i in before && kept[i] == before[i])
      && (forall i :: i in before && before[i].running ==> i in kept)
    ensures HistoryExact(s.(tasks := kept, live := s.live[id := Live(key, Executing)]))
  {
    var before := s.tasks[id := TaskEntry(key, now, true)];
    assert id in before && before[id].running;
  }

  lemma RetainedRunning(before: map<Id, TaskEntry>, after: map<Id, TaskEntry>)
    requires Retained(before, after)
    ensures forall id :: id in after ==> id in before && after[id] == before[id]
    ensures forall id :: id in before && before[id].running ==> id in after
  {
  }

  lemma StepKeepsSlots(s: State, l: Label)
    requires s.sem == |SlotOwners(s.live)| && s.sem <= s.workers && Enabled(s, l)
    ensures Step(s, l).sem == |SlotOwners(Step(s, l).live)| && Step(s, l).sem <= Step(s, l).workers
  {
    hide Retained;
    OwnersAfter(s, l);
    hide SlotOwners;
  }

  /** A start adds a slot owner, a returned slot removes one. */
  lemma OwnersAfter(s: State, l: Label)
    requires Enabled(s, l)
    ensures SlotOwners(Step(s, l).live) ==
      if l.Start? && StartAnswer(s, l.key) == Accepted then SlotOwners(s.live) + {l.id}
      else if l.ReturnSlot? then SlotOwners(s.live) - {l.id}
      else SlotOwners(s.live)
    ensures l.Start? ==> l.id !in SlotOwners(s.live)
    ensures l.ReturnSlot? ==> l.id in SlotOwners(s.live)
  {
    hide Retained;
  }

  lemma StepKeepsInv(s: State, l: Label)
    requires Inv(s) && Enabled(s, l)
    ensures Inv(Step(s, l))
  {
    hide Step;
    StepKeepsTables(s, l);
    StepKeepsClaims(s, l);
    StepKeepsHistory(s, l);
    StepKeepsSlots(s, l);
  }

  ghost predicate Init(s: State) {
    s.workers >= 1 && s.tasks == map[] && s.active == map[] && s.claims == {} && s.sem == 0 && s.live == map[]
    && s.claimants == map[]
  }

  ghost predicate IsRun(states: seq<State>, labels: seq<Label>) {
    && |states| == |labels| + 1 && Init(states[0])
    && forall i :: 0 <= i < |labels| ==> Enabled(states[i], labels[i]) && states[i + 1] == Step(states[i], labels[i])
  }

  /** Whatever starts, claims, settles and leaves in whatever order: a key has at most one
      holder, no more functions run than there are workers, and a task that still runs
      keeps its key busy, so it has ended before its key is free. */
  lemma {:induction false} RegistrySafe(states: seq<State>, labels: seq<Label>, i: nat)
    requires IsRun(states, labels) && i < |states|
    ensures Inv(states[i]) && OneHolder(states[i])
    ensures |Running(states[i].live)| <= states[i].workers
    ensures forall id :: id in states[i].tasks && states[i].tasks[id].running ==> Busy(states[i], states[i].tasks[id].key)
  {
    hide Step;
    if i > 0 {
      RegistrySafe(states, labels, i - 1);
      StepKeepsInv(states[i - 1], labels[i - 1]);
    }
    HoldersUnique(states[i]);
    SubsetCount(Running(states[i].live), SlotOwners(states[i].live));
  }

  const SYNC := "sync"

  /** A planned tick holds a claim on sync|name while it syncs and a manual sync is a
      started task of that key, so in no state of any run do the two overlap, and
      neither do two ticks. */
  lemma SyncsNeverOverlap(states: seq<State>, labels: seq<Label>, i: nat, name: string, tick: nat, other: Holder)
    requires IsRun(states, labels) && i < |states|
    requires Holds(states[i], ByClaim(tick), KeyOf(SYNC, name)) && other != ByClaim(tick)
    ensures !Holds(states[i], other, KeyOf(SYNC, name))
  {
    RegistrySafe(states, labels, i);
  }

  lemma BusyHeld(s: State, key: Key)
    requires TablesExact(s) && ClaimsExact(s)
    ensures Busy(s, key) <==> exists h :: Holds(s, h, key)
  {
    if key in s.active {
      assert Holds(s, ByTask(s.active[key]), key);
    } else if key in s.claims {
      assert key in ClaimedKeys(s.claimants);
      var w :| w in s.claimants && s.claimants[w] == key;
      assert Holds(s, ByClaim(w), key);
    }
  }

  /** A refused start or claim changes nothing, and it is refused exactly when the key has
      a holder, or (for a start) when all slots are taken. */
  lemma RefusedExactly(s: State, id: Id, key: Key, now: int, kept: map<Id, TaskEntry>, who: nat)
    requires Inv(s) && Enabled(s, Start(id, key, now, kept)) && Enabled(s, Claim(who, key))
    ensures StartAnswer(s, key).Duplicate? <==> exists h :: Holds(s, h, key)
    ensures Step(s, Claim(who, key)) == s <==> exists h :: Holds(s, h, key)
    ensures StartAnswer(s, key) != Accepted ==> Step(s, Start(id, key, now, kept)) == s
    ensures StartAnswer(s, key).LimitReached? <==> (forall h :: !Holds(s, h, key)) && |SlotOwners(s.live)| == s.workers
    ensures StartAnswer(s, key).Accepted? <==> (forall h :: !Holds(s, h, key)) && |SlotOwners(s.live)| < s.workers
  {
    BusyHeld(s, key);
    hide Inv, Holds, Retained;
    if !Busy(s, key) {
      assert who in Step(s, Claim(who, key)).claimants;
    }
  }

  // ---- the registry ----

  class Registry {
    const workers: nat
    var tasks: map<Id, TaskEntry>
    var active: map<Key, Id>
    var claims: set<Key>
    var sem: nat
    var live: map<Id, Live>          // the goroutines of started tasks
    var claimants: map<nat, Key>     // the claims that are still to be released

    function Abs(): State
      reads this
    {
      State(workers, tasks, active, claims, sem, live, claimants)
    }

    constructor (n: int)
      ensures Init(Abs()) && Inv(Abs()) && workers == if n < 1 then 1 else n
    {
      workers := if n < 1 then 1 else n;
      tasks, active, claims, sem, live, claimants := map[], map[], {}, 0, map[], map[];
    }

    /** Start, up to the launch of the goroutine. */
    method Start(kind: string, name: string, id: Id, now: int) returns (answer: Answer, ghost kept: map<Id, TaskEntry>)
      requires Inv(Abs()) && id !in tasks && id !in live
      modifies this
      ensures Inv(Abs()) && answer == StartAnswer(old(Abs()), KeyOf(kind, name))
      ensures Enabled(old(Abs()), Label.Start(id, KeyOf(kind, name), now, kept))
      ensures Abs() == Step(old(Abs()), Label.Start(id, KeyOf(kind, name), now, kept))
    {
      hide Inv, Retained;
      answer, kept := Enter(KeyOf(kind, name), id, now);
      StepKeepsInv(old(Abs()), Label.Start(id, KeyOf(kind, name), now, kept));
    }

    method Enter(key: Key, id: Id, now: int) returns (answer: Answer, ghost kept: map<Id, TaskEntry>)
      requires id !in tasks && id !in live
      modifies this
      ensures answer == StartAnswer(old(Abs()), key)
      ensures answer.Accepted? ==> Retained(old(tasks)[id := TaskEntry(key, now, true)], kept)
      ensures Abs() == if answer != Accepted then old(Abs()) else old(Abs()).(
        tasks := kept, active := old(active)[key := id], claims := old(claims) + {key}, sem := old(sem) + 1,
        live := old(live)[id := Live(key, Executing)])
    {
      kept := map[];
      if key in active {
        return Duplicate, kept;
      }
      if key in claims {
        return Duplicate, kept;
      }
      if sem >= workers {
        return LimitReached, kept;
      }
      sem := sem + 1;
      tasks := tasks[id := TaskEntry(key, now, true)];
      tasks := EvictHistory(tasks);
      kept := tasks;
      hide Retained;
      active, claims := active[key := id], claims + {key};
      live := live[id := Live(key, Executing)];
      return Accepted, kept;
    }

    /** The function has returned or panicked: the task's state becomes final ... */
    method Settle(id: Id)
      requires Inv(Abs()) && id in live && live[id].phase.Executing?
      modifies this
      ensures Inv(Abs()) && Abs() == Step(old(Abs()), Label.Settle(id))
    {
      StepKeepsInv(Abs(), Label.Settle(id));
      hide Inv;
      if id in tasks {
        tasks := tasks[id := tasks[id].(running := false)];
      }
      live := live[id := live[id].(phase := Settled)];
    }

    /** ... then the slot is returned ... */
    method ReturnSlot(id: Id)
      requires Inv(Abs()) && id in live && live[id].phase.Settled?
      modifies this
      ensures Inv(Abs()) && Abs() == Step(old(Abs()), Label.ReturnSlot(id))
    {
      StepKeepsInv(Abs(), Label.ReturnSlot(id));
      assert id in SlotOwners(live);
      hide Inv;
      sem := sem - 1;
      live := live[id := live[id].(phase := Leaving)];
    }

    /** ... and only then is the key free. */
    method Leave(id: Id, key: Key)
      requires Inv(Abs()) && id in live && live[id] == Live(key, Leaving)
      modifies this
      ensures Inv(Abs()) && Abs() == Step(old(Abs()), Label.Leave(id))
    {
      StepKeepsInv(Abs(), Label.Leave(id));
      hide Inv;
      active, claims := active - {key}, claims - {key};
      live := live - {id};
    }

    /** A step of somebody else. */
    method Take(l: Label)
      requires Inv(Abs()) && Enabled(Abs(), l)
      modifies this
      ensures Inv(Abs()) && Abs() == Step(old(Abs()), l)
    {
      StepKeepsInv(Abs(), l);
      WorkersStay(Abs(), l);
      hide Inv, Step, Enabled;
      var s := Step(Abs(), l);
      tasks, active, claims, sem := s.tasks, s.active, s.claims, s.sem;
      live, claimants := s.live, s.claimants;
    }

    lemma WorkersStay(s: State, l: Label)
      requires Enabled(s, l)
      ensures Step(s, l).workers == s.workers
    {
      hide Retained;
    }

    method Claim(kind: string, name: string, who: nat) returns (granted: bool)
      requires Inv(Abs()) && who !in claimants
      modifies this
      ensures Inv(Abs()) && Abs() == Step(old(Abs()), Label.Claim(who, KeyOf(kind, name)))
      ensures granted <==> !Busy(old(Abs()), KeyOf(kind, name))
    {
      var key := KeyOf(kind, name);
      StepKeepsInv(Abs(), Label.Claim(who, key));
      hide Inv, KeyOf;
      if key in active {
        return false;
      }
      if key in claims {
        return false;
      }
      claims := claims + {key};
      claimants := claimants[who := key];
      return true;
    }

    /** Release, by the holder of a claim. */
    method Release(kind: string, name: string, who: nat)
      requires Inv(Abs()) && who in claimants && claimants[who] == KeyOf(kind, name)
      modifies this
      ensures Inv(Abs()) && Abs() == Step(old(Abs()), Label.Release(who))
    {
      StepKeepsInv(Abs(), Label.Release(who));
      hide Inv, KeyOf;
      claims := claims - {KeyOf(kind, name)};
      claimants := claimants - {who};
    }
  }
}
