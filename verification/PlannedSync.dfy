/** One tick of a runner: the planned synchronisation and the claim that it shares with
    manual ones, while other tasks start, end and claim. */
module PlannedSync {
  import opened Text
  import S = Scheduler
  import T = TaskRegistry

  datatype Remote = Remote(name: string, mirror: bool, enabled: bool, interval: int)

  /** Automatic synchronisation is for enabled mirrors with an interval. */
  predicate ShouldRun(r: Remote) {
    r.mirror && r.enabled && r.interval > 0
  }

  /** How the synchronisation itself ends, and what safeSync makes of it. */
  datatype SyncEnd = Returned | Failed | Panicked

  datatype SyncError = Ordinary | Panic

  /** How the tick went. */
  datatype Ticked = Dead | NotWanted | Skipped | Synced

  function SyncKey(r: Remote): T.Key {
    T.KeyOf(T.SYNC, r.name)
  }

  // ---- the claim while the synchronisation runs ----

  /** The registry as the tick's claim left it and as others moved it on: in every state
      the claim is held, and nobody else holds the key. */
  ghost predicate HeldThroughout(states: seq<T.State>, labels: seq<T.Label>, who: nat, key: T.Key) {
    && |states| == |labels| + 1
    && (forall i :: 0 <= i < |labels| ==> T.Enabled(states[i], labels[i]) && states[i + 1] == T.Step(states[i], labels[i]))
    && forall i :: 0 <= i < |states| ==> HeldAlone(states[i], who, key)
  }

  ghost predicate HeldAlone(s: T.State, who: nat, key: T.Key) {
    forall h :: T.Holds(s, h, key) <==> h == T.ByClaim(who)
  }

  lemma ClaimHeld(s: T.State, who: nat, key: T.Key)
    requires T.Inv(s) && T.Holds(s, T.ByClaim(who), key)
    ensures HeldAlone(s, who, key)
  {
    T.HoldersUnique(s);
  }

  /** Only its own release ends a claim. */
  lemma OthersKeepClaim(s: T.State, l: T.Label, who: nat, key: T.Key)
    requires T.Enabled(s, l) && l != T.Release(who) && T.Holds(s, T.ByClaim(who), key)
    ensures T.Holds(T.Step(s, l), T.ByClaim(who), key)
  {
    hide T.Retained;
  }

  /** The steps of others that are possible are taken while the synchronisation runs. */
  method WhileSyncing(reg: T.Registry, others: seq<T.Label>, who: nat, ghost key: T.Key)
    returns (ghost states: seq<T.State>, ghost labels: seq<T.Label>)
    requires T.Inv(reg.Abs()) && T.Holds(reg.Abs(), T.ByClaim(who), key)
    modifies reg
    ensures T.Inv(reg.Abs()) && T.Holds(reg.Abs(), T.ByClaim(who), key)
    ensures HeldThroughout(states, labels, who, key)
    ensures states[0] == old(reg.Abs()) && states[|labels|] == reg.Abs()
    ensures forall l :: l in labels ==> l in others
  {
    hide T.Inv, T.Step, T.Enabled, T.Holds, HeldAlone;
    states, labels := [reg.Abs()], [];
    ClaimHeld(reg.Abs(), who, key);
    for i := 0 to |others|
      invariant T.Inv(reg.Abs()) && T.Holds(reg.Abs(), T.ByClaim(who), key)
      invariant HeldThroughout(states, labels, who, key)
      invariant states[0] == old(reg.Abs()) && states[|labels|] == reg.Abs()
      invariant forall l :: l in labels ==> l in others
    {
      if others[i] != T.Release(who) && T.Enabled(reg.Abs(), others[i]) {
        OthersKeepClaim(reg.Abs(), others[i], who, key);
        reg.Take(others[i]);
        ClaimHeld(reg.Abs(), who, key);
        states, labels := states + [reg.Abs()], labels + [others[i]];
      }
    }
  }

  lemma FreedByRelease(s: T.State, who: nat, key: T.Key)
    requires T.Inv(s) && T.Holds(s, T.ByClaim(who), key)
    ensures T.Enabled(s, T.Release(who)) && !T.Busy(T.Step(s, T.Release(who)), key)
  {
  }

  // ---- the tick ----

  /** safeSync turns a panic into an error. */
  method SafeSync(sync: SyncEnd) returns (err: Option<SyncError>)
    ensures err.None? <==> sync.Returned?
    ensures err == Some(Panic) <==> sync.Panicked?
  {
    match sync
    case Returned => err := None;
    case Failed => err := Some(Ordinary);
    case Panicked => err := Some(Panic);
  }

  /** What a tick does to the scheduler: a death, a sign of health, or nothing. */
  ghost predicate Reported(tick: int, s: S.State, s': S.State, ticked: Ticked, rid: S.Rid, now: int) {
    match ticked
    case Dead => S.Enabled(s, S.Die(rid, now)) && s' == S.Step(tick, s, S.Die(rid, now))
    case Synced => S.Enabled(s, S.Healthy(rid)) && s' == S.Step(tick, s, S.Healthy(rid))
    case _ => s' == s
  }

  /** From the registry `s` the claim was taken, held alone through `states`, and released. */
  ghost predicate ClaimedBetween(s: T.State, states: seq<T.State>, labels: seq<T.Label>, s': T.State, who: nat, key: T.Key) {
    && HeldThroughout(states, labels, who, key)
    && T.Enabled(s, T.Claim(who, key)) && states[0] == T.Step(s, T.Claim(who, key))
    && T.Enabled(states[|labels|], T.Release(who)) && s' == T.Step(states[|labels|], T.Release(who))
    && !T.Busy(s', key)
  }

  /** tick: `found` is the fresh row of the remote, None when it cannot be read; `others`
      is what the rest of the program wants to do with the registry meanwhile. The claim
      is held, and by nobody else, in every state between the two ends of the
      synchronisation; then it is given back, however the synchronisation ended. A busy
      remote is neither a death nor a sign of health. */
  method Tick(sched: S.Scheduler, reg: T.Registry, id: S.Id, ghost rid: S.Rid, who: nat,
              found: Option<Remote>, others: seq<T.Label>, sync: SyncEnd, now: int)
    returns (alive: bool, ticked: Ticked, reported: bool, ghost states: seq<T.State>, ghost labels: seq<T.Label>)
    requires S.Inv(sched.Abs()) && S.InPhase(sched.Abs(), rid, S.Looping) && sched.procs[rid].remote == id
    requires T.Inv(reg.Abs()) && who !in reg.claimants
    modifies sched, reg
    ensures S.Inv(sched.Abs()) && T.Inv(reg.Abs())
    ensures alive <==> found.Some? && found.value.mirror && found.value.enabled && found.value.interval > 0
    ensures ticked == if found.None? then Dead
                      else if !(found.value.mirror && found.value.enabled && found.value.interval > 0) then NotWanted
                      else if old(T.Busy(reg.Abs(), SyncKey(found.value))) then Skipped
                      else Synced
    ensures !ticked.Synced? ==> reg.Abs() == old(reg.Abs())
    ensures ticked.Synced? ==>
      && ClaimedBetween(old(reg.Abs()), states, labels, reg.Abs(), who, SyncKey(found.value))
      && forall l :: l in labels ==> l in others
    ensures Reported(sched.tick, old(sched.Abs()), sched.Abs(), ticked, rid, now)
    ensures reported <==> ticked.Dead? || (ticked.Synced? && sync.Panicked?)
  {
    hide S.Inv, S.Step, T.Inv, T.KeyOf, HeldThroughout;
    states, labels := [], [];
    if found.None? {
      sched.RunnerDied(id, rid, now);
      return false, Dead, true, states, labels;
    }
    if !ShouldRun(found.value) {
      return false, NotWanted, false, states, labels;
    }
    var granted := reg.Claim(T.SYNC, found.value.name, who);
    if !granted {
      return true, Skipped, false, states, labels;
    }
    ghost var key := SyncKey(found.value);
    states, labels := WhileSyncing(reg, others, who, key);
    var err := SafeSync(sync);
    sched.RunnerHealthy(id, rid);
    FreedByRelease(reg.Abs(), who, key);
    reg.Release(T.SYNC, found.value.name, who);
    return true, Synced, err == Some(Panic), states, labels;
  }
}
