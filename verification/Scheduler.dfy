/** The mirror scheduler: a reconcile loop that starts and stops one runner per remote
    while runners die, stop and forget themselves concurrently. */
module Scheduler {
  import opened Text
  import opened Backoff

  type Id = nat
  type Rid = nat

  /** A runner's goroutine: in its loop, on its way out, or with `done` closed but the
      exit path not yet past forgetRunner. */
  datatype Phase = Looping | Leaving | Finished

  datatype Runner = Runner(remote: Id, phase: Phase)

  /** Between the locked part of reconcile and its end: who is still to be stopped, and
      which remotes to start afterwards. */
  datatype Round = Idle | Busy(stops: set<Rid>, starts: set<Id>)

  datatype State = State(
    runners: map<Id, Rid>, deaths: map<Id, int>, lastDeath: map<Id, int>,
    procs: map<Rid, Runner>, next: Rid, round: Round)

  datatype Label =
    | Plan(wanted: set<Id>, now: int)
    | Stopped(rid: Rid)
    | Launch(id: Id)
    | EndRound
    | Die(rid: Rid, now: int)
    | Exit(rid: Rid)
    | CloseDone(rid: Rid)
    | Forget(rid: Rid)
    | Healthy(rid: Rid)

  function Deaths(s: State, id: Id): int {
    if id in s.deaths then s.deaths[id] else 0
  }

  function Elapsed(s: State, id: Id, now: int): Option<int> {
    if id in s.lastDeath then Some(now - s.lastDeath[id]) else None
  }

  function Wait(s: State, tick: int, id: Id, now: int): int {
    Left(Deaths(s, id), tick, Elapsed(s, id, now))
  }

  // ---- the steps ----

  function Restrict<V>(m: map<Id, V>, ids: set<Id>): map<Id, V> {
    map id | id in m && id in ids :: m[id]
  }

  function Unwanted(s: State, wanted: set<Id>): set<Rid> {
    set id | id in s.runners && id !in wanted :: s.runners[id]
  }

  function ToStart(s: State, tick: int, wanted: set<Id>, now: int): set<Id> {
    set id | id in wanted && id !in s.runners && Wait(s, tick, id, now) <= 0
  }

  predicate Done(s: State, rid: Rid) {
    rid !in s.procs || s.procs[rid].phase.Finished?
  }

  predicate InPhase(s: State, rid: Rid, phase: Phase) {
    rid in s.procs && s.procs[rid].phase == phase
  }

  predicate Enabled(s: State, l: Label) {
    match l
    case Plan(_, _) => s.round.Idle?
    case Stopped(rid) => s.round.Busy? && rid in s.round.stops && Done(s, rid)
    case Launch(id) => s.round.Busy? && s.round.stops == {} && id in s.round.starts
    case EndRound => s.round == Busy({}, {})
    case Die(rid, _) => InPhase(s, rid, Looping)
    case Exit(rid) => InPhase(s, rid, Looping)
    case CloseDone(rid) => InPhase(s, rid, Leaving)
    case Forget(rid) => InPhase(s, rid, Finished)
    case Healthy(rid) => InPhase(s, rid, Looping)
  }

  function Moved(s: State, rid: Rid, phase: Phase): map<Rid, Runner>
    requires rid in s.procs
  {
    s.procs[rid := s.procs[rid].(phase := phase)]
  }

  function Step(tick: int, s: State, l: Label): State
    requires Enabled(s, l)
  {
    match l
    case Plan(wanted, now) =>
      s.(runners := Restrict(s.runners, wanted), deaths := Restrict(s.deaths, wanted),
         lastDeath := Restrict(s.lastDeath, wanted),
         round := Busy(Unwanted(s, wanted), ToStart(s, tick, wanted, now)))
    case Stopped(rid) => s.(round := Busy(s.round.stops - {rid}, s.round.starts))
    case Launch(id) =>
      if id in s.runners then s.(round := Busy({}, s.round.starts - {id}))
      else s.(runners := s.runners[id := s.next], procs := s.procs[s.next := Runner(id, Looping)],
              next := s.next + 1, round := Busy({}, s.round.starts - {id}))
    case EndRound => s.(round := Idle)
    case Die(rid, now) =>
      var id := s.procs[rid].remote;
      s.(deaths := s.deaths[id := Deaths(s, id) + 1], lastDeath := s.lastDeath[id := now],
         procs := Moved(s, rid, Leaving))
    case Exit(rid) => s.(procs := Moved(s, rid, Leaving))
    case CloseDone(rid) => s.(procs := Moved(s, rid, Finished))
    case Forget(rid) =>
      var id := s.procs[rid].remote;
      s.(runners := if id in s.runners && s.runners[id] == rid then s.runners - {id} else s.runners, procs := s.procs - {rid})
    case Healthy(rid) =>
      var id := s.procs[rid].remote;
      s.(deaths := s.deaths - {id}, lastDeath := s.lastDeath - {id})
  }

  // ---- at most one runner per remote ----

  /** The runners table names a runner of the remote. */
  ghost predicate TableSound(s: State) {
    forall id :: id in s.runners ==> s.runners[id] < s.next && (s.runners[id] in s.procs ==> s.procs[s.runners[id]].remote == id)
  }

  /** A runner that is not done is the one in the table, or it is being stopped and its
      remote has none. */
  ghost predicate ProcsSound(s: State) {
    forall rid :: rid in s.procs ==>
      && rid < s.next
      && (s.procs[rid].phase.Finished?
          || (s.procs[rid].remote in s.runners && s.runners[s.procs[rid].remote] == rid)
          || (s.round.Busy? && rid in s.round.stops))
  }

  ghost predicate StopsSound(s: State) {
    s.round.Busy? ==>
      && (forall rid :: rid in s.round.stops ==> rid < s.next && (rid in s.procs ==> s.procs[rid].remote !in s.runners))
      && forall rid, rid' :: rid in s.round.stops && rid' in s.round.stops && rid in s.procs && rid' in s.procs && rid != rid' ==>
           s.procs[rid].remote != s.procs[rid'].remote
  }

  ghost predicate Inv(s: State) {
    TableSound(s) && ProcsSound(s) && StopsSound(s)
  }

  predicate NotDone(s: State, rid: Rid) {
    rid in s.procs && !s.procs[rid].phase.Finished?
  }

  ghost predicate OneRunner(s: State) {
    forall rid, rid' :: NotDone(s, rid) && NotDone(s, rid') && s.procs[rid].remote == s.procs[rid'].remote ==> rid == rid'
  }

  lemma InvMeansOneRunner(s: State)
    requires Inv(s)
    ensures OneRunner(s)
  {
  }

  lemma PlanKeepsInv(tick: int, s: State, wanted: set<Id>, now: int)
    requires Inv(s) && s.round.Idle?
    ensures Inv(Step(tick, s, Plan(wanted, now)))
  {
    hide ToStart;
  }

  lemma StepKeepsInv(tick: int, s: State, l: Label)
    requires Inv(s) && Enabled(s, l)
    ensures Inv(Step(tick, s, l))
  {
    hide Restrict, Unwanted, ToStart;
    match l
    case Plan(wanted, now) => PlanKeepsInv(tick, s, wanted, now);
    case Launch(id) => LaunchKeepsInv(tick, s, id);
    case Forget(rid) => ForgetKeepsInv(tick, s, rid);
    case Stopped(rid) => StoppedKeepsInv(tick, s, rid);
    case Die(rid, _) => MoveKeepsInv(tick, s, l, rid);
    case Exit(rid) => MoveKeepsInv(tick, s, l, rid);
    case CloseDone(rid) => MoveKeepsInv(tick, s, l, rid);
    case _ =>
  }

  lemma MoveKeepsInv(tick: int, s: State, l: Label, rid: Rid)
    requires Inv(s) && Enabled(s, l) && (l.Die? || l.Exit? || l.CloseDone?) && l.rid == rid
    ensures Inv(Step(tick, s, l))
  {
  }

  lemma StoppedKeepsInv(tick: int, s: State, rid: Rid)
    requires Inv(s) && Enabled(s, Stopped(rid))
    ensures Inv(Step(tick, s, Stopped(rid)))
  {
  }

  lemma LaunchKeepsInv(tick: int, s: State, id: Id)
    requires Inv(s) && Enabled(s, Launch(id))
    ensures Inv(Step(tick, s, Launch(id)))
  {
  }

  lemma ForgetKeepsInv(tick: int, s: State, rid: Rid)
    requires Inv(s) && Enabled(s, Forget(rid))
    ensures Inv(Step(tick, s, Forget(rid)))
  {
  }

  ghost predicate Init(s: State) {
    s == State(map[], map[], map[], map[], 0, Idle)
  }

  ghost predicate Follows(tick: int, states: seq<State>, labels: seq<Label>) {
    && |states| == |labels| + 1
    && forall i :: 0 <= i < |labels| ==> Enabled(states[i], labels[i]) && states[i + 1] == Step(tick, states[i], labels[i])
  }

  /** However reconciles, deaths, exits and restarts interleave, no remote ever has two
      runners that are not done: a restarted runner never overlaps a dying one. */
  lemma {:induction false} AtMostOneRunner(tick: int, states: seq<State>, labels: seq<Label>, i: nat)
    requires Follows(tick, states, labels) && Init(states[0]) && i < |states|
    ensures Inv(states[i]) && OneRunner(states[i])
  {
    hide Step, Inv;
    if i > 0 {
      AtMostOneRunner(tick, states, labels, i - 1);
      StepKeepsInv(tick, states[i - 1], labels[i - 1]);
    } else {
      EmptyInv(states[0]);
    }
    InvMeansOneRunner(states[i]);
  }

  lemma EmptyInv(s: State)
    requires Init(s)
    ensures Inv(s)
  {
  }

  /** forgetRunner of a runner that was replaced leaves its successor alone. */
  lemma SuccessorKept(tick: int, s: State, rid: Rid, id: Id)
    requires Enabled(s, Forget(rid)) && id in s.runners && s.runners[id] != rid
    ensures var s' := Step(tick, s, Forget(rid)); id in s'.runners && s'.runners[id] == s.runners[id]
  {
  }

  // ---- what a reconcile achieves ----

  /** The remotes that have a runner after an undisturbed reconcile. */
  function Expected(s: State, tick: int, wanted: set<Id>, now: int): set<Id> {
    set id | id in wanted && (id in s.runners || Wait(s, tick, id, now) <= 0)
  }

  /** During the round only runners of unwanted remotes move. */
  predicate Undisturbed(s: State, l: Label, wanted: set<Id>) {
    match l
    case Stopped(_) => true
    case Launch(_) => true
    case Plan(_, _) => false
    case EndRound => false
    case _ => l.rid in s.procs ==> s.procs[l.rid].remote !in wanted
  }

  lemma UndisturbedStep(tick: int, s: State, l: Label, wanted: set<Id>, expected: set<Id>)
    requires Enabled(s, l) && Undisturbed(s, l, wanted) && expected <= wanted
    requires s.round.Busy? && s.runners.Keys + s.round.starts == expected
    ensures var s' := Step(tick, s, l); s'.round.Busy? && s'.runners.Keys + s'.round.starts == expected
  {
  }

  lemma PlanExpects(tick: int, s: State, wanted: set<Id>, now: int)
    requires s.round.Idle?
    ensures var s' := Step(tick, s, Plan(wanted, now));
      s'.runners.Keys + s'.round.starts == Expected(s, tick, wanted, now)
  {
  }

  /** When the round is over, the remotes with a runner are exactly the wanted ones that
      had one already or have no pause left; right after the locked part no death of an
      unwanted remote is remembered. */
  lemma {:induction false} ReconcileResult(tick: int, states: seq<State>, labels: seq<Label>, wanted: set<Id>, now: int, i: nat)
    requires Follows(tick, states, labels) && 0 < i < |states|
    requires states[0].round.Idle? && labels[0] == Plan(wanted, now)
    requires forall j :: 0 < j < |labels| ==> Undisturbed(states[j], labels[j], wanted)
    ensures states[i].round.Busy?
    ensures states[i].runners.Keys + states[i].round.starts == Expected(states[0], tick, wanted, now)
    ensures states[i].round == Busy({}, {}) ==> states[i].runners.Keys == Expected(states[0], tick, wanted, now)
    ensures states[1].deaths.Keys <= wanted && states[1].lastDeath.Keys <= wanted
  {
    hide Expected;
    assert states[1] == Step(tick, states[0], labels[0]);
    PlanExpects(tick, states[0], wanted, now);
    if i > 1 {
      ReconcileResult(tick, states, labels, wanted, now, i - 1);
      hide Step;
      ExpectedWanted(tick, states[0], wanted, now);
      UndisturbedStep(tick, states[i - 1], labels[i - 1], wanted, Expected(states[0], tick, wanted, now));
    }
  }

  lemma ExpectedWanted(tick: int, s: State, wanted: set<Id>, now: int)
    ensures Expected(s, tick, wanted, now) <= wanted
  {
  }

  /** The two maps of deaths are always written in pairs. */
  lemma {:induction false} DeathsPaired(tick: int, states: seq<State>, labels: seq<Label>, i: nat)
    requires Follows(tick, states, labels) && Init(states[0]) && i < |states|
    ensures states[i].deaths.Keys == states[i].lastDeath.Keys
  {
    if i > 0 {
      DeathsPaired(tick, states, labels, i - 1);
      PairedStep(tick, states[i - 1], labels[i - 1]);
    }
  }

  lemma PairedStep(tick: int, s: State, l: Label)
    requires Enabled(s, l) && s.deaths.Keys == s.lastDeath.Keys
    ensures Step(tick, s, l).deaths.Keys == Step(tick, s, l).lastDeath.Keys
  {
    hide Unwanted, ToStart;
  }

  // ---- a remote at the ceiling ----

  /** The remote has no runner, none about to start, none left that could report itself
      healthy, and as many deaths as it takes to reach the ceiling. */
  ghost predicate GivenUp(tick: int, s: State, id: Id) {
    && Capped(Deaths(s, id), tick)
    && id !in s.runners && (s.round.Busy? ==> id !in s.round.starts)
    && forall rid :: rid in s.procs && s.procs[rid].remote == id ==> !s.procs[rid].phase.Looping?
  }

  lemma GivenUpStays(tick: int, s: State, l: Label, id: Id)
    requires GivenUp(tick, s, id) && Enabled(s, l)
    requires l.Plan? ==> id in l.wanted
    ensures GivenUp(tick, Step(tick, s, l), id)
  {
    hide Unwanted, Capped;
    if l.Plan? {
      assert Wait(s, tick, id, l.now) == MAX_RUNNER_BACKOFF by {
        CappedWaits(tick, Deaths(s, id), Elapsed(s, id, l.now));
      }
    }
  }

  lemma CappedWaits(tick: int, deaths: int, elapsed: Option<int>)
    requires Capped(deaths, tick)
    ensures Left(deaths, tick, elapsed) == MAX_RUNNER_BACKOFF
  {
  }

  /** Once the ceiling is reached the pause never ends: as long as every reconcile wants
      the remote, no run ever gives it a runner again. */
  lemma {:induction false} CeilingIsForGood(tick: int, states: seq<State>, labels: seq<Label>, id: Id, i: nat)
    requires Follows(tick, states, labels) && i < |states| && GivenUp(tick, states[0], id)
    requires forall l :: l in labels && l.Plan? ==> id in l.wanted
    ensures GivenUp(tick, states[i], id) && id !in states[i].runners
  {
    hide Step, GivenUp;
    if i > 0 {
      CeilingIsForGood(tick, states, labels, id, i - 1);
      assert labels[i - 1] in labels;
      GivenUpStays(tick, states[i - 1], labels[i - 1], id);
    }
    NoRunner(tick, states[i], id);
  }

  lemma NoRunner(tick: int, s: State, id: Id)
    ensures GivenUp(tick, s, id) ==> id !in s.runners
  {
  }

  // Seven deaths in a row do happen: ten minutes apart, and never a sync in between.

  function TimeOf(n: nat): int {
    n * MAX_RUNNER_BACKOFF
  }

  /** Remote 0 after n deaths, with nothing under way. */
  function AfterDeaths(n: nat): State {
    if n == 0 then State(map[], map[], map[], map[], 0, Idle)
    else State(map[], map[0 := n], map[0 := TimeOf(n)], map[], n, Idle)
  }

  /** The same with its next runner in the given phase. */
  function Reborn(n: nat, phase: Phase, round: Round): State {
    AfterDeaths(n).(runners := map[0 := n], procs := map[n := Runner(0, phase)], next := n + 1, round := round)
  }

  /** ... and once that has died as well. */
  function Dead(n: nat, phase: Phase): State {
    AfterDeaths(n + 1).(runners := map[0 := n], procs := map[n := Runner(0, phase)])
  }

  lemma StartsAgain(n: nat)
    requires n < 7
    ensures Step(RECONCILE_INTERVAL, AfterDeaths(n), Plan({0}, TimeOf(n + 1))) == AfterDeaths(n).(round := Busy({}, {0}))
  {
    var s, now := AfterDeaths(n), TimeOf(n + 1);
    SevenDeaths(n);
    PauseEndsUnlessCapped(n, RECONCILE_INTERVAL);
    assert Wait(s, RECONCILE_INTERVAL, 0, now) <= 0;
    hide Wait;
    assert ToStart(s, RECONCILE_INTERVAL, {0}, now) == {0};
    assert Unwanted(s, {0}) == {};
    assert Restrict(s.deaths, {0}) == s.deaths && Restrict(s.lastDeath, {0}) == s.lastDeath;
    assert Restrict(s.runners, {0}) == s.runners;
  }

  lemma Lives(n: nat)
    ensures var s := AfterDeaths(n).(round := Busy({}, {0}));
      Enabled(s, Launch(0)) && Step(RECONCILE_INTERVAL, s, Launch(0)) == Reborn(n, Looping, Busy({}, {}))
    ensures var s := Reborn(n, Looping, Busy({}, {}));
      Enabled(s, EndRound) && Step(RECONCILE_INTERVAL, s, EndRound) == Reborn(n, Looping, Idle)
  {
    var starts: set<Id> := {0};
    assert starts - {0} == {};
    var s := AfterDeaths(n);
    assert s.runners[0 := n] == map[0 := n] && s.procs[n := Runner(0, Looping)] == map[n := Runner(0, Looping)];
    hide TimeOf;
  }

  lemma Dies(n: nat)
    ensures var s := Reborn(n, Looping, Idle);
      Enabled(s, Die(n, TimeOf(n + 1))) && Step(RECONCILE_INTERVAL, s, Die(n, TimeOf(n + 1))) == Dead(n, Leaving)
    ensures var s := Dead(n, Leaving);
      Enabled(s, CloseDone(n)) && Step(RECONCILE_INTERVAL, s, CloseDone(n)) == Dead(n, Finished)
  {
    var s := Reborn(n, Looping, Idle);
    hide TimeOf;
    assert s.deaths[0 := n + 1] == map[0 := n + 1];
    assert s.lastDeath[0 := TimeOf(n + 1)] == map[0 := TimeOf(n + 1)];
  }

  lemma IsForgotten(n: nat)
    ensures var s := Dead(n, Finished);
      Enabled(s, Forget(n)) && Step(RECONCILE_INTERVAL, s, Forget(n)) == AfterDeaths(n + 1)
  {
    var s := Dead(n, Finished);
    hide TimeOf;
    assert s.runners - {0} == map[] && s.procs - {n} == map[];
  }

  /** A run with the production interval that always wants remote 0 and leads to `last`. */
  ghost predicate DeadlyRun(states: seq<State>, labels: seq<Label>, last: State) {
    && Follows(RECONCILE_INTERVAL, states, labels) && Init(states[0]) && states[|labels|] == last
    && forall l :: l in labels ==> !l.Healthy? && (l.Plan? ==> 0 in l.wanted)
  }

  lemma OneMoreStep(states: seq<State>, labels: seq<Label>, s: State, l: Label, s': State)
    returns (states': seq<State>, labels': seq<Label>)
    requires DeadlyRun(states, labels, s) && Enabled(s, l) && s' == Step(RECONCILE_INTERVAL, s, l)
    requires !l.Healthy? && (l.Plan? ==> 0 in l.wanted)
    ensures DeadlyRun(states', labels', s')
  {
    hide Step, Enabled;
    states', labels' := states + [s'], labels + [l];
  }

  lemma {:induction false} ManyDeaths(n: nat) returns (states: seq<State>, labels: seq<Label>)
    requires n <= 7
    ensures DeadlyRun(states, labels, AfterDeaths(n))
  {
    if n == 0 {
      states, labels := [AfterDeaths(0)], [];
    } else {
      var m := n - 1;
      StartsAgain(m);
      Lives(m);
      Dies(m);
      IsForgotten(m);
      states, labels := ManyDeaths(m);
      hide DeadlyRun, Step, AfterDeaths, Reborn, Dead, TimeOf;
      var planned := AfterDeaths(m).(round := Busy({}, {0}));
      IdleBefore(m);
      states, labels := OneMoreStep(states, labels, AfterDeaths(m), Plan({0}, TimeOf(n)), planned);
      states, labels := OneMoreStep(states, labels, planned, Launch(0), Reborn(m, Looping, Busy({}, {})));
      states, labels := OneMoreStep(states, labels, Reborn(m, Looping, Busy({}, {})), EndRound, Reborn(m, Looping, Idle));
      states, labels := OneMoreStep(states, labels, Reborn(m, Looping, Idle), Die(m, TimeOf(n)), Dead(m, Leaving));
      states, labels := OneMoreStep(states, labels, Dead(m, Leaving), CloseDone(m), Dead(m, Finished));
      states, labels := OneMoreStep(states, labels, Dead(m, Finished), Forget(m), AfterDeaths(n));
    }
  }

  lemma IdleBefore(n: nat)
    ensures AfterDeaths(n).round.Idle?
  {
  }

  /** A run from the start to a mirror that never comes back. */
  lemma GivenUpHappens() returns (states: seq<State>, labels: seq<Label>)
    ensures DeadlyRun(states, labels, AfterDeaths(7)) && GivenUp(RECONCILE_INTERVAL, AfterDeaths(7), 0)
  {
    states, labels := ManyDeaths(7);
    SevenDeaths(7);
    hide DeadlyRun;
  }

  /** Otherwise time alone brings it back: below the ceiling a reconcile ten minutes after
      the last death starts every wanted remote without a runner. */
  lemma BelowCeilingRestarts(tick: int, s: State, wanted: set<Id>, now: int, id: Id)
    requires 0 < tick <= MAX_RUNNER_BACKOFF && s.round.Idle? && id in wanted && id !in s.runners
    requires id in s.lastDeath ==> now - s.lastDeath[id] >= MAX_RUNNER_BACKOFF
    ensures id in Step(tick, s, Plan(wanted, now)).round.starts <==> !Capped(Deaths(s, id), tick)
  {
    var d := Deaths(s, id);
    if d > 2 && !Capped(d, tick) {
      assert tick * Pow2(d - 2) < MAX_RUNNER_BACKOFF;
    } else if d == 2 {
      assert Pow2(0) == 1 && tick * Pow2(0) == tick;
    }
  }

  /** A finished synchronisation makes up for all deaths: the next one costs no pause. */
  lemma HealthStartsOver(tick: int, s: State, rid: Rid, died: int, now: int)
    requires Enabled(s, Healthy(rid))
    ensures var id, well := s.procs[rid].remote, Step(tick, s, Healthy(rid));
      && Wait(well, tick, id, now) == 0 && Enabled(well, Die(rid, died))
      && Wait(Step(tick, well, Die(rid, died)), tick, id, now) == 0
  {
  }

  // ---- the scheduler ----

  class Scheduler {
    const tick: int
    var runners: map<Id, Rid>
    var deaths: map<Id, int>
    var lastDeath: map<Id, int>
    ghost var procs: map<Rid, Runner>
    var next: Rid
    ghost var round: Round

    ghost function Abs(): State
      reads this
    {
      State(runners, deaths, lastDeath, procs, next, round)
    }

    constructor (period: int)
      requires period > 0
      ensures Init(Abs()) && tick == period
    {
      tick, runners, deaths, lastDeath, procs, next, round := period, map[], map[], map[], map[], 0, Idle;
    }

    /** The part of reconcile under the mutex: four passes over the maps. */
    method PlanLocked(wanted: set<Id>, now: int) returns (toStop: set<Rid>, toStart: set<Id>)
      requires tick > 0 && round.Idle? && Inv(Abs())
      modifies this
      ensures Inv(Abs()) && Abs() == Step(tick, old(Abs()), Plan(wanted, now))
      ensures toStop == Unwanted(old(Abs()), wanted) && toStart == ToStart(old(Abs()), tick, wanted, now)
    {
      PlanKeepsInv(tick, Abs(), wanted, now);
      hide Inv;
      toStop := DropUnwantedRunners(wanted);
      ForgetDeaths(wanted);
      toStart := Startable(wanted, now);
      StartableFromOld(old(Abs()), Abs(), tick, wanted, now);
      round := Busy(toStop, toStart);
    }

    lemma StartableFromOld(s: State, s': State, t: int, wanted: set<Id>, now: int)
      requires s'.runners == Restrict(s.runners, wanted) && s'.deaths == Restrict(s.deaths, wanted)
      requires s'.lastDeath == Restrict(s.lastDeath, wanted)
      ensures ToStart(s', t, wanted, now) == ToStart(s, t, wanted, now)
    {
      forall id | id in wanted ensures Wait(s', t, id, now) == Wait(s, t, id, now) && (id in s'.runners <==> id in s.runners) {
      }
    }

    method DropUnwantedRunners(wanted: set<Id>) returns (toStop: set<Rid>)
      modifies this`runners
      ensures runners == Restrict(old(runners), wanted)
      ensures toStop == set id | id in old(runners) && id !in wanted :: old(runners)[id]
    {
      toStop := {};
      var rest := runners.Keys;
      while rest != {}
        invariant rest <= old(runners).Keys
        invariant runners == map id | id in old(runners) && (id in rest || id in wanted) :: old(runners)[id]
        invariant toStop == set id | id in old(runners) && id !in rest && id !in wanted :: old(runners)[id]
      {
        var id :| id in rest;
        rest := rest - {id};
        if id !in wanted {
          toStop := toStop + {runners[id]};
          runners := runners - {id};
        }
      }
    }

    /** The pauses of remotes that are gone are forgotten, in both maps. */
    method ForgetDeaths(wanted: set<Id>)
      modifies this`deaths, this`lastDeath
      ensures deaths == Restrict(old(deaths), wanted) && lastDeath == Restrict(old(lastDeath), wanted)
    {
      var rest := deaths.Keys;
      while rest != {}
        invariant rest <= old(deaths).Keys
        invariant deaths == map id | id in old(deaths) && (id in rest || id in wanted) :: old(deaths)[id]
        invariant forall id :: id in lastDeath ==> id in old(lastDeath) && lastDeath[id] == old(lastDeath)[id]
        invariant forall id :: id in old(lastDeath) && id in wanted ==> id in lastDeath
      {
        var id :| id in rest;
        rest := rest - {id};
        if id !in wanted {
          deaths, lastDeath := deaths - {id}, lastDeath - {id};
        }
      }
      rest := lastDeath.Keys;
      while rest != {}
        invariant deaths == Restrict(old(deaths), wanted)
        invariant forall id :: id in lastDeath ==> id in old(lastDeath) && lastDeath[id] == old(lastDeath)[id]
        invariant forall id :: id in old(lastDeath) && id in wanted ==> id in lastDeath
        invariant forall id :: id in lastDeath && id !in wanted ==> id in rest
      {
        var id :| id in rest;
        rest := rest - {id};
        if id !in wanted {
          lastDeath := lastDeath - {id};
        }
      }
    }

    method Startable(wanted: set<Id>, now: int) returns (toStart: set<Id>)
      requires tick > 0
      ensures toStart == ToStart(Abs(), tick, wanted, now)
    {
      toStart := {};
      var rest := wanted;
      while rest != {}
        invariant rest <= wanted
        invariant toStart == ToStart(Abs(), tick, wanted - rest, now)
      {
        var id :| id in rest;
        rest := rest - {id};
        if id in runners {
          continue;
        }
        var d := if id in deaths then deaths[id] else 0;
        var elapsed := if id in lastDeath then Some(now - lastDeath[id]) else None;
        var left := BackoffLeft(d, tick, elapsed);
        if left > 0 {
          continue;
        }
        toStart := toStart + {id};
      }
      assert wanted - rest == wanted;
    }

    /** startRunner: no second runner for a remote that has one. */
    method StartRunner(id: Id)
      requires Inv(Abs()) && Enabled(Abs(), Launch(id))
      modifies this
      ensures Inv(Abs()) && Abs() == Step(tick, old(Abs()), Launch(id))
    {
      LaunchKeepsInv(tick, Abs(), id);
      hide Inv;
      round := Busy({}, round.starts - {id});
      if id in runners {
        return;
      }
      runners := runners[id := next];
      procs := procs[next := Runner(id, Looping)];
      next := next + 1;
    }

    /** forgetRunner, the last thing a runner does. */
    method ForgetRunner(id: Id, rid: Rid)
      requires Inv(Abs()) && InPhase(Abs(), rid, Finished) && procs[rid].remote == id
      modifies this
      ensures Inv(Abs()) && Abs() == Step(tick, old(Abs()), Forget(rid))
    {
      ForgetKeepsInv(tick, Abs(), rid);
      hide Inv;
      if id in runners && runners[id] == rid {
        runners := runners - {id};
      }
      procs := procs - {rid};
    }

    /** runnerDied, on the way out of the loop. */
    method RunnerDied(id: Id, ghost rid: Rid, now: int)
      requires Inv(Abs()) && InPhase(Abs(), rid, Looping) && procs[rid].remote == id
      modifies this
      ensures Inv(Abs()) && Abs() == Step(tick, old(Abs()), Die(rid, now))
      ensures deaths == old(deaths)[id := (if id in old(deaths) then old(deaths)[id] else 0) + 1]
      ensures lastDeath == old(lastDeath)[id := now]
    {
      StepKeepsInv(tick, Abs(), Die(rid, now));
      hide Inv;
      deaths := deaths[id := (if id in deaths then deaths[id] else 0) + 1];
      lastDeath := lastDeath[id := now];
      procs := procs[rid := procs[rid].(phase := Leaving)];
    }

    /** runnerHealthy, after a sync. */
    method RunnerHealthy(id: Id, ghost rid: Rid)
      requires Inv(Abs()) && InPhase(Abs(), rid, Looping) && procs[rid].remote == id
      modifies this
      ensures Inv(Abs()) && Abs() == Step(tick, old(Abs()), Healthy(rid))
      ensures deaths == old(deaths) - {id} && lastDeath == old(lastDeath) - {id}
    {
      StepKeepsInv(tick, Abs(), Healthy(rid));
      hide Inv;
      deaths, lastDeath := deaths - {id}, lastDeath - {id};
    }
  }
}
