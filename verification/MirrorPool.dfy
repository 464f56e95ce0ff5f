/** The download of a mirror: a feeder, a pool of workers and a collector over channels
    without buffers, any of which may be stopped by a cancellation. */
module MirrorPool {
  import opened Sums

  type Worker = nat

  datatype Outcome = Fetched(bytes: nat) | Stale(bytes: nat) | Failed(error: string)

  /** What the collector has read: the position of a path and how it ended. */
  datatype Report = Report(at: nat, outcome: Outcome)

  /** A worker waits for a path, works on one, or has returned. */
  datatype Job = Waiting | Busy(at: nat) | Returned

  /** The feeder has handed out the first `fed` of `total` paths; it stops when it has
      handed out all, or when it sees the cancellation. */
  datatype State = State(total: nat, fed: nat, feeding: bool, cancelled: bool, jobs: map<Worker, Job>, reports: seq<Report>)

  datatype Label =
    | Cancel
    | Hand(w: Worker)
    | StopFeeding
    | Deliver(w: Worker, outcome: Outcome)
    | GiveUp(w: Worker, error: string)
    | Return(w: Worker)

  predicate Enabled(s: State, l: Label) {
    match l
    case Cancel => true
    case Hand(w) => s.feeding && s.fed < s.total && w in s.jobs && s.jobs[w].Waiting?
    case StopFeeding => s.feeding && (s.fed == s.total || s.cancelled)
    case Deliver(w, _) => w in s.jobs && s.jobs[w].Busy?
    case GiveUp(w, _) => w in s.jobs && s.jobs[w].Busy? && s.cancelled
    case Return(w) => w in s.jobs && s.jobs[w].Waiting? && !s.feeding
  }

  function Step(s: State, l: Label): State
    requires Enabled(s, l)
  {
    match l
    case Cancel => s.(cancelled := true)
    case Hand(w) => s.(fed := s.fed + 1, jobs := s.jobs[w := Busy(s.fed)])
    case StopFeeding => s.(feeding := false)
    case Deliver(w, outcome) => s.(jobs := s.jobs[w := Waiting], reports := s.reports + [Report(s.jobs[w].at, outcome)])
    case GiveUp(w, error) =>
      s.(jobs := s.jobs[w := Returned], reports := s.reports + [Report(s.jobs[w].at, Failed(error))])
    case Return(w) => s.(jobs := s.jobs[w := Returned])
  }

  ghost predicate Init(s: State, total: nat, workers: nat) {
    && s.total == total && s.fed == 0 && s.feeding && s.reports == []
    && workers >= 1 && (forall w :: w in s.jobs <==> w < workers) && forall w :: w in s.jobs ==> s.jobs[w].Waiting?
  }

  /** The collector's loop ends when every worker has returned. */
  ghost predicate Finished(s: State) {
    forall w :: w in s.jobs ==> s.jobs[w].Returned?
  }

  ghost predicate Reported(s: State, at: nat) {
    exists k :: 0 <= k < |s.reports| && s.reports[k].at == at
  }

  ghost predicate InHand(s: State, at: nat) {
    exists w :: w in s.jobs && s.jobs[w] == Busy(at)
  }

  /** Every path handed out is in exactly one place, in one hand or reported once. */
  ghost predicate Inv(s: State) {
    && s.fed <= s.total
    && (forall k :: 0 <= k < |s.reports| ==> s.reports[k].at < s.fed)
    && (forall k, l :: 0 <= k < l < |s.reports| ==> s.reports[k].at != s.reports[l].at)
    && (forall w :: w in s.jobs && s.jobs[w].Busy? ==> s.jobs[w].at < s.fed && !Reported(s, s.jobs[w].at))
    && (forall v, w :: v in s.jobs && w in s.jobs && v != w && s.jobs[v].Busy? && s.jobs[w].Busy? ==> s.jobs[v].at != s.jobs[w].at)
    && (forall at: nat :: at < s.fed ==> Reported(s, at) || InHand(s, at))
    && (!s.feeding ==> s.cancelled || s.fed == s.total)
    && (forall w :: w in s.jobs && s.jobs[w].Returned? ==> s.cancelled || !s.feeding)
  }

  lemma ReportsGrow(s: State, r: Report)
    ensures forall at :: Reported(s.(reports := s.reports + [r]), at) <==> Reported(s, at) || at == r.at
  {
    var s' := s.(reports := s.reports + [r]);
    assert s'.reports[|s.reports|] == r;
    forall at | Reported(s, at) ensures Reported(s', at) {
      var k :| 0 <= k < |s.reports| && s.reports[k].at == at;
      assert s'.reports[k].at == at;
    }
  }

  lemma HandKeepsInv(s: State, w: Worker)
    requires Inv(s) && Enabled(s, Hand(w))
    ensures Inv(Step(s, Hand(w)))
  {
    var s' := Step(s, Hand(w));
    assert s'.jobs[w] == Busy(s.fed);
    forall at: nat ensures Reported(s', at) <==> Reported(s, at) {
      assert s'.reports == s.reports;
    }
    forall at: nat | at < s'.fed ensures Reported(s', at) || InHand(s', at) {
      if at < s.fed && InHand(s, at) {
        var v :| v in s.jobs && s.jobs[v] == Busy(at);
        assert s'.jobs[v] == Busy(at);
      }
    }
  }

  /** A worker puts down its path and reports it. */
  lemma ReportKeepsInv(s: State, l: Label)
    requires Inv(s) && Enabled(s, l) && (l.Deliver? || l.GiveUp?)
    ensures Inv(Step(s, l))
  {
    var r := Report(s.jobs[l.w].at, if l.Deliver? then l.outcome else Failed(l.error));
    ReportDistinct(s, r);
    PutDown(s, l.w, r, if l.Deliver? then Waiting else Returned);
  }

  lemma ReportDistinct(s: State, r: Report)
    requires forall k, l :: 0 <= k < l < |s.reports| ==> s.reports[k].at != s.reports[l].at
    requires !Reported(s, r.at)
    ensures var all := s.reports + [r]; forall k, l :: 0 <= k < l < |all| ==> all[k].at != all[l].at
  {
  }

  lemma PutDown(s: State, w: Worker, r: Report, job: Job)
    requires Inv(s) && w in s.jobs && s.jobs[w] == Busy(r.at) && !job.Busy?
    requires job.Returned? ==> s.cancelled
    requires var all := s.reports + [r]; forall k, l :: 0 <= k < l < |all| ==> all[k].at != all[l].at
    ensures Inv(s.(jobs := s.jobs[w := job], reports := s.reports + [r]))
  {
    var s' := s.(jobs := s.jobs[w := job], reports := s.reports + [r]);
    ReportsGrow(s, r);
    forall at ensures Reported(s', at) <==> Reported(s, at) || at == r.at {
      assert Reported(s', at) <==> Reported(s.(reports := s.reports + [r]), at);
    }
    hide Reported;
    forall at: nat | at < s'.fed ensures Reported(s', at) || InHand(s', at) {
      if at != r.at && InHand(s, at) {
        var v :| v in s.jobs && s.jobs[v] == Busy(at);
        assert s'.jobs[v] == Busy(at);
      }
    }
  }

  /** Steps that neither hand out nor report a path. */
  lemma QuietKeepsInv(s: State, l: Label)
    requires Inv(s) && Enabled(s, l) && (l.Cancel? || l.StopFeeding? || l.Return?)
    ensures Inv(Step(s, l))
  {
    var s' := Step(s, l);
    assert forall at :: Reported(s', at) <==> Reported(s, at);
    forall at: nat | InHand(s, at) ensures InHand(s', at) {
      var v :| v in s.jobs && s.jobs[v] == Busy(at);
      assert s'.jobs[v] == Busy(at);
    }
  }

  lemma StepKeepsInv(s: State, l: Label)
    requires Inv(s) && Enabled(s, l)
    ensures Inv(Step(s, l)) && Step(s, l).total == s.total && Step(s, l).jobs.Keys == s.jobs.Keys
  {
    hide Inv;
    match l
    case Hand(w) => HandKeepsInv(s, w);
    case Deliver(_, _) => ReportKeepsInv(s, l);
    case GiveUp(_, _) => ReportKeepsInv(s, l);
    case _ => QuietKeepsInv(s, l);
  }

  // ---- counting ----

  function BusyAt(jobs: map<Worker, Job>): Worker -> int {
    w => if w in jobs && jobs[w].Busy? then 1 else 0
  }

  /** Handed out is reported or in hand. */
  ghost predicate Counted(s: State) {
    |s.reports| + Sum(s.jobs.Keys, BusyAt(s.jobs)) == s.fed
  }

  lemma StepKeepsCount(s: State, l: Label)
    requires Counted(s) && Enabled(s, l)
    ensures Counted(Step(s, l))
  {
    var s' := Step(s, l);
    if l.Hand? || l.Deliver? || l.GiveUp? || l.Return? {
      assert s'.jobs.Keys == s.jobs.Keys;
      SumChange(s.jobs.Keys, BusyAt(s.jobs), BusyAt(s'.jobs), l.w);
    }
  }

  /** When the pool has finished, every path that was handed out has been reported exactly
      once; without a cancellation these are all the paths. */
  lemma FinishedReports(s: State)
    requires Inv(s) && Counted(s) && Finished(s) && s.jobs != map[]
    ensures |s.reports| == s.fed <= s.total
    ensures !s.cancelled ==> s.fed == s.total
    ensures forall at: nat :: at < s.fed ==> Reported(s, at)
  {
    SumBounded(s.jobs.Keys, BusyAt(s.jobs), 0);
    var w :| w in s.jobs;
  }

  ghost predicate Follows(states: seq<State>, labels: seq<Label>) {
    && |states| == |labels| + 1
    && forall i :: 0 <= i < |labels| ==> Enabled(states[i], labels[i]) && states[i + 1] == Step(states[i], labels[i])
  }

  lemma {:induction false} RunKeepsInv(states: seq<State>, labels: seq<Label>, total: nat, workers: nat, i: nat)
    requires Follows(states, labels) && Init(states[0], total, workers) && i < |states|
    ensures Inv(states[i]) && Counted(states[i]) && states[i].total == total && states[i].jobs != map[]
  {
    hide Step;
    if i > 0 {
      RunKeepsInv(states, labels, total, workers, i - 1);
      hide Inv, Counted;
      StepKeepsInv(states[i - 1], labels[i - 1]);
      StepKeepsCount(states[i - 1], labels[i - 1]);
    } else {
      assert 0 in states[0].jobs;
      SumBounded(states[0].jobs.Keys, BusyAt(states[0].jobs), 0);
    }
  }

  /** In whatever order paths are handed out, delivered and given up: the counters of an
      uncancelled download add up to the number of paths, each handled once, and those of
      a cancelled one to the number of paths that were handed out. */
  lemma EachPathOnce(states: seq<State>, labels: seq<Label>, total: nat, workers: nat, i: nat)
    requires Follows(states, labels) && Init(states[0], total, workers) && i < |states| && Finished(states[i])
    ensures |states[i].reports| == states[i].fed <= total
    ensures !states[i].cancelled ==> |states[i].reports| == total
    ensures forall k, l :: 0 <= k < l < |states[i].reports| ==> states[i].reports[k].at != states[i].reports[l].at
  {
    RunKeepsInv(states, labels, total, workers, i);
    FinishedReports(states[i]);
  }

  // ---- the pool always comes to an end ----

  function JobWork(jobs: map<Worker, Job>): Worker -> int {
    w => if w in jobs then (if jobs[w].Busy? then 2 else if jobs[w].Waiting? then 1 else 0) else 0
  }

  ghost function Work(s: State): int {
    Sum(s.jobs.Keys, JobWork(s.jobs)) + (if s.feeding then 1 else 0) + 3 * (s.total - s.fed)
  }

  /** Until every worker has returned somebody can move, and every move but the
      cancellation itself is a move towards the end: nobody waits for ever. */
  lemma PoolProgress(s: State, l: Label)
    requires Inv(s)
    ensures !Finished(s) ==> exists m :: m != Cancel && Enabled(s, m)
    ensures Enabled(s, l) && l != Cancel ==> 0 <= Work(Step(s, l)) < Work(s)
  {
    if !Finished(s) {
      var w :| w in s.jobs && !s.jobs[w].Returned?;
      if s.jobs[w].Busy? {
        assert Enabled(s, Deliver(w, Fetched(0)));
      } else if !s.feeding {
        assert Enabled(s, Return(w));
      } else if s.fed < s.total {
        assert Enabled(s, Hand(w));
      } else {
        assert Enabled(s, StopFeeding);
      }
    }
    if Enabled(s, l) && l != Cancel {
      StepKeepsInv(s, l);
      MoveWorks(s, l);
    }
  }

  lemma MoveWorks(s: State, l: Label)
    requires s.fed <= s.total && Enabled(s, l) && l != Cancel && Step(s, l).jobs.Keys == s.jobs.Keys
    ensures 0 <= Work(Step(s, l)) < Work(s)
  {
    var s' := Step(s, l);
    SumNotNegative(s'.jobs.Keys, JobWork(s'.jobs));
    if l.StopFeeding? {
      SumSame(s.jobs.Keys, JobWork(s.jobs), JobWork(s'.jobs));
    } else {
      SumChange(s.jobs.Keys, JobWork(s.jobs), JobWork(s'.jobs), l.w);
    }
  }

  // ---- the collector ----

  const MAX_TRACKED_ERRORS := 100

  datatype Totals = Totals(done: nat, failed: nat, stale: nat, bytes: nat, errors: seq<string>)

  function CountFailed(reports: seq<Report>): nat {
    if reports == [] then 0
    else CountFailed(reports[..|reports| - 1]) + (if reports[|reports| - 1].outcome.Failed? then 1 else 0)
  }

  function CountStale(reports: seq<Report>): nat {
    if reports == [] then 0
    else CountStale(reports[..|reports| - 1]) + (if reports[|reports| - 1].outcome.Stale? then 1 else 0)
  }

  function BytesOf(o: Outcome): nat {
    match o
    case Fetched(bytes) => bytes
    case Stale(bytes) => bytes
    case Failed(_) => 0
  }

  function SumBytes(reports: seq<Report>): nat {
    if reports == [] then 0 else SumBytes(reports[..|reports| - 1]) + BytesOf(reports[|reports| - 1].outcome)
  }

  /** The errors in the order in which they were reported. */
  function Errors(reports: seq<Report>): seq<string> {
    if reports == [] then []
    else
      var before, o := Errors(reports[..|reports| - 1]), reports[|reports| - 1].outcome;
      if o.Failed? then before + [o.error] else before
  }

  function FirstOf<T>(s: seq<T>, n: nat): seq<T> {
    if |s| <= n then s else s[..n]
  }

  ghost function FailedAt(reports: seq<Report>): set<int> {
    set i | 0 <= i < |reports| && reports[i].outcome.Failed?
  }

  ghost function StaleAt(reports: seq<Report>): set<int> {
    set i | 0 <= i < |reports| && reports[i].outcome.Stale?
  }

  lemma OneMoreReport(init: seq<Report>, r: Report)
    ensures FailedAt(init + [r]) == if r.outcome.Failed? then FailedAt(init) + {|init|} else FailedAt(init)
    ensures StaleAt(init + [r]) == if r.outcome.Stale? then StaleAt(init) + {|init|} else StaleAt(init)
    ensures |init| !in FailedAt(init) && |init| !in StaleAt(init)
  {
  }

  /** The counts are numbers of positions. */
  lemma {:induction false} CountsMean(reports: seq<Report>)
    ensures CountFailed(reports) == |FailedAt(reports)| == |Errors(reports)|
    ensures CountStale(reports) == |StaleAt(reports)|
  {
    if reports != [] {
      var init, last := reports[..|reports| - 1], reports[|reports| - 1];
      CountsMean(init);
      OneMoreReport(init, last);
      assert init + [last] == reports;
      hide FailedAt, StaleAt;
    }
  }

  /** The collector's loop: a stale copy is no failure, and only the first hundred errors
      are kept. */
  method Collect(reports: seq<Report>) returns (res: Totals)
    ensures res.failed == CountFailed(reports) && res.stale == CountStale(reports)
    ensures res.done + res.failed == |reports| && res.stale <= res.done
    ensures |res.errors| == if res.failed < MAX_TRACKED_ERRORS then res.failed else MAX_TRACKED_ERRORS
    ensures res.bytes == SumBytes(reports) && res.errors == FirstOf(Errors(reports), 100)
    ensures res.failed == |FailedAt(reports)| && res.stale == |StaleAt(reports)|
  {
    CountsMean(reports);
    res := Totals(0, 0, 0, 0, []);
    for i := 0 to |reports|
      invariant res.failed == CountFailed(reports[..i]) && res.stale == CountStale(reports[..i])
      invariant res.done + res.failed == i && res.stale <= res.done
      invariant |res.errors| == if res.failed < MAX_TRACKED_ERRORS then res.failed else MAX_TRACKED_ERRORS
      invariant res.bytes == SumBytes(reports[..i]) && res.errors == FirstOf(Errors(reports[..i]), MAX_TRACKED_ERRORS)
      invariant res.failed == |Errors(reports[..i])|
    {
      assert reports[..i + 1][..i] == reports[..i];
      match reports[i].outcome
      case Failed(error) =>
        res := res.(failed := res.failed + 1);
        if |res.errors| < MAX_TRACKED_ERRORS {
          res := res.(errors := res.errors + [error]);
        }
      case Stale(bytes) =>
        res := res.(stale := res.stale + 1, done := res.done + 1, bytes := res.bytes + bytes);
      case Fetched(bytes) =>
        res := res.(done := res.done + 1, bytes := res.bytes + bytes);
    }
    assert reports[..|reports|] == reports;
  }
}
