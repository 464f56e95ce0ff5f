/** One synchronisation of a mirrored remote and the job record that tells how it went. */
module Mirror {
  import opened Text
  import opened MirrorPool
  import CacheModel
  import MirrorDiff

  // ---- retries ----

  /** What one attempt at a path gives. */
  datatype Attempt = Got(bytes: nat) | Copy(bytes: nat) | Missing | Error(reason: string)

  predicate Final(a: Attempt) {
    !a.Error?
  }

  /** prefetchWithRetry; attempts are numbered from zero, and `cancelledAt` says before
      which attempt the context is found cancelled. A stale copy and a missing object are
      final answers, everything else is tried again. */
  method PrefetchWithRetry(retryMax: nat, attempt: nat -> Attempt, cancelledAt: Option<nat>)
    returns (tried: nat, last: Option<Attempt>)
    ensures tried <= retryMax + 1
    ensures last.Some? ==> 0 < tried && last.value == attempt(tried - 1)
    ensures forall k :: 0 <= k < tried - 1 ==> attempt(k).Error?
    ensures last.None? <==> cancelledAt == Some(tried) && (forall k :: 0 <= k < tried ==> attempt(k).Error?) && tried <= retryMax
    ensures last.Some? && last.value.Error? ==> tried == retryMax + 1
  {
    tried, last := 0, None;
    while tried <= retryMax
      invariant tried <= retryMax + 1
      invariant forall k :: 0 <= k < tried ==> !Final(attempt(k))
      invariant forall k :: 0 <= k < tried ==> cancelledAt != Some(k)
    {
      if cancelledAt == Some(tried) {
        return tried, None;
      }
      var a := attempt(tried);
      tried := tried + 1;
      if Final(a) {
        return tried, Some(a);
      }
    }
    return tried, Some(attempt(retryMax));
  }

  // ---- bandwidth ----

  function Paid(payments: seq<nat>): nat {
    if payments == [] then 0 else Paid(payments[..|payments| - 1]) + payments[|payments| - 1]
  }

  /** throttle: n bytes are paid in portions that the limiter accepts; it fails at the
      portion given by `failsAt`, if any. */
  method Throttle(n: int, burst: int, failsAt: Option<nat>) returns (ok: bool, payments: seq<nat>)
    requires burst > 0
    ensures forall p :: p in payments ==> 0 < p <= burst
    ensures forall i :: 0 <= i < |payments| && (!ok || i < |payments| - 1) ==> payments[i] == burst
    ensures ok ==> Paid(payments) == if n > 0 then n else 0
    ensures !ok ==> failsAt == Some(|payments|) && Paid(payments) < n
  {
    payments := [];
    var left := n;
    while left > 0
      invariant forall p :: p in payments ==> 0 < p <= burst
      invariant forall i :: 0 <= i < |payments| && (left > 0 || i < |payments| - 1) ==> payments[i] == burst
      invariant n > 0 ==> left >= 0 && Paid(payments) + left == n
      invariant n <= 0 ==> left == n && payments == []
    {
      var take := if left < burst then left else burst;
      if failsAt == Some(|payments|) {
        return false, payments;
      }
      var more := payments + [take];
      assert more[..|more| - 1] == payments;
      payments, left := more, left - take;
    }
    return true, payments;
  }

  // ---- jobs ----

  datatype JobState = Pending | Running | Succeeded | Unsuccessful

  const INTERRUPTED_BY_RESTART := "error:interrupted by restart"

  datatype Job = Job(state: JobState, cursor: string)

  type RemoteId = nat

  /** The ends of a synchronisation that its caller sees. */
  datatype Ending = NotStarted | EnumerateFailed | DiffFailed | NothingToDo | Interrupted | TooManyErrors | Completed

  /** What happens to one synchronisation: whether it is configured, enumerates and reads
      the job store, the diff over the enumerated paths, the pool when its workers have
      returned, and whether the context is cancelled by the time of the check. */
  datatype Course = Course(
    configured: bool, startFault: bool, enumerates: bool, cache: CacheModel.Config, visits: seq<MirrorDiff.Visit>,
    cancelledInDiff: bool, pool: State, cancelled: bool, finalFault: bool)
  {
    ghost function ToSync(): seq<string> {
      MirrorDiff.Select(cache, visits, MirrorDiff.ToSync)
    }

    ghost predicate Diffs() {
      !cancelledInDiff && forall i :: 0 <= i < |visits| ==> MirrorDiff.StatusOf(cache, visits[i]) != MirrorDiff.Broken
    }

    /** The pool has worked on what the diff found. */
    ghost predicate Sound() {
      && Inv(pool) && Counted(pool) && Finished(pool) && pool.jobs != map[] && pool.total == |ToSync()|
      && (pool.cancelled ==> cancelled)
    }

    /** The synchronisation ran to its end, with few enough failures. */
    ghost predicate Fine(threshold: real) {
      && enumerates && Diffs()
      && (ToSync() == [] || (!cancelled && !Exceeds(CountFailed(pool.reports), |ToSync()|, threshold)))
    }
  }

  /** More paths failed than the threshold admits. */
  predicate Exceeds(failed: nat, total: nat, threshold: real)
    requires total > 0
  {
    failed > 0 && failed as real / total as real > threshold
  }

  class Engine {
    const threshold: real
    var jobs: map<RemoteId, Job>

    /** A threshold that is not positive stands for the default of five per cent. */
    constructor (t: real, stored: map<RemoteId, Job>)
      ensures threshold == (if t <= 0.0 then 0.05 else t) && jobs == stored
    {
      threshold, jobs := if t <= 0.0 then 0.05 else t, stored;
    }

    method StartJob(remote: RemoteId, fault: bool) returns (ok: bool)
      modifies this`jobs
      ensures ok <==> !fault
      ensures ok ==> remote in jobs && jobs[remote].state.Running? && jobs == old(jobs)[remote := jobs[remote]]
      ensures ok ==> jobs[remote].cursor == if remote in old(jobs) then old(jobs)[remote].cursor else ""
      ensures !ok ==> jobs == old(jobs)
    {
      if fault {
        return false;
      }
      var job := if remote in jobs then jobs[remote].(state := Running) else Job(Running, "");
      jobs := jobs[remote := job];
      return true;
    }

    /** succeedJob, failJob and failJobInterrupted: the last write, which ignores the
        cancellation but may still fail. */
    method EndJob(remote: RemoteId, state: JobState, cursor: string, fault: bool)
      requires remote in jobs
      modifies this`jobs
      ensures jobs == if fault then old(jobs) else old(jobs)[remote := Job(state, cursor)]
    {
      if !fault {
        jobs := jobs[remote := Job(state, cursor)];
      }
    }

    /** Sync: whatever happens after its start, the job does not stay running unless the
        last write fails, and it has succeeded exactly when there was nothing to fetch or
        the download ran to its end with few enough failures. An uncancelled download has
        accounted for every path. */
    method Sync(remote: RemoteId, c: Course) returns (ending: Ending, res: Totals)
      requires c.Sound()
      modifies this`jobs
      ensures ending.NotStarted? <==> !c.configured || c.startFault
      ensures ending.EnumerateFailed? <==> !ending.NotStarted? && !c.enumerates
      ensures ending.DiffFailed? <==>
        && c.configured && !c.startFault && c.enumerates
        && (c.cancelledInDiff || exists i :: 0 <= i < |c.visits| && MirrorDiff.IndexUnread(c.cache, c.visits[i]))
      ensures ending.NothingToDo? <==>
        && c.configured && !c.startFault && c.enumerates && !ending.DiffFailed?
        && forall i :: 0 <= i < |c.visits| ==> !MirrorDiff.Wanted(c.cache, c.visits[i])
      ensures ending.NotStarted? ==> jobs == old(jobs)
      ensures !ending.NotStarted? ==> remote in jobs && jobs == old(jobs)[remote := jobs[remote]]
      ensures !ending.NotStarted? ==> (jobs[remote].state.Running? <==> c.finalFault)
      ensures !ending.NotStarted? && !c.finalFault ==>
        && (jobs[remote].state.Succeeded? || jobs[remote].state.Unsuccessful?)
        && (jobs[remote].state.Succeeded? <==> c.Fine(threshold))
      ensures ending.NothingToDo? || ending.Completed? <==> !ending.NotStarted? && c.Fine(threshold)
      ensures ending.Completed? || ending.TooManyErrors? ==> res.done + res.failed == |c.ToSync()|
      ensures ending.Interrupted? ==> res.done + res.failed == c.pool.fed <= |c.ToSync()|
    {
      hide Inv, Counted, Finished, MirrorDiff.Select, MirrorDiff.StatusOf, MirrorDiff.IndexUnread, MirrorDiff.Wanted, Course.Sound;
      res := Totals(0, 0, 0, 0, []);
      if !c.configured {
        return NotStarted, res;
      }
      var ok := StartJob(remote, c.startFault);
      if !ok {
        return NotStarted, res;
      }
      if !c.enumerates {
        EndJob(remote, Unsuccessful, "error:", c.finalFault);
        return EnumerateFailed, res;
      }
      ending, res := Continue(remote, c);
    }

    /** The part of Sync from the diff on. */
    method Continue(remote: RemoteId, c: Course) returns (ending: Ending, res: Totals)
      requires c.Sound() && c.enumerates && remote in jobs
      modifies this`jobs
      ensures remote in jobs && if c.finalFault then jobs == old(jobs) else jobs == old(jobs)[remote := jobs[remote]]
      ensures !c.finalFault ==> jobs[remote].state == if c.Fine(threshold) then Succeeded else Unsuccessful
      ensures !ending.NotStarted? && !ending.EnumerateFailed?
      ensures ending.DiffFailed? <==>
        c.cancelledInDiff || exists i :: 0 <= i < |c.visits| && MirrorDiff.IndexUnread(c.cache, c.visits[i])
      ensures ending.NothingToDo? <==>
        !ending.DiffFailed? && forall i :: 0 <= i < |c.visits| ==> !MirrorDiff.Wanted(c.cache, c.visits[i])
      ensures ending.NothingToDo? || ending.Completed? <==> c.Fine(threshold)
      ensures ending.Completed? || ending.TooManyErrors? ==> res.done + res.failed == |c.ToSync()|
      ensures ending.Interrupted? ==> res.done + res.failed == c.pool.fed <= |c.ToSync()|
    {
      res := Totals(0, 0, 0, 0, []);
      var diff := MirrorDiff.Compare(c.cache, c.visits);
      hide Inv, Counted, Finished, MirrorDiff.Select, MirrorDiff.StatusOf, MirrorDiff.IndexUnread, MirrorDiff.Wanted, Course.Sound;
      if c.cancelledInDiff || diff.Aborted? {
        EndJob(remote, Unsuccessful, "error:", c.finalFault);
        return DiffFailed, res;
      }
      var total := |diff.toSync|;
      NothingWanted(c, diff.toSync);
      hide MirrorDiff.FetchesWanted;
      if total == 0 {
        EndJob(remote, Succeeded, "files=0;bytes=0", c.finalFault);
        return NothingToDo, res;
      }
      ending, res := Download(remote, c, total);
    }

    lemma NothingWanted(c: Course, toSync: seq<string>)
      requires MirrorDiff.FetchesWanted(c.cache, c.visits, toSync)
      ensures toSync == [] <==> forall i :: 0 <= i < |c.visits| ==> !MirrorDiff.Wanted(c.cache, c.visits[i])
    {
      if toSync != [] {
        assert toSync[0] in toSync;
      }
    }

    /** The part of Sync from the download on. */
    method Download(remote: RemoteId, c: Course, total: nat) returns (ending: Ending, res: Totals)
      requires c.Sound() && total == |c.ToSync()| > 0 && c.enumerates && c.Diffs() && remote in jobs
      modifies this`jobs
      ensures remote in jobs && if c.finalFault then jobs == old(jobs) else jobs == old(jobs)[remote := jobs[remote]]
      ensures !c.finalFault ==> jobs[remote].state == if c.Fine(threshold) then Succeeded else Unsuccessful
      ensures if c.cancelled then ending.Interrupted? else if c.Fine(threshold) then ending.Completed? else ending.TooManyErrors?
      ensures res.done + res.failed == c.pool.fed <= total && (!c.cancelled ==> c.pool.fed == total)
    {
      res := Collect(c.pool.reports);
      FinishedReports(c.pool);
      hide Inv, Counted, Finished, MirrorDiff.Select, MirrorDiff.StatusOf, Reported;
      if c.cancelled {
        EndJob(remote, Unsuccessful, "error:interrupted by cancel", c.finalFault);
        return Interrupted, res;
      }
      if res.failed > 0 && res.failed as real / total as real > threshold {
        EndJob(remote, Unsuccessful, "error:", c.finalFault);
        return TooManyErrors, res;
      }
      EndJob(remote, Succeeded, "files", c.finalFault);
      return Completed, res;
    }

    /** RecoverInterruptedJobs: after a restart no job is running any more, and nothing
        else has changed. A listing or a write that fails ends the recovery. */
    method RecoverInterruptedJobs(listFault: bool, failing: set<RemoteId>) returns (ok: bool)
      modifies this`jobs
      ensures jobs.Keys == old(jobs).Keys
      ensures forall r :: r in jobs ==>
        jobs[r] == old(jobs)[r] || (old(jobs)[r].state.Running? && jobs[r] == Job(Unsuccessful, INTERRUPTED_BY_RESTART))
      ensures listFault ==> !ok && jobs == old(jobs)
      ensures INTERRUPTED_BY_RESTART == "error:interrupted by restart"
      ensures ok <==> !listFault && forall r :: r in jobs ==> !jobs[r].state.Running?
      ensures ok <==> !listFault && forall r :: r in old(jobs) && r in failing ==> !old(jobs)[r].state.Running?
    {
      if listFault {
        return false;
      }
      var rest := jobs.Keys;
      while rest != {}
        invariant rest <= jobs.Keys == old(jobs).Keys
        invariant forall r :: r in rest ==> jobs[r] == old(jobs)[r]
        invariant forall r :: r in jobs ==>
          jobs[r] == old(jobs)[r] || (old(jobs)[r].state.Running? && jobs[r] == Job(Unsuccessful, INTERRUPTED_BY_RESTART))
        invariant forall r :: r in jobs && r !in rest ==> !jobs[r].state.Running? && (r in failing ==> !old(jobs)[r].state.Running?)
      {
        var r :| r in rest;
        rest := rest - {r};
        if !jobs[r].state.Running? {
          continue;
        }
        if r in failing {
          return false;
        }
        jobs := jobs[r := Job(Unsuccessful, INTERRUPTED_BY_RESTART)];
      }
      return true;
    }
  }

  /** A complete download fails its job exactly when the failures exceed the threshold's
      share of all paths: for the default of five per cent, when one path in more than
      every twenty failed. */
  lemma FivePerCent(failed: nat, total: nat)
    requires total > 0
    ensures Exceeds(failed, total, 0.05) <==> 20 * failed > total
  {
    Share(failed as real, total as real, 0.05);
  }

  lemma Share(f: real, t: real, x: real)
    requires t > 0.0
    ensures f / t > x <==> f > x * t
  {
    var q := f / t;
    assert q * t == f;
    if q > x {
      assert (q - x) * t > 0.0;
    } else {
      assert (x - q) * t >= 0.0;
    }
  }
}
