/** One background task: its state ends once and for good, and its log keeps the last
    fifty lines. Times are in nanoseconds; None is the zero time. */
module BackgroundTask {
  import opened Text

  const MAX_LOGS := 50
  const MIN_LOG_INTERVAL := 500_000_000

  datatype TaskState = Running | Succeeded | Failed(reason: string)

  /** How the task's function came back. */
  datatype Ending = Returned | Error(reason: string, canceled: bool) | Panicked(reason: string)

  function Last<T>(s: seq<T>, n: nat): seq<T> {
    if |s| <= n then s else s[|s| - n..]
  }

  /** Dropping from the front after each line is keeping the last lines of all of them. */
  lemma LastAppend<T>(s: seq<T>, x: T, n: nat)
    requires n > 0
    ensures Last(Last(s, n) + [x], n) == Last(s + [x], n)
  {
  }

  /** Frames of progress are logged at least the minimal interval apart. */
  ghost predicate Spaced(frames: seq<int>) {
    forall i :: 0 < i < |frames| ==> frames[i] - frames[i - 1] >= MIN_LOG_INTERVAL
  }

  class Task {
    var state: TaskState
    var phase: string
    var current: string
    var processed: int
    var total: int
    var logs: seq<string>
    var lastLogAt: Option<int>
    var finishedAt: Option<int>
    ghost var written: seq<string>
    ghost var frames: seq<int>

    ghost predicate Valid()
      reads this
    {
      && logs == Last(written, MAX_LOGS) && Spaced(frames)
      && (lastLogAt.None? <==> frames == []) && (frames != [] ==> lastLogAt == Some(frames[|frames| - 1]))
      && (state.Running? <==> finishedAt.None?)
    }

    constructor ()
      ensures Valid() && state == Running && written == []
    {
      state, phase, current, processed, total := Running, "", "", 0, 0;
      logs, lastLogAt, finishedAt, written, frames := [], None, None, [], [];
    }

    /** appendLogLocked. */
    method AppendLog(line: string)
      requires logs == Last(written, MAX_LOGS)
      modifies this`logs, this`written
      ensures written == old(written) + [line] && logs == Last(written, MAX_LOGS)
      ensures logs == if |written| <= 50 then written else written[|written| - 50..]
    {
      LastAppend(written, line, MAX_LOGS);
      logs, written := logs + [line], written + [line];
      if |logs| > MAX_LOGS {
        logs := logs[|logs| - MAX_LOGS..];
      }
    }

    /** update; `frame` is the formatted line. A finished task is not moved any more. */
    method Update(newPhase: string, newCurrent: string, newProcessed: int, newTotal: int, frame: string, now: int)
      requires Valid()
      modifies this
      ensures Valid() && state == old(state) && finishedAt == old(finishedAt)
      ensures if old(state).Running?
              then phase == newPhase && current == newCurrent && processed == newProcessed && total == newTotal
              else phase == old(phase) && current == old(current) && processed == old(processed) && total == old(total)
      ensures var due := old(state).Running? && (old(lastLogAt).None? || now - old(lastLogAt).value >= 500_000_000);
        && written == old(written) + (if due then [frame] else [])
        && frames == old(frames) + (if due then [now] else [])
    {
      if !state.Running? {
        return;
      }
      phase, current, processed, total := newPhase, newCurrent, newProcessed, newTotal;
      if lastLogAt.None? || now - lastLogAt.value >= MIN_LOG_INTERVAL {
        AppendLog(frame);
        lastLogAt, frames := Some(now), frames + [now];
      }
    }

    /** finishSuccess and finishError: whoever comes first decides. */
    method Finish(outcome: TaskState, line: string, now: int)
      requires Valid() && !outcome.Running?
      modifies this
      ensures Valid() && !state.Running?
      ensures state == if old(state).Running? then outcome else old(state)
      ensures finishedAt == if old(state).Running? then Some(now) else old(finishedAt)
      ensures written == if old(state).Running? then old(written) + [line] else old(written)
      ensures phase == old(phase) && current == old(current) && processed == old(processed) && total == old(total)
      ensures frames == old(frames)
    {
      if !state.Running? {
        return;
      }
      state, finishedAt := outcome, Some(now);
      AppendLog(line);
    }

    /** The end of the goroutine: a nil error succeeds, an error fails, a panic fails too. */
    method Conclude(ending: Ending, shuttingDown: bool, now: int)
      requires Valid() && state.Running?
      modifies this
      ensures Valid()
      ensures state.Succeeded? <==> ending.Returned?
      ensures ending.Error? ==> state == Failed(ending.reason)
      ensures ending.Panicked? ==> state == Failed("panic: " + ending.reason)
      ensures finishedAt == Some(now) && old(written) <= written && frames == old(frames)
      ensures |written| == |old(written)| + (if ending.Error? && ending.canceled && shuttingDown then 2 else 1)
    {
      match ending
      case Returned =>
        Finish(Succeeded, "task finished", now);
      case Error(reason, canceled) =>
        if canceled && shuttingDown {
          AppendLog("task cancelled at shutdown");
        }
        Finish(Failed(reason), "task failed: " + reason, now);
      case Panicked(reason) =>
        Finish(Failed("panic: " + reason), "task failed: panic: " + reason, now);
    }
  }
}
