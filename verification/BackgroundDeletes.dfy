/** Background deletion of replaced versions: a counter and a channel per busy period that
    let shutdown wait for deletions which may panic and which others keep requesting. */
module BackgroundDeletes {
  import opened Text

  const DELETE_CONCURRENCY := 4

  /** `idle` names the current channel; `closes` counts how often each channel was closed.
      A deletion is queued, then running inside the semaphore, then settling its count. */
  datatype State = State(
    pending: int, idle: Option<nat>, made: nat, closes: multiset<nat>,
    queued: nat, running: nat, settling: nat,
    requested: nat, finished: nat, panics: nat)

  datatype Label = Request | Acquire | Run(panics: bool) | Settle

  predicate Enabled(s: State, l: Label) {
    match l
    case Request => true
    case Acquire => s.queued > 0 && s.running < DELETE_CONCURRENCY
    case Run(_) => s.running > 0
    case Settle => s.settling > 0
  }

  function Step(s: State, l: Label): State
    requires Enabled(s, l)
  {
    match l
    case Request =>
      s.(idle := if s.pending == 0 then Some(s.made) else s.idle, made := if s.pending == 0 then s.made + 1 else s.made,
         pending := s.pending + 1, queued := s.queued + 1, requested := s.requested + 1)
    case Acquire => s.(queued := s.queued - 1, running := s.running + 1)
    case Run(panics) =>
      s.(running := s.running - 1, settling := s.settling + 1, panics := if panics then s.panics + 1 else s.panics)
    case Settle =>
      s.(settling := s.settling - 1, pending := s.pending - 1, finished := s.finished + 1,
         closes := if s.pending == 1 && s.idle.Some? then s.closes + multiset{s.idle.value} else s.closes)
  }

  /** The channel of the current busy period is open; all earlier ones were closed once. */
  ghost predicate Inv(s: State) {
    && s.pending == s.queued + s.running + s.settling == s.requested - s.finished
    && s.running <= DELETE_CONCURRENCY
    && (s.made == 0 <==> s.idle.None?)
    && (s.idle.Some? ==> s.idle.value == s.made - 1)
    && (s.pending > 0 ==> s.idle.Some?)
    && forall channel: nat :: s.closes[channel] == if channel < s.made - (if s.pending > 0 then 1 else 0) then 1 else 0
  }

  const INITIAL := State(0, None, 0, multiset{}, 0, 0, 0, 0, 0, 0)

  lemma StepKeepsInv(s: State, l: Label)
    requires Inv(s) && Enabled(s, l)
    ensures Inv(Step(s, l))
  {
  }

  ghost predicate IsRun(states: seq<State>, labels: seq<Label>) {
    && |states| == |labels| + 1 && states[0] == INITIAL
    && forall i :: 0 <= i < |labels| ==> Enabled(states[i], labels[i]) && states[i + 1] == Step(states[i], labels[i])
  }

  /** In every interleaving the counter is the number of requested but unfinished
      deletions, at most four run, and no channel is closed twice or left open by a
      finished busy period, panics included. */
  lemma {:induction false} CountersExact(states: seq<State>, labels: seq<Label>, i: nat)
    requires IsRun(states, labels) && i < |states|
    ensures Inv(states[i])
    ensures states[i].pending == states[i].requested - states[i].finished && states[i].running <= 4
    ensures forall channel: nat :: states[i].closes[channel] <= 1
    ensures states[i].pending == 0 ==> forall channel: nat :: channel < states[i].made ==> states[i].closes[channel] == 1
  {
    if i > 0 {
      CountersExact(states, labels, i - 1);
      StepKeepsInv(states[i - 1], labels[i - 1]);
    }
  }

  // ---- progress ----

  function Work(s: State): nat {
    3 * s.queued + 2 * s.running + s.settling
  }

  /** As long as a deletion is pending some deleter can move, and every such move brings
      the end nearer: a drain that sees no new requests cannot wait for ever. */
  lemma DeletersProgress(s: State)
    requires Inv(s)
    ensures s.pending == 0 <==> Work(s) == 0
    ensures s.pending > 0 ==> exists l :: l != Request && Enabled(s, l)
    ensures s.queued > 0 && s.running < 4 ==> Enabled(s, Acquire)
    ensures forall l :: l != Request && Enabled(s, l) ==> Work(Step(s, l)) < Work(s)
  {
    if s.settling > 0 {
      assert Enabled(s, Settle);
    } else if s.running > 0 {
      assert Enabled(s, Run(false));
    } else if s.queued > 0 {
      assert Enabled(s, Acquire);
    }
  }

  /** The steps of a schedule that are possible, taken in order. */
  function Play(s: State, schedule: seq<Label>): State {
    if schedule == [] then s
    else
      var before, l := Play(s, schedule[..|schedule| - 1]), schedule[|schedule| - 1];
      if Enabled(before, l) then Step(before, l) else before
  }

  class Deleter {
    var delPending: int
    var delIdle: Option<nat>
    var made: nat
    var closes: multiset<nat>
    var queued: nat
    var running: nat
    var settling: nat
    var requested: nat
    var finished: nat
    var panics: nat

    function Abs(): State
      reads this
    {
      State(delPending, delIdle, made, closes, queued, running, settling, requested, finished, panics)
    }

    constructor ()
      ensures Abs() == INITIAL && Inv(Abs())
    {
      delPending, delIdle, made, closes := 0, None, 0, multiset{};
      queued, running, settling, requested, finished, panics := 0, 0, 0, 0, 0, 0;
    }

    /** deleteInBackground. */
    method DeleteInBackground()
      requires Inv(Abs())
      modifies this
      ensures Inv(Abs()) && Abs() == Step(old(Abs()), Request)
    {
      if delPending == 0 {
        delIdle := Some(made);
        made := made + 1;
      }
      delPending := delPending + 1;
      queued, requested := queued + 1, requested + 1;
    }

    /** The goroutine enters the semaphore ... */
    method Acquire()
      requires Inv(Abs()) && queued > 0 && running < DELETE_CONCURRENCY
      modifies this
      ensures Inv(Abs()) && Abs() == Step(old(Abs()), Label.Acquire)
    {
      queued, running := queued - 1, running + 1;
    }

    /** ... deletes, recovers if the storage panics, and leaves the semaphore ... */
    method RunDelete(fails: bool)
      requires Inv(Abs()) && running > 0
      modifies this
      ensures Inv(Abs()) && Abs() == Step(old(Abs()), Run(fails))
    {
      if fails {
        panics := panics + 1;
      }
      running, settling := running - 1, settling + 1;
    }

    /** ... and settles the counter; closing a closed channel would panic. */
    method Settle()
      requires Inv(Abs()) && settling > 0
      modifies this
      ensures Inv(Abs()) && Abs() == Step(old(Abs()), Label.Settle)
      ensures old(delPending) == 1 ==> old(closes)[old(delIdle).value] == 0
    {
      settling, finished := settling - 1, finished + 1;
      delPending := delPending - 1;
      if delPending == 0 {
        closes := closes + multiset{delIdle.value};
      }
    }

    method Take(l: Label)
      requires Inv(Abs())
      modifies this
      ensures Inv(Abs()) && Abs() == if Enabled(old(Abs()), l) then Step(old(Abs()), l) else old(Abs())
    {
      if !Enabled(Abs(), l) {
        return;
      }
      match l
      case Request => DeleteInBackground();
      case Acquire => Acquire();
      case Run(fails) => RunDelete(fails);
      case Settle => Settle();
    }

    /** DrainBackgroundDeletes while others take the given steps, of which it sees the first
        `taken`; then the context ends. It changes nothing itself. When the channel is
        closed at that very moment select may pick either case. */
    method Drain(others: seq<Label>, picksIdle: bool) returns (drained: bool, ghost taken: nat)
      requires Inv(Abs())
      modifies this
      ensures Inv(Abs()) && taken <= |others| && Abs() == Play(old(Abs()), others[..taken])
      ensures drained ==> delPending == 0 && requested == finished
      ensures !drained ==> taken == |others| && (delPending > 0 || !picksIdle)
    {
      var next := 0;
      while true
        invariant 0 <= next <= |others| && Inv(Abs()) && Abs() == Play(old(Abs()), others[..next])
        decreases |others| - next
      {
        var idle, pending := delIdle, delPending;
        if pending == 0 {
          return true, next;
        }
        var start := next;
        while next < |others| && closes[idle.value] == 0
          invariant start <= next <= |others| && Inv(Abs()) && Abs() == Play(old(Abs()), others[..next])
          invariant idle.Some? && idle.value < made
          invariant next == start ==> closes[idle.value] == 0
        {
          assert others[..next + 1][..next] == others[..next];
          Take(others[next]);
          next := next + 1;
        }
        if closes[idle.value] == 0 || (next == |others| && !picksIdle) {
          return false, next;
        }
      }
    }
  }
}
