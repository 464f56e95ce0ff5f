/** The publish engine as one upload drives it, while other uploads and deletions take
    any number of steps between its own. */
module PublishEngine {
  import opened Text
  import opened Sums
  import opened Publish

  datatype Result = Ok | Refused(error: Error)

  /** What the environment contributes to one upload: failures of the medium (a listing
      may fail after some objects), and what others do at the n-th interruption. */
  datatype World = World(
    statFault: bool, listFault: Option<nat>, putFault: bool, relistFault: Option<nat>, commitFault: bool,
    others: nat -> seq<Label>)
  {
    ghost predicate Alone() {
      forall n: nat :: others(n) == []
    }
  }

  // ---- the guards in their order, each on the data it looks at ----

  function Or(a: Option<Error>, b: Option<Error>): Option<Error> {
    if a.Some? then a else b
  }

  function EntryError(c: Config, inFlight: set<Key>, key: Key, size: int): Option<Error> {
    if c.maxObjectSize > 0 && size > c.maxObjectSize then Some(TooLarge)
    else if key in inFlight then Some(Conflict)
    else None
  }

  function StatError(objects: map<Key, Bytes>, key: Key, force: bool, fault: bool): Option<Error> {
    if fault then Some(Unavailable) else if key in objects && !force then Some(Conflict) else None
  }

  /** `existing` is the size of the object to be replaced, if any. */
  ghost function QuotaError(c: Config, objects: map<Key, Bytes>, size: int, existing: Option<nat>, fault: bool): Option<Error> {
    if c.maxBytes == 0 && c.maxObjects == 0 then None
    else if fault then Some(Unavailable)
    else if c.maxBytes > 0 && Load(objects, Size) + size - (if existing.Some? then existing.value else 0) > c.maxBytes then
      Some(Error.Quota)
    else if c.maxObjects > 0 && |objects| + (if existing.Some? then 0 else 1) > c.maxObjects then Some(Error.Quota)
    else None
  }

  function BodyError(c: Config, size: int, body: Bytes, fault: bool): Option<Error> {
    if fault then Some(Unavailable)
    else if c.maxObjectSize > 0 && |body| > c.maxObjectSize then Some(TooLarge)
    else if size >= 0 && |body| != size then Some(Invalid)
    else None
  }

  /** From the second check on. */
  ghost function LastError(c: Config, objects: map<Key, Bytes>, body: Bytes, existing: Option<nat>, w: World): Option<Error> {
    Or(QuotaError(c, objects, |body|, existing, w.relistFault.Some?), if w.commitFault then Some(Unavailable) else None)
  }

  /** From the first check on. */
  ghost function TransferError(
      c: Config, objects: map<Key, Bytes>, size: int, body: Bytes, existing: Option<nat>, w: World): Option<Error> {
    Or(QuotaError(c, objects, size, existing, w.listFault.Some?),
       Or(BodyError(c, size, body, w.putFault), LastError(c, objects, body, existing, w)))
  }

  /** The first guard that refuses an upload which nobody interrupts, if one does. */
  ghost function FirstError(c: Config, s: State, key: Key, size: int, body: Bytes, force: bool, w: World): Option<Error> {
    Or(EntryError(c, s.inFlight, key, size),
       Or(StatError(s.objects, key, force, w.statFault), TransferError(c, s.objects, size, body, SizeAt(s.objects, key), w)))
  }

  function Answer(error: Option<Error>): Result {
    if error.Some? then Refused(error.value) else Ok
  }

  predicate FaultFree(w: World) {
    !w.statFault && w.listFault.None? && !w.putFault && w.relistFault.None? && !w.commitFault
  }

  /** With a medium that works, an upload of the declared size succeeds exactly when it is not
      too large, nobody else uploads the key, what is there may be replaced, and the sums
      with the new object and without the old one are within the quotas, where set. */
  lemma AdmittedExactly(c: Config, s: State, key: Key, body: Bytes, force: bool, w: World)
    requires FaultFree(w)
    ensures FirstError(c, s, key, |body|, body, force, w).None? <==>
      && (c.maxObjectSize > 0 ==> |body| <= c.maxObjectSize)
      && key !in s.inFlight && (key in s.objects ==> force)
      && (c.maxBytes > 0 ==>
            Load(s.objects, Size) + |body| - (if key in s.objects then |s.objects[key]| else 0) <= c.maxBytes)
      && (c.maxObjects > 0 ==> |s.objects| + (if key in s.objects then 0 else 1) <= c.maxObjects)
  {
    hide Load;
  }

  ghost predicate OthersOnly(s: State, s': State, uid: Uid) {
    (uid in s.uploads <==> uid in s'.uploads) && (uid in s.uploads ==> s'.uploads[uid] == s.uploads[uid])
  }

  predicate Mine(l: Label, uid: Uid) {
    !l.Delete? && l.uid == uid
  }

  lemma StepOfOthers(c: Config, s: State, l: Label, uid: Uid)
    requires Enabled(s, l) && !Mine(l, uid)
    ensures OthersOnly(s, Step(c, s, l), uid)
  {
    hide PassesQuota, BodyFits, SizeAt;
  }

  /** The bytes of the part of a listing that is still to come. */
  ghost function Unseen(objects: map<Key, Bytes>, rest: set<Key>): int {
    Sum(rest, MeasureAt(objects, Size))
  }

  lemma SeeOne(objects: map<Key, Bytes>, rest: set<Key>, key: Key)
    requires key in objects && key in rest
    ensures Unseen(objects, rest) == |objects[key]| + Unseen(objects, rest - {key})
    ensures |rest| == |rest - {key}| + 1
  {
    SumRemove(rest, MeasureAt(objects, Size), key);
  }

  lemma SeenAll(objects: map<Key, Bytes>)
    ensures Unseen(objects, {}) == 0 && Unseen(objects, objects.Keys) == Load(objects, Size)
    ensures |objects.Keys| == |objects|
  {
  }

  /** The steps of the call that began with the label `call`, as its world has them and
      short of its commit, and those of others. */
  ghost predicate Expected(call: Label, w: World, l: Label)
    requires call.Enter?
  {
    if Mine(l, call.uid) then
      match l
      case Enter(_, _, _, _, _) => l == call
      case Stat(_, fault) => fault == w.statFault
      case Check(_, fault) => fault == w.listFault.Some?
      case Copy(_, fault) => fault == w.putFault
      case Recheck(_, fault) => fault == w.relistFault.Some?
      case Commit(_, fault) => fault && w.commitFault
    else exists n, i :: 0 <= i < |w.others(n)| && l == w.others(n)[i]
  }

  lemma OwnSteps(call: Label, w: World)
    requires call.Enter?
    ensures Expected(call, w, Stat(call.uid, w.statFault)) && Expected(call, w, Check(call.uid, w.listFault.Some?))
    ensures Expected(call, w, Copy(call.uid, w.putFault)) && Expected(call, w, Recheck(call.uid, w.relistFault.Some?))
    ensures w.commitFault ==> Expected(call, w, Commit(call.uid, true))
  {
  }

  /** From one position of the run to a later one nothing unexpected happened. */
  ghost predicate Onward(h: History, h': History, call: Label, w: World)
    requires call.Enter?
  {
    h'.Extends(h) && forall i :: |h.labels| <= i < |h'.labels| ==> Expected(call, w, h'.labels[i])
  }

  lemma OnwardItself(h: History, call: Label, w: World)
    requires call.Enter?
    ensures Onward(h, h, call, w)
  {
  }

  lemma OnwardFurther(h: History, h': History, h'': History, call: Label, w: World)
    requires call.Enter? && Onward(h, h', call, w) && Onward(h', h'', call, w)
    ensures Onward(h, h'', call, w) && h.Now() <= h'.Now() <= h''.Now()
  {
    hide Expected;
    forall i | |h.labels| <= i < |h''.labels| ensures Expected(call, w, h''.labels[i]) {
      if i < |h'.labels| {
        assert h''.labels[i] == h'.labels[i];
      }
    }
  }

  lemma OneStep(c: Config, h: History, l: Label, call: Label, w: World)
    requires call.Enter? && |h.states| == |h.labels| + 1 && Enabled(h.states[h.Now()], l) && Expected(call, w, l)
    ensures Onward(h, h.Then(c, l), call, w)
  {
    hide Expected, Enabled, Step;
  }

  lemma TheirStep(call: Label, w: World, n: nat, l: Label)
    requires call.Enter? && l in w.others(n) && !Mine(l, call.uid)
    ensures Expected(call, w, l)
  {
  }

  /** What a successful upload has done to the state that its commit found. */
  ghost predicate Committed(c: Config, before: State, objects: map<Key, Bytes>, call: Label)
    requires call.Enter?
  {
    && Inv(c, before) && objects == before.objects[call.key := call.body] && BodyFits(c, call.size, call.body)
    && (!call.force ==> call.key !in before.objects)
  }

  /** The last step of the run was the commit of the call, with this effect. */
  ghost predicate CommittedLast(c: Config, before: History, run: History, objects: map<Key, Bytes>, call: Label)
    requires call.Enter?
  {
    && |before.states| == |before.labels| + 1 && Enabled(before.states[before.Now()], Commit(call.uid, false))
    && run == before.Then(c, Commit(call.uid, false)) && Committed(c, before.states[before.Now()], objects, call)
  }

  /** The upload is the call at this stage. */
  ghost predicate Of(u: Upload, call: Label, stage: Stage)
    requires call.Enter?
  {
    u.key == call.key && u.size == call.size && u.body == call.body && u.force == call.force && u.stage == stage
  }

  /** The call as it was made, at a later stage. */
  ghost predicate Same(u: Upload, v: Upload, stage: Stage) {
    && v.key == u.key && v.size == u.size && v.body == u.body && v.force == u.force && v.stage == stage
    && (!u.stage.Entered? ==> v.existing == u.existing)
  }

  /** A step that does not end the call moves it to its next stage. */
  lemma StageFollows(c: Config, s: State, l: Label, uid: Uid)
    requires Enabled(s, l) && Mine(l, uid) && !l.Enter? && uid in s.uploads && uid in Step(c, s, l).uploads
    ensures Same(s.uploads[uid], Step(c, s, l).uploads[uid],
      if l.Stat? then Statted else if l.Check? then Checked else if l.Copy? then Copied else Approved)
    ensures !l.Commit?
  {
    hide PassesQuota, BodyFits, SizeAt;
  }

  lemma CommitResult(c: Config, s: State, call: Label)
    requires call.Enter? && Inv(c, s) && Enabled(s, Commit(call.uid, false)) && Of(s.uploads[call.uid], call, Approved)
    ensures Committed(c, s, Step(c, s, Commit(call.uid, false)).objects, call)
  {
    hide PassesQuota, BodyFits, KeysExclusive;
  }

  class Engine {
    const c: Config
    var objects: map<Key, Bytes>
    var inFlight: set<Key>
    var uploads: map<Uid, Upload>   // the calls under way, each with its local variables
    /** The run up to now, the steps of others included. */
    ghost var run: History

    function Abs(): State
      reads this
    {
      State(objects, inFlight, uploads)
    }

    ghost predicate Valid()
      reads this
    {
      Inv(c, Abs()) && run.Of(c) && |run.states| == run.Now() + 1 && run.states[run.Now()] == Abs()
    }

    /** New: over what the repository holds already. */
    constructor (config: Config, stored: map<Key, Bytes>)
      ensures Valid() && c == config && objects == stored && uploads == map[] && run.labels == []
    {
      c, objects, inFlight, uploads := config, stored, {}, map[];
      run := History([State(stored, {}, map[])], []);
    }

    /** The latest step enters the run. */
    ghost method Log(l: Label)
      requires run.Of(c) && |run.states| == run.Now() + 1
      requires Enabled(run.states[run.Now()], l) && Abs() == Step(c, run.states[run.Now()], l)
      modifies this`run
      ensures Valid() && run == old(run).Then(c, l) && run.Extends(old(run))
    {
      RunGoesOn(c, run, l);
      hide Inv, Follows, Step;
      run := run.Then(c, l);
    }

    /** The listing of checkQuota, in any order; it may fail after some objects. */
    method Used(failsAfter: Option<nat>) returns (failed: bool, usedBytes: int, usedFiles: nat)
      ensures failed <==> failsAfter.Some?
      ensures !failed ==> usedBytes == Load(objects, Size) && usedFiles == |objects|
    {
      usedBytes, usedFiles := 0, 0;
      var rest := objects.Keys;
      SeenAll(objects);
      hide Unseen, Load;
      while rest != {}
        invariant rest <= objects.Keys
        invariant usedFiles + |rest| == |objects|
        invariant usedBytes + Unseen(objects, rest) == Load(objects, Size)
      {
        if failsAfter == Some(usedFiles) {
          return true, 0, 0;
        }
        var key :| key in rest;
        SeeOne(objects, rest, key);
        rest := rest - {key};
        usedBytes, usedFiles := usedBytes + |objects[key]|, usedFiles + 1;
      }
      return failsAfter.Some?, usedBytes, usedFiles;
    }

    method CheckQuota(size: int, existing: Option<nat>, failsAfter: Option<nat>) returns (refused: Option<Error>)
      ensures refused.None? <==> PassesQuota(c, objects, size, existing, failsAfter.Some?)
      ensures refused == QuotaError(c, objects, size, existing, failsAfter.Some?)
    {
      hide Load;
      if c.maxBytes == 0 && c.maxObjects == 0 {
        return None;
      }
      var failed, usedBytes, usedFiles := Used(failsAfter);
      if failed {
        return Some(Unavailable);
      }
      var byteDelta, objectDelta := size, 1;
      if existing.Some? {
        byteDelta, objectDelta := size - existing.value, 0;
      }
      if c.maxBytes > 0 && usedBytes + byteDelta > c.maxBytes {
        return Some(Error.Quota);
      }
      if c.maxObjects > 0 && usedFiles + objectDelta > c.maxObjects {
        return Some(Error.Quota);
      }
      return None;
    }

    // ---- the steps of an upload ----

    method AcquireInFlight(uid: Uid, key: Key, size: int, body: Bytes, force: bool) returns (refused: Option<Error>)
      requires uid !in uploads
      modifies this`objects, this`inFlight, this`uploads
      ensures Abs() == Step(c, old(Abs()), Enter(uid, key, size, body, force))
      ensures refused.None? <==> uid in uploads
      ensures refused.None? <==> (c.maxObjectSize > 0 ==> size <= c.maxObjectSize) && key !in old(inFlight)
      ensures refused == EntryError(c, old(inFlight), key, size)
      ensures objects == old(objects)
      ensures refused.None? ==> uploads[uid] == Publish.Upload.Upload(key, size, body, force, Entered, None)
      ensures refused.Some? ==> Abs() == old(Abs())
    {
      if c.maxObjectSize > 0 && size > c.maxObjectSize {
        return Some(TooLarge);
      }
      if key in inFlight {
        return Some(Conflict);
      }
      inFlight := inFlight + {key};
      uploads := uploads[uid := Publish.Upload.Upload(key, size, body, force, Entered, None)];
      return None;
    }

    method ReleaseInFlight(uid: Uid)
      requires uid in uploads
      modifies this`objects, this`inFlight, this`uploads
      ensures Abs() == Leave(old(Abs()), uid)
    {
      inFlight := inFlight - {uploads[uid].key};
      uploads := uploads - {uid};
    }

    method StatExisting(uid: Uid, fault: bool) returns (refused: Option<Error>)
      requires uid in uploads && uploads[uid].stage.Entered?
      modifies this`objects, this`inFlight, this`uploads
      ensures Abs() == Step(c, old(Abs()), Stat(uid, fault)) && (refused.None? <==> uid in uploads)
      ensures refused == Some(Conflict) <==> !fault && old(uploads[uid].key in objects && !uploads[uid].force)
      ensures refused == StatError(objects, old(uploads)[uid].key, old(uploads)[uid].force, fault)
      ensures refused.None? <==> !fault && (old(uploads)[uid].key in objects ==> old(uploads)[uid].force)
      ensures refused.None? ==> uploads[uid].existing == SizeAt(objects, old(uploads)[uid].key)
      ensures objects == old(objects)
    {
      var u := uploads[uid];
      if fault {
        ReleaseInFlight(uid);
        return Some(Unavailable);
      }
      if u.key in objects && !u.force {
        ReleaseInFlight(uid);
        return Some(Conflict);
      }
      var existing := if u.key in objects then Some(|objects[u.key]|) else None;
      uploads := uploads[uid := u.(stage := Statted, existing := existing)];
      return None;
    }

    method FirstCheck(uid: Uid, failsAfter: Option<nat>) returns (refused: Option<Error>)
      requires uid in uploads && uploads[uid].stage.Statted?
      modifies this`objects, this`inFlight, this`uploads
      ensures Abs() == Step(c, old(Abs()), Check(uid, failsAfter.Some?)) && (refused.None? <==> uid in uploads)
      ensures refused.None? <==>
        PassesQuota(c, objects, old(uploads)[uid].size, old(uploads)[uid].existing, failsAfter.Some?)
      ensures refused == QuotaError(c, objects, old(uploads)[uid].size, old(uploads)[uid].existing, failsAfter.Some?)
      ensures objects == old(objects)
    {
      refused := CheckQuota(uploads[uid].size, uploads[uid].existing, failsAfter);
      hide PassesQuota;
      if refused.Some? {
        ReleaseInFlight(uid);
      } else {
        uploads := uploads[uid := uploads[uid].(stage := Checked)];
      }
    }

    /** Put and copyBody; a body that does not fit is aborted. */
    method CopyBody(uid: Uid, fault: bool) returns (refused: Option<Error>)
      requires uid in uploads && uploads[uid].stage.Checked?
      modifies this`objects, this`inFlight, this`uploads
      ensures Abs() == Step(c, old(Abs()), Copy(uid, fault)) && (refused.None? <==> uid in uploads)
      ensures refused.None? <==> !fault && BodyFits(c, old(uploads)[uid].size, old(uploads)[uid].body)
      ensures refused == BodyError(c, old(uploads)[uid].size, old(uploads)[uid].body, fault)
      ensures objects == old(objects)
    {
      var u := uploads[uid];
      if fault {
        refused := Some(Unavailable);
      } else if c.maxObjectSize > 0 && |u.body| > c.maxObjectSize {
        refused := Some(TooLarge);
      } else if u.size >= 0 && |u.body| != u.size {
        refused := Some(Invalid);
      } else {
        uploads := uploads[uid := u.(stage := Copied)];
        return None;
      }
      ReleaseInFlight(uid);
    }

    method SecondCheck(uid: Uid, failsAfter: Option<nat>) returns (refused: Option<Error>)
      requires uid in uploads && uploads[uid].stage.Copied?
      modifies this`objects, this`inFlight, this`uploads
      ensures Abs() == Step(c, old(Abs()), Recheck(uid, failsAfter.Some?)) && (refused.None? <==> uid in uploads)
      ensures refused.None? <==>
        PassesQuota(c, objects, |old(uploads)[uid].body|, old(uploads)[uid].existing, failsAfter.Some?)
      ensures refused == QuotaError(c, objects, |old(uploads)[uid].body|, old(uploads)[uid].existing, failsAfter.Some?)
      ensures objects == old(objects)
    {
      refused := CheckQuota(|uploads[uid].body|, uploads[uid].existing, failsAfter);
      hide PassesQuota;
      if refused.Some? {
        ReleaseInFlight(uid);
      } else {
        uploads := uploads[uid := uploads[uid].(stage := Approved)];
      }
    }

    method CommitBody(uid: Uid, fault: bool) returns (refused: Option<Error>)
      requires uid in uploads && uploads[uid].stage.Approved?
      modifies this`objects, this`inFlight, this`uploads
      ensures Abs() == Step(c, old(Abs()), Commit(uid, fault))
      ensures refused == if fault then Some(Unavailable) else None
      ensures uid !in uploads && (fault ==> objects == old(objects))
    {
      var u := uploads[uid];
      ReleaseInFlight(uid);
      if fault {
        return Some(Unavailable);
      }
      objects := objects[u.key := u.body];
      return None;
    }

    method DeleteObject(key: Key)
      modifies this`objects
      ensures Abs() == Step(c, old(Abs()), Delete(key))
    {
      objects := objects - {key};
    }

    // ---- the upload among others ----

    method Take(l: Label)
      requires Valid() && Enabled(Abs(), l)
      modifies this
      ensures Valid() && Abs() == Step(c, old(Abs()), l)
      ensures run == old(run).Then(c, l) && run.Extends(old(run))
    {
      hide Inv, Follows, PassesQuota, BodyFits, Leave, StatStep;
      Perform(l);
      Log(l);
    }

    method Perform(l: Label)
      requires Enabled(Abs(), l)
      modifies this`objects, this`inFlight, this`uploads
      ensures Abs() == Step(c, old(Abs()), l)
    {
      hide PassesQuota, BodyFits, Leave, StatStep;
      var refused;
      match l
      case Enter(uid, key, size, body, force) => refused := AcquireInFlight(uid, key, size, body, force);
      case Stat(uid, fault) => refused := StatExisting(uid, fault);
      case Check(uid, fault) => refused := FirstCheck(uid, if fault then Some(0) else None);
      case Copy(uid, fault) => refused := CopyBody(uid, fault);
      case Recheck(uid, fault) => refused := SecondCheck(uid, if fault then Some(0) else None);
      case Commit(uid, fault) => refused := CommitBody(uid, fault);
      case Delete(key) => DeleteObject(key);
    }

    /** At the n-th interruption others take the scheduled steps that are possible. */
    method Others(n: nat, uid: Uid, w: World, ghost call: Label)
      requires Valid() && call.Enter? && call.uid == uid
      modifies this
      ensures Valid() && Onward(old(run), run, call, w) && OthersOnly(old(Abs()), Abs(), uid)
      ensures w.others(n) == [] ==> Abs() == old(Abs()) && run == old(run)
    {
      hide Inv, Follows, Step, Expected, Onward, Enabled;
      var schedule := w.others(n);
      OnwardItself(run, call, w);
      for i := 0 to |schedule|
        invariant Valid() && Onward(old(run), run, call, w) && OthersOnly(old(Abs()), Abs(), uid)
        invariant schedule == [] ==> Abs() == old(Abs()) && run == old(run)
      {
        if Enabled(Abs(), schedule[i]) && !Mine(schedule[i], uid) {
          ghost var before := run;
          StepOfOthers(c, Abs(), schedule[i], uid);
          Take(schedule[i]);
          TheirStep(call, w, n, schedule[i]);
          OneStep(c, before, schedule[i], call, w);
          OnwardFurther(old(run), before, run, call, w);
        }
      }
    }

    /** The call's own step enters the run. */
    ghost method Mark(l: Label, call: Label, w: World)
      requires run.Of(c) && |run.states| == run.Now() + 1 && call.Enter?
      requires Enabled(run.states[run.Now()], l) && Abs() == Step(c, run.states[run.Now()], l) && Expected(call, w, l)
      modifies this`run
      ensures Valid() && run == old(run).Then(c, l) && Onward(old(run), run, call, w)
    {
      hide Inv, Follows, Step, Expected, Enabled;
      OneStep(c, run, l, call, w);
      Log(l);
    }

    /** Upload, once the path is known to be valid. A refused upload has committed nothing;
        a successful one has committed as the last step of the run, in a state in which the
        body fits and, without force, nothing was under the key; nothing but the key
        changes there. Uninterrupted, it succeeds exactly when it is admitted. */
    method Upload(uid: Uid, key: Key, size: int, body: Bytes, force: bool, w: World) returns (result: Result, ghost before: History)
      requires Valid() && uid !in uploads
      modifies this
      ensures Valid() && uid !in uploads
      ensures Onward(old(run), before, Enter(uid, key, size, body, force), w)
      ensures if result.Ok? then CommittedLast(c, before, run, objects, Enter(uid, key, size, body, force)) else run == before
      ensures w.Alone() ==> result == Answer(FirstError(c, old(Abs()), key, size, body, force, w))
      ensures w.Alone() ==> objects == if result.Ok? then old(objects)[key := body] else old(objects)
    {
      hide Inv, Follows, Step, BodyFits, PassesQuota, CommittedLast, QuotaError, BodyError, LastError, TransferError, Onward, Expected;
      ghost var call := Enter(uid, key, size, body, force);
      OwnSteps(call, w);
      ghost var first := run;
      Others(0, uid, w, call);
      ghost var second := run;
      var refused := AcquireInFlight(uid, key, size, body, force);
      MarkEntry(call, w);
      OnwardFurther(first, second, run, call, w);
      before := run;
      if refused.Some? {
        return Refused(refused.value), before;
      }
      Others(1, uid, w, call);
      OnwardFurther(first, before, run, call, w);
      second := run;
      ghost var s := Abs();
      refused := StatExisting(uid, w.statFault);
      Mark(Stat(uid, w.statFault), call, w);
      OnwardFurther(first, second, run, call, w);
      before := run;
      if refused.Some? {
        return Refused(refused.value), before;
      }
      StageFollows(c, s, Stat(uid, w.statFault), uid);
      second := run;
      result, before := Transfer(uid, w, call);
      OnwardFurther(first, second, before, call, w);
    }

    ghost method MarkEntry(call: Label, w: World)
      requires run.Of(c) && |run.states| == run.Now() + 1 && call.Enter?
      requires Enabled(run.states[run.Now()], call) && Abs() == Step(c, run.states[run.Now()], call)
      modifies this`run
      ensures Valid() && run == old(run).Then(c, call) && Onward(old(run), run, call, w)
    {
      hide Inv, Follows, Step, Enabled;
      Mark(call, call, w);
    }

    /** The rest of Upload once stat has been taken. */
    method Transfer(uid: Uid, w: World, ghost call: Label) returns (result: Result, ghost before: History)
      requires Valid() && call.Enter? && call.uid == uid && uid in uploads && Of(uploads[uid], call, Statted)
      modifies this
      ensures Valid() && uid !in uploads && Onward(old(run), before, call, w)
      ensures if result.Ok? then CommittedLast(c, before, run, objects, call) else run == before
      ensures w.Alone() ==>
        result == Answer(TransferError(c, old(objects), call.size, call.body, old(uploads)[uid].existing, w))
      ensures w.Alone() ==> objects == if result.Ok? then old(objects)[call.key := call.body] else old(objects)
    {
      hide Inv, Follows, Step, BodyFits, PassesQuota, CommittedLast, QuotaError, BodyError, LastError, Onward, Expected;
      OwnSteps(call, w);
      ghost var first := run;
      Others(2, uid, w, call);
      ghost var second, s := run, Abs();
      var refused := FirstCheck(uid, w.listFault);
      Mark(Check(uid, w.listFault.Some?), call, w);
      OnwardFurther(first, second, run, call, w);
      before := run;
      if refused.Some? {
        return Refused(refused.value), before;
      }
      StageFollows(c, s, Check(uid, w.listFault.Some?), uid);
      Others(3, uid, w, call);
      OnwardFurther(first, before, run, call, w);
      second, s := run, Abs();
      refused := CopyBody(uid, w.putFault);
      Mark(Copy(uid, w.putFault), call, w);
      OnwardFurther(first, second, run, call, w);
      before := run;
      if refused.Some? {
        return Refused(refused.value), before;
      }
      StageFollows(c, s, Copy(uid, w.putFault), uid);
      second := run;
      result, before := Finish(uid, w, call);
      OnwardFurther(first, second, before, call, w);
    }

    /** The second check and the commit. */
    method Finish(uid: Uid, w: World, ghost call: Label) returns (result: Result, ghost before: History)
      requires Valid() && call.Enter? && call.uid == uid && uid in uploads && Of(uploads[uid], call, Copied)
      modifies this
      ensures Valid() && uid !in uploads && Onward(old(run), before, call, w)
      ensures if result.Ok? then CommittedLast(c, before, run, objects, call) else run == before
      ensures w.Alone() ==> result == Answer(LastError(c, old(objects), call.body, old(uploads)[uid].existing, w))
      ensures w.Alone() ==> objects == if result.Ok? then old(objects)[call.key := call.body] else old(objects)
    {
      hide Inv, Follows, Step, BodyFits, PassesQuota, QuotaError, Onward, Expected;
      OwnSteps(call, w);
      ghost var first := run;
      Others(4, uid, w, call);
      ghost var second, s := run, Abs();
      var refused := SecondCheck(uid, w.relistFault);
      Mark(Recheck(uid, w.relistFault.Some?), call, w);
      OnwardFurther(first, second, run, call, w);
      before := run;
      if refused.Some? {
        return Refused(refused.value), before;
      }
      StageFollows(c, s, Recheck(uid, w.relistFault.Some?), uid);
      Others(5, uid, w, call);
      OnwardFurther(first, before, run, call, w);
      before, s := run, Abs();
      refused := CommitBody(uid, w.commitFault);
      if refused.Some? {
        Mark(Commit(uid, true), call, w);
        OnwardFurther(first, before, run, call, w);
        return Refused(refused.value), run;
      }
      CommitResult(c, s, call);
      Log(Commit(uid, false));
      return Ok, before;
    }
  }
}
