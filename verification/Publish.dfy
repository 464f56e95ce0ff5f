/** Uploads into one repository: a per-key in-flight set, a quota checked twice over
    listings, and a transactional commit, while other uploads and deletions go on. */
module Publish {
  import opened Text
  import opened Sums

  type Key = string
  type Bytes = seq<bv8>
  type Uid = nat

  /** Zero means no limit. */
  datatype Config = Config(maxObjectSize: nat, maxBytes: nat, maxObjects: nat)

  datatype Error = TooLarge | Conflict | Quota | Unavailable | Invalid

  /** Entered; stat taken; first quota check passed; body copied; second check passed. */
  datatype Stage = Entered | Statted | Checked | Copied | Approved

  /** `size` is the declared length, negative when unknown; `existing` what stat found. */
  datatype Upload = Upload(key: Key, size: int, body: Bytes, force: bool, stage: Stage, existing: Option<nat>)

  datatype State = State(objects: map<Key, Bytes>, inFlight: set<Key>, uploads: map<Uid, Upload>)

  datatype Label =
    | Enter(uid: Uid, key: Key, size: int, body: Bytes, force: bool)
    | Stat(uid: Uid, fault: bool)
    | Check(uid: Uid, fault: bool)
    | Copy(uid: Uid, fault: bool)
    | Recheck(uid: Uid, fault: bool)
    | Commit(uid: Uid, fault: bool)
    | Delete(key: Key)

  // ---- the checks ----

  /** Both quotas are limits on a sum over the objects, of sizes or of ones. */
  function Size(b: Bytes): int {
    |b|
  }

  function One(b: Bytes): int {
    1
  }

  ghost function MeasureAt(objects: map<Key, Bytes>, m: Bytes -> int): Key -> int {
    k => if k in objects then m(objects[k]) else 0
  }

  ghost function Load(objects: map<Key, Bytes>, m: Bytes -> int): int {
    Sum(objects.Keys, MeasureAt(objects, m))
  }

  function ByteDelta(size: int, existing: Option<nat>): int {
    if existing.Some? then size - existing.value else size
  }

  function ObjectDelta(existing: Option<nat>): int {
    if existing.Some? then 0 else 1
  }

  predicate QuotaAllows(c: Config, usedBytes: int, usedFiles: int, size: int, existing: Option<nat>) {
    && (c.maxBytes > 0 ==> usedBytes + ByteDelta(size, existing) <= c.maxBytes)
    && (c.maxObjects > 0 ==> usedFiles + ObjectDelta(existing) <= c.maxObjects)
  }

  predicate Unlimited(c: Config) {
    c.maxBytes == 0 && c.maxObjects == 0
  }

  /** checkQuota as a question about the listed objects. */
  ghost predicate PassesQuota(c: Config, objects: map<Key, Bytes>, size: int, existing: Option<nat>, fault: bool) {
    Unlimited(c) || (!fault && QuotaAllows(c, Load(objects, Size), |objects|, size, existing))
  }

  /** copyBody: within the limit, and of the declared length. */
  predicate BodyFits(c: Config, size: int, body: Bytes) {
    (c.maxObjectSize > 0 ==> |body| <= c.maxObjectSize) && (size >= 0 ==> |body| == size)
  }

  function SizeAt(objects: map<Key, Bytes>, key: Key): Option<nat> {
    if key in objects then Some(|objects[key]|) else None
  }

  // ---- the steps ----

  predicate At(s: State, uid: Uid, stage: Stage) {
    uid in s.uploads && s.uploads[uid].stage == stage
  }

  predicate Enabled(s: State, l: Label) {
    match l
    case Enter(uid, _, _, _, _) => uid !in s.uploads
    case Stat(uid, _) => At(s, uid, Entered)
    case Check(uid, _) => At(s, uid, Statted)
    case Copy(uid, _) => At(s, uid, Checked)
    case Recheck(uid, _) => At(s, uid, Copied)
    case Commit(uid, _) => At(s, uid, Approved)
    case Delete(_) => true
  }

  function Leave(s: State, uid: Uid): State
    requires uid in s.uploads
  {
    s.(inFlight := s.inFlight - {s.uploads[uid].key}, uploads := s.uploads - {uid})
  }

  function Advance(s: State, uid: Uid, stage: Stage): State
    requires uid in s.uploads
  {
    s.(uploads := s.uploads[uid := s.uploads[uid].(stage := stage)])
  }

  function StatStep(s: State, uid: Uid, fault: bool): State
    requires uid in s.uploads
  {
    var u := s.uploads[uid];
    var existing := SizeAt(s.objects, u.key);
    if fault || (existing.Some? && !u.force) then Leave(s, uid)
    else s.(uploads := s.uploads[uid := u.(stage := Statted, existing := existing)])
  }

  ghost function Step(c: Config, s: State, l: Label): State
    requires Enabled(s, l)
  {
    match l
    case Enter(uid, key, size, body, force) =>
      if (c.maxObjectSize > 0 && size > c.maxObjectSize) || key in s.inFlight then s
      else s.(inFlight := s.inFlight + {key}, uploads := s.uploads[uid := Upload(key, size, body, force, Entered, None)])
    case Stat(uid, fault) => StatStep(s, uid, fault)
    case Check(uid, fault) =>
      var u := s.uploads[uid];
      if PassesQuota(c, s.objects, u.size, u.existing, fault) then Advance(s, uid, Checked) else Leave(s, uid)
    case Copy(uid, fault) =>
      var u := s.uploads[uid];
      if !fault && BodyFits(c, u.size, u.body) then Advance(s, uid, Copied) else Leave(s, uid)
    case Recheck(uid, fault) =>
      var u := s.uploads[uid];
      if PassesQuota(c, s.objects, |u.body|, u.existing, fault) then Advance(s, uid, Approved) else Leave(s, uid)
    case Commit(uid, fault) =>
      var u := s.uploads[uid];
      var left := Leave(s, uid);
      if fault then left else left.(objects := s.objects[u.key := u.body])
    case Delete(key) => s.(objects := s.objects - {key})
  }

  // ---- one upload per key, and no silent replacement ----

  function KeysOf(uploads: map<Uid, Upload>): set<Key> {
    set uid | uid in uploads :: uploads[uid].key
  }

  ghost predicate KeysExclusive(s: State) {
    && (forall uid :: uid in s.uploads ==> s.uploads[uid].key in s.inFlight)
    && (forall uid, uid' :: uid in s.uploads && uid' in s.uploads && uid != uid' ==> s.uploads[uid].key != s.uploads[uid'].key)
    && s.inFlight == KeysOf(s.uploads)
  }

  /** An upload that found nothing under its key still finds nothing there. */
  ghost predicate AbsentStays(s: State) {
    forall uid :: uid in s.uploads && !s.uploads[uid].stage.Entered? && s.uploads[uid].existing.None? ==>
      s.uploads[uid].key !in s.objects
  }

  ghost predicate StagesSound(c: Config, s: State) {
    forall uid :: uid in s.uploads ==>
      var u := s.uploads[uid];
      && (u.existing.Some? ==> u.force && !u.stage.Entered?)
      && (u.stage.Copied? || u.stage.Approved? ==> BodyFits(c, u.size, u.body))
  }

  ghost predicate Inv(c: Config, s: State) {
    KeysExclusive(s) && AbsentStays(s) && StagesSound(c, s)
  }

  lemma UploadAdded(uploads: map<Uid, Upload>, uid: Uid, u: Upload)
    requires uid in uploads ==> uploads[uid].key == u.key
    ensures KeysOf(uploads[uid := u]) == KeysOf(uploads) + {u.key}
  {
    var after := uploads[uid := u];
    assert after[uid] == u;
    forall k | k in KeysOf(uploads) ensures k in KeysOf(after) {
      var v :| v in uploads && uploads[v].key == k;
      assert v in after && after[v].key == k;
    }
  }

  lemma UploadRemoved(uploads: map<Uid, Upload>, uid: Uid)
    requires uid in uploads
    requires forall v, w :: v in uploads && w in uploads && v != w ==> uploads[v].key != uploads[w].key
    ensures KeysOf(uploads - {uid}) == KeysOf(uploads) - {uploads[uid].key}
  {
    var after := uploads - {uid};
    forall k | k in KeysOf(uploads) && k != uploads[uid].key ensures k in KeysOf(after) {
      var v :| v in uploads && uploads[v].key == k;
      assert v in after && after[v].key == k;
    }
  }

  lemma StepKeepsKeys(c: Config, s: State, l: Label)
    requires KeysExclusive(s) && Enabled(s, l)
    ensures KeysExclusive(Step(c, s, l))
  {
    hide PassesQuota, BodyFits, KeysOf;
    var s' := Step(c, s, l);
    if !l.Delete? {
      if l.uid in s'.uploads {
        UploadAdded(s.uploads, l.uid, s'.uploads[l.uid]);
      } else if l.uid in s.uploads {
        UploadRemoved(s.uploads, l.uid);
      }
    }
    KeysListed(s.uploads);
  }

  lemma KeysListed(uploads: map<Uid, Upload>)
    ensures forall uid :: uid in uploads ==> uploads[uid].key in KeysOf(uploads)
  {
  }

  lemma StepKeepsAbsent(c: Config, s: State, l: Label)
    requires KeysExclusive(s) && AbsentStays(s) && Enabled(s, l)
    ensures AbsentStays(Step(c, s, l))
  {
    hide PassesQuota, BodyFits;
  }

  lemma StepKeepsStages(c: Config, s: State, l: Label)
    requires StagesSound(c, s) && Enabled(s, l)
    ensures StagesSound(c, Step(c, s, l))
  {
    hide PassesQuota, BodyFits;
  }

  lemma StepKeepsInv(c: Config, s: State, l: Label)
    requires Inv(c, s) && Enabled(s, l)
    ensures Inv(c, Step(c, s, l))
  {
    hide Step;
    StepKeepsKeys(c, s, l);
    StepKeepsAbsent(c, s, l);
    StepKeepsStages(c, s, l);
  }

  ghost predicate Follows(c: Config, states: seq<State>, labels: seq<Label>) {
    && |states| == |labels| + 1
    && forall i :: 0 <= i < |labels| ==> Enabled(states[i], labels[i]) && states[i + 1] == Step(c, states[i], labels[i])
  }

  ghost predicate Init(s: State) {
    s.inFlight == {} && s.uploads == map[]
  }

  lemma {:induction false} RunKeepsInv(c: Config, states: seq<State>, labels: seq<Label>, i: nat)
    requires Follows(c, states, labels) && Init(states[0]) && i < |states|
    ensures Inv(c, states[i])
  {
    hide Step;
    if i > 0 {
      RunKeepsInv(c, states, labels, i - 1);
      hide Inv;
      StepKeepsInv(c, states[i - 1], labels[i - 1]);
    }
  }

  /** A run so far: its states, and the steps between them. */
  datatype History = History(states: seq<State>, labels: seq<Label>) {
    ghost predicate Of(c: Config) {
      Follows(c, states, labels) && Init(states[0])
    }

    predicate Extends(earlier: History) {
      earlier.states <= states && earlier.labels <= labels
    }

    /** The position of the current state. */
    function Now(): nat {
      |labels|
    }

    ghost function Then(c: Config, l: Label): History
      requires |states| == |labels| + 1 && Enabled(states[Now()], l)
    {
      History(states + [Step(c, states[Now()], l)], labels + [l])
    }
  }

  lemma RunGoesOn(c: Config, h: History, l: Label)
    requires h.Of(c) && Enabled(h.states[h.Now()], l)
    ensures h.Then(c, l).Of(c) && h.Then(c, l).Extends(h)
    ensures Inv(c, h.states[h.Now()]) && Inv(c, Step(c, h.states[h.Now()], l))
  {
    hide Init, Inv, Step, Enabled;
    RunKeepsInv(c, h.states, h.labels, h.Now());
    StepKeepsInv(c, h.states[h.Now()], l);
  }

  /** In no run does an upload without force change the bytes of an existing object,
      however many uploads of the same key race. */
  lemma NeverReplacedSilently(c: Config, states: seq<State>, labels: seq<Label>, i: nat, key: Key)
    requires Follows(c, states, labels) && Init(states[0]) && i < |labels|
    requires key in states[i].objects && key in states[i + 1].objects
    requires states[i + 1].objects[key] != states[i].objects[key]
    ensures labels[i].Commit? && var u := states[i].uploads[labels[i].uid]; u.key == key && u.force
  {
    RunKeepsInv(c, states, labels, i);
    assert states[i + 1] == Step(c, states[i], labels[i]);
  }

  // ---- the quota under concurrency ----

  lemma LoadPut(objects: map<Key, Bytes>, m: Bytes -> int, key: Key, body: Bytes)
    ensures Load(objects[key := body], m) == Load(objects, m) - MeasureAt(objects, m)(key) + m(body)
  {
    var after := objects[key := body];
    LoadRemoved(objects, m, key);
    var rest := objects - {key};
    assert after.Keys == rest.Keys + {key};
    SumAdd(rest.Keys, MeasureAt(after, m), key);
    SumSame(rest.Keys, MeasureAt(after, m), MeasureAt(rest, m));
  }

  lemma LoadRemoved(objects: map<Key, Bytes>, m: Bytes -> int, key: Key)
    ensures Load(objects - {key}, m) == Load(objects, m) - MeasureAt(objects, m)(key)
  {
    var rest := objects - {key};
    if key in objects {
      assert rest.Keys == objects.Keys - {key};
      SumRemove(objects.Keys, MeasureAt(objects, m), key);
      SumSame(rest.Keys, MeasureAt(objects, m), MeasureAt(rest, m));
    } else {
      assert rest == objects;
    }
  }

  lemma {:induction false} CountIsLoad(objects: map<Key, Bytes>)
    ensures Load(objects, One) == |objects|
  {
    if objects != map[] {
      var key :| key in objects;
      var rest := objects - {key};
      LoadRemoved(objects, One, key);
      CountIsLoad(rest);
      assert One(objects[key]) == 1;
      assert objects.Keys == rest.Keys + {key};
      assert |objects.Keys| == |rest.Keys| + 1;
    }
  }

  /** What an approved upload may still add when it commits. */
  ghost function WeightOf(objects: map<Key, Bytes>, u: Upload, m: Bytes -> int): int {
    var extra := m(u.body) - (if u.key in objects then m(objects[u.key]) else 0);
    if u.stage.Approved? && extra > 0 then extra else 0
  }

  ghost function Weight(s: State, m: Bytes -> int): Uid -> int {
    uid => if uid in s.uploads then WeightOf(s.objects, s.uploads[uid], m) else 0
  }

  ghost function Pending(s: State, m: Bytes -> int): int {
    Sum(s.uploads.Keys, Weight(s, m))
  }

  /** Up to k uploads at once: each of the others may add one largest object. */
  ghost predicate Within(s: State, m: Bytes -> int, limit: int, largest: int, k: nat) {
    Load(s.objects, m) + Pending(s, m) <= limit + (k - 1) * largest
  }

  ghost predicate BodiesBounded(s: State, m: Bytes -> int, largest: int) {
    && (forall b: Bytes :: m(b) >= 0)
    && forall uid :: uid in s.uploads && s.uploads[uid].stage.Approved? ==> m(s.uploads[uid].body) <= largest
  }

  lemma WeightsBounded(s: State, m: Bytes -> int, largest: int, uid: Uid)
    requires BodiesBounded(s, m, largest) && largest >= 0 && uid in s.uploads
    ensures Pending(s, m) <= Weight(s, m)(uid) + (|s.uploads| - 1) * largest
  {
    SumRemove(s.uploads.Keys, Weight(s, m), uid);
    SumBounded(s.uploads.Keys - {uid}, Weight(s, m), largest);
    assert |s.uploads.Keys - {uid}| == |s.uploads| - 1;
  }

  /** Uploads that come, move on or leave without touching the objects and without being
      or becoming approved change nothing. */
  lemma PendingSame(s: State, s': State, m: Bytes -> int, uid: Uid)
    requires s'.objects == s.objects
    requires s'.uploads.Keys == s.uploads.Keys || s'.uploads.Keys == s.uploads.Keys + {uid}
      || s'.uploads.Keys == s.uploads.Keys - {uid}
    requires Weight(s, m)(uid) == Weight(s', m)(uid) == 0
    requires forall v :: v != uid && v in s.uploads ==> v in s'.uploads && s'.uploads[v] == s.uploads[v]
    ensures Pending(s', m) == Pending(s, m)
  {
    var rest := s.uploads.Keys - {uid};
    assert rest == s'.uploads.Keys - {uid};
    if uid in s.uploads {
      SumRemove(s.uploads.Keys, Weight(s, m), uid);
    } else {
      assert rest == s.uploads.Keys;
    }
    if uid in s'.uploads {
      SumRemove(s'.uploads.Keys, Weight(s', m), uid);
    } else {
      assert rest == s'.uploads.Keys;
    }
    SumSame(rest, Weight(s, m), Weight(s', m));
  }

  lemma DeleteStaysWithin(c: Config, s: State, key: Key, m: Bytes -> int)
    requires KeysExclusive(s) && forall b: Bytes :: m(b) >= 0
    ensures var s' := Step(c, s, Delete(key));
      Load(s'.objects, m) + Pending(s', m) <= Load(s.objects, m) + Pending(s, m)
  {
    var s' := Step(c, s, Delete(key));
    LoadRemoved(s.objects, m, key);
    if uid :| uid in s.uploads && s.uploads[uid].key == key {
      SumChange(s.uploads.Keys, Weight(s, m), Weight(s', m), uid);
    } else {
      SumSame(s.uploads.Keys, Weight(s, m), Weight(s', m));
    }
  }

  lemma CommitStaysWithin(c: Config, s: State, uid: Uid, fault: bool, m: Bytes -> int)
    requires KeysExclusive(s) && Enabled(s, Commit(uid, fault)) && forall b: Bytes :: m(b) >= 0
    ensures var s' := Step(c, s, Commit(uid, fault));
      Load(s'.objects, m) + Pending(s', m) <= Load(s.objects, m) + Pending(s, m)
  {
    var s', u := Step(c, s, Commit(uid, fault)), s.uploads[uid];
    OthersUnweighted(c, s, uid, fault, m);
    SumRemove(s.uploads.Keys, Weight(s, m), uid);
    SumSame(s'.uploads.Keys, Weight(s, m), Weight(s', m));
    if !fault {
      LoadPut(s.objects, m, u.key, u.body);
    }
    hide Load, KeysExclusive;
  }

  lemma OthersUnweighted(c: Config, s: State, uid: Uid, fault: bool, m: Bytes -> int)
    requires KeysExclusive(s) && Enabled(s, Commit(uid, fault))
    ensures var s' := Step(c, s, Commit(uid, fault));
      && s'.uploads.Keys == s.uploads.Keys - {uid}
      && s'.objects == (if fault then s.objects else s.objects[s.uploads[uid].key := s.uploads[uid].body])
      && forall v :: v in s'.uploads ==> Weight(s, m)(v) == Weight(s', m)(v)
  {
    var s' := Step(c, s, Commit(uid, fault));
    forall v | v in s'.uploads ensures Weight(s, m)(v) == Weight(s', m)(v) {
      assert s'.uploads[v] == s.uploads[v] && s.uploads[v].key != s.uploads[uid].key;
      assert WeightOf(s.objects, s.uploads[v], m) == WeightOf(s'.objects, s.uploads[v], m);
    }
  }

  lemma MoreUploads(n: nat, k: nat, largest: int)
    requires n <= k && 0 <= largest
    ensures (n - 1) * largest <= (k - 1) * largest
  {
  }

  lemma ApprovalStaysWithin(c: Config, s: State, uid: Uid, m: Bytes -> int, limit: int, largest: int, k: nat)
    requires At(s, uid, Copied) && |s.uploads| <= k && largest >= 0 && Within(s, m, limit, largest, k)
    requires Load(s.objects, m) + m(s.uploads[uid].body) - MeasureAt(s.objects, m)(s.uploads[uid].key) <= limit
    requires BodiesBounded(Advance(s, uid, Approved), m, largest)
    ensures Within(Advance(s, uid, Approved), m, limit, largest, k)
  {
    var s' := Advance(s, uid, Approved);
    if Weight(s', m)(uid) == 0 {
      PendingSame(s, s', m, uid);
    } else {
      WeightsBounded(s', m, largest, uid);
      assert |s'.uploads.Keys| == |s.uploads.Keys|;
      MoreUploads(|s'.uploads|, k, largest);
    }
  }

  /** Any step keeps the sum of what is stored and what is about to be stored within the
      limit, provided an approval saw an up-to-date size under its own key. */
  lemma StepStaysWithin(c: Config, s: State, l: Label, m: Bytes -> int, limit: int, largest: int, k: nat)
    requires KeysExclusive(s) && Enabled(s, l) && |s.uploads| <= k && largest >= 0
    requires Within(s, m, limit, largest, k) && BodiesBounded(Step(c, s, l), m, largest)
    requires l.Recheck? && At(Step(c, s, l), l.uid, Approved) ==>
      var u := s.uploads[l.uid]; Load(s.objects, m) + m(u.body) - MeasureAt(s.objects, m)(u.key) <= limit
    ensures Within(Step(c, s, l), m, limit, largest, k)
  {
    hide Load, Pending;
    if l.Delete? {
      DeleteStaysWithin(c, s, l.key, m);
    } else if l.Commit? {
      CommitStaysWithin(c, s, l.uid, l.fault, m);
    } else if l.Recheck? && At(Step(c, s, l), l.uid, Approved) {
      ApprovalStaysWithin(c, s, l.uid, m, limit, largest, k);
    } else {
      Weightless(c, s, l, m);
      hide Step;
      PendingSame(s, Step(c, s, l), m, l.uid);
    }
  }

  lemma Weightless(c: Config, s: State, l: Label, m: Bytes -> int)
    requires Enabled(s, l) && !l.Delete? && !l.Commit? && !(l.Recheck? && At(Step(c, s, l), l.uid, Approved))
    ensures var s' := Step(c, s, l);
      && s'.objects == s.objects
      && (s'.uploads.Keys == s.uploads.Keys || s'.uploads.Keys == s.uploads.Keys + {l.uid}
          || s'.uploads.Keys == s.uploads.Keys - {l.uid})
      && Weight(s, m)(l.uid) == Weight(s', m)(l.uid) == 0
      && forall v :: v != l.uid && v in s.uploads ==> v in s'.uploads && s'.uploads[v] == s.uploads[v]
  {
    hide PassesQuota, SizeAt, BodyFits;
  }

  /** The two quotas: what they measure, their limit, and the largest single contribution. */
  datatype Quota = ByBytes | ByObjects {
    function Measure(): Bytes -> int {
      if ByBytes? then Size else One
    }

    function Limit(c: Config): int {
      if ByBytes? then c.maxBytes else c.maxObjects
    }

    function Largest(c: Config): int {
      if ByBytes? then c.maxObjectSize else 1
    }

    /** The quota is set, and single objects are bounded. */
    predicate Governs(c: Config) {
      Limit(c) > 0 && Largest(c) > 0
    }
  }

  /** Until its second check an upload knows the size that its key really has. */
  ghost predicate ExistingCurrent(s: State) {
    forall uid :: uid in s.uploads && BeforeApproval(s.uploads[uid]) ==>
      SizeAt(s.objects, s.uploads[uid].key) == s.uploads[uid].existing
  }

  predicate BeforeApproval(u: Upload) {
    u.stage.Statted? || u.stage.Checked? || u.stage.Copied?
  }

  predicate Replacing(u: Upload, key: Key) {
    u.key == key && u.existing.Some? && BeforeApproval(u)
  }

  /** A deletion of a key whose replacement has taken stat but not passed its second check. */
  predicate Races(s: State, l: Label) {
    l.Delete? && exists uid :: uid in s.uploads && Replacing(s.uploads[uid], l.key)
  }

  lemma StepKeepsExisting(c: Config, s: State, l: Label)
    requires KeysExclusive(s) && AbsentStays(s) && ExistingCurrent(s) && Enabled(s, l) && !Races(s, l)
    ensures ExistingCurrent(Step(c, s, l))
  {
    hide PassesQuota, BodyFits;
  }

  lemma ApprovalWasAllowed(c: Config, s: State, uid: Uid, fault: bool, q: Quota)
    requires ExistingCurrent(s) && At(s, uid, Copied) && q.Governs(c)
    requires PassesQuota(c, s.objects, |s.uploads[uid].body|, s.uploads[uid].existing, fault)
    ensures var u, m := s.uploads[uid], q.Measure();
      Load(s.objects, m) + m(u.body) - MeasureAt(s.objects, m)(u.key) <= q.Limit(c)
  {
    CountIsLoad(s.objects);
    hide Load;
  }

  lemma BodiesFit(c: Config, s: State, q: Quota)
    requires StagesSound(c, s) && q.Governs(c)
    ensures BodiesBounded(s, q.Measure(), q.Largest(c))
  {
  }

  lemma StepKeepsQuota(c: Config, s: State, l: Label, q: Quota, k: nat)
    requires Inv(c, s) && ExistingCurrent(s) && Enabled(s, l) && !Races(s, l) && |s.uploads| <= k && q.Governs(c)
    requires Within(s, q.Measure(), q.Limit(c), q.Largest(c), k)
    ensures Within(Step(c, s, l), q.Measure(), q.Limit(c), q.Largest(c), k)
  {
    StepKeepsStages(c, s, l);
    BodiesFit(c, Step(c, s, l), q);
    if l.Recheck? && At(Step(c, s, l), l.uid, Approved) {
      ApprovalWasAllowed(c, s, l.uid, l.fault, q);
    }
    hide Step, Within, StagesSound, Quota.Measure, Quota.Limit, BodiesBounded;
    StepStaysWithin(c, s, l, q.Measure(), q.Limit(c), q.Largest(c), k);
  }

  ghost predicate QuotaInv(c: Config, s: State, q: Quota, k: nat) {
    Inv(c, s) && ExistingCurrent(s) && Within(s, q.Measure(), q.Limit(c), q.Largest(c), k)
  }

  lemma QuotaStart(c: Config, s: State, q: Quota, k: nat)
    requires Init(s) && k >= 1 && q.Governs(c) && Load(s.objects, q.Measure()) <= q.Limit(c)
    ensures QuotaInv(c, s, q, k)
  {
    MoreUploads(1, k, q.Largest(c));
    hide Quota.Measure, Load;
  }

  lemma QuotaStep(c: Config, s: State, l: Label, q: Quota, k: nat)
    requires QuotaInv(c, s, q, k) && Enabled(s, l) && !Races(s, l) && |s.uploads| <= k && q.Governs(c)
    ensures QuotaInv(c, Step(c, s, l), q, k)
  {
    StepKeepsInv(c, s, l);
    StepKeepsExisting(c, s, l);
    StepKeepsQuota(c, s, l, q, k);
    hide Inv, ExistingCurrent, Within, Step, Quota.Measure, Quota.Limit;
  }

  /** At most k uploads at a time, and no deletion under a replacement. */
  ghost predicate Orderly(states: seq<State>, labels: seq<Label>, k: nat) {
    && (forall j :: 0 <= j < |states| ==> |states[j].uploads| <= k)
    && forall j :: 0 <= j < |labels| && j < |states| ==> !Races(states[j], labels[j])
  }

  lemma {:induction false} QuotaAlongRun(c: Config, states: seq<State>, labels: seq<Label>, q: Quota, k: nat, i: nat)
    requires Follows(c, states, labels) && Init(states[0]) && i < |states| && k >= 1 && q.Governs(c)
    requires Orderly(states, labels, k) && Load(states[0].objects, q.Measure()) <= q.Limit(c)
    ensures QuotaInv(c, states[i], q, k)
  {
    hide Step, Races, Quota.Measure, Quota.Limit, Quota.Governs, Load, QuotaInv;
    if i > 0 {
      QuotaAlongRun(c, states, labels, q, k, i - 1);
      QuotaStep(c, states[i - 1], labels[i - 1], q, k);
    } else {
      QuotaStart(c, states[0], q, k);
    }
  }

  lemma PendingNotNegative(s: State, m: Bytes -> int)
    ensures Pending(s, m) >= 0
  {
    SumNotNegative(s.uploads.Keys, Weight(s, m));
  }

  /** With at most k uploads at a time the repository never holds more than k - 1 largest
      objects beyond its quotas, in any interleaving that does not delete a key under a
      replacement in progress. One upload at a time keeps the quotas exactly. */
  lemma QuotaHolds(c: Config, states: seq<State>, labels: seq<Label>, k: nat, i: nat)
    requires Follows(c, states, labels) && Init(states[0]) && i < |states| && k >= 1
    requires Orderly(states, labels, k)
    requires c.maxBytes > 0 ==> Load(states[0].objects, Size) <= c.maxBytes
    requires c.maxObjects > 0 ==> |states[0].objects| <= c.maxObjects
    ensures c.maxBytes > 0 && c.maxObjectSize > 0 ==>
      Load(states[i].objects, Size) <= c.maxBytes + (k - 1) * c.maxObjectSize
    ensures c.maxObjects > 0 ==> |states[i].objects| <= c.maxObjects + (k - 1)
  {
    CountIsLoad(states[0].objects);
    CountIsLoad(states[i].objects);
    PendingNotNegative(states[i], Size);
    PendingNotNegative(states[i], One);
    hide Load, Pending, Races, Step, ExistingCurrent, Inv, Orderly, Follows;
    if ByBytes.Governs(c) {
      QuotaAlongRun(c, states, labels, ByBytes, k, i);
    }
    if ByObjects.Governs(c) {
      QuotaAlongRun(c, states, labels, ByObjects, k, i);
    }
  }

  // ---- the quota when keys are deleted under their replacement ----

  /** No object, nor what stat remembers of one, is larger than the limit. */
  ghost predicate SizesBounded(c: Config, s: State) {
    && (forall key :: key in s.objects ==> |s.objects[key]| <= c.maxObjectSize)
    && forall uid :: uid in s.uploads && s.uploads[uid].existing.Some? ==> s.uploads[uid].existing.value <= c.maxObjectSize
  }

  lemma StepKeepsSizes(c: Config, s: State, l: Label)
    requires StagesSound(c, s) && SizesBounded(c, s) && Enabled(s, l) && c.maxObjectSize > 0
    ensures SizesBounded(c, Step(c, s, l))
  {
    hide PassesQuota;
  }

  /** A check that subtracts an outdated size errs by one largest object at most. */
  lemma ApprovalNearlyAllowed(c: Config, s: State, uid: Uid, fault: bool, q: Quota)
    requires At(s, uid, Copied) && q.Governs(c) && (q.ByBytes? ==> SizesBounded(c, s))
    requires PassesQuota(c, s.objects, |s.uploads[uid].body|, s.uploads[uid].existing, fault)
    ensures var u, m := s.uploads[uid], q.Measure();
      Load(s.objects, m) + m(u.body) - MeasureAt(s.objects, m)(u.key) <= q.Limit(c) + q.Largest(c)
  {
    CountIsLoad(s.objects);
    hide Load;
  }

  ghost predicate RoughInv(c: Config, s: State, q: Quota, k: nat) {
    && Inv(c, s) && (q.ByBytes? ==> SizesBounded(c, s))
    && Within(s, q.Measure(), q.Limit(c) + q.Largest(c), q.Largest(c), k)
  }

  lemma RoughStep(c: Config, s: State, l: Label, q: Quota, k: nat)
    requires RoughInv(c, s, q, k) && Enabled(s, l) && |s.uploads| <= k && q.Governs(c)
    ensures RoughInv(c, Step(c, s, l), q, k)
  {
    StepKeepsInv(c, s, l);
    BodiesFit(c, Step(c, s, l), q);
    if q.ByBytes? {
      StepKeepsSizes(c, s, l);
    }
    if l.Recheck? && At(Step(c, s, l), l.uid, Approved) {
      ApprovalNearlyAllowed(c, s, l.uid, l.fault, q);
    }
    hide Step, Within, AbsentStays, StagesSound, SizesBounded, Quota.Measure, Quota.Limit, Quota.Largest, BodiesBounded;
    StepStaysWithin(c, s, l, q.Measure(), q.Limit(c) + q.Largest(c), q.Largest(c), k);
  }

  lemma RoughStart(c: Config, s: State, q: Quota, k: nat)
    requires Init(s) && k >= 1 && q.Governs(c) && Load(s.objects, q.Measure()) <= q.Limit(c)
    requires q.ByBytes? ==> SizesBounded(c, s)
    ensures RoughInv(c, s, q, k)
  {
    MoreUploads(1, k, q.Largest(c));
    hide Quota.Measure, Load;
  }

  lemma {:induction false} RoughAlongRun(c: Config, states: seq<State>, labels: seq<Label>, q: Quota, k: nat, i: nat)
    requires Follows(c, states, labels) && Init(states[0]) && i < |states| && k >= 1 && q.Governs(c)
    requires forall j :: 0 <= j < |states| ==> |states[j].uploads| <= k
    requires Load(states[0].objects, q.Measure()) <= q.Limit(c) && (q.ByBytes? ==> SizesBounded(c, states[0]))
    ensures RoughInv(c, states[i], q, k)
  {
    hide Step, Quota.Measure, Quota.Limit, Quota.Governs, Load, RoughInv, SizesBounded;
    if i > 0 {
      RoughAlongRun(c, states, labels, q, k, i - 1);
      RoughStep(c, states[i - 1], labels[i - 1], q, k);
    } else {
      RoughStart(c, states[0], q, k);
    }
  }

  lemma RoughLoad(c: Config, s: State, q: Quota, k: nat)
    requires RoughInv(c, s, q, k) && k >= 1
    ensures Load(s.objects, q.Measure()) <= q.Limit(c) + k * q.Largest(c)
  {
    PendingNotNegative(s, q.Measure());
    OneMore(k - 1, q.Largest(c));
    hide Load, Pending, Inv, SizesBounded, Quota.Measure, Quota.Limit, Quota.Largest;
  }

  /** Whatever is deleted whenever: with at most k uploads at a time the repository never
      holds more than k largest objects beyond its quotas. */
  lemma QuotaUnderDeletions(c: Config, states: seq<State>, labels: seq<Label>, k: nat, i: nat)
    requires Follows(c, states, labels) && Init(states[0]) && i < |states| && k >= 1
    requires forall j :: 0 <= j < |states| ==> |states[j].uploads| <= k
    requires c.maxBytes > 0 ==> Load(states[0].objects, Size) <= c.maxBytes
    requires c.maxObjects > 0 ==> |states[0].objects| <= c.maxObjects
    ensures c.maxBytes > 0 && c.maxObjectSize > 0 && SizesBounded(c, states[0]) ==>
      Load(states[i].objects, Size) <= c.maxBytes + k * c.maxObjectSize
    ensures c.maxObjects > 0 ==> |states[i].objects| <= c.maxObjects + k
  {
    CountIsLoad(states[0].objects);
    CountIsLoad(states[i].objects);
    hide Load, SizesBounded, RoughInv, Follows;
    if ByBytes.Governs(c) && SizesBounded(c, states[0]) {
      RoughAlongRun(c, states, labels, ByBytes, k, i);
      RoughLoad(c, states[i], ByBytes, k);
    }
    if ByObjects.Governs(c) {
      RoughAlongRun(c, states, labels, ByObjects, k, i);
      RoughLoad(c, states[i], ByObjects, k);
    }
  }

  /** A new object passes exactly when both sums with it are within their limits, where set. */
  lemma NewObjectCheck(c: Config, objects: map<Key, Bytes>, key: Key, size: int)
    requires key !in objects
    ensures PassesQuota(c, objects, size, SizeAt(objects, key), false) <==>
      && (c.maxBytes > 0 ==> Load(objects, Size) + size <= c.maxBytes)
      && (c.maxObjects > 0 ==> |objects| + 1 <= c.maxObjects)
  {
  }

  /** A replacement passes exactly when the bytes without the old and with the new object are
      within the limit, and as many objects as before. */
  lemma ReplacementCheck(c: Config, objects: map<Key, Bytes>, key: Key, size: int)
    requires key in objects
    ensures PassesQuota(c, objects, size, SizeAt(objects, key), false) <==>
      && (c.maxBytes > 0 ==> Load(objects, Size) - |objects[key]| + size <= c.maxBytes)
      && (c.maxObjects > 0 ==> |objects| <= c.maxObjects)
  {
  }

  /** If the old object is deleted between stat and a check of its replacement, the check
      still subtracts it: it passes exactly when the quotas have room for the new object
      less twice the old one. */
  lemma StaleCheck(c: Config, objects: map<Key, Bytes>, key: Key, size: int)
    requires key in objects
    ensures PassesQuota(c, objects - {key}, size, SizeAt(objects, key), false) <==>
      && (c.maxBytes > 0 ==> Load(objects, Size) + size - 2 * |objects[key]| <= c.maxBytes)
      && (c.maxObjects > 0 ==> |objects| - 1 <= c.maxObjects)
  {
    LoadRemoved(objects, Size, key);
    assert MeasureAt(objects, Size)(key) == |objects[key]|;
    assert (objects - {key}).Keys == objects.Keys - {key};
    assert |(objects - {key}).Keys| == |objects.Keys| - 1;
    hide Load, MeasureAt;
  }

  function Replacement(key: Key, body: Bytes, stage: Stage, existing: Option<nat>): Upload {
    Upload(key, |body|, body, true, stage, existing)
  }

  /** The one upload of this run, at the given stage. */
  function Only(objects: map<Key, Bytes>, u: Upload): State {
    State(objects, {u.key}, map[0 := u])
  }

  lemma StartSteps(c: Config, objects: map<Key, Bytes>, key: Key, body: Bytes)
    requires key in objects && (c.maxObjectSize > 0 ==> |body| <= c.maxObjectSize)
    ensures var s := State(objects, {}, map[]);
      && Step(c, s, Enter(0, key, |body|, body, true)) == Only(objects, Replacement(key, body, Entered, None))
    ensures var s := Only(objects, Replacement(key, body, Entered, None));
      && Step(c, s, Stat(0, false)) == Only(objects, Replacement(key, body, Statted, SizeAt(objects, key)))
    ensures var s := Only(objects, Replacement(key, body, Statted, SizeAt(objects, key)));
      && Step(c, s, Delete(key)) == Only(objects - {key}, Replacement(key, body, Statted, SizeAt(objects, key)))
  {
    hide PassesQuota, BodyFits;
    assert {} + {key} == {key};
  }

  lemma CheckSteps(c: Config, objects: map<Key, Bytes>, key: Key, body: Bytes, existing: Option<nat>)
    requires PassesQuota(c, objects, |body|, existing, false) && (c.maxObjectSize > 0 ==> |body| <= c.maxObjectSize)
    ensures Step(c, Only(objects, Replacement(key, body, Statted, existing)), Check(0, false))
         == Only(objects, Replacement(key, body, Checked, existing))
    ensures Step(c, Only(objects, Replacement(key, body, Checked, existing)), Copy(0, false))
         == Only(objects, Replacement(key, body, Copied, existing))
    ensures Step(c, Only(objects, Replacement(key, body, Copied, existing)), Recheck(0, false))
         == Only(objects, Replacement(key, body, Approved, existing))
    ensures Step(c, Only(objects, Replacement(key, body, Approved, existing)), Commit(0, false))
         == State(objects[key := body], {}, map[])
  {
    hide PassesQuota;
    assert {key} - {key} == {};
  }

  lemma ReplacedLoad(objects: map<Key, Bytes>, key: Key, body: Bytes)
    requires key in objects
    ensures Load(objects[key := body], Size) == Load(objects, Size) + |body| - |objects[key]|
  {
    LoadPut(objects, Size, key, body);
    assert MeasureAt(objects, Size)(key) == |objects[key]|;
    hide Load;
  }

  /** A run with one upload at a time that ends in the state `last`. */
  ghost predicate LoneRun(c: Config, states: seq<State>, labels: seq<Label>, last: State) {
    && Follows(c, states, labels) && states[|labels|] == last
    && forall j :: 0 <= j < |states| ==> |states[j].uploads| <= 1
  }

  lemma OneMoreStep(c: Config, states: seq<State>, labels: seq<Label>, s: State, l: Label, s': State)
    requires LoneRun(c, states, labels, s) && Enabled(s, l) && s' == Step(c, s, l) && |s'.uploads| <= 1
    ensures LoneRun(c, states + [s'], labels + [l], s')
  {
    hide Step;
  }

  lemma FromStart(c: Config, objects: map<Key, Bytes>, key: Key, body: Bytes) returns (states: seq<State>, labels: seq<Label>)
    requires key in objects && (c.maxObjectSize > 0 ==> |body| <= c.maxObjectSize)
    ensures LoneRun(c, states, labels, Only(objects - {key}, Replacement(key, body, Statted, SizeAt(objects, key))))
    ensures states[0] == State(objects, {}, map[])
  {
    StartSteps(c, objects, key, body);
    var s0 := State(objects, {}, map[]);
    var s1 := Only(objects, Replacement(key, body, Entered, None));
    var s2 := Only(objects, Replacement(key, body, Statted, SizeAt(objects, key)));
    var s3 := Only(objects - {key}, Replacement(key, body, Statted, SizeAt(objects, key)));
    states, labels := [s0], [];
    hide Step, LoneRun;
    assert LoneRun(c, states, labels, s0);
    OneMoreStep(c, states, labels, s0, Enter(0, key, |body|, body, true), s1);
    states, labels := states + [s1], labels + [Enter(0, key, |body|, body, true)];
    OneMoreStep(c, states, labels, s1, Stat(0, false), s2);
    states, labels := states + [s2], labels + [Stat(0, false)];
    OneMoreStep(c, states, labels, s2, Delete(key), s3);
    states, labels := states + [s3], labels + [Delete(key)];
  }

  lemma ToCommit(
      c: Config, rest: map<Key, Bytes>, key: Key, body: Bytes, existing: Option<nat>, before: seq<State>, did: seq<Label>)
    returns (states: seq<State>, labels: seq<Label>)
    requires LoneRun(c, before, did, Only(rest, Replacement(key, body, Statted, existing)))
    requires PassesQuota(c, rest, |body|, existing, false) && (c.maxObjectSize > 0 ==> |body| <= c.maxObjectSize)
    ensures LoneRun(c, states, labels, State(rest[key := body], {}, map[])) && states[0] == before[0]
  {
    CheckSteps(c, rest, key, body, existing);
    hide Step, LoneRun, PassesQuota;
    var s0 := Only(rest, Replacement(key, body, Statted, existing));
    var s1 := Only(rest, Replacement(key, body, Checked, existing));
    var s2 := Only(rest, Replacement(key, body, Copied, existing));
    var s3 := Only(rest, Replacement(key, body, Approved, existing));
    var s4 := State(rest[key := body], {}, map[]);
    OneMoreStep(c, before, did, s0, Check(0, false), s1);
    states, labels := before + [s1], did + [Check(0, false)];
    OneMoreStep(c, states, labels, s1, Copy(0, false), s2);
    states, labels := states + [s2], labels + [Copy(0, false)];
    OneMoreStep(c, states, labels, s2, Recheck(0, false), s3);
    states, labels := states + [s3], labels + [Recheck(0, false)];
    OneMoreStep(c, states, labels, s3, Commit(0, false), s4);
    states, labels := states + [s4], labels + [Commit(0, false)];
  }

  /** So a single upload may break the byte quota. Whenever the deletion comes between stat
      and first check and that condition holds, the replacement is committed and the
      repository holds all of it. */
  lemma DeletionUnderReplacement(c: Config, objects: map<Key, Bytes>, key: Key, body: Bytes)
    returns (states: seq<State>, labels: seq<Label>)
    requires key in objects && (c.maxObjectSize > 0 ==> |body| <= c.maxObjectSize)
    requires c.maxBytes > 0 ==> Load(objects, Size) + |body| - 2 * |objects[key]| <= c.maxBytes
    requires c.maxObjects > 0 ==> |objects| - 1 <= c.maxObjects
    ensures LoneRun(c, states, labels, State(objects[key := body], {}, map[])) && states[0] == State(objects, {}, map[])
    ensures Load(objects[key := body], Size) == Load(objects, Size) + |body| - |objects[key]|
  {
    StaleCheck(c, objects, key, |body|);
    ReplacedLoad(objects, key, body);
    var rest := objects - {key};
    assert rest[key := body] == objects[key := body];
    hide Load, PassesQuota, LoneRun, Only, Replacement;
    states, labels := FromStart(c, objects, key, body);
    states, labels := ToCommit(c, rest, key, body, SizeAt(objects, key), states, labels);
  }

  function Zeros(n: nat): (b: Bytes)
    ensures |b| == n
  {
    seq(n, _ => 0)
  }

  /** A full repository of 10 bytes ends up at 14 when 10 bytes replace 6. */
  lemma QuotaBroken() returns (c: Config, states: seq<State>, labels: seq<Label>, last: State)
    ensures LoneRun(c, states, labels, last) && Init(states[0])
    ensures c.maxBytes == 10 && Load(states[0].objects, Size) == 10 && Load(last.objects, Size) == 14
  {
    c := Config(0, 10, 0);
    var objects: map<Key, Bytes> := map["b" := Zeros(4)];
    LoadPut(map[], Size, "b", Zeros(4));
    LoadPut(objects, Size, "a", Zeros(6));
    assert map["b" := Zeros(4)] == map[]["b" := Zeros(4)];
    hide Follows;
    states, labels := DeletionUnderReplacement(c, objects["a" := Zeros(6)], "a", Zeros(10));
    last := State(objects["a" := Zeros(6)]["a" := Zeros(10)], {}, map[]);
  }
}
