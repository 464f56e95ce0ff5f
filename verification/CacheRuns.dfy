/** What runs of the cache guarantee beyond the invariant: who may change the index, what
    becomes of the bytes of a record, how often an immutable object is fetched, and what a
    restart finds. */
module CacheRuns {
  import opened Text
  import opened VersionedKeys
  import opened CacheModel

  /** A run so far: its states, and the steps between them. */
  datatype History = History(states: seq<State>, labels: seq<Label>) {
    ghost predicate Of(c: Config) {
      Run(c, states, labels)
    }

    predicate Extends(earlier: History) {
      earlier.states <= states && earlier.labels <= labels
    }

    /** The position of the current state. */
    function Now(): nat {
      |labels|
    }

    function Then(c: Config, l: Label): History
      requires |states| == |labels| + 1 && Enabled(c, states[Now()], l)
    {
      History(states + [Step(c, states[Now()], l)], labels + [l])
    }
  }

  lemma RunGoesOn(c: Config, h: History, l: Label)
    requires c.WellFormed() && h.Of(c) && Enabled(c, h.states[h.Now()], l)
    ensures h.Then(c, l).Of(c) && h.Then(c, l).Extends(h)
    ensures h.Then(c, l).states[h.Now() + 1] == Step(c, h.states[h.Now()], l)
    ensures Inv(c, h.states[h.Now()]) && Inv(c, Step(c, h.states[h.Now()], l))
  {
    hide Init, Inv, Step, Enabled;
    IndexAlwaysBacked(c, h.states, h.labels, h.Now());
    StepKeepsInv(c, h.states[h.Now()], l);
  }

  /** Only the index write of a flight changes the index ... */
  lemma OnlyIndexWritesTouchIndex(c: Config, s: State, l: Label)
    requires Enabled(c, s, l) && !l.WriteIndex?
    ensures Step(c, s, l).index == s.index
  {
    match l
    case Answer(k, reply, now, victim) => AnswerLeavesIndex(c, s, l);
    case Store(k, sum, faults, now, victim) => StoreLeavesIndex(c, s, l);
    case _ => hide TakeAnswer, StoreBody, WriteRecord;
  }

  lemma AnswerLeavesIndex(c: Config, s: State, l: Label)
    requires l.Answer? && Enabled(c, s, l)
    ensures Step(c, s, l).index == s.index
  {
    hide AnswerFlight, AnswerNegative;
  }

  lemma StoreLeavesIndex(c: Config, s: State, l: Label)
    requires l.Store? && Enabled(c, s, l)
    ensures Step(c, s, l).index == s.index
  {
    hide CopyBody, StoreError, Remember, Committed, WriteKey;
  }

  /** Steps that only the executor of the key's flight takes. */
  predicate OfFlight(l: Label, k: Key) {
    (l.Look? || l.Answer? || l.Store? || l.WriteIndex? || l.Finish?) && l.key == k
  }

  lemma OthersSpareFlight(c: Config, s: State, l: Label, k: Key)
    requires Enabled(c, s, l) && !OfFlight(l, k)
    ensures SparesFlight(s, Step(c, s, l), k)
  {
    match l
    case Answer(k', reply, now, victim) => AnswerSparesFlight(c, s, l, k);
    case Store(k', sum, faults, now, victim) => StoreSparesFlight(c, s, l, k);
    case WriteIndex(k', fault) => WriteSparesFlight(c, s, l, k);
    case Look(k', now, fault) => LookSparesFlight(c, s, l, k);
    case _ => hide TakeAnswer, StoreBody, WriteRecord, LookUp;
  }

  ghost predicate SparesFlight(s: State, s': State, k: Key) {
    && s.seqNo <= s'.seqNo
    && (k in s.flights ==> k in s'.flights && s'.flights[k] == s.flights[k] && Entry(s'.index, k) == Entry(s.index, k))
  }

  lemma AnswerSparesFlight(c: Config, s: State, l: Label, k: Key)
    requires l.Answer? && Enabled(c, s, l) && !OfFlight(l, k)
    ensures SparesFlight(s, Step(c, s, l), k)
  {
    hide AnswerFlight, AnswerNegative;
  }

  lemma LookSparesFlight(c: Config, s: State, l: Label, k: Key)
    requires l.Look? && Enabled(c, s, l) && !OfFlight(l, k)
    ensures SparesFlight(s, Step(c, s, l), k)
  {
  }

  lemma StoreSparesFlight(c: Config, s: State, l: Label, k: Key)
    requires l.Store? && Enabled(c, s, l) && !OfFlight(l, k)
    ensures SparesFlight(s, Step(c, s, l), k)
  {
    hide CopyBody, StoreError, Remember, Committed, WriteKey;
  }

  lemma WriteSparesFlight(c: Config, s: State, l: Label, k: Key)
    requires l.WriteIndex? && Enabled(c, s, l) && !OfFlight(l, k)
    ensures SparesFlight(s, Step(c, s, l), k)
  {
  }

  /** The record of a key with a flight under way is the one of state `s`, unless the
      flight has already ended well. */
  ghost predicate RecordKept(s: State, s': State, k: Key) {
    k in s'.flights && (Entry(s'.index, k) == Entry(s.index, k) || EndedWell(s', k))
  }

  ghost predicate EndedWell(s: State, k: Key) {
    k in s.flights && s.flights[k].Done? && s.flights[k].outcome.Fetched?
  }

  lemma StepKeepsFlight(c: Config, s: State, l: Label, k: Key)
    requires Enabled(c, s, l) && k in s.flights && l != Finish(k)
    ensures k in Step(c, s, l).flights && (EndedWell(s, k) ==> EndedWell(Step(c, s, l), k))
  {
    if OfFlight(l, k) {
      hide AnswerFlight, AnswerNegative, CopyBody, StoreError, Remember, Committed, WriteKey;
    } else {
      hide Step;
      OthersSpareFlight(c, s, l, k);
    }
  }

  lemma StepKeepsRecord(c: Config, s: State, l: Label, k: Key)
    requires Enabled(c, s, l) && k in s.flights && l != Finish(k)
    ensures RecordKept(s, Step(c, s, l), k)
  {
    StepKeepsFlight(c, s, l, k);
    if !l.WriteIndex? {
      hide Step;
      OnlyIndexWritesTouchIndex(c, s, l);
    }
  }

  lemma KeepsOn(c: Config, begun: State, s: State, l: Label, k: Key)
    requires RecordKept(begun, s, k) && Enabled(c, s, l) && l != Finish(k)
    ensures RecordKept(begun, Step(c, s, l), k)
  {
    hide Step;
    StepKeepsFlight(c, s, l, k);
    StepKeepsRecord(c, s, l, k);
  }

  lemma {:induction false} RecordKeptWhileFlying(
      c: Config, states: seq<State>, labels: seq<Label>, i: nat, j: nat, k: Key)
    requires Run(c, states, labels) && i < j < |states|
    requires labels[i] == Begin(k) && forall n :: i < n < j ==> labels[n] != Finish(k)
    ensures RecordKept(states[i], states[j], k)
  {
    hide Step, RecordKept;
    if i < j - 1 {
      RecordKeptWhileFlying(c, states, labels, i, j - 1, k);
      KeepsOn(c, states[i], states[j - 1], labels[j - 1], k);
    } else {
      BeginLeavesIndex(c, states[i], k);
    }
  }

  /** From its beginning to its end a flight leaves the record of its key as it was, unless
      it ends well, and then the record is the one it reports. A failed fetch therefore
      costs nothing, whatever others do meanwhile. */
  lemma FailedFlightLeavesRecord(c: Config, states: seq<State>, labels: seq<Label>, i: nat, j: nat, k: Key)
    requires c.WellFormed() && Run(c, states, labels) && i < j < |states|
    requires labels[i] == Begin(k) && forall n :: i < n < j ==> labels[n] != Finish(k)
    ensures k in states[j].flights
    ensures EndedWell(states[j], k) || Entry(states[j].index, k) == Entry(states[i].index, k)
    ensures EndedWell(states[j], k) && c.kind(k) == Mutable ==>
      Entry(states[j].index, k) == Some(states[j].flights[k].outcome.record)
  {
    RecordKeptWhileFlying(c, states, labels, i, j, k);
    IndexAlwaysBacked(c, states, labels, j);
    hide Run, Step;
    if EndedWell(states[j], k) {
      assert FlightSound(c, states[j], k, states[j].flights[k]);
    }
  }

  lemma BeginLeavesIndex(c: Config, s: State, k: Key)
    requires Enabled(c, s, Begin(k))
    ensures RecordKept(s, Step(c, s, Begin(k)), k)
  {
  }

  // ---- the bytes of a record ----

  /** The key of a version that has been written: no later write uses it. */
  ghost predicate Spent(c: Config, s: State, b: Key) {
    && c.kind(b) != Immutable
    && (forall k: Key, n: nat :: n > s.seqNo ==> c.versionKey(k, n) != b)
    && (forall k :: k in s.flights ==> NotAbout(c, k, s.flights[k], b))
  }

  ghost predicate NotAbout(c: Config, k: Key, f: Flight, b: Key) {
    c.kind(k) != Version && (f.Writing? ==> WriteKey(c, k, f.version) != b)
  }

  lemma RecordedIsSpent(c: Config, s: State, k: Key)
    requires c.WellFormed() && Inv(c, s) && k in s.index
    ensures Spent(c, s, s.index[k].BytesKey()) && HasBlob(s, s.index[k])
  {
    var b := s.index[k].BytesKey();
    BlobKeyFacts(c, s, k);
    forall k' | k' in s.flights ensures NotAbout(c, k', s.flights[k'], b) {
      assert FlightSound(c, s, k', s.flights[k']);
    }
  }

  lemma StepKeepsSpent(c: Config, s: State, l: Label, b: Key)
    requires Spent(c, s, b) && Enabled(c, s, l)
    ensures Spent(c, Step(c, s, l), b)
  {
    hide Step, NotAbout;
    forall k | k in Step(c, s, l).flights ensures NotAbout(c, k, Step(c, s, l).flights[k], b) {
      StaysNotAbout(c, s, l, k, b);
    }
    SeqNoGrows(c, s, l);
  }

  lemma StaysNotAbout(c: Config, s: State, l: Label, k: Key, b: Key)
    requires Spent(c, s, b) && Enabled(c, s, l) && k in Step(c, s, l).flights
    ensures NotAbout(c, k, Step(c, s, l).flights[k], b)
  {
    assert k in s.flights ==> NotAbout(c, k, s.flights[k], b);
    if k in s.flights && !OfFlight(l, k) {
      hide Step;
      OthersSpareFlight(c, s, l, k);
    } else if l.Answer? && l.key == k {
      AnswerNotAbout(c, s, l, b);
    } else {
      if k !in s.flights {
        NewFlight(c, s, l, k);
      }
      hide TakeAnswer, CopyBody, Remember, StoreError, WriteKey, NewRecord;
    }
  }

  lemma NewFlight(c: Config, s: State, l: Label, k: Key)
    requires Enabled(c, s, l) && k !in s.flights && k in Step(c, s, l).flights
    ensures l == Begin(k)
  {
    hide AnswerFlight, AnswerNegative, CopyBody, Remember, StoreError, Committed, WriteKey;
  }

  lemma SeqNoGrows(c: Config, s: State, l: Label)
    requires Enabled(c, s, l)
    ensures s.seqNo <= Step(c, s, l).seqNo
  {
    hide AnswerFlight, AnswerNegative, CopyBody, Remember, StoreError, Committed, WriteKey;
  }

  lemma AnswerNotAbout(c: Config, s: State, l: Label, b: Key)
    requires Spent(c, s, b) && Enabled(c, s, l) && l.Answer?
    ensures NotAbout(c, l.key, Step(c, s, l).flights[l.key], b)
  {
    hide AnswerNegative;
    assert NotAbout(c, l.key, s.flights[l.key], b);
  }

  lemma StepKeepsBytes(c: Config, s: State, l: Label, b: Key)
    requires Spent(c, s, b) && Enabled(c, s, l)
    ensures b in Step(c, s, l).storage ==> b in s.storage && Step(c, s, l).storage[b] == s.storage[b]
  {
    hide CopyBody, Remember, AnswerNegative, AnswerFlight, StoreError, Committed, WriteKey;
    if l.Store? {
      assert NotAbout(c, l.key, s.flights[l.key], b);
    }
  }

  /** Whoever has read a record finds under its storage key the bytes that were recorded,
      or nothing: versions are never overwritten, and a deleted one does not return. */
  lemma {:induction false} RecordedBytesNeverChange(
      c: Config, states: seq<State>, labels: seq<Label>, i: nat, j: nat, k: Key)
    requires c.WellFormed() && Run(c, states, labels) && i <= j < |states| && k in states[i].index
    ensures var b := states[i].index[k].BytesKey();
      && Spent(c, states[j], b) && HasBlob(states[i], states[i].index[k])
      && (b in states[j].storage ==> states[j].storage[b] == states[i].storage[b])
    decreases j
  {
    hide Inv, Spent, Step;
    if i == j {
      IndexAlwaysBacked(c, states, labels, i);
      RecordedIsSpent(c, states[i], k);
    } else {
      RecordedBytesNeverChange(c, states, labels, i, j - 1, k);
      StepKeepsSpent(c, states[j - 1], labels[j - 1], states[i].index[k].BytesKey());
      StepKeepsBytes(c, states[j - 1], labels[j - 1], states[i].index[k].BytesKey());
    }
  }

  // ---- immutable objects are fetched once ----

  /** A step on which the double check inside a flight works and nothing outside the
      engine deletes immutable objects. */
  predicate Reliable(c: Config, l: Label) {
    match l
    case Look(k, _, fault) => c.kind(k) == Immutable ==> !fault
    case Evict(_) => false
    case _ => true
  }

  predicate NoDuplicates(keys: seq<Key>) {
    forall i, j :: 0 <= i < j < |keys| ==> keys[i] != keys[j]
  }

  /** Committed objects stay, and a flight that got past the double check finds nothing stored. */
  ghost predicate Once(c: Config, s: State) {
    && NoDuplicates(s.commits)
    && (forall k :: k in s.commits ==> k in s.storage && c.kind(k) == Immutable)
    && (forall k :: k in s.flights && c.kind(k) == Immutable && (s.flights[k].Asking? || s.flights[k].Writing?) ==>
          k !in s.storage)
  }

  lemma StoreKeepsOnce(c: Config, s: State, k: Key, sum: Checksum, faults: StoreFaults, now: int, victim: Key)
    requires c.VersionsApart() && Once(c, s) && Enabled(c, s, Store(k, sum, faults, now, victim))
    requires c.kind(k) != Version
    ensures Once(c, StoreBody(c, s, k, sum, faults, now, victim))
  {
    hide CopyBody, Remember;
    assert c.kind(c.versionKey(k, s.flights[k].version)) == Version;
  }

  lemma OtherStepsKeepOnce(c: Config, s: State, l: Label)
    requires Once(c, s) && Enabled(c, s, l) && Reliable(c, l) && !l.Store?
    requires l.Delete? ==> c.kind(l.key) != Immutable
    ensures Once(c, Step(c, s, l))
  {
    hide StoreBody, Remember, AnswerNegative, NoDuplicates;
    if l.Answer? {
      AnswerKeepsOnce(c, s, l);
    } else if l.Look? {
      LookKeepsOnce(c, s, l);
    } else if l.WriteIndex? {
      WriteKeepsOnce(c, s, l);
    } else {
      hide TakeAnswer, LookUp, WriteRecord;
    }
  }

  lemma AnswerKeepsOnce(c: Config, s: State, l: Label)
    requires Once(c, s) && Enabled(c, s, l) && l.Answer?
    ensures Once(c, Step(c, s, l))
  {
    hide AnswerNegative, NoDuplicates;
  }

  lemma WriteKeepsOnce(c: Config, s: State, l: Label)
    requires Once(c, s) && Enabled(c, s, l) && l.WriteIndex?
    ensures Once(c, Step(c, s, l))
  {
    hide NoDuplicates;
  }

  lemma LookKeepsOnce(c: Config, s: State, l: Label)
    requires Once(c, s) && Enabled(c, s, l) && Reliable(c, l) && l.Look?
    ensures Once(c, Step(c, s, l))
  {
    hide NoDuplicates;
  }

  lemma StepKeepsOnce(c: Config, s: State, l: Label)
    requires c.WellFormed() && Once(c, s) && Enabled(c, s, l) && Reliable(c, l)
    requires l.Store? ==> c.kind(l.key) != Version
    requires l.Delete? ==> c.kind(l.key) != Immutable
    ensures Once(c, Step(c, s, l))
  {
    hide StoreBody, Once, LookUp, TakeAnswer, WriteRecord;
    if l.Store? {
      StoreKeepsOnce(c, s, l.key, l.sum, l.faults, l.now, l.victim);
    } else {
      OtherStepsKeepOnce(c, s, l);
    }
  }

  lemma {:induction false} DistinctCount(keys: seq<Key>)
    requires NoDuplicates(keys)
    ensures |set k | k in keys| == |keys|
  {
    if keys != [] {
      var init, last := keys[..|keys| - 1], keys[|keys| - 1];
      DistinctCount(init);
      assert (set k | k in keys) == (set k | k in init) + {last};
    }
  }

  lemma LabelFacts(c: Config, s: State, l: Label)
    requires Inv(c, s) && Enabled(c, s, l)
    ensures l.Store? ==> c.kind(l.key) != Version && (c.kind(l.key) == Mutable ==> s.flights[l.key].version > 0)
    ensures l.Delete? ==> c.kind(l.key) != Immutable
  {
    if l.Store? {
      assert FlightSound(c, s, l.key, s.flights[l.key]);
    }
  }

  /** However fetches, prefetches and deletions interleave, no immutable object is
      committed twice, so the package counter is the number of objects committed. */
  lemma {:induction false} ImmutableCommittedOnce(c: Config, states: seq<State>, labels: seq<Label>, i: nat)
    requires c.WellFormed() && Run(c, states, labels) && i < |states|
    requires forall l :: l in labels ==> Reliable(c, l)
    ensures Once(c, states[i])
    ensures NoDuplicates(states[i].commits)
    ensures |states[i].commits| == |set k | k in states[i].commits|
  {
    hide Step, Inv;
    if i > 0 {
      ImmutableCommittedOnce(c, states, labels, i - 1);
      IndexAlwaysBacked(c, states, labels, i - 1);
      assert labels[i - 1] in labels;
      LabelFacts(c, states[i - 1], labels[i - 1]);
      StepKeepsOnce(c, states[i - 1], labels[i - 1]);
    }
    DistinctCount(states[i].commits);
  }

  // ---- nothing recorded is ever lost ----

  /** An object known to the engine: recorded, or stored under its own key. */
  ghost predicate Known(c: Config, s: State, k: Key) {
    if c.kind(k) == Mutable then k in s.index else k in s.storage
  }

  predicate Evicts(l: Label) {
    l.Evict?
  }

  lemma StepKeepsKnown(c: Config, s: State, l: Label, k: Key)
    requires Enabled(c, s, l) && !Evicts(l) && Known(c, s, k) && c.kind(k) != Version
    requires l.Delete? ==> c.kind(l.key) != Immutable
    ensures Known(c, Step(c, s, l), k)
  {
    hide CopyBody, Remember, Committed, AnswerFlight, AnswerNegative;
  }

  /** Without evictions a known object stays known. */
  lemma {:induction false} KnownStays(c: Config, states: seq<State>, labels: seq<Label>, i: nat, j: nat, k: Key)
    requires c.WellFormed() && Run(c, states, labels) && i <= j < |states|
    requires forall n :: i <= n < j ==> !Evicts(labels[n])
    requires c.kind(k) != Version && Known(c, states[i], k)
    ensures Known(c, states[j], k)
    decreases j
  {
    hide Step, Inv;
    if i < j {
      KnownStays(c, states, labels, i, j - 1, k);
      IndexAlwaysBacked(c, states, labels, j - 1);
      LabelFacts(c, states[j - 1], labels[j - 1]);
      StepKeepsKnown(c, states[j - 1], labels[j - 1], k);
    }
  }

  /** The bytes of a record that was read at one state can be found at a later one exactly
      when no deletion of them has been carried out in between. */
  lemma {:induction false} BytesStayUnlessDeleted(
      c: Config, states: seq<State>, labels: seq<Label>, i: nat, j: nat, k: Key)
    requires c.WellFormed() && Run(c, states, labels) && i <= j < |states| && k in states[i].index
    ensures var b := states[i].index[k].BytesKey();
      b in states[j].storage <==> forall n :: i <= n < j ==> labels[n] != Delete(b, false)
    decreases j
  {
    hide Inv, Spent, Step;
    var b := states[i].index[k].BytesKey();
    RecordedBytesNeverChange(c, states, labels, i, i, k);
    if i < j {
      BytesStayUnlessDeleted(c, states, labels, i, j - 1, k);
      RecordedBytesNeverChange(c, states, labels, i, j - 1, k);
      OnlyDeleteRemoves(c, states[j - 1], labels[j - 1], b);
    }
  }

  lemma OnlyDeleteRemoves(c: Config, s: State, l: Label, b: Key)
    requires Spent(c, s, b) && Enabled(c, s, l)
    ensures b in Step(c, s, l).storage <==> b in s.storage && l != Delete(b, false)
  {
    hide CopyBody, Remember, AnswerNegative, AnswerFlight, StoreError, Committed, WriteKey;
    if l.Store? {
      assert NotAbout(c, l.key, s.flights[l.key], b);
    }
  }

  // ---- no version is forgotten ----

  /** Somebody still knows of the version: a record names it, it awaits its deletion, or the
      flight that wrote it has yet to record it. */
  ghost predicate CaredFor(s: State, b: Key) {
    || (exists k :: k in s.index && s.index[k].BytesKey() == b)
    || b in s.deletes
    || (exists k :: k in s.flights && HasWritten(s.flights[k], b))
  }

  predicate HasWritten(f: Flight, b: Key) {
    f.Recording? && f.stored.Some? && f.record.BytesKey() == b
  }

  ghost predicate NoOrphans(c: Config, s: State) {
    forall b :: b in s.storage && c.kind(b) == Version ==> CaredFor(s, b)
  }

  /** A flight that asked about no record has none to replace. */
  ghost predicate PriorsKnown(c: Config, s: State) {
    forall k :: k in s.flights && c.kind(k) == Mutable ==> PriorKnown(s.flights[k], k in s.index)
  }

  predicate PriorKnown(f: Flight, recorded: bool) {
    (f.Asking? || f.Writing? || f.Recording?) && f.prior.None? ==> !recorded
  }

  /** The step neither fails to delete nor fails to read an index record inside a flight. */
  predicate Careful(c: Config, s: State, l: Label) {
    match l
    case Delete(_, fault) => !fault
    case Look(k, _, fault) => fault && c.kind(k) == Mutable ==> k !in s.index
    case _ => true
  }

  lemma StepKeepsPriors(c: Config, s: State, l: Label)
    requires PriorsKnown(c, s) && Enabled(c, s, l) && Careful(c, s, l)
    ensures PriorsKnown(c, Step(c, s, l))
  {
    hide Step;
    forall k | k in Step(c, s, l).flights && c.kind(k) == Mutable
      ensures PriorKnown(Step(c, s, l).flights[k], k in Step(c, s, l).index)
    {
      if k in s.flights && !OfFlight(l, k) {
        OthersSpareFlight(c, s, l, k);
      } else {
        OwnStepKeepsPrior(c, s, l, k);
      }
    }
  }

  lemma OwnStepKeepsPrior(c: Config, s: State, l: Label, k: Key)
    requires PriorsKnown(c, s) && Enabled(c, s, l) && Careful(c, s, l) && c.kind(k) == Mutable
    requires k in s.flights ==> OfFlight(l, k)
    requires k in Step(c, s, l).flights
    ensures PriorKnown(Step(c, s, l).flights[k], k in Step(c, s, l).index)
  {
    if k !in s.flights {
      NewFlight(c, s, l, k);
    }
    hide CopyBody, Remember, AnswerNegative, StoreError, WriteKey, NewRecord, Prolonged;
  }

  /** A version that nobody wrote just now stays cared for. */
  lemma QuietStepCares(c: Config, s: State, l: Label, b: Key)
    requires Enabled(c, s, l) && !l.Store? && !l.WriteIndex? && CaredFor(s, b) && (l.Delete? ==> l.key != b)
    ensures CaredFor(Step(c, s, l), b)
  {
    var s' := Step(c, s, l);
    OnlyIndexWritesTouchIndex(c, s, l);
    if k :| k in s.flights && HasWritten(s.flights[k], b) {
      QuietStepKeepsWritten(c, s, l, k, b);
    }
    QuietStepKeepsDeletes(c, s, l, b);
    hide Step;
  }

  lemma QuietStepKeepsWritten(c: Config, s: State, l: Label, k: Key, b: Key)
    requires Enabled(c, s, l) && !l.Store? && !l.WriteIndex? && k in s.flights && HasWritten(s.flights[k], b)
    ensures k in Step(c, s, l).flights && HasWritten(Step(c, s, l).flights[k], b)
  {
    hide AnswerFlight, AnswerNegative;
  }

  lemma QuietStepKeepsDeletes(c: Config, s: State, l: Label, b: Key)
    requires Enabled(c, s, l) && !l.Store? && !l.WriteIndex? && (l.Delete? ==> l.key != b)
    ensures b in s.deletes ==> b in Step(c, s, l).deletes
    ensures b in Step(c, s, l).storage ==> b in s.storage
  {
    hide AnswerFlight, AnswerNegative;
  }

  lemma StoreCares(c: Config, s: State, l: Label, b: Key)
    requires c.VersionsApart() && Enabled(c, s, l) && l.Store? && b in Step(c, s, l).storage && c.kind(b) == Version
    requires c.kind(l.key) != Version && (b in s.storage ==> CaredFor(s, b))
    ensures CaredFor(Step(c, s, l), b)
  {
    var s', f := Step(c, s, l), s.flights[l.key];
    hide CopyBody, Remember;
    assert c.kind(c.versionKey(l.key, f.version)) == Version;
    if b in s.storage {
      if k :| k in s.flights && HasWritten(s.flights[k], b) {
        assert k in s'.flights && s'.flights[k] == s.flights[k];
      }
    } else {
      assert HasWritten(s'.flights[l.key], b);
    }
  }

  /** The index write hands the replaced version, or on failure its own, to the deleters. */
  lemma WriteCares(c: Config, s: State, l: Label, b: Key)
    requires Inv(c, s) && PriorsKnown(c, s) && Enabled(c, s, l) && l.WriteIndex? && b in s.storage && CaredFor(s, b)
    ensures CaredFor(Step(c, s, l), b)
  {
    var s', f := Step(c, s, l), s.flights[l.key];
    assert FlightSound(c, s, l.key, f) && PriorKnown(f, l.key in s.index);
    hide Inv;
    if k :| k in s.flights && HasWritten(s.flights[k], b) {
      WrittenCares(c, s, l, k, b);
    } else if k :| k in s.index && s.index[k].BytesKey() == b {
      NamedCares(c, s, l, k);
    } else {
      assert b in s'.deletes;
    }
  }

  lemma WrittenCares(c: Config, s: State, l: Label, k: Key, b: Key)
    requires Enabled(c, s, l) && l.WriteIndex? && k in s.flights && HasWritten(s.flights[k], b)
    ensures CaredFor(Step(c, s, l), b)
  {
    var s' := Step(c, s, l);
    if k == l.key {
      if !l.fault {
        assert s'.index[k].BytesKey() == b;
      }
    } else {
      assert k in s'.flights && s'.flights[k] == s.flights[k];
    }
  }

  lemma NamedCares(c: Config, s: State, l: Label, k: Key)
    requires Enabled(c, s, l) && l.WriteIndex? && k in s.index
    requires RecordsSound(c, s) && FlightSound(c, s, l.key, s.flights[l.key]) && PriorKnown(s.flights[l.key], l.key in s.index)
    ensures CaredFor(Step(c, s, l), s.index[k].BytesKey())
  {
    var s', f := Step(c, s, l), s.flights[l.key];
    if k != l.key || l.fault {
      assert s'.index[k] == s.index[k];
    } else if f.stored.None? {
      assert s'.index[k].BytesKey() == s.index[k].BytesKey();
    }
  }

  lemma StepLeavesNoOrphans(c: Config, s: State, l: Label)
    requires c.WellFormed() && Inv(c, s) && PriorsKnown(c, s) && NoOrphans(c, s) && Enabled(c, s, l) && Careful(c, s, l)
    ensures NoOrphans(c, Step(c, s, l))
  {
    LabelFacts(c, s, l);
    hide Inv, Step, CaredFor;
    forall b | b in Step(c, s, l).storage && c.kind(b) == Version ensures CaredFor(Step(c, s, l), b) {
      if l.Store? {
        StoreCares(c, s, l, b);
      } else if l.WriteIndex? {
        WriteLeavesStorage(c, s, l);
        WriteCares(c, s, l, b);
      } else {
        NotDeleted(c, s, l, b);
        QuietStepKeepsDeletes(c, s, l, b);
        QuietStepCares(c, s, l, b);
      }
    }
  }

  lemma WriteLeavesStorage(c: Config, s: State, l: Label)
    requires Enabled(c, s, l) && l.WriteIndex?
    ensures Step(c, s, l).storage == s.storage
  {
  }

  lemma NotDeleted(c: Config, s: State, l: Label, b: Key)
    requires Enabled(c, s, l) && Careful(c, s, l) && b in Step(c, s, l).storage
    ensures l.Delete? ==> l.key != b
  {
  }

  /** As long as deletions succeed and a flight can read the record that it is about to
      replace, no stored version is ever forgotten: it is some record's, it is about to
      be recorded, or its deletion is pending. */
  lemma {:induction false} VersionsNeverForgotten(c: Config, states: seq<State>, labels: seq<Label>, i: nat)
    requires c.WellFormed() && Run(c, states, labels) && i < |states| && NoOrphans(c, states[0])
    requires forall n :: 0 <= n < i ==> Careful(c, states[n], labels[n])
    ensures NoOrphans(c, states[i]) && PriorsKnown(c, states[i])
  {
    hide Step, Inv, NoOrphans, PriorsKnown, Careful;
    if i > 0 {
      VersionsNeverForgotten(c, states, labels, i - 1);
      IndexAlwaysBacked(c, states, labels, i - 1);
      StepLeavesNoOrphans(c, states[i - 1], labels[i - 1]);
      StepKeepsPriors(c, states[i - 1], labels[i - 1]);
    } else {
      NoFlightsYet(c, states[0]);
    }
  }

  lemma NoFlightsYet(c: Config, s: State)
    requires Init(c, s)
    ensures PriorsKnown(c, s)
  {
  }

  /** The second proviso is needed. A flight whose double check could not read the index takes
      the key for a new one; when it records its version, the old one is left behind with
      nobody to delete it, and that is so exactly if the flight knows of no record. */
  lemma ReplacedForgottenExactly(c: Config, s: State, k: Key)
    requires c.WellFormed() && Inv(c, s) && k in s.flights && s.flights[k].Recording? && s.flights[k].stored.Some? && k in s.index
    ensures var b, s' := s.index[k].BytesKey(), WriteRecord(s, k, false);
      b in s'.storage && (CaredFor(s', b) <==> s.flights[k].prior.Some?)
  {
    var b, s', f := s.index[k].BytesKey(), WriteRecord(s, k, false), s.flights[k];
    RecordingFacts(c, s, k);
    BlobKeyFacts(c, s, k);
    assert FlightSound(c, s, k, f);
    RecordedIsSpent(c, s, k);
    if f.prior.None? {
      forall k' | k' in s'.flights ensures !HasWritten(s'.flights[k'], b) {
        if k' != k {
          assert FlightAvoids(c, k', s.flights[k'], b);
        }
      }
    }
  }

  // ---- restarts ----

  ghost predicate VersionOf(b: Key, nonce: nat) {
    exists k: Key, n: nat :: n > 0 && b == VersionedKey(nonce, k, n)
  }

  /** Every stored version was written by a run with one of the nonces. */
  ghost predicate WrittenBy(c: Config, storage: map<Key, Bytes>, nonces: set<nat>) {
    forall b :: b in storage && c.kind(b) == Version ==> exists m :: m in nonces && VersionOf(b, m)
  }

  lemma StepKeepsWrittenBy(c: Config, nonce: nat, nonces: set<nat>, s: State, l: Label)
    requires UsesNonce(c, nonce) && nonce in nonces
    requires WrittenBy(c, s.storage, nonces) && Enabled(c, s, l)
    requires l.Store? ==> c.kind(l.key) != Version && (c.kind(l.key) == Mutable ==> s.flights[l.key].version > 0)
    ensures WrittenBy(c, Step(c, s, l).storage, nonces)
  {
    hide CopyBody, Remember, Committed, AnswerFlight, AnswerNegative, StoreError;
    if l.Store? && c.kind(l.key) == Mutable {
      var version := s.flights[l.key].version;
      assert c.versionKey(l.key, version) == VersionedKey(nonce, l.key, version);
      assert VersionOf(c.versionKey(l.key, version), nonce);
    }
  }

  lemma {:induction false} RunKeepsWrittenBy(
      c: Config, nonce: nat, nonces: set<nat>, states: seq<State>, labels: seq<Label>, i: nat)
    requires c.WellFormed() && UsesNonce(c, nonce) && nonce in nonces
    requires Run(c, states, labels) && i < |states| && WrittenBy(c, states[0].storage, nonces)
    ensures WrittenBy(c, states[i].storage, nonces)
  {
    hide Step, Inv, WrittenBy;
    if i > 0 {
      RunKeepsWrittenBy(c, nonce, nonces, states, labels, i - 1);
      IndexAlwaysBacked(c, states, labels, i - 1);
      LabelFacts(c, states[i - 1], labels[i - 1]);
      StepKeepsWrittenBy(c, nonce, nonces, states[i - 1], labels[i - 1]);
    }
  }

  /** What a crash leaves: the stores. */
  function Restarted(s: State): State {
    State(s.storage, s.index, map[], 0, map[], multiset{}, [])
  }

  lemma NewNonceUnused(c: Config, nonce: nat, nonces: set<nat>, s: State)
    requires c.VersionsApart() && UsesNonce(c, nonce) && RecordsSound(c, s) && WrittenBy(c, s.storage, nonces)
    requires forall m :: m in nonces ==> m != nonce && !Entangled(m, nonce)
    ensures FutureVersionsUnused(c, Restarted(s))
  {
    hide Entangled, VersionedKey;
    forall k: Key, n: nat | n > 0 ensures Unused(Restarted(s), c.versionKey(k, n)) {
      var b := c.versionKey(k, n);
      if b in s.storage {
        var m :| m in nonces && VersionOf(b, m);
        var k', n' :| n' > 0 && b == VersionedKey(m, k', n');
        assert CollideAt(m, k', n', nonce, k, n);
        CollisionExactly(m, nonce);
      }
      assert b !in s.storage;
      forall k' | k' in s.index ensures s.index[k'].BytesKey() != b {
        assert HasBlob(s, s.index[k']);
      }
    }
  }

  /** A process may be killed in any state: its successor starts from a sound state, as
      long as its nonce is new and cannot build a version key of an earlier one. */
  lemma CrashLeavesSoundStart(
      c: Config, nonce: nat, nonces: set<nat>, states: seq<State>, labels: seq<Label>, i: nat, c': Config, nonce': nat)
    requires c.WellFormed() && UsesNonce(c, nonce) && nonce in nonces
    requires Run(c, states, labels) && i < |states| && WrittenBy(c, states[0].storage, nonces)
    requires c'.WellFormed() && UsesNonce(c', nonce') && c'.kind == c.kind
    requires forall m :: m in nonces ==> m != nonce' && !Entangled(m, nonce')
    ensures Init(c', Restarted(states[i])) && WrittenBy(c', Restarted(states[i]).storage, nonces + {nonce'})
  {
    RunKeepsWrittenBy(c, nonce, nonces, states, labels, i);
    IndexAlwaysBacked(c, states, labels, i);
    var s := states[i];
    RecordsSurvive(c, s, c');
    NewNonceUnused(c', nonce', nonces, s);
    forall b | b in s.storage && c'.kind(b) == Version ensures exists m :: m in nonces + {nonce'} && VersionOf(b, m) {
      var m :| m in nonces && VersionOf(b, m);
      assert m in nonces + {nonce'};
    }
  }

  lemma RecordsSurvive(c: Config, s: State, c': Config)
    requires Inv(c, s) && c'.kind == c.kind
    ensures RecordsSound(c', s) && RecordsSound(c', Restarted(s)) && BlobsUnshared(Restarted(s))
  {
    forall k | k in s.index ensures HasBlob(Restarted(s), s.index[k]) {
      assert HasBlob(s, s.index[k]);
    }
  }
}
