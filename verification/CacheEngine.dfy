/** The cache engine as one caller drives it, while other callers, deleters and evicters
    take any number of steps of the cache machine between its own. */
module CacheEngine {
  import opened Text
  import opened CacheModel
  import opened CacheRuns

  /** What the environment contributes to one call: what fails, what upstream answers,
      what the clock shows at each reading, and what others do at the n-th point at
      which the call is interrupted. */
  datatype World = World(
    readFault: bool,             // index read before the flight
    statFault: bool,             // Stat before the flight
    lookFault: bool,             // index read or Stat inside the flight
    reply: Option<Response>,     // None: the request itself failed
    sum: Checksum,
    faults: StoreFaults,
    writeFault: bool,            // index write
    reloadFault: bool,           // index read after a flight that had nothing to do
    finalFault: bool,            // last Stat
    now: int, negativeNow: int, lookNow: int, replyNow: int, storeNow: int,
    others: nat -> seq<Label>)
  {
    ghost predicate Alone() {
      forall n: nat :: others(n) == []
    }
  }

  /** X-Cache and the record whose bytes the caller gets. Waiting: the joined flight is
      still under way. */
  datatype Served =
    | Hit(record: Record)
    | Miss(record: Record)
    | StaleHit(record: Record, cause: Error)
    | Refused(error: Error)
    | Waiting

  /** The same for an immutable object, which has no record. */
  datatype Found = Cached | Downloaded | Lost(error: Error) | Pending

  /** What a prefetch reports: bytes of an object that was here, that was downloaded, or
      whose stale copy has to do. */
  datatype Prefetched =
    | Warm(bytes: nat)
    | Got(bytes: nat)
    | StaleCopy(bytes: nat)
    | NotFetched(error: Error)
    | InProgress

  /** How a call came by its answer. The numbers are positions in the run: of the state
      that was asked, of the beginning, the double check and the end of a flight. */
  datatype Via =
    | Direct
    | Remembered(asked: nat, error: Error)
    | Own(begun: nat, seen: nat, after: nat, outcome: Outcome)
    | Joined(after: nat, outcome: Outcome)
    | Joining

  // ---- what others may do ----

  /** While a flight is under way others neither move it nor touch its key's record or
      the version it has stored. */
  ghost predicate Rely(s: State, s': State, k: Key) {
    && s.seqNo <= s'.seqNo
    && (k in s.flights ==>
          && k in s'.flights && s'.flights[k] == s.flights[k] && Entry(s'.index, k) == Entry(s.index, k)
          && (s.flights[k].Recording? ==> SameBlob(s.storage, s'.storage, s.flights[k].record.BytesKey())))
  }

  ghost predicate SameBlob(storage: map<Key, Bytes>, storage': map<Key, Bytes>, b: Key) {
    b in storage && b in storage' && storage[b] == storage'[b]
  }

  lemma StepRelies(c: Config, s: State, l: Label, k: Key)
    requires c.WellFormed() && Inv(c, s) && Enabled(c, s, l) && !OfFlight(l, k)
    ensures Rely(s, Step(c, s, l), k)
  {
    hide Step;
    if k in s.flights && s.flights[k].Recording? {
      RecordingFacts(c, s, k);
      if l.Store? {
        WriteKeyFree(c, s, l.key);
        assert FlightAvoids(c, k, s.flights[k], WriteKey(c, l.key, s.flights[l.key].version));
      }
      hide Inv;
      OthersSpareBlob(c, s, l, s.flights[k].record.BytesKey());
    }
    OthersSpareFlight(c, s, l, k);
  }

  lemma OthersSpareBlob(c: Config, s: State, l: Label, b: Key)
    requires Enabled(c, s, l) && b in s.storage && b !in s.deletes && c.kind(b) != Immutable
    requires l.Store? ==> WriteKey(c, l.key, s.flights[l.key].version) != b
    ensures SameBlob(s.storage, Step(c, s, l).storage, b)
  {
    hide CopyBody, Remember, Committed, AnswerFlight, AnswerNegative, StoreError, WriteKey;
  }

  lemma RelyReflexive(c: Config, s: State, k: Key)
    requires c.WellFormed() && Inv(c, s)
    ensures Rely(s, s, k)
  {
    if k in s.flights && s.flights[k].Recording? {
      RecordingFacts(c, s, k);
    }
  }

  lemma RelyTransitive(s: State, s': State, s'': State, k: Key)
    requires Rely(s, s', k) && Rely(s', s'', k)
    ensures Rely(s, s'', k)
  {
  }

  // ---- how far a flight has come ----

  /** The record that the double check inside the flight saw, in the state `seen`. */
  function Seen(c: Config, seen: State, k: Key, w: World): Option<Record> {
    if c.kind(k) == Mutable && !w.lookFault then Entry(seen.index, k) else None
  }

  predicate Prolongs(w: World) {
    w.reply.Some? && w.reply.value.status == 304
  }

  /** Upstream sent a body of an acceptable announced length ... */
  predicate Version2xx(c: Config, w: World) {
    w.reply.Some? && 200 <= w.reply.value.status < 300 && !(0 < c.maxObjectSize < w.reply.value.length)
  }

  /** ... and the body passed every check and was committed. */
  predicate StoredVersion(c: Config, w: World) {
    Version2xx(c, w) && !w.faults.put && !w.faults.commit && w.faults.copy.Clean? && Accepted(c, w.reply.value, w.sum)
  }

  /** The double check inside the flight finds the object usable. */
  ghost predicate FoundFresh(c: Config, seen: State, k: Key, w: World) {
    !w.lookFault && if c.kind(k) == Mutable then k in seen.index && !seen.index[k].Expired(w.lookNow) else k in seen.storage
  }

  /** What upstream and the stores have to contribute for a fetch to succeed. */
  predicate Succeeds(c: Config, k: Key, w: World, prior: Option<Record>) {
    || (prior.Some? && Prolongs(w) && !w.writeFault)
    || (StoredVersion(c, w) && (c.kind(k) == Mutable ==> !w.writeFault))
  }

  /** The body is read while the medium works. */
  predicate Transfers(c: Config, w: World) {
    Version2xx(c, w) && !w.faults.put && !w.faults.copy.MediumFails?
  }

  /** What a failure is blamed on, told from the response and the faults alone; `prior` is
      the record that was asked about. */
  ghost predicate Blamed(c: Config, k: Key, w: World, prior: Option<Record>, error: Error) {
    && (error == NotFound <==> w.reply.Some? && w.reply.value.status == 404)
    && (error == Upstream <==>
          || w.reply.None?
          || (w.reply.value.status != 404 && !(200 <= w.reply.value.status < 300) && !(w.reply.value.status == 304 && prior.Some?))
          || (Transfers(c, w) && BrokenOff(c, w.reply.value, w.faults.copy)))
    && (error == Mismatch <==>
          && Transfers(c, w) && w.faults.copy.Clean? && !BrokenOff(c, w.reply.value, w.faults.copy)
          && !Oversized(c, w.reply.value) && !SumFits(c, w.reply.value, w.sum))
    && (error == TooLarge <==>
          || (w.reply.Some? && 200 <= w.reply.value.status < 300 && 0 < c.maxObjectSize < w.reply.value.length)
          || (Transfers(c, w) && w.faults.copy.Clean? && Oversized(c, w.reply.value)))
    && (error == Unavailable <==>
          || (Version2xx(c, w) && !Transfers(c, w))
          || (Transfers(c, w) && w.faults.copy.Clean? && Accepted(c, w.reply.value, w.sum) && w.faults.commit))
    && (error == Failure <==> w.writeFault && ((prior.Some? && Prolongs(w)) || (c.kind(k) == Mutable && StoredVersion(c, w))))
    && !error.Stale?
  }

  /** Upstream is to blame exactly when it does not answer, answers with a status other than
      success, "not found" and "not modified" of a record, or sends a body that breaks off
      or is of the wrong length or checksum while the medium works. */
  lemma UpstreamBlamed(c: Config, k: Key, w: World, prior: Option<Record>, error: Error)
    requires Blamed(c, k, w, prior, error)
    ensures error.IsUpstream() <==>
      || w.reply.None?
      || (w.reply.value.status != 404 && !(200 <= w.reply.value.status < 300) && !(w.reply.value.status == 304 && prior.Some?))
      || (Transfers(c, w)
          && (BrokenOff(c, w.reply.value, w.faults.copy)
              || (w.faults.copy.Clean? && !Oversized(c, w.reply.value) && !SumFits(c, w.reply.value, w.sum))))
  {
  }

  ghost predicate AskingStage(c: Config, s: State, k: Key, w: World, seen: State) {
    && Inv(c, seen) && seen.seqNo <= s.seqNo && Entry(s.index, k) == Entry(seen.index, k) && !FoundFresh(c, seen, k, w)
    && k in s.flights && s.flights[k] == Asking(Seen(c, seen, k, w))
    && (Seen(c, seen, k, w).Some? ==> Seen(c, seen, k, w).value.Expired(w.lookNow))
  }

  ghost predicate WritingStage(c: Config, s: State, k: Key, w: World, seen: State) {
    && Inv(c, seen) && seen.seqNo <= s.seqNo && Entry(s.index, k) == Entry(seen.index, k) && !FoundFresh(c, seen, k, w)
    && k in s.flights && s.flights[k].Writing? && Version2xx(c, w)
    && s.flights[k].prior == Seen(c, seen, k, w) && s.flights[k].reply == w.reply.value
    && (c.kind(k) == Mutable ==> s.flights[k].version > seen.seqNo)
  }

  ghost predicate RecordingStage(c: Config, s: State, k: Key, w: World, seen: State) {
    && Inv(c, seen) && Entry(s.index, k) == Entry(seen.index, k) && !FoundFresh(c, seen, k, w)
    && k in s.flights && s.flights[k].Recording? && c.kind(k) == Mutable
    && var Recording(prior, record, stored) := s.flights[k];
       && prior == Seen(c, seen, k, w)
       && match stored
          case None => prior.Some? && prior.value.Expired(w.lookNow) && Prolongs(w)
                       && record == Prolonged(c, prior.value, w.reply.value, w.replyNow)
          case Some(version) =>
            && StoredVersion(c, w) && version > seen.seqNo
            && record == NewRecord(c, k, version, w.reply.value, |w.reply.value.body|, w.storeNow)
            && record.BytesKey() in s.storage && s.storage[record.BytesKey()] == w.reply.value.body
  }

  /** What the flight of a key achieved between its double check and its end. */
  ghost predicate FlightEffect(c: Config, k: Key, w: World, seen: State, s: State, outcome: Outcome) {
    && (outcome.Fresh? <==> FoundFresh(c, seen, k, w))
    && (outcome.Fetched? <==> !FoundFresh(c, seen, k, w) && Succeeds(c, k, w, Seen(c, seen, k, w)))
    && match outcome
    case Fresh => Entry(s.index, k) == Entry(seen.index, k)
    case Failed(error) =>
      && Entry(s.index, k) == Entry(seen.index, k)
      && Blamed(c, k, w, Seen(c, seen, k, w), error)
    case Fetched(record, true) =>
      var prior := Seen(c, seen, k, w);
      && prior.Some? && prior.value.Expired(w.lookNow) && Prolongs(w) && !w.writeFault
      && record.key == prior.value.key && record.storageKey == prior.value.storageKey && record.size == prior.value.size
      && record.contentType == prior.value.contentType
      && record.etag == (if w.reply.value.etag == "" then prior.value.etag else w.reply.value.etag)
      && record.lastModified == (if w.reply.value.lastModified.None? then prior.value.lastModified else w.reply.value.lastModified)
      && record.expiresAt == Some(w.replyNow + c.ttl(prior.value.key))
      && Entry(s.index, k) == Some(record)
    case Fetched(record, false) =>
      && StoredVersion(c, w) && record.key == k && record.size == |w.reply.value.body|
      && record.etag == w.reply.value.etag && record.contentType == w.reply.value.contentType
      && record.lastModified == w.reply.value.lastModified
      && record.BytesKey() in s.storage && s.storage[record.BytesKey()] == w.reply.value.body
      && (c.kind(k) != Mutable ==> record.BytesKey() == k && Entry(s.index, k) == Entry(seen.index, k))
      && (c.kind(k) == Mutable ==>
            && !w.writeFault && record.expiresAt == Some(w.storeNow + c.ttl(k))
            && Entry(s.index, k) == Some(record) && record.BytesKey() !in seen.storage
            && Replaced(s, Seen(c, seen, k, w)))
  }

  /** The replaced version awaits its deletion and can still be read. */
  ghost predicate Replaced(s: State, prior: Option<Record>) {
    prior.Some? ==> prior.value.BytesKey() in s.deletes && prior.value.BytesKey() in s.storage
  }

  /** The flight is over, with the effect it should have. */
  ghost predicate Ended(c: Config, s: State, k: Key, w: World, seen: State) {
    k in s.flights && s.flights[k].Done? && FlightEffect(c, k, w, seen, s, s.flights[k].outcome)
  }

  lemma StagesStay(c: Config, s: State, s': State, k: Key, w: World, seen: State)
    requires Rely(s, s', k)
    ensures AskingStage(c, s, k, w, seen) ==> AskingStage(c, s', k, w, seen)
    ensures WritingStage(c, s, k, w, seen) ==> WritingStage(c, s', k, w, seen)
    ensures RecordingStage(c, s, k, w, seen) ==> RecordingStage(c, s', k, w, seen)
  {
    hide Inv, NewRecord, Prolonged, StoredVersion;
  }

  lemma AnswerAdvances(c: Config, s: State, k: Key, w: World, seen: State, victim: Key)
    requires AskingStage(c, s, k, w, seen)
    ensures var s' := TakeAnswer(c, s, k, w.reply, w.replyNow, victim);
      WritingStage(c, s', k, w, seen) || RecordingStage(c, s', k, w, seen) || Ended(c, s', k, w, seen)
  {
    hide Inv, Remember, Prolonged, AnswerNegative;
  }

  lemma StoreAdvances(c: Config, s: State, k: Key, w: World, seen: State, victim: Key)
    requires c.VersionsApart() && WritingStage(c, s, k, w, seen) && c.kind(k) != Version
    ensures var s' := StoreBody(c, s, k, w.sum, w.faults, w.storeNow, victim);
      RecordingStage(c, s', k, w, seen) || Ended(c, s', k, w, seen)
  {
    StoredBodyAccepted(c, w.reply.value, w.sum, w.faults);
    if StoreError(CopyBody(c, w.reply.value, w.sum, w.faults.copy), w.faults).Some? {
      StoreFails(c, s, k, w, seen, victim);
    } else {
      hide Inv, CopyBody, Accepted, Remember, Blamed;
    }
  }

  lemma StoreFails(c: Config, s: State, k: Key, w: World, seen: State, victim: Key)
    requires WritingStage(c, s, k, w, seen)
    requires StoreError(CopyBody(c, w.reply.value, w.sum, w.faults.copy), w.faults).Some?
    ensures Ended(c, StoreBody(c, s, k, w.sum, w.faults, w.storeNow, victim), k, w, seen)
  {
    StoreBlames(c, k, w, Seen(c, seen, k, w));
    StoredBodyAccepted(c, w.reply.value, w.sum, w.faults);
    hide Inv, CopyBody, Accepted, Remember, Blamed, StoreError, Committed, WriteKey;
  }

  lemma StoreBlames(c: Config, k: Key, w: World, prior: Option<Record>)
    requires Version2xx(c, w)
    ensures var error := StoreError(CopyBody(c, w.reply.value, w.sum, w.faults.copy), w.faults);
      error.Some? ==> Blamed(c, k, w, prior, error.value)
  {
    CopyBodyBlames(c, w.reply.value, w.sum, w.faults.copy);
    CopyBodyAccepts(c, w.reply.value, w.sum, w.faults.copy);
    hide CopyBody, Accepted, BrokenOff, Oversized, SumFits;
  }

  lemma VersionNew(c: Config, seen: State, k: Key, version: nat)
    requires Inv(c, seen) && version > seen.seqNo
    ensures c.versionKey(k, version) !in seen.storage
  {
    assert Unused(seen, c.versionKey(k, version));
  }

  lemma PriorStored(c: Config, s: State, k: Key)
    requires Inv(c, s) && k in s.flights && s.flights[k].Recording? && s.flights[k].prior.Some?
    ensures s.flights[k].prior.value.BytesKey() in s.storage
  {
    assert FlightSound(c, s, k, s.flights[k]);
    assert HasBlob(s, s.index[k]);
  }

  lemma WriteAdvances(c: Config, s: State, k: Key, w: World, seen: State)
    requires c.VersionsApart() && RecordingStage(c, s, k, w, seen)
    requires s.flights[k].prior.Some? ==> s.flights[k].prior.value.BytesKey() in s.storage
    ensures Ended(c, WriteRecord(s, k, w.writeFault), k, w, seen)
  {
    if w.writeFault {
      WriteFails(c, s, k, w, seen);
    } else if s.flights[k].stored.Some? {
      VersionNew(c, seen, k, s.flights[k].stored.value);
      VersionWritten(c, s, k, w, seen);
    } else {
      ProlongedWritten(c, s, k, w, seen);
    }
  }

  lemma WriteFails(c: Config, s: State, k: Key, w: World, seen: State)
    requires RecordingStage(c, s, k, w, seen) && w.writeFault
    ensures Ended(c, WriteRecord(s, k, true), k, w, seen)
  {
    hide Inv, Prolonged, NewRecord;
  }

  lemma ProlongedWritten(c: Config, s: State, k: Key, w: World, seen: State)
    requires RecordingStage(c, s, k, w, seen) && !w.writeFault && s.flights[k].stored.None?
    ensures Ended(c, WriteRecord(s, k, false), k, w, seen)
  {
    hide Inv;
  }

  lemma VersionWritten(c: Config, s: State, k: Key, w: World, seen: State)
    requires c.VersionsApart() && RecordingStage(c, s, k, w, seen) && !w.writeFault && s.flights[k].stored.Some?
    requires s.flights[k].prior.Some? ==> s.flights[k].prior.value.BytesKey() in s.storage
    requires c.versionKey(k, s.flights[k].stored.value) !in seen.storage
    ensures Ended(c, WriteRecord(s, k, false), k, w, seen)
  {
    hide Inv, StoredVersion;
  }

  /** What the caller that ran the flight of a mutable object knows of its outcome. */
  lemma EffectFacts(c: Config, k: Key, w: World, seen: State, s: State, outcome: Outcome)
    requires FlightEffect(c, k, w, seen, s, outcome) && c.kind(k) == Mutable
    ensures outcome.Fetched? ==> Entry(s.index, k) == Some(outcome.record)
    ensures w.reply.Some? && w.reply.value.status == 404 && !outcome.Fresh? ==> outcome == Failed(NotFound)
  {
  }

  lemma LookAdvances(c: Config, s: State, k: Key, w: World)
    requires Inv(c, s) && k in s.flights && s.flights[k].Started?
    ensures var s' := LookUp(c, s, k, w.lookNow, w.lookFault);
      AskingStage(c, s', k, w, s) || Ended(c, s', k, w, s)
  {
    hide Inv;
  }

  lemma RecordBacked(c: Config, s: State, k: Key)
    requires Inv(c, s) && k in s.index
    ensures s.index[k].BytesKey() in s.storage
  {
    assert HasBlob(s, s.index[k]);
  }

  lemma FetchedRecorded(c: Config, s: State, k: Key, record: Record, revalidated: bool)
    requires Inv(c, s) && k in s.flights && s.flights[k] == Done(Fetched(record, revalidated)) && c.kind(k) == Mutable
    ensures Entry(s.index, k) == Some(record)
  {
    assert FlightSound(c, s, k, s.flights[k]);
  }

  // ---- the outcome of a call ----

  /** staleServeMeta: only a failure of upstream may be covered by the replaced copy. */
  predicate StaleAllowed(c: Config, cause: Error, prior: Option<Record>, storage: map<Key, Bytes>, fault: bool) {
    prior.Some? && c.staleIfError && cause.IsUpstream() && !fault && prior.value.BytesKey() in storage
  }

  /** What a caller of the mutable path may conclude from the answer. `at` is the state in
      which the served record was the key's record, `s` the state of the last Stat. */
  ghost predicate Outcomes(c: Config, k: Key, w: World, served: Served, via: Via, prior: Option<Record>, at: State, s: State) {
    match served
    case Hit(r) =>
      && Entry(at.index, k) == Some(r) && r.BytesKey() in s.storage
      && (if via.Direct? then !r.Expired(w.now)
          else FlightSucceeded(via) && (via.outcome.Fresh? || via.outcome == Fetched(r, true)))
    case Miss(r) =>
      && Entry(at.index, k) == Some(r) && r.BytesKey() in s.storage
      && FlightSucceeded(via) && via.outcome == Fetched(r, false)
    case StaleHit(r, cause) =>
      && Entry(at.index, k) == Some(r) && prior == Some(r) && FailedWith(via, cause)
      && StaleAllowed(c, cause, prior, s.storage, w.finalFault)
    case Refused(error) =>
      if via.Remembered? || FlightFailed(via) then
        FailedWith(via, error) && !StaleAllowed(c, error, prior, s.storage, w.finalFault)
      else
        && FlightSucceeded(via)
        && if via.outcome.Fetched? then
             && (w.finalFault || via.outcome.record.BytesKey() !in s.storage)
             && error == if w.finalFault then Unavailable else NotFound
           else
             && (w.reloadFault || w.finalFault || k !in at.index || at.index[k].BytesKey() !in s.storage)
             && error == if w.reloadFault then Failure else if w.finalFault && k in at.index then Unavailable else NotFound
    case Waiting => via.Joining? && k in s.flights
  }

  ghost predicate FlightSucceeded(via: Via) {
    (via.Own? || via.Joined?) && !via.outcome.Failed?
  }

  ghost predicate FlightFailed(via: Via) {
    (via.Own? && via.outcome.Failed?) || (via.Joined? && via.outcome.Failed?)
  }

  ghost predicate FailedWith(via: Via, error: Error) {
    (via.Remembered? && via.error == error) || (FlightFailed(via) && via.outcome == Failed(error))
  }

  lemma FailedOutcome(c: Config, k: Key, w: World, served: Served, via: Via, prior: Option<Record>, at: State, s: State)
    requires FlightFailed(via) && (prior.Some? ==> Entry(at.index, k) == prior)
    requires var e := via.outcome.error;
      served == if StaleAllowed(c, e, prior, s.storage, w.finalFault) then StaleHit(prior.value, e) else Refused(e)
    ensures Outcomes(c, k, w, served, via, prior, at, s)
  {
  }

  lemma FreshOutcome(c: Config, k: Key, w: World, served: Served, via: Via, prior: Option<Record>, at: State, s: State)
    requires (via.Own? || via.Joined?) && via.outcome.Fresh?
    requires served.Refused? || (served.Hit? && Entry(at.index, k) == Some(served.record) && served.record.BytesKey() in s.storage)
    requires served.Hit? <==> !w.reloadFault && k in at.index && !w.finalFault && at.index[k].BytesKey() in s.storage
    requires served.Refused? ==>
      served.error == if w.reloadFault then Failure else if w.finalFault && k in at.index then Unavailable else NotFound
    ensures Outcomes(c, k, w, served, via, prior, at, s)
  {
  }

  lemma FetchedOutcome(c: Config, k: Key, w: World, served: Served, via: Via, prior: Option<Record>, at: State, s: State)
    requires (via.Own? || via.Joined?) && via.outcome.Fetched? && Entry(at.index, k) == Some(via.outcome.record)
    requires var record := via.outcome.record;
      served == if !w.finalFault && record.BytesKey() in s.storage
                then (if via.outcome.revalidated then Hit(record) else Miss(record))
                else Refused(if w.finalFault then Unavailable else NotFound)
    ensures Outcomes(c, k, w, served, via, prior, at, s)
  {
  }

  /** A 404 is reported as such, whatever copy is at hand and whoever ran the flight. */
  lemma NeverMasked(c: Config, k: Key, w: World, served: Served, via: Via, prior: Option<Record>, at: State, s: State)
    requires Outcomes(c, k, w, served, via, prior, at, s) && FailedWith(via, NotFound)
    ensures served == Refused(NotFound)
  {
  }

  // ---- what the run says about an answer ----

  /** The run contains the flight that the caller ran, and it had this effect; up to its
      double check it left the record alone. */
  ghost predicate Flew(c: Config, h: History, k: Key, w: World, via: Via) {
    && via.Own? && via.begun < via.seen < via.after < |h.labels| && via.after < |h.states|
    && h.labels[via.begun] == Begin(k) && h.labels[via.seen] == Look(k, w.lookNow, w.lookFault)
    && h.labels[via.after] == Finish(k) && EndedAs(h.states[via.after], k, via.outcome)
    && Entry(h.states[via.seen].index, k) == Entry(h.states[via.begun].index, k)
    && FlightEffect(c, k, w, h.states[via.seen], h.states[via.after], via.outcome)
  }

  ghost predicate EndedAs(s: State, k: Key, outcome: Outcome) {
    k in s.flights && s.flights[k] == Done(outcome)
  }

  predicate Remembers(negative: map<Key, Negative>, k: Key, now: int, error: Error) {
    k in negative && now < negative[k].until && negative[k].error == error
  }

  /** In the run from position `from` on happened what the answer is put down to. */
  ghost predicate Happened(c: Config, h: History, from: nat, k: Key, w: World, via: Via) {
    match via
    case Remembered(asked, error) =>
      from <= asked < |h.states| && Remembers(h.states[asked].negative, k, w.negativeNow, error)
    case Own(begun, _, _, _) => from <= begun && Flew(c, h, k, w, via)
    case Joined(after, outcome) => from <= after < |h.states| && EndedAs(h.states[after], k, outcome)
    case _ => true
  }

  lemma HappenedStays(c: Config, h: History, h': History, from: nat, from': nat, k: Key, w: World, via: Via)
    requires Happened(c, h, from, k, w, via) && h'.Extends(h) && from' <= from
    ensures Happened(c, h', from', k, w, via)
  {
    hide FlightEffect;
  }

  ghost predicate EndsLike(s: State, s': State) {
    s'.storage == s.storage && s'.index == s.index
  }

  /** The call asked or began its flight in the state `s`, at position `from` of the run;
      an answer without a flight came in that state. */
  ghost predicate Prompt(h: History, from: nat, start: nat, via: Via, at: nat, s: State, s': State) {
    && (via.Own? ==> via.begun == from)
    && (via.Direct? || via.Remembered? ==> at == start && s' == s)
    && (via.Remembered? ==> via.asked == from)
  }

  /** Since the flight ended nothing has moved. */
  ghost predicate Settled(h: History, via: Via, at: nat, s: State) {
    via.Own? ==>
      && via.after < |h.states| && EndsLike(h.states[via.after], s)
      && (via.outcome.Fresh? ==> at < |h.states| && h.states[at].index == s.index)
  }

  /** The way a call takes that is not interrupted before it asks for a flight. */
  ghost predicate Route(c: Config, s: State, k: Key, w: World, via: Via) {
    var usable := !w.readFault && !w.statFault && k in s.index && !s.index[k].Expired(w.now);
    var remembered := k in s.negative && w.negativeNow < s.negative[k].until;
    && (via.Direct? <==> usable)
    && (via.Remembered? <==> !usable && remembered)
    && (via.Own? <==> !usable && !remembered && k !in s.flights)
  }

  lemma RecordStays(s: State, s': State, k: Key)
    requires Rely(s, s', k) && k in s.flights
    ensures Entry(s'.index, k) == Entry(s.index, k) && k in s'.flights && s'.flights[k] == s.flights[k]
  {
  }

  /** The steps of a call for a key, with what its world holds in store, and of others. */
  ghost predicate Expected(k: Key, w: World, l: Label) {
    || (exists n, i :: 0 <= i < |w.others(n)| && l == w.others(n)[i])
    || match l
       case Begin(k') => k' == k
       case Look(k', now, fault) => k' == k && now == w.lookNow && fault == w.lookFault
       case Answer(k', reply, now, _) => k' == k && reply == w.reply && now == w.replyNow
       case Store(k', sum, faults, now, _) => k' == k && sum == w.sum && faults == w.faults && now == w.storeNow
       case WriteIndex(k', fault) => k' == k && fault == w.writeFault
       case Finish(k') => k' == k
       case _ => false
  }

  /** From one position of the run to a later one nothing unexpected happened. */
  ghost predicate Onward(h: History, h': History, k: Key, w: World) {
    h'.Extends(h) && forall i :: |h.labels| <= i < |h'.labels| ==> Expected(k, w, h'.labels[i])
  }

  lemma AlsoExpected(k: Key, w: World, n: nat, l: Label)
    requires l in w.others(n)
    ensures Expected(k, w, l)
  {
  }

  lemma OnwardItself(h: History, k: Key, w: World)
    ensures Onward(h, h, k, w)
  {
  }

  /** What the past was it remains. */
  lemma OnwardFurther(h: History, h': History, h'': History, k: Key, w: World)
    requires Onward(h, h', k, w) && Onward(h', h'', k, w)
    ensures Onward(h, h'', k, w) && h'.Extends(h) && h''.Extends(h') && h''.Extends(h) && h.Now() <= h'.Now() <= h''.Now()
    ensures forall i :: 0 <= i < |h'.states| ==> i < |h''.states| && h''.states[i] == h'.states[i]
  {
    hide Expected;
    forall i | |h.labels| <= i < |h''.labels| ensures Expected(k, w, h''.labels[i]) {
      if i < |h'.labels| {
        assert h''.labels[i] == h'.labels[i];
      }
    }
  }

  lemma OwnStep(c: Config, h: History, l: Label, k: Key, w: World)
    requires |h.states| == |h.labels| + 1 && Enabled(c, h.states[h.Now()], l) && Expected(k, w, l)
    ensures Onward(h, h.Then(c, l), k, w)
  {
    hide Expected, Enabled, Step;
  }

  lemma CannotFinish(c: Config, s: State, l: Label, k: Key)
    requires k in s.flights && !s.flights[k].Done? && Enabled(c, s, l)
    ensures l != Finish(k)
  {
  }

  /** In the run the flight of the key began at one position and looked at another, and
      the record was the same at both. */
  ghost predicate Underway(h: History, begun: nat, seen: nat, k: Key, w: World) {
    && begun < seen < |h.labels| && seen < |h.states|
    && h.labels[begun] == Begin(k) && h.labels[seen] == Look(k, w.lookNow, w.lookFault)
    && Entry(h.states[seen].index, k) == Entry(h.states[begun].index, k)
  }

  lemma StartLogged(c: Config, h: History, first: History, second: History, h': History, k: Key, w: World)
    requires |h.states| == |h.labels| + 1 && |second.states| == |second.labels| + 1
    requires Enabled(c, h.states[h.Now()], Begin(k)) && first == h.Then(c, Begin(k))
    requires second.Extends(first) && Entry(second.states[second.Now()].index, k) == Entry(h.states[h.Now()].index, k)
    requires Enabled(c, second.states[second.Now()], Look(k, w.lookNow, w.lookFault))
    requires h' == second.Then(c, Look(k, w.lookNow, w.lookFault))
    ensures h'.Extends(h) && Underway(h', h.Now(), second.Now(), k, w)
    ensures h'.states[second.Now()] == second.states[second.Now()]
  {
    hide Step, Enabled;
    assert first.Extends(h) && h'.Extends(second);
  }

  lemma AskingOrEnded(c: Config, s: State, k: Key, w: World, seen: State)
    requires AskingStage(c, s, k, w, seen) || Ended(c, s, k, w, seen)
    ensures k in s.flights && (s.flights[k].Asking? || s.flights[k].Done?)
    ensures s.flights[k].Asking? ==> AskingStage(c, s, k, w, seen)
    ensures s.flights[k].Done? ==> Ended(c, s, k, w, seen)
  {
  }

  lemma FlightLogged(c: Config, h: History, started: History, ended: History, h': History, k: Key, w: World, via: Via)
    requires via.Own? && via.begun == h.Now() && via.after == ended.Now() && |ended.states| == |ended.labels| + 1
    requires started.Extends(h) && ended.Extends(started) && Underway(started, via.begun, via.seen, k, w)
    requires var s := ended.states[ended.Now()];
      && Enabled(c, s, Finish(k)) && EndedAs(s, k, via.outcome)
      && FlightEffect(c, k, w, started.states[via.seen], s, via.outcome)
    requires h' == ended.Then(c, Finish(k))
    ensures h'.Extends(h) && Flew(c, h', k, w, via)
    ensures h'.states[via.seen] == started.states[via.seen] && h'.states[via.after] == ended.states[via.after]
    ensures h.Now() < |h.states| ==> h'.states[h.Now()] == h.states[h.Now()]
  {
    hide FlightEffect, Enabled, Step;
    assert h'.Extends(ended);
  }

  /** ... and so is one that upstream gives to a flight that has to ask. */
  lemma NotFoundServed(
      c: Config, h: History, k: Key, w: World, served: Served, via: Via, prior: Option<Record>, at: State, s: State)
    requires Outcomes(c, k, w, served, via, prior, at, s) && Flew(c, h, k, w, via)
    requires w.reply.Some? && w.reply.value.status == 404 && c.kind(k) == Mutable
    ensures FoundFresh(c, h.states[via.seen], k, w) || served == Refused(NotFound)
  {
    hide Outcomes;
    if !via.outcome.Fresh? {
      EffectFacts(c, k, w, h.states[via.seen], h.states[via.after], via.outcome);
      NeverMasked(c, k, w, served, via, prior, at, s);
    }
  }

  /** A flight that ends in a failure has left the record as it was when it began. */
  lemma FailureLeavesRecord(c: Config, h: History, k: Key, w: World, via: Via)
    requires Flew(c, h, k, w, via)
    ensures via.outcome.Failed? ==> Entry(h.states[via.after].index, k) == Entry(h.states[via.begun].index, k)
  {
  }

  // ---- calls that nobody interrupts ----

  /** The facts that an undisturbed call of the mutable path leaves about its answer: it
      met the key in the state `s`, and ended in the state `s'`. */
  ghost predicate AnsweredAlone(
      c: Config, s: State, h: History, from: nat, k: Key, w: World,
      served: Served, via: Via, prior: Option<Record>, at: nat, s': State) {
    && c.kind(k) == Mutable && Inv(c, s) && Inv(c, s') && k !in s.flights && from < |h.states| && h.states[from] == s && at < |h.states|
    && Outcomes(c, k, w, served, via, prior, h.states[at], s') && Happened(c, h, from, k, w, via) && Route(c, s, k, w, via)
    && Prompt(h, from, from, via, at, s, s') && Settled(h, via, at, s')
    && (via.Own? ==> via.seen < |h.states|)
    && prior == if via.Own? then Seen(c, h.states[via.seen], k, w) else if w.readFault then None else Entry(s.index, k)
  }

  /** A record within its lifetime is served at once. */
  lemma HitAlone(
      c: Config, s: State, h: History, from: nat, k: Key, w: World,
      served: Served, via: Via, prior: Option<Record>, at: nat, s': State)
    requires AnsweredAlone(c, s, h, from, k, w, served, via, prior, at, s')
    requires !w.readFault && !w.statFault && k in s.index
    ensures s.index[k].expiresAt.None? || w.now < s.index[k].expiresAt.value ==> served == Hit(s.index[k])
    ensures s.index[k].expiresAt.Some? && s.index[k].expiresAt.value <= w.now ==> !via.Direct?
  {
  }

  /** While an error is remembered nobody asks upstream: it is answered, or the copy at hand
      if upstream was to blame. */
  lemma RememberedAlone(
      c: Config, s: State, h: History, from: nat, k: Key, w: World,
      served: Served, via: Via, prior: Option<Record>, at: nat, s': State)
    requires AnsweredAlone(c, s, h, from, k, w, served, via, prior, at, s') && !via.Direct?
    requires k in s.negative && w.negativeNow < s.negative[k].until
    ensures var e := s.negative[k].error;
      served == if (e == Upstream || e == Mismatch) && c.staleIfError && !w.readFault && k in s.index && !w.finalFault
                then StaleHit(s.index[k], e) else Refused(e)
  {
    if k in s.index {
      RecordBacked(c, s, k);
    }
  }

  /** The call has to ask upstream: no usable record, no remembered error, and nothing fresh
      at the double check. */
  ghost predicate Asks(s: State, k: Key, w: World) {
    && (w.readFault || w.statFault || k !in s.index || (s.index[k].expiresAt.Some? && s.index[k].expiresAt.value <= w.now))
    && (k in s.negative ==> s.negative[k].until <= w.negativeNow)
    && (w.lookFault || k !in s.index || (s.index[k].expiresAt.Some? && s.index[k].expiresAt.value <= w.lookNow))
  }

  /** The record that upstream is asked about. */
  function Asked(s: State, k: Key, w: World): Option<Record> {
    if w.lookFault || k !in s.index then None else Some(s.index[k])
  }

  /** Such a call runs its flight, on the record that it met, and nobody moves anything. */
  lemma FliesAlone(
      c: Config, s: State, h: History, from: nat, k: Key, w: World,
      served: Served, via: Via, prior: Option<Record>, at: nat, s': State)
    requires AnsweredAlone(c, s, h, from, k, w, served, via, prior, at, s') && Asks(s, k, w)
    ensures via.Own? && via.seen < |h.states| && prior == Asked(s, k, w)
    ensures via.after < |h.states| && EndsLike(h.states[via.after], s')
    ensures Seen(c, h.states[via.seen], k, w) == Asked(s, k, w) && !FoundFresh(c, h.states[via.seen], k, w)
    ensures Entry(h.states[via.seen].index, k) == Entry(s.index, k)
    ensures FlightEffect(c, k, w, h.states[via.seen], h.states[via.after], via.outcome)
  {
    hide Inv, FlightEffect, Outcomes;
  }

  lemma FailsAlone(
      c: Config, s: State, h: History, from: nat, k: Key, w: World,
      served: Served, via: Via, prior: Option<Record>, at: nat, s': State)
    requires AnsweredAlone(c, s, h, from, k, w, served, via, prior, at, s') && Asks(s, k, w)
    requires !Succeeds(c, k, w, Asked(s, k, w))
    ensures via.Own? && via.outcome.Failed? && Blamed(c, k, w, Asked(s, k, w), via.outcome.error)
    ensures Entry(s'.index, k) == Entry(s.index, k) && prior == Asked(s, k, w)
  {
    FliesAlone(c, s, h, from, k, w, served, via, prior, at, s');
    hide Inv, Outcomes, Blamed, AnsweredAlone;
  }

  lemma FailureServed(
      c: Config, k: Key, w: World, served: Served, via: Via, prior: Option<Record>, at: State, s: State)
    requires Outcomes(c, k, w, served, via, prior, at, s) && via.Own? && via.outcome.Failed?
    requires prior.Some? ==> prior.value.BytesKey() in s.storage
    ensures var e := via.outcome.error;
      served == if (e == Upstream || e == Mismatch) && c.staleIfError && prior.Some? && !w.finalFault
                then StaleHit(prior.value, e) else Refused(e)
  {
  }

  /** Whatever upstream is to blame for (no answer, a 5xx or another refusal, a body that
      breaks off or does not fit) is covered by the old copy, if there is one and the
      configuration says so; what upstream is not to blame for never is. */
  lemma StaleAlone(
      c: Config, s: State, h: History, from: nat, k: Key, w: World,
      served: Served, via: Via, prior: Option<Record>, at: nat, s': State)
    requires AnsweredAlone(c, s, h, from, k, w, served, via, prior, at, s') && Asks(s, k, w)
    requires !Succeeds(c, k, w, Asked(s, k, w))
    ensures via.Own? && via.outcome.Failed? && Blamed(c, k, w, Asked(s, k, w), via.outcome.error)
    ensures var e := via.outcome.error;
      served == if (e == Upstream || e == Mismatch) && c.staleIfError && !w.lookFault && k in s.index && !w.finalFault
                then StaleHit(s.index[k], e) else Refused(e)
  {
    FailsAlone(c, s, h, from, k, w, served, via, prior, at, s');
    if prior.Some? {
      RecordBacked(c, s', k);
    }
    hide Inv, Outcomes, Blamed;
    FailureServed(c, k, w, served, via, prior, h.states[at], s');
  }

  /** The two answers that the design names: after a 5xx the old copy, after a 404 never. */
  lemma StatusAlone(
      c: Config, s: State, h: History, from: nat, k: Key, w: World,
      served: Served, via: Via, prior: Option<Record>, at: nat, s': State)
    requires AnsweredAlone(c, s, h, from, k, w, served, via, prior, at, s') && Asks(s, k, w) && w.reply.Some?
    ensures w.reply.value.status >= 500 && c.staleIfError && !w.lookFault && k in s.index && !w.finalFault ==>
      served == StaleHit(s.index[k], Upstream)
    ensures w.reply.value.status == 404 ==> served == Refused(NotFound)
  {
    if w.reply.value.status >= 500 || w.reply.value.status == 404 {
      StaleAlone(c, s, h, from, k, w, served, via, prior, at, s');
      hide AnsweredAlone, Asks;
    }
  }

  /** With a success the caller gets the prolonged record, or the new version and its bytes. */
  lemma SuccessAlone(
      c: Config, s: State, h: History, from: nat, k: Key, w: World,
      served: Served, via: Via, prior: Option<Record>, at: nat, s': State)
    requires AnsweredAlone(c, s, h, from, k, w, served, via, prior, at, s') && Asks(s, k, w)
    requires Succeeds(c, k, w, Asked(s, k, w)) && !w.finalFault
    ensures k in s'.index
    ensures w.reply.Some? && w.reply.value.status == 304 ==>
      served == Hit(s'.index[k]) && s'.index[k].storageKey == s.index[k].storageKey
      && s'.index[k].expiresAt == Some(w.replyNow + c.ttl(s.index[k].key))
    ensures w.reply.Some? && w.reply.value.status != 304 ==>
      served == Miss(s'.index[k]) && s'.index[k].BytesKey() in s'.storage
      && s'.storage[s'.index[k].BytesKey()] == w.reply.value.body
      && s'.index[k].expiresAt == Some(w.storeNow + c.ttl(k))
  {
    FliesAlone(c, s, h, from, k, w, served, via, prior, at, s');
    SuccessFacts(c, k, w, h.states[via.seen], h.states[via.after], via.outcome);
    RecordBacked(c, s', k);
    SuccessServed(c, k, w, served, via, prior, h.states[at], s');
    hide Inv, FlightEffect, AnsweredAlone, FoundFresh, Outcomes, Succeeds;
  }

  lemma SuccessServed(c: Config, k: Key, w: World, served: Served, via: Via, prior: Option<Record>, at: State, s: State)
    requires Outcomes(c, k, w, served, via, prior, at, s) && via.Own? && via.outcome.Fetched? && !w.finalFault
    requires via.outcome.record.BytesKey() in s.storage
    ensures served == if via.outcome.revalidated then Hit(via.outcome.record) else Miss(via.outcome.record)
  {
  }

  lemma SuccessFacts(c: Config, k: Key, w: World, seen: State, s: State, outcome: Outcome)
    requires FlightEffect(c, k, w, seen, s, outcome) && c.kind(k) == Mutable
    requires !FoundFresh(c, seen, k, w) && Succeeds(c, k, w, Seen(c, seen, k, w))
    ensures outcome.Fetched? && k in s.index && s.index[k] == outcome.record
    ensures outcome.revalidated <==> w.reply.Some? && w.reply.value.status == 304
    ensures outcome.revalidated ==>
      && k in seen.index && outcome.record.storageKey == seen.index[k].storageKey
      && outcome.record.expiresAt == Some(w.replyNow + c.ttl(seen.index[k].key))
    ensures !outcome.revalidated ==>
      && outcome.record.BytesKey() in s.storage && s.storage[outcome.record.BytesKey()] == w.reply.value.body
      && outcome.record.expiresAt == Some(w.storeNow + c.ttl(k))
  {
    hide Accepted, Blamed;
  }

  class Engine {
    const c: Config
    var storage: map<Key, Bytes>
    var index: map<Key, Record>
    var negative: map<Key, Negative>
    var seqNo: nat
    var flights: map<Key, Flight>
    var deletes: multiset<Key>
    var commits: seq<Key>
    /** The run up to now, the steps of others included. */
    ghost var run: History

    function Abs(): State
      reads this
    {
      State(storage, index, negative, seqNo, flights, deletes, commits)
    }

    ghost predicate Valid()
      reads this
    {
      && c.WellFormed() && Inv(c, Abs())
      && run.Of(c) && |run.states| == run.Now() + 1 && run.states[run.Now()] == Abs()
    }

    /** The latest step enters the run. */
    ghost method Log(l: Label)
      requires c.WellFormed() && run.Of(c) && |run.states| == run.Now() + 1
      requires Enabled(c, run.states[run.Now()], l) && Abs() == Step(c, run.states[run.Now()], l)
      modifies this`run
      ensures Valid() && run == old(run).Then(c, l) && run.Extends(old(run))
    {
      RunGoesOn(c, run, l);
      hide Inv, Run, Step;
      run := run.Then(c, l);
    }

    /** New: a process over the stores that earlier ones left. */
    constructor (config: Config, stored: map<Key, Bytes>, records: map<Key, Record>)
      requires config.WellFormed() && Init(config, State(stored, records, map[], 0, map[], multiset{}, []))
      ensures Valid() && c == config && run.labels == [] && Abs() == State(stored, records, map[], 0, map[], multiset{}, [])
    {
      c, storage, index, negative, seqNo := config, stored, records, map[], 0;
      flights, deletes, commits := map[], multiset{}, [];
      run := History([State(stored, records, map[], 0, map[], multiset{}, [])], []);
    }

    // ---- the negative cache ----

    method NegativeError(k: Key, now: int) returns (e: Option<Error>)
      ensures e.Some? <==> k in negative && now < negative[k].until
      ensures e.Some? ==> e.value == negative[k].error
    {
      if k in negative && now < negative[k].until {
        return Some(negative[k].error);
      }
      return None;
    }

    method RememberNegative(k: Key, ttl: int, error: Error, now: int) returns (ghost victim: Key)
      modifies this`negative
      ensures VictimOk(old(negative), victim)
      ensures negative == Remember(old(negative), k, ttl, error, now, victim)
    {
      victim := SomeVictim();
      if ttl <= 0 {
        return;
      }
      if |negative| >= NEGATIVE_CAP {
        assert negative.Keys != {};
        var evicted :| evicted in negative;
        victim := evicted;
        negative := negative - {evicted};
      }
      negative := negative[k := Negative(now + ttl, error)];
    }

    lemma SomeVictim() returns (victim: Key)
      ensures VictimOk(negative, victim)
    {
      victim := "";
      if |negative| >= NEGATIVE_CAP {
        assert negative.Keys != {};
        victim :| victim in negative;
      }
    }

    // ---- the atomic steps of a flight ----

    method LookInside(k: Key, now: int, fault: bool)
      requires k in flights && flights[k].Started?
      modifies this`flights
      ensures Abs() == LookUp(c, old(Abs()), k, now, fault)
    {
      if c.kind(k) == Mutable {
        if !fault && k in index {
          if !index[k].Expired(now) {
            flights := flights[k := Done(Fresh)];
          } else {
            flights := flights[k := Asking(Some(index[k]))];
          }
        } else {
          flights := flights[k := Asking(None)];
        }
      } else if !fault && k in storage {
        flights := flights[k := Done(Fresh)];
      } else {
        flights := flights[k := Asking(None)];
      }
    }

    method TakeReply(k: Key, reply: Option<Response>, now: int) returns (ghost victim: Key)
      requires k in flights && flights[k].Asking?
      modifies this`flights, this`negative, this`seqNo
      ensures VictimOk(old(negative), victim)
      ensures Abs() == TakeAnswer(c, old(Abs()), k, reply, now, victim)
    {
      victim := SomeVictim();
      var prior := flights[k].prior;
      if reply.None? {
        flights := flights[k := Done(Failed(Upstream))];
        return;
      }
      var r := reply.value;
      if r.status == 304 && prior.Some? {
        flights := flights[k := Recording(prior, Prolonged(c, prior.value, r, now), None)];
        return;
      }
      if r.status == 404 {
        victim := RememberNegative(k, c.negativeTTL404, NotFound, now);
        flights := flights[k := Done(Failed(NotFound))];
        return;
      }
      if r.status >= 500 {
        victim := RememberNegative(k, c.negativeTTL5xx, Upstream, now);
        flights := flights[k := Done(Failed(Upstream))];
        return;
      }
      if r.status < 200 || r.status >= 300 {
        flights := flights[k := Done(Failed(Upstream))];
        return;
      }
      if 0 < c.maxObjectSize < r.length {
        flights := flights[k := Done(Failed(TooLarge))];
        return;
      }
      var version := 0;
      if c.kind(k) == Mutable {
        seqNo := seqNo + 1;
        version := seqNo;
      }
      flights := flights[k := Writing(prior, version, r)];
    }

    method StoreReply(k: Key, sum: Checksum, faults: StoreFaults, now: int) returns (ghost victim: Key)
      requires k in flights && flights[k].Writing?
      modifies this`flights, this`negative, this`storage, this`commits
      ensures VictimOk(old(negative), victim)
      ensures Abs() == StoreBody(c, old(Abs()), k, sum, faults, now, victim)
    {
      hide CopyBody;
      victim := SomeVictim();
      var f := flights[k];
      if faults.put {
        flights := flights[k := Done(Failed(Unavailable))];
        return;
      }
      var copied := CopyBody(c, f.reply, sum, faults.copy);
      if copied.CopyFailed? {
        if copied.error.Mismatch? {
          victim := RememberNegative(k, c.negativeTTL5xx, Mismatch, now);
        }
        flights := flights[k := Done(Failed(copied.error))];
        return;
      }
      if faults.commit {
        flights := flights[k := Done(Failed(Unavailable))];
        return;
      }
      storage := storage[WriteKey(c, k, f.version) := copied.bytes];
      var record := NewRecord(c, k, f.version, f.reply, |copied.bytes|, now);
      if c.kind(k) == Mutable {
        flights := flights[k := Recording(f.prior, record, Some(f.version))];
      } else {
        commits := commits + [k];
        flights := flights[k := Done(Fetched(record, false))];
      }
    }

    method WriteIndexRecord(k: Key, fault: bool)
      requires k in flights && flights[k].Recording?
      modifies this`flights, this`negative, this`index, this`deletes
      ensures Abs() == WriteRecord(old(Abs()), k, fault)
    {
      var f := flights[k];
      if fault {
        if f.stored.Some? {
          deletes := deletes + multiset{f.record.BytesKey()};
        }
        flights := flights[k := Done(Failed(Failure))];
      } else {
        index := index[k := f.record];
        if f.stored.Some? && f.prior.Some? {
          deletes := deletes + multiset{f.prior.value.BytesKey()};
        }
        negative := negative - {k};
        flights := flights[k := Done(Fetched(f.record, f.stored.None?))];
      }
    }

    // ---- interference ----

    /** A step of somebody else. */
    method Take(l: Label)
      requires Valid() && Enabled(c, Abs(), l)
      modifies this
      ensures Valid() && Abs() == Step(c, old(Abs()), l)
      ensures run == old(run).Then(c, l) && run.Extends(old(run))
    {
      hide Inv, Step, Run, Enabled;
      var s := Step(c, Abs(), l);
      storage, index, negative, seqNo := s.storage, s.index, s.negative, s.seqNo;
      flights, deletes, commits := s.flights, s.deletes, s.commits;
      Log(l);
    }

    /** Others take the scheduled steps that are possible; the flight of `mine` is not theirs. */
    method Others(schedule: seq<Label>, mine: Option<Key>)
      requires Valid()
      modifies this
      ensures Valid() && run.Extends(old(run))
      ensures mine.Some? ==> Rely(old(Abs()), Abs(), mine.value)
      ensures forall i :: |old(run).labels| <= i < |run.labels| ==> run.labels[i] in schedule
      ensures schedule == [] ==> Abs() == old(Abs()) && run == old(run)
    {
      hide Inv, Step, Rely, Run, Enabled;
      if mine.Some? {
        RelyReflexive(c, Abs(), mine.value);
      }
      for i := 0 to |schedule|
        invariant Valid() && run.Extends(old(run))
        invariant mine.Some? ==> Rely(old(Abs()), Abs(), mine.value)
        invariant forall j :: |old(run).labels| <= j < |run.labels| ==> run.labels[j] in schedule
        invariant schedule == [] ==> Abs() == old(Abs()) && run == old(run)
      {
        var l := schedule[i];
        if Enabled(c, Abs(), l) && (mine.Some? ==> !OfFlight(l, mine.value)) {
          ghost var before := Abs();
          if mine.Some? {
            StepRelies(c, Abs(), l, mine.value);
          }
          Take(l);
          if mine.Some? {
            RelyTransitive(old(Abs()), before, Abs(), mine.value);
          }
        }
      }
    }

    /** The call is interrupted for the n-th time. */
    method Pause(n: nat, mine: Option<Key>, k: Key, w: World)
      requires Valid()
      modifies this
      ensures Valid() && Onward(old(run), run, k, w)
      ensures mine.Some? ==> Rely(old(Abs()), Abs(), mine.value)
      ensures w.others(n) == [] ==> Abs() == old(Abs()) && run == old(run)
    {
      hide Inv, Run, Rely, Expected;
      Others(w.others(n), mine);
      forall i | |old(run).labels| <= i < |run.labels| ensures Expected(k, w, run.labels[i]) {
        AlsoExpected(k, w, n, run.labels[i]);
      }
    }

    // ---- the flight ----

    /** The call's own step enters the run. */
    ghost method Mark(l: Label, k: Key, w: World)
      requires c.WellFormed() && run.Of(c) && |run.states| == run.Now() + 1
      requires Enabled(c, run.states[run.Now()], l) && Abs() == Step(c, run.states[run.Now()], l) && Expected(k, w, l)
      modifies this`run
      ensures Valid() && run == old(run).Then(c, l) && Onward(old(run), run, k, w)
    {
      hide Inv, Run, Step, Expected, Enabled;
      OwnStep(c, run, l, k, w);
      Log(l);
    }

    /** fetchOnce: from the request to the record, others running between its steps. */
    method FetchOnce(k: Key, w: World, ghost seen: State)
      requires Valid() && c.kind(k) != Version && AskingStage(c, Abs(), k, w, seen)
      modifies this
      ensures Valid() && Onward(old(run), run, k, w) && Ended(c, Abs(), k, w, seen)
    {
      hide Inv, Run, FlightEffect, Onward;
      ghost var first := run;
      Ask(k, w, seen);
      if flights[k].Writing? {
        ghost var second := run;
        Store(k, w, seen);
        OnwardFurther(first, second, run, k, w);
      }
      if flights[k].Recording? {
        ghost var third := run;
        Record(k, w, seen);
        OnwardFurther(first, third, run, k, w);
      }
    }

    method Ask(k: Key, w: World, ghost seen: State)
      requires Valid() && AskingStage(c, Abs(), k, w, seen)
      modifies this
      ensures Valid() && Onward(old(run), run, k, w)
      ensures WritingStage(c, Abs(), k, w, seen) || RecordingStage(c, Abs(), k, w, seen) || Ended(c, Abs(), k, w, seen)
    {
      hide Inv, Run, Rely, FlightEffect, TakeAnswer, Onward;
      ghost var begun, first := Abs(), run;
      Pause(2, Some(k), k, w);
      StagesStay(c, begun, Abs(), k, w, seen);
      ghost var asked, second := Abs(), run;
      ghost var victim := TakeReply(k, w.reply, w.replyNow);
      Mark(Answer(k, w.reply, w.replyNow, victim), k, w);
      OnwardFurther(first, second, run, k, w);
      AnswerAdvances(c, asked, k, w, seen, victim);
    }

    method Store(k: Key, w: World, ghost seen: State)
      requires Valid() && c.kind(k) != Version && WritingStage(c, Abs(), k, w, seen)
      modifies this
      ensures Valid() && Onward(old(run), run, k, w)
      ensures RecordingStage(c, Abs(), k, w, seen) || Ended(c, Abs(), k, w, seen)
    {
      hide Inv, Run, Rely, FlightEffect, StoreBody, Onward;
      ghost var begun, first := Abs(), run;
      Pause(3, Some(k), k, w);
      StagesStay(c, begun, Abs(), k, w, seen);
      ghost var asked, second := Abs(), run;
      ghost var victim := StoreReply(k, w.sum, w.faults, w.storeNow);
      Mark(Label.Store(k, w.sum, w.faults, w.storeNow, victim), k, w);
      OnwardFurther(first, second, run, k, w);
      StoreAdvances(c, asked, k, w, seen, victim);
    }

    method Record(k: Key, w: World, ghost seen: State)
      requires Valid() && RecordingStage(c, Abs(), k, w, seen)
      modifies this
      ensures Valid() && Onward(old(run), run, k, w) && Ended(c, Abs(), k, w, seen)
    {
      hide Inv, Run, Rely, FlightEffect, WriteRecord, Onward;
      ghost var begun, first := Abs(), run;
      Pause(4, Some(k), k, w);
      StagesStay(c, begun, Abs(), k, w, seen);
      ghost var asked, second := Abs(), run;
      if flights[k].prior.Some? {
        PriorStored(c, asked, k);
      }
      WriteIndexRecord(k, w.writeFault);
      Mark(WriteIndex(k, w.writeFault), k, w);
      OnwardFurther(first, second, run, k, w);
      WriteAdvances(c, asked, k, w, seen);
    }

    /** The beginning of a flight: the double check, in the state at position `seen`. */
    method StartFlight(k: Key, w: World) returns (prior: Option<Record>, ghost seen: nat)
      requires Valid() && k !in flights && c.kind(k) != Version
      modifies this
      ensures Valid() && Onward(old(run), run, k, w)
      ensures Underway(run, old(run).Now(), seen, k, w)
      ensures prior == Seen(c, run.states[seen], k, w)
      ensures var s := run.states[seen]; AskingStage(c, Abs(), k, w, s) || Ended(c, Abs(), k, w, s)
    {
      hide Inv, Run, FlightEffect, FoundFresh, LookUp, Rely, Onward;
      flights := flights[k := Started];
      Mark(Begin(k), k, w);
      ghost var begun, first := Abs(), run;
      Pause(1, Some(k), k, w);
      ghost var at, second := Abs(), run;
      RecordStays(begun, at, k);
      prior := if c.kind(k) == Mutable && !w.lookFault then Entry(index, k) else None;
      LookInside(k, w.lookNow, w.lookFault);
      Mark(Look(k, w.lookNow, w.lookFault), k, w);
      LookAdvances(c, at, k, w);
      seen := second.Now();
      OnwardFurther(old(run), first, second, k, w);
      OnwardFurther(old(run), second, run, k, w);
      OnwardFurther(first, second, run, k, w);
      StartLogged(c, old(run), first, second, run, k, w);
    }

    /** The singleflight executor: double check, fetch, record. `prior` is the record that
        the flight found expired. */
    method Fly(k: Key, w: World) returns (outcome: Outcome, prior: Option<Record>, ghost via: Via)
      requires Valid() && k !in flights && c.kind(k) != Version
      modifies this
      ensures Valid() && Onward(old(run), run, k, w) && Flew(c, run, k, w, via)
      ensures via.begun == old(run).Now() && via.after + 1 == run.Now() && via.outcome == outcome
      ensures prior == Seen(c, run.states[via.seen], k, w) && index == run.states[via.after].index && storage == run.states[via.after].storage
      ensures outcome.Failed? ==> Entry(index, k) == Entry(old(index), k)
    {
      hide Inv, Run, FlightEffect, FoundFresh, LookUp, Rely, Onward, AskingStage;
      ghost var seen;
      prior, seen := StartFlight(k, w);
      ghost var started := run;
      ghost var s := run.states[seen];
      AskingOrEnded(c, Abs(), k, w, s);
      if flights[k].Asking? {
        FetchOnce(k, w, s);
      } else {
        OnwardItself(run, k, w);
      }
      ghost var ended := run;
      outcome := flights[k].outcome;
      via := Own(old(run).Now(), seen, run.Now(), outcome);
      flights := flights - {k};
      Mark(Finish(k), k, w);
      OnwardFurther(old(run), started, ended, k, w);
      OnwardFurther(started, ended, run, k, w);
      OnwardFurther(old(run), ended, run, k, w);
      FlightLogged(c, old(run), started, ended, run, k, w, via);
      FailureLeavesRecord(c, run, k, w, via);
    }

    /** A caller that finds a flight of its key waits for the outcome while others run. */
    method Join(k: Key, w: World) returns (outcome: Option<Outcome>)
      requires Valid() && k in flights
      modifies this
      ensures Valid() && Onward(old(run), run, k, w) && k in flights
      ensures outcome.Some? ==> EndedAs(Abs(), k, outcome.value)
    {
      hide Inv, Run, Step, Enabled, Onward;
      var schedule := w.others(1);
      OnwardItself(run, k, w);
      for i := 0 to |schedule|
        invariant Valid() && Onward(old(run), run, k, w) && k in flights
      {
        if flights[k].Done? {
          return Some(flights[k].outcome);
        }
        if Enabled(c, Abs(), schedule[i]) {
          CannotFinish(c, Abs(), schedule[i], k);
          StepKeepsFlight(c, Abs(), schedule[i], k);
          ghost var before := run;
          Take(schedule[i]);
          AlsoExpected(k, w, 1, schedule[i]);
          OwnStep(c, before, schedule[i], k, w);
          OnwardFurther(old(run), before, run, k, w);
        }
      }
      return if flights[k].Done? then Some(flights[k].outcome) else None;
    }

    // ---- the paths of Fetch ----

    method ServeStale(cause: Error, prior: Option<Record>, fault: bool) returns (served: Served)
      ensures served == if StaleAllowed(c, cause, prior, storage, fault) then StaleHit(prior.value, cause) else Refused(cause)
    {
      if prior.None? || !c.staleIfError || !cause.IsUpstream() {
        return Refused(cause);
      }
      if fault || prior.value.BytesKey() !in storage {
        return Refused(cause);
      }
      return StaleHit(prior.value, cause);
    }

    /** The first look: a record that has not expired and whose bytes can be found. */
    method TryIndexed(k: Key, w: World) returns (hit: bool, indexed: Option<Record>)
      requires Valid()
      modifies this
      ensures Valid() && Onward(old(run), run, k, w) && old(run).Now() <= run.Now()
      ensures run.states[old(run).Now()] == old(Abs())
      ensures indexed == if w.readFault then None else Entry(old(index), k)
      ensures hit <==> indexed.Some? && !indexed.value.Expired(w.now) && !w.statFault && indexed.value.BytesKey() in storage
      ensures w.others(0) == [] ==> Abs() == old(Abs()) && run == old(run)
    {
      hide Inv, Run;
      indexed := if w.readFault then None else Entry(index, k);
      Pause(0, None, k, w);
      hit := indexed.Some? && !indexed.value.Expired(w.now) && !w.statFault && indexed.value.BytesKey() in storage;
    }

    /** fetchMutableMeta, with others running wherever it is interrupted. `at` is the
        position of the state in which the served record was the key's record. */
    method FetchMutableMeta(k: Key, w: World)
      returns (served: Served, ghost via: Via, ghost prior: Option<Record>, ghost at: nat)
      requires Valid() && c.kind(k) == Mutable
      modifies this
      ensures Valid() && Onward(old(run), run, k, w) && old(run).Now() <= at <= run.Now()
      ensures Outcomes(c, k, w, served, via, prior, run.states[at], Abs())
      ensures Happened(c, run, old(run).Now(), k, w, via)
      ensures prior == if via.Own? then Seen(c, run.states[via.seen], k, w)
                       else if w.readFault then None else Entry(old(index), k)
      ensures w.others(0) == [] && w.others(5) == [] ==> Route(c, old(Abs()), k, w, via)
      ensures w.others(0) == [] && w.others(5) == [] ==>
        Prompt(run, old(run).Now(), old(run).Now(), via, at, old(Abs()), Abs())
      ensures w.others(6) == [] && w.others(7) == [] ==> Settled(run, via, at, Abs())
      ensures w.Alone() && k !in old(flights) ==>
        AnsweredAlone(c, old(Abs()), run, old(run).Now(), k, w, served, via, prior, at, Abs())
      ensures via.Own? && via.outcome.Fetched? && w.others(6) == [] && !w.finalFault ==> served.Hit? || served.Miss?
    {
      hide Inv, Run, FlightEffect, Onward;
      if k in index {
        RecordBacked(c, Abs(), k);
      }
      at := run.Now();
      ghost var first := run;
      var hit, indexed := TryIndexed(k, w);
      ghost var second := run;
      prior := indexed;
      if hit {
        return Hit(indexed.value), Direct, prior, at;
      }
      served, via, prior, at := FetchIndexed(k, w, indexed, at);
      OnwardFurther(first, second, run, k, w);
      OnwardItself(run, k, w);
      HappenedStays(c, run, run, second.Now(), first.Now(), k, w, via);
    }

    /** The rest of it, once the first look was in vain: negative cache, then flight. */
    method FetchIndexed(k: Key, w: World, indexed: Option<Record>, ghost start: nat)
      returns (served: Served, ghost via: Via, ghost prior: Option<Record>, ghost at: nat)
      requires Valid() && c.kind(k) == Mutable && start <= run.Now()
      requires indexed.Some? ==> Entry(run.states[start].index, k) == indexed
      modifies this
      ensures Valid() && Onward(old(run), run, k, w) && start <= at <= run.Now() && !via.Direct?
      ensures Outcomes(c, k, w, served, via, prior, run.states[at], Abs())
      ensures Happened(c, run, old(run).Now(), k, w, via)
      ensures prior == if via.Own? then Seen(c, run.states[via.seen], k, w) else indexed
      ensures w.others(5) == [] ==> (via.Remembered? <==> k in old(negative) && w.negativeNow < old(negative)[k].until)
      ensures w.others(5) == [] ==> (via.Own? <==> !via.Remembered? && k !in old(flights))
      ensures w.others(5) == [] ==> Prompt(run, old(run).Now(), start, via, at, old(Abs()), Abs())
      ensures w.others(6) == [] && w.others(7) == [] ==> Settled(run, via, at, Abs())
      ensures via.Own? && via.outcome.Fetched? && w.others(6) == [] && !w.finalFault ==> served.Hit? || served.Miss?
    {
      hide Inv, Run, FlightEffect, Onward, Flew;
      ghost var first := run;
      Pause(5, None, k, w);
      ghost var second := run;
      at := start;
      OnwardItself(run, k, w);
      OnwardFurther(first, second, run, k, w);
      var remembered := NegativeError(k, w.negativeNow);
      if remembered.Some? {
        via, prior := Remembered(run.Now(), remembered.value), indexed;
        served := ServeStale(remembered.value, indexed, w.finalFault);
        return;
      }
      var outcome, copy;
      outcome, copy, via, at := Revalidate(k, w, indexed, at);
      prior := copy;
      ghost var third := run;
      OnwardFurther(first, second, third, k, w);
      OnwardItself(third, k, w);
      if outcome.None? {
        HappenedStays(c, third, run, second.Now(), first.Now(), k, w, via);
        return Waiting, via, prior, at;
      }
      served, at := Conclude(k, w, outcome.value, copy, via, at);
      OnwardFurther(first, third, run, k, w);
      OnwardFurther(second, third, run, k, w);
      HappenedStays(c, third, run, second.Now(), first.Now(), k, w, via);
    }

    /** The singleflight: run the flight of the key, or wait for the one under way. `prior`
        is the copy that may stand in for a failed fetch, as the record of state `at`. */
    method Revalidate(k: Key, w: World, indexed: Option<Record>, ghost start: nat)
      returns (outcome: Option<Outcome>, prior: Option<Record>, ghost via: Via, ghost at: nat)
      requires Valid() && c.kind(k) == Mutable && start <= run.Now()
      requires indexed.Some? ==> Entry(run.states[start].index, k) == indexed
      modifies this
      ensures Valid() && Onward(old(run), run, k, w) && start <= at <= run.Now()
      ensures (outcome.None? ==> via.Joining? && k in flights) && !via.Direct? && !via.Remembered?
      ensures outcome.Some? ==> (via.Own? || via.Joined?) && via.outcome == outcome.value
      ensures prior.Some? ==> Entry(run.states[at].index, k) == prior
      ensures outcome.Some? && outcome.value.Fetched? ==> Entry(index, k) == Some(outcome.value.record)
      ensures Happened(c, run, old(run).Now(), k, w, via) && (via.Own? <==> k !in old(flights))
      ensures via.Own? ==> via.seen < run.Now()
      ensures via.Own? ==> via.begun == old(run).Now() && via.after < run.Now() && EndsLike(run.states[via.after], Abs())
      ensures prior == if via.Own? then Seen(c, run.states[via.seen], k, w) else indexed
    {
      hide Inv, Run, FlightEffect;
      if k in flights {
        outcome := Join(k, w);
        prior, at := indexed, start;
        if outcome.None? {
          return None, prior, Joining, at;
        }
        via := Joined(run.Now(), outcome.value);
        if outcome.value.Fetched? {
          FetchedRecorded(c, Abs(), k, outcome.value.record, outcome.value.revalidated);
        }
      } else {
        var own;
        own, prior, via := Fly(k, w);
        outcome, at := Some(own), via.seen;
        EffectFacts(c, k, w, run.states[via.seen], run.states[via.after], own);
      }
    }

    /** After the flight: the stale copy, the reloaded record or the fetched one. */
    method Conclude(k: Key, w: World, outcome: Outcome, prior: Option<Record>, ghost via: Via, ghost start: nat)
      returns (served: Served, ghost at: nat)
      requires Valid() && start <= run.Now()
      requires (via.Own? || via.Joined?) && via.outcome == outcome
      requires prior.Some? ==> Entry(run.states[start].index, k) == prior
      requires outcome.Fetched? ==> Entry(index, k) == Some(outcome.record)
      modifies this
      ensures Valid() && Onward(old(run), run, k, w) && start <= at <= run.Now()
      ensures Outcomes(c, k, w, served, via, prior, run.states[at], Abs())
      ensures outcome.Fetched? && w.others(6) == [] && !w.finalFault ==> !served.Refused? && !served.Waiting? && !served.StaleHit?
      ensures w.others(6) == [] && w.others(7) == [] ==>
        Abs() == old(Abs()) && (outcome.Fresh? ==> run.states[at].index == index)
    {
      hide Inv, Run;
      if outcome.Fetched? {
        RecordBacked(c, Abs(), k);
      }
      at := run.Now();
      Pause(6, None, k, w);
      hide Rely, StaleAllowed, Outcomes;
      match outcome
      case Failed(error) =>
        at := start;
        served := ServeStale(error, prior, w.finalFault);
        FailedOutcome(c, k, w, served, via, prior, run.states[at], Abs());
      case Fresh =>
        at := run.Now();
        served := ServeReloaded(k, w);
        FreshOutcome(c, k, w, served, via, prior, run.states[at], Abs());
      case Fetched(record, revalidated) =>
        served := ServeFetched(record, revalidated, w.finalFault);
        FetchedOutcome(c, k, w, served, via, prior, run.states[at], Abs());
    }

    /** serveReloadedMeta, which looks at neither the expiry nor the flight's findings. */
    method ServeReloaded(k: Key, w: World) returns (served: Served)
      requires Valid()
      modifies this
      ensures Valid() && Onward(old(run), run, k, w)
      ensures served.Refused? || (served.Hit? && Entry(old(index), k) == Some(served.record) && served.record.BytesKey() in storage)
      ensures served.Hit? <==> !w.reloadFault && k in old(index) && !w.finalFault && old(index)[k].BytesKey() in storage
      ensures w.others(7) == [] ==> Abs() == old(Abs())
      ensures served.Refused? ==>
        served.error == if w.reloadFault then Failure else if w.finalFault && k in old(index) then Unavailable else NotFound
    {
      hide Inv, Run;
      if w.reloadFault {
        return Refused(Failure);
      }
      if k !in index {
        return Refused(NotFound);
      }
      var current := index[k];
      Pause(7, None, k, w);
      if w.finalFault {
        return Refused(Unavailable);
      }
      if current.BytesKey() !in storage {
        return Refused(NotFound);
      }
      return Hit(current);
    }

    method ServeFetched(record: Record, revalidated: bool, fault: bool) returns (served: Served)
      ensures served == if !fault && record.BytesKey() in storage
                        then (if revalidated then Hit(record) else Miss(record))
                        else Refused(if fault then Unavailable else NotFound)
    {
      if fault {
        return Refused(Unavailable);
      }
      if record.BytesKey() !in storage {
        return Refused(NotFound);
      }
      return if revalidated then Hit(record) else Miss(record);
    }

    /** The singleflight of an immutable object. */
    method FlyOrJoin(k: Key, w: World) returns (outcome: Option<Outcome>, ghost via: Via)
      requires Valid() && c.kind(k) == Immutable
      modifies this
      ensures Valid() && Onward(old(run), run, k, w) && Happened(c, run, old(run).Now(), k, w, via)
      ensures outcome.None? ==> via.Joining? && k in flights
      ensures outcome.Some? ==> (via.Own? || via.Joined?) && via.outcome == outcome.value
      ensures via.Own? <==> k !in old(flights)
    {
      hide Inv, Run, FlightEffect;
      if k in flights {
        outcome := Join(k, w);
        if outcome.None? {
          return None, Joining;
        }
        via := Joined(run.Now(), outcome.value);
      } else {
        var own, prior;
        own, prior, via := Fly(k, w);
        outcome := Some(own);
      }
    }

    /** fetchImmutableMeta and prefetchImmutable: the body is not opened. */
    method FetchImmutableMeta(k: Key, w: World) returns (found: Found, ghost via: Via)
      requires Valid() && c.kind(k) == Immutable
      modifies this
      ensures Valid() && Onward(old(run), run, k, w) && Happened(c, run, old(run).Now(), k, w, via)
      ensures found.Cached? || found.Downloaded? ==> k in storage
      ensures found.Cached? <==> via.Direct?
      ensures found.Downloaded? ==> FlightSucceeded(via) && !w.finalFault
      ensures found.Lost? ==> FailedWith(via, found.error) || (FlightSucceeded(via) && (w.finalFault || k !in storage))
      ensures found.Lost? && FlightSucceeded(via) ==> found.error == if w.finalFault then Unavailable else NotFound
      ensures found.Pending? ==> via.Joining? && k in flights
      ensures via.Remembered? <==> k in old(negative) && w.negativeNow < old(negative)[k].until
      ensures w.others(0) == [] && !via.Remembered? ==> (via.Direct? <==> !w.statFault && k in old(storage))
    {
      hide Inv, Run, FlightEffect, Onward, Flew;
      ghost var first := run;
      OnwardItself(run, k, w);
      var remembered := NegativeError(k, w.negativeNow);
      if remembered.Some? {
        return Lost(remembered.value), Remembered(run.Now(), remembered.value);
      }
      Pause(0, None, k, w);
      if !w.statFault && k in storage {
        return Cached, Direct;
      }
      ghost var second := run;
      Pause(5, None, k, w);
      ghost var third := run;
      OnwardFurther(first, second, third, k, w);
      var outcome;
      outcome, via := FlyOrJoin(k, w);
      ghost var flown := run;
      OnwardFurther(first, third, flown, k, w);
      OnwardItself(flown, k, w);
      if outcome.None? {
        HappenedStays(c, flown, run, third.Now(), first.Now(), k, w, via);
        return Pending, Joining;
      }
      Pause(6, None, k, w);
      OnwardFurther(first, flown, run, k, w);
      HappenedStays(c, flown, run, third.Now(), first.Now(), k, w, via);
      if outcome.value.Failed? {
        return Lost(outcome.value.error), via;
      }
      if w.finalFault || k !in storage {
        return Lost(if w.finalFault then Unavailable else NotFound), via;
      }
      return Downloaded, via;
    }

    /** PrefetchThrottled: the same decisions without a body for the caller. What is
        reported as warm or downloaded was known to the cache at position `at`, and the
        reported bytes are those of its record, or of the object itself. */
    method Prefetch(k: Key, w: World) returns (r: Prefetched, ghost via: Via, ghost at: nat)
      requires Valid() && c.kind(k) != Version
      modifies this
      ensures Valid() && Onward(old(run), run, k, w) && old(run).Now() <= at <= run.Now()
      ensures Happened(c, run, old(run).Now(), k, w, via)
      ensures r.Warm? || r.Got? ==> Known(c, run.states[at], k)
      ensures (r.Warm? || r.Got?) && c.kind(k) == Mutable ==>
        var record := run.states[at].index[k]; record.BytesKey() in storage && r.bytes == record.size
      ensures (r.Warm? || r.Got?) && c.kind(k) == Immutable ==> k in storage && r.bytes == |storage[k]|
      ensures r.StaleCopy? ==>
        && c.kind(k) == Mutable && c.staleIfError && k in run.states[at].index && r.bytes == run.states[at].index[k].size
        && exists error: Error :: FailedWith(via, error) && error.IsUpstream()
      ensures r.NotFetched? ==> FailedWith(via, r.error) || FlightSucceeded(via)
      ensures r.InProgress? ==> via.Joining? && k in flights
    {
      hide Inv, Run, FlightEffect, Happened, Route;
      if c.kind(k) == Mutable {
        var served;
        ghost var prior;
        served, via, prior, at := FetchMutableMeta(k, w);
        match served
        case Hit(record) =>
          SizeOfRecord(k, at);
          r := Warm(|storage[record.BytesKey()]|);
        case Miss(record) =>
          SizeOfRecord(k, at);
          r := Got(|storage[record.BytesKey()]|);
        case StaleHit(record, cause) =>
          assert FailedWith(via, cause) && cause.IsUpstream();
          r := StaleCopy(record.size);
        case Refused(error) => r := NotFetched(error);
        case Waiting => r := InProgress;
      } else {
        var found;
        found, via := FetchImmutableMeta(k, w);
        at := run.Now();
        match found
        case Cached => r := Warm(|storage[k]|);
        case Downloaded => r := Got(|storage[k]|);
        case Lost(error) => r := NotFetched(error);
        case Pending => r := InProgress;
      }
    }

    /** What is stored under the key of a record that was read earlier has its size. */
    lemma SizeOfRecord(k: Key, at: nat)
      requires Valid() && at <= run.Now() && k in run.states[at].index
      ensures var record := run.states[at].index[k];
        record.BytesKey() in storage ==> |storage[record.BytesKey()]| == record.size
    {
      RecordedBytesNeverChange(c, run.states, run.labels, at, run.Now(), k);
    }
  }
}
