/** The pull-through cache as a state machine: every interleaving of flights (the single
    upstream fetch that runs per key), background deletions and evictions over a blob
    store and an index that fail independently. */
module CacheModel {
  import opened Sums
  import opened Text
  import opened VersionedKeys

  type Key = string
  type Bytes = seq<bv8>

  /** ObjectMeta: the index record of a mutable object. None stands for the zero time. */
  datatype Record = Record(
    key: Key, storageKey: Key, size: nat, etag: string, contentType: string,
    lastModified: Option<int>, expiresAt: Option<int>)
  {
    function BytesKey(): Key {
      if storageKey == "" then key else storageKey
    }

    /** The lifetime ends at expiresAt; without one the record does not expire. */
    predicate Expired(at: int) {
      expiresAt.Some? && expiresAt.value <= at
    }
  }

  /** What a storage key is for: objects that never change, objects that are revalidated,
      and the stored versions of the latter, which are never requested themselves. */
  datatype Kind = Immutable | Mutable | Version

  datatype Checksum = Checksum(algo: string, hex: string)

  datatype Config = Config(
    staleIfError: bool, maxObjectSize: int, negativeTTL404: int, negativeTTL5xx: int,
    versionKey: (Key, nat) -> Key, kind: Key -> Kind, ttl: Key -> int, digest: (string, Bytes) -> string)
  {
    /** Classify knows nothing of version keys. */
    ghost predicate VersionsApart() {
      forall k: Key, n: nat :: kind(versionKey(k, n)) == Version && versionKey(k, n) != ""
    }

    ghost predicate VersionsDistinct() {
      forall k: Key, n: nat, k': Key, n': nat :: versionKey(k, n) == versionKey(k', n') ==> k == k' && n == n'
    }

    ghost predicate WellFormed() {
      VersionsApart() && VersionsDistinct()
    }
  }

  /** The configuration of a process run: version keys as versionedKey builds them. */
  ghost predicate UsesNonce(c: Config, nonce: nat) {
    forall k: Key, n: nat :: c.versionKey(k, n) == VersionedKey(nonce, k, n)
  }

  /** versionedKey meets what the machine asks of version keys. */
  lemma NonceKeysDistinct(c: Config, nonce: nat)
    requires UsesNonce(c, nonce) && forall k: Key, n: nat :: c.kind(VersionedKey(nonce, k, n)) == Version
    ensures c.WellFormed()
  {
    forall k: Key, n: nat ensures c.kind(c.versionKey(k, n)) == Version && c.versionKey(k, n) != "" {
      Layout(nonce, k, n);
    }
    forall k: Key, n: nat, k': Key, n': nat | c.versionKey(k, n) == c.versionKey(k', n') ensures k == k' && n == n' {
      VersionedKeyInjective(nonce, k, n, nonce, k', n');
    }
  }

  /** Mismatch is the UpstreamError that wraps a checksum mismatch. */
  datatype Error = NotFound | Upstream | Mismatch | TooLarge | Unavailable | Failure | Stale(etag: string) {
    predicate IsUpstream() {
      Upstream? || Mismatch?
    }
  }

  /** A negative length is an undeclared one; a cut body ends in a read error. */
  datatype Response = Response(
    status: int, etag: string, contentType: string, lastModified: Option<int>,
    length: int, body: Bytes, cut: bool)

  datatype Negative = Negative(until: int, error: Error)

  const NEGATIVE_CAP := 10000

  // ---- copyBody ----

  datatype CopyFault = Clean | MediumFails | ThrottleFails

  datatype Copied = Copied(bytes: Bytes) | CopyFailed(error: Error)

  function ToLower(s: string): string {
    seq(|s|, i requires 0 <= i < |s| => if 'A' <= s[i] <= 'Z' then s[i] + 32 as char else s[i])
  }

  predicate KnownAlgo(algo: string) {
    ToLower(algo) in ["sha256", "sha-256", "sha1", "sha-1", "md5"]
  }

  /** What the limited reader passes on: one byte more than the limit tells "at the limit"
      from "over it". */
  function Limited(c: Config, body: Bytes): Bytes {
    if 0 < c.maxObjectSize < |body| then body[..c.maxObjectSize + 1] else body
  }

  function CopyBody(c: Config, r: Response, sum: Checksum, fault: CopyFault): Copied {
    var bytes := Limited(c, r.body);
    if fault.MediumFails? then CopyFailed(Unavailable)
    else if fault.ThrottleFails? then CopyFailed(Upstream)
    else if r.cut && !(0 < c.maxObjectSize < |r.body|) then CopyFailed(Upstream)
    else if 0 < c.maxObjectSize < |bytes| then CopyFailed(TooLarge)
    else if r.length >= 0 && |bytes| != r.length then CopyFailed(Upstream)
    else if KnownAlgo(sum.algo) && ToLower(c.digest(ToLower(sum.algo), bytes)) != ToLower(sum.hex) then CopyFailed(Mismatch)
    else Copied(bytes)
  }

  /** The body passed every check that stands between upstream and a commit. */
  predicate Accepted(c: Config, r: Response, sum: Checksum) {
    && !r.cut
    && (c.maxObjectSize > 0 ==> |r.body| <= c.maxObjectSize)
    && (r.length >= 0 ==> |r.body| == r.length)
    && (KnownAlgo(sum.algo) ==> ToLower(c.digest(ToLower(sum.algo), r.body)) == ToLower(sum.hex))
  }

  /** copyBody lets a body through exactly when it is complete, within the limit, of the
      declared length and of the indexed checksum, and then stores it byte for byte. */
  lemma CopyBodyAccepts(c: Config, r: Response, sum: Checksum, fault: CopyFault)
    ensures CopyBody(c, r, sum, fault).Copied? <==> fault.Clean? && Accepted(c, r, sum)
    ensures CopyBody(c, r, sum, fault).Copied? ==> CopyBody(c, r, sum, fault).bytes == r.body
    ensures CopyBody(c, r, sum, fault) != CopyFailed(NotFound)
  {
  }

  predicate Oversized(c: Config, r: Response) {
    0 < c.maxObjectSize < |r.body|
  }

  /** The transfer broke off, or the body has not the declared length. */
  predicate BrokenOff(c: Config, r: Response, fault: CopyFault) {
    fault.ThrottleFails? || (!Oversized(c, r) && (r.cut || (r.length >= 0 && |r.body| != r.length)))
  }

  predicate SumFits(c: Config, r: Response, sum: Checksum) {
    KnownAlgo(sum.algo) ==> ToLower(c.digest(ToLower(sum.algo), r.body)) == ToLower(sum.hex)
  }

  /** A body that is not let through is blamed on the medium exactly when that failed, and
      otherwise on upstream unless it is too large. */
  lemma CopyBodyBlames(c: Config, r: Response, sum: Checksum, fault: CopyFault)
    ensures var copied := CopyBody(c, r, sum, fault);
      && (copied == CopyFailed(Unavailable) <==> fault.MediumFails?)
      && (copied == CopyFailed(Upstream) <==> !fault.MediumFails? && BrokenOff(c, r, fault))
      && (copied == CopyFailed(TooLarge) <==> fault.Clean? && Oversized(c, r))
      && (copied == CopyFailed(Mismatch) <==>
            fault.Clean? && !BrokenOff(c, r, fault) && !Oversized(c, r) && !SumFits(c, r, sum))
      && (copied.CopyFailed? ==> copied.error in {Unavailable, Upstream, TooLarge, Mismatch})
  {
  }

  /** The checksums that are verified, in upper or lower case; no other name is. */
  lemma KnownAlgos(algo: string)
    ensures KnownAlgo("sha256") && KnownAlgo("SHA-256") && KnownAlgo("sha1") && KnownAlgo("SHA-1") && KnownAlgo("MD5")
    ensures !KnownAlgo("") && !KnownAlgo("sha512") && !KnownAlgo("sha-512")
    ensures (forall c :: c in algo ==> !('A' <= c <= 'Z')) ==>
      (KnownAlgo(algo) <==> algo in ["sha256", "sha-256", "sha1", "sha-1", "md5"])
  {
    assert ToLower("sha256") == "sha256" && ToLower("sha1") == "sha1" && ToLower("sha512") == "sha512";
    assert ToLower("SHA-256") == "sha-256" && ToLower("SHA-1") == "sha-1" && ToLower("MD5") == "md5";
    assert ToLower("sha-512") == "sha-512" && ToLower("") == "";
    if forall c :: c in algo ==> !('A' <= c <= 'Z') {
      forall i | 0 <= i < |algo| ensures ToLower(algo)[i] == algo[i] {
        assert algo[i] in algo;
      }
      assert ToLower(algo) == algo;
    }
  }

  // ---- the state ----

  datatype Outcome = Fresh | Fetched(record: Record, revalidated: bool) | Failed(error: Error)

  /** Where the flight of a key stands. `version` numbers the write of a mutable object;
      None in Recording marks a record prolonged by a 304. */
  datatype Flight =
    | Started
    | Asking(prior: Option<Record>)
    | Writing(prior: Option<Record>, version: nat, reply: Response)
    | Recording(prior: Option<Record>, record: Record, stored: Option<nat>)
    | Done(outcome: Outcome)

  datatype State = State(
    storage: map<Key, Bytes>,
    index: map<Key, Record>,
    negative: map<Key, Negative>,
    seqNo: nat,
    flights: map<Key, Flight>,
    deletes: multiset<Key>,
    commits: seq<Key>)

  datatype StoreFaults = StoreFaults(put: bool, copy: CopyFault, commit: bool)

  /** One atomic step, with what the environment contributes to it. */
  datatype Label =
    | Begin(key: Key)
    | Look(key: Key, now: int, fault: bool)
    | Answer(key: Key, reply: Option<Response>, now: int, victim: Key)
    | Store(key: Key, sum: Checksum, faults: StoreFaults, now: int, victim: Key)
    | WriteIndex(key: Key, fault: bool)
    | Finish(key: Key)
    | Delete(key: Key, fault: bool)
    | Evict(key: Key)

  // ---- the steps ----

  function Entry(index: map<Key, Record>, k: Key): Option<Record> {
    if k in index then Some(index[k]) else None
  }

  predicate VictimOk(negative: map<Key, Negative>, victim: Key) {
    |negative| >= NEGATIVE_CAP ==> victim in negative
  }

  /** rememberNegative: at the cap an arbitrary entry gives way. */
  function Remember(negative: map<Key, Negative>, key: Key, ttl: int, error: Error, now: int, victim: Key): map<Key, Negative> {
    if ttl <= 0 then negative
    else (if |negative| >= NEGATIVE_CAP then negative - {victim} else negative)[key := Negative(now + ttl, error)]
  }

  function At(s: State, k: Key, f: Flight): State {
    s.(flights := s.flights[k := f])
  }

  /** The double check inside the flight. A failed index read counts as "no record". */
  function LookUp(c: Config, s: State, k: Key, now: int, fault: bool): State {
    if c.kind(k) == Mutable then
      if !fault && k in s.index then
        if !s.index[k].Expired(now) then At(s, k, Done(Fresh)) else At(s, k, Asking(Some(s.index[k])))
      else At(s, k, Asking(None))
    else if !fault && k in s.storage then At(s, k, Done(Fresh))
    else At(s, k, Asking(None))
  }

  function Prolonged(c: Config, prior: Record, r: Response, now: int): Record {
    prior.(expiresAt := Some(now + c.ttl(prior.key)),
         etag := if r.etag != "" then r.etag else prior.etag,
         lastModified := if r.lastModified.Some? then r.lastModified else prior.lastModified)
  }

  /** fetchOnce from the response to the opening of the writer: where the flight goes. */
  function AnswerFlight(c: Config, k: Key, prior: Option<Record>, reply: Option<Response>, now: int, version: nat): Flight {
    if reply.None? then Done(Failed(Upstream))
    else
      var r := reply.value;
      if r.status == 304 && prior.Some? then Recording(prior, Prolonged(c, prior.value, r, now), None)
      else if r.status == 404 then Done(Failed(NotFound))
      else if r.status >= 500 then Done(Failed(Upstream))
      else if r.status < 200 || r.status >= 300 then Done(Failed(Upstream))
      else if 0 < c.maxObjectSize < r.length then Done(Failed(TooLarge))
      else Writing(prior, if c.kind(k) == Mutable then version else 0, r)
  }

  /** ... and what the negative cache learns from it. */
  function AnswerNegative(c: Config, s: State, k: Key, reply: Option<Response>, now: int, victim: Key): map<Key, Negative> {
    if reply.Some? && reply.value.status == 404 then
      Remember(s.negative, k, c.negativeTTL404, NotFound, now, victim)
    else if reply.Some? && reply.value.status >= 500 then
      Remember(s.negative, k, c.negativeTTL5xx, Upstream, now, victim)
    else s.negative
  }

  function TakeAnswer(c: Config, s: State, k: Key, reply: Option<Response>, now: int, victim: Key): State
    requires k in s.flights && s.flights[k].Asking?
  {
    var f := AnswerFlight(c, k, s.flights[k].prior, reply, now, s.seqNo + 1);
    s.(negative := AnswerNegative(c, s, k, reply, now, victim),
       seqNo := if f.Writing? && c.kind(k) == Mutable then s.seqNo + 1 else s.seqNo,
       flights := s.flights[k := f])
  }

  function WriteKey(c: Config, k: Key, version: nat): Key {
    if c.kind(k) == Mutable then c.versionKey(k, version) else k
  }

  function NewRecord(c: Config, k: Key, version: nat, r: Response, size: nat, now: int): Record {
    Record(k, WriteKey(c, k, version), size, r.etag, r.contentType, r.lastModified,
           if c.kind(k) == Mutable then Some(now + c.ttl(k)) else None)
  }

  /** The flight after its commit: mutable objects still have to be recorded. */
  function Committed(c: Config, k: Key, f: Flight, size: nat, now: int): Flight
    requires f.Writing?
  {
    var record := NewRecord(c, k, f.version, f.reply, size, now);
    if c.kind(k) == Mutable then Recording(f.prior, record, Some(f.version)) else Done(Fetched(record, false))
  }

  /** fetchOnce from Put to Commit: the error that ends it, if any. */
  function StoreError(copied: Copied, faults: StoreFaults): Option<Error> {
    if faults.put then Some(Unavailable)
    else if copied.CopyFailed? then Some(copied.error)
    else if faults.commit then Some(Unavailable)
    else None
  }

  /** Nothing is visible before the commit, and a body that fails is aborted. */
  function StoreBody(c: Config, s: State, k: Key, sum: Checksum, faults: StoreFaults, now: int, victim: Key): State
    requires k in s.flights && s.flights[k].Writing?
  {
    var f := s.flights[k];
    var copied := CopyBody(c, f.reply, sum, faults.copy);
    var error := StoreError(copied, faults);
    if error.Some? then
      s.(negative := if error.value.Mismatch?
                     then Remember(s.negative, k, c.negativeTTL5xx, Mismatch, now, victim) else s.negative,
         flights := s.flights[k := Done(Failed(error.value))])
    else
      s.(storage := s.storage[WriteKey(c, k, f.version) := copied.bytes],
         commits := if c.kind(k) == Mutable then s.commits else s.commits + [k],
         flights := s.flights[k := Committed(c, k, f, |copied.bytes|, now)])
  }

  /** The index write and what it leaves to delete: the replaced version, or the new one
      when the write failed. */
  function WriteRecord(s: State, k: Key, fault: bool): State
    requires k in s.flights && s.flights[k].Recording?
  {
    var Recording(prior, record, stored) := s.flights[k];
    if fault then
      At(if stored.Some? then s.(deletes := s.deletes + multiset{record.BytesKey()}) else s, k, Done(Failed(Failure)))
    else
      var written := s.(index := s.index[k := record], negative := s.negative - {k});
      At(if stored.Some? && prior.Some? then written.(deletes := s.deletes + multiset{prior.value.BytesKey()}) else written,
         k, Done(Fetched(record, stored.None?)))
  }

  predicate Enabled(c: Config, s: State, l: Label) {
    match l
    case Begin(k) => c.kind(k) != Version && k !in s.flights
    case Look(k, _, _) => k in s.flights && s.flights[k].Started?
    case Answer(k, _, _, victim) => k in s.flights && s.flights[k].Asking? && VictimOk(s.negative, victim)
    case Store(k, _, _, _, victim) => k in s.flights && s.flights[k].Writing? && VictimOk(s.negative, victim)
    case WriteIndex(k, _) => k in s.flights && s.flights[k].Recording?
    case Finish(k) => k in s.flights && s.flights[k].Done?
    case Delete(k, _) => k in s.deletes
    case Evict(k) => c.kind(k) == Immutable
  }

  function Step(c: Config, s: State, l: Label): State
    requires Enabled(c, s, l)
  {
    match l
    case Begin(k) => At(s, k, Started)
    case Look(k, now, fault) => LookUp(c, s, k, now, fault)
    case Answer(k, reply, now, victim) => TakeAnswer(c, s, k, reply, now, victim)
    case Store(k, sum, faults, now, victim) => StoreBody(c, s, k, sum, faults, now, victim)
    case WriteIndex(k, fault) => WriteRecord(s, k, fault)
    case Finish(k) => s.(flights := s.flights - {k})
    case Delete(k, fault) =>
      s.(deletes := s.deletes - multiset{k}, storage := if fault then s.storage else s.storage - {k})
    case Evict(k) => s.(storage := s.storage - {k})
  }

  // ---- the invariant ----

  ghost predicate HasBlob(s: State, r: Record) {
    r.BytesKey() in s.storage && |s.storage[r.BytesKey()]| == r.size
  }

  /** Every record belongs to its key and names a blob of exactly the recorded size. */
  ghost predicate RecordsSound(c: Config, s: State) {
    forall k :: k in s.index ==>
      && s.index[k].key == k && c.kind(k) == Mutable
      && (s.index[k].storageKey != "" ==> c.kind(s.index[k].storageKey) == Version)
      && HasBlob(s, s.index[k])
  }

  ghost predicate BlobsUnshared(s: State) {
    forall k, k' :: k in s.index && k' in s.index && k != k' ==> s.index[k].BytesKey() != s.index[k'].BytesKey()
  }

  /** No record, blob or pending deletion uses the key. */
  ghost predicate Unreferenced(s: State, b: Key) {
    b !in s.deletes && forall k :: k in s.index ==> s.index[k].BytesKey() != b
  }

  ghost predicate Unused(s: State, b: Key) {
    b !in s.storage && Unreferenced(s, b)
  }

  ghost predicate FutureVersionsUnused(c: Config, s: State) {
    forall k: Key, n: nat :: n > s.seqNo ==> Unused(s, c.versionKey(k, n))
  }

  /** No pending deletion names the blob of a current record, nor an immutable object. */
  ghost predicate DeletesSafe(c: Config, s: State) {
    && (forall k :: k in s.index ==> s.index[k].BytesKey() !in s.deletes)
    && (forall d :: d in s.deletes ==> c.kind(d) != Immutable)
  }

  ghost predicate OldCurrent(s: State, k: Key, prior: Option<Record>) {
    prior.Some? ==> k in s.index && s.index[k] == prior.value
  }

  ghost predicate FlightSound(c: Config, s: State, k: Key, f: Flight) {
    && c.kind(k) != Version
    && match f
       case Asking(prior) => OldCurrent(s, k, prior)
       case Writing(prior, version, _) =>
         && OldCurrent(s, k, prior)
         && (c.kind(k) == Mutable ==> 0 < version <= s.seqNo && Unused(s, WriteKey(c, k, version)))
       case Recording(prior, record, stored) =>
         && OldCurrent(s, k, prior) && c.kind(k) == Mutable && record.key == k && HasBlob(s, record)
         && (match stored
             case None => prior.Some? && record.storageKey == prior.value.storageKey
             case Some(version) =>
               && version <= s.seqNo && record.storageKey == WriteKey(c, k, version) && record.storageKey != ""
               && Unreferenced(s, record.storageKey))
       case Done(Fetched(record, _)) =>
         c.kind(k) == Mutable ==> k in s.index && s.index[k] == record
       case _ => true
  }

  ghost predicate FlightsSound(c: Config, s: State) {
    forall k :: k in s.flights ==> FlightSound(c, s, k, s.flights[k])
  }

  ghost predicate Inv(c: Config, s: State) {
    && RecordsSound(c, s) && BlobsUnshared(s) && FutureVersionsUnused(c, s)
    && DeletesSafe(c, s) && FlightsSound(c, s) && |s.negative| <= NEGATIVE_CAP
  }

  /** A freshly started process over what earlier runs left behind. */
  ghost predicate Init(c: Config, s: State) {
    && s.seqNo == 0 && s.flights == map[] && s.deletes == multiset{} && s.commits == [] && s.negative == map[]
    && RecordsSound(c, s) && BlobsUnshared(s) && FutureVersionsUnused(c, s)
  }

  // ---- every step keeps the invariant ----

  /** A step that leaves blobs, index and deletions alone and moves one flight. */
  lemma MoveKeepsInv(c: Config, s: State, k: Key, f: Flight, negative: map<Key, Negative>, seqNo: nat)
    requires Inv(c, s) && |negative| <= NEGATIVE_CAP && seqNo >= s.seqNo
    requires FlightSound(c, s.(seqNo := seqNo), k, f)
    ensures Inv(c, s.(negative := negative, seqNo := seqNo, flights := s.flights[k := f]))
  {
    var s' := s.(negative := negative, seqNo := seqNo, flights := s.flights[k := f]);
    forall k' | k' in s'.flights ensures FlightSound(c, s', k', s'.flights[k']) {
      if k' != k {
        assert FlightSound(c, s, k', s.flights[k']);
      }
    }
  }

  lemma RememberBounded(negative: map<Key, Negative>, key: Key, ttl: int, error: Error, now: int, victim: Key)
    requires |negative| <= NEGATIVE_CAP && VictimOk(negative, victim)
    ensures |Remember(negative, key, ttl, error, now, victim)| <= NEGATIVE_CAP
  {
    if |negative| >= NEGATIVE_CAP {
      var less := negative - {victim};
      assert negative.Keys == less.Keys + {victim};
      assert |less.Keys| == |negative.Keys| - 1;
      assert less[key := Negative(now + ttl, error)].Keys == less.Keys + {key};
    } else {
      assert negative[key := Negative(now + ttl, error)].Keys == negative.Keys + {key};
    }
  }

  lemma AnswerSound(c: Config, s: State, k: Key, reply: Option<Response>, now: int, victim: Key)
    requires Inv(c, s) && Enabled(c, s, Answer(k, reply, now, victim))
    ensures var s' := TakeAnswer(c, s, k, reply, now, victim);
      FlightSound(c, s.(seqNo := s'.seqNo), k, s'.flights[k])
  {
    assert FlightSound(c, s, k, s.flights[k]);
    assert Unused(s, c.versionKey(k, s.seqNo + 1));
    var f := TakeAnswer(c, s, k, reply, now, victim).flights[k];
    if f.Recording? {
      assert HasBlob(s, s.index[k]);
      assert f.record.BytesKey() == s.index[k].BytesKey();
    }
  }

  /** What an answer leaves remembered, in numbers: a 404 for its time, a 5xx for its own,
      if these are positive, and any other answer nothing; of the rest at most one entry is
      lost, and only when ten thousand are there. */
  lemma AnswerLearns(c: Config, s: State, k: Key, reply: Option<Response>, now: int, victim: Key)
    requires Enabled(c, s, Answer(k, reply, now, victim))
    ensures var after := TakeAnswer(c, s, k, reply, now, victim).negative;
      && (reply.Some? && reply.value.status == 404 && c.negativeTTL404 > 0 ==>
            k in after && after[k] == Negative(now + c.negativeTTL404, NotFound))
      && (reply.Some? && reply.value.status >= 500 && c.negativeTTL5xx > 0 ==>
            k in after && after[k] == Negative(now + c.negativeTTL5xx, Upstream))
      && (reply.None? || (reply.value.status != 404 && reply.value.status < 500) ==> after == s.negative)
      && (reply.Some? && reply.value.status == 404 && c.negativeTTL404 <= 0 ==> after == s.negative)
      && (reply.Some? && reply.value.status >= 500 && c.negativeTTL5xx <= 0 ==> after == s.negative)
      && OthersRemembered(s.negative, after, k, victim)
  {
  }

  /** Entries of other keys stay as they are, but for one when the cap is reached. */
  predicate OthersRemembered(before: map<Key, Negative>, after: map<Key, Negative>, k: Key, victim: Key) {
    && (forall x :: x in after && x != k ==> x in before && after[x] == before[x])
    && (forall x :: x in before && x != k && (|before| < 10000 || x != victim) ==> x in after)
  }

  /** A body of a wrong checksum is remembered like a 5xx; no other end of a transfer is. */
  lemma StoreLearns(c: Config, s: State, k: Key, sum: Checksum, faults: StoreFaults, now: int, victim: Key)
    requires Enabled(c, s, Store(k, sum, faults, now, victim))
    ensures var r, after := s.flights[k].reply, StoreBody(c, s, k, sum, faults, now, victim).negative;
      var wrong := !faults.put && faults.copy.Clean? && !BrokenOff(c, r, faults.copy) && !Oversized(c, r) && !SumFits(c, r, sum);
      && (wrong && c.negativeTTL5xx > 0 ==> k in after && after[k] == Negative(now + c.negativeTTL5xx, Mismatch))
      && (!wrong || c.negativeTTL5xx <= 0 ==> after == s.negative)
      && OthersRemembered(s.negative, after, k, victim)
  {
    CopyBodyBlames(c, s.flights[k].reply, sum, faults.copy);
    hide CopyBody, BrokenOff, Oversized, SumFits, Committed, WriteKey;
  }

  lemma NegativeStaysBounded(c: Config, s: State, k: Key, reply: Option<Response>, now: int, victim: Key)
    requires |s.negative| <= NEGATIVE_CAP && VictimOk(s.negative, victim)
    ensures |AnswerNegative(c, s, k, reply, now, victim)| <= NEGATIVE_CAP
  {
    RememberBounded(s.negative, k, c.negativeTTL404, NotFound, now, victim);
    RememberBounded(s.negative, k, c.negativeTTL5xx, Upstream, now, victim);
  }

  lemma AnswerKeepsInv(c: Config, s: State, k: Key, reply: Option<Response>, now: int, victim: Key)
    requires Inv(c, s) && Enabled(c, s, Answer(k, reply, now, victim))
    ensures Inv(c, TakeAnswer(c, s, k, reply, now, victim))
  {
    NegativeStaysBounded(c, s, k, reply, now, victim);
    AnswerSound(c, s, k, reply, now, victim);
    var s' := TakeAnswer(c, s, k, reply, now, victim);
    MoveKeepsInv(c, s, k, s'.flights[k], s'.negative, s'.seqNo);
  }

  lemma LookKeepsInv(c: Config, s: State, k: Key, now: int, fault: bool)
    requires Inv(c, s) && Enabled(c, s, Look(k, now, fault))
    ensures Inv(c, LookUp(c, s, k, now, fault))
  {
    var s' := LookUp(c, s, k, now, fault);
    LookSound(c, s, k, now, fault);
    NegativeBounded(c, s);
    hide Inv;
    MoveKeepsInv(c, s, k, s'.flights[k], s.negative, s.seqNo);
  }

  lemma LookSound(c: Config, s: State, k: Key, now: int, fault: bool)
    requires Inv(c, s) && k in s.flights
    ensures k in LookUp(c, s, k, now, fault).flights
    ensures FlightSound(c, s.(seqNo := s.seqNo), k, LookUp(c, s, k, now, fault).flights[k])
  {
    assert FlightSound(c, s, k, s.flights[k]);
  }

  /** A blob written under a key nobody uses disturbs nothing. */
  lemma BlobKeepsInv(c: Config, s: State, b: Key, bytes: Bytes)
    requires Inv(c, s)
    requires forall k :: k in s.index ==> s.index[k].BytesKey() != b
    requires forall k, n: nat :: n > s.seqNo ==> b != c.versionKey(k, n)
    requires forall k :: k in s.flights ==> FlightAvoids(c, k, s.flights[k], b)
    ensures Inv(c, s.(storage := s.storage[b := bytes]))
  {
    var s' := s.(storage := s.storage[b := bytes]);
    forall k | k in s'.flights ensures FlightSound(c, s', k, s'.flights[k]) {
      assert FlightSound(c, s, k, s.flights[k]);
    }
  }

  /** The flight neither is about to write the key nor has written it. */
  ghost predicate FlightAvoids(c: Config, k: Key, f: Flight, b: Key) {
    match f
    case Writing(_, version, _) => c.kind(k) == Mutable ==> WriteKey(c, k, version) != b
    case Recording(_, record, _) => record.BytesKey() != b
    case _ => true
  }

  lemma WriteKeyAvoided(c: Config, s: State, k: Key, k': Key)
    requires c.WellFormed() && k in s.flights && k' in s.flights && k != k' && s.flights[k].Writing?
    requires FlightSound(c, s, k, s.flights[k]) && FlightSound(c, s, k', s.flights[k'])
    requires RecordsSound(c, s)
    ensures FlightAvoids(c, k', s.flights[k'], WriteKey(c, k, s.flights[k].version))
  {
    var version := s.flights[k].version;
    var b := WriteKey(c, k, version);
    if s.flights[k'].Writing? && c.kind(k') == Mutable {
      if WriteKey(c, k', s.flights[k'].version) == b && c.kind(k) == Mutable {
      }
    } else if s.flights[k'].Recording? {
      var Recording(prior, record, stored) := s.flights[k'];
      if stored.None? {
        assert record.BytesKey() == s.index[k'].BytesKey();
      }
    }
  }

  /** Whatever is stored passed every check and is stored byte for byte. */
  lemma StoredBodyAccepted(c: Config, r: Response, sum: Checksum, faults: StoreFaults)
    ensures var copied := CopyBody(c, r, sum, faults.copy);
      && (StoreError(copied, faults).None? <==> !faults.put && !faults.commit && faults.copy.Clean? && Accepted(c, r, sum))
      && (copied.Copied? ==> copied.bytes == r.body)
      && StoreError(copied, faults) != Some(NotFound)
  {
    CopyBodyAccepts(c, r, sum, faults.copy);
  }

  lemma StoreKeepsInv(c: Config, s: State, k: Key, sum: Checksum, faults: StoreFaults, now: int, victim: Key)
    requires c.WellFormed() && Inv(c, s) && Enabled(c, s, Store(k, sum, faults, now, victim))
    ensures Inv(c, StoreBody(c, s, k, sum, faults, now, victim))
  {
    var s', f := StoreBody(c, s, k, sum, faults, now, victim), s.flights[k];
    var copied := CopyBody(c, f.reply, sum, faults.copy);
    StoredBodyAccepted(c, f.reply, sum, faults);
    if StoreError(copied, faults).Some? {
      assert FlightSound(c, s, k, f);
      RememberBounded(s.negative, k, c.negativeTTL5xx, Mismatch, now, victim);
      MoveKeepsInv(c, s, k, s'.flights[k], s'.negative, s.seqNo);
    } else {
      CommittedKeepsInv(c, s, k, now);
      CommitsFree(c, s'.(commits := s.commits), s'.commits);
    }
  }

  lemma CommittedKeepsInv(c: Config, s: State, k: Key, now: int)
    requires c.WellFormed() && Inv(c, s) && k in s.flights && s.flights[k].Writing?
    ensures var f := s.flights[k];
      Inv(c, s.(storage := s.storage[WriteKey(c, k, f.version) := f.reply.body],
                flights := s.flights[k := Committed(c, k, f, |f.reply.body|, now)]))
  {
    var f := s.flights[k];
    var b := WriteKey(c, k, f.version);
    assert FlightSound(c, s, k, f);
    WriteKeyFree(c, s, k);
    // Before its blob appears the flight is as good as just begun.
    var s0 := Idle(c, s, k);
    BlobKeepsInv(c, s0, b, f.reply.body);
    var s1 := s0.(storage := s.storage[b := f.reply.body]);
    StoredFlightSound(c, s1, k, f, now);
    var committed := Committed(c, k, f, |f.reply.body|, now);
    Resume(c, s1, k, committed);
    UpdateTwice(s.flights, k, Started, committed);
  }

  lemma Idle(c: Config, s: State, k: Key) returns (s': State)
    requires Inv(c, s) && k in s.flights
    ensures s' == s.(flights := s.flights[k := Started]) && Inv(c, s')
  {
    assert FlightSound(c, s, k, s.flights[k]);
    MoveKeepsInv(c, s, k, Started, s.negative, s.seqNo);
    s' := s.(negative := s.negative, seqNo := s.seqNo, flights := s.flights[k := Started]);
  }

  lemma Resume(c: Config, s: State, k: Key, f: Flight)
    requires Inv(c, s) && FlightSound(c, s, k, f)
    ensures Inv(c, s.(flights := s.flights[k := f]))
  {
    assert s.(seqNo := s.seqNo) == s;
    MoveKeepsInv(c, s, k, f, s.negative, s.seqNo);
    assert s.(negative := s.negative, seqNo := s.seqNo, flights := s.flights[k := f]) == s.(flights := s.flights[k := f]);
  }

  lemma CommitsFree(c: Config, s: State, commits: seq<Key>)
    requires Inv(c, s)
    ensures Inv(c, s.(commits := commits))
  {
    forall k | k in s.flights ensures FlightSound(c, s.(commits := commits), k, s.flights[k]) {
      assert FlightSound(c, s, k, s.flights[k]);
    }
  }

  lemma WriteKeyFree(c: Config, s: State, k: Key)
    requires c.WellFormed() && Inv(c, s) && k in s.flights && s.flights[k].Writing?
    ensures var b := WriteKey(c, k, s.flights[k].version);
      && (forall k' :: k' in s.index ==> s.index[k'].BytesKey() != b)
      && (forall k', n: nat :: n > s.seqNo ==> b != c.versionKey(k', n))
      && (forall k' :: k' in s.flights && k' != k ==> FlightAvoids(c, k', s.flights[k'], b))
  {
    var b := WriteKey(c, k, s.flights[k].version);
    assert FlightSound(c, s, k, s.flights[k]);
    forall k', n: nat | n > s.seqNo ensures b != c.versionKey(k', n) {
      if c.kind(k) == Mutable && b == c.versionKey(k', n) {
      }
    }
    forall k' | k' in s.flights && k' != k ensures FlightAvoids(c, k', s.flights[k'], b) {
      assert FlightSound(c, s, k', s.flights[k']);
      WriteKeyAvoided(c, s, k, k');
    }
  }

  /** Once its blob is in place, the flight that wrote it may record it. */
  lemma StoredFlightSound(c: Config, s: State, k: Key, f: Flight, now: int)
    requires c.VersionsApart() && f.Writing? && c.kind(k) != Version && OldCurrent(s, k, f.prior)
    requires var b := WriteKey(c, k, f.version); b in s.storage && s.storage[b] == f.reply.body
    requires c.kind(k) == Mutable ==> f.version <= s.seqNo && Unreferenced(s, WriteKey(c, k, f.version))
    ensures FlightSound(c, s, k, Committed(c, k, f, |f.reply.body|, now))
  {
    assert c.kind(c.versionKey(k, f.version)) == Version;
  }

  /** A blob that nothing names may be handed to the deleters. */
  lemma DeletesGrow(c: Config, s: State, d: Key)
    requires Inv(c, s) && c.kind(d) != Immutable
    requires forall k :: k in s.index ==> s.index[k].BytesKey() != d
    requires forall k, n: nat :: n > s.seqNo ==> d != c.versionKey(k, n)
    requires forall k :: k in s.flights ==> FlightAvoids(c, k, s.flights[k], d)
    ensures Inv(c, s.(deletes := s.deletes + multiset{d}))
  {
    var s' := s.(deletes := s.deletes + multiset{d});
    forall k | k in s'.flights ensures FlightSound(c, s', k, s'.flights[k]) {
      assert FlightSound(c, s, k, s.flights[k]);
    }
  }

  /** The record of a key may move to a blob that no other record names. */
  lemma IndexMoves(c: Config, s: State, k: Key, record: Record, negative: map<Key, Negative>)
    requires Inv(c, s) && k in s.flights && s.flights[k].Started? && |negative| <= NEGATIVE_CAP
    requires record.key == k && c.kind(k) == Mutable && HasBlob(s, record)
    requires record.storageKey != "" ==> c.kind(record.storageKey) == Version
    requires forall k' :: k' in s.index && k' != k ==> s.index[k'].BytesKey() != record.BytesKey()
    requires record.BytesKey() !in s.deletes
    requires forall k', n: nat :: n > s.seqNo ==> record.BytesKey() != c.versionKey(k', n)
    requires forall k' :: k' in s.flights && k' != k ==> FlightAvoids(c, k', s.flights[k'], record.BytesKey())
    ensures Inv(c, s.(index := s.index[k := record], negative := negative))
  {
    var s' := s.(index := s.index[k := record], negative := negative);
    IndexMovesVersions(c, s, k, record, negative);
    IndexMovesFlights(c, s, k, record, negative);
    IndexMovesRecords(c, s, k, record, negative);
    hide FutureVersionsUnused, FlightsSound, RecordsSound, BlobsUnshared;
    assert DeletesSafe(c, s');
  }

  lemma IndexMovesRecords(c: Config, s: State, k: Key, record: Record, negative: map<Key, Negative>)
    requires RecordsSound(c, s) && BlobsUnshared(s)
    requires record.key == k && c.kind(k) == Mutable && HasBlob(s, record)
    requires record.storageKey != "" ==> c.kind(record.storageKey) == Version
    requires forall k' :: k' in s.index && k' != k ==> s.index[k'].BytesKey() != record.BytesKey()
    ensures RecordsSound(c, s.(index := s.index[k := record], negative := negative))
    ensures BlobsUnshared(s.(index := s.index[k := record], negative := negative))
  {
  }

  lemma IndexMovesVersions(c: Config, s: State, k: Key, record: Record, negative: map<Key, Negative>)
    requires FutureVersionsUnused(c, s)
    requires forall k', n: nat :: n > s.seqNo ==> record.BytesKey() != c.versionKey(k', n)
    ensures FutureVersionsUnused(c, s.(index := s.index[k := record], negative := negative))
  {
    var s' := s.(index := s.index[k := record], negative := negative);
    forall k': Key, n: nat | n > s.seqNo ensures Unused(s', c.versionKey(k', n)) {
      assert Unused(s, c.versionKey(k', n));
    }
  }

  lemma IndexMovesFlights(c: Config, s: State, k: Key, record: Record, negative: map<Key, Negative>)
    requires FlightsSound(c, s) && k in s.flights && s.flights[k].Started?
    requires forall k' :: k' in s.flights && k' != k ==> FlightAvoids(c, k', s.flights[k'], record.BytesKey())
    ensures FlightsSound(c, s.(index := s.index[k := record], negative := negative))
  {
    var s' := s.(index := s.index[k := record], negative := negative);
    forall k' | k' in s'.flights ensures FlightSound(c, s', k', s'.flights[k']) {
      assert FlightSound(c, s, k', s.flights[k']);
      if k' != k {
        IndexMovesPast(c, s, k, record, negative, k');
      }
    }
  }

  lemma IndexMovesPast(c: Config, s: State, k: Key, record: Record, negative: map<Key, Negative>, k': Key)
    requires k' in s.flights && k' != k && FlightSound(c, s, k', s.flights[k'])
    requires FlightAvoids(c, k', s.flights[k'], record.BytesKey())
    requires s.flights[k'].Recording? && s.flights[k'].stored.Some? ==> s.flights[k'].record.storageKey != ""
    ensures FlightSound(c, s.(index := s.index[k := record], negative := negative), k', s.flights[k'])
  {
  }

  lemma UpdateTwice<K, V>(m: map<K, V>, k: K, v: V, v': V)
    ensures m[k := v][k := v'] == m[k := v']
  {
  }

  /** What a flight that is about to write its record may rely on. */
  lemma RecordingFacts(c: Config, s: State, k: Key)
    requires c.WellFormed() && Inv(c, s) && k in s.flights && s.flights[k].Recording?
    ensures var record := s.flights[k].record; var b := record.BytesKey();
      && record.key == k && c.kind(k) == Mutable && HasBlob(s, record)
      && (record.storageKey != "" ==> c.kind(record.storageKey) == Version) && c.kind(b) != Immutable
      && (forall k' :: k' in s.index && k' != k ==> s.index[k'].BytesKey() != b)
      && (s.flights[k].stored.Some? && k in s.index ==> s.index[k].BytesKey() != b)
      && b !in s.deletes
      && (forall k', n: nat :: n > s.seqNo ==> b != c.versionKey(k', n))
      && (forall k' :: k' in s.flights && k' != k ==> FlightAvoids(c, k', s.flights[k'], b))
  {
    var f := s.flights[k];
    assert FlightSound(c, s, k, f);
    if f.stored.None? {
      assert f.record.BytesKey() == s.index[k].BytesKey();
      BlobKeyFacts(c, s, k);
    } else {
      var version := f.stored.value;
      forall k', n: nat | n > s.seqNo ensures f.record.BytesKey() != c.versionKey(k', n) {
        if f.record.BytesKey() == c.versionKey(k', n) {
        }
      }
      forall k' | k' in s.flights && k' != k ensures FlightAvoids(c, k', s.flights[k'], f.record.BytesKey()) {
        assert FlightSound(c, s, k', s.flights[k']);
        StoredKeyAvoided(c, s, k, version, k');
      }
    }
  }

  /** The blob of a current record is referenced by nothing else. */
  lemma BlobKeyFacts(c: Config, s: State, k: Key)
    requires Inv(c, s) && k in s.index
    ensures var b := s.index[k].BytesKey();
      && c.kind(b) != Immutable && b !in s.deletes
      && (forall k' :: k' in s.index && k' != k ==> s.index[k'].BytesKey() != b)
      && (forall k', n: nat :: n > s.seqNo ==> b != c.versionKey(k', n))
      && (forall k' :: k' in s.flights && k' != k ==> FlightAvoids(c, k', s.flights[k'], b))
  {
    var b := s.index[k].BytesKey();
    forall k', n: nat | n > s.seqNo ensures b != c.versionKey(k', n) {
      assert Unused(s, c.versionKey(k', n));
    }
    forall k' | k' in s.flights && k' != k ensures FlightAvoids(c, k', s.flights[k'], b) {
      assert FlightSound(c, s, k', s.flights[k']);
      if s.flights[k'].Recording? && s.flights[k'].stored.None? {
        assert s.flights[k'].record.BytesKey() == s.index[k'].BytesKey();
      }
    }
  }

  lemma StoredKeyAvoided(c: Config, s: State, k: Key, version: nat, k': Key)
    requires c.WellFormed() && RecordsSound(c, s) && k' in s.flights && k != k' && c.kind(k) == Mutable
    requires Unreferenced(s, c.versionKey(k, version))
    requires FlightSound(c, s, k', s.flights[k'])
    ensures FlightAvoids(c, k', s.flights[k'], c.versionKey(k, version))
  {
    var b := c.versionKey(k, version);
    if s.flights[k'].Writing? && c.kind(k') == Mutable {
      if WriteKey(c, k', s.flights[k'].version) == b {
      }
    } else if s.flights[k'].Recording? {
      var Recording(prior, record, stored) := s.flights[k'];
      if stored.None? {
        assert record.BytesKey() == s.index[k'].BytesKey();
      } else if record.storageKey == b {
      } else {
      }
    }
  }

  lemma FailedRecordKeepsInv(c: Config, s: State, k: Key)
    requires c.WellFormed() && Inv(c, s) && Enabled(c, s, WriteIndex(k, true))
    ensures Inv(c, WriteRecord(s, k, true))
  {
    var f, failed := s.flights[k], Done(Failed(Failure));
    RecordingFacts(c, s, k);
    assert FlightSound(c, s, k, failed);
    Resume(c, s, k, failed);
    if f.stored.Some? {
      DeletesGrow(c, At(s, k, failed), f.record.BytesKey());
    }
  }

  lemma FetchedSound(c: Config, s: State, k: Key, record: Record, revalidated: bool)
    requires c.kind(k) == Mutable && k in s.index && s.index[k] == record
    ensures FlightSound(c, s, k, Done(Fetched(record, revalidated)))
  {
  }

  lemma IndexedKeepsInv(c: Config, s: State, k: Key)
    requires c.WellFormed() && Inv(c, s) && Enabled(c, s, WriteIndex(k, false))
    ensures var f := s.flights[k];
      Inv(c, s.(index := s.index[k := f.record], negative := s.negative - {k}, flights := s.flights[k := Started]))
  {
    RecordingFacts(c, s, k);
    NegativeBounded(c, s);
    SubsetCount((s.negative - {k}).Keys, s.negative.Keys);
    var s0 := Idle(c, s, k);
    IndexMoves(c, s0, k, s.flights[k].record, s.negative - {k});
  }

  /** The record moves to a blob nobody else names. */
  lemma MovedRecordKeepsInv(c: Config, s: State, k: Key)
    requires c.WellFormed() && Inv(c, s) && Enabled(c, s, WriteIndex(k, false))
    ensures var f := s.flights[k];
      Inv(c, s.(index := s.index[k := f.record], negative := s.negative - {k},
                flights := s.flights[k := Done(Fetched(f.record, f.stored.None?))]))
  {
    hide Inv;
    var f := s.flights[k];
    RecordingFacts(c, s, k);
    IndexedKeepsInv(c, s, k);
    var s1 := s.(index := s.index[k := f.record], negative := s.negative - {k}, flights := s.flights[k := Started]);
    var done := Done(Fetched(f.record, f.stored.None?));
    FetchedSound(c, s1, k, f.record, f.stored.None?);
    Resume(c, s1, k, done);
    UpdateTwice(s.flights, k, Started, done);
  }

  /** The index write as a whole: the replaced blob goes to the deleters. */
  lemma RecordKeepsInv(c: Config, s: State, k: Key, fault: bool)
    requires c.WellFormed() && Inv(c, s) && Enabled(c, s, WriteIndex(k, fault))
    ensures Inv(c, WriteRecord(s, k, fault))
  {
    hide Inv;
    if fault {
      hide WriteRecord;
      FailedRecordKeepsInv(c, s, k);
    } else {
      MovedRecordKeepsInv(c, s, k);
      if s.flights[k].stored.Some? && s.flights[k].prior.Some? {
        ReplacementKeepsInv(c, s, k);
      }
    }
  }

  lemma ReplacementKeepsInv(c: Config, s: State, k: Key)
    requires c.WellFormed() && Inv(c, s) && Enabled(c, s, WriteIndex(k, false))
    requires s.flights[k].stored.Some? && s.flights[k].prior.Some?
    ensures Inv(c, WriteRecord(s, k, false))
  {
    hide Inv;
    var f := s.flights[k];
    MovedRecordKeepsInv(c, s, k);
    ReplacedBlobFree(c, s, k);
    var moved := s.(index := s.index[k := f.record], negative := s.negative - {k},
                    flights := s.flights[k := Done(Fetched(f.record, false))]);
    DeletesGrow(c, moved, f.prior.value.BytesKey());
  }

  lemma NegativeBounded(c: Config, s: State)
    requires Inv(c, s)
    ensures |s.negative| <= NEGATIVE_CAP
  {
  }

  lemma ReplacedBlobFree(c: Config, s: State, k: Key)
    requires c.WellFormed() && Inv(c, s) && k in s.flights && s.flights[k].Recording?
    requires s.flights[k].prior.Some? && s.flights[k].stored.Some?
    ensures var d := s.flights[k].prior.value.BytesKey();
      && c.kind(d) != Immutable
      && s.flights[k].record.BytesKey() != d
      && (forall k' :: k' in s.index && k' != k ==> s.index[k'].BytesKey() != d)
      && (forall k', n: nat :: n > s.seqNo ==> d != c.versionKey(k', n))
      && (forall k' :: k' in s.flights && k' != k ==> FlightAvoids(c, k', s.flights[k'], d))
  {
    assert FlightSound(c, s, k, s.flights[k]);
    RecordingFacts(c, s, k);
    BlobKeyFacts(c, s, k);
  }

  /** A blob that neither a record nor a flight relies on may disappear. */
  lemma BlobGone(c: Config, s: State, b: Key, deletes: multiset<Key>)
    requires Inv(c, s) && deletes <= s.deletes
    requires forall k :: k in s.index ==> s.index[k].BytesKey() != b
    requires forall k :: k in s.flights && s.flights[k].Recording? ==> s.flights[k].record.BytesKey() != b
    ensures Inv(c, s.(storage := s.storage - {b}, deletes := deletes))
  {
    var s' := s.(storage := s.storage - {b}, deletes := deletes);
    assert forall x :: x in deletes ==> x in s.deletes;
    FutureVersionsStayUnused(c, s, s');
    BlobGoneFlights(c, s, b, deletes);
    BlobGoneRecords(c, s, b, deletes);
    hide FutureVersionsUnused, FlightsSound, RecordsSound, BlobsUnshared, DeletesSafe;
    assert Inv(c, s');
  }

  lemma BlobGoneRecords(c: Config, s: State, b: Key, deletes: multiset<Key>)
    requires RecordsSound(c, s) && BlobsUnshared(s) && DeletesSafe(c, s) && forall x :: x in deletes ==> x in s.deletes
    requires forall k :: k in s.index ==> s.index[k].BytesKey() != b
    ensures var s' := s.(storage := s.storage - {b}, deletes := deletes);
      RecordsSound(c, s') && BlobsUnshared(s') && DeletesSafe(c, s')
  {
  }

  lemma FutureVersionsStayUnused(c: Config, s: State, s': State)
    requires FutureVersionsUnused(c, s) && s'.index == s.index && s'.seqNo == s.seqNo
    requires s'.storage.Keys <= s.storage.Keys && forall x :: x in s'.deletes ==> x in s.deletes
    ensures FutureVersionsUnused(c, s')
  {
    forall k: Key, n: nat | n > s.seqNo ensures Unused(s', c.versionKey(k, n)) {
      assert Unused(s, c.versionKey(k, n));
    }
  }

  lemma BlobGoneFlights(c: Config, s: State, b: Key, deletes: multiset<Key>)
    requires FlightsSound(c, s) && forall x :: x in deletes ==> x in s.deletes
    requires forall k :: k in s.flights && s.flights[k].Recording? ==> s.flights[k].record.BytesKey() != b
    ensures FlightsSound(c, s.(storage := s.storage - {b}, deletes := deletes))
  {
    forall k | k in s.flights ensures FlightSound(c, s.(storage := s.storage - {b}, deletes := deletes), k, s.flights[k]) {
      BlobGoneFlight(c, s, b, deletes, k);
    }
  }

  lemma BlobGoneFlight(c: Config, s: State, b: Key, deletes: multiset<Key>, k: Key)
    requires k in s.flights && FlightSound(c, s, k, s.flights[k])
    requires forall x :: x in deletes ==> x in s.deletes
    requires s.flights[k].Recording? ==> s.flights[k].record.BytesKey() != b
    ensures FlightSound(c, s.(storage := s.storage - {b}, deletes := deletes), k, s.flights[k])
  {
  }

  /** No flight relies on a blob that is queued for deletion or that is immutable. */
  lemma RecordingBlobs(c: Config, s: State, k: Key)
    requires c.VersionsApart() && RecordsSound(c, s) && DeletesSafe(c, s)
    requires k in s.flights && s.flights[k].Recording? && FlightSound(c, s, k, s.flights[k])
    ensures var b := s.flights[k].record.BytesKey(); b !in s.deletes && c.kind(b) != Immutable
  {
    var f := s.flights[k];
    if f.stored.None? {
      assert f.record.BytesKey() == s.index[k].BytesKey();
    } else {
      assert c.kind(c.versionKey(k, f.stored.value)) == Version;
    }
  }

  lemma DeleteKeepsInv(c: Config, s: State, d: Key, fault: bool)
    requires c.WellFormed() && Inv(c, s) && d in s.deletes
    ensures Inv(c, Step(c, s, Delete(d, fault)))
  {
    forall k | k in s.flights && s.flights[k].Recording? ensures s.flights[k].record.BytesKey() != d {
      assert FlightSound(c, s, k, s.flights[k]);
      RecordingBlobs(c, s, k);
    }
    BlobGone(c, s, d, s.deletes - multiset{d});
    if fault {
      DeletionDropped(c, s, s.deletes - multiset{d});
    }
  }

  lemma DeletionDropped(c: Config, s: State, deletes: multiset<Key>)
    requires Inv(c, s) && deletes <= s.deletes
    ensures Inv(c, s.(deletes := deletes))
  {
    var s' := s.(deletes := deletes);
    assert forall x :: x in deletes ==> x in s.deletes;
    forall k | k in s'.flights ensures FlightSound(c, s', k, s'.flights[k]) {
      assert FlightSound(c, s, k, s.flights[k]);
    }
  }

  /** Neither records nor flights rely on the blob of an immutable object. */
  lemma ReliedOnBlobs(c: Config, s: State, b: Key)
    requires c.VersionsApart() && RecordsSound(c, s) && DeletesSafe(c, s) && FlightsSound(c, s)
    requires c.kind(b) == Immutable
    ensures forall k :: k in s.index ==> s.index[k].BytesKey() != b
    ensures forall k :: k in s.flights && s.flights[k].Recording? ==> s.flights[k].record.BytesKey() != b
  {
    forall k | k in s.flights && s.flights[k].Recording? ensures s.flights[k].record.BytesKey() != b {
      assert FlightSound(c, s, k, s.flights[k]);
      RecordingBlobs(c, s, k);
    }
  }

  lemma EvictKeepsInv(c: Config, s: State, b: Key)
    requires c.WellFormed() && Inv(c, s) && c.kind(b) == Immutable
    ensures Inv(c, Step(c, s, Evict(b)))
  {
    ReliedOnBlobs(c, s, b);
    hide Inv;
    BlobGone(c, s, b, s.deletes);
    assert s.(storage := s.storage - {b}, deletes := s.deletes) == s.(storage := s.storage - {b});
  }

  lemma FinishKeepsInv(c: Config, s: State, k: Key)
    requires Inv(c, s)
    ensures Inv(c, s.(flights := s.flights - {k}))
  {
    var s' := s.(flights := s.flights - {k});
    forall k' | k' in s'.flights ensures FlightSound(c, s', k', s'.flights[k']) {
      assert FlightSound(c, s, k', s.flights[k']);
    }
  }

  /** Every step of every flight, deleter and evicter keeps the invariant. */
  lemma StepKeepsInv(c: Config, s: State, l: Label)
    requires c.WellFormed() && Inv(c, s) && Enabled(c, s, l)
    ensures Inv(c, Step(c, s, l))
  {
    match l
    case Begin(k) => Resume(c, s, k, Started);
    case Look(k, now, fault) => LookKeepsInv(c, s, k, now, fault);
    case Answer(k, reply, now, victim) => AnswerKeepsInv(c, s, k, reply, now, victim);
    case Store(k, sum, faults, now, victim) => StoreKeepsInv(c, s, k, sum, faults, now, victim);
    case WriteIndex(k, fault) => RecordKeepsInv(c, s, k, fault);
    case Finish(k) => FinishKeepsInv(c, s, k);
    case Delete(d, fault) => DeleteKeepsInv(c, s, d, fault);
    case Evict(b) => EvictKeepsInv(c, s, b);
  }

  // ---- runs ----

  ghost predicate Run(c: Config, states: seq<State>, labels: seq<Label>) {
    && |states| == |labels| + 1 && Init(c, states[0])
    && forall i :: 0 <= i < |labels| ==>
        Enabled(c, states[i], labels[i]) && states[i + 1] == Step(c, states[i], labels[i])
  }

  /** In every state of every run each index record names a stored blob of exactly the
      recorded size, and no queued deletion names it. */
  lemma {:induction false} IndexAlwaysBacked(c: Config, states: seq<State>, labels: seq<Label>, i: nat)
    requires c.WellFormed() && Run(c, states, labels) && i < |states|
    ensures Inv(c, states[i])
    ensures forall k :: k in states[i].index ==>
      HasBlob(states[i], states[i].index[k]) && states[i].index[k].BytesKey() !in states[i].deletes
  {
    if i > 0 {
      IndexAlwaysBacked(c, states, labels, i - 1);
      StepKeepsInv(c, states[i - 1], labels[i - 1]);
    }
  }
}
