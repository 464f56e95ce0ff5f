/** Sessions: signed tokens with a version and a jti, revocations that outlive the process,
    and an in-memory map that is only a shortcut. Times are in nanoseconds. */
module Sessions {
  type Uid = nat
  type Jti = string

  const SECOND := 1_000_000_000
  const MAX_REVOKED_MEMORY := 10000

  /** The claims of a token; `exp` is in whole seconds. Only issued tokens carry a valid
      signature. */
  datatype Token = Token(sub: Uid, jti: Jti, ver: int, exp: int)

  /** `issued` and `revoked` record what happened: all tokens ever signed, and the jtis
      whose RevokeSession returned without error. */
  datatype State = State(
    users: map<Uid, int>, nextUid: Uid, revocations: map<Jti, int>, memory: map<Jti, int>,
    issued: set<Token>, revoked: set<Jti>, clock: int)

  datatype Label =
    | Issue(sub: Uid, jti: Jti, ver: int, now: int)
    | Revoke(jti: Jti, now: int, later: int, fault: bool, kept: map<Jti, int>)
    | Forget(jti: Jti, now: int)
    | Bump(uid: Uid)
    | AddUser
    | RemoveUser(uid: Uid)
    | Restart

  function Expiry(ttl: int, now: int): int {
    (now + ttl) / SECOND
  }

  /** InsertRevocation drops what has expired before now. */
  function Purged(revocations: map<Jti, int>, now: int): map<Jti, int> {
    map j | j in revocations && !(revocations[j] < now) :: revocations[j]
  }

  function Inserted(revocations: map<Jti, int>, jti: Jti, now: int, until: int): map<Jti, int> {
    Purged(revocations, now)[jti := until]
  }

  /** rememberRevoked: expired entries go, arbitrary others give way at the cap of ten
      thousand, and only there. */
  ghost predicate Remembered(memory: map<Jti, int>, jti: Jti, now: int, until: int, kept: map<Jti, int>) {
    && jti in kept && kept[jti] == until && |kept| <= 10000
    && (forall j :: j in kept && j != jti ==> j in memory && kept[j] == memory[j] && now < memory[j])
    && (|kept| >= 9999 || forall j :: j in memory && now < memory[j] ==> j in kept)
  }

  /** The clock only moves forward, ids of users and of sessions are never reused, and a
      token carries a version that its user had at some time. */
  ghost predicate Enabled(ttl: int, s: State, l: Label) {
    match l
    case Issue(sub, jti, ver, now) => now >= s.clock && jti !in s.revoked && sub in s.users && ver <= s.users[sub]
    case Revoke(jti, now, later, _, kept) =>
      s.clock <= now <= later && jti != "" && Remembered(s.memory, jti, later, now + ttl, kept)
    case Forget(jti, now) => now >= s.clock && jti in s.memory && s.memory[jti] <= now
    case Bump(uid) => uid in s.users
    case AddUser => true
    case RemoveUser(uid) => uid in s.users
    case Restart => true
  }

  function Step(ttl: int, s: State, l: Label): State {
    match l
    case Issue(sub, jti, ver, now) => s.(issued := s.issued + {Token(sub, jti, ver, Expiry(ttl, now))}, clock := now)
    case Revoke(jti, now, later, fault, kept) =>
      s.(revocations := if fault then s.revocations else Inserted(s.revocations, jti, now, now + ttl),
         memory := kept, revoked := if fault then s.revoked else s.revoked + {jti}, clock := later)
    case Forget(jti, now) => s.(memory := s.memory - {jti}, clock := now)
    case Bump(uid) => if uid in s.users then s.(users := s.users[uid := s.users[uid] + 1]) else s
    case AddUser => s.(users := s.users[s.nextUid := 1], nextUid := s.nextUid + 1)
    case RemoveUser(uid) => s.(users := s.users - {uid})
    case Restart => s.(memory := map[])
  }

  // ---- validation ----

  predicate RevokedInMemory(memory: map<Jti, int>, jti: Jti, now: int) {
    jti in memory && now < memory[jti]
  }

  predicate IsRevoked(revocations: map<Jti, int>, jti: Jti, now: int) {
    jti in revocations && !(revocations[jti] < now)
  }

  /** ValidateSession, with the clock as it is read for the expiry, for the map in memory
      and for the store. */
  predicate Accepts(s: State, t: Token, atExpiry: int, atMemory: int, atStore: int) {
    && atExpiry < t.exp * SECOND
    && t.sub in s.users && t.ver == s.users[t.sub]
    && t.jti != "" && !RevokedInMemory(s.memory, t.jti, atMemory) && !IsRevoked(s.revocations, t.jti, atStore)
  }

  /** Acceptance on the data themselves. */
  lemma AcceptsMeans(s: State, t: Token, atExpiry: int, atMemory: int, atStore: int)
    ensures Accepts(s, t, atExpiry, atMemory, atStore) <==>
      && atExpiry < t.exp * 1_000_000_000
      && t.sub in s.users && s.users[t.sub] == t.ver && t.jti != ""
      && (t.jti in s.memory ==> s.memory[t.jti] <= atMemory)
      && (t.jti in s.revocations ==> s.revocations[t.jti] < atStore)
  {
  }

  // ---- what holds in every state ----

  /** A revocation outlives the token, or the token has expired. */
  ghost predicate Covered(s: State, t: Token) {
    (t.jti in s.revocations && s.revocations[t.jti] >= t.exp * SECOND) || t.exp * SECOND < s.clock
  }

  ghost predicate Inv(ttl: int, s: State) {
    TokensSound(ttl, s) && |s.memory| <= MAX_REVOKED_MEMORY
  }

  ghost predicate TokensSound(ttl: int, s: State) {
    && (forall t :: t in s.issued ==> t.exp * SECOND <= s.clock + ttl)
    && (forall t :: t in s.issued && t.jti in s.revoked ==> Covered(s, t))
    && (forall t :: t in s.issued && t.sub in s.users ==> t.ver <= s.users[t.sub])
    && (forall t :: t in s.issued ==> t.sub < s.nextUid)
    && (forall uid :: uid in s.users ==> uid < s.nextUid)
  }

  lemma ExpiryBounds(ttl: int, now: int)
    ensures Expiry(ttl, now) * SECOND <= now + ttl < Expiry(ttl, now) * SECOND + SECOND
  {
  }

  lemma RevokeKeepsTokens(ttl: int, s: State, l: Label)
    requires TokensSound(ttl, s) && Enabled(ttl, s, l) && l.Revoke?
    ensures TokensSound(ttl, Step(ttl, s, l))
  {
    var s' := Step(ttl, s, l);
    forall t | t in s'.issued && t.jti in s'.revoked ensures Covered(s', t) {
      if t.jti in s.revoked {
        assert Covered(s, t);
      }
    }
  }

  lemma IssueKeepsTokens(ttl: int, s: State, l: Label)
    requires TokensSound(ttl, s) && Enabled(ttl, s, l) && l.Issue?
    ensures TokensSound(ttl, Step(ttl, s, l))
  {
    ExpiryBounds(ttl, l.now);
    hide Expiry;
  }

  lemma StepKeepsTokens(ttl: int, s: State, l: Label)
    requires TokensSound(ttl, s) && Enabled(ttl, s, l)
    ensures TokensSound(ttl, Step(ttl, s, l))
  {
    hide Expiry, Remembered, Purged;
    if l.Revoke? {
      RevokeKeepsTokens(ttl, s, l);
    } else if l.Issue? {
      IssueKeepsTokens(ttl, s, l);
    }
  }

  lemma StepKeepsInv(ttl: int, s: State, l: Label)
    requires Inv(ttl, s) && Enabled(ttl, s, l)
    ensures Inv(ttl, Step(ttl, s, l))
  {
    StepKeepsTokens(ttl, s, l);
    hide TokensSound;
    if l.Forget? {
      assert (s.memory - {l.jti}).Keys == s.memory.Keys - {l.jti};
    }
  }

  ghost predicate Init(s: State) {
    && s.memory == map[] && s.issued == {} && s.revoked == {}
    && forall uid :: uid in s.users ==> uid < s.nextUid
  }

  ghost predicate Follows(ttl: int, states: seq<State>, labels: seq<Label>) {
    && |states| == |labels| + 1
    && forall i :: 0 <= i < |labels| ==> Enabled(ttl, states[i], labels[i]) && states[i + 1] == Step(ttl, states[i], labels[i])
  }

  lemma {:induction false} RunKeepsInv(ttl: int, states: seq<State>, labels: seq<Label>, i: nat)
    requires Follows(ttl, states, labels) && Init(states[0]) && i < |states|
    ensures Inv(ttl, states[i])
  {
    hide Step, Enabled;
    if i > 0 {
      RunKeepsInv(ttl, states, labels, i - 1);
      hide Inv;
      StepKeepsInv(ttl, states[i - 1], labels[i - 1]);
    }
  }

  lemma {:induction false} RevokedForGood(ttl: int, states: seq<State>, labels: seq<Label>, i: nat, j: nat, jti: Jti)
    requires Follows(ttl, states, labels) && i <= j < |states| && jti in states[i].revoked
    ensures jti in states[j].revoked
    decreases j
  {
    if i < j {
      RevokedForGood(ttl, states, labels, i, j - 1, jti);
      assert states[j] == Step(ttl, states[j - 1], labels[j - 1]);
    }
  }

  /** The store revokes the session at least until that time, unless it has passed. */
  ghost predicate RevokedUntil(ttl: int, s: State, jti: Jti, until: int) {
    && until <= s.clock + ttl
    && ((jti in s.revocations && s.revocations[jti] >= until) || until < s.clock)
  }

  lemma StepKeepsRevocation(ttl: int, s: State, l: Label, jti: Jti, until: int)
    requires RevokedUntil(ttl, s, jti, until) && Enabled(ttl, s, l)
    ensures RevokedUntil(ttl, Step(ttl, s, l), jti, until)
  {
    hide Expiry, Remembered;
  }

  /** No token of the session is signed once it has been revoked. */
  lemma StepSignsNothing(ttl: int, s: State, l: Label, t: Token)
    requires Enabled(ttl, s, l) && t.jti in s.revoked && t in Step(ttl, s, l).issued
    ensures t in s.issued && t.jti in Step(ttl, s, l).revoked
  {
  }

  lemma RevocationStarts(ttl: int, s: State, l: Label, t: Token)
    requires Enabled(ttl, s, l) && l.Revoke? && !l.fault && l.jti == t.jti && t in Step(ttl, s, l).issued
    ensures t in s.issued && RevokedUntil(ttl, Step(ttl, s, l), t.jti, l.now + ttl)
  {
    hide Remembered, Purged;
  }

  lemma {:induction false} RevocationLasts(
      ttl: int, states: seq<State>, labels: seq<Label>, i: nat, j: nat, t: Token)
    requires Follows(ttl, states, labels) && i < j < |states| && t in states[j].issued
    requires labels[i].Revoke? && !labels[i].fault && labels[i].jti == t.jti
    ensures t in states[i].issued && RevokedUntil(ttl, states[j], t.jti, labels[i].now + ttl)
  {
    hide Step, Enabled, RevokedUntil;
    assert Enabled(ttl, states[j - 1], labels[j - 1]) && states[j] == Step(ttl, states[j - 1], labels[j - 1]);
    if i == j - 1 {
      RevocationStarts(ttl, states[i], labels[i], t);
    } else {
      RevokedAtOnce(ttl, states[i], labels[i]);
      RevokedForGood(ttl, states, labels, i + 1, j - 1, t.jti);
      StepSignsNothing(ttl, states[j - 1], labels[j - 1], t);
      RevocationLasts(ttl, states, labels, i, j - 1, t);
      StepKeepsRevocation(ttl, states[j - 1], labels[j - 1], t.jti, labels[i].now + ttl);
    }
  }

  lemma RevokedAtOnce(ttl: int, s: State, l: Label)
    requires l.Revoke? && !l.fault
    ensures l.jti in Step(ttl, s, l).revoked
  {
  }

  /** Once RevokeSession has returned without error, a token of that session can only be
      accepted by a validation that looks at the expiry before the token expires and asks
      the store after the revocation, which outlives it, has expired too: across restarts,
      evictions from the map and purges of the store. */
  lemma RevokedNeverAccepted(
      ttl: int, states: seq<State>, labels: seq<Label>, i: nat, j: nat, t: Token, atExpiry: int, atMemory: int, atStore: int)
    requires Follows(ttl, states, labels) && Init(states[0]) && i < j < |states|
    requires labels[i].Revoke? && !labels[i].fault && labels[i].jti == t.jti && t in states[j].issued
    requires states[j].clock <= atExpiry <= atMemory <= atStore
    ensures Accepts(states[j], t, atExpiry, atMemory, atStore) ==>
      atExpiry < t.exp * SECOND <= labels[i].now + ttl < atStore
  {
    RevocationLasts(ttl, states, labels, i, j, t);
    RunKeepsInv(ttl, states, labels, i);
    assert t.exp * SECOND <= states[i].clock + ttl;
  }

  /** Right after the revocation the bound is exact: while the map still has its entry, a
      validation accepts if and only if the token is unexpired and current at its first
      look and the revocation has expired at both others. */
  lemma AcceptedExactly(ttl: int, s: State, l: Label, t: Token, atExpiry: int, atMemory: int, atStore: int)
    requires Enabled(ttl, s, l) && l.Revoke? && !l.fault && l.jti == t.jti
    ensures Accepts(Step(ttl, s, l), t, atExpiry, atMemory, atStore) <==>
      && atExpiry < t.exp * SECOND && t.sub in s.users && t.ver == s.users[t.sub]
      && l.now + ttl <= atMemory && l.now + ttl < atStore
  {
    hide Purged;
  }

  /** Such validations exist: a session of ten seconds, revoked at once, is accepted by one
      that reads 9, 10 and just over 10 seconds. */
  lemma AcceptedAfterRevocation() returns (ttl: int, states: seq<State>, labels: seq<Label>, t: Token)
    ensures ttl == 10 * SECOND && Follows(ttl, states, labels) && Init(states[0]) && |labels| == 3
    ensures labels[2].Revoke? && !labels[2].fault && labels[2].jti == t.jti && t in states[2].issued
    ensures Accepts(states[3], t, 9 * SECOND, 10 * SECOND, 10 * SECOND + 1)
  {
    ttl := 10 * SECOND;
    t := Token(0, "j", 1, 10);
    var s0 := State(map[], 0, map[], map[], {}, {}, 0);
    var s1 := s0.(users := map[0 := 1], nextUid := 1);
    var s2 := s1.(issued := {t});
    labels := [AddUser, Issue(0, "j", 1, 0), Revoke("j", 0, 0, false, map["j" := ttl])];
    var s3 := Step(ttl, s2, labels[2]);
    states := [s0, s1, s2, s3];
    assert Step(ttl, s1, labels[1]) == s2;
    assert |map["j" := ttl]| == 1;
    assert Enabled(ttl, s2, labels[2]);
    AcceptedExactly(ttl, s2, labels[2], t, 9 * SECOND, 10 * SECOND, 10 * SECOND + 1);
  }

  /** Even a failed insert silences the session in this process until the map forgets it. */
  lemma FailedRevokeStillCounts(ttl: int, s: State, l: Label, t: Token, atExpiry: int, atMemory: int, atStore: int)
    requires Inv(ttl, s) && Enabled(ttl, s, l) && l.Revoke? && l.jti == t.jti && t in s.issued
    requires l.later <= atExpiry <= atMemory <= atStore
    ensures Accepts(Step(ttl, s, l), t, atExpiry, atMemory, atStore) ==> atExpiry < t.exp * SECOND <= atMemory
  {
  }

  // ---- sessions that nobody ends ----

  /** Nothing speaks against the token but its expiry. */
  ghost predicate Unchallenged(s: State, t: Token) {
    && t.jti != "" && t.jti !in s.revocations && t.jti !in s.memory
    && t.sub in s.users && s.users[t.sub] == t.ver && t.sub < s.nextUid
  }

  /** The step neither revokes the session nor changes or removes its user. */
  predicate Spares(l: Label, t: Token) {
    !(l.Revoke? && l.jti == t.jti) && l != Bump(t.sub) && l != RemoveUser(t.sub)
  }

  lemma StepKeepsUnchallenged(ttl: int, s: State, l: Label, t: Token)
    requires Unchallenged(s, t) && Enabled(ttl, s, l) && Spares(l, t)
    ensures Unchallenged(Step(ttl, s, l), t)
  {
    hide Expiry;
  }

  lemma {:induction false} UnchallengedAlong(ttl: int, states: seq<State>, labels: seq<Label>, i: nat, j: nat, t: Token)
    requires Follows(ttl, states, labels) && i <= j < |states| && Unchallenged(states[i], t)
    requires forall n :: i <= n < j ==> Spares(labels[n], t)
    ensures Unchallenged(states[j], t)
    decreases j
  {
    hide Step, Enabled, Unchallenged, Spares;
    if i < j {
      UnchallengedAlong(ttl, states, labels, i, j - 1, t);
      StepKeepsUnchallenged(ttl, states[j - 1], labels[j - 1], t);
    }
  }

  /** A session that is issued with the version of its user and a jti that nobody has revoked
      is accepted at every later state, whatever happens to other sessions and users,
      across restarts, exactly until it expires: as long as nobody revokes it and its user
      stays and keeps the version. */
  lemma AcceptedUntilExpiry(
      ttl: int, states: seq<State>, labels: seq<Label>, i: nat, j: nat, atExpiry: int, atMemory: int, atStore: int)
    requires Follows(ttl, states, labels) && Init(states[0]) && i < j < |states| && labels[i].Issue?
    requires labels[i].jti != "" && labels[i].jti !in states[i].revocations && labels[i].jti !in states[i].memory
    requires labels[i].ver == states[i].users[labels[i].sub]
    requires forall n :: i < n < j ==> Spares(labels[n], Token(labels[i].sub, labels[i].jti, labels[i].ver, Expiry(ttl, labels[i].now)))
    ensures var t := Token(labels[i].sub, labels[i].jti, labels[i].ver, Expiry(ttl, labels[i].now));
      && t in states[i + 1].issued
      && (Accepts(states[j], t, atExpiry, atMemory, atStore) <==> atExpiry < t.exp * SECOND)
      && t.exp * SECOND <= labels[i].now + ttl < (t.exp + 1) * SECOND
  {
    var t := Token(labels[i].sub, labels[i].jti, labels[i].ver, Expiry(ttl, labels[i].now));
    RunKeepsInv(ttl, states, labels, i);
    ExpiryBounds(ttl, labels[i].now);
    FreshUnchallenged(ttl, states[i], labels[i]);
    UnchallengedAlong(ttl, states, labels, i + 1, j, t);
    hide Step, Expiry;
  }

  lemma FreshUnchallenged(ttl: int, s: State, l: Label)
    requires Inv(ttl, s) && l.Issue? && Enabled(ttl, s, l) && l.ver == s.users[l.sub]
    requires l.jti != "" && l.jti !in s.revocations && l.jti !in s.memory
    ensures var t := Token(l.sub, l.jti, l.ver, Expiry(ttl, l.now));
      t in Step(ttl, s, l).issued && Unchallenged(Step(ttl, s, l), t)
  {
    hide Expiry;
  }

  // ---- versions ----

  lemma {:induction false} VersionsGrow(ttl: int, states: seq<State>, labels: seq<Label>, i: nat, j: nat, uid: Uid)
    requires Follows(ttl, states, labels) && Init(states[0]) && i <= j < |states| && uid < states[i].nextUid
    ensures uid in states[j].users ==> uid in states[i].users && states[j].users[uid] >= states[i].users[uid]
    ensures uid < states[j].nextUid
    decreases j
  {
    if i < j {
      VersionsGrow(ttl, states, labels, i, j - 1, uid);
      assert states[j] == Step(ttl, states[j - 1], labels[j - 1]);
    }
  }

  /** After the version of a user is raised, no token issued before is accepted again. */
  lemma BumpEndsSessions(
      ttl: int, states: seq<State>, labels: seq<Label>, i: nat, j: nat, t: Token, atExpiry: int, atMemory: int, atStore: int)
    requires Follows(ttl, states, labels) && Init(states[0]) && i < j < |states|
    requires labels[i] == Bump(t.sub) && t in states[i].issued
    ensures !Accepts(states[j], t, atExpiry, atMemory, atStore)
  {
    RunKeepsInv(ttl, states, labels, i);
    assert states[i + 1] == Step(ttl, states[i], labels[i]);
    VersionsGrow(ttl, states, labels, i + 1, j, t.sub);
  }

  // ---- the service ----

  class Service {
    const ttl: int
    var users: map<Uid, int>
    var nextUid: Uid
    var revocations: map<Jti, int>
    var memory: map<Jti, int>
    ghost var issued: set<Token>
    ghost var revoked: set<Jti>
    ghost var clock: int

    ghost function Abs(): State
      reads this
    {
      State(users, nextUid, revocations, memory, issued, revoked, clock)
    }

    /** A process over the stores that earlier ones left. */
    constructor (lifetime: int, us: map<Uid, int>, next: Uid, revs: map<Jti, int>, ghost start: int)
      requires lifetime > 0 && forall uid :: uid in us ==> uid < next
      ensures ttl == lifetime && Init(Abs()) && Inv(ttl, Abs()) && users == us && revocations == revs
    {
      ttl, users, nextUid, revocations, memory := lifetime, us, next, revs, map[];
      issued, revoked, clock := {}, {}, start;
    }

    method IssueSession(sub: Uid, jti: Jti, ver: int, now: int) returns (t: Token)
      requires Inv(ttl, Abs()) && Enabled(ttl, Abs(), Issue(sub, jti, ver, now))
      modifies this
      ensures Inv(ttl, Abs()) && Abs() == Step(ttl, old(Abs()), Issue(sub, jti, ver, now)) && t in issued
      ensures t.sub == sub && t.jti == jti && t.ver == ver && t.exp * SECOND <= now + ttl < (t.exp + 1) * SECOND
    {
      StepKeepsInv(ttl, Abs(), Issue(sub, jti, ver, now));
      ExpiryBounds(ttl, now);
      t := Token(sub, jti, ver, Expiry(ttl, now));
      issued, clock := issued + {t}, now;
    }

    /** The store's insert also drops what has expired. */
    method InsertRevocation(jti: Jti, now: int, until: int)
      modifies this`revocations
      ensures revocations == Inserted(old(revocations), jti, now, until)
      ensures forall j :: j in revocations <==> j == jti || (j in old(revocations) && now <= old(revocations)[j])
      ensures forall j :: j in revocations ==> revocations[j] == if j == jti then until else old(revocations)[j]
    {
      var rest := revocations.Keys;
      while rest != {}
        invariant rest <= old(revocations).Keys
        invariant revocations == map j | j in old(revocations) && (j in rest || !(old(revocations)[j] < now)) :: old(revocations)[j]
      {
        var j :| j in rest;
        rest := rest - {j};
        if revocations[j] < now {
          revocations := revocations - {j};
        }
      }
      revocations := revocations[jti := until];
    }

    /** rememberRevoked: clean, make room, insert. */
    method RememberRevoked(jti: Jti, now: int, until: int)
      modifies this`memory
      ensures Remembered(old(memory), jti, now, until, memory)
    {
      DropExpired(now);
      while |memory| >= MAX_REVOKED_MEMORY
        invariant forall j :: j in memory ==> j in old(memory) && memory[j] == old(memory)[j] && now < memory[j]
        invariant |memory| >= MAX_REVOKED_MEMORY - 1 || forall j :: j in old(memory) && now < old(memory)[j] ==> j in memory
      {
        assert memory.Keys != {};
        var j :| j in memory;
        assert (memory - {j}).Keys == memory.Keys - {j};
        memory := memory - {j};
      }
      assert memory[jti := until].Keys == memory.Keys + {jti};
      memory := memory[jti := until];
    }

    method DropExpired(now: int)
      modifies this`memory
      ensures forall j :: j in memory ==> j in old(memory) && memory[j] == old(memory)[j] && now < memory[j]
      ensures forall j :: j in old(memory) && now < old(memory)[j] ==> j in memory
    {
      var rest := memory.Keys;
      while rest != {}
        invariant rest <= memory.Keys
        invariant forall j :: j in memory ==> j in old(memory) && memory[j] == old(memory)[j] && (j in rest || now < memory[j])
        invariant forall j :: j in old(memory) && now < old(memory)[j] ==> j in memory
      {
        var j :| j in rest;
        rest := rest - {j};
        if !(now < memory[j]) {
          memory := memory - {j};
        }
      }
    }

    /** RevokeSession; the clock is read again for the map. An empty jti revokes nothing. */
    method RevokeSession(jti: Jti, now: int, later: int, fault: bool) returns (ok: bool)
      requires Inv(ttl, Abs()) && clock <= now <= later
      modifies this
      ensures Inv(ttl, Abs()) && (ok <==> jti == "" || !fault)
      ensures jti == "" ==> Abs() == old(Abs())
      ensures jti != "" ==> Abs() == Step(ttl, old(Abs()), Revoke(jti, now, later, fault, memory))
      ensures jti != "" ==> Enabled(ttl, old(Abs()), Revoke(jti, now, later, fault, memory))
    {
      if jti == "" {
        return true;
      }
      hide Inv, Remembered, Inserted;
      Persist(jti, now, fault);
      RememberRevoked(jti, later, now + ttl);
      clock := later;
      StepKeepsInv(ttl, old(Abs()), Revoke(jti, now, later, fault, memory));
      return !fault;
    }

    method Persist(jti: Jti, now: int, fault: bool)
      modifies this`revocations, this`revoked
      ensures revocations == if fault then old(revocations) else Inserted(old(revocations), jti, now, now + ttl)
      ensures revoked == if fault then old(revoked) else old(revoked) + {jti}
    {
      if !fault {
        InsertRevocation(jti, now, now + ttl);
        revoked := revoked + {jti};
      }
    }

    /** revokedInMemory drops an expired entry when it meets one. */
    method CheckMemory(jti: Jti, now: int) returns (yes: bool)
      requires Inv(ttl, Abs())
      modifies this`memory
      ensures Inv(ttl, Abs()) && (yes <==> jti in old(memory) && now < old(memory)[jti])
      ensures memory == if jti in old(memory) && old(memory)[jti] <= now then old(memory) - {jti} else old(memory)
    {
      if jti !in memory {
        return false;
      }
      if !(now < memory[jti]) {
        assert (memory - {jti}).Keys == memory.Keys - {jti};
        memory := memory - {jti};
        return false;
      }
      return true;
    }

    /** ValidateSession. */
    method ValidateSession(t: Token, atExpiry: int, atMemory: int, atStore: int, userFault: bool, storeFault: bool)
      returns (ok: bool)
      requires Inv(ttl, Abs())
      modifies this`memory
      ensures Inv(ttl, Abs())
      ensures ok <==> Accepts(old(Abs()), t, atExpiry, atMemory, atStore) && !userFault && !storeFault
      ensures ok <==>
        && !userFault && !storeFault && atExpiry < t.exp * SECOND
        && t.sub in users && t.ver == users[t.sub] && t.jti != ""
        && (t.jti in old(memory) ==> old(memory)[t.jti] <= atMemory)
        && (t.jti in revocations ==> revocations[t.jti] < atStore)
    {
      if !(atExpiry < t.exp * SECOND) {
        return false;
      }
      if userFault || t.sub !in users {
        return false;
      }
      if t.ver != users[t.sub] || t.jti == "" {
        return false;
      }
      var yes := CheckMemory(t.jti, atMemory);
      if yes || storeFault {
        return false;
      }
      return !IsRevoked(revocations, t.jti, atStore);
    }

    /** A session is good as soon as it is issued, and until it expires. */
    method IssueAndValidate(sub: Uid, jti: Jti, now: int, atExpiry: int, atMemory: int, atStore: int)
      returns (t: Token, ok: bool)
      requires Inv(ttl, Abs()) && sub in users && Enabled(ttl, Abs(), Issue(sub, jti, users[sub], now))
      requires jti != "" && jti !in revocations && jti !in memory
      modifies this
      ensures Inv(ttl, Abs())
      ensures ok <==> atExpiry < t.exp * SECOND
      ensures t.exp * SECOND <= now + ttl < (t.exp + 1) * SECOND
    {
      hide Inv, Accepts;
      t := IssueSession(sub, jti, users[sub], now);
      ok := ValidateSession(t, atExpiry, atMemory, atStore, false, false);
    }

    /** InvalidateUserSessions and the version half of ChangePassword. */
    method InvalidateUserSessions(uid: Uid, fault: bool) returns (ok: bool)
      requires Inv(ttl, Abs())
      modifies this`users
      ensures Inv(ttl, Abs()) && (ok <==> !fault && uid in old(users))
      ensures Abs() == if ok then Step(ttl, old(Abs()), Bump(uid)) else old(Abs())
      ensures users == if ok then old(users)[uid := old(users)[uid] + 1] else old(users)
    {
      if fault || uid !in users {
        return false;
      }
      StepKeepsInv(ttl, Abs(), Bump(uid));
      hide Inv;
      users := users[uid := users[uid] + 1];
      return true;
    }
  }
}
