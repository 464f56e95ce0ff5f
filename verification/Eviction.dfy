/** One eviction pass over the cache of a remote: the newest versions of every family are
    kept, and of the others those that were used recently. */
module Eviction {
  import opened Text
  import opened VersionedKeys
  import opened EvictionOrder

  const DAY := 24 * 3600 * 1_000_000_000

  datatype Retention = Retention(minVersions: int, maxAgeDays: int) {
    predicate Enabled() {
      minVersions > 0
    }
  }

  /** The last recorded access of a key, none recorded, or a read that failed. */
  datatype Access = Recorded(at: int) | Never | Unreadable

  /** What one pass depends on: the ecosystem's family resolver, if it has one, works on
      the key without its prefix. */
  datatype Pass = Pass(policy: Retention, mirror: bool, prefix: string, resolves: bool, family: string -> Option<string>,
                       access: Key -> Access, now: int)
  {
    function Cutoff(): Option<int> {
      if policy.maxAgeDays > 0 then Some(now - policy.maxAgeDays * DAY) else None
    }

    function LastAccess(v: Version): int {
      match access(v.key)
      case Recorded(at) => at
      case _ => v.modTime
    }

    /** Nothing says that the version is still in use. */
    predicate Idle(v: Version) {
      Cutoff().None? || LastAccess(v) < Cutoff().value
    }
  }

  // ---- which objects take part ----

  const RETAINED_MARKER := ".retained"

  predicate VersionNamed(path: string) {
    exists i | 0 <= i < |path| :: IsVersionSuffix(path, i)
  }

  function StripSlash(path: string): string {
    if path != "" && path[0] == '/' then path[1..] else path
  }

  predicate EndsWith(s: string, suffix: string) {
    |suffix| <= |s| && s[|s| - |suffix|..] == suffix
  }

  predicate IsRetainedMarker(path: string) {
    StripSlash(path) == RETAINED_MARKER || EndsWith(StripSlash(path), "/" + RETAINED_MARKER)
  }

  function TrimPrefix(s: string, prefix: string): string {
    if prefix <= s then s[|prefix|..] else s
  }

  /** The family under which an object takes part in the pass, if any. */
  function FamilyOf(p: Pass, key: Key): Option<string> {
    var path := TrimPrefix(key, p.prefix);
    if VersionNamed(path) || IsRetainedMarker(path) then None else p.family(path)
  }

  /** From here on the path is "-v" and at least eleven digits of base 36. */
  predicate VersionAt(path: string, i: int) {
    && 0 <= i && i + 13 <= |path| && path[i] == '-' && path[i + 1] == 'v'
    && forall j :: i + 2 <= j < |path| ==> '0' <= path[j] <= '9' || 'a' <= path[j] <= 'z'
  }

  /** A path is left out exactly when it ends in "-v" and at least eleven digits of base 36, or
      is, or lies in some directory as, ".retained"; the resolver decides on all others. */
  lemma FamilyMeans(p: Pass, path: string)
    ensures FamilyOf(p, p.prefix + path) ==
      if (exists i :: VersionAt(path, i)) || path == ".retained" || EndsWith(path, "/.retained")
      then None else p.family(path)
  {
    assert TrimPrefix(p.prefix + path, p.prefix) == path;
    VersionNames(path);
    MarkerNames(path);
    hide VersionNamed, IsRetainedMarker;
  }

  lemma VersionNames(path: string)
    ensures VersionNamed(path) <==>
      exists i :: VersionAt(path, i)
  {
    forall i ensures IsVersionSuffix(path, i) <==> VersionAt(path, i) {
      if IsVersionSuffix(path, i) {
        forall j | i + 2 <= j < |path| ensures '0' <= path[j] <= '9' || 'a' <= path[j] <= 'z' {
          var c := path[i + 2..][j - i - 2];
          assert c in path[i + 2..] && IsDigit36(c) && c == path[j];
        }
      }
    }
  }

  lemma MarkerNames(path: string)
    ensures IsRetainedMarker(path) <==> path == ".retained" || EndsWith(path, "/.retained")
  {
    var p := StripSlash(path);
    if path != "" && path[0] == '/' {
      assert path == "/" + p;
      if |p| >= 10 {
        assert path[|path| - 10..] == p[|p| - 10..];
      }
    }
  }

  /** The bytes of a record that the cache engine wrote under this prefix never take part,
      whatever the family resolver says, as long as nonce and write number print at
      least eleven digits. */
  lemma EngineVersionsSpared(p: Pass, path: string, nonce: nat, n: nat)
    requires |Base36(nonce)| + |Base36(n)| >= 11
    ensures FamilyOf(p, VersionedKey(nonce, p.prefix + path, n)).None?
  {
    FilterRecognisesVersions(p.prefix, path, nonce, n);
    var key := VersionedKey(nonce, p.prefix + path, n);
    Layout(nonce, p.prefix + path, n);
    assert p.prefix <= key by {
      assert key[..|p.prefix + path|] == p.prefix + path;
      assert key[..|p.prefix|] == p.prefix;
    }
    var i :| IsVersionSuffix(key[|p.prefix|..], i);
  }

  // ---- the selection ----

  ghost function FamilySet(p: Pass, all: set<Version>, family: string): set<Version> {
    set v | v in all && FamilyOf(p, v.key) == Some(family)
  }

  /** Outside the newest minVersions of its family and idle. */
  ghost predicate Selected(p: Pass, all: set<Version>, v: Version) {
    && v in all && FamilyOf(p, v.key).Some?
    && Rank(v, FamilySet(p, all, FamilyOf(p, v.key).value)) >= p.policy.minVersions
    && p.Idle(v)
  }

  ghost function Selection(p: Pass, all: set<Version>): set<Version> {
    set v | v in all && Selected(p, all, v)
  }

  lemma RankShrinks(v: Version, family: set<Version>, less: set<Version>)
    requires less <= family
    ensures Rank(v, less) <= Rank(v, family)
  {
    var a, b := set u | u in less && Precedes(u, v), set u | u in family && Precedes(u, v);
    assert b == a + (b - a);
  }

  /** A second pass at the same time over what is left selects nothing. */
  lemma SecondPassSelectsNothing(p: Pass, all: set<Version>)
    ensures Selection(p, all - Selection(p, all)) == {}
  {
    var left := all - Selection(p, all);
    forall v | v in left ensures !Selected(p, left, v) {
      if FamilyOf(p, v.key).Some? {
        var f := FamilyOf(p, v.key).value;
        RankShrinks(v, FamilySet(p, all, f), FamilySet(p, left, f));
      }
    }
  }

  /** The family as the sorted sequence of its members. */
  ghost predicate Lists(s: seq<Version>, family: set<Version>) {
    IsSorted(s) && Elements(s) == family
  }

  /** Of a family of n versions at least min(minVersions, n) survive. */
  lemma MinimumSurvives(p: Pass, all: set<Version>, f: string, s: seq<Version>)
    requires Lists(s, FamilySet(p, all, f)) && p.policy.minVersions >= 0
    ensures |FamilySet(p, all, f) - Selection(p, all)| >= (if p.policy.minVersions < |s| then p.policy.minVersions else |s|)
  {
    var top := if p.policy.minVersions < |s| then p.policy.minVersions else |s|;
    var kept := s[..top];
    DistinctCount(kept);
    forall v | v in kept ensures v in FamilySet(p, all, f) - Selection(p, all) {
      var i :| 0 <= i < top && s[i] == v;
      assert v in Elements(s);
      PositionIsRank(s, i);
    }
    var survivors := FamilySet(p, all, f) - Selection(p, all);
    assert Elements(kept) <= survivors;
    assert survivors == Elements(kept) + (survivors - Elements(kept));
  }

  // ---- the selection in terms of times and keys ----

  /** The policy lets the version go: at least minVersions of its family are newer, and its
      last access, or else its upload, is more than maxAgeDays days ago, if that is set. */
  ghost predicate LetsGo(p: Pass, family: set<Version>, v: Version) {
    && v in family && |NewerIn(v, family)| >= p.policy.minVersions
    && (p.policy.maxAgeDays > 0 ==>
          (if p.access(v.key).Recorded? then p.access(v.key).at else v.modTime)
          < p.now - p.policy.maxAgeDays * 24 * 3600 * 1_000_000_000)
  }

  lemma IdleMeans(p: Pass, v: Version)
    ensures p.Idle(v) <==>
      (p.policy.maxAgeDays > 0 ==>
        (if p.access(v.key).Recorded? then p.access(v.key).at else v.modTime)
        < p.now - p.policy.maxAgeDays * 24 * 3600 * 1_000_000_000)
  {
    assert DAY == 24 * 3600 * 1_000_000_000;
    assert p.policy.maxAgeDays * DAY == p.policy.maxAgeDays * 24 * 3600 * 1_000_000_000;
  }

  lemma SelectionMeans(p: Pass, all: set<Version>, v: Version)
    ensures v in Selection(p, all) <==>
      v in all && FamilyOf(p, v.key).Some? && LetsGo(p, FamilySet(p, all, FamilyOf(p, v.key).value), v)
  {
    if v in all && FamilyOf(p, v.key).Some? {
      RankMeans(v, FamilySet(p, all, FamilyOf(p, v.key).value));
      IdleMeans(p, v);
      hide Pass.Idle, Rank, NewerIn;
    }
  }
}
