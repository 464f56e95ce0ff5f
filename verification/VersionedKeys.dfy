/** Storage keys of the versions of a mutable object, and the filter by which the
    eviction pass recognises them. */
module VersionedKeys {
  import opened Text

  /** versionedKey: the run's nonce and the number of the write, both in base 36. */
  function VersionedKey(nonce: nat, key: string, n: nat): string {
    key + "-v" + Base36(nonce) + Base36(n)
  }

  const MIN_SUFFIX := 11

  /** The regular expression -v[0-9a-z]{11,}$ matches. */
  ghost predicate HasVersionSuffix(s: string) {
    exists i :: IsVersionSuffix(s, i)
  }

  predicate IsVersionSuffix(s: string, i: int) {
    && 0 <= i <= |s| - 2 - MIN_SUFFIX
    && s[i] == '-' && s[i + 1] == 'v'
    && forall c :: c in s[i + 2..] ==> IsDigit36(c)
  }

  lemma Layout(nonce: nat, key: string, n: nat)
    ensures var s, tail := VersionedKey(nonce, key, n), Base36(nonce) + Base36(n);
      && |s| == |key| + 2 + |tail| && s[|key|] == '-' && s[|key| + 1] == 'v'
      && s[..|key|] == key && s[|key| + 2..] == tail
      && (forall i :: |key| < i < |s| ==> s[i] != '-')
      && forall c :: c in tail ==> IsDigit36(c)
  {
    var s, tail := VersionedKey(nonce, key, n), Base36(nonce) + Base36(n);
    assert s == key + "-v" + tail;
    assert forall c :: c in tail ==> IsDigit36(c);
    assert s[|key| + 1..] == ['v'] + tail;
    forall i | |key| < i < |s| ensures s[i] != '-' {
      assert s[i] == s[|key| + 1..][i - |key| - 1];
      assert s[i] == 'v' || s[i] in tail;
    }
  }

  /** Equal version keys come from equal logical keys and equal tails: the last '-' is
      the one that versionedKey wrote. */
  lemma SameLogicalKey(nonce: nat, key: string, n: nat, nonce': nat, key': string, n': nat)
    requires VersionedKey(nonce, key, n) == VersionedKey(nonce', key', n')
    ensures key == key' && Base36(nonce) + Base36(n) == Base36(nonce') + Base36(n')
  {
    Layout(nonce, key, n);
    Layout(nonce', key', n');
  }

  /** Within one run, and across runs whose nonces print equally long, a version key
      determines the run, the logical key and the write. */
  lemma VersionedKeyInjective(nonce: nat, key: string, n: nat, nonce': nat, key': string, n': nat)
    requires VersionedKey(nonce, key, n) == VersionedKey(nonce', key', n')
    requires |Base36(nonce)| == |Base36(nonce')|
    ensures nonce == nonce' && key == key' && n == n'
  {
    SameLogicalKey(nonce, key, n, nonce', key', n');
    var a, b := Base36(nonce) + Base36(n), Base36(nonce') + Base36(n');
    assert a[..|Base36(nonce)|] == Base36(nonce) && b[..|Base36(nonce')|] == Base36(nonce');
    assert a[|Base36(nonce)|..] == Base36(n) && b[|Base36(nonce')|..] == Base36(n');
    Base36Injective(nonce, nonce');
    Base36Injective(n, n');
  }

  /** Two runs build a common version key: the number of a write starts at one. */
  ghost predicate Collide(nonce: nat, nonce': nat) {
    exists key, n, key', n' :: CollideAt(nonce, key, n, nonce', key', n')
  }

  predicate CollideAt(nonce: nat, key: string, n: nat, nonce': nat, key': string, n': nat) {
    n > 0 && n' > 0 && VersionedKey(nonce, key, n) == VersionedKey(nonce', key', n')
  }

  /** The printed nonce continues the other with a digit that a write number can start with. */
  predicate Continues(longer: string, shorter: string) {
    |shorter| < |longer| && shorter <= longer && longer[|shorter|] != '0'
  }

  predicate Entangled(nonce: nat, nonce': nat) {
    Continues(Base36(nonce), Base36(nonce')) || Continues(Base36(nonce'), Base36(nonce))
  }

  lemma PrefixContinues(p: string, x: string, q: string, y: string)
    requires p + x == q + y && |p| < |q| && x != ""
    ensures p <= q && q[|p|] == x[0]
  {
    var tail := p + x;
    assert p == tail[..|p|] == q[..|p|];
    assert x[0] == tail[|p|] == q[|p|];
  }

  lemma TailsContinue(nonce: nat, n: nat, nonce': nat, n': nat)
    requires n > 0 && n' > 0 && |Base36(nonce)| < |Base36(nonce')|
    requires Base36(nonce) + Base36(n) == Base36(nonce') + Base36(n')
    ensures Continues(Base36(nonce'), Base36(nonce))
  {
    hide Base36;
    Base36Leading(n);
    PrefixContinues(Base36(nonce), Base36(n), Base36(nonce'), Base36(n'));
  }

  lemma ContinuationCollides(nonce: nat, nonce': nat)
    requires Continues(Base36(nonce'), Base36(nonce))
    ensures Collide(nonce, nonce')
  {
    var p, q := Base36(nonce), Base36(nonce');
    var s := q[|p|..] + Base36(1);
    assert s[0] == q[|p|];
    var n := Base36Onto(s);
    assert p + q[|p|..] == q;
    assert "" + "-v" + p + Base36(n) == "" + "-v" + q + Base36(1);
    assert CollideAt(nonce, "", n, nonce', "", 1);
  }

  /** Two runs with different nonces can build the same version key if and only if one
      printed nonce continues the other with a digit that is not '0': the digits of nonce
      and write number are not separated. */
  lemma CollisionExactly(nonce: nat, nonce': nat)
    requires nonce != nonce'
    ensures Collide(nonce, nonce') <==> Entangled(nonce, nonce')
  {
    if Collide(nonce, nonce') {
      var key, n, key', n' :| CollideAt(nonce, key, n, nonce', key', n');
      SameLogicalKey(nonce, key, n, nonce', key', n');
      if |Base36(nonce)| == |Base36(nonce')| {
        VersionedKeyInjective(nonce, key, n, nonce', key', n');
      } else if |Base36(nonce)| < |Base36(nonce')| {
        TailsContinue(nonce, n, nonce', n');
      } else {
        TailsContinue(nonce', n', nonce, n);
      }
    }
    if Continues(Base36(nonce'), Base36(nonce)) {
      ContinuationCollides(nonce, nonce');
    } else if Continues(Base36(nonce), Base36(nonce')) {
      ContinuationCollides(nonce', nonce);
      var key, n, key', n' :| CollideAt(nonce', key, n, nonce, key', n');
      assert CollideAt(nonce, key', n', nonce', key, n);
    }
  }

  /** Nonces that print equally long never collide; 1 and 37 do, at the 37th and the first
      write; 1 and 72 do not, though their prints differ in length. */
  lemma CollisionExamples(key: string)
    ensures forall a: nat, b: nat :: a != b && |Base36(a)| == |Base36(b)| ==> !Collide(a, b)
    ensures VersionedKey(1, key, 37) == VersionedKey(37, key, 1) && Collide(1, 37)
    ensures !Collide(1, 72)
  {
    forall a: nat, b: nat | a != b && |Base36(a)| == |Base36(b)| ensures !Collide(a, b) {
      CollisionExactly(a, b);
    }
    assert Base36(1) == "1" && Base36(37) == "11" && Base36(72) == "20";
    assert key + "-v" + "1" + "11" == key + "-v" + "11" + "1";
    assert CollideAt(1, key, 37, 37, key, 1);
    CollisionExactly(1, 72);
  }

  lemma OnlyTheLastDash(nonce: nat, path: string, n: nat, i: nat)
    requires i != |path|
    ensures !IsVersionSuffix(VersionedKey(nonce, path, n), i)
  {
    Layout(nonce, path, n);
    var s := VersionedKey(nonce, path, n);
    if i + 2 <= |path| {
      var c := s[i + 2..][|path| - i - 2];
      assert c in s[i + 2..] && !IsDigit36(c);
    }
  }

  /** The listing hands the filter a key without its remote's prefix. The suffix is
      recognised there if and only if nonce and write number print at least 11 digits. */
  lemma FilterRecognisesVersions(prefix: string, path: string, nonce: nat, n: nat)
    ensures HasVersionSuffix(VersionedKey(nonce, prefix + path, n)[|prefix|..])
       <==> |Base36(nonce)| + |Base36(n)| >= 11
  {
    Layout(nonce, path, n);
    var s, tail := VersionedKey(nonce, path, n), Base36(nonce) + Base36(n);
    var whole := VersionedKey(nonce, prefix + path, n);
    assert whole == prefix + s;
    assert whole[|prefix|..] == s;
    if |tail| >= MIN_SUFFIX {
      assert IsVersionSuffix(s, |path|);
    }
    if HasVersionSuffix(s) {
      var i :| IsVersionSuffix(s, i);
      if i != |path| {
        OnlyTheLastDash(nonce, path, n, i);
      }
    }
  }
}
