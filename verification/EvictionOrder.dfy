/** Which versions of a family the eviction policy selects, independently of any order. */
module EvictionOrder {
  import opened Text

  type Key = string

  datatype Version = Version(key: Key, size: nat, modTime: int)

  /** The newest first; equal times are ordered by key. */
  predicate Precedes(a: Version, b: Version) {
    a.modTime > b.modTime || (a.modTime == b.modTime && Less(a.key, b.key))
  }

  /** Strictly newer, or equally old with a smaller key. */
  ghost predicate Newer(a: Version, b: Version) {
    a.modTime > b.modTime || (a.modTime == b.modTime && Before(a.key, b.key))
  }

  lemma PrecedesMeans(a: Version, b: Version)
    ensures Precedes(a, b) <==> Newer(a, b)
  {
    LessMeans(a.key, b.key);
  }

  predicate DistinctKeys(s: seq<Version>) {
    forall i, j :: 0 <= i < j < |s| ==> s[i].key != s[j].key
  }

  predicate IsSorted(s: seq<Version>) {
    forall i, j :: 0 <= i < j < |s| ==> Precedes(s[i], s[j])
  }

  ghost function Elements(s: seq<Version>): set<Version> {
    set v | v in s
  }

  // ---- sorting ----

  function Insert(v: Version, s: seq<Version>): seq<Version> {
    if s == [] || Precedes(v, s[0]) then [v] + s else [s[0]] + Insert(v, s[1..])
  }

  /** slices.SortFunc. */
  function Sort(s: seq<Version>): seq<Version> {
    if s == [] then [] else Insert(s[|s| - 1], Sort(s[..|s| - 1]))
  }

  lemma PrecedesTransitive(a: Version, b: Version, c: Version)
    requires Precedes(a, b) && Precedes(b, c)
    ensures Precedes(a, c)
  {
    if a.modTime == b.modTime == c.modTime {
      LessTransitive(a.key, b.key, c.key);
    }
  }

  lemma PrecedesTotal(a: Version, b: Version)
    requires a.key != b.key
    ensures Precedes(a, b) || Precedes(b, a)
  {
    LessTotal(a.key, b.key);
  }

  lemma PrecedesStrict(a: Version, b: Version)
    requires Precedes(a, b)
    ensures !Precedes(b, a)
  {
    if Precedes(b, a) {
      LessTransitive(a.key, b.key, a.key);
      LessIrreflexive(a.key);
    }
  }

  lemma {:induction false} InsertSorts(v: Version, s: seq<Version>)
    requires IsSorted(s) && forall u :: u in s ==> u.key != v.key
    ensures IsSorted(Insert(v, s)) && multiset(Insert(v, s)) == multiset(s) + multiset{v}
  {
    if s == [] || Precedes(v, s[0]) {
      forall u | u in s ensures Precedes(v, u) {
        if u != s[0] {
          PrecedesTransitive(v, s[0], u);
        }
      }
    } else {
      PrecedesTotal(v, s[0]);
      InsertSorts(v, s[1..]);
      var rest := Insert(v, s[1..]);
      assert s == [s[0]] + s[1..];
      forall u | u in rest ensures Precedes(s[0], u) {
        assert u in multiset(rest);
        assert u == v || u in s[1..];
      }
    }
  }

  lemma {:induction false} SortOrders(s: seq<Version>)
    requires DistinctKeys(s)
    ensures IsSorted(Sort(s)) && multiset(Sort(s)) == multiset(s)
  {
    if s != [] {
      var init, last := s[..|s| - 1], s[|s| - 1];
      SortOrders(init);
      assert s == init + [last];
      forall u | u in Sort(init) ensures u.key != last.key {
        assert u in multiset(Sort(init));
      }
      InsertSorts(last, Sort(init));
    }
  }

  /** The sorted sequence has the newest versions first and holds the same versions. */
  lemma SortSorts(s: seq<Version>)
    requires DistinctKeys(s)
    ensures IsSorted(Sort(s)) && multiset(Sort(s)) == multiset(s) && |Sort(s)| == |s|
    ensures Elements(Sort(s)) == Elements(s)
    ensures forall i, j :: 0 <= i < j < |Sort(s)| ==> Newer(Sort(s)[i], Sort(s)[j])
  {
    SortOrders(s);
    SameElements(Sort(s), s);
    forall i, j | 0 <= i < j < |Sort(s)| ensures Newer(Sort(s)[i], Sort(s)[j]) {
      PrecedesMeans(Sort(s)[i], Sort(s)[j]);
    }
  }

  lemma SameElements(s: seq<Version>, t: seq<Version>)
    requires multiset(s) == multiset(t)
    ensures |s| == |t| && Elements(s) == Elements(t)
  {
    assert |multiset(s)| == |s| && |multiset(t)| == |t|;
    forall v ensures v in s <==> v in t {
      assert v in s <==> v in multiset(s);
      assert v in t <==> v in multiset(t);
    }
  }

  // ---- ranks ----

  /** How many versions of the family are newer. */
  ghost function Rank(v: Version, family: set<Version>): nat {
    |set u | u in family && Precedes(u, v)|
  }

  ghost function NewerIn(v: Version, family: set<Version>): set<Version> {
    set u | u in family && Newer(u, v)
  }

  lemma RankMeans(v: Version, family: set<Version>)
    ensures Rank(v, family) == |NewerIn(v, family)|
  {
    forall u ensures Precedes(u, v) <==> Newer(u, v) {
      PrecedesMeans(u, v);
    }
    assert NewerIn(v, family) == set u | u in family && Precedes(u, v);
  }

  lemma {:induction false} DistinctCount(s: seq<Version>)
    requires IsSorted(s)
    ensures |Elements(s)| == |s|
  {
    if s != [] {
      var init, last := s[..|s| - 1], s[|s| - 1];
      DistinctCount(init);
      assert Elements(s) == Elements(init) + {last};
      if last in init {
        PrecedesStrict(last, last);
      }
    }
  }

  /** In the sorted family the position of a version is its rank. */
  lemma PositionIsRank(s: seq<Version>, i: nat)
    requires IsSorted(s) && i < |s|
    ensures Rank(s[i], Elements(s)) == i == |NewerIn(s[i], Elements(s))|
  {
    RankMeans(s[i], Elements(s));
    var newer := set u | u in Elements(s) && Precedes(u, s[i]);
    forall u ensures u in newer <==> u in s[..i] {
      if u in newer && u !in s[..i] {
        var j :| i <= j < |s| && s[j] == u;
        if i < j {
          PrecedesStrict(s[i], s[j]);
        } else {
          PrecedesStrict(u, u);
        }
      }
    }
    assert newer == Elements(s[..i]);
    DistinctCount(s[..i]);
  }
}
