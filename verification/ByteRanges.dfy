/** Range serving: the Range header parser against a reading of the header as sets of
    byte positions, and the length arithmetic of multipart/byteranges responses. */
module ByteRanges {
  import opened Text

  /** A normalised range [start, start + length). */
  datatype ByteRange = ByteRange(start: int, length: int) {
    predicate Within(size: nat) {
      0 <= start && 0 <= length && start + length <= size
    }

    predicate Has(position: int) {
      start <= position < start + length
    }
  }

  /** One element of the header, read on its own, before the object's size is known.
      Broken(a) is a first position followed by an unreadable or smaller last position. */
  datatype Spec = Junk | Broken(first: nat) | Suffix(count: nat) | From(first: nat) | FromTo(first: nat, last: nat) {
    predicate PastEnd(size: nat) {
      (Broken? || From? || FromTo?) && first >= size
    }

    predicate Bad(size: nat) {
      Junk? || (Broken? && first < size)
    }

    /** Whether the element selects a position of an object of the given size
        (section 14.1.2 of RFC 9110). */
    predicate Selects(position: int, size: nat) {
      && 0 <= position < size
      && match this
         case Suffix(n) => size - n <= position
         case From(a) => a <= position
         case FromTo(a, b) => a <= position <= b
         case _ => false
    }
  }

  /** strings.Cut at the first '-': the position of the separator, if any. */
  function DashIndex(s: string): (k: Option<nat>)
    ensures k.Some? ==> k.value < |s| && s[k.value] == '-' && '-' !in s[..k.value]
    ensures k.None? ==> '-' !in s
  {
    if s == [] then None
    else if s[0] == '-' then Some(0)
    else
      match DashIndex(s[1..])
      case None => None
      case Some(k) => Some(k + 1)
  }

  function ReadSpec(element: string): (spec: Spec)
    ensures spec.FromTo? ==> spec.first <= spec.last
  {
    match DashIndex(element)
    case None => Junk
    case Some(k) =>
      var first, last := TrimSpace(element[..k]), TrimSpace(element[k + 1..]);
      if first == "" then
        if last == "" || last[0] == '-' then Junk
        else
          var n := ParseInt64(last);
          if n.None? || n.value < 0 then Junk else Suffix(n.value)
      else
        var a := ParseInt64(first);
        if a.None? || a.value < 0 then Junk
        else if last == "" then From(a.value)
        else
          var b := ParseInt64(last);
          if b.None? || b.value < a.value then Broken(a.value) else FromTo(a.value, b.value)
  }

  lemma IntervalRead(a: nat, b: nat)
    requires a <= MAX_INT64 && b <= MAX_INT64
    ensures ReadSpec(Decimal(a) + "-" + Decimal(b)) == if a <= b then FromTo(a, b) else Broken(a)
  {
    var first, last := Decimal(a), Decimal(b);
    DecimalReads(a);
    DecimalReads(b);
    DashAfter(first, last);
    var s := first + "-" + last;
    assert s[..|first|] == first && s[|first| + 1..] == last;
    TrimSpaceTrims(first);
    TrimSpaceTrims(last);
    hide Decimal, ParseInt64, TrimSpace, DashIndex;
  }

  lemma {:induction false} DashAfter(first: string, last: string)
    requires '-' !in first
    ensures DashIndex(first + "-" + last) == Some(|first|)
  {
    var s := first + "-" + last;
    if first != "" {
      assert s[0] == first[0] && first[0] in first;
      assert s[1..] == first[1..] + "-" + last;
      DashAfter(first[1..], last);
    }
  }

  /** The three forms of section 14.1.2 of RFC 9110, for all positions of 64 bits: "a-b", "a-"
      and "-n"; an interval that ends before it begins is kept apart, and an element
      without a '-' or without any number is no range. */
  lemma ElementForms(a: nat, b: nat, s: string)
    requires a <= MAX_INT64 && b <= MAX_INT64
    ensures ReadSpec(Decimal(a) + "-" + Decimal(b)) == if a <= b then FromTo(a, b) else Broken(a)
    ensures ReadSpec(Decimal(a) + "-") == From(a) && ReadSpec("-" + Decimal(a)) == Suffix(a)
    ensures '-' !in s ==> ReadSpec(s) == Junk
    ensures ReadSpec("-") == Junk && ReadSpec("--5") == Junk
  {
    hide ReadSpec, Decimal;
    IntervalRead(a, b);
    OpenRead(a);
    SuffixRead(a);
    NoRange(s);
  }

  lemma NoRange(s: string)
    ensures '-' !in s ==> ReadSpec(s) == Junk
    ensures ReadSpec("-") == Junk && ReadSpec("--5") == Junk
  {
    assert "-"[..0] == "" && "-"[1..] == "" && TrimSpace("") == "";
    assert "--5"[..0] == "" && "--5"[1..] == "-5";
    TrimSpaceTrims("-5");
    hide ParseInt64, TrimSpace;
  }

  lemma OpenRead(a: nat)
    requires a <= MAX_INT64
    ensures ReadSpec(Decimal(a) + "-") == From(a)
  {
    var first := Decimal(a);
    DecimalReads(a);
    DashAfter(first, "");
    var s := first + "-" + "";
    assert s == first + "-" && s[..|first|] == first && s[|first| + 1..] == "";
    TrimSpaceTrims(first);
    assert TrimSpace("") == "";
    hide Decimal, ParseInt64, TrimSpace, DashIndex;
  }

  lemma SuffixRead(n: nat)
    requires n <= MAX_INT64
    ensures ReadSpec("-" + Decimal(n)) == Suffix(n)
  {
    var last := Decimal(n);
    DecimalReads(n);
    assert last[0] in last;
    var s := "-" + last;
    assert s[..0] == "" && s[1..] == last;
    TrimSpaceTrims(last);
    assert TrimSpace("") == "";
    hide Decimal, ParseInt64, TrimSpace;
  }

  /** The elements of a comma-separated list, blank ones dropped. */
  function ReadSpecs(parts: seq<string>): (specs: seq<Spec>)
    ensures forall e :: e in specs && e.FromTo? ==> e.first <= e.last
  {
    if parts == [] then []
    else
      var element := TrimSpace(parts[|parts| - 1]);
      ReadSpecs(parts[..|parts| - 1]) + (if element == "" then [] else [ReadSpec(element)])
  }

  const PREFIX := "bytes="

  /** None when the unit is not "bytes". */
  function Header(s: string): Option<seq<Spec>> {
    if PREFIX <= s then Some(ReadSpecs(Split(s[|PREFIX|..], ','))) else None
  }

  /** The elements that do not start past the end, in header order. */
  function Kept(specs: seq<Spec>, size: nat): seq<Spec> {
    if specs == [] then []
    else
      Kept(specs[..|specs| - 1], size) + (if specs[|specs| - 1].PastEnd(size) then [] else [specs[|specs| - 1]])
  }

  datatype Parsed = Invalid | NoOverlap | Ranges(ranges: seq<ByteRange>)

  /** The range holds exactly the positions that the element selects. */
  ghost predicate SameBytes(range: ByteRange, spec: Spec, size: nat) {
    && range.Within(size)
    && forall p :: range.Has(p) <==> spec.Selects(p, size)
  }

  /** The ranges are the kept elements, one for one and in header order. */
  ghost predicate Agrees(ranges: seq<ByteRange>, kept: seq<Spec>, size: nat) {
    && |ranges| == |kept|
    && forall i :: 0 <= i < |ranges| ==> SameBytes(ranges[i], kept[i], size)
  }

  datatype Element = Reject | Skip | Take(range: ByteRange)

  /** The same in numbers: positions end with the object, and a suffix is no longer than it. */
  function Outcome(spec: Spec, size: nat): Element {
    match spec
    case Junk => Reject
    case Broken(a) => if a < size then Reject else Skip
    case Suffix(n) => if n < size then Take(ByteRange(size - n, n)) else Take(ByteRange(0, size))
    case From(a) => if a < size then Take(ByteRange(a, size - a)) else Skip
    case FromTo(a, b) =>
      if a >= size then Skip else if b < size then Take(ByteRange(a, b + 1 - a)) else Take(ByteRange(a, size - a))
  }

  /** The body of the loop of parseByteRanges for one non-blank element. */
  method ParseElement(element: string, size: nat) returns (r: Element)
    ensures r.Reject? <==> ReadSpec(element).Bad(size)
    ensures r.Skip? <==> ReadSpec(element).PastEnd(size)
    ensures r.Take? ==> SameBytes(r.range, ReadSpec(element), size)
    ensures r == Outcome(ReadSpec(element), size)
  {
    var dash := DashIndex(element);
    if dash.None? {
      return Reject;
    }
    var first, last := TrimSpace(element[..dash.value]), TrimSpace(element[dash.value + 1..]);
    if first == "" {
      if last == "" || last[0] == '-' {
        return Reject;
      }
      var n := ParseInt64(last);
      if n.None? || n.value < 0 {
        return Reject;
      }
      var i := if n.value > size then size else n.value;
      return Take(ByteRange(size - i, size - (size - i)));
    }
    var a := ParseInt64(first);
    if a.None? || a.value < 0 {
      return Reject;
    }
    if a.value >= size {
      return Skip;
    }
    if last == "" {
      return Take(ByteRange(a.value, size - a.value));
    }
    var b := ParseInt64(last);
    if b.None? || a.value > b.value {
      return Reject;
    }
    var j := if b.value >= size then size - 1 else b.value;
    return Take(ByteRange(a.value, j - a.value + 1));
  }

  lemma OutcomesMean(specs: seq<Spec>, size: nat)
    ensures AnyBad(specs, size) <==> exists e :: e in specs && Outcome(e, size).Reject?
    ensures AllPastEnd(specs, size) <==> forall e :: e in specs ==> Outcome(e, size).Skip?
  {
    forall e: Spec ensures (e.Bad(size) <==> Outcome(e, size).Reject?) && (e.PastEnd(size) <==> Outcome(e, size).Skip?) {
    }
  }

  ghost predicate AnyBad(specs: seq<Spec>, size: nat) {
    exists e :: e in specs && e.Bad(size)
  }

  ghost predicate AllPastEnd(specs: seq<Spec>, size: nat) {
    forall e :: e in specs ==> e.PastEnd(size)
  }

  /** What the loop of parseByteRanges knows after the elements read so far. */
  ghost predicate Progress(specs: seq<Spec>, size: nat, ranges: seq<ByteRange>, noOverlap: bool) {
    && !AnyBad(specs, size)
    && (noOverlap || ranges != [] <==> specs != [])
    && (ranges == [] <==> AllPastEnd(specs, size))
    && Agrees(ranges, Kept(specs, size), size)
  }

  lemma SkipProgress(specs: seq<Spec>, e: Spec, size: nat, ranges: seq<ByteRange>, noOverlap: bool)
    requires Progress(specs, size, ranges, noOverlap) && e.PastEnd(size)
    ensures Progress(specs + [e], size, ranges, true)
  {
    KeptStep(specs, e, size);
  }

  lemma TakeProgress(specs: seq<Spec>, e: Spec, size: nat, ranges: seq<ByteRange>, noOverlap: bool, range: ByteRange)
    requires Progress(specs, size, ranges, noOverlap) && !e.PastEnd(size) && !e.Bad(size) && SameBytes(range, e, size)
    ensures Progress(specs + [e], size, ranges + [range], noOverlap)
  {
    KeptStep(specs, e, size);
    hide SameBytes, Kept;
  }

  /** parseByteRanges: one pass over the elements with early returns. */
  method ParseByteRanges(s: string, size: nat) returns (r: Parsed)
    ensures r.Invalid? <==> Header(s).None? || AnyBad(Header(s).value, size)
    ensures r.NoOverlap? <==> !r.Invalid? && Header(s).value != [] && AllPastEnd(Header(s).value, size)
    ensures r.Ranges? ==> Agrees(r.ranges, Kept(Header(s).value, size), size)
    ensures r.Invalid? <==> !("bytes=" <= s) || exists e :: e in Header(s).value && Outcome(e, size).Reject?
    ensures r.NoOverlap? <==>
      !r.Invalid? && Header(s).value != [] && forall e :: e in Header(s).value ==> Outcome(e, size).Skip?
  {
    if Header(s).Some? {
      OutcomesMean(Header(s).value, size);
    }
    if !(PREFIX <= s) {
      return Invalid;
    }
    var parts := Split(s[|PREFIX|..], ',');
    ghost var specs := ReadSpecs(parts);
    var ranges: seq<ByteRange> := [];
    var noOverlap := false;
    assert parts[..0] == [];
    hide ReadSpec, SameBytes, Split, TrimSpace, Spec.PastEnd, Spec.Bad;
    for k := 0 to |parts|
      invariant Progress(ReadSpecs(parts[..k]), size, ranges, noOverlap)
    {
      hide Progress, Agrees, Kept, AnyBad, AllPastEnd;
      assert parts[..k + 1][..k] == parts[..k];
      ghost var before := ReadSpecs(parts[..k]);
      var element := TrimSpace(parts[k]);
      if element == "" {
        assert ReadSpecs(parts[..k + 1]) == before;
        continue;
      }
      assert ReadSpecs(parts[..k + 1]) == before + [ReadSpec(element)];
      var outcome := ParseElement(element, size);
      match outcome
      case Reject =>
        BadElement(parts, k, size);
        return Invalid;
      case Skip =>
        SkipProgress(before, ReadSpec(element), size, ranges, noOverlap);
        noOverlap := true;
      case Take(range) =>
        TakeProgress(before, ReadSpec(element), size, ranges, noOverlap, range);
        ranges := ranges + [range];
    }
    assert parts[..|parts|] == parts;
    if noOverlap && ranges == [] {
      return NoOverlap;
    }
    return Ranges(ranges);
  }

  lemma BadElement(parts: seq<string>, k: nat, size: nat)
    requires k < |parts| && TrimSpace(parts[k]) != "" && ReadSpec(TrimSpace(parts[k])).Bad(size)
    ensures AnyBad(ReadSpecs(parts), size)
  {
    var spec, upTo := ReadSpec(TrimSpace(parts[k])), parts[..k + 1];
    assert upTo[..k] == parts[..k] && upTo[k] == parts[k];
    assert ReadSpecs(upTo) == ReadSpecs(parts[..k]) + [spec];
    assert spec in ReadSpecs(upTo);
    ReadSpecsPrefix(parts, k + 1);
  }

  lemma KeptStep(specs: seq<Spec>, e: Spec, size: nat)
    ensures Kept(specs + [e], size) == Kept(specs, size) + (if e.PastEnd(size) then [] else [e])
    ensures AllPastEnd(specs + [e], size) <==> AllPastEnd(specs, size) && e.PastEnd(size)
    ensures AnyBad(specs + [e], size) <==> AnyBad(specs, size) || e.Bad(size)
  {
    var all := specs + [e];
    assert all[..|all| - 1] == specs;
    assert all[|all| - 1] == e && e in all;
    assert forall x :: x in specs ==> x in all;
  }

  lemma {:induction false} ReadSpecsPrefix(parts: seq<string>, k: nat)
    requires k <= |parts|
    ensures forall e :: e in ReadSpecs(parts[..k]) ==> e in ReadSpecs(parts)
    decreases |parts|
  {
    if k < |parts| {
      assert parts[..|parts| - 1][..k] == parts[..k];
      ReadSpecsPrefix(parts[..|parts| - 1], k);
    } else {
      assert parts[..k] == parts;
    }
  }
}
