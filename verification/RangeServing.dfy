/** serveRanged and serveMultipart: which kind of response a request gets, and how
    many bytes a multipart/byteranges body has. Object bytes are modelled as chars. */
module RangeServing {
  import opened Text
  import opened ByteRanges

  const MAX_MULTIPART_RANGES := 256

  datatype Validators = Validators(etag: string, modTime: Option<int>)

  const SECOND := 1_000_000_000

  /** ifRangeAllows; httpDate is the HTTP date parser, in whole seconds. */
  function IfRangeAllows(ifRange: string, current: Validators, httpDate: string -> Option<int>): bool {
    if ifRange == "" then true
    else if "\"" <= ifRange || "W/" <= ifRange then current.etag != "" && ifRange == current.etag
    else
      httpDate(ifRange).Some? && current.modTime.Some? && httpDate(ifRange).value == current.modTime.value / SECOND
  }

  /** If-Range: an entity tag must be the current one, character for character (so a weak tag
      never matches a strong one); a date must name the second of the last change. */
  lemma IfRangeMeans(tag: string, date: string, current: Validators, httpDate: string -> Option<int>)
    requires tag != "" && (tag[0] == '"' || (|tag| > 1 && tag[0] == 'W' && tag[1] == '/'))
    requires date != "" && date[0] != '"' && date[0] != 'W'
    ensures IfRangeAllows("", current, httpDate)
    ensures IfRangeAllows(tag, current, httpDate) <==> current.etag == tag
    ensures IfRangeAllows(date, current, httpDate) <==>
      && httpDate(date).Some? && current.modTime.Some?
      && httpDate(date).value * 1_000_000_000 <= current.modTime.value < (httpDate(date).value + 1) * 1_000_000_000
  {
    if tag[0] == 'W' {
      assert "W/" <= tag;
    }
    if current.modTime.Some? && httpDate(date).Some? {
      SameSecond(current.modTime.value, httpDate(date).value);
    }
  }

  lemma SameSecond(t: int, s: int)
    ensures s == t / 1_000_000_000 <==> s * 1_000_000_000 <= t < (s + 1) * 1_000_000_000
  {
  }

  datatype Decision = Full | Unsatisfiable | Single(range: ByteRange) | Multipart(ranges: seq<ByteRange>)

  /** serveRanged up to the opening of the body; size is negative when unknown. */
  method Decide(raw: string, ifRange: string, current: Validators, size: int, httpDate: string -> Option<int>)
    returns (d: Decision)
    ensures raw == "" || size < 0 || !IfRangeAllows(ifRange, current, httpDate) ==> d.Full?
    ensures raw != "" && size >= 0 && IfRangeAllows(ifRange, current, httpDate) ==>
      if Header(raw).None? || AnyBad(Header(raw).value, size) || Header(raw).value == [] then d.Full?
      else
        var kept := Kept(Header(raw).value, size);
        if |kept| == 0 then d.Unsatisfiable?
        else if |kept| == 1 then
          if (exists p :: kept[0].Selects(p, size))
          then d.Single? && d.range.length > 0 && SameBytes(d.range, kept[0], size)
          else d.Unsatisfiable?
        else if |kept| > 256 then d.Full?
        else d.Multipart? && Agrees(d.ranges, kept, size)
  {
    if raw == "" || size < 0 {
      return Full;
    }
    if !IfRangeAllows(ifRange, current, httpDate) {
      return Full;
    }
    var parsed := ParseByteRanges(raw, size);
    if Header(raw).Some? {
      KeptEmpty(Header(raw).value, size);
    }
    match parsed
    case NoOverlap => return Unsatisfiable;
    case Invalid => return Full;
    case Ranges(ranges) =>
      if |ranges| == 0 {
        return Full;
      }
      if |ranges| > 1 {
        if |ranges| > MAX_MULTIPART_RANGES {
          return Full;
        }
        return Multipart(ranges);
      }
      assert SameBytes(ranges[0], Kept(Header(raw).value, size)[0], size);
      if ranges[0].length <= 0 {
        return Unsatisfiable;
      }
      assert ranges[0].Has(ranges[0].start);
      return Single(ranges[0]);
  }

  lemma {:induction false} KeptEmpty(specs: seq<Spec>, size: nat)
    ensures Kept(specs, size) == [] <==> AllPastEnd(specs, size)
  {
    if specs != [] {
      var init, last := specs[..|specs| - 1], specs[|specs| - 1];
      KeptEmpty(init, size);
      KeptStep(init, last, size);
      assert init + [last] == specs;
    }
  }

  // ---- multipart ----

  function FormatInt(n: int): string {
    if n < 0 then "-" + Decimal(-n) else Decimal(n)
  }

  /** The first and last position as they stand in a Content-Range. */
  function Positions(range: ByteRange): string {
    FormatInt(range.start) + "-" + FormatInt(range.start + range.length - 1)
  }

  function ContentRange(range: ByteRange, size: nat): string {
    "bytes " + Positions(range) + "/" + FormatInt(size)
  }

  lemma ContentRangeExample()
    ensures ContentRange(ByteRange(0, 500), 1234) == "bytes 0-499/1234"
  {
    DecimalExamples();
    hide Decimal;
    assert Positions(ByteRange(0, 500)) == "0" + "-" + "499";
    assert "bytes " + ("0" + "-" + "499") + "/" + "1234" == "bytes 0-499/1234";
  }

  lemma DecimalExamples()
    ensures Decimal(0) == "0" && Decimal(499) == "499" && Decimal(1234) == "1234"
  {
    assert Decimal(4) == "4" && Decimal(49) == "49";
    assert Decimal(1) == "1" && Decimal(12) == "12" && Decimal(123) == "123";
  }

  /** What a Content-Range announces, asked for in a Range header, selects exactly the
      bytes of the part that it heads. */
  lemma ContentRangeNamesBytes(range: ByteRange, size: nat)
    requires range.Within(size) && range.length > 0 && size <= MAX_INT64
    ensures SameBytes(range, ReadSpec(Positions(range)), size)
  {
    IntervalRead(range.start, range.start + range.length - 1);
    hide ReadSpec, Decimal;
  }

  function PartOverhead(boundary: string, contentType: string, contentRange: string): nat {
    |"--" + boundary + "\r\n"|
    + |"Content-Range: " + contentRange + "\r\n"|
    + |"Content-Type: " + contentType + "\r\n"|
    + |"\r\n"| + |"\r\n"|
  }

  function Closing(boundary: string): string {
    "--" + boundary + "--\r\n"
  }

  function Head(boundary: string, contentType: string, range: ByteRange, size: nat): string {
    "--" + boundary + "\r\n"
    + "Content-Range: " + ContentRange(range, size) + "\r\n"
    + "Content-Type: " + contentType + "\r\n\r\n"
  }

  /** One part of the body that section 14.6 of RFC 9110 asks for. */
  function Part(content: string, boundary: string, contentType: string, range: ByteRange): string {
    if range.Within(|content|) then
      Head(boundary, contentType, range, |content|) + content[range.start..range.start + range.length] + "\r\n"
    else ""
  }

  lemma PartExample()
    ensures Part("hello", "B", "text/plain", ByteRange(1, 3)) ==
      "--B\r\n" + "Content-Range: bytes 1-3/5\r\n" + "Content-Type: text/plain\r\n" + "\r\n" + "ell" + "\r\n"
  {
    assert Decimal(1) == "1" && Decimal(3) == "3" && Decimal(5) == "5";
    hide Decimal;
    var cr := ContentRange(ByteRange(1, 3), 5);
    assert cr == "bytes " + ("1" + "-" + "3") + "/" + "5" == "bytes 1-3/5";
    assert "--" + "B" + "\r\n" == "--B\r\n";
    assert "Content-Range: " + cr + "\r\n" == "Content-Range: bytes 1-3/5\r\n";
    assert "Content-Type: " + "text/plain" + "\r\n\r\n" == "Content-Type: text/plain\r\n" + "\r\n";
    assert "hello"[1..4] == "ell";
    Regrouped("--B\r\n", "Content-Range: ", cr, "\r\n", "Content-Type: ", "text/plain", "\r\n\r\n");
  }

  lemma Regrouped(a: string, b: string, c: string, d: string, e: string, f: string, g: string)
    ensures a + b + c + d + e + f + g == a + (b + c + d) + (e + f + g)
  {
  }

  /** How the parts of one response are written. */
  function Renderer(content: string, boundary: string, contentType: string): ByteRange -> string {
    r => Part(content, boundary, contentType, r)
  }

  function Parts(render: ByteRange -> string, ranges: seq<ByteRange>): string {
    if ranges == [] then "" else Parts(render, ranges[..|ranges| - 1]) + render(ranges[|ranges| - 1])
  }

  function TotalLength(ranges: seq<ByteRange>): int {
    if ranges == [] then 0 else TotalLength(ranges[..|ranges| - 1]) + ranges[|ranges| - 1].length
  }

  /** Storage.GetRange refuses an empty slice; any other slice of the object opens
      unless the medium fails. */
  predicate Opens(range: ByteRange, mediumOk: bool) {
    range.length > 0 && mediumOk
  }

  predicate AllOpen(ranges: seq<ByteRange>, mediumOk: seq<bool>)
    requires |mediumOk| == |ranges|
  {
    forall i :: 0 <= i < |ranges| ==> Opens(ranges[i], mediumOk[i])
  }

  lemma PartLength(content: string, boundary: string, contentType: string, range: ByteRange)
    requires range.Within(|content|)
    ensures |Part(content, boundary, contentType, range)|
         == range.length + PartOverhead(boundary, contentType, ContentRange(range, |content|))
  {
  }

  lemma {:induction false} PartsLength(content: string, boundary: string, contentType: string, ranges: seq<ByteRange>)
    requires forall r :: r in ranges ==> r.Within(|content|)
    ensures |Parts(Renderer(content, boundary, contentType), ranges)|
         == FramedLength(boundary, contentType, ranges, |content|)
  {
    if ranges != [] {
      assert ranges[|ranges| - 1] in ranges;
      PartsLength(content, boundary, contentType, ranges[..|ranges| - 1]);
      PartLength(content, boundary, contentType, ranges[|ranges| - 1]);
    }
  }

  /** The Content-Length announced before anything is written. */
  method DeclaredLength(ranges: seq<ByteRange>, boundary: string, contentType: string, size: nat) returns (total: int)
    ensures total == |Closing(boundary)| + FramedLength(boundary, contentType, ranges, size)
  {
    total := |Closing(boundary)|;
    for k := 0 to |ranges|
      invariant total == |Closing(boundary)| + FramedLength(boundary, contentType, ranges[..k], size)
    {
      total := total + ranges[k].length;
      total := total + PartOverhead(boundary, contentType, ContentRange(ranges[k], size));
      assert ranges[..k + 1][..k] == ranges[..k];
    }
    assert ranges[..|ranges|] == ranges;
  }

  /** writeMultipartPart: the text of the part and the number of object bytes in it. */
  method WritePart(content: string, boundary: string, contentType: string, range: ByteRange, mediumOk: bool)
    returns (ok: bool, text: string, n: nat)
    requires range.Within(|content|)
    ensures ok <==> Opens(range, mediumOk)
    ensures ok ==> text == Part(content, boundary, contentType, range) && n == range.length
    ensures !ok ==> text == "" && n == 0
  {
    if !Opens(range, mediumOk) {
      return false, "", 0;
    }
    text := Head(boundary, contentType, range, |content|);
    text := text + content[range.start..range.start + range.length];
    text := text + "\r\n";
    return true, text, range.length;
  }

  /** The loop of serveMultipart: parts are written in order up to the first failure. */
  method WriteParts(content: string, boundary: string, contentType: string, ranges: seq<ByteRange>, mediumOk: seq<bool>)
    returns (written: nat, out: string, sent: int)
    requires |mediumOk| == |ranges| && forall r :: r in ranges ==> r.Within(|content|)
    ensures written <= |ranges| && out == Parts(Renderer(content, boundary, contentType), ranges[..written])
    ensures sent == TotalLength(ranges[..written])
    ensures forall i :: 0 <= i < written ==> Opens(ranges[i], mediumOk[i])
    ensures written < |ranges| ==> !Opens(ranges[written], mediumOk[written])
  {
    hide Part;
    written, out, sent := 0, "", 0;
    while written < |ranges|
      invariant 0 <= written <= |ranges|
      invariant forall i :: 0 <= i < written ==> Opens(ranges[i], mediumOk[i])
      invariant out == Parts(Renderer(content, boundary, contentType), ranges[..written])
      invariant sent == TotalLength(ranges[..written])
    {
      assert ranges[..written + 1][..written] == ranges[..written];
      assert ranges[written] in ranges;
      var ok, text, n := WritePart(content, boundary, contentType, ranges[written], mediumOk[written]);
      if !ok {
        return;
      }
      out, sent := out + text, sent + n;
      written := written + 1;
    }
  }

  /** serveMultipart for a GET whose client reads everything. `mediumOk[i]` says whether
      the storage opens the i-th slice. */
  method ServeMultipart(content: string, ranges: seq<ByteRange>, boundary: string, contentType: string, mediumOk: seq<bool>)
    returns (declared: int, out: string, sent: int)
    requires ranges != [] && |mediumOk| == |ranges|
    requires forall r :: r in ranges ==> r.Within(|content|)
    ensures AllOpen(ranges, mediumOk) ==>
      && out == Parts(Renderer(content, boundary, contentType), ranges) + Closing(boundary)
      && sent == TotalLength(ranges)
    ensures |out| == declared <==> AllOpen(ranges, mediumOk)
  {
    declared := DeclaredLength(ranges, boundary, contentType, |content|);
    var written;
    written, out, sent := WriteParts(content, boundary, contentType, ranges, mediumOk);
    PartsLength(content, boundary, contentType, ranges[..written]);
    if written < |ranges| {
      FramedLengthGrows(boundary, contentType, ranges, written, |content|);
    } else {
      assert ranges[..written] == ranges;
    }
    if written > 0 {
      out := out + Closing(boundary);
    }
  }

  function FramedLength(boundary: string, contentType: string, ranges: seq<ByteRange>, size: nat): int {
    if ranges == [] then 0
    else
      var init, r := ranges[..|ranges| - 1], ranges[|ranges| - 1];
      FramedLength(boundary, contentType, init, size)
      + r.length + PartOverhead(boundary, contentType, ContentRange(r, size))
  }

  lemma {:induction false} FramedLengthGrows(boundary: string, contentType: string, ranges: seq<ByteRange>, k: nat, size: nat)
    requires k < |ranges|
    requires forall r :: r in ranges ==> r.Within(size)
    ensures 0 <= FramedLength(boundary, contentType, ranges[..k], size) < FramedLength(boundary, contentType, ranges, size)
    decreases |ranges|
  {
    var init := ranges[..|ranges| - 1];
    assert ranges[|ranges| - 1] in ranges;
    if k < |init| {
      assert init[..k] == ranges[..k];
      FramedLengthGrows(boundary, contentType, init, k, size);
    } else {
      assert ranges[..k] == init;
      if init != [] {
        FramedLengthGrows(boundary, contentType, init, 0, size);
        assert init[..0] == [];
      }
    }
  }

  /** The announced length is wrong only for requests with an empty suffix: among the
      ranges of a parsed header a slice is empty exactly when its element is a suffix
      of zero bytes or the object itself is empty. */
  lemma EmptySliceIsZeroSuffix(raw: string, ranges: seq<ByteRange>, size: nat, i: nat)
    requires Header(raw).Some? && !AnyBad(Header(raw).value, size)
    requires Agrees(ranges, Kept(Header(raw).value, size), size) && i < |ranges|
    ensures !Opens(ranges[i], true) <==>
      var spec := Kept(Header(raw).value, size)[i];
      spec.Suffix? && (size == 0 || spec.count == 0)
  {
    var specs := Header(raw).value;
    KeptFromSpecs(specs, size);
    var range, spec := ranges[i], Kept(specs, size)[i];
    assert spec in Kept(specs, size);
    assert SameBytes(range, spec, size);
    assert range.length > 0 ==> range.Has(range.start);
    if spec.Suffix? {
      assert size > 0 && spec.count > 0 ==> spec.Selects(size - 1, size);
    } else {
      assert !spec.Bad(size);
      assert spec.Selects(spec.first, size);
    }
  }

  lemma ReadZeros()
    ensures Decimal(0) == "0" && ReadSpec("0-0") == FromTo(0, 0) && ReadSpec("-0") == Suffix(0)
  {
    assert Decimal(0) == "0";
    IntervalRead(0, 0);
    assert "0" + "-" + "0" == "0-0";
    DecimalReads(0);
    TrimSpaceTrims("0");
    assert "-0"[..0] == "" && "-0"[1..] == "0";
    assert TrimSpace("") == "";
  }

  lemma SplitZeros()
    ensures Split("0-0,-0", ',') == ["0-0", "-0"]
  {
    SplitWhole("-0", ',');
    SplitCons("0-0", "-0", ',');
    assert "0-0" + "," + "-0" == "0-0,-0";
  }

  /** The header of the witness, element by element. */
  lemma ZeroSuffixHeader()
    ensures Header("bytes=0-0,-0") == Some([FromTo(0, 0), Suffix(0)])
  {
    var raw, list := "bytes=0-0,-0", "0-0,-0";
    assert raw == PREFIX + list;
    assert PREFIX <= raw && raw[|PREFIX|..] == list;
    hide ReadSpec, TrimSpace, Split, ReadSpecs;
    SplitZeros();
    SpecsOfZeros();
  }

  lemma SpecsOfZeros()
    ensures ReadSpecs(["0-0", "-0"]) == [FromTo(0, 0), Suffix(0)]
  {
    ReadZeros();
    TrimSpaceTrims("0-0");
    TrimSpaceTrims("-0");
    hide ReadSpec, TrimSpace;
    assert ["0-0", "-0"][..1] == ["0-0"] && ["0-0"][..0] == [];
    assert ReadSpecs([]) == [];
    assert ReadSpecs(["0-0"]) == [FromTo(0, 0)];
  }

  /** Such requests exist: whatever the object, "bytes=0-0,-0" passes for two ranges, of
      which the second does not open, so the announced length is wrong. */
  lemma ZeroSuffixBreaksLength(size: nat, ranges: seq<ByteRange>, mediumOk: seq<bool>)
    requires size > 0 && |mediumOk| == |ranges|
    requires Header("bytes=0-0,-0").Some? && Agrees(ranges, Kept(Header("bytes=0-0,-0").value, size), size)
    ensures !AnyBad(Header("bytes=0-0,-0").value, size) && |ranges| == 2 && !AllOpen(ranges, mediumOk)
  {
    ZeroSuffixHeader();
    var specs := [FromTo(0, 0), Suffix(0)];
    assert specs[..1] == [FromTo(0, 0)] && specs[..1][..0] == [];
    assert Kept([], size) == [];
    assert Kept(specs[..1], size) == [FromTo(0, 0)];
    assert Kept(specs, size) == specs;
    hide Header;
    assert !AnyBad(specs, size);
    EmptySlice(ranges[1], size);
  }

  lemma EmptySlice(range: ByteRange, size: nat)
    requires SameBytes(range, Suffix(0), size)
    ensures range.length <= 0
  {
    assert range.length > 0 ==> range.Has(range.start);
  }

  lemma {:induction false} KeptFromSpecs(specs: seq<Spec>, size: nat)
    ensures forall e :: e in Kept(specs, size) ==> e in specs && !e.PastEnd(size)
  {
    if specs != [] {
      KeptFromSpecs(specs[..|specs| - 1], size);
    }
  }
}
