/** The line format in which remotes are exported and imported. */
module RemoteFormat {
  import opened Text

  datatype Retention = Retention(minVersions: int, maxAgeDays: int)

  datatype Remote = Remote(
    id: int, name: string, ecosystem: string, baseURL: string, mode: string, enabled: bool,
    syncInterval: int, includes: seq<string>, proxyURL: string, eviction: Option<Retention>, createdAt: int)

  /** The parts of the format that Go's standard library decides: which proxy URLs parse,
      and how durations are written and read. */
  datatype Codec = Codec(validProxy: string -> bool, showDuration: int -> string, readDuration: string -> Option<int>) {
    /** time.Duration.String and time.ParseDuration on non-zero durations. */
    ghost predicate Inverse() {
      forall d: int :: d != 0 ==>
        && showDuration(d) != "" && readDuration(showDuration(d)) == Some(d)
        && Free(showDuration(d), '|') && Free(showDuration(d), '\n')
    }

    ghost predicate RejectsLineBreaks() {
      forall s: string :: validProxy(s) ==> Free(s, '\n')
    }
  }

  const FIELD_COUNT := 8
  const MODE_PROXY := "proxy"
  const MODE_MIRROR := "mirror"

  datatype Line = Skipped | Malformed | Parsed(remote: Remote)

  predicate IsMode(s: string) {
    s == MODE_PROXY || s == MODE_MIRROR
  }

  // ---- parsing ----

  function Includes(parts: seq<string>): (items: seq<string>) {
    if parts == [] then []
    else
      var p := TrimSpace(parts[|parts| - 1]);
      Includes(parts[..|parts| - 1]) + (if p == "" then [] else [p])
  }

  function IncludeOf(value: string): seq<string> {
    if value == "" then [] else Includes(Split(value, ','))
  }

  /** parseRemoteInclude. */
  method ParseRemoteInclude(value: string) returns (items: seq<string>)
    ensures items == IncludeOf(value)
    ensures forall p :: p in items ==> CleanItem(p)
  {
    items := [];
    if value == "" {
      return;
    }
    var parts := Split(value, ',');
    SplitPiecesFree(value, ',');
    for k := 0 to |parts|
      invariant items == Includes(parts[..k])
      invariant forall p :: p in items ==> CleanItem(p)
    {
      var p := TrimSpace(parts[k]);
      TrimSpaceTrims(parts[k]);
      assert parts[k] in parts;
      if p != "" {
        items := items + [p];
      }
      assert parts[..k + 1][..k] == parts[..k];
    }
    assert parts[..|parts|] == parts;
  }

  function ReadInterval(c: Codec, value: string): Option<int> {
    if value == "" then Some(0) else c.readDuration(value)
  }

  predicate IsComment(s: string) {
    var trimmed := TrimSpace(s);
    trimmed == "" || trimmed[0] == '#'
  }

  /** ParseRemoteLine. */
  function ParseRemoteLine(c: Codec, s: string): Line {
    if IsComment(s) then Skipped
    else
      var f := Split(s, '|');
      if |f| != FIELD_COUNT then Malformed
      else if f[0] == "" || f[1] == "" || f[2] == "" then Malformed
      else if !IsMode(f[3]) then Malformed
      else if !c.validProxy(f[4]) then Malformed
      else if f[5] != "true" && f[5] != "false" then Malformed
      else
        var interval := ReadInterval(c, f[6]);
        if interval.None? then Malformed
        else Parsed(Remote(0, f[0], f[1], f[2], f[3], f[5] == "true", interval.value, IncludeOf(f[7]), f[4], None, 0))
  }

  /** The line of eight given fields is read, unless it is blank or a comment, exactly if the
      first three are filled, mode and flag are among the admitted words, and proxy and
      interval can be read; and then every field has its place. */
  lemma LineMeans(c: Codec, f: seq<string>)
    requires |f| == 8 && (forall x :: x in f ==> Free(x, '|')) && !IsComment(Join(f, '|'))
    ensures ParseRemoteLine(c, Join(f, '|')) ==
      if f[0] != "" && f[1] != "" && f[2] != "" && (f[3] == "proxy" || f[3] == "mirror") && c.validProxy(f[4])
         && (f[5] == "true" || f[5] == "false") && (f[6] == "" || c.readDuration(f[6]).Some?)
      then Parsed(Remote(0, f[0], f[1], f[2], f[3], f[5] == "true",
                         if f[6] == "" then 0 else c.readDuration(f[6]).value, IncludeOf(f[7]), f[4], None, 0))
      else Malformed
  {
    SplitJoin(f, '|');
  }

  /** Any other number of fields is refused; blank lines and comments are passed over. */
  lemma OtherLines(c: Codec, f: seq<string>)
    requires f != [] && |f| != 8 && forall x :: x in f ==> Free(x, '|')
    ensures !IsComment(Join(f, '|')) ==> ParseRemoteLine(c, Join(f, '|')) == Malformed
  {
    SplitJoin(f, '|');
    hide Join, Split, IsComment;
  }

  lemma PassedOver(c: Codec)
    ensures ParseRemoteLine(c, "") == Skipped && ParseRemoteLine(c, "#a|b") == Skipped
  {
    assert TrimSpace("") == "";
    CommentSkipped(c, "#a|b");
  }

  // ---- printing ----

  function Fields(c: Codec, r: Remote): seq<string> {
    [r.name, r.ecosystem, r.baseURL, r.mode, r.proxyURL,
     if r.enabled then "true" else "false",
     if r.syncInterval != 0 then c.showDuration(r.syncInterval) else "",
     Join(r.includes, ',')]
  }

  function FormatRemote(c: Codec, r: Remote): string {
    Join(Fields(c, r), '|')
  }

  lemma JoinCons(first: string, rest: seq<string>, sep: char)
    requires rest != []
    ensures Join([first] + rest, sep) == first + [sep] + Join(rest, sep)
  {
    assert ([first] + rest)[1..] == rest;
  }

  lemma JoinPair(a: string, b: string, sep: char)
    ensures Join([a, b], sep) == a + [sep] + b
  {
    assert [a, b][1..] == [b];
  }

  /** The columns of a line, in the order of the second line of the header. */
  lemma Columns(c: Codec, r: Remote)
    ensures FormatRemote(c, r) ==
      r.name + "|" + (r.ecosystem + "|" + (r.baseURL + "|" + (r.mode + "|" + (r.proxyURL + "|" +
      ((if r.enabled then "true" else "false") + "|" +
      ((if r.syncInterval != 0 then c.showDuration(r.syncInterval) else "") + "|" + Join(r.includes, ',')))))))
  {
    var f := Fields(c, r);
    JoinPair(f[6], f[7], '|');
    JoinCons(f[5], f[6..], '|');
    JoinCons(f[4], f[5..], '|');
    JoinCons(f[3], f[4..], '|');
    JoinCons(f[2], f[3..], '|');
    JoinCons(f[1], f[2..], '|');
    JoinCons(f[0], f[1..], '|');
    assert f == [f[0]] + f[1..] && f[1..] == [f[1]] + f[2..] && f[2..] == [f[2]] + f[3..] && f[3..] == [f[3]] + f[4..];
    assert f[4..] == [f[4]] + f[5..] && f[5..] == [f[5]] + f[6..] && f[6..] == [f[6], f[7]];
    hide Join;
  }

  const HEADER_FIRST := "# khrazhevnik remotes export v1"
  const HEADER_SECOND := COLUMNS_FIRST + COLUMNS_SECOND
  const COLUMNS_FIRST := "# name|ecosystem|base_url|mode|"
  const COLUMNS_SECOND := "proxy|enabled|sync_interval|include"

  function Lines(c: Codec, rs: seq<Remote>): seq<string> {
    if rs == [] then [HEADER_FIRST, HEADER_SECOND]
    else Lines(c, rs[..|rs| - 1]) + [FormatRemote(c, rs[|rs| - 1])]
  }

  function Unlines(lines: seq<string>): string {
    if lines == [] then "" else Unlines(lines[..|lines| - 1]) + lines[|lines| - 1] + "\n"
  }

  /** FormatRemotes: the header, then one line per remote. */
  method FormatRemotes(c: Codec, rs: seq<Remote>) returns (text: string)
    ensures text == Unlines(Lines(c, rs))
    ensures Lines(c, []) ==
      ["# khrazhevnik remotes export v1", "# name|ecosystem|base_url|mode|" + "proxy|enabled|sync_interval|include"]
  {
    text := HEADER_FIRST + "\n" + HEADER_SECOND + "\n";
    assert Unlines([]) == "";
    assert [HEADER_FIRST, HEADER_SECOND][..1] == [HEADER_FIRST] && [HEADER_FIRST][..0] == [];
    assert Unlines([HEADER_FIRST]) == HEADER_FIRST + "\n";
    assert text == Unlines([HEADER_FIRST, HEADER_SECOND]);
    for k := 0 to |rs|
      invariant text == Unlines(Lines(c, rs[..k]))
    {
      text := text + FormatRemote(c, rs[k]);
      text := text + "\n";
      assert rs[..k + 1][..k] == rs[..k];
      var lines := Lines(c, rs[..k + 1]);
      assert lines[..|lines| - 1] == Lines(c, rs[..k]);
    }
    assert rs[..|rs|] == rs;
  }

  // ---- the round trip ----

  predicate CleanItem(item: string) {
    item != "" && Trimmed(item) && Free(item, ',')
  }

  /** What the format carries: everything but the instance's own bookkeeping. */
  function Portable(r: Remote): Remote {
    r.(id := 0, eviction := None, createdAt := 0)
  }

  /** The remotes that survive the format. */
  predicate Exportable(c: Codec, r: Remote) {
    && r.name != "" && r.ecosystem != "" && r.baseURL != ""
    && IsMode(r.mode) && c.validProxy(r.proxyURL)
    && Free(r.name, '|') && Free(r.ecosystem, '|') && Free(r.baseURL, '|') && Free(r.proxyURL, '|')
    && (forall item :: item in r.includes ==> CleanItem(item) && Free(item, '|'))
    && !IsComment(FormatRemote(c, r))
  }

  lemma {:induction false} IncludesOfClean(items: seq<string>)
    requires forall p :: p in items ==> CleanItem(p)
    ensures Includes(items) == items
  {
    if items != [] {
      var init, last := items[..|items| - 1], items[|items| - 1];
      assert last in items;
      IncludesOfClean(init);
      TrimSpaceTrims(last);
      assert init + [last] == items;
    }
  }

  lemma {:induction false} IncludesAreClean(parts: seq<string>)
    requires forall p :: p in parts ==> Free(p, ',')
    ensures forall p :: p in Includes(parts) ==> CleanItem(p)
  {
    if parts != [] {
      var last := parts[|parts| - 1];
      assert last in parts;
      IncludesAreClean(parts[..|parts| - 1]);
      TrimSpaceTrims(last);
    }
  }

  lemma {:induction false} IncludesFree(parts: seq<string>, x: char)
    requires forall p :: p in parts ==> Free(p, x)
    ensures forall p :: p in Includes(parts) ==> Free(p, x)
  {
    if parts != [] {
      var last := parts[|parts| - 1];
      assert last in parts;
      IncludesFree(parts[..|parts| - 1], x);
      TrimSpaceTrims(last);
    }
  }

  /** An include list is read back exactly when its items are non-empty, trimmed and comma-free. */
  lemma IncludeRoundTrip(items: seq<string>)
    ensures IncludeOf(Join(items, ',')) == items <==> forall p :: p in items ==> CleanItem(p)
  {
    var value := Join(items, ',');
    if forall p :: p in items ==> CleanItem(p) {
      if items != [] {
        assert items[0] in items;
        SplitJoin(items, ',');
        IncludesOfClean(items);
      }
    }
    if IncludeOf(value) == items && value != "" {
      SplitPiecesFree(value, ',');
      IncludesAreClean(Split(value, ','));
    }
  }

  /** ParseRemoteLine inverts FormatRemote on exactly the exportable remotes. */
  lemma RoundTrip(c: Codec, r: Remote)
    requires c.Inverse()
    ensures ParseRemoteLine(c, FormatRemote(c, r)) == Parsed(Portable(r)) <==> Exportable(c, r)
  {
    var line, f := FormatRemote(c, r), Fields(c, r);
    IncludeRoundTrip(r.includes);
    if Exportable(c, r) {
      FieldsFree(c, r);
      SplitJoin(f, '|');
    }
    if ParseRemoteLine(c, line) == Parsed(Portable(r)) {
      var g := Split(line, '|');
      SplitPiecesFree(line, '|');
      assert Free(g[0], '|') && Free(g[1], '|') && Free(g[2], '|') && Free(g[4], '|') && Free(g[7], '|');
      assert r.includes == IncludeOf(g[7]);
      IncludeCharsFrom(g[7], '|');
      IncludeItemsClean(g[7]);
    }
  }

  lemma FieldsFree(c: Codec, r: Remote)
    requires c.Inverse() && Exportable(c, r)
    ensures forall p :: p in Fields(c, r) ==> Free(p, '|')
  {
    if '|' in Join(r.includes, ',') {
      JoinChars(r.includes, ',', '|');
    }
  }

  lemma IncludeItemsClean(value: string)
    ensures forall p :: p in IncludeOf(value) ==> CleanItem(p)
  {
    SplitPiecesFree(value, ',');
    IncludesAreClean(Split(value, ','));
  }

  lemma IncludeCharsFrom(value: string, x: char)
    requires Free(value, x)
    ensures forall p :: p in IncludeOf(value) ==> Free(p, x)
  {
    SplitPiecesFree(value, ',');
    IncludesFree(Split(value, ','), x);
  }

  /** Whole files: splitting an exported file into lines and parsing each of them skips
      the header and yields the exported remotes in order (the import handler drops the
      empty piece after the last line break). */
  function ParseLines(c: Codec, lines: seq<string>): seq<Line> {
    if lines == [] then []
    else
      var init, line := ParseLines(c, lines[..|lines| - 1]), ParseRemoteLine(c, lines[|lines| - 1]);
      if line.Skipped? then init else init + [line]
  }

  predicate OneLine(r: Remote) {
    && Free(r.name, '\n') && Free(r.ecosystem, '\n') && Free(r.baseURL, '\n')
    && forall item :: item in r.includes ==> Free(item, '\n')
  }

  function Portables(rs: seq<Remote>): seq<Line> {
    seq(|rs|, i requires 0 <= i < |rs| => Parsed(Portable(rs[i])))
  }

  lemma FileRoundTrip(c: Codec, rs: seq<Remote>)
    requires c.Inverse() && c.RejectsLineBreaks()
    requires forall r :: r in rs ==> Exportable(c, r) && OneLine(r)
    ensures Split(Unlines(Lines(c, rs)), '\n') == Lines(c, rs) + [""]
    ensures ParseLines(c, Lines(c, rs)) == Portables(rs)
  {
    LinesFree(c, rs);
    SplitUnlines(Lines(c, rs));
    ParseAll(c, rs);
  }

  lemma {:induction false} ParseAll(c: Codec, rs: seq<Remote>)
    requires c.Inverse()
    requires forall r :: r in rs ==> Exportable(c, r)
    ensures ParseLines(c, Lines(c, rs)) == Portables(rs)
  {
    hide ParseRemoteLine, FormatRemote, Exportable, ParseLines, Portables, Lines;
    if rs == [] {
      HeaderSkipped(c);
    } else {
      var init, last := rs[..|rs| - 1], rs[|rs| - 1];
      assert last in rs;
      ParseAll(c, init);
      LinesAppend(c, rs);
      RoundTrip(c, last);
      ParseAppend(c, Lines(c, init), FormatRemote(c, last));
      PortablesAppend(init, last);
      assert init + [last] == rs;
    }
  }

  lemma LinesAppend(c: Codec, rs: seq<Remote>)
    requires rs != []
    ensures Lines(c, rs) == Lines(c, rs[..|rs| - 1]) + [FormatRemote(c, rs[|rs| - 1])]
  {
  }

  lemma ParseAppend(c: Codec, lines: seq<string>, line: string)
    ensures var l := ParseRemoteLine(c, line);
      ParseLines(c, lines + [line]) == if l.Skipped? then ParseLines(c, lines) else ParseLines(c, lines) + [l]
  {
    hide ParseRemoteLine;
    assert (lines + [line])[..|lines|] == lines;
  }

  lemma HeaderSkipped(c: Codec)
    ensures ParseLines(c, Lines(c, [])) == [] == Portables([])
  {
    CommentSkipped(c, HEADER_FIRST);
    CommentSkipped(c, HEADER_SECOND);
    hide ParseRemoteLine;
    var lines := [HEADER_FIRST, HEADER_SECOND];
    assert lines[..1] == [HEADER_FIRST] && lines[..1][..0] == [];
    assert ParseLines(c, []) == [];
    assert ParseLines(c, [HEADER_FIRST]) == [];
  }

  lemma PortablesAppend(rs: seq<Remote>, r: Remote)
    ensures Portables(rs + [r]) == Portables(rs) + [Parsed(Portable(r))]
  {
  }

  lemma CommentSkipped(c: Codec, s: string)
    requires s != "" && s[0] == '#' && !IsSpace(s[|s| - 1])
    ensures ParseRemoteLine(c, s).Skipped?
  {
    TrimSpaceTrims(s);
  }

  lemma FormatFree(c: Codec, r: Remote)
    requires c.Inverse() && c.RejectsLineBreaks() && Exportable(c, r) && OneLine(r)
    ensures Free(FormatRemote(c, r), '\n')
  {
    var f := Fields(c, r);
    if '\n' in Join(r.includes, ',') {
      JoinChars(r.includes, ',', '\n');
    }
    assert Free(f[3], '\n') && Free(f[5], '\n') && Free(f[6], '\n') && Free(f[7], '\n');
    if '\n' in FormatRemote(c, r) {
      JoinChars(f, '|', '\n');
    }
  }

  lemma HeaderFree()
    ensures Free(HEADER_FIRST, '\n') && Free(HEADER_SECOND, '\n')
  {
    assert Free(HEADER_FIRST, '\n');
    assert Free(COLUMNS_FIRST, '\n');
    assert Free(COLUMNS_SECOND, '\n');
  }

  lemma {:induction false} LinesFree(c: Codec, rs: seq<Remote>)
    requires c.Inverse() && c.RejectsLineBreaks()
    requires forall r :: r in rs ==> Exportable(c, r) && OneLine(r)
    ensures forall l :: l in Lines(c, rs) ==> Free(l, '\n')
  {
    if rs == [] {
      HeaderFree();
    } else {
      var last := rs[|rs| - 1];
      assert last in rs;
      LinesFree(c, rs[..|rs| - 1]);
      FormatFree(c, last);
    }
  }

  lemma {:induction false} SplitUnlines(lines: seq<string>)
    requires forall l :: l in lines ==> Free(l, '\n')
    ensures Split(Unlines(lines), '\n') == lines + [""]
  {
    if lines != [] {
      var init, last := lines[..|lines| - 1], lines[|lines| - 1];
      assert last in lines;
      SplitUnlines(init);
      SplitAppend(Unlines(init), last);
      var p := init + [""];
      assert p[..|p| - 1] == init && p[|p| - 1] + last == last;
      assert lines + [""] == init + [last, ""];
    }
  }

  lemma {:induction false} SplitAppend(text: string, last: string)
    requires Free(last, '\n')
    ensures var p := Split(text, '\n');
      Split(text + last + "\n", '\n') == p[..|p| - 1] + [p[|p| - 1] + last, ""]
  {
    var whole, p := text + last + "\n", Split(text, '\n');
    if text == [] {
      SplitCons(last, "", '\n');
      assert whole == last + ['\n'] + "";
      assert p[..0] == [] && p[0] + last == last;
    } else {
      SplitAppend(text[1..], last);
      assert whole[1..] == text[1..] + last + "\n" && whole[0] == text[0];
      PrependPiece(text[0], Split(text[1..], '\n'), last);
    }
  }

  /** What reading one more leading character does to the pieces of a split. */
  function Prepend(x: char, pieces: seq<string>): seq<string>
    requires pieces != []
  {
    if x == '\n' then [""] + pieces else [[x] + pieces[0]] + pieces[1..]
  }

  lemma PrependPiece(x: char, q: seq<string>, last: string)
    requires q != []
    ensures var p := Prepend(x, q);
      Prepend(x, q[..|q| - 1] + [q[|q| - 1] + last, ""]) == p[..|p| - 1] + [p[|p| - 1] + last, ""]
  {
    if x != '\n' && |q| == 1 {
      assert [x] + (q[0] + last) == [x] + q[0] + last;
    }
  }
}
