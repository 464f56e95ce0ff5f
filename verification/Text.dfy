/** The string functions of Go's standard library that the modelled code calls,
    each with the facts about it that the proofs use. */
module Text {
  datatype Option<+T> = None | Some(value: T)

  /** unicode.IsSpace. */
  predicate IsSpace(c: char) {
    || '\t' <= c <= '\r' || c == ' ' || c == '\U{85}' || c == '\U{A0}' || c == '\U{1680}'
    || '\U{2000}' <= c <= '\U{200a}' || c == '\U{2028}' || c == '\U{2029}'
    || c == '\U{202f}' || c == '\U{205f}' || c == '\U{3000}'
  }

  function TrimLeft(s: string): string {
    if s != [] && IsSpace(s[0]) then TrimLeft(s[1..]) else s
  }

  function TrimRight(s: string): string {
    if s != [] && IsSpace(s[|s| - 1]) then TrimRight(s[..|s| - 1]) else s
  }

  function TrimSpace(s: string): string {
    TrimRight(TrimLeft(s))
  }

  predicate Trimmed(s: string) {
    s != [] ==> !IsSpace(s[0]) && !IsSpace(s[|s| - 1])
  }

  lemma {:induction false} TrimRightTrims(s: string)
    ensures TrimRight(s) <= s
    ensures TrimRight(s) != [] ==> !IsSpace(TrimRight(s)[|TrimRight(s)| - 1])
  {
    if s != [] && IsSpace(s[|s| - 1]) {
      TrimRightTrims(s[..|s| - 1]);
    }
  }

  lemma {:induction false} TrimLeftTrims(s: string)
    ensures TrimLeft(s) != [] ==> !IsSpace(TrimLeft(s)[0])
    ensures forall c :: c in TrimLeft(s) ==> c in s
  {
    if s != [] && IsSpace(s[0]) {
      TrimLeftTrims(s[1..]);
    }
  }

  /** A trimmed string is a fixed point of TrimSpace, and TrimSpace only yields trimmed strings. */
  lemma TrimSpaceTrims(s: string)
    ensures Trimmed(TrimSpace(s))
    ensures Trimmed(s) ==> TrimSpace(s) == s
    ensures forall c :: c in TrimSpace(s) ==> c in s
  {
    TrimLeftTrims(s);
    TrimRightTrims(TrimLeft(s));
  }

  lemma TrimExample()
    ensures TrimSpace(" \t\r\nx y\U{A0}") == "x y" && TrimSpace(" \n") == "" && TrimSpace("") == ""
  {
    var s := " \t\r\nx y\U{A0}";
    assert s[1..] == "\t\r\nx y\U{A0}" && s[1..][1..] == "\r\nx y\U{A0}" && s[1..][1..][1..] == "\nx y\U{A0}";
    assert "\nx y\U{A0}"[1..] == "x y\U{A0}" && "x y\U{A0}"[..3] == "x y";
    assert TrimLeft(s) == "x y\U{A0}";
    assert " \n"[1..] == "\n" && "\n"[1..] == "";
  }

  /** strings.Split for a one-byte separator. */
  function Split(s: string, sep: char): (parts: seq<string>)
    ensures parts != []
  {
    if s == [] then [""]
    else
      var rest := Split(s[1..], sep);
      if s[0] == sep then [""] + rest else [[s[0]] + rest[0]] + rest[1..]
  }

  /** strings.Join for a one-byte separator. */
  function Join(parts: seq<string>, sep: char): string {
    if parts == [] then ""
    else if |parts| == 1 then parts[0]
    else parts[0] + [sep] + Join(parts[1..], sep)
  }

  predicate Free(s: string, sep: char) {
    sep !in s
  }

  lemma {:induction false} SplitPiecesFree(s: string, sep: char)
    ensures forall p :: p in Split(s, sep) ==> Free(p, sep)
    ensures forall p, c :: p in Split(s, sep) && c in p ==> c in s
  {
    if s != [] {
      var rest := Split(s[1..], sep);
      SplitPiecesFree(s[1..], sep);
      forall p | p in Split(s, sep) ensures Free(p, sep) && forall c :: c in p ==> c in s {
        assert p == "" || p in rest || p == [s[0]] + rest[0];
        assert rest[0] in rest;
      }
    }
  }

  lemma {:induction false} SplitCons(head: string, tail: string, sep: char)
    requires Free(head, sep)
    ensures Split(head + [sep] + tail, sep) == [head] + Split(tail, sep)
  {
    var s := head + [sep] + tail;
    if head == [] {
      assert s[1..] == tail;
    } else {
      assert s[1..] == head[1..] + [sep] + tail;
      assert s[0] == head[0] && head[0] in head;
      SplitCons(head[1..], tail, sep);
      assert [head[0]] + head[1..] == head;
    }
  }

  lemma {:induction false} SplitWhole(s: string, sep: char)
    requires Free(s, sep)
    ensures Split(s, sep) == [s]
  {
    if s != [] {
      assert s[0] in s;
      SplitWhole(s[1..], sep);
      assert [s[0]] + s[1..] == s;
    }
  }

  /** Split undoes Join on pieces that do not contain the separator. */
  lemma {:induction false} SplitJoin(parts: seq<string>, sep: char)
    requires parts != []
    requires forall p :: p in parts ==> Free(p, sep)
    ensures Split(Join(parts, sep), sep) == parts
  {
    if |parts| == 1 {
      SplitWhole(parts[0], sep);
    } else {
      SplitJoin(parts[1..], sep);
      SplitCons(parts[0], Join(parts[1..], sep), sep);
    }
  }

  lemma {:induction false} JoinChars(parts: seq<string>, sep: char, c: char)
    requires c in Join(parts, sep)
    ensures c == sep || exists p :: p in parts && c in p
  {
    if |parts| == 1 {
      assert parts[0] in parts;
    } else if |parts| > 1 {
      if c in parts[0] {
        assert parts[0] in parts;
      } else if c != sep {
        assert c in Join(parts[1..], sep);
        JoinChars(parts[1..], sep, c);
      }
    }
  }

  // ---- numbers ----

  predicate IsDigit(c: char) {
    '0' <= c <= '9'
  }

  predicate AllDigits(s: string) {
    forall c :: c in s ==> IsDigit(c)
  }

  function DigitsValue(s: string): nat
    requires AllDigits(s)
  {
    if s == [] then 0
    else
      assert s[|s| - 1] in s;
      DigitsValue(s[..|s| - 1]) * 10 + (s[|s| - 1] as int - '0' as int)
  }

  const MAX_INT64: int := 0x7fff_ffff_ffff_ffff

  /** strconv.ParseInt(s, 10, 64): an optional sign, then digits, within 64 bits. */
  function ParseInt64(s: string): (r: Option<int>)
    ensures r.Some? ==> -MAX_INT64 - 1 <= r.value <= MAX_INT64
  {
    var negative := s != [] && s[0] == '-';
    var digits := if s != [] && (s[0] == '-' || s[0] == '+') then s[1..] else s;
    if digits == [] || !AllDigits(digits) then None
    else
      var v: int := DigitsValue(digits);
      if negative then (if v > MAX_INT64 + 1 then None else Some(-v))
      else if v > MAX_INT64 then None else Some(v)
  }

  /** Decimal numbers as Go reads and writes them, on examples. */
  lemma NumberExamples()
    ensures ParseInt64("500") == Some(500) && ParseInt64("+7") == Some(7) && ParseInt64("-3") == Some(-3)
    ensures ParseInt64("") == None && ParseInt64("-") == None && ParseInt64("1x") == None && ParseInt64("1.5") == None
    ensures Decimal(206) == "206" && Decimal(0) == "0"
  {
    var s := "500";
    assert s[..2] == "50" && s[..2][..1] == "5" && s[..2][..1][..0] == "";
    assert DigitsValue("") == 0 && DigitsValue("5") == 5 && DigitsValue("50") == 50 && DigitsValue(s) == 500;
    assert "+7"[1..] == "7" && "7"[..0] == "" && DigitsValue("7") == 7;
    assert "-3"[1..] == "3" && "3"[..0] == "" && DigitsValue("3") == 3;
    assert "-"[1..] == "";
    assert 'x' in "1x" && !IsDigit('x') && '.' in "1.5" && !IsDigit('.');
    assert Decimal(2) == "2" && Decimal(20) == "20";
  }

  function Digit(d: nat): char
    requires d < 36
  {
    if d < 10 then '0' + d as char else 'a' + (d - 10) as char
  }

  predicate IsDigit36(c: char) {
    IsDigit(c) || 'a' <= c <= 'z'
  }

  /** strconv.FormatInt(n, 10) for a non-negative number. */
  function Decimal(n: nat): (s: string)
    ensures s != [] && AllDigits(s)
  {
    if n < 10 then [Digit(n)] else Decimal(n / 10) + [Digit(n % 10)]
  }

  /** Reading undoes printing. */
  lemma {:induction false} DecimalValue(n: nat)
    ensures DigitsValue(Decimal(n)) == n
  {
    if n >= 10 {
      var s := Decimal(n);
      assert s[..|s| - 1] == Decimal(n / 10) && s[|s| - 1] == Digit(n % 10);
      DecimalValue(n / 10);
    }
  }

  lemma DecimalReads(n: nat)
    requires n <= MAX_INT64
    ensures ParseInt64(Decimal(n)) == Some(n) && Trimmed(Decimal(n)) && '-' !in Decimal(n)
  {
    DecimalValue(n);
    var s := Decimal(n);
    assert s[0] in s && s[|s| - 1] in s;
  }

  /** strconv.FormatUint(n, 36). */
  function Base36(n: nat): (s: string)
    ensures s != [] && forall c :: c in s ==> IsDigit36(c)
  {
    if n < 36 then [Digit(n)] else Base36(n / 36) + [Digit(n % 36)]
  }

  lemma {:induction false} Base36Injective(a: nat, b: nat)
    requires Base36(a) == Base36(b)
    ensures a == b
  {
    var x, y := Base36(a), Base36(b);
    assert x[|x| - 1] == Digit(a % 36) && y[|y| - 1] == Digit(b % 36);
    assert a % 36 == b % 36;
    if a >= 36 && b >= 36 {
      assert x[..|x| - 1] == Base36(a / 36) && y[..|y| - 1] == Base36(b / 36);
      Base36Injective(a / 36, b / 36);
    }
  }

  function DigitValue(c: char): nat
    requires IsDigit36(c)
    ensures DigitValue(c) < 36 && Digit(DigitValue(c)) == c
  {
    if IsDigit(c) then c as int - '0' as int else c as int - 'a' as int + 10
  }

  /** The printed form of every number but zero starts with a digit other than '0'. */
  lemma {:induction false} Base36Leading(n: nat)
    ensures Base36(n)[0] == '0' <==> n == 0
  {
    if n >= 36 {
      Base36Leading(n / 36);
      assert Base36(n)[0] == Base36(n / 36)[0];
    }
  }

  /** Every string of digits that starts so is the printed form of a number. */
  lemma {:induction false} Base36Onto(s: string) returns (n: nat)
    requires s != "" && s[0] != '0' && forall c :: c in s ==> IsDigit36(c)
    ensures n > 0 && Base36(n) == s
  {
    var init, d := s[..|s| - 1], DigitValue(s[|s| - 1]);
    assert s == init + [Digit(d)];
    if init == "" {
      n := d;
    } else {
      var m := Base36Onto(init);
      n := 36 * m + d;
      assert n / 36 == m && n % 36 == d;
    }
  }

  // ---- order ----

  /** The order of Go's < on strings. */
  predicate Less(a: string, b: string) {
    b != [] && (a == [] || a[0] < b[0] || (a[0] == b[0] && Less(a[1..], b[1..])))
  }

  lemma {:induction false} LessIrreflexive(a: string)
    ensures !Less(a, a)
  {
    if a != [] {
      LessIrreflexive(a[1..]);
    }
  }

  lemma {:induction false} LessTotal(a: string, b: string)
    ensures Less(a, b) || a == b || Less(b, a)
  {
    if a != [] && b != [] && a[0] == b[0] {
      LessTotal(a[1..], b[1..]);
      assert a == [a[0]] + a[1..] && b == [b[0]] + b[1..];
    }
  }

  lemma {:induction false} LessTransitive(a: string, b: string, c: string)
    requires Less(a, b) && Less(b, c)
    ensures Less(a, c)
  {
    if a != [] && a[0] == b[0] && b[0] == c[0] {
      LessTransitive(a[1..], b[1..], c[1..]);
    }
  }

  /** The same by positions: a proper prefix, or the smaller character where they differ first. */
  ghost predicate Before(a: string, b: string) {
    a < b || exists i :: 0 <= i < |a| && i < |b| && a[..i] == b[..i] && a[i] < b[i]
  }

  lemma {:induction false} LessMeans(a: string, b: string)
    ensures Less(a, b) <==> Before(a, b)
  {
    if a != [] && b != [] && a[0] == b[0] {
      LessMeans(a[1..], b[1..]);
      assert a == [a[0]] + a[1..] && b == [b[0]] + b[1..];
      if i :| 0 <= i < |a[1..]| && i < |b[1..]| && a[1..][..i] == b[1..][..i] && a[1..][i] < b[1..][i] {
        assert a[..i + 1] == [a[0]] + a[1..][..i] && b[..i + 1] == [b[0]] + b[1..][..i];
        assert a[i + 1] < b[i + 1];
      }
      if i :| 0 <= i < |a| && i < |b| && a[..i] == b[..i] && a[i] < b[i] {
        assert i > 0 && a[1..][..i - 1] == a[..i][1..] && b[1..][..i - 1] == b[..i][1..];
        assert a[1..][i - 1] < b[1..][i - 1];
      }
    } else if a != [] && b != [] {
      forall i | 0 < i < |a| && i < |b| ensures a[..i] != b[..i] {
        assert a[..i][0] == a[0] && b[..i][0] == b[0];
      }
      if a[0] < b[0] {
        assert a[..0] == b[..0];
      }
    }
  }
}
