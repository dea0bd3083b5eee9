/** How a link record is stored: four decimal numbers with colons, in a fixed-size buffer. */
module SfsRecordText {
  import opened Options
  import opened SfsView

  function Digit(d: nat): char
    requires d < 10
  {
    '0' + d as char
  }

  /** `%d` of a non-negative number. */
  function Decimal(n: nat): string {
    if n < 10 then [Digit(n)] else Decimal(n / 10) + [Digit(n % 10)]
  }

  function Print(i: int): string { if i < 0 then "-" + Decimal(-i) else Decimal(i) }

  /** What `put`, `modify` and `reset` write. */
  function Encode(r: Record): string {
    Print(r.pointer) + ":" + Print(r.rename) + ":" + Print(r.hidden) + ":" + Print(r.stale)
  }

  predicate IsDigit(c: char) { '0' <= c <= '9' }

  datatype Scanned = Scanned(value: int, rest: string)

  /** `%d` on input: digits are read greedily onto the value so far. */
  function ScanDigits(s: string, acc: nat): Scanned {
    if s != [] && IsDigit(s[0]) then ScanDigits(s[1..], acc * 10 + (s[0] - '0') as nat) else Scanned(acc, s)
  }

  function ScanInt(s: string): Option<Scanned> {
    if s != [] && IsDigit(s[0]) then Some(ScanDigits(s, 0))
    else if |s| > 1 && s[0] == '-' && IsDigit(s[1]) then var d := ScanDigits(s[1..], 0); Some(d.(value := -d.value))
    else None
  }

  function ScanColon(s: string): Option<string> {
    if s != [] && s[0] == ':' then Some(s[1..]) else None
  }

  /** A number, a colon, and what follows. */
  function ScanField(s: string): Option<Scanned> {
    match ScanInt(s)
    case None => None
    case Some(Scanned(i, rest)) =>
      match ScanColon(rest) case None => None case Some(next) => Some(Scanned(i, next))
  }

  /** What `get` reads back from a buffer. */
  function Decode(s: string): Option<Record> {
    match ScanField(s)
    case None => None
    case Some(Scanned(p, s1)) =>
      match ScanField(s1)
      case None => None
      case Some(Scanned(r, s2)) =>
        match ScanField(s2)
        case None => None
        case Some(Scanned(h, s3)) =>
          match ScanInt(s3) case None => None case Some(Scanned(t, _)) => Some(Record(p, r, h, t))
  }

  lemma {:induction false} ScanDecimal(n: nat, rest: string)
    requires rest == [] || !IsDigit(rest[0])
    ensures IsDigit(Decimal(n)[0])
    ensures ScanDigits(Decimal(n) + rest, 0) == Scanned(n, rest)
  {
    ScanOnto(n, rest);
    assert ScanDigits(rest, n) == Scanned(n, rest);
  }

  /** Reading the digits of `n` leaves `n` as the value so far. */
  lemma {:induction false} ScanOnto(n: nat, rest: string)
    ensures IsDigit(Decimal(n)[0])
    ensures ScanDigits(Decimal(n) + rest, 0) == ScanDigits(rest, n)
  {
    if n < 10 {
      assert Decimal(n) + rest == [Digit(n)] + rest;
      assert ([Digit(n)] + rest)[1..] == rest;
    } else {
      var last := [Digit(n % 10)];
      assert Decimal(n) + rest == Decimal(n / 10) + (last + rest);
      ScanOnto(n / 10, last + rest);
      assert (last + rest)[1..] == rest;
    }
  }

  lemma ScanPrint(i: int, rest: string)
    requires rest == [] || !IsDigit(rest[0])
    ensures ScanInt(Print(i) + rest) == Some(Scanned(i, rest))
  {
    if i < 0 {
      assert (Print(i) + rest)[1..] == Decimal(-i) + rest;
      ScanDecimal(-i, rest);
    } else {
      ScanDecimal(i, rest);
    }
  }

  lemma ScanPrintField(i: int, rest: string)
    ensures ScanField(Print(i) + ":" + rest) == Some(Scanned(i, rest))
  {
    assert Print(i) + ":" + rest == Print(i) + (":" + rest);
    ScanPrint(i, ":" + rest);
    assert (":" + rest)[1..] == rest;
  }

  /** Every record reads back as written, whatever the buffer holds after the terminator. */
  lemma RecordRoundTrip(r: Record, junk: string)
    ensures Decode(Encode(r) + "\0" + junk) == Some(r)
  {
    var tail := "\0" + junk;
    var s3 := Print(r.stale) + tail;
    var s2 := Print(r.hidden) + ":" + s3;
    var s1 := Print(r.rename) + ":" + s2;
    assert Encode(r) + "\0" + junk == Print(r.pointer) + ":" + s1;
    ScanPrintField(r.pointer, s1);
    ScanPrintField(r.rename, s2);
    ScanPrintField(r.hidden, s3);
    ScanPrint(r.stale, tail);
  }

  // ---- What is read back at all ----

  predicate AllDigits(s: string) { forall k :: 0 <= k < |s| ==> IsDigit(s[k]) }

  /** Digits, with or without a minus sign. */
  predicate IsNumber(s: string) {
    (s != [] && AllDigits(s)) || (|s| > 1 && s[0] == '-' && AllDigits(s[1..]))
  }

  function DigitsValue(s: string): nat
    requires AllDigits(s)
  {
    if s == [] then 0 else DigitsValue(s[..|s| - 1]) * 10 + (s[|s| - 1] - '0') as nat
  }

  function NumberOf(s: string): int
    requires IsNumber(s)
  {
    if s[0] == '-' then 0 - DigitsValue(s[1..]) else DigitsValue(s)
  }

  /** Having read the digits `a`, the scan goes on to the first character that is none. */
  lemma {:induction false} DigitsScanned(a: string, s: string) returns (d: string)
    requires AllDigits(a)
    ensures AllDigits(a + d) && s == d + ScanDigits(s, DigitsValue(a)).rest
    ensures ScanDigits(s, DigitsValue(a)).value == DigitsValue(a + d)
    ensures s != [] && IsDigit(s[0]) ==> d != []
    decreases |s|
  {
    if s != [] && IsDigit(s[0]) {
      var more := a + [s[0]];
      assert more[..|more| - 1] == a;
      var e := DigitsScanned(more, s[1..]);
      d := [s[0]] + e;
      assert a + d == more + e;
    } else {
      d := [];
      assert a + d == a;
    }
  }

  /** A number is read only where there is one, and as that number. */
  lemma IntScanned(s: string) returns (a: string)
    requires ScanInt(s).Some?
    ensures IsNumber(a) && s == a + ScanInt(s).value.rest && ScanInt(s).value.value == NumberOf(a)
  {
    if s != [] && IsDigit(s[0]) {
      a := DigitsScanned([], s);
      assert [] + a == a;
    } else {
      var d := DigitsScanned([], s[1..]);
      assert [] + d == d;
      a := ['-'] + d;
      assert a[1..] == d;
    }
  }

  lemma FieldScanned(s: string) returns (a: string)
    requires ScanField(s).Some?
    ensures IsNumber(a) && s == a + ":" + ScanField(s).value.rest && ScanField(s).value.value == NumberOf(a)
  {
    a := IntScanned(s);
  }

  /** A record is read back only from four numbers with colons between them, and has these in its slots. */
  lemma DecodedIsWritten(s: string, r: Record) returns (p: string, q: string, h: string, t: string, rest: string)
    requires Decode(s) == Some(r)
    ensures IsNumber(p) && IsNumber(q) && IsNumber(h) && IsNumber(t)
    ensures s == p + ":" + q + ":" + h + ":" + t + rest
    ensures r == Record(NumberOf(p), NumberOf(q), NumberOf(h), NumberOf(t))
  {
    p := FieldScanned(s);
    var s1 := ScanField(s).value.rest;
    q := FieldScanned(s1);
    var s2 := ScanField(s1).value.rest;
    h := FieldScanned(s2);
    var s3 := ScanField(s2).value.rest;
    t := IntScanned(s3);
    rest := ScanInt(s3).value.rest;
  }

  ghost predicate SlotOk(i: int) { -1 <= i < 64 }

  /** With at most 64 partitions a record and its terminator fit the smallest buffer, the
      fifteen bytes of `put`. */
  lemma RecordFits(r: Record)
    requires SlotOk(r.pointer) && SlotOk(r.rename) && SlotOk(r.hidden) && SlotOk(r.stale)
    ensures |Encode(r)| + 1 <= 15
  {
    forall i | SlotOk(i) ensures |Print(i)| <= 2 {
      if i >= 10 {
        assert |Decimal(i / 10)| == 1;
      }
    }
  }
}
