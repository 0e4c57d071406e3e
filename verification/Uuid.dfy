/**
 * The default identifier generator (id.go): version 7 UUIDs (section 5.7 of RFC 9562) whose twelve
 * rand_a bits count within a millisecond (section 6.2), strictly increasing as text.
 */
module Uuid {
  import opened Basics

  const COUNTER_MAX := 0x0FFF
  const MS_LIMIT := 0x1_0000_0000_0000

  /** The generator's state: the last millisecond emitted, and the counter within it. */
  datatype Clock = Clock(lastMS: int, counter: nat)

  /** `tick`: the observed time when it is new, else the counter, else the next millisecond. */
  function Tick(c: Clock, observed: int): Clock {
    if observed > c.lastMS then Clock(observed, 0)
    else if c.counter < COUNTER_MAX then c.(counter := c.counter + 1)
    else Clock(c.lastMS + 1, 0)
  }

  /** The state after reading the clock so often. */
  function After(readings: seq<int>): (c: Clock)
    ensures 0 <= c.lastMS && c.counter <= COUNTER_MAX
  {
    if readings == [] then Clock(0, 0) else Tick(After(readings[..|readings| - 1]), readings[|readings| - 1])
  }

  function Stamp(c: Clock): int {
    c.lastMS * 4096 + c.counter
  }

  // ---------------------------------------------------------------- bytes and text

  type Byte = n: int | 0 <= n < 256

  function BigEndian(n: nat, width: nat): seq<Byte> {
    if width == 0 then [] else BigEndian(n / 256, width - 1) + [n % 256]
  }

  /** The sixteen bytes: the low 48 bits of the milliseconds, the version and counter, the variant and randomness. */
  function Bytes(c: Clock, random: seq<Byte>): seq<Byte>
    requires 0 <= c.lastMS && c.counter <= COUNTER_MAX && |random| == 8
  {
    BigEndian(c.lastMS, 6) + CounterBytes(c.counter) + [random[0] % 64 + 128] + random[1..]
  }

  function Digit(n: nat): char
    requires n < 16
  {
    "0123456789abcdef"[n]
  }

  function Hex(b: Byte): string {
    [Digit(b / 16), Digit(b % 16)]
  }

  /** A hyphen stands before the fifth, seventh, ninth and eleventh byte. */
  function Text(bytes: seq<Byte>, at: nat): string
    decreases |bytes|
  {
    if bytes == [] then ""
    else Hyphen(at) + Hex(bytes[0]) + Text(bytes[1..], at + 1)
  }

  // ---------------------------------------------------------------- order

  /** The first byte at which two sequences differ decides. */
  predicate Below(a: seq<Byte>, b: seq<Byte>) {
    a != [] && b != [] && (a[0] < b[0] || (a[0] == b[0] && Below(a[1..], b[1..])))
  }

  lemma {:induction false} BelowAppend(a: seq<Byte>, b: seq<Byte>, x: seq<Byte>, y: seq<Byte>)
    requires |a| == |b|
    ensures Below(a, b) ==> Below(a + x, b + y)
    ensures a == b && Below(x, y) ==> Below(a + x, b + y)
    decreases |a|
  {
    if a == [] {
      assert a + x == x && b + y == y;
    } else {
      assert (a + x)[1..] == a[1..] + x && (b + y)[1..] == b[1..] + y;
      BelowAppend(a[1..], b[1..], x, y);
    }
  }

  lemma {:induction false} BigEndianLength(n: nat, width: nat)
    ensures |BigEndian(n, width)| == width
    decreases width
  {
    if width > 0 {
      BigEndianLength(n / 256, width - 1);
    }
  }

  function Power(width: nat): nat {
    if width == 0 then 1 else 256 * Power(width - 1)
  }

  /** Numbers that fit are ordered as their big-endian bytes are. */
  lemma {:induction false} BigEndianOrders(m: nat, n: nat, width: nat)
    requires m < n < Power(width)
    ensures Below(BigEndian(m, width), BigEndian(n, width))
    decreases width
  {
    if width > 0 {
      BigEndianLength(m / 256, width - 1);
      BigEndianLength(n / 256, width - 1);
      var a, b := BigEndian(m / 256, width - 1), BigEndian(n / 256, width - 1);
      if m / 256 < n / 256 {
        BigEndianOrders(m / 256, n / 256, width - 1);
      }
      BelowAppend(a, b, [m % 256], [n % 256]);
    }
  }

  lemma {:induction false} LessAfter(p: string, s: string, t: string)
    requires Less(s, t)
    ensures Less(p + s, p + t)
  {
    if p != "" {
      assert (p + s)[1..] == p[1..] + s && (p + t)[1..] == p[1..] + t;
      LessAfter(p[1..], s, t);
    } else {
      assert p + s == s && p + t == t;
    }
  }

  lemma DigitOrders(m: nat, n: nat)
    requires m < n < 16
    ensures Digit(m) < Digit(n)
  {
  }

  lemma HexOrders(a: Byte, b: Byte, s: string, t: string)
    requires a < b
    ensures Less(Hex(a) + s, Hex(b) + t)
  {
    PairOrders(Digit(a / 16), Digit(a % 16), Digit(b / 16), Digit(b % 16), s, t);
    if a / 16 < b / 16 {
      DigitOrders(a / 16, b / 16);
    } else {
      DigitOrders(a % 16, b % 16);
    }
  }

  lemma PairOrders(a: char, b: char, c: char, d: char, s: string, t: string)
    ensures a < c || (a == c && b < d) ==> Less([a, b] + s, [c, d] + t)
  {
    var x, y := [a, b] + s, [c, d] + t;
    assert x[1..][0] == b && y[1..][0] == d;
  }

  function Hyphen(at: nat): string {
    if at in {4, 6, 8, 10} then "-" else ""
  }

  lemma TextHead(bytes: seq<Byte>, at: nat)
    requires bytes != []
    ensures Text(bytes, at) == Hyphen(at) + (Hex(bytes[0]) + Text(bytes[1..], at + 1))
  {
  }

  /** The text of a UUID orders as its bytes do. */
  lemma {:induction false} TextOrders(a: seq<Byte>, b: seq<Byte>, at: nat)
    requires Below(a, b)
    ensures Less(Text(a, at), Text(b, at))
    decreases |a|
  {
    TextHead(a, at);
    TextHead(b, at);
    var s, t := Text(a[1..], at + 1), Text(b[1..], at + 1);
    if a[0] < b[0] {
      HexOrders(a[0], b[0], s, t);
    } else {
      TextOrders(a[1..], b[1..], at + 1);
      LessAfter(Hex(a[0]), s, t);
    }
    LessAfter(Hyphen(at), Hex(a[0]) + s, Hex(b[0]) + t);
  }

  // ---------------------------------------------------------------- runs

  lemma TickAdvances(c: Clock, observed: int)
    requires c.counter <= COUNTER_MAX
    ensures Stamp(c) < Stamp(Tick(c, observed))
  {
  }

  /** Each tick moves the stamp forward. */
  lemma {:induction false} StampsIncrease(readings: seq<int>, i: nat, j: nat)
    requires i < j <= |readings|
    ensures Stamp(After(readings[..i])) < Stamp(After(readings[..j]))
    decreases j
  {
    var before := readings[..j - 1];
    assert readings[..j][..j - 1] == before;
    TickAdvances(After(before), readings[j - 1]);
    if i < j - 1 {
      StampsIncrease(readings, i, j - 1);
    }
  }

  /** The identifier minted at a state of the clock. */
  function Identifier(c: Clock, random: seq<Byte>): string
    requires 0 <= c.lastMS && c.counter <= COUNTER_MAX && |random| == 8
  {
    Text(Bytes(c, random), 0)
  }

  lemma {:induction false} BytesOrder(c: Clock, d: Clock, r: seq<Byte>, s: seq<Byte>)
    requires 0 <= c.lastMS && c.counter <= COUNTER_MAX && |r| == 8 && d.counter <= COUNTER_MAX && |s| == 8
    requires Stamp(c) < Stamp(d) && d.lastMS < MS_LIMIT
    ensures Below(Bytes(c, r), Bytes(d, s))
  {
    var a, b := BigEndian(c.lastMS, 6), BigEndian(d.lastMS, 6);
    BigEndianLength(c.lastMS, 6);
    BigEndianLength(d.lastMS, 6);
    var u, v := [r[0] % 64 + 128] + r[1..], [s[0] % 64 + 128] + s[1..];
    assert Bytes(c, r) == a + (CounterBytes(c.counter) + u) && Bytes(d, s) == b + (CounterBytes(d.counter) + v);
    BelowAppend(a, b, CounterBytes(c.counter) + u, CounterBytes(d.counter) + v);
    if c.lastMS < d.lastMS {
      PowerSix();
      BigEndianOrders(c.lastMS, d.lastMS, 6);
    } else {
      StampSplits(c, d);
      CounterOrders(c.counter, d.counter);
      BelowAppend(CounterBytes(c.counter), CounterBytes(d.counter), u, v);
    }
  }

  lemma StampSplits(c: Clock, d: Clock)
    requires c.counter <= COUNTER_MAX && d.counter <= COUNTER_MAX && Stamp(c) < Stamp(d) && c.lastMS >= d.lastMS
    ensures c.lastMS == d.lastMS && c.counter < d.counter
  {
  }

  function CounterBytes(counter: nat): seq<Byte>
    requires counter <= COUNTER_MAX
  {
    [0x70 + counter / 256, counter % 256]
  }

  lemma CounterOrders(m: nat, n: nat)
    requires m < n <= COUNTER_MAX
    ensures Below(CounterBytes(m), CounterBytes(n))
  {
    assert CounterBytes(m)[1..] == [m % 256] && CounterBytes(n)[1..] == [n % 256];
  }

  lemma PowerSix()
    ensures Power(6) == MS_LIMIT
  {
    assert Power(1) == 256 && Power(2) == 65536 && Power(3) == 16777216;
  }

  /**
   * Whatever the clock reads, backward steps included, later identifiers are greater as strings while
   * the millisecond field fits its 48 bits.
   */
  lemma IdentifiersIncrease(readings: seq<int>, i: nat, j: nat, r: seq<Byte>, s: seq<Byte>)
    requires i < j <= |readings| && |r| == 8 && |s| == 8
    requires After(readings[..j]).lastMS < MS_LIMIT
    ensures Less(Identifier(After(readings[..i]), r), Identifier(After(readings[..j]), s))
  {
    StampsIncrease(readings, i, j);
    BytesOrder(After(readings[..i]), After(readings[..j]), r, s);
    TextOrders(Bytes(After(readings[..i]), r), Bytes(After(readings[..j]), s), 0);
  }

  /** The latest time any reading has shown. */
  function Latest(readings: seq<int>): int {
    if readings == [] then 0
    else
      var before, last := Latest(readings[..|readings| - 1]), readings[|readings| - 1];
      if last > before then last else before
  }

  /** The emitted time leads the latest time read by at most one millisecond per 4096 identifiers. */
  lemma {:induction false} LeadBounded(readings: seq<int>)
    ensures After(readings).counter <= COUNTER_MAX && Latest(readings) <= After(readings).lastMS
    ensures (After(readings).lastMS - Latest(readings)) * 4096 + After(readings).counter <= |readings|
    ensures After(readings).lastMS - Latest(readings) <= |readings| / 4096
  {
    if readings != [] {
      LeadBounded(readings[..|readings| - 1]);
    }
  }

  /** Against the last reading itself there is no bound: one backward step leaves any lead. */
  lemma LeadUnbounded(k: int)
    requires k > 0
    ensures After([k, 0]).lastMS - 0 == k
  {
    assert [k, 0][..1] == [k] && [k][..0] == [];
    assert After([]) == Clock(0, 0) && After([k]) == Clock(k, 0);
  }

  /** Where one reading on its own would have led the generator by now. */
  function Bound(readings: seq<int>, i: nat): int
    requires i < |readings|
  {
    readings[i] * 4096 + (|readings| - 1 - i)
  }

  lemma TickStamp(c: Clock, observed: int)
    requires c.counter <= COUNTER_MAX
    ensures Stamp(Tick(c, observed)) == Higher(Stamp(c) + 1, observed * 4096)
  {
  }

  /** The stamp is the highest of those and the number of identifiers. */
  lemma {:induction false} StampExact(readings: seq<int>)
    ensures |readings| <= Stamp(After(readings)) && forall i :: 0 <= i < |readings| ==> Bound(readings, i) <= Stamp(After(readings))
    ensures Stamp(After(readings)) == |readings| ||
            exists i :: 0 <= i < |readings| && Stamp(After(readings)) == Bound(readings, i)
  {
    if readings != [] {
      var k := |readings| - 1;
      StampExact(readings[..k]);
      TickStamp(After(readings[..k]), readings[k]);
      StampNext(readings, Stamp(After(readings[..k])), Stamp(After(readings)));
    }
  }

  /** One more reading: what was highest moves on by one, unless the reading is higher still. */
  lemma {:induction false} StampNext(readings: seq<int>, before: int, after: int)
    requires readings != [] && after == Higher(before + 1, readings[|readings| - 1] * 4096)
    requires var init := readings[..|readings| - 1];
             && |init| <= before && (forall i :: 0 <= i < |init| ==> Bound(init, i) <= before)
             && (before == |init| || exists i :: 0 <= i < |init| && before == Bound(init, i))
    ensures |readings| <= after && forall i :: 0 <= i < |readings| ==> Bound(readings, i) <= after
    ensures after == |readings| || exists i :: 0 <= i < |readings| && after == Bound(readings, i)
  {
    var k := |readings| - 1;
    var init := readings[..k];
    forall i | 0 <= i < k ensures Bound(readings, i) == Bound(init, i) + 1 { }
    assert Bound(readings, k) == readings[k] * 4096;
    if before != |init| {
      var i :| 0 <= i < k && before == Bound(init, i);
      assert before + 1 == Bound(readings, i);
    }
  }

  function Higher(a: int, b: int): int {
    if b > a then b else a
  }

  lemma Carried(ms: int, ticks: nat)
    ensures (ms * 4096 + ticks) / 4096 == ms + ticks / 4096
  {
  }

  /**
   * Exactly when the emitted time leads the last reading by no more than a millisecond per 4096
   * identifiers: that reading is not negative, and no earlier one, moved on by the identifiers since, is
   * further ahead of it than that.
   */
  lemma LeadExact(readings: seq<int>)
    requires readings != []
    ensures var n, last := |readings|, readings[|readings| - 1];
            After(readings).lastMS - last <= n / 4096 <==>
            last >= 0 && forall i :: 0 <= i < n ==> readings[i] + (n - 1 - i) / 4096 <= last + n / 4096
  {
    var n, last, stamp := |readings|, readings[|readings| - 1], Stamp(After(readings));
    StampExact(readings);
    Carried(After(readings).lastMS, After(readings).counter);
    forall i | 0 <= i < n ensures Bound(readings, i) / 4096 == readings[i] + (n - 1 - i) / 4096 {
      Carried(readings[i], n - 1 - i);
    }
    assert stamp / 4096 == After(readings).lastMS;
    if After(readings).lastMS - last <= n / 4096 {
      forall i | 0 <= i < n ensures readings[i] + (n - 1 - i) / 4096 <= last + n / 4096 {
        assert Bound(readings, i) <= stamp;
      }
    }
  }

  // ---------------------------------------------------------------- what an identifier says

  /** The number big-endian bytes spell. */
  function Spelled(bytes: seq<Byte>): nat {
    if bytes == [] then 0 else Spelled(bytes[..|bytes| - 1]) * 256 + bytes[|bytes| - 1]
  }

  lemma {:induction false} SpelledBack(n: nat, width: nat)
    requires n < Power(width)
    ensures Spelled(BigEndian(n, width)) == n
    decreases width
  {
    if width > 0 {
      SpelledBack(n / 256, width - 1);
      BigEndianLength(n / 256, width - 1);
      assert BigEndian(n, width)[..width - 1] == BigEndian(n / 256, width - 1);
    }
  }

  function CounterOf(high: int, low: int): int {
    high % 16 * 256 + low
  }

  /**
   * The sixteen bytes say what section 5.7 of RFC 9562 asks of version 7: the milliseconds, the version,
   * the counter, the variant, and the random bits.
   */
  lemma {:induction false} BytesSay(c: Clock, random: seq<Byte>)
    requires 0 <= c.lastMS < MS_LIMIT && c.counter <= COUNTER_MAX && |random| == 8
    ensures var b := Bytes(c, random);
            && |b| == 16 && Spelled(b[..6]) == c.lastMS
            && b[6] / 16 == 7 && CounterOf(b[6], b[7]) == c.counter
            && b[8] / 64 == 2 && b[8] % 64 == random[0] % 64 && b[9..] == random[1..]
  {
    BigEndianLength(c.lastMS, 6);
    PowerSix();
    SpelledBack(c.lastMS, 6);
    assert Bytes(c, random)[..6] == BigEndian(c.lastMS, 6);
  }

  function Digits(bytes: seq<Byte>): string {
    if bytes == [] then "" else Hex(bytes[0]) + Digits(bytes[1..])
  }

  /** Up to the next hyphen the text is the digits, after the hyphen before them. */
  lemma {:induction false} TextRun(bytes: seq<Byte>, n: nat, at: nat)
    requires 0 < n <= |bytes| && forall k :: at < k < at + n ==> Hyphen(k) == ""
    ensures Text(bytes, at) == Hyphen(at) + (Digits(bytes[..n]) + Text(bytes[n..], at + n))
    decreases n
  {
    TextHead(bytes, at);
    var rest, tail := bytes[1..], Text(bytes[n..], at + n);
    if n > 1 {
      TextRun(rest, n - 1, at + 1);
      assert rest[..n - 1] == bytes[..n][1..] && rest[n - 1..] == bytes[n..] && Hyphen(at + 1) == "";
      JoinRun(Hex(bytes[0]), Digits(bytes[..n][1..]), tail);
    } else {
      assert bytes[..1][1..] == [];
      JoinRun(Hex(bytes[0]), "", tail);
    }
  }

  lemma JoinRun(a: string, b: string, c: string)
    ensures a + ("" + (b + c)) == (a + b) + c && a + (b + c) == (a + b) + c && a + "" == a
  {
  }

  /** The text is the five groups of digits, 8-4-4-4-12, with hyphens between them. */
  lemma {:induction false} TextGroups(bytes: seq<Byte>)
    requires |bytes| == 16
    ensures Text(bytes, 0) ==
            "" + (Digits(bytes[..4]) + ("-" + (Digits(bytes[4..6]) + ("-" + (Digits(bytes[6..8]) + ("-" + (Digits(bytes[8..10]) +
            ("-" + (Digits(bytes[10..]) + "")))))))))
  {
    assert Text(bytes, 0) == "" + (Digits(bytes[..4]) + Text(bytes[4..], 4)) by { TextRun(bytes, 4, 0); }
    assert Text(bytes[4..], 4) == "-" + (Digits(bytes[4..6]) + Text(bytes[6..], 6)) by { NextRun(bytes, 4, 6); }
    LastGroups(bytes);
  }

  lemma {:induction false} LastGroups(bytes: seq<Byte>)
    requires |bytes| == 16
    ensures Text(bytes[6..], 6) == "-" + (Digits(bytes[6..8]) + ("-" + (Digits(bytes[8..10]) + ("-" + (Digits(bytes[10..]) + "")))))
  {
    assert Text(bytes[6..], 6) == "-" + (Digits(bytes[6..8]) + Text(bytes[8..], 8)) by { NextRun(bytes, 6, 8); }
    assert Text(bytes[8..], 8) == "-" + (Digits(bytes[8..10]) + Text(bytes[10..], 10)) by { NextRun(bytes, 8, 10); }
    assert Text(bytes[10..], 10) == "-" + (Digits(bytes[10..]) + "") by {
      NextRun(bytes, 10, 16);
      assert bytes[10..16] == bytes[10..] && bytes[16..] == [];
    }
  }

  lemma {:induction false} NextRun(bytes: seq<Byte>, from: nat, to: nat)
    requires from < to <= |bytes| && forall k :: from < k < to ==> Hyphen(k) == ""
    ensures Text(bytes[from..], from) == Hyphen(from) + (Digits(bytes[from..to]) + Text(bytes[to..], to))
  {
    TextRun(bytes[from..], to - from, from);
    assert bytes[from..][..to - from] == bytes[from..to] && bytes[from..][to - from..] == bytes[to..];
  }

  // ---------------------------------------------------------------- the generator

  class Generator {
    var lastMS: int
    var counter: nat
    /** What the clock has shown so far. */
    ghost var readings: seq<int>

    ghost predicate Valid() reads this {
      Clock(lastMS, counter) == After(readings)
    }

    constructor ()
      ensures Valid() && readings == []
    {
      lastMS, counter, readings := 0, 0, [];
    }

    method NextTick(observed: int)
      requires Valid()
      modifies this
      ensures Valid() && readings == old(readings) + [observed]
    {
      assert (readings + [observed])[..|readings|] == readings;
      if observed > lastMS {
        lastMS, counter := observed, 0;
      } else if counter < COUNTER_MAX {
        counter := counter + 1;
      } else {
        lastMS, counter := lastMS + 1, 0;
      }
      readings := readings + [observed];
    }

    /** `NewTaskID`, with the clock's reading and eight random bytes; milliseconds beyond 48 bits are truncated. */
    method NewTaskID(observed: int, random: seq<Byte>) returns (id: string)
      requires Valid() && |random| == 8
      modifies this
      ensures Valid() && readings == old(readings) + [observed]
      ensures id == Identifier(After(readings), random)
    {
      NextTick(observed);
      var buf := FillBytes(lastMS, counter, random);
      id := FormatUUID(buf);
    }
  }

  /** The byte buffer: time, then version and counter, then variant and randomness over it. */
  method FillBytes(ms: nat, counter: nat, random: seq<Byte>) returns (buf: array<Byte>)
    requires counter <= COUNTER_MAX && |random| == 8
    ensures buf.Length == 16 && buf[..] == Bytes(Clock(ms, counter), random)
  {
    buf := new Byte[16](i requires 0 <= i < 16 => if i < 8 then 0 else random[i - 8]);
    assert buf[8..] == random;
    PutBigEndian(buf, ms * 65536);
    BigEndianShift(ms);
    ghost var time, noise := buf[..6], buf[9..];
    assert time == buf[..8][..6] && noise == buf[8..][1..] && buf[8] == buf[8..][0];
    buf[6] := 0x70 + counter / 256;
    buf[7] := counter % 256;
    buf[8] := buf[8] % 64 + 128;
    assert buf[..] == time + CounterBytes(counter) + [random[0] % 64 + 128] + noise;
  }

  /** The low 64 bits of a number into the first eight bytes. */
  method PutBigEndian(buf: array<Byte>, n: nat)
    requires buf.Length == 16
    modifies buf
    ensures buf[..8] == BigEndian(n, 8) && buf[8..] == old(buf[8..])
  {
    var v := n;
    var k := 8;
    assert buf[8..8] == [];
    while k > 0
      invariant 0 <= k <= 8 && BigEndian(v, k) + buf[k..8] == BigEndian(n, 8) && buf[8..] == old(buf[8..])
    {
      ghost var tail := buf[k..8];
      k := k - 1;
      buf[k] := v % 256;
      assert buf[k..8] == [v % 256] + tail;
      v := v / 256;
    }
  }

  lemma BigEndianShift(ms: nat)
    ensures |BigEndian(ms * 65536, 8)| == 8 && BigEndian(ms * 65536, 8)[..6] == BigEndian(ms, 6)
  {
    BigEndianLength(ms, 6);
    assert BigEndian(ms * 256, 7) == BigEndian(ms, 6) + [0];
    assert BigEndian(ms * 65536, 8) == BigEndian(ms * 256, 7) + [0];
  }

  /** `formatUUID`: the 36 characters written in place. */
  method FormatUUID(bytes: array<Byte>) returns (text: string)
    requires bytes.Length == 16
    ensures text == Text(bytes[..], 0)
  {
    var out := new char[36](_ => '-');
    var at := 0;
    assert bytes[0..] == bytes[..];
    for k := 0 to 16
      invariant at == Width(k) && out[..at] + Text(bytes[k..], k) == Text(bytes[..], 0)
    {
      TextHead(bytes[k..], k);
      assert bytes[k..][1..] == bytes[k + 1..];
      ghost var before := out[..at];
      WidthStep(k);
      at := WriteHyphen(out, at, k);
      WriteHex(out, at, bytes[k]);
      at := at + 2;
      Regroup(before, Hyphen(k), Hex(bytes[k]), Text(bytes[k + 1..], k + 1));
    }
    text := out[..];
    assert out[..36] + Text(bytes[16..], 16) == out[..];
  }

  method WriteHyphen(out: array<char>, at: nat, k: nat) returns (after: nat)
    requires at < out.Length
    modifies out
    ensures after == at + |Hyphen(k)| <= out.Length && out[..after] == old(out[..at]) + Hyphen(k)
  {
    after := at;
    if k in {4, 6, 8, 10} {
      out[at] := '-';
      after := at + 1;
    }
  }

  lemma WidthStep(k: nat)
    requires k < 16
    ensures Width(k) + |Hyphen(k)| + 2 == Width(k + 1) <= 36
  {
  }

  /** `hex.Encode` of one byte. */
  method WriteHex(out: array<char>, at: nat, b: Byte)
    requires at + 2 <= out.Length
    modifies out
    ensures out[..at + 2] == old(out[..at]) + Hex(b)
  {
    out[at], out[at + 1] := Digit(b / 16), Digit(b % 16);
    assert out[..at + 2] == out[..at] + [out[at], out[at + 1]];
  }

  lemma Regroup(p: string, h: string, x: string, rest: string)
    ensures p + (h + (x + rest)) == p + h + x + rest
  {
  }

  /** How many characters the first bytes take. */
  function Width(k: nat): nat {
    2 * k + (if k > 4 then 1 else 0) + (if k > 6 then 1 else 0) + (if k > 8 then 1 else 0) + (if k > 10 then 1 else 0)
  }
}
