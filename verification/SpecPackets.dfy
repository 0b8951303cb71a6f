/** The packets and sections written out in the protocol document and its tests, byte for byte. */
module SpecPackets {
  import opened Basics
  import opened Params
  import opened Frame
  import opened Section
  import opened SectionLaws
  import opened Values
  import opened Grammar
  import Decimal

  const PASSWORD: Bytes := [0x31, 0x31, 0x31, 0x31]

  /** The id of sixteen zero bytes. */
  function NullId(): (id: Bytes)
    ensures |id| == 16 && forall i :: 0 <= i < 16 ==> id[i] == 0
  {
    seq(16, i requires 0 <= i < 16 => 0)
  }

  /** All that goes before the function byte of a packet to or from that fan. */
  function Front(): Bytes { [0xFD, 0xFD, 0x02, 0x10] + NullId() + [0x04] + PASSWORD }

  /** A request for power and speed. */
  function SpecRequest(): Bytes { Front() + [0x01, 0x01, 0x02, 0xDE, 0x00] }

  /** The answer of a fan that is off at speed 3. */
  function SpecResponse(): Bytes { Front() + [0x06, 0x01, 0x00, 0x02, 0x03, 0xE6, 0x00] }

  lemma PayloadSum(id: Bytes, func: byte, data: Bytes)
    requires |id| == 16 && Sum(id) == 0
    ensures Sum(Payload(id, PASSWORD, func, data)) == 218 + func + Sum(data)
  {
    SumOfFew([PROTOCOL_TYPE, 16]);
    SumOfFew([|PASSWORD|]);
    SumOfFew(PASSWORD);
    SumOfFew([func]);
    hide Sum;
    var a, b, c := [PROTOCOL_TYPE, 16], [|PASSWORD|], [func];
    SumConcat(a + id + b + PASSWORD + c, data);
    SumConcat(a + id + b + PASSWORD, c);
    SumConcat(a + id + b, PASSWORD);
    SumConcat(a + id, b);
    SumConcat(a, id);
  }

  lemma FramedIs(func: byte, data: Bytes)
    requires |data| <= 200 && 218 + func + Sum(data) < 256
    ensures Framed(NullId(), PASSWORD, func, data) == Ok(Front() + ([func] + data + [218 + func + Sum(data), 0]))
  {
    var id := NullId();
    hide Sum, Payload, ChecksumOf, Front, ValidCredentials;
    Credentials();
    ChecksumIs(func, data);
    Assembled(id, func, data, [218 + func + Sum(data), 0]);
    FrontIs();
  }

  lemma Credentials()
    ensures ValidCredentials(NullId(), PASSWORD)
  {
  }

  lemma FrontIs()
    ensures Front() == [0xFD, 0xFD, 0x02, 0x10] + NullId() + [0x04] + PASSWORD
  {
  }

  lemma ChecksumIs(func: byte, data: Bytes)
    requires 218 + func + Sum(data) < 256
    ensures ChecksumOf(Payload(NullId(), PASSWORD, func, data)) == [218 + func + Sum(data), 0]
  {
    hide NullId, Sum, Payload, LittleEndian16;
    var id, n := NullId(), 218 + func + Sum(data);
    SumOfZeros(id);
    PayloadSum(id, func, data);
    SmallChecksum(n);
    assert ChecksumOf(Payload(id, PASSWORD, func, data)) == LittleEndian16(n % 0x10000);
  }

  lemma SmallChecksum(n: byte)
    ensures LittleEndian16(n % 0x10000) == [n, 0]
  {
  }

  lemma Assembled(id: Bytes, func: byte, data: Bytes, checksum: Bytes)
    requires |id| == 16
    ensures [START, START] + Payload(id, PASSWORD, func, data) + checksum
         == [0xFD, 0xFD, 0x02, 0x10] + id + [0x04] + PASSWORD + ([func] + data + checksum)
  {
  }

  lemma {:induction false} SumOfZeros(s: Bytes)
    requires forall i :: 0 <= i < |s| ==> s[i] == 0
    ensures Sum(s) == 0
    decreases |s|
  {
    if s != [] {
      SumOfZeros(s[1..]);
    }
  }

  lemma SumOfFew(s: Bytes)
    ensures |s| == 1 ==> Sum(s) == s[0]
    ensures |s| == 2 ==> Sum(s) == s[0] as int + s[1] as int
    ensures |s| == 4 ==> Sum(s) == s[0] as int + s[1] as int + s[2] as int + s[3] as int
  {
    if |s| == 1 {
      assert Sum(s[1..]) == 0;
    } else if |s| == 2 {
      assert Sum(s[1..][1..]) == 0;
    } else if |s| == 4 {
      assert Sum(s[1..][1..][1..][1..]) == 0;
    }
  }

  lemma TwoReads(a: Code, b: Code)
    requires Page(a) == Page(b) == 0
    ensures EncodeReads(0, [a, b]) == [Addr(a), Addr(b)]
  {
    assert [a, b][1..] == [b] && [b][1..] == [];
    assert EncodeReads(0, [b]) == [Addr(b)] + EncodeReads(0, []);
  }

  lemma TwoShort(a: Code, x: byte, b: Code, y: byte)
    requires Page(a) == Page(b) == 0
    ensures EncodeItems(0, Vals([Entry(a, [x]), Entry(b, [y])])) == [Addr(a), x, Addr(b), y]
  {
    var items := Vals([Entry(a, [x]), Entry(b, [y])]);
    assert items[1..] == [Val(Entry(b, [y]))] && items[1..][1..] == [];
    assert EncodeItems(0, items[1..]) == Body(Val(Entry(b, [y]))) + EncodeItems(0, []);
  }

  /** Asking a fan for power and speed builds the documented request. */
  lemma RequestIsAsDocumented()
    ensures Framed(NullId(), PASSWORD, READ, EncodeReads(0, [POWER, SPEED])) == Ok(SpecRequest())
  {
    TwoReads(POWER, SPEED);
    SumOfFew([1, 2]);
    hide Sum, EncodeReads;
    FramedIs(READ, [1, 2]);
    assert [READ] + [1, 2] + [0xDE, 0x00] == [0x01, 0x01, 0x02, 0xDE, 0x00];
  }

  lemma ResponseIsFramed()
    ensures Framed(NullId(), PASSWORD, RESPONSE, [1, 0, 2, 3]) == Ok(SpecResponse())
  {
    SumOfFew([1, 0, 2, 3]);
    hide Sum;
    FramedIs(RESPONSE, [1, 0, 2, 3]);
    assert [RESPONSE] + [1, 0, 2, 3] + [0xE6, 0x00] == [0x06, 0x01, 0x00, 0x02, 0x03, 0xE6, 0x00];
  }

  /** The documented answer is built from the values off and 3, and its data is read back. */
  lemma ResponseIsAsDocumented()
    ensures var values := [Entry(POWER, [0]), Entry(SPEED, [3])];
            Framed(NullId(), PASSWORD, RESPONSE, EncodeItems(0, Vals(values))) == Ok(SpecResponse())
    ensures ResponseSection(SpecResponse()) == Ok([1, 0, 2, 3])
    ensures ParsedData([1, 0, 2, 3]) == Ok(map[POWER := [0], SPEED := [3]])
  {
    hide Framed, EncodeItems, ParsedData, SpecResponse, NullId, ResponseSection;
    TwoShort(POWER, 0, SPEED, 3);
    ReadsBack([Entry(POWER, [0]), Entry(SPEED, [3])]);
    ResponseIsFramed();
    ResponseSectionOfFramed(NullId(), PASSWORD, RESPONSE, [1, 0, 2, 3]);
  }

  lemma ReadsBack(values: seq<Entry>)
    requires values == [Entry(POWER, [0]), Entry(SPEED, [3])]
    ensures ParsedData(EncodeItems(0, Vals(values))) == Ok(map[POWER := [0], SPEED := [3]])
  {
    WriteRoundTrip(values);
    assert values[..1] == [values[0]] && values[..1][..0] == [];
    assert LastWins(values[..1]) == map[POWER := [0]];
    hide ParsedData, EncodeItems;
  }

  lemma OneToken(t: Token)
    requires Formed(t)
    ensures ResponseWalk(0, Spelled(t)) == Walk(Saying(0, t), Clean)
  {
    ClientReadsToken(0, t, []);
    assert Spelled(t) + [] == Spelled(t);
    hide Spelled, Formed;
  }

  lemma TwoTokens(t: Token, u: Token)
    requires Formed(t) && Formed(u)
    ensures ResponseWalk(0, Spelled(t) + Spelled(u)) == Walk(Saying(0, t) + Saying(NextPage(0, t), u), Clean)
  {
    ClientReadsToken(0, t, Spelled(u));
    ClientReadsToken(NextPage(0, t), u, []);
    assert Spelled(u) + [] == Spelled(u);
    hide Spelled, Formed;
  }

  /** The documented sections: a page switch, a size, an unsupported parameter. */
  lemma SectionsAreAsDocumented()
    ensures EncodeReads(0, [NIGHT_TIMER]) == [0xFF, 0x03, 0x02]
    ensures ResponseWalk(0, [0xFE, 0x02, 0x24, 0x88, 0x13]) == Walk([Val(Entry(BATTERY_VOLTAGE, [0x88, 0x13]))], Clean)
    ensures ResponseWalk(0, [0xFF, 0x03, 0xFE, 0x02, 0x02, 0x1E, 0x08])
         == Walk([Val(Entry(NIGHT_TIMER, [0x1E, 0x08]))], Clean)
    ensures ResponseWalk(0, [0xFD, 0x01, 0x02, 0x03]) == Walk([NotSup(POWER), Val(Entry(SPEED, [3]))], Clean)
    ensures FromBytes([0x88, 0x13]) == 5000
  {
    assert [NIGHT_TIMER][1..] == [];
    assert EncodeReads(0, [NIGHT_TIMER]) == PageSwitch(0, NIGHT_TIMER) + [Addr(NIGHT_TIMER)] + EncodeReads(3, []);
    var battery, night := Sized(0x24, [0x88, 0x13]), Sized(0x02, [0x1E, 0x08]);
    assert Spelled(battery) == [0xFE, 0x02, 0x24, 0x88, 0x13];
    assert Spelled(Switch(3)) + Spelled(night) == [0xFF, 0x03, 0xFE, 0x02, 0x02, 0x1E, 0x08];
    assert Spelled(Missing(1)) + Spelled(Short(2, 3)) == [0xFD, 0x01, 0x02, 0x03];
    hide Spelled, ResponseWalk, EncodeReads;
    OneToken(battery);
    TwoTokens(Switch(3), night);
    TwoTokens(Missing(1), Short(2, 3));
    assert [0x88, 0x13][1..] == [0x13] && [0x13][1..] == [];
  }

  /** An address in print. */
  lemma AddressIsAsDocumented()
    ensures PrintedIp([192, 168, 1, 50]) == Ok([49, 57, 50, 46, 49, 54, 56, 46, 49, 46, 53, 48])
    ensures ParsedIp([49, 57, 50, 46, 49, 54, 56, 46, 49, 46, 53, 48]) == Ok([192, 168, 1, 50])
  {
    assert Decimal.Digits(19) == [49, 57] && Decimal.Digits(16) == [49, 54] && Decimal.Digits(5) == [53];
    assert Decimal.Digits(192) == [49, 57, 50] && Decimal.Digits(168) == [49, 54, 56];
    assert Decimal.Digits(1) == [49] && Decimal.Digits(50) == [53, 48];
    hide Decimal.Digits, ParsedIp;
    assert PrintedIp([192, 168, 1, 50]).value == [49, 57, 50, 46, 49, 54, 56, 46, 49, 46, 53, 48];
    IpRoundTrip([192, 168, 1, 50]);
  }
}
