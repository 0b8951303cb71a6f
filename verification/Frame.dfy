/** Packet framing: start marker, sized id and password, function byte, data, checksum. */
module Frame {
  import opened Basics

  const PROTOCOL_TYPE: byte := 0x02
  const MAX_PACKET_SIZE := 256
  const START: byte := 0xFD

  const READ: byte := 1
  const WRITE: byte := 2
  const WRITE_RESP: byte := 3
  const INCREMENT: byte := 4
  const DECREMENT: byte := 5
  const RESPONSE: byte := 6

  function Sum(s: Bytes): nat {
    if s == [] then 0 else s[0] + Sum(s[1..])
  }

  function LittleEndian16(n: nat): Bytes
    requires n < 0x10000
  {
    [n % 256, n / 256]
  }

  function ChecksumOf(payload: Bytes): Bytes {
    LittleEndian16(Sum(payload) % 0x10000)
  }

  function Payload(id: Bytes, pwd: Bytes, func: byte, data: Bytes): Bytes
    requires |id| == 16 && |pwd| <= 8
  {
    [PROTOCOL_TYPE, 16] + id + [|pwd|] + pwd + [func] + data
  }

  predicate IsAscii(s: Bytes) { forall i :: 0 <= i < |s| ==> s[i] < 128 }

  /** The credentials a packet can be built for. */
  predicate ValidCredentials(id: Bytes, pwd: Bytes) {
    |id| == 16 && |pwd| <= 8 && IsAscii(pwd)
  }

  /** Whether a data section of `n` bytes fits in one packet. */
  predicate Fits(pwdLen: nat, n: nat) { 24 + pwdLen + n <= MAX_PACKET_SIZE }

  /** The packet for the given fields, or the error its builder reports. */
  function Framed(id: Bytes, pwd: Bytes, func: byte, data: Bytes): Result<Bytes> {
    if !ValidCredentials(id, pwd) || !Fits(|pwd|, |data|) then Err(Protocol)
    else
      var payload := Payload(id, pwd, func, data);
      Ok([START, START] + payload + ChecksumOf(payload))
  }

  method BuildPacket(id: Bytes, pwd: Bytes, func: byte, data: Bytes) returns (r: Result<Bytes>)
    ensures r == Framed(id, pwd, func, data)
  {
    if |id| != 16 {
      return Err(Protocol);
    }
    if !IsAscii(pwd) || |pwd| > 8 {
      return Err(Protocol);
    }
    var payload: Bytes := [];
    payload := payload + [PROTOCOL_TYPE];
    payload := payload + [|id|];
    payload := payload + id;
    payload := payload + [|pwd|];
    payload := payload + pwd;
    payload := payload + [func];
    payload := payload + data;
    assert payload == Payload(id, pwd, func, data);

    var cs := ChecksumOf(payload);
    var pkt: Bytes := [START, START];
    pkt := pkt + payload;
    pkt := pkt + cs;
    if |pkt| > MAX_PACKET_SIZE {
      return Err(Protocol);
    }
    return Ok(pkt);
  }

  predicate ChecksumMatches(raw: Bytes) {
    |raw| >= 4 && raw[|raw| - 2] as int + 256 * (raw[|raw| - 1] as int) == Sum(raw[2..|raw| - 2]) % 0x10000
  }

  datatype Header = Header(id: Bytes, pwd: Bytes, func: byte, dataStart: nat)

  /** The header fields of a packet; reading past its end is a crash. */
  function ParseHeader(raw: Bytes): (r: Result<Header>)
    ensures r.Ok? ==> 6 <= r.value.dataStart <= |raw|
  {
    if |raw| < 23 then Err(Protocol)
    else if raw[0] != START || raw[1] != START then Err(Protocol)
    else if raw[2] != PROTOCOL_TYPE then Err(Protocol)
    else
      var idEnd: nat := 4 + raw[3] as nat;
      if idEnd >= |raw| then Err(Crash)
      else
        var pwdEnd: nat := idEnd + 1 + raw[idEnd] as nat;
        if pwdEnd >= |raw| then Err(Crash)
        else Ok(Header(raw[4..idEnd], raw[idEnd + 1..pwdEnd], raw[pwdEnd], pwdEnd + 1))
  }

  /** The data section the client extracts from a response, or why it rejects the packet. */
  function ResponseSection(raw: Bytes): Result<Bytes> {
    if !ChecksumMatches(raw) then Err(Checksum)
    else
      var h :- ParseHeader(raw);
      if h.func != RESPONSE then Err(Protocol)
      else if h.dataStart > |raw| - 2 then Err(Crash)
      else Ok(raw[h.dataStart..|raw| - 2])
  }

  lemma {:induction false} SumConcat(a: Bytes, b: Bytes)
    ensures Sum(a + b) == Sum(a) + Sum(b)
  {
    if a == [] {
      assert a + b == b;
    } else {
      assert (a + b)[1..] == a[1..] + b;
      SumConcat(a[1..], b);
    }
  }

  lemma {:induction false} SumBound(s: Bytes)
    ensures Sum(s) <= 255 * |s|
  {
    if s != [] {
      SumBound(s[1..]);
    }
  }

  lemma SumUpdate(s: Bytes, k: nat, b: byte)
    requires k < |s|
    ensures Sum(s[k := b]) == Sum(s) - s[k] + b
  {
    var t := s[k := b];
    assert s == s[..k] + ([s[k]] + s[k + 1..]);
    assert t == s[..k] + ([b] + s[k + 1..]);
    SumConcat(s[..k], [s[k]] + s[k + 1..]);
    SumConcat(s[..k], [b] + s[k + 1..]);
    assert ([s[k]] + s[k + 1..])[1..] == s[k + 1..] == ([b] + s[k + 1..])[1..];
  }

  /** A packet's checksum is the exact sum of its payload: the 16-bit mask never changes it. */
  lemma ChecksumIsExactSum(id: Bytes, pwd: Bytes, func: byte, data: Bytes)
    requires Framed(id, pwd, func, data).Ok?
    ensures var payload := Payload(id, pwd, func, data);
            && |payload| <= 252
            && Sum(payload) <= 64260
            && ChecksumOf(payload) == LittleEndian16(Sum(payload))
  {
    SumBound(Payload(id, pwd, func, data));
  }

  /** Every packet that is built verifies and parses back to the fields it was built from. */
  lemma FrameRoundTrip(id: Bytes, pwd: Bytes, func: byte, data: Bytes)
    requires Framed(id, pwd, func, data).Ok?
    ensures var raw := Framed(id, pwd, func, data).value;
            && ChecksumMatches(raw)
            && var h := ParseHeader(raw);
               && h == Ok(Header(id, pwd, func, 22 + |pwd|))
               && raw[h.value.dataStart..|raw| - 2] == data
  {
    var raw := Framed(id, pwd, func, data).value;
    var payload := Payload(id, pwd, func, data);
    assert raw[2..|raw| - 2] == payload;
    assert raw[|raw| - 2..] == ChecksumOf(payload);
    assert raw[|raw| - 2] == ChecksumOf(payload)[0] && raw[|raw| - 1] == ChecksumOf(payload)[1];
    assert raw[2] == payload[0] && raw[3] == payload[1] == 16;
    assert raw[20] == payload[18] == |pwd|;
    assert raw[21 + |pwd|] == payload[19 + |pwd|] == func;
    assert raw[4..20] == payload[2..18] == id;
    assert raw[21..21 + |pwd|] == payload[19..19 + |pwd|] == pwd;
    assert raw[22 + |pwd|..|raw| - 2] == payload[20 + |pwd|..] == data;
  }

  /** Changing any one byte of a packet whose section the client accepts makes the client reject it. */
  lemma SingleByteCorruptionIsCaught(raw: Bytes, k: nat, b: byte)
    requires ResponseSection(raw).Ok?
    requires k < |raw| && b != raw[k]
    ensures ResponseSection(raw[k := b]) == Err(if k < 2 then Protocol else Checksum)
  {
    var bad := raw[k := b];
    if k < 2 {
      assert bad[2..|raw| - 2] == raw[2..|raw| - 2];
      assert ParseHeader(bad) == Err(Protocol);
      hide Sum, ParseHeader;
    } else {
      ChecksumCatches(raw, k, b);
      hide ChecksumMatches, ParseHeader;
    }
  }

  lemma ChecksumCatches(raw: Bytes, k: nat, b: byte)
    requires ChecksumMatches(raw) && 2 <= k < |raw| && b != raw[k]
    ensures !ChecksumMatches(raw[k := b])
  {
    var bad, n := raw[k := b], |raw|;
    hide Sum;
    if k < n - 2 {
      assert bad[2..n - 2] == raw[2..n - 2][k - 2 := b];
      SumUpdate(raw[2..n - 2], k - 2, b);
      SumsApart(Sum(raw[2..n - 2]), Sum(bad[2..n - 2]));
    } else {
      assert bad[2..n - 2] == raw[2..n - 2];
    }
  }

  lemma SumsApart(s: nat, t: nat)
    requires s != t && s - 256 < t < s + 256
    ensures s % 0x10000 != t % 0x10000
  {
  }

  lemma SumOfTail(raw: Bytes)
    requires ChecksumMatches(raw) && |raw| <= MAX_PACKET_SIZE
    ensures raw[|raw| - 2..] == ChecksumOf(raw[2..|raw| - 2])
  {
    SumBound(raw[2..|raw| - 2]);
  }

  /** Only built packets are accepted: a response the client takes is the one its parts are framed to. */
  lemma AcceptedIsFramed(raw: Bytes)
    requires ResponseSection(raw).Ok? && |raw| <= MAX_PACKET_SIZE
    ensures var h := ParseHeader(raw);
            h.Ok? && (ValidCredentials(h.value.id, h.value.pwd) ==>
              Framed(h.value.id, h.value.pwd, RESPONSE, ResponseSection(raw).value) == Ok(raw))
  {
    var h, data := ParseHeader(raw).value, ResponseSection(raw).value;
    SumOfTail(raw);
    if ValidCredentials(h.id, h.pwd) {
      var n := |raw|;
      assert raw[2..n - 2] == Payload(h.id, h.pwd, RESPONSE, data);
      assert raw == raw[..2] + raw[2..n - 2] + raw[n - 2..];
      assert raw[..2] == [START, START];
    }
  }

  /** A built packet is accepted by the client exactly when it carries the response function. */
  lemma ResponseSectionOfFramed(id: Bytes, pwd: Bytes, func: byte, data: Bytes)
    requires Framed(id, pwd, func, data).Ok?
    ensures ResponseSection(Framed(id, pwd, func, data).value)
         == if func == RESPONSE then Ok(data) else Err(Protocol)
  {
    FrameRoundTrip(id, pwd, func, data);
  }
}
