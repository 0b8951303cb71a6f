/** Value codecs: integers of declared width and dotted IP addresses. */
module Values {
  import opened Basics
  import opened Params
  import opened Decimal

  // ---------------------------------------------------------------------------
  // Integers
  // ---------------------------------------------------------------------------

  /** Reading back `size` bytes of a number gives the number modulo 256^size. */
  lemma {:induction false} IntRoundTrip(n: nat, size: nat)
    ensures FromBytes(ToBytes(n, size)) == n % Pow256(size)
    decreases size
  {
    if size > 0 {
      var p := Pow256(size - 1);
      IntRoundTrip(n / 256, size - 1);
      assert ToBytes(n, size)[1..] == ToBytes(n / 256, size - 1);
      DivStep(n, p);
    }
  }

  lemma DivUnique(n: nat, m: nat, q: nat, r: nat)
    requires r < m && n == m * q + r
    ensures n / m == q && n % m == r
  {
    var d := q - n / m;
    assert m * d == m * q - m * (n / m);
    assert m * d == n % m - r;
    assert d >= 1 ==> m * d >= m;
    assert d <= -1 ==> m * d <= -(m as int);
  }

  /** Dividing by 256 and then by p is dividing by 256 * p. */
  lemma DivStep(n: nat, p: nat)
    requires p > 0
    ensures n % 256 + 256 * ((n / 256) % p) == n % (256 * p)
    ensures (n / 256) / p == n / (256 * p)
  {
    var q, r := (n / 256) / p, (n / 256) % p;
    assert n / 256 == p * q + r;
    assert 256 * (p * q + r) == (256 * p) * q + 256 * r;
    DivUnique(n, 256 * p, q, n % 256 + 256 * r);
  }

  lemma {:induction false} ByteOfInt(n: nat, size: nat, i: nat)
    requires i < size
    ensures ToBytes(n, size)[i] == (n / Pow256(i)) % 256
    decreases size
  {
    if i > 0 {
      ByteOfInt(n / 256, size - 1, i - 1);
      assert ToBytes(n, size)[i] == ToBytes(n / 256, size - 1)[i - 1];
      DivStep(n, Pow256(i - 1));
    }
  }

  /** An integer as the value of a parameter of fixed width; more than eight bytes overflow the shift. */
  function FromInt(p: Param, value: nat): Result<Entry> {
    if Width(p) <= 0 then Err(Protocol)
    else if Width(p) > 8 then Err(Crash)
    else Ok(Entry(p, ToBytes(value, Width(p))))
  }

  method WriteParamFromInt(p: Param, value: nat) returns (r: Result<Entry>)
    ensures r == FromInt(p, value)
  {
    assert IsParam(p);
    hide IsParam;
    var size := Width(p);
    if size == 0 {
      return Err(Protocol);
    }
    var bytes := new byte[size](_ => 0);
    var i := 0;
    while i < size
      invariant 0 <= i <= size && (i <= 8 || i == size)
      invariant forall k :: 0 <= k < i ==> bytes[k] == ToBytes(value, size)[k]
    {
      if i >= 8 {
        return Err(Crash);
      }
      ByteOfInt(value, size, i);
      bytes[i] := (value / Pow256(i)) % 256;
      i := i + 1;
    }
    if size > 8 {
      assert false;
    }
    assert bytes[..] == ToBytes(value, size);
    return Ok(Entry(p, bytes[..]));
  }

  /** A value written from an integer decodes to that integer modulo 256^width. */
  lemma FromIntDecodes(p: Param, value: nat)
    requires FromInt(p, value).Ok?
    ensures var e := FromInt(p, value).value;
            e.code == p && |e.value| == Width(p) && FromBytes(e.value) == value % Pow256(Width(p))
  {
    assert IsParam(p);
    IntRoundTrip(value, Width(p));
  }

  // ---------------------------------------------------------------------------
  // IP addresses
  // ---------------------------------------------------------------------------

  const DOT: byte := 46
  const PLUS: byte := 43

  /** The parts of `s` between dots; always at least one. */
  function Split(s: Bytes): (parts: seq<Bytes>)
    ensures parts != []
  {
    if s == [] then [[]]
    else
      var rest := Split(s[1..]);
      if s[0] == DOT then [[]] + rest else [[s[0]] + rest[0]] + rest[1..]
  }

  /** An unsigned byte in decimal: digits with an optional leading plus, at most 255. */
  function ParseOctet(s: Bytes): Option<byte> {
    var t := if s != [] && s[0] == PLUS then s[1..] else s;
    if t == [] || !AllDigits(t) || ValueOf(t) > 255 then None else Some(ValueOf(t))
  }

  function ParseOctets(parts: seq<Bytes>): Option<Bytes> {
    if parts == [] then Some([])
    else
      var front, last := ParseOctets(parts[..|parts| - 1]), ParseOctet(parts[|parts| - 1]);
      if front.None? || last.None? then None else Some(front.value + [last.value])
  }

  function ParsedIp(s: Bytes): Result<Bytes> {
    var parts := Split(s);
    if |parts| != 4 || ParseOctets(parts).None? then Err(Protocol) else Ok(ParseOctets(parts).value)
  }

  function PrintedIp(v: Bytes): Result<Bytes> {
    if |v| != 4 then Err(Protocol)
    else Ok(Digits(v[0]) + [DOT] + Digits(v[1]) + [DOT] + Digits(v[2]) + [DOT] + Digits(v[3]))
  }

  lemma {:induction false} OctetPrefix(parts: seq<Bytes>, k: nat)
    requires k <= |parts| && ParseOctets(parts[..k]).None?
    ensures ParseOctets(parts).None?
    decreases |parts| - k
  {
    if k < |parts| {
      assert parts[..k + 1][..k] == parts[..k];
      OctetPrefix(parts, k + 1);
    } else {
      assert parts[..k] == parts;
    }
  }

  method EncodeIp(ip: Bytes) returns (r: Result<Bytes>)
    ensures r == ParsedIp(ip)
  {
    var parts := Split(ip);
    if |parts| != 4 {
      return Err(Protocol);
    }
    var out := new byte[4](_ => 0);
    for i := 0 to |parts|
      invariant ParseOctets(parts[..i]) == Some(out[..i])
    {
      assert parts[..i + 1][..i] == parts[..i];
      var octet := ParseOctet(parts[i]);
      if octet.None? {
        OctetPrefix(parts, i + 1);
        return Err(Protocol);
      }
      out[i] := octet.value;
      assert out[..i + 1] == out[..i] + [octet.value];
    }
    assert parts[..4] == parts && out[..4] == out[..];
    return Ok(out[..]);
  }

  lemma {:induction false} SplitAtDot(a: Bytes, rest: Bytes)
    requires DOT !in a
    ensures Split(a + [DOT] + rest) == [a] + Split(rest)
    decreases |a|
  {
    var s := a + [DOT] + rest;
    if a == [] {
      assert s[1..] == rest;
    } else {
      assert s[1..] == a[1..] + [DOT] + rest;
      SplitAtDot(a[1..], rest);
      assert a == [a[0]] + a[1..];
    }
  }

  lemma {:induction false} SplitWithoutDot(a: Bytes)
    requires DOT !in a
    ensures Split(a) == [a]
    decreases |a|
  {
    if a != [] {
      SplitWithoutDot(a[1..]);
      assert a == [a[0]] + a[1..];
    }
  }

  lemma OctetRoundTrip(b: byte)
    ensures ParseOctet(Digits(b)) == Some(b) && DOT !in Digits(b)
  {
    ValueOfDigits(b);
    assert forall i :: 0 <= i < |Digits(b)| ==> IsDigit(Digits(b)[i]);
  }

  /** Every four bytes print to an address that parses back to them. */
  lemma IpRoundTrip(v: Bytes)
    requires |v| == 4
    ensures PrintedIp(v).Ok? && ParsedIp(PrintedIp(v).value) == Ok(v)
  {
    var a, b, c, d := Digits(v[0]), Digits(v[1]), Digits(v[2]), Digits(v[3]);
    OctetRoundTrip(v[0]);
    OctetRoundTrip(v[1]);
    OctetRoundTrip(v[2]);
    OctetRoundTrip(v[3]);
    hide Split, ParseOctet, Digits;
    Reassociate(a, b, c, d);
    SplitFour(a, b, c, d);
    OctetsOfFour([a, b, c, d], v);
  }

  lemma SplitFour(a: Bytes, b: Bytes, c: Bytes, d: Bytes)
    requires DOT !in a && DOT !in b && DOT !in c && DOT !in d
    ensures Split(a + [DOT] + (b + [DOT] + (c + [DOT] + d))) == [a, b, c, d]
  {
    hide Split;
    SplitAtDot(a, b + [DOT] + (c + [DOT] + d));
    SplitAtDot(b, c + [DOT] + d);
    SplitAtDot(c, d);
    SplitWithoutDot(d);
    assert [a] + ([b] + ([c] + [d])) == [a, b, c, d];
  }

  lemma Reassociate(a: Bytes, b: Bytes, c: Bytes, d: Bytes)
    ensures a + [DOT] + b + [DOT] + c + [DOT] + d == a + [DOT] + (b + [DOT] + (c + [DOT] + d))
  {
  }

  lemma OctetsOfFour(parts: seq<Bytes>, v: Bytes)
    requires |parts| == |v| == 4 && forall i :: 0 <= i < 4 ==> ParseOctet(parts[i]) == Some(v[i])
    ensures ParseOctets(parts) == Some(v)
  {
    OctetsUpTo(parts, v, 4);
    assert parts[..4] == parts && v[..4] == v;
  }

  lemma {:induction false} OctetsUpTo(parts: seq<Bytes>, v: Bytes, k: nat)
    requires k <= |parts| == |v| && forall i :: 0 <= i < k ==> ParseOctet(parts[i]) == Some(v[i])
    ensures ParseOctets(parts[..k]) == Some(v[..k])
    decreases k
  {
    if k > 0 {
      OctetsUpTo(parts, v, k - 1);
      assert parts[..k][..k - 1] == parts[..k - 1];
      assert v[..k] == v[..k - 1] + [v[k - 1]];
    }
  }

  lemma {:induction false} OctetsLength(parts: seq<Bytes>)
    ensures ParseOctets(parts).Some? ==> |ParseOctets(parts).value| == |parts|
    decreases |parts|
  {
    if parts != [] {
      OctetsLength(parts[..|parts| - 1]);
    }
  }

  /** Every accepted address, leading zeros and plus signs included, means what its reprint means. */
  lemma ReprintedIpIsSame(s: Bytes)
    requires ParsedIp(s).Ok?
    ensures var v := ParsedIp(s).value; |v| == 4 && ParsedIp(PrintedIp(v).value) == Ok(v)
  {
    OctetsLength(Split(s));
    IpRoundTrip(ParsedIp(s).value);
  }
}
