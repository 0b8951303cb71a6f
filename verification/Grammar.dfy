/**
 * The language of data sections: what any encoder may write, page switches, skipped function bytes and
 * explicit sizes included, and what the decoders make of every word of it.
 */
module Grammar {
  import opened Basics
  import opened Section
  import opened Decoders
  import opened SectionLaws

  // ---------------------------------------------------------------------------
  // Sections that carry values
  // ---------------------------------------------------------------------------

  datatype Token =
    | Switch(page: byte)
    | Skipped(func: byte)
    | Short(addr: byte, value: byte)
    | Sized(addr: byte, bytes: Bytes)
    | Missing(addr: byte)
    | SizedMissing(size: byte, addr: byte)

  predicate Formed(t: Token) {
    && (t.Short? ==> t.addr !in {CMD_PAGE, CMD_FUNC, CMD_SIZE, CMD_NOT_SUP})
    && (t.Sized? ==> t.addr != CMD_NOT_SUP && |t.bytes| < 256)
  }

  ghost predicate AllFormed(ts: seq<Token>) { forall i :: 0 <= i < |ts| ==> Formed(ts[i]) }

  function Spelled(t: Token): Bytes {
    match t
    case Switch(page) => [CMD_PAGE, page]
    case Skipped(func) => [CMD_FUNC, func]
    case Short(addr, value) => [addr, value]
    case Sized(addr, value) => [CMD_SIZE, |value| % 256, addr] + value
    case Missing(addr) => [CMD_NOT_SUP, addr]
    case SizedMissing(size, addr) => [CMD_SIZE, size, CMD_NOT_SUP, addr]
  }

  /** What a section may end in that is no whole token. */
  datatype Tail =
    | Whole
    | LoneFunc
    | Cut(addr: byte)
    | CutSized(size: byte, addr: byte, partial: Bytes)
    | LonePage
    | LoneSize
    | SizeOnly(size: byte)
    | LoneMarker
    | SizedMarker(size: byte)

  predicate FormedTail(t: Tail) {
    && (t.Cut? ==> t.addr !in {CMD_PAGE, CMD_FUNC, CMD_SIZE, CMD_NOT_SUP})
    && (t.CutSized? ==> t.addr != CMD_NOT_SUP && |t.partial| < t.size)
  }

  function Rest(t: Tail): Bytes {
    match t
    case Whole => []
    case LoneFunc => [CMD_FUNC]
    case Cut(addr) => [addr]
    case CutSized(size, addr, partial) => [CMD_SIZE, size, addr] + partial
    case LonePage => [CMD_PAGE]
    case LoneSize => [CMD_SIZE]
    case SizeOnly(size) => [CMD_SIZE, size]
    case LoneMarker => [CMD_NOT_SUP]
    case SizedMarker(size) => [CMD_SIZE, size, CMD_NOT_SUP]
  }

  function Text(ts: seq<Token>, tail: Tail): Bytes {
    if ts == [] then Rest(tail) else Spelled(ts[0]) + Text(ts[1..], tail)
  }

  function NextPage(page: byte, t: Token): byte { if t.Switch? then t.page else page }

  /** What one token says on a page. */
  function Saying(page: byte, t: Token): seq<Item> {
    match t
    case Switch(_) => []
    case Skipped(_) => []
    case Short(addr, value) => [Val(Entry(CodeAt(page, addr), [value]))]
    case Sized(addr, value) => [Val(Entry(CodeAt(page, addr), value))]
    case Missing(addr) => [NotSup(CodeAt(page, addr))]
    case SizedMissing(_, addr) => [NotSup(CodeAt(page, addr))]
  }

  /** What a section says, the page being sticky. */
  function Meaning(page: byte, ts: seq<Token>): seq<Item>
    decreases |ts|
  {
    if ts == [] then [] else Saying(page, ts[0]) + Meaning(NextPage(page, ts[0]), ts[1..])
  }

  function LastPage(page: byte, ts: seq<Token>): byte
    decreases |ts|
  {
    if ts == [] then page else LastPage(NextPage(page, ts[0]), ts[1..])
  }

  /** How the client leaves a section that ends so. */
  function Ending(page: byte, t: Tail): End {
    match t
    case Whole => Clean
    case LoneFunc => Clean
    case Cut(addr) => Truncated(CodeAt(page, addr), [])
    case CutSized(_, addr, partial) => Truncated(CodeAt(page, addr), partial)
    case LonePage => Overrun
    case LoneSize => Overrun
    case SizeOnly(_) => Overrun
    case LoneMarker => Marker(CodeAt(page, CMD_NOT_SUP), 1)
    case SizedMarker(size) => Marker(CodeAt(page, CMD_NOT_SUP), size)
  }

  lemma ClientReadsTail(page: byte, t: Tail)
    requires FormedTail(t)
    ensures ResponseWalk(page, Rest(t)) == Walk([], Ending(page, t))
  {
    var d := Rest(t);
    hide CodeAt;
    if t.CutSized? || t.SizedMarker? {
      assert d[2..] == [if t.CutSized? then t.addr else CMD_NOT_SUP] + (if t.CutSized? then t.partial else []);
      assert d[2..][1..] == if t.CutSized? then t.partial else [];
    } else if t.Cut? {
      assert d[1..] == [];
    }
  }

  /** Where the parts of a sized token lie. */
  lemma SizedParts(addr: byte, value: Bytes, rest: Bytes)
    requires |value| < 256
    ensures var d := Spelled(Sized(addr, value)) + rest;
            && |d| == 3 + |value| + |rest| && d[0] == CMD_SIZE && d[1] == |value| && d[2..][0] == addr
            && d[2..][1..1 + |value|] == value && d[2..][1 + |value|..] == rest
  {
    var d := Spelled(Sized(addr, value)) + rest;
    assert d[2..] == [addr] + value + rest;
  }

  lemma ClientReadsSized(page: byte, addr: byte, value: Bytes, rest: Bytes)
    requires Formed(Sized(addr, value))
    ensures ResponseWalk(page, Spelled(Sized(addr, value)) + rest)
         == ResponseWalk(page, rest).Before(Val(Entry(CodeAt(page, addr), value)))
  {
    SizedParts(addr, value, rest);
    hide Spelled, CodeAt;
  }

  /** The client reads one token as what it says and goes on behind it. */
  lemma ClientReadsToken(page: byte, t: Token, rest: Bytes)
    requires Formed(t)
    ensures var w := ResponseWalk(NextPage(page, t), rest);
            ResponseWalk(page, Spelled(t) + rest) == Walk(Saying(page, t) + w.items, w.end)
  {
    var d, w := Spelled(t) + rest, ResponseWalk(NextPage(page, t), rest);
    assert [] + w.items == w.items;
    hide CodeAt;
    if t.Sized? {
      ClientReadsSized(page, t.addr, t.bytes, rest);
    } else if t.SizedMissing? {
      ClientReadsSizedMissing(page, t.size, t.addr, rest);
    } else {
      assert d[2..] == rest == From(d, 2);
      assert t.Short? ==> d[1..2] == [t.value];
    }
  }

  lemma ClientReadsSizedMissing(page: byte, size: byte, addr: byte, rest: Bytes)
    ensures ResponseWalk(page, Spelled(SizedMissing(size, addr)) + rest)
         == ResponseWalk(page, rest).Before(NotSup(CodeAt(page, addr)))
  {
    var d := Spelled(SizedMissing(size, addr)) + rest;
    assert d[2..] == [CMD_NOT_SUP, addr] + rest && d[2..][2..] == rest;
    hide CodeAt;
  }

  /** Every section is read as what it says, and left as its end demands. */
  lemma {:induction false} ClientReadsMeaning(page: byte, ts: seq<Token>, tail: Tail)
    requires AllFormed(ts) && FormedTail(tail)
    ensures ResponseWalk(page, Text(ts, tail)) == Walk(Meaning(page, ts), Ending(LastPage(page, ts), tail))
    decreases |ts|
  {
    hide ResponseWalk, Spelled, Formed, Saying, FormedTail, Rest, Ending;
    if ts == [] {
      ClientReadsTail(page, tail);
    } else {
      ClientReadsToken(page, ts[0], Text(ts[1..], tail));
      ClientReadsMeaning(NextPage(page, ts[0]), ts[1..], tail);
    }
  }

  predicate HasValue(t: Token) { !t.Missing? && !t.SizedMissing? }

  lemma SimulatorReadsSized(page: byte, addr: byte, value: Bytes, rest: Bytes)
    requires Formed(Sized(addr, value))
    ensures WriteWalk(page, Spelled(Sized(addr, value)) + rest)
         == [Entry(CodeAt(page, addr), value)] + WriteWalk(page, rest)
  {
    SizedParts(addr, value, rest);
    hide Spelled, CodeAt;
  }

  lemma SimulatorReadsToken(page: byte, t: Token, rest: Bytes)
    requires Formed(t) && HasValue(t)
    ensures OnlyValues(Saying(page, t))
    ensures WriteWalk(page, Spelled(t) + rest) == EntriesOf(Saying(page, t)) + WriteWalk(NextPage(page, t), rest)
  {
    var d := Spelled(t) + rest;
    assert [] + WriteWalk(NextPage(page, t), rest) == WriteWalk(NextPage(page, t), rest);
    hide CodeAt;
    if t.Sized? {
      SimulatorReadsSized(page, t.addr, t.bytes, rest);
    } else {
      assert d[2..] == rest == From(d, 2);
      assert t.Short? ==> d[1..2] == [t.value];
    }
  }

  /** What the simulator makes of the end: an empty value of the marker's own code, and of nothing else. */
  function TailEntries(page: byte, t: Tail): seq<Entry> {
    if t == SizedMarker(0) then [Entry(CodeAt(page, CMD_NOT_SUP), [])] else []
  }

  lemma SimulatorReadsTail(page: byte, t: Tail)
    requires FormedTail(t)
    ensures WriteWalk(page, Rest(t)) == TailEntries(page, t)
  {
    var d := Rest(t);
    if t.CutSized? || t.SizedMarker? {
      assert d[2..] == [if t.CutSized? then t.addr else CMD_NOT_SUP] + (if t.CutSized? then t.partial else []);
      assert t.SizedMarker? ==> d[2..][1..1] == [] && d[2..][1..] == [] && WriteWalk(page, []) == [];
    } else if t.LoneFunc? {
      assert From(d, 2) == [];
    }
  }

  /** The simulator reads every section without unsupported markers as the same values. */
  lemma {:induction false} SimulatorReadsMeaning(page: byte, ts: seq<Token>, tail: Tail)
    requires AllFormed(ts) && FormedTail(tail) && forall i :: 0 <= i < |ts| ==> HasValue(ts[i])
    ensures OnlyValues(Meaning(page, ts))
    ensures WriteWalk(page, Text(ts, tail)) == EntriesOf(Meaning(page, ts)) + TailEntries(LastPage(page, ts), tail)
    decreases |ts|
  {
    hide WriteWalk, Spelled, Formed, FormedTail, HasValue, Rest, TailEntries, Saying;
    if ts == [] {
      SimulatorReadsTail(page, tail);
      assert [] + TailEntries(page, tail) == TailEntries(page, tail);
    } else {
      var p := NextPage(page, ts[0]);
      SimulatorReadsToken(page, ts[0], Text(ts[1..], tail));
      SimulatorReadsMeaning(p, ts[1..], tail);
      ValuesTogether(Saying(page, ts[0]), Meaning(p, ts[1..]));
      var last := TailEntries(LastPage(p, ts[1..]), tail);
      EntriesTogether(EntriesOf(Saying(page, ts[0])), EntriesOf(Meaning(p, ts[1..])), last);
    }
  }

  lemma EntriesTogether(a: seq<Entry>, b: seq<Entry>, c: seq<Entry>)
    ensures a + (b + c) == (a + b) + c
  {
  }

  lemma ValuesTogether(a: seq<Item>, b: seq<Item>)
    requires OnlyValues(a) && OnlyValues(b)
    ensures OnlyValues(a + b) && EntriesOf(a + b) == EntriesOf(a) + EntriesOf(b)
  {
  }

  /** Every byte string is a section. */
  lemma {:induction false} EverythingIsASection(d: Bytes) returns (ts: seq<Token>, tail: Tail)
    ensures AllFormed(ts) && FormedTail(tail) && d == Text(ts, tail)
    decreases |d|
  {
    var t, n := FirstToken(d);
    if n == 0 {
      ts := [];
      tail := WholeTail(d);
    } else {
      ts, tail := EverythingIsASection(d[n..]);
      assert ([t] + ts)[1..] == ts;
      ts := [t] + ts;
    }
  }

  /** Whether a section begins with a whole token. */
  predicate Begins(d: Bytes) {
    if d == [] then false
    else if d[0] == CMD_SIZE then
      |d| >= 3 && (if d[2] == CMD_NOT_SUP then |d| >= 4 else |d| >= 3 + d[1] as nat)
    else |d| >= 2
  }

  lemma FirstToken(d: Bytes) returns (t: Token, n: nat)
    ensures n == 0 <==> !Begins(d)
    ensures n > 0 ==> n <= |d| && Formed(t) && d == Spelled(t) + d[n..]
  {
    if !Begins(d) {
      t, n := Switch(0), 0;
    } else if d[0] == CMD_PAGE {
      t, n := Switch(d[1]), 2;
    } else if d[0] == CMD_FUNC {
      t, n := Skipped(d[1]), 2;
    } else if d[0] == CMD_SIZE {
      if d[2] == CMD_NOT_SUP {
        t, n := SizedMissing(d[1], d[3]), 4;
      } else {
        var size: nat := d[1];
        t, n := Sized(d[2], d[3..3 + size]), 3 + size;
      }
    } else if d[0] == CMD_NOT_SUP {
      t, n := Missing(d[1]), 2;
    } else {
      t, n := Short(d[0], d[1]), 2;
    }
  }

  lemma WholeTail(d: Bytes) returns (tail: Tail)
    requires !Begins(d)
    ensures FormedTail(tail) && d == Rest(tail)
  {
    if d == [] {
      tail := Whole;
    } else if d[0] == CMD_SIZE {
      tail := if |d| == 1 then LoneSize
              else if |d| == 2 then SizeOnly(d[1])
              else if d[2] == CMD_NOT_SUP then SizedMarker(d[1])
              else CutSized(d[1], d[2], d[3..]);
    } else {
      tail := if d[0] == CMD_PAGE then LonePage
              else if d[0] == CMD_FUNC then LoneFunc
              else if d[0] == CMD_NOT_SUP then LoneMarker
              else Cut(d[0]);
    }
  }

  /**
   * What the client makes of every byte string: it runs past the end of a control byte without its operand,
   * refuses a value cut short, and otherwise reports what the section says.
   */
  lemma ClientVerdict(ts: seq<Token>, tail: Tail)
    requires AllFormed(ts) && FormedTail(tail)
    ensures var items := Meaning(0, ts);
            ParsedData(Text(ts, tail))
            == if tail.Cut? || tail.CutSized? then Err(Protocol)
               else if tail.LonePage? || tail.LoneSize? || tail.SizeOnly? then Err(Crash)
               else if UnsupportedOf(items) != [] then Err(UnsupportedParams(UnsupportedOf(items)))
               else Ok(LastWins(ValuesOf(items)))
  {
    ClientReadsMeaning(0, ts, tail);
    hide Text, Meaning, ResponseWalk, CodeAt, UnsupportedOf, ValuesOf, LastWins;
  }

  // ---------------------------------------------------------------------------
  // Read requests
  // ---------------------------------------------------------------------------

  datatype Ask =
    | Turn(page: byte)
    | Pass(func: byte)
    | Want(addr: byte)

  ghost predicate AllAsked(asks: seq<Ask>) {
    forall i :: 0 <= i < |asks| && asks[i].Want? ==> asks[i].addr !in {CMD_PAGE, CMD_FUNC}
  }

  /** The bytes of a request, which may end in a control byte without its operand. */
  function Request(asks: seq<Ask>, last: Bytes): Bytes {
    if asks == [] then last
    else
      var rest := Request(asks[1..], last);
      match asks[0]
      case Turn(page) => [CMD_PAGE, page] + rest
      case Pass(func) => [CMD_FUNC, func] + rest
      case Want(addr) => [addr] + rest
  }

  function Wanted(page: byte, asks: seq<Ask>): seq<Code>
    decreases |asks|
  {
    if asks == [] then []
    else match asks[0]
      case Turn(p) => Wanted(p, asks[1..])
      case Pass(_) => Wanted(page, asks[1..])
      case Want(addr) => [CodeAt(page, addr)] + Wanted(page, asks[1..])
  }

  predicate LastByte(last: Bytes) { last == [] || last == [CMD_PAGE] || last == [CMD_FUNC] }

  /** The simulator lists what a request asks for. */
  lemma {:induction false} RequestIsRead(page: byte, asks: seq<Ask>, last: Bytes)
    requires AllAsked(asks) && LastByte(last)
    ensures ReadWalk(page, Request(asks, last)) == Wanted(page, asks)
    decreases |asks|
  {
    if asks == [] {
      assert From([CMD_FUNC], 2) == [];
    } else {
      var d, rest := Request(asks, last), Request(asks[1..], last);
      RequestIsRead(if asks[0].Turn? then asks[0].page else page, asks[1..], last);
      assert asks[0].Want? ==> d[1..] == rest && asks[0].addr !in {CMD_PAGE, CMD_FUNC};
      assert !asks[0].Want? ==> d[2..] == rest && From(d, 2) == rest;
    }
  }

  /** And every byte string is a request. */
  lemma {:induction false} EverythingIsARequest(d: Bytes) returns (asks: seq<Ask>, last: Bytes)
    ensures AllAsked(asks) && LastByte(last) && d == Request(asks, last)
    decreases |d|
  {
    if LastByte(d) {
      asks, last := [], d;
    } else if d[0] == CMD_PAGE || d[0] == CMD_FUNC {
      asks, last := EverythingIsARequest(d[2..]);
      var first := if d[0] == CMD_PAGE then Turn(d[1]) else Pass(d[1]);
      assert ([first] + asks)[1..] == asks;
      asks := [first] + asks;
    } else {
      asks, last := EverythingIsARequest(d[1..]);
      assert ([Want(d[0])] + asks)[1..] == asks;
      asks := [Want(d[0])] + asks;
    }
  }
}
