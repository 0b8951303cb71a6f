/**
 * The data section of a packet: its encoders and its three independently written decoders.
 *
 * Every decoder is a loop over an index with a sticky page and a one-shot size override; each is
 * proved against a recursive walk over the remaining bytes.
 */
module Section {
  import opened Basics

  const CMD_PAGE: byte := 0xFF
  const CMD_FUNC: byte := 0xFC
  const CMD_SIZE: byte := 0xFE
  const CMD_NOT_SUP: byte := 0xFD

  datatype Item = Val(entry: Entry) | NotSup(code: Code) {
    function Code(): Basics.Code { if Val? then entry.code else code }
  }

  // ---------------------------------------------------------------------------
  // Encoding
  // ---------------------------------------------------------------------------

  function PageSwitch(page: byte, c: Code): Bytes {
    if Page(c) != page then [CMD_PAGE, Page(c)] else []
  }

  /** One item without its page switch; the size byte keeps only eight bits of the length. */
  function Body(item: Item): Bytes {
    match item
    case NotSup(c) => [CMD_NOT_SUP, Addr(c)]
    case Val(Entry(c, v)) => (if |v| != 1 then [CMD_SIZE, |v| % 256] else []) + [Addr(c)] + v
  }

  function PageAfter(page: byte, items: seq<Item>): byte {
    if items == [] then page else Page(items[|items| - 1].Code())
  }

  /** The section for `items`, written by an encoder whose current page is `page`. */
  function EncodeItems(page: byte, items: seq<Item>): Bytes
    decreases |items|
  {
    if items == [] then []
    else
      var c := items[0].Code();
      PageSwitch(page, c) + Body(items[0]) + EncodeItems(Page(c), items[1..])
  }

  function EncodeReads(page: byte, codes: seq<Code>): Bytes
    decreases |codes|
  {
    if codes == [] then []
    else PageSwitch(page, codes[0]) + [Addr(codes[0])] + EncodeReads(Page(codes[0]), codes[1..])
  }

  function Vals(es: seq<Entry>): (items: seq<Item>)
    ensures |items| == |es|
    ensures forall i :: 0 <= i < |es| ==> items[i] == Val(es[i])
  {
    seq(|es|, i requires 0 <= i < |es| => Val(es[i]))
  }

  /** What a device holding `state` answers to a request for `codes`, item by item. */
  function Answers(codes: seq<Code>, state: map<Code, Bytes>): (items: seq<Item>)
    ensures |items| == |codes|
    ensures forall i :: 0 <= i < |codes| ==> items[i].Code() == codes[i]
    ensures forall i :: 0 <= i < |codes| ==>
      items[i] == if codes[i] in state then Val(Entry(codes[i], state[codes[i]])) else NotSup(codes[i])
  {
    seq(|codes|, i requires 0 <= i < |codes| =>
      if codes[i] in state then Val(Entry(codes[i], state[codes[i]])) else NotSup(codes[i]))
  }

  lemma {:induction false} EncodeItemsSnoc(page: byte, items: seq<Item>, last: Item)
    ensures EncodeItems(page, items + [last])
         == EncodeItems(page, items) + PageSwitch(PageAfter(page, items), last.Code()) + Body(last)
    decreases |items|
  {
    if items == [] {
      assert items + [last] == [last];
      assert [last][1..] == [];
    } else {
      assert (items + [last])[1..] == items[1..] + [last];
      EncodeItemsSnoc(Page(items[0].Code()), items[1..], last);
    }
  }

  lemma {:induction false} EncodeReadsSnoc(page: byte, codes: seq<Code>, last: Code)
    ensures EncodeReads(page, codes + [last])
         == EncodeReads(page, codes)
            + PageSwitch(if codes == [] then page else Page(codes[|codes| - 1]), last) + [Addr(last)]
    decreases |codes|
  {
    if codes == [] {
      assert codes + [last] == [last];
      assert [last][1..] == [];
    } else {
      assert (codes + [last])[1..] == codes[1..] + [last];
      EncodeReadsSnoc(Page(codes[0]), codes[1..], last);
    }
  }

  lemma NothingEncoded(state: map<Code, Bytes>)
    ensures EncodeReads(0, []) == EncodeItems(0, Vals([])) == EncodeItems(0, Answers([], state)) == []
  {
  }

  lemma EncodeReadsStep(params: seq<Code>, k: nat)
    requires k < |params|
    ensures EncodeReads(0, params[..k + 1])
         == EncodeReads(0, params[..k])
            + PageSwitch(if k == 0 then 0 else Page(params[k - 1]), params[k]) + [Addr(params[k])]
  {
    assert params[..k + 1] == params[..k] + [params[k]];
    EncodeReadsSnoc(0, params[..k], params[k]);
  }

  lemma AppendSwitch(data: Bytes, page: byte, c: Code)
    ensures (if Page(c) != page then data + [CMD_PAGE, Page(c)] else data) == data + PageSwitch(page, c)
  {
  }

  /** The client's encoder for read, increment and decrement requests. */
  method BuildReadData(params: seq<Code>) returns (data: Bytes)
    ensures data == EncodeReads(0, params)
  {
    hide EncodeItems, EncodeReads, Vals, Answers, PageSwitch, Body, Page, Addr;
    NothingEncoded(map[]);
    data := [];
    var page: byte := 0;
    for k := 0 to |params|
      invariant data == EncodeReads(0, params[..k])
      invariant page == if k == 0 then 0 else Page(params[k - 1])
    {
      var p := params[k];
      EncodeReadsStep(params, k);
      AppendSwitch(data, page, p);
      var high: byte := Page(p);
      if high != page {
        data := data + [CMD_PAGE, high];
        page := high;
      }
      data := data + [Addr(p)];
    }
    assert params[..|params|] == params;
  }

  /** Appending page switch, size, address and value one after the other appends the whole item. */
  lemma AppendVal(data: Bytes, page: byte, e: Entry)
    ensures var switched := if Page(e.code) != page then data + [CMD_PAGE, Page(e.code)] else data;
            var sized := if |e.value| != 1 then switched + [CMD_SIZE, |e.value| % 256] else switched;
            sized + [Addr(e.code)] + e.value == data + PageSwitch(page, e.code) + Body(Val(e))
  {
  }

  lemma EncodeValsStep(params: seq<Entry>, k: nat)
    requires k < |params|
    ensures EncodeItems(0, Vals(params[..k + 1]))
         == EncodeItems(0, Vals(params[..k]))
            + PageSwitch(if k == 0 then 0 else Page(params[k - 1].code), params[k].code)
            + Body(Val(params[k]))
  {
    assert Vals(params[..k + 1]) == Vals(params[..k]) + [Val(params[k])];
    EncodeItemsSnoc(0, Vals(params[..k]), Val(params[k]));
  }

  /** The client's encoder for write requests. */
  method BuildWriteData(params: seq<Entry>) returns (data: Bytes)
    ensures data == EncodeItems(0, Vals(params))
  {
    hide EncodeItems, EncodeReads, Vals, Answers, PageSwitch, Body, Page, Addr;
    NothingEncoded(map[]);
    data := [];
    var page: byte := 0;
    for k := 0 to |params|
      invariant data == EncodeItems(0, Vals(params[..k]))
      invariant page == if k == 0 then 0 else Page(params[k - 1].code)
    {
      var p := params[k];
      EncodeValsStep(params, k);
      AppendVal(data, page, p);
      var high: byte := Page(p.code);
      var size := |p.value|;
      var sizeByte: byte := size % 256;
      if high != page {
        data := data + [CMD_PAGE, high];
        page := high;
      }
      if size != 1 {
        data := data + [CMD_SIZE, sizeByte];
      }
      data := data + [Addr(p.code)];
      data := data + p.value;
    }
    assert params[..|params|] == params;
  }

  lemma AppendNotSup(data: Bytes, page: byte, c: Code)
    ensures (if Page(c) != page then data + [CMD_PAGE, Page(c)] else data) + [CMD_NOT_SUP, Addr(c)]
         == data + PageSwitch(page, c) + Body(NotSup(c))
  {
  }

  lemma EncodeAnswersStep(requested: seq<Code>, state: map<Code, Bytes>, k: nat)
    requires k < |requested|
    ensures EncodeItems(0, Answers(requested[..k + 1], state))
         == EncodeItems(0, Answers(requested[..k], state))
            + PageSwitch(if k == 0 then 0 else Page(requested[k - 1]), requested[k])
            + Body(Answers(requested, state)[k])
  {
    var answer := Answers(requested, state)[k];
    assert Answers(requested[..k + 1], state) == Answers(requested[..k], state) + [answer];
    EncodeItemsSnoc(0, Answers(requested[..k], state), answer);
  }

  predicate SizesFitAByte(state: map<Code, Bytes>) {
    forall c :: c in state ==> |state[c]| < 256
  }

  /** The device's encoder for responses. A size that is no byte raises; the states below never hold one. */
  method BuildResponseData(requested: seq<Code>, state: map<Code, Bytes>) returns (data: Bytes)
    requires SizesFitAByte(state)
    ensures data == EncodeItems(0, Answers(requested, state))
  {
    hide EncodeItems, EncodeReads, Vals, Answers, PageSwitch, Body, Page, Addr;
    NothingEncoded(state);
    data := [];
    var page: byte := 0;
    for k := 0 to |requested|
      invariant data == EncodeItems(0, Answers(requested[..k], state))
      invariant page == if k == 0 then 0 else Page(requested[k - 1])
    {
      var p := requested[k];
      EncodeAnswersStep(requested, state, k);
      if p in state {
        AppendVal(data, page, Entry(p, state[p]));
      } else {
        AppendNotSup(data, page, p);
      }
      var high: byte, low: byte := Page(p), Addr(p);
      if high != page {
        data := data + [CMD_PAGE, high];
        page := high;
      }
      if p !in state {
        data := data + [CMD_NOT_SUP, low];
      } else {
        var val := state[p];
        var sz: byte := |val|;
        if sz != 1 {
          data := data + [CMD_SIZE, sz];
        }
        data := data + [low];
        data := data + val;
      }
    }
    assert requested[..|requested|] == requested;
  }

  // ---------------------------------------------------------------------------
  // Decoding a response (client)
  // ---------------------------------------------------------------------------

  /** How a walk over a section stops. */
  datatype End =
    | Clean
    | Marker(code: Code, size: nat)            // the unsupported marker is the very last byte
    | Truncated(code: Code, partial: Bytes)    // fewer value bytes left than the size asks for
    | Overrun                                  // a control byte's operand lies past the end

  datatype Walk = Walk(items: seq<Item>, end: End) {
    function Before(item: Item): Walk { Walk([item] + items, end) }
  }

  /** The client's walk over the rest `d` of a section, on page `page`. */
  function ResponseWalk(page: byte, d: Bytes): Walk
    decreases |d|, 1
  {
    if d == [] then Walk([], Clean)
    else if d[0] == CMD_PAGE then
      if |d| == 1 then Walk([], Overrun) else ResponseWalk(d[1], d[2..])
    else if d[0] == CMD_FUNC then ResponseWalk(page, From(d, 2))
    else if d[0] == CMD_SIZE then
      if |d| < 3 then Walk([], Overrun) else ResponseTag(page, d[1], d[2..])
    else ResponseTag(page, 1, d)
  }

  /** The part of the walk that starts at a tag byte with `size` value bytes announced. */
  function ResponseTag(page: byte, size: nat, t: Bytes): Walk
    requires t != []
    decreases |t|, 0
  {
    var code := CodeAt(page, t[0]);
    if t[0] == CMD_NOT_SUP then
      if |t| == 1 then Walk([], Marker(code, size))
      else ResponseWalk(page, t[2..]).Before(NotSup(CodeAt(page, t[1])))
    else if |t| < 1 + size then Walk([], Truncated(code, t[1..]))
    else ResponseWalk(page, t[1 + size..]).Before(Val(Entry(code, t[1..1 + size])))
  }

  /** The map an ordered list of entries leaves behind: the last entry of a code wins. */
  function LastWins(es: seq<Entry>): map<Code, Bytes> {
    if es == [] then map[]
    else LastWins(es[..|es| - 1])[es[|es| - 1].code := es[|es| - 1].value]
  }

  function ValuesOf(items: seq<Item>): seq<Entry> {
    if items == [] then []
    else
      var last := items[|items| - 1];
      ValuesOf(items[..|items| - 1]) + (if last.Val? then [last.entry] else [])
  }

  function UnsupportedOf(items: seq<Item>): seq<Code> {
    if items == [] then []
    else
      var last := items[|items| - 1];
      UnsupportedOf(items[..|items| - 1]) + (if last.NotSup? then [last.code] else [])
  }

  /** The client's verdict on a walked section. */
  function Verdict(w: Walk): Result<map<Code, Bytes>> {
    if w.end.Truncated? then Err(Protocol)
    else if w.end.Overrun? then Err(Crash)
    else if UnsupportedOf(w.items) != [] then Err(UnsupportedParams(UnsupportedOf(w.items)))
    else Ok(LastWins(ValuesOf(w.items)))
  }

  function ParsedData(data: Bytes): Result<map<Code, Bytes>> {
    Verdict(ResponseWalk(0, data))
  }

  lemma {:induction false} CollectSnoc(seen: seq<Item>, item: Item)
    ensures ValuesOf(seen + [item]) == if item.Val? then ValuesOf(seen) + [item.entry] else ValuesOf(seen)
    ensures UnsupportedOf(seen + [item])
         == if item.NotSup? then UnsupportedOf(seen) + [item.code] else UnsupportedOf(seen)
  {
  }

  lemma {:induction false} LastWinsSnoc(es: seq<Entry>, e: Entry)
    ensures LastWins(es + [e]) == LastWins(es)[e.code := e.value]
  {
  }

  /** Where the tag of the item at `i` lies, and the size in force there. */
  predicate TagAt(data: Bytes, i: nat, tag: nat, size: nat) {
    && i < |data| && data[i] != CMD_PAGE && data[i] != CMD_FUNC
    && if data[i] == CMD_SIZE then i + 2 < |data| && tag == i + 2 && size == data[i + 1]
       else tag == i && size == 1
  }

  lemma WalkTag(page: byte, data: Bytes, i: nat, tag: nat, size: nat)
    requires TagAt(data, i, tag, size)
    ensures ResponseWalk(page, From(data, i)) == ResponseTag(page, size, data[tag..])
  {
  }

  /** A tag is followed by an unsupported code, or by its value and then the rest of the section. */
  lemma TagMarker(page: byte, data: Bytes, tag: nat, size: nat)
    requires tag < |data| && data[tag] == CMD_NOT_SUP
    ensures var w := ResponseTag(page, size, data[tag..]);
            if tag + 1 == |data| then w == Walk([], Marker(CodeAt(page, CMD_NOT_SUP), size))
            else w == ResponseWalk(page, From(data, tag + 2)).Before(NotSup(CodeAt(page, data[tag + 1])))
  {
  }

  lemma TagValue(page: byte, data: Bytes, tag: nat, size: nat)
    requires tag < |data| && data[tag] != CMD_NOT_SUP
    ensures var w := ResponseTag(page, size, data[tag..]);
            var code := CodeAt(page, data[tag]);
            if tag + 1 + size > |data| then w == Walk([], Truncated(code, data[tag + 1..]))
            else w == ResponseWalk(page, From(data, tag + 1 + size))
                        .Before(Val(Entry(code, data[tag + 1..tag + 1 + size])))
  {
    var t := data[tag..];
    if tag + 1 + size <= |data| {
      assert t[1 + size..] == From(data, tag + 1 + size);
      assert t[1..1 + size] == data[tag + 1..tag + 1 + size];
    } else {
      assert t[1..] == data[tag + 1..];
    }
  }

  /** What a loop that has collected `seen` and stands at index `i` still has to find. */
  ghost predicate Ahead(data: Bytes, seen: seq<Item>, page: byte, i: nat) {
    var rest := ResponseWalk(page, From(data, i));
    ResponseWalk(0, data) == Walk(seen + rest.items, rest.end)
  }

  ghost predicate EndedAtMarker(data: Bytes, seen: seq<Item>) {
    var w := ResponseWalk(0, data);
    w.items == seen && w.end.Marker?
  }

  lemma AheadItem(data: Bytes, seen: seq<Item>, page: byte, i: nat, item: Item, next: nat)
    requires Ahead(data, seen, page, i)
    requires ResponseWalk(page, From(data, i)) == ResponseWalk(page, From(data, next)).Before(item)
    ensures Ahead(data, seen + [item], page, next)
  {
  }

  lemma AheadEnd(data: Bytes, seen: seq<Item>, page: byte, i: nat)
    requires Ahead(data, seen, page, i)
    ensures var end := ResponseWalk(page, From(data, i)).end;
            && (ResponseWalk(page, From(data, i)) == Walk([], end) && end.Marker? ==> EndedAtMarker(data, seen))
            && (end.Truncated? ==> ParsedData(data) == Err(Protocol))
            && (end.Overrun? ==> ParsedData(data) == Err(Crash))
  {
  }

  lemma StartStep(data: Bytes)
    ensures Ahead(data, [], 0, 0)
    ensures ValuesOf([]) == [] && UnsupportedOf([]) == [] && LastWins([]) == map[]
  {
  }

  lemma ControlStep(data: Bytes, seen: seq<Item>, page: byte, i: nat)
    requires i < |data| && Ahead(data, seen, page, i)
    ensures data[i] == CMD_FUNC ==> Ahead(data, seen, page, i + 2)
    ensures data[i] == CMD_PAGE && i + 1 < |data| ==> Ahead(data, seen, data[i + 1], i + 2)
    ensures data[i] in {CMD_PAGE, CMD_SIZE} && i + 1 == |data| ==> ParsedData(data) == Err(Crash)
    ensures data[i] == CMD_SIZE && i + 2 == |data| ==> ParsedData(data) == Err(Crash)
  {
  }

  lemma MarkerStep(data: Bytes, seen: seq<Item>, page: byte, i: nat, tag: nat, size: nat)
    requires TagAt(data, i, tag, size) && Ahead(data, seen, page, i) && data[tag] == CMD_NOT_SUP
    ensures tag + 1 == |data| ==> EndedAtMarker(data, seen)
    ensures tag + 1 < |data| ==>
      var item := NotSup(CodeAt(page, data[tag + 1]));
      && Ahead(data, seen + [item], page, tag + 2)
      && ValuesOf(seen + [item]) == ValuesOf(seen)
      && UnsupportedOf(seen + [item]) == UnsupportedOf(seen) + [item.code]
  {
    hide ResponseWalk, ResponseTag, LastWins, ValuesOf, UnsupportedOf, Ahead, EndedAtMarker, ParsedData, From, CodeAt;
    WalkTag(page, data, i, tag, size);
    TagMarker(page, data, tag, size);
    if tag + 1 < |data| {
      var item := NotSup(CodeAt(page, data[tag + 1]));
      AheadItem(data, seen, page, i, item, tag + 2);
      CollectSnoc(seen, item);
    } else {
      AheadEnd(data, seen, page, i);
    }
  }

  lemma ValueStep(data: Bytes, seen: seq<Item>, page: byte, i: nat, tag: nat, size: nat)
    requires TagAt(data, i, tag, size) && Ahead(data, seen, page, i) && data[tag] != CMD_NOT_SUP
    ensures tag + 1 + size > |data| ==> ParsedData(data) == Err(Protocol)
    ensures tag + 1 + size <= |data| ==>
      var e := Entry(CodeAt(page, data[tag]), data[tag + 1..tag + 1 + size]);
      && Ahead(data, seen + [Val(e)], page, tag + 1 + size)
      && LastWins(ValuesOf(seen + [Val(e)])) == LastWins(ValuesOf(seen))[e.code := e.value]
      && UnsupportedOf(seen + [Val(e)]) == UnsupportedOf(seen)
  {
    hide ResponseWalk, ResponseTag, LastWins, ValuesOf, UnsupportedOf, Ahead, EndedAtMarker, ParsedData, From, CodeAt;
    WalkTag(page, data, i, tag, size);
    TagValue(page, data, tag, size);
    AheadEnd(data, seen, page, i);
    if tag + 1 + size <= |data| {
      var e := Entry(CodeAt(page, data[tag]), data[tag + 1..tag + 1 + size]);
      AheadItem(data, seen, page, i, Val(e), tag + 1 + size);
      CollectSnoc(seen, Val(e));
      LastWinsSnoc(ValuesOf(seen), e);
    }
  }

  lemma EndStep(data: Bytes, seen: seq<Item>, page: byte, i: nat)
    requires i >= |data|
    requires Ahead(data, seen, page, i) || EndedAtMarker(data, seen)
    ensures ParsedData(data)
         == if UnsupportedOf(seen) != [] then Err(UnsupportedParams(UnsupportedOf(seen)))
            else Ok(LastWins(ValuesOf(seen)))
  {
    hide ValuesOf, UnsupportedOf, LastWins;
    assert seen + [] == seen;
  }

  /** The client's response decoder. */
  method ParseDataBytes(data: Bytes) returns (r: Result<map<Code, Bytes>>)
    ensures r == ParsedData(data)
  {
    hide ResponseWalk, ResponseTag, LastWins, ValuesOf, UnsupportedOf, Ahead, EndedAtMarker, ParsedData, From, CodeAt;
    var result: map<Code, Bytes> := map[];
    var unsupported: seq<Code> := [];
    var page: byte := 0;
    var paramSize: nat := 1;
    var i := 0;
    ghost var seen: seq<Item> := [];
    StartStep(data);
    while i < |data|
      invariant paramSize == 1
      invariant result == LastWins(ValuesOf(seen)) && unsupported == UnsupportedOf(seen)
      invariant Ahead(data, seen, page, i) || (i > |data| && EndedAtMarker(data, seen))
      decreases |data| - i
    {
      var b := data[i];
      ghost var start := i;
      ControlStep(data, seen, page, i);
      if b == CMD_PAGE {
        i := i + 1;
        if i >= |data| {
          return Err(Crash);
        }
        page := data[i];
        i := i + 1;
        paramSize := 1;
        continue;
      }
      if b == CMD_FUNC {
        i := i + 2;
        paramSize := 1;
        continue;
      }
      if b == CMD_SIZE {
        i := i + 1;
        if i >= |data| {
          return Err(Crash);
        }
        paramSize := data[i];
        i := i + 1;
        if i >= |data| {
          return Err(Crash);
        }
        b := data[i];
      }
      if b == CMD_NOT_SUP {
        MarkerStep(data, seen, page, start, i, paramSize);
        i := i + 1;
        if i < |data| {
          unsupported := unsupported + [CodeAt(page, data[i])];
          seen := seen + [NotSup(CodeAt(page, data[i]))];
        }
        i := i + 1;
        paramSize := 1;
        continue;
      }
      ValueStep(data, seen, page, start, i, paramSize);
      var paramNum := CodeAt(page, b);
      i := i + 1;
      var valueEnd := i + paramSize;
      if valueEnd > |data| {
        return Err(Protocol);
      }
      result := result[paramNum := data[i..valueEnd]];
      seen := seen + [Val(Entry(paramNum, data[i..valueEnd]))];
      i := valueEnd;
      paramSize := 1;
    }
    EndStep(data, seen, page, i);
    if unsupported != [] {
      return Err(UnsupportedParams(unsupported));
    }
    return Ok(result);
  }
}
