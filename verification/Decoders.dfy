/** The simulator's and the trace tool's decoders of a data section. */
module Decoders {
  import opened Basics
  import opened Section

  // ---------------------------------------------------------------------------
  // Insertion-ordered dictionaries
  // ---------------------------------------------------------------------------

  /** Assigning a key of a dictionary: a known key keeps its place, a new one goes last. */
  function Put(d: seq<Entry>, e: Entry): (r: seq<Entry>)
    decreases |d|
  {
    if d == [] then [e]
    else if d[0].code == e.code then [e] + d[1..]
    else [d[0]] + Put(d[1..], e)
  }

  function DictOf(es: seq<Entry>): seq<Entry> {
    if es == [] then [] else Put(DictOf(es[..|es| - 1]), es[|es| - 1])
  }

  function CodesOf(d: seq<Entry>): (r: seq<Code>)
    ensures |r| == |d|
    ensures forall i :: 0 <= i < |d| ==> r[i] == d[i].code
  {
    seq(|d|, i requires 0 <= i < |d| => d[i].code)
  }

  ghost predicate DistinctCodes(d: seq<Entry>) {
    forall i, j :: 0 <= i < j < |d| ==> d[i].code != d[j].code
  }

  lemma DictOfSnoc(es: seq<Entry>, e: Entry)
    ensures DictOf(es + [e]) == Put(DictOf(es), e)
  {
  }

  lemma LastWinsMem(d: seq<Entry>, c: Code)
    ensures c in LastWins(d) <==> exists i :: 0 <= i < |d| && d[i].code == c
  {
  }

  lemma {:induction false} LastWinsCons(e: Entry, d: seq<Entry>)
    ensures LastWins([e] + d) == map[e.code := e.value] + LastWins(d)
  {
    if d == [] {
      assert [e] + d == [e];
    } else {
      assert ([e] + d)[..|d|] == [e] + d[..|d| - 1];
      LastWinsCons(e, d[..|d| - 1]);
    }
  }

  lemma {:induction false} PutMembers(d: seq<Entry>, e: Entry)
    ensures e in Put(d, e)
    ensures forall x :: x in Put(d, e) ==> x == e || x in d
    decreases |d|
  {
    if d != [] {
      PutMembers(d[1..], e);
    }
  }

  lemma {:induction false} PutDistinct(d: seq<Entry>, e: Entry)
    requires DistinctCodes(d)
    ensures DistinctCodes(Put(d, e))
    decreases |d|
  {
    if d != [] && d[0].code != e.code {
      var rest := Put(d[1..], e);
      PutDistinct(d[1..], e);
      PutMembers(d[1..], e);
      forall j | 0 <= j < |rest|
        ensures rest[j].code != d[0].code
      {
        assert rest[j] in rest;
      }
    }
  }

  /** Assigning a key changes the dictionary's content at that key only. */
  lemma {:induction false} PutIsUpdate(d: seq<Entry>, e: Entry)
    requires DistinctCodes(d)
    ensures LastWins(Put(d, e)) == LastWins(d)[e.code := e.value]
    decreases |d|
  {
    hide LastWins;
    if d == [] {
      assert [] + [e] == [e];
      LastWinsSnoc([], e);
    } else {
      var rest := d[1..];
      assert d == [d[0]] + rest;
      LastWinsCons(d[0], rest);
      if d[0].code == e.code {
        LastWinsCons(e, rest);
        LastWinsMem(rest, e.code);
      } else {
        PutIsUpdate(rest, e);
        LastWinsCons(d[0], Put(rest, e));
      }
    }
  }

  /** A dictionary filled entry by entry holds the last value of every code, under distinct keys. */
  lemma {:induction false} DictIsLastWins(es: seq<Entry>)
    ensures DistinctCodes(DictOf(es))
    ensures LastWins(DictOf(es)) == LastWins(es)
    ensures forall x :: x in DictOf(es) ==> x in es
    decreases |es|
  {
    if es != [] {
      DictIsLastWins(es[..|es| - 1]);
      PutIsUpdate(DictOf(es[..|es| - 1]), es[|es| - 1]);
      PutDistinct(DictOf(es[..|es| - 1]), es[|es| - 1]);
      PutMembers(DictOf(es[..|es| - 1]), es[|es| - 1]);
    }
  }

  // ---------------------------------------------------------------------------
  // Read requests (simulator)
  // ---------------------------------------------------------------------------

  function ReadWalk(page: byte, d: Bytes): seq<Code>
    decreases |d|
  {
    if d == [] then []
    else if d[0] == CMD_PAGE then
      if |d| == 1 then [] else ReadWalk(d[1], d[2..])
    else if d[0] == CMD_FUNC then ReadWalk(page, From(d, 2))
    else [CodeAt(page, d[0])] + ReadWalk(page, d[1..])
  }

  lemma ReadStep(data: Bytes, seen: seq<Code>, page: byte, i: nat)
    requires ReadWalk(0, data) == seen + ReadWalk(page, From(data, i))
    ensures i >= |data| ==> ReadWalk(0, data) == seen
    ensures i < |data| && data[i] == CMD_PAGE && i + 1 < |data| ==>
      ReadWalk(0, data) == seen + ReadWalk(data[i + 1], From(data, i + 2))
    ensures i < |data| && data[i] == CMD_PAGE && i + 1 == |data| ==>
      ReadWalk(0, data) == seen + ReadWalk(page, From(data, i + 1))
    ensures i < |data| && data[i] == CMD_FUNC ==> ReadWalk(0, data) == seen + ReadWalk(page, From(data, i + 2))
    ensures i < |data| && data[i] !in {CMD_PAGE, CMD_FUNC} ==>
      ReadWalk(0, data) == seen + [CodeAt(page, data[i])] + ReadWalk(page, From(data, i + 1))
  {
  }

  method ParseReadRequestData(data: Bytes) returns (params: seq<Code>)
    ensures params == ReadWalk(0, data)
  {
    params := [];
    var page: byte := 0;
    var i := 0;
    assert From(data, 0) == data;
    while i < |data|
      invariant ReadWalk(0, data) == params + ReadWalk(page, From(data, i))
      decreases |data| - i
    {
      hide ReadWalk, From, CodeAt;
      var b := data[i];
      ReadStep(data, params, page, i);
      if b == CMD_PAGE {
        i := i + 1;
        if i < |data| {
          page := data[i];
          i := i + 1;
        }
        continue;
      }
      if b == CMD_FUNC {
        i := i + 2;
        continue;
      }
      params := params + [CodeAt(page, b)];
      i := i + 1;
    }
    ReadStep(data, params, page, i);
  }

  // ---------------------------------------------------------------------------
  // Write requests (simulator)
  // ---------------------------------------------------------------------------

  function WriteWalk(page: byte, d: Bytes): seq<Entry>
    decreases |d|, 1
  {
    if d == [] then []
    else if d[0] == CMD_PAGE then
      if |d| == 1 then [] else WriteWalk(d[1], d[2..])
    else if d[0] == CMD_FUNC then WriteWalk(page, From(d, 2))
    else if d[0] == CMD_SIZE then
      if |d| < 3 then [] else WriteTag(page, d[1], d[2..])
    else WriteTag(page, 1, d)
  }

  /** Unlike the client, the simulator gives the unsupported marker no meaning in a write. */
  function WriteTag(page: byte, size: nat, t: Bytes): seq<Entry>
    requires t != []
    decreases |t|, 0
  {
    if |t| < 1 + size then []
    else [Entry(CodeAt(page, t[0]), t[1..1 + size])] + WriteWalk(page, t[1 + size..])
  }

  ghost predicate WriteAhead(data: Bytes, seen: seq<Entry>, page: byte, i: nat) {
    WriteWalk(0, data) == seen + WriteWalk(page, From(data, i))
  }

  lemma WriteStart(data: Bytes)
    ensures WriteAhead(data, [], 0, 0) && DictOf([]) == []
  {
  }

  lemma WriteControlStep(data: Bytes, seen: seq<Entry>, page: byte, i: nat)
    requires WriteAhead(data, seen, page, i)
    ensures i >= |data| ==> WriteWalk(0, data) == seen
    ensures i < |data| && data[i] == CMD_FUNC ==> WriteAhead(data, seen, page, i + 2)
    ensures i < |data| && data[i] == CMD_PAGE && i + 1 < |data| ==> WriteAhead(data, seen, data[i + 1], i + 2)
    ensures i < |data| && data[i] == CMD_PAGE && i + 1 == |data| ==> WriteAhead(data, seen, page, i + 1)
    ensures i < |data| && data[i] == CMD_SIZE && i + 2 >= |data| ==> WriteWalk(0, data) == seen
  {
  }

  lemma WriteTagAt(page: byte, data: Bytes, i: nat, tag: nat, size: nat)
    requires TagAt(data, i, tag, size)
    ensures WriteWalk(page, From(data, i))
         == if tag + 1 + size > |data| then []
            else [Entry(CodeAt(page, data[tag]), data[tag + 1..tag + 1 + size])]
                 + WriteWalk(page, From(data, tag + 1 + size))
  {
    var t := data[tag..];
    assert WriteWalk(page, From(data, i)) == WriteTag(page, size, t) by {
      if data[i] == CMD_SIZE {
        assert data[i..][2..] == t;
      }
    }
    if tag + 1 + size <= |data| {
      assert t[1..1 + size] == data[tag + 1..tag + 1 + size];
      assert t[1 + size..] == From(data, tag + 1 + size);
    }
  }

  lemma WriteValueStep(data: Bytes, seen: seq<Entry>, page: byte, i: nat, tag: nat, size: nat)
    requires TagAt(data, i, tag, size) && WriteAhead(data, seen, page, i)
    ensures tag + 1 + size > |data| ==> WriteWalk(0, data) == seen
    ensures tag + 1 + size <= |data| ==>
      var e := Entry(CodeAt(page, data[tag]), data[tag + 1..tag + 1 + size]);
      WriteAhead(data, seen + [e], page, tag + 1 + size) && DictOf(seen + [e]) == Put(DictOf(seen), e)
  {
    hide DictOf, Put;
    WriteTagAt(page, data, i, tag, size);
    if tag + 1 + size > |data| {
      assert seen + [] == seen;
    } else {
      var e := Entry(CodeAt(page, data[tag]), data[tag + 1..tag + 1 + size]);
      var rest := WriteWalk(page, From(data, tag + 1 + size));
      hide WriteWalk, From, CodeAt;
      assert seen + ([e] + rest) == (seen + [e]) + rest;
      DictOfSnoc(seen, e);
    }
  }

  /** The simulator's write decoder: total on every byte string, never reading past its end. */
  method ParseWriteData(data: Bytes) returns (result: seq<Entry>)
    ensures result == DictOf(WriteWalk(0, data))
  {
    hide WriteWalk, WriteTag, WriteAhead, DictOf, From, CodeAt;
    result := [];
    var page: byte := 0;
    var paramSz: nat := 1;
    var i := 0;
    ghost var seen: seq<Entry> := [];
    WriteStart(data);
    while i < |data|
      invariant paramSz == 1
      invariant result == DictOf(seen) && WriteAhead(data, seen, page, i)
      decreases |data| - i
    {
      var b := data[i];
      ghost var start := i;
      WriteControlStep(data, seen, page, i);
      if b == CMD_PAGE {
        i := i + 1;
        if i < |data| {
          page := data[i];
          i := i + 1;
        }
        paramSz := 1;
        continue;
      }
      if b == CMD_FUNC {
        i := i + 2;
        paramSz := 1;
        continue;
      }
      if b == CMD_SIZE {
        i := i + 1;
        paramSz := if i < |data| then data[i] else 1;
        i := i + 1;
        if i < |data| {
          b := data[i];
        } else {
          return;
        }
      }
      WriteValueStep(data, seen, page, start, i, paramSz);
      var paramNum := CodeAt(page, b);
      i := i + 1;
      var valEnd := i + paramSz;
      if valEnd > |data| {
        return;
      }
      seen := seen + [Entry(paramNum, data[i..valEnd])];
      result := Put(result, Entry(paramNum, data[i..valEnd]));
      i := valEnd;
      paramSz := 1;
    }
    WriteControlStep(data, seen, page, i);
  }

  // ---------------------------------------------------------------------------
  // Trace tool
  // ---------------------------------------------------------------------------

  /** The pairs the trace tool lists, before formatting; `None` when it indexes past the end. */
  function TraceWalk(page: byte, d: Bytes): Option<seq<Item>>
    decreases |d|, 1
  {
    if d == [] then Some([])
    else if d[0] == CMD_PAGE then
      if |d| == 1 then None else TraceWalk(d[1], d[2..])
    else if d[0] == CMD_FUNC then TraceWalk(page, From(d, 2))
    else if d[0] == CMD_SIZE then
      if |d| < 3 then None else TraceTag(page, d[1], d[2..])
    else TraceTag(page, 1, d)
  }

  function Listed(item: Item, rest: Option<seq<Item>>): Option<seq<Item>> {
    if rest.None? then None else Some([item] + rest.value)
  }

  /** A value that is cut short is listed with the bytes that are there. */
  function TraceTag(page: byte, size: nat, t: Bytes): Option<seq<Item>>
    requires t != []
    decreases |t|, 0
  {
    if t[0] == CMD_NOT_SUP then
      if |t| == 1 then Some([])
      else Listed(NotSup(CodeAt(page, t[1])), TraceWalk(page, t[2..]))
    else
      var end := if 1 + size <= |t| then 1 + size else |t|;
      Listed(Val(Entry(CodeAt(page, t[0]), t[1..end])), TraceWalk(page, t[end..]))
  }

  ghost predicate TraceAhead(data: Bytes, seen: seq<Item>, page: byte, i: nat) {
    var rest := TraceWalk(page, From(data, i));
    TraceWalk(0, data) == if rest.None? then None else Some(seen + rest.value)
  }

  lemma TraceControlStep(data: Bytes, seen: seq<Item>, page: byte, i: nat)
    requires TraceAhead(data, seen, page, i)
    ensures i >= |data| ==> TraceWalk(0, data) == Some(seen)
    ensures i < |data| && data[i] == CMD_FUNC ==> TraceAhead(data, seen, page, i + 2)
    ensures i < |data| && data[i] == CMD_PAGE && i + 1 < |data| ==> TraceAhead(data, seen, data[i + 1], i + 2)
    ensures i < |data| && data[i] in {CMD_PAGE, CMD_SIZE} && i + 1 == |data| ==> TraceWalk(0, data) == None
    ensures i < |data| && data[i] == CMD_SIZE && i + 2 == |data| ==> TraceWalk(0, data) == None
  {
    hide TraceTag;
    assert seen + [] == seen;
    if i < |data| {
      var d := data[i..];
      assert From(d, 2) == From(data, i + 2);
    }
  }

  lemma TraceItemStep(data: Bytes, seen: seq<Item>, page: byte, i: nat, item: Item, next: nat)
    requires TraceAhead(data, seen, page, i)
    requires TraceWalk(page, From(data, i)) == Listed(item, TraceWalk(page, From(data, next)))
    ensures TraceAhead(data, seen + [item], page, next)
  {
    hide TraceWalk;
    var rest := TraceWalk(page, From(data, next));
    if rest.Some? {
      assert seen + ([item] + rest.value) == (seen + [item]) + rest.value;
    }
  }

  lemma TraceTagAt(page: byte, data: Bytes, i: nat, tag: nat, size: nat)
    requires TagAt(data, i, tag, size)
    ensures var w := TraceWalk(page, From(data, i));
            if data[tag] == CMD_NOT_SUP then
              if tag + 1 == |data| then w == TraceWalk(page, From(data, tag + 2))
              else w == Listed(NotSup(CodeAt(page, data[tag + 1])), TraceWalk(page, From(data, tag + 2)))
            else
              var end := if tag + 1 + size <= |data| then tag + 1 + size else |data|;
              w == Listed(Val(Entry(CodeAt(page, data[tag]), data[tag + 1..end])), TraceWalk(page, From(data, end)))
  {
    var t := data[tag..];
    assert TraceWalk(page, From(data, i)) == TraceTag(page, size, t) by {
      if data[i] == CMD_SIZE {
        assert data[i..][2..] == t;
      }
    }
    if data[tag] == CMD_NOT_SUP {
      if tag + 1 < |data| {
        assert t[2..] == From(data, tag + 2);
      }
    } else {
      var end := if tag + 1 + size <= |data| then tag + 1 + size else |data|;
      assert t[1..end - tag] == data[tag + 1..end];
      assert t[end - tag..] == From(data, end);
    }
  }

  lemma TraceTagStep(data: Bytes, seen: seq<Item>, page: byte, i: nat, tag: nat, size: nat)
    requires TagAt(data, i, tag, size) && TraceAhead(data, seen, page, i)
    ensures data[tag] == CMD_NOT_SUP && tag + 1 == |data| ==> TraceAhead(data, seen, page, tag + 2)
    ensures data[tag] == CMD_NOT_SUP && tag + 1 < |data| ==>
      TraceAhead(data, seen + [NotSup(CodeAt(page, data[tag + 1]))], page, tag + 2)
    ensures data[tag] != CMD_NOT_SUP ==>
      var end := if tag + 1 + size <= |data| then tag + 1 + size else |data|;
      TraceAhead(data, seen + [Val(Entry(CodeAt(page, data[tag]), data[tag + 1..end]))], page, end)
  {
    TraceTagAt(page, data, i, tag, size);
    hide TraceWalk, TraceAhead, From, CodeAt;
    if data[tag] == CMD_NOT_SUP {
      if tag + 1 < |data| {
        TraceItemStep(data, seen, page, i, NotSup(CodeAt(page, data[tag + 1])), tag + 2);
      } else {
        TraceNoItemStep(data, seen, page, i, tag + 2);
      }
    } else {
      var end := if tag + 1 + size <= |data| then tag + 1 + size else |data|;
      TraceItemStep(data, seen, page, i, Val(Entry(CodeAt(page, data[tag]), data[tag + 1..end])), end);
    }
  }

  lemma TraceNoItemStep(data: Bytes, seen: seq<Item>, page: byte, i: nat, next: nat)
    requires TraceAhead(data, seen, page, i)
    requires TraceWalk(page, From(data, i)) == TraceWalk(page, From(data, next))
    ensures TraceAhead(data, seen, page, next)
  {
  }

  lemma TraceStart(data: Bytes)
    ensures TraceAhead(data, [], 0, 0)
  {
    assert From(data, 0) == data;
    if TraceWalk(0, data).Some? {
      assert [] + TraceWalk(0, data).value == TraceWalk(0, data).value;
    }
  }

  method DecodeDataSection(data: Bytes) returns (r: Option<seq<Item>>)
    ensures r == TraceWalk(0, data)
  {
    hide TraceWalk, TraceTag, TraceAhead, From, CodeAt;
    var result: seq<Item> := [];
    var page: byte := 0;
    var paramSize: nat := 1;
    var i := 0;
    TraceStart(data);
    while i < |data|
      invariant paramSize == 1
      invariant TraceAhead(data, result, page, i)
      decreases |data| - i
    {
      var b := data[i];
      ghost var start := i;
      TraceControlStep(data, result, page, i);
      if b == CMD_PAGE {
        i := i + 1;
        if i >= |data| {
          return None;
        }
        page := data[i];
        i := i + 1;
        paramSize := 1;
        continue;
      }
      if b == CMD_FUNC {
        i := i + 2;
        paramSize := 1;
        continue;
      }
      if b == CMD_SIZE {
        i := i + 1;
        if i >= |data| {
          return None;
        }
        paramSize := data[i];
        i := i + 1;
        if i >= |data| {
          return None;
        }
        b := data[i];
      }
      TraceTagStep(data, result, page, start, i, paramSize);
      if b == CMD_NOT_SUP {
        i := i + 1;
        if i < |data| {
          result := result + [NotSup(CodeAt(page, data[i]))];
        }
        i := i + 1;
        paramSize := 1;
        continue;
      }
      var paramNum := CodeAt(page, b);
      i := i + 1;
      var end := if i + paramSize <= |data| then i + paramSize else |data|;
      result := result + [Val(Entry(paramNum, data[i..end]))];
      i := i + paramSize;
      TracePastEnd(data, result, page, end, i);
      paramSize := 1;
    }
    TraceControlStep(data, result, page, i);
    return Some(result);
  }

  lemma TracePastEnd(data: Bytes, seen: seq<Item>, page: byte, end: nat, i: nat)
    requires TraceAhead(data, seen, page, end) && (end == i || |data| == end <= i)
    ensures TraceAhead(data, seen, page, i)
  {
  }
}
