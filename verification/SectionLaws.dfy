/** Round trips between encoders and decoders, and agreement of the three decoders on every byte string. */
module SectionLaws {
  import opened Basics
  import opened Section
  import opened Decoders

  /** A value item whose encoding no decoder can mistake for a control byte. */
  predicate Plain(e: Entry) { Addr(e.code) < CMD_FUNC && |e.value| < 256 }

  ghost predicate PlainItems(items: seq<Item>) {
    forall i :: 0 <= i < |items| && items[i].Val? ==> Plain(items[i].entry)
  }

  ghost predicate PlainEntries(es: seq<Entry>) { forall e :: e in es ==> Plain(e) }

  ghost predicate PlainState(state: map<Code, Bytes>) {
    forall c :: c in state ==> Plain(Entry(c, state[c]))
  }

  lemma CodeParts(c: Code)
    ensures CodeAt(Page(c), Addr(c)) == c
  {
  }

  // ---------------------------------------------------------------------------
  // Round trips
  // ---------------------------------------------------------------------------

  lemma WalkPageSwitch(page: byte, c: Code, rest: Bytes)
    ensures ResponseWalk(page, PageSwitch(page, c) + rest) == ResponseWalk(Page(c), rest)
    ensures WriteWalk(page, PageSwitch(page, c) + rest) == WriteWalk(Page(c), rest)
    ensures ReadWalk(page, PageSwitch(page, c) + rest) == ReadWalk(Page(c), rest)
  {
    var d := PageSwitch(page, c) + rest;
    if Page(c) != page {
      assert d[0] == CMD_PAGE && d[1] == Page(c) && d[2..] == rest;
    } else {
      assert d == rest;
    }
  }

  lemma TagOfVal(page: byte, e: Entry, rest: Bytes)
    requires Plain(e) && Page(e.code) == page
    ensures var t := [Addr(e.code)] + e.value + rest;
            && ResponseTag(page, |e.value|, t) == ResponseWalk(page, rest).Before(Val(e))
            && WriteTag(page, |e.value|, t) == [e] + WriteWalk(page, rest)
  {
  }

  lemma WalkVal(e: Entry, rest: Bytes)
    requires Plain(e)
    ensures ResponseWalk(Page(e.code), Body(Val(e)) + rest) == ResponseWalk(Page(e.code), rest).Before(Val(e))
    ensures WriteWalk(Page(e.code), Body(Val(e)) + rest) == [e] + WriteWalk(Page(e.code), rest)
  {
    var d, t := Body(Val(e)) + rest, [Addr(e.code)] + e.value + rest;
    TagOfVal(Page(e.code), e, rest);
    hide ResponseTag, WriteTag;
    if |e.value| != 1 {
      assert d == [CMD_SIZE, |e.value|] + t;
      assert d[0] == CMD_SIZE && d[1] == |e.value| && d[2..] == t;
    } else {
      assert d == t && t[0] == Addr(e.code);
    }
  }

  lemma WalkNotSup(c: Code, rest: Bytes)
    ensures ResponseWalk(Page(c), Body(NotSup(c)) + rest) == ResponseWalk(Page(c), rest).Before(NotSup(c))
  {
  }

  /** The encoding of a list is that of its first item and of the rest. */
  lemma EncodedFront(page: byte, items: seq<Item>)
    requires items != []
    ensures var c := items[0].Code();
            EncodeItems(page, items) == PageSwitch(page, c) + (Body(items[0]) + EncodeItems(Page(c), items[1..]))
  {
    hide PageSwitch, Body;
  }

  /** Encoder and decoder pages stay in step over every list of items: the client reads back what was written. */
  lemma {:induction false} WalkEncoded(page: byte, items: seq<Item>)
    requires PlainItems(items)
    ensures ResponseWalk(page, EncodeItems(page, items)) == Walk(items, Clean)
    decreases |items|
  {
    if items == [] {
      assert EncodeItems(page, items) == [];
    } else {
      hide EncodeItems, Body, PageSwitch, ResponseWalk;
      var item, next := items[0], Page(items[0].Code());
      var rest := EncodeItems(next, items[1..]);
      EncodedFront(page, items);
      WalkEncoded(next, items[1..]);
      WalkPageSwitch(page, item.Code(), Body(item) + rest);
      match item {
        case Val(e) => WalkVal(e, rest);
        case NotSup(c) => WalkNotSup(c, rest);
      }
      assert items == [item] + items[1..];
    }
  }

  lemma EncodedValsFront(page: byte, es: seq<Entry>)
    requires es != []
    ensures EncodeItems(page, Vals(es))
         == PageSwitch(page, es[0].code) + (Body(Val(es[0])) + EncodeItems(Page(es[0].code), Vals(es[1..])))
  {
    hide EncodeItems, PageSwitch, Body;
    assert Vals(es)[1..] == Vals(es[1..]);
    EncodedFront(page, Vals(es));
  }

  /** The simulator reads back every write list entry by entry. */
  lemma {:induction false} WriteWalkEncoded(page: byte, es: seq<Entry>)
    requires PlainEntries(es)
    ensures WriteWalk(page, EncodeItems(page, Vals(es))) == es
    decreases |es|
  {
    if es == [] {
      assert EncodeItems(page, Vals(es)) == [];
    } else {
      hide EncodeItems, Body, PageSwitch, WriteWalk, ResponseWalk, Vals;
      var e, next := es[0], Page(es[0].code);
      var rest := EncodeItems(next, Vals(es[1..]));
      EncodedValsFront(page, es);
      WriteWalkEncoded(next, es[1..]);
      WalkPageSwitch(page, e.code, Body(Val(e)) + rest);
      WalkVal(e, rest);
      assert es == [e] + es[1..];
    }
  }

  /** Read requests carry any list of codes, in order and with repetitions. */
  lemma {:induction false} ReadRoundTrip(page: byte, codes: seq<Code>)
    requires forall i :: 0 <= i < |codes| ==> Addr(codes[i]) != CMD_PAGE && Addr(codes[i]) != CMD_FUNC
    ensures ReadWalk(page, EncodeReads(page, codes)) == codes
    decreases |codes|
  {
    if codes != [] {
      var c, next := codes[0], Page(codes[0]);
      var rest := EncodeReads(next, codes[1..]);
      ReadRoundTrip(next, codes[1..]);
      var tail := [Addr(c)] + rest;
      assert EncodeReads(page, codes) == PageSwitch(page, c) + tail;
      WalkPageSwitch(page, c, tail);
      assert tail[0] == Addr(c) && tail[1..] == rest;
      CodeParts(c);
      assert codes == [c] + codes[1..];
    }
  }

  lemma {:induction false} ValuesOfVals(es: seq<Entry>)
    ensures ValuesOf(Vals(es)) == es && UnsupportedOf(Vals(es)) == []
    decreases |es|
  {
    if es != [] {
      var front := es[..|es| - 1];
      ValuesOfVals(front);
      assert Vals(es)[..|es| - 1] == Vals(front);
      assert es == front + [es[|es| - 1]];
    }
  }

  /** Both decoders recover the last-wins map of every write list from its encoding. */
  lemma WriteRoundTrip(es: seq<Entry>)
    requires PlainEntries(es)
    ensures var data := EncodeItems(0, Vals(es));
            && ParsedData(data) == Ok(LastWins(es))
            && DictOf(WriteWalk(0, data)) == DictOf(es)
            && LastWins(DictOf(WriteWalk(0, data))) == LastWins(es)
  {
    hide EncodeItems, ResponseWalk, WriteWalk, LastWins, ValuesOf, UnsupportedOf, DictOf;
    WalkEncoded(0, Vals(es));
    WriteWalkEncoded(0, es);
    ValuesOfVals(es);
    DictIsLastWins(es);
  }

  /** The requested codes the device does not hold, in request order. */
  function Unheld(codes: seq<Code>, state: map<Code, Bytes>): seq<Code> {
    if codes == [] then []
    else if codes[0] in state then Unheld(codes[1..], state)
    else [codes[0]] + Unheld(codes[1..], state)
  }

  function Restricted(codes: seq<Code>, state: map<Code, Bytes>): map<Code, Bytes> {
    map c | c in codes && c in state :: state[c]
  }

  lemma {:induction false} UnheldSnoc(codes: seq<Code>, last: Code, state: map<Code, Bytes>)
    ensures Unheld(codes + [last], state) == Unheld(codes, state) + (if last in state then [] else [last])
    decreases |codes|
  {
    if codes == [] {
      assert codes + [last] == [last];
    } else {
      assert (codes + [last])[1..] == codes[1..] + [last];
      UnheldSnoc(codes[1..], last, state);
    }
  }

  lemma RestrictedSnoc(codes: seq<Code>, last: Code, state: map<Code, Bytes>)
    ensures Restricted(codes + [last], state)
         == if last in state then Restricted(codes, state)[last := state[last]] else Restricted(codes, state)
  {
  }

  lemma {:induction false} CollectAnswers(codes: seq<Code>, state: map<Code, Bytes>)
    ensures UnsupportedOf(Answers(codes, state)) == Unheld(codes, state)
    ensures LastWins(ValuesOf(Answers(codes, state))) == Restricted(codes, state)
    decreases |codes|
  {
    if codes != [] {
      var n := |codes| - 1;
      var front, last := codes[..n], codes[n];
      CollectAnswers(front, state);
      assert codes == front + [last];
      UnheldSnoc(front, last, state);
      var before := Answers(front, state);
      var item := Answers(codes, state)[n];
      assert Answers(codes, state) == before + [item];
      hide LastWins, ValuesOf, UnsupportedOf, Unheld, Answers, Restricted;
      RestrictedSnoc(front, last, state);
      CollectSnoc(before, item);
      if last in state {
        LastWinsSnoc(ValuesOf(before), item.entry);
      }
    }
  }

  /** What a client must learn from a device holding `state` when it asks for `codes`. */
  function DirectRead(codes: seq<Code>, state: map<Code, Bytes>): Result<map<Code, Bytes>> {
    if Unheld(codes, state) != [] then Err(UnsupportedParams(Unheld(codes, state)))
    else Ok(Restricted(codes, state))
  }

  /**
   * Decoding a device's response gives exactly the state restricted to the requested codes, or fails
   * with exactly the codes the device does not hold, whatever codes are requested.
   */
  lemma ResponseRoundTrip(codes: seq<Code>, state: map<Code, Bytes>)
    requires PlainState(state)
    ensures ParsedData(EncodeItems(0, Answers(codes, state))) == DirectRead(codes, state)
  {
    var items := Answers(codes, state);
    forall i | 0 <= i < |items| && items[i].Val?
      ensures Plain(items[i].entry)
    {
      assert codes[i] in state;
    }
    WalkEncoded(0, items);
    CollectAnswers(codes, state);
  }

  /** A request succeeds exactly when every requested code is held. */
  lemma {:induction false} UnheldIsEmpty(codes: seq<Code>, state: map<Code, Bytes>)
    ensures Unheld(codes, state) == [] <==> forall c :: c in codes ==> c in state
    decreases |codes|
  {
    if codes != [] {
      assert codes == [codes[0]] + codes[1..];
      UnheldIsEmpty(codes[1..], state);
      if codes[0] !in state {
        assert codes[0] in codes;
      } else if Unheld(codes[1..], state) != [] {
        var c :| c in codes[1..] && c !in state;
        assert c in codes;
      }
    }
  }

  // ---------------------------------------------------------------------------
  // Agreement of the decoders
  // ---------------------------------------------------------------------------

  /** The trace tool's list, told from the client's walk over the same bytes. */
  function TraceOf(w: Walk): Option<seq<Item>> {
    match w.end
    case Overrun => None
    case Truncated(code, partial) => Some(w.items + [Val(Entry(code, partial))])
    case _ => Some(w.items)
  }

  /**
   * On every byte string the trace tool lists what the client decodes, in order; it differs only by
   * listing a cut-short value as far as it goes, and it runs past the end exactly when the client does.
   */
  lemma {:induction false} TraceAgrees(page: byte, d: Bytes)
    ensures TraceWalk(page, d) == TraceOf(ResponseWalk(page, d))
    decreases |d|, 1
  {
    if d != [] {
      if d[0] == CMD_PAGE {
        if |d| > 1 {
          TraceAgrees(d[1], d[2..]);
        }
      } else if d[0] == CMD_FUNC {
        TraceAgrees(page, From(d, 2));
      } else if d[0] == CMD_SIZE {
        if |d| >= 3 {
          TraceTagAgrees(page, d[1], d[2..]);
        }
      } else {
        TraceTagAgrees(page, 1, d);
      }
    }
  }

  lemma TraceOfBefore(w: Walk, item: Item)
    ensures TraceOf(w.Before(item)) == Listed(item, TraceOf(w))
  {
    if w.end.Truncated? {
      var last := Val(Entry(w.end.code, w.end.partial));
      assert [item] + (w.items + [last]) == ([item] + w.items) + [last];
    }
  }

  lemma {:induction false} TraceTagAgrees(page: byte, size: nat, t: Bytes)
    requires t != []
    ensures TraceTag(page, size, t) == TraceOf(ResponseTag(page, size, t))
    decreases |t|, 0
  {
    if t[0] == CMD_NOT_SUP {
      if |t| > 1 {
        TraceAgrees(page, t[2..]);
        TraceOfBefore(ResponseWalk(page, t[2..]), NotSup(CodeAt(page, t[1])));
      }
    } else if |t| < 1 + size {
      var cut := Val(Entry(CodeAt(page, t[0]), t[1..]));
      assert t[1..|t|] == t[1..];
      assert TraceWalk(page, t[|t|..]) == Some([]);
      assert [cut] + [] == [] + [cut];
    } else {
      TraceAgrees(page, t[1 + size..]);
      TraceOfBefore(ResponseWalk(page, t[1 + size..]), Val(Entry(CodeAt(page, t[0]), t[1..1 + size])));
    }
  }

  ghost predicate OnlyValues(items: seq<Item>) { forall i :: 0 <= i < |items| ==> items[i].Val? }

  function EntriesOf(items: seq<Item>): (es: seq<Entry>)
    requires OnlyValues(items)
    ensures |es| == |items| && items == Vals(es)
  {
    seq(|items|, i requires 0 <= i < |items| => items[i].entry)
  }

  /** An unsupported marker announced with size zero at the very end: the one tag that splits the decoders. */
  predicate EmptyMarker(end: End) { end.Marker? && end.size == 0 }

  function MarkerEntry(end: End): seq<Entry> {
    if EmptyMarker(end) then [Entry(end.code, [])] else []
  }

  /**
   * On every byte string in which the client meets no unsupported code, the simulator's write decoder
   * lists the same values, whether or not the client accepts the string.
   */
  lemma {:induction false} WriteAgrees(page: byte, d: Bytes)
    requires OnlyValues(ResponseWalk(page, d).items)
    ensures var w := ResponseWalk(page, d); WriteWalk(page, d) == EntriesOf(w.items) + MarkerEntry(w.end)
    decreases |d|, 1
  {
    if d != [] {
      if d[0] == CMD_PAGE {
        if |d| > 1 {
          WriteAgrees(d[1], d[2..]);
        }
      } else if d[0] == CMD_FUNC {
        WriteAgrees(page, From(d, 2));
      } else if d[0] == CMD_SIZE {
        if |d| >= 3 {
          WriteTagAgrees(page, d[1], d[2..]);
        }
      } else {
        WriteTagAgrees(page, 1, d);
      }
    }
  }

  lemma MarkerIsNoValue(page: byte, size: nat, t: Bytes)
    requires |t| > 1 && t[0] == CMD_NOT_SUP
    ensures !OnlyValues(ResponseTag(page, size, t).items)
  {
    assert ResponseTag(page, size, t).items[0].NotSup?;
  }

  lemma {:induction false} WriteTagAgrees(page: byte, size: nat, t: Bytes)
    requires t != [] && OnlyValues(ResponseTag(page, size, t).items)
    ensures var w := ResponseTag(page, size, t); WriteTag(page, size, t) == EntriesOf(w.items) + MarkerEntry(w.end)
    decreases |t|, 0
  {
    var w := ResponseTag(page, size, t);
    if t[0] == CMD_NOT_SUP {
      if |t| == 1 {
        assert t[1..1] == [];
      } else {
        MarkerIsNoValue(page, size, t);
        assert false;
      }
    } else if |t| >= 1 + size {
      var e, v := Entry(CodeAt(page, t[0]), t[1..1 + size]), ResponseWalk(page, t[1 + size..]);
      assert v.items == w.items[1..];
      WriteAgrees(page, t[1 + size..]);
      assert EntriesOf(w.items) == [e] + EntriesOf(v.items);
      assert [e] + (EntriesOf(v.items) + MarkerEntry(v.end)) == ([e] + EntriesOf(v.items)) + MarkerEntry(v.end);
    }
  }

  lemma {:induction false} NoUnsupported(items: seq<Item>)
    requires UnsupportedOf(items) == []
    ensures OnlyValues(items)
    decreases |items|
  {
    if items != [] {
      NoUnsupported(items[..|items| - 1]);
    }
  }

  /** The client never stores a value under a marker address, nor ends on a marker elsewhere. */
  lemma {:induction false} NoMarkerCodes(page: byte, d: Bytes)
    ensures var w := ResponseWalk(page, d);
            && (forall i :: 0 <= i < |w.items| && w.items[i].Val? ==> Addr(w.items[i].entry.code) != CMD_NOT_SUP)
            && (w.end.Marker? ==> Addr(w.end.code) == CMD_NOT_SUP)
    decreases |d|, 1
  {
    if d != [] {
      if d[0] == CMD_PAGE {
        if |d| > 1 {
          NoMarkerCodes(d[1], d[2..]);
        }
      } else if d[0] == CMD_FUNC {
        NoMarkerCodes(page, From(d, 2));
      } else if d[0] == CMD_SIZE {
        if |d| >= 3 {
          NoMarkerTags(page, d[1], d[2..]);
        }
      } else {
        NoMarkerTags(page, 1, d);
      }
    }
  }

  lemma {:induction false} NoMarkerTags(page: byte, size: nat, t: Bytes)
    requires t != []
    ensures var w := ResponseTag(page, size, t);
            && (forall i :: 0 <= i < |w.items| && w.items[i].Val? ==> Addr(w.items[i].entry.code) != CMD_NOT_SUP)
            && (w.end.Marker? ==> Addr(w.end.code) == CMD_NOT_SUP)
    decreases |t|, 0
  {
    assert Addr(CodeAt(page, t[0])) == t[0];
    if t[0] == CMD_NOT_SUP {
      if |t| > 1 {
        NoMarkerCodes(page, t[2..]);
      }
    } else if |t| >= 1 + size {
      NoMarkerCodes(page, t[1 + size..]);
    }
  }

  /**
   * Whenever the client accepts a section, the simulator's write decoder yields the same map if and
   * only if the section does not end in an unsupported marker announced with size zero.
   */
  lemma DecodersAgree(data: Bytes)
    requires ParsedData(data).Ok?
    ensures LastWins(DictOf(WriteWalk(0, data))) == ParsedData(data).value
       <==> !EmptyMarker(ResponseWalk(0, data).end)
    ensures TraceWalk(0, data) == Some(ResponseWalk(0, data).items)
  {
    var w := ResponseWalk(0, data);
    TraceAgrees(0, data);
    NoUnsupported(w.items);
    WriteAgrees(0, data);
    var es := EntriesOf(w.items);
    ValuesOfVals(es);
    DictIsLastWins(WriteWalk(0, data));
    if EmptyMarker(w.end) {
      var e := Entry(w.end.code, []);
      LastWinsSnoc(es, e);
      NoMarkerCodes(0, data);
      LastWinsMem(es, e.code);
      assert forall i :: 0 <= i < |es| ==> w.items[i].entry == es[i];
      assert e.code !in LastWins(es);
    } else {
      assert es + [] == es;
    }
  }

  /** The section FE 00 FD: the client accepts it as empty, the simulator stores an empty value. */
  lemma DecodersSplit()
    ensures var data: Bytes := [CMD_SIZE, 0, CMD_NOT_SUP];
            && ParsedData(data) == Ok(map[])
            && DictOf(WriteWalk(0, data)) == [Entry(0xFD, [])]
  {
    var data: Bytes := [CMD_SIZE, 0, CMD_NOT_SUP];
    assert data[2..] == [CMD_NOT_SUP];
    assert ResponseWalk(0, data) == Walk([], Marker(0xFD, 0));
    var t: Bytes := [CMD_NOT_SUP];
    assert t[1..1] == [] && t[1..] == [];
    var e := Entry(0xFD, []);
    assert WriteWalk(0, data) == WriteTag(0, 0, t) == [e];
    assert [e][..0] == [];
    assert DictOf([e]) == Put([], e);
  }
}
