/** A network name the client accepts and sends can be too long to be polled back. */
module LongNames {
  import opened Basics
  import opened Params
  import opened Section
  import opened Decoders
  import opened FanSpec
  import opened Writes
  import opened Client
  import opened Commands
  import Frame
  import Polling

  function NetworkEntries(ssid: Bytes, password: Bytes, encryption: byte): seq<Entry> {
    [Entry(WIFI_MODE, [1]), Entry(WIFI_SSID, ssid), Entry(WIFI_PASSWORD, password),
     Entry(WIFI_ENCRYPTION, [encryption]), Entry(WIFI_DHCP, [1])]
  }

  lemma CommandWrites(ssid: Bytes, password: Bytes, encryption: byte)
    ensures CommandOp(SetWifiClient(ssid, password, true, encryption, None, None, None))
         == Ok(Write(NetworkEntries(ssid, password, encryption)))
  {
    WifiBaseIsSafe(ssid, password, encryption, true);
  }

  lemma FrontSize(e: Entry, rest: seq<Entry>)
    requires Page(e.code) == 0
    ensures |EncodeItems(0, Vals([e] + rest))| == Polling.ItemSize(|e.value|) + |EncodeItems(0, Vals(rest))|
  {
    assert Vals([e] + rest)[1..] == Vals(rest);
    assert |Body(Val(e))| == Polling.ItemSize(|e.value|);
  }

  lemma NetworkSize(ssid: Bytes, password: Bytes, encryption: byte)
    ensures |EncodeItems(0, Vals(NetworkEntries(ssid, password, encryption)))|
         == 6 + Polling.ItemSize(|ssid|) + Polling.ItemSize(|password|)
  {
    var es := NetworkEntries(ssid, password, encryption);
    hide EncodeItems, Vals, Polling.ItemSize;
    assert es == [es[0]] + es[1..] && es[1..] == [es[1]] + es[2..] && es[2..] == [es[2]] + es[3..];
    assert es[3..] == [es[3]] + es[4..] && es[4..] == [es[4]] + [];
    FrontSize(es[0], es[1..]);
    FrontSize(es[1], es[2..]);
    FrontSize(es[2], es[3..]);
    FrontSize(es[3], es[4..]);
    FrontSize(es[4], []);
    assert Polling.ItemSize(1) == 2 by { ByteItem(); }
    assert |EncodeItems(0, Vals([]))| == 0 by { NothingEncoded(map[]); }
  }

  lemma ByteItem()
    ensures Polling.ItemSize(1) == 2
  {
  }

  lemma NameDecides(ssid: Bytes, password: Bytes, encryption: byte)
    ensures LastDecider(NetworkEntries(ssid, password, encryption), WIFI_SSID) == Some(Entry(WIFI_SSID, ssid))
  {
    var es := NetworkEntries(ssid, password, encryption);
    LastDeciderMem(es, WIFI_SSID);
    hide LastDecider;
    assert es[1] in es && Decides(es[1], WIFI_SSID);
  }

  lemma NetworkWritesAll(state: map<Code, Bytes>, ssid: Bytes, password: Bytes, encryption: byte)
    ensures var es := NetworkEntries(ssid, password, encryption);
            DictOf(es) == es && Effective(state, es) == es && !HasCode(es, FACTORY_RESET)
  {
    var es := NetworkEntries(ssid, password, encryption);
    hide DictOf, Effective;
    DictOfDistinct(es);
    AllEffective(state, es);
  }

  /** A network write leaves the fan with the name it sent. */
  lemma NameIsWritten(f: Fan, ssid: Bytes, password: Bytes, encryption: byte, now: Now)
    ensures var g := DirectWrite(f, NetworkEntries(ssid, password, encryption), now).fan;
            g.id == f.id && WIFI_SSID in g.state && g.state[WIFI_SSID] == ssid
  {
    hide NetworkEntries, LastDecider, Effective, DictOf, HasCode, IsParam, NewFan;
    NameDecides(ssid, password, encryption);
    NetworkWritesAll(f.state, ssid, password, encryption);
  }

  /**
   * Setting a network name succeeds whenever the request fits in a packet, and the next poll of that fan
   * fails exactly when the name is longer than 189 bytes.
   */
  lemma LongNameLosesPoll(c: Client, fleet: seq<Fan>, k: nat, ssid: Bytes, password: Bytes, encryption: byte, now: Now,
                          table: NudgeTable)
    requires Reachable(fleet) && k < |fleet| && Safe(fleet[k]) && c.id == fleet[k].id
    requires Frame.ValidCredentials(c.id, c.pwd) && StepsSpeed(table) && SaneTable(table)
    requires Frame.Fits(|c.pwd|, 6 + Polling.ItemSize(|ssid|) + Polling.ItemSize(|password|))
    ensures var op := CommandOp(SetWifiClient(ssid, password, true, encryption, None, None, None));
            && op.Ok?
            && var e := Exchange(c, op.value, fleet, now, table);
               e.result == Ok(map[])
               && (Polling.Poll(c, ALL_PARAM_GROUPS, map[], e.fleet, now, table).Err? <==> |ssid| > Polling.MAX_SSID)
  {
    var cmd := SetWifiClient(ssid, password, true, encryption, None, None, None);
    var es := NetworkEntries(ssid, password, encryption);
    CommandWrites(ssid, password, encryption);
    NetworkSize(ssid, password, encryption);
    CommandsAreSafe(cmd);
    NameIsWritten(fleet[k], ssid, password, encryption, now);
    CommandKeepsSafe(c, cmd, fleet[k], now, table);
    hide CommandOp, Safe, NetworkEntries, EncodeItems, DirectWrite, Exchange, Polling.Poll, Frame.Fits, StepsSpeed;
    var d := Direct(c, Write(es), fleet[k], now, table);
    assert d.fan == DirectWrite(fleet[k], es, now).fan && d.result == Ok(map[]);
    hide Direct;
    ExchangeRefinesDirect(c, Write(es), fleet, k, now, table);
    Polling.PollIsComplete(c, fleet[k := d.fan], k, now, table);
  }
}
