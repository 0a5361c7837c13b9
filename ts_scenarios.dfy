/** Whole-client consequences of the TypeScript class: what a fresh
    instance holds, how instances built from the same defaults share the
    question and the interface list, how `findFirstIP` settles, and
    concrete packets that show the collector's naming and hook rules. */
module TsScenarios {
  import opened MdnsCommon
  import opened TsCollector
  import opened TsDiscovery

  /** `new MulticastDNS()`: nothing found, no clients, the default
      multicast group and port, an empty PTR question and a 4 second
      timeout. */
  method FreshInstance() returns (m: MulticastDns)
    ensures m.found == [] && m.clients == [] && m.timer.None?
    ensures m.options.ip == "224.0.0.251" && m.options.port == 5353 && m.options.multicastTTL == 64
    ensures m.options.timeout == 4 && m.options.question.qtype == "PTR" && m.options.question.name == ""
    ensures m.options.find.None? && !m.options.returnOnFirstFound
  {
    var defaults := NewDefaultOptions();
    m := new MulticastDns(defaults, None);
  }

  /** Options with a service name and a find pattern: the name becomes the
      question, and the given fields replace the defaults. */
  method ServiceNameInstance(service: string, pattern: string) returns (m: MulticastDns)
    requires service != ""
    ensures m.options.find == Some(pattern) && m.options.question.name == service
    ensures m.options.returnOnFirstFound && m.options.timeout == 40
    ensures m.options.ip == "224.0.0.251" && m.options.question.qtype == "PTR"
  {
    var defaults := NewDefaultOptions();
    m := new MulticastDns(defaults, Some(NoUserOptions.(timeout := Some(40), returnOnFirstFound := Some(true),
                                                        name := Some(service), find := Some(pattern))));
  }

  /** The shorthand writes into the question object of the defaults, so a
      later instance made from the same defaults asks the first instance's
      question, whatever name it was given itself. */
  method ShorthandLeaksToLaterInstances(first: string, second: string) returns (a: MulticastDns, b: MulticastDns)
    requires first != ""
    ensures a.options.question == b.options.question
    ensures a.options.question.name == first && b.options.question.name == first
    ensures b.options.name == second
  {
    var defaults := NewDefaultOptions();
    a := new MulticastDns(defaults, Some(NoUserOptions.(name := Some(first))));
    b := new MulticastDns(defaults, Some(NoUserOptions.(name := Some(second))));
  }

  /** `getInterfaces` pushes into the interface array of the defaults: an
      instance created after another one ran finds the list filled and
      opens its clients on the first instance's addresses, whatever the
      interface table says by then. */
  method InterfacesLeakToLaterInstances(table: seq<Alias>, later: seq<Alias>) returns (a: MulticastDns, b: MulticastDns)
    requires UsableAddresses(table) != []
    ensures a.options.interfaces == b.options.interfaces
    ensures b.options.interfaces.items == UsableAddresses(table)
    ensures b.clients == Opened(0, UsableAddresses(table))
  {
    var defaults := NewDefaultOptions();
    a := new MulticastDns(defaults, None);
    a.Run(table, None);
    b := new MulticastDns(defaults, None);
    b.Run(later, None);
  }

  /** The promise settles on the first call of its callback. */
  lemma PromiseSettlesOnFirstCall(calls: seq<ReadyCall>, results: seq<Entry>)
    requires PromiseOutcome(calls).None?
    ensures PromiseOutcome(calls + [ReadyCall(FirstIpPromise, results)]) == Some(FirstIpSettlement(results))
  {
    var all := calls + [ReadyCall(FirstIpPromise, results)];
    assert all[|calls|].callback == FirstIpPromise;
    assert forall j :: 0 <= j < |calls| ==> all[j] == calls[j];
    var i :| 0 <= i < |all| && all[i].callback == FirstIpPromise &&
      PromiseOutcome(all).value == FirstIpSettlement(all[i].results) &&
      forall j :: 0 <= j < i ==> all[j].callback != FirstIpPromise;
    assert i == |calls|;
  }

  /** Once settled, the promise keeps its outcome whatever is called later. */
  lemma PromiseNeverResettles(calls: seq<ReadyCall>, more: seq<ReadyCall>)
    requires PromiseOutcome(calls).Some?
    ensures PromiseOutcome(calls + more) == PromiseOutcome(calls)
  {
    var i :| 0 <= i < |calls| && calls[i].callback == FirstIpPromise &&
      PromiseOutcome(calls).value == FirstIpSettlement(calls[i].results) &&
      forall j :: 0 <= j < i ==> calls[j].callback != FirstIpPromise;
    assert (calls + more)[i] == calls[i];
    var k :| 0 <= k < |calls + more| && (calls + more)[k].callback == FirstIpPromise &&
      PromiseOutcome(calls + more).value == FirstIpSettlement((calls + more)[k].results) &&
      forall j :: 0 <= j < k ==> (calls + more)[j].callback != FirstIpPromise;
    assert k == i;
  }

  /** Without an early match, `findFirstIP` settles when the timer fires:
      "No response" if nothing was found, else the first found address. */
  method FirstIpSettlesOnTimer(m: MulticastDns, table: seq<Alias>)
    requires PromiseOutcome(m.readyCalls).None?
    modifies m, m.options.interfaces
    ensures PromiseOutcome(m.readyCalls) == Some(FirstIpSettlement(m.found))
  {
    m.FindFirstIp(table);
    var calls := m.readyCalls;
    m.TimerFires();
    PromiseSettlesOnFirstCall(calls, m.found);
  }

  /** A packet with one matching answer, into an empty found list and
      without a hook: the entry is built from that answer, and under
      `returnOnFirstFound` everything is closed. */
  lemma OneMatchingAnswer(c: Collected, ctx: Ctx, r: Record)
    requires ctx.find.Some? && Matches(ctx.find.value, r.name) && Accepts(ctx.filter, ctx.sender)
    requires c.found == [] && ctx.hook.None?
    ensures var res := PacketEffect(c, ctx, Packet(Some([r]), None));
      res.found == [NewEntry(ctx, "answer", r.name, r)] && res.entryCalls == c.entryCalls &&
      (ctx.returnOnFirstFound ==> res.timer.None? && res.clients == Cleared(c.clients)) &&
      (ctx.readyCallback.None? ==> res.readyCalls == c.readyCalls)
  {
    assert SectionUpTo(c, ctx, [r], "answer", 0) == c;
    assert IpIndex(c.found, ctx.sender).None?;
    assert PacketEffect(c, ctx, Packet(Some([r]), None)) == Visit(c, ctx, "answer", r.name, r);
  }

  /** A matching answer under `findFirstIP` is found, but closing clears
      the timer and no ready callback has been stored yet: the promise is
      left unsettled, with nothing left that could settle it. */
  method FirstIpAfterEarlyMatch(table: seq<Alias>, sender: string) returns (m: MulticastDns)
    ensures |m.found| == 1 && m.found[0].ip == sender
    ensures m.timer.None? && m.readyCallback.None? && m.readyCalls == []
    ensures PromiseOutcome(m.readyCalls).None?
  {
    var defaults := NewDefaultOptions();
    m := new MulticastDns(defaults, Some(NoUserOptions.(find := Some("cam"))));
    m.FindFirstIp(table);
    var answer := Record("cam1", None, None);
    assert "cam" <= answer.name;
    MatchesIff("cam", answer.name);
    OneMatchingAnswer(m.State(), m.Settings(sender), answer);
    m.OnMessage(Some(Packet(Some([answer]), None)), sender);
  }

  /** Later packets cannot settle it either: with no stored callback they
      call nobody back. */
  method LaterPacketsNeverSettle(m: MulticastDns, decoded: Option<Packet>, sender: string)
    requires m.readyCallback.None? && PromiseOutcome(m.readyCalls).None?
    modifies m
    ensures m.readyCallback.None? && PromiseOutcome(m.readyCalls).None?
  {
    if decoded.Some? {
      NoEarlyCallbackWithoutStoredOne(m.State(), m.Settings(sender), decoded.value);
    }
    m.OnMessage(decoded, sender);
  }

  /** A new entry is named after the first record of its section, even
      when that record did not match. */
  lemma SectionHeadNamesEntry(sender: string)
    ensures var ctx := Ctx(Some("cam"), NoFilter, None, true, false, true, None, sender);
      var p := Packet(Some([Record("_svc", None, None), Record("cam1", None, None)]), None);
      PacketEffect(Collected([], [], None, [], [], []), ctx, p).found == [Entry(sender, "answer", "_svc", map[])]
  {
    var ctx := Ctx(Some("cam"), NoFilter, None, true, false, true, None, sender);
    var qa := [Record("_svc", None, None), Record("cam1", None, None)];
    var c0 := Collected([], [], None, [], [], []);
    assert !("cam" <= qa[0].name) by {
      assert qa[0].name[0] == '_';
    }
    MatchesIff("cam", qa[0].name);
    assert SectionUpTo(c0, ctx, qa, "answer", 0) == c0;
    assert SectionUpTo(c0, ctx, qa, "answer", 1) == c0;
    assert "cam" <= qa[1].name;
    MatchesIff("cam", qa[1].name);
    assert IpIndex([], sender).None?;
    assert NewEntry(ctx, "answer", "_svc", qa[1]) == Entry(sender, "answer", "_svc", map[]);
  }

  /** With an entry hook, the found list stays empty, so two packets from
      the same address both reach the hook as new entries. */
  lemma HookSeesRepeatedAddress(sender: string)
    ensures var ctx := Ctx(Some("*"), NoFilter, Some(7), false, false, true, None, sender);
      var p := Packet(Some([Record("cam1", None, None)]), None);
      var r := PacketEffect(PacketEffect(Collected([], [], None, [], [], []), ctx, p), ctx, p);
      r.found == [] && |r.entryCalls| == 2 && r.entryCalls[0].entry.ip == r.entryCalls[1].entry.ip == sender
  {
    var ctx := Ctx(Some("*"), NoFilter, Some(7), false, false, true, None, sender);
    var a := Record("cam1", None, None);
    var c0 := Collected([], [], None, [], [], []);
    var e := NewEntry(ctx, "answer", "cam1", a);
    assert SectionUpTo(c0, ctx, [a], "answer", 0) == c0;
    var c1 := c0.(entryCalls := [EntryCall(7, e)]);
    assert Visit(c0, ctx, "answer", "cam1", a) == c1;
    assert SectionUpTo(c1, ctx, [a], "answer", 0) == c1;
    assert Visit(c1, ctx, "answer", "cam1", a) == c1.(entryCalls := [EntryCall(7, e), EntryCall(7, e)]);
  }

  /** Three TXT records named `a`, with data `one`, `two`, `three`. */
  function TxtRun(): seq<Record> {
    [Record("a", Some("TXT"), Some("one")), Record("a", Some("TXT"), Some("two")),
     Record("a", Some("TXT"), Some("three"))]
  }

  /** All three records match `*`. */
  lemma TxtRunMatches()
    ensures Matching("*", TxtRun()) == TxtRun()
  {
    var qa := TxtRun();
    assert qa[..0] == [] && qa[..3] == qa;
    MatchingSnoc("*", qa, 1);
    MatchingSnoc("*", qa, 2);
    MatchingSnoc("*", qa, 3);
  }

  /** All three records are of type TXT and carry data. */
  lemma TxtRunTypesAndData()
    ensures OfType(TxtRun(), "TXT") == TxtRun()
    ensures DataOf(TxtRun()) == ["one", "two", "three"]
  {
    var qa := TxtRun();
    assert qa[..1][..0] == [] && qa[..2][..1] == qa[..1] && qa[..|qa| - 1] == qa[..2];
    assert OfType(qa[..1], "TXT") == qa[..1] && DataOf(qa[..1]) == ["one"];
    assert OfType(qa[..2], "TXT") == qa[..2] && DataOf(qa[..2]) == ["one", "two"];
  }

  /** Three TXT records from one address not yet found: the latest data is
      kept, but the `dataa` list keeps only the first value. */
  lemma DataListKeepsFirstValue(c: Collected, sender: string)
    requires c.found == []
    ensures var ctx := Ctx(Some("*"), NoFilter, None, true, false, true, None, sender);
      var r := PacketEffect(c, ctx, Packet(Some(TxtRun()), None));
      |r.found| == 1 && "TXT" in r.found[0].details &&
      r.found[0].details["TXT"].data == Some("three") && r.found[0].details["TXT"].dataa == Some(["one"])
  {
    var ctx := Ctx(Some("*"), NoFilter, None, true, false, true, None, sender);
    var qa := TxtRun();
    var p := Packet(Some(qa), None);
    TxtRunMatches();
    TxtRunTypesAndData();
    assert PacketRecords(ctx, p) == qa + [];
    assert qa + [] == qa;
    NewSenderEntry(c, ctx, p);
    var base := Entry(sender, "answer", "a", map[]);
    var e := AddAll(base, true, qa);
    assert [] + [e] == [e];
    DetailsArePerType(base, true, qa, "TXT");
    AccumulateData(qa);
  }
}
