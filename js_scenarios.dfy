/** Concrete runs of the JavaScript client, where it differs from the
    TypeScript one: the timeout rule, copied default arrays, matching
    without a wildcard, and the early exit without a callback. */
module JsScenarios {
  import opened MdnsCommon
  import opened JsValues
  import opened JsOptions
  import opened JsCollector
  import opened JsDiscovery
  import Ts = TsCollector

  /** `setOptions()` with no options succeeds; it keeps no find pattern,
      and so the timeout is 0. */
  lemma DefaultTimeout()
    ensures Configure(Undefined).Ok?
    ensures Get(Configure(Undefined).value, "timeout") == Ok(Num(0))
    ensures Get(Configure(Undefined).value, "find") == Ok(Undefined)
  {
    ConfigureFailsIff(Undefined);
    ConfiguredTimeout(Undefined);
    NotADefaultKey("find");
    ConfiguredOtherProperty(Undefined, "find");
  }

  /** Without options the plain defaults are installed. */
  lemma DefaultPlainValues()
    ensures Configure(Undefined).Ok?
    ensures var o := Configure(Undefined).value;
      Get(o, "port") == Ok(Num(5353)) && Get(o, "ip") == Ok(Str("224.0.0.251")) &&
      Get(o, "multicastTTL") == Ok(Num(64))
  {
    ConfigureFailsIff(Undefined);
    ConfiguredPlainProperty(Undefined, 1);
    ConfiguredPlainProperty(Undefined, 2);
    ConfiguredPlainProperty(Undefined, 10);
  }

  /** Without options the interface list is a fresh empty array and the
      question is the default one, with an empty name. */
  lemma DefaultListAndQuestion()
    ensures Configure(Undefined).Ok?
    ensures var o := Configure(Undefined).value;
      Get(o, "interfaces") == Ok(Arr([], map[])) &&
      Get(o, "q").Ok? && Get(Get(o, "q").value, "name") == Ok(Str("")) &&
      Get(Get(o, "q").value, "type") == Ok(Str("PTR"))
  {
    ConfigureFailsIff(Undefined);
    ConfiguredInterfaces(Undefined);
    ConfiguredQuestion(Undefined);
  }

  /** Options given as an array, `new MulticastDNS([])`: the array is used
      as the options object, and `opts.find` reads the inherited
      `Array.prototype.find`, which is truthy -- so the timeout of 4
      seconds stays although no find pattern was given. */
  lemma ArrayOptionsKeepTimeout()
    ensures Configure(Arr([], map[])).Ok?
    ensures var o := Configure(Arr([], map[])).value;
      Get(o, "timeout") == Ok(Num(4)) && Get(o, "find") == Ok(Builtin("find"))
  {
    var opts := Arr([], map[]);
    assert Get(opts, "q") == Ok(Undefined);
    ConfigureFailsIff(opts);
    ConfiguredTimeout(opts);
    NotADefaultKey("find");
    ConfiguredOtherProperty(opts, "find");
  }

  /** With a find pattern the default timeout of 4 seconds stays; `name`
      fills the empty question name and is itself kept. */
  lemma FindKeepsTimeout(find: string, name: string)
    requires find != "" && name != ""
    ensures var opts := Obj(map["find" := Str(find), "name" := Str(name)]);
      Configure(opts).Ok? &&
      Get(Configure(opts).value, "timeout") == Ok(Num(4)) &&
      Get(Configure(opts).value, "name") == Ok(Str(name)) &&
      Get(Configure(opts).value, "q").Ok? &&
      Get(Get(Configure(opts).value, "q").value, "name") == Ok(Str(name))
  {
    var opts := Obj(map["find" := Str(find), "name" := Str(name)]);
    assert Get(opts, "q") == Ok(Undefined);
    ConfigureFailsIff(opts);
    ConfiguredTimeout(opts);
    ConfiguredQuestion(opts);
    NotADefaultKey("name");
    ConfiguredOtherProperty(opts, "name");
  }

  /** `new MulticastDNS().run(callback)`: the callback is stored, but as
      neither a find pattern nor a timeout was given the timeout is 0 and
      no timer is armed, so nothing will ever call it. */
  method RunWithoutFindArmsNoTimer(table: seq<Alias>) returns (m: MulticastDns)
    ensures m.readyCallback == Some(7) && !m.timer
    ensures m.clients == Opened(0, Texts(UsableAddresses(table)))
  {
    DefaultTimeout();
    DefaultListAndQuestion();
    m := new MulticastDns(Undefined);
    InterfacesChosen(m.options, table);
    var r := m.Run(CallbackArg(7), None, table);
  }

  /** With an empty (copied) interface list, `getInterfaces` installs
      exactly the usable addresses and `run` accepts them. */
  lemma InterfacesChosen(options: JsValue, table: seq<Alias>)
    requires HoldsProps(options) && Get(options, "interfaces") == Ok(Arr([], map[]))
    ensures WithInterfaces(options, table).Ok?
    ensures HoldsProps(WithInterfaces(options, table).value)
    ensures Get(WithInterfaces(options, table).value, "interfaces") == Ok(Arr(Texts(UsableAddresses(table)), map[]))
  {
    if UsableAddresses(table) == [] {
      assert Texts([]) == [];
    } else {
      GetAfterSet(options, "interfaces", Arr([] + Texts(UsableAddresses(table)), map[]), "interfaces");
      assert [] + Texts(UsableAddresses(table)) == Texts(UsableAddresses(table));
    }
  }

  /** Two clients built without options: the addresses the first one
      collects go into its own copy of the default list; the second starts
      from an empty one again. */
  method FreshInterfacesPerInstance(table: seq<Alias>) returns (a: MulticastDns, b: MulticastDns)
    ensures Get(a.options, "interfaces") == Ok(Arr(Texts(UsableAddresses(table)), map[]))
    ensures Get(b.options, "interfaces") == Ok(Arr([], map[]))
  {
    DefaultListAndQuestion();
    a := new MulticastDns(Undefined);
    InterfacesChosen(a.options, table);
    var r := a.GetInterfaces(table);
    b := new MulticastDns(Undefined);
  }

  /** A fresh collected state. */
  function Empty(): Collected {
    Collected([], [], true, [], [], false)
  }

  /** `*` is no wildcard here: an answer named `printer.local` is ignored,
      where the TypeScript collector adds an entry for it. */
  lemma StarIsNoWildcard(sender: string)
    ensures var p := Packet(Some([Record("printer.local", None, None)]), None);
      PacketEffect(Empty(), Ctx(Str("*"), NoFilter, false, None, sender), p) == Empty() &&
      |Ts.PacketEffect(Ts.Collected([], [], None, [], [], []),
                       Ts.Ctx(Some("*"), NoFilter, None, false, false, true, None, sender), p).found| == 1
  {
    var a := Record("printer.local", None, None);
    var p := Packet(Some([a]), None);
    MatchesIff(Str("*"), a.name);
    PacketOutcome(Empty(), Ctx(Str("*"), NoFilter, false, None, sender), p);
    var tc := Ts.Collected([], [], None, [], [], []);
    var tctx := Ts.Ctx(Some("*"), NoFilter, None, false, false, true, None, sender);
    assert Ts.IpIndex([], sender).None?;
    assert Ts.Visit(tc, tctx, "answer", a.name, a).found == [Ts.NewEntry(tctx, "answer", a.name, a)];
    assert Ts.SectionUpTo(tc, tctx, [a], "answer", 1) == Ts.Visit(tc, tctx, "answer", a.name, a);
  }

  /** Under `returnOnFirstFound` without a stored callback, the first entry
      is pushed and the client closed, and then the call of the missing
      callback throws. */
  lemma EarlyExitWithoutCallbackThrows(sender: string, clients: seq<Option<Socket<JsValue>>>)
    ensures var c := Collected([], clients, true, [], [], false);
      var p := Packet(Some([Record("", None, None), Record("cam1._http", None, None)]), None);
      var c2 := PacketEffect(c, Ctx(Str("cam"), NoFilter, true, None, sender), p);
      c2.threw && c2.found == [JsEntry(sender, "cam1._http")] && !c2.timer &&
      c2.clients == Cleared(clients) && c2.closedSockets == Live(clients) && c2.readyCalls == []
  {
    var c := Collected([], clients, true, [], [], false);
    var qa := [Record("", None, None), Record("cam1._http", None, None)];
    var ctx := Ctx(Str("cam"), NoFilter, true, None, sender);
    MatchesIff(Str("cam"), "");
    MatchesIff(Str("cam"), "cam1._http");
    assert "cam" <= "cam1._http";
    assert FirstMatch(Str("cam"), qa) == Some(1);
    PacketOutcome(c, ctx, Packet(Some(qa), None));
    assert !Known([], sender);
    assert Outcome(c, ctx, "", qa) == Admit(c, ctx, "cam1._http");
  }
}
