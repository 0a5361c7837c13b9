/** The `MulticastDNS` class of the TypeScript client: its options record,
    the instance state its methods update in place, and the collector
    `onPacket` runs, proved against the pure fold of module TsCollector. */
module TsDiscovery {
  import opened MdnsCommon
  import opened TsCollector

  // ---------------------------------------------------------------------
  // Options

  /** The DNS question of the options record. It is an object the options
      record points to, so two records can share it. */
  class Question {
    var name: string
    var qtype: string

    constructor (name: string, qtype: string)
      ensures this.name == name && this.qtype == qtype
    {
      this.name := name;
      this.qtype := qtype;
    }
  }

  /** The `interfaces` array of the options record, shared in the same way. */
  class AddressList {
    var items: seq<string>

    constructor (items: seq<string>)
      ensures this.items == items
    {
      this.items := items;
    }
  }

  /** `MulticastDNSOptions`; `timeout` is in seconds. */
  datatype Options = Options(name: string, port: int, ip: string, reuseAddress: bool, interfaces: AddressList,
                             socketType: string, question: Question, timeout: int, broadcast: bool,
                             multicast: bool, multicastTTL: int, ttl: int, noQuestions: bool, details: bool,
                             returnOnFirstFound: bool, find: Option<string>)

  /** The values of `DEFAULT_OPTIONS` as the module initialises them. */
  ghost predicate IsDefaultOptions(d: Options)
    reads d.question, d.interfaces
  {
    d.broadcast && d.details && d.interfaces.items == [] && d.ip == "224.0.0.251" && d.multicast &&
    d.multicastTTL == 64 && d.noQuestions && d.question.name == "" && d.question.qtype == "PTR" &&
    d.reuseAddress && d.timeout == 4 && d.ttl == 64 && d.socketType == "udp4" && d.name == "" &&
    d.port == 5353 && !d.returnOnFirstFound && d.find.None?
  }

  /** The module-level `DEFAULT_OPTIONS`, with its own question and
      interface array. */
  method NewDefaultOptions() returns (d: Options)
    ensures fresh(d.question) && fresh(d.interfaces) && d.question != d.interfaces as object
    ensures IsDefaultOptions(d)
  {
    var q := new Question("", "PTR");
    var ifaces := new AddressList([]);
    d := Options("", 5353, "224.0.0.251", true, ifaces, "udp4", q, 4, true, true, 64, 64, true, true, false, None);
  }

  /** `Partial<MulticastDNSOptions>`: each field may be left out. */
  datatype UserOptions = UserOptions(name: Option<string>, port: Option<int>, ip: Option<string>,
                                     reuseAddress: Option<bool>, interfaces: Option<AddressList>,
                                     socketType: Option<string>, question: Option<Question>,
                                     timeout: Option<int>, broadcast: Option<bool>, multicast: Option<bool>,
                                     multicastTTL: Option<int>, ttl: Option<int>, noQuestions: Option<bool>,
                                     details: Option<bool>, returnOnFirstFound: Option<bool>,
                                     find: Option<string>)

  const NoUserOptions: UserOptions :=
    UserOptions(None, None, None, None, None, None, None, None, None, None, None, None, None, None, None, None)

  /** `Object.assign(copy, options)`: every field the caller gave replaces
      the default; objects are copied by reference. Overlaying an options
      object that gives nothing leaves the defaults. */
  function Assign(d: Options, u: UserOptions): (r: Options)
    ensures u == NoUserOptions ==> r == d
    ensures u.find.None? ==> r.find == d.find
    ensures u.find.Some? ==> r.find == u.find
  {
    Options(u.name.GetOr(d.name), u.port.GetOr(d.port), u.ip.GetOr(d.ip), u.reuseAddress.GetOr(d.reuseAddress),
            u.interfaces.GetOr(d.interfaces), u.socketType.GetOr(d.socketType), u.question.GetOr(d.question),
            u.timeout.GetOr(d.timeout), u.broadcast.GetOr(d.broadcast), u.multicast.GetOr(d.multicast),
            u.multicastTTL.GetOr(d.multicastTTL), u.ttl.GetOr(d.ttl), u.noQuestions.GetOr(d.noQuestions),
            u.details.GetOr(d.details), u.returnOnFirstFound.GetOr(d.returnOnFirstFound),
            if u.find.Some? then u.find else d.find)
  }

  /** The record `setOptions` installs, before the shorthand: a shallow
      copy of the defaults, overlaid with the caller's options if any. With
      no options, or an empty options object, it is the defaults. */
  function Merged(d: Options, user: Option<UserOptions>): (r: Options)
    ensures user.None? || user == Some(NoUserOptions) ==> r == d
  {
    match user
    case None => d
    case Some(u) => Assign(d, u)
  }

  /** A field the caller did not give keeps the default's value; in
      particular the question and interface objects are the default's own,
      not copies. */
  lemma MergedSharesDefaultObjects(d: Options, user: Option<UserOptions>)
    ensures (user.None? || user.value.question.None?) ==> Merged(d, user).question == d.question
    ensures (user.None? || user.value.interfaces.None?) ==> Merged(d, user).interfaces == d.interfaces
    ensures (user.Some? && user.value.question.Some?) ==> Merged(d, user).question == user.value.question.value
  {
  }

  // ---------------------------------------------------------------------
  // Outside effects and arguments

  /** A function handed to `on(...)`: its identity, and the verdict it
      returns when installed as a filter and called with `{ip}`. */
  datatype Listener = Listener(id: HandlerId, verdict: string -> bool)

  /** How the promise of `findFirstIP` settles. */
  datatype Settlement = Resolved(ip: string) | Rejected(reason: string)

  /** The callback `findFirstIP` passes to `run`: no results reject with
      "No response", otherwise the promise resolves with the first
      result's address. */
  function FirstIpSettlement(results: seq<Entry>): (s: Settlement)
    ensures s.Rejected? <==> results == []
    ensures s.Rejected? ==> s.reason == "No response"
    ensures s.Resolved? ==> s.ip == results[0].ip
  {
    if |results| == 0 then Rejected("No response") else Resolved(results[0].ip)
  }

  /** How the `findFirstIP` promise stands after the given ready calls: it
      settles on the first call of its own callback and never again. */
  function PromiseOutcome(calls: seq<ReadyCall>): (r: Option<Settlement>)
    ensures r.None? <==> forall i :: 0 <= i < |calls| ==> calls[i].callback != FirstIpPromise
    ensures r.Some? ==> exists i :: (0 <= i < |calls| && calls[i].callback == FirstIpPromise &&
      r.value == FirstIpSettlement(calls[i].results) &&
      forall j :: 0 <= j < i ==> calls[j].callback != FirstIpPromise)
  {
    if calls == [] then None
    else if calls[0].callback == FirstIpPromise then Some(FirstIpSettlement(calls[0].results))
    else
      var r := PromiseOutcome(calls[1..]);
      assert forall j :: 1 <= j < |calls| ==> calls[j] == calls[1..][j - 1];
      if r.None? then r
      else
        var i :| 0 <= i < |calls[1..]| && calls[1..][i].callback == FirstIpPromise &&
          r.value == FirstIpSettlement(calls[1..][i].results) &&
          forall j :: 0 <= j < i ==> calls[1..][j].callback != FirstIpPromise;
        assert calls[i + 1] == calls[1..][i];
        r
  }

  // ---------------------------------------------------------------------
  // The client

  class MulticastDns {
    var options: Options
    var clients: seq<Option<Socket<string>>>
    var found: seq<Entry>
    var onIPs: Option<seq<IpHandler>>
    var timer: Option<Timer>
    var validFilter: Filter
    var onEntry: Option<HandlerId>
    var readyCallback: Option<Callback>
    /** What the client did outside itself, oldest first. */
    var closedSockets: seq<Socket<string>>
    var entryCalls: seq<EntryCall>
    var readyCalls: seq<ReadyCall>
    var ipCalls: seq<IpCall>

    /** The part of the state `onPacket` may change. */
    function State(): Collected
      reads this
    {
      Collected(found, clients, timer, closedSockets, entryCalls, readyCalls)
    }

    /** The settings `onPacket` reads for a packet from `sender`. */
    function Settings(sender: string): Ctx
      reads this
    {
      Ctx(options.find, validFilter, onEntry, options.details, options.returnOnFirstFound, options.noQuestions,
          readyCallback, sender)
    }

    /** The fields set up by `on`, `onIP` and `setFilter`, and the onIP
        handler calls. */
    ghost function Setup(): (Options, Filter, Option<HandlerId>, Option<Callback>, Option<seq<IpHandler>>, seq<IpCall>)
      reads this
    {
      (options, validFilter, onEntry, readyCallback, onIPs, ipCalls)
    }

    /** `new MulticastDNS(options?)`: nothing found, no clients, no timer,
        no hooks, and the options `setOptions` builds. */
    constructor (defaults: Options, user: Option<UserOptions>)
      modifies Merged(defaults, user).question
      ensures options == Merged(defaults, user)
      ensures var q := options.question;
        q.qtype == old(q.qtype) &&
        q.name == (if user.Some? && old(q.name) == "" && options.name != "" then options.name else old(q.name))
      ensures State() == Collected([], [], None, [], [], [])
      ensures validFilter.NoFilter? && onEntry.None? && readyCallback.None? && onIPs.None? && ipCalls == []
    {
      options := defaults;
      clients := [];
      found := [];
      onIPs := None;
      timer := None;
      validFilter := NoFilter;
      onEntry := None;
      readyCallback := None;
      closedSockets := [];
      entryCalls := [];
      readyCalls := [];
      ipCalls := [];
      new;
      SetOptions(defaults, user);
    }

    /** `setOptions`: a shallow copy of the defaults overlaid with the
        caller's options; only when options were passed, an empty question
        name takes a non-empty `name` -- written into the question object,
        which may be the shared default one. */
    method SetOptions(defaults: Options, user: Option<UserOptions>)
      modifies this, Merged(defaults, user).question
      ensures options == Merged(defaults, user)
      ensures var q := options.question;
        q.qtype == old(q.qtype) &&
        q.name == (if user.Some? && old(q.name) == "" && options.name != "" then options.name else old(q.name))
      ensures State() == old(State())
      ensures validFilter == old(validFilter) && onEntry == old(onEntry) && readyCallback == old(readyCallback)
      ensures onIPs == old(onIPs) && ipCalls == old(ipCalls)
    {
      var passed := Merged(defaults, user);
      if user.Some? {
        if |passed.question.name| == 0 && |passed.name| > 0 {
          passed.question.name := passed.name;
        }
      }
      options := passed;
    }

    /** `getInterfaces`: a non-empty list is kept; otherwise every usable
        address of the table is appended, in enumeration order. */
    method GetInterfaces(table: seq<Alias>)
      modifies options.interfaces
      ensures options.interfaces.items ==
        (if old(options.interfaces.items) == [] then UsableAddresses(table) else old(options.interfaces.items))
    {
      var list := options.interfaces;
      if |list.items| > 0 {
        return;
      }
      var i := 0;
      while i < |table|
        invariant 0 <= i <= |table|
        invariant list.items == UsableAddresses(table[..i])
      {
        var alias := table[i];
        assert table[..i + 1][..i] == table[..i] && table[..i + 1][i] == alias;
        assert UsableAddresses(table[..i + 1]) ==
          UsableAddresses(table[..i]) + (if Usable(alias) then [alias.address] else []);
        if alias.family == "IPv4" && alias.address != "127.0.0.1" && !alias.internal {
          list.items := list.items + [alias.address];
        } else {
          assert UsableAddresses(table[..i]) + [] == UsableAddresses(table[..i]);
        }
        i := i + 1;
      }
      assert table[..|table|] == table;
    }

    /** `prepare(ip)`: one more client slot, holding a socket bound to `ip`. */
    method Prepare(ip: string)
      modifies this
      ensures clients == old(clients) + [Some(Socket(ip, |old(clients)|))]
      ensures State() == old(State()).(clients := clients)
      ensures Setup() == old(Setup())
    {
      clients := clients + [Some(Socket(ip, |clients|))];
    }

    /** `interfaces.forEach(prepare)`: one client per address, in order. */
    method PrepareEach(addrs: seq<string>)
      modifies this
      ensures clients == old(clients) + Opened(|old(clients)|, addrs)
      ensures found == old(found) && timer == old(timer) && closedSockets == old(closedSockets)
      ensures entryCalls == old(entryCalls) && readyCalls == old(readyCalls) && Setup() == old(Setup())
    {
      var start := |clients|;
      var i := 0;
      while i < |addrs|
        invariant 0 <= i <= |addrs|
        invariant clients == old(clients) + Opened(start, addrs[..i])
        invariant found == old(found) && timer == old(timer) && closedSockets == old(closedSockets)
        invariant entryCalls == old(entryCalls) && readyCalls == old(readyCalls)
        invariant options == old(options) && validFilter == old(validFilter) && onEntry == old(onEntry)
        invariant readyCallback == old(readyCallback) && onIPs == old(onIPs) && ipCalls == old(ipCalls)
      {
        assert addrs[..i + 1][..i] == addrs[..i];
        OpenedSockets(start, addrs[..i]);
        Prepare(addrs[i]);
        i := i + 1;
      }
      assert addrs[..|addrs|] == addrs;
    }

    /** `run(readyCallback?)`: choose the interfaces, open one client per
        interface, and arm the completion timer -- always, whatever the
        timeout. The callback is kept only by the timer's closure. */
    method Run(table: seq<Alias>, callback: Option<Callback>)
      modifies this, options.interfaces
      ensures options == old(options)
      ensures options.interfaces.items ==
        (if old(options.interfaces.items) == [] then UsableAddresses(table) else old(options.interfaces.items))
      ensures clients == old(clients) + Opened(|old(clients)|, options.interfaces.items)
      ensures timer == Some(Timer(callback))
      ensures State() == old(State()).(clients := clients, timer := timer)
      ensures Setup() == old(Setup())
    {
      GetInterfaces(table);
      PrepareEach(options.interfaces.items);
      timer := Some(Timer(callback));
    }

    /** `close()`: clear the timer, close every open client and set every
        slot to undefined. */
    method Close()
      modifies this
      ensures State() == CloseAll(old(State()))
      ensures options == old(options) && Setup() == old(Setup())
    {
      timer := None;
      var i := 0;
      while i < |clients|
        invariant 0 <= i <= |clients| == |old(clients)|
        invariant forall j :: 0 <= j < i ==> clients[j] == None
        invariant forall j :: i <= j < |clients| ==> clients[j] == old(clients)[j]
        invariant closedSockets == old(closedSockets) + Live(old(clients)[..i])
        invariant timer.None? && found == old(found) && entryCalls == old(entryCalls) && readyCalls == old(readyCalls)
        invariant options == old(options) && validFilter == old(validFilter) && onEntry == old(onEntry)
        invariant readyCallback == old(readyCallback) && onIPs == old(onIPs) && ipCalls == old(ipCalls)
      {
        assert old(clients)[..i + 1][..i] == old(clients)[..i];
        if clients[i].Some? {
          closedSockets := closedSockets + [clients[i].value];
        }
        clients := clients[i := None];
        i := i + 1;
      }
      assert old(clients)[..|clients|] == old(clients);
      assert clients == Cleared(old(clients));
    }

    /** The completion timer fires: close everything, then -- if `run` was
        given a callback -- store it and call it with the found list. */
    method TimerFires()
      requires timer.Some?
      modifies this
      ensures var cb := old(timer.value.callback);
        var closed := CloseAll(old(State()));
        State() == (if cb.Some? then closed.(readyCalls := closed.readyCalls + [ReadyCall(cb.value, found)]) else closed) &&
        readyCallback == (if cb.Some? then cb else old(readyCallback))
      ensures options == old(options) && validFilter == old(validFilter) && onEntry == old(onEntry)
      ensures onIPs == old(onIPs) && ipCalls == old(ipCalls)
    {
      var cb := timer.value.callback;
      Close();
      if cb.Some? {
        readyCallback := cb;
        readyCalls := readyCalls + [ReadyCall(cb.value, found)];
      }
    }

    /** `findFirstIP()`: switch on `returnOnFirstFound` and run with the
        callback that settles the promise. */
    method FindFirstIp(table: seq<Alias>)
      modifies this, options.interfaces
      ensures options == old(options).(returnOnFirstFound := true)
      ensures options.interfaces.items ==
        (if old(options.interfaces.items) == [] then UsableAddresses(table) else old(options.interfaces.items))
      ensures clients == old(clients) + Opened(|old(clients)|, options.interfaces.items)
      ensures timer == Some(Timer(Some(FirstIpPromise)))
      ensures State() == old(State()).(clients := clients, timer := timer)
      ensures validFilter == old(validFilter) && onEntry == old(onEntry) && readyCallback == old(readyCallback)
      ensures onIPs == old(onIPs) && ipCalls == old(ipCalls)
    {
      options := options.(returnOnFirstFound := true);
      Run(table, Some(FirstIpPromise));
    }

    /** `on(name, fn)` for the events it keeps in fields: `filter` installs
        `fn` as the filter, `entry` as the entry hook; other names change
        nothing. */
    method On(name: string, fn: Listener)
      requires name != "packet" && name != "message"
      modifies this
      ensures validFilter == (if name == "filter" then Predicate(fn.verdict) else old(validFilter))
      ensures onEntry == (if name == "entry" then Some(fn.id) else old(onEntry))
      ensures State() == old(State()) && options == old(options) && readyCallback == old(readyCallback)
      ensures onIPs == old(onIPs) && ipCalls == old(ipCalls)
    {
      if name == "filter" {
        validFilter := Predicate(fn.verdict);
      } else if name == "entry" {
        onEntry := Some(fn.id);
      }
    }

    /** `setFilter(propName, arr)`: a function becomes the filter; anything
        else installs the exclusion test on that property. */
    method SetFilter(arg: FilterArg, list: seq<PropBag>)
      modifies this
      ensures validFilter == (match arg case FunctionArg(f) => Predicate(f) case PropertyArg(p) => Exclusion(p, list))
      ensures State() == old(State()) && options == old(options) && onEntry == old(onEntry)
      ensures readyCallback == old(readyCallback) && onIPs == old(onIPs) && ipCalls == old(ipCalls)
    {
      match arg
      case FunctionArg(f) => validFilter := Predicate(f);
      case PropertyArg(p) => validFilter := Exclusion(p, list);
    }

    /** `onIP(ip, ..., fn)`: append one registration per leading argument;
        a call with fewer than two arguments or without a function last
        changes nothing. */
    method OnIp(args: seq<OnIpArg>)
      modifies this
      ensures onIPs == (match Registrations(args)
                        case None => old(onIPs)
                        case Some(rs) => Some(old(onIPs).GetOr([]) + rs))
      ensures State() == old(State()) && options == old(options) && validFilter == old(validFilter)
      ensures onEntry == old(onEntry) && readyCallback == old(readyCallback) && ipCalls == old(ipCalls)
    {
      if |args| < 2 {
        return;
      }
      var fn := args[|args| - 1];
      if !fn.HandlerArg? {
        return;
      }
      if onIPs.None? {
        onIPs := Some([]);
      }
      var rs := Registrations(args).value;
      assert old(onIPs).GetOr([]) + rs[..0] == onIPs.value;
      var i := 0;
      while i < |args| - 1
        invariant 0 <= i <= |args| - 1
        invariant onIPs == Some(old(onIPs).GetOr([]) + rs[..i])
        invariant State() == old(State()) && options == old(options) && validFilter == old(validFilter)
        invariant onEntry == old(onEntry) && readyCallback == old(readyCallback) && ipCalls == old(ipCalls)
      {
        assert rs[..i + 1] == rs[..i] + [IpHandler(args[i], fn.handler)];
        assert old(onIPs).GetOr([]) + rs[..i + 1] == onIPs.value + [IpHandler(args[i], fn.handler)];
        onIPs := Some(onIPs.value + [IpHandler(args[i], fn.handler)]);
        i := i + 1;
      }
      assert rs[..|args| - 1] == rs;
    }

    /** One iteration of `doIt`'s `forEach`. */
    method VisitRecord(a: Record, head: string, kind: string, sender: string)
      requires options.find.Some?
      modifies this
      ensures State() == Visit(old(State()), old(Settings(sender)), kind, head, a)
      ensures Setup() == old(Setup())
    {
      if !Matches(options.find.value, a.name) || !Accepts(validFilter, sender) {
        return;
      }
      var idx := IpIndex(found, sender);
      if idx.Some? {
        found := found[idx.value := AddDetails(found[idx.value], options.details, a)];
        return;
      }
      var e := NewEntry(Settings(sender), kind, head, a);
      if onEntry.Some? {
        entryCalls := entryCalls + [EntryCall(onEntry.value, e)];
      } else {
        found := found + [e];
      }
      if options.returnOnFirstFound {
        Close();
        if readyCallback.Some? {
          readyCalls := readyCalls + [ReadyCall(readyCallback.value, found)];
        }
      }
    }

    /** `doIt(qa, type)`: every record of the section, in order. */
    method DoIt(qa: seq<Record>, kind: string, sender: string)
      requires options.find.Some?
      modifies this
      ensures State() == SectionUpTo(old(State()), old(Settings(sender)), qa, kind, |qa|)
      ensures Setup() == old(Setup())
    {
      var i := 0;
      while i < |qa|
        invariant 0 <= i <= |qa|
        invariant Setup() == old(Setup())
        invariant State() == SectionUpTo(old(State()), old(Settings(sender)), qa, kind, i)
      {
        VisitRecord(qa[i], qa[0].name, kind, sender);
        i := i + 1;
      }
    }

    /** `onPacket(packets, info)`: the collector of module TsCollector. */
    method OnPacket(p: Packet, sender: string)
      modifies this
      ensures State() == PacketEffect(old(State()), old(Settings(sender)), p)
      ensures Setup() == old(Setup())
    {
      if options.find.None? || p.answers.None? {
        return;
      }
      DoIt(p.answers.value, "answer", sender);
      if !options.noQuestions && p.questions.Some? {
        DoIt(p.questions.value, "query", sender);
      }
    }

    /** `onMessage(message, info)`: a message that does not decode is
        dropped; otherwise the packet is collected, then handed to the
        first `onIP` handler registered for the sender, if any. */
    method OnMessage(decoded: Option<Packet>, sender: string)
      modifies this
      ensures decoded.None? ==> State() == old(State()) && ipCalls == old(ipCalls)
      ensures decoded.Some? ==> State() == PacketEffect(old(State()), old(Settings(sender)), decoded.value)
      ensures decoded.Some? ==> (ipCalls == old(ipCalls) +
        (if onIPs.None? then [] else
         match HandlerFor(onIPs.value, sender)
         case None => []
         case Some(h) => [IpCall(h, decoded.value, sender)]))
      ensures options == old(options) && validFilter == old(validFilter) && onEntry == old(onEntry)
      ensures readyCallback == old(readyCallback) && onIPs == old(onIPs)
    {
      if decoded.None? {
        return;
      }
      OnPacket(decoded.value, sender);
      if onIPs.Some? {
        var h := HandlerFor(onIPs.value, sender);
        if h.Some? {
          ipCalls := ipCalls + [IpCall(h.value, decoded.value, sender)];
        }
      }
    }
  }
}
