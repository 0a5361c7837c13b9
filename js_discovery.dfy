/** The `MulticastDNS` prototype of the JavaScript client: the instance
    state its methods update in place, proved against the option fill of
    module JsOptions and the collector of module JsCollector. A method
    that can throw a TypeError returns a `Result`. */
module JsDiscovery {
  import opened MdnsCommon
  import opened JsValues
  import opened JsOptions
  import opened JsCollector

  /** The first argument of `run`: a function, or any other value, which is
      the timeout. */
  datatype RunArg = CallbackArg(cb: CallbackId) | TimeoutArg(timeout: JsValue)

  /** The addresses as the strings `getInterfaces` pushes. */
  function Texts(addrs: seq<string>): (r: seq<JsValue>)
    ensures |r| == |addrs| && forall i :: 0 <= i < |r| ==> r[i] == Str(addrs[i])
  {
    seq(|addrs|, i requires 0 <= i < |addrs| => Str(addrs[i]))
  }

  /** The options after `getInterfaces`: kept when `interfaces` is truthy
      with a truthy `length`; otherwise every usable address of the table
      is pushed onto it, which throws unless it is an array -- and only
      when there is something to push. */
  function WithInterfaces(options: JsValue, table: seq<Alias>): Result<JsValue>
    requires HoldsProps(options)
  {
    var ifaces := Get(options, "interfaces").value;
    var addrs := UsableAddresses(table);
    if Truthy(ifaces) && Truthy(Get(ifaces, "length").value) then Ok(options)
    else if addrs == [] then Ok(options)
    else if ifaces.Arr? then Set(options, "interfaces", Arr(ifaces.items + Texts(addrs), ifaces.props))
    else Failure(TypeError)
  }

  /** The options once `pushed` went onto their interface list, which
      pushing requires to be an array. */
  function PushedOnto(options: JsValue, pushed: seq<string>): (r: JsValue)
    requires HoldsProps(options)
    ensures HoldsProps(r)
  {
    var ifaces := Get(options, "interfaces").value;
    if pushed == [] || !ifaces.Arr? then options
    else Set(options, "interfaces", Arr(ifaces.items + Texts(pushed), ifaces.props)).value
  }

  /** One more push: the list read back is an array exactly when the
      original one was, and pushing onto it extends what was pushed. */
  lemma PushOne(options: JsValue, pushed: seq<string>, addr: string)
    requires HoldsProps(options)
    ensures var list := Get(PushedOnto(options, pushed), "interfaces").value;
      (list.Arr? <==> Get(options, "interfaces").value.Arr?) &&
      (list.Arr? ==>
         Set(PushedOnto(options, pushed), "interfaces", Arr(list.items + [Str(addr)], list.props)).value ==
         PushedOnto(options, pushed + [addr]))
  {
    var ifaces := Get(options, "interfaces").value;
    assert Texts(pushed + [addr]) == Texts(pushed) + [Str(addr)];
    if pushed != [] && ifaces.Arr? {
      var list := Arr(ifaces.items + Texts(pushed), ifaces.props);
      GetAfterSet(options, "interfaces", list, "interfaces");
      assert list.items + [Str(addr)] == ifaces.items + Texts(pushed + [addr]);
      SetTwice(options, "interfaces", list, Arr(list.items + [Str(addr)], list.props));
    } else if pushed == [] {
      assert pushed + [addr] == [addr] && Texts([addr]) == [Str(addr)];
    }
  }

  /** The timeout `run` goes by: its first argument, unless that is a
      function or `undefined`, in which case the `timeout` option. */
  function RunTimeout(first: RunArg, options: JsValue): JsValue
    requires HoldsProps(options)
  {
    match first
    case CallbackArg(_) => Get(options, "timeout").value
    case TimeoutArg(t) => if t.Undefined? then Get(options, "timeout").value else t
  }

  /** The callback `run` stores: a function in first place wins over the
      second argument. */
  function RunCallback(first: RunArg, second: Option<CallbackId>): Option<CallbackId> {
    match first
    case CallbackArg(f) => Some(f)
    case TimeoutArg(_) => second
  }

  class MulticastDns {
    var options: JsValue
    var clients: seq<Option<Socket<JsValue>>>
    var found: seq<JsEntry>
    /** Whether a timer is pending. */
    var timer: bool
    var readyCallback: Option<CallbackId>
    var validFilter: Filter
    var onIPs: Option<seq<IpHandler>>
    /** What the client did outside itself, oldest first. */
    var closedSockets: seq<Socket<JsValue>>
    var readyCalls: seq<JsReadyCall>
    var ipCalls: seq<IpCall>

    /** The options are an object, as `setOptions` leaves them. */
    ghost predicate Valid()
      reads this
    {
      HoldsProps(options)
    }

    /** The part of the state `onPacket` may change. */
    function State(): Collected
      reads this
    {
      Collected(found, clients, timer, closedSockets, readyCalls, false)
    }

    /** The settings `onPacket` reads for a packet from `sender`. */
    function Settings(sender: string): Ctx
      requires Valid()
      reads this
    {
      Ctx(Get(options, "find").value, validFilter, Truthy(Get(options, "returnOnFirstFound").value), readyCallback,
          sender)
    }

    /** The fields set up by `setOptions`, `on`, `onIP` and `setFilter`,
        and the onIP handler calls. */
    ghost function Setup(): (JsValue, Filter, Option<CallbackId>, Option<seq<IpHandler>>, seq<IpCall>)
      reads this
    {
      (options, validFilter, readyCallback, onIPs, ipCalls)
    }

    /** `new MulticastDNS(opts)`, for options `setOptions` accepts: nothing
        found, no clients, no timer, no filter, no callback. */
    constructor (opts: JsValue)
      requires Configure(opts).Ok?
      ensures options == Configure(opts).value && Valid()
      ensures State() == Collected([], [], false, [], [], false)
      ensures validFilter == NoFilter && readyCallback.None? && onIPs.None? && ipCalls == []
    {
      options := Obj(map[]);
      clients := [];
      found := [];
      timer := false;
      readyCallback := None;
      validFilter := NoFilter;
      onIPs := None;
      closedSockets := [];
      readyCalls := [];
      ipCalls := [];
      new;
      var r := SetOptions(opts);
    }

    /** `setOptions(opts)`: default the options and their question, apply
        the `name` shorthand, fill in the defaults, force the timeout to 0
        when neither `find` nor `timeout` was given, and install the
        result. A TypeError leaves the installed options as they were. */
    method SetOptions(opts: JsValue) returns (r: Result<()>)
      modifies this
      ensures r.Ok? <==> Configure(opts).Ok?
      ensures options == (if r.Ok? then Configure(opts).value else old(options))
      ensures r.Ok? ==> Valid()
      ensures State() == old(State()) && validFilter == old(validFilter) && readyCallback == old(readyCallback)
      ensures onIPs == old(onIPs) && ipCalls == old(ipCalls)
    {
      var o2 := Prepared(opts);
      if o2.Failure? {
        return Failure(TypeError);
      }
      var to := Get(o2.value, "timeout");
      if to.Failure? {
        return Failure(TypeError);
      }
      var o3 := CheckOptions(o2.value, DefaultFields);
      if o3.Failure? {
        return Failure(TypeError);
      }
      var find := Get(o3.value, "find");
      if find.Failure? {
        return Failure(TypeError);
      }
      assert Configure(opts) == if !Truthy(find.value) && !Truthy(to.value) then Set(o3.value, "timeout", Num(0)) else o3;
      var o4 := o3.value;
      if !Truthy(find.value) && !Truthy(to.value) {
        var s := Set(o4, "timeout", Num(0));
        if s.Failure? {
          return Failure(TypeError);
        }
        o4 := s.value;
      }
      options := o4;
      return Ok(());
    }

    /** `getInterfaces()`: keep a non-empty list, else push every usable
        address of the table, in enumeration order, onto it. */
    method GetInterfaces(table: seq<Alias>) returns (r: Result<()>)
      requires Valid()
      modifies this
      ensures r.Ok? <==> WithInterfaces(old(options), table).Ok?
      ensures options == (if r.Ok? then WithInterfaces(old(options), table).value else old(options)) && Valid()
      ensures State() == old(State()) && validFilter == old(validFilter) && readyCallback == old(readyCallback)
      ensures onIPs == old(onIPs) && ipCalls == old(ipCalls)
    {
      var ifaces := Get(options, "interfaces").value;
      if Truthy(ifaces) && Truthy(Get(ifaces, "length").value) {
        return Ok(());
      }
      var i := 0;
      while i < |table|
        invariant 0 <= i <= |table|
        invariant var pushed := UsableAddresses(table[..i]);
          (pushed != [] ==> ifaces.Arr?) && options == PushedOnto(old(options), pushed)
        invariant found == old(found) && clients == old(clients) && timer == old(timer)
        invariant closedSockets == old(closedSockets) && readyCalls == old(readyCalls)
        invariant validFilter == old(validFilter) && readyCallback == old(readyCallback)
        invariant onIPs == old(onIPs) && ipCalls == old(ipCalls)
      {
        var alias := table[i];
        assert table[..i + 1][..i] == table[..i] && table[..i + 1][i] == alias;
        assert UsableAddresses(table[..i + 1]) ==
          UsableAddresses(table[..i]) + (if Usable(alias) then [alias.address] else []);
        if alias.family == "IPv4" && alias.address != "127.0.0.1" && !alias.internal {
          PushOne(old(options), UsableAddresses(table[..i]), alias.address);
          var list := Get(options, "interfaces").value;
          if !list.Arr? {
            UsableAddressesMembers(table, alias.address);
            return Failure(TypeError);
          }
          options := Set(options, "interfaces", Arr(list.items + [Str(alias.address)], list.props)).value;
        } else {
          assert UsableAddresses(table[..i]) + [] == UsableAddresses(table[..i]);
        }
        i := i + 1;
      }
      assert table[..|table|] == table;
      return Ok(());
    }

    /** `prepare(ip)`: one more client slot, holding a socket bound to `ip`. */
    method Prepare(ip: JsValue)
      modifies this
      ensures clients == old(clients) + [Some(Socket(ip, |old(clients)|))]
      ensures State() == old(State()).(clients := clients)
      ensures Setup() == old(Setup())
    {
      clients := clients + [Some(Socket(ip, |clients|))];
    }

    /** `interfaces.forEach(prepare)`: one client per address, in order. */
    method PrepareEach(addrs: seq<JsValue>)
      modifies this
      ensures clients == old(clients) + Opened(|old(clients)|, addrs)
      ensures found == old(found) && timer == old(timer) && closedSockets == old(closedSockets)
      ensures readyCalls == old(readyCalls) && options == old(options) && validFilter == old(validFilter)
      ensures readyCallback == old(readyCallback) && onIPs == old(onIPs) && ipCalls == old(ipCalls)
    {
      var start := |clients|;
      var i := 0;
      while i < |addrs|
        invariant 0 <= i <= |addrs|
        invariant clients == old(clients) + Opened(start, addrs[..i])
        invariant found == old(found) && timer == old(timer) && closedSockets == old(closedSockets)
        invariant readyCalls == old(readyCalls) && options == old(options) && validFilter == old(validFilter)
        invariant readyCallback == old(readyCallback) && onIPs == old(onIPs) && ipCalls == old(ipCalls)
      {
        assert addrs[..i + 1][..i] == addrs[..i];
        OpenedSockets(start, addrs[..i]);
        Prepare(addrs[i]);
        i := i + 1;
      }
      assert addrs[..|addrs|] == addrs;
    }

    /** `run(timeout, readyCallback)`: choose the interfaces, open one client
        per interface, store the callback, and arm the timer only when the
        effective timeout is truthy. Interfaces that are not an array make
        it throw before anything is stored. */
    method Run(first: RunArg, second: Option<CallbackId>, table: seq<Alias>) returns (r: Result<()>)
      requires Valid()
      modifies this
      ensures Valid()
      ensures var chosen := WithInterfaces(old(options), table);
        options == (if chosen.Ok? then chosen.value else old(options)) &&
        (r.Ok? <==> chosen.Ok? && Get(chosen.value, "interfaces").value.Arr?)
      ensures r.Ok? ==>
        var addrs := Get(options, "interfaces").value.items;
        var cb := RunCallback(first, second);
        clients == old(clients) + Opened(|old(clients)|, addrs) &&
        readyCallback == (if cb.Some? then cb else old(readyCallback)) &&
        timer == (old(timer) || Truthy(RunTimeout(first, old(options))))
      ensures r.Failure? ==> clients == old(clients) && readyCallback == old(readyCallback) && timer == old(timer)
      ensures found == old(found) && closedSockets == old(closedSockets) && readyCalls == old(readyCalls)
      ensures validFilter == old(validFilter) && onIPs == old(onIPs) && ipCalls == old(ipCalls)
    {
      var timeout := RunTimeout(first, options);
      var cb := RunCallback(first, second);
      r := GetInterfaces(table);
      if r.Failure? {
        return;
      }
      var ifaces := Get(options, "interfaces").value;
      if !ifaces.Arr? {
        return Failure(TypeError);
      }
      PrepareEach(ifaces.items);
      if cb.Some? {
        readyCallback := cb;
      }
      if Truthy(timeout) {
        timer := true;
      }
      return Ok(());
    }

    /** `close()`: clear the timer, close every open client and set every
        slot to undefined. */
    method Close()
      modifies this
      ensures State() == CloseAll(old(State()))
      ensures Setup() == old(Setup())
    {
      timer := false;
      var i := 0;
      while i < |clients|
        invariant 0 <= i <= |clients| == |old(clients)|
        invariant forall j :: 0 <= j < i ==> clients[j] == None
        invariant forall j :: i <= j < |clients| ==> clients[j] == old(clients)[j]
        invariant closedSockets == old(closedSockets) + Live(old(clients)[..i])
        invariant !timer && found == old(found) && readyCalls == old(readyCalls)
        invariant options == old(options) && validFilter == old(validFilter) && readyCallback == old(readyCallback)
        invariant onIPs == old(onIPs) && ipCalls == old(ipCalls)
      {
        assert old(clients)[..i + 1][..i] == old(clients)[..i];
        if clients[i].Some? {
          closedSockets := closedSockets + [clients[i].value];
        }
        clients := clients[i := None];
        i := i + 1;
      }
      assert old(clients)[..|clients|] == old(clients);
      assert clients == Cleared(old(clients));
    }

    /** The timer fires: close everything, then call the stored ready
        callback, if any, with the found list. */
    method TimerFires()
      requires timer
      modifies this
      ensures var closed := CloseAll(old(State()));
        State() == (if readyCallback.Some? then closed.(readyCalls := closed.readyCalls + [JsReadyCall(readyCallback.value, found)])
                    else closed)
      ensures Setup() == old(Setup())
    {
      Close();
      if readyCallback.Some? {
        readyCalls := readyCalls + [JsReadyCall(readyCallback.value, found)];
      }
    }

    /** `on(name, fn)` for the event it keeps in a field: `filter` installs
        `fn` as the filter; other names change nothing. */
    method On(name: string, verdict: string -> bool)
      requires name != "packet" && name != "message"
      modifies this
      ensures validFilter == (if name == "filter" then Predicate(verdict) else old(validFilter))
      ensures State() == old(State()) && options == old(options) && readyCallback == old(readyCallback)
      ensures onIPs == old(onIPs) && ipCalls == old(ipCalls)
    {
      if name == "filter" {
        validFilter := Predicate(verdict);
      }
    }

    /** `setFilter(propName, arr)`: a function becomes the filter; anything
        else installs the exclusion test on that property. */
    method SetFilter(arg: FilterArg, list: seq<PropBag>)
      modifies this
      ensures validFilter == (match arg case FunctionArg(f) => Predicate(f) case PropertyArg(p) => Exclusion(p, list))
      ensures State() == old(State()) && options == old(options) && readyCallback == old(readyCallback)
      ensures onIPs == old(onIPs) && ipCalls == old(ipCalls)
    {
      match arg
      case FunctionArg(f) => validFilter := Predicate(f);
      case PropertyArg(p) => validFilter := Exclusion(p, list);
    }

    /** `onIP(ip, ..., fn)`: append one registration per leading argument;
        a call with fewer than two arguments or without a function last
        changes nothing. */
    method OnIp(args: seq<OnIpArg>)
      modifies this
      ensures onIPs == (match Registrations(args)
                        case None => old(onIPs)
                        case Some(rs) => Some(old(onIPs).GetOr([]) + rs))
      ensures State() == old(State()) && options == old(options) && validFilter == old(validFilter)
      ensures readyCallback == old(readyCallback) && ipCalls == old(ipCalls)
    {
      if |args| < 2 {
        return;
      }
      var fn := args[|args| - 1];
      if !fn.HandlerArg? {
        return;
      }
      if onIPs.None? {
        onIPs := Some([]);
      }
      var rs := Registrations(args).value;
      assert old(onIPs).GetOr([]) + rs[..0] == onIPs.value;
      var i := 0;
      while i < |args| - 1
        invariant 0 <= i <= |args| - 1
        invariant onIPs == Some(old(onIPs).GetOr([]) + rs[..i])
        invariant State() == old(State()) && options == old(options) && validFilter == old(validFilter)
        invariant readyCallback == old(readyCallback) && ipCalls == old(ipCalls)
      {
        assert rs[..i + 1] == rs[..i] + [IpHandler(args[i], fn.handler)];
        assert old(onIPs).GetOr([]) + rs[..i + 1] == onIPs.value + [IpHandler(args[i], fn.handler)];
        onIPs := Some(onIPs.value + [IpHandler(args[i], fn.handler)]);
        i := i + 1;
      }
      assert rs[..|args| - 1] == rs;
    }

    /** One iteration of the `forEach` over the answers. */
    method VisitRecord(a: Record, head: string, sender: string) returns (r: Result<()>)
      requires Valid()
      modifies this
      ensures var c := Visit(old(State()), old(Settings(sender)), head, a);
        State() == c.(threw := false) && (r.Failure? <==> c.threw)
      ensures Setup() == old(Setup())
    {
      var find := Get(options, "find").value;
      if IndexOf(a.name, ToText(find)) != 0 || !Accepts(validFilter, sender) {
        return Ok(());
      }
      var i := 0;
      while i < |found|
        invariant 0 <= i <= |found|
        invariant forall j :: 0 <= j < i ==> found[j].ip != sender
      {
        if found[i].ip == sender {
          return Ok(());
        }
        i := i + 1;
      }
      found := found + [JsEntry(sender, EntryName(head, a))];
      if Truthy(Get(options, "returnOnFirstFound").value) {
        Close();
        if readyCallback.None? {
          return Failure(TypeError);
        }
        readyCalls := readyCalls + [JsReadyCall(readyCallback.value, found)];
      }
      return Ok(());
    }

    /** `onPacket(packets, rinfo)`: the collector of module JsCollector; a
        TypeError ends the loop. */
    method OnPacket(p: Packet, sender: string) returns (r: Result<()>)
      requires Valid()
      modifies this
      ensures var c := PacketEffect(old(State()), old(Settings(sender)), p);
        State() == c.(threw := false) && (r.Failure? <==> c.threw)
      ensures Setup() == old(Setup())
    {
      if !Truthy(Get(options, "find").value) || p.answers.None? {
        return Ok(());
      }
      var qa := p.answers.value;
      ghost var ctx := Settings(sender);
      var i := 0;
      while i < |qa|
        invariant 0 <= i <= |qa|
        invariant Setup() == old(Setup()) && Settings(sender) == ctx
        invariant State() == SectionUpTo(old(State()), ctx, qa, i)
      {
        r := VisitRecord(qa[i], qa[0].name, sender);
        if r.Failure? {
          ThrownStays(old(State()), ctx, qa, i + 1, |qa|);
          return;
        }
        i := i + 1;
      }
      return Ok(());
    }

    /** `onMessage(message, rinfo)`: a message that does not decode is
        dropped; otherwise the packet is collected and, unless that threw,
        handed to the first `onIP` handler registered for the sender. */
    method OnMessage(decoded: Option<Packet>, sender: string) returns (r: Result<()>)
      requires Valid()
      modifies this
      ensures decoded.None? ==> r.Ok? && State() == old(State()) && ipCalls == old(ipCalls)
      ensures decoded.Some? ==>
        var c := PacketEffect(old(State()), old(Settings(sender)), decoded.value);
        State() == c.(threw := false) && (r.Failure? <==> c.threw) &&
        ipCalls == old(ipCalls) +
          (if c.threw || onIPs.None? then [] else
           match HandlerFor(onIPs.value, sender)
           case None => []
           case Some(h) => [IpCall(h, decoded.value, sender)])
      ensures options == old(options) && validFilter == old(validFilter) && readyCallback == old(readyCallback)
      ensures onIPs == old(onIPs)
    {
      if decoded.None? {
        return Ok(());
      }
      r := OnPacket(decoded.value, sender);
      if r.Failure? {
        return;
      }
      if onIPs.Some? {
        var h := HandlerFor(onIPs.value, sender);
        if h.Some? {
          ipCalls := ipCalls + [IpCall(h.value, decoded.value, sender)];
        }
      }
    }
  }

  /** Once a TypeError ended the loop, the remaining answers change
      nothing. */
  lemma {:induction false} ThrownStays(c: Collected, ctx: Ctx, qa: seq<Record>, i: nat, n: nat)
    requires i <= n <= |qa| && SectionUpTo(c, ctx, qa, i).threw
    ensures SectionUpTo(c, ctx, qa, n) == SectionUpTo(c, ctx, qa, i)
    decreases n
  {
    if n > i {
      ThrownStays(c, ctx, qa, i, n - 1);
    }
  }
}
