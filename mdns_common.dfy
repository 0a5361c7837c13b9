/** Values and pure helpers shared by both versions of the mDNS discovery
    client (the TypeScript class and the older JavaScript prototype).
    Everything the client receives from outside -- decoded packets, the OS
    interface table, sockets, callbacks -- appears here as plain data. */
module MdnsCommon {

  datatype Option<+T> = None | Some(value: T) {
    function GetOr(default: T): T {
      match this
      case Some(v) => v
      case None => default
    }
  }

  /** One decoded question or resource record, as the DNS codec hands it
      over: a name, and possibly a record type and a data value. */
  datatype Record = Record(name: string, rtype: Option<string>, data: Option<string>)

  /** A decoded DNS message; either section may be absent. */
  datatype Packet = Packet(answers: Option<seq<Record>>, questions: Option<seq<Record>>)

  /** One address of the OS interface table, in enumeration order
      (device by device, address by address). */
  datatype Alias = Alias(family: string, address: string, internal: bool)

  /** A UDP socket the client opened: where it was bound, and its position
      in the client list, which tells sockets apart. */
  datatype Socket<A> = Socket(bound: A, serial: nat)

  /** Opaque identities of the callbacks a caller hands to the client. */
  type CallbackId = nat
  type HandlerId = nat

  // ---------------------------------------------------------------------
  // String search

  /** `sub` occurs in `s` starting at index `j`. */
  predicate OccursAt(s: string, sub: string, j: int) {
    0 <= j && j + |sub| <= |s| && s[j..j + |sub|] == sub
  }

  /** String.prototype.indexOf from position 0: the first index where `sub`
      occurs in `s`, or -1. */
  function IndexOf(s: string, sub: string): (r: int)
    ensures -1 <= r <= |s|
    ensures r >= 0 ==> OccursAt(s, sub, r)
    ensures r >= 0 ==> forall j :: 0 <= j < r ==> !OccursAt(s, sub, j)
    ensures r == -1 ==> forall j :: !OccursAt(s, sub, j)
  {
    if sub <= s then 0
    else if s == [] then -1
    else
      var t := IndexOf(s[1..], sub);
      assert forall j :: 1 <= j ==> (OccursAt(s, sub, j) <==> OccursAt(s[1..], sub, j - 1));
      if t < 0 then -1 else t + 1
  }

  /** `name.indexOf(find) === 0` is exactly "`find` is a prefix of `name`". */
  lemma IndexOfZeroIffPrefix(name: string, find: string)
    ensures IndexOf(name, find) == 0 <==> find <= name
  {
    if IndexOf(name, find) == 0 {
      assert OccursAt(name, find, 0);
      assert name[..|find|] == find;
    }
  }

  // ---------------------------------------------------------------------
  // Interface enumeration

  /** An address `getInterfaces` keeps: IPv4, not 127.0.0.1, not internal. */
  predicate Usable(a: Alias) {
    a.family == "IPv4" && a.address != "127.0.0.1" && !a.internal
  }

  /** The addresses `getInterfaces` appends, in enumeration order. */
  function UsableAddresses(table: seq<Alias>): seq<string>
  {
    if table == [] then []
    else
      var last := table[|table| - 1];
      UsableAddresses(table[..|table| - 1]) + (if Usable(last) then [last.address] else [])
  }

  /** An address is kept iff some usable row of the table carries it. */
  lemma {:induction false} UsableAddressesMembers(table: seq<Alias>, x: string)
    ensures x in UsableAddresses(table) <==> exists i :: 0 <= i < |table| && Usable(table[i]) && table[i].address == x
  {
    if table != [] {
      var init, last := table[..|table| - 1], table[|table| - 1];
      var tail := if Usable(last) then [last.address] else [];
      assert UsableAddresses(table) == UsableAddresses(init) + tail;
      assert x in UsableAddresses(table) <==> x in UsableAddresses(init) || x in tail;
      UsableAddressesMembers(init, x);
      if x in UsableAddresses(init) {
        var i :| 0 <= i < |init| && Usable(init[i]) && init[i].address == x;
        assert table[i] == init[i];
      }
      if exists i :: 0 <= i < |table| && Usable(table[i]) && table[i].address == x {
        var i :| 0 <= i < |table| && Usable(table[i]) && table[i].address == x;
        if i < |init| {
          assert init[i] == table[i];
        }
      }
    }
  }

  /** Enumeration order is kept: the addresses of two consecutive parts of
      the table come out one after the other. */
  lemma {:induction false} UsableAddressesAppend(a: seq<Alias>, b: seq<Alias>)
    ensures UsableAddresses(a + b) == UsableAddresses(a) + UsableAddresses(b)
  {
    if b == [] {
      assert a + b == a;
    } else {
      var b' := b[..|b| - 1];
      assert (a + b)[..|a + b| - 1] == a + b';
      UsableAddressesAppend(a, b');
    }
  }

  // ---------------------------------------------------------------------
  // Closing the sockets

  /** The sockets `close()` closes: every non-empty slot, in order. */
  function Live<A>(clients: seq<Option<Socket<A>>>): seq<Socket<A>>
  {
    if clients == [] then []
    else
      Live(clients[..|clients| - 1])
      + (match clients[|clients| - 1] case Some(s) => [s] case None => [])
  }

  /** The client list after `close()`: same length, every slot undefined. */
  function Cleared<A>(clients: seq<Option<Socket<A>>>): (r: seq<Option<Socket<A>>>)
    ensures |r| == |clients| && forall i :: 0 <= i < |r| ==> r[i] == None
  {
    seq(|clients|, _ => None)
  }

  /** Closing twice closes nothing the second time and leaves the list as
      the first call left it. */
  lemma {:induction false} CloseIsIdempotent<A>(clients: seq<Option<Socket<A>>>)
    ensures Live(Cleared(clients)) == []
    ensures Cleared(Cleared(clients)) == Cleared(clients)
  {
    if clients != [] {
      var init := clients[..|clients| - 1];
      assert Cleared(clients)[..|clients| - 1] == Cleared(init);
      CloseIsIdempotent(init);
    }
  }

  /** The sockets `close()` closes are exactly those held by a slot. */
  lemma {:induction false} LiveAreInList<A>(clients: seq<Option<Socket<A>>>, s: Socket<A>)
    ensures s in Live(clients) <==> Some(s) in clients
  {
    if clients != [] {
      var init := clients[..|clients| - 1];
      LiveAreInList(init, s);
      assert clients == init + [clients[|clients| - 1]];
    }
  }

  /** The client slots `prepare` opens, one per address, numbered on from
      `start`. */
  function Opened<A>(start: nat, addrs: seq<A>): seq<Option<Socket<A>>> {
    if addrs == [] then []
    else Opened(start, addrs[..|addrs| - 1]) + [Some(Socket(addrs[|addrs| - 1], start + |addrs| - 1))]
  }

  /** Slot `k` of the opened list holds a socket bound to the `k`-th
      address, and every one of them is closed by a later `close()`. */
  lemma {:induction false} OpenedSockets<A>(start: nat, addrs: seq<A>)
    ensures |Opened(start, addrs)| == |addrs|
    ensures forall k :: 0 <= k < |addrs| ==> Opened(start, addrs)[k] == Some(Socket(addrs[k], start + k))
    ensures |Live(Opened(start, addrs))| == |addrs|
  {
    if addrs != [] {
      OpenedSockets(start, addrs[..|addrs| - 1]);
    }
  }

  // ---------------------------------------------------------------------
  // onIP registrations

  /** An argument of the variadic `onIP(ip, ..., ip, fn)`. */
  datatype OnIpArg = IpArg(ip: string) | HandlerArg(handler: HandlerId) | OtherArg

  /** One `{ip, fn}` record of the registration list. */
  datatype IpHandler = IpHandler(key: OnIpArg, fn: HandlerId)

  /** A call of an `onIP` handler with the decoded packet and the sender. */
  datatype IpCall = IpCall(handler: HandlerId, packet: Packet, sender: string)

  /** What one `onIP` call registers: nothing for fewer than two arguments
      or when the last one is not a function; otherwise one record per
      leading argument, all with the last argument as handler. */
  function Registrations(args: seq<OnIpArg>): (r: Option<seq<IpHandler>>)
    ensures r.Some? <==> |args| >= 2 && args[|args| - 1].HandlerArg?
    ensures r.Some? ==> (|r.value| == |args| - 1 &&
      forall i :: 0 <= i < |r.value| ==> r.value[i] == IpHandler(args[i], args[|args| - 1].handler))
  {
    if |args| < 2 || !args[|args| - 1].HandlerArg? then None
    else Some(seq(|args| - 1, i requires 0 <= i < |args| - 1 => IpHandler(args[i], args[|args| - 1].handler)))
  }

  /** The handler `onMessage` invokes for a sender: the first registration
      whose key is that address (`Array.prototype.find`). */
  function HandlerFor(regs: seq<IpHandler>, address: string): (r: Option<HandlerId>)
    ensures r.None? <==> forall i :: 0 <= i < |regs| ==> regs[i].key != IpArg(address)
    ensures r.Some? ==> exists i :: (0 <= i < |regs| && regs[i].key == IpArg(address) && r.value == regs[i].fn &&
      forall j :: 0 <= j < i ==> regs[j].key != IpArg(address))
  {
    if regs == [] then None
    else if regs[0].key == IpArg(address) then Some(regs[0].fn)
    else
      var r := HandlerFor(regs[1..], address);
      assert forall j :: 1 <= j < |regs| ==> regs[j] == regs[1..][j - 1];
      if r.None? then r
      else
        var i :| 0 <= i < |regs[1..]| && regs[1..][i].key == IpArg(address) && r.value == regs[1..][i].fn &&
          forall j :: 0 <= j < i ==> regs[1..][j].key != IpArg(address);
        assert regs[i + 1] == regs[1..][i];
        r
  }

  /** Registering more handlers never changes who answers for an address
      that already had one: the earliest registration wins. */
  lemma EarlierRegistrationWins(regs: seq<IpHandler>, more: seq<IpHandler>, address: string)
    requires HandlerFor(regs, address).Some?
    ensures HandlerFor(regs + more, address) == HandlerFor(regs, address)
  {
    var i :| 0 <= i < |regs| && regs[i].key == IpArg(address) && HandlerFor(regs, address).value == regs[i].fn &&
      forall j :: 0 <= j < i ==> regs[j].key != IpArg(address);
    assert (regs + more)[i] == regs[i];
    var k :| 0 <= k < |regs + more| && (regs + more)[k].key == IpArg(address) && HandlerFor(regs + more, address).value == (regs + more)[k].fn &&
      forall j :: 0 <= j < k ==> (regs + more)[j].key != IpArg(address);
    assert (regs + more)[i] == regs[i];
    assert k == i;
  }

  // ---------------------------------------------------------------------
  // The filter

  /** An element of an exclusion list: its properties, a missing key
      standing for `undefined`. */
  type PropBag = map<string, string>

  /** The installed filter: none, a caller's predicate on the sender
      address, or `setFilter(propName, arr)`'s exclusion list. */
  datatype Filter = NoFilter | Predicate(accepts: string -> bool) | Exclusion(prop: string, list: seq<PropBag>)

  /** The first argument of `setFilter`: a function, or a property name. */
  datatype FilterArg = FunctionArg(fn: string -> bool) | PropertyArg(prop: string)

  /** `v[prop]` for an element of the exclusion list. */
  function Lookup(v: PropBag, prop: string): Option<string> {
    if prop in v then Some(v[prop]) else None
  }

  /** `a[prop]` for the candidate `{ip: address}` the client passes. */
  function CandidateProp(address: string, prop: string): Option<string> {
    if prop == "ip" then Some(address) else None
  }

  /** `arr.find(v => v[prop] === a[prop])`, as an index. */
  function FindExcluded(list: seq<PropBag>, prop: string, address: string): (r: Option<nat>)
    ensures r.None? <==> forall i :: 0 <= i < |list| ==> Lookup(list[i], prop) != CandidateProp(address, prop)
    ensures r.Some? ==> r.value < |list| && Lookup(list[r.value], prop) == CandidateProp(address, prop)
  {
    if list == [] then None
    else if Lookup(list[0], prop) == CandidateProp(address, prop) then Some(0)
    else
      var r := FindExcluded(list[1..], prop, address);
      assert forall i :: 1 <= i < |list| ==> list[i] == list[1..][i - 1];
      if r.Some? then Some(r.value + 1) else None
  }

  /** Whether the filter lets a record from `address` through. */
  predicate Accepts(f: Filter, address: string) {
    match f
    case NoFilter => true
    case Predicate(p) => p(address)
    case Exclusion(prop, list) => FindExcluded(list, prop, address).None?
  }

  /** The exclusion filter on `ip` rejects exactly the listed addresses. */
  lemma ExclusionOnIp(list: seq<PropBag>, address: string)
    ensures Accepts(Exclusion("ip", list), address) <==>
      forall i :: 0 <= i < |list| ==> !("ip" in list[i] && list[i]["ip"] == address)
  {
  }

  /** On any other property the candidate's value is `undefined`, so the
      filter rejects every address as soon as one element lacks that
      property, and accepts every address otherwise. */
  lemma ExclusionOnOtherProperty(prop: string, list: seq<PropBag>, address: string)
    requires prop != "ip"
    ensures Accepts(Exclusion(prop, list), address) <==> forall i :: 0 <= i < |list| ==> prop in list[i]
  {
  }
}
