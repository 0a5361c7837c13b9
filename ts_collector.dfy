/** The entry collector of the TypeScript client (`onPacket` with its
    helpers `addDetails` and `doIt`), as functions on values. The class in
    ts_discovery.dfy runs the same steps in place and is proved to agree
    with `PacketEffect`. */
module TsCollector {
  import opened MdnsCommon

  /** What `addDetails` keeps for one record type: the primary name, the
      list of names, the latest data value and the `dataa` list. */
  datatype Detail = Detail(name: Option<string>, names: Option<seq<string>>, data: Option<string>, dataa: Option<seq<string>>)

  /** A found entry: sender address, section ("answer" or "query"), name,
      and the per-record-type details. */
  datatype Entry = Entry(ip: string, kind: string, name: string, details: map<string, Detail>)

  const EmptyDetail := Detail(None, None, None, None)

  /** JavaScript truthiness of an optional string. */
  predicate Truthy(s: Option<string>) {
    s.Some? && s.value != ""
  }

  // ---------------------------------------------------------------------
  // addDetails

  /** The name half of `addDetails`: a first name becomes the primary one;
      a later name is appended to `names` (started with the primary) and
      replaces the primary only when strictly longer. */
  function MergeName(d: Detail, n: string): Detail {
    if n == "" then d
    else if Truthy(d.name) then
      d.(names := Some(d.names.GetOr([d.name.value]) + [n]),
         name := if |n| > |d.name.value| then Some(n) else d.name)
    else d.(name := Some(n))
  }

  /** The data half of `addDetails`. `d.dataa.push[a.data]` reads a property
      of the `push` function instead of calling it, so `dataa` is created
      holding the previous value and never grows; `data` is overwritten. */
  function MergeData(d: Detail, x: Option<string>): Detail {
    if !Truthy(x) then d
    else if Truthy(d.data) then d.(dataa := Some(d.dataa.GetOr([d.data.value])), data := x)
    else d.(data := x)
  }

  function MergeRecord(d: Detail, a: Record): Detail {
    MergeData(MergeName(d, a.name), a.data)
  }

  /** The name half and the data half of a merge touch disjoint fields. */
  lemma MergeRecordHalves(d: Detail, a: Record)
    ensures var m := MergeRecord(d, a);
      m.name == MergeName(d, a.name).name && m.names == MergeName(d, a.name).names &&
      m.data == MergeData(d, a.data).data && m.dataa == MergeData(d, a.data).dataa
  {
  }

  /** `entry[type] || {}`: the slot of a type, or a fresh one. */
  function Slot(details: map<string, Detail>, t: string): Detail {
    if t in details then details[t] else EmptyDetail
  }

  /** `addDetails(entry, a)`: only when details are on and the record has a
      type, that type's slot (created empty if missing) absorbs the record;
      every other slot is left as it was. */
  function AddDetails(e: Entry, enabled: bool, a: Record): (r: Entry)
    ensures r.ip == e.ip && r.kind == e.kind && r.name == e.name
    ensures !(enabled && Truthy(a.rtype)) ==> r == e
    ensures enabled && Truthy(a.rtype) ==> r.details.Keys == e.details.Keys + {a.rtype.value}
    ensures enabled && Truthy(a.rtype) ==> r.details[a.rtype.value] == MergeRecord(Slot(e.details, a.rtype.value), a)
    ensures forall t :: t in e.details && a.rtype != Some(t) ==> t in r.details && r.details[t] == e.details[t]
  {
    if enabled && Truthy(a.rtype) then
      var t := a.rtype.value;
      e.(details := e.details[t := MergeRecord(Slot(e.details, t), a)])
    else e
  }

  /** A slot after absorbing `rs` in order, starting from `d`. */
  function MergeAll(d: Detail, rs: seq<Record>): Detail {
    if rs == [] then d else MergeRecord(MergeAll(d, rs[..|rs| - 1]), rs[|rs| - 1])
  }

  /** The non-empty names of `rs`, in arrival order. */
  function NamesOf(rs: seq<Record>): (r: seq<string>)
    ensures forall i :: 0 <= i < |r| ==> r[i] != ""
  {
    if rs == [] then []
    else NamesOf(rs[..|rs| - 1]) + (if rs[|rs| - 1].name != "" then [rs[|rs| - 1].name] else [])
  }

  /** The non-empty data values of `rs`, in arrival order. */
  function DataOf(rs: seq<Record>): (r: seq<string>)
    ensures forall i :: 0 <= i < |r| ==> r[i] != ""
  {
    if rs == [] then []
    else DataOf(rs[..|rs| - 1]) + (if Truthy(rs[|rs| - 1].data) then [rs[|rs| - 1].data.value] else [])
  }

  /** The first of the longest strings of `ns`. */
  function FirstLongest(ns: seq<string>): (r: string)
    requires ns != []
    ensures exists i :: 0 <= i < |ns| && r == ns[i] && forall j :: 0 <= j < i ==> |ns[j]| < |r|
    ensures forall j :: 0 <= j < |ns| ==> |ns[j]| <= |r|
  {
    if |ns| == 1 then ns[0]
    else
      var init := ns[..|ns| - 1];
      var p := FirstLongest(init);
      assert forall j :: 0 <= j < |init| ==> init[j] == ns[j];
      var l := ns[|ns| - 1];
      if |l| > |p| then l else p
  }

  /** What a slot holds after a run of records of its type: the primary
      name is the first longest name, `names` lists every name once two
      have arrived, `data` is the latest value and `dataa` holds only the
      first one. */
  lemma AccumulateSlot(rs: seq<Record>)
    ensures var d, ns, ds := MergeAll(EmptyDetail, rs), NamesOf(rs), DataOf(rs);
      d.name == (if ns == [] then None else Some(FirstLongest(ns))) &&
      d.names == (if |ns| < 2 then None else Some(ns)) &&
      d.data == (if ds == [] then None else Some(ds[|ds| - 1])) &&
      d.dataa == (if |ds| < 2 then None else Some([ds[0]]))
  {
    AccumulateNames(rs);
    AccumulateData(rs);
  }

  lemma {:induction false} AccumulateNames(rs: seq<Record>)
    ensures var d, ns := MergeAll(EmptyDetail, rs), NamesOf(rs);
      d.name == (if ns == [] then None else Some(FirstLongest(ns))) &&
      d.names == (if |ns| < 2 then None else Some(ns))
  {
    if rs != [] {
      var init, a := rs[..|rs| - 1], rs[|rs| - 1];
      AccumulateNames(init);
      var d0, ns := MergeAll(EmptyDetail, init), NamesOf(init);
      assert MergeAll(EmptyDetail, rs) == MergeRecord(d0, a);
      MergeRecordHalves(d0, a);
      if a.name == "" {
        assert NamesOf(rs) == ns;
      } else if ns != [] {
        var ns' := NamesOf(rs);
        assert ns' == ns + [a.name];
        assert ns'[..|ns|] == ns;
        assert Truthy(d0.name);
        if |ns| == 1 {
          assert FirstLongest(ns) == ns[0];
          assert [ns[0]] + [a.name] == ns';
        }
      }
    }
  }

  lemma {:induction false} AccumulateData(rs: seq<Record>)
    ensures var d, ds := MergeAll(EmptyDetail, rs), DataOf(rs);
      d.data == (if ds == [] then None else Some(ds[|ds| - 1])) &&
      d.dataa == (if |ds| < 2 then None else Some([ds[0]]))
  {
    if rs != [] {
      var init, a := rs[..|rs| - 1], rs[|rs| - 1];
      AccumulateData(init);
      var d0, ds := MergeAll(EmptyDetail, init), DataOf(init);
      assert MergeAll(EmptyDetail, rs) == MergeRecord(d0, a);
      MergeRecordHalves(d0, a);
      if !Truthy(a.data) {
        assert DataOf(rs) == ds;
      } else {
        var ds' := DataOf(rs);
        assert ds' == ds + [a.data.value];
        if ds != [] {
          assert ds'[0] == ds[0];
          assert Truthy(d0.data);
        }
      }
    }
  }

  /** `addDetails` applied to each record of `rs` in turn: the address,
      section and name never change. */
  function AddAll(e: Entry, enabled: bool, rs: seq<Record>): (r: Entry)
    ensures r.ip == e.ip && r.kind == e.kind && r.name == e.name
  {
    if rs == [] then e else AddDetails(AddAll(e, enabled, rs[..|rs| - 1]), enabled, rs[|rs| - 1])
  }

  /** Absorbing two runs of records one after the other is absorbing their
      concatenation. */
  lemma {:induction false} AddAllAppend(e: Entry, enabled: bool, rs: seq<Record>, more: seq<Record>)
    ensures AddAll(AddAll(e, enabled, rs), enabled, more) == AddAll(e, enabled, rs + more)
  {
    var all := rs + more;
    if more == [] {
      assert all == rs;
    } else {
      var init := more[..|more| - 1];
      AddAllAppend(e, enabled, rs, init);
      assert all[..|all| - 1] == rs + init;
      assert all[|all| - 1] == more[|more| - 1];
    }
  }

  /** The records of `rs` whose type is `t`. */
  function OfType(rs: seq<Record>, t: string): seq<Record> {
    if rs == [] then []
    else OfType(rs[..|rs| - 1], t) + (if rs[|rs| - 1].rtype == Some(t) then [rs[|rs| - 1]] else [])
  }

  /** Details are kept per record type: after a run of records, the slot
      of a (non-empty) type `t` exists iff it existed before or a record of
      that type arrived, and then it is the previous slot (or a fresh one)
      having absorbed exactly the records of type `t`, in order; every
      other slot is untouched by them. With details off nothing changes.
      From an entry without details, a slot is `MergeAll` from an empty
      slot, which `AccumulateSlot` describes. */
  lemma {:induction false} DetailsArePerType(e: Entry, enabled: bool, rs: seq<Record>, t: string)
    requires t != ""
    ensures var r := AddAll(e, enabled, rs);
      (enabled ==> (t in r.details <==> t in e.details || OfType(rs, t) != [])) &&
      (enabled && t in r.details ==> r.details[t] == MergeAll(Slot(e.details, t), OfType(rs, t))) &&
      (!enabled ==> r.details == e.details)
  {
    if rs != [] {
      var init := rs[..|rs| - 1];
      var a := rs[|rs| - 1];
      DetailsArePerType(e, enabled, init, t);
      var prev := AddAll(e, enabled, init);
      assert AddAll(e, enabled, rs) == AddDetails(prev, enabled, a);
      if a.rtype == Some(t) {
        var ts := OfType(rs, t);
        assert ts == OfType(init, t) + [a];
        assert ts[..|ts| - 1] == OfType(init, t);
        assert MergeAll(Slot(e.details, t), ts) == MergeRecord(MergeAll(Slot(e.details, t), OfType(init, t)), a);
      } else {
        assert OfType(rs, t) == OfType(init, t);
      }
    }
  }

  // ---------------------------------------------------------------------
  // onPacket

  /** The callback `run` receives: a caller's function, or the one
      `findFirstIP` builds around its promise. */
  datatype Callback = Caller(id: CallbackId) | FirstIpPromise

  /** A pending completion timer and the callback its closure captured. */
  datatype Timer = Timer(callback: Option<Callback>)

  /** A call of the ready callback, with the found list it received. */
  datatype ReadyCall = ReadyCall(callback: Callback, results: seq<Entry>)

  /** A call of the `entry` hook with a newly built entry. */
  datatype EntryCall = EntryCall(hook: HandlerId, entry: Entry)

  /** The settings `onPacket` reads, and the sender's address. */
  datatype Ctx = Ctx(find: Option<string>, filter: Filter, hook: Option<HandlerId>, details: bool,
                     returnOnFirstFound: bool, noQuestions: bool, readyCallback: Option<Callback>,
                     sender: string)

  /** Everything `onPacket` may change: the found list, the client slots,
      the pending timer, and what was done outside -- sockets closed, hook
      calls, ready-callback calls. */
  datatype Collected = Collected(found: seq<Entry>, clients: seq<Option<Socket<string>>>, timer: Option<Timer>,
                                 closedSockets: seq<Socket<string>>, entryCalls: seq<EntryCall>,
                                 readyCalls: seq<ReadyCall>)

  /** `close()`: the timer is cleared, every open socket closed, every slot
      set to undefined. */
  function CloseAll(c: Collected): Collected {
    c.(timer := None, clients := Cleared(c.clients), closedSockets := c.closedSockets + Live(c.clients))
  }

  /** A second `close()` changes nothing. */
  lemma CloseAllIdempotent(c: Collected)
    ensures CloseAll(CloseAll(c)) == CloseAll(c)
  {
    CloseIsIdempotent(c.clients);
  }

  /** The match test: the wildcard `*`, or `find` a prefix of the name. */
  predicate Matches(find: string, name: string) {
    find == "*" || find <= name
  }

  /** The prefix test is the source's `name.indexOf(find) === 0`. */
  lemma MatchesIff(find: string, name: string)
    ensures Matches(find, name) <==> find == "*" || IndexOf(name, find) == 0
  {
    IndexOfZeroIffPrefix(name, find);
  }

  /** `found.find(v => v.ip === address)`, as an index: the first entry
      with that address. */
  function IpIndex(found: seq<Entry>, ip: string): (r: Option<nat>)
    ensures r.None? <==> forall i :: 0 <= i < |found| ==> found[i].ip != ip
    ensures r.Some? ==> r.value < |found| && found[r.value].ip == ip
    ensures r.Some? ==> forall j :: 0 <= j < r.value ==> found[j].ip != ip
  {
    if found == [] then None
    else if found[0].ip == ip then Some(0)
    else
      var r := IpIndex(found[1..], ip);
      assert forall i :: 1 <= i < |found| ==> found[i] == found[1..][i - 1];
      if r.Some? then Some(r.value + 1) else None
  }

  /** The entry built for a first match: the sender's address, the
      section, the name of the section's first record when that has one,
      else the matching record's; its only slot is the record's type, when
      details are on. */
  function NewEntry(ctx: Ctx, kind: string, head: string, a: Record): (r: Entry)
    ensures r.ip == ctx.sender && r.kind == kind && r.name == (if head != "" then head else a.name)
    ensures r.details == if ctx.details && Truthy(a.rtype) then map[a.rtype.value := MergeRecord(EmptyDetail, a)] else map[]
  {
    AddDetails(Entry(ctx.sender, kind, if head != "" then head else a.name, map[]), ctx.details, a)
  }

  /** One iteration of `doIt`'s `forEach`, for record `a` of a section
      whose first record is named `head`. */
  function Visit(c: Collected, ctx: Ctx, kind: string, head: string, a: Record): (r: Collected)
    requires ctx.find.Some?
    ensures !Matches(ctx.find.value, a.name) || !Accepts(ctx.filter, ctx.sender) ==> r == c
    ensures HasIp(c.found, ctx.sender) ==>
      |r.found| == |c.found| && r.entryCalls == c.entryCalls && r.readyCalls == c.readyCalls &&
      r.timer == c.timer && r.clients == c.clients && r.closedSockets == c.closedSockets
  {
    if !Matches(ctx.find.value, a.name) || !Accepts(ctx.filter, ctx.sender) then c
    else match IpIndex(c.found, ctx.sender)
      case Some(i) => c.(found := c.found[i := AddDetails(c.found[i], ctx.details, a)])
      case None =>
        var e := NewEntry(ctx, kind, head, a);
        var c1 := if ctx.hook.Some? then c.(entryCalls := c.entryCalls + [EntryCall(ctx.hook.value, e)])
                  else c.(found := c.found + [e]);
        if !ctx.returnOnFirstFound then c1
        else
          var c2 := CloseAll(c1);
          if ctx.readyCallback.Some? then c2.(readyCalls := c2.readyCalls + [ReadyCall(ctx.readyCallback.value, c2.found)])
          else c2
  }

  /** `doIt(qa, kind)` after its first `n` iterations; a sender the filter
      rejects leaves everything as it was. */
  function SectionUpTo(c: Collected, ctx: Ctx, qa: seq<Record>, kind: string, n: nat): (r: Collected)
    requires ctx.find.Some? && n <= |qa|
    ensures !Accepts(ctx.filter, ctx.sender) ==> r == c
  {
    if n == 0 then c else Visit(SectionUpTo(c, ctx, qa, kind, n - 1), ctx, kind, qa[0].name, qa[n - 1])
  }

  /** `onPacket`: nothing without a find pattern or an answers section;
      otherwise the answers, then -- unless `noQuestions` -- the questions.
      A packet whose sender the filter rejects changes nothing at all. */
  function PacketEffect(c: Collected, ctx: Ctx, p: Packet): (r: Collected)
    ensures !Accepts(ctx.filter, ctx.sender) ==> r == c
  {
    if ctx.find.None? || p.answers.None? then c
    else
      var c1 := SectionUpTo(c, ctx, p.answers.value, "answer", |p.answers.value|);
      if !ctx.noQuestions && p.questions.Some? then
        SectionUpTo(c1, ctx, p.questions.value, "query", |p.questions.value|)
      else c1
  }

  // ---------------------------------------------------------------------
  // What onPacket preserves

  predicate UniqueIps(found: seq<Entry>) {
    forall i, j :: 0 <= i < j < |found| ==> found[i].ip != found[j].ip
  }

  predicate HasIp(found: seq<Entry>, ip: string) {
    exists i :: 0 <= i < |found| && found[i].ip == ip
  }

  /** Details only grow: no type disappears, `names` only gets longer, a
      primary name never shortens, data never disappears and `dataa`,
      once created, never changes. */
  ghost predicate DetailsGrow(d: map<string, Detail>, d2: map<string, Detail>) {
    d.Keys <= d2.Keys &&
    forall t :: t in d ==>
      (d[t].names.Some? ==> d2[t].names.Some? && d[t].names.value <= d2[t].names.value) &&
      (Truthy(d[t].name) ==> Truthy(d2[t].name) && |d[t].name.value| <= |d2[t].name.value|) &&
      (Truthy(d[t].data) ==> Truthy(d2[t].data)) &&
      (d[t].dataa.Some? ==> d2[t].dataa == d[t].dataa)
  }

  /** An existing entry keeps its address, section and name. */
  ghost predicate Evolves(e: Entry, e2: Entry) {
    e2.ip == e.ip && e2.kind == e.kind && e2.name == e.name && DetailsGrow(e.details, e2.details)
  }

  /** How many entries were created between `c` and `c2`: pushed to
      `found`, or handed to the hook instead. */
  function Created(c: Collected, c2: Collected): int {
    |c2.found| - |c.found| + |c2.entryCalls| - |c.entryCalls|
  }

  /** What one packet (or part of one) may do to the found list: add at
      most one entry, for a new sender the filter accepts and only without
      a hook, while existing entries evolve and addresses stay distinct. */
  ghost predicate FoundGrows(ctx: Ctx, c: Collected, c2: Collected) {
    |c.found| <= |c2.found| <= |c.found| + 1 &&
    (forall i :: 0 <= i < |c.found| ==> Evolves(c.found[i], c2.found[i])) &&
    (forall i :: |c.found| <= i < |c2.found| ==> c2.found[i].ip == ctx.sender && Accepts(ctx.filter, ctx.sender)) &&
    (HasIp(c.found, ctx.sender) ==> |c2.found| == |c.found|) &&
    (ctx.hook.Some? ==> |c2.found| == |c.found|) &&
    (UniqueIps(c.found) ==> UniqueIps(c2.found))
  }

  /** Hook calls are only appended, only with a hook installed, and only
      for the accepted sender. */
  ghost predicate HookGrows(ctx: Ctx, c: Collected, c2: Collected) {
    c.entryCalls <= c2.entryCalls &&
    (forall i :: |c.entryCalls| <= i < |c2.entryCalls| ==>
       c2.entryCalls[i].entry.ip == ctx.sender && Accepts(ctx.filter, ctx.sender)) &&
    (ctx.hook.None? ==> c2.entryCalls == c.entryCalls)
  }

  /** Under `returnOnFirstFound` a created entry closes everything and calls
      the stored ready callback, once per created entry; nothing else
      closes or calls back. */
  ghost predicate ClosesOnCreation(ctx: Ctx, c: Collected, c2: Collected) {
    c.readyCalls <= c2.readyCalls &&
    |c2.readyCalls| - |c.readyCalls| ==
      (if ctx.returnOnFirstFound && ctx.readyCallback.Some? then Created(c, c2) else 0) &&
    (if ctx.returnOnFirstFound && Created(c, c2) > 0 then
       c2.timer == None && c2.clients == Cleared(c.clients) && c2.closedSockets == c.closedSockets + Live(c.clients)
     else
       c2.timer == c.timer && c2.clients == c.clients && c2.closedSockets == c.closedSockets)
  }

  /** Everything one packet (or part of one) may do to the collected state. */
  ghost predicate Extends(ctx: Ctx, c: Collected, c2: Collected) {
    FoundGrows(ctx, c, c2) && HookGrows(ctx, c, c2) && ClosesOnCreation(ctx, c, c2)
  }

  lemma DetailsGrowByMerge(d: Detail, a: Record)
    ensures var d2 := MergeRecord(d, a);
      (d.names.Some? ==> d2.names.Some? && d.names.value <= d2.names.value) &&
      (Truthy(d.name) ==> Truthy(d2.name) && |d.name.value| <= |d2.name.value|) &&
      (Truthy(d.data) ==> Truthy(d2.data)) &&
      (d.dataa.Some? ==> d2.dataa == d.dataa)
  {
  }

  lemma EvolvesByAddDetails(e: Entry, enabled: bool, a: Record)
    ensures Evolves(e, AddDetails(e, enabled, a))
  {
    if enabled && Truthy(a.rtype) {
      var t := a.rtype.value;
      var d := if t in e.details then e.details[t] else EmptyDetail;
      DetailsGrowByMerge(d, a);
    }
  }

  lemma EvolvesTrans(e: Entry, e2: Entry, e3: Entry)
    requires Evolves(e, e2) && Evolves(e2, e3)
    ensures Evolves(e, e3)
  {
  }

  lemma ExtendsRefl(ctx: Ctx, c: Collected)
    ensures Extends(ctx, c, c)
  {
  }

  lemma FoundGrowsTrans(ctx: Ctx, c: Collected, c2: Collected, c3: Collected)
    requires FoundGrows(ctx, c, c2) && FoundGrows(ctx, c2, c3)
    ensures FoundGrows(ctx, c, c3)
  {
    forall i | 0 <= i < |c.found|
      ensures Evolves(c.found[i], c3.found[i])
    {
      EvolvesTrans(c.found[i], c2.found[i], c3.found[i]);
    }
    if HasIp(c.found, ctx.sender) {
      var i :| 0 <= i < |c.found| && c.found[i].ip == ctx.sender;
      assert c2.found[i].ip == ctx.sender;
      assert HasIp(c2.found, ctx.sender);
    } else if |c2.found| == |c.found| + 1 {
      assert c2.found[|c.found|].ip == ctx.sender;
      assert HasIp(c2.found, ctx.sender);
    }
  }

  lemma HookGrowsTrans(ctx: Ctx, c: Collected, c2: Collected, c3: Collected)
    requires HookGrows(ctx, c, c2) && HookGrows(ctx, c2, c3)
    ensures HookGrows(ctx, c, c3)
  {
    forall i | |c.entryCalls| <= i < |c3.entryCalls|
      ensures c3.entryCalls[i].entry.ip == ctx.sender && Accepts(ctx.filter, ctx.sender)
    {
      if i < |c2.entryCalls| {
        assert c3.entryCalls[i] == c2.entryCalls[i];
      } else {
        assert |c2.entryCalls| <= i < |c3.entryCalls|;
      }
    }
  }

  lemma ClosesOnCreationTrans(ctx: Ctx, c: Collected, c2: Collected, c3: Collected)
    requires Created(c, c2) >= 0 && Created(c2, c3) >= 0
    requires ClosesOnCreation(ctx, c, c2) && ClosesOnCreation(ctx, c2, c3)
    ensures ClosesOnCreation(ctx, c, c3)
  {
    assert Created(c, c3) == Created(c, c2) + Created(c2, c3);
    if ctx.returnOnFirstFound && Created(c, c2) > 0 && Created(c2, c3) > 0 {
      CloseIsIdempotent(c.clients);
      assert c.closedSockets + Live(c.clients) + [] == c.closedSockets + Live(c.clients);
    }
  }

  lemma ExtendsTrans(ctx: Ctx, c: Collected, c2: Collected, c3: Collected)
    requires Extends(ctx, c, c2) && Extends(ctx, c2, c3)
    ensures Extends(ctx, c, c3)
  {
    FoundGrowsTrans(ctx, c, c2, c3);
    HookGrowsTrans(ctx, c, c2, c3);
    ClosesOnCreationTrans(ctx, c, c2, c3);
  }

  /** A match from a sender already found only merges into its entry. */
  lemma VisitKnownExtends(c: Collected, ctx: Ctx, kind: string, head: string, a: Record, i: nat)
    requires ctx.find.Some? && Matches(ctx.find.value, a.name) && Accepts(ctx.filter, ctx.sender)
    requires IpIndex(c.found, ctx.sender) == Some(i)
    ensures Extends(ctx, c, Visit(c, ctx, kind, head, a))
  {
    var c2 := Visit(c, ctx, kind, head, a);
    assert c2 == c.(found := c.found[i := AddDetails(c.found[i], ctx.details, a)]);
    forall j | 0 <= j < |c.found|
      ensures Evolves(c.found[j], c2.found[j])
    {
      if j == i {
        EvolvesByAddDetails(c.found[i], ctx.details, a);
      }
    }
  }

  /** A match from a new sender creates exactly one entry. */
  lemma VisitNewExtends(c: Collected, ctx: Ctx, kind: string, head: string, a: Record)
    requires ctx.find.Some? && Matches(ctx.find.value, a.name) && Accepts(ctx.filter, ctx.sender)
    requires IpIndex(c.found, ctx.sender).None?
    ensures Extends(ctx, c, Visit(c, ctx, kind, head, a))
  {
    var c2 := Visit(c, ctx, kind, head, a);
    assert !HasIp(c.found, ctx.sender);
    assert Created(c, c2) == 1;
    forall j | 0 <= j < |c.found|
      ensures Evolves(c.found[j], c2.found[j])
    {
    }
  }

  lemma VisitExtends(c: Collected, ctx: Ctx, kind: string, head: string, a: Record)
    requires ctx.find.Some?
    ensures Extends(ctx, c, Visit(c, ctx, kind, head, a))
  {
    if !Matches(ctx.find.value, a.name) || !Accepts(ctx.filter, ctx.sender) {
      ExtendsRefl(ctx, c);
    } else {
      match IpIndex(c.found, ctx.sender)
      case Some(i) => VisitKnownExtends(c, ctx, kind, head, a, i);
      case None => VisitNewExtends(c, ctx, kind, head, a);
    }
  }

  lemma {:induction false} SectionExtends(c: Collected, ctx: Ctx, qa: seq<Record>, kind: string, n: nat)
    requires ctx.find.Some? && n <= |qa|
    ensures Extends(ctx, c, SectionUpTo(c, ctx, qa, kind, n))
  {
    if n == 0 {
      ExtendsRefl(ctx, c);
    } else {
      var mid := SectionUpTo(c, ctx, qa, kind, n - 1);
      SectionExtends(c, ctx, qa, kind, n - 1);
      VisitExtends(mid, ctx, kind, qa[0].name, qa[n - 1]);
      ExtendsTrans(ctx, c, mid, SectionUpTo(c, ctx, qa, kind, n));
    }
  }

  /** One packet: the found list keeps its distinct addresses and grows by
      at most one entry, for the sender, only when the filter accepts it
      and it was not there yet; existing entries keep their address,
      section and name while their details only grow; with a hook, new
      entries go to the hook and never to `found`; under
      `returnOnFirstFound` a newly created entry closes every socket and
      clears the timer, and the stored ready callback (if any) is called
      once per created entry; nothing else closes or calls back. */
  lemma PacketEffectExtends(c: Collected, ctx: Ctx, p: Packet)
    ensures Extends(ctx, c, PacketEffect(c, ctx, p))
  {
    if ctx.find.None? || p.answers.None? {
      ExtendsRefl(ctx, c);
    } else {
      var c1 := SectionUpTo(c, ctx, p.answers.value, "answer", |p.answers.value|);
      SectionExtends(c, ctx, p.answers.value, "answer", |p.answers.value|);
      if !ctx.noQuestions && p.questions.Some? {
        SectionExtends(c1, ctx, p.questions.value, "query", |p.questions.value|);
        ExtendsTrans(ctx, c, c1, PacketEffect(c, ctx, p));
      }
    }
  }

  /** No two found entries ever share an address. */
  lemma PacketKeepsIpsUnique(c: Collected, ctx: Ctx, p: Packet)
    requires UniqueIps(c.found)
    ensures UniqueIps(PacketEffect(c, ctx, p).found)
  {
    PacketEffectExtends(c, ctx, p);
  }

  /** An address the filter rejects never enters the found list: if every
      found address was accepted before, every one is accepted after. */
  lemma FoundStaysAccepted(c: Collected, ctx: Ctx, p: Packet)
    requires forall i :: 0 <= i < |c.found| ==> Accepts(ctx.filter, c.found[i].ip)
    ensures var r := PacketEffect(c, ctx, p).found;
      forall i :: 0 <= i < |r| ==> Accepts(ctx.filter, r[i].ip)
  {
    PacketEffectExtends(c, ctx, p);
  }

  /** The ready callback is only ever called early when one was stored
      before the packet arrived; `run` stores none (only the timer's
      closure does), so a packet never calls back by itself. */
  lemma NoEarlyCallbackWithoutStoredOne(c: Collected, ctx: Ctx, p: Packet)
    requires ctx.readyCallback.None?
    ensures PacketEffect(c, ctx, p).readyCalls == c.readyCalls
  {
    PacketEffectExtends(c, ctx, p);
  }

  /** Without a find pattern, or without an answers section, a packet is
      ignored -- even if it carries matching questions. */
  lemma GateIgnoresPacket(c: Collected, ctx: Ctx, p: Packet)
    requires ctx.find.None? || p.answers.None?
    ensures PacketEffect(c, ctx, p) == c
  {
  }

  lemma RepeatSenderNeverEmits(c: Collected, ctx: Ctx, p: Packet)
    requires HasIp(c.found, ctx.sender)
    ensures PacketEffect(c, ctx, p).entryCalls == c.entryCalls
  {
    if ctx.find.Some? && p.answers.Some? {
      var c1 := SectionUpTo(c, ctx, p.answers.value, "answer", |p.answers.value|);
      SectionNeverEmits(c, ctx, p.answers.value, "answer", |p.answers.value|);
      if !ctx.noQuestions && p.questions.Some? {
        SectionNeverEmits(c1, ctx, p.questions.value, "query", |p.questions.value|);
      }
    }
  }

  /** A sender already found stays found after one more record. */
  lemma VisitKeepsSender(c: Collected, ctx: Ctx, kind: string, head: string, a: Record)
    requires ctx.find.Some? && HasIp(c.found, ctx.sender)
    ensures HasIp(Visit(c, ctx, kind, head, a).found, ctx.sender)
  {
    if Matches(ctx.find.value, a.name) && Accepts(ctx.filter, ctx.sender) {
      var i := IpIndex(c.found, ctx.sender).value;
      assert Visit(c, ctx, kind, head, a).found[i].ip == ctx.sender;
    }
  }

  lemma {:induction false} SectionNeverEmits(c: Collected, ctx: Ctx, qa: seq<Record>, kind: string, n: nat)
    requires ctx.find.Some? && n <= |qa| && HasIp(c.found, ctx.sender)
    ensures SectionUpTo(c, ctx, qa, kind, n).entryCalls == c.entryCalls
    ensures HasIp(SectionUpTo(c, ctx, qa, kind, n).found, ctx.sender)
  {
    if n > 0 {
      SectionNeverEmits(c, ctx, qa, kind, n - 1);
      var mid := SectionUpTo(c, ctx, qa, kind, n - 1);
      assert SectionUpTo(c, ctx, qa, kind, n) == Visit(mid, ctx, kind, qa[0].name, qa[n - 1]);
      VisitKeepsSender(mid, ctx, kind, qa[0].name, qa[n - 1]);
    }
  }

  // ---------------------------------------------------------------------
  // What a packet puts into the found list, stated without the loop

  /** The records of `rs` that pass the match test, in order. */
  function Matching(find: string, rs: seq<Record>): (r: seq<Record>)
    ensures |r| <= |rs|
    ensures forall i :: 0 <= i < |r| ==> Matches(find, r[i].name)
  {
    if rs == [] then [] else Matching(find, rs[..|rs| - 1]) + (if Matches(find, rs[|rs| - 1].name) then [rs[|rs| - 1]] else [])
  }

  /** The matches of a prefix one record longer. */
  lemma MatchingSnoc(find: string, qa: seq<Record>, n: nat)
    requires 0 < n <= |qa|
    ensures Matching(find, qa[..n]) ==
      Matching(find, qa[..n - 1]) + (if Matches(find, qa[n - 1].name) then [qa[n - 1]] else [])
  {
    assert qa[..n][..n - 1] == qa[..n - 1];
  }

  /** The name of a section's first record, which names a new entry. */
  function Head(qa: seq<Record>): string {
    if qa == [] then "" else qa[0].name
  }

  /** The records of a packet that pass the match test, in the order
      `onPacket` visits them: the answers, then -- unless `noQuestions` --
      the questions; none when the packet is ignored. */
  function PacketRecords(ctx: Ctx, p: Packet): seq<Record> {
    if ctx.find.None? || p.answers.None? then []
    else
      Matching(ctx.find.value, p.answers.value) +
      (if !ctx.noQuestions && p.questions.Some? then Matching(ctx.find.value, p.questions.value) else [])
  }

  /** What one section does to the found list, given its matching records
      `rs` and the name `head` of its first record: nothing for a rejected
      sender or without a match; a known sender's entry absorbs every
      match; a new sender gets one new entry -- unless a hook takes it --
      named after `head` or else after the first match, which absorbs
      every match. */
  function SectionFound(found: seq<Entry>, ctx: Ctx, kind: string, head: string, rs: seq<Record>): seq<Entry> {
    if !Accepts(ctx.filter, ctx.sender) || rs == [] then found
    else
      match IpIndex(found, ctx.sender)
      case Some(i) => found[i := AddAll(found[i], ctx.details, rs)]
      case None =>
        if ctx.hook.Some? then found
        else found + [AddAll(Entry(ctx.sender, kind, if head != "" then head else rs[0].name, map[]), ctx.details, rs)]
  }

  /** The hook calls a section makes for a sender not yet found: one per
      matching record, each with an entry built from that record alone. */
  function HookCalls(hook: HandlerId, ctx: Ctx, kind: string, head: string, rs: seq<Record>): seq<EntryCall> {
    if rs == [] then []
    else HookCalls(hook, ctx, kind, head, rs[..|rs| - 1]) + [EntryCall(hook, NewEntry(ctx, kind, head, rs[|rs| - 1]))]
  }

  /** Lists with the same address at every position find the same index. */
  lemma IpIndexSameIps(f1: seq<Entry>, f2: seq<Entry>, ip: string)
    requires |f1| == |f2| && forall j :: 0 <= j < |f1| ==> f1[j].ip == f2[j].ip
    ensures IpIndex(f1, ip) == IpIndex(f2, ip)
  {
  }

  /** After a new entry for `ip` is appended to a list without one, the
      entry is found at the end. */
  lemma IpIndexOfAppended(found: seq<Entry>, e: Entry, ip: string)
    requires !HasIp(found, ip) && e.ip == ip
    ensures IpIndex(found + [e], ip) == Some(|found|)
  {
    var f := found + [e];
    assert f[|found|].ip == ip;
    assert forall j :: 0 <= j < |found| ==> f[j] == found[j];
  }

  /** What one matching record from an accepted sender does to the found
      list: the sender's entry absorbs it, or -- without a hook -- a new
      entry is appended. */
  lemma VisitFoundStep(c: Collected, ctx: Ctx, kind: string, head: string, a: Record)
    requires ctx.find.Some? && Matches(ctx.find.value, a.name) && Accepts(ctx.filter, ctx.sender)
    ensures Visit(c, ctx, kind, head, a).found ==
      match IpIndex(c.found, ctx.sender)
      case Some(i) => c.found[i := AddDetails(c.found[i], ctx.details, a)]
      case None => if ctx.hook.Some? then c.found else c.found + [NewEntry(ctx, kind, head, a)]
  {
  }

  /** The closed form, moved on by one record, for a sender already found. */
  lemma StepKnown(f: seq<Entry>, found: seq<Entry>, ctx: Ctx, kind: string, head: string, rs: seq<Record>, a: Record, i: nat)
    requires Accepts(ctx.filter, ctx.sender) && IpIndex(found, ctx.sender) == Some(i)
    requires f == SectionFound(found, ctx, kind, head, rs)
    ensures IpIndex(f, ctx.sender) == Some(i)
    ensures f[i := AddDetails(f[i], ctx.details, a)] == SectionFound(found, ctx, kind, head, rs + [a])
  {
    var rs1 := rs + [a];
    assert rs1[..|rs1| - 1] == rs;
    if rs == [] {
      assert AddAll(found[i], ctx.details, rs1) == AddDetails(found[i], ctx.details, a);
    } else {
      IpIndexSameIps(found, f, ctx.sender);
    }
  }

  /** The first match of a new sender without a hook: one new entry. */
  lemma StepFirst(found: seq<Entry>, ctx: Ctx, kind: string, head: string, a: Record)
    requires Accepts(ctx.filter, ctx.sender) && IpIndex(found, ctx.sender).None? && ctx.hook.None?
    ensures found + [NewEntry(ctx, kind, head, a)] == SectionFound(found, ctx, kind, head, [a])
  {
    var base := Entry(ctx.sender, kind, if head != "" then head else a.name, map[]);
    assert [a][..0] == [];
    assert AddAll(base, ctx.details, [a]) == AddDetails(base, ctx.details, a);
  }

  /** A later match of a new sender without a hook: the entry the first
      match appended absorbs it. */
  lemma StepLater(f: seq<Entry>, found: seq<Entry>, ctx: Ctx, kind: string, head: string, rs: seq<Record>, a: Record)
    requires Accepts(ctx.filter, ctx.sender) && IpIndex(found, ctx.sender).None? && ctx.hook.None? && rs != []
    requires f == SectionFound(found, ctx, kind, head, rs)
    ensures IpIndex(f, ctx.sender) == Some(|found|)
    ensures f[|found| := AddDetails(f[|found|], ctx.details, a)] == SectionFound(found, ctx, kind, head, rs + [a])
  {
    var rs1 := rs + [a];
    assert rs1[..|rs1| - 1] == rs;
    assert rs1[0] == rs[0];
    var base := Entry(ctx.sender, kind, if head != "" then head else rs[0].name, map[]);
    IpIndexOfAppended(found, AddAll(base, ctx.details, rs), ctx.sender);
  }

  /** The closed form, moved on by one record, for a new sender without a
      hook. */
  lemma StepNew(f: seq<Entry>, found: seq<Entry>, ctx: Ctx, kind: string, head: string, rs: seq<Record>, a: Record)
    requires Accepts(ctx.filter, ctx.sender) && IpIndex(found, ctx.sender).None? && ctx.hook.None?
    requires f == SectionFound(found, ctx, kind, head, rs)
    ensures (match IpIndex(f, ctx.sender)
             case Some(i) => f[i := AddDetails(f[i], ctx.details, a)]
             case None => f + [NewEntry(ctx, kind, head, a)])
      == SectionFound(found, ctx, kind, head, rs + [a])
  {
    if rs == [] {
      assert f == found;
      assert [] + [a] == [a];
      StepFirst(found, ctx, kind, head, a);
    } else {
      StepLater(f, found, ctx, kind, head, rs, a);
    }
  }

  /** One more matching record, from an accepted sender, moves the closed
      form on by that record. */
  lemma VisitFound(c: Collected, found: seq<Entry>, ctx: Ctx, kind: string, head: string, rs: seq<Record>, a: Record)
    requires ctx.find.Some? && Matches(ctx.find.value, a.name) && Accepts(ctx.filter, ctx.sender)
    requires c.found == SectionFound(found, ctx, kind, head, rs)
    ensures Visit(c, ctx, kind, head, a).found == SectionFound(found, ctx, kind, head, rs + [a])
  {
    VisitFoundStep(c, ctx, kind, head, a);
    match IpIndex(found, ctx.sender)
    case Some(i) =>
      StepKnown(c.found, found, ctx, kind, head, rs, a, i);
    case None =>
      if ctx.hook.None? {
        StepNew(c.found, found, ctx, kind, head, rs, a);
      } else {
        assert c.found == found;
      }
  }

  /** The fold over a section's first `n` records gives the closed form of
      the found list. */
  lemma {:induction false} SectionFoundIs(c: Collected, ctx: Ctx, qa: seq<Record>, kind: string, n: nat)
    requires ctx.find.Some? && n <= |qa|
    ensures SectionUpTo(c, ctx, qa, kind, n).found == SectionFound(c.found, ctx, kind, Head(qa), Matching(ctx.find.value, qa[..n]))
  {
    if n == 0 {
      assert qa[..0] == [];
    } else {
      var find := ctx.find.value;
      var a := qa[n - 1];
      SectionFoundIs(c, ctx, qa, kind, n - 1);
      var mid := SectionUpTo(c, ctx, qa, kind, n - 1);
      assert Head(qa) == qa[0].name;
      assert SectionUpTo(c, ctx, qa, kind, n) == Visit(mid, ctx, kind, Head(qa), a);
      var rs := Matching(find, qa[..n - 1]);
      MatchingSnoc(find, qa, n);
      if Matches(find, a.name) && Accepts(ctx.filter, ctx.sender) {
        VisitFound(mid, c.found, ctx, kind, Head(qa), rs, a);
      } else {
        assert rs + [] == rs;
      }
    }
  }

  /** The hook calls for one more matching record. */
  lemma HookCallsSnoc(hook: HandlerId, ctx: Ctx, kind: string, head: string, rs: seq<Record>, a: Record)
    ensures HookCalls(hook, ctx, kind, head, rs + [a]) == HookCalls(hook, ctx, kind, head, rs) + [EntryCall(hook, NewEntry(ctx, kind, head, a))]
  {
    assert (rs + [a])[..|rs|] == rs;
  }

  /** One record, with a hook and a sender not yet found, moves the
      closed form of the hook calls on by that record when it matches;
      the found list stays. */
  lemma VisitHook(mid: Collected, found: seq<Entry>, calls: seq<EntryCall>, ctx: Ctx, kind: string, head: string, rs: seq<Record>, a: Record)
    requires ctx.find.Some? && ctx.hook.Some? && Accepts(ctx.filter, ctx.sender) && !HasIp(found, ctx.sender)
    requires mid.found == found && mid.entryCalls == calls + HookCalls(ctx.hook.value, ctx, kind, head, rs)
    ensures var r := Visit(mid, ctx, kind, head, a);
      r.found == found &&
      r.entryCalls == calls + HookCalls(ctx.hook.value, ctx, kind, head, rs + (if Matches(ctx.find.value, a.name) then [a] else []))
  {
    var hook := ctx.hook.value;
    if Matches(ctx.find.value, a.name) {
      var hc := HookCalls(hook, ctx, kind, head, rs);
      var call := EntryCall(hook, NewEntry(ctx, kind, head, a));
      HookCallsSnoc(hook, ctx, kind, head, rs, a);
      assert IpIndex(found, ctx.sender).None?;
      assert calls + hc + [call] == calls + (hc + [call]);
    } else {
      assert rs + [] == rs;
    }
  }

  /** With a hook and a sender not yet found, a section keeps the found
      list and calls the hook once per matching record. */
  lemma {:induction false} SectionHookCalls(c: Collected, ctx: Ctx, qa: seq<Record>, kind: string, n: nat)
    requires ctx.find.Some? && n <= |qa| && ctx.hook.Some? && !HasIp(c.found, ctx.sender)
    ensures var r := SectionUpTo(c, ctx, qa, kind, n);
      r.found == c.found &&
      r.entryCalls == c.entryCalls +
        (if Accepts(ctx.filter, ctx.sender) then HookCalls(ctx.hook.value, ctx, kind, Head(qa), Matching(ctx.find.value, qa[..n])) else [])
  {
    if n == 0 {
      assert qa[..0] == [];
      assert c.entryCalls + [] == c.entryCalls;
    } else if Accepts(ctx.filter, ctx.sender) {
      SectionHookCalls(c, ctx, qa, kind, n - 1);
      var mid := SectionUpTo(c, ctx, qa, kind, n - 1);
      assert Head(qa) == qa[0].name;
      assert SectionUpTo(c, ctx, qa, kind, n) == Visit(mid, ctx, kind, Head(qa), qa[n - 1]);
      MatchingSnoc(ctx.find.value, qa, n);
      VisitHook(mid, c.found, c.entryCalls, ctx, kind, Head(qa), Matching(ctx.find.value, qa[..n - 1]), qa[n - 1]);
    } else {
      assert c.entryCalls + [] == c.entryCalls;
    }
  }

  /** A whole section: the closed form over all its matching records. */
  lemma SectionFoundAll(c: Collected, ctx: Ctx, qa: seq<Record>, kind: string)
    requires ctx.find.Some?
    ensures SectionUpTo(c, ctx, qa, kind, |qa|).found == SectionFound(c.found, ctx, kind, Head(qa), Matching(ctx.find.value, qa))
  {
    SectionFoundIs(c, ctx, qa, kind, |qa|);
    assert qa[..|qa|] == qa;
  }

  /** A whole section from a sender already found: its entry absorbs the
      section's matching records, and stays where it was. */
  lemma KnownSectionFound(c: Collected, ctx: Ctx, qa: seq<Record>, kind: string, i: nat)
    requires ctx.find.Some? && Accepts(ctx.filter, ctx.sender) && IpIndex(c.found, ctx.sender) == Some(i)
    ensures var f := SectionUpTo(c, ctx, qa, kind, |qa|).found;
      f == c.found[i := AddAll(c.found[i], ctx.details, Matching(ctx.find.value, qa))] &&
      IpIndex(f, ctx.sender) == Some(i)
  {
    var ms := Matching(ctx.find.value, qa);
    SectionFoundAll(c, ctx, qa, kind);
    var f := c.found[i := AddAll(c.found[i], ctx.details, ms)];
    if ms == [] {
      assert f == c.found;
    }
    IpIndexSameIps(c.found, f, ctx.sender);
  }

  /** The questions of a packet from a sender already found, after the
      answers: its entry, which absorbed the answers' matches `ms1`, goes
      on to absorb the questions' matches. */
  lemma KnownThenQuestions(c: Collected, c1: Collected, ctx: Ctx, qs: seq<Record>, ms1: seq<Record>, i: nat)
    requires ctx.find.Some? && Accepts(ctx.filter, ctx.sender) && IpIndex(c.found, ctx.sender) == Some(i)
    requires c1.found == c.found[i := AddAll(c.found[i], ctx.details, ms1)] && IpIndex(c1.found, ctx.sender) == Some(i)
    ensures SectionUpTo(c1, ctx, qs, "query", |qs|).found ==
      c.found[i := AddAll(c.found[i], ctx.details, ms1 + Matching(ctx.find.value, qs))]
  {
    var ms2 := Matching(ctx.find.value, qs);
    KnownSectionFound(c1, ctx, qs, "query", i);
    AddAllAppend(c.found[i], ctx.details, ms1, ms2);
    var e1 := AddAll(c.found[i], ctx.details, ms1);
    var e2 := AddAll(c.found[i], ctx.details, ms1 + ms2);
    assert c1.found[i] == e1;
    assert c.found[i := e1][i := e2] == c.found[i := e2];
  }

  /** The found list after a packet from a sender already found: its entry
      absorbs every matching record of the packet, in order. */
  lemma RepeatSenderFound(c: Collected, ctx: Ctx, p: Packet)
    requires HasIp(c.found, ctx.sender)
    ensures var i := IpIndex(c.found, ctx.sender).value;
      PacketEffect(c, ctx, p).found ==
        c.found[i := AddAll(c.found[i], ctx.details, if Accepts(ctx.filter, ctx.sender) then PacketRecords(ctx, p) else [])]
  {
    var i := IpIndex(c.found, ctx.sender).value;
    if ctx.find.None? || p.answers.None? || !Accepts(ctx.filter, ctx.sender) {
      assert c.found[i := AddAll(c.found[i], ctx.details, [])] == c.found;
    } else {
      var ms1 := Matching(ctx.find.value, p.answers.value);
      var c1 := SectionUpTo(c, ctx, p.answers.value, "answer", |p.answers.value|);
      KnownSectionFound(c, ctx, p.answers.value, "answer", i);
      if !ctx.noQuestions && p.questions.Some? {
        KnownThenQuestions(c, c1, ctx, p.questions.value, ms1, i);
      } else {
        assert ms1 + [] == ms1;
      }
    }
  }

  /** A repeat address only merges details, into its own entry: when the
      sender is already found, its entry absorbs every matching record of
      the packet (answers, then the questions unless `noQuestions`), every
      other entry stays as it was, no entry is added or handed to the
      hook, nothing is closed and nobody is called back. */
  lemma RepeatSenderOnlyMerges(c: Collected, ctx: Ctx, p: Packet)
    requires HasIp(c.found, ctx.sender)
    ensures var r := PacketEffect(c, ctx, p);
      |r.found| == |c.found| && r.entryCalls == c.entryCalls && r.readyCalls == c.readyCalls &&
      r.clients == c.clients && r.timer == c.timer &&
      (forall i :: 0 <= i < |c.found| ==> Evolves(c.found[i], r.found[i]))
    ensures var i := IpIndex(c.found, ctx.sender).value;
      PacketEffect(c, ctx, p).found ==
        c.found[i := AddAll(c.found[i], ctx.details, if Accepts(ctx.filter, ctx.sender) then PacketRecords(ctx, p) else [])]
  {
    PacketEffectExtends(c, ctx, p);
    RepeatSenderNeverEmits(c, ctx, p);
    RepeatSenderFound(c, ctx, p);
  }

  /** A whole section from a new sender without a hook: nothing without a
      match, else one new entry, named after the section's first record
      when that has a name, else after the first match, which absorbs
      every match. */
  lemma NewSectionFound(c: Collected, ctx: Ctx, qa: seq<Record>, kind: string)
    requires ctx.find.Some? && !HasIp(c.found, ctx.sender) && ctx.hook.None? && Accepts(ctx.filter, ctx.sender)
    ensures var ms := Matching(ctx.find.value, qa);
      var f := SectionUpTo(c, ctx, qa, kind, |qa|).found;
      (ms == [] ==> f == c.found) &&
      (ms != [] ==> f == c.found + [AddAll(Entry(ctx.sender, kind, if Head(qa) != "" then Head(qa) else ms[0].name, map[]), ctx.details, ms)])
  {
    SectionFoundAll(c, ctx, qa, kind);
    assert IpIndex(c.found, ctx.sender).None?;
  }

  /** The questions of a packet from a new sender without a hook, after
      answers that appended entry `e`: that entry absorbs the questions'
      matches. */
  lemma NewThenQuestions(c: Collected, c1: Collected, ctx: Ctx, qs: seq<Record>, e: Entry)
    requires ctx.find.Some? && Accepts(ctx.filter, ctx.sender) && !HasIp(c.found, ctx.sender) && e.ip == ctx.sender
    requires c1.found == c.found + [e]
    ensures SectionUpTo(c1, ctx, qs, "query", |qs|).found == c.found + [AddAll(e, ctx.details, Matching(ctx.find.value, qs))]
  {
    IpIndexOfAppended(c.found, e, ctx.sender);
    KnownSectionFound(c1, ctx, qs, "query", |c.found|);
    assert c1.found[|c.found| := AddAll(e, ctx.details, Matching(ctx.find.value, qs))] ==
      c.found + [AddAll(e, ctx.details, Matching(ctx.find.value, qs))];
  }

  /** A new sender without a hook: when no record of the packet matches,
      the found list stays as it was; otherwise exactly one entry is
      appended. It belongs to the section of the first match (answers
      before questions), is named after that section's first record when
      that has a name, else after the first match, and carries the details
      of every matching record of the packet, absorbed in order. */
  lemma NewSenderEntry(c: Collected, ctx: Ctx, p: Packet)
    requires !HasIp(c.found, ctx.sender) && ctx.hook.None? && Accepts(ctx.filter, ctx.sender)
    ensures var rs := PacketRecords(ctx, p);
      rs == [] ==> PacketEffect(c, ctx, p).found == c.found
    ensures var rs := PacketRecords(ctx, p);
      rs != [] ==>
        var fromAnswers := Matching(ctx.find.value, p.answers.value) != [];
        var section := if fromAnswers then p.answers.value else p.questions.value;
        var name := if section[0].name != "" then section[0].name else rs[0].name;
        PacketEffect(c, ctx, p).found ==
          c.found + [AddAll(Entry(ctx.sender, if fromAnswers then "answer" else "query", name, map[]), ctx.details, rs)]
  {
    if ctx.find.Some? && p.answers.Some? {
      var qa := p.answers.value;
      var ms1 := Matching(ctx.find.value, qa);
      var c1 := SectionUpTo(c, ctx, qa, "answer", |qa|);
      NewSectionFound(c, ctx, qa, "answer");
      if !ctx.noQuestions && p.questions.Some? {
        var qs := p.questions.value;
        var ms2 := Matching(ctx.find.value, qs);
        if ms1 == [] {
          NewSectionFound(c1, ctx, qs, "query");
          assert [] + ms2 == ms2;
        } else {
          var base := Entry(ctx.sender, "answer", if Head(qa) != "" then Head(qa) else ms1[0].name, map[]);
          NewThenQuestions(c, c1, ctx, qs, AddAll(base, ctx.details, ms1));
          AddAllAppend(base, ctx.details, ms1, ms2);
          assert (ms1 + ms2)[0] == ms1[0];
        }
      } else {
        assert ms1 + [] == ms1;
      }
    }
  }

  /** A new sender with a hook installed: the found list stays as it was,
      and the hook is called once per matching record of the packet, in
      order, each time with an entry built from that record alone. */
  lemma NewSenderHookCalls(c: Collected, ctx: Ctx, p: Packet)
    requires !HasIp(c.found, ctx.sender) && ctx.hook.Some? && Accepts(ctx.filter, ctx.sender)
    ensures PacketEffect(c, ctx, p).found == c.found
    ensures ctx.find.Some? && p.answers.Some? ==>
      PacketEffect(c, ctx, p).entryCalls == c.entryCalls +
        HookCalls(ctx.hook.value, ctx, "answer", Head(p.answers.value), Matching(ctx.find.value, p.answers.value)) +
        (if !ctx.noQuestions && p.questions.Some? then
           HookCalls(ctx.hook.value, ctx, "query", Head(p.questions.value), Matching(ctx.find.value, p.questions.value))
         else [])
  {
    if ctx.find.Some? && p.answers.Some? {
      var qa := p.answers.value;
      var c1 := SectionUpTo(c, ctx, qa, "answer", |qa|);
      SectionHookCalls(c, ctx, qa, "answer", |qa|);
      assert qa[..|qa|] == qa;
      if !ctx.noQuestions && p.questions.Some? {
        var qs := p.questions.value;
        SectionHookCalls(c1, ctx, qs, "query", |qs|);
        assert qs[..|qs|] == qs;
      } else {
        assert c1.entryCalls + [] == c1.entryCalls;
      }
    }
  }

  /** With `noQuestions` (the default) the questions section is never
      read: a packet does what it would do without one. */
  lemma QuestionsIgnoredUnlessEnabled(c: Collected, ctx: Ctx, p: Packet)
    requires ctx.noQuestions
    ensures PacketEffect(c, ctx, p) == PacketEffect(c, ctx, p.(questions := None))
    ensures PacketRecords(ctx, p) == PacketRecords(ctx, p.(questions := None))
  {
  }
}
