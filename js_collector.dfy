/** The collector of the JavaScript prototype, `onPacket`, as a fold over
    the answers of a packet, and the closed form that fold equals: one
    packet adds at most one entry, for the first matching record. */
module JsCollector {
  import opened MdnsCommon
  import opened JsValues

  /** An element of `found`: `{ip, name}`. */
  datatype JsEntry = JsEntry(ip: string, name: string)

  /** A call of the ready callback with the found list it received. */
  datatype JsReadyCall = JsReadyCall(callback: CallbackId, results: seq<JsEntry>)

  /** The settings `onPacket` reads -- the `find` option as given, the
      filter, whether `returnOnFirstFound` is truthy, the stored ready
      callback -- and the sender's address. */
  datatype Ctx = Ctx(find: JsValue, filter: Filter, returnOnFirstFound: bool, readyCallback: Option<CallbackId>,
                     sender: string)

  /** Everything `onPacket` may change: the found list, the client slots,
      whether a timer is pending, what was done outside -- sockets closed,
      ready-callback calls -- and whether a TypeError ended the call. */
  datatype Collected = Collected(found: seq<JsEntry>, clients: seq<Option<Socket<JsValue>>>, timer: bool,
                                 closedSockets: seq<Socket<JsValue>>, readyCalls: seq<JsReadyCall>, threw: bool)

  /** `close()`: the timer is cleared, every open socket closed, every slot
      set to undefined. */
  function CloseAll(c: Collected): Collected {
    c.(timer := false, clients := Cleared(c.clients), closedSockets := c.closedSockets + Live(c.clients))
  }

  /** A second `close()` changes nothing. */
  lemma CloseAllIdempotent(c: Collected)
    ensures CloseAll(CloseAll(c)) == CloseAll(c)
  {
    CloseIsIdempotent(c.clients);
  }

  /** `name.indexOf(find) === 0`; `indexOf` converts `find` to a string. */
  predicate Matches(find: JsValue, name: string) {
    IndexOf(name, ToText(find)) == 0
  }

  /** A record matches exactly when the text of `find` is a prefix of its
      name: there is no wildcard, `*` matches only names starting with
      `*`. */
  lemma MatchesIff(find: JsValue, name: string)
    ensures Matches(find, name) <==> ToText(find) <= name
    ensures Matches(Str("*"), name) <==> |name| > 0 && name[0] == '*'
  {
    IndexOfZeroIffPrefix(name, ToText(find));
    assert "*" <= name <==> |name| > 0 && name[0] == '*';
  }

  /** `found.find(v => v.ip === address)` finds an entry. */
  predicate Known(found: seq<JsEntry>, ip: string) {
    exists i :: 0 <= i < |found| && found[i].ip == ip
  }

  /** The name of a new entry: the section's first record's name when that
      is non-empty, else the matching record's. */
  function EntryName(head: string, a: Record): string {
    if head != "" then head else a.name
  }

  /** A record is let through to the push: no TypeError so far, it matches,
      the filter accepts the sender and the sender is not yet known. */
  predicate Admits(c: Collected, ctx: Ctx, a: Record) {
    !c.threw && Matches(ctx.find, a.name) && Accepts(ctx.filter, ctx.sender) && !Known(c.found, ctx.sender)
  }

  /** What a record that is let through does: push the entry; under
      `returnOnFirstFound` close, then call the ready callback, which throws
      a TypeError when none was stored. */
  function Admit(c: Collected, ctx: Ctx, name: string): Collected {
    var c1 := c.(found := c.found + [JsEntry(ctx.sender, name)]);
    if !ctx.returnOnFirstFound then c1
    else
      var c2 := CloseAll(c1);
      match ctx.readyCallback
      case Some(cb) => c2.(readyCalls := c2.readyCalls + [JsReadyCall(cb, c2.found)])
      case None => c2.(threw := true)
  }

  /** Nothing can be admitted any more: a TypeError ended the call, or the
      filter rejects the sender, or the sender is already found. */
  predicate Blocked(c: Collected, ctx: Ctx) {
    c.threw || !Accepts(ctx.filter, ctx.sender) || Known(c.found, ctx.sender)
  }

  /** The found list and the logs of what was done outside only grow at
      their ends. */
  predicate Grows(c: Collected, c2: Collected) {
    c.found <= c2.found && c.closedSockets <= c2.closedSockets && c.readyCalls <= c2.readyCalls
  }

  /** One iteration of the `forEach` over the answers, for record `a` of a
      section whose first record is named `head`: the found list and the
      logs only grow, and nothing changes once admission is blocked. */
  function Visit(c: Collected, ctx: Ctx, head: string, a: Record): (r: Collected)
    ensures Grows(c, r)
    ensures Blocked(c, ctx) ==> r == c
  {
    if Admits(c, ctx, a) then Admit(c, ctx, EntryName(head, a)) else c
  }

  /** The `forEach` after its first `n` iterations: the found list and the
      logs only grow, and after a TypeError, or for a sender that is
      rejected or already found, nothing changes. */
  function SectionUpTo(c: Collected, ctx: Ctx, qa: seq<Record>, n: nat): (r: Collected)
    requires n <= |qa|
    ensures Grows(c, r)
    ensures Blocked(c, ctx) ==> r == c
  {
    if n == 0 then c else Visit(SectionUpTo(c, ctx, qa, n - 1), ctx, qa[0].name, qa[n - 1])
  }

  /** `onPacket`: nothing when `find` is falsy or the packet has no answers;
      otherwise every answer in order. The questions are never read. A
      sender the filter rejects, or one already in `found`, changes nothing
      at all -- unlike the TypeScript client, this one merges no details --
      and neither does any packet after a TypeError. */
  function PacketEffect(c: Collected, ctx: Ctx, p: Packet): (r: Collected)
    ensures Grows(c, r)
    ensures Blocked(c, ctx) ==> r == c
  {
    if !Truthy(ctx.find) || p.answers.None? then c
    else SectionUpTo(c, ctx, p.answers.value, |p.answers.value|)
  }

  // ---------------------------------------------------------------------
  // The closed form

  /** The index of the first record of `qa` that matches. */
  function FirstMatch(find: JsValue, qa: seq<Record>): (r: Option<nat>)
    ensures r.None? <==> forall i :: 0 <= i < |qa| ==> !Matches(find, qa[i].name)
    ensures r.Some? ==> (r.value < |qa| && Matches(find, qa[r.value].name) &&
      forall j :: 0 <= j < r.value ==> !Matches(find, qa[j].name))
  {
    if qa == [] then None
    else
      var init := qa[..|qa| - 1];
      var r := FirstMatch(find, init);
      assert forall i :: 0 <= i < |init| ==> init[i] == qa[i];
      if r.Some? then r
      else if Matches(find, qa[|qa| - 1].name) then Some(|qa| - 1)
      else None
  }

  /** What a whole section does, stated without the loop: if any record
      matches, the sender is new and accepted, and nothing threw before,
      the first matching record is admitted; otherwise nothing changes. */
  function Outcome(c: Collected, ctx: Ctx, head: string, qa: seq<Record>): (r: Collected)
    ensures r != c ==>
      !Blocked(c, ctx) &&
      exists i :: 0 <= i < |qa| && Matches(ctx.find, qa[i].name) &&
        (forall j :: 0 <= j < i ==> !Matches(ctx.find, qa[j].name)) && r == Admit(c, ctx, EntryName(head, qa[i]))
  {
    match FirstMatch(ctx.find, qa)
    case None => c
    case Some(i) =>
      if c.threw || !Accepts(ctx.filter, ctx.sender) || Known(c.found, ctx.sender) then c
      else Admit(c, ctx, EntryName(head, qa[i]))
  }

  /** After an admission the sender is known, or the call threw. */
  lemma AdmitBlocksSender(c: Collected, ctx: Ctx, name: string)
    ensures var c2 := Admit(c, ctx, name);
      c2.threw || Known(c2.found, ctx.sender)
  {
    var c2 := Admit(c, ctx, name);
    assert c2.found == c.found + [JsEntry(ctx.sender, name)];
    assert c2.found[|c.found|].ip == ctx.sender;
  }

  /** One more record after the closed form of a prefix gives the closed
      form of the longer prefix. */
  lemma VisitAfterOutcome(c: Collected, ctx: Ctx, head: string, qa: seq<Record>, a: Record)
    ensures Visit(Outcome(c, ctx, head, qa), ctx, head, a) == Outcome(c, ctx, head, qa + [a])
  {
    var qa1 := qa + [a];
    assert qa1[..|qa1| - 1] == qa;
    var m := FirstMatch(ctx.find, qa);
    if m.Some? {
      assert qa1[m.value] == qa[m.value];
      if Outcome(c, ctx, head, qa) != c {
        AdmitBlocksSender(c, ctx, EntryName(head, qa[m.value]));
      }
    }
  }

  /** The fold over the first `n` records is the closed form on them. */
  lemma {:induction false} SectionUpToIsOutcome(c: Collected, ctx: Ctx, qa: seq<Record>, n: nat)
    requires 0 < |qa| && n <= |qa|
    ensures SectionUpTo(c, ctx, qa, n) == Outcome(c, ctx, qa[0].name, qa[..n])
  {
    if n == 0 {
      assert qa[..0] == [];
    } else {
      var init := qa[..n - 1];
      assert init + [qa[n - 1]] == qa[..n];
      SectionUpToIsOutcome(c, ctx, qa, n - 1);
      VisitAfterOutcome(c, ctx, qa[0].name, init, qa[n - 1]);
    }
  }

  /** `onPacket` in closed form: nothing without a truthy `find` and a
      non-empty answers section; otherwise the outcome of the answers. */
  lemma PacketOutcome(c: Collected, ctx: Ctx, p: Packet)
    ensures PacketEffect(c, ctx, p) ==
      (if !Truthy(ctx.find) || p.answers.None? || p.answers.value == [] then c
       else Outcome(c, ctx, p.answers.value[0].name, p.answers.value))
  {
    if Truthy(ctx.find) && p.answers.Some? && p.answers.value != [] {
      var qa := p.answers.value;
      SectionUpToIsOutcome(c, ctx, qa, |qa|);
      assert qa[..|qa|] == qa;
    }
  }

  // ---------------------------------------------------------------------
  // What onPacket guarantees

  predicate UniqueIps(found: seq<JsEntry>) {
    forall i, j :: 0 <= i < j < |found| ==> found[i].ip != found[j].ip
  }

  /** A packet either changes nothing, or admits exactly one entry: for a
      sender that is new and accepted, named after the first answer or,
      failing that, after the first matching answer. */
  lemma PacketAdmitsAtMostOne(c: Collected, ctx: Ctx, p: Packet)
    ensures var c2 := PacketEffect(c, ctx, p);
      c2 == c ||
      (Truthy(ctx.find) && p.answers.Some? && !c.threw && Accepts(ctx.filter, ctx.sender) &&
       !Known(c.found, ctx.sender) &&
       exists i :: 0 <= i < |p.answers.value| && Matches(ctx.find, p.answers.value[i].name) &&
         (forall j :: 0 <= j < i ==> !Matches(ctx.find, p.answers.value[j].name)) &&
         c2 == Admit(c, ctx, EntryName(p.answers.value[0].name, p.answers.value[i])))
  {
    PacketOutcome(c, ctx, p);
  }

  /** The found list only grows at its end, by at most one entry, which
      belongs to the sender, and never gains a second entry for an address. */
  lemma PacketKeepsFoundUnique(c: Collected, ctx: Ctx, p: Packet)
    ensures var c2 := PacketEffect(c, ctx, p);
      c.found <= c2.found && |c2.found| <= |c.found| + 1 &&
      (|c2.found| > |c.found| ==> c2.found[|c.found|].ip == ctx.sender && Accepts(ctx.filter, ctx.sender)) &&
      (UniqueIps(c.found) ==> UniqueIps(c2.found))
  {
    PacketAdmitsAtMostOne(c, ctx, p);
    var c2 := PacketEffect(c, ctx, p);
    if c2 != c {
      assert c2.found == c.found + [c2.found[|c.found|]];
    }
  }

  /** The early exit: only a new entry under `returnOnFirstFound` closes
      the client; it then calls the stored ready callback once with the
      found list, or throws when there is none. */
  lemma EarlyExit(c: Collected, ctx: Ctx, p: Packet)
    requires !c.threw
    ensures var c2 := PacketEffect(c, ctx, p);
      var added := |c2.found| > |c.found|;
      (if ctx.returnOnFirstFound && added then
         !c2.timer && c2.clients == Cleared(c.clients) && c2.closedSockets == c.closedSockets + Live(c.clients)
       else
         c2.timer == c.timer && c2.clients == c.clients && c2.closedSockets == c.closedSockets) &&
      (c2.threw <==> ctx.returnOnFirstFound && added && ctx.readyCallback.None?) &&
      c2.readyCalls == c.readyCalls +
        (if ctx.returnOnFirstFound && added && ctx.readyCallback.Some? then
           [JsReadyCall(ctx.readyCallback.value, c2.found)] else [])
  {
    PacketAdmitsAtMostOne(c, ctx, p);
  }
}
