# mdns-discovery: the response collector, modelled in Dafny

`mdns-discovery` is a multicast DNS (RFC 6762) discovery client for Node.js.
It sends PTR questions on every usable IPv4 interface. It collects the
addresses that answer into a `found` list and hands that list to a ready
callback when a timer expires, or as soon as the first match arrives.

The repository holds two versions of the client, and this project models both:

- `src/mdns-discovery.ts`, the TypeScript class;
- `mdns-discovery.js`, the older JavaScript prototype.

The modelled part covers:

- option handling;
- interface selection;
- the bookkeeping of `run`, `close` and the timer;
- the filter and the `onIP` registrations;
- the decode gate of `onMessage`;
- above all the entry collector, `onPacket`.

Layout:

| file | module | contents |
|---|---|---|
| mdns_common.dfy | `MdnsCommon` | records, packets, the interface table, sockets, `indexOf`, interface selection, `close()` on the client list, `onIP` registrations, the filter |
| ts_collector.dfy | `TsCollector` | TypeScript `onPacket`/`addDetails`/`doIt` as a left fold over records, what it preserves (`Extends`), and what a packet puts into `found`, stated without the loop |
| ts_discovery.dfy | `TsDiscovery` | the TypeScript class: fields updated in place, each method proved against the fold or a function of the old state |
| ts_scenarios.dfy | `TsScenarios` | whole-client consequences: aliased defaults, `findFirstIP` that never settles early |
| js_values.dfy | `JsValues` | JavaScript values, strict-mode property get/set, `String(v)` |
| js_options.dfy | `JsOptions` | `defaultOptions`, `checkOptions` (a method proved against a fold over the defaults tree), `setOptions` |
| js_collector.dfy | `JsCollector` | JavaScript `onPacket` as a fold, and the closed form it equals |
| js_discovery.dfy | `JsDiscovery` | the JavaScript prototype as a class; a method that can throw returns a `Result` |
| js_scenarios.dfy | `JsScenarios` | concrete runs where the two versions differ |

Outside inputs are parameters:

- a decoded packet with its sender address (`None` when decoding fails);
- the OS interface table as a sequence of `(family, address, internal)` rows;
- callbacks and handlers as opaque identities.

Timers are modelled like this:

- "timer armed" is a field (TypeScript: the callback the closure captured; JavaScript: a flag);
- "timer fired" is the explicit method `TimerFires`.

What the client does outside itself is appended to log fields:

- sockets closed;
- ready-callback calls;
- entry-hook calls;
- `onIP` handler calls.

Quirks of the source are kept as written:

- A new entry is named after the first record of its section (`qa[0].name`, `answers[0].name`).
- `d.dataa.push[a.data]` never pushes, so `dataa` keeps only the first data value.
- An `entry` hook gets new entries instead of `found`.
- In TypeScript the ready callback is stored only by the timer, so an early match never calls back.
- TypeScript's `setOptions` copies `DEFAULT_OPTIONS` shallowly. The question and interface objects are shared between instances.
- JavaScript copies the default array instead.
- JavaScript forces `timeout` to 0 when neither `find` nor `timeout` was given.
- JavaScript has no `*` wildcard and does not merge details on a repeat address.
- JavaScript calls `readyCallback` unconditionally under `returnOnFirstFound`, which throws a TypeError when none is stored.

## Model

| member | source | states |
|---|---|---|
| MdnsCommon.IndexOf | src/mdns-discovery.ts:274 | the result is the first index where the pattern occurs, or -1 when it occurs nowhere |
| MdnsCommon.IndexOfZeroIffPrefix | mdns-discovery.js:201 | `name.indexOf(find) === 0` holds exactly when `find` is a prefix of `name` |
| MdnsCommon.UsableAddressesMembers | src/mdns-discovery.ts:81-84 | an address is selected iff some IPv4, non-`127.0.0.1`, non-internal row carries it |
| MdnsCommon.UsableAddressesAppend | mdns-discovery.js:76-85 | selection keeps enumeration order: two consecutive parts of the table give their addresses one after the other |
| MdnsCommon.Cleared | src/mdns-discovery.ts:172-175 | after `close()` the client list has the same length and every slot is undefined |
| MdnsCommon.CloseIsIdempotent | mdns-discovery.js:150-153 | a second `close()` closes no socket and leaves the list as the first one left it |
| MdnsCommon.LiveAreInList | src/mdns-discovery.ts:172-173 | the sockets `close()` closes are exactly the non-empty slots |
| MdnsCommon.OpenedSockets | src/mdns-discovery.ts:144-145 | `prepare` per address opens one slot per address, bound to it, and a later `close()` closes every one |
| MdnsCommon.Registrations | src/mdns-discovery.ts:321-347 | `onIP` registers nothing with fewer than two arguments or without a function last; otherwise one `{ip, fn}` per leading argument, in order, all with the last argument as handler |
| MdnsCommon.HandlerFor | src/mdns-discovery.ts:234-239 | the handler called is that of the first registration for the sender's address, and none when no registration has it |
| MdnsCommon.EarlierRegistrationWins | mdns-discovery.js:260-265 | registering more handlers never changes who answers for an address that already had one |
| MdnsCommon.FindExcluded | src/mdns-discovery.ts:217-220 | the exclusion list has an element whose property equals the candidate's iff the result is an index of such an element |
| MdnsCommon.ExclusionOnIp | src/mdns-discovery.ts:210-222 | `setFilter("ip", arr)` accepts a sender iff no element of `arr` has that `ip` |
| MdnsCommon.ExclusionOnOtherProperty | mdns-discovery.js:186-191 | on any property but `ip` the candidate's value is undefined, so the filter accepts iff every element has that property |
| TsCollector.AddDetails | src/mdns-discovery.ts:248-270 | `addDetails` never changes an entry's address, section or name; with details off or without a record type it changes nothing; otherwise the record's type slot becomes the old slot (or a fresh one) merged with the record, and every other slot stays as it was |
| TsCollector.FirstLongest | src/mdns-discovery.ts:257 | the primary name is a longest name, and no earlier name is as long |
| TsCollector.AccumulateSlot | src/mdns-discovery.ts:253-268 | after a run of records of one type: the primary name is the first longest name; `names` lists every name once two have arrived; `data` is the latest value; `dataa` holds only the first value (the `push[...]` bug) |
| TsCollector.AccumulateNames | src/mdns-discovery.ts:253-261 | the name half of the slot invariant above |
| TsCollector.AccumulateData | src/mdns-discovery.ts:262-268 | the data half of the slot invariant above |
| TsCollector.DetailsArePerType | src/mdns-discovery.ts:248-251 | from any starting details: a type's slot exists afterwards iff it existed before or a record of that type arrived, and it is the previous slot (or a fresh one) having absorbed exactly the records of that type, in order; with details off nothing changes |
| TsCollector.AddAll | src/mdns-discovery.ts:283-294 | merging any run of records into an entry keeps its address, section and name |
| TsCollector.AddAllAppend | src/mdns-discovery.ts:283-286 | absorbing two runs of records one after the other is absorbing their concatenation |
| TsCollector.CloseAllIdempotent | src/mdns-discovery.ts:166-176 | closing a second time changes nothing |
| TsCollector.MatchesIff | src/mdns-discovery.ts:274 | the match test holds iff `find` is `*` or `name.indexOf(find) === 0` |
| TsCollector.IpIndex | src/mdns-discovery.ts:279-281 | the lookup finds an entry with the sender's address iff there is one, and then the first such entry |
| TsCollector.NewEntry | src/mdns-discovery.ts:288-294 | a new entry has the sender's address, the section, the name of the section's first record when that is non-empty and else the matching record's; with details on and a record type its only slot is that record merged into a fresh slot, otherwise it has none |
| TsCollector.Visit | src/mdns-discovery.ts:273-309 | a record that does not match, or one from a rejected sender, changes nothing; from a sender already found it adds no entry, calls neither hook nor callback, and closes nothing |
| TsCollector.SectionUpTo | src/mdns-discovery.ts:272-311 | a section from a rejected sender changes nothing |
| TsCollector.PacketEffect | src/mdns-discovery.ts:245-317 | a packet from a rejected sender changes nothing at all, details included |
| TsCollector.Matching | src/mdns-discovery.ts:273-274 | the selected records all pass the match test, and are no more than the records given |
| TsCollector.DetailsGrowByMerge | src/mdns-discovery.ts:253-268 | merging a record never loses a name list entry, never shortens the primary name, never loses data, never changes an existing `dataa` |
| TsCollector.EvolvesByAddDetails | src/mdns-discovery.ts:284 | merging into an existing entry keeps its address, section and name, and details only grow |
| TsCollector.ExtendsTrans | src/mdns-discovery.ts:273-310 | the per-packet guarantees compose over consecutive records |
| TsCollector.VisitExtends | src/mdns-discovery.ts:273-309 | one record of `doIt` keeps the guarantees below |
| TsCollector.SectionExtends | src/mdns-discovery.ts:272-311 | a whole section keeps them |
| TsCollector.PacketEffectExtends | src/mdns-discovery.ts:245-319 | one packet: `found` grows by at most one entry, only for a new, accepted sender; addresses stay distinct; existing entries keep address, section and name, and their details only grow; with a hook, new entries go to the hook and never to `found`; under `returnOnFirstFound` a created entry clears the timer and closes every socket, and the stored callback (if any) is called once per created entry; nothing else closes or calls back |
| TsCollector.PacketKeepsIpsUnique | src/mdns-discovery.ts:279-299 | without two entries for one address before a packet, there are none after |
| TsCollector.FoundStaysAccepted | src/mdns-discovery.ts:275-277 | an address the filter rejects never enters `found` |
| TsCollector.NoEarlyCallbackWithoutStoredOne | src/mdns-discovery.ts:305-307 | with no stored ready callback a packet calls nobody back |
| TsCollector.GateIgnoresPacket | src/mdns-discovery.ts:246 | without `find` or without an answers section a packet is ignored |
| TsCollector.RepeatSenderOnlyMerges | src/mdns-discovery.ts:272-316 | from an already-found address a packet only merges: that address's entry absorbs every matching record of the packet (answers, then questions unless `noQuestions`) in order, every other entry stays as it was, and nothing is added, handed to the hook, closed or called back |
| TsCollector.RepeatSenderNeverEmits | src/mdns-discovery.ts:283-286 | from an already-found address the hook is not called |
| TsCollector.SectionNeverEmits | src/mdns-discovery.ts:279-286 | the same over a section: no hook call, and the address stays found |
| TsCollector.SectionFoundIs | src/mdns-discovery.ts:272-311 | the `forEach` over a section's first records gives `found` in closed form: unchanged for a rejected sender or without a match; a known sender's entry absorbs every match in order; a new sender without a hook gets one new entry, named after the section's first record (else the first match), that absorbs every match; with a hook `found` stays |
| TsCollector.SectionHookCalls | src/mdns-discovery.ts:288-300 | with a hook and a new sender a section leaves `found` as it was and calls the hook once per matching record, in order, each time with an entry built from that record alone |
| TsCollector.NewSenderEntry | src/mdns-discovery.ts:272-316 | a new, accepted sender without a hook: no matching record leaves `found` as it was; otherwise exactly one entry is appended, of the section of the first match, named after that section's first record when it has a name and else after the first match, holding the details of every matching record of the packet in order |
| TsCollector.NewSenderHookCalls | src/mdns-discovery.ts:296-316 | a new, accepted sender with a hook: `found` stays, and the hook is called once per matching record of the packet, answers first |
| TsCollector.QuestionsIgnoredUnlessEnabled | src/mdns-discovery.ts:314-316 | under `noQuestions` a packet does exactly what it would do without a questions section |
| TsDiscovery.NewDefaultOptions | src/mdns-discovery.ts:25-41 | `DEFAULT_OPTIONS`: ip 224.0.0.251, port 5353, TTLs 64, timeout 4, question type PTR with an empty name, empty interfaces, details on, no questions, no find, returnOnFirstFound off; question and interfaces are objects of their own |
| TsDiscovery.Assign | src/mdns-discovery.ts:353 | overlaying an options object that gives nothing leaves the defaults; `find` is the caller's when given, else the default's |
| TsDiscovery.Merged | src/mdns-discovery.ts:349-353 | with no options, or an empty options object, the installed record is the defaults |
| TsDiscovery.MergedSharesDefaultObjects | src/mdns-discovery.ts:350-353 | the shallow copy shares the default question and interface objects unless the caller gave their own |
| TsDiscovery.FirstIpSettlement | src/mdns-discovery.ts:182-188 | `findFirstIP`'s callback rejects with "No response" iff the results are empty, and otherwise resolves with the first result's address |
| TsDiscovery.PromiseOutcome | src/mdns-discovery.ts:181-189 | the promise settles on the first call of its own callback, with that call's results |
| TsDiscovery.MulticastDns.constructor | src/mdns-discovery.ts:65-69 | a new client has nothing found, no clients, no timer, no hooks, and the options `setOptions` builds |
| TsDiscovery.MulticastDns.SetOptions | src/mdns-discovery.ts:349-361 | the options are the defaults overlaid with the caller's; only when options were passed, an empty question name takes a non-empty `name`, written into the possibly shared question object |
| TsDiscovery.MulticastDns.GetInterfaces | src/mdns-discovery.ts:72-90 | a non-empty interface list is kept; otherwise exactly the usable addresses are appended, in enumeration order |
| TsDiscovery.MulticastDns.Prepare | src/mdns-discovery.ts:99-146 | one more client slot, holding a socket bound to the interface |
| TsDiscovery.MulticastDns.PrepareEach | src/mdns-discovery.ts:151 | one new client slot per interface address, in order; nothing else changes |
| TsDiscovery.MulticastDns.Run | src/mdns-discovery.ts:148-164 | one client per chosen interface, and the timer armed unconditionally with the callback; the callback is not stored |
| TsDiscovery.MulticastDns.Close | src/mdns-discovery.ts:166-176 | the new state is `close()` of the old: timer cleared, every open socket closed, every slot undefined |
| TsDiscovery.MulticastDns.TimerFires | src/mdns-discovery.ts:153-161 | the timer closes everything, then stores and calls the captured callback, if any, with `found` |
| TsDiscovery.MulticastDns.FindFirstIp | src/mdns-discovery.ts:179-190 | `findFirstIP` sets `returnOnFirstFound` and runs with the promise's callback |
| TsDiscovery.MulticastDns.On | src/mdns-discovery.ts:192-208 | `filter` installs the filter, `entry` the entry hook; other names change nothing |
| TsDiscovery.MulticastDns.SetFilter | src/mdns-discovery.ts:210-222 | a function becomes the filter; anything else installs the exclusion test on that property |
| TsDiscovery.MulticastDns.OnIp | src/mdns-discovery.ts:321-347 | the registration list grows by exactly what the call registers |
| TsDiscovery.MulticastDns.VisitRecord | src/mdns-discovery.ts:273-309 | one iteration in place equals one step of the fold |
| TsDiscovery.MulticastDns.DoIt | src/mdns-discovery.ts:272-311 | `doIt` in place equals the fold over the section |
| TsDiscovery.MulticastDns.OnPacket | src/mdns-discovery.ts:245-319 | `onPacket` in place equals the fold over the packet |
| TsDiscovery.MulticastDns.OnMessage | src/mdns-discovery.ts:224-243 | an undecodable message changes nothing; otherwise the packet is collected and handed to the first `onIP` handler for the sender |
| TsScenarios.FreshInstance | test/mdns-discovery.test.ts:3-23 | a fresh client has empty `found` and `clients` and the default options |
| TsScenarios.ServiceNameInstance | src/mdns-discovery.ts:352-357 | with a `name` and an empty question name, the question takes the name; other given fields override the defaults |
| TsScenarios.ShorthandLeaksToLaterInstances | src/mdns-discovery.ts:350-357 | the shorthand writes into the shared default question, so a later client without its own question inherits the first client's name |
| TsScenarios.InterfacesLeakToLaterInstances | src/mdns-discovery.ts:73-84 | `getInterfaces` pushes into the shared default array, so a later client reuses those interfaces whatever its own table |
| TsScenarios.PromiseSettlesOnFirstCall | src/mdns-discovery.ts:181-189 | the first call of the promise's callback settles it with its results |
| TsScenarios.PromiseNeverResettles | src/mdns-discovery.ts:181-189 | once settled, later calls do not change the outcome |
| TsScenarios.FirstIpSettlesOnTimer | src/mdns-discovery.ts:153-161 | without an early match the promise settles when the timer fires, with the found list |
| TsScenarios.OneMatchingAnswer | src/mdns-discovery.ts:288-299 | one matching answer into an empty list creates one entry for the sender |
| TsScenarios.FirstIpAfterEarlyMatch | src/mdns-discovery.ts:302-307 | under `findFirstIP` an early match is found, but `close()` clears the timer and no callback is stored, so the promise is left unsettled |
| TsScenarios.LaterPacketsNeverSettle | src/mdns-discovery.ts:305-307 | later packets cannot settle that promise either |
| TsScenarios.SectionHeadNamesEntry | src/mdns-discovery.ts:291 | a new entry is named after the section's first record, even one that does not match |
| TsScenarios.HookSeesRepeatedAddress | src/mdns-discovery.ts:296-300 | with an entry hook `found` stays empty, so two packets from one address both reach the hook |
| TsScenarios.DataListKeepsFirstValue | src/mdns-discovery.ts:262-267 | three data values from an address not yet found: `data` is the latest, `dataa` only the first |
| JsValues.Get | mdns-discovery.js:62-67 | property read: throws iff the value is undefined or null; an object yields its own property, `undefined` when absent; an array its own property, else the inherited `find` of `Array.prototype`, else `undefined` |
| JsValues.Set | mdns-discovery.js:63-64 | property write under `"use strict"`: succeeds iff the target is an array or object, and keeps its kind; a write to a primitive throws |
| JsValues.GetAfterSet | mdns-discovery.js:46-53 | a property reads back as written, and every other property as before |
| JsValues.SetSameValue | mdns-discovery.js:53 | writing back a defined value a property holds changes nothing |
| JsValues.SetTwice | mdns-discovery.js:81 | a second write to a property replaces the first |
| JsOptions.DefaultsWellFormed | mdns-discovery.js:7-27 | `defaultOptions` has distinct keys, defined scalars, and a non-empty nested `q` |
| JsOptions.DefaultsPlainKeys | mdns-discovery.js:7-27 | the default keys, and the question's, are distinct and none is `length` |
| JsOptions.CheckOptions | mdns-discovery.js:40-58 | the `for...in` loop, recursing into nested defaults, computes the fill fold over the defaults |
| JsOptions.FillField | mdns-discovery.js:45-54 | a property other than `length` is filled only on an object or array; an object or array keeps its kind |
| JsOptions.FillFields | mdns-discovery.js:40-58 | with defaults none keyed `length`, `checkOptions` succeeds only on an object or array, which keeps its kind |
| JsOptions.FillFieldMeaning | mdns-discovery.js:45-54 | one property: only it changes. A scalar fills in only for undefined; an array copy fills in for any falsy value; a nested object fills the current object, or a new `{}` for a non-object |
| JsOptions.FillFieldsFrame | mdns-discovery.js:43-56 | a property without a default is left as it was |
| JsOptions.FillFieldsPerKey | mdns-discovery.js:43-56 | every property with a default ends up filled from the value it held on entry |
| JsOptions.FillFieldsSucceedsIff | mdns-discovery.js:40-58 | `checkOptions` throws exactly when the options are a primitive, or a nested object is `null` |
| JsOptions.DefaultsFit | mdns-discovery.js:15-19 | `q` is the only nested default and nests nothing, so options whose question takes properties can be filled |
| JsOptions.QuestionFilled | mdns-discovery.js:15-19 | filling a question sets `name`, `type` and `class` to "", PTR and 0x8001 exactly where they were undefined |
| JsOptions.PreparedMeaning | mdns-discovery.js:62-64 | the first half of `setOptions` throws iff the options or their `q` are a truthy primitive; otherwise `q` becomes the given question (a new `{}` when falsy) with `name` set to `q.name \|\| name`, and no other property changes |
| JsOptions.PreparedKeeps | mdns-discovery.js:62-64 | the preparation leaves every property but `q` as given |
| JsOptions.PreparedQuestion | mdns-discovery.js:63-64 | the prepared question's name is `q.name \|\| name`; its type and class are those of the given question |
| JsOptions.ConfigureSteps | mdns-discovery.js:65-67 | the fill sees the caller's timeout and find, and leaves `find` as given |
| JsOptions.FillKeepsFind | mdns-discovery.js:66 | filling in the defaults leaves `find`, which has no default |
| JsOptions.ConfigureFailsIff | mdns-discovery.js:61-69 | `setOptions` throws exactly when the options, or their `q`, are a truthy primitive |
| JsOptions.Configure | mdns-discovery.js:61-69 | the installed options are always an object or array |
| JsOptions.ConfiguredReadsFilled | mdns-discovery.js:66-67 | apart from `timeout`, the installed options read as the filled ones |
| JsOptions.ConfiguredPlainProperty | mdns-discovery.js:53 | every scalar default except `timeout` fills in exactly where the caller left the property undefined |
| JsOptions.ConfiguredOtherProperty | mdns-discovery.js:43-44 | properties without a default (`name`, since the default key is `nsme`; `find`; `returnOnFirstFound`) are kept as given |
| JsOptions.ConfiguredInterfaces | mdns-discovery.js:45-46 | `interfaces` is a fresh copy of the default empty array unless the caller gave a truthy value, which is kept |
| JsOptions.ConfiguredQuestion | mdns-discovery.js:63-64 | the question's name is `q.name \|\| name`, else ""; its type and class are the given ones, else PTR and 0x8001 |
| JsOptions.ConfiguredTimeout | mdns-discovery.js:65-67 | the timeout is 0 when neither `find` nor `timeout` was truthy; otherwise the given one, or 4 when none was given |
| JsCollector.CloseAllIdempotent | mdns-discovery.js:145-154 | closing a second time changes nothing |
| JsCollector.MatchesIff | mdns-discovery.js:201 | a record matches iff the text of `find` is a prefix of its name; `*` is no wildcard |
| JsCollector.Visit | mdns-discovery.js:200-217 | `found` and the logs only grow at their ends; after a TypeError, or for a sender that is rejected or already found, nothing changes |
| JsCollector.SectionUpTo | mdns-discovery.js:200-218 | the same over the `forEach` |
| JsCollector.PacketEffect | mdns-discovery.js:196-220 | the same for a packet: a rejected or already-found sender (no detail merge), or a packet after a TypeError, changes nothing |
| JsCollector.FirstMatch | mdns-discovery.js:200-201 | the index of the first answer that matches, or none iff none matches |
| JsCollector.Outcome | mdns-discovery.js:200-218 | the closed form changes something only for a sender that is new and accepted, with no TypeError before, and then admits exactly the first matching answer |
| JsCollector.AdmitBlocksSender | mdns-discovery.js:203-212 | after a push the sender is known (or the call threw) |
| JsCollector.VisitAfterOutcome | mdns-discovery.js:200-218 | one more answer after the closed form of a prefix gives the closed form of the longer prefix |
| JsCollector.SectionUpToIsOutcome | mdns-discovery.js:200-218 | the `forEach` over the answers equals the closed form: the first matching answer from a new, accepted sender is admitted, and nothing else happens |
| JsCollector.PacketOutcome | mdns-discovery.js:196-220 | `onPacket` does nothing without a truthy `find` and a non-empty answers section; otherwise it is the closed form |
| JsCollector.PacketAdmitsAtMostOne | mdns-discovery.js:196-220 | a packet changes nothing, or admits exactly one entry: for a new, accepted sender, named `answers[0].name \|\| a.name` after the first matching answer `a` |
| JsCollector.PacketKeepsFoundUnique | mdns-discovery.js:203-212 | `found` only grows at its end, by at most one entry, for the sender, and never gets two entries for one address |
| JsCollector.EarlyExit | mdns-discovery.js:213-216 | only a new entry under `returnOnFirstFound` closes; it then calls the stored callback once with `found`, or throws when none is stored |
| JsDiscovery.Texts | mdns-discovery.js:81 | the pushed values are the addresses as strings, in order |
| JsDiscovery.PushOne | mdns-discovery.js:81 | one more push appends the address to what was pushed; the list read back is an array exactly when the original one was |
| JsDiscovery.MulticastDns.constructor | mdns-discovery.js:30-37 | a new client has nothing found, no clients, no timer and no callback, and the options `setOptions` builds |
| JsDiscovery.MulticastDns.SetOptions | mdns-discovery.js:61-69 | the installed options are the configured ones exactly when configuring succeeds; a TypeError leaves them unchanged |
| JsDiscovery.MulticastDns.GetInterfaces | mdns-discovery.js:72-86 | a truthy list with a truthy length is kept; otherwise every usable address is pushed in order, which throws only when there is one to push and the list is not an array |
| JsDiscovery.MulticastDns.Prepare | mdns-discovery.js:111-142 | one more client slot, holding a socket bound to the interface |
| JsDiscovery.MulticastDns.PrepareEach | mdns-discovery.js:164-166 | one new client slot per interface address, in order; nothing else changes |
| JsDiscovery.MulticastDns.Run | mdns-discovery.js:157-178 | a function in first place becomes the callback and the timeout falls back to the option; interfaces are chosen and one client opened per interface; the callback is stored before any timer; a timer is armed only for a truthy timeout; non-array interfaces throw before anything is stored |
| JsDiscovery.MulticastDns.Close | mdns-discovery.js:145-154 | the new state is `close()` of the old |
| JsDiscovery.MulticastDns.TimerFires | mdns-discovery.js:168-176 | the timer closes everything, then calls the stored callback, if any, with `found` |
| JsDiscovery.MulticastDns.On | mdns-discovery.js:223-230 | `filter` installs the filter; other names change nothing |
| JsDiscovery.MulticastDns.SetFilter | mdns-discovery.js:181-193 | a function becomes the filter; anything else installs the exclusion test on that property |
| JsDiscovery.MulticastDns.OnIp | mdns-discovery.js:233-247 | the registration list grows by exactly what the call registers |
| JsDiscovery.MulticastDns.VisitRecord | mdns-discovery.js:200-217 | one iteration in place equals one step of the fold, and throws iff the step did |
| JsDiscovery.MulticastDns.OnPacket | mdns-discovery.js:196-220 | `onPacket` in place equals the fold; a TypeError ends it |
| JsDiscovery.MulticastDns.OnMessage | mdns-discovery.js:250-272 | an undecodable message changes nothing; otherwise the packet is collected and, unless that threw, handed to the first `onIP` handler for the sender |
| JsDiscovery.ThrownStays | mdns-discovery.js:200-218 | after a TypeError the remaining answers change nothing |
| JsScenarios.DefaultTimeout | mdns-discovery.js:65-67 | without options there is no find, so the timeout is 0 |
| JsScenarios.DefaultPlainValues | mdns-discovery.js:9-23 | without options: port 5353, ip 224.0.0.251, multicastTTL 64 |
| JsScenarios.DefaultListAndQuestion | mdns-discovery.js:13-19 | without options: a fresh empty interface list, and a question of type PTR with an empty name |
| JsScenarios.ArrayOptionsKeepTimeout | mdns-discovery.js:61-69 | options given as an array: `opts.find` reads the inherited `Array.prototype.find`, which is truthy, so the timeout stays 4 |
| JsScenarios.FindKeepsTimeout | mdns-discovery.js:61-69 | with a find pattern the timeout stays 4; `name` fills the question name and is itself kept |
| JsScenarios.RunWithoutFindArmsNoTimer | mdns-discovery.js:157-168 | `new MulticastDNS().run(cb)` stores the callback but arms no timer |
| JsScenarios.InterfacesChosen | mdns-discovery.js:72-86 | from the default empty list, exactly the usable addresses are installed |
| JsScenarios.FreshInterfacesPerInstance | mdns-discovery.js:45-46 | addresses one client collects do not reach a later client, which starts from an empty list |
| JsScenarios.StarIsNoWildcard | mdns-discovery.js:201 | with `find` `*` an answer named `printer.local` is ignored, where the TypeScript collector adds an entry |
| JsScenarios.EarlyExitWithoutCallbackThrows | mdns-discovery.js:213-216 | under `returnOnFirstFound` with no callback: the entry is pushed, the client closed, and then the call throws |

## Left out

- Socket I/O. This covers `createSocket`, `bind`, the broadcast, membership and TTL setters, the `listening` handler with its sends (including the TypeScript loop over an array-valued question name), and the `close`/`error` handlers. Each client is an opaque slot recording its interface.
- The DNS codec (`encode`, `decode`, `getPayload`). Packets arrive decoded; a decode failure is `None`.
- `os.networkInterfaces()`. The table is an input, already flattened device by device.
- Real timers. A second `run` overwrites the timer field, and the model does not track the first, orphaned timer that would still fire.
- The JavaScript `debug` output, including the `foreEach` typo at mdns-discovery.js:171. The model takes debug as disabled; with debug enabled that line throws before the ready callback is called.
- The broken `browse` alias (mdns-discovery.js:87).
- TsDiscovery.MulticastDns.On: `on('packet')` and `on('message')` replace the collector or the message handler at run time. They are excluded by `requires`, because the model's dispatch is fixed.
- JsDiscovery.MulticastDns.On: the same two names are excluded for the same reason. In the JavaScript prototype they replace the methods on the shared prototype.
- TsCollector.AddDetails: details are kept in a map of their own. In the source they are properties of the entry object itself, so a record type named `ip`, `type` or `name` would overwrite an entry field. Real record types are upper-case, so the two cannot meet.
- JsDiscovery.MulticastDns.constructor: requires that `setOptions` does not throw. In the source a throwing constructor returns no object. `SetOptions` itself models the TypeError as a `Failure`.
- JsDiscovery.MulticastDns.SetOptions: options are values. The source fills the caller's object in place, so the caller's object and the installed options are one and the same; that aliasing is not modelled.
- JsDiscovery.MulticastDns.Run: the second argument is a function or absent. A truthy non-function would throw at `.bind`; the model does not cover it.
- The filter. In both versions the filter is the caller's pure verdict on the sender address, or the exclusion list over string-valued properties. A filter with side effects, and exclusion elements that are `null`, are not modelled.
- Option values that are functions, and non-integer numbers. `String(v)` of a number is given for integers only.
- The `this` binding of callbacks, and whatever a callback does when called. Calls are appended to a log.
- The Promise machinery of `findFirstIP`. Only the mapping from results to outcome, and which call settles it, are modelled.
- TsCollector.MergeName: compares name lengths in code points. JavaScript's `length` counts UTF-16 code units, so a name with characters outside the Basic Multilingual Plane can compare differently; the model has no UTF-16 encoding.
- TsCollector.MergeData: a record's data is an optional string. `dns-packet` gives objects for SRV records and arrays for TXT records; these are always truthy, which the model represents by a non-empty string, and it does not keep their structure.
- The tests (test/mdns-discovery.test.ts), the `hikvision.ts` usage example and the Jest configuration. They contain no client logic.
