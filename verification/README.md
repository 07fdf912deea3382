# A verified model of multibird's host-DNS arbiter and instance lifecycle

multibird runs several netbird meshes on one macOS host. This project models, in Dafny, the part of
it that decides who owns which host-DNS key and which daemon runs on which settings, and proves what
that part promises:

- the dynamic-store writer: a registration is laid out into batched keys, rendered as the text of a
  scutil script, interpreted line by line on a shared key-value store, listed and parsed back;
- any number of owners doing this at once, each operation in two separate steps;
- the derivation of a registration from a daemon's status: the resolver address in 32-bit
  arithmetic, reverse zones measured against section 3.5 of RFC 1035 and section 2.5 of RFC 3596,
  canonical domain sets, the refusal of route-all DNS;
- the preflight: overlapping ranges, contested routes and their probe address, DNS ownership fights;
- the instance registry with its lowest-free-index allocation and migration of old records;
- the commands add, up, set, down, remove, nuke, sync, status, list and stray cleanup over three
  stores (records, netbird's configuration, the dynamic store), with a failure allowed at every call;
- the watcher: its reconnect loop, debounce timer and poll.

## How it is put together

| files | what they hold |
|---|---|
| `Text`, `Bits` | strings as sequences of bytes, sorting, decimal numbers; shifts and masks one bit at a time |
| `Specs`, `Batching`, `Keys` | a registration, its batches and its key names, printed and parsed |
| `Scutil`, `HostScripts`, `Listings` | the scutil interpreter, the scripts the program writes, the listings it reads |
| `DynamicStore`, `Interleaving`, `AlarmingNames` | the host operations as updates of one owner's slice; all interleavings; names that break listings |
| `WrittenText`, `ReverseText` | script lines, stored entries and reverse names spelled out |
| `OwnKeys`, `Registrations`, `StoredWords`, `UnfitText` | what a registration leaves, whatever its domains contain: nothing of another instance's keys touched, when it is what was meant, and examples where it is not |
| `Addresses`, `Zones`, `ReverseNames` | prefixes and overlap, the resolver address, reverse zones and what they cover |
| `HostDns`, `RootNames`, `RootWords`, `DnsConflicts`, `Preflight`, `Separation` | derivation and its gaps, DNS fights, findings shown for one instance, and what no conflict guarantees |
| `Names`, `Instances` | instance names, records, the store and its index allocation |
| `Lifecycle`, `Effects` | every command as a step on the world; when it succeeds and what it achieves |
| `Runs`, `Histories` | the invariants; all histories |
| `Env` | the same commands as methods on shared objects, each proved equal to its step |
| `Watch`, `WatchEffects`, `WatchRuns` | the watcher's loops, what each turn and wake-up does, and what every run keeps |

Where the program loops and assigns, the model has a method with a loop and a contract that ties the
result to a function of the inputs; the laws are proved about those functions. `Lifecycle.World` is
the state of everything that persists; the log in it records logins, pushed configurations, engine
starts, saves and removals, so that order can be spoken about.

## What turned out not to hold

Each is stated with the exact condition, and the code is modelled as it is.

- A listing that contains a key of an instance named with "failed" in it is taken for an error
  message. `failed` is a valid name; once such an instance has keys, no owner can be registered,
  removed or listed any more (`AlarmingNames`, `DynamicStore.ListFailsExact`).
- Route-all DNS is refused for the names "" and ".", but ".." loses only one dot and derives "."
  for matching, and a peer named "..." derives "." for searching (`RootNames.RootSlipsThrough`,
  `RootNames.RootGetsRegistered`). Blanks open a second way in: of ". ." the derivation makes ". ",
  which scutil reads as the root name. For names without line breaks, `RootWords.RootWordsExactly`
  says exactly when the root name is stored (`RootWords.SpacedRootGetsStored`).
- Refusal by the derivation and "primary" in the preflight differ when no group is enabled, and when
  proper domains hide an empty group or a padded root name (`Separation.RefusalVersusPrimary`,
  `Separation.ReadingsPart`).
- The preflight compares no IPv6 ranges, but the derivation registers their zones: two meshes on one
  fd00::/64 register the same reverse zone without a finding (`Separation.SharedIpv6ZoneGoesUnseen`;
  exactly when zones meet: `Separation.ZonesMeetExactly`).
- Canonical names are trimmed at their ends only. A blank inside a domain splits it in two, and what
  follows a line break is read as a command, so that success can be reported of a registration that
  was lost or of which nothing was stored. A registration that lands is what was meant exactly when
  every domain is one word and none has a line break (`Registrations.LeftAsMeantExactly`,
  `Registrations.ApplyMeaning`, `UnfitText`). Keys of other instances stay in any case, because
  canonical names are in lower case and those keys are not (`OwnKeys.OthersUntouched`). Foreign keys
  stay if no domain has a line break; that is sufficient, not necessary.
- Keys of an owner with a blank in its name, which no valid instance has, are reported as removed and
  stay (`DynamicStore.RemoveMeaning`, `UnfitText.BlankOwnerStays`).
- A /32 mesh gets a resolver one below its only address (`Addresses.ResolverPlace`,
  `Separation.HostRouteStrays`).
- The zone of a zero-length prefix starts with an empty label and covers no name
  (`ReverseNames.ZoneCoversExactly`).
- An IPv4 network written as IPv6 keeps its IPv6 length, so its reverse zone indexes past four octets
  and the program panics (`Zones.MappedIsLong`, `Zones.ReverseZone`, `RootNames.MappedStatusCrashes`).
- A settings change that reached the daemon is lost when the save after it fails, exactly when it
  changed the port or the DNS toggle (`Histories.SetAgreement`, `Histories.SettingsCanBeLost`).
- The watcher tries one removal for a stretch without a daemon; when that one fails, the keys stay
  until the daemon has been back (`WatchRuns.DownStretch`).

## Model

| member | source | states |
|---|---|---|
| Batching.BatchDomains | internal/platform/scutil.go:75-91 | the batches join back to the input in order, each is non-empty and within 50 entries and 1500 bytes unless a single domain is larger, and no order-preserving split within those limits has fewer |
| Batching.BatchesOptimal | internal/platform/scutil.go:44-91 | the greedy split is valid and minimal among all valid splits, for every list of domains |
| Batching.GreedyAhead | internal/platform/scutil.go:75-91 | the exchange argument: from any point, the greedy batches never fall behind a rival split |
| WrittenText.BatchLimits | internal/platform/scutil.go:39-91 | the batches are the domains in order in pieces of 1 to 50 names whose lengths add up to at most 1500, unless a piece is a single name |
| Keys.HostDNSKeys | internal/platform/scutil.go:55-71 | the keys are the search batches numbered from 0 without the no-search flag, then the match batches numbered from 0 with it |
| Keys.ParseKeyComplete | internal/platform/scutil.go:166-176 | every key of the contract's shape is accepted and split into the owner, kind and digits it was made of, whatever dashes, "Match" or "Search" the owner's name contains |
| Keys.ParseKeySound | internal/platform/scutil.go:166-176 | nothing but a key of the contract's shape is accepted |
| Keys.OwnerOfKeyExact | internal/platform/scutil.go:168-176 | a key belongs to a name if and only if it has the contract's shape with that name in it |
| Keys.KeyNameParses | internal/platform/scutil.go:55-71 | the owner of a written key is its instance, for every non-empty newline-free name |
| Keys.KeyNameInjective | internal/platform/scutil.go:55-71 | two written keys are equal only for the same instance, kind and number |
| Keys.ParseListedKeys | internal/platform/scutil.go:153-164 | the contract-prefixed names after "= " on each line, in order |
| WrittenText.ListedName | internal/platform/scutil.go:153-164 | what follows the first "= " of a line, without the blanks around it, is taken exactly if it begins with "State:/Network/Service/multibird-" |
| Keys.KeysOfInstance | internal/platform/scutil.go:193-201 | the listed keys whose owner is exactly that name, in order |
| Keys.OwnedKeysExact | internal/platform/scutil.go:193-201 | a key is kept if and only if it was listed and its owner is that name, even when one name is a prefix of another |
| Keys.OwnersFromKeys | internal/platform/scutil.go:179-190 | the owners of the listed keys, strictly sorted |
| HostScripts.UndottedDotted | internal/platform/scutil.go:104-106 | the dotted text of a 32-bit address determines it |
| WrittenText.DottedText | internal/platform/scutil.go:104-106 | the text of the address a.b.c.d is its four decimal numbers with dots between them |
| HostScripts.RenderApplyScript | internal/platform/scutil.go:98-117 | the text is the removals, six lines for each key, and quit, one per line |
| WrittenText.KeyLinesText | internal/platform/scutil.go:102-114 | the six lines of a key, letter by letter |
| WrittenText.LandedKeys | internal/platform/scutil.go:50-117 | once a registration of fit domains has landed, the store has, under the n-th search and match key spelled out, a dictionary of exactly the four entries macOS reads: "SupplementalMatchDomains" the n-th batch, "SupplementalMatchDomainsNoSearch" 0 for search and 1 for match keys, "ServerAddresses" and "ServerPort" the resolver; and nothing under further numbers |
| HostScripts.RenderRemoveScript | internal/platform/scutil.go:120-127 | the text is the removals and quit |
| HostScripts.KeyLinesRun | internal/platform/scutil.go:102-114 | interpreting the six lines of a key stores under it exactly the dictionary that scutil sees: the words the domains fall into, no domain entry when there is no word or more than 99 |
| HostScripts.ApplyScriptRuns | internal/platform/scutil.go:93-117 | interpreting the text of an apply script removes exactly the stale keys and then carries out the lines written after them, whatever the domains contain |
| Scutil.MatchesQuoted | internal/platform/scutil.go:129-133 | a quoted literal in a pattern matches itself and nothing else |
| Listings.ScutilOutputError | internal/platform/scutil.go:135-149 | an error is found exactly when some line, trimmed and lower-cased, contains a failure phrase; it is the first such line |
| Listings.ErrorExactly | internal/platform/scutil.go:135-149 | a line is taken for an error if and only if, trimmed and lower-cased, it is some text around one of "failed", "not permitted", "permission denied" and "access denied" |
| Listings.PatternExact | internal/platform/scutil.go:131-133 | the listing's pattern matches exactly the keys that begin and end as ours do |
| Listings.ListScriptRuns | internal/platform/scutil.go:129-133 | the list script prints the listing of the matching keys and changes nothing |
| Listings.ListingParses | internal/platform/scutil.go:151-164 | parsing a printed listing returns exactly the listed keys in order |
| Listings.ListingLooksFailed | internal/platform/scutil.go:135-149 | a listing is taken for an error exactly when one of its keys contains a failure phrase |
| Listings.SuspiciousOwner | internal/platform/scutil.go:135-149 | a key with a blank-free owner contains a failure phrase exactly when the owner's name contains "failed" |
| DynamicStore.LayoutExact | internal/platform/scutil.go:50-71 | a registration holds exactly the numbered keys, each with its batch, its flag and the resolver |
| DynamicStore.DecodeLayout | internal/platform/scutil.go:50-117 | reading the keys back, batches joined in key order, returns the registered search list, match list and listen address |
| DynamicStore.SlicesDetermine | internal/platform/platform_darwin.go:62-109 | the store is nothing but its owners' slices and the keys of nobody |
| DynamicStore.ListStepExact | internal/platform/platform_darwin.go:42-49 | whatever order the store is enumerated in, listing fails for the same reason and yields each of the owner's keys once |
| DynamicStore.ListFailsExact | internal/platform/scutil.go:135-149 | with blank-free owners and no alarming foreign key, the listing fails exactly when some owner's name contains "failed" |
| Registrations.ApplyScriptPuts | internal/platform/platform_darwin.go:74-81 | running the script rendered from the owner's current keys leaves in its slice what the written lines alone leave; when no domain has a line break it replaces exactly that slice, by the layout as scutil sees it; when each domain is one word too, by the layout as meant, printing nothing |
| Registrations.LeftAsMeantExactly | internal/platform/scutil.go:102-114 | the written lines leave the layout as it was meant if and only if every domain is one word without a line break, for every list of domains |
| DynamicStore.RemoveScriptPuts | internal/platform/platform_darwin.go:95-104 | running the removal script empties exactly the owner's slice, unless the owner's name has a blank in it: then it removes nothing, and its output does not look like a failure |
| Registrations.ApplyMeaning | internal/platform/platform_darwin.go:62-86 | for every registration: once it lands (success, or only the cache flush failed) the slice is the layout as meant if and only if every domain is one word without a line break, and then decodes to the registration; repeating it leaves the same slice; with such domains an error that is not the flush wrote nothing; other instances' slices stay if the domains are in lower case or have no line break; foreign keys stay if they have none |
| Registrations.ApplySucceedsExactly | internal/platform/platform_darwin.go:62-86 | registering fit domains succeeds if and only if root, a listing that works and, unless there was and is nothing to register, a scutil that starts and a cache flush are there; the first of root and listing that is missing is the error |
| StoredWords.StoredExactly | internal/platform/scutil.go:93-117 | a registration without line breaks that lands stores, for searching and for matching, exactly the words of its domains |
| OwnKeys.OthersUntouched | internal/platform/scutil.go:93-117 | for lower-case domains with anything in them, line breaks included: no key of another instance changes, on any path |
| DynamicStore.RemoveMeaning | internal/platform/platform_darwin.go:88-109 | after success the slice is empty if and only if it was or the owner's name has no blank in it; other slices never change; an error other than the cache flush removed nothing |
| Registrations.RemoveSucceedsExactly | internal/platform/platform_darwin.go:88-109 | removing succeeds if and only if the listing works and, only when there is something to remove, root, scutil and the cache flush do; root is missed only then |
| UnfitText.BlankSplitsDomain | internal/hostdns/hostdns.go:124-127 | a domain with a blank in it is registered as two |
| UnfitText.LineBreakWritesForeignKey | internal/hostdns/hostdns.go:124-127 | registering a domain with a line break in it writes a foreign key |
| UnfitText.QuitLosesRegistration | internal/hostdns/hostdns.go:124-127 | the domain "x", line break, "quit" is registered with success and nothing is stored |
| UnfitText.BlankOwnerStays | internal/platform/platform_darwin.go:88-109 | a concrete store with a key of such an owner: removing it reports success and changes nothing |
| DynamicStore.PutLaws | internal/platform/platform_darwin.go:66-109 | replacing a slice sets it, leaves every other one, and is idempotent |
| DynamicStore.Host.RunScutil | internal/platform/platform_darwin.go:24-38 | one process: a start failure changes nothing; otherwise the store is what the script left and the output decides the outcome |
| DynamicStore.Host.ListMultibirdKeys | internal/platform/platform_darwin.go:42-49 | the parsed listing, or an error exactly when the process or the listing fails |
| DynamicStore.Host.ApplyHostDNS | internal/platform/platform_darwin.go:62-86 | the new store and the error are those of the slice update, on every failure path |
| DynamicStore.Host.RemoveHostDNS | internal/platform/platform_darwin.go:88-109 | the new store and the error are those of the slice removal, on every failure path; root is needed only when there is something to remove |
| DynamicStore.Host.ListHostDNSOwners | internal/platform/platform_darwin.go:111-118 | the strictly sorted owners of the keys in the store, all of them |
| Interleaving.StepKeeps | internal/platform/platform_darwin.go:66-109 | what an operation listed stays its owner's exact set of keys until its script runs, and of all owners' slices a step changes only its own owner's; foreign keys only if a domain has a line break |
| Interleaving.EveryInterleaving | internal/ops/dns.go:107-120 | every interleaving of the two-step operations of any number of owners, aborts and foreign edits included, with any lower-case domains, leaves each owner's slice as that owner's last completed operation alone would, and foreign keys as the foreign edits alone would unless an operation with a line break in a domain completed |
| Interleaving.OrderDoesNotMatter | internal/ops/dns.go:107-120 | two runs that agree on each owner's last completed operation end with the same keys of every owner, and in the same store if they agree on the foreign edits and no completed operation had a line break in a domain |
| Interleaving.TwoStepsAreTheOperation | internal/platform/platform_darwin.go:62-109 | undisturbed, an owner's two steps change the store exactly as ApplyHostDNS or RemoveHostDNS does and complete it |
| AlarmingNames.AlarmingOwnerBlocksEverybody | internal/platform/scutil.go:135-149 | one key of an owner whose name contains "failed" makes every registration and removal fail |
| AlarmingNames.QuietNamesNeverBlock | internal/platform/scutil.go:135-149 | without such a name, removal with root and working processes always succeeds |
| AlarmingNames.FailedNameIsStuck | internal/instance/store.go:14-23 | "failed" is a valid name, registers once, and can then never be removed |
| Addresses.OverlapExact | internal/preflight/preflight.go:53-64 | the bit comparison holds if and only if the address sets intersect, if and only if one contains the other, and is symmetric |
| Addresses.OverlapAtShorter | internal/preflight/preflight.go:53-64 | overlap is one comparison: the longer prefix's address lies in the shorter prefix |
| Addresses.ProbeInBoth | internal/ops/preflight.go:132-137 | the narrower network's address lies in both prefixes if and only if they overlap |
| Addresses.ParseAddr | internal/preflight/preflight.go:31-51 | exactly CIDR and bare addresses parse; the claimed network is masked, contains the reported address and has the reported length, or 16 or 64 for a bare one |
| Addresses.Reassemble | internal/hostdns/hostdns.go:113-116 | shifting and or-ing four octets gives back the word they came from |
| Addresses.LastAddress | internal/hostdns/hostdns.go:115-117 | or-ing the host mask into the network address gives the network's last address |
| Addresses.ResolverAddr | internal/hostdns/hostdns.go:105-122 | fails exactly unless the address is IPv4 in CIDR form; else broadcast minus one in 32-bit arithmetic, port 53 |
| Addresses.ResolverPlace | internal/hostdns/hostdns.go:105-122 | the resolver lies in its network if and only if the length is at most 31, is then network + 2^(32-bits) - 2 without wrap-around, and up to /30 lies strictly between network and broadcast |
| Addresses.ResolverSameForHosts | internal/hostdns/hostdns.go:101-122 | every host address of a network derives the same resolver |
| Zones.ReverseZone | internal/hostdns/hostdns.go:129-176 | the zone text of the claimed network, a parse error, or the index panic exactly for mapped networks |
| Zones.MappedIsLong | internal/hostdns/hostdns.go:151-159 | a network that unmaps to IPv4 keeps at least 96 bits |
| ReverseNames.ZoneCoversExactly | internal/hostdns/hostdns.go:129-176 | a full reverse name lies under the zone if and only if the length is not zero and the address is in the rounded-up prefix |
| ReverseText.Ipv4Name | internal/hostdns/hostdns.go:151-163 | the reverse name of a.b.c.d is "d.c.b.a.in-addr.arpa" |
| ReverseText.Ipv6Name | internal/hostdns/hostdns.go:164-176 | the reverse name of an IPv6 address is its 32 nibbles as hexadecimal digits, last one first, under ip6.arpa |
| ReverseNames.RoundUpInside | internal/hostdns/hostdns.go:129-133 | the rounded-up prefix is contained in the original and equals it when the length is aligned |
| ReverseNames.ZoneReadsBack | internal/hostdns/hostdns.go:129-176 | the zone text parses back to the rounded-up prefix, for every prefix |
| ReverseNames.NestedZones | internal/hostdns/hostdns.go:87-95 | one zone equals or lies under another if and only if the families agree and the first network's address is in the second's rounded-up prefix with at least as many labels; under the zone of a zero-length prefix lies only another such zone |
| ReverseNames.SeparateZones | internal/hostdns/hostdns.go:87-95 | of two networks that do not overlap, neither zone equals or lies under the other |
| HostDns.Derive | internal/hostdns/hostdns.go:45-99 | no resolver without an IPv4 CIDR; then refusal exactly when an enabled group is empty or lists a domain canonical to ""; then a panic for a mapped IPv6 network; else the resolver, the peer domain and the sorted set of match domains |
| RootNames.DeriveFailsExactly | internal/hostdns/hostdns.go:45-99 | no resolver exactly without an IPv4 CIDR; else refusal exactly when an enabled group lists nothing or a name that is "" or "." after trimming; else the panic exactly for an IPv4-mapped IPv6 network |
| HostDns.DerivedParts | internal/hostdns/hostdns.go:45-67 | the derived resolver is that of the IPv4 network, on port 53, and the search list is the peer domain alone |
| HostDns.DeriveMatches | internal/hostdns/hostdns.go:45-99 | match domains are strictly sorted, never empty, and exactly the canonical peer domain, the enabled groups' canonical domains and the zones that parse |
| HostDns.DeriveIgnoresOrder | internal/hostdns/hostdns.go:69-85 | reordering groups, reordering or repeating domains, and adding disabled groups change nothing |
| HostDns.ZoneIsCanonical | internal/hostdns/hostdns.go:54-60 | zones pass canonicalisation unchanged and are one word |
| RootNames.RootSlipsThrough | internal/hostdns/hostdns.go:69-85 | the root name is among the derived match domains exactly when an enabled group lists ".." up to blanks or the reported peer name is a label, a dot, ".." up to blanks, and a dot; and among the derived search domains exactly when that name is a label and three dots |
| RootWords.RootWordsExactly | internal/platform/scutil.go:102-114 | for statuses without line breaks, a registration that lands stores the word "." for matching if and only if an enabled group's name, or the part of the peer's name after its first dot without a last dot, has among its words a "." that is not the last or a last ".."; and for searching if and only if the part of the peer's name after its first dot has |
| RootWords.SpacedRootGetsStored | internal/hostdns/hostdns.go:73-85 | a group that lists ". ." is not refused, derives no root name, and has the root name stored for matching |
| RootNames.RootGetsRegistered | internal/hostdns/hostdns.go:69-85 | both happen: a group that lists "..", and a peer named "..." |
| RootNames.MappedStatusCrashes | internal/hostdns/hostdns.go:151-159 | a status with ::ffff:10.0.0.1/112 makes the derivation panic |
| HostDns.DerivedIsClean | internal/hostdns/hostdns.go:45-99 | with no blanks inside the reported names, every derived domain is one word |
| HostDns.DerivedIsOneLine | internal/hostdns/hostdns.go:45-99 | with no line breaks inside the reported names, none of the derived domains has one |
| HostDns.DerivedIsLower | internal/hostdns/hostdns.go:124-127 | whatever names are reported, every derived domain is in lower case |
| DnsConflicts.IsPrimary | internal/preflight/routes.go:67-81 | primary means managing DNS and listing no domain, or "" or "." |
| DnsConflicts.DNSConflicts | internal/preflight/routes.go:101-145 | the loop over a map of claimants yields the report |
| DnsConflicts.ReportExact | internal/preflight/routes.go:101-145 | a primary fight is reported if and only if two intents are primary, a domain if and only if two managing intents list it, each with all claimants sorted |
| DnsConflicts.ClaimsExactly | internal/preflight/routes.go:67-131 | an intent claims a domain if and only if it manages DNS and lists it in any case, with or without a trailing dot; and all names if and only if it manages DNS and lists none, "" or "." |
| DnsConflicts.FightNames | internal/preflight/routes.go:101-145 | the names in a report are those of all claimants and no others, sorted |
| DnsConflicts.ReportOrdered | internal/preflight/routes.go:132-144 | at most one primary fight, first, then domains in strictly increasing order |
| DnsConflicts.ReportIgnoresOrder | internal/preflight/routes.go:101-145 | permuting the intents, or reordering or repeating their domains, leaves the whole report unchanged |
| Preflight.HitsExact | internal/preflight/routes.go:38-55 | every qualifying index pair is listed once, in row order, and no other pair |
| Preflight.IPRangeConflicts | internal/preflight/preflight.go:53-64 | exactly the overlapping pairs, in that order |
| Preflight.RouteConflicts | internal/preflight/routes.go:38-55 | exactly the pairs of selected, overlapping routes of different instances, in that order |
| Preflight.ConflictsInvolving | internal/ops/preflight.go:85-149 | the findings that involve the instance (all for an empty name): range conflicts and then route conflicts in row order, the latter naming the owner of the interface the OS picks for the probe address, then DNS fights in the order of the report |
| Preflight.FindingsExact | internal/ops/preflight.go:85-149 | a finding is returned if and only if it is of a conflicting pair, or of a fight, that the instance takes part in |
| Preflight.ShownExactly | internal/ops/preflight.go:85-149 | for an empty name every overlap, contested pair of routes and fight is shown, otherwise exactly those that the instance has a part in |
| Preflight.WinnerExact | internal/ops/preflight.go:128-141 | the winner named is the last instance recorded on the interface to which the system routes the address of the prefix with more bits (the first one on equal length); none if there is no such route or instance |
| Preflight.GatheredExactly | internal/ops/preflight.go:105-117 | every snapshot adds its network, its routes and its intent at the end, and nothing else is compared |
| Preflight.ProbeIsContested | internal/ops/preflight.go:128-141 | the probe address of a reported route conflict lies in both routes, which belong to different instances |
| Separation.NoConflictSeparates | internal/preflight/preflight.go:53-64 | if no range conflict is reported, every resolver (of meshes up to /31) lies in its own mesh and in no other, so resolvers are pairwise distinct |
| Separation.ZonesMeetExactly | internal/hostdns/hostdns.go:87-95 | after a preflight without range conflicts, a zone that one derivation registers, from either address, equals or lies under one that another registers if and only if not both come from the IPv4 field and their networks nest as in NestedZones; with IPv6 addresses in the IPv6 fields, only when both come from those |
| Separation.SharedIpv6ZoneGoesUnseen | internal/ops/preflight.go:62-68 | two meshes with separate IPv4 ranges on one fd00::/64: no conflict is reported, both derivations succeed and both register the same zone |
| Separation.HostRouteStrays | internal/hostdns/hostdns.go:115-119 | two /32 meshes that do not overlap, one's resolver being the other's address |
| Separation.DNSDomains | internal/nbgrpc/client.go:174-186 | the domains of the enabled groups, flattened in order |
| Separation.EnabledDomainsSnoc | internal/nbgrpc/client.go:174-186 | each further enabled group adds its domains at the end, a disabled one nothing |
| Separation.RefusalVersusPrimary | internal/preflight/routes.go:68-81 | refusal and "primary" agree except exactly with no enabled group, or with proper domains beside an empty group or a padded root name |
| Separation.ReadingsPart | internal/preflight/routes.go:68-81 | all three ways happen: no group at all, an empty group beside a proper one, and a padded root name beside a proper name |
| Separation.RefusalIsPrimary | internal/preflight/routes.go:68-81 | with some group enabled, none empty and no padding, the derivation refuses if and only if the managing intent is primary |
| Names.ValidIsClean | internal/instance/store.go:14-23 | a valid instance name is one lower-case word |
| Names.ValidNameExactly | internal/instance/store.go:14-23 | a name is valid if and only if the expression ^[a-z0-9][a-z0-9-]{0,30}$, read character by character, matches it |
| Instances.NormalizeKeeps | internal/instance/instance.go:125-141 | migration fills the mode in, keeps the effective mode and port, and has nothing to do a second time |
| Effects.LoadExact | internal/ops/ops.go:54-67 | a record without a mode loads as Disabled if its old flag is set and as Native otherwise, the flag cleared and every other field as before, saved once; any other record as it is |
| Instances.Instance.Normalize | internal/instance/instance.go:125-141 | the object becomes the migrated record; the result says whether it was old |
| Instances.Store.List | internal/instance/store.go:69-94 | all records in increasing order of name |
| Instances.Store.NextIndex | internal/instance/store.go:96-111 | ends, with the least index no record uses, at most the number of records |
| Instances.IndicesNeedRecords | internal/instance/store.go:96-111 | pigeonhole: k lowest indices in use need k records |
| Runs.UpKeeps | internal/ops/ops.go:104-212 | up, failing anywhere, keeps the log orderly, records backed by pushed configurations, agreement and indices |
| Effects.UpExact | internal/ops/ops.go:104-212 | up succeeds if and only if the daemon runs or starts and answers, a first login and its settings and record go through, the engine comes up, the status can be read and crashes nothing, a new interface can be recorded, and no conflict is held against it; then the daemon runs, its engine runs on its own configuration, which is the one it had or for a first login carries the record's server, port and DNS toggle, the record says logged in and has the interface, the log is exactly login, settings, record, engine start, interface, the registration was made, and nothing else changed; a conflict under --strict takes the engine down again |
| Runs.EngineSteady | internal/ops/ops.go:171-173 | the engine that up starts for a logged-in record on file runs on a configuration that SetConfig wrote since the record was last removed, and on one that agrees with the record when records and configurations agree |
| Runs.CleanupKeeps | internal/ops/dns.go:66-93 | stray cleanup, each removal meeting its own failures, keeps all invariants; slices only stay or vanish |
| Runs.ListAllExact | internal/ops/ops.go:69-83 | listing succeeds if and only if every migration that is needed can be saved; then every record is on file migrated, otherwise unchanged, and is returned in order of name |
| Histories.SetAgreement | internal/ops/set.go:27-89 | after set, records and configurations agree if and only if no settings were lost: pushed, different, and the save failed |
| Effects.SetExact | internal/ops/set.go:27-89 | set succeeds if and only if a changed mode or port of a logged-in record reaches its daemon and the record is saved; then the record has the requested mode, port and binary and every other field as before, the configuration carries that port and the DNS toggle of that mode if it had to be pushed, no daemon is touched otherwise, and leaving multibird mode removes the keys |
| Histories.SettingsCanBeLost | internal/ops/set.go:49-89 | a concrete set that loses its settings |
| Histories.SetDnsOwned | internal/ops/set.go:82-88 | leaving multibird mode with a working removal keeps every registered owner in multibird mode |
| Histories.RemoveKeeps | internal/ops/ops.go:254-264 | remove keeps order, agreement and indices, and DNS ownership when its removal works |
| Effects.DownExact | internal/ops/ops.go:235-252 | after down no daemon and no engine runs unless stopping failed, a multibird instance's keys are gone if their removal worked, and files stay |
| Effects.RemoveExact | internal/ops/ops.go:254-264 | after remove the record is off file unless deleting failed, with purge the configuration too, the daemon is down if it could be stopped, and the keys are gone if their last removal worked |
| Effects.NukeExact | internal/ops/ops.go:266-273 | after nuke the daemon is down unless killing failed and the keys are gone, in any mode, if their removal worked |
| Histories.AddKeeps | internal/ops/ops.go:85-102 | add keeps all invariants and changes nothing on failure |
| Effects.AddExact | internal/ops/ops.go:85-102 | add succeeds if and only if the name is valid and free and the record can be saved; it stores the record as given but for the least index no record uses and, where none is asked for, the default mode |
| Histories.StepKeeps | internal/ops/ops.go:54-273 | every command, loading and migrating first, keeps the invariants under the two named conditions |
| Histories.EveryHistoryIsOrderly | internal/ops/ops.go:110-173 | in every history with any failures: no login once "logged in" is saved until the record is removed, "logged in" saved only after SetConfig succeeded, no engine but on a configuration that SetConfig wrote since the record was last removed |
| Histories.EveryHistoryAgrees | internal/ops/set.go:27-89 | in every history that loses no settings, a logged-in record's derived port and effective DNS toggle are those of its daemon's configuration, and every engine was started on a configuration that agreed with the record then on file |
| Histories.EveryHistoryOwnsItsDns | internal/ops/dns.go:66-93 | in every history whose removals work, whatever names the daemons report, every registered owner is an instance stored in multibird mode |
| Histories.EveryHistoryIndexes | internal/instance/store.go:96-111 | indices stay pairwise distinct and below the largest number of instances ever present at once |
| Histories.DerivedPorts | internal/instance/instance.go:105-123 | derived ports are pairwise distinct, never 51820, and between 51900 and 51900 + peak - 1 |
| Histories.CleanupExact | internal/ops/dns.go:66-93 | a cleanup removes and returns the owners without an instance in order, up to the first whose removal fails; it returns all of them when it completes; owners with a blank in their name keep their keys; no other slice changes |
| Histories.CleanupCompletes | internal/ops/dns.go:66-93 | with root, working processes and saves, a cleanup completes and returns all owners without an instance |
| Histories.CleanupIdle | internal/ops/dns.go:66-93 | when every owner exists, cleanup removes nothing, whatever fails in it |
| Histories.CleanupAfterHistory | internal/ops/dns.go:66-93 | after any history whose removals worked, cleanup is a no-op on the dynamic store |
| Histories.SyncExact | internal/ops/dns.go:41-64 | a successful sync leaves no keys (other mode or no daemon), the slice as it was (no address yet), or what the lines written for the derived registration leave, whatever else is in the store: the layout as meant if and only if each derived domain is one word without a line break; no other instance's slice changes, and no foreign key as long as no reported name has a line break in it |
| Effects.SyncOutcome | internal/ops/dns.go:41-64 | what a sync does to the store and whether it succeeds, by mode, daemon, answer, address and derivation |
| Histories.SyncSucceeds | internal/ops/dns.go:41-64 | with root, working processes and clean names, a sync fails only if a running multibird daemon does not answer or its status does not derive |
| Env.Env.ApplyHostDNSFromStatus | internal/ops/dns.go:18-39 | the dynamic store and the outcome are those of the specification for every status, the crash told apart |
| Env.Env.Load | internal/ops/ops.go:54-67 | the record read, migrated and saved once; nothing on an invalid or unknown name |
| Env.Env.List | internal/ops/ops.go:69-83 | every record on file as an object, all read before the first migration is saved; nothing from the first failed save on |
| Env.Env.Add | internal/ops/ops.go:85-102 | the new record gets the least free index and the default mode; an invalid or taken name or a failed save changes nothing |
| Env.Env.Up | internal/ops/ops.go:104-212 | the world, the record object and the outcome are those of the step function on every failure path |
| Env.Env.Set | internal/ops/set.go:21-89 | likewise for set |
| Env.Env.Down | internal/ops/ops.go:235-252 | likewise for down |
| Env.Env.Remove | internal/ops/ops.go:254-264 | likewise for remove, with and without purge |
| Env.Env.Nuke | internal/ops/ops.go:266-273 | likewise for nuke |
| Env.Env.DNSSync | internal/ops/dns.go:41-64 | likewise for sync |
| Env.Env.Status | internal/ops/ops.go:289-342 | likewise for one instance's turn in the status listing, with the line it shows |
| Effects.StatusExact | internal/ops/ops.go:289-342 | the line shows whether the daemon runs and answers, its address, the interface found or else recorded, and the port; the turn records the interface and registers what the status derives, and changes nothing else |
| Env.Env.DNSCleanupStrays | internal/ops/dns.go:66-93 | the cleaned names, the store and the outcome of the cleanup, each removal with its own failures, stopping at the first failed one |
| Watch.Loop.WatchConnected | internal/ops/dns.go:148-206 | one connection: the actions, the timer and the world after any sequence of wake-ups |
| WatchEffects.OpenedExact | internal/ops/dns.go:148-166 | after a successful dial the world is what a sync by the first look leaves, then the subscription; a failed dial changes nothing |
| WatchEffects.WokenExact | internal/ops/dns.go:185-205 | a network or DNS event arms the timer for two seconds later, an armed timer at or after its deadline leads to one sync, so does every poll, and no other wake-up touches the world |
| WatchEffects.LogTellsAll | internal/ops/dns.go:128-206 | in every run the store ends as the logged syncs and removals, in order, leave it: each logged one happened and nothing else did |
| Watch.Loop.WatchOne | internal/ops/dns.go:128-146 | the outer loop: the actions and the world after any sequence of turns |
| WatchEffects.TurnedExact | internal/ops/dns.go:128-146 | a turn without a daemon removes the keys, once until a daemon is seen; a turn with one opens a connection and lets its wake-ups take effect |
| WatchRuns.EveryWatchIsTidy | internal/ops/dns.go:128-206 | in every run: the timer is armed exactly while an event that matters waits, two seconds after the last one; a debounced sync comes after that quiet; a successful dial is followed by a sync before subscribing; an event with no sync after it means an armed timer or a lost connection |
| WatchRuns.StretchRemovesOnce | internal/ops/dns.go:131-140 | each maximal stretch in which the daemon is found down tries exactly one removal, any other stretch none |
| WatchRuns.DownStretch | internal/ops/dns.go:131-140 | all that a stretch without a daemon does to the store is its first turn's removal, failed or not |
| WatchRuns.WatchKeeps | internal/ops/dns.go:102-206 | a run of the watcher changes no record and no other instance's keys, no foreign key unless a reported name has a line break in it, and keeps the invariants of command histories, ownership of keys on a stored record in multibird mode |

## Left out

- Text encoding: strings are sequences of bytes, lower-casing and blanks are ASCII.
- Parsing address text: net/netip's verdict on a reported address is an input (`Addresses.PeerAddr`).
- scutil itself: words are split at the blank character only, so that a tab stays inside a word, and without quoting; "one word" is meant so, while trimming also removes tabs; patterns must match whole keys, a script is carried out as one step or not at all, and an unprivileged write is never reached because root is checked first.
- Histories.EveryHistoryOwnsItsDns: covers the histories in which the removal that a leaving or removed instance needs has worked; the program only warns when it does not.
- DynamicStore.Host.ApplyHostDNS: the instance name must be one word, as valid names are, and the keys in the store that the listing's pattern matches must have no line break in them; the same of the store holds for the other methods of `DynamicStore.Host`.
- Interleaving.EveryInterleaving: says nothing of foreign keys once an operation with a line break in a domain has completed, and asks of domains that are not in lower case, which no derivation makes, that they have none.
- RootWords.RootWordsExactly: says nothing of names with line breaks inside them.
- Preflight.ConflictsInvolving: the wording of a finding, and reading the snapshots from the daemons, are not modelled.
- Env.Env.Status: the line leaves out the version, the number of peers and the log file.
- daemon.Start, Stop and Nuke: a running flag that may fail to change; pid files, sockets, signals and waiting are not part of this model.
- gRPC: the daemon follows the contract written at internal/nbgrpc/client.go:42-46 and internal/ops/ops.go:125-132; SetConfig that fails changes nothing; the browser login is an outcome; a daemon that reconnects by itself with a kept configuration is not modelled.
- Instance files: a map from valid name to record; a save is atomic, a file's name field is its directory's name, purge is all or nothing; TOML, permissions and paths are not part of this model.
- The interface hint pushed with the settings and the interface discovered afterwards are inputs.
- Writers for one and the same instance at the same time (status beside the watcher), and a watcher that keeps a record which a later set changed: the program does not serialise them, so nothing is claimed.
- Watch.Loop.WatchConnected: speaks about consumed events; events dropped while the eight-slot channel is full are not seen. A sync that panics counts as a failed one.
- Nuke's signals, persistence units, doctor, logs, table output, self-update, Linux and stub platforms.
