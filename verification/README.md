# A verified model of the plugin repository's algorithms

This project models, in Dafny, the parts of the Thunder plugin repository that are algorithms or
protocols in their own right, and proves what they are for. `dafny verify dfyconfig.toml` checks all
of it.

| part | files |
|---|---|
| Octets, widths, options and lists, for all; runs of a state machine, for the three protocols | `Common`, `StateMachine` |
| Bridge link (mirror of remote plugins) | `Lifecycle`, `LinkSteps`, `LinkRuns`, `LinkOutlook`, `LinkLimits`, `LinkOrder`, `LinkAnswers`, `BridgeLink` |
| Access control list of the security agent | `RegexFragment`, `RegexMatching`, `Replacement`, `PatternTokens`, `GlobPatterns`, `UrlPatterns`, `UrlOrigin`, `AccessFilters`, `AccessControl` |
| DRM initialisation data | `Protobuf`, `MessageReading`, `InitDataText`, `KeyIds`, `BodyBounds`, `CommonEncryption`, `BoxSystems`, `BoxWalk` |
| OCDM buffer administrator | `Buffers` |
| Cookie checksum | `CookieChecksum` |
| Messenger rooms | `RoomStreams`, `RoomSteps`, `RoomRuns`, `RoomMaintainer` |
| Plugin monitor | `Scheduling`, `Monitor`, `MonitorOutcome`, `RestartLimits` |
| Message control observer | `ObserverSteps`, `MessageObserver` |

**How the parts are built.** What the source does step by step is a method, or a class whose methods
change its fields. Each such method says in its contract which function of the old state the new
state is, and the promises of the source are proved about those functions. Where several threads
meet, the functions are the steps of a state machine: every remote event, every stretch of code under
a lock and every callback is one step, an event may fall between any two steps of a worker, and
invariants are carried over every run. The worker job itself is also a method; it takes a script of
the events that come in each window in which it has left its lock, so that its contract covers every
interleaving, and it returns the run of the machine that it went through.

**Bridge link.** `LifecycleOverRuns` is the order of what the callback hears about one proxy,
`MirrorOverRuns` says that what waits and what has a proxy are at all times the plugins of the far
side (so the assertions in the event handlers hold), and `NoLostWakeUp` that a job that neither runs
nor is to run has nothing left to tell. The conservation law behind it is `WorkerKeepsOutlook`: what a
proxy has been told together with what it is owed is changed by no step of the worker, but for the
late, unlocked write at the end of `Load`; `QuietDispatch` follows. The class `BridgeLink.Link` has the
three loops of the job, which end for every script. What a source answers is a parameter of them, and
every state that is loaded is one that the source of that very proxy answered; without events every
plugin that waited is told created and then the state that its source answered.

Three promises hold only under a condition, which is given exactly, over runs. A destruction is told by
the time the job rests if and only if no older proxy of the same callsign still waits in the
destruction queue (`emplace` keeps the older entry); the same holds for every proxy when the connection
is lost. A state event is what the callback has been told last when the worker, with nothing else
happening to the callsign, rests: if the proxy is not loaded in that run, if and only if another state
had been told last or the same state was due (the event handlers compare with the state told, not with
the one due); if it is, if and only if it is what was loaded last (the answer of the source is written
without the lock, over whatever an event left there). An event for a plugin that still waits for its
proxy changes nothing; what counts is what is loaded. And what is told of a callsign is one proxy after
another if and only if no proxy is ever made while an older one of the callsign is queued for
destruction. `DestroyCanBeLost`, `StateCanBeMissed`, `StaleLoadWins` and `CreatedTwice` are runs that
fail these promises.

**Access control.** The regular expressions that are written are given a meaning of their own
(section 15.10 of ECMA-262, 3rd edition): a match is one between two positions, anchors are tests of a
position, and a search is for two positions. The replacement passes are shown to be a single pass
that rewrites each character by its neighbours, read back item by item. The result is that a
compiled pattern accepts exactly what the pattern denotes; of the patterns that may also hold a plus,
`GlobsExactly` says that exactly those without one do. `FilterDecides` carries this to the decision of a
filter, and `LoadedAllows` to the decision for a caller, read off the patterns and rules of a whole
configuration. The compiled
patterns are kept in a map, so a callsign is decided by the least compiled expression that matches it:
by `StarDecidesExactly` a bare star wins over every pattern that begins with a lowercase letter, a star
or a dot, while patterns that begin with an uppercase letter or a digit win over the star. `Load` says
that a configuration is complete exactly when every role is used and every group has a known one, and
no configuration loaded before without `Clear` had an unknown one: the list of unknown roles, unlike
that of unused ones, is not emptied. `OriginIsAuthority` gives the URLs whose origin is their scheme and
authority; the others have a second query or fragment mark before the path.

**Initialisation data.** Encoders written for the purpose are undone by the decoders: varints up to
2^56 - 1, messages of length-delimited, fixed and varint records, version 0 and 1 boxes of section 8.1
of ISO/IEC 23001-7, and base64 of section 4 of RFC 4648. The list of key ids is the ledger of all that
was added: first appearances in order, each under the union of its systems; `FlagsOfChain` says which
those are, from the sixteen bytes of each box's system id. The round trips have their converses: a message
is read if and only if it is a chain of records that the fields allow (`SuccessExactly`), and whatever
else comes after such records is refused there, with the fields as they left them (`RefusedAfter`). Four
things that the code
does not ensure are given exactly: the walk over the boxes ends if and only if no box that it comes to
claims size zero, and stays inside the data if and only if none claims a size below that of its header
(`EndsExactly`, `BodiesInsideExactly`); what the bounds checks of a body let through lies inside it if
and only if none of its 32-bit sums wraps through its check (`InsideExactly`); and a repeated field ends
with the payloads of its own key if and only if no bytes record has another key with the same low byte
(`OwnPayloadsExactly`).

**Rooms.** Joined and Left replay to the members of the room from the moment a member has been told
who is there. `StrictExactly` says over every run when such a stream never repeats itself and never
lets a stranger leave: before the briefing, if and only if only users that were heard of left; after it,
if and only if what was heard between the two halves of `SetCallback` came to nothing. The briefing
repeats exactly the users that are known when it begins, and from then on all that is heard is news.
Who is in a room, under which name, whose callback is set and briefed, and which observers are told is
given by the steps of the run alone (`EnteredExactly`, `MembersExactly`, `ObserversExactly`): an observer
is told of the rooms if and only if the last thing it did was to register.

**Monitor.** The number of checks and measurements after any number of evaluations; the slots, which do
not drift however passes, activations and deactivations come; which plugins a pass shuts down, for which
reason; when the next pass is, which finds an object due; and the restart counter.
The counter doubles instead of counting, and starts over when it refuses: after the restart that opens
a window it refuses every n-th one, n being the number of binary digits of the limit, and no others
(`AllowedExactly`). So the configured limit is kept, whatever restarts come, only if it is one.

**Cookie checksum.** The nibble table form is the frame check sequence of RFC 1662, which detects every
burst of up to sixteen bits and every change of an odd number of bits, and which, behind any message,
brings the register to 0xF0B8.

**Observer.** Attach and Detach alternate for each connection, and when the job rests exactly the
connections are attached that came and did not go since.

## Model

| member | source | states |
|---|---|---|
| Lifecycle.TrackedIsWellTold | BridgeLink/BridgeLink.h:1057-1147 | the automaton that follows one proxy's callbacks accepts exactly: Created first and once, reported states that differ from the one before, nothing after Destroyed |
| LinkSteps.CreatedKeeps | BridgeLink/BridgeLink.h:942-962 | a remote Created keeps the invariant of the link, whatever the worker is doing |
| LinkSteps.DestroyKeeps | BridgeLink/BridgeLink.h:963-999 | a remote Destroy keeps it, whether the plugin still waits, has a proxy, or has one while an older proxy of the callsign is queued |
| LinkSteps.StateKeeps | BridgeLink/BridgeLink.h:1000-1056 | a state event keeps it |
| LinkSteps.FlushKeeps | BridgeLink/BridgeLink.h:1148-1180 | losing the connection keeps it |
| LinkSteps.TakeDestructedKeeps | BridgeLink/BridgeLink.h:1062-1078 | the worker's first loop keeps it |
| LinkSteps.TakeCreatedKeeps | BridgeLink/BridgeLink.h:1081-1090 | the worker's second loop keeps it |
| LinkSteps.LoadedKeeps | BridgeLink/BridgeLink.h:258-270 | the unlocked write at the end of Load keeps it, however stale the fetched state is |
| LinkSteps.TakeReportKeeps | BridgeLink/BridgeLink.h:314-340 | reporting a changed state keeps it |
| LinkRuns.LifecycleOverRuns | BridgeLink/BridgeLink.h:1057-1147 | over every run, in every interleaving, what the callback heard about any proxy is one Created, then changing states, then at most one Destroyed and nothing after it |
| LinkRuns.MirrorOverRuns | BridgeLink/BridgeLink.h:942-999 | over every run, waiting callsigns and callsigns with a proxy are disjoint, together they are the live remote plugins, and each stands for the right remote object |
| LinkRuns.AssertionsHold | BridgeLink/BridgeLink.h:948-987 | the assertions of Created, Destroy and the state events hold whenever the event can come |
| LinkRuns.NoLostWakeUp | BridgeLink/BridgeLink.h:942-1180 | over every run, when the job neither runs nor is submitted, the queue is empty, every live plugin has a proxy and every proxy has been told its last recorded state |
| LinkOutlook.WorkerKeepsOutlook | BridgeLink/BridgeLink.h:1057-1147 | no step of the worker, other than the late write of its own Load, changes what a proxy has been told together with what it is owed |
| LinkOutlook.QuietDispatch | BridgeLink/BridgeLink.h:1057-1147 | a dispatch without interference tells every existing proxy exactly what it was owed, once, and ends with reported and actual state equal everywhere |
| LinkOutlook.QuietDispatchCreates | BridgeLink/BridgeLink.h:1081-1101 | it makes one proxy per waiting plugin, told Created and at most one state |
| LinkAnswers.WaitingTold | BridgeLink/BridgeLink.h:258-340 | after it every plugin that waited has a new proxy of which exactly two things were told: that it is created, and activated or unavailable if its source answered that, deactivated if it answered anything else |
| LinkAnswers.RunGrows | BridgeLink/BridgeLink.h:237-283 | over every run a proxy keeps its source, and one that was unlinked stays so |
| LinkLimits.DestroyToldExactly | BridgeLink/BridgeLink.h:977-994 | the destruction of a proxied plugin has been told by the time the job rests if and only if its callsign was not in the destruction queue already |
| LinkLimits.DisconnectToldExactly | BridgeLink/BridgeLink.h:1148-1180 | the same, for every proxy, when the connection is lost |
| LinkLimits.DestroyCanBeLost | BridgeLink/BridgeLink.h:990-992 | a run that ends at rest, with nothing alive on the far side, and the first proxy of a callsign not told destroyed |
| LinkLimits.StateToldExactly | BridgeLink/BridgeLink.h:258-313 | over every run from a state event until the worker rests, in which nothing else happens to the callsign, that state is the one told last if and only if, the proxy not being loaded in that run, another state had been told last or the same one was due, or, it being loaded, the last answer shows as that state |
| LinkLimits.LoadedOnlyWhenNew | BridgeLink/BridgeLink.h:1081-1101 | a proxy that is there and is not being loaded is not loaded later, over any run |
| LinkLimits.WaitingStateToldExactly | BridgeLink/BridgeLink.h:1000-1056 | a state event for a plugin that still waits changes nothing, and when the worker rests the state told last of its new proxy is what was loaded last |
| LinkLimits.StateCanBeMissed | BridgeLink/BridgeLink.h:284-313 | a run that ends at rest with the callback told deactivated, although the last event said activated |
| LinkLimits.StaleLoadWins | BridgeLink/BridgeLink.h:258-270 | another one: an event comes between the fetching of the state and its writing in Load, and the older answer is what is told |
| LinkOrder.CallsignOrderExactly | BridgeLink/BridgeLink.h:1057-1101 | over every run, what is told of a callsign is one proxy after another, each created when the one before has been told destroyed, if and only if no proxy was made while its callsign was queued for destruction |
| LinkOrder.CreatedTwice | BridgeLink/BridgeLink.h:1081-1101 | a run in which two proxies of a callsign are told created with no destruction between |
| BridgeLink.ShellProxy.constructor | BridgeLink/BridgeLink.h:237-245 | a new proxy is linked, with no state told and none due |
| BridgeLink.ShellProxy.Unlink | BridgeLink/BridgeLink.h:275-283 | the source is let go, nothing else changes |
| BridgeLink.ShellProxy.Activate | BridgeLink/BridgeLink.h:284-293 | activated becomes due unless it was told last; the result says whether |
| BridgeLink.ShellProxy.Deactivate | BridgeLink/BridgeLink.h:294-303 | the same for deactivated |
| BridgeLink.ShellProxy.BecomeUnavailable | BridgeLink/BridgeLink.h:304-313 | the same for unavailable |
| BridgeLink.ShellProxy.Take | BridgeLink/BridgeLink.h:261-267 | the answer of the source becomes due, anything but activated and unavailable as deactivated |
| BridgeLink.ShellProxy.Report | BridgeLink/BridgeLink.h:314-340 | a state that is due and was not told last is the action, and counts as told |
| BridgeLink.Link.Created | BridgeLink/BridgeLink.h:942-962 | is the machine's step for a remote Created: a callsign that waits already keeps its source, and the job is submitted |
| BridgeLink.Link.Destroy | BridgeLink/BridgeLink.h:963-999 | is the machine's step for a remote Destroy, over the heap of proxies |
| BridgeLink.Link.StateChanged | BridgeLink/BridgeLink.h:1000-1056 | is the machine's step for the three state events: the job is submitted if and only if there is a proxy that was told another state last |
| BridgeLink.Link.Flush | BridgeLink/BridgeLink.h:1148-1180 | the loop over the proxies comes to the machine's step for a lost connection, whatever the order of the map: nothing waits or has a proxy any more, and the job is submitted if anything is queued |
| BridgeLink.Link.DestroyTurn | BridgeLink/BridgeLink.h:1062-1078 | one turn of the first loop is a run of the machine that leaves the queue shorter unless events came |
| BridgeLink.Link.Load | BridgeLink/BridgeLink.h:258-270 | a linked proxy is loaded with what its own source answers when it is asked, after the events that come meanwhile; one that is no longer linked is not loaded |
| BridgeLink.Link.CreateTurn | BridgeLink/BridgeLink.h:1081-1101 | one turn of the second loop is a run of the machine that loads the new proxy, unless it was unlinked, with an answer of its source |
| BridgeLink.Link.TellReports | BridgeLink/BridgeLink.h:1103-1140 | the loop that starts over after each callback ends for every script of events, leaves every proxy's two states equal and is a run of the machine |
| BridgeLink.Link.Dispatch | BridgeLink/BridgeLink.h:1057-1147 | the whole job, for every script of events in its windows, ends and is a run of the machine, in which every state that is loaded is an answer of the source of that proxy; without events it tells exactly what was owed, and of every plugin that waited that it is created and then the state that its source answered |
| Replacement.SkippedTo | SecurityAgent/AccessControlList.h:29-36 | text before the first occurrence is not touched by replacing |
| Replacement.Find | SecurityAgent/AccessControlList.h:32 | the first occurrence from a position, or none |
| Replacement.ReplaceOne | SecurityAgent/AccessControlList.h:32-35 | one replacement in place keeps what the whole replacement comes to |
| Replacement.ReplaceString | SecurityAgent/AccessControlList.h:29-36 | the in-place loop replaces every occurrence, leftmost first, without overlap and without rereading what it wrote |
| Replacement.PassReplaced | SecurityAgent/AccessControlList.h:29-67 | replacing a single character after a character-wise pass is a character-wise pass |
| RegexFragment.StarSplits | SecurityAgent/AccessControlList.h:302 | a starred class matches exactly the prefixes made of its characters, followed by what the rest matches |
| RegexFragment.ClassReads | SecurityAgent/AccessControlList.h:43-62 | a bracketed class with its quantifier is read as one item whatever follows |
| RegexMatching.ItemsRead | SecurityAgent/AccessControlList.h:61-64 | plain items are read as they are, whatever atom, anchor or border of a group comes after them |
| RegexMatching.FullMatchItems | SecurityAgent/AccessControlList.h:300-302 | a match between the ends of a text is the meaning of the items on that text |
| RegexMatching.AnchoredSearch | SecurityAgent/AccessControlList.h:61-64 | two positions between which an anchored group matches exist if and only if its body matches the whole text |
| GlobPatterns.CreateRegex | SecurityAgent/AccessControlList.h:38-47 | the two ordered passes |
| GlobPatterns.GlobOnePass | SecurityAgent/AccessControlList.h:38-47 | they are one character-wise pass, although the second also rewrites the dots that the first inserted |
| GlobPatterns.CompiledGlobDenotes | SecurityAgent/AccessControlList.h:38-47 | for every pattern without other metacharacters and every string, a full match holds if and only if the glob matches |
| GlobPatterns.GlobsExactly | SecurityAgent/AccessControlList.h:38-47 | of the patterns that may also hold a plus, the compiled expression agrees with the glob on all strings if and only if there is none |
| GlobPatterns.PlusRepeats | SecurityAgent/AccessControlList.h:38-47 | a plus after a character is compiled to a repetition of it |
| UrlPatterns.CreateUrlRegex | SecurityAgent/AccessControlList.h:49-67 | the seven ordered passes and the anchors |
| UrlPatterns.PortsPass | SecurityAgent/AccessControlList.h:57 | after the fourth pass exactly the stars after a colon are ports |
| UrlPatterns.SchemesPass | SecurityAgent/AccessControlList.h:58 | after the fifth exactly the other stars before a colon are schemes |
| UrlPatterns.UrlOnePass | SecurityAgent/AccessControlList.h:53-60 | all seven passes are one left-to-right pass that reads each star by its neighbours |
| UrlPatterns.CompiledUrlDenotes | SecurityAgent/AccessControlList.h:49-67 | the anchored expression is found in exactly the origins that the pattern denotes |
| UrlOrigin.GetUrlOrigin | SecurityAgent/AccessControlList.h:69-80 | the text before the path, cut at the last fragment mark and then at the last query mark |
| UrlOrigin.OriginIsAuthority | SecurityAgent/AccessControlList.h:69-80 | for every scheme, authority and rest of a URL, it is scheme and authority if and only if what stands before the first slash of the rest is cut off whole |
| UrlOrigin.SecondQueryMark | SecurityAgent/AccessControlList.h:75-77 | with a second query mark before the path it is not |
| UrlOrigin.OriginAfterSlashes | SecurityAgent/AccessControlList.h:72 | the path begins at the first slash after the first two slashes in a row, whatever comes before them |
| UrlOrigin.OriginWithoutSlashes | SecurityAgent/AccessControlList.h:72 | without two slashes in a row, at the first slash after the first character |
| AccessFilters.NewPlugin | SecurityAgent/AccessControlList.h:278-287 | compiles every method pattern, in order |
| AccessFilters.PluginAllowed | SecurityAgent/AccessControlList.h:291-306 | allowed if and only if being blocked by default and being listed agree |
| AccessFilters.EmplacedContents | SecurityAgent/AccessControlList.h:325-328 | a key that is there keeps its rules, a new one gets them, nothing else changes |
| AccessFilters.NewFilter | SecurityAgent/AccessControlList.h:318-330 | the filter holds the compiled patterns in map order |
| AccessFilters.PluginsContents | SecurityAgent/AccessControlList.h:318-330 | each compiled pattern is there once, under the rules of the first pattern compiled to it |
| AccessFilters.FilterAllowed | SecurityAgent/AccessControlList.h:335-350 | the first plugin in map order whose expression matches decides, or the default |
| AccessFilters.FilterDecides | SecurityAgent/AccessControlList.h:335-350 | in terms of the configured globs: the matching pattern with the least compiled expression decides by its rules, and the default decides when none matches |
| AccessFilters.OneDecides | SecurityAgent/AccessControlList.h:335-350 | there is only one such pattern |
| AccessFilters.FilterAllowsRights | SecurityAgent/AccessControlList.h:318-350 | the filter made for a role grants exactly what its configured rights allow |
| AccessFilters.StarOrder | SecurityAgent/AccessControlList.h:324-328 | the expression of a bare star comes before that of another pattern if and only if that begins with a star, a dot or a character above the bracket |
| AccessFilters.StarDecidesExactly | SecurityAgent/AccessControlList.h:335-350 | a bare star decides for a callsign if and only if no pattern that denotes it has an expression before the star's |
| AccessControl.AccessControlList.Assign | SecurityAgent/AccessControlList.h:451-481 | a group's pattern is compiled and appended with its role, unless the role is unknown or the same pair is there |
| AccessControl.AccessControlList.Load | SecurityAgent/AccessControlList.h:427-490 | adds the filters of the new roles and the patterns of the groups, keeps the lists of unused and unknown roles, and says that the configuration is complete if and only if every role is used, every group has a known role, and no unknown one was left from before |
| AccessControl.AccessControlList.Note | SecurityAgent/AccessControlList.h:460-486 | an unknown role is noted once, a known one is taken off the unused ones |
| AccessControl.AccessControlList.Clear | SecurityAgent/AccessControlList.h:384-392 | nothing is left |
| AccessControl.EmplacedValue | SecurityAgent/AccessControlList.h:441-449 | each role of distinct names gets the filter of its own configuration |
| AccessControl.FoundIsApplied | SecurityAgent/AccessControlList.h:393-490 | although repeated pairs are left out, the role found for an origin is that of the first group that applies |
| AccessControl.LoadedPermits | SecurityAgent/AccessControlList.h:419-490 | for every configuration of origin patterns, a freshly loaded list permits a call if and only if the first group with a known role whose pattern denotes the origin has a role that grants it |
| AccessControl.LoadedAllows | SecurityAgent/AccessControlList.h:419-490 | the same with no expression or filter left in it: the patterns and rules of that role allow the call |
| AccessControl.AccessControlList.FilterMapFromURL | SecurityAgent/AccessControlList.h:393-418 | the first assigned expression found in the origin |
| AccessControl.AccessControlList.Allowed | SecurityAgent/AccessControlList.h:419-426 | its filter decides, and without one nothing is allowed |
| AccessControl.AccessControlList.PermittedByPattern | SecurityAgent/AccessControlList.h:393-426 | permitted if and only if the first assigned URL pattern that denotes the origin has a filter that grants it |
| Protobuf.ReadVarint | OpenCDMi/Protobuf.h:104-122 | the loop over at most eight bytes decodes what the wire format says, or nothing |
| Protobuf.VarintRoundTrip | OpenCDMi/Protobuf.h:104-122 | decoding undoes encoding for exactly the values below 2^56, taking the encoded bytes and nothing after them |
| Protobuf.VarintUnreadable | OpenCDMi/Protobuf.h:104-122 | nothing is read exactly when no byte among the first eight ends the number |
| Protobuf.ShortVarints | OpenCDMi/Protobuf.h:104-122 | numbers of up to fourteen bits are one byte or two, the low seven bits first |
| Protobuf.DeserializeBytes | OpenCDMi/Protobuf.h:245-260 | the size and, when it fits, the payload |
| Protobuf.BytesDeliveredIffComplete | OpenCDMi/Protobuf.h:245-260 | the payload is delivered exactly when all of it is there; a cut one is skipped as its size alone |
| Protobuf.Deserialize | OpenCDMi/Protobuf.h:167-191 | each kind of element consumes its wire form and keeps its value |
| Protobuf.Skip | OpenCDMi/Protobuf.h:471-505 | an unknown element is consumed as its wire type says, groups and unknown types not at all |
| Protobuf.Message.FromBuffer | OpenCDMi/Protobuf.h:401-446 | the loop ends for all bytes, in the state the record by record reading gives, and never past the end |
| Protobuf.ParsedStaysInside | OpenCDMi/Protobuf.h:401-446 | success means that everything was consumed |
| Protobuf.TurnBack | OpenCDMi/Protobuf.h:408-443 | one encoded record is undone by one turn, whatever follows it |
| Protobuf.MessageRoundTrip | OpenCDMi/Protobuf.h:401-446 | any sequence of readable records is read back whole, unknown keys skipped |
| Protobuf.RepeatedCollects | OpenCDMi/Protobuf.h:287-296 | a repeated bytes field ends with exactly its payloads, in order |
| Protobuf.SingularConcatenates | OpenCDMi/Protobuf.h:245-260 | a singular bytes field given several times ends with their concatenation |
| Protobuf.KeysAlias | OpenCDMi/Protobuf.h:411-419 | a bytes record, whatever its key, changes the repeated field of a key if and only if that is the low byte of its own |
| Protobuf.OwnPayloadsExactly | OpenCDMi/Protobuf.h:401-446 | a repeated field ends with exactly the payloads of its own key if and only if no bytes record has another key with the same low byte |
| MessageReading.TurnExactly | OpenCDMi/Protobuf.h:408-443 | the reader moves on if and only if the data begins with a record that the fields allow, and exactly by its size |
| MessageReading.SuccessExactly | OpenCDMi/Protobuf.h:401-446 | reading succeeds if and only if the data is a chain of such records |
| MessageReading.RefusedAfter | OpenCDMi/Protobuf.h:434-443 | after any readable records, bytes that do not begin with one make the reader answer false, whatever follows, with the fields as those records left them; a number that is cut is only no longer set |
| MessageReading.WrongTypeRefused | OpenCDMi/Protobuf.h:422-427 | a record of a declared key with another wire type is such bytes |
| MessageReading.ZeroKeyRefused | OpenCDMi/Protobuf.h:412-417 | so is one whose key is zero in 32 bits |
| MessageReading.GroupRefused | OpenCDMi/Protobuf.h:471-497 | so are groups and the two unknown wire types, declared or not |
| MessageReading.CutRefused | OpenCDMi/Protobuf.h:167-191 | so is a value of fixed width that is cut |
| MessageReading.UnendingTagRefused | OpenCDMi/Protobuf.h:409-410 | so is a tag that does not end |
| InitDataText.FindInXML | OpenCDMi/CENCParser.h:376-393 | the least even offset at which the key stands in every second byte, or a value beyond the length; ends although a mismatch rewinds |
| InitDataText.SearchEndsIffCyclic | OpenCDMi/CENCParser.h:376-393 | for lengths at which the 16-bit cursor wraps, the search ends if and only if the key occurs around the wrap |
| InitDataText.SearchFindsLeast | OpenCDMi/CENCParser.h:376-393 | and then answers the least offset at which it does |
| InitDataText.Base64 | OpenCDMi/CENCParser.h:209-254 | writes the bytes that the letters stand for, in the order in which the 8-bit index comes to them and up to the first other character, as many as the target holds, and no others |
| InitDataText.WrittenOnceExactly | OpenCDMi/CENCParser.h:209-254 | although the 8-bit index starts over at the end of 128 letters, what is written is what the letters stand for, taken once, if and only if there are fewer of them or the target has at most 96 bytes; its callers have one of 32 |
| InitDataText.Base64RoundTrip | OpenCDMi/CENCParser.h:209-254 | undoes base64 text widened to two bytes a character, for every byte string |
| InitDataText.AlphabetExactly | OpenCDMi/CENCParser.h:220-232 | a character stands for a number if and only if that is its place in the alphabet of section 4 of RFC 4648 |
| KeyIds.Ledger | OpenCDMi/CENCParser.h:154-165 | the list is the distinct ids in order of first appearance, each under all the systems it was added for |
| CommonEncryption.CommonEncryptionData.AddKeyId | OpenCDMi/CENCParser.h:154-165 | appends a new id, or flags the one that is there |
| CommonEncryption.CommonEncryptionData.ParseWidevine | OpenCDMi/CENCParser.h:552-605 | adds the key ids of a Widevine payload that reads as a message, and none of one that does not |
| CommonEncryption.CommonEncryptionData.FindPieces | OpenCDMi/CENCParser.h:315-336 | what the 32-bit bounds checks let through, by version, for every body |
| CommonEncryption.CommonEncryptionData.ParsePSSHBox | OpenCDMi/CENCParser.h:298-374 | adds the ids that a box body stands for |
| CommonEncryption.CommonEncryptionData.Parse | OpenCDMi/CENCParser.h:256-296 | walks the boxes and adds what each stands for |
| CommonEncryption.BodyBack | OpenCDMi/CENCParser.h:298-374 | undoes the encoding of a version 0 or 1 box body |
| CommonEncryption.BoxesBack | OpenCDMi/CENCParser.h:256-296 | a chain of well-formed boxes is walked to its very end and yields their additions in order |
| CommonEncryption.ChainYieldsLedger | OpenCDMi/CENCParser.h:256-374 | parsing any non-empty chain of well-formed boxes consumes it and leaves each distinct id once, in order of first appearance, under the union of the systems of the boxes that list it |
| CommonEncryption.WidevinePayloadIds | OpenCDMi/CENCParser.h:592-596 | a Widevine payload with ids among its records yields those ids |
| BoxSystems.BoxAdds | OpenCDMi/CENCParser.h:338-367 | a box with the sixteen bytes of PlayReady or Widevine adds the ids of its payload and its own under that system, one with those of ClearKey its own under ClearKey, and any other its own under Common |
| BoxSystems.OneSystem | OpenCDMi/CENCParser.h:338-359 | every system id is of exactly one of the four |
| BoxSystems.FlagsOfChain | OpenCDMi/CENCParser.h:256-374 | after parsing a chain of boxes an id is flagged with a system if and only if a box with the system id of that one lists it |
| BoxSystems.WidevineLists | OpenCDMi/CENCParser.h:592-596 | the ids of a Widevine payload are the payloads of its records with number 2, in order |
| BoxSystems.WidevineMatches | OpenCDMi/CENCParser.h:562-587 | which of its records must be numbers and which must be bytes |
| BoxSystems.WidevineRefused | OpenCDMi/CENCParser.h:592 | a payload that is not such a message has none |
| BoxSystems.MadeIdAt | OpenCDMi/CENCParser.h:594-596 | an id is made of a payload cut to its size in eight bits |
| BoxSystems.CutPayload | OpenCDMi/CENCParser.h:315-320 | a version 0 body that is shorter than its payload adds nothing |
| BoxSystems.CutKeys | OpenCDMi/CENCParser.h:321-326 | nor does a version 1 body that is shorter than its key ids |
| BoxSystems.CutAfterKeys | OpenCDMi/CENCParser.h:327-333 | with only the payload cut, its key ids are added |
| BoxSystems.ChainThenOther | OpenCDMi/CENCParser.h:262-292 | whatever is not a box ends a chain of boxes, which adds what it adds on its own |
| CommonEncryption.FoundPieces | OpenCDMi/CENCParser.h:315-336 | unless a sum wraps, what the checks find is the key list and the payload of the body |
| BodyBounds.InsideExactly | OpenCDMi/CENCParser.h:315-336 | for every body, the key ids and the payload that the bounds checks let through lie inside it if and only if none of the 32-bit sums of its version wraps and passes its check |
| BodyBounds.SizeWraps | OpenCDMi/CENCParser.h:315-320 | a body of version 0 whose payload size does, and the payload is outside |
| BodyBounds.CountWraps | OpenCDMi/CENCParser.h:321-333 | a body of version 1 whose key count does, and the key ids are outside |
| BoxWalk.EndsExactly | OpenCDMi/CENCParser.h:256-296 | for all data, the walk with its 16-bit offset ends if and only if no box that it comes to claims size zero |
| BoxWalk.EmptyBoxHolds | OpenCDMi/CENCParser.h:262-268 | at such a box it goes on for any number of turns |
| BoxWalk.EmptyBoxNeverEnds | OpenCDMi/CENCParser.h:262-268 | eight bytes on which it does |
| BoxWalk.BodiesInsideExactly | OpenCDMi/CENCParser.h:262-267 | every body it hands on lies inside the data if and only if no box that it comes to claims a size below eight, and then the walk ends |
| BoxWalk.WalkIsParse | OpenCDMi/CENCParser.h:256-296 | on the data that Parse is specified for, the walk ends where Parse says |
| Buffers.BufferAdministrator.constructor | OpenCDMi/FrameworkRPC.cpp:161-166 | no locator is live |
| Buffers.BufferAdministrator.AcquireBuffer | OpenCDMi/FrameworkRPC.cpp:172-196 | hands out the locator of the least free index, which was not live, and refuses exactly when all sixteen are live |
| Buffers.BufferAdministrator.ReleaseBuffer | OpenCDMi/FrameworkRPC.cpp:197-226 | a live locator frees its own bit and no other; any other name only what its number names |
| Buffers.LocatorInjective | OpenCDMi/FrameworkRPC.cpp:190 | different indices have different locators |
| Buffers.LocatorNumbered | OpenCDMi/FrameworkRPC.cpp:190 | the names are numbered in decimal, from 0 to 15 |
| Buffers.CountOfLive | OpenCDMi/FrameworkRPC.cpp:180-188 | all bits are set exactly when sixteen locators are live |
| CookieChecksum.CrcChecksum | WebKitBrowser/CookieJar.cpp:133-152 | the nibble table checksum is the bit-at-a-time frame check sequence of section C.2 of RFC 1662, for every string |
| CookieChecksum.LookUpFeedsNibble | WebKitBrowser/CookieJar.cpp:147 | one table look-up is four bit steps |
| CookieChecksum.GoodWithChecksum | WebKitBrowser/CookieJar.cpp:133-152 | whatever the string, its bits and then those of its checksum leave 0xF0B8 in the register, as section C.2 of RFC 1662 says |
| CookieChecksum.EmptyChecksum | WebKitBrowser/CookieJar.cpp:143-152 | the checksum of the empty string is zero |
| CookieChecksum.WindowReachesDistinctStates | WebKitBrowser/CookieJar.cpp:145-150 | different windows of up to sixteen bits lead from any state to different states |
| CookieChecksum.BurstDetected | WebKitBrowser/CookieJar.cpp:133-152 | strings that differ only within sixteen consecutive bits have different checksums |
| CookieChecksum.BytesDetected | WebKitBrowser/CookieJar.cpp:133-152 | so have strings that differ in one byte or in two neighbouring ones |
| CookieChecksum.ParityKept | WebKitBrowser/CookieJar.cpp:133-152 | the checksum of every string has the parity of the string |
| CookieChecksum.OddChangesDetected | WebKitBrowser/CookieJar.cpp:133-152 | strings of one length that differ in an odd number of bits, wherever, have different checksums |
| RoomSteps.JoinKeeps | Messenger/RoomMaintainer.cpp:30-91 | joining keeps the invariant of the rooms, whether the room is new, the name is taken or not |
| RoomSteps.ExitKeeps | Messenger/RoomMaintainer.cpp:93-123 | leaving keeps it, and closes the room with its last member |
| RoomSteps.NotifyKeeps | Messenger/RoomMaintainer.cpp:125-142 | the briefing of a member brings its stream level with the room |
| RoomSteps.RegisterKeeps | Messenger/RoomMaintainer.cpp:164-188 | so does the briefing of a new observer |
| RoomSteps.RoomsOverRuns | Messenger/RoomMaintainer.cpp:30-210 | over every run a room has members, all of different names, and the stream of every registered observer replays, without repetition, to exactly the rooms there are |
| RoomSteps.MembersOverRuns | Messenger/RoomMaintainer.cpp:30-142 | over every run what a member's callback heard since it was set replays to members of its room, and after the briefing to all of them |
| RoomSteps.StrictExactly | Messenger/RoomImpl.h:82-107 | over every run, a member's stream neither repeats a user nor lets a stranger leave if and only if, before the briefing, only users heard of left, and after it, whoever joined between the two halves of SetCallback left again and nobody else did |
| RoomSteps.BriefedHearsNews | Messenger/RoomMaintainer.cpp:65-123 | whatever others do after the briefing, a member hears at most one note of it, which is news to it |
| RoomSteps.BriefingRepeats | Messenger/RoomImpl.h:82-107 | the briefing repeats a user if and only if it is known when the briefing begins |
| RoomSteps.JoinedTwice | Messenger/RoomImpl.h:82-107 | a user that joins between the two halves of SetCallback is heard twice |
| RoomSteps.StrangerLeaves | Messenger/RoomImpl.h:82-107 | one that leaves between them is heard to leave without having been heard of |
| RoomSteps.JoinedTwiceReached | Messenger/RoomImpl.h:82-107 | the first is reached from no rooms, for any two names |
| RoomSteps.StrangerLeavesReached | Messenger/RoomImpl.h:82-107 | so is the second |
| RoomRuns.EnteredExactly | Messenger/RoomMaintainer.cpp:30-91 | after every run a member has this number, room and name if and only if a join of the run brought it in, under a name that nobody in the room had |
| RoomRuns.MembersExactly | Messenger/RoomImpl.h:82-107 | it is in its room until it is let go, and its callback is set, or briefed, if and only if that is the last thing the run did to it |
| RoomRuns.ObserversExactly | Messenger/RoomMaintainer.cpp:164-210 | an observer is told if and only if its last Register comes after its last Unregister, and then what it was told since replays to the rooms there are |
| RoomRuns.NothingMoreTold | Messenger/RoomMaintainer.cpp:190-210 | over every run in which an observer that is not registered does not register, nothing is told to it |
| RoomRuns.ToldGrows | Messenger/RoomMaintainer.cpp:50-53 | a registered observer is told at most one note a step, after those before |
| RoomRuns.RegisteringTells | Messenger/RoomMaintainer.cpp:175-183 | registering tells an observer of each room there is, once, and of nothing else |
| RoomMaintainer.RoomImpl.UserJoined | Messenger/RoomImpl.h:110-122 | the callback hears it if there is one |
| RoomMaintainer.RoomImpl.UserLeft | Messenger/RoomImpl.h:124-136 | the same |
| RoomMaintainer.RoomMaintainer.Join | Messenger/RoomMaintainer.cpp:30-91 | is the machine's step, and says whether the name was free |
| RoomMaintainer.RoomMaintainer.Exit | Messenger/RoomMaintainer.cpp:93-123 | is the machine's step |
| RoomMaintainer.RoomMaintainer.SetCallback | Messenger/RoomImpl.h:82-98 | the locked half of SetCallback |
| RoomMaintainer.RoomMaintainer.Notify | Messenger/RoomMaintainer.cpp:125-142 | the loop over the members is the other half |
| RoomMaintainer.RoomMaintainer.Register | Messenger/RoomMaintainer.cpp:164-188 | the sink is an observer, and a new one is told of the rooms there are, in some order; is the machine's step |
| RoomMaintainer.RoomMaintainer.Unregister | Messenger/RoomMaintainer.cpp:190-210 | the sink is no observer any more; is the machine's step |
| Scheduling.GcdIsGreatest | Monitor/Monitor.h:31-34 | the common interval divides both intervals and is the greatest to do so |
| Scheduling.MovedIsLeast | Monitor/Monitor.h:561-566 | a slot is moved to the least time in its phase that is not before the scheduled time |
| Monitor.MonitorObject.constructor | Monitor/Monitor.h:458-485 | the intervals are those given, the threshold is taken in kilobytes, both counters stand for a whole period of the common interval, and nothing is watched yet |
| Monitor.MonitorObject.Evaluate | Monitor/Monitor.h:595-631 | runs both counters down by the interval, checks and measures when they reach zero, and says what failed |
| Monitor.CounterKeeps | Monitor/Monitor.h:600-628 | a counter with an interval is never run down below zero and always stands for what is left of its period |
| Monitor.ChecksAfter | Monitor/Monitor.h:595-631 | after n evaluations with a live source there were n * g / interval checks, and likewise measurements |
| Monitor.ChecksOverEvents | Monitor/Monitor.h:595-631 | over any passes, activations and deactivations the same holds for the number of passes that find a new object active, due and with a live source |
| Monitor.MonitorObject.Retrigger | Monitor/Monitor.h:561-566 | the loop moves the slot on, in phase |
| Monitor.PassedDue | Monitor/Monitor.h:1035-1067 | a pass evaluates exactly the active objects that are due and moves exactly their slots, to the least time in phase |
| Monitor.PhaseKept | Monitor/Monitor.h:561-566 | over any sequence of passes, activations and deactivations, the slot is the least one in its phase that is not before the latest pass that found the object active |
| Monitor.DueAgainExactly | Monitor/Monitor.h:561-566 | an object is due again at the same time exactly when its slot was a whole number of intervals ago |
| Monitor.LeastSlotIsLeast | Monitor/Monitor.h:1069-1071 | the next slot is that of an active object and no active object has an earlier one |
| MonitorOutcome.FailingExactly | Monitor/Monitor.h:1043-1065 | a pass shuts down exactly the plugins that are watched, due and have an interface and that, at the end of a whole period of the check, exceed their memory or are not operational; memory is the reason if both hold |
| MonitorOutcome.FailingInOrder | Monitor/Monitor.h:1035-1074 | they are shut down in the order of the objects, each once |
| MonitorOutcome.StatusExactly | Monitor/Monitor.h:595-631 | what a pass finds out about one object, in terms of its answers and of how often it was evaluated |
| MonitorOutcome.NextPass | Monitor/Monitor.h:1076-1083 | with a slot to come the job is not left waiting: it runs again at once if and only if the least one is past, and otherwise a millisecond after it, and that pass finds an object due if and only if the time does not wrap |
| MonitorOutcome.WaitsAfterPass | Monitor/Monitor.h:1069-1083 | it runs again at once only if the pass took time |
| MonitorOutcome.WatchedExactly | Monitor/Monitor.h:747-778 | over any events an object is watched if and only if its plugin came and did not go since, and asked if and only if it came with an interface and did not go since |
| MonitorOutcome.OperationalNoted | Monitor/Monitor.h:604-612 | a check notes the answer, any other pass leaves what was known |
| MonitorOutcome.OperationalExactly | Monitor/Monitor.h:569-584 | a plugin that never says otherwise is operational exactly while it has an interface |
| Monitor.MonitorObjects.Activated | Monitor/Monitor.h:747-768 | the object of the callsign becomes active, with the memory interface if there is one, and the job is woken up; no other object changes |
| Monitor.MonitorObjects.Deactivated | Monitor/Monitor.h:769-778 | it becomes inactive and loses the interface |
| Monitor.MonitorObjects.Dispatch | Monitor/Monitor.h:1030-1086 | the loop passes every object once, shuts down those that fail, and stops if and only if no watched object has a slot to come, runs again at once if the least one is past, and else is put off until a millisecond after it |
| Monitor.MonitorObjects.Reschedule | Monitor/Monitor.h:1076-1086 | the end of the job, in terms of the objects |
| RestartLimits.RestartCounter.RegisterRestart | Monitor/Monitor.h:500-517 | counts a restart within the window or opens a new one, and says whether it is allowed |
| RestartLimits.AllowedWithinWindow | Monitor/Monitor.h:500-517 | after k further restarts in a window the next is allowed exactly when a count that doubles each time is below the limit |
| RestartLimits.AllowedExactly | Monitor/Monitor.h:500-517 | in an open window, after any restarts, allowed or refused, the next one is refused if and only if its number is a multiple of the number of binary digits of the limit |
| RestartLimits.LimitIsKeptExactly | Monitor/Monitor.h:500-517 | in an open window, for all sequences of restarts, refused ones included, the next one is allowed exactly while their number is below the limit, if and only if the limit is one |
| RestartLimits.RefusedThenAllowed | Monitor/Monitor.h:513-515 | with a limit of two, of three restarts after the one that opens the window the second is refused and the third allowed |
| RestartLimits.WindowExactly | Monitor/Monitor.h:505-511 | a restart outside a window is allowed, starts the count and opens one that lasts for the configured seconds, whatever restarts come within it |
| RestartLimits.NoLimit | Monitor/Monitor.h:513 | with a limit of zero every restart is allowed, whatever came before |
| RestartLimits.NoWindow | Monitor/Monitor.h:505 | with a window of zero every restart is within it |
| ObserverSteps.TrackedAlternate | MessageControl/MessageControl.h:276-281 | the automaton that follows the calls about one connection accepts exactly alternating ones, Attach first |
| ObserverSteps.StepKeeps | MessageControl/MessageControl.h:173-282 | every event and every step of the job keeps the invariant of the observer |
| ObserverSteps.LiveOverRuns | MessageControl/MessageControl.h:173-247 | over every run a connection is up exactly when its entry is attaching or observing |
| ObserverSteps.CallsOverRuns | MessageControl/MessageControl.h:250-282 | over every run the calls about a connection alternate, and outside the job it is attached exactly when its entry is observing or detaching |
| ObserverSteps.RestingOverRuns | MessageControl/MessageControl.h:173-282 | when the job neither runs nor is to run, exactly the live connections are attached |
| ObserverSteps.LiveExactly | MessageControl/MessageControl.h:173-247 | over every run a connection is up if and only if its last event is that it came |
| ObserverSteps.RestingExactly | MessageControl/MessageControl.h:173-282 | when the job neither runs nor is to run, exactly those connections are attached |
| MessageObserver.Observer.Activated | MessageControl/MessageControl.h:173-195 | is the machine's step for a connection that comes |
| MessageObserver.Observer.Drop | MessageControl/MessageControl.h:227-248 | is the machine's step for one that goes |
| MessageObserver.Observer.Collect | MessageControl/MessageControl.h:252-273 | the locked loop collects what is to be attached and detached, whatever the order of the map |
| MessageObserver.Observer.Dispatch | MessageControl/MessageControl.h:250-282 | the job, for every script of events between its calls, is a run of the machine; without events no connection comes or goes, and it ends with exactly the live ones attached |

## Left out

- Plugin initialisation, JSON-RPC and REST handlers, configuration classes, metadata, getters, sockets, files, tracing and the vendor libraries: they depend on code that is not part of this model.
- COM reference counts and object lifetime: proxies and members are kept in a table and known by number, so a released object is only one that no map names.
- Locks: what runs under a lock is one step. A worker job is assumed not to overlap with itself.
- BridgeLink.ShellProxy.Report: the dispatcher interface that a proxy takes when it reports activated, and releases otherwise, is not modelled.
- `Link::Callback` and dispatching without a callback: the callback of the bridge link is there throughout.
- The bridge's remote side is assumed to alternate Created and Destroy for each callsign, and to start over when the connection is lost; `_isEmpty` and the wait in `Deinitialize` are not modelled.
- AccessControl.AccessControlList.Load: the JSON reader is not modelled; a configuration is the roles, of different names, and the groups that it yields.
- The regular expression engine beyond literals, identity escapes, classes with ranges, star, plus and an anchored group; a pattern with other metacharacters is outside the theorems on what is accepted, and a malformed expression, for which the library throws, matches nothing here.
- The JSON initialisation data, the PlayReady XML and PlayReady payloads are parameters that yield key ids; `ParseXMLBox` is not modelled.
- Protocol buffers: nested messages, packed repeated fields and zigzag numbers are not modelled.
- `Exchange::KeyId` is a sequence of bytes that is compared by value; how it is made from a payload is a parameter. `Core::NumberType` is a parameter that reads back the numbers up to fifteen.
- CommonEncryption.CommonEncryptionData.Parse: for data whose boxes claim at least the size of their header and that is not cut short of the bytes it looks at; BoxWalk has the walk for all data, but not what is added for a body that lies outside of it.
- CommonEncryption.CommonEncryptionData.ParsePSSHBox: for bodies of which no 32-bit sum wraps through its check; for the others InsideExactly says that a piece lies outside the body, and what is there is not modelled.
- InitDataText.FindInXML: for lengths below 65534 and with the byte at the length readable, as its callers provide; the two lengths at which the cursor wraps are treated by SearchEndsIffCyclic.
- The cookie checksum is 16 bits wide as a sequence of bits; cookie compression, base64 and encryption are not modelled.
- Messenger rooms: a member leaves its room in one step with its destruction, and making a member succeeds. `Send` and the message sinks are not modelled.
- Monitor.MonitorObject.Retrigger: for times, in microseconds, that are at least one interval below 2^64, so that the slot does not wrap; the conversion of configured seconds to microseconds is not modelled.
- Monitor.MonitorObjects.Dispatch: the same bound on times.
- Monitor: the statistics that a measurement feeds, and the order in which failed plugins are deactivated by other jobs.
- The cleaning of message files in Attach and Detach of the message control.
