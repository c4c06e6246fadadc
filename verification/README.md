# Verified models of birch: the IRC wire codec and the file watchers

This project models two parts of the birch IRC server and proves what they promise.

**The wire codec and its framing.** `MessageParser` is a thirteen-state machine fed one octet at a time,
`MessageSerializer` prints the same messages through a measuring and a writing sink, and
`AsioConnection::RunReadLoop` keeps a half-built message alive across arbitrary socket reads. The project states the
parser's language as a grammar with a meaning, taken from what the parser does, and proves that the parser completes
on exactly the lines of that grammar, with exactly their meaning; when it rejects too late; where its prefixes, tags and
parameters part from the standards; the exact domain on which printing and parsing undo each other; and that framing
does not depend on how the stream is cut up.

**The file watchers as concurrent protocols.** `WinFileWatcher` and `KqueueFileWatcher` are each a state and a step
relation whose steps are the critical sections and the things done outside the mutex, so that every statement is about
all interleavings of client threads, worker and operating system. The imperative classes beside them implement the
critical sections and are proved to take the steps of the relation.

Each file is one module of the same name, in this order:

| files | contents |
|---|---|
| `Collections`, `Octets`, `LinkedMaps`, `Messages` | options; characters and their classes; insertion-ordered maps; `irc::Message` |
| `Hostname`, `Prefixes`, `PrefixStarts` | the hostname and prefix grammars, the scanners that decide them, and what begins a prefix |
| `Machine`, `Soundness`, `Parser` | the parser as a machine on values, its invariant, and the class `MessageParser` |
| `Grammar`, `Recognition`, `Completion`, `Viability`, `Rfc`, `Standards` | the grammar of lines, its agreement with the parser, the rules of the standards in their own terms, and the distance between them |
| `Encoding`, `Serializer`, `RoundTrip`, `SizeBound` | the printed form, the sinks, and what parsing makes of it |
| `ReadLoop` | framing, and the class `AsioConnection` |
| `WinTables`, `WinRegistry`, `WinSystem`, `WinInvariants`, `WinTheorems`, `WinFiring`, `WinWatcher` | `WinFileWatcher` |
| `KqSystem`, `KqInvariants`, `KqEvents`, `KqTracking`, `KqStraying`, `KqTheorems`, `KqArming`, `KqFiring`, `KqWatcher` | `KqueueFileWatcher` |

`dafny verify dfyconfig.toml` checks the whole project.

## What turned out not to hold

- **Prefixes.** The parser takes `nick!` and `nick@`, which section 2.3.1 of RFC 2812 does not have, and these are all
  it takes beyond the standard (`BeyondTheStandard`). It does not take a prefix whose user holds an octet that
  `IsPrefixChar` leaves out, and these are all it falls short by (`ShortOfTheStandard`); `:n!~u@h` is one (`TildeUser`).
- **Tags.** Of the tag lists of the IRCv3 Message Tags specification the parser takes exactly those with no dot in a key
  and with an equals sign in every tag but the last (`SpecTagsTaken`); `@n;u` and `@n.h/u` are two that it does not take
  (`SpecTagsDropped`).
- **Parameters.** Where `char` is signed, octets from 0x80 up are negative, and `IsParamStartChar` leaves them out. Of the
  parameters of RFC 2812 exactly those without such an octet are taken as they are (`MiddlesTaken`, `TrailingTaken`);
  elsewhere they are rejected, except at the beginning of a middle parameter, where they are passed over
  (`LeadingPassed`).
- **Round trip.** A tag without a value that is not the last one is printed without `=`, and the parser then rejects
  the `;` after it. `RoundTripsExactly` gives the exact domain, `UnvaluedIsRejected` the failing family, and
  `ParsedButNotReread` a line, `@a=;b=c X`, that the parser completes and whose message it cannot read back.
- **Early rejection.** Inside a prefix the parser takes whatever consists of prefix characters and looks at the whole
  only at the space, so `:!` is accepted for now though no line begins with it (`PrefixIsCheckedLate`).
  `RejectsExactlyTheHopeless` says, for every text, exactly when a line can still come of it: it is not rejected and, if
  it stops inside a prefix, what was read of the prefix begins a legal one. `CanBePrefixExactly` makes that a condition
  on the text, with only the beginnings of IP addresses left to the address library.
- **Error completions on Windows.** An error completion leaves an active directory with no read outstanding. Watches in
  it, also those that are added later and get their handle (`JoinsDeadDirectory`), never fire again
  (`DeadDirectoryIsDeaf`). If the directory is still there at shutdown the worker waits for a completion that cannot come:
  `ShutdownFinishesExactly` says exactly when the worker can leave, and `ShutdownCanHang` builds a run that cannot.
- **kqueue updates.** A file that is deleted or replaced between `open` and the `kevent` call that arms it leaves the
  watch on a dead inode with nothing pending, and a failed `kevent` leaves it without a descriptor. `InStepExactly` says,
  over every run, that a settled watch is in step with its path if and only if its last opening did not leave it adrift;
  `LastArmingDecides` says what that means at the arming: whatever the file system does afterwards, until the watch's
  file is opened again it is in step when settled exactly if the path still named the opened file (or, after a failure,
  if there was no file or the directory had news). `UpdateCanBeMissed` builds a run in which an update is missed, and
  `NoMissedUpdateUndisturbed` shows that a watch whose own openings are not disturbed misses none.
- **Stale kqueue events.** The branches for an event of an unknown watch and of a descriptor that is no longer owned
  are unreachable (`NoStaleEvents`).

## Model

| member | source | states |
|---|---|---|
| `Messages.Message.AddTag` | irc/Message.cc:30-33 | overwrites the value at the key's old place or appends it; every other key keeps value and order |
| `Messages.Message.EmplaceTag` | irc/Message.cc:35-38 | keeps the first value a key was given, otherwise appends; every other key keeps value and order |
| `Messages.Message.AddParam` | irc/Message.cc:60-68 | appends one parameter |
| `LinkedMaps.AssignMeans` | irc/Message.cc:30-33 | assigning changes the map at one key only and keeps the order of the keys |
| `LinkedMaps.EmplaceMeans` | irc/Message.cc:35-38 | emplacing changes the map only at a key that was missing and keeps the order of the keys |
| `Hostname.ScanDecides` | server/MessageParser.cc:133-169 | the one-pass scan accepts exactly the texts whose pieces between dots are non-empty labels led by a letter or digit |
| `Hostname.IsValidHostname` | server/MessageParser.cc:133-169 | the loop answers the hostname rule of section 2.3.1 of RFC 2812 |
| `Prefixes.PrefixCases` | server/MessageParser.cc:507-625 | a text is a printed prefix shape exactly when it is a hostname or has the form nick, optionally followed by a user and host part |
| `Prefixes.ScanNickForm` | server/MessageParser.cc:520-625 | the cursor scan decides the nickname forms: 1 to 9 characters, `@host`, `!user@host`, and the degenerate `nick!` and `nick@` |
| `Prefixes.IsValidPrefix` | server/MessageParser.cc:507-625 | the scanner accepts exactly the printed forms of the legal shapes, for every address library |
| `Machine.RunConcat` | server/MessageParser.h:93-102 | running over a concatenation is running over the rest from where the first part stopped |
| `Machine.RunPrefix` | server/MessageParser.h:93-102 | a run that took n octets is Incomplete on every shorter start and looked at nothing beyond |
| `Machine.ChunkingInvariance` | server/MessageParser.h:93-102 | for every split of the octets: same answer, message, parser state and consumed count as in one piece |
| `Soundness.TagOfMeans` | server/MessageParser.cc:273-279 | key and value end at the first and second equals sign, and the missing-value fallback is unreachable |
| `Soundness.StepValid` | server/MessageParser.cc:188-505 | every octet in every state keeps the shape of buffer and message; Invalid changes nothing; Complete is answered exactly in the final state |
| `Soundness.AlwaysValid` | server/MessageParser.cc:188-505 | the invariant holds after every octet sequence, also when feeding goes on after rejections |
| `Soundness.CompleteIsSound` | server/MessageParser.cc:233-491 | every completed message has a legal command, an absent or valid prefix, legal middles before the last parameter, distinct tag keys and no equals sign in a value |
| `Parser.MessageParser.Reset` | server/MessageParser.cc:182-186 | back to the start with an empty buffer |
| `Parser.MessageParser.ConsumeTag` | server/MessageParser.cc:233-303 | the two tag states take the machine's step |
| `Parser.MessageParser.ConsumePrefix` | server/MessageParser.cc:335-355 | the prefix state takes the machine's step, calling the scanner |
| `Parser.MessageParser.ConsumeCommand` | server/MessageParser.cc:374-420 | the command states take the machine's step |
| `Parser.MessageParser.ConsumeParam` | server/MessageParser.cc:422-482 | the parameter states take the machine's step |
| `Parser.MessageParser.Consume` | server/MessageParser.cc:188-505 | every octet in every state takes the machine's step on buffer, state and message, with its answer |
| `Parser.MessageParser.Parse` | server/MessageParser.h:93-102 | the loop advances the cursor exactly as far as the machine's run, with its answer and final state; Incomplete means all was consumed |
| `Recognition.AdvanceText` | server/MessageParser.cc:188-505 | a draft of a line grows by exactly the octet that was read |
| `Recognition.StepFollows` | server/MessageParser.cc:188-505 | on every accepted octet the parser is where the longer draft says: state, buffer and message |
| `Recognition.RunDraft` | server/MessageParser.cc:188-505 | every run that is not rejected has read a legal draft of a line, whatever the octets |
| `Recognition.CompletesOnLines` | server/MessageParser.cc:188-505 | whatever completes is a legal line of the grammar, octet for octet, and the message is its meaning |
| `Completion.ItemsLead` | server/MessageParser.cc:233-303 | any list of `key=raw;` items is read to the map in which the last value of a key counts at its first place |
| `Completion.LastLeads` | server/MessageParser.cc:243-303 | a bare key counts only if it is new; no key adds nothing; a key with a value is assigned |
| `Completion.PassOver` | server/MessageParser.cc:305-311 | spaces after the tags, and spaces, line feeds and negative octets before a parameter, are passed over without effect |
| `Completion.LinesComplete` | server/MessageParser.cc:188-505 | every legal line is read to its last octet, completes only there, and means what the grammar says |
| `Completion.ParserIsGrammar` | server/MessageParser.cc:188-505 | a text completes after n octets with message m if and only if its first n octets are a legal line meaning m |
| `Completion.LinesArePrefixFree` | server/MessageParser.cc:188-505 | no legal line is a proper start of another, and equal texts have equal meanings |
| `PrefixStarts.CanBePrefixExactly` | server/MessageParser.cc:335-355 | a text begins a legal prefix if and only if it consists of prefix characters and begins a hostname or, cut where the nickname and the user end, one of the nickname forms |
| `Viability.RejectsExactlyTheHopeless` | server/MessageParser.cc:188-505 | for every text: some legal line agrees with it if and only if it is not rejected and, when it stops inside a prefix, what was read of the prefix begins a legal one |
| `Viability.StopsInPrefixExactly` | server/MessageParser.cc:335-355 | a text stops inside a prefix if and only if it is legal tags or none, a colon and prefix characters |
| `Viability.PrefixIsCheckedLate` | server/MessageParser.cc:335-355 | inside a prefix the parser waits: `:!` is Incomplete although no legal line begins with it |
| `Standards.ClassesAgree` | server/MessageParser.cc:60-131 | the character classes have the codes that RFC 2812 and the tag specification give for letters, digits, specials, users, hosts, keys and values |
| `Standards.HostnamesAgree` | server/MessageParser.cc:133-169 | the hostname rule is that of RFC 2812: shortnames of letters, digits and hyphens, led by a letter or digit, with dots between them |
| `Standards.CommandsTaken` | server/MessageParser.cc:374-420 | a line of one word completes if and only if the word is a command of RFC 2812, letters or three digits, and that is its meaning |
| `Standards.BeyondTheStandard` | server/MessageParser.cc:507-625 | what the parser takes between the colon and the next space is outside the prefix rule of RFC 2812 if and only if it is a nickname and one `!` or `@` after it |
| `Standards.ShortOfTheStandard` | server/MessageParser.cc:106-116 | a prefix of RFC 2812 is not taken if and only if its user holds an octet that is no letter, digit, special or one of `!.@-:` |
| `Standards.PrefixesTaken` | server/MessageParser.cc:335-355 | what stands between the colon and the next space is taken if and only if it is a prefix of RFC 2812 made of prefix characters, or a nickname and one `!` or `@` after it |
| `Standards.TildeUser` | server/MessageParser.cc:106-116 | `n!~u@h` is a prefix of RFC 2812 and is rejected |
| `Standards.MiddlesTaken` | server/MessageParser.cc:118-126 | a middle parameter of RFC 2812 is taken as it is if and only if no octet of it is negative as a `char` |
| `Standards.LeadingPassed` | server/MessageParser.cc:422-449 | negative octets at the beginning of a parameter are passed over, and the rest is read as if they were not there |
| `Standards.TrailingTaken` | server/MessageParser.cc:468-482 | a trailing parameter of RFC 2812 is taken whole if no octet of it is negative as a `char`, and rejected otherwise |
| `Standards.SpecTagsTaken` | server/MessageParser.cc:233-303 | of the tag lists of the IRCv3 specification the parser accepts exactly those with no dot in a key and an equals sign in every tag but the last |
| `Standards.SpecTagsDropped` | server/MessageParser.cc:243-267 | `@n;u ` and `@n.h/u ` are tags of the specification and are rejected |
| `RoundTrip.EncodeIsLine` | server/MessageSerializer.cc:79-130 | a message is printed as a line of the grammar: single spaces, a marker only where needed, equals signs only before values |
| `RoundTrip.LineMeansMessage` | server/MessageSerializer.cc:79-130 | that line is legal and means the message, for every sound message |
| `RoundTrip.WellFormedRoundTrips` | server/MessageSerializer.cc:79-130 | parsing the printed form of a well-formed message takes all of it and gives the same prefix, command, parameters and ordered tags |
| `RoundTrip.UnvaluedIsRejected` | server/MessageSerializer.cc:88-101 | a message with an unvalued tag before another is printed as text that the parser rejects |
| `RoundTrip.RoundTripsExactly` | server/MessageSerializer.cc:79-130 | the round trip holds if and only if the message is sound and only its last tag may have no value |
| `RoundTrip.IncompleteUntilTheEnd` | server/MessageSerializer.cc:79-130 | every proper start of a printed well-formed message is Incomplete |
| `RoundTrip.PrefixFree` | server/MessageSerializer.cc:79-130 | no printed well-formed message is the start of another; printing is injective there |
| `RoundTrip.Normalization` | server/MessageParser.cc:233-491 | a parsed message printed and parsed again comes back, or is rejected for an unvalued tag, and nothing else happens |
| `RoundTrip.ParsedButNotReread` | server/MessageSerializer.cc:88-101 | `@a=;b=c X` completes with an unvalued first tag, and what is printed for that message is rejected |
| `SizeBound.EncodeSize` | server/MessageSerializer.cc:134-139 | the size of a printed message, part by part |
| `SizeBound.RunSpends` | server/MessageParser.cc:188-505 | every accepted octet pays for at most one octet of the canonical form, in every state |
| `SizeBound.CanonicalSizeBound` | server/MessageSerializer.cc:134-139 | re-printing a parsed message needs at most the octets that were read, with duplicate tags, cut values, skipped octets and redundant markers included |
| `Serializer.Sink.Append` | server/MessageSerializer.cc:30-65 | adds to the size; with a buffer, writes in place and leaves the rest unchanged |
| `Serializer.SerializeTags` | server/MessageSerializer.cc:82-103 | the loop with its first flag puts out exactly the tags' text |
| `Serializer.SerializeParams` | server/MessageSerializer.cc:114-127 | the loop puts out exactly the parameters' text, with a marker only on the last |
| `Serializer.SerializeMessage` | server/MessageSerializer.cc:79-130 | either sink receives exactly the pure encoding |
| `Serializer.ComputeRequiredSpace` | server/MessageSerializer.cc:134-139 | returns the length of the encoding |
| `Serializer.WriteToBuffer` | server/MessageSerializer.cc:141-146 | returns the same length; given room, stays in bounds, writes exactly the encoding and leaves the rest of the buffer unchanged |
| `ReadLoop.ReadConcat` | server/AsioConnection.cc:146-176 | reading two pieces in turn notifies the same messages as reading them joined |
| `ReadLoop.StreamChunking` | server/AsioConnection.cc:146-176 | however the stream is cut into reads, the same messages are notified up to the first rejected octet |
| `ReadLoop.ServeAgrees` | server/AsioConnection.cc:118-178 | the loop, which goes on after a rejection, has notified at least those, and exactly those when nothing was rejected |
| `ReadLoop.Framing` | server/AsioConnection.cc:146-176 | any well-formed messages, encoded, joined and cut anyhow, are notified exactly, in order, and leave a reset parser and an empty message |
| `ReadLoop.PromptDelivery` | server/AsioConnection.cc:146-176 | in the middle of a message exactly the messages before it have been notified |
| `ReadLoop.LineFraming` | server/AsioConnection.cc:146-176 | any legal lines, canonical or not, cut anyhow, are notified as their meanings |
| `ReadLoop.LinesAreNotified` | server/AsioConnection.cc:146-176 | legal lines at the start of a text are all notified, whatever comes after them |
| `ReadLoop.StreamIsLines` | server/AsioConnection.cc:146-176 | what is notified up to the first rejection is the meaning of legal lines at the start of the stream, and of every such line |
| `ReadLoop.AsioConnection.HandleRead` | server/AsioConnection.cc:146-176 | the inner loop ends, and does to parser, message and observers what one read does |
| `ReadLoop.AsioConnection.RunReadLoop` | server/AsioConnection.cc:118-178 | over all reads, observers are told what the stream says; well-formed streams are framed exactly |
| `WinRegistry.LookupRefines` | util/WinFileWatcher.cc:456-473 | the two-level lookup answers like one plain map from id to watch |
| `WinRegistry.EntryUnique` | util/WinFileWatcher.cc:386-387 | an id occurs in one place only |
| `WinRegistry.DrainRefines` | util/WinFileWatcher.cc:409-443 | draining removes exactly the pending ids from that map, whatever the order and repetitions |
| `WinRegistry.DropRefines` | util/WinFileWatcher.cc:622-634 | dropping a directory removes exactly its watches from that map and orphans their locations |
| `WinInvariants.StepRefines` | util/WinFileWatcher.cc:344-634 | every step of every thread keeps the tables a refinement of the plain map |
| `WinInvariants.StepReads` | util/WinFileWatcher.cc:365-634 | every step keeps the account of reads: each held directory is outstanding, being handled, or dead after an error, and only one of these |
| `WinInvariants.StepInv` | util/WinFileWatcher.cc:344-649 | every step of every interleaving keeps all invariants together |
| `WinInvariants.RunInv` | util/WinFileWatcher.cc:344-649 | so does every run |
| `WinTheorems.IoOwnership` | util/WinFileWatcher.cc:365-634 | in every reachable state a directory has at most one outstanding read; while it has one, and from the moment its completion is dequeued until its read is issued again outside the mutex or given up, exactly one of the active table and the draining set holds it; a directory whose completion is being handled has no read outstanding |
| `WinTheorems.ErroredIsDead` | util/WinFileWatcher.cc:606-615 | a directory that got an error completion while active is never read again |
| `WinTheorems.DeadDirectoryIsDeaf` | util/WinFileWatcher.cc:606-615 | on every run, the callback of a watch in such a directory never runs, unless it was dirty already |
| `WinTheorems.JoinsDeadDirectory` | util/WinFileWatcher.cc:367-397 | a new watch joins such a directory and gets its handle all the same |
| `WinTheorems.IndexAgreement` | util/WinFileWatcher.cc:386-394 | every entry has exactly its location, ids occur once, nothing empty is kept, and the lookup agrees with the plain map |
| `WinTheorems.IndexConverse` | util/WinFileWatcher.cc:414-441 | on runs without a failed re-issue every location has its entry |
| `WinFiring.NoticesExactly` | util/WinFileWatcher.cc:213-258 | collecting a completed read makes dirty exactly the watches that are registered for a reported file of that directory, or for any on overflow |
| `WinFiring.OnlyReadsDirty` | util/WinFileWatcher.cc:617-620 | nothing else makes a watch dirty |
| `WinFiring.NoMissedChange` | util/WinFileWatcher.cc:617-647 | once a read has told of a watched file, on every run the watch stays dirty until its callback runs, it is unwatched, its directory is dropped or shutdown begins |
| `WinTheorems.UnwatchSafety` | util/WinFileWatcher.cc:409-480 | once the worker has drained an id its callback never runs again |
| `WinFiring.UnwatchTakesEffect` | util/WinFileWatcher.cc:400-449 | after CloseWatch the next draining takes the id, whatever else was closed, and its callback never runs from then on |
| `WinTheorems.FiresOnce` | util/WinFileWatcher.cc:451-480 | within one FireDirty a callback runs at most once |
| `WinFiring.FiresExactly` | util/WinFileWatcher.cc:642-647 | a dirty, registered id can still fire, on some run, if and only if the worker is not about to unwatch it or to drop its directory |
| `WinFiring.FiresOnlyWhenDue` | util/WinFileWatcher.cc:642-647 | a callback runs only for a dirty, registered id, and not before the deadline |
| `WinFiring.DeadlineIsOneWindow` | util/WinFileWatcher.cc:636-639 | a deadline is set when something is dirty and none was set, to 50 ms from then |
| `WinFiring.FailedWatchIsSilent` | util/WinFileWatcher.cc:376-395 | a WatchFile that fails leaves the tables and the other watches as they were, and its callback never runs |
| `WinTheorems.DeadlineIffDirty` | util/WinFileWatcher.cc:617-647 | at the loop head a deadline is set exactly when something is dirty |
| `WinTheorems.DeadlineNeverMoves` | util/WinFileWatcher.cc:636-647 | a set deadline is cleared, never moved |
| `WinTheorems.DirtyLeaves` | util/WinFileWatcher.cc:642-647 | a dirty id leaves only by firing, unwatch, a dropped directory or shutdown |
| `WinTheorems.DrainingShrinks` | util/WinFileWatcher.cc:492-525 | once shutdown has begun nothing starts draining, and only the completion of a draining directory removes it |
| `WinTheorems.ExitIsClean` | util/WinFileWatcher.cc:518-525 | the worker leaves only with no read outstanding, after exactly as many directory completions as were draining at shutdown |
| `WinTheorems.ErrorBlocksExit` | util/WinFileWatcher.cc:606-615 | a draining directory that had an error completion keeps the worker from ever leaving |
| `WinTheorems.ShutdownCanFinish` | util/WinFileWatcher.cc:492-604 | otherwise the worker can leave, after exactly one completion for each draining directory |
| `WinTheorems.ShutdownFinishesExactly` | util/WinFileWatcher.cc:492-604 | at any point of a shutdown the worker can leave if and only if no draining directory had an error completion |
| `WinTheorems.ShutdownCanHang` | util/WinFileWatcher.cc:606-615 | a concrete run into a shutdown that cannot end |
| `WinWatcher.EraseId` | util/WinFileWatcher.cc:205-205 | the loop removes exactly the entries with the id, in order |
| `WinWatcher.Remove` | util/WinFileWatcher.cc:197-211 | drops the id from its bucket, and the bucket when empty; tells whether something was removed |
| `WinWatcher.CollectAllDirty` | util/WinFileWatcher.cc:249-258 | collects every id of the directory |
| `WinWatcher.CollectDirty` | util/WinFileWatcher.cc:213-247 | collects exactly the ids that the report touches, all of them on overflow |
| `WinWatcher.ForEachEntry` | util/WinFileWatcher.cc:260-273 | finds the entry with the id if there is one |
| `WinWatcher.WinFileWatcher.WatchFile` | util/WinFileWatcher.cc:365-397 | joins or opens the directory; on each failure leaves the tables as they were |
| `WinWatcher.WinFileWatcher.DrainPendingUnwatches` | util/WinFileWatcher.cc:409-449 | drains all pending ids and returns exactly the directories that became empty |
| `WinWatcher.WinFileWatcher.BeginShutdown` | util/WinFileWatcher.cc:496-511 | hands every active directory to the draining set |
| `WinWatcher.WinFileWatcher.FindOwner` | util/WinFileWatcher.cc:568-591 | finds whether the owner drains, is active or is gone, and lets a draining one go |
| `WinWatcher.WinFileWatcher.DropDirectory` | util/WinFileWatcher.cc:622-634 | takes the directory out of the active table, its locations staying |
| `WinWatcher.WinFileWatcher.FireDirty` | util/WinFileWatcher.cc:451-474 | gathers one callback for each dirty id that is registered, no id twice |
| `WinWatcher.WinFileWatcher.FireIfDue` | util/WinFileWatcher.cc:642-647 | at the end of a round gathers exactly what the protocol fires, with its paths, and clears dirty set and deadline; otherwise changes nothing |
| `KqInvariants.StepBase` | util/KqueueFileWatcher.cc:152-474 | every step keeps ids unique, phases consistent and every descriptor with its one owner |
| `KqTracking.RenameAnnounced` | util/KqueueFileWatcher.cc:444-460 | a rename onto, away from or over the watched path is announced by a note on a descriptor of the watch |
| `KqTracking.DeliverUnmoved` | util/KqueueFileWatcher.cc:352-372 | delivering notes as events forgets nothing a watch still has to learn |
| `KqTracking.BystanderFollows` | util/KqueueFileWatcher.cc:152-496 | no step of another watch, a client or the worker makes a watch miss what is due to it |
| `KqTracking.HandleFollows` | util/KqueueFileWatcher.cc:364-407 | handling any event leaves every other watch, and its own, told of what it does not know yet |
| `KqTracking.StepTracking` | util/KqueueFileWatcher.cc:152-496 | every step of every interleaving keeps each watch followed: what it does not know is raised, queued or dirty |
| `KqStraying.StepStraying` | util/KqueueFileWatcher.cc:288-474 | every step keeps a watch that was left adrift out of step, whatever the file system does, unless the worker is about to look for its file |
| `KqTheorems.RunInv` | util/KqueueFileWatcher.cc:152-496 | every run keeps all invariants together |
| `KqTheorems.DescriptorsConserved` | util/KqueueFileWatcher.cc:161-310 | in every reachable state the open descriptors are exactly those of the watches and of calls in progress, each with one holder |
| `KqTheorems.NoneSurvive` | util/KqueueFileWatcher.cc:197-210 | draining and the destructor close only open descriptors, each once, and none survives the destructor |
| `KqFiring.DestructionEnds` | util/KqueueFileWatcher.cc:197-210 | once destruction has begun the worker can leave from wherever it is, and the destructor then leaves no descriptor open |
| `KqFiring.DestructionBegins` | util/KqueueFileWatcher.cc:199-320 | the destructor begins it, and the worker does not leave before |
| `KqTheorems.EveryCloseIsOfOpen` | util/KqueueFileWatcher.cc:178-307 | whatever any step closes is open, and all other steps close nothing |
| `KqTheorems.NoStaleEvents` | util/KqueueFileWatcher.cc:376-396 | every event that is handled belongs to an existing watch and a descriptor it still has |
| `KqTheorems.NoMissedUpdate` | util/KqueueFileWatcher.cc:288-474 | a settled watch has its descriptor on the path's inode exactly when the path exists, none otherwise, and its callback started after the last change, unless its last arming was off its path, or failed with the file there and no news of the directory |
| `KqTheorems.InStepExactly` | util/KqueueFileWatcher.cc:288-474 | over every run: a settled watch is in step with its path if and only if its last opening did not leave it adrift |
| `KqArming.ArmSettlesExactly` | util/KqueueFileWatcher.cc:295-309 | after arming, all that the watch does not know is announced to it if and only if the path still names the opened file; after a failure, if and only if there is no file or the directory has news |
| `KqArming.LastArmingDecides` | util/KqueueFileWatcher.cc:295-309 | whatever the file system does after an arming, until the watch's file is opened again a settled watch is in step if and only if the path still named the opened file or, after a failure, if there was no file or the directory had news |
| `KqArming.ArmedDecides` | util/KqueueFileWatcher.cc:295-309 | as long as the file system is not touched: armed on its path, the watch is in step whenever it is settled; armed off it, it is in step in no state at all, settled or not |
| `KqArming.UnarmedStaysOut` | util/KqueueFileWatcher.cc:302-307 | as long as the file system is not touched after a failure to arm with the file there and no news of the directory, the watch is in step in no state, settled or not |
| `KqArming.UnarmedRecovers` | util/KqueueFileWatcher.cc:302-307 | after any other failure to arm it is in step whenever it is settled, if its later openings are not disturbed |
| `KqArming.UndisturbedStaysOnCourse` | util/KqueueFileWatcher.cc:295-309 | a run on which nothing happens to the watch's path between its open and arm, and its arming fails only when the directory has news, never leaves it adrift |
| `KqArming.OnCourseEndsInStep` | util/KqueueFileWatcher.cc:288-474 | from any reachable state in which a watch is on course, every such run ends with it in step whenever it is settled |
| `KqArming.NoMissedUpdateUndisturbed` | util/KqueueFileWatcher.cc:288-474 | on such runs from the start, over all sequences of create, write, delete, rename and replace, the watch is in step whenever it is settled; other watches may be disturbed |
| `KqArming.UpdateCanBeMissed` | util/KqueueFileWatcher.cc:295-309 | a concrete run in which a settled watch sits on a deleted file while a new one is at its path |
| `KqTheorems.UnwatchSafety` | util/KqueueFileWatcher.cc:322-335 | once the worker has drained an id its callback never runs again |
| `KqFiring.UnwatchTakesEffect` | util/KqueueFileWatcher.cc:322-436 | after CloseWatch the next draining takes the id, whatever else was closed, and its callback never runs from then on |
| `KqTheorems.FiresOnce` | util/KqueueFileWatcher.cc:476-496 | within one FireDirty a callback runs at most once |
| `KqFiring.DirtiesExactly` | util/KqueueFileWatcher.cc:399-406 | a step makes a watch dirty if and only if the worker handles an event of its file that has changed and not gone, or has opened and armed its file again |
| `KqFiring.OwedUntilItFires` | util/KqueueFileWatcher.cc:399-414 | a dirty id stays dirty on every run until its callback runs or it is unwatched |
| `KqFiring.FiresExactly` | util/KqueueFileWatcher.cc:409-414 | a dirty, watched id can still fire, on some run, if and only if the worker has not left and is not about to unwatch it |
| `KqFiring.FiresOnlyWhenDue` | util/KqueueFileWatcher.cc:409-414 | a callback runs only for a dirty, watched id, and not before the deadline |
| `KqFiring.DeadlineIsOneWindow` | util/KqueueFileWatcher.cc:402-405 | when something becomes dirty the deadline is 50 ms from then |
| `KqFiring.FailedWatchIsSilent` | util/KqueueFileWatcher.cc:174-183 | a WatchFile whose directory cannot be armed closes it and leaves everything else, and its callback never runs |
| `KqTheorems.DeadlineIffDirty` | util/KqueueFileWatcher.cc:399-414 | a deadline is set exactly when something is dirty |
| `KqTheorems.DeadlineNeverMoves` | util/KqueueFileWatcher.cc:399-414 | a set deadline is cleared, never moved |
| `KqTheorems.DirtyLeaves` | util/KqueueFileWatcher.cc:409-414 | a dirty id leaves only by firing or unwatch |
| `KqWatcher.BatchReachable` | util/KqueueFileWatcher.cc:364-407 | handling a batch in one go is a run of the protocol |
| `KqWatcher.KqueueFileWatcher.DisarmFile` | util/KqueueFileWatcher.cc:250-267 | closes the file descriptor if there is one |
| `KqWatcher.KqueueFileWatcher.DisarmWatch` | util/KqueueFileWatcher.cc:438-442 | closes both descriptors |
| `KqWatcher.KqueueFileWatcher.TryOpenAndArmFile` | util/KqueueFileWatcher.cc:288-310 | opens and arms the file as the protocol does, or leaves no descriptor behind |
| `KqWatcher.KqueueFileWatcher.WatchFile` | util/KqueueFileWatcher.cc:152-190 | takes the protocol's registration steps; both failures leave no watch and no descriptor |
| `KqWatcher.KqueueFileWatcher.CloseWatch` | util/KqueueFileWatcher.cc:429-436 | queues the id |
| `KqWatcher.KqueueFileWatcher.DrainPendingUnwatches` | util/KqueueFileWatcher.cc:323-335 | takes the protocol's draining step |
| `KqWatcher.KqueueFileWatcher.HandleFileEvent` | util/KqueueFileWatcher.cc:444-460 | a file event is handled as the protocol does, and says whether the watch changed |
| `KqWatcher.KqueueFileWatcher.HandleDirEvent` | util/KqueueFileWatcher.cc:462-474 | a directory event is handled as the protocol does, and says whether the watch changed |
| `KqWatcher.KqueueFileWatcher.HandleEvents` | util/KqueueFileWatcher.cc:364-407 | the loop over a batch takes the protocol's steps, with dirty set and deadline |
| `KqWatcher.KqueueFileWatcher.FireDirty` | util/KqueueFileWatcher.cc:476-490 | gathers one callback for each dirty id that is watched, no id twice |
| `KqWatcher.KqueueFileWatcher.FireIfDue` | util/KqueueFileWatcher.cc:409-414 | at the end of a round gathers exactly what the protocol fires, with its paths, and clears dirty set and deadline; otherwise changes nothing |
| `KqWatcher.KqueueFileWatcher.Destroy` | util/KqueueFileWatcher.cc:203-207 | the loop over the watches, in any order, leaves no descriptor open |

## Left out

- Sockets, coroutines, strands, the write queue and closing in server/AsioConnection.cc: their semantics are not visible in the source; reads are a list of texts.
- Recovery after a rejected octet in the read loop: the source neither resets nor closes, so results about messages stop at the first rejection (`ServeAgrees` says what still holds).
- `IsInternetAddress`, path canonicalization and case folding: library calls; the first is a function parameter, paths and keys are given.
- Machine.Step: after parseStateTrailing the moved-from buffer is taken to be empty, which is what common library implementations leave; the standard leaves it unspecified.
- Serializer.Sink: the measuring and the writing sink are one class with an optional buffer, since templates have no counterpart here.
- `char` signedness: an octet ranges over -128..255, so that both kinds of platform are covered by each statement.
- WinTables.Shared: a directory watcher is a handle that is never reused, and the tables of all directory watchers are one map; object lifetime is the question of who holds the handle.
- Decoding of `FILE_NOTIFY_INFORMATION` records: a completion is a list of names or an overflow.
- `CancelIoEx` has no effect of its own in the model: an outstanding read may complete at any time, with any result, which includes being aborted.
- Failures of `Open` that leave nothing behind on Windows are one step with no effect.
- The descriptor of the kqueue itself, its wake event and FD_CLOEXEC: nothing depends on them.
- Hard links, deletion of a watched directory and failures of `EV_DELETE` under kqueue: the file system of the model has one name for each file and directories that stay.
- KqWatcher.KqueueFileWatcher.TryOpenAndArmFile: the method opens and arms without anything in between; the protocol in KqSystem keeps the two apart.
- Clocks and scheduling: time never goes back, and any enabled step may come next; that a step does come is not claimed.
- Wrap-around of 64-bit ids, allocation failure, logging, and WatchFile calls begun after destruction starts.
- config/, server/Server.cc, server/SessionConnectionObserver.cc, server/Channel.cc, util/Observable.h and irc/ apart from Message: configuration access, wiring between the parts, and declarations without definitions; neither the codec nor the watchers depend on them.
