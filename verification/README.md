# A verified model of the agent's control plane

This project models, in Dafny, the part of the mesh agent that decides: how two
machines negotiate a path, when the supervisors interfere, what the packet filter lets
in, how the signal server routes, what text goes to WireGuard and what is read back,
and how the agent converges across restarts and updates. It proves what that code
promises, and where the code promises less than its comments say, it proves what holds
instead.

`dafny verify dfyconfig.toml` checks all of it.

## The modules

* `Negotiation` - two machines, each with a retry loop, a dispatcher, at most one
  session at a time, a buffer for early signalling and a one-token wake channel, joined
  by lossy FIFO queues. Every mutex section and channel operation is a step, and a run
  is any interleaving. `NegotiationStrays` says which schedules make a cancellation land
  on the wrong session, `NegotiationRace` builds the runs that reach the bound, and
  `PeerLinks` is the link object. `NegotiationProgress` says that nobody is ever stuck.
* `Sessions` - one ICE session: remote credentials, candidates, callbacks, life cycle,
  in any interleaving of its sections.
* `RelayScheduler`, `Watchdog` - the two supervisors, over unbounded sequences of calls
  under a clock that never goes back. `RelayRecords` and `WatchdogHistory` say what they
  do by the history of paths and silences alone, without a look at what they remember.
* `Packets`, `PacketFilter`, `FilterReplies`, `FilteredTun`, `Nft` - the header reader, the
  stateful filter against a definition from history alone, its promises in plain numbers, the in-place compaction of a write,
  and the kernel rule list against the in-process rules.
* `Switchboard`, `SwitchboardRoutes` - the signal server: routing table, replacement,
  bounded queues, and whom an envelope goes to by the events of a run alone.
* `Text`, `Uapi`, `UapiParser`, `DeviceStatus` - the device configuration text: printers,
  parsers, round trips.
* `Versions`, `Checksums`, `SelfUpdate` - release tags, the signed checksum list, and
  installing over the running binary on a model file system.
* `FollowMap` - restart decisions across process lives.
* `Peers` - reconciling the peer list, comparing prefixes, rerouting.
* `Common`, `Wrappers` - what several of them share.

## Assumptions

* Each mutex section, channel operation and `conn.close` is one atomic step, and clocks
  never go back.
* One dispatcher works on a link at a time. The code does not force this: when the
  signalling session ends, the next one may start while the old reader is still inside
  `dispatch` (internal/signal/client.go:267-277).
* ICE user names are non-empty and fresh for every attempt, so in `Negotiation` the
  number of an attempt stands for its credentials. `Sessions` does not assume it.
* Offers and answers are sent only by the attempt that is live.
* The methods of the filter are taken one at a time; `Inbound` reads the clock twice and
  the two readings may differ.
* Shares of peers in the watchdog are exact (real) quotients.
* Addresses and prefixes are printed and read by Go's own library. Their text forms are
  a pair of functions each, of which only `Uapi.Faithful` is assumed: an endpoint is
  read back as itself, a proper prefix as its network, an improper one and no endpoint
  at all are refused. Hexadecimal, decimal, lines, fields and white space are modelled
  concretely.
* The kernel reads a transport header where the in-process reader does, finds a
  destination port in any first fragment with four octets of it, and walks IPv6 extension
  headers, behind which it may find anything (`Nft.Sees`).
* Whether a route can be added or dropped depends on the prefix alone.
* Signatures, SHA-256, the network and the success of each file operation are
  parameters of `SelfUpdate`. A binary reports its own version truthfully when it is
  asked with the `version` command, which is what the self test relies on.
* Integers are 64 bits wide; wrap-around is written out where the code can reach it.

## Where the code and its comments differ

* The dispatcher asks one session and then cancels whichever attempt was installed last
  (internal/engine/engine.go:1503-1536). A session installed between the two is
  cancelled in place of the one that refused, so one restart of the controlling side can
  cost the answering side two sessions, and so can every restart
  (`NegotiationRace.BoundIsReached`). The number of sessions that follow, and the number
  caught by mistake, are each less than the number of attempts the controlling side has
  started (`Negotiation.AbandonmentsBounded`); which are which is decided by the schedule
  (`NegotiationStrays.StraysExactly`), and on schedules that install nothing between a
  take and the read after it, all of them together are
  (`NegotiationStrays.TotalBoundExactly`).
* Credentials with an empty user name leave the session able to accept another set,
  which closes the ready channel a second time (internal/p2p/session.go:297-301).
  `Sessions.FirstCredentialsWin` gives the exact condition.
* The state callback is called after the lock is released (internal/p2p/session.go:357-369),
  so a callback can overtake an earlier one, and the last thing heard of a closed session
  can be that it failed (`Sessions.ClosedThenFailed`). Every change is heard once all the
  same, and in order if and only if no section changes the state while a callback is
  owed (`Sessions.HeardInOrderExactly`).
* A path is stored without a look at whether the session was closed meanwhile
  (internal/p2p/session.go:211-213), so a closed session has one if and only if that
  section came after the close (`Sessions.PathAfterClose`). The engine's own order of
  calls, where `Start` returns before `Close` (internal/engine/engine.go:1338-1348), does
  not do that.
* The watchdog can ask for the process to be replaced without any signalling reset
  having been tried (`Watchdog.GaveUpWithoutReset`); `Watchdog.ResetFirstIfEverDue` says
  exactly when one was.
* The kernel rule list and the in-process rules differ on two kinds of packet: one the
  in-process reader cannot read (a later fragment, an unknown protocol or extension
  header, a segment too short for its ports) when no rule of its source names it, and the
  other address family's ICMP number under a rule for pings. On these the process accepts
  and the kernel drops; on all others they agree (`Nft.BackendsAgree`).
* The kernel `dump` prints no allowed addresses, so `Status` over it reports none, and a
  counter past the signed range is printed negative and reported as zero
  (`DeviceStatus.StatusOfDump`).
* A digest shorter than sixteen characters in a signed list makes the error path of
  `download` slice past its end, before the temporary file is removed; `Apply` says
  exactly when (`SelfUpdate.Machine.Apply`).
* Version numbers wrap at 64 bits, so newer is the order of what is left of the numbers
  (`Versions.NewerComparesWrapped`). A release is ranked by its own numbers against every
  release whose numbers fit if and only if its numbers fit (`Versions.RankedExactly`); one
  that has a number too large is not newer than a release just below it
  (`Versions.HugeIsNotNewer`).
* A keepalive is read into 64 bits of nanoseconds, so what is read back is what was asked
  for if and only if no keepalive is longer than 9223372036 seconds
  (`UapiParser.RoundTrip`, `UapiParser.KeepaliveExactly`); one second more is read as a
  negative interval (`UapiParser.KeepaliveWraps`).
* `samePrefixes` is set equality when the old list has no repeats, and can miss a change
  when it has (`Peers.SameIsSetEquality`, `Peers.RepeatsHideAChange`).

## Model

| member | source | states |
|---|---|---|
| `Negotiation.OfferingSideHolds` | internal/engine/engine.go:1501-1527 | in every run, no offer or answer ever ends an attempt of the controlling side: only a goodbye or the relay supervisor does |
| `Negotiation.AbandonmentsBounded` | internal/engine/engine.go:1501-1546 | in every run the answering side follows fewer times than the controlling side has started, with strictly rising credentials; sessions caught by a cancellation meant for an earlier one obey the same bound, and all together 2(n-1) |
| `NegotiationStrays.StraysExactly` | internal/engine/engine.go:1473-1546 | for every schedule the abandonments of each kind are exactly the cancellations of a running attempt with, or without, an install between the take and the read of the same message |
| `NegotiationStrays.TotalBoundExactly` | internal/engine/engine.go:1473-1546 | all abandonments are the raced and the unraced cancellations of a running attempt, each kind fewer than the attempts; and on schedules without a race all together are |
| `NegotiationStrays.ScheduleTells` | internal/engine/engine.go:1473-1536 | in every run the session asked differs from the one read exactly when the schedule raced |
| `Negotiation.NoLostWake` | internal/engine/engine.go:1473-1498 | a waiting loop with a non-empty early buffer has a wake token or the dispatcher is about to place one; a link with a session has an empty buffer |
| `Negotiation.EarlyBufferExact` | internal/engine/engine.go:1473-1490 | the early buffer is the first 32 messages since the last session ended, from the most recent offer or answer on; a new session is fed at most one set of credentials, first, the latest received |
| `NegotiationProgress.NobodyIsStuck` | internal/engine/engine.go:1243-1288 | in every sound state the loop, the supervisor and a dispatcher with something to do have a next step |
| `NegotiationProgress.TokensAreSpent` | internal/engine/engine.go:1271-1279 | in every run a loop is woken no more often than tokens were placed, and a token not yet taken is there |
| `Negotiation.ReachableInv` | internal/engine/engine.go:1243-1415 | every world reachable by any interleaving, with loss and offline notices, satisfies the joint invariant of the two links and the two queues |
| `Negotiation.DoKeeps` | internal/engine/engine.go:1464-1587 | every act of either machine or the network keeps the joint invariant |
| `Negotiation.StepKeeps` | internal/engine/engine.go:1464-1587 | every section of dispatcher and loop keeps the link's invariant |
| `Negotiation.TakeKeeps` | internal/engine/engine.go:1473-1499 | finding the session or holding the message keeps it |
| `Negotiation.InstallKeeps` | internal/engine/engine.go:1316-1322 | putting a fresh session in place keeps it |
| `Negotiation.FeedKeeps` | internal/engine/engine.go:1341-1343 | replaying what was held keeps it |
| `Negotiation.CancelKeeps` | internal/engine/engine.go:1530-1546 | cancelling, on whatever attempt it lands, keeps it |
| `Negotiation.CutKeeps` | internal/engine/engine.go:991-1003 | the relay supervisor cancelling the attempt it read keeps the invariant |
| `Negotiation.RefusalIsNewer` | internal/engine/engine.go:1502-1505 | credentials that a session refuses are strictly newer than any it could have been born with |
| `Negotiation.LogGrows` | internal/engine/engine.go:1530-1546 | each abandonment's credentials exceed the last one's, or are a stray repeat of a follow |
| `Negotiation.KindBounded` | internal/engine/engine.go:1507-1527 | abandonments of one kind are fewer than the credentials seen |
| `Negotiation.ClimbsThroughout` | internal/engine/engine.go:1507-1527 | the abandonment log climbs between any two entries |
| `Negotiation.SentInOrder` | internal/p2p/session.go:383-410 | announcing and re-announcing the live attempt keeps credentials on the queue in the order they were made |
| `Negotiation.LossInOrder` | internal/engine/engine.go:1464-1475 | losing any message keeps them in order |
| `NegotiationRace.BoundIsReached` | internal/engine/engine.go:1503-1546 | for every n there is a run in which the controlling side starts n attempts and the answering side abandons exactly 2(n-1) sessions |
| `NegotiationRace.OneRestartCostsTwo` | internal/engine/engine.go:1503-1546 | from any meeting of the two, one restart can be made to cost two sessions and lead to the next meeting |
| `PeerLinks.PeerLink.constructor` | internal/engine/engine.go:328-333 | a new link is the protocol's initial link and satisfies the invariant |
| `PeerLinks.PeerLink.Arrive` | internal/engine/engine.go:1473-1499 | the first section of `dispatch`, which finds the session or holds the message under the buffer's bound, is the protocol's step |
| `PeerLinks.PeerLink.Deliver` | internal/engine/engine.go:1501-1586 | handing a message to the session found is the protocol's step, for every kind of message |
| `PeerLinks.PeerLink.CallCancel` | internal/engine/engine.go:1534-1536 | cancelling ends the attempt read, and is logged only if that one was running |
| `PeerLinks.PeerLink.FeedNext` | internal/engine/engine.go:1341-1343 | feeding one held message binds the session to its credentials, once |
| `PeerLinks.PeerLink.Dispatch` | internal/engine/engine.go:1473-1586 | a whole dispatch keeps the invariant: without a session the message is held and the token placed; credentials bind or are ignored by a controlling side; refused ones or a goodbye end exactly the session in place, never another |
| `PeerLinks.SectionsMean` | internal/engine/engine.go:1473-1586 | the sections of a dispatch, one after another, come to that |
| `PeerLinks.SectionsKeep` | internal/engine/engine.go:1473-1586 | and keep the invariant |
| `PeerLinks.PeerLink.FeedEverything` | internal/engine/engine.go:1340-1343 | the loop feeds every held message in order |
| `PeerLinks.PeerLink.BeginAttempt` | internal/engine/engine.go:1309-1343 | an attempt begins with one session more, bound to the credentials that were waiting if any were, and an empty buffer; the invariant is kept |
| `PeerLinks.PeerLink.ConnectOnce` | internal/engine/engine.go:1291-1343 | an attempt leaves no session and nothing held; the invariant is kept |
| `PeerLinks.PeerLink.Wait` | internal/engine/engine.go:1256-1279 | either ready case may end the wait, the token staying when the timer is taken; with messages held there is a token unless it is just being placed |
| `Sessions.ExactlyOneControls` | internal/p2p/p2p.go:272-274 | of two different keys exactly one controls, and none controls itself |
| `Sessions.GreaterExactly` | internal/p2p/p2p.go:272-274 | a key controls if and only if the two agree up to some place and there it has more or the greater byte |
| `Sessions.FirstCredentialsWin` | internal/p2p/session.go:293-306 | over every run the first credentials stay; the ready channel is closed a second time if and only if two sets came and the first had an empty user name |
| `Sessions.AnswerIsSameAgain` | internal/p2p/session.go:293-306 | after the first set, the answer is whether the set repeats it |
| `Sessions.CandidatesConserved` | internal/p2p/session.go:264-280 | in every interleaving each candidate received is, as often as it came, in exactly one of held, in hand-over, carried by a caller, or given; those held are given in order |
| `Sessions.HeldInOrder` | internal/p2p/session.go:264-280 | what was held and handed over is the beginning of what was received, in order |
| `Sessions.LifeExactly` | internal/p2p/session.go:211-213 | by what was done to it: when a session is closed, has an agent, has a path, and which state it is in |
| `Sessions.EveryChangeToldOnce` | internal/p2p/session.go:357-370 | in every interleaving of locked sections and callbacks each change of the state is told exactly once or still owed; changes are real, none follows closed, the last is the state |
| `Sessions.HeardInOrderExactly` | internal/p2p/session.go:357-370 | at every moment of a run, whichever callback comes next is in order, if and only if no section changes the state while one is owed |
| `Sessions.PromptHearsAll` | internal/p2p/session.go:357-370 | then the callback has heard everything up to the one it is owed, and owed none, the last thing heard is the state |
| `Sessions.ClosedThenFailed` | internal/p2p/session.go:334-370 | a concrete run in which a closed session is last heard to have failed |
| `Sessions.ClosedIsAbsorbing` | internal/p2p/session.go:334-370 | whatever follows a close, the session stays closed without an agent, and the closed state never changes |
| `Sessions.PathAfterClose` | internal/p2p/session.go:211-213 | a session that was closed has a path if and only if the section that stores it came after the close |
| `Sessions.Session.SetRemoteCredentials` | internal/p2p/session.go:293-306 | the method is one step of the session, and answers whether the credentials can be used |
| `Sessions.Session.AddRemoteCandidate` | internal/p2p/session.go:309-319 | the method's section is one step |
| `Sessions.Session.NewAgent` | internal/p2p/session.go:264-273 | publishing an agent takes all that was held, unless the session is closed |
| `Sessions.Session.HandOverAll` | internal/p2p/session.go:275-279 | the loop gives everything held, in order, and leaves nothing |
| `Sessions.Session.SetState` | internal/p2p/session.go:357-366 | the locked section is one step, and says whether the callback is owed |
| `Sessions.Session.SetStateAndTell` | internal/p2p/session.go:357-370 | uninterrupted, a change is heard at once and anything else changes nothing |
| `Sessions.Session.Close` | internal/p2p/session.go:334-353 | uninterrupted, the first close ends agent, path and state and the callback hears so last; another does nothing |
| `RelayScheduler.Scheduler.Walk` | internal/engine/engine.go:894-919 | whatever the map order, the choice is a due pair of minimal `since`, and none only if none is due |
| `RelayScheduler.Scheduler.Forget` | internal/engine/engine.go:921-926 | exactly the pairs that are gone stop being watched |
| `RelayScheduler.Scheduler.Pick` | internal/engine/engine.go:890-934 | one call picks at most one pair, due, relayed and oldest, charges it, and leaves every other record as it should be |
| `RelayRecords.WatchedExactly` | internal/engine/engine.go:894-926 | a pair is watched exactly while it is in the map and never direct after being on the relay, by one record throughout, however often it has no path |
| `RelayRecords.StartExactly` | internal/engine/engine.go:894-926 | the record begins at the first relayed tick of that stretch |
| `RelayRecords.RetriesSpaced` | internal/engine/engine.go:848-934 | for such a stretch, by paths alone, the tries are spaced by the backoff and at most 5 + T/4h |
| `RelayRecords.BackoffSpelled` | internal/engine/engine.go:859-865 | the waits are 15, 30, 60, 120 and then 240 minutes |
| `RelayRecords.DueIsWaiting` | internal/engine/engine.go:905-913 | a pair is due if and only if it is on the relay, was before, and ten minutes or the last wait are over |
| `RelayRecords.PicksExactly` | internal/engine/engine.go:890-934 | a call picks somebody if and only if somebody is due by that history, and then one on the relay longest |
| `RelayScheduler.RetriesBackOff` | internal/engine/engine.go:848-934 | over every run one record is picked at times at least 15, 30, 60, 120, 240, 240... minutes apart |
| `RelayScheduler.FewRetries` | internal/engine/engine.go:848-934 | in any stretch of T one record is picked at most 5 + T/4h times |
| `RelayScheduler.PassedOver` | internal/engine/engine.go:900-934 | a call that passes a due pair over picks a rival, rivals never gain a member, and the one picked is out for fifteen minutes |
| `RelayScheduler.PickedInTurn` | internal/engine/engine.go:890-934 | a due pair that stays relayed with n rivals is picked within n+1 calls that fit in fifteen minutes |
| `RelayScheduler.RecordsSane` | internal/engine/engine.go:848-934 | every record ever held waits at least the minimum |
| `Watchdog.Dog.Look` | internal/engine/engine.go:703-721 | the walk moves the clocks and finds the longest silence, whatever the order |
| `Watchdog.Dog.Forget` | internal/engine/engine.go:722-732 | exactly the peers that are gone are forgotten |
| `Watchdog.Dog.CountStuck` | internal/engine/engine.go:746-754 | the count is the size of the set of stuck peers |
| `Watchdog.Dog.Decide` | internal/engine/engine.go:755-810 | rebuild, reset, give up or nothing, with what each remembers |
| `Watchdog.Dog.Tick` | internal/engine/engine.go:683-812 | one tick does all that the runs below rely on |
| `WatchdogHistory.WorstIsLongest` | internal/engine/engine.go:703-721 | the peer reported has by history been silent longest |
| `WatchdogHistory.StuckIsQuiet` | internal/engine/engine.go:746-754 | the count is of the peers silent for three minutes by history |
| `WatchdogHistory.RebuildsExactly` | internal/engine/engine.go:764-775 | a link is tried if and only if its peer is the one reported, silent for more than five minutes, and not tried in the last five while in the map |
| `WatchdogHistory.LongestIsTried` | internal/engine/engine.go:764-775 | so a peer silent longer than five minutes and than any other is tried at once |
| `WatchdogHistory.ActsExactly` | internal/engine/engine.go:764-810 | at every tick of every run: rebuilt, reset and gave up, each if and only if its conditions on silences, shares and earlier resets hold |
| `Watchdog.ClockIsAnchor` | internal/engine/engine.go:707-732 | after every run each present peer's clock is the latest tick at which it was carrying or first noticed |
| `Watchdog.EscalationNeedsSilence` | internal/engine/engine.go:777-810 | a reset or give-up means at least half the peers were not carrying at any tick for three minutes; give-up, four fifths and one of them for twenty |
| `Watchdog.HealthyMajorityIsLeftAlone` | internal/engine/engine.go:777-810 | while fewer than half are silent nothing is reset or given up |
| `Watchdog.ResetsFarApart` | internal/engine/engine.go:780-810 | resets, and a give-up after one, are at least fifteen minutes apart |
| `Watchdog.RebuildsFarApart` | internal/engine/engine.go:764-775 | no link is rebuilt twice within five minutes, even across leaving the map |
| `Watchdog.GaveUpWithoutReset` | internal/engine/engine.go:780-797 | a concrete run that gives up with no reset before |
| `Watchdog.ResetFirstIfEverDue` | internal/engine/engine.go:777-797 | a reset came before giving up if and only if an earlier tick passed the escalation guard |
| `Watchdog.Shares` | internal/engine/engine.go:755-758 | the two share thresholds are half and four fifths of the peers |
| `Packets.ParseReadsTheHeader` | internal/filter/filter.go:247-300 | every packet laid out as RFC 791, RFC 8200 and RFC 9293 draw it is read as what it means |
| `Packets.ParsedIsEmitted` | internal/filter/filter.go:247-300 | whatever is read is such a packet, with that meaning |
| `PacketFilter.Filter.constructor` | internal/filter/filter.go:108-110 | a new filter is off and empty |
| `PacketFilter.Filter.SetRules` | internal/filter/filter.go:117-122 | new rules are in force and conversations survive |
| `PacketFilter.Filter.Outbound` | internal/filter/filter.go:144-160 | what is sent is stamped |
| `PacketFilter.Filter.Inbound` | internal/filter/filter.go:163-201 | the verdict and the table after it, for every packet and both clock readings |
| `PacketFilter.Filter.Prune` | internal/filter/filter.go:211-219 | exactly the entries past the TCP idle time go |
| `PacketFilter.TableMatchesHistory` | internal/filter/filter.go:144-219 | for every history of packets, rule changes and prunes the table gives the verdict that the history alone defines |
| `PacketFilter.PruningIsInvisible` | internal/filter/filter.go:211-219 | removing all prunes from any history changes no verdict |
| `PacketFilter.OnlyRepliesPass` | internal/filter/filter.go:163-201 | a packet that no rule allows passes only if this machine sent one on the same conversation before |
| `FilterReplies.AnswersPass` | internal/filter/filter.go:163-192 | in every history a packet with the five fields of one that was sent, mirrored, passes for 300 seconds of TCP or 60 of anything else, whatever the rules |
| `FilterReplies.OnlyAnswersPass` | internal/filter/filter.go:163-201 | a packet that no rule allows passes only if an earlier sent one has those fields mirrored |
| `FilterReplies.WindowExactly` | internal/filter/filter.go:203-208 | right after one packet the window is exactly that long |
| `FilterReplies.OctetsAnswered` | internal/filter/filter.go:144-192 | the same on octets, header by header |
| `FilterReplies.RulesSpelled` | internal/filter/filter.go:38-73 | which packets the rules of a source allow, with protocols by number and ports by comparison |
| `FilterReplies.PrunesExactly` | internal/filter/filter.go:211-219 | pruning forgets exactly what was silent for more than 300 seconds |
| `PacketFilter.TableRemembers` | internal/filter/filter.go:144-219 | an entry is the conversation's last touch, and a missing one is past its idle time |
| `PacketFilter.LastTouchIsLatest` | internal/filter/filter.go:144-201 | the last touch computed step by step is the latest touch of the history |
| `FilteredTun.Device.Consider` | internal/tunnel/filtered.go:36-40 | one buffer is judged and, if it passes, moved to the next free place |
| `FilteredTun.Device.Compact` | internal/tunnel/filtered.go:34-42 | the loop hands on exactly the accepted buffers, in order, and overwrites none that is unread |
| `FilteredTun.Device.Write` | internal/tunnel/filtered.go:34-48 | the device gets those buffers, nothing when none is accepted, and the caller is told the full count |
| `FilteredTun.WriteIsHistory` | internal/tunnel/filtered.go:34-48 | one write is its buffers arriving one after another in the history of the filter |
| `FilteredTun.JudgedByHistory` | internal/tunnel/filtered.go:34-40 | and each is judged by what came before it |
| `FilteredTun.Device.Record` | internal/tunnel/filtered.go:24-32 | the table after is the fold of recording each packet in turn |
| `FilteredTun.RecordedExactly` | internal/tunnel/filtered.go:24-32 | exactly the conversations spoken on are stamped, with the time of their last packet, and no other entry changes, comes or goes |
| `FilteredTun.PositionsExact` | internal/tunnel/filtered.go:34-48 | the positions kept are exactly the accepted ones, rising |
| `FilteredTun.RecordedIsAnswerable` | internal/tunnel/filtered.go:24-32 | a recorded packet's answer passes for its protocol's idle time whatever the rules |
| `Nft.SortedPeers` | internal/filter/nft_linux.go:59-63 | the keys, each once, ascending, whatever the map order |
| `Nft.OrderSpelled` | internal/filter/nft_linux.go:59-63 | the sources come version four first and by rising address |
| `Nft.WritePeer` | internal/filter/nft_linux.go:70-89 | one peer's lines, one for each known rule, in order |
| `Nft.BuildRuleset` | internal/filter/nft_linux.go:47-96 | the list is the ruleset of the map |
| `Nft.OneRuleset` | internal/filter/nft_linux.go:47-96 | a map has only one ruleset, so the list does not depend on iteration order |
| `Nft.RulesetMeans` | internal/filter/nft_linux.go:47-96 | first match accepts if and only if another interface, a tracked conversation, or a rule of the source |
| `Nft.RulesetSpelled` | internal/filter/nft_linux.go:47-96 | the verdict of the list with protocols by number, families by version and ports by comparison |
| `Nft.PingsByFamily` | internal/filter/nft_linux.go:74-79 | under a rule for pings a new ping passes if and only if it is number 1 from a version-four source or 58 from a version-six one |
| `Nft.BackendsAgree` | internal/filter/nft_linux.go:65-92 | for every packet of octets that starts something on the mesh interface, kernel and process give the same verdict if and only if it is not one of the two dividing kinds |
| `Nft.DividedMeansDropped` | internal/filter/filter.go:163-201 | a dividing packet is accepted in process and dropped by the kernel |
| `Nft.UnreadExactly` | internal/filter/filter.go:247-300 | the packets the process cannot read are exactly later fragments, unknown protocols and segments too short for their ports |
| `Nft.KernelNames` | internal/filter/nft_linux.go:70-89 | the kernel accepts a new packet exactly when a rule of its source names it |
| `Switchboard.EntryIsLastRegistered` | internal/signal/server.go:178-204 | in every interleaving the entry for a key is the socket registered last under it, unless that one unregistered |
| `Switchboard.StaleUnregisterEvictsNobody` | internal/signal/server.go:194-204 | a replaced socket's unregister changes no entry |
| `SwitchboardRoutes.EntryIsOwner` | internal/signal/server.go:178-204 | in every run the entry for a key is the connection whose registration was the last under it, unless it has unregistered, by the events alone |
| `SwitchboardRoutes.GoesToTheOwner` | internal/signal/server.go:227-241 | an envelope goes to the owner of the key it is addressed to; only without one is it found missing |
| `SwitchboardRoutes.SenderIsTold` | internal/signal/server.go:232-239 | and then the owner of the sender's key gets the notice, if there is one |
| `SwitchboardRoutes.OnlyItsOwn` | internal/signal/server.go:206-274 | in every run everything a connection was given, or is about to be given, is addressed to its own key |
| `SwitchboardRoutes.NothingReadIsForgotten` | internal/signal/server.go:206-242 | every envelope a connection was heard to say is sent on under its key, answered with a notice, or lost for want of anybody to tell; in order |
| `SwitchboardRoutes.ReplacedIsClosed` | internal/signal/server.go:178-192 | a socket replaced under its key is closed or about to be |
| `SwitchboardRoutes.ReaderCanGoOn` | internal/signal/server.go:206-274 | no reader is ever stuck |
| `SwitchboardRoutes.WriterCanGoOn` | internal/signal/server.go:276-298 | the oldest envelope of an open connection can be written next |
| `SwitchboardRoutes.SomethingArrives` | internal/signal/server.go:126-298 | for any two keys there is a run in which what one says is written to the other |
| `Switchboard.NothingLostUntilClosed` | internal/signal/server.go:227-298 | from any socket to any socket: until close everything routed is held in order without gaps, and what was written is always a beginning of it |
| `Switchboard.QueuesBoundedAndHonest` | internal/signal/server.go:206-274 | no queue exceeds its bound, and everything queued carries its socket's own key or is an offline notice to it |
| `Switchboard.Board.Register` | internal/signal/server.go:178-192 | the new socket takes the key and closes the one it replaced |
| `Switchboard.Board.Unregister` | internal/signal/server.go:194-204 | the entry goes only if it is this socket's |
| `Switchboard.Board.Route` | internal/signal/server.go:227-242 | the destination, or else the offline notice to the source |
| `Switchboard.Board.Enqueue` | internal/signal/server.go:257-264 | the first select: queued, skipped for a closed socket, or waiting, each a step of the interleaved server |
| `Switchboard.Board.EndWait` | internal/signal/server.go:266-273 | the second select: queued, skipped, or the socket closed; never dropped from a socket that stays open |
| `Switchboard.Board.Drain` | internal/signal/server.go:276-298 | the queue is written in order up to the first write that fails, which closes the socket |
| `Text.SplitTrimmed` | internal/tunnel/device_kernel_linux.go:107-110 | trimming and splitting printed text gives back its lines |
| `Text.TrimAround` | internal/tunnel/device_kernel_linux.go:107 | trimming takes exactly the white space around a solid text |
| `Text.SplitJoins` | internal/tunnel/device_kernel_linux.go:107 | the pieces have no newline and joined by it are the text |
| `Text.SplitUnlines` | internal/tunnel/device.go:313-317 | splitting untrimmed printed text gives its lines and an empty rest |
| `Text.CutField` | internal/tunnel/device_kernel_linux.go:111-114 | a printed field is cut at its own equals sign |
| `Text.AtoiShow` | internal/tunnel/device_kernel_linux.go:123-128 | every 64-bit number printed is read back |
| `Text.AtoiExactly` | internal/tunnel/device_kernel_linux.go:123-128 | which texts read as a number, and as which |
| `Text.ScanShow` | internal/tunnel/device.go:329-330 | and scanned back |
| `Text.ScanUnsignedShow` | internal/tunnel/device.go:331-334 | and an unsigned one |
| `Text.ScanUnsignedNegative` | internal/tunnel/device.go:331-334 | a negative number does not scan into an unsigned one |
| `Text.HexRoundTrip` | internal/tunnel/device_kernel_linux.go:226-232 | every key printed in hexadecimal decodes to itself |
| `Text.HexDecodesExactly` | internal/tunnel/device_kernel_linux.go:226-232 | which texts decode, and to how many bytes |
| `Uapi.MaskedIsTheNetwork` | internal/tunnel/device_kernel_linux.go:154-162 | clearing host bits gives the lowest address of the block, once and for all |
| `Uapi.Device.Configure` | internal/tunnel/device.go:93-101 | the text applied is the call's lines |
| `Uapi.Device.SetPeer` | internal/tunnel/device.go:122-156 | no allowed addresses is an error before anything is applied; otherwise the text is the call's lines and the endpoint is remembered only if it was taken |
| `Uapi.Device.SetPeerEndpoint` | internal/tunnel/device.go:164-178 | the same, for a move |
| `Uapi.Device.RemovePeer` | internal/tunnel/device.go:181-194 | the same, for a removal |
| `Uapi.WritePeer` | internal/tunnel/device.go:130-145 | the builder holds the peer's lines, optional ones only when given, addresses in order |
| `UapiParser.ParseUAPI` | internal/tunnel/device_kernel_linux.go:96-194 | the loop computes the fold over the lines, stopping at the first error |
| `UapiParser.RoundTrip` | internal/tunnel/device_kernel_linux.go:96-194 | for every list of calls the printed text, all of it together, is refused if and only if some call has an improper prefix or moves a peer to no endpoint; otherwise it is read back with intervals kept in 64 bits, and as exactly what was asked for if and only if every keepalive fits |
| `UapiParser.KeepaliveExactly` | internal/tunnel/device_kernel_linux.go:163-172 | an interval is kept if and only if it is at most 9223372036 seconds |
| `UapiParser.KeepaliveWraps` | internal/tunnel/device_kernel_linux.go:171-172 | one second more is read as a negative interval |
| `UapiParser.WantedFits` | internal/tunnel/device_kernel_linux.go:163-172 | a configuration is unchanged by keeping its intervals in 64 bits if and only if every call fits |
| `UapiParser.CallParses` | internal/tunnel/device.go:93-194 | one call's lines, after anything, add exactly what it asks for, its interval kept in 64 bits |
| `UapiParser.SetPeerParses` | internal/tunnel/device.go:122-145 | optional fields are present exactly when printed, prefixes in order with host bits cleared, the keepalive as 64 bits of nanoseconds |
| `UapiParser.MoveParses` | internal/tunnel/device.go:164-168 | a move to an endpoint is read as such, and a move to none is refused |
| `UapiParser.NothingIgnored` | internal/tunnel/device_kernel_linux.go:89-95 | a text that is accepted has only blank lines and known fields |
| `UapiParser.AcceptedExactly` | internal/tunnel/device_kernel_linux.go:96-194 | a text is accepted if and only if every line is blank, a field of the device with a value that reads, a key, or after a key a field of a peer with a value that reads |
| `UapiParser.FlagsMean` | internal/tunnel/device_kernel_linux.go:173-188 | a flag is set by "true" and nothing else |
| `UapiParser.PresharedExactly` | internal/tunnel/device.go:135-137 | a preshared key is printed and asked for exactly when it is not all zeros |
| `UapiParser.TextGrows` | internal/tunnel/device.go:93-194 | the text of calls is each call's text after the other |
| `DeviceStatus.Dump` | internal/tunnel/device_kernel_linux.go:198-215 | the loop prints the device's lines |
| `DeviceStatus.Status` | internal/tunnel/device.go:298-343 | the loop computes the fold over the lines |
| `DeviceStatus.StatusOfDump` | internal/tunnel/device.go:298-343 | for every device, reading what was printed gives each key its endpoint, handshake and counters |
| `DeviceStatus.OneReportEach` | internal/tunnel/device_kernel_linux.go:198-224 | with distinct keys there are as many reports as peers, each its own |
| `DeviceStatus.AllowedRead` | internal/tunnel/device.go:335-338 | allowed addresses are added in order, unreadable ones skipped |
| `DeviceStatus.UndecodableBlockReachesNobody` | internal/tunnel/device.go:307-327 | a block whose key does not decode might as well not have been printed, whatever is before and after |
| `DeviceStatus.ListenPort` | internal/tunnel/device.go:206-221 | the first line that reports a port decides |
| `DeviceStatus.PortOfDump` | internal/tunnel/device.go:206-221 | the port printed is the port read |
| `Versions.Parse` | internal/selfupdate/update.go:331-353 | the nested loops compute the padded four numbers, or none |
| `Versions.Compare` | internal/selfupdate/update.go:314-319 | the loop decides the lexicographic order |
| `Versions.IsNewer` | internal/selfupdate/update.go:304-320 | newer is that order, and false when either tag does not read |
| `Versions.BelowTransitive` | internal/selfupdate/update.go:304-320 | the order is transitive |
| `Versions.Trichotomy` | internal/selfupdate/update.go:304-320 | of two versions exactly one of equal, below, above |
| `Versions.TagRead` | internal/selfupdate/update.go:331-353 | a printed tag of three or four numbers reads as them, padded, in 64 bits; any other count does not read |
| `Versions.VersionExactly` | internal/selfupdate/update.go:331-353 | a tag is a version if and only if it is three or four numerals with dots between |
| `Versions.PiecesJoin` | internal/selfupdate/update.go:332 | the pieces between the dots have none in them and joined are the text |
| `Versions.NewerMeansGreater` | internal/selfupdate/update.go:304-353 | for numbers that fit, newer is exactly the padded numeric order |
| `Versions.NewerSpelled` | internal/selfupdate/update.go:304-320 | number by number, those not given being zero: the first of four that differs is greater |
| `Versions.FixIsNewer` | internal/selfupdate/update.go:322-330 | a fourth number makes a release newer than the three alone exactly when it is above zero, and never older |
| `Versions.SpellingsAgree` | internal/selfupdate/update.go:331-332 | the letter in front and white space around make no difference |
| `Versions.RankedExactly` | internal/selfupdate/update.go:304-353 | a tag is ranked by its numbers against every tag whose numbers fit, if and only if its own fit |
| `Versions.NewerComparesWrapped` | internal/selfupdate/update.go:304-353 | for all tags newer is the padded order of the numbers kept in 64 bits |
| `Versions.HugeIsNotNewer` | internal/selfupdate/update.go:343-349 | every tag with a number too large has a tag below it, whose numbers fit, that it is not newer than |
| `Versions.HugeNumbersWrap` | internal/selfupdate/update.go:343-349 | a tag whose last number is 2^64 greater is greater and not newer |
| `Versions.NeverTwice` | internal/selfupdate/update.go:304-320 | along any climbing history no version occurs twice, under any spelling |
| `Checksums.FindDigest` | internal/selfupdate/update.go:222-230 | the loop finds the first line for the asset |
| `Checksums.DigestOfPrinted` | internal/selfupdate/update.go:222-230 | in any list as sha256sum prints it, an asset's digest is the one printed for it, and a missing name finds none |
| `SelfUpdate.CheckVersion` | internal/selfupdate/update.go:129-147 | the refusals before anything is fetched, in the code's order |
| `SelfUpdate.CheckRelease` | internal/selfupdate/update.go:152-176 | the refusals before anything is written, in the code's order |
| `SelfUpdate.NotRefusedExactly` | internal/selfupdate/update.go:128-176 | nothing is refused if and only if every condition before the download holds |
| `SelfUpdate.RefusalsMean` | internal/selfupdate/update.go:128-162 | when a version is unknown, and when a release is not newer |
| `SelfUpdate.FirstRefusalsMean` | internal/selfupdate/update.go:129-138 | what is refused before any version is looked at |
| `SelfUpdate.FetchRefusalsMean` | internal/selfupdate/update.go:152-162 | of a newer release whose list, signature or key does not come |
| `SelfUpdate.ReleaseRefusalsMean` | internal/selfupdate/update.go:160-176 | and of a release that was fetched |
| `SelfUpdate.ChosenIsAsked` | internal/selfupdate/update.go:132-138 | no name and "latest" ask for the newest, any other for itself |
| `SelfUpdate.ReceivedIsServed` | internal/selfupdate/update.go:269-274 | all that is served up to 128 mebibytes, and those of anything longer |
| `SelfUpdate.Machine.Download` | internal/selfupdate/update.go:251-282 | exactly the destination changes, as far as the download came, and it is kept if and only if it arrived whole and hashes to what was wanted |
| `SelfUpdate.Machine.Install` | internal/selfupdate/update.go:180-197 | the files at every exit, exactly: success is the replacement, failure leaves all as it was and no temporary file unless that cannot be removed |
| `SelfUpdate.OnlyTheTemporary` | internal/selfupdate/update.go:180-197 | whatever a failing exit leaves, every other file is as it was |
| `SelfUpdate.Machine.Apply` | internal/selfupdate/update.go:128-200 | installs if and only if newer, signed, listed, matching, reporting the right version and renamed; every other exit leaves the binary's bytes and all other files; the one exit that leaves the temporary file behind, exactly |
| `SelfUpdate.Machine.Update` | internal/selfupdate/update.go:125-200 | over any run of updates the history of running versions climbs |
| `SelfUpdate.InstalledWasSigned` | internal/selfupdate/update.go:152-168 | what is installed hashes to a digest in a list the trusted key signed, and reports a newer version |
| `SelfUpdate.NeverGoesBack` | internal/selfupdate/update.go:299-320 | on any machine no release is installed twice and none is gone back to |
| `SelfUpdate.PrintedListsDoNotPanic` | internal/selfupdate/update.go:278-280 | a list of real digests never meets the short-digest exit |
| `FollowMap.Agent.Turn` | cmd/nfagent/register.go:462-501 | one map restarts the agent if and only if subnet, address or generation call for it, and what is on disk after |
| `FollowMap.SettlesExactly` | cmd/nfagent/register.go:462-501 | for a fixed map and working saves the number of restarts across process lives is exactly what was pending, at most two, and nothing is pending after |
| `FollowMap.MoveCostsOneRestart` | cmd/nfagent/register.go:472-491 | an address move, with or without a generation, costs exactly one restart |
| `FollowMap.RestartsBounded` | cmd/nfagent/register.go:462-501 | for any sequence of maps and failing saves: at most two restarts for each different map and one more for each failing save |
| `FollowMap.SettledForGood` | cmd/nfagent/register.go:462-501 | a settled map never restarts the agent again, saves or not |
| `FollowMap.NeverSavedNeverSettles` | cmd/nfagent/register.go:462-501 | if no save works a pending map restarts the agent every time |
| `FollowMap.GenerationNeverDecreases` | cmd/nfagent/register.go:472-501 | whatever the maps say |
| `FollowMap.PendingFalls` | cmd/nfagent/register.go:462-501 | a map restarts if and only if something is pending, and a saved restart settles exactly one thing |
| `FollowMap.SettledMeans` | cmd/nfagent/register.go:462-501 | nothing is pending if and only if what is recorded is what the map says |
| `FollowMap.RecordedWasSaid` | cmd/nfagent/register.go:462-501 | what is recorded was there or was said by some map, and is never emptied |
| `Peers.SamePrefixes` | internal/engine/engine.go:514-527 | the loops compute the comparison |
| `Peers.SameIsSetEquality` | internal/engine/engine.go:514-536 | without repeats in the old list it is equality of length and of the two sets |
| `Peers.RepeatsHideAChange` | internal/engine/engine.go:514-536 | with a repeat there is always a changed list that compares the same |
| `Peers.RoutesTo` | internal/engine/engine.go:481-489 | exactly the prefixes the mesh route does not cover |
| `Peers.Engine.Reroute` | internal/engine/engine.go:491-512 | the two loops drop the old routes not wanted and add the new ones not there, calls that fail changing nothing |
| `Peers.Engine.ReaddressAll` | internal/engine/engine.go:346-348 | whatever the order of the moves: a prefix no move drops has a route if it had one or a move adds it, and one that is dropped and not added has none; with a mesh route nothing changes |
| `Peers.RerouteReplaces` | internal/engine/engine.go:491-512 | when the calls work that is old out, new in, if and only if no route that stays was missing |
| `Peers.WantedOf` | internal/engine/engine.go:295-298 | the list by key, the later of two entries winning |
| `Peers.WantedIsLast` | internal/engine/engine.go:295-298 | every key has its last entry |
| `Peers.WantedWasListed` | internal/engine/engine.go:295-298 | and every key was listed |
| `Peers.Engine.Retire` | internal/engine/engine.go:301-307 | exactly the keys that are not wanted go |
| `Peers.Engine.Settle` | internal/engine/engine.go:312-342 | the same link with the new spec, or a new link and its routes; readdressed only if changed |
| `Peers.MovesExactly` | internal/engine/engine.go:312-325 | a link is readdressed exactly when its preshared key, the length of its list or a prefix of it changed |
| `Peers.BringsExactly` | internal/engine/engine.go:337-342 | a new link brings routes for exactly its prefixes outside the mesh route |
| `Peers.MoveReroutesExactly` | internal/engine/engine.go:491-512 | a move takes out the old prefixes not among the new and puts in the new not among the old |
| `Peers.Engine.Reconcile` | internal/engine/engine.go:294-344 | the part under the lock: keys, identities, specs, the retired, the moved, the new and their routes |
| `Peers.Engine.SetPeers` | internal/engine/engine.go:294-348 | the keys are the wanted keys, surviving links keep their identity, the missing are retired, the changed readdressed, the new started, and no others; and which prefixes have a route after the whole call |
| `Peers.Engine.SetPeersTwice` | internal/engine/engine.go:289-347 | saying the same again does nothing |

## Left out

- ICE itself, TURN, the WireGuard handshake, NaCl boxes, ed25519 and SHA-256: library code; steps or parameters here.
- WebSocket, HTTP and JSON transport, the signal client's reconnects, the proxy's pumps: lossy FIFO steps here; an envelope that cannot be marshalled is dropped by the server and that path is not modelled.
- Fragment reassembly in the kernel, and what its connection tracking makes of a packet: whether a packet is tracked is given.
- A second `Start` of one session beyond its agent: closing the settled channel twice is not modelled.
- Liveness of the negotiation: both sides need not end up bound to each other's current credentials, since the controlling side can be bound to a stale answer until its timeout; only the one-sided claims are stated.
- The back-off delay of the retry loop: a timer may fire at any time here, so the results hold for every delay.
- `carrying` and `peerStates`, which supply the watchdog's input: they would only add easy members.
- `rebuildPeer` (internal/engine/engine.go:380-426): its success is an input of the watchdog; that it replaces the link in the middle of a negotiation is not an act of `Negotiation`.
- `escapeRelay` around the relay scheduler: it exits when no relay is configured at the start and promises no liveness.
- The text of the nftables file: the rule list is modelled, its rendering, and the refusal by nft of reversed or overlapping port intervals, is not.
- Concurrent calls of the filter's methods, which the concurrent map and unsynchronised stamps allow.
- `retire` beyond deciding whom it concerns: it is asynchronous and can undo a re-added peer, and touches routes only in per-peer mode.
- `readdress` beyond the routes: the device call that rewrites a moved peer's allowed addresses; and which of two moves wins a prefix that one drops and another adds, since that is the order of a map.
- Link objects in `Peers`: identity is a number and a link a value, so sharing a link through another reference is not captured.
- The userspace backend's own dump and parser: library code.
- Unmodelled fields of the agent's configuration (relay, peers, advertised networks), `Pause` and `Resume`, and fingerprints: they do not take part in the restart decisions.
- Symbolic-link resolution, file modes, and the size limit on the fetched checksum list: the path and the list are parameters of `SelfUpdate`.
- Operating-system configuration, service managers, enrolment, status printing, the desktop window, logging.
- Uapi.Device.Configure: whether the device accepts a key or a port is not modelled.
