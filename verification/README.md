# Proofs about play

play is a C++ game-server library. This project models the parts of it whose correctness depends on state
kept over many calls, and proves what they promise:

- **The pulse tree** (`forest`, `broadcast`, `plain_walk`, `lifecycle`, `children`, `settings`, `pulse`). Pulses
  subscribe to topics, some for one session only; the root of a tree keeps an index so that a frame reaches its subscribers without a walk.
  The index posts exactly what a walk over every subscription would, in every state that attaching,
  subscribing, calling and stopping can reach.
- **Calls over a connection** (`ledger`, `process`). Every call is answered, failed or pending, and only one of
  these, on every run of a process in which calls, publishes, session changes, stops and posted callbacks
  interleave; and the close of its session settles all that a pulse has pending, as long as it keeps listening.
- **Sessions** (`bits`, `bytes`, `protocol`, `stream_buf`, `pipe`, `link`, `session`). Two send buffers, one write
  at a time, a length-prefixed frame codec, and a receive loop: frames sent are frames delivered, however
  the bytes are cut.
- **Ensure flows** (`paths`, `acts`, `lookup`, `naming`, `flow`, `chain`, `signals`, `moves`, `flow_run`, `search`,
  `update`, `ensure`). Acts in a tree are found and jumped to by path, and run one chain of the tree at a time.
- **Containers and allocators** (`container`, `actor_container`, `room`, `pool`, `snowflake`). Secondary
  indexes, a room's capacity, block reuse, id uniqueness.

Where the source updates objects, classes do too (`pulse`, `session`, `stream_buf`, `ensure`,
`actor_container`, `room`, `pool`, `snowflake`). Each method states its whole new state as a function of the
old one, over a map of the fields of all objects concerned (`View`), and the theorems are about these
functions and their runs. Asynchronous events (write completions, received chunks, posted callbacks) are
steps that may come in any order; the order in which unordered maps and sets are visited is arbitrary.
`PLAY_CHECK` excludes nothing: outside debug builds it only logs.

`dafny verify dfyconfig.toml` checks everything.

## Where the code does less than intended

Each is proved, with the exact condition under which the code does what is meant.

- A write that is cut short: bytes accepted meanwhile overtake the rest of it (`CompleteKeepsOrderIff`), and
  the receiver can be handed a payload nobody sent (`CutShortWriteCorrupts`). No byte is lost (`RunAccounts`).
- `doc/construction/net/session.md` has an application's `close()` treated like any lost session; the code
  gives the handler its notice only if a failed read or write finds the session open (`NoticeIff`), so never
  after such a close (`CloseByAppIsSilent`).
- `stop` on a pulse deeper than a direct child of the root leaves its interests in the root's index, and a
  `stop` refused because children are bound counts as done (`StopSilencesIff`). The refused pulse never leaves its
  parent then, whose own stop is refused in turn: a first stop is, exactly when some pulse joined the one that
  stops and has not had a childless first stop since (`StopRefusedIff`).
- A pulse attached after it subscribed, and every pulse below it, is not heard at its new root
  (`AttachSilences`) until it subscribes the key again (`IndexedIffSubscribed`).
- `call` installs its handlers only on topics the pulse had not subscribed, bound to its session of that
  moment, and further calls leave them (`CallKeepsHeard`). A response is credited as often as a reply handler
  stands for no session or for the present one (`ResponseReachesLedger`). A close fails the pending calls only
  through a handler for the very session the pulse is bound to: one for no session is handed none, and
  counts only while the pulse is bound to none (`CloseReachesLedger`). So calls are not failed if the pulse had
  subscribed the close topic itself, nor by a close of the old session or the new one if it took another
  after a call (`SessionChangeStrandsCalls`). A pulse that is not stopped and keeps its session and its root has
  all its pending calls settled by a close (`ClosesAlwaysSettle`). One response topic shared by two request
  topics credits the last (`ResponseCreditsLastRequest`).
- The lookup takes a prefix of characters for an ancestor and compares last names only. Every act finds every
  act exactly when no sibling's name begins with another's and no act but the root has an act of its own name
  below it (`EveryActFoundIff`). Otherwise the search can end at a namesake on the way (`FindReturnsNodeIff`),
  find nothing (`LeafHidesLongerSibling`), or find a child of the wrong sibling (`PrefixFindsOwnChild`); a jump
  can land there too (`PrefixJumpsToOwnChild`). By a relative path an act finds what is below it unless its own
  name ends the path or begins it, or the last name comes earlier on the way (`RelativeFindReturnsNodeIff`).
- A jump that names a leaf of a parallel act and more goes on as if the leaf were not named (`LeafBounces`).
- A jump to the path of a composite act that encloses the one asking throws (`JumpThrowsIff`); any other jump
  switches one serial act only, and reaches its target only if the acts between were current (`JumpLandsIff`).
- A parallel act goes on updating children after one of them has switched the flow elsewhere, or has stopped
  it by `exit`, and one such update can start an act under a parent that does not run
  (`ParallelUpdateBreaksChain`, `ExitedSiblingBreaksChain`). An update keeps the chain throughout exactly when
  every signal switches an act that runs at that time (`UpdateKeepsChainIff`), as it does if no jump or exit
  leaves a parallel act with children still to be updated (`ContainedUpdateIsSafe`). A jump that throws ends the
  update: the children after it are not updated that time (`ThrowingLeafEndsUpdate`).
- `next` at the end of a serial act whose last child is composite stops that child under a running parent
  (`NextKeepsChainIff`).
- Deleting one of two actors that share a secondary key hides the other (`ApplyKeepsCompleteIff`,
  `SharedNameHidesActor`). A reservation made while the name index has an entry for its name is never released
  (`ReserveStrandsIff`, `StrandedForever`).
- Actor ids are unique for the first 2^24 calls only, not for the life of the server (`UniqueIff`).
- `get_pool_size` is too large by the pooled blocks reused since the last release (`PoolSizeIsRightIff`).
- Splitting on a delimiter of two or more characters loses text, unless every character is one
  (`SplitIsLosslessIff`).

## Model

| member | source | states |
|---|---|---|
| Broadcast.DispatchIsNaiveWalk | play/net/pulse.ipp:417-498 | publishing at a root posts, as a multiset, the callbacks of the root's subscriptions and of those descendants' subscriptions the root was told of and not told to forget, whose session is none or the frame's; in every reachable state, also when a pulse subscribed a topic several times or for several sessions |
| PlainWalk.DispatchIsWalk | play/net/pulse.ipp:417-498 | in a tidy tree it posts exactly what a walk over every subscription of the root and of all descendants not stopped posts for those whose session is none or the frame's |
| PlainWalk.OrderlyRunDispatchIsWalk | play/net/pulse.ipp:43-50 | so it does after every run from an empty process that attaches only pulses without subscriptions, stops only childless direct children of roots, and subscribes nothing for a stopped pulse |
| PlainWalk.SharesAgreeIff | play/net/pulse.ipp:371-395 | a pulse's share of every dispatch is its share of that walk exactly when the pulse is tidy: stopped and forgotten by the root, or not stopped and known for all it subscribed |
| PlainWalk.OrderlyRunIsTidy | play/net/pulse.ipp:145-179 | every such run keeps every pulse tidy |
| Broadcast.DispatchReachesEachPulse | play/net/pulse.ipp:417-498 | each pulse's share of the callbacks comes in its own subscription order, session-blind ones first |
| Broadcast.PulsePostsAreNaive | play/net/pulse.ipp:632-644 | one pulse posts exactly the subscriptions meant for the frame, once each |
| Broadcast.SplitBySession | play/net/pulse.ipp:632-644 | the any-session and the this-session group of a pulse together are all subscriptions that hear the frame, none counted twice |
| Broadcast.InterestedIff | play/net/pulse.ipp:371-414 | the root's index lists a descendant under a key exactly when its interest there is live |
| PulseForest.ApplyKeepsInv | play/net/pulse.ipp:43-50 | every operation keeps tree and index consistent: parents, roots, depths, runners, and the index equal to the live interests for every key |
| PulseForest.AttachKeepsInv | play/net/pulse.ipp:355-368 | attaching, of a pulse with or without subscriptions and descendants, also to a parent that refuses to list it, keeps them |
| PulseForest.SubscribeKeepsInv | play/net/pulse.ipp:225-258 | subscribing keeps them |
| PulseForest.StopKeepsInv | play/net/pulse.ipp:145-179 | stopping keeps them, for any pulse, refused stops included |
| PulseForest.StopEffect | play/net/pulse.ipp:371-395 | which of the root's interests a stop withdraws |
| Children.AttachLists | play/net/pulse.ipp:355-368 | attaching sets the parent and lists the child there unless the parent is final, and changes no other pulse's children |
| Children.StopUnlists | play/net/pulse.ipp:145-179 | the first stop of a childless pulse, at any depth, takes it off its parent's children; if nothing else is bound there, the parent can stop then |
| Children.SecondStopDoesNothing | play/net/pulse.ipp:145-153 | a stop after the first, refused or not, changes nothing and is not refused |
| Children.ListedIff | play/net/pulse.ipp:354-381 | on every run a parent lists exactly the pulses that joined it without being refused and have not had a childless first stop since |
| Children.StopRefusedIff | play/net/pulse.ipp:155-160 | on every run from an empty process the first stop of a pulse is refused exactly when some pulse joined it for good |
| Children.FinalRefuses | play/net/pulse.ipp:89-94 | once marked final a pulse refuses every child on every run |
| Settings.NewPulseIsFree | play/net/pulse.hpp:40 | a new pulse can stop, takes a child, subscribes for no session and posts to no strand |
| Settings.NewPulseComesAndGoes | play/net/pulse.ipp:42-50 | a new pulse attached below one that is not final is listed there, and its first stop takes it off again |
| Settings.SubscribesForItsSession | play/net/pulse.ipp:59-64 | between one with_session and the next, on every run, what a pulse subscribes is for that session, and told to the root as such |
| Settings.PostsToItsStrand | play/net/pulse.ipp:52-57 | between one with_strand and the next, on every run, every callback a pulse posts goes to that strand |
| Settings.ConfiguredStays | play/net/pulse.ipp:13-40 | a pulse configured as server, client or independent stays the root of its tree, with a runner and in that mode |
| PulseForest.CallKeepsInv | play/net/pulse.ipp:315-346 | calling keeps them |
| Lifecycle.RunKeepsInv | play/net/pulse.ipp:145-258 | so does every run of operations |
| Lifecycle.IndexedIffSubscribed | play/net/pulse.ipp:225-258 | a pulse never stopped is in the root's index under exactly the (session, topic) pairs it subscribed, but for those it subscribed only before it came under that root |
| Lifecycle.AttachSilences | play/net/pulse.ipp:43-50 | right after attaching, the new root posts nothing for the attached pulse or any pulse below it |
| Lifecycle.StopSilencesIff | play/net/pulse.ipp:145-179 | after a stop no publish posts anything of the pulse, and the root keeps no pointer to it, exactly when nothing of it was live or it is a childless direct child of the root on its first stop |
| Lifecycle.StopLeavesOthers | play/net/pulse.ipp:371-395 | every other pulse's deliveries are unchanged, callback by callback |
| Lifecycle.SilentForever | play/net/pulse.ipp:145-179 | a silenced pulse stays silent through every run in which it does not subscribe again |
| Lifecycle.NeverStoppedHearsAll | play/net/pulse.ipp:225-258 | a pulse never stopped hears a frame through exactly the subscriptions on the topic whose session is none or the frame's and that it did not only make before coming under its root |
| Lifecycle.SilentIffNothingLive | play/net/pulse.ipp:432-498 | a pulse is silent exactly when none of its interests is live |
| Lifecycle.RunInstallsOnce | play/net/pulse.ipp:506-537 | on every run each handler that call installs is subscribed at most once |
| Lifecycle.HandlerRunsAtMostOnce | play/net/pulse.ipp:417-498 | so no published frame runs it twice, for stopped pulses too |
| Lifecycle.ResponseReachesLedger | play/net/pulse.ipp:507-520 | after any call of a descendant, a response for its session is credited once if the call installed the handler, and else as often as reply handlers the root knows of stand on the topic for no session or this one; of a pulse never stopped and attached before subscribing, the root knows all |
| Lifecycle.CloseReachesLedger | play/net/pulse.ipp:523-549 | after any call of a descendant, the close of any session runs the close handler with the session the pulse is bound to, and so fails its pending calls, only if that is the session closed or none: once if the call installed the handler, and else as often as close handlers for that session, known to the root, stand on the topic; of a pulse never stopped and attached before subscribing, the root knows all |
| Lifecycle.CallKeepsHeard | play/net/pulse.ipp:507-537 | a further call, of any topics, leaves unchanged what is heard on a topic subscribed before |
| Lifecycle.SessionChangeStrandsCalls | play/net/pulse.ipp:60-64 | after a call, a change of session and another call, no close of any session fails a pending call, though the old one's runs the handler; and a response of the new session is credited only if the first call was made for no session |
| Lifecycle.PulseRuns | play/net/pulse.ipp:417-498 | a frame runs a callback for a descendant exactly as often as it stands, known to the root, on the topic for no session or the frame's |
| Lifecycle.PulseRunsFor | play/net/pulse.ipp:459-498 | and it is handed no session if it stands for none, and else the frame's |
| Pulse.Pulse.constructor | play/net/pulse.hpp:40 | a new pulse is a root of its own, without mode, subscriptions or calls |
| Pulse.Pulse.GetRoot | play/net/pulse.ipp:664-671 | climbing parent pointers ends at the root of the tree |
| Pulse.Pulse.GetRunner | play/net/pulse.ipp:646-656 | a pulse without a runner uses its root's |
| Pulse.Pulse.AsChild | play/net/pulse.ipp:43-50 | sets mode and parent, then the parent lists the child unless it is final; all below the child come under the new root |
| Pulse.Pulse.AsRoot | play/net/pulse.ipp:13-40 | a root gets a mode and a runner, whatever it had |
| Pulse.Pulse.WithSession | play/net/pulse.ipp:60-64 | later subscriptions are for that session; nothing else changes |
| Pulse.Pulse.ShowInterest | play/net/pulse.ipp:398-414 | the child joins the group of the key |
| Pulse.Pulse.Subscribe | play/net/pulse.ipp:225-258 | the subscription is appended; a descendant's interest is noted at the root |
| Pulse.Pulse.UnbindChild | play/net/pulse.ipp:371-395 | the child leaves, and a root forgets exactly the child's interests |
| Pulse.Pulse.WithdrawAll | play/net/pulse.ipp:383-394 | the loop takes the child out of every group it showed interest in and out of no other |
| Pulse.Pulse.Stop | play/net/pulse.ipp:146-179 | refused while children are bound, though marked as done; else the parent forgets the child |
| Pulse.Pulse.Call | play/net/pulse.ipp:315-346 | installs both handlers where missing and appends the caller under the next call number |
| Pulse.Pulse.CallReceive | play/net/pulse.ipp:603-629 | the response's request topic counts a reply and drops its front caller |
| Pulse.Pulse.CallClosed | play/net/pulse.ipp:540-600 | for the bound session, posts the failure of every pending caller in order and clears the calls; for others, nothing |
| Pulse.Pulse.CollectFailures | play/net/pulse.ipp:555-577 | the nested loops collect exactly the pending callers, topic by topic, front to back |
| Pulse.Pulse.RunCallback | play/net/pulse.ipp:506-549 | what running each kind of posted callback does to the ledger and to the runner's queue, and nothing else |
| Pulse.Pulse.PostOwn | play/net/pulse.ipp:417-457 | posts the pulse's own matching callbacks in subscription order |
| Pulse.Pulse.Dispatch | play/net/pulse.ipp:417-498 | posts own callbacks, then, at a root, those of both interest groups, each member once |
| Pulse.Pulse.Publish | play/net/pulse.ipp:271-275 | the root's queue grows by exactly what the naive walk posts, and in a tidy tree by what the walk over subscriptions posts |
| CallLedger.EveryCallSettlesOnce | play/net/pulse.ipp:315-346 | in every reachable state the calls issued on a topic are those answered or failed, in call order, followed by those pending, numbered reply_index+1 to call_index |
| CallLedger.ResponseDefinedIff | play/net/pulse.ipp:603-629 | handling a response finds a caller, whose number is the new reply index, exactly when a call of its topic is outstanding |
| CallLedger.FailuresArePending | play/net/pulse.ipp:540-600 | a close fails exactly the pending calls, once each, in call order per topic |
| CallLedger.FailuresAscend | play/net/pulse.ipp:555-577 | topics fail in the order of the map |
| CallLedger.SecondCloseFailsNothing | play/net/pulse.ipp:540-600 | a second close fails no call |
| CallLedger.ResponseCreditsLastRequest | play/net/pulse.ipp:315-346 | a response is credited to the request topic that last named it |
| PulseProcess.EventKeepsGood | play/net/pulse.ipp:417-457 | every event of a process keeps the books: operations on pulses, publishes at any pulse, and the runner getting to any posted callback |
| PulseProcess.EveryRunSettlesOnce | play/net/pulse.ipp:540-629 | on every run of a process, in whatever order posted callbacks run, each pulse's calls on a topic are those settled, once each and in call order, followed by those pending; and the failures posted, run or not, are one for each failed call |
| PulseProcess.NoticeFailsPending | play/net/pulse.ipp:555-599 | running such a close handler posts one failure for each pending call to the pulse's strand, topics ascending and calls in order, behind all that waits, and leaves none pending |
| PulseProcess.OthersPostNothing | play/net/pulse.ipp:603-629 | running any other callback posts nothing |
| PulseProcess.NoticePostedIff | play/net/pulse.ipp:539-549 | publishing the close of a session posts a close handler that fails the pending calls of a descendant exactly when one that the root knows of stands for the session it is bound to, and that is none or the closed one |
| PulseProcess.CloseSettlesPending | play/net/pulse.ipp:539-600 | if so, then on every run from there in which the pulse keeps its session, once no such handler waits in the queue, all calls issued before the close are settled |
| PulseProcess.ClosesAlwaysSettle | play/net/pulse.ipp:313-346 | a pulse that called without a close subscription of its own is settled so by every close of its session, after any run in which it is not stopped and keeps its session and its root |
| Link.FramesSentAreFramesDelivered | play/net/session.ipp:85-132 | with complete writes, under any interleaving and any cutting of the bytes, the frames delivered are a prefix of the frames sent, and all of them once everything has arrived |
| Link.RunInStep | play/net/session.ipp:222-249 | on every run the receiver has delivered exactly what the arrived bytes spell, complete writes or not |
| Link.RunAccounts | play/net/session.ipp:202-214 | on every run, cut-short writes and failed writes and reads included, bytes are conserved and at most one close notice is given |
| Link.NoticeIff | play/net/session.ipp:250-265 | on every run the handler is told of the close once if a failed read, or a failed outstanding write, found the session open, and else never |
| Link.WritesAsNeeded | play/net/session.ipp:165-187 | on every run the outstanding write has bytes to write; with complete writes and none failed, one is outstanding exactly while an accepted byte is not on the wire |
| Link.SendingIff | play/net/session.ipp:201-219 | on every run the session counts as sending exactly while a write is outstanding or after one failed, when nothing more is written |
| Link.TakesIff | play/net/session.ipp:84-108 | a frame is taken exactly by an open session and with a payload of 1 to 1048575 bytes; any other changes nothing |
| Link.CloseByAppIsSilent | play/net/session.ipp:134-141 | once the application closes an open session, no later event, a failed read included, gives its handler a close notice |
| Link.CutShortWriteCorrupts | play/net/session.ipp:202-214 | a run with one short write that delivers a payload nobody sent |
| SendPipe.AcceptKeepsOrder | play/net/session.ipp:61-82 | accepting bytes keeps wire, in-flight and accumulated bytes together equal to all bytes accepted, in order, with both buffers empty when nothing is sent |
| SendPipe.CompleteKeepsOrderIff | play/net/session.ipp:202-214 | a completion keeps that order exactly when swapping what it left with what waits makes no difference, as after a complete write |
| SendPipe.CutShortIsOvertaken | play/net/session.ipp:166-187 | after a short write, the bytes accepted meanwhile are in flight before its rest |
| SendPipe.CompleteConserves | play/net/session.ipp:202-214 | any completion keeps the multiset of bytes |
| SendPipe.AcceptConserves | play/net/session.ipp:61-82 | so does accepting |
| SendPipe.WireIsPrefix | play/net/session.ipp:166-187 | what is on the wire is a prefix of what was accepted |
| Session.Session.constructor | play/net/session.ipp:6-13 | an open session with nothing sent |
| Session.Session.SendBytes | play/net/session.ipp:61-82 | bytes are appended to the accumulation buffer of an open session, and a write starts if none runs |
| Session.Session.Send | play/net/session.ipp:84-132 | a frame below the size limit on an open session is encoded behind what is accumulated; any other is refused without effect |
| Session.Session.StartSend | play/net/session.ipp:165-187 | the accumulated bytes become the one outstanding write and the buffers swap, if there are any |
| Session.Session.HandleSend | play/net/session.ipp:201-219 | the bytes sent leave their buffer and the next write starts; an error closes |
| Session.Session.RecvFrames | play/net/session.ipp:276-312 | the loop delivers every complete frame in order, leaves the rest, and ends since each round consumes bytes |
| Session.Session.HandleRecv | play/net/session.ipp:221-254 | a chunk is appended and drained; an error closes |
| Session.Session.HandleClose | play/net/session.ipp:256-265 | an open session is closed and told so once; a closed one is not |
| Session.Session.Close | play/net/session.ipp:134-141 | only the socket closes |
| PlainProtocol.DecodeOfEncoded | play/net/protocol/plain_protocol.ipp:45-93 | a frame followed by anything decodes to its length, payload and topic, for every topic, exactly when the payload is nonempty and its length fits four bytes |
| PlainProtocol.PayloadOfFrame | play/net/protocol/length_delimited.ipp:45-69 | what a longer payload is cut down to |
| PlainProtocol.DecodeOfProperPrefix | play/net/protocol/plain_protocol.ipp:69-93 | no proper prefix of a frame is taken for a frame |
| PlainProtocol.DecodeMonotone | play/net/protocol/plain_protocol.ipp:69-93 | later bytes never change a decoded frame |
| PlainProtocol.EncodedOfDecode | play/net/protocol/plain_protocol.ipp:69-93 | the bytes consumed are the encoding of the frame returned |
| PlainProtocol.FramesPartition | play/net/session.ipp:277-312 | frames delivered, re-encoded, and the leftover are the bytes received, and no frame is left in the leftover |
| PlainProtocol.FramesOfChunks | play/net/session.ipp:222-249 | draining after each chunk delivers what draining once would |
| PlainProtocol.FramesOfStream | play/net/session.ipp:277-312 | any cut of a stream of frames yields the frames before the cut |
| PlainProtocol.ReceiveDependsOnBytes | play/net/session.ipp:222-249 | deliveries and leftover depend on the concatenated chunks only |
| Codec.Protocol.Encode | play/net/protocol/plain_protocol.ipp:45-66 | appends topic, length and payload to the buffer, nothing when closed |
| Codec.Protocol.Decode | play/net/protocol/plain_protocol.ipp:69-93 | returns what the frame reading of the bytes says |
| Codec.LengthDelimited.EncodeInto | play/net/protocol/length_delimited.ipp:20-43 | the loop writes the length little-endian, then the payload, filling the buffer exactly |
| Codec.LengthDelimited.Encode | play/net/protocol/length_delimited.ipp:7-18 | appends prefix and payload to a stream buffer |
| Codec.LengthDelimited.Decode | play/net/protocol/length_delimited.ipp:45-69 | the payload if the length read is fully there, else nothing |
| Bytes.ValueOfLittleEndian | play/net/util/serializer.hpp:26-56 | reading what was written gives the value modulo the width |
| Bytes.LittleEndianOfValue | play/net/util/serializer.hpp:26-56 | writing what was read gives the bytes back |
| Bytes.Serialize | play/net/util/serializer.hpp:26-37 | the mask-and-shift loop writes the low bytes least significant first and no others |
| Bytes.Deserialize | play/net/util/serializer.hpp:46-56 | the loop that ors in each shifted byte reads that number |
| Bytes.OrReadsByte | play/net/util/serializer.hpp:46-56 | or-ing in a byte shifted above those read so far gives the number they denote together |
| Paths.SplitLoop | play/base/string_util.hpp:12-39 | the position loop computes the recursive split, empty parts skipped |
| Paths.SplitLosesDelimitersOnly | play/base/string_util.hpp:12-39 | with a one-character delimiter every part is nonempty and free of it, and the parts joined are the input without delimiters |
| Paths.SplitIsLosslessIff | play/base/string_util.hpp:12-39 | that holds of a delimiter for all inputs exactly when it has at most one character or has them all |
| Paths.SplitOfPath | play/ensure/act_ensure.cpp:282-294 | splitting a path built from names gives back the names |
| Paths.PathParts | play/ensure/act_ensure.cpp:252-280 | first name and popped rest of a path built from names |
| Paths.PopHeadIsShorter | play/ensure/act_ensure.cpp:264-280 | popping any path that does not throw makes it shorter |
| Paths.PrefixOfPathIff | play/ensure/act_ensure.cpp:233-236 | one full path is a textual prefix of another exactly if its names lead the other's, the last one perhaps stopping short inside |
| Lookup.FullPathIsNames | play/ensure/act_ensure.cpp:189-214 | an act's full path is its ancestors' names from the root |
| Lookup.PrefixIsAncestry | play/ensure/act_ensure.cpp:233-236 | the prefix test decides ancestor-or-self, given prefix-free sibling names |
| Naming.PrefixIsAncestryIff | play/ensure/act_ensure.cpp:233-236 | it decides it throughout a tree exactly when no sibling's name begins with another's |
| Naming.EveryActFoundIff | play/ensure/act_ensure.cpp:63-126 | every act finds every act by its full path exactly when, besides, no act but the root has an act of its own name below it |
| Naming.PrefixHidesSibling | play/ensure/act_ensure.cpp:63-112 | an act whose name begins a sibling's, or equals it, never finds that sibling |
| Naming.PrefixFindsOwnChild | play/ensure/act_ensure.cpp:238-245 | it finds a child of its own instead if the longer name goes on with one character and that child's name |
| Naming.FindStaysBelow | play/ensure/act_ensure.cpp:84-111 | a relative search finds acts at or below the one asked only |
| Search.RelativeFind | play/ensure/act_ensure.cpp:104-111 | an act asked for the path of an act below it answers the first act of the last name on the way, unless its own name begins or ends the path |
| Search.RelativeFindWithSelf | play/ensure/act_ensure.cpp:94-103 | the path may begin with the asked act's own name |
| Search.RelativeFindReturnsNodeIff | play/ensure/act_ensure.cpp:92-111 | it finds the act meant exactly when no act from the asked one on has its name and the first step down does not have the asked one's |
| Search.FindHasLastName | play/ensure/act_ensure.cpp:119-126 | no relative path made of names throws, and what it finds has the last name of the path |
| Search.UnknownIsNotFound | play/ensure/act_ensure.cpp:75-88 | a full path that goes on with a name no act has is not found by the act it continues or any above |
| Search.SlashesThrowIff | play/ensure/act_ensure.cpp:282-291 | slashes after an act's own path make a composite throw and a leaf find nothing |
| Lookup.FindFullPath | play/ensure/act_ensure.cpp:63-112 | from every act, finding the full path of any act ends at the first act of its name below where the climb stops |
| Lookup.FindReturnsNodeIff | play/ensure/act_ensure.cpp:63-126 | it returns the act itself exactly when no act between carries its name |
| Lookup.LeafHidesLongerSibling | play/ensure/act_ensure.cpp:63-112 | a leaf whose name begins a sibling's does not find it |
| Lookup.JumpToFullPath | play/ensure/act_serial.cpp:26-84 | a jump to a full path climbs to the lowest common ancestor and switches the first serial act below; at the target itself it throws |
| Lookup.JumpThrowsIff | play/ensure/act_ensure.cpp:238-245 | it throws exactly when the target is a composite act that is or encloses the asker |
| Lookup.EmptyJumpDoesNothing | play/ensure/act_parallel.cpp:37-61 | the empty path left by popping comes to nothing, also where a leaf bounces it to its parallel parent |
| Search.RelativeLeafJump | play/ensure/act_ensure.cpp:39-45 | a leaf hands a relative target to its parent: a jump to the path of any act below the parent switches the first serial act on the way down from there |
| Search.SerialJumpIff | play/ensure/act_serial.cpp:74-84 | at a serial act a relative jump goes by the first name alone: to the first child of that name, and else nowhere |
| Search.LeafBounces | play/ensure/act_parallel.cpp:69-79 | at a parallel act naming a leaf child and more comes to what the rest comes to |
| Search.PrefixJumpsToOwnChild | play/ensure/act_serial.cpp:40-42 | an act whose name begins a sibling's takes a jump to the sibling for one to a child of its own |
| Acts.Jump | play/ensure/act_serial.cpp:26-56 | jumps end for every tree and path, by path length, then depth; a switch names a serial act and one of its children |
| Acts.JumpChild | play/ensure/act_parallel.cpp:69-79 | likewise for the part below an act |
| Acts.FindActFrom | play/ensure/act_serial.cpp:96-107 | the first child of that name, none before it |
| FlowControl.ActivateCounts | play/ensure/act_ensure.cpp:11-23 | activation only starts acts, the one asked among them, and counts each that starts once |
| FlowControl.DeactivateCounts | play/ensure/act_ensure.cpp:30-37 | deactivation only stops acts, the one asked among them, and counts nothing |
| ActiveChain.ActivateStarts | play/ensure/act_serial.cpp:5-14 | starting an idle act makes it and the chain below it run, down to the current leaves, and touches nothing else |
| ActiveChain.DeactivateClears | play/ensure/act_parallel.cpp:29-35 | stopping an act stops everything below it and touches nothing else |
| Signals.SwitchMoves | play/ensure/act_serial.cpp:74-84 | a switch stops all below the old child, runs the chain below the new one, sets the index, and touches nothing else |
| Signals.SwitchKeepsChainIff | play/ensure/act_serial.cpp:74-84 | it keeps the chain exactly when the serial act runs |
| Signals.StopCurrentKeepsChainIff | play/ensure/act_serial.cpp:58-72 | stopping the current child keeps it exactly when no running act is left without its composite child |
| Signals.ExitKeepsChain | play/ensure/flow.cpp:15-18 | exit of any act stops every act of the flow, by the bot's stop, and keeps the chain |
| Signals.NextKeepsChainIff | play/ensure/act_serial.cpp:58-72 | when next keeps it, at the end of the flow and before |
| Moves.NextMoves | play/ensure/act_serial.cpp:58-72 | next moves a serial act on by one child, stopping all below the old one and running the chain below the new one, and changes nothing else; at the last child it only stops |
| Moves.LeafNextMoves | play/ensure/act_ensure.cpp:47-53 | a leaf's next does so to its serial parent, and nothing below a parallel one |
| Moves.NextsWalk | play/ensure/act_serial.cpp:58-72 | the children of a serial act come one after another, and the last one stays |
| Moves.SwitchCounts | play/ensure/act_serial.cpp:74-84 | a switch, to the current child too, starts what then runs below the target anew, counted once, and counts nothing else |
| Signals.JumpSwitchesActive | play/ensure/act_parallel.cpp:37-79 | a jump from a running act, or a leaf of one, never switches a serial act that does not run |
| Signals.SignalKeepsChain | play/ensure/act_ensure.cpp:139-173 | whatever a leaf reached by update signals keeps the chain, in every tree of serial and parallel acts |
| Signals.UpdateReachesServed | play/ensure/act_serial.cpp:16-19 | an update reaches only leaves of running parents, and of serial ones only the current child |
| FlowRun.SerialFlowIsOneLine | play/ensure/act_serial.cpp:5-84 | from the start of a serial flow through any updates and signals: the active composites are exactly those on the line of current acts, nothing off it runs, at most one leaf does, and each update reaches the end of the line; once a leaf signals exit, nothing runs |
| FlowRun.TurnsKeepOrder | play/ensure/act_parallel.cpp:5-79 | on every run of signals, each from a leaf its parent runs at that time, a flow of serial and parallel acts keeps its chain and its running root, up to an exit, which is the last signal and after which nothing runs |
| FlowRun.StartPutsInOrder | play/ensure/act_ensure.cpp:11-23 | starting a flow in which nothing runs, with parallel acts too, establishes the chain |
| FlowRun.StopLeavesNothingRunning | play/ensure/act_ensure.cpp:30-37 | stopping a flow in order leaves no act running |
| FlowRun.StaleSiblingBreaksChain | play/ensure/act_serial.cpp:58-84 | after a switch, next of a serial act below the stopped child breaks the chain |
| FlowUpdate.UpdateKeepsChainIff | play/ensure/act_parallel.cpp:21-27 | in every tree and whatever the leaves signal, a whole update, signals taking effect between children and a throwing jump ending it, keeps the chain throughout exactly when each signal switches an act that runs when it comes |
| FlowUpdate.SignalKeepsChainIff | play/ensure/act_ensure.cpp:139-173 | the same for one signal of any leaf |
| FlowUpdate.ContainedUpdateIsSafe | play/ensure/act_parallel.cpp:21-27 | an update none of whose jumps or exits leaves a parallel act with children still to be updated keeps the chain |
| FlowUpdate.UpdatesKeepOrder | play/ensure/act_parallel.cpp:21-79 | so every run of such updates, those cut off by a throwing jump included, keeps a flow of serial and parallel acts in order or, after an exit, stopped; without exits, in order |
| FlowUpdate.ParallelUpdateBreaksChain | play/ensure/act_parallel.cpp:21-27 | one update that breaks it: the first child of a parallel act jumps away, the second is moved on all the same |
| FlowUpdate.ExitedSiblingBreaksChain | play/ensure/bot.cpp:44-52 | another: the first child stops the bot, the second is moved on in the stopped flow |
| FlowUpdate.ThrowEndsUpdate | play/net/runner/thread_runner.cpp:52-73 | once a child of a parallel act throws, the later ones are not updated, whatever they would signal |
| FlowUpdate.ThrowingLeafEndsUpdate | play/ensure/act_parallel.cpp:21-27 | an update in which a leaf child throws leaves the flow as the children before it left it |
| FlowUpdate.SerialUpdateIsRound | play/ensure/act_serial.cpp:16-19 | in a tree of serial acts the whole update is the signal of the one leaf reached |
| FlowRun.JumpLandsIff | play/ensure/act_ensure.hpp:79 | after a jump to its full path, an act is on the line of current acts exactly when the acts between the switched one's child and it already were |
| Search.RelativeJumpLandsIff | play/ensure/act_serial.cpp:32-36 | the same after a jump of a leaf to a path relative to its parent |
| Ensure.ActEnsure.constructor | play/ensure/act_ensure.hpp:61-71 | a new act knows its full path |
| Ensure.ActEnsure.BuildPath | play/ensure/act_ensure.cpp:189-214 | the climbing and popping loops build the parent's full path and the name |
| Ensure.ActEnsure.FindAct | play/ensure/act_parallel.cpp:91-102 | the index loop finds the first child of that name |
| Ensure.ActEnsure.Activate | play/ensure/act_ensure.cpp:11-23 | on_activate, then flag and count, once |
| Ensure.ActEnsure.OnActivate | play/ensure/act_serial.cpp:5-14 | what each kind of act starts |
| Ensure.ActEnsure.ActivateChildren | play/ensure/act_parallel.cpp:5-19 | the loop starts the children in order |
| Ensure.ActEnsure.Deactivate | play/ensure/act_ensure.cpp:30-37 | on_deactivate, then the flag |
| Ensure.ActEnsure.DeactivateChildren | play/ensure/act_parallel.cpp:29-35 | the loop stops the children in order |
| Ensure.ActEnsure.Next | play/ensure/act_ensure.cpp:47-53 | leaves ask their parent, parallel acts do nothing |
| Ensure.ActEnsure.NextSerial | play/ensure/act_serial.cpp:58-72 | the current child stops; the next one starts, if there is one |
| Ensure.ActEnsure.Jump | play/ensure/act_ensure.cpp:39-45 | the virtual jumps switch the act that the path leads to, or change nothing |
| Ensure.ActEnsure.JumpChild | play/ensure/act_serial.cpp:74-84 | looks the first name up and switches to it, or passes the rest on |
| Ensure.ActEnsure.Update | play/ensure/act_serial.cpp:16-19 | updates the current child, all children, or lets the leaf signal, each signal taking effect at once; the result says whether a jump threw and so ended the update |
| Ensure.ActEnsure.UpdateChildren | play/ensure/act_parallel.cpp:21-27 | the loop updates the children in order, each in the flow the ones before it left, up to one that throws |
| Ensure.ActEnsure.Exit | play/ensure/act_ensure.cpp:55-61 | exit goes up to the root, where a flow is stopped with its bot |
| Ensure.ActEnsure.SignalParent | play/ensure/act_ensure.cpp:139-173 | does what the command of the slot says, and tells whether a jump threw |
| Ensure.JoinTail | play/ensure/act_ensure.cpp:264-280 | the loop joins all parts after the first |
| ActorStore.RunFindsAsScan | play/app/actor_container.ipp:81-118 | after any run that never removes an actor sharing a key, find by id, name, session or uuid is a scan of the container |
| ActorStore.RunKeepsSound | play/app/actor_container.ipp:6-79 | on every run, shared keys included, each index entry names a stored actor that has the key |
| ActorStore.AddStores | play/app/actor_container.ipp:6-27 | an actor of a new id is stored as it is and found by it; one of a used id changes nothing stored |
| ActorStore.DelRemoves | play/app/actor_container.ipp:31-78 | a removal by any key takes away the actor found by it and nobody else, and nothing is found by the key then |
| ActorStore.StoredUntilRemoved | play/app/actor_container.ipp:6-78 | a stored actor stays, unchanged, on every run that does not remove it |
| ActorStore.FindIsScanIff | play/app/index.ipp:23-34 | an index finds what a scan finds for every key exactly when it is complete, and never anything wrong |
| ActorStore.ApplyKeepsCompleteIff | play/app/actor_container.ipp:31-78 | additions keep indexes complete; a removal does exactly when the removed actor shares no key |
| ActorStore.UnlinkKeepsCompleteIff | play/app/index.ipp:17-21 | the same for one index |
| ActorStore.SharedNameHidesActor | play/app/actor_container.ipp:60-78 | the other of two actors of one name stays stored and cannot be found by it |
| ActorContainers.ActorContainer.Add | play/app/actor_container.ipp:6-27 | stores and links an actor of a new id; links already there stay |
| ActorContainers.ActorContainer.Del | play/app/actor_container.ipp:31-78 | removes the found actor and what is linked under its keys |
| ActorContainers.ActorContainer.Find | play/app/actor_container.ipp:84-118 | looks up by the key's own index |
| ActorContainers.Index.Link | play/app/index.ipp:11-15 | an existing link stays |
| ActorContainers.Index.Unlink | play/app/index.ipp:17-21 | the link goes |
| ActorContainers.Index.Find | play/app/index.ipp:23-34 | the stored actor the link leads to, if any |
| Rooms.CapacityHolds | play/sample/alpha/app/front/room_actor.cpp:6-80 | on every run users and reservations together never exceed the capacity |
| Rooms.CheckInMovesOneIff | play/sample/alpha/app/front/room_actor.cpp:53-80 | a check-in moves one unit from pending to users exactly when the name is found and the id fresh; the sum stays for a fresh id |
| Rooms.ReserveTakesOneIff | play/sample/alpha/app/front/room_actor.cpp:38-51 | a reservation takes a unit exactly when there is room and its id is fresh |
| Rooms.CheckInStoresUser | play/sample/alpha/app/front/room_actor.cpp:53-72 | a check-in that finds the name takes away the reservation the name led to and stores the new user, who is found by id and, if no other user has them, by session and name; a used id leaves the users as they are |
| Rooms.CheckInRefused | play/sample/alpha/app/front/room_actor.cpp:74-79 | a check-in under a name that leads to no reservation changes nothing |
| Rooms.ReserveStoresUser | play/sample/alpha/app/front/room_actor.cpp:38-51 | a reservation that finds room waits as it is, found by its name unless that is taken; a full room changes nothing |
| Rooms.LeaveRemoves | play/sample/alpha/app/front/room_actor.cpp:6-13 | leaving takes away the user of that id and nobody else |
| Rooms.ReservedIsLetIn | play/sample/alpha/app/front/room_actor.cpp:38-80 | who reserved under an unused name is let in by the first check-in of that name, whatever else happens before |
| Rooms.ReserveStrandsIff | play/sample/alpha/app/front/room_actor.cpp:38-51 | a reservation is one its name does not lead to exactly when the name index has an entry for that name already |
| Rooms.StrandedForever | play/sample/alpha/app/front/room_actor.cpp:53-80 | no run ever releases such a reservation |
| Rooms.RoomActor.DoReserve | play/sample/alpha/app/front/room_actor.cpp:38-51 | adds to pending and answers success while there is room, else room full |
| Rooms.RoomActor.DoCheckIn | play/sample/alpha/app/front/room_actor.cpp:53-80 | moves the user, or answers not found |
| Rooms.RoomActor.DelUser | play/sample/alpha/app/front/room_actor.cpp:6-13 | removes the user of that id |
| ObjectPools.RawIsPeak | play/base/object_pool.hpp:38-59 | from any state, the blocks taken from the heap are the most objects ever live at once |
| ObjectPools.PoolFromStart | play/base/object_pool.hpp:21-59 | on every history pooled and live blocks are disjoint, together as many as the heap gave, and the counters differ by the live ones |
| ObjectPools.PoolSizeIsRightIff | play/base/object_pool.hpp:53-72 | after every history the reported size exceeds the true one by the pooled blocks reused since the last release |
| ObjectPools.FirstInFirstOut | play/base/object_pool.hpp:38-59 | on every history the blocks handed out again, followed by those pooled, are those returned, in that order |
| ObjectPools.ConstructMakesLive | play/base/object_pool.hpp:38-51 | the block that has been pooled longest comes into use, and one from the heap only if none is pooled |
| ObjectPools.CountersCount | play/base/object_pool.hpp:38-59 | the two counters count constructions and releases |
| ObjectPools.ObjectPool.Construct | play/base/object_pool.hpp:38-51 | takes the oldest pooled block, or a new one if none is pooled |
| ObjectPools.ObjectPool.Release | play/base/object_pool.hpp:53-59 | the block joins the end of the pool |
| Snowflake.UniqueIff | play/base/dynamic_snowflake.hpp:31-42 | the first n ids differ for every clock exactly when n is at most 2^24 |
| Snowflake.CollideIff | play/base/dynamic_snowflake.hpp:31-42 | two counter values can give one id exactly when they agree in the low 24 bits |
| Snowflake.DynamicSnowflake.Next | play/base/dynamic_snowflake.hpp:31-42 | counts modulo 2^32 and ors the shifted clock with the counter |

## Left out

- Sockets, asio, io_context, threads, mutexes, strands and timers: steps are atomic, write completions and received chunks are events.
- The secure protocol, its handshake and cipher, and the stream protocol; the plain protocol sends no handshake, so session start and `send_handshake` add nothing.
- FlatBuffers packing (`pulse_fb`) and the generated headers: frames are opaque values, and sending a request and registering its call are one step.
- `play/db`, JSON reading, logging, error texts, the act factory, blackboard, bots, main programs, and the other alpha actors.
- `start`, `connect`, `once`, `repeat` and `inherit_session` of pulse: they start I/O or timers, or amount to `with_session`.
- Destruction of pulses, and destroying a parent before its child: the model keeps every pulse alive.
- Pulse.Pulse.AsChild: attaching a pulse that has a mode, and so perhaps a runner of its own, or a parent, or roots its own new parent, is excluded by `CanAttach`, because the tree would then hold several runners, or list a pulse at two parents.
- Pulse.Pulse.AsRoot: giving a pulse with a parent the mode of a root is excluded, because its stop would then leave it listed at that parent.
- Exceptions thrown by subscribers, session handlers and constructors of pooled objects.
- CallLedger.EveryCallSettlesOnce: responses that match no outstanding call take the front of an empty queue; such runs are undefined and excluded, as `ResponseDefinedIff` says. So they are from PulseProcess.EveryRunSettlesOnce.
- `PulseProcess` keeps one queue for all runners and lets any posted callback run next, which covers runners with and without threads and strands; what application callbacks do is further events.
- The root of a flow that is serial is taken for the flow itself, whose `exit` stops the bot; other composite roots ignore it.
- Link.FramesSentAreFramesDelivered: needs complete writes, which the session relies on but does not check; `CompleteKeepsOrderIff` says when a completion keeps the order.
- Received sizes are not limited: `max_recv_size` is never read by the source either.
- The topic serializer gets the payload length as its buffer length; the check on it only logs.
- Loading acts: a composite act's children are given, nonempty and loaded once; activating it again would append a second copy of them in the source.
- Leaf acts that fail to activate; what a leaf does on update beyond one signal.
- FlowRun.SerialFlowIsOneLine: trees of serial acts; for parallel acts see `UpdatesKeepOrder` and `ParallelUpdateBreaksChain`.
- `find`, `is_self` and the path predicates are functions on the map of acts, not methods of the class.
- Object lifetime in `actor_container::del`, which reads the iterator after erasing it: keys are read first.
- Actors' keys do not change while stored; the room's answers list no user names.
- ObjectPools.PoolFromStart: counters are unbounded, and `destroy` of the pool itself is left out.
- Snowflake.DynamicSnowflake.Next: the clock is any sequence of millisecond readings.
