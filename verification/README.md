# Verified models of the algorithms and protocols in procodes

The repository is a collection of small programs. This project models the ones with real algorithmic or
protocol content and proves what they promise.

| files | what they model |
|---|---|
| `ChatProtocol.dfy`, `ChatSafety.dfy`, `ChatProgress.dfy`, `ChatBroadcaster.dfy` | the chat server `go_chat`: handlers, writers and one broadcaster over unbuffered channels |
| `TopoSort.dfy`, `TopoOrder.dfy`, `TopoSorter.dfy` | topological sort by depth-first search, `go_toposort` |
| `CenterSpec.dfy`, `CenterCommands.dfy`, `CenterServer.dfy`, `CenterProtocol.dfy`, `CenterSafety.dfy`, `CenterProgress.dfy` | the game server `cgss`: sessions over a two-way channel, a locked player list, bounded player queues |
| `Bcd.dfy`, `KeyDerivation.dfy` | BCD packing of subscriber numbers and the key derived from them, `strtest.erl` |
| `TrackingAreas.dfy` | overlapping blocks of tracking-area codes, `proctest.erl` |
| `CoinExchange.dfy` | greedy and exhaustive change, `erlang_league.erl` |
| `CorePinning.dfy` | the core-assignment loop of the `otp` service script |
| `FanIn.dfy` | fetching N URLs over one channel, `go_fetchall` |
| `Arithmetic.dfy`, `Collections.dfy` | facts about products and quotients, `Option` and `Reverse`, shared by several of them |

Goroutines that meet on channels are modelled as step relations: `Enabled` says which actions a state allows,
`Apply` what each does, and a run is any sequence of enabled actions. Every interleaving is a run, and so is every
iteration order of a Go map. A Go panic (a send on a closed channel, a second close) is part of the state, so its
absence is proved and not assumed. What an action sequence cannot show, the update in place of one object's fields,
is modelled beside it by classes with loops: `ChatBroadcaster.Broadcaster`, `CenterServer.Server` and
`CenterServer.Player`. The game server object is proved to be one step of the sequential server per call
(`CenterServer.Server.Handle`); the chat broadcaster object keeps its own log and agrees with the protocol on what each
channel was sent (`ChatBroadcaster.SentIsReceived`). The sort and the pinning loop are methods proved against functions; the Erlang code is pure and
becomes functions.

In the game server protocol a critical section is several steps: a writer takes the lock, loads the list of players,
and stores a list computed from what it loaded; a reader takes the lock, tests the length, and encodes the list. The
history of a run is the order in which operations acquired the lock. That nothing changes the list between load and
store is proved from the lock (`CenterSafety.SnapshotIsCurrent`), and the agreement with the sequential server rests on
it.

Two promises turned out to hold only under a condition, which is proved exactly:

- `removePlayer` is meant to drop the player it finds, at index i of n. On any list it does so if and only if i is 0,
  or i is the exact middle (2i = n - 1) of a list whose entries 1 to i are repeated after i and whose first entry also
  stands at i - 1 (`CenterSpec.RemovalRightIff`). Over whole histories the server is the intended one after every
  operation if and only if every removal that found a player found it at index 0 (`CenterSpec.IntendedIffAtHead`). With
  two players listed, removing the second empties the list (`CenterSpec.RemovingSecondOfTwoEmptiesList`). The protocol
  results hold for runs with any requests, with the code's removal as it is; only `PlayerHasSuffixOfLog` is about
  histories that meet the condition.
- The derived key identifies the number among numbers with the same digit count (`KeyDerivation.KeyInjective`), but not
  across digit counts: of all numbers that get a key, exactly those ending in eight zeros share theirs with themselves
  followed by more zeros (`KeyDerivation.KeyCollisions`), for example 100000000 and 1000000000
  (`KeyDerivation.OneKeyForTwoNumbers`).

Assumptions: writes to a connection and HTTP requests complete; JSON is a set of functions, of which only the encoding
of requests and responses has to be exact (`CenterProtocol.Exact`); each session of the game server has one caller at a
time, which closes it after its last call.

## Model

| member | source | states |
|---|---|---|
| ChatSafety.OneGlobalOrder | golang/go_chat/src/go_chat.go:35-73 | In every reachable state a client has taken its greeting and then exactly the stretch of the one broadcast log from its entering to its leaving step, or to the log's end short of a message still being delivered to it |
| ChatSafety.StretchStartsAtEntering | golang/go_chat/src/go_chat.go:60-61 | However the run goes on, the stretch starts at the length the log had at the entering step |
| ChatSafety.StretchEndsAtLeaving | golang/go_chat/src/go_chat.go:62-64 | And it ends at the length the log had at the leaving step |
| ChatSafety.ClientsAgree | golang/go_chat/src/go_chat.go:52-67 | Two clients received the same text at every log position both are due |
| ChatSafety.NoPanic | golang/go_chat/src/go_chat.go:39-67 | No run sends on a closed channel or closes one twice; a closed channel has left the client map and no handler or broadcaster holds a pending send to it |
| ChatSafety.OwnMessagesInOrder | golang/go_chat/src/go_chat.go:40-48 | A connection's log entries are a prefix of arrival, lines, departure; of these it receives only the lines, and all of them once it has left |
| ChatSafety.LoggedTexts | golang/go_chat/src/go_chat.go:38-48 | The texts themselves: a connection's log entries are "who has arrived", "who: line" for its lines in the order typed, and "who has left"; those it receives are its lines in that order |
| ChatSafety.GreetedFirst | golang/go_chat/src/go_chat.go:38-39 | The first text a client receives is "You are who" |
| ChatSafety.SafeStep | golang/go_chat/src/go_chat.go:35-73 | Every step keeps the invariant behind the four results above |
| ChatProgress.NoDeadlock | golang/go_chat/src/go_chat.go:35-73 | A reachable state has an internal step exactly when it is not quiet: quiet means broadcaster idle, handlers waiting for input or done, no writer mid-write or left over after its channel closed |
| ChatProgress.StepDecreases | golang/go_chat/src/go_chat.go:35-73 | Every step lowers one rank built from the handlers' remaining steps, pending deliveries and writes |
| ChatProgress.EveryRunEnds | golang/go_chat/src/go_chat.go:35-73 | With N connections a run has at most (2N+2) times the total of 8 + 2 per line steps |
| ChatProgress.FinishedRun | golang/go_chat/src/go_chat.go:35-73 | A run that cannot go on has an empty client map, every channel closed, every writer exited, every arrival, line and departure in the log in order, and every stream complete |
| ChatBroadcaster.Broadcaster.OnMessage | golang/go_chat/src/go_chat.go:56-59 | Whatever the map order, each live client is sent the message once, and every channel ever entered still holds its contiguous stretch of the log |
| ChatBroadcaster.Broadcaster.SendToAll | golang/go_chat/src/go_chat.go:57-59 | The range loop sends the message exactly once to each client |
| ChatBroadcaster.Broadcaster.OnEntering | golang/go_chat/src/go_chat.go:60-61 | Entering adds the channel, whose stretch of the log starts here |
| ChatBroadcaster.Broadcaster.OnLeaving | golang/go_chat/src/go_chat.go:62-64 | Leaving removes and closes the channel, whose stretch of the log ends here |
| ChatBroadcaster.SentIsReceived | golang/go_chat/src/go_chat.go:52-73 | With the same log and the same entering and leaving points, the object's channel was sent exactly what the protocol's writer received, and is closed in both or neither |
| TopoSort.EdgeOrder | golang/go_toposort/src/go_toposort.go:31-51 | On any graph, each prerequisite comes strictly before its course in the output or reaches the course |
| TopoSort.OutputsEveryNodeOnce | golang/go_toposort/src/go_toposort.go:31-51 | The output lists each key and each listed prerequisite exactly once and nothing else |
| TopoSort.TopologicalIffAcyclic | golang/go_toposort/src/go_toposort.go:31-51 | The output is a full topological order if and only if the graph is acyclic |
| TopoSort.VisitAllKeepsOrder | golang/go_toposort/src/go_toposort.go:35-43 | Visiting keeps the grey/black invariant: seen is the call stack plus the output, finished nodes respect their edges and are closed under them |
| TopoSort.VisitKeepsOrder | golang/go_toposort/src/go_toposort.go:38-40 | So does marking, visiting and appending one unseen item |
| TopoOrder.VisitAllDepthFirst | golang/go_toposort/src/go_toposort.go:35-43 | Whatever was seen before, items take turns from first to last: what the first i newly reach is a prefix of what is added, and a new item's segment holds its prerequisites in turn, in their listed order, and then the item |
| TopoOrder.DepthFirstUnique | golang/go_toposort/src/go_toposort.go:35-43 | Only one sequence is such an output |
| TopoOrder.KeysInTurn | golang/go_toposort/src/go_toposort.go:48-50 | For every i, what the first i keys reach is a prefix of the output |
| TopoSorter.LeqIs | golang/go_toposort/src/go_toposort.go:48 | The order of the keys: a string before its extensions, and otherwise the smaller character at the first difference |
| TopoSorter.Sorter.VisitAll | golang/go_toposort/src/go_toposort.go:35-43 | The closure's loop and recursion, which terminate on every finite graph, update seen and order as the function does, and append the depth-first output of the items for what was seen before |
| TopoSorter.EnumerationsSortAlike | golang/go_toposort/src/go_toposort.go:44-48 | Sorting the keys removes every trace of the map's iteration order |
| TopoSorter.Sort | golang/go_toposort/src/go_toposort.go:31-51 | The result is the same for every enumeration of the keys: the depth-first output for the keys in ascending order. It lists every node once, respects every edge off cycles, and is topological exactly on acyclic graphs |
| CenterSafety.StrictAlternation | golang/cgss/src/ipc/client.go:17-40 | On each two-way channel the client waits exactly while the worker is busy with its request, so sends and receives alternate |
| CenterSafety.Linearizable | golang/cgss/src/ipc/server.go:30-57 | The k-th call of a session returns the sequential server's answer to its k-th request, all sessions' operations taken in the order they acquired the lock |
| CenterSafety.CallObeys | golang/cgss/src/cg/center.go:37-137 | Where a call's operation stands in the history, the statement of its command word holds of the sequential server before it, after it, and of the answer the call returned |
| CenterProtocol.TextHandled | golang/cgss/src/ipc/server.go:33-44 | Only the text CLOSE ends a session; an unreadable text is answered 404 with an empty command |
| CenterSafety.SnapshotIsCurrent | golang/cgss/src/cg/center.go:45-105 | The list a writer loaded is still the list, and the list a reader found non-empty still is, for as long as the lock is held |
| CenterSafety.EffectBetweenCallAndReturn | golang/cgss/src/ipc/client.go:17-36 | A session's operations in the history are those of its returned calls, and at most the one being waited for besides |
| CenterSafety.RealTimeOrder | golang/cgss/src/ipc/client.go:17-36 | When one call has returned before another is made, its operation precedes the other's in the history of every later state |
| CenterSafety.MutualExclusion | golang/cgss/src/cg/center.go:37-107 | Writers exclude each other and all readers |
| CenterSafety.PlayersFollowHistory | golang/cgss/src/cg/center.go:88-107 | The list is the sequential one, but for the last operation while its writer has not stored; no queue exceeds 1024, and a player's taken and queued messages plus those the broadcast in progress owes are what the sequential server sent it |
| CenterSafety.PlayerHasSuffixOfLog | golang/cgss/src/cg/center.go:88-107 | When all removals are at the head, a player's taken and queued messages are a stretch of the broadcast log from its join point; for a listed player to the log's end, short of at most the one broadcast that has the lock |
| CenterSafety.SafeStep | golang/cgss/src/cg/center.go:37-137 | Every step keeps channel discipline, lock discipline and agreement with the sequential server |
| CenterProgress.NoDeadlock | golang/cgss/src/cg/center.go:76-107 | A reachable state can step exactly when it is not finished, also under a lock that lets waiting writers go first |
| CenterProgress.FullQueueDrains | golang/cgss/src/cg/player.go:15-27 | When a broadcast is held up by a full queue, that player's consumer can step at once, and then the broadcast can |
| CenterProgress.BroadcastReleased | golang/cgss/src/cg/center.go:98-101 | However the run goes on, once that consumer has taken a message the send is possible, and it stays possible until it is made |
| CenterProgress.EveryRunEnds | golang/cgss/src/ipc/server.go:33-51 | With a stages, one per session and eight per request, a run has at most 2^(a+1) - a - 2 steps; the powers come from removals, whose slices can double the list |
| CenterProgress.FinishedRun | golang/cgss/src/ipc/server.go:30-57 | A run that cannot go on has answered every request as the sequential server does, and every player has taken all its messages |
| CenterSpec.HeadRemovalsUpToDate | golang/cgss/src/cg/center.go:37-107 | When all removals are at the head, the list is the newest players in order, each sent exactly the broadcasts since it joined, and removed players the first few of those |
| CenterSpec.NoRemovalAllPresent | golang/cgss/src/cg/center.go:37-51 | Without removals everybody stays listed and each inbox is the broadcast log from the join point |
| CenterSpec.IntendedIffAtHead | golang/cgss/src/cg/center.go:53-74 | Over a whole history the code's removals amount to dropping exactly the players found if and only if each was found at the head |
| CenterSpec.RemovalRightIff | golang/cgss/src/cg/center.go:57-69 | On every list the slices drop exactly the player found if and only if it is first, or in the middle of a list that repeats itself as said above |
| CenterSpec.RemovingSecondOfTwoEmptiesList | golang/cgss/src/cg/center.go:57-69 | After two players were added, removing the second leaves nobody in the list |
| CenterSpec.FirstNamed | golang/cgss/src/cg/center.go:57-58 | The first player of that name, or none |
| CenterCommands.StepObeys | golang/cgss/src/cg/center.go:37-137 | Per command word: addplayer puts the profile last and answers 200; removeplayer answers 200 exactly if someone of that name is listed and takes the first one out as the slices do, else "Player not found."; listplayer answers the listing or "No player online."; broadcast sends one copy per place in the list; other words get 404 |
| CenterCommands.ObeysUnique | golang/cgss/src/cg/center.go:37-137 | That statement determines the next state and the answer |
| CenterCommands.RemovedLeaves | golang/cgss/src/cg/center.go:59-67 | What the slices leave at every index: all others for the head, all but the last two for the last, and otherwise everybody up to two before the player followed by the list again up to it |
| CenterServer.Player.Push | golang/cgss/src/cg/player.go:15-27 | A send appends to what the player is ever sent and never overfills the queue, however much the consumer takes meanwhile |
| CenterServer.Player.Consume | golang/cgss/src/cg/player.go:20-23 | The consumer takes the oldest message |
| CenterServer.Server.AddPlayer | golang/cgss/src/cg/center.go:37-51 | A decodable profile appends one fresh player and is the sequential server's Add; otherwise the error is returned and nothing changes |
| CenterServer.Server.RemovePlayer | golang/cgss/src/cg/center.go:53-74 | The search and the slices are the sequential server's Remove: the first player of that name leaves the list as the slices do it, entry by entry, or "Player not found." and nothing changes |
| CenterServer.Server.Broadcast | golang/cgss/src/cg/center.go:88-107 | The loop of sends, whatever the consumers do meanwhile, is the sequential server's Send: each player gets the message once per place in the list; malformed input and an empty list give their errors |
| CenterServer.Server.Handle | golang/cgss/src/cg/center.go:76-137 | Every call takes the server the object stands for one step of the sequential server and returns its answer, and meets the statement of its command word; no player object is replaced or dropped from the numbering |
| Bcd.DigitsValue | erlang/strtest.erl:56-64 | The digit list has the value of the number and no leading zero |
| Bcd.PackIs | erlang/strtest.erl:45-53 | The accumulator loop packs digit 2i in the low and 2i+1 in the high nibble, with filler f when missing |
| Bcd.PackedOctets | erlang/strtest.erl:45-64 | Octet i of a packed number is digit 2i plus sixteen times digit 2i+1, or plus f0 when missing |
| Bcd.RoundTrip | erlang/strtest.erl:45-64 | A low-nibble-first decoder that drops the filler gives every number back |
| Bcd.LastOctetTellsParity | erlang/strtest.erl:28-40 | The last octet is 0xf0 or more exactly when the digit count is odd |
| KeyDerivation.SwapDigitsIs | erlang/strtest.erl:67-71 | Position by position, the octets reversed with nibbles swapped |
| KeyDerivation.SwapAndShiftIs | erlang/strtest.erl:74-77 | Position by position, each high nibble beside the low nibble carried over |
| KeyDerivation.KeyLayout | erlang/strtest.erl:18-43 | For 1 to 16 digits of either parity: the last eight digits in plain BCD (of fewer than eight, all or all but the first), all digits in plain BCD zero-padded to 8 octets, then 12 34 56 78 |
| KeyDerivation.KeyOctets | erlang/strtest.erl:18-43 | The same as numbers, octet by octet: sixteen times one digit plus the next, and 12 34 56 78 at the end |
| KeyDerivation.SixteenOctetsIff | erlang/strtest.erl:18-43 | A key exists exactly for 1 to 16 digits and has 16 octets exactly for 8 to 16 |
| KeyDerivation.KeyInjective | erlang/strtest.erl:18-43 | For a fixed digit count from 1 to 16 equal keys mean equal numbers |
| KeyDerivation.KeyCollisions | erlang/strtest.erl:18-43 | Across digit counts from 1 to 16 keys are equal exactly for a number ending in eight zeros and the same number followed by more zeros |
| KeyDerivation.OneKeyForTwoNumbers | erlang/strtest.erl:18-43 | 100000000 and 1000000000 get the same key |
| TrackingAreas.TacsAreConsecutive | erlang/proctest.erl:22-28 | The listed codes are consecutive and ascending, as many as asked for |
| TrackingAreas.SharedInGroup | erlang/proctest.erl:16-28 | Stations d apart in a group share max(0, TaPerEnB - d(TaPerEnB - Overlap)) codes |
| TrackingAreas.NeighboursShareOverlap | erlang/proctest.erl:16-28 | Neighbours in a group share exactly the overlap |
| TrackingAreas.GroupsDisjoint | erlang/proctest.erl:16-28 | Stations of different groups share nothing |
| TrackingAreas.GapFree | erlang/proctest.erl:16-28 | The first r stations cover an interval from code 1 without gaps |
| TrackingAreas.WholeGroups | erlang/proctest.erl:16-28 | k whole groups cover exactly 1 to k times the group's share |
| CoinExchange.GreedyRemainder | erlang/erlang_league.erl:9-20 | For positive coins in any order the unpaid rest is non-negative and below every coin, and only listed coins are used |
| CoinExchange.TakesAllThatFit | erlang/erlang_league.erl:12-17 | Of the current coin the greedy run takes exactly as many as fit before moving on |
| CoinExchange.TightPurseIsGreedy | erlang/erlang_league.erl:12-20 | For any coins, counts whose lower part is always worth less than the coin above are the greedy result |
| CoinExchange.ListsEveryWayOnce | erlang/erlang_league.erl:42-48 | exchange_help lists exactly the triples paying the total, each once, in ascending order |
| CoinExchange.NumberOfWays | erlang/erlang_league.erl:36-48 | Their number is floor((T^2+8T+26)/20), that is (T+4)^2/20 rounded to nearest |
| CoinExchange.GreedyOptimal | erlang/erlang_league.erl:9-48 | With coins 5, 2, 1 greedy pays the total, is one of the listed ways, and no listed way uses fewer coins |
| CorePinning.Start | shell/otp:149-172 | The loop pins instance i to i modulo the core count in full mode; in half mode to 1 first and then to 1 + 2i modulo the count |
| CorePinning.LoadIs | shell/otp:149-172 | The exact load of every core after any number of instances |
| CorePinning.Balanced | shell/otp:149-172 | Loads of eligible cores differ by at most one and other cores stay empty |
| CorePinning.IdsExist | shell/otp:149-157 | Every id handed out is a core of the machine unless half mode starts on a single core |
| FanIn.InvStep | golang/go_fetchall/src/go_fetchall.go:12-42 | Every step keeps each result tied to its own argument, received at most once |
| FanIn.EveryRunCollectsAll | golang/go_fetchall/src/go_fetchall.go:12-42 | Every interleaving takes 3N+2 steps and ends with main finished, all fetchers returned and one result per argument index |

## Left out

- Channels and goroutines as objects: handlers, writers, sessions and fetchers are step relations on values, so aliasing of channel references is not modelled.
- The chat server after a connection is closed: a text taken off the channel may fail to reach the closed connection; `received` is what was taken.
- Accept errors in the chat server, which are logged and retried.
- Go's lock is modelled by who holds it; its queue of waiters only by the two extremes, any order or writers first.
- A JSON `null` as a player, which leaves a nil player in the list; a decoded player is always a profile.
- `Call` after `Close`, and two callers sharing one client: the two-way channel does not support either.
- The client wrappers in centerclient.go and the command loop in cgss.go: they only translate arguments and print.
- Bcd.IntToList: models numbers from 0; the source also turns negative integers into lists of negative digits.
- TrackingAreas.Tacs: models at least one code per station; the source does not terminate on fewer.
- TrackingAreas.Block: models overlaps from 0 to the block size, groups of at least one station and stations from 1, for which the scheme is meant; `FirstTac` itself truncates like Erlang on all integers.
- CoinExchange.ExchangeHelp: models totals from 0; below that the source lists nothing or fails on its ranges.
- CoinExchange.ExchangeFrom: models positive coins; the source does not terminate on others it can take.
- `exchange_x`, `fibonacci`, `strstart`, `start_proc` and the other printing wrappers.
- Timing, log texts and pipes in the otp script, and the text of the elapsed-time report in go_fetchall.
- The JavaScript, C, C++ and Python samples and the remaining Go programs: user interface, library calls or easy functions.
