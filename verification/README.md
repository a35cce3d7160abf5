# A verified model of the explainer simulations and the embedded standard library

The site carries two bodies of logic, and this project models and proves both.

**The explainer simulations** (`assets/explainer/sim-*.js`) are state machines with a
`create`, events and a `step(s, dt)` that updates one state record. Each has a module with

- a datatype `State`, a snapshot of everything the simulation updates, and a function from
  snapshots to snapshots for every operation;
- a class whose fields are updated in place by methods, loops and splices as in the source,
  whose every method is proved to compute those functions and whose public methods keep the
  invariant;
- an invariant kept by every operation, and theorems over every run, where a run is any
  sequence of events and of steps of any length.

Time is real and a frame is capped as in the source. The k-th random draw is `cfg.rand(k)`.
Where a theorem needs to remember something the page does not keep, `State` has a history
field, and the module's comment names it. History fields never influence the others.

| module | subject |
|---|---|
| `SimCluster`, `SimClusterSafety`, `SimClusterOrphans`, `SimClusterCounts`, `SimClusterHosts`, `SimClusterCalls`, `SimClusterObject` | a cluster with failure detection, a seat that moves, and slots |
| `SimHeap`, `SimHeapRules` | a tree walk with reference counts, copying, in place or by two tasks |
| `SimRelease`, `SimReleaseRules` | a canary release through a cluster under load |
| `SimMailbox`, `SimMailboxRules` | an actor's mailbox with crashes and one hot deploy |
| `SimTopology`, `SimTopologyRules` | role placement, failover of a single-holder role, and a gated patch |

The modules named `...Rules`, and `SimClusterCounts`, `SimClusterHosts` and `SimClusterCalls`, tell
the same simulations by the clock and by what the page shows, with the source's times and
conditions written out in place of the functions that decide them: when each phase ends, which
host is tried, what each counter counts. `Clocks` holds the time they share.

**The March standard library** (`assets/stdlib/*.js`) is embedded as source text, one module
per file on line 2. These are pure recursive functions and are modelled as functions, loops
as accumulator recursion; `None` stands for a panic. Each has a reference it is proved
against: naive search, a plain sequence, the integers, the real numbers, the calendar, the
set of registered names, or the inverse function.

| module | subject |
|---|---|
| `AhoCorasick`, `AhoCorasickCost` | multi-pattern search with failure links and merged outputs, and what it costs |
| `PersistentVector` (with `Bits`) | a 32-way trie with a tail (`Array` in the source) |
| `BigInts` | base-10000 integers |
| `DateTimes` | the proleptic Gregorian calendar |
| `Decimals` | fixed-point decimals with half-up rounding |
| `ConsistentHash` | a hash ring with virtual nodes |
| `Crdt` | grow-only and up-down counters |
| `Channel` | a wire-format printer and a parser by text search |
| `Bytes`, `Base64` | hexadecimal, Base64, its URL alphabet and MIME lines |

`Options`, `Lists`, `Integers`, `Strings` and `Simulations` hold what these share: the failure
type, reversal, March's integer and string builtins, and the frame cap.

Where the code departs from its comments, or from what they suggest, the condition is
stated exactly and an input shows it:

- The ring's search answers the *last* virtual node when none reaches the target; its comment
  says the first. The two agree exactly when some virtual node reaches the target or there is
  at most one (`ConsistentHash.DocumentedIff`, `ConsistentHash.WrapsToLast`).
- The calendar counts no leap years before year 1, so its laws hold exactly from 0001-01-01
  (`DateTimes.TimestampRoundTrip`, `DateTimes.CalendarRoundTrip`).
- A crash that finds the deploy marker queued loses it for good, and then the new code never
  runs (`SimMailbox.LostIff`, `SimMailbox.RunHandles`, `SimMailbox.MarkerCanBeLost`).
- A session draining from an older holder loses its Ledger slot, but stays served, exactly
  when an event vacates the seat: a crash of the answering holder, the return of a hung one, or
  a step that gives one up (`SimClusterOrphans.OrphanedIff`, `SimClusterOrphans.OrphanReached`).
- The stop of a host is meant to cancel every session running there. It cancels exactly those
  whose every-host or single-role host it is; an initiator may stop and leave its sessions
  running, with legs to a host that is down (`SimTopology.RunInitiator`, `SimTopology.InitiatorLeaves`).
- A quotient is said to be exact up to truncation or rounding. With a divisor of negative scale,
  which rounding to negative places makes, the dividend may be left unscaled; the exact
  conditions are in `Decimals.DivTruncates` and `Decimals.DivRoundIs`, an input in
  `Decimals.ScaleLost`.

## Model

| member | source | states |
|---|---|---|
| AhoCorasick.InsertAllTrie | assets/stdlib/aho_corasick.js:2 | `insert_all` leaves a trie whose nodes and edges are exactly the prefixes of the non-empty patterns, each pattern's own output at the end of its path and nowhere else |
| AhoCorasick.TriePathsAre | assets/stdlib/aho_corasick.js:2 | the paths of the trie are exactly the prefixes of the patterns |
| AhoCorasick.FindFailLongest | assets/stdlib/aho_corasick.js:2 | `find_fail` finds the node of the longest suffix of the path extended by the byte that is itself a path, and ends because each fall back is to a shallower node |
| AhoCorasick.BfsStep | assets/stdlib/aho_corasick.js:2 | one node taken off the queue keeps the breadth-first invariant: shallower nodes final, queue in depth order, each node queued once |
| AhoCorasick.BfsLoopFinishes | assets/stdlib/aho_corasick.js:2 | once the queue is empty every node has been reached and its failure link and outputs are final |
| AhoCorasick.BuildFinishes | assets/stdlib/aho_corasick.js:2 | after `build` every failure link is the longest proper suffix that is a path, and a node's outputs are exactly the patterns that are suffixes of its path |
| AhoCorasick.ScanStepInRange | assets/stdlib/aho_corasick.js:2 | no scan of a built automaton can panic |
| AhoCorasick.ScanStepLongest | assets/stdlib/aho_corasick.js:2 | the scan state is always the longest suffix of the text read so far that is a path |
| AhoCorasick.FindAllIsNaive | assets/stdlib/aho_corasick.js:2 | `find_all` on a built automaton equals naive search of every window for every pattern, order included |
| AhoCorasick.NaiveComplete | assets/stdlib/aho_corasick.js:2 | naive search yields exactly the occurrences, sorted |
| AhoCorasick.FindAllExact | assets/stdlib/aho_corasick.js:2 | every occurrence of every non-empty pattern is reported exactly once and nothing else, by rising stop and at equal stops longest first |
| AhoCorasick.FindFirstIsHead | assets/stdlib/aho_corasick.js:2 | `find_first` is the head of `find_all`, and `matches` says whether it has one |
| AhoCorasickCost.BuildIsLinear | assets/stdlib/aho_corasick.js:2 | `build` makes at most one node per pattern byte besides the root, and at most two `find_fail` calls per pattern byte over the whole breadth-first pass |
| AhoCorasickCost.ScanIsLinear | assets/stdlib/aho_corasick.js:2 | a whole scan makes at most two `scan_step` calls per byte, however the patterns overlap |
| PersistentVector.TrieGetAt | assets/stdlib/array.js:2 | `trie_get` descends to the element its index bits select |
| PersistentVector.TrieUpdateAt | assets/stdlib/array.js:2 | path copying down and up the explicit stack replaces that element and shares the rest |
| PersistentVector.InsertDownIs | assets/stdlib/array.js:2 | `insert_down` and `insert_up` put a full leaf at the next place of a left-packed trie that has room |
| PersistentVector.PushLeafIs | assets/stdlib/array.js:2 | `push_leaf` keeps the trie canonical and raises the root exactly when it is full |
| PersistentVector.PopDownIs | assets/stdlib/array.js:2 | `pop_down` and `pop_up` take the last leaf off and leave the canonical trie of the rest |
| PersistentVector.PopLeafIs | assets/stdlib/array.js:2 | collapsing the root by one level is enough after a pop |
| PersistentVector.GroupsAre | assets/stdlib/array.js:2 | the single pass of `group32` yields the consecutive groups of 32, the last one shorter |
| PersistentVector.FromListIs | assets/stdlib/array.js:2 | `from_list` builds the canonical vector of the list |
| PersistentVector.BulkIsPushed | assets/stdlib/array.js:2 | `from_list` equals pushing the elements one at a time, node for node |
| PersistentVector.GetIs | assets/stdlib/array.js:2 | `get` panics exactly out of bounds and otherwise reads the sequence |
| PersistentVector.SetIs | assets/stdlib/array.js:2 | `set` panics exactly out of bounds and otherwise gives the canonical vector of the updated sequence |
| PersistentVector.PushIs | assets/stdlib/array.js:2 | `push` never panics and gives the canonical vector of the longer sequence |
| PersistentVector.PopIs | assets/stdlib/array.js:2 | `pop` panics exactly on the empty vector and otherwise gives back the last element and the canonical rest |
| PersistentVector.FoldLeftIs | assets/stdlib/array.js:2 | `fold_left` folds the elements in index order |
| PersistentVector.ToListIs | assets/stdlib/array.js:2 | `to_list` is the sequence |
| PersistentVector.VectorRefinesSequence | assets/stdlib/array.js:2 | any mix of `push`, `pop` and `set` on any built vector panics exactly when the sequence operation is out of bounds, and otherwise ends in the one canonical vector of the resulting sequence |
| PersistentVector.PopUndoesPush | assets/stdlib/array.js:2 | `pop(push(v, x))` is `v` itself, node for node, and `x` |
| PersistentVector.SameShapeIffSameLength | assets/stdlib/array.js:2 | `debug_same_shape` holds of two built vectors exactly when their lengths agree |
| SimClusterObject.Cluster.constructor | assets/explainer/sim-cluster.js:37-51 | a new cluster: every host up, the seat on the last books host, every slot free; the invariant holds |
| SimClusterObject.Cluster.RouteSession | assets/explainer/sim-cluster.js:77-83 | the loop stops at the first host still worth trying, or the session is refused |
| SimClusterObject.Cluster.ArriveSession | assets/explainer/sim-cluster.js:85-94 | on arrival a session takes a stock slot and a Ledger slot, bounces on, or is refused |
| SimClusterSafety.ArriveKeeps | assets/explainer/sim-cluster.js:85-94 | however an arrival ends, every session keeps what it owned and the new one owns both its slots or nothing |
| SimClusterObject.Cluster.CancelSessions | assets/explainer/sim-cluster.js:97-103 | every session served by a failed host, as Stock or as Ledger, is released, cancelled and removed, and no other |
| SimClusterObject.Cluster.GiveUpOn | assets/explainer/sim-cluster.js:107-112 | a host declared dead loses its sessions, and the seat if it held it |
| SimClusterSafety.DeclareDeadKeeps | assets/explainer/sim-cluster.js:107-112 | declaring a host dead keeps ownership, changes no other host but for freed slots, and empties the seat exactly if the host held it |
| SimClusterObject.Cluster.SettleSeat | assets/explainer/sim-cluster.js:142-151 | the seat goes to the highest-ranked host that counts, once its time has come |
| SimClusterObject.Cluster.StepBy | assets/explainer/sim-cluster.js:153-187 | one frame, in the source's order: hosts, seat, callers, sessions; the invariant is kept |
| SimClusterSafety.ReleaseLoosens | assets/explainer/sim-cluster.js:67-72 | giving a served session's slots back leaves it holding nothing and every other session owning what it owned |
| SimClusterSafety.RefuseKeeps | assets/explainer/sim-cluster.js:74 | a refusal keeps ownership and the count of sessions |
| SimClusterSafety.KillKeeps | assets/explainer/sim-cluster.js:114-125 | a crash or a hang keeps the invariant: nobody stays served by a dead host, and an emptied seat has its waiting time set |
| SimClusterSafety.ReviveKeeps | assets/explainer/sim-cluster.js:127-132 | so does the return of a host, hung ones included |
| SimClusterSafety.SessionStepKeeps | assets/explainer/sim-cluster.js:179-187 | so does the step of one session, whatever its phase |
| SimClusterSafety.RunKeeps | assets/explainer/sim-cluster.js:153-187 | the invariant holds through every run of steps, kills and revives |
| SimClusterSafety.RunOwnership | assets/explainer/sim-cluster.js:67-112 | in every run occupied Stock slots and serving sessions correspond one to one, every occupied Ledger slot belongs to exactly one serving session recording it, nobody is served by a dead or restarting host, and started = completed + cancelled + refused + in flight |
| SimClusterSafety.LedgerSlotIff | assets/explainer/sim-cluster.js:107-151 | a serving session still owns the Ledger slot it recorded exactly when the slots have not been thrown away since it took it |
| SimClusterOrphans.ResetsIff | assets/explainer/sim-cluster.js:107-132 | the Ledger's slots are thrown away by exactly three kinds of event: a crash of the answering holder, the return of the hung holder, and a step in which it is overdue |
| SimClusterOrphans.OrphanedIff | assets/explainer/sim-cluster.js:107-187 | a session served before and after an event owns its Ledger slot after it exactly if it did before and the event is not one of those |
| SimClusterOrphans.CancelledIff | assets/explainer/sim-cluster.js:97-132 | a failure or a return cancels exactly the sessions its host was serving, in either role, and only if it takes the host down |
| SimClusterOrphans.VacatedOrphans | assets/explainer/sim-cluster.js:97-132 | when either vacates the seat, every session draining from an older holder stays served without its Ledger slot |
| SimClusterOrphans.RunOrphans | assets/explainer/sim-cluster.js:107-187 | the same between any two moments of any run |
| SimClusterOrphans.OrphanReached | assets/explainer/sim-cluster.js:114-187 | a run from the start in which the upper host crashes, returns, takes the seat and crashes leaves a served session without its slot |
| SimClusterSafety.SeatMoves | assets/explainer/sim-cluster.js:142-151 | a held seat moves in a step only to a higher-ranked host that counts, or after its holder was given up on; an empty one is filled only once its waiting time is over |
| SimClusterSafety.SeatRanksFirst | assets/explainer/sim-cluster.js:135-151 | after every step the holder ranks at least as high as every host that counts, and the seat is empty beside one only while its waiting time runs |
| SimClusterSafety.HostsStepSeat | assets/explainer/sim-cluster.js:157-177 | going through the hosts can only empty the seat, and only when its holder has been silent for the notice and suspicion times |
| SimClusterSafety.RunSeatSafe | assets/explainer/sim-cluster.js:107-151 | in every run the seat is empty or on a books host that is up or suspect, and an emptied seat is not refilled before the failure's due time |
| SimClusterSafety.RunOnward | assets/explainer/sim-cluster.js:77-94 | over any run a session's place in its order of hosts only grows, its phases go one way, and one service keeps its Ledger slot |
| SimClusterSafety.NoHostTwice | assets/explainer/sim-cluster.js:77-94 | a session met again later is at the same host or at one it had not tried before |
| SimClusterCounts.EventCounts | assets/explainer/sim-cluster.js:74-187 | in every event `completed` rises by exactly the sessions that leave the list from their way back, `cancelled` by those that leave it while served, `refused` by those that leave it on their way out and the new numbers that never come on it, and `started` by the new numbers |
| SimClusterCounts.RunCounts | assets/explainer/sim-cluster.js:74-187 | the same over every run: each counter on its own is the number of sessions that left in its way |
| SimClusterHosts.StepHosts | assets/explainer/sim-cluster.js:157-165 | in a frame a hung host turns suspect and then dead, and a returning one up in its next incarnation, exactly when its time has come; nothing else about a host changes but its slots |
| SimClusterHosts.RunDetects | assets/explainer/sim-cluster.js:114-165 | however time is cut into frames, a host that hangs is up until the notice time has passed, suspect for the suspicion time, and dead from then on |
| SimClusterHosts.RunReturns | assets/explainer/sim-cluster.js:127-165 | a dead host that returns is up again exactly when its restart time has passed, as its next incarnation |
| SimClusterHosts.FailIs | assets/explainer/sim-cluster.js:114-125 | a crash or a hang, written out: status, time, seat and the time its move is due; a host that does not answer is past failing |
| SimClusterHosts.ReturnIs | assets/explainer/sim-cluster.js:127-132 | a return, written out: a hung host is given up on first, and one that answers or is on its way back is left alone |
| SimClusterHosts.StepSeat | assets/explainer/sim-cluster.js:135-151 | in every frame the holder keeps the seat unless it is dead, the highest host that carries the books, is up and answers, and has been up since the start or for the settle time takes it if it ranks higher, and an empty seat goes to that host once the waiting time is over |
| SimClusterHosts.CreateHosts | assets/explainer/sim-cluster.js:37-51 | at the start every host is up in its first incarnation and the seat is on the highest books host |
| SimClusterCalls.ArriveIs | assets/explainer/sim-cluster.js:77-94 | at a host that is up and answers and has a free slot, with the Ledger up, answering and free, a session takes the first free slot of each and a drawn service time; otherwise it goes on to the next host that is up or suspect, or is refused |
| SimClusterCalls.StepFollows | assets/explainer/sim-cluster.js:97-187 | what a frame makes of a session, by the clock: cancelled while served exactly if one of its hosts is dead after it, waiting while one hangs, completed exactly when its way back is over, and otherwise further on |
| SimClusterCalls.StepCallers | assets/explainer/sim-cluster.js:167-177 | every new number is on its way to the first host worth trying in its own turn, or turned away exactly if there is none |
| SimClusterCalls.RunLoad | assets/explainer/sim-cluster.js:153-177 | in every run as many callers set out as the load asks for in its time |
| SimClusterCalls.RunTimed | assets/explainer/sim-cluster.js:77-94 | in every run the first way and the way back take 0.4 seconds, each further way 0.2, and a service a drawn time |
| DateTimes.YearToDaysIs | assets/stdlib/datetime.js:2 | the closed-form day count is the calendar's from year 1 on, and off by at least a day before |
| DateTimes.DaysInMonthIs | assets/stdlib/datetime.js:2 | `days_in_month` is the calendar's table of month lengths, with February by the rule of 4, 100 and 400 |
| DateTimes.MonthSumIs | assets/stdlib/datetime.js:2 | the month walk adds up the days of the months before |
| DateTimes.DaysToDateIs | assets/stdlib/datetime.js:2 | the year and month searches find the valid date with that day number, in both directions and over any distance |
| DateTimes.DateToDaysIs | assets/stdlib/datetime.js:2 | `date_to_days` is the day number exactly from year 1 on |
| DateTimes.FromTimestampIs | assets/stdlib/datetime.js:2 | every timestamp becomes the valid date and time of its instant |
| DateTimes.TimestampRoundTrip | assets/stdlib/datetime.js:2 | timestamp to calendar and back is the identity exactly from 0001-01-01 on, dates before 1970 included |
| DateTimes.CalendarRoundTrip | assets/stdlib/datetime.js:2 | calendar to timestamp and back is the identity on valid dates exactly from year 1 on |
| DateTimes.TimestampOrder | assets/stdlib/datetime.js:2 | `to_timestamp` is strictly increasing in calendar order but for exactly the colliding pairs, none of them after year 0 |
| DateTimes.CompareIsOrder | assets/stdlib/datetime.js:2 | `compare` is calendar order from year 1 on, and zero only of equals |
| DateTimes.WithZoneKeepsInstant | assets/stdlib/datetime.js:2 | `local_with_zone` keeps the instant exactly when neither it nor the new wall clock falls before year 1 |
| BigInts.NormalizeIs | assets/stdlib/bigint.js:2 | `normalize` keeps the value and drops exactly the leading zero limbs |
| BigInts.NormalUnique | assets/stdlib/bigint.js:2 | every integer has one normal form |
| BigInts.FromIntIs | assets/stdlib/bigint.js:2 | `from_int` reaches the normal form of every integer |
| BigInts.CompareIs | assets/stdlib/bigint.js:2 | `compare` is integer comparison on normal forms |
| BigInts.AddDigitsIs | assets/stdlib/bigint.js:2 | the carry loop adds limb lists of any two lengths |
| BigInts.SubDigitsIs | assets/stdlib/bigint.js:2 | the borrow loop subtracts a smaller limb list |
| BigInts.AddSubIs | assets/stdlib/bigint.js:2 | `add`, `sub` and `negate` are the integer operations and return normal forms |
| BigInts.MulIs | assets/stdlib/bigint.js:2 | schoolbook multiplication is integer multiplication and returns a normal form |
| BigInts.DivModIs | assets/stdlib/bigint.js:2 | for a one-limb divisor `div` and `mod_` are truncated division with a = q*b + r; they panic exactly for a zero or longer divisor |
| BigInts.ToStringIs | assets/stdlib/bigint.js:2 | `to_string` is the decimal expansion |
| BigInts.ProductSmall | assets/march_stdlib_index.js:365 | limb times digit plus carry stays below 10^8, so it fits a 32-bit Int; the type of every carry, borrow and running remainder carries the same bound |
| BigInts.RunningSmall | assets/march_stdlib_index.js:365 | the running value of the long division stays below 10^8 |
| Decimals.Pow10Is | assets/stdlib/decimal.js:2 | `pow10` by squaring is the power of ten, and one for a negative exponent |
| Decimals.AddSubExact | assets/stdlib/decimal.js:2 | `add` and `sub` are exact at the larger scale |
| Decimals.MulExact | assets/stdlib/decimal.js:2 | `mul` is exact |
| Decimals.CompareIs | assets/stdlib/decimal.js:2 | `compare` is the order of the values, independent of scale |
| Decimals.DivTruncates | assets/stdlib/decimal.js:2 | `div` fails on a zero divisor only; its quotient, at `scale(a) + precision` places, is the exact one truncated toward zero exactly when `precision + scale(b) >= 0` or the dividend's coefficient is the smaller in magnitude |
| Decimals.ScaleLost | assets/stdlib/decimal.js:2 | ten divided by the hundred that `round(100, -2)` makes is ten |
| Decimals.RoundIs | assets/stdlib/decimal.js:2 | `round` gives the nearest decimal, halves away from zero, and leaves a decimal that fits alone |
| Decimals.GuardDigit | assets/stdlib/decimal.js:2 | rounding a truncated value by its first dropped digit rounds the exact value |
| Decimals.DivRoundIs | assets/stdlib/decimal.js:2 | `div_round` is the exact rational quotient rounded half away from zero, the guard digit losing nothing, exactly when `precision + 1 + scale(b) >= 0` or the coefficients' quotient rounds to zero; a dividend of negative scale is truncated instead, and the result has the asked scale exactly from scale -1 |
| Decimals.RoundsToUnique | assets/stdlib/decimal.js:2 | there is only one such rounding, so the two above pin their results down |
| Decimals.StringRoundTrip | assets/stdlib/decimal.js:2 | `from_string(to_string(d))` has the same coefficient and scale |
| Decimals.ToStringIs | assets/stdlib/decimal.js:2 | `to_string` writes a minus sign if the coefficient is negative, at least one digit and no needless zero before the dot, and exactly `scale` digits after it |
| Decimals.FromStringIs | assets/stdlib/decimal.js:2 | `from_string` reads any text: the integer it spells without its first dot, or zero if it spells none, at as many places as characters follow the dot |
| ConsistentHash.InsertOrdered | assets/stdlib/consistent_hash.js:2 | `ring_insert` keeps the ring in hash order, equal hashes included |
| ConsistentHash.RunOrdered | assets/stdlib/consistent_hash.js:2 | after any joins and leaves, repeated ones included, the ring is in hash order |
| ConsistentHash.SuccessorIs | assets/stdlib/consistent_hash.js:2 | the search finds the least virtual node at or after the target, and the last one when there is none |
| ConsistentHash.DocumentedIff | assets/stdlib/consistent_hash.js:2 | that is the documented wrap-around to the first virtual node exactly when some virtual node reaches the target or there is at most one |
| ConsistentHash.DocumentedGetIff | assets/stdlib/consistent_hash.js:2 | so `get` answers as documented exactly when some virtual node reaches the key's hash, or the first and the last virtual node belong to equal nodes |
| ConsistentHash.WrapsToLast | assets/stdlib/consistent_hash.js:2 | a ring of two names and a key past both, answered by the second where the documentation promises the first |
| ConsistentHash.AddDisruption | assets/stdlib/consistent_hash.js:2 | adding a node sends every key to its old node or to the new one, whatever the ring |
| ConsistentHash.RemoveDisruption | assets/stdlib/consistent_hash.js:2 | removing a name changes no key held by another name's virtual node |
| ConsistentHash.VirtualNameUnique | assets/stdlib/consistent_hash.js:2 | the hashed text determines name and replica, even when names contain `#` |
| ConsistentHash.AddSettles | assets/stdlib/consistent_hash.js:2 | adding a new name puts exactly its virtual nodes on the ring, in order |
| ConsistentHash.RemoveSettles | assets/stdlib/consistent_hash.js:2 | removing a name takes exactly its virtual nodes off |
| ConsistentHash.GetIs | assets/stdlib/consistent_hash.js:2 | `get` fails exactly on a ring without virtual nodes and otherwise answers a registered node |
| ConsistentHash.RemoveUndoesAdd | assets/stdlib/consistent_hash.js:2 | `remove(add(r, n, v), n)` is `r` |
| ConsistentHash.RunsAgree | assets/stdlib/consistent_hash.js:2 | two runs of joins and leaves that end with the same names end with the same ring |
| Crdt.FoldIsSum | assets/stdlib/crdt.js:2 | `value` is the sum of the slots whatever order the map's fold takes |
| Crdt.MergeIsJoin | assets/stdlib/crdt.js:2 | `merge` is the least upper bound of what two counters have seen |
| Crdt.MergeLaws | assets/stdlib/crdt.js:2 | `merge` is commutative, associative and idempotent |
| Crdt.EqualIs | assets/stdlib/crdt.js:2 | `equal` is slot equality with absent slots as zero, and implies equal values |
| Crdt.MergeRespectsEqual | assets/stdlib/crdt.js:2 | merging cannot tell equal counters apart |
| Crdt.RunKeeps | assets/stdlib/crdt.js:2 | in every run with merges of copies of any age no slot anywhere exceeds what its owner has counted |
| Crdt.OwnerKnowsBest | assets/stdlib/crdt.js:2 | no replica holds more for an actor than that actor's own replica |
| Crdt.ValueNeverDecreases | assets/stdlib/crdt.js:2 | a replica's value never decreases |
| Crdt.MergeAllCounts | assets/stdlib/crdt.js:2 | merging all replicas, in any order, gives exactly what was added and incremented |
| Crdt.PNMergeAllCounts | assets/stdlib/crdt.js:2 | for the up-down counter, the increments minus the decrements |
| SimHeap.PreorderIs | assets/explainer/sim-heap.js:37-44 | the walk meets each cell of the tree once, the root first, parents before children, and what is left of a cell before what is right of it |
| SimHeap.PreorderHas | assets/explainer/sim-heap.js:33-44 | the walk of a subtree meets its cells and no others |
| SimHeap.PreorderSize | assets/explainer/sim-heap.js:30-44 | a cell of row r has a complete tree of depth d - r under it |
| SimHeap.CellCountIs | assets/explainer/sim-heap.js:32 | the tree of depth d has 2^(d+1)-1 cells |
| SimHeap.VisitKeeps | assets/explainer/sim-heap.js:82-90 | a visit to a new cell keeps every count, copy and increment accounted for |
| SimHeap.RunSettled | assets/explainer/sim-heap.js:92-119 | the invariant holds through every run |
| SimHeap.RunAccounts | assets/explainer/sim-heap.js:82-119 | in every run no cell is visited twice; increments are the references beyond the first below the root; in the modes `shared` and `vault` there are two holders and one cell allocated per visit, in `owned` and `parallel` one holder and none; two cursors never meet, and a parallel root is rebuilt last and only after both are done |
| SimHeap.RunOutcome | assets/explainer/sim-heap.js:9-23 | a finished `shared` or `vault` run has allocated 2^(d+1)-1 cells, made 2^(d+1)-2 increments, left every count at two and rewritten nothing; a finished `owned` or `parallel` run has rewritten every cell once, with every count one, and copied and allocated nothing |
| SimHeap.RunTime | assets/explainer/sim-heap.js:155-159 | however time is cut into steps, a run is over exactly when the hold and one visit time per cell walked have passed |
| SimHeapRules.BeginAnew | assets/explainer/sim-heap.js:58-80 | wherever a run begins, all but the clock is as on a tree just built; so is a reset |
| SimHeapRules.RunMode | assets/explainer/sim-heap.js:70-80 | a run stays in its mode through every frame: two holders for `shared` and `vault` and one for the others, two tasks and the plumbing for `parallel` and none for the others |
| SimHeapRules.StepStamps | assets/explainer/sim-heap.js:82-90 | in every frame exactly the cells visited in it are stamped with its time, and so are the copies in the modes with two holders |
| SimHeapRules.RunVisits | assets/explainer/sim-heap.js:64-108 | however a run is cut into frames, the p-th cell of each walk is visited exactly when the hold and p visit times have passed, and the cursor stands at the last cell visited |
| SimHeap.Heap.constructor | assets/explainer/sim-heap.js:48-54 | a new tree, settled |
| SimHeap.Heap.Walk | assets/explainer/sim-heap.js:37-44 | the recursive push yields the pre-order |
| SimHeap.ResetSettles | assets/explainer/sim-heap.js:58-62 | a reset, at any moment of a run, leaves a settled tree |
| SimHeap.Heap.StartRun | assets/explainer/sim-heap.js:70-79 | a run begins in its mode with its cursors, whatever ran before, and is settled |
| SimHeap.Heap.AdvanceCursor | assets/explainer/sim-heap.js:92-108 | the hold, then as many visits as the saved time pays for |
| SimHeap.Heap.StepBy | assets/explainer/sim-heap.js:110-119 | one frame: both cursors, then the root of a finished parallel run; the tree stays settled |
| SimRelease.RunCanaryFirst | assets/explainer/sim-release.js:38-66 | in every run only the canary is new before the rest step ends; halted means the canary failed and exactly the canary is new, complete means all are; no host is new before the canary has been so for the whole window |
| SimRelease.RunOnward | assets/explainer/sim-release.js:53-66 | phases never go back, halted and complete are absorbing, and no host returns to the old code |
| SimRelease.RunAccounts | assets/explainer/sim-release.js:68-92 | started = old replies + new replies + drained + in flight; every service begun on new code ends in a new reply, every one begun on old code in an old reply or drained; a call being served carries its host's code |
| SimReleaseRules.StepPhase | assets/explainer/sim-release.js:53-66 | in every frame a phase ends exactly if its own time, 0.9, 0.6, 0.6, the window or 0.6 seconds, has passed, and the one that follows it begins |
| SimReleaseRules.RunBegins | assets/explainer/sim-release.js:38-42 | a release begins when it is started and not otherwise |
| SimReleaseRules.RunFinishes | assets/explainer/sim-release.js:38-66 | a release that begins ends, however time is cut into frames: halted with the canary alone on new code if the canary fails, complete with every host on it if not |
| SimReleaseRules.StepFollows | assets/explainer/sim-release.js:45-92 | what a frame makes of a call: drained exactly if its host takes a patch while it serves it, answered exactly if its way back is over, otherwise further on, served on the code of its host |
| SimReleaseRules.RunLoad | assets/explainer/sim-release.js:68-78 | in every run as many calls set out as the load asks for in its time |
| SimReleaseRules.RunCalls | assets/explainer/sim-release.js:74-91 | in every run the calls go to the hosts in turn, each has a drawn service time of its own, and its age fits 0.4 seconds out, the service, and 0.4 seconds back |
| SimRelease.PatchServes | assets/explainer/sim-release.js:45-51 | patching a host drains exactly the old services it was giving |
| SimRelease.Release.constructor | assets/explainer/sim-release.js:23-36 | a new release, with the last host that is not the leader as canary |
| SimRelease.Release.StartRelease | assets/explainer/sim-release.js:38-42 | a release begins only once |
| SimRelease.Release.PatchHost | assets/explainer/sim-release.js:45-51 | the patch and the filter that drains |
| SimRelease.ReleaseKeeps | assets/explainer/sim-release.js:55-66 | the release's part of a frame keeps the invariant: each host's code is what the phase says, the canary is watched for its window first, and the calls stay accounted for |
| SimRelease.StepCallServes | assets/explainer/sim-release.js:79-91 | one call's travel, start of service or reply keeps the accounts, begins service on its host's code and leaves the rollout alone |
| SimRelease.Release.StepBy | assets/explainer/sim-release.js:68-92 | one frame: release, new calls, calls from the last to the first |
| SimMailbox.RunHandles | assets/explainer/sim-mailbox.js:45-91 | in every run, crashes included, `total` counts what was handled, old plus new; messages are handled in arrival order with none missing since the last crash; each ran on the code of its epoch unless a crash found the marker queued, and then all since ran on the old code |
| SimMailbox.RunQueue | assets/explainer/sim-mailbox.js:37-91 | in every run there is exactly one marker from the deploy to the end of the migration, old epoch before it and new behind, unless a crash took it |
| SimMailbox.LostIff | assets/explainer/sim-mailbox.js:45-51 | the marker is lost exactly when some crash finds it queued |
| SimMailbox.MarkerCanBeLost | assets/explainer/sim-mailbox.js:37-51 | a deploy and a crash right after it do so |
| SimMailbox.StepHandles | assets/explainer/sim-mailbox.js:53-91 | a step handles at most one message, and none while down, migrating or held |
| SimMailboxRules.StepHolds | assets/explainer/sim-mailbox.js:76-82 | a step that begins a migration finds the actor free with the marker at the head of its queue, one that makes it wait finds it held there, and a live actor with the marker at the head is migrating after the step if free and waiting if held |
| SimMailboxRules.RunHolds | assets/explainer/sim-mailbox.js:43-82 | an actor held from the start is held exactly until the release, and while it is, it runs the old code and migrates nothing, in every run |
| SimMailboxRules.DeployIs | assets/explainer/sim-mailbox.js:37-41 | a deploy reaches an actor exactly if it is up and has had none: the marker goes last in the queue and the new epoch begins |
| SimMailboxRules.RunMovesOn | assets/explainer/sim-mailbox.js:53-91 | a free actor with the marker queued is on the new code once the messages before the marker and the migration have had their time |
| SimMailboxRules.RunMigrates | assets/explainer/sim-mailbox.js:70-74 | however time is cut into frames, the new code runs exactly when the migration has had its time, and nothing is handled before |
| SimMailboxRules.RunRestarts | assets/explainer/sim-mailbox.js:64-68 | a crashed actor is up again exactly when its restart time, one second where none is given, has passed; its mailbox is empty until then |
| SimMailboxRules.RunServes | assets/explainer/sim-mailbox.js:84-90 | the message at the head of the queue is handled, on the code of the day, exactly when its service time has been spent on it |
| SimMailboxRules.StepFollows | assets/explainer/sim-mailbox.js:53-91 | a frame is the arrivals due in it, in order and no more, and then one of restart, migration, marker, idleness or service, each written out |
| SimMailboxRules.RunPace | assets/explainer/sim-mailbox.js:57-91 | in every run messages come 0.8 to 1.2 mean times apart, and none is handled sooner than the services before it and its own allow |
| SimMailboxRules.RunCrashes | assets/explainer/sim-mailbox.js:45-90 | in every run the actor has been restarted after every crash but one it is still down from, and lost sessions form again one with each message |
| SimMailboxRules.CrashIs | assets/explainer/sim-mailbox.js:45-51 | a crash leaves the actor as a new one without backlog or sessions, but for its clocks, its counters, its code and the deploy |
| SimMailbox.Mailbox.constructor | assets/explainer/sim-mailbox.js:24-35 | a new actor with its backlog |
| SimMailbox.Mailbox.PushMarker | assets/explainer/sim-mailbox.js:37-41 | a deploy queues one marker, once |
| SimMailbox.Mailbox.LetGo | assets/explainer/sim-mailbox.js:43 | the hold is released |
| SimMailbox.Mailbox.CrashActor | assets/explainer/sim-mailbox.js:45-51 | a crash loses mailbox, state and parked sessions |
| SimMailbox.Mailbox.TakeArrivals | assets/explainer/sim-mailbox.js:57-62 | the arrivals due, queued or dropped; the loop ends because arrivals are a positive time apart |
| SimMailbox.WorkKeeps | assets/explainer/sim-mailbox.js:64-90 | restart, migration, the marker and the head of the queue each keep the order of the queue, the marker's place and the log |
| SimMailbox.Mailbox.StepBy | assets/explainer/sim-mailbox.js:53-91 | one frame |
| SimTopology.RunSafe | assets/explainer/sim-topology.js:80-172 | in every run a session's messages run between the initiator, a host with an every-host chip and the present holder of the single role, the last two up, serving and for the single role labelled; attempts are conserved; a host runs new code exactly if it was up when some patch was activated, and every activated patch was granted, spent its three hops and was admitted; an ungranted patch never passes the gate |
| SimTopology.StopCancelsIff | assets/explainer/sim-topology.js:80-89 | a stop cancels a session with the host on a leg exactly if the host is its every-host or its single-role host, and otherwise the host is its initiator |
| SimTopology.RunInitiator | assets/explainer/sim-topology.js:80-144 | in every run the hosts on a session's legs are all up exactly if the initiator is, and a session outlives the stop of a host on its legs exactly if that host is its initiator and nothing else |
| SimTopology.InitiatorLeaves | assets/explainer/sim-topology.js:68-172 | a run from the start that leaves a session with legs to a stopped initiator |
| SimTopology.SingleMoves | assets/explainer/sim-topology.js:146-158 | the single role moves only on the clock, off a host down for `suspectS`, to the last host that is up, serving and labelled |
| SimTopology.NeverPlaced | assets/explainer/sim-topology.js:68-75 | a single role that found no host when placed is never placed |
| SimTopologyRules.PlaceIs | assets/explainer/sim-topology.js:48-75 | placement, chip by chip: the initiator, the every-host role on each serving machine in order, the single role last on the last eligible host or nowhere, each landing 0.22 seconds after the one before |
| SimTopologyRules.StepSingle | assets/explainer/sim-topology.js:146-158 | in a frame the single role moves if and only if its host has been down for the suspect time and some host is eligible, to the last such host, then and there; no other role moves |
| SimTopologyRules.RunFailsOver | assets/explainer/sim-topology.js:80-158 | when the host of the single role stops, the role stays until the suspect time has passed and is on the last eligible host from then on, however time is cut into frames |
| SimTopologyRules.StopIs | assets/explainer/sim-topology.js:80-89 | a stop, written out: the sessions with the host in either role leave, in order, and are counted as cancelled |
| SimTopologyRules.StartIs | assets/explainer/sim-topology.js:91-96 | a start, written out: the host offers its every-host roles anew and takes no other |
| SimTopologyRules.StepPatches | assets/explainer/sim-topology.js:111-126 | in every frame a patch ends a way exactly if its 0.9, 0.8 or 0.9 seconds have passed, and hosts change code only when it is activated, exactly those that are up |
| SimTopologyRules.ResolveIs | assets/explainer/sim-topology.js:105-117 | a verdict counts at once at the nodes and otherwise when the patch gets there |
| SimTopologyRules.RunArrives | assets/explainer/sim-topology.js:100-126 | a granted patch reaches the nodes, not before 2.6 seconds and within 2.9, and changes no host until their verdict |
| SimTopologyRules.RunRefused | assets/explainer/sim-topology.js:100-126 | a patch that is not granted is refused at the gate when 0.9 seconds have passed and reaches no host |
| SimTopologyRules.TryIs | assets/explainer/sim-topology.js:128-144 | an attempt opens a session if and only if the initiator is up, some host offers the every-host role and the single role is on a host that is up, both landed 0.7 seconds ago; on the offering hosts in turn and with the four messages between different hosts |
| SimTopologyRules.StepTraffic | assets/explainer/sim-topology.js:128-172 | a frame attempts its share of the load, all opened or all refused; then every session is further on, and those at the end of their last message, and no others, are finished |
| SimTopologyRules.RunLoad | assets/explainer/sim-topology.js:146-163 | in every run as many sessions are attempted as the load asks for in the time that they flow; the start has every host up on the old code and nothing placed |
| SimTopology.Topology.constructor | assets/explainer/sim-topology.js:33-46 | a new topology |
| SimTopology.Topology.FindSingle | assets/explainer/sim-topology.js:56-62 | the scan ends at the last up, serving, labelled host |
| SimTopology.Topology.PlaceRoles | assets/explainer/sim-topology.js:68-75 | the roles are placed once |
| SimTopology.Topology.StopHost | assets/explainer/sim-topology.js:80-89 | a stop cancels exactly the sessions on the host |
| SimTopology.Topology.StartHost | assets/explainer/sim-topology.js:91-96 | a returning host offers its every-host roles again |
| SimTopology.Topology.Send | assets/explainer/sim-topology.js:100-102 | a patch sets out |
| SimTopology.Topology.Resolve | assets/explainer/sim-topology.js:105-117 | the nodes' verdict, acted on if the patch is there |
| SimTopology.StepPatchKeeps | assets/explainer/sim-topology.js:119-126 | a patch on its way keeps the invariant: past the gate only if granted, at the nodes only after its three hops, activated only if admitted |
| SimTopology.Topology.OpenSession | assets/explainer/sim-topology.js:128-144 | a session opens on the next offering host, or is refused |
| SimTopology.NewSessionKeeps | assets/explainer/sim-topology.js:128-144 | a session is opened only on hosts that are up and eligible, and every attempt is counted |
| SimTopology.Topology.ReplaceSingle | assets/explainer/sim-topology.js:150-158 | the failover of the single role |
| SimTopology.MoveSingleIs | assets/explainer/sim-topology.js:150-158 | the single role goes to the last eligible host exactly if its host was given up on and there is one |
| SimTopology.Topology.StepBy | assets/explainer/sim-topology.js:146-172 | one frame: failover, new sessions, sessions from the last to the first, the patch |
| Channel.FindKey | assets/stdlib/channel.js:2 | the search for a key finds its own field whatever the fields before it hold, `join_ref` beside `ref` and values that spell keys included |
| Channel.ParseText | assets/stdlib/channel.js:2 | `parse` reads every field of a message whose strings hold no quote |
| Channel.RoundTripIff | assets/stdlib/channel.js:2 | `parse(serialize(m)) == Some(m)` exactly when no string field holds a quote or a backslash, for any payload text |
| Channel.EscapeReads | assets/stdlib/channel.js:2 | a JSON reader that takes the character after a backslash as it is gets back every escaped field, whatever it holds, and goes on where it ends |
| Channel.ExtractIs | assets/stdlib/channel.js:2 | an extracted field is what stands between the first place where its key, a colon and a quote occur and the next quote; there is none exactly if one of these is missing |
| Bytes.HexRoundTrip | assets/stdlib/bytes.js:2 | `from_hex(to_hex(b)) == Ok(b)`, two digits a byte |
| Bytes.HexText | assets/stdlib/bytes.js:2 | byte k is written as two digits of `0123456789abcdef`, the high one first |
| Bytes.FromHexIff | assets/stdlib/bytes.js:2 | `from_hex` reads exactly the texts of an even number of hex digits of either case, one byte for each two, the high digit first; of the others it says whether the length is odd or a character is no digit |
| Bytes.AlphabetIs | assets/stdlib/bytes.js:2 | the arithmetic form of `b64_char` reads the alphabet's literal |
| Bytes.CharVal | assets/stdlib/bytes.js:2 | `b64_val` inverts `b64_char` |
| Bytes.QuadIs | assets/stdlib/bytes.js:2 | four digits spell the 24-bit number of three bytes (section 4 of RFC 4648) and give the bytes back |
| Bytes.EncodedShape | assets/stdlib/bytes.js:2 | four characters per group of three bytes, as many pads as the last group lacks bytes, alphabet before them |
| Bytes.Base64RoundTrip | assets/stdlib/bytes.js:2 | `decode_base64(encode_base64(b)) == Ok(b)` for every byte sequence |
| Bytes.DecodeIff | assets/stdlib/bytes.js:2 | `decode_base64` reads exactly the texts of whole groups that are full groups of alphabet characters up to the end or to a group with one or two pads, behind which anything may stand; of the others it says whether the length or a character is wrong |
| Base64.UrlAlphabetRoundTrip | assets/stdlib/base64.js:2 | `from_url_alphabet(to_url_alphabet(s)) == s` for every padded text, and the text between is URL-safe |
| Base64.UrlRoundTrip | assets/stdlib/base64.js:2 | `url_decode(url_encode(b)) == Ok(b)` |
| Base64.UrlReadsStandard | assets/stdlib/base64.js:2 | `url_decode(encode_base64(b)) == Ok(b)`: it reads the padded standard variant too |
| Base64.LinesAre | assets/stdlib/base64.js:2 | the lines hold 1 to 76 characters, all but the last exactly 76, and concatenate to the text |
| Base64.MimeIs | assets/stdlib/base64.js:2 | `mime_encode` is those lines joined by CRLF; without the breaks it is the encoding, which decodes to the data |
| Base64.MimeText | assets/stdlib/base64.js:2 | a carriage return and a line feed stand after every 76 characters of the encoding that more follow, and nothing else is added |

## Left out

- Hosts, calls, sessions, cells, chips and queue items are values inside the fields of the one object that owns them. The source keeps references to records; aliasing between them is not modelled.
- History inside a value (a session's epoch, a message's number, a call's number and age, a patch's age) is carried as ordinary data; the other history fields are ghost in the classes.
- Events that name no host are ignored by a run, where the source would index past its list.
- `advance`, the drawing helpers (`packet`, `flash`, `grown`, `chipProgress`, `cursorAt`), the page's flags and labels, and the random number generator, which is any sequence of draws.
- Rounding of time: it is real where the source has floating point.
- SimRelease.Release.constructor: asks for at least two hosts, because with one the source has no canary and its first patch would index host -1.
- SimMailbox.Mailbox.constructor: asks for a positive arrival interval and draws in [0, 1); with an interval of zero the source's arrival loop would not end.
- SimTopology.Topology.constructor: asks for an initiator that is one of the hosts, as the source takes for granted; the three role names are taken to differ.
- SimHeap.RunOutcome: a parallel run needs depth at least 1, because a single cell has no halves and its root is never rebuilt.
- SimHeap.RunTime: asks for steps that do not go back in time and a positive visit time; the other theorems hold without.
- Machine integers: March's Int is unbounded here. Only `BigInts` bounds its intermediate values, as its own note asks.
- Strings are sequences of characters standing for bytes; no Unicode.
- Integers.StringToInt: an optional sign and decimal digits; other spellings the runtime may read are not modelled.
- The list of the source's generic `Map` and `List` helpers is taken as Dafny's maps and sequences; SHA-256 is an arbitrary function, and where a ring theorem needs it, one that tells the virtual nodes of the names in play apart.
- ConsistentHash.RunsAgree: every name joins only while it is not registered; the source documents that adding a registered name again leaves its old virtual nodes in place.
- Crdt.MergeRespectsEqual: asks for no negative slot, which the source's `add` also asks for; `PNCounter.equal`, `LWWRegister` and `ORSet` are documented not to meet the obvious laws.
- Decimals.StringRoundTrip: asks for a scale that is not negative; `to_string` has no form for another.
- BigInts.DivModIs: divisors of two limbs or more panic in the source; there is no long division to model.
- PersistentVector: `map`, `sort_by` and the other derived operations; `pop_down`'s unused leaf index. Below a leaf `insert_down` would not end in the source and is `None` here; no reachable vector gets there.
- AhoCorasick: the trie's node array is a plain sequence rather than a persistent vector, whose refinement is proved separately; the functions that follow failure links carry the nodes' paths as a ghost argument, for termination.
- DateTimes: parsing, formatting, `day_of_week` and the zone constructors.
- Channel: the route and reply helpers and the actor casts.
- Base64: `decode` and `encode`, which only wrap the standard codec.
