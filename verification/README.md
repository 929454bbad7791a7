# blitzkrieg core: verified models

A Dafny model of the self-contained cores of the blitzkrieg trading engine, with proofs of what
each of them is for. One module per source file, or per layer of one; imperative code is modelled
as methods and classes over the same fields and loops, pure code as functions. `dafny verify
dfyconfig.toml` checks the whole project.

| modules | source | what is modelled |
|---|---|---|
| `Replay` | `backtest.rs`, the wake probe of `service.rs` | the replay driver that jumps from deadline to deadline, against the walk that fires every grid point |
| `Jsonl` | `jsonl.rs` | the backward tail reader against the forward loader, and the appender |
| `DataLock`, `DataLockGate`, `DataLockRemoval` | `data_lock.rs` | the write gate of the data directories, as a machine whose steps are system calls; one `acquire` as a program over those steps; and the same gate with paths and directories kept apart, for what a removed directory does to it |
| `BlueprintGraph`, `BlueprintStructure`, `BlueprintCodegen`, `BlueprintKnobs`, `BlueprintOrder`, `BlueprintScan`, `BlueprintExamples`, `GuardCode`, `Lua` | `blueprint.rs` | the strategy compiler: graph algorithms, the two validation stages, the generator, what Lua makes of the guards, the table of evolvable knobs against the text that reads them, the order a program places, the last scan of that text, and accepted blueprints whose programs surprise |
| `CivilDate`, `Stamps`, `ArchiveNames`, `EventArchive`, `SegmentSource` | `data_source.rs` | the UTC stamp, segment names, the rotating archive, and segmented replay |
| `Ledger` | `ledger.rs` | the cash book, its journal and the reservation table |
| `ExitPolicy`, `ExitHistory`, `ExitRules` | `exit_policy.rs` | the compensated state update, the stop width and the exit verdict; what a run of books leaves in a position's memory; and the rules of the ladder one by one |
| `MarketData` | `marketdata.rs` | the local order book |
| `CommandLine` | `cli.rs` | the nearest-flag search |
| `EnvFile` | `env_file.rs` | the `.env` writer |
| `Wrappers`, `Text` | | result types and text primitives |

## Conventions

- Money, prices and percentages (`Decimal`) are reals; milliseconds, counters and sizes are
  unbounded integers except where a width decides something: the saturating u32 confirmation
  counter, the u32 sequence number of a segment name, the i32 bound of a process id, and the i64
  maximum that means "not armed".
- Files are sequences of bytes, lines or rows; JSON codecs are functions with, where a round trip
  is claimed, the assumption that decoding inverts encoding. Clocks, process liveness, free space
  and the outcome of system calls are inputs.
- The trading core behind the replay driver is a value with a tick and a delivery function. Two
  contracts of it are used as hypotheses of the refinement, and of nothing else. Quiet ticks: a
  core that has had its tick at some instant, with nothing pinned, is left as it was by a later
  tick until an armed gate or a UTC day boundary has come due in between. Quiet before the wake,
  the stronger one: with nothing pinned, a tick before the wake probed from any cursor leaves the
  core as it was. The evaluation counter belongs to the driver, not to the core.
- A hash table is a map; the one fold over a table's values is proved not to depend on its order.
- Proofs keep definitions they do not need out of sight with `hide`.

## Where the code and its documentation part ways

The model follows the code; the rows below state what comes of it.

- A comment of the replay driver says that an event's own instant never steps before the delivery.
  The bound `at + 1` does step a grid point equal to that instant, and the walk does the same.
- The jump is documented as byte-identical to the walk. The probe looks for gates from the cursor
  on, so a gate armed strictly between two grid points is not seen, while the walk fires it at the
  next point. With the quiet-tick contract alone the claim holds for every core exactly when the
  tick is one millisecond; otherwise it holds along replays in which no such gate is left unseen,
  and for cores that keep the stronger contract.
- The tail reader is documented with the loader's discipline. For a file that is not UTF-8 the
  loader answers nothing while the tail reader drops only the broken line.
- A refused `acquire` is documented to write no record. When a record write fails after an earlier
  one succeeded, the earlier record stays.
- The write gate is documented to be exclusive. A refused core removes a directory it created, by
  its path, while another core may already have opened it: the gate excludes in every interleaving
  exactly when the directory exists before anyone looks.
- The compiler accepts `!=`, and emits it; Lua has no such operator, so a blueprint with a `!=` on
  the chain compiles to a file that does not load.
- An or-gate wired to an action does not behave like an or: the backward walk also requires the
  gate's first input. A second guard drawn into an action or a condition is dropped.
- The last scan of the generated text is documented as a guarantee that can only fail by an internal
  error. The first two stages do not look at node ids, so a number under an id such as `ratio.1` is
  refused there.
- The blueprint's name goes verbatim into a one-line comment. A name with a line feed or a carriage
  return is accepted, and the comment ends inside it.
- The table of knobs is documented never to drift from what the generated text reads. Whatever is
  read is in the table, but the number of a node off the chain, and the price of a hold, are in the
  table without ever being read.
- A failed rotation reports that it keeps the current segment open. The handle is already on a
  temporary sink by then: events that follow are counted and never replayed, until a later rename
  succeeds. So a recording loses an event exactly when one is counted after a failed rename.
- Names of segments written before 1970 or after 9999 are not recognised again.
- The in-place snapshot diff can keep a level that a snapshot with a repeated price does not quote.
- A key of the `.env` file that is not an identifier is written without complaint and never found
  again: it does not read back, and a second write appends a second line.
- The `.env` writer documents that foreign lines survive byte for byte. Lines ended by a carriage
  return and a line feed, or by nothing, do not; a removal that leaves no line writes a blank one; and
  a file that cannot be read as text counts as empty and is replaced.

## Model

| member | source | states |
|---|---|---|
| `Replay.GridClosedForm` | core/blitzkrieg_core/src/backtest.rs:1004-1022 | The driver's ceil-to-grid arithmetic is the grid counted point by point: number of points before an instant, and the first point at or after it, for every anchor, distance and tick |
| `Replay.NextReplayWake` | core/blitzkrieg_core/src/service.rs:638-690 | The probe returns the earliest armed instant strictly after the probe, the next UTC day boundary included, and nothing only when every deadline is the unarmed maximum |
| `Replay.WalkCompose` | core/blitzkrieg_core/src/backtest.rs:979-987 | Firing a span of the grid in two pieces is firing it in one, wherever it is cut |
| `Replay.NothingBeforeWake` | core/blitzkrieg_core/src/service.rs:638-690 | Nothing is armed at any instant from the cursor up to the wake probed just before it |
| `Replay.WalkSkipsQuietPoints` | core/blitzkrieg_core/src/backtest.rs:955-977 | After a tick with nothing pinned, grid points up to which nothing comes due can be dropped from the every-tick walk without changing core or cursor |
| `Replay.LandingOnGrid` | core/blitzkrieg_core/src/backtest.rs:1004-1022 | A hop keeps the cursor on the anchored grid: skipped points plus remaining points are the points of the span, whether it lands inside or past the end |
| `Replay.HopIsQuiet` | core/blitzkrieg_core/src/backtest.rs:1001-1034 | One hop of the jump, from behind the cursor to the first grid point at or after the wake, is a stretch of the walk that does nothing, when no gate lies between the last tick and the cursor |
| `Replay.HopIsBeforeWake` | core/blitzkrieg_core/src/backtest.rs:955-977 | The same under the stronger contract, wherever gates lie |
| `Replay.JumpIsWalk` | core/blitzkrieg_core/src/backtest.rs:979-1050 | The refinement: jumping over a span that is safe to jump ends in the core and the cursor of the walk that fires every grid point |
| `Replay.JumpEndsOnTheGrid` | core/blitzkrieg_core/src/backtest.rs:979-1050 | Contract or not, the jump leaves the cursor where the walk leaves it |
| `Replay.GateDueInsideTick` | core/blitzkrieg_core/src/backtest.rs:1001-1009 | A gate armed by one tick for an instant inside the next: the walk fires it at the next point, the jump only when it is due at that very point |
| `Replay.FaithfulIffUnitTick` | core/blitzkrieg_core/src/backtest.rs:955-977 | For a tick t: every core over the states of a gate that keeps the quiet-tick contract is replayed faithfully on every span if and only if t is one millisecond |
| `Replay.ExactGateIsQuietBeforeWake` | core/blitzkrieg_core/src/backtest.rs:955-977 | The stronger contract is kept by a core that deliveries arm and ticks fire, so jumping it is walking it on every grid |
| `Replay.UnitTickIsFaithful` | core/blitzkrieg_core/src/backtest.rs:955-977 | The sufficient half for a core of any state: on the one-millisecond grid the quiet-tick contract makes the jump the walk on every span |
| `Replay.UnitTickRun` | core/blitzkrieg_core/src/backtest.rs:955-977 | On the one-millisecond grid every replay is safe under the quiet-tick contract, for every core and event stream |
| `Replay.ReplayIsWalk` | core/blitzkrieg_core/src/backtest.rs:1276-1381 | The whole replay, tail included: the outcome of the jumping driver is the outcome of the one that fires every grid point |
| `Replay.EventBacktester.EveryTick` | core/blitzkrieg_core/src/backtest.rs:980-987 | Without permission to jump, every grid point of the span is fired, in order |
| `Replay.EventBacktester.CrossQuietSpan` | core/blitzkrieg_core/src/backtest.rs:1001-1034 | The hop as the driver makes it: lands on the first grid point at or after the wake, or on the end of the span, and credits exactly the points it passes over |
| `Replay.EventBacktester.JumpGrid` | core/blitzkrieg_core/src/backtest.rs:979-1050 | The loop is the jump when jumping is allowed and the walk when it is not. For every core it terminates, ends on the grid where the walk ends, and steps plus credits are the grid points of the span |
| `Replay.EventBacktester.AdvanceTo` | core/blitzkrieg_core/src/backtest.rs:1278-1298 | Advancing the clock to an event runs the grid up to and including that instant, and never backwards |
| `Replay.InstantIsStepped` | core/blitzkrieg_core/src/backtest.rs:1286-1294 | With the bound one past an instant, the instant itself is stepped, last and once, exactly when it is a grid point; otherwise the bound changes nothing |
| `Replay.CollectForeign` | core/blitzkrieg_core/src/backtest.rs:1317-1343 | The list of foreign round families holds each declared family off the configured grid exactly once, and no other |
| `Replay.CadenceIgnoresCore` | core/blitzkrieg_core/src/backtest.rs:1276-1375 | For every core, contract or not: the clock, the cursor, the cycle count, the number of deliveries and a refusal are those of the every-tick replay, and do not depend on what the core does |
| `Replay.ReplayHasLog` | core/blitzkrieg_core/src/backtest.rs:1245-1381 | Every replay, walking or jumping, has such a log, for every core and every stream |
| `Replay.IdleTicksLeaveDeliveries` | core/blitzkrieg_core/src/backtest.rs:1343-1349 | For a core whose ticks change nothing, what the log leaves is the left fold of its deliveries |
| `Replay.EventBacktester.Run` | core/blitzkrieg_core/src/backtest.rs:1245-1381 | The loop over the stream, told by a log of ticks and deliveries: the core is what the acts of the log leave; every event before the first that declares a foreign family is delivered once, in order, at the running maximum of the start and the positive stamps so far, after every tick up to that instant and before every later one; a refused event is not delivered and the refusal names exactly its foreign families; every tick is a grid point, every grid point up to the last instant is fired or, when jumping is allowed, lies after an unpinned tick whose wake has not come; cycles and cursor are those of the grid. In a safe run it ends as the replay that fires every grid point does; in any run its cadence is that replay's |
| `Jsonl.RowsSplit` | core/blitzkrieg_core/src/jsonl.rs:77-97 | The kept records of a file split at a newline are those before it followed by those after it |
| `Jsonl.ReadChunk` | core/blitzkrieg_core/src/jsonl.rs:166-214 | One backward round: the rows a chunk completes are exactly those the scan has newly closed, and the growing line keeps every byte it needs |
| `Jsonl.ScanBack` | core/blitzkrieg_core/src/jsonl.rs:152-219 | The scan holds the kept rows of what it has closed, newest first, and stops short of the head only with at least the limit in hand |
| `Jsonl.ReadHead` | core/blitzkrieg_core/src/jsonl.rs:220-238 | At the head of the file the growing line is the oldest record, torn or blank ones skipped |
| `Jsonl.TailFiltered` | core/blitzkrieg_core/src/jsonl.rs:116-244 | For every byte sequence, chunk size and limit: the last min(limit, n) of the n kept records in file order; the count is n when the whole file was scanned, and between the limit and n otherwise |
| `Jsonl.Load` | core/blitzkrieg_core/src/jsonl.rs:77-97 | The forward loader: every parseable line of a text file in order, blank and unparseable ones skipped; nothing for a file that is not text |
| `Jsonl.TailAgreesWithLoader` | core/blitzkrieg_core/src/jsonl.rs:77-244 | The backward reader answers the newest kept records of the forward loader if and only if the file is UTF-8, or the limit is zero, or no line of the file is text that decodes to a kept record |
| `Jsonl.StrayByteSplitsReaders` | core/blitzkrieg_core/src/jsonl.rs:78-80 | One invalid byte makes the loader forget a record the tail reader still answers |
| `Jsonl.AppendReadsBack` | core/blitzkrieg_core/src/jsonl.rs:255-279 | Appending to a file of complete lines adds exactly the record, at the end |
| `Jsonl.AppendStaysComplete` | core/blitzkrieg_core/src/jsonl.rs:255-279 | A file of complete lines stays one, and stays text |
| `Jsonl.TornTailFuses` | core/blitzkrieg_core/src/jsonl.rs:255-279 | After a torn write the next record fuses with the torn line: only what the fused bytes decode to is read, every earlier record is kept |
| `Jsonl.LogReadsBack` | core/blitzkrieg_core/src/jsonl.rs:255-279 | A log built by appends alone reads back as the appended records, in order |
| `Jsonl.WrittenLogThroughBothReaders` | core/blitzkrieg_core/src/jsonl.rs:77-244 | A log built by appends alone reads the same through the loader and, for every limit, through the tail reader |
| `DataLock.SoundRun` | core/blitzkrieg_core/src/data_lock.rs:360-415 | In every interleaving of any processes, a kernel lock is held by a live process that has claimed it, and every claim is backed by its lock |
| `DataLock.NoTwoWriters` | core/blitzkrieg_core/src/data_lock.rs:360-415 | No two live processes that were let in without the hatch share a directory, in every interleaving, lock failures and deaths included |
| `DataLock.RecordsMoveUnderLock` | core/blitzkrieg_core/src/data_lock.rs:575-663 | A record changes only in a write by the holder of the directory's kernel lock, and only when it named no live process |
| `DataLock.LiveRecordKept` | core/blitzkrieg_core/src/data_lock.rs:365-409 | Where the lock call works, a record that names a live process is never replaced, hatch or no hatch |
| `DataLock.ChangesAreBooked` | core/blitzkrieg_core/src/data_lock.rs:385-409 | Every change of a record is on the account of the process that made it |
| `DataLock.RefusedWroteNothing` | core/blitzkrieg_core/src/data_lock.rs:379-404 | A refused process has written no record anywhere if and only if no record write of its own failed after an earlier one had succeeded |
| `DataLock.PartialWriteLeavesRecord` | core/blitzkrieg_core/src/data_lock.rs:385-404 | A second directory that cannot be written leaves the record of the refused, still living process in the first |
| `DataLock.BrokenLockLosesRecord` | core/blitzkrieg_core/src/data_lock.rs:617-629 | Without a working lock call, from every start and in every directory without a record, any two new processes with the hatch can both find none, and the second write replaces the record of the first, alive |
| `DataLock.LiveRecordsKeptIffLockWorks` | core/blitzkrieg_core/src/data_lock.rs:365-409 | From every start with two process ids to spare, records of live processes are kept by every step of every run if and only if the lock call works |
| `DataLock.LoneClaimantAdmitted` | core/blitzkrieg_core/src/data_lock.rs:360-415 | A lone claimant of free directories is let in and its records stand |
| `DataLock.DeadLeavesFree` | core/blitzkrieg_core/src/data_lock.rs:540-555 | A death at any point, inside acquire or after it, hatch or not, frees every claimed directory: it can be claimed if and only if its record is readable and names no live process |
| `DataLock.DeadClaimantSucceeded` | core/blitzkrieg_core/src/data_lock.rs:360-415 | In every interleaving, once any process dies, a lone later claim of directories it had claimed succeeds, unless a record there is unreadable or names a live process |
| `DataLock.SuccessorAdmitted` | core/blitzkrieg_core/src/data_lock.rs:365-409 | Where the lock call works, nothing stands in the way of the successor of a core that was let in without the hatch: a lone later claim of the same directories succeeds |
| `DataLockGate.Gate.Decide` | core/blitzkrieg_core/src/data_lock.rs:587-663 | Deciding one directory is a run of the machine's own steps: lock, then record, then liveness |
| `DataLockGate.Gate.DecideEach` | core/blitzkrieg_core/src/data_lock.rs:365-378 | Undisturbed and without the hatch, a directory is refused if and only if it is locked, its lock call fails, its record is unreadable or names a live process; otherwise its claim is held |
| `DataLockGate.Gate.ReleaseAll` | core/blitzkrieg_core/src/data_lock.rs:379-384 | A refusal gives every claim back and leaves the records as they are |
| `DataLockGate.Gate.Acquire` | core/blitzkrieg_core/src/data_lock.rs:360-415 | The whole call: it succeeds exactly when the process holds its directories; a refusal restores the locks, a busy refusal the records too; a directory is claimed if and only if it had no record, taken over if and only if its record was unreadable or named a dead process with nobody holding the claim, and shared otherwise; exactly the directories not shared have their record rewritten, to name this process, up to the first that cannot be written |
| `DataLockGate.RecordedRewrites` | core/blitzkrieg_core/src/data_lock.rs:385-415 | Carrying out a list of plans rewrites the record of a directory if and only if some plan for it is not a share, and leaves every other record alone |
| `DataLockRemoval.NoStrikeExcludes` | core/blitzkrieg_core/src/data_lock.rs:495-555 | With paths and directories kept apart: as long as no refused process removes a directory that another live one has opened, at most one live process is let in, in every interleaving |
| `DataLockRemoval.SettledRun` | core/blitzkrieg_core/src/data_lock.rs:495-535 | In a directory that was there before anyone looked, no run removes it |
| `DataLockRemoval.RemovalLetsTwoIn` | core/blitzkrieg_core/src/data_lock.rs:522-535 | Where there was none, from every such start: one process makes the directory and is refused elsewhere, a second has opened it by then, a third makes it anew; two are let in, and the record of a live one is replaced |
| `DataLockRemoval.ExclusiveIffDirectoryExists` | core/blitzkrieg_core/src/data_lock.rs:495-555 | The gate excludes in every interleaving if and only if the directory exists before anyone looks |
| `BlueprintGraph.DetectCycle` | core/blitzkrieg_core/src/blueprint.rs:498-544 | The iterative three-colour search terminates, accepts exactly the acyclic graphs, and names a node that really lies on a cycle |
| `BlueprintGraph.TopoOrder` | core/blitzkrieg_core/src/blueprint.rs:549-593 | Kahn's order exists exactly for the acyclic graphs, and is a permutation of the nodes in which every edge goes forward |
| `BlueprintGraph.NoSourceMeansCycle` | core/blitzkrieg_core/src/blueprint.rs:549-593 | Nodes that all have a predecessor among themselves contain a cycle: what strands the queue is a cycle |
| `BlueprintGraph.Depths` | core/blitzkrieg_core/src/blueprint.rs:448-462 | The bottom-up pass gives every node the node count of its longest outgoing path |
| `BlueprintStructure.CheckNodes` | core/blitzkrieg_core/src/blueprint.rs:239-249 | Ids are non-blank and distinct and types known, exactly when the kind table is built |
| `BlueprintStructure.IndexEdges` | core/blitzkrieg_core/src/blueprint.rs:251-280 | Both edge indexes list each node's edges in authoring order, exactly when edges join known, different nodes and no pair repeats |
| `BlueprintStructure.CheckDepth` | core/blitzkrieg_core/src/blueprint.rs:463-470 | The depth ceiling refuses exactly the graphs with a path of more than twenty nodes |
| `BlueprintStructure.CheckAction` | core/blitzkrieg_core/src/blueprint.rs:296-325 | An action passes exactly when nothing leaves it, something enters it, and every edge into it comes from a condition or gate |
| `BlueprintStructure.SplitInputs` | core/blitzkrieg_core/src/blueprint.rs:363-408 | The operands among a node's inputs, in drawing order, and whether anything else is drawn into it |
| `BlueprintStructure.CheckCondition` | core/blitzkrieg_core/src/blueprint.rs:352-409 | A condition has one left side: a field and no operand edge, or at most one operand edge, and none only behind a guard |
| `BlueprintStructure.CheckGate` | core/blitzkrieg_core/src/blueprint.rs:411-441 | A gate passes exactly when it has at least two inputs and all of them are guards |
| `BlueprintStructure.CheckOneAction` | core/blitzkrieg_core/src/blueprint.rs:327-350 | Passes exactly when one node is a wired action |
| `BlueprintStructure.IncomingIsEdge` | core/blitzkrieg_core/src/blueprint.rs:271-279 | The incoming index is the outgoing index read backwards |
| `BlueprintStructure.ValidateStructure` | core/blitzkrieg_core/src/blueprint.rs:213-477 | Stage one accepts exactly the blueprints that keep every structural rule, and returns their one graph |
| `BlueprintCodegen.ValidateSemantics` | core/blitzkrieg_core/src/blueprint.rs:597-788 | Stage two, kind by kind with its key, member and whitelist loops, names a node exactly when some node breaks the rules of its kind |
| `BlueprintCodegen.CheckMembers` | core/blitzkrieg_core/src/blueprint.rs:665-693 | The list of an `in` passes exactly when it is a non-empty array of numbers and clean strings |
| `BlueprintCodegen.CheckComparison` | core/blitzkrieg_core/src/blueprint.rs:649-756 | A condition passes exactly when its operator is known, its value fits the operator and is clean, no other parameter is there, and it has a whitelisted field or an operand edge |
| `BlueprintCodegen.UnfoldsOnce` | core/blitzkrieg_core/src/blueprint.rs:849-906 | The drawing below a guard node unfolds to one tree |
| `BlueprintCodegen.EmitGate` | core/blitzkrieg_core/src/blueprint.rs:888-902 | A gate's text is the emission of the tree it unfolds to, its inputs in drawing order with their polarity |
| `BlueprintCodegen.EmitAll` | core/blitzkrieg_core/src/blueprint.rs:849-906 | Along the topological order every input is ready when it is needed: no key is ever missing, every guard node gets the emission of the tree it unfolds to, and the knobs are registered node by node |
| `BlueprintCodegen.WalkGuards` | core/blitzkrieg_core/src/blueprint.rs:915-933 | The backward walk terminates and collects the whole trail of first guard edges behind the action, each with its node's text and its edge's polarity |
| `BlueprintCodegen.ThresholdIsConditionValue` | core/blitzkrieg_core/src/blueprint.rs:1135-1145 | The threshold cut out of a guard's text is the value side of a plain comparison on a price field, and nothing for every other guard |
| `BlueprintCodegen.InheritedPrice` | core/blitzkrieg_core/src/blueprint.rs:1085-1092 | An order without a price of its own inherits the threshold of the nearest price condition behind the action, if there is one |
| `BlueprintCodegen.ProgramMeansItsChain` | core/blitzkrieg_core/src/blueprint.rs:1002-1006 | The nested ifs are Lua if and only if no guard on the chain uses `!=`; then the order is reached exactly when every guard on the chain holds with its polarity, and a run errs exactly where the meaning has no answer |
| `BlueprintCodegen.PlainChainIsComplete` | core/blitzkrieg_core/src/blueprint.rs:921-933 | The walk collects every guard that leads to the action if and only if no node on the trail takes two guards |
| `BlueprintCodegen.SecondGuardDropped` | core/blitzkrieg_core/src/blueprint.rs:921-933 | A second guard drawn into a node of the trail is dropped: the path that leads to the action through it leaves the trail there |
| `BlueprintCodegen.OneTrail` | core/blitzkrieg_core/src/blueprint.rs:915-933 | The backward walk has one possible result |
| `BlueprintCodegen.GatePullsFirstInput` | core/blitzkrieg_core/src/blueprint.rs:921-933 | Behind a gate the walk continues through its first input and no other |
| `BlueprintCodegen.GateWithFirstInput` | core/blitzkrieg_core/src/blueprint.rs:921-933 | A gate together with its first input: an and-gate is unchanged, an or-gate holds exactly when its first input does, and an or-gate behind an inverted edge never does |
| `BlueprintCodegen.ProgramWithGate` | core/blitzkrieg_core/src/blueprint.rs:915-1006 | In the program of any accepted blueprint, with a gate anywhere on the chain: it fires exactly as the ifs around the gate, then the gate together with its first input, then the ifs inside |
| `BlueprintKnobs.GuardServes` | core/blitzkrieg_core/src/blueprint.rs:1160-1190 | The text of a guard reads every number drawn below it, each in a whole bridge call under its own wire name with its authored value as fallback, and mentions the bridge nowhere else |
| `BlueprintKnobs.NamesDecode` | core/blitzkrieg_core/src/blueprint.rs:836-845 | A wire name says which parameter of which node it is, whatever the ids contain |
| `BlueprintKnobs.TableListsEveryAnchorOnce` | core/blitzkrieg_core/src/blueprint.rs:826-845 | The exported table lists every numeric constant, condition and action parameter of the drawing and nothing else, under pairwise different names, each authored value in the middle of a domain as wide as it is large, of at least two millionths, and zero under one from zero to one |
| `BlueprintKnobs.ShownKnob` | core/blitzkrieg_core/src/blueprint.rs:859-889 | A node's number is read by a guard's text exactly when the node appears below that guard |
| `BlueprintKnobs.TextReadsTheTable` | core/blitzkrieg_core/src/blueprint.rs:827-830 | Every bridge call in guards, price and budget asks for a knob of the exported table, with its value; every exported knob is read if and only if every numeric node is on the chain and a hold has no numbers of its own |
| `BlueprintOrder.CompiledCallFits` | core/blitzkrieg_core/src/blueprint.rs:1061-1145 | The call of a compiled program, from its one wired action: none if and only if it is a hold; side "buy" if and only if it is a buy and "sell" if and only if it is a sell; its own price, else the value side of the price condition nearest the action, else none; and a budget if and only if it names one, read from that number |
| `BlueprintOrder.OrderIffChainHoldsAndBuys` | core/blitzkrieg_core/src/blueprint.rs:985-1038 | One run of a program that loads, for one token: the collector takes an order at a price if and only if every guard on the chain holds, the action is a buy and that price is its limit, hot parameters included; the run fails exactly where a guard compares values that have no order |
| `BlueprintScan.QuotedForbidden` | core/blitzkrieg_core/src/blueprint.rs:1230-1246 | Quoting neither hides nor makes a forbidden substring: a quoted literal carries one exactly when the string does |
| `BlueprintScan.SpelledScan` | core/blitzkrieg_core/src/blueprint.rs:1160-1204 | The text of a token sequence carries a forbidden substring exactly when one of its strings does, for every spelling of numbers by digits and point |
| `BlueprintScan.GuardTidy` | core/blitzkrieg_core/src/blueprint.rs:1147-1204 | In the text of a guard the first two stages accept, only the wire name of a knob can be forbidden |
| `BlueprintScan.NameForbidden` | core/blitzkrieg_core/src/blueprint.rs:836-845 | A wire name carries a forbidden substring exactly when the node id in it does |
| `BlueprintScan.ScanRefusesIds` | core/blitzkrieg_core/src/blueprint.rs:1040-1047 | The last scan refuses the program of an accepted blueprint if and only if a number in use, on the chain or of an action that is no hold, belongs to a node whose id carries a forbidden substring |
| `BlueprintScan.Generate` | core/blitzkrieg_core/src/blueprint.rs:822-1049 | The third stage, after the first two: no lookup fails, the draft has the call its one wired action asks for, and it is returned with its clean text exactly when no such id is in use |
| `BlueprintScan.Compile` | core/blitzkrieg_core/src/blueprint.rs:179-184 | All three stages: a blueprint compiles exactly when the first two accept it and no number in use has an id with a forbidden substring; and the program it compiles to has the call its one wired action asks for: side, price and budget |
| `BlueprintScan.CommentHoldsName` | core/blitzkrieg_core/src/blueprint.rs:936-940 | The one-line comment the name is written into holds all of it if and only if the name has no line feed and no carriage return |
| `BlueprintScan.AnyNameAccepted` | core/blitzkrieg_core/src/blueprint.rs:217-230 | Of the name the stages ask only that it is not blank and carries nothing forbidden |
| `BlueprintExamples.SingleAccepted` | core/blitzkrieg_core/src/blueprint.rs:213-788 | One comparison, with any operator but `in` and any non-blank id, under any action passes both stages, so the rules are not contradictory |
| `BlueprintExamples.BangCompiles` | core/blitzkrieg_core/src/blueprint.rs:53-55 | A blueprint with one `!=` passes all three stages, and its program does not load |
| `BlueprintExamples.RatioRefused` | core/blitzkrieg_core/src/blueprint.rs:1040-1047 | A blueprint whose condition is called `ratio.1` passes the first two stages and is refused by the last scan |
| `BlueprintExamples.NameOnTwoLines` | core/blitzkrieg_core/src/blueprint.rs:936-940 | A blueprint with a name on two lines passes the first two stages, and its comment ends inside the name |
| `BlueprintExamples.OrGateBlocked` | core/blitzkrieg_core/src/blueprint.rs:888-933 | An or-gate of two conditions under a buy passes all three stages; where only the second condition holds, the gate is true and the program does not fire |
| `BlueprintExamples.SecondGuardIgnored` | core/blitzkrieg_core/src/blueprint.rs:921-933 | Two conditions drawn into one buy pass all three stages; where the second is false, the program fires |
| `BlueprintExamples.HoldExportsAnIdleKnob` | core/blitzkrieg_core/src/blueprint.rs:1073-1084 | An accepted hold with a price exports a knob that its text never reads |
| `Lua.QuoteString` | core/blitzkrieg_core/src/blueprint.rs:1230-1246 | A string is written as the escapes of its characters between double quotes |
| `Lua.QuotedReadsBack` | core/blitzkrieg_core/src/blueprint.rs:1230-1246 | Every quoted string reads back, by the literal rules of the Lua 5.4 Reference Manual (section 3.1), as the string itself |
| `GuardCode.GateIsConnective` | core/blitzkrieg_core/src/blueprint.rs:888-902 | When every input has an answer, a gate's meaning is the plain conjunction or disjunction of its signed inputs |
| `GuardCode.EmittedReads` | core/blitzkrieg_core/src/blueprint.rs:1147-1204 | A guard without `!=` is emitted as one expression under the precedence of section 3.4.8 of the Lua 5.4 Reference Manual, the one that mirrors its tree |
| `GuardCode.EmittedBreaks` | core/blitzkrieg_core/src/blueprint.rs:1176-1204 | A guard with a `!=` anywhere below is no Lua expression in any context |
| `GuardCode.GuardReadsIffClean` | core/blitzkrieg_core/src/blueprint.rs:53-55 | The emitted text, negated or not, is a Lua expression if and only if no condition below uses `!=` (Lua spells it `~=`) |
| `GuardCode.EvalIn` | core/blitzkrieg_core/src/blueprint.rs:1192-1204 | The expansion of `in` evaluates to membership of the left value in the authored list |
| `GuardCode.GuardMeansItsNode` | core/blitzkrieg_core/src/blueprint.rs:1160-1204 | The emitted expression evaluates to the node's recursive meaning in every environment, hot parameters included, and errs exactly where the meaning has no answer |
| `CivilDate.CivilStep` | core/blitzkrieg_core/src/data_source.rs:541-551 | For every day number the conversion gives a valid date, and the next day number gives its calendar tomorrow |
| `CivilDate.CivilIsCalendar` | core/blitzkrieg_core/src/data_source.rs:533-553 | The conversion of a day number is the date counted day by day from 1 January 1970, with the month lengths and leap years of section 5.7 and appendix C of RFC 3339 |
| `Stamps.DateAtIsValid` | core/blitzkrieg_core/src/data_source.rs:533-553 | Every positive instant has a valid date of 1970 or later |
| `Stamps.StampOrder` | core/blitzkrieg_core/src/data_source.rs:533-553 | Up to the year 9999 stamps compare as text exactly as their seconds do, and two stamps are equal exactly within one second |
| `Stamps.FourDigitYears` | core/blitzkrieg_core/src/data_source.rs:533-553 | The years of stamps have four digits exactly up to the last millisecond of 9999 |
| `ArchiveNames.NextSegmentPath` | core/blitzkrieg_core/src/data_source.rs:485-524 | The first free of the names without a suffix and with -0002 to -9999; a taken name is returned only when all are taken |
| `ArchiveNames.RecognisedShape` | core/blitzkrieg_core/src/data_source.rs:377-402 | A file name is recognised as a segment of the archive if and only if it has the writer's exact shape, so sibling data sets are never swallowed |
| `ArchiveNames.NamesAreRecognised` | core/blitzkrieg_core/src/data_source.rs:377-402 | A generated name is recognised as a segment if and only if its time is not negative and its year has at most four digits |
| `ArchiveNames.NamesDecode` | core/blitzkrieg_core/src/data_source.rs:408-424 | The sort key of a generated name is its stamp and its number |
| `ArchiveNames.KeysFollowWrites` | core/blitzkrieg_core/src/data_source.rs:408-424 | Keys order generated names by second and then by number, and every one of them before the live file |
| `EventArchive.Archive.Rotate` | core/blitzkrieg_core/src/data_source.rs:267-313 | A rotation moves the live file to a free name and reopens it empty; a failed rename leaves the directory alone with the handle parked; a failed reopen or claim stops the archive |
| `EventArchive.RotationKeeps` | core/blitzkrieg_core/src/data_source.rs:267-313 | Rotation overwrites no segment, puts the new one after all earlier ones, and moves no event |
| `EventArchive.Archive.Record` | core/blitzkrieg_core/src/data_source.rs:556-603 | Every call counts once, as an event or a drop; a counted event joins what replay finds exactly when the handle is on the live file, and goes to the sink otherwise; and where the handle, the byte counters and the stop are afterwards: a due rotation leaves the handle on the sink exactly when rename, reopen or claim fails, and brings it back when all succeed. A failed write stops it for that; with a fine rotation and room on the disk it is stopped exactly at the session cap, for the cap |
| `EventArchive.NamesLeft` | core/blitzkrieg_core/src/data_source.rs:505-523 | Fewer than 9999 rotations dated in a second leave that second a free name |
| `EventArchive.RecordAll` | core/blitzkrieg_core/src/data_source.rs:556-603 | Any recording, renames failing or not: events plus drops are the calls; what replay finds and what the sink holds are functions of sizes, system calls and the entry state; nothing is lost if and only if no event is counted while a failed rename has had no successor that succeeded; with reopens succeeding and non-decreasing positive four-digit-year times with fewer than 9999 events a second, no rotated segment is touched again and replay finds the earlier recording followed by exactly the kept events. What is recorded ends with the first event that stops the archive, and the reason is that event's; with every call fine and room on the disk, the archive is stopped if and only if the start bytes plus the lines of some non-empty prefix reach a positive cap, for the cap, and what is recorded is the shortest such prefix |
| `EventArchive.MeterIsStoppedBy` | core/blitzkrieg_core/src/data_source.rs:556-603 | A recording is stopped by its first event that fails to be written, loses the reopened file, finds it held, finds the disk full at a due rotation, or reaches the cap after a fine one, and for that reason; by nothing when there is none |
| `EventArchive.TakenIsKeptAndLost` | core/blitzkrieg_core/src/data_source.rs:556-603 | The events kept and lost are together the ones encoded and written before the first stop, each once |
| `EventArchive.FineIsCapped` | core/blitzkrieg_core/src/data_source.rs:598-602 | With calls that succeed, renames aside, and room on the disk: stopped for the cap if and only if some non-empty prefix reaches it, and the events recorded are the shortest such prefix, or all |
| `EventArchive.ParkedIffOnSink` | core/blitzkrieg_core/src/data_source.rs:267-281 | As long as the archive has not stopped, the handle is on the sink exactly after a failed rename of a due rotation, or from the start, with no rename that succeeded since |
| `EventArchive.ParkedRetries` | core/blitzkrieg_core/src/data_source.rs:281-313 | A failed rename does not reset the segment's counter: every later event makes the rotation due again until one succeeds |
| `EventArchive.LostIffCountedAfterFailure` | core/blitzkrieg_core/src/data_source.rs:267-281 | A recording that starts on the live file loses an event if and only if some event is counted after a due rotation whose rename failed: the next one is lost whatever is renamed later |
| `EventArchive.FailedRenameLosesNext` | core/blitzkrieg_core/src/data_source.rs:267-281 | Two events, a rotation due at each, the first rename failing and the second succeeding: both are counted, none is dropped, the handle is back, replay finds the first and the sink has the second |
| `EventArchive.Reopen` | core/blitzkrieg_core/src/data_source.rs:193-239 | An archive opened anew over its own directory, earlier segments included and its byte counters at any length of the live file, is in order, and replay finds what it found |
| `EventArchive.RecordRestartRecord` | core/blitzkrieg_core/src/data_source.rs:193-603 | A recording, a restart and a second recording: replay finds the events of both, in order, when renames and reopens succeed and nothing is dropped |
| `EventArchive.SortedByKeySorts` | core/blitzkrieg_core/src/data_source.rs:810-819 | The sort by key is a permutation in which no name follows one with a greater key |
| `EventArchive.OpenDir` | core/blitzkrieg_core/src/data_source.rs:773-842 | Out of a directory's entries, in whatever order they are listed, exactly the archive's own files, in key order; refused exactly when there are none |
| `EventArchive.ReplayIsTheRecording` | core/blitzkrieg_core/src/data_source.rs:773-842 | However the directory is listed, sorting by key opens the segments in write order and the live file last, and the concatenation is the recording |
| `EventArchive.ReplayDirectory` | core/blitzkrieg_core/src/data_source.rs:773-886 | End to end: from the entries of the archive's directory, in any order, it replays exactly the recorded events, meets no malformed line, and reports how many of them are older than some event before them and how many are spots |
| `SegmentSource.Replay.NextEvent` | core/blitzkrieg_core/src/data_source.rs:679-730 | Reading on never changes what the reader will finally report, and skips blank and malformed lines only |
| `SegmentSource.Segments.NextEvent` | core/blitzkrieg_core/src/data_source.rs:849-871 | The same over a directory of segments, with each exhausted segment's counters folded in |
| `SegmentSource.LateCount` | core/blitzkrieg_core/src/data_source.rs:720-728 | The events counted out of order are the positions with some earlier position of a later time |
| `SegmentSource.StatsByPosition` | core/blitzkrieg_core/src/data_source.rs:679-730 | The events read are those on the lines that hold one, all of them and in order, and the report counts them, the malformed lines, the late positions and the spots |
| `SegmentSource.ReplaySegments` | core/blitzkrieg_core/src/data_source.rs:773-886 | A rotated archive replays the events of its lines in one unrotated file, in order, and reports how many lines are malformed, how many events are older than some event before them, and how many are spots |
| `Ledger.SumIsBalance` | core/blitzkrieg_core/src/ledger.rs:8-16 | The amounts of a chained trail sum to the balance of its last row, never below zero |
| `Ledger.WindowPushed` | core/blitzkrieg_core/src/ledger.rs:171-175 | Popping the oldest row of a full window before a push keeps the newest JOURNAL_CAP rows |
| `Ledger.Book.Apply` | core/blitzkrieg_core/src/ledger.rs:157-179 | The balance moves by the request clamped at zero, the amount is what moved, one row records it exactly when it is not zero, and the book stays valid: file, chain, balance and window agree |
| `Ledger.Book.Replay` | core/blitzkrieg_core/src/ledger.rs:129-144 | Replaying any rows restores the last row's balance and the newest rows, and the book is in order exactly when the rows chain |
| `Ledger.Restart` | core/blitzkrieg_core/src/ledger.rs:129-144 | A restart from the durable file restores the balance, which is the sum of all amounts in the file, and the window |
| `Ledger.LostRow` | core/blitzkrieg_core/src/ledger.rs:129-144 | A row other than the last lost from the file: a boot finds the same balance, the amounts now miss it by exactly that row's, and the rows still chain exactly when it moved nothing |
| `Ledger.Book.Reserved` | core/blitzkrieg_core/src/ledger.rs:205-210 | The fold over the reservation table is its total in any order |
| `Ledger.TotalWithout` | core/blitzkrieg_core/src/ledger.rs:205-210 | The total of a table is any one entry plus the total of the rest |
| `Ledger.BalancedIffFunded` | core/blitzkrieg_core/src/ledger.rs:354-361 | available + reserved == balance if and only if nothing is unfunded, and otherwise they differ by exactly the unfunded amount |
| `Ledger.Book.Reserve` | core/blitzkrieg_core/src/ledger.rs:218-241 | Refuses a negative notional, repeats nothing, admits exactly what is available |
| `Ledger.Book.Release` | core/blitzkrieg_core/src/ledger.rs:244-246 | Removes one entry and lowers the total by it; the journal does not move |
| `Ledger.Book.SyncBuyReservation` | core/blitzkrieg_core/src/ledger.rs:290-297 | Sets an order's commitment, never refusing and touching no other order |
| `Ledger.Book.SettleBuyFill` | core/blitzkrieg_core/src/ledger.rs:314-348 | Releases what the fill had reserved, clamped to what is held, spends its cost in one journal row, and touches no other order |
| `Ledger.Book.SettleSellFill` | core/blitzkrieg_core/src/ledger.rs:381-383 | A sale moves the balance by its proceeds less its fee, clamped at zero, in one row of its kind |
| `Ledger.Book.ChargeFee` | core/blitzkrieg_core/src/ledger.rs:387-389 | A fee lowers the balance, clamped at zero, in one row of its kind |
| `Ledger.Book.Credit` | core/blitzkrieg_core/src/ledger.rs:396-446 | Money that arrives is credited with one row; nothing that is not positive is |
| `Ledger.Book.SetTo` | core/blitzkrieg_core/src/ledger.rs:252-255 | A book set to a target gets one row for the difference, and none when nothing moved |
| `Ledger.Book.ResetAccountToSeed` | core/blitzkrieg_core/src/ledger.rs:477-519 | The reset leaves the clamped seed, an empty table and a one-row trail in memory and on disk |
| `Ledger.RunAll` | core/blitzkrieg_core/src/ledger.rs:8-16 | After any run of operations the balance is not negative and is the sum of the durable file's amounts, the rows chain, memory holds the newest rows, and a restart finds the same balance and window |
| `Ledger.PlaceAndFill` | core/blitzkrieg_core/src/ledger.rs:205-361 | From a balanced book an order within what is available is admitted; after any fills at or inside its limit, however many, the identity holds, the book has paid exactly the fills, and the order holds what they left of its commitment |
| `Ledger.OrderLife` | core/blitzkrieg_core/src/ledger.rs:205-361 | The same followed by the release: the identity holds, the balance is lower by exactly the fills, without clamping, and the table is what it was |
| `ExitPolicy.ExitState.UpdateInterval` | core/blitzkrieg_core/src/exit_policy.rs:964-1067 | The update in place is the functional update of the whole state |
| `ExitHistory.HighIsHighestBid` | core/blitzkrieg_core/src/exit_policy.rs:996-998 | After any run of books with a bid the high-water mark is the largest of the mark it started from and the bids seen |
| `ExitHistory.CountIsLooksNear` | core/blitzkrieg_core/src/exit_policy.rs:996-1053 | The confirmation counter is the number of looks in a row within the tolerance of the high, the look that set the high counting as the first, none after a look away from it, saturating at the u32 maximum |
| `ExitHistory.ConfirmedIsLastConfirmed` | core/blitzkrieg_core/src/exit_policy.rs:1044-1050 | The confirmed high is the high at the last look that stayed near it with enough looks in a row, and what it was when there is no such look |
| `ExitHistory.ExtremesOfBids` | core/blitzkrieg_core/src/exit_policy.rs:983-994 | The profit extremes are those of the bids seen, and the position was positive if and only if some bid was above the entry |
| `ExitHistory.BidStoodSince` | core/blitzkrieg_core/src/exit_policy.rs:1059-1062 | The bid dates from the look that last changed it, and the quote from the last look |
| `ExitHistory.DepthIsFirstSeen` | core/blitzkrieg_core/src/exit_policy.rs:1056-1058 | The depth compared with is the first that was not zero |
| `ExitHistory.ProgressSince` | core/blitzkrieg_core/src/exit_policy.rs:1063-1066 | Progress dates from a look whose profit is noted, and every look since has stayed within a point of it |
| `ExitPolicy.UpdateSettles` | core/blitzkrieg_core/src/exit_policy.rs:964-1067 | One look at a book leaves nothing for a second look at it but the quote's clock and the confirmation counter |
| `ExitPolicy.IntervalIsTicks` | core/blitzkrieg_core/src/exit_policy.rs:964-1067 | One compensated update after k steps equals the k plain updates in every field, the saturating counter and the latched high included, for every state already updated on that book |
| `ExitPolicy.StopWidthBoundsAndOrder` | core/blitzkrieg_core/src/exit_policy.rs:387-403 | For every configuration the stop width lies between min(base, stop_min_pct) and base and never narrows with more time left; no division by zero |
| `ExitRules.StopTightensLinearly` | core/blitzkrieg_core/src/exit_policy.rs:387-402 | The width is the base until tightening starts, the least from the forced exit on, and in between falls in proportion to the time left |
| `ExitPolicy.HolderStopIsFlat` | core/blitzkrieg_core/src/exit_policy.rs:233-240 | On a holder's configuration the width is holder_stop_pct at all times, on either ladder |
| `ExitPolicy.NoStopSwallowed` | core/blitzkrieg_core/src/exit_policy.rs:1130-1339 | Outside the expiry gate and the grace period, a live bid through the stop ends in an exit or in a report of that very bid; which exit, `ExitRules.VerdictIsFirstRule` says |
| `ExitRules.VerdictIsFirstRule` | core/blitzkrieg_core/src/exit_policy.rs:1130-1339 | For every tick and every reason: the verdict exits for it if and only if its own rule applies, stated in prices, percentages and seconds, and no rule before it in the ladder does; and it takes the maker side exactly where that rule does |
| `ExitRules.WantedIsDecided` | core/blitzkrieg_core/src/exit_policy.rs:1196-1332 | A rule that applies always ends in an exit, for it or for an earlier rule |
| `ExitRules.NotHeldTooLong` | core/blitzkrieg_core/src/exit_policy.rs:1196-1332 | Past its gates and with a price to judge on, a position is not held beyond its last seconds, at or below the floor of its confirmed high, or once it has given back its trail |
| `ExitRules.HeldBackIffMidDisagrees` | core/blitzkrieg_core/src/exit_policy.rs:876-903 | A stop is reported as held back if and only if nothing is decided, the bid is dislocated from the mid, and the bid breaches the stop while the mid does not |
| `ExitRules.ProfitPriceIsJudge` | core/blitzkrieg_core/src/exit_policy.rs:761-781 | The profit side judges on the live bid, else a mid, else a remembered price of known and sufficient youth, and on nothing else |
| `ExitRules.StopPriceIsReference` | core/blitzkrieg_core/src/exit_policy.rs:819-866 | The stop judges on the bid, on the mid over a dislocated bid, else on the lower of a live ask and a remembered price |
| `ExitRules.RatchetFloorRises` | core/blitzkrieg_core/src/exit_policy.rs:325-351 | The floor never falls as the confirmed high rises, and stays below the high that raised it unless it is the default |
| `ExitRules.TrailIsRow` | core/blitzkrieg_core/src/exit_policy.rs:353-375 | The profit trail is its row of the table, or, proportional, the lesser of that and its share of the high, but no less than the least giveback |
| `ExitRules.TrailWidens` | core/blitzkrieg_core/src/exit_policy.rs:353-385 | Neither trail narrows as the high rises or with more time left |
| `ExitPolicy.StopLossIffBreached` | core/blitzkrieg_core/src/exit_policy.rs:876-903 | A stop-loss is decided if and only if the gates are open, the profit target is not reached and the reference price breaches the stop; the verdict names that reference |
| `ExitPolicy.AskBoundsTheReference` | core/blitzkrieg_core/src/exit_policy.rs:842-858 | With an ask and no bid the reference is never above the ask, nor above a fresh remembered price |
| `ExitPolicy.AskNeverHoldsAStopBack` | core/blitzkrieg_core/src/exit_policy.rs:843-858 | Where the remembered price alone would have fired a stop, a book with an ask and no bid still exits, and by a stop-loss if and only if its mid does not reach the profit target |
| `ExitPolicy.UndatedPriceTakesNoProfit` | core/blitzkrieg_core/src/exit_policy.rs:761-781 | Without bid or mid, a remembered price of unknown age can fire nothing but a stop |
| `MarketData.DiffIsRebuild` | core/blitzkrieg_core/src/marketdata.rs:165-176 | The in-place diff of a side equals clear-and-rebuild if and only if the counts differ or no old price is missing from the snapshot |
| `MarketData.SnapshotReplaces` | core/blitzkrieg_core/src/marketdata.rs:34-43 | A snapshot whose positive prices are distinct always replaces the side |
| `MarketData.RebuiltShows` | core/blitzkrieg_core/src/marketdata.rs:34-43 | A rebuilt side shows exactly the prices with a positive size, each with the last of them |
| `MarketData.RepeatedPriceKeepsStaleLevel` | core/blitzkrieg_core/src/marketdata.rs:173-175 | The side 1.0 of size 5.0 and a snapshot that quotes 2.0 of size 1.0 twice: the diff keeps the level at 1.0 |
| `MarketData.ReplaceLevels` | core/blitzkrieg_core/src/marketdata.rs:165-176 | The upsert loop, the count and the conditional scan compute that diff |
| `MarketData.LocalBook.ApplySnapshot` | core/blitzkrieg_core/src/marketdata.rs:34-43 | Both sides take the diff; without repeated prices both are the snapshot |
| `MarketData.ApplyLevels` | core/blitzkrieg_core/src/marketdata.rs:149-157 | After incremental updates each price has its last update's size, or none when that is not positive; unmentioned prices are unchanged |
| `MarketData.LastUpdateIs` | core/blitzkrieg_core/src/marketdata.rs:149-157 | The last update of a price is the size of the last level at it, and there is none when no level is |
| `MarketData.LocalBook.UpdateTop` | core/blitzkrieg_core/src/marketdata.rs:83-117 | From any positive-priced book, crossed or not, the result is uncrossed; it holds exactly the old levels that neither quote crosses, each with its size, and the quotes with the nominal size, a bid above the ask being crossed by it; 0 < b <= a become exactly the tops; the final clamp runs exactly when neither quote is positive and the book was crossed, and pulls the bids down to the best ask |
| `CommandLine.EditDistance` | core/blitzkrieg_core/src/cli.rs:928-942 | The two-row table computes the recursive Levenshtein distance |
| `CommandLine.LevSymmetric` | core/blitzkrieg_core/src/cli.rs:927-942 | The distance is symmetric |
| `CommandLine.LevTriangle` | core/blitzkrieg_core/src/cli.rs:927-942 | The distance satisfies the triangle inequality |
| `CommandLine.LevZeroOnlyEqual` | core/blitzkrieg_core/src/cli.rs:927-942 | Only equal texts are at distance zero |
| `CommandLine.LevIsLeastEdits` | core/blitzkrieg_core/src/cli.rs:927-942 | The distance is the least number of single-character insertions, deletions and replacements that turn one text into the other |
| `CommandLine.IsSubsequence` | core/blitzkrieg_core/src/cli.rs:946-949 | True exactly when the characters can be placed in the other text in order |
| `CommandLine.Suggestion` | core/blitzkrieg_core/src/cli.rs:899-925 | The earliest of the flags with the least (rank, distance, length difference), and nothing exactly when no flag is close |
| `CommandLine.SuggestedIsPreferred` | core/blitzkrieg_core/src/cli.rs:876-925 | Nothing is suggested if and only if no flag completes the token, is within two edits of it or has it as a subsequence with the same first three characters; what is suggested is preferred to every other such flag: completions first and the shortest, then the fewest edits, then the closest length, then the earlier entry |
| `CommandLine.OneSuggestion` | core/blitzkrieg_core/src/cli.rs:881-884 | The suggestion is deterministic |
| `CommandLine.ClassifyUnknownArg` | core/blitzkrieg_core/src/cli.rs:967-1007 | Ignored exactly when ignoring is allowed and the suggested flag, if any, carries no risk |
| `CommandLine.NearMissOfRisk` | core/blitzkrieg_core/src/cli.rs:963-966 | A token a risky flag explains better than every harmless one is never ignored |
| `EnvFile.RenderedReadsBack` | core/blitzkrieg_core/src/env_file.rs:26-37 | A value renders exactly when it does not hold both quote kinds; the line, line feeds included, parses back to the key and the value if and only if the key is an identifier, and under any other key is not found again |
| `EnvFile.UpsertHolds` | core/blitzkrieg_core/src/env_file.rs:43-69 | After an upsert of identifier keys every line of a managed key reads back its variable, each key has a line, and the other lines are kept in their order |
| `EnvFile.PutAllPlaces` | core/blitzkrieg_core/src/env_file.rs:54-66 | Line by line: managed lines are rewritten where they stand, every other line stays as and where it is, and what is appended are the new keys in order |
| `EnvFile.UpsertTwiceIsOnce` | core/blitzkrieg_core/src/env_file.rs:43-69 | For distinct keys and values that can be written: upserting the lines again changes nothing if and only if every key is an identifier; any other key adds a line each time |
| `EnvFile.UpsertTwiceOnDisk` | core/blitzkrieg_core/src/env_file.rs:43-69 | On the file, read again in between: a second upsert changes nothing if and only if every key is an identifier and no foreign line is read with a carriage return at its end |
| `EnvFile.UpsertedFileHolds` | core/blitzkrieg_core/src/env_file.rs:43-69 | The written file, read again, holds the variables, for identifier keys and values without a line feed |
| `EnvFile.OthersHaveNone` | core/blitzkrieg_core/src/env_file.rs:73-95 | After a removal none of the keys is left, a second removal finds nothing, and kept and removed lines are all the lines |
| `EnvFile.WrittenLinesReadBack` | core/blitzkrieg_core/src/env_file.rs:147-153 | A written list of lines reads back as itself if and only if no line holds a line feed or ends in a carriage return |
| `EnvFile.ReadAndWrittenBack` | core/blitzkrieg_core/src/env_file.rs:51-53 | Reading a text by lines and writing them back gives the same bytes if and only if it ends in a line feed and has no line feed after a carriage return |
| `EnvFile.UpsertKeepsBytes` | core/blitzkrieg_core/src/env_file.rs:18-20 | An upsert keeps every line outside the managed keys byte for byte, endings included, if and only if each of them ended in a line feed alone |
| `EnvFile.RemoveKeepsBytes` | core/blitzkrieg_core/src/env_file.rs:71-73 | A removal keeps every other line byte for byte if and only if some line is left and each of those ended in a line feed alone |
| `EnvFile.CarriageReturnsAreLost` | core/blitzkrieg_core/src/env_file.rs:18-20 | The file `# note`, carriage return, line feed, `A=1`, line feed: its comment survives neither an upsert nor the removal of `A` byte for byte |
| `EnvFile.EnvFileOnDisk.Upsert` | core/blitzkrieg_core/src/env_file.rs:43-69 | For any keys and values: refuses exactly when some value has both quote kinds, and then writes nothing; otherwise writes the lines that hold the variables, the file read again holds them, and foreign bytes are kept exactly when their lines ended in a line feed alone |
| `EnvFile.EnvFileOnDisk.Remove` | core/blitzkrieg_core/src/env_file.rs:73-95 | Drops exactly the lines of the given keys, reports their keys in file order, keeps the rest in order, writes nothing when there are none, and otherwise keeps foreign bytes exactly when a line is left and those lines ended in a line feed alone |

## Left out

- Replay.EventBacktester.Run: errors a tick returns, the drain of the core's outbound channel, the report, progress output, hot-parameter overrides, the engine-less case (in which no cycle is credited) and the saturation of the cycle counter are not modelled; overflow of i64 instants is excluded by the bounds on event times.
- Jsonl.TailFiltered: I/O errors in mid-scan, which answer an empty list, are not modelled; line trimming covers ASCII white space, other white space is left to the parser.
- DataLock.NoTwoWriters: directories are identities here, so removal of one by `release` cannot be told; `DataLockRemoval` treats it, for one directory.
- DataLockRemoval.ExclusiveIffDirectoryExists: what a process's other anchors answer is a choice of the run; the escape hatch is not part of this machine; writing the record through its temporary file and rename is one step.
- DataLock.LiveRecordKept: a process id is not reused within a run.
- The wait of at most 100 ms for a record that is about to appear is one step that reads the record.
- Path resolution, anchor derivation, banners and the text of refusals in `data_lock.rs`.
- BlueprintScan.Compile: the fixed text of the file, its runtime bridge included, is any layout whose pieces carry nothing forbidden and do not begin or end with a character of a forbidden substring; numbers are spelled by any function into digits and points.
- BlueprintOrder.OrderIffChainHoldsAndBuys: the collector is modelled for one token with a balance that is a number, as the bridge sets it; the printing of the price to six digits is not modelled.
- BlueprintCodegen.ProgramMeansItsChain: a field such as `tick.price` is one variable; numbers are exact.
- BlueprintKnobs.TableListsEveryAnchorOnce: domains are exact; their printing to twelve decimals is not modelled.
- GuardCode.GuardMeansItsNode: a hot parameter is a number or absent, as the bridge's `tonumber` leaves it.
- Rules of the first two stages are stated per stage, not the wording or the order of their error messages.
- EventArchive.Archive.Record: a write either happens or fails whole; buffering, flushing and the free-space probe are outcomes given to the call.
- SegmentSource.ReplaySegments: a segment is a list of lines already split and parsed; segments that cannot be opened are not modelled.
- ExitPolicy.IntervalIsTicks: `update_exit_state_interval_2x` doubles the step, so it does not double the count and is not claimed to.
- ExitRules.VerdictIsFirstRule: the taker fee is an arbitrary function of the price; reals do not round.
- Ledger.Book.Apply: appends to the file succeed; `retire_journal_file` clears the trail but keeps the balance, so it is outside the invariant.
- Ledger.OrderLife: amounts are exact; the 28-digit rounding of decimals is not modelled.
- MarketData.LocalBook.UpdateTop: the immutable snapshot built for consumers is not modelled.
- CommandLine.ClassifyUnknownArg: the wording of the refusal and of the warning is not modelled; the flag table is a parameter.
- EnvFile.EnvFileOnDisk.Upsert: a value with a line feed is written as more than one line, so what is said of the file read again is for values without one; file modes and the temporary file are not modelled.
- The trading engine, order management, risk and settlement; network probing, plugins, help text, benches and the user interface.
- Short members of the same files (fee schedules, counters and formatters), which would only add easy statements.
