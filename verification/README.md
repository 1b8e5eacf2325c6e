# Rustica Engine: verified models

A Dafny project that models the parts of Rustica Engine with the most state and the most
arithmetic, and proves what they promise.

* **The master's dispatcher** (`master.c`, `event_set.c`). `MasterModel` is the dispatcher as a
  state machine on values: one function per handler, with a `fault` flag that is raised where the
  C code would index outside an array or fail an `Assert`. `Dispatcher.Master` and
  `EventSet.WaitEventSetEx` are the same handlers on arrays and rings, and each method is proved to
  do what its function says. `MasterInv` and `MasterSteps` carry an invariant through every
  handler, `MasterRuns` through whole runs of the event loop, in which the events of a wake-up are
  all reported before the first is handled; `MasterTheorems` says what follows for every reachable
  state, in the middle of a wake-up too, and `MasterOutcomes` what each kind of event leaves behind.
* **The greeting** (`master.c`, `worker.c`). `Hello` and `Handshake`: the master's byte-by-byte
  bookkeeping reads the frames of the byte stream, however it is cut. `MasterGreetings` says when a
  worker's greeting is heard, over whole runs and with other events in between.
* **UTF-16 over UTF-8** (`adt/text.c`, `adt/stringbuilder.c`). `Utf` defines both encodings (section
  3 of RFC 3629, section 2.1 of RFC 2781) with their examples, `Text` has the loops over stored bytes.
* **The test-spec runner** (`moontest.c`). `MoontestModel` has the callbacks and, independently, a
  recursive walk of the JSON tree; `Moontest` proves that they do the same for every document, and
  says what that leaves behind.
* **The chain of local references** (`datatypes.c`, `query.c`). `LocalRefs`, on the heap.
* **jsonb iteration** (`adt/jsonb.c`). `Jsonb`, with a parser of the delivered events that rebuilds
  the value.
* **Query marshalling** (`compiler.c`, `query.c`). `Marshal` has the choice of converters and the
  converters themselves, `QueryPlans` a query's way from the compiler through the stored row and the
  plan to its arguments and columns.

`Base`, `Counting` and `Ring` hold what these share.

## What is taken from the environment

The outcomes of system calls are arguments of the model: which `sendmsg` fails, what `accept` and
`recv` return, whether a worker could be registered, which workers have stopped. `EnvironmentOk` in
`MasterSteps` says what is assumed of them: only spawned workers connect to the IPC socket, once
each; a worker is reported stopped only after its connection was closed; `recv` returns no more
than it was asked for (nothing at all is allowed). `Reports` in `MasterRuns` adds that the wait set
reports occupied positions only, for events they are armed for. A connection is named by the worker
that made it, which stands for its file descriptor. `WL_SOCKET_ACCEPT` and `WL_SOCKET_READABLE` are
one bit on the supported platforms and one flag here.

`pg_mblen` and `pg_mb2wchar_with_len` are modelled from PostgreSQL's UTF-8 definitions, which are
not in this repository; masks and shifts are written as remainders and quotients. `pg_mblen` never
returns 0 for UTF-8, so the fallback for that is absent. `palloc` is taken to refuse more than
`0x3FFFFFFF` bytes, and `wasm_obj_is_externref_obj` not to be defined for null; they belong to
PostgreSQL and WAMR and are not part of this model. A field's type names a heap type only if it is a
reference, and a column holds a value of the type the planner described, or NULL.

## Where the code does less than it seems to promise

The models follow the code. In each case the exact condition is proved.

* A failed `recv` closes the socket and then control falls through to the update of `read_offset`
  (`master.c:399-402`, `master.c:466`), which leaves 255 in the freed slot. The next connection in
  that slot starts from 255 and its greeting is never heard. `MasterGreetings.ResidueIffFailed` and
  `MasterGreetings.GreetingHeardIff` have the condition, `MasterPoison.AGreetingIsLost` a complete
  run.
* `fromCharCodeArray` clamps `length` but converts to the end of the array (`adt/text.c:256-263`).
  `Text.SliceIsConvertedIff`, `Text.ASliceIsIgnored`.
* `fromCodePoint` accepts surrogates, whose text is not UTF-8. `Text.CodePointIsValidIff`,
  `Text.ASurrogateIsAccepted`.
* The bracket that closes the list of files is refused (`moontest.c:308-321`), so the driver's finish
  function is never called after tests. `Moontest.FinishCalledIff`, `Moontest.EmptyListNeverFinishes`.
* The array converters for arguments read as many elements as the length field says, which nothing
  compares with the buffer (`query.c:52-58`, `query.c:69-75`), and a null externref that the types
  admit is followed (`query.c:44`, `datatypes.c:142`). `Marshal.ArgumentIsReadIff`,
  `Marshal.AnArrayIsOverrun`, `Marshal.ANullIsFollowed`. The struct of all arguments may be null too,
  and is followed if there are any (`compiler.c:454`, `query.c:488-494`):
  `QueryPlans.CompileAndExecute`. The compiler reads the array of OIDs likewise
  (`compiler.c:588-597`): `QueryPlans.CompileQuery`.
* An `int2[]` argument keeps the low 16 bits of each element. `Marshal.ArgumentComesBackIff`,
  `Marshal.AnInt2Wraps`.
* Whether a column or an element is NULL is not looked at (`query.c:632`, `query.c:137-144`): a NULL
  scalar or element reads as zero, and a NULL array's null pointer is followed.
  `Marshal.ColumnIsWrittenIff`, `Marshal.ColumnComesBackIff`.

## Model

| member | source | states |
|---|---|---|
| MasterTheorems.NothingGoesWrong | src/rustica/master.c:303-379 | In every reachable state: no out-of-bounds slot and no failed Assert; idle entries, pending workers and busy connections together at most `max_worker_processes - 2`; a free slot for every worker that may connect; idle ring or job ring empty; paused exactly at a full job ring, with every frontend's mask to match |
| MasterTheorems.IdleEntriesDoNotAlias | src/rustica/master.c:452-459 | An idle entry names the connection it was pushed for, announced and without a client since, or a freed slot nobody has taken |
| MasterTheorems.ClientsGoToIdleWorkers | src/rustica/master.c:303-328 | Each client sent went to a worker whose last history entry before that was its announcement |
| MasterTheorems.ClientsKeepTheirOrder | src/rustica/master.c:356-434 | Clients sent so far, then the waiting ones, are the accepted ones less those refused, in order of acceptance |
| MasterTheorems.EventsStayFresh | src/rustica/master.c:506-526 | When an event of a wake-up is handled, its slot holds the connection it was reported for, or nothing |
| MasterTheorems.BusyWorkersAreListenedTo | src/rustica/master.c:321-324 | A connection without an idle entry is armed for reading, unless a failed recv left its slot |
| MasterTheorems.OldestIdleWorkerIsChosen | src/rustica/master.c:303-328 | A client goes to the oldest idle entry whose connection lives and does not break; all older entries are dropped |
| MasterTheorems.UnplacedClientWaits | src/rustica/master.c:329-378 | A client nobody can take joins the end of the queue or is refused at 1024, and a worker is started if the limit allows |
| MasterOutcomes.GreetingIsAnswered | src/rustica/master.c:389-466 | Bytes from a worker that is listened to: wait for more, close on a mismatch; on a whole greeting park the worker or send it the oldest waiting client, and if that send fails close the connection and keep the client first in the queue |
| MasterOutcomes.SentMeansItWorked | src/rustica/master.c:303-435 | For every event: the history only grows, and each client recorded as sent went over an open connection whose sendmsg did not fail |
| MasterOutcomes.ClosedEventCloses | src/rustica/master.c:381-388 | A closed connection, parked or not, is closed, its position is the last to be reused, and nothing else changes |
| MasterOutcomes.FailedRecvCloses | src/rustica/master.c:398-402 | So is one on which recv failed |
| MasterOutcomes.MutedEventMutes | src/rustica/master.c:394-397 | Bytes past a greeting are not read and only the closing is listened for |
| MasterOutcomes.ClientIsPlaced | src/rustica/master.c:303-327 | A placed client: who gets it, that the worker is listened to again, which connections were closed on the way, and that nobody is started or queued |
| MasterOutcomes.WorkerIsSeated | src/rustica/master.c:234-241 | A worker that connects gets the slot freed longest ago, listened to, and nothing else changes |
| MasterOutcomes.NothingArrives | src/rustica/master.c:219-275 | A failed accept, or an event with nothing to report, changes nothing |
| MasterOutcomes.NobodyStopped | src/rustica/master.c:470-497 | Without a stopped worker nothing about the workers changes |
| MasterOutcomes.FaultsIff | src/rustica/master.c:234-459 | Exactly when a step would index outside an array or fail an Assert |
| MasterOutcomes.StoppedAreForgotten | src/rustica/master.c:470-497 | Exactly the stopped workers leave the handle table, and the rest are counted |
| MasterTheorems.ReachedIsSafe | src/rustica/master.c:499-528 | Every reachable world satisfies the invariant, between and within wake-ups |
| MasterGreetings.ResidueIffFailed | src/rustica/master.c:398-466 | In every reachable state, the offset an empty slot passes on is 255 exactly if its last connection in the run ended in a failed recv, and 0 otherwise, whichever handler closed it |
| MasterGreetings.GreetingHeardIff | src/rustica/master.c:389-466 | A worker that connects is announced, however its bytes are cut and whatever other events come in between, if and only if they make a whole greeting and its slot was not left by a failed recv |
| MasterGreetings.ListenedIsHeardIff | src/rustica/master.c:403-466 | From the middle of a greeting too: heard exactly when the bytes before and the bytes to come make a whole one |
| MasterGreetings.OthersSpare | src/rustica/master.c:508-526 | Other slots' events leave a busy connection, what has come of its greeting, and its silence in the history alone |
| MasterGreetings.MutedIsNotHeard | src/rustica/master.c:389-398 | A connection that starts at 255 is never announced, whatever arrives |
| MasterTheorems.WaitingSince | src/rustica/master.c:451-461 | A waiting worker's last entry in the history is its announcement |
| MasterPoison.AGreetingIsLost | src/rustica/master.c:394-402 | A concrete run from startup after which a spawned worker's greeting is not heard in any continuation, while three clients wait |
| MasterSteps.DeliverKeeps | src/rustica/master.c:508-526 | Handling any event that is fresh keeps the invariant |
| MasterSteps.DrainKeeps | src/rustica/master.c:303-328 | Offering a client to idle entries keeps the invariant, and ends with the client placed or the ring empty |
| MasterSteps.FrontendKeeps | src/rustica/master.c:258-379 | Accepting a client keeps the invariant, whichever sends break |
| MasterSteps.ConnectKeeps | src/rustica/master.c:214-249 | A spawned worker's connection finds a free slot and keeps the invariant |
| MasterSteps.CloseKeeps | src/rustica/master.c:251-256 | Closing any connection, parked or not, keeps the invariant |
| MasterSteps.ReadableKeeps | src/rustica/master.c:389-467 | Any bytes from a worker that is armed for reading keep the invariant |
| MasterSteps.ParkKeeps | src/rustica/master.c:451-462 | An idle worker's entry fits the ring and keeps the invariant |
| MasterSteps.FeedKeeps | src/rustica/master.c:419-449 | Handing a waiting client to an announcing worker keeps the invariant |
| MasterSteps.DiedKeeps | src/rustica/master.c:470-497 | Forgetting stopped workers keeps the invariant and its Assert holds |
| MasterSteps.SpawnKeeps | src/rustica/master.c:329-355 | Starting a worker finds a handle and keeps the invariant |
| MasterInv.SlotsSuffice | src/rustica/master.c:168-172 | More slots are free than workers may still connect |
| MasterInv.SlotsPartition | src/rustica/event_set.c:61-109 | Free and connected slots together are `max_worker_processes - 1` |
| MasterInv.CrewSize | src/rustica/master.c:329-354 | Pending workers and open connections together never outnumber the registered workers |
| MasterInv.IdleBound | src/rustica/master.c:456-459 | The bound on idle entries, stale ones included |
| MasterInv.StaleIsDeep | src/rustica/event_set.c:90-109 | A stale entry's slot lies deeper in the free ring than all slots that pending workers can take |
| MasterRuns.AheadStep | src/rustica/master.c:506-526 | One event of a wake-up leaves the slots of the later ones with their owners, and the next accept's slot outside the batch |
| MasterRuns.DeliverFrame | src/rustica/master.c:508-526 | What one event leaves alone: another slot's owner, and the order of the free ring |
| MasterRuns.RunKeeps | src/rustica/master.c:499-528 | The invariant over any number of wake-ups |
| MasterRuns.StartupHolds | src/rustica/master.c:144-212 | The state after startup satisfies the invariant |
| EventSet.TakeFirst | src/rustica/event_set.c:61-75 | Giving out the head of the ring keeps live and free positions a partition |
| EventSet.GiveBack | src/rustica/event_set.c:90-109 | Giving a live position back at the tail keeps the partition |
| EventSet.WaitEventSetEx.constructor | src/rustica/event_set.c:38-59 | All positions free, in order |
| EventSet.WaitEventSetEx.Add | src/rustica/event_set.c:61-75 | Takes the oldest free position, or reports -1 exactly when none is free and changes nothing |
| EventSet.WaitEventSetEx.NextPos | src/rustica/event_set.c:77-83 | Names the position the next addition takes |
| EventSet.WaitEventSetEx.Delete | src/rustica/event_set.c:90-109 | Appends the position to the free ones |
| Dispatcher.Master.Start | src/rustica/master.c:144-212 | Reaches the model's startup state |
| Dispatcher.Master.OnBackendConnect | src/rustica/master.c:214-249 | Does in place what the model's handler says |
| Dispatcher.Master.CloseSocket | src/rustica/master.c:251-256 | Does in place what the model's function says |
| Dispatcher.Master.TryIdle | src/rustica/master.c:303-328 | The loop over the idle ring computes the model's recursive search |
| Dispatcher.Master.SpawnWorker | src/rustica/master.c:329-355 | Registers into the first free handle, which exists |
| Dispatcher.Master.EnqueueJob | src/rustica/master.c:356-378 | Queues, pauses or refuses as the model says |
| Dispatcher.Master.OnFrontend | src/rustica/master.c:258-379 | Does in place what the model's handler says |
| Dispatcher.Master.OnIdle | src/rustica/master.c:416-463 | Hands out a job or parks the worker, as the model says |
| Dispatcher.Master.OnBackendReadable | src/rustica/master.c:389-467 | Does in place what the model's handler says, the failed recv included |
| Dispatcher.Master.OnWorkerDied | src/rustica/master.c:470-497 | The sweep over the handles computes the model's filter and count |
| Dispatcher.Master.HandleEvent | src/rustica/master.c:508-526 | One turn of the loop is the model's step |
| Dispatcher.Master.HandleBatch | src/rustica/master.c:505-527 | A whole wake-up is the model's fold, and the invariant holds after it |
| Hello.Receive | src/rustica/master.c:403-466 | A receive that is not refused leaves the offset below 12 and the id 4 bytes long |
| Hello.Scan | src/rustica/master.c:403-466 | The comparison loop and the copy compute the model's receive |
| Handshake.ReceiveTracks | src/rustica/master.c:403-466 | One receive refuses exactly at a mismatch and otherwise keeps the bytes of the frame so far |
| Handshake.FeedReadsFrames | src/rustica/master.c:398-466 | Any receives of a stream, on any bytes, have the outcome of reading its 12-byte frames |
| Handshake.ChunkingDoesNotMatter | src/rustica/master.c:398-466 | Two ways of cutting the same bytes have the same outcome |
| Handshake.WorkerIsUnderstood | src/rustica/worker.c:481-482 | Of any part of a worker's greetings in any pieces: never refused, its own id once per whole greeting, and framed for the next |
| Handshake.GreetingsAreFrames | src/rustica/worker.c:520-543 | Greeting after greeting reads as frames with the worker's id |
| Handshake.Worker.OnWriteable | src/rustica/worker.c:520-543 | Any partial or failed send continues the stream of greetings where it stopped, and the phase changes exactly at a whole one |
| Handshake.Worker.OnReadable | src/rustica/worker.c:632-733 | A job ends with the worker announcing again |
| Handshake.Worker.OnEvent | src/rustica/worker.c:798-813 | With both phase constants 0, the armed interest alone keeps the two handlers apart |
| Text.CountCodeUnits | src/rustica/adt/text.c:142-159 | The counting loop ends on any bytes, with the units of the complete characters |
| Text.CharCodeAt | src/rustica/adt/text.c:178-235 | On any bytes: refused exactly out of range after wrapping, otherwise the unbounded loop stays inside the text and finds that unit |
| Text.LengthIsUtf16Length | src/rustica/adt/text.c:142-176 | For valid text, length is that of the UTF-16 encoding |
| Text.CharCodeIsUtf16Unit | src/rustica/adt/text.c:193-227 | For valid text, charCodeAt is that unit of the UTF-16 encoding, both halves of a pair included |
| Text.FromCharCodeArray | src/rustica/adt/text.c:237-311 | Start, length and conversion, every error included |
| Text.Convert | src/rustica/adt/text.c:263-305 | The loop reads code units as `Characters` does and encodes them |
| Text.CharactersOfUtf16 | src/rustica/adt/text.c:263-299 | Units that encode characters are read as those characters |
| Text.Utf16OfCharacters | src/rustica/adt/text.c:263-299 | Units that are read encode what was read |
| Text.ReadIffWellFormed | src/rustica/adt/text.c:271-296 | Refused exactly if no characters have this encoding |
| Text.TextRoundTrip | src/rustica/adt/text.c:193-305 | A valid text is rebuilt from its code units |
| Text.UnitsRoundTrip | src/rustica/adt/text.c:193-305 | The text built from well-formed units has them as its length and units |
| Text.SliceIsConvertedIff | src/rustica/adt/text.c:248-263 | A well-formed slice is what is converted if and only if it is empty or reaches the end |
| Text.ASliceIsIgnored | src/rustica/adt/text.c:256-263 | The first of two letters, asked for, comes with the second |
| Text.FromArrayOutcome | src/rustica/adt/text.c:248-263 | A start out of range is refused exactly then, a negative one counts from the end, a length of 0 gives the empty text, and any other is not looked at |
| Text.FailureSaysWhatIsWrong | src/rustica/adt/text.c:271-296 | The error names what is wrong with the first units that are wrong, and those before are well-formed |
| Text.CodePointIsRead | src/rustica/adt/text.c:313-325 | Every number of Unicode, and no other, is accepted, and read back from its text |
| Text.CodePointIsValidIff | src/rustica/adt/text.c:313-325 | The text of an accepted code point is valid exactly if it is no surrogate |
| Text.ASurrogateIsAccepted | src/rustica/adt/text.c:313-325 | 0xD800 is encoded as three bytes that are the UTF-8 of nothing |
| Text.EncodedChar | src/rustica/adt/text.c:203-212 | The first byte gives the length of an encoded character, and its bytes give it back |
| Text.StringReader.ReadChar | src/rustica/adt/stringbuilder.c:132-149 | Always advances inside the input, or reports its end |
| Text.ReadToEnd | src/rustica/adt/stringbuilder.c:132-149 | Reading until the end of input ends on any bytes and yields `ReadAll` |
| Text.ReadingDecodes | src/rustica/adt/stringbuilder.c:137-142 | Reading valid text yields its characters |
| Text.LeadingBits | src/rustica/adt/text.c:147 | How many bytes a character has, by the leading bits of its first |
| Text.StrayBytes | src/rustica/adt/text.c:146-157 | Bytes that begin no character are counted, returned and read one by one |
| Text.TruncatedText | src/rustica/adt/stringbuilder.c:139-147 | A text that breaks off in a character: the rest counts for nothing and is no unit, and the reader returns a question mark and goes on one byte later |
| Text.UnitIs16BitsIff | src/rustica/adt/text.c:213-222 | On any bytes a unit has 16 bits, except exactly the first of four bytes for less than 0x10000, where the subtraction wraps |
| Moontest.StreamingIsWalking | src/rustica/moontest.c:157-442 | For every JSON document and any outcomes, the callbacks make the calls of the tree walk, in order; finish exactly if it accepts; and are refused without a word or raise an error exactly as it says |
| Moontest.EveryFailureIsPrinted | src/rustica/moontest.c:193-254 | For every document: the tests called are those of the walk with outcome after outcome, and exactly the failed ones are printed, each right behind its call, for the package |
| Moontest.SpecRunsEveryTest | src/rustica/moontest.c:187-263 | A test spec calls exactly its (file, index) tests in order, prints exactly the failures with the package, and ends refused at the closing bracket |
| Moontest.FinishCalledIff | src/rustica/moontest.c:265-271 | The finish function is called exactly for objects with nothing but package names |
| Moontest.EmptyListNeverFinishes | src/rustica/moontest.c:304-324 | An empty list of files already keeps it from being called |
| Moontest.RangeFields | src/rustica/moontest.c:350-429 | The bounds of a range in any order and number, the last of each counting |
| Moontest.Files | src/rustica/moontest.c:280-324 | A list of files makes the walk's calls and stops where it stops |
| Moontest.JsonParseState.ExecuteRange | src/rustica/moontest.c:193-254 | The loop makes the range's calls in order |
| Moontest.JsonParseState.ObjectEnd | src/rustica/moontest.c:178-278 | Updates the state in place as the step function says |
| Moontest.JsonParseState.ScalarValue | src/rustica/moontest.c:378-442 | Updates the state in place as the step function says |
| Moontest.JsonParseState.ObjectFieldStart | src/rustica/moontest.c:326-376 | Updates the state in place as the step function says |
| Moontest.JsonParseState.Parse | src/rustica/moontest.c:142-146 | A parse stops at the first callback that does not succeed, with its verdict |
| LocalRefs.OneDies | src/rustica/datatypes.c:199-214 | The end of one reference takes just its node out of the live ones, newest first |
| LocalRefs.WithoutOnly | src/rustica/datatypes.c:206-213 | Relinking one node drops no other and keeps the top |
| LocalRefs.ExecEnv.Push | src/rustica/datatypes.c:100-104 | The new node is on top of the chain |
| LocalRefs.ExecEnv.Remove | src/rustica/datatypes.c:199-214 | The walk ends, the chain loses just that node, and is still the live references newest first |
| LocalRefs.Heap.ObjNew | src/rustica/datatypes.c:87-112 | A referencing object's node is pushed, and the chain stays that of the live objects |
| LocalRefs.Heap.Finalize | src/rustica/datatypes.c:10-68 | A freed object has no node in the chain, and no other node is lost |
| LocalRefs.Heap.Collect | src/rustica/datatypes.c:10-68 | Any objects may be finalized in any order |
| LocalRefs.Heap.EndConvert | src/rustica/query.c:146-173 | The converter's pop takes its own node, which is on top unless an object was created since |
| LocalRefs.Heap.Protect | src/rustica/query.c:133-176 | A converter with the collector at work in between leaves no node behind |
| Jsonb.DocumentMeansPreOrder | src/rustica/adt/jsonb.c:309-345 | The tokens of a document mean its pre-order, the raw-scalar wrapper stripped |
| Jsonb.TokensMeanPreOrder | src/rustica/adt/jsonb.c:309-345 | The same for any nested value |
| Jsonb.RebuildsEveryValue | src/rustica/adt/jsonb.c:309-432 | A parser of the events alone gets back any value, nested containers included |
| Jsonb.TokensRebuildTheDocument | src/rustica/adt/jsonb.c:309-432 | So from the tokens of a document |
| Jsonb.CallsUpToFailure | src/rustica/adt/jsonb.c:300-438 | Whatever is exported: the calls are the exported events up to and including the first failure |
| Jsonb.Iterate | src/rustica/adt/jsonb.c:300-438 | The calls made are those of the pre-order: exported functions only, none after a failure, success exactly if none failed; and a module that exports all can rebuild the document |
| Jsonb.Iteration.Handle | src/rustica/adt/jsonb.c:310-432 | One token makes the calls of its event |
| Jsonb.AllExported | src/rustica/adt/jsonb.c:300-438 | With everything exported, the calls are a prefix of the pre-order, and without a failure they rebuild the document |
| Jsonb.CallsInTwo | src/rustica/adt/jsonb.c:300-438 | The calls for one part and then another |
| Marshal.ArgumentIsReadIff | src/rustica/query.c:17-90 | For every well-typed argument: the chosen converter reads only what is there, except exactly for an int array whose length exceeds its buffer and for a null externref; and it raises an error exactly for a length no array can have or an object that is no datum of the type |
| Marshal.ArgumentSuits | src/rustica/query.c:17-90 | What is read is the argument's value as one of the parameter's type, element by element for arrays; int2 elements up to multiples of 65536 |
| Marshal.AnArrayIsOverrun | src/rustica/query.c:53-58 | One element with a length of two has the right type and is read past its end |
| Marshal.ANullIsFollowed | src/rustica/datatypes.c:140-161 | A null externref passes for text and is followed |
| Marshal.AnInt2Wraps | src/rustica/query.c:57 | 32768 arrives as -32768 |
| Marshal.ColumnIsWrittenIff | src/rustica/query.c:92-222 | The converter chosen for a column, NULL or not, stores its value as one of the field's type, zero for NULL, except exactly for a NULL array |
| Marshal.ColumnComesBackIff | src/rustica/query.c:17-222 | A column sent back as an argument arrives as it was if and only if neither it nor an element was NULL |
| QueryPlans.StatementReadsItsArguments | src/rustica/query.c:491-496 | All arguments of a compiled statement are read to suitable data, or reading stops at the first that overruns or is refused, and which it was |
| QueryPlans.RowFillsItsFields | src/rustica/query.c:631-640 | The columns of a compiled statement fill a struct of the result type, or filling stops at the first NULL array |
| QueryPlans.CompileAndExecute | src/rustica/query.c:474-500 | The whole way from compile_query through the stored row and the plan to the arguments, null arguments included |
| QueryPlans.CompileAndLower | src/rustica/query.c:601-643 | The same way to the columns of a row |
| QueryPlans.CompileQuery | src/rustica/compiler.c:571-686 | A row with a number for every argument and column, an error, or, exactly when the array of OIDs is shorter than it claims, a read past it |
| QueryPlans.CompileArguments | src/rustica/compiler.c:610-615 | A number for every argument, or a refusal exactly if some argument has none |
| QueryPlans.CompileColumns | src/rustica/compiler.c:668-675 | A number for every column, or a refusal exactly if some column has none |
| Marshal.ArgumentsAndColumnsAgree | src/rustica/compiler.c:688-833 | Arguments and columns are converted alike, but for 32-bit arguments of 64-bit parameters |
| Marshal.ArgumentIsAcceptedIff | src/rustica/compiler.c:688-764 | Which argument types go with which parameters, no more and no fewer |
| Marshal.IntArrayIsReadable | src/rustica/compiler.c:835-866 | A value of a validated array type can be read as i32 elements |
| Marshal.ArgumentComesBackIff | src/rustica/query.c:47-222 | An int array survives being sent and selected if and only if its length is one its buffer and palloc allow and, as int2, every element has 16 bits |
| Marshal.CopyOut | src/rustica/query.c:53-79 | The allocation and the copying loop keep or narrow each element in order, refuse, or run past the buffer |
| QueryPlans.QueryPlan.constructor | src/rustica/query.c:318-340 | The parts of the single allocation follow one another and fill it, with arguments, columns, both or neither |
| QueryPlans.QueryPlan.Fill | src/rustica/query.c:341-433 | Filling every part leaves each as it was written |
| QueryPlans.InitQueryPlan | src/rustica/query.c:249-441 | A plan that holds the stored row, or an error exactly if a stored length is wrong |
| QueryPlans.QueryPlan.Execute | src/rustica/query.c:491-496 | The loop applies each stored converter to its OID and argument, up to the first that does not return |
| QueryPlans.QueryPlan.Lower | src/rustica/query.c:631-640 | The loop applies each stored converter to its column, up to the first that goes wrong |

## Left out

- Sockets, epoll, signals, latches and descriptor closing: their outcomes are arguments; no claim is made about open descriptors.
- Handshake.Worker.OnReadable: the job itself (WASM, SPI, transactions) and a failed recvmsg, which ends the worker, are not modelled.
- Handshake.Worker.OnEvent: the events that end the worker (the master closing, shutdown, idle timeout) are not modelled.
- EventSet.WaitEventSetEx.Delete: a failing `epoll_ctl`, which raises an error that ends the master, is not modelled.
- Dispatcher.Master.Start: the descriptors of the listening sockets are not modelled.
- Dispatcher.Master.HandleEvent: the return from the loop when a latch event finds a shutdown requested is not modelled; the theorems hold after any part of a wake-up.
- Dispatcher.Master.HandleBatch: likewise without shutdown.
- Text.FromCharCodeArray: the 1 GB limit on text, and int32 overflow of `start + length`, which the clamp undoes.
- LocalRefs.Heap.Finalize: the type-specific freeing before the unlink, which touches no node.
- Single-byte and other non-UTF-8 encodings, `textlen`, `textget`, and the writing half of `stringbuilder.c`: thin use of PostgreSQL functions.
- `rst_json_parse` and the jsonb value setters: the callbacks forward to exported functions one by one.
- Teardown of the master, logging.
- Result columns marked junk, the planner, the detoasting of values, and what SPI makes of the data it is given.
- WAMR, ahead-of-time compilation, module loading, llhttp, the SQL backdoor: foreign calls without visible semantics.
