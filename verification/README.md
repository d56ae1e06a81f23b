# DPUmesh: a verified model

DPUmesh carries requests between services through shared memory. A message is a 64-byte descriptor that names
slots in shared buffer pools: a worker writes header and body into its own pools, the DPA copies the header to
the DPU, the sidecar routes it, the DPA copies header and body into the destination's pools, a poller hands the
descriptor to the destination's reader, and the reader frees the slots. Around this pipeline stand hand-written
printers and parsers (routing header, combined bridge body, HTTP text, key-value files, query strings), tables
that match answers with requests, and three services chained by a two-stage frontend.

`dafny verify dfyconfig.toml` checks the whole project.

## How it is organised

| files | contents |
|---|---|
| `Options`, `Text`, `Utf8`, `Descriptor` | a missing value; C strings and the library routines on them; UTF-8; the descriptor |
| `Mesh` | the pipeline as a transition system: one step is one operation of one thread on shared memory |
| `Ledger`, `MeshInvariant`, `MeshSteps`, `MeshSafety` | the invariant, kept by every step |
| `MeshTheorems`, `MeshFifo`, `MeshProgress` | what holds in every reachable state; the order of every ring and pipe over every run; draining and deadlock freedom under every routing policy |
| `MeshRuns`, `MeshWitnesses`, `SidecarPolicy`, `RoundRobin`, `SidecarTurns` | messages arrive where the policy sends them; runs on which failures occur; the sidecar's own policy, and its turns among the workers of a service over every run |
| `MeshNode` | the handlers of the DPA and the workers as code, with other threads running between any two operations |
| `BufferPool`, `Wire`, `SharedRing` | the pool, the descriptor and the ring as bytes in shared memory |
| `Correlation`, `Tables` | the `req_id % 256` tables under every interleaving of workers, and as arrays |
| `MeshCorrelation`, `MeshJoint`, `MeshExchange` | the pipeline drives the tables; a request and its answer in both |
| `HeaderJson`, `JsonLoads`, `JsonEscape`, `Case2`, `Case2Fields`, `Http`, `HttpChunks`, `HttpRoundTrip`, `JsonUtil` | printers and parsers |
| `ServiceChain`, `ChainAnswers`, `ChainTheorem` | the services, what their clients read from every answer, the chain |
| `Frontend`, `FrontendProcess`, `FrontendAnswers` | the frontend under every interleaving, as code over a heap, and what each client is told |

The pipeline's state holds every pool (bitmap and contents), every ring and pipe, and what each thread holds in
local variables. The bitmap is a map whose keys are the allocated slots; its values, like the identities of
messages and the outcomes, are history that no step looks at. The routing decision is left open: any registered
destination, the bridge, or nowhere, so that safety holds for every routing policy. Progress is proved for a policy
given as a parameter, a decision for each message, header and direction; `SidecarPolicy` gives the sidecar's own, which
reads the header as JSON, looks the worker or the service up in the registry and takes turns among the workers. The
reader and the writer of a worker are separate threads, which allows more interleavings than a worker has.

## Assumptions of the pipeline

- Each pool operation and each ring operation is one atomic step; a copy between slots is several.
- The poller looks up and clears an entry of the table of response pipes, and a writer sets one, without a lock
  between them; each of the two is taken to be atomic.
- Pools are created once, before any traffic, and every pod is registered under a non-empty service name.
- A worker's header is 1 to 4095 bytes; a body is shorter than 2^31 bytes; a bridge request has a body, since
  the combined text is never empty.
- A ring holds at least twice as many descriptors as a pool has slots, a pipe at least as many descriptors as a
  pool has slots, and a slot at least 4096 bytes. `ShippedSizesAreValid` checks the sizes in the source.
- No service is called like the DPU's own pools.
- A bridge client sends no HTTP headers of its own: `headers` is printed as `{}`. An entry there that is called like a
  later field, such as `query_string`, would be read in its place.
- `SidecarPolicy` speaks of headers in ASCII that `JsonLoads` can read; on others its policy may decide anything. The
  runs of `SidecarTurns` route only such headers, its registry does not change during a run, and pods differ, as the pod
  id counter makes them.

A state is called safe when it satisfies the pipeline's invariant; every reachable state is safe. In `MeshNode`
a handler relies on named facts about the machine (`KnowsTx`, `KnowsRx` and the like), all of which
`RealPlanIsComplete` proves. It may be interrupted before each of its operations, and all it knows afterwards is that
its own message is where it left it and that a safe state is still safe; `OthersLeaveIt` shows that this is what other
threads guarantee. `Handled` says that a polling round took the front of its queue in the state it began in, that all
it did since were the machine's operations on that message, and that the last of them left the state as it is.

For the frontend, each started upstream call is taken to yield one callback with a parsed response.

## What turned out not to hold

The code is modelled as it is. Where a property fails, the exact condition under which it holds is proved, and a
run or an input on which it fails is exhibited.

- A body exactly as long as a slot loses its last byte when a worker reads it, not when the bridge does
  (`DeliveredIsWritten`, `SlotLongBodyIsCut`, `SidecarCutsSlotLongBody`).
- A body that is not valid UTF-8 loses bytes when the bridge answers with it (`AnsweredIsWritten`,
  `LoneByteIsLost`, `SidecarLosesLoneByte`).
- An empty body is read, and answered to the bridge, as one NUL (`DeliveredIsWritten`, `AnsweredIsWritten`,
  `EmptyBodyIsNul`).
- A response without a waiting pipe is dropped and its two slots stay allocated for ever
  (`DroppedResponseOrphans`, `OrphansStay`, `ResponseIsOrphaned`). Enough of them fill their service's RX body pool
  (`PoolCanBeHeld`, `SidecarPoolCanBeHeld`); then every message for that service is turned back and nothing is
  delivered to it again (`HeldPoolStays`, `HeldPoolTurnsBack`, `HeldPoolStarves`).
- A response that arrives after its sender has issued 256 more requests lands on another request's pipe or
  nowhere (`LandsIff`, `LateResponseCrosses`); two bridge requests held at once by one worker cross
  (`TwoBridgeRequestsCross`).
- A combined bridge body survives exactly when it is printable ASCII without backslashes (`BodySurvivesIff`); what is
  read of any other is `BodyReadBack`. A header
  field of a bridge request survives exactly when it has no quotes either and no unmatched closing brace, in it or in
  a value printed before it, comes before its last character: the brace counter that cuts the header out does not know
  of strings (`FieldSurvivesIff`, `BraceCutsPath`, `BraceShutsHeader`). The fields behind such a brace are not found at
  all (`LaterFieldsLost`): the worker then takes an empty id and source, and for method, path and query whatever its
  static buffers held before.
- Of the error messages only `name not found` is JSON. The others are sent without their last character, the closing
  brace, because the length given for them is one short (`IdServiceTells`, `AttendServiceTells`, `FrontendTurnsAway`,
  `FrontendGoesOn`, `FailureTexts`). The frontend's final body says what is meant exactly for names that need no
  escaping (`FinalBodyReadIff`).
- A request's query is lost behind a path of more than 255 characters, and what a method has beyond seven is taken for
  the path (`LongTargetRead`, `LongMethodRead`).
- A response whose status is not positive reaches the caller's handler with status 200 (`NoStatusReturns`).
- A data file that breaks off where an entry should begin leaves the entries before it in the store, though the load
  reports failure (`BrokenObject`).
- An empty upstream response, sent as one NUL, is never handed to the caller's handler
  (`ResponseThroughTheWire`); a body with a NUL never completes a parse (`RequestRoundTrip`).
- A request whose header and body exceed the connection buffer of 8191 bytes is never handed over: the connection
  is closed (`WellFormedSegmentation`).
- A completed HTTP parse can change when more bytes arrive, exactly when the request line or the content length
  ran past the bytes received (`SettledIff`, `BlankLineIsUnsettled`).
- Query lookup agrees with splitting on `&` exactly for keys without `&` (`LookupIff`).

## Model

| member | source | states |
|---|---|---|
| `MeshSafety.StepKeeps` | dpumesh/dpa_daemon.py:139-326 | every step of every thread (writer, DPA, sidecar, bridge, poller, reader) keeps the invariant: ownership, contents, queues, history |
| `MeshSafety.RunKeeps` | dpumesh/dpu_daemon.py:115-220 | hence every state of every run satisfies it |
| `MeshTheorems.NothingIsLost` | dpumesh/dpa_daemon.py:185-193 | no reachable state has a message in a branch that loses it: full ring, full pipe, full RX header pool, invalid descriptor |
| `MeshTheorems.RingsAreBounded` | dpumesh/common.py:64-67 | a ring never holds more descriptors than the pool behind it has slots, the sidecar's RX ring no more than two pools |
| `MeshTheorems.EveryPutHasRoom` | dpumesh/common.py:358-368 | whenever a thread is about to put a descriptor, a re-enqueue after backpressure included, its ring has room |
| `MeshTheorems.HeadersBehindBodies` | dpumesh/dpa_daemon.py:263-295 | at every moment a service uses no more RX headers than RX bodies |
| `MeshTheorems.HeaderCopyCannotFail` | dpumesh/dpa_daemon.py:278-294 | once case 3 has copied the body, the header allocation is granted |
| `MeshTheorems.OwnershipIsExclusive` | common/dpumesh.c:100-122 | no two messages own the same slot and every owned slot is marked allocated |
| `MeshTheorems.AllocatedIsOwned` | dpumesh/common.py:240-258 | every allocated slot is owned by a message in flight |
| `MeshTheorems.FreesAreOwned` | dpumesh/dpu_daemon.py:180-220 | every free, on success and error paths alike, is of a slot that the freeing message owns and nobody else does |
| `MeshTheorems.QuiescentIsEmpty` | common/dpumesh.c:699-703 | with nothing in flight every bitmap is clear and every ring empty |
| `MeshTheorems.DroppedResponseOrphans` | common/dpumesh.c:476-485 | a polled response goes to its pipe if and only if one waits under its index, and the entry is then empty; otherwise it is dropped and orphans exactly its RX header and body |
| `MeshTheorems.OrphansStay` | common/dpumesh.c:481-485 | no later step frees or touches an orphaned message's slots |
| `MeshTheorems.ExactlyOneOutcome` | common/dpumesh.c:749-867 | every message accepted is in flight or has one outcome, never both |
| `MeshTheorems.DeliveredIsWritten` | common/dpumesh.c:605-747 | the header, request id and direction a worker reads are those the sender wrote; the body too, if and only if it is not empty and shorter than a slot; a slot-long one is read without its last byte, an empty one as one NUL; a bridge request is read at the pod the bridge chose |
| `MeshTheorems.AnsweredIsWritten` | dpumesh/dpu_daemon.py:180-209 | the header the bridge answers with is the one the worker wrote; the body too, if and only if it is not empty, fits a slot and is the UTF-8 encoding of some text; one that fits is answered as `DropInvalid` leaves it, an empty one as one NUL |
| `Utf8.DropsNothingIff` | dpumesh/dpu_daemon.py:191-192 | decoding with errors ignored loses nothing if and only if the decoder finds no bad byte, which is so exactly for encoded text (`ValidIffEncoded`) |
| `Utf8.DroppedIsValid` | dpumesh/dpu_daemon.py:191-192 | and what it leaves is such text |
| `Utf8.ValidIffEncoded` | dpumesh/dpu_daemon.py:191-192 | bytes are valid to the decoder if and only if they are the encoding, by the table of section 3 of RFC 3629, of some sequence of scalar values |
| `Utf8.EncodedIsKept` | dpumesh/dpu_daemon.py:191-192 | every encoded text, in front of any bytes, is kept whole |
| `Utf8.OthersAreDropped` | dpumesh/dpu_daemon.py:191-192 | a byte at which no encoded character begins is dropped, and that byte alone |
| `Utf8.StrayByteIsDropped` | dpumesh/dpu_daemon.py:191-192 | of two texts with a byte between them that starts nothing, exactly the two texts are left |
| `MeshTheorems.RoutedOnTheSendersHeader` | dpumesh/dpu_daemon.py:123-137 | the sidecar decides on the header the sender wrote, and on its direction |
| `MeshTheorems.QueuedFitsTheWire` | dpumesh/common.py:110-135 | every queued descriptor survives packing into its 64 bytes |
| `MeshTheorems.ShippedSizesAreValid` | dpumesh/common.py:64-67 | the sizes in the source meet the model's assumptions |
| `MeshFifo.StepIsFifo` | dpumesh/common.py:358-383 | at every step of every thread and for every ring and pipe: what it held, followed by the message that starts waiting in it, is the message that stops waiting followed by what it holds then |
| `MeshFifo.StepMovesOne` | dpumesh/common.py:358-383 | and at most one message starts and at most one stops waiting there |
| `MeshFifo.FirstInFirstOut` | common/dpumesh.c:202-236 | over every run, the messages put into a ring or pipe are those taken from it, in the same order, followed by those it still holds |
| `MeshFifo.TakenInOrder` | common/dpumesh.c:220-236 | so the k-th message taken is the k-th that was put |
| `MeshFifo.NoOvertaking` | dpumesh/dpa_daemon.py:270-275 | of two messages put into the same ring or pipe in any run, a re-enqueue included, the one put earlier is taken first |
| `MeshFifo.WaitingIsUntouched` | dpumesh/common.py:370-383 | a message is taken with the descriptor it was put with |
| `MeshProgress.DrainingLowers` | dpumesh/dpa_daemon.py:139-315 | every step other than new traffic and backpressure lowers the sum of what remains to be done |
| `MeshProgress.DeadlockFree` | dpumesh/dpa_daemon.py:139-315 | for every routing policy, in every reachable state with a message that is no orphan, unless orphans hold a service's whole RX body pool, a step is enabled that is no refusal; if it is a routing decision it is the policy's on what the sender wrote, so a message is given up only where the policy says so |
| `MeshProgress.DrainsDry` | common/dpumesh.c:466-747 | a run of draining steps is bounded by that sum, and where, for some policy, nothing can be taken on, only orphans are in flight and only their slots are allocated, unless they hold a whole RX body pool |
| `MeshProgress.DrainsEmpty` | common/dpumesh.c:466-747 | without orphans it ends with nothing in flight and every pool and ring empty |
| `MeshProgress.HeldPoolStays` | common/dpumesh.c:481-485 | a pool held by orphans alone stays so after every step |
| `MeshProgress.HeldPoolTurnsBack` | dpumesh/dpa_daemon.py:270-275 | and every message taken for that service is turned back |
| `MeshRuns.EveryMessageArrives` | dpumesh/dpa_daemon.py:139-315 | for every routing policy and every state attained under it with only orphans in flight, every valid message arrives where the policy sends it: read at the pod, answered to the bridge, or, a response for which no pipe waits, orphaned at that pod, unless orphans hold its service's whole RX body pool |
| `MeshRuns.DeliveredWhereSent` | dpumesh/dpu_daemon.py:139-178 | over every run, a message the sidecar forwarded to a pod is read at that pod or nowhere |
| `MeshWitnesses.ResponseIsDelivered` | common/dpumesh.c:476-485 | a response is delivered in some run, after a request with its id |
| `MeshWitnesses.ResponseIsOrphaned` | common/dpumesh.c:476-485 | without one a run ends with one RX body and one RX header of the destination's service allocated and nothing else in the mesh |
| `MeshWitnesses.SlotLongBodyIsCut` | common/dpumesh.c:677-682 | under every policy that sends the header to a pod, a run in which a body as long as a slot is delivered there and differs from what was written |
| `MeshWitnesses.LoneByteIsLost` | dpumesh/dpu_daemon.py:186-193 | under every policy that sends the header to the bridge, a run in which a body of one invalid byte is answered as nothing |
| `MeshWitnesses.EmptyBodyIsNul` | common/dpumesh.c:835-838 | and one in which an empty body is answered as one NUL |
| `MeshWitnesses.PoolCanBeHeld` | common/dpumesh.c:476-485 | for every registered pod, under every policy that sends some response there, a run after which orphans hold its service's whole RX body pool |
| `MeshWitnesses.HeldPoolStarves` | dpumesh/dpa_daemon.py:270-275 | over every run: once orphans hold the pool they hold it for ever, and nothing is delivered to that service again |
| `SidecarPolicy.SidecarIsAdmissible` | dpumesh/dpu_daemon.py:139-178 | wherever its counters stand, what the sidecar decides is a policy the pipeline allows; which worker it is, is `SidecarTurns` |
| `SidecarPolicy.GivesUpIff` | dpumesh/dpu_daemon.py:139-168 | it gives a request up if and only if the service named in its URL has no worker, a response if and only if it names a worker that is not registered |
| `SidecarPolicy.ByPodSorts` | dpumesh/common.py:632 | sorting by pod gives the same workers, as often, in the order of their pods |
| `SidecarPolicy.CandidatesCounted` | dpumesh/common.py:616-634 | the list the selector chooses from has each registered worker of the service as often as the registry and no other |
| `SidecarPolicy.CallRoundTrips` | dpumesh/dpu_daemon.py:139-178 | under the sidecar's own policy, from every quiet state: a request with the header a worker prints for a URL is read at a pod of the service the URL names, and the answer, printed there from the header that was read, is read at the pod of the worker that called, on its pipe, with request id and body |
| `SidecarPolicy.SidecarCutsSlotLongBody` | common/dpumesh.c:677-682 | the slot-long body, sent in such a call |
| `SidecarPolicy.SidecarLosesLoneByte` | dpumesh/dpu_daemon.py:186-193 | the invalid byte, in such an answer to the bridge |
| `SidecarPolicy.SidecarPoolCanBeHeld` | common/dpumesh.c:476-485 | the held pool, by such answers to a worker that waits for none |
| `SidecarTurns.Router.GetWorkers` | dpumesh/common.py:616-634 | the collecting loop and the sort give that list |
| `SidecarTurns.Router.PickWorker` | dpumesh/dpu_daemon.py:44-53 | the worker chosen is the one at which the service's counter stands, and the counter moves on |
| `SidecarTurns.Router.RouteDescriptor` | dpumesh/dpu_daemon.py:139-168 | the decision on a descriptor, by the worker selector for a request, and the counters afterwards |
| `SidecarTurns.RequestsAreShared` | dpumesh/dpu_daemon.py:44-53 | in every stretch of every run, wherever the counters stood: of k requests for a service with n workers, routed or injected by the bridge, each worker's pod is sent k/n, rounded down or up, so one of every n in a row |
| `SidecarTurns.SomeTurnReaches` | dpumesh/dpu_daemon.py:139-151 | for every worker of the service there is a turn at which its request goes to that worker's pod |
| `SidecarTurns.RoutedOnce` | dpumesh/dpu_daemon.py:115-137 | over every run, no message is routed twice |
| `SidecarTurns.CountersAreAPolicy` | dpumesh/dpu_daemon.py:139-168 | so what the sidecar with its counters decides in a run is one of its policies, and what holds of runs under them holds of this run |
| `MeshNode.Node.CopyBuffer` | dpumesh/dpa_daemon.py:28-42 | allocate, read, write under interference: each operation is the machine's next one for this message, the result its new slot or -1 |
| `MeshNode.Node.Put` | common/dpumesh.c:202-218 | the ring gets the descriptor behind all it holds, if and only if it is not full, as one call on the bounded queue that `SharedRing` refines to bytes; no other ring changes |
| `MeshNode.Node.Take` | common/dpumesh.c:220-236 | the descriptor at the front leaves the ring and becomes the thread's, likewise |
| `MeshNode.Node.HandleHostTx` | dpumesh/dpa_daemon.py:139-193 | the handler's code, other threads running in between, takes the message to the end of the sidecar's ring or back to the end of its own; from a safe state the full-ring branch is never taken |
| `MeshNode.Node.Case2` | dpumesh/dpa_daemon.py:220-255 | the same for a bridge request: to the end of the destination's ring, or back to the end of the sidecar's |
| `MeshNode.Node.Case3` | dpumesh/dpa_daemon.py:257-315 | the same for a worker's message; from a safe state neither the header copy nor the put fails |
| `MeshNode.Node.HandleSidecarRx` | dpumesh/dpa_daemon.py:205-218 | dispatch by case, or cleanup when the destination is gone |
| `MeshNode.Node.CleanupSrcBuffers` | dpumesh/dpa_daemon.py:317-326 | both source slots are given back and the message's outcome is that it was discarded |
| `MeshNode.Node.PollHostTx` | dpumesh/dpa_daemon.py:124-137 | one round takes the front of a pod's ring if and only if there is one, does the machine's operations on that message and nothing else (`Handled`), and leaves it last in the sidecar's TX ring or last in its own; the node stays safe |
| `MeshNode.Node.PollSidecarRx` | dpumesh/dpa_daemon.py:197-203 | the same for the sidecar's RX ring: the message taken ends last in its destination's ring, last in this one, or discarded because the destination is gone |
| `MeshNode.Node.WriteMessage` | common/dpumesh.c:830-865 | the new message is begun in the state found, worked on by the machine's operations only, and queued behind all that waits, under the descriptor the sender built, or recorded as refused; the node stays safe |
| `MeshNode.Node.Dispatch` | common/dpumesh.c:473-490 | a response goes to its pipe or is orphaned, a request to the end of the notify pipe |
| `MeshNode.Node.PollWorker` | common/dpumesh.c:466-500 | the same for a worker's RX ring: the message taken ends last in the notify pipe, with its waiting caller, or orphaned |
| `MeshNode.Node.Consume` | common/dpumesh.c:708-747 | header and body are copied out, header freed before body, and what is handed over is recorded as delivered |
| `MeshNode.Node.ReadRequest` | common/dpumesh.c:605-706 | the same for the notify pipe: the message taken had no outcome before, and the handler is given the header its sender wrote and the body as far as it fits |
| `MeshNode.RealPlanIsComplete` | dpumesh/dpa_daemon.py:139-326 | what the handlers' proofs use about the machine is true of it, for every message and descriptor |
| `MeshNode.OthersLeaveIt` | dpumesh/dpa_daemon.py:80-86 | a step of any other thread keeps the state safe and leaves the handler's message alone: what `Yield` allows |
| `BufferPool.Pool.constructor` | common/dpumesh.c:48-82 | a new mapping represents an empty pool |
| `BufferPool.Pool.Alloc` | common/dpumesh.c:100-113 | the search loop over bitmap bytes is the machine's first-fit allocation, or -1 if and only if the pool is full |
| `BufferPool.Pool.Free` | dpumesh/common.py:252-258 | clearing a bitmap byte frees that slot and no other; a number out of range does nothing |
| `BufferPool.Pool.Write` | common/dpumesh.c:124-131 | copying bytes to a slot's offset changes that slot only; false exactly for a bad slot or oversized data |
| `BufferPool.Pool.Read` | common/dpumesh.c:133-139 | reading returns the slot's first bytes, at most a slot's worth |
| `BufferPool.SharedLayoutIsSound` | dpumesh/common.py:260-280 | the offsets keep slots behind the bitmap, inside the mapping and apart from one another |
| `Wire.PackRoundTrip` | dpumesh/common.py:80-135 | packing and unpacking gives a descriptor back if and only if every field fits its width and sign |
| `Wire.StructReadsAgree` | common/dpumesh.h:40-58 | the C struct's members at their offsets read the same descriptor from any 64 bytes as Python's unpack |
| `Wire.StructIsPacked` | common/dpumesh.h:40-58 | a cleared C struct with its members assigned is byte for byte what Python packs |
| `Wire.MessageLayout` | common/dpumesh.h:40-49 | from any 64 bytes: each of the first eight members is the little-endian word at its offset, signed or unsigned as declared |
| `Wire.SourceLayout` | common/dpumesh.h:49-57 | and the others, the four single bytes among them, likewise |
| `SharedRing.Ring.PutC` | common/dpumesh.c:202-218 | on the shared bytes, a put appends to the queue or, when full, changes nothing |
| `SharedRing.Ring.GetC` | common/dpumesh.c:220-236 | a get removes the front of the queue |
| `SharedRing.Ring.PutPython` | dpumesh/common.py:358-368 | the Python put is the same operation on the same bytes |
| `SharedRing.Ring.GetPython` | dpumesh/common.py:370-383 | the Python get likewise |
| `SharedRing.DoAll` | common/dpumesh.c:202-236 | any interleaving of C and Python calls gives the results, and leaves the contents, of one bounded FIFO of descriptors |
| `Correlation.EveryAnswerFindsItsRequest` | common/dpumesh.c:477-485 | over every run in which responses are in time and held requests at a worker have distinct indices, with ids wrapping at 2^32, what arrives on a request's pipe is its answer, what arrives at the bridge answers that bridge request, and nothing is dropped |
| `Correlation.LandsIff` | common/dpumesh.c:762-805 | a response lands on its own request's pipe if and only if its sender has not issued 256 more requests |
| `Correlation.LateResponseCrosses` | common/dpumesh.c:477-485 | a run after which the answer to the first request arrives on the pipe of the 257th |
| `Correlation.OneResponseForEachPipe` | common/dpumesh.c:477-485 | over every run, in time or not: at most one response arrives on the pipe of a request, and none while the pipe is in the table |
| `MeshCorrelation.RunAgrees` | common/dpumesh.c:476-485 | when the pipeline and the table run side by side, the pipeline's waiting pipes are the table's entries in every state |
| `MeshJoint.PipelineDrivesTable` | common/dpumesh.c:749-827 | every run of the pipeline, with workers that number their requests and answer what they hold and a sidecar that routes answers where they are addressed, has a run of the table beside it, each event enabled |
| `MeshJoint.PolledAnswersLand` | common/dpumesh.c:476-485 | so in the pipeline, after a calm run, every polled response answers a request of the pod it is polled at, and is handed to that request's own pipe if and only if the pod has not issued 256 more |
| `MeshExchange.Exchange` | common/dpumesh.c:749-867 | for every two registered pods and every policy that carries them there and back, a run of both in which a request is read and its answer delivered on the request's own pipe |
| `Correlation.ReadKeepsIff` | common/dpumesh.c:626-697 | after a request is read, every held request still finds its own metadata if and only if none shares its index |
| `Correlation.InCallbackIsCalm` | common/dpumesh.c:688-697 | a worker that answers inside its callback meets the index condition on every run, whatever the others do |
| `Correlation.OneBridgeRequestAtATime` | dpumesh/dpu_daemon.py:333-347 | holding one bridge request rules out reading another: all carry id 0 |
| `Correlation.TwoBridgeRequestsCross` | dpumesh/dpu_daemon.py:333-347 | two at once: the first answer reaches the second client |
| `Correlation.IndexOfSerial` | common/dpumesh.c:762-802 | wrapping of the 32-bit id does not disturb the index |
| `Tables.Context.IssueRequest` | common/dpumesh.c:759-805 | taking an id and installing a pipe in the array is the machine's issue event |
| `Tables.Context.TakePipe` | common/dpumesh.c:477-485 | looking up and clearing the pipe entry is its delivery event |
| `Tables.Context.NoteInbound` | common/dpumesh.c:626-697 | storing the metadata is its read event |
| `Tables.Context.AddressAnswer` | common/dpumesh.c:808-827 | the metadata an answer carries; on calm runs, that of the request it answers |
| `HeaderJson.ScanText` | common/dpumesh.c:355-372 | the scanner's pointer loops compute the field lookup, cut to the buffer |
| `HeaderJson.SeekIsSearch` | common/dpumesh.c:355-372 | the first substring match of `"key":` is the first piece between quotes that equals the key and is followed by a colon, never text that straddles a value |
| `HeaderJson.GetQuoted` | common/dpumesh.c:355-372 | in any printed object whose quotes inside values follow backslashes, the scanner finds the first entry with the key and returns its value up to the first quote, and nothing if there is none |
| `HeaderJson.HeaderRoundTrip` | common/dpumesh.c:334-372 | every string field of a quote-free header that fits the writer's buffer reads back, cut to the reader's |
| `HeaderJson.StatusRoundTrip` | common/dpumesh.c:374-383 | the status code reads back exactly |
| `JsonLoads.HeaderLoads` | dpumesh/common.py:763-764 | json.loads of a header that needs no escaping gives exactly its fields |
| `Case2.ScanCombined` | common/dpumesh.c:385-431 | the brace-counting and copying loops compute the parse of the combined text |
| `Case2.CombinedRoundTrip` | dpumesh/dpu_daemon.py:308-323 | for every header without braces, printed as json.dumps does, the header object comes back whole, cut to its buffer, and a body of printable ASCII without backslashes exactly, cut to its own |
| `Case2.BodySurvivesIff` | common/dpumesh.c:411-427 | with room to spare and whatever the header, a body comes back if and only if it is printable ASCII without backslashes |
| `Case2.BodyReadBack` | common/dpumesh.c:411-427 | for every header, body and buffer, the body that is read: quotes without their backslashes, other escapes as printed, behind a last backslash the closing quote and brace, cut to the buffer |
| `JsonEscape.EscapeMeans` | dpumesh/dpu_daemon.py:320-323 | what json.dumps prints of any text means, by section 7 of RFC 8259, that text: it is the scanner that does not undo it |
| `Case2Fields.HeaderFieldsRead` | common/dpumesh.c:645-654 | for every bridge request and every field: in the header as the parser cut it, the field is read as json.dumps printed it, as far as the cut header reaches, up to its first quote, or not at all if the header ends before its value; the header reaches the field's end if and only if no unmatched closing brace comes before it and the buffer is long enough |
| `Case2Fields.FieldSurvivesIff` | common/dpumesh.c:385-409 | with room to spare, what is read of a field in the parsed header is what the client sent if and only if it is printable ASCII without quotes and backslashes and no unmatched closing brace, in the values up to it, comes before its last character |
| `Case2Fields.LaterFieldsLost` | common/dpumesh.c:385-409 | behind such a brace no field is found, whatever the sizes |
| `Case2Fields.BraceCutsPath` | common/dpumesh.c:399-409 | a closing brace inside the path: the path is read up to it, the later fields are not found |
| `Case2Fields.BraceShutsHeader` | common/dpumesh.c:399-409 | so the path `}b` is read as `}` and the request id is lost, whatever the rest of the request |
| `Http.FindHeaderEnd` | common/http_parse.c:6-16 | the scanning loop computes the header end |
| `Http.HeaderEndIsFirst` | common/http_parse.c:6-16 | that is the first blank line in either convention |
| `Http.HeaderEndOfPrefix` | common/http_parse.c:6-16 | for every input, a prefix sees the header end if and only if it reaches it, and then the same one |
| `Http.ParseContentLength` | common/http_parse.c:18-31 | the scanning loop computes the content length |
| `Http.NamesLengthIff` | common/http_parse.c:22-24 | a line names the field if and only if it begins with `content-length:`, each letter small or capital |
| `Http.LengthTextIsFirst` | common/http_parse.c:18-31 | the length is read behind the first line that does, if there is one in the header |
| `Text.SignedRead` | common/http_parse.c:25-26 | a number is read behind any white space, with or without a plus sign |
| `Http.ReadRequest` | common/http_parse.c:33-74 | the loops of the request parser compute its specification |
| `Http.ReadResponse` | common/http_parse.c:95-120 | the same for the response parser |
| `Http.RefusedIff` | common/http_parse.c:95-104 | a response is refused if and only if its header ends within twelve characters, a request never |
| `HttpChunks.SettledIff` | common/http_parse.c:33-74 | a completed parse survives every further byte if and only if the request line and the content length stopped inside the bytes received |
| `HttpChunks.CompletesAt` | common/http_parse.c:61-65 | if the length stops inside the header, parsing asks for more on exactly the prefixes shorter than header plus body |
| `HttpChunks.CompletesAlike` | common/http_parse.c:33-74 | and gives the same request on all longer ones |
| `HttpChunks.Connection.OnRead` | common/tcp_handler.c:100-121 | one read callback: bytes up to the buffer's room are appended and parsed, and taking none closes the connection |
| `HttpChunks.Connection.OnReads` | common/tcp_handler.c:100-121 | the callback for one offer after another |
| `HttpChunks.WellFormedSegmentation` | common/tcp_handler.c:100-121 | for a well-formed header and every cutting into non-empty reads, the parse of the whole is handed over if and only if header and body are there and fit the buffer of 8191 bytes; otherwise the connection waits, or is closed if more came than fits |
| `HttpChunks.UnsettledSegmentationMatters` | common/tcp_handler.c:100-121 | an unsettled request with room left in the buffer can be cut in two ways with different results |
| `HttpChunks.BlankLineIsUnsettled` | common/tcp_handler.c:100-121 | a blank line alone is one |
| `HttpRoundTrip.RequestRoundTrip` | common/dpumesh_handler.c:79-98 | the synthesized request parses back to the same method, path, query and body; one with a NUL in its body never completes |
| `HttpRoundTrip.LongTargetRead` | common/http_parse.c:47-58 | for every path and query and any number of blanks: the path is read as far as 255 characters, the query as far as 511, and no query behind a path that was cut |
| `HttpRoundTrip.LongMethodRead` | common/http_parse.c:43-51 | a method of more than seven characters: the rest is read as the path |
| `HttpRoundTrip.UpstreamRoundTrip` | common/dpumesh_handler.c:150-158 | the synthesized response parses back to the same status and body, or with a NUL never completes |
| `HttpRoundTrip.FormattedRoundTrip` | common/http_parse.c:76-93 | so does the formatted response, for every status |
| `HttpRoundTrip.RequestThroughTheWire` | common/dpumesh_handler.c:64-98 | with the one-NUL encoding of empty bodies, a request body survives if and only if it is NUL-free |
| `HttpRoundTrip.ResponseThroughTheWire` | common/dpumesh_handler.c:133-158 | a response body survives if and only if it is also non-empty; otherwise the parse waits for ever |
| `JsonUtil.GetFromQuery` | common/json_util.c:75-93 | the loops compute the query scan |
| `JsonUtil.QueryGetIsLookup` | common/json_util.c:75-93 | for every query string and key without `&`, that is the value of the first segment starting with `key=`, cut to the buffer |
| `JsonUtil.LookupIff` | common/json_util.c:75-93 | and for all query strings exactly for those keys |
| `JsonUtil.KvStore.LoadFrom` | common/json_util.c:21-63 | the entry loop fills the store with what its specification loads |
| `JsonUtil.KvStore.Find` | common/json_util.c:67-73 | the search loop computes the lookup |
| `JsonUtil.ObjectLoaded` | common/json_util.c:21-63 | any printed flat object of integers and booleans, with any white space, loads as its entries in order: the first 256, keys cut to 63 characters |
| `JsonUtil.BrokenObject` | common/json_util.c:28-36 | an object that breaks off behind some entries: where no entry follows the load fails, where nothing follows it succeeds, and those entries are in the store |
| `JsonUtil.StoreIsMap` | common/json_util.c:21-73 | load, then get, is map lookup |
| `JsonUtil.LongKeysAreLost` | common/json_util.c:39-42 | a longer key is never found again |
| `ServiceChain.RoutedByName` | dpumesh/dpu_daemon.py:26-36 | the service name taken from a built URL, whatever its path, is the service it was built for |
| `ServiceChain.NameInUrl` | dpumesh/dpu_daemon.py:26-36 | in any URL it is what stands behind the second slash, up to the first dot, colon or slash |
| `ServiceChain.NoNameInUrl` | dpumesh/dpu_daemon.py:26-36 | and `unknown` when there are fewer than two slashes |
| `ServiceChain.TargetFound` | common/dpumesh.c:765-773 | path and query of a built URL are found behind the host; with nothing there they are `/` |
| `ServiceChain.TargetOfUrl` | common/dpumesh.c:765-773 | in any URL they begin at the first slash behind `://`, or are `/` |
| `ServiceChain.TargetOfNoUrl` | common/dpumesh.c:765-773 | and `/` when `://` does not occur |
| `ServiceChain.TargetSplit` | common/dpumesh.c:774-784 | they part at the first question mark, each cut to its buffer |
| `ServiceChain.TargetUnsplit` | common/dpumesh.c:774-784 | without one all of it is the path and the query is empty |
| `ChainTheorem.RequestArrives` | common/dpumesh_handler.c:58-102 | through URL, routing header and HTTP text, the called handler sees the method, path and query the caller asked for, no query where the URL has none, the path `/` where it ends behind the host |
| `ChainTheorem.CallRouted` | dpumesh/dpu_daemon.py:123-144 | the sidecar, reading the header as JSON, routes the call to the service it was meant for |
| `ChainTheorem.CallOrigin` | common/dpumesh.c:667-694 | the called worker reads the caller's name from the header and keeps it, with the request id, for its answer |
| `ChainTheorem.AnswerRouted` | dpumesh/dpu_daemon.py:158-174 | and the answer back to the worker that called, if and only if that is the source the callee read from the request's header |
| `ChainTheorem.ReplyReturns` | common/dpumesh_handler.c:133-162 | and the caller's handler the status and body the callee answered |
| `ChainTheorem.NoStatusReturns` | common/dpumesh_handler.c:133-158 | a status that is not positive arrives as 200 |
| `ChainTheorem.NamelessCall` | id_service/main_dpumesh.c:12-22 | a call of the id service without a query comes back with 400 |
| `ChainAnswers.IdServiceTells` | id_service/main_dpumesh.c:12-33 | for every request, the status and what json.loads makes of the body: 404 for another method or path, 400 without a name, 404 for an unknown name, 200 with the id |
| `ChainAnswers.AttendServiceTells` | attend_service/main_dpumesh.c:19-40 | the same for the attend service; any value but 0 is read as true |
| `ChainAnswers.FrontendTurnsAway` | frontend/main_dpumesh.c:28-38 | the frontend answers by itself, with 404 or 400, exactly the requests that are no GET of /lookup or have no name |
| `ChainAnswers.FrontendGoesOn` | frontend/main_dpumesh.c:60-105 | for every response: another status than 200 is passed on with its body, an id response without an id is answered with 502, an attendance response with 200 and exactly name, id and attendance |
| `ChainAnswers.FinalBodyReadIff` | frontend/main_dpumesh.c:91-101 | json.loads of the final body gives exactly name, id and attendance, if and only if the name needs no escaping |
| `ChainTheorem.ChainIsComposition` | frontend/main_dpumesh.c:28-105 | for every pair of stores and every plain name, the client reads from the frontend's answer the composition of the two lookups: 200 and exactly the name, its id and its attendance, or 404 |
| `ChainTheorem.IdCall` | id_service/main_dpumesh.c:12-33 | a call to the id service returns the id of the name, or 404 |
| `ChainTheorem.AttendCall` | attend_service/main_dpumesh.c:19-40 | a call to the attend service returns the attendance of the id, or 404 |
| `ChainTheorem.ChainOverFiles` | frontend/main_dpumesh.c:60-105 | the same with the stores loaded from printed JSON files: the client reads the composition of the two maps |
| `Frontend.AnsweredExactlyOnce` | frontend/main_dpumesh.c:28-105 | over every run, an accepted request is answered exactly once, as soon as none of its calls is outstanding, after at most two calls |
| `Frontend.FreedExactlyOnce` | frontend/main_dpumesh.c:28-105 | every context is freed exactly once and nothing freed is ever used |
| `Frontend.NothingLeaks` | common/dpumesh_handler.c:111-195 | with no call outstanding no connection and no context is left |
| `Frontend.CallbacksEnd` | frontend/main_dpumesh.c:60-105 | without new requests there are at most two callbacks for each first-stage call and one for each second-stage call |
| `FrontendProcess.Process.OnClientRequest` | frontend/main_dpumesh.c:28-59 | the handler as code over a heap, each access to a live object only, is the machine's accept event |
| `FrontendProcess.Process.OnUpstreamResponse` | frontend/main_dpumesh.c:60-105 | and the callback its callback event |
| `FrontendAnswers.EachIsToldItsOwn` | frontend/main_dpumesh.c:60-105 | under every interleaving of requests and callbacks: a client whose calls are done has been told once, and what its own request and the responses to its own calls make due, or that memory or a call failed; one that waits has been told nothing |
| `FrontendAnswers.ToldAsAlone` | frontend/main_dpumesh.c:28-105 | if its calls came back as the services answer, that is what it would be told alone |
| `FrontendAnswers.EachIsToldTheComposition` | frontend/main_dpumesh.c:28-105 | so under every interleaving of any number of clients, each reads the composition of the two lookups for its own name |
| `FrontendAnswers.FailuresAreTold` | frontend/main_dpumesh.c:40-58 | a request without memory for its context is answered with 500, one whose call cannot be started with 502 |
| `FrontendAnswers.FailureTexts` | frontend/main_dpumesh.c:40-58 | neither message is JSON |
| `RoundRobin.WorkerSelector.Select` | dpumesh/dpu_daemon.py:44-53 | the chosen index is in bounds for any list, whatever list the counter was left by; other services' counters stay |
| `RoundRobin.RoundRobinIsFair` | dpumesh/dpu_daemon.py:44-53 | for n workers and any counter, k selections choose each worker floor(k/n) or ceil(k/n) times |

## Left out

- Locks, mmap, files, pipes and threads as operating-system objects: pool and ring operations are atomic steps, pipes are queues.
- The shared mmap cursor of Python's pool reads and writes: their atomicity is an assumption.
- Starting or restarting a worker during traffic, which clears bitmaps in use.
- The sidecar's and the bridge client's code as methods: they are steps of the machine (`Mesh.SidecarOp`, `Mesh.BridgeOp`), so update in place is modelled there on values only.
- `MeshNode` works on bitmaps, contents and rings as values; `BufferPool` and `SharedRing` show the byte level for one pool and one ring at a time.
- What a handler does after a put or a header copy has failed: the machine marks the message as lost, and no reachable state does.
- Python's json.loads beyond objects of unescaped strings, integers, truth values and empty objects: `JsonLoads.Loads` has no result for other texts.
- The bridge's timeout and its dictionary of events; only matching by id string is modelled.
- How the bridge finds the service of a request that names no URL: any service with workers may be chosen.
- Changes of the registry while requests are routed: `RoundRobin` shows that a counter left by any list is in bounds for the next.
- libevent, sockets, DNS, the life of a TCP connection, and what tcp_handler.c does after its first completed parse.
- LoadFrom: a value that starts with `t` or `f` at the very end of the file makes the source step past its buffer; the model stops at the end.
- Text of snprintf results longer than their buffers in HTTP: the round trips require that the text fits the connection buffer.
- Fields of a parsed request that end in NULs because the line ran past the buffer are kept as stored characters, not as C strings.
- The pod registry's files, the pod id counter, `StepRegistry` and the legacy wrapper classes: the registry is a map.
- `memory_free_issue.md`, deployment files and test clients.
