# Daedalus Studio: protocol, transaction and parser kernels

Daedalus Studio is an Electron client. Around its user interface sit a number of small kernels that
decide whether it is safe to crash, to reconnect, to interleave or to be interrupted. This project
models those kernels and proves what they promise. Where the program changes state in place, the
model is a class or an array algorithm whose methods are proved against a specification over values;
the laws are then proved of that specification, for every input and every run.

| file | part of the program |
|---|---|
| `BackendDisk.dfy`, `BackendRuns.dfy`, `BackendOutcomes.dfy`, `BackendSwitch.dfy` | the two-marker transaction that switches the managed backend, the boot driver that re-enters it, the laws of whole sequences of processes, and which version each ends on |
| `OcrComponents.dfy`, `OcrBoxes.dfy` | text regions of a score grid: flood fill, widened and clipped boxes, row-by-row crop |
| `RateLimiter.dfy`, `RemoteProxy.dfy` | the remote gateway's token bucket and its per-device proxy |
| `Utf8.dfy`, `BrowserWire.dfy`, `BrowserWireReader.dfy` | the chunked wire: splitter and interleaving reassembler, between honest peers and against anything |
| `ZipFormat.dfy`, `ZipReader.dfy`, `ZipRefusals.dfy`, `ZipExtraction.dfy` | the ZIP reader and the extraction |
| `PluginRuns.dfy`, `PluginInstall.dfy` | the plugin transaction, and the laws of sequences of installations and removals |
| `InputGenerations.dfy`, `StartAgainstStop.dfy`, `InputAlone.dfy` | keyboard control: pause and stop against start and the injector, and each of them alone |
| `InputActions.dfy`, `InputMeaning.dfy`, `ActivationGate.dfy` | keyboard actions, what their events mean, and the activation gate |
| `ArgvQuoting.dfy` | Windows argument quoting against the C runtime's argument rules |
| `BrowserLeases.dfy`, `NativeChannel.dfy` | the browser extension's tab leases and its native connection |
| `Shortcuts.dfy` | the shortcut table: bindings, conflicts, recording and dispatch |
| `FlowOutbox.dfy`, `OutboxProgress.dfy` | the debounced outbox |
| `Wrappers.dfy` | `Option`, and the size of subsets |

## How it is modelled

* An `await` is a scheduling point and the code between two awaits is one step; a timer, a socket
  callback, a tab event or another thread's access to a shared atomic is a step of its own. Laws
  about runs hold for every sequence of such steps.
* Each file write, rename or removal of the backend transaction is one step that succeeds, throws,
  or is where the process dies, as a script says that is arbitrary for every process; so is which
  start succeeds. A recursive removal is two steps, so that a crash can leave a
  directory that is no longer intact but still there.
* The plugin transaction and keyboard input follow scripts of the same kind: what each step, check or
  batch does, and what others save or stop before it.
* What comes from outside is a parameter or an arbitrary input: clocks, `SendInput`, the
  foreground test, score grids, inflate, health checks, what other programs save.
* Token counts and image coordinates are real numbers.

## Where the code falls short of the plain statement

In each case the code is kept as it is, the exact condition is proved, and a lemma shows the failure.

* **Backend switch.** Rollback never inspects what it goes back to: the restored version is intact
  afterwards if and only if it was before (`RollbackExact`). Begun at crash point `k` of a commit, it
  restores an intact version if and only if `k` is not between the commit's first step of removing a
  previous version and its last (`RollbackInsideCommit`); inside that window it leaves neither version
  intact. There are three ways into the window, each with the same exact condition: the commit throws
  (`LateThrowExact`, `LateThrowLosesBoth`); the process dies there and the candidate, once healthy,
  no longer is (`RelapseExact`); or it dies there and a forced repair follows (`RepairExact`,
  `HalfCommitLosesBoth`). Staging is safe if and only if the version is not in use or will just be
  reused (`StageExact`). Where these are excluded - either no commit is cut short at all, or commits
  may die but do not throw, a version once healthy stays healthy and there is no forced repair; and a
  version number always stands for the same payload - any sequence of boots and updates, cut off
  anywhere, stays recoverable (`LifetimeSafe`) and one undisturbed boot settles it (`OneBootSettles`).
* **Chunked wire.** Within the sender's own limit a message arrives if and only if its UTF-8 length
  plus 2 for every surrogate pair cut at a chunk boundary is within the limit
  (`ArrivesExactlyWhen`). `PairAcrossBoundary` is a JSON string the sender lets through and the reader
  refuses.
* **Start against stop.** Stop and pause do not take the mutex. When one moves the counter while a
  start is under way, that start can still activate if and only if it is between its comparison and
  its store, or past its last look at the counter, and, where it has still to check its window,
  another stop has not taken that away (`BumpDecides`). `StopLostFromTheStart` is such a run from the
  initial state.
* **Shortcut conflicts.** One pass can leave a clash (`OnePassCanFail`); it does if and only if an
  override that does not clash at its turn uses the default of a later one that does
  (`OnePassEnough`). Repeating the pass ends without clashes (`SettledDistinct`).
* **Argument quoting.** Read on their own, the arguments always survive (`ArgumentsRoundTrip`). Behind
  a program name, which the C runtime reads by other rules, every list of arguments survives if and
  only if the quotes in that name come in pairs with no blank between the two of a pair
  (`ArgumentsSurvive`, with the arguments that are lost otherwise in `UnpairedLose`); the name itself
  does if and only if it has no quote and no trailing backslash (`CommandLineRoundTrip`).
* **Outbox.** A flow with id `__proto__` is accepted and acknowledged (`PrototypeResolves`) but never
  stored (`PrototypeIsNeverStored`); for every other id an acknowledged write is durable.
* **ZIP extraction.** Inspection accepts names with a drive prefix after the first slash. On Windows
  the check against escaping fires for an accepted name if and only if its last drive prefix is not
  the target's own, or parts with that prefix hide steps out of the target (`CheckFiresExactly`,
  `ForeignDriveFires`); for a target that is itself a root it fires for all but the root.
  Extraction of a well-formed archive succeeds if and only if the check fires
  for no name and no file lies at or above another member's path (`ExtractionRoundTrip`).
* **Plugin transaction.** A failure restores the plugin directory unless a step of the undoing fails or
  the final removal of the old copy stops halfway, and then what is left of it is put back
  (`FailureRestores`, `UpgradeSpoils`). What others save in `project.godot` meanwhile is lost - by an
  operation that succeeds or by one that fails in that last removal - if and only if it falls between
  the comparison and the operation's last write and none follows (`SaveLostExactly`); `SaveIsLost` is
  an installation and a removal that succeed and lose a save.

## Model

| member | source | states |
|---|---|---|
| BackendDisk.ActivateCrashSafe | src/main/services/backend-binary-store.ts:760-774 | activating an intact candidate keeps the disk recoverable at every crash point, and ends with both markers written from the old current marker |
| BackendDisk.CommitCrashSafe | src/main/services/backend-binary-store.ts:776-807 | with a candidate judged healthy, every crash point of commit is recoverable; the end has no pending marker and the candidate active and intact |
| BackendDisk.CommitMiddle | src/main/services/backend-binary-store.ts:785-805 | from its first write to its last removal commit keeps the pending marker and the candidate's directory intact |
| BackendDisk.RollbackCrashSafe | src/main/services/backend-binary-store.ts:809-845 | a rollback towards an intact version is recoverable, and can be started again, at every crash point; the end has no pending marker and the previous version active |
| BackendDisk.RollbackMiddle | src/main/services/backend-binary-store.ts:814-842 | after its first write rollback has the previous version active and untouched while the pending marker stays |
| BackendDisk.RollbackExact | src/main/services/backend-binary-store.ts:809-845 | what rollback restores is intact afterwards exactly when it was intact before: rollback itself checks nothing |
| BackendDisk.CommitEnd | src/main/services/backend-binary-store.ts:776-807 | the step-by-step commit has the effect of settling the marker, erasing the previous version and clearing the pending marker, and nothing else |
| BackendDisk.RollbackEnd | src/main/services/backend-binary-store.ts:809-845 | the step-by-step rollback has the effect of restoring the previous marker (or none), erasing the candidate and clearing the pending marker, and nothing else |
| BackendDisk.CommitRestart | src/main/services/backend-binary-store.ts:776-807 | commit interrupted at any crash point and run again is not refused and ends exactly where an uninterrupted commit ends |
| BackendDisk.RollbackRestart | src/main/services/backend-binary-store.ts:809-845 | rollback interrupted at any crash point and run again ends exactly where an uninterrupted rollback ends |
| BackendDisk.RollbackInsideCommit | src/main/services/backend-binary-store.ts:785-845 | a rollback begun at any crash point of a commit restores an intact version if and only if that point is outside the removal of the previous version; inside, it leaves neither version intact |
| BackendDisk.StageCrashSafe | src/main/services/backend-binary-store.ts:658-678 | staging a version that is not in use, or one that will be reused, keeps the disk recoverable at every crash point |
| BackendDisk.StageExact | src/main/services/backend-binary-store.ts:662-675 | with no update pending, staging is safe at every crash point if and only if the version is not in use or is intact with the same payload and passes its self-test |
| BackendDisk.StageEnd | src/main/services/backend-binary-store.ts:658-678 | completed staging leaves both markers alone and the version's directory intact |
| BackendDisk.SweepCrashSafe | src/main/services/backend-binary-store.ts:847-873 | cut off anywhere, removing the other versions leaves the markers and the active version alone |
| BackendDisk.SweepEnd | src/main/services/backend-binary-store.ts:853-872 | run to its end it leaves no listed version but the active one |
| BackendRuns.DoAllReaches | src/main/services/backend-binary-store.ts:771-843 | whatever happens to the file steps of an operation, it carries out a prefix of them, and all exactly when it completes |
| BackendRuns.CommitKeeps | src/main/services/backend-binary-store.ts:776-807 | under the hypotheses, a commit that dies anywhere leaves a recoverable disk, and one that completes leaves nothing pending and the candidate active |
| BackendRuns.RollbackKeeps | src/main/services/backend-binary-store.ts:809-845 | a rollback to an intact version that dies or throws anywhere leaves a disk that is recoverable and can be rolled back again; completed, it leaves nothing pending and the previous version active |
| BackendRuns.StartAndCommitKeeps | src/main/services/backend-bootstrap.ts:393-427 | it ends with nothing pending and the candidate or, rolled back, the previous version active; a throw leaves a disk that can be rolled back |
| BackendRuns.RecoverKeeps | src/main/services/backend-bootstrap.ts:327-366 | from every recoverable disk, a recovery that runs to its end leaves nothing pending and the candidate or the previous version active and intact, or none if there was none before |
| BackendRuns.InstallKeeps | src/main/services/backend-bootstrap.ts:368-391 | keeps the disk recoverable; success leaves nothing pending and the bundled or the earlier version active |
| BackendRuns.BootKeeps | src/main/services/backend-bootstrap.ts:251-324 | every branch keeps the disk recoverable; a healthy backend means nothing pending; without failing file steps nothing is pending afterwards whatever is healthy, and with successful starts the boot ends ready |
| BackendRuns.UpdateKeeps | src/main/services/app-update.ts:700-731 | the update flow keeps the disk recoverable wherever it is cut off; success leaves nothing pending and the new version active and intact; undisturbed it succeeds |
| BackendRuns.UpdateClears | src/main/services/app-update.ts:700-731 | an update that ends ready has left no version's directory but its own |
| BackendRuns.LifetimeSafe | src/main/services/backend-bootstrap.ts:221-427 | any sequence of boots and updates, each cut off or disturbed at any file step, keeps the disk recoverable, under hypotheses on what happens to the steps and starts alone |
| BackendRuns.RecoverySettles | src/main/services/backend-bootstrap.ts:257-273 | after any such sequence, a completed recovery leaves no pending marker and the candidate or the previous version active and intact |
| BackendRuns.OneBootSettles | src/main/services/backend-bootstrap.ts:221-325 | after any such sequence, one boot without failing file steps converges: nothing pending, active version intact; and ready if starts succeed |
| BackendRuns.LateThrowExact | src/main/services/backend-bootstrap.ts:393-427 | when a healthy candidate's commit throws at step k, the rollback that follows leaves an intact version if and only if k is outside the removal window |
| BackendRuns.RelapseExact | src/main/services/backend-bootstrap.ts:393-427 | the same condition decides when the process died at step k and the candidate is no longer healthy |
| BackendRuns.RepairExact | src/main/services/backend-bootstrap.ts:251-255 | the same condition decides when a forced repair that can stage nothing follows |
| BackendRuns.LateThrowLosesBoth | src/main/services/backend-binary-store.ts:785-806 | a concrete update after which neither version is intact |
| BackendRuns.HalfCommitLosesBoth | src/main/services/backend-bootstrap.ts:251-255 | a concrete half-finished commit that a relapse and a repair both turn into no intact version |
| BackendOutcomes.StartDecides | src/main/services/backend-bootstrap.ts:393-427 | without failing file steps, a version that starts is kept; one that does not is rolled back to the previous version if an update was pending, and that is started; the outcome is exactly whether the version it ends on started |
| BackendOutcomes.InstallDecides | src/main/services/backend-bootstrap.ts:368-391 | installing ends on the bundled version if that passes its self-test and starts, and otherwise on the version found |
| BackendOutcomes.BootDecides | src/main/services/backend-bootstrap.ts:275-324 | with nothing pending, the bundled version is installed exactly when there is no active version, it is older, or a repair is forced; otherwise the version found stays and the boot is ready exactly if it starts |
| BackendOutcomes.RecoverDecides | src/main/services/backend-bootstrap.ts:327-366 | recovery keeps the candidate exactly if it is active and starts, and otherwise goes back to the previous version |
| BackendOutcomes.BootEndsOn | src/main/services/backend-bootstrap.ts:251-324 | the version that any undisturbed boot of any recoverable disk ends on: a pending update settles first; where that leaves none, where nothing was pending and the active version is older, and in a repair, it is the bundled one |
| BackendOutcomes.BootRefuses | src/main/services/backend-bootstrap.ts:257-321 | a boot refuses exactly an unreadable pending marker, an unreadable current marker that is no legacy one, and an active version that is damaged but compatible |
| BackendOutcomes.UpdateDecides | src/main/services/app-update.ts:700-731 | an update ends ready on its version if that passes its self-test and starts, and otherwise fails with the version it found active and started again |
| BackendOutcomes.FinishClears | src/main/services/backend-bootstrap.ts:398-412 | a start that is committed to its end has left no other version's directory and marked the boot as done |
| BackendOutcomes.LifetimeEndsOn | src/main/services/backend-bootstrap.ts:221-427 | after any sequence of boots and updates under the hypotheses, the version that a last, undisturbed boot ends on |
| BackendSwitch.Backend.Perform | src/main/services/backend-binary-store.ts:771-772 | one file step takes full effect or, having thrown or died, none |
| BackendSwitch.Backend.ActivateBackendCandidate | src/main/services/backend-binary-store.ts:760-774 | does, step by step, exactly what the activation plan says under the script |
| BackendSwitch.Backend.CommitBackendCandidate | src/main/services/backend-binary-store.ts:776-807 | refuses, touching nothing, anything but the active candidate; otherwise carries out exactly the commit plan as far as the script lets it |
| BackendSwitch.Backend.RollbackBackendCandidate | src/main/services/backend-binary-store.ts:809-845 | carries out exactly the rollback plan as far as the script lets it, and returns the previous marker |
| BackendSwitch.Backend.RemoveLegacyManagedBackends | src/main/services/backend-binary-store.ts:847-873 | the loop over the listed directories removes exactly all but the active one, in order, as far as the script lets it |
| BackendSwitch.Backend.FinalizeStaging | src/main/services/backend-binary-store.ts:658-679 | reuse, replacement and failed self-test do exactly the staging plan |
| BackendSwitch.Backend.StartAndCommitCurrent | src/main/services/backend-bootstrap.ts:393-427 | the whole resulting state and outcome, for any script |
| BackendSwitch.Backend.RecoverPendingUpdate | src/main/services/backend-bootstrap.ts:327-366 | the whole resulting state and answer, for any script |
| BackendSwitch.Backend.InstallBundledAndStart | src/main/services/backend-bootstrap.ts:368-391 | the whole resulting state and outcome, for any script |
| BackendSwitch.Backend.RunPrepare | src/main/services/backend-bootstrap.ts:235-325 | the whole resulting state and answer of a boot, for any script |
| BackendSwitch.Backend.RunUpdate | src/main/services/app-update.ts:700-731 | the whole resulting state and answer of the update flow, for any script |
| BackendSwitch.Live | src/main/services/backend-bootstrap.ts:221-325 | running processes one after the other gives exactly the lifetime that the laws speak of |
| OcrComponents.Scan | native/computer-observation/ocr.cpp:77-103 | for any grid, the scan's components are exactly the 4-connected components of the cells with score at least 0.3, each whole, without repeats, disjoint, covering all such cells, in the order of their first cells, with tight bounding boxes and score sums |
| OcrComponents.Fill | native/computer-observation/ocr.cpp:82-103 | from an unseen hot cell the growing queue ends as the whole component of that cell, marks exactly its cells as seen, and has its tight box |
| OcrComponents.Expand | native/computer-observation/ocr.cpp:93-102 | visiting the four neighbours queues every hot neighbour not yet queued, each once, and marks it seen |
| OcrComponents.ScanCell | native/computer-observation/ocr.cpp:79-83 | one cell of the outer loops keeps the scan's invariant: passed hot cells are seen, seen cells are the cells of the components found |
| OcrComponents.QueueIsComponent | native/computer-observation/ocr.cpp:86-103 | a duplicate-free queue of cells joined to its first, with every hot neighbour of each inside, is one whole component |
| OcrComponents.StillClosed | native/computer-observation/ocr.cpp:93-102 | marking a whole component leaves no hot cell bordering a seen cell from outside |
| OcrComponents.DistinctBounded | native/computer-observation/ocr.cpp:86 | a queue without repeats never outgrows the grid, so the growing loop ends |
| OcrComponents.AdjacentIsNeighbour | native/computer-observation/ocr.cpp:93-97 | the four offsets with the border test reach every grid cell at distance one |
| OcrComponents.ExtentTight | native/computer-observation/ocr.cpp:84-92 | widening from the first cell over the queue gives the smallest box around it |
| OcrComponents.ConnectedSymmetric | native/computer-observation/ocr.cpp:80-102 | being joined by a path of hot cells is symmetric |
| OcrComponents.TogetherIsConnected | native/computer-observation/ocr.cpp:77-103 | two cells are found in one component if and only if a path of hot cells joins them |
| OcrComponents.ScanUnique | native/computer-observation/ocr.cpp:77-103 | the scan's specification determines its result: the same components in the same order |
| OcrBoxes.BoxFits | native/computer-observation/ocr.cpp:107-117 | for a component of the scan the widened, scaled and clipped box is a nonempty rectangle inside the image that encloses every pixel under the component's cells |
| OcrBoxes.AxisRange | native/computer-observation/ocr.cpp:107-115 | on one axis truncating, rounding up and clipping give 0 <= low < high <= pixels |
| OcrBoxes.AxisHolds | native/computer-observation/ocr.cpp:107-115 | the range covers the pixels of every grid cell between the component's first and last |
| OcrBoxes.MarginBounds | native/computer-observation/ocr.cpp:107-108 | the margin is between 3/8 and 3/4 of the component's shorter side |
| OcrBoxes.EdgesExact | native/computer-observation/ocr.cpp:109-115 | each edge is the pixel that the widened side falls in, or the image's edge |
| OcrBoxes.BoxWidened | native/computer-observation/ocr.cpp:107-117 | a box reaches 3/8 to 3/4 of the shorter side beyond its component, to the pixel, or to the image's edge |
| OcrBoxes.Boxes | native/computer-observation/ocr.cpp:77-120 | the boxes are those of the first 500 components that pass the size and score filter, in scan order, and truncation is reported exactly when there are more |
| OcrBoxes.KeptAreComponents | native/computer-observation/ocr.cpp:104-106 | filtering keeps exactly the components of at least 6 cells, mean score 0.6 and extent 3 by 3 |
| OcrBoxes.SourceInside | native/computer-observation/ocr.cpp:134-137 | every copied row lies within the image's bytes |
| OcrBoxes.Crop | native/computer-observation/ocr.cpp:131-137 | each row copy is in bounds of both buffers and the crop is exactly the box's pixels |
| RateLimiter.RemoteRequestRateLimiter.Consume | src/main/services/remote-gateway.ts:265-275 | one call refills, moves the clock forward only, and accepts exactly when a whole token is there |
| RateLimiter.BalanceStep | src/main/services/remote-gateway.ts:265-275 | between two calls the balance grows by the rate times the advance of the running maximum clock, less what was taken, capped |
| RateLimiter.BalanceIsLeastWindow | src/main/services/remote-gateway.ts:265-275 | the balance each call finds is the minimum over all earlier calls of burst plus refill since then minus what was accepted since then |
| RateLimiter.AcceptedIffWindowsHold | src/main/services/remote-gateway.ts:250-276 | a request is accepted if and only if every window ending now, with it, stays within burst plus rate times length, even when the clock goes backwards |
| RateLimiter.WindowBound | src/main/services/remote-gateway.ts:250-276 | no window of any run holds more accepted requests than its allowance |
| RateLimiter.BackwardsClock | src/main/services/remote-gateway.ts:266-271 | a reading behind the latest one refills nothing and leaves the clock where it was |
| RemoteProxy.RemoteDeviceProxy.Attach | src/main/services/remote-gateway.ts:298-318 | the whole new state of attaching a connection: replacing a live one closes it and drops the queue |
| RemoteProxy.RemoteDeviceProxy.Close | src/main/services/remote-gateway.ts:320-338 | the whole new state of closing, once: both sockets ended, nothing queued |
| RemoteProxy.RemoteDeviceProxy.EnsureUpstream | src/main/services/remote-gateway.ts:340-355 | starts a set-up only when none is under way and no upstream is open or connecting |
| RemoteProxy.RemoteDeviceProxy.SetupContinues | src/main/services/remote-gateway.ts:358-367 | after its await a set-up re-checks disposal and the upstream before it creates a socket |
| RemoteProxy.RemoteDeviceProxy.UpstreamOpened | src/main/services/remote-gateway.ts:368-371 | an opened upstream that is still the current one is sent the whole queue, in order |
| RemoteProxy.RemoteDeviceProxy.HandleUpstreamClosed | src/main/services/remote-gateway.ts:384-391 | a closed upstream that is still the current one is forgotten and the downstream closed |
| RemoteProxy.RemoteDeviceProxy.HandleDownstreamMessage | src/main/services/remote-gateway.ts:395-430 | refusals in the source's order; an accepted request is sent or queued |
| RemoteProxy.StepKeeps | src/main/services/remote-gateway.ts:298-430 | every callback and continuation keeps: one live upstream, an open upstream has an empty queue, one set-up at a time, nothing after disposal |
| RemoteProxy.OrderedAtMostOnce | src/main/services/remote-gateway.ts:298-430 | on every run sent followed by queued is a subsequence of accepted, an open upstream implies an empty queue, and no two upstream sockets are open or connecting together |
| RemoteProxy.Conservation | src/main/services/remote-gateway.ts:298-430 | on every run each accepted request is sent, queued or given up, and none is given up if and only if no close and no replacing connection found anything queued |
| RemoteProxy.NothingAfterClose | src/main/services/remote-gateway.ts:320-371 | after close nothing is sent and no upstream socket is created or live, whatever comes |
| RemoteProxy.SentWithinAllowance | src/main/services/remote-gateway.ts:250-276 | over a whole run no more goes upstream than the burst plus the refill since the first request |
| RemoteProxy.AcceptedExactly | src/main/services/remote-gateway.ts:395-430 | a request is accepted exactly from the current connection, valid, and within the rate limit |
| RemoteProxy.AlwaysUnderWay | src/main/services/remote-gateway.ts:316-355 | after an attach or an accepted request of an undisposed proxy an upstream is open or connecting, or a set-up is under way |
| RemoteProxy.SetupEnds | src/main/services/remote-gateway.ts:349-354 | a set-up that is over, whatever came of it, is not waited for any more |
| RemoteProxy.GetsThrough | src/main/services/remote-gateway.ts:340-430 | from any state without an upstream or set-up, an accepted request and the answers to the set-up it starts leave nothing queued, and that request sent last |
| RemoteProxy.SentAtOnce | src/main/services/remote-gateway.ts:420-423 | with an open upstream an accepted request is sent at once |
| RemoteProxy.CurrentExactly | src/main/services/remote-gateway.ts:298-318 | the connection whose requests count is the latest attached, until it closes |
| RemoteProxy.DownstreamEndsExactly | src/main/services/remote-gateway.ts:298-415 | an open connection of the device ends exactly with its own closing, its replacement, an invalid frame, the loss of the upstream, or the proxy's close |
| RemoteProxy.DisposedExactly | src/main/services/remote-gateway.ts:320-322 | on every run the proxy is disposed exactly from its first close on |
| BrowserWire.BrowserPackets | src/contracts/browser-wire.ts:10-25 | a message is refused exactly when its UTF-8 length exceeds the limit |
| BrowserWire.PacketsWellFormed | src/contracts/browser-wire.ts:14-24 | the sender makes 1 to 32 packets, each well-formed for the reader, whose texts join to the message |
| Utf8.LengthIsEncoded | src/contracts/browser-wire.ts:15-16 | what both sides count is the length of the UTF-8 encoding (RFC 3629, section 3) of the text with lone surrogates replaced |
| Utf8.RoundTrip | src/contracts/browser-wire.ts:15-16 | which is the right one: decoding, of shortest forms only, gives back the code points |
| BrowserWire.PiecesFull | src/contracts/browser-wire.ts:17-24 | every packet but the last is full, and the last is empty only if the text is |
| BrowserWire.CutCost | src/contracts/browser-wire.ts:15 | UTF-8 length is additive except that cutting a surrogate pair costs two bytes |
| BrowserWire.ReaderBytes | src/contracts/browser-wire.ts:76 | the reader counts the sender's bytes and two more for every pair cut at a chunk boundary, at most one a boundary |
| BrowserWire.BrowserPacketReader.Accept | src/contracts/browser-wire.ts:37-86 | the whole effect of a packet: purge, shape, slot, order, budget, completion |
| BrowserWire.ReaderAlways | src/contracts/browser-wire.ts:37-86 | whatever arrives and whenever, the reader never holds more than 8 transfers, each with next = number of pieces < count and bytes within the limit |
| BrowserWire.StaysFaithful | src/contracts/browser-wire.ts:37-86 | in every interleaving the reader holds of each of our messages exactly the pieces sent so far, with the right count, byte sum and expiry |
| BrowserWire.Delivery | src/contracts/browser-wire.ts:37-86 | in every interleaving of in-time transfers, at most 8 open together and with arbitrary foreign input between, a message's last packet yields exactly the original text and every earlier one nothing |
| BrowserWire.SlotFound | src/contracts/browser-wire.ts:61-62 | in every run, fewer than 8 transfers open - ours under way and in time, and others begun in the last 10 seconds - leave a free slot |
| BrowserWire.ArrivesExactlyWhen | src/contracts/browser-wire.ts:14-24 | a message the sender lets through arrives if and only if its length plus two for every pair cut is within the limit |
| BrowserWire.EnoughRoom | src/contracts/browser-wire.ts:14-24 | UTF-8 length plus 2 * (count - 1) within the limit is always enough |
| BrowserWire.PairAcrossBoundary | src/contracts/browser-wire.ts:14-24 | a JSON string of exactly the sender's limit that is sent and does not arrive |
| BrowserWireReader.CompleteWasSent | src/contracts/browser-wire.ts:30-90 | whatever arrives, a text that the reader completes is that of all the packets of one id, arrived in order within 10 seconds, of at most 4 MB together |
| BrowserWireReader.RefusedExactly | src/contracts/browser-wire.ts:30-90 | each refusal, exactly, and that a packet out of order or over the limit ends its transfer |
| ZipFormat.CentralFields | src/main/services/godot-projects.ts:196-206 | the offsets the reader uses find the fields of a central header laid out by section 4.3.12 of the PKWARE APPNOTE |
| ZipFormat.LocalFields | src/main/services/godot-projects.ts:248-253 | the same for local headers, section 4.3.7 |
| ZipFormat.EndFields | src/main/services/godot-projects.ts:187-188 | the same for the end record, section 4.3.16 |
| ZipReader.FindEndOfCentralDirectory | src/main/services/godot-projects.ts:172-180 | finds the last signature within the last 65557 bytes, and fails only when there is none |
| ZipReader.ValidationExact | src/main/services/godot-projects.ts:159-170 | what is accepted is a safe name with plain slashes, and such a name is accepted unchanged |
| ZipReader.InspectZipEntries | src/main/services/godot-projects.ts:182-232 | the size and count limits, the missing directory, and otherwise the walk from the last end record |
| ZipReader.CentralRoundTrip | src/main/services/godot-projects.ts:196-230 | a printed central header reads back as its member, with the offset behind it |
| ZipReader.DirectoryRoundTrip | src/main/services/godot-projects.ts:193-231 | a printed directory reads back as its members in order |
| ZipReader.InspectionRoundTrip | src/main/services/godot-projects.ts:182-232 | inspecting any printed archive within the limits, with no later end signature, gives its entries in order |
| ZipRefusals.NamesExactly | src/main/services/godot-projects.ts:159-170 | the names that are taken, byte by byte: not empty, no separator or drive prefix in front, no two dots alone between separators of either kind |
| ZipRefusals.InspectionDecides | src/main/services/godot-projects.ts:182-232 | for any archive that the format can hold, inspection succeeds if and only if there are at most 2000 members, each with a safe name, no symbolic link, stored or deflated, that unpack to at most 128 MB |
| ZipExtraction.CheckFiresExactly | src/main/services/godot-projects.ts:237-240 | for a name inspection has accepted and a target that is no root, the check against escaping fires if and only if, on Windows, the last drive prefix is not the target's own or hidden dots lead out of the target; never on other systems or without such prefixes; at a root it fires for all but the root itself |
| ZipExtraction.ForeignDriveFires | src/main/services/godot-projects.ts:159-170 | a name that passes inspection and fires the check for every target on another drive |
| ZipExtraction.LocationOfPlain | src/main/services/godot-projects.ts:237 | a name without drive prefixes leads, below the target, through its own parts that are neither empty nor a dot |
| ZipExtraction.LocationOfOwnDrive | src/main/services/godot-projects.ts:237 | a name with prefixes of the target's own drive leads where it would without them |
| ZipExtraction.FolderNames | src/main/services/godot-projects.ts:242-245 | an entry is a folder exactly if nothing follows its last slash |
| ZipExtraction.ExtractEntries | src/main/services/godot-projects.ts:236-264 | entries are written one after the other, the first failure ends the extraction |
| ZipExtraction.ExtractZip | src/main/services/godot-projects.ts:234-265 | extraction writes the inspected entries or fails as inspection does |
| ZipExtraction.FoldersAdded | src/main/services/godot-projects.ts:262 | creating parents adds exactly the missing folders and fails only where a file is in the way |
| ZipExtraction.PlacingFrom | src/main/services/godot-projects.ts:236-264 | entries that are not in each other's way are all written, and nothing besides them and their folders |
| ZipExtraction.PlacingNeedsRoom | src/main/services/godot-projects.ts:262-263 | when all are written, no file lies at or above another entry's path |
| ZipExtraction.ExtractionRoundTrip | src/main/services/godot-projects.ts:165-265 | printing and extracting succeeds if and only if the check fires for no name and no file is in another member's way, and then recovers every file's content at its path below the target, and nothing else |
| PluginRuns.SucceedsExactly | src/main/services/godot-projects.ts:1073-1244 | for any script, an operation succeeds if and only if the package is there and verified, every forward step works and project.godot is at the comparison as it was read; it throws in dropping the old copy exactly when all before that went well |
| PluginRuns.SuccessPlaces | src/main/services/godot-projects.ts:1103-1118 | success leaves the verified staged copy, or no plugin, in place, and neither a backup nor a staged copy |
| PluginRuns.FailureRestores | src/main/services/godot-projects.ts:1119-1128 | if the undoing steps work, a failure restores the plugin directory if and only if the old copy's removal did not stop halfway on an undamaged copy; otherwise the damaged rest is put back |
| PluginRuns.OldCopyKept | src/main/services/godot-projects.ts:1119-1128 | whatever happens to the undoing steps, after a failure the old copy is whole in its place or aside, unless its own removal stopped halfway |
| PluginRuns.TextUntouched | src/main/services/godot-projects.ts:1084-1133 | an operation that does not come to rewrite project.godot leaves it as the others alone would have it |
| PluginRuns.TextRewritten | src/main/services/godot-projects.ts:1110-1128 | otherwise it ends as the rewritten text, or as read if the operation failed and restored it, with what others saved after that |
| PluginRuns.SaveLostExactly | src/main/services/godot-projects.ts:1110-1128 | for any script, what others have saved is lost if and only if the operation comes to rewrite project.godot and a save that changes it falls between the comparison and the operation's last write, with none after |
| PluginRuns.SaveIsLost | src/main/services/godot-projects.ts:1110-1118 | an installation and a removal that succeed and overwrite a save |
| PluginRuns.UpgradeSpoils | src/main/services/godot-projects.ts:1118-1128 | an upgrade whose last removal stops halfway ends with the old copy spoiled and a save lost |
| PluginRuns.FailuresLeaveNoTrace | src/main/services/godot-projects.ts:1073-1244 | after any sequence of installations and removals in which undoing works and no removal of an old copy stops halfway, the plugin directory is what the last successful one left, and never an unverified plugin that was not there at first |
| PluginRuns.CleansUp | src/main/services/godot-projects.ts:1130-1132 | if cleaning works, an installation leaves nothing in its staging directory |
| PluginInstall.PluginProject.ApplyInstallOrUpgrade | src/main/services/godot-projects.ts:1073-1135 | the whole resulting state and the step that threw, for any script |
| PluginInstall.PluginProject.ApplyUninstall | src/main/services/godot-projects.ts:1209-1244 | the whole resulting state and the step that threw, for any script |
| PluginInstall.PluginProject.PlaceNew | src/main/services/godot-projects.ts:1087-1109 | staging, verification and the two renames, with the flags that the catch block reads |
| PluginInstall.PluginProject.CompareAndRewrite | src/main/services/godot-projects.ts:1110-1118 | compares, rewrites and drops the old copy exactly as the script lets it |
| PluginInstall.PluginProject.PutBack | src/main/services/godot-projects.ts:1119-1129 | the catch block attempts every step, whatever became of the one before |
| InputGenerations.AlwaysInvariant | native/computer-observation/control.cpp:24-36 | every interleaving of stop, pause, start and injectors keeps mutual exclusion and the generation bookkeeping |
| InputGenerations.AtMostOneLateBatch | native/computer-observation/control.cpp:189-192 | in every interleaving at most one batch of a generation is sent after the counter has moved past it |
| InputGenerations.NothingOldAfterStart | native/computer-observation/control.cpp:105-128 | once a start has bumped the counter inside the mutex, no batch of an earlier generation is ever sent |
| InputGenerations.CounterOnlyGrows | native/computer-observation/control.cpp:24-36 | with fresh generations the counter never goes back, so a bump invalidates for good |
| StartAgainstStop.RefusedForGood | native/computer-observation/control.cpp:127-154 | on every run, once a stop or pause has moved the counter between start's store and its last look at it, that start ends without activating |
| StartAgainstStop.BumpDecides | native/computer-observation/control.cpp:105-155 | in every reachable state with a start under way, a stop's or pause's move of the counter leaves a continuation in which that start activates if and only if it is between comparison and store, or past its last look at the counter, with its window not taken away |
| StartAgainstStop.AlwaysOrdered | native/computer-observation/control.cpp:105-128 | on every run no start's stored generation equals what another start compares with, and the counter is past it once that comparison has succeeded |
| StartAgainstStop.DoomedForGood | native/computer-observation/control.cpp:126-154 | a start that has missed its counter or its window never activates, on any continuation |
| StartAgainstStop.PoisedActivates | native/computer-observation/control.cpp:127-146 | one that the bump found in the gaps activates when it goes on alone |
| StartAgainstStop.StopLostFromTheStart | native/computer-observation/control.cpp:126-127 | a run from the initial state in which a whole stop comes between comparison and store and control is activated after it |
| StartAgainstStop.StopInTheGapIsLost | native/computer-observation/control.cpp:126-127 | a stop run whole between start's comparison and its store is overwritten, from any state |
| StartAgainstStop.StopBeforeActivation | native/computer-observation/control.cpp:143-145 | a stop run whole between start's last look at the counter and its last write leaves control active under a later generation |
| InputAlone.StartAlone | native/computer-observation/control.cpp:105-155 | a start that no other thread disturbs ends with control active, of its window and generation, from any state with the mutex free |
| InputAlone.GivesUp | native/computer-observation/control.cpp:143-153 | a start that finds the foreground gone disarms and leaves control inactive |
| InputAlone.PauseAlone | native/computer-observation/control.cpp:28-36 | a pause switches control off and moves the counter exactly if it was on or arming |
| InputAlone.InjectAlone | native/computer-observation/control.cpp:189-192 | a batch is sent exactly if control is active and of its generation |
| InputAlone.PartialEndsControl | native/computer-observation/control.cpp:193-201 | a batch that goes out in part ends control |
| InputActions.InputController.Injected | native/computer-observation/control.cpp:189-202 | a batch is sent whole, or not at all when paused, or in part with every key it pressed released and control ended |
| InputActions.InputController.Type | native/computer-observation/control.cpp:242-257 | text goes out as one press and release per code unit, all of it exactly if every check passes, every batch is taken whole and no stop or pause comes before the last; failing with anything but unknown means nothing was sent |
| InputActions.InputController.Act | native/computer-observation/control.cpp:210-267 | dispatched, exactly if the action is planned and no check, SendInput, stop or pause disturbs it, means every planned event went out in order; which refusals come first and with which code; a code other than unknown means no key event; unknown leaves no key down |
| InputActions.CutOffReleased | native/computer-observation/control.cpp:194-198 | after any part of a batch and its compensating releases no key of the batch is left down |
| InputActions.PlannedReleased | native/computer-observation/control.cpp:231-258 | every planned action releases every key it presses |
| InputMeaning.PlanMeans | native/computer-observation/control.cpp:231-258 | the events of an action type exactly the key of its name with the modifier of its name, or the characters of its text, and leave no modifier down; planned are exactly the named keys and combinations and texts of 1 to 4096 code units |
| ActivationGate.ControlActivationGate.Sample | native/computer-observation/control-activation.h:10-21 | the whole effect and answer of one sample |
| ActivationGate.GateRemembers | native/computer-observation/control-activation.h:10-24 | while waiting, the fields say exactly whether the foreground was seen and when the current unbroken stretch began |
| ActivationGate.ReadyExactly | native/computer-observation/control-activation.h:10-21 | Ready if and only if the samples end in an unbroken current, foreground, released stretch spanning at least 100 ms |
| ActivationGate.AnswerExactly | native/computer-observation/control-activation.h:10-21 | Cancelled, FocusRequired and UserBusy, each exactly when |
| ActivationGate.LosingFocusEnds | native/computer-observation/control-activation.h:12 | losing the foreground once seen ends the wait without Ready |
| ActivationGate.PatienceEnds | native/computer-observation/control-activation.h:18-19 | the first sample at or after 1500 ms never answers Waiting |
| ArgvQuoting.Quote | scripts/lib/windows-process-job.cs:63-74 | the counting loop prints what the recursive definition prints |
| ArgvQuoting.CommandLine | scripts/lib/windows-process-job.cs:92-93 | the command line is the quoted executable and the quoted arguments, each after a space |
| ArgvQuoting.TailRoundTrip | scripts/lib/windows-process-job.cs:65-73 | from any number of pending backslashes, what Quote still prints is read back as those backslashes and the rest of the value, and reading stops at its closing quote |
| ArgvQuoting.ArgumentsRoundTrip | scripts/lib/windows-process-job.cs:93 | for every list of strings the C runtime's rules give back exactly the arguments |
| ArgvQuoting.CommandLineRoundTrip | scripts/lib/windows-process-job.cs:92-93 | the program name is read back if and only if it has no quote and no trailing backslash, and then so is the whole command line |
| ArgvQuoting.ArgumentsSurvive | scripts/lib/windows-process-job.cs:92-93 | every list of arguments is read back behind the program name if and only if the quotes in that name are paired without a blank between the two of a pair |
| ArgvQuoting.UnpairedLose | scripts/lib/windows-process-job.cs:92-93 | for every other program name, arguments that are not read back |
| BrowserLeases.Extension.Connect | src/browser-extension/worker.ts:97-115 | a tab already held is refused; otherwise a target is registered before the first await of attaching |
| BrowserLeases.Extension.ConnectGoesOn | src/browser-extension/worker.ts:114-133 | each await of attaching continues or detaches |
| BrowserLeases.Extension.Lease | src/browser-extension/worker.ts:135-150 | who may take over a target, and what that renews |
| BrowserLeases.Extension.Heartbeat | src/browser-extension/worker.ts:157-171 | renews only a target that is not suspended |
| BrowserLeases.Extension.Finish | src/browser-extension/worker.ts:172-185 | suspends and opens the hand-over window |
| BrowserLeases.Extension.TabRead | src/browser-extension/worker.ts:188-221 | everything re-checked after the await before a command is sent |
| BrowserLeases.Extension.Sweep | src/browser-extension/worker.ts:232-240 | detaches exactly the targets whose time is up and changes no other |
| BrowserLeases.StepKeeps | src/browser-extension/worker.ts:44-259 | every segment, tick and event keeps: live targets have distinct tabs, and targets out of the table are suspended |
| BrowserLeases.OneTargetPerTab | src/browser-extension/worker.ts:100-113 | on every run live targets hold pairwise distinct tabs |
| BrowserLeases.LiveExactly | src/browser-extension/worker.ts:44-133 | on every run the table holds exactly the targets that a connect to a free tab made and that nothing has closed, lost, swept or failed to attach since |
| BrowserLeases.AcceptedExactly | src/browser-extension/worker.ts:97-185 | who is answered without an error: a connect to a free tab, the holder, and the holder's client in the hand-over window |
| BrowserLeases.ConnectCompletes | src/browser-extension/worker.ts:97-133 | a connect that each of its awaits answers ends with its target attached and leased for 5000 ms |
| BrowserLeases.AttachedExactly | src/browser-extension/worker.ts:116-117 | a target counts as attached exactly since its debugger was, and has not detached itself |
| BrowserLeases.LeasedExactly | src/browser-extension/worker.ts:97-187 | on every run a target is usable by a scope exactly if its latest connect, lease or heartbeat that counted was by that scope at most 5000 ms ago and nothing has ended the lease since |
| BrowserLeases.WorldExactly | src/browser-extension/worker.ts:218-221 | on every run a target's world is that of the latest answer to a command that created one |
| BrowserLeases.CommandsExactly | src/browser-extension/worker.ts:186-221 | on every run a command goes out exactly when a tab is read, unchanged, for a caller that asked for it and still has the lease, the method is one of the five without universal access, and an evaluation names the target's latest world; and it is the command that was asked for |
| BrowserLeases.ResultExactly | src/browser-extension/worker.ts:220-227 | the caller gets a command's result exactly if its scope still has the lease |
| BrowserLeases.LeaseAcceptedExactly | src/browser-extension/worker.ts:135-150 | on every run a lease is accepted exactly from the holder, or from its client at most 600000 ms after the holder's finish with no other lease in between |
| BrowserLeases.ScopeHandover | src/browser-extension/worker.ts:137-150 | on every run a target's scope changes only by such a lease |
| BrowserLeases.IdentityFixed | src/browser-extension/worker.ts:102-113 | on every run a target is there exactly if a connect made it, with the tab, session and connection of that connect |
| BrowserLeases.GoneForGood | src/browser-extension/worker.ts:44-61 | a target that has left the table never returns and is sent no further command |
| NativeChannel.NativeConnection.SetEnabled | src/browser-extension/native-connection.ts:57-63 | bumps the revision and resets before its first await |
| NativeChannel.NativeConnection.ConnectAfterStartup | src/browser-extension/native-connection.ts:96-98 | the guard of connect, after its first await |
| NativeChannel.NativeConnection.ConnectAfterSet | src/browser-extension/native-connection.ts:107-180 | re-checks the revision before opening the port; failures reset only a connection of the same revision |
| NativeChannel.NativeConnection.OnMessage | src/browser-extension/native-connection.ts:122-163 | only the current port's messages count; a bad handshake resets |
| NativeChannel.StepKeeps | src/browser-extension/native-connection.ts:57-181 | every callback and continuation keeps the channel's invariant |
| NativeChannel.ChannelSafety | src/browser-extension/native-connection.ts:57-181 | in every interleaving at most one port is live and it is the current one; connected implies a port and a port implies enabled; at most one connect of the current revision is between guard and port |
| NativeChannel.OvertakenInstallsNothing | src/browser-extension/native-connection.ts:94-111 | a connect overtaken by setEnabled never installs its port, whatever happens and whatever its awaits answer |
| NativeChannel.EnabledExactly | src/browser-extension/native-connection.ts:40-63 | on every run the channel is enabled exactly as the last setEnabled said, before any as storage answered, and off until then |
| NativeChannel.SwitchingOnConnects | src/browser-extension/native-connection.ts:57-181 | from any reachable state with startup done, switching on, with every await and the host answering, ends connected over a new, open port |
| NativeChannel.Reconnects | src/browser-extension/native-connection.ts:96-181 | and so does a connect() whenever the channel is enabled, without a port and not connecting |
| NativeChannel.PortEndsExactly | src/browser-extension/native-connection.ts:57-181 | a port goes exactly with the switch, its own loss, a bad message, a timeout before the handshake or a failed send, and is connected exactly from its handshake on |
| NativeChannel.CallEndsExactly | src/browser-extension/native-connection.ts:96-112 | a connect() call is over exactly when it is refused, an await of it fails, or it gets to its end |
| Shortcuts.NormalizeShortcutBinding | src/contracts/keyboard-shortcuts.ts:133-159 | the token loop finds what the specification finds: modifiers in any spelling and order, one key, printable keys only with a modifier |
| Shortcuts.NormalIsStable | src/contracts/keyboard-shortcuts.ts:133-159 | normalising a normal binding gives it back, with the same signature |
| Shortcuts.LetterKeys | src/contracts/keyboard-shortcuts.ts:114-117 | the letter keys are Key and one of A to Z |
| Shortcuts.DigitKeys | src/contracts/keyboard-shortcuts.ts:114-117 | the digit keys are Digit or Numpad and one of 0 to 9 |
| Shortcuts.FunctionKeys | src/contracts/keyboard-shortcuts.ts:118-120 | the function keys are F1 to F24 |
| Shortcuts.NormalizedExactly | src/contracts/keyboard-shortcuts.ts:133-159 | a binding is normal exactly if one token is a key and the others name modifiers, of which a printable key needs one, and becomes its modifiers in the fixed order and the key |
| Shortcuts.FindShortcutConflict | src/contracts/keyboard-shortcuts.ts:206-217 | finds the first other command with the same signature, or nothing exactly when there is none |
| Shortcuts.NormalizeKeyboardShortcutOverrides | src/contracts/keyboard-shortcuts.ts:219-237 | collects the normal, non-default bindings and runs the pass; for any input the result is free of clashes if and only if no override that stays uses the default of a later one that goes |
| Shortcuts.AnyInput | src/contracts/keyboard-shortcuts.ts:219-237 | the exact conditions hold for the table built from any input |
| Shortcuts.RemoveConflicts | src/contracts/keyboard-shortcuts.ts:230-235 | the deleting loop is the pass, each decision made against the table as it then is |
| Shortcuts.DefaultsDistinct | src/contracts/keyboard-shortcuts.ts:22-103 | the 16 defaults have pairwise distinct signatures on both platforms |
| Shortcuts.DeletesNothingIffDistinct | src/contracts/keyboard-shortcuts.ts:230-235 | the pass deletes nothing if and only if all effective signatures are pairwise distinct |
| Shortcuts.OnePassEnough | src/contracts/keyboard-shortcuts.ts:230-235 | one pass leaves no clash if and only if no override that does not clash at its turn uses the default of a later overridden command that does |
| Shortcuts.DeletedIffClashes | src/contracts/keyboard-shortcuts.ts:230-235 | the pass deletes exactly the overrides that clash with the table as it is at their turn |
| Shortcuts.NoBorrowedDefault | src/contracts/keyboard-shortcuts.ts:230-235 | one pass is enough when no override uses the default of a later overridden command |
| Shortcuts.OnePassCanFail | src/contracts/keyboard-shortcuts.ts:230-235 | a table of two overrides for which one pass leaves a clash |
| Shortcuts.SettledDistinct | src/contracts/keyboard-shortcuts.ts:230-235 | repeating the pass ends with all signatures distinct, having only deleted |
| Shortcuts.FindMatchingShortcutCommand | src/contracts/keyboard-shortcuts.ts:288-295 | the first command the event matches, or nothing exactly when none does |
| Shortcuts.DispatchUnambiguous | src/contracts/keyboard-shortcuts.ts:282-295 | with distinct signatures an event matches at most one command, so table order decides nothing |
| Shortcuts.ClashIsAmbiguous | src/contracts/keyboard-shortcuts.ts:282-295 | with a clash some event matches two commands |
| Shortcuts.ShortcutBindingFromKeyboardEvent | src/contracts/keyboard-shortcuts.ts:261-280 | recording collects the modifiers held, by platform, and the key's token, and normalises them |
| Shortcuts.LetterToken | src/contracts/keyboard-shortcuts.ts:239-246 | a key in its usual place is told by that, and otherwise a letter typed in either case by that letter |
| Shortcuts.DigitToken | src/contracts/keyboard-shortcuts.ts:246-249 | a digit typed by that digit, and the long s as an S |
| Shortcuts.AliasToken | src/contracts/keyboard-shortcuts.ts:250-258 | the older names of keys stand for the present ones |
| Shortcuts.OtherToken | src/contracts/keyboard-shortcuts.ts:258 | any other named key has its name for a token, if that is one |
| Shortcuts.NoToken | src/contracts/keyboard-shortcuts.ts:239-259 | no other single character is a key |
| Shortcuts.RecordedExactly | src/contracts/keyboard-shortcuts.ts:239-280 | an event is recorded exactly if it is no modifier's own, its key is a token, and a modifier is held if that is printable; what is recorded has exactly the modifiers held |
| Shortcuts.RecordingRoundTrip | src/contracts/keyboard-shortcuts.ts:261-285 | every event that is recorded is matched by what was recorded, on the same platform |
| Shortcuts.RecordedDispatches | src/contracts/keyboard-shortcuts.ts:261-295 | recorded for a command in a table without clashes, it then gives that command and no other |
| Shortcuts.DefaultsDispatch | src/contracts/keyboard-shortcuts.ts:22-103 | without overrides the keys of a default, with Meta for Mod on a Mac and Ctrl elsewhere, give its command and no other |
| FlowOutbox.NormalizeDocument | src/main/services/flow-operation-outbox.ts:23-32 | the loop keeps exactly the flows with an id of 1 to 256 characters and at least one valid operation, with their last 2000 |
| FlowOutbox.ReadingGivesNormal | src/main/services/flow-operation-outbox.ts:23-32 | whatever is read gives a normal document |
| FlowOutbox.NormalIsFixed | src/main/services/flow-operation-outbox.ts:23-46 | a normal document printed and read back is itself |
| FlowOutbox.LatestWins | src/main/services/flow-operation-outbox.ts:88-89 | after any replaces a flow (other than `__proto__`) has the operations of its latest one |
| FlowOutbox.Outbox.ReplaceFlowOperations | src/main/services/flow-operation-outbox.ts:83-91 | an invalid replace changes nothing; a valid one changes one flow, joins the waiters and restarts the timer |
| FlowOutbox.Outbox.TimerFires | src/main/services/flow-operation-outbox.ts:68-79 | the timer takes a snapshot and all waiters, behind the writes already queued |
| FlowOutbox.Outbox.WriteTemporary | src/main/services/flow-operation-outbox.ts:53-59 | a document too large rejects its waiters and leaves the file |
| FlowOutbox.Outbox.Rename | src/main/services/flow-operation-outbox.ts:60-78 | the rename puts the snapshot on disk and resolves its waiters |
| FlowOutbox.AlwaysInvariant | src/main/services/flow-operation-outbox.ts:53-91 | on every run queued snapshots are versions of the document in order, and the file holds the version of the last rename |
| FlowOutbox.CrashLosesNothingWritten | src/main/services/flow-operation-outbox.ts:34-60 | rereading after a crash at any point gives exactly the document of the last completed rename |
| FlowOutbox.DiskMovesForward | src/main/services/flow-operation-outbox.ts:68-79 | the file never goes back to an earlier version |
| FlowOutbox.ResolvedIsDurable | src/main/services/flow-operation-outbox.ts:63-91 | once a replace resolves, the file holds that flow's operations or those of a later replace of it, then and after any crash |
| FlowOutbox.PrototypeIsNeverStored | src/main/services/flow-operation-outbox.ts:83-91 | a replace under the id of the prototype property is accepted and never reaches the file, on any run |
| FlowOutbox.PrototypeResolves | src/main/services/flow-operation-outbox.ts:83-91 | a run in which such a replace is acknowledged all the same |
| OutboxProgress.TakenExactly | src/main/services/flow-operation-outbox.ts:83-90 | a replace is taken exactly with an id of 1 to 256 characters and at most 2000 operations, all valid |
| OutboxProgress.ReadExactly | src/main/services/flow-operation-outbox.ts:34-46 | a file is read exactly if it is an envelope of either generation of at most 2 MB |
| OutboxProgress.KeptExactly | src/main/services/flow-operation-outbox.ts:26-31 | a flow that is read keeps the last 2000 of its valid operations, in order |
| OutboxProgress.SettledOnce | src/main/services/flow-operation-outbox.ts:62-81 | on every run each accepted replace has one promise, waiting, resolved or rejected, and never two of these |
| OutboxProgress.Settles | src/main/services/flow-operation-outbox.ts:53-81 | from any reachable state, once the timer fires and the writes go through, every promise is settled, and if the documents fit into 2 MB none is rejected and the file reads back as the document |

## Left out

- Electron, IPC, dialogs, windows, rendering, Win32, COM, UI Automation and ONNX calls: user interface and platform plumbing.
- BackendSwitch.Backend.RunUpdate: the health check and the version check after the restart are one answer; downloading, unpacking and hashing are one step that may fail, and the status broadcast is not modelled.
- BackendRuns.LifetimeSafe: a version's payload and self-test are functions of the version, so staging another payload over a version in use does not occur; StageExact says when that is safe.
- BackendSwitch.Backend.RunPrepare: development mode, the busy check and the already-healthy shortcut touch no file; a marker is taken to name its version's own directory.
- Marker fields that no decision reads (`updatedAt`, `createdAt`, `protocolVersion`).
- OcrBoxes.Boxes: the boxes are not sorted by position, recognition and its decoding are not modelled, and floating-point rounding is not.
- RemoteProxy.OrderedAtMostOnce: closing when idle may happen at any moment, so timers and the running-agent flag have no state of their own; which requests are valid is an arbitrary answer; replies travelling downstream are not modelled.
- BrowserWire.Delivery: printing and parsing JSON are left out; a message is its JSON text.
- ZipExtraction.ExtractionRoundTrip: names are bytes and UTF-8 decoding is not modelled; neither is a file system that ignores case, trims names or gives a colon within a name a meaning of its own.
- PluginInstall.PluginProject.ApplyInstallOrUpgrade: verification is an arbitrary function of the staged plugin and rewriting one of the project text; writing project.godot is one step, so the temporary file it leaves behind when that throws is not modelled, nor is the choice between archive and external source, nor a process that dies in between.
- StartAgainstStop.BumpDecides: a start is taken to be for a window that exists; a null handle never passes the wait.
- InputGenerations.NothingOldAfterStart: the counter is an integer without wrap-around, and every start is given a generation larger than the counter has ever been, which the code leaves to its caller.
- InputActions.InputController.Act: the UI Automation branch and the details of target validation are arbitrary answers; releases after a cut-off batch are taken to succeed.
- ActivationGate.ReadyExactly: sample times do not decrease and no 64-bit clock wraps.
- ArgvQuoting.CommandLineRoundTrip: a NUL character, which ends a command line in the operating system, is an ordinary character here.
- BrowserLeases.CommandsExactly: finding a tab by address, ambiguous matches, network idle, scripts run on suspend and on clear, and the status page are not modelled; a tick of the timer is one sweep event for each expired target.
- NativeChannel.ChannelSafety: badge texts and error codes are not modelled, and the content of messages is one bit: valid or not.
- Shortcuts.NormalizeShortcutBinding: a binding is its list of trimmed, nonempty tokens; splitting and trimming text, and display texts, are not modelled.
- FlowOutbox.CrashLosesNothingWritten: renames are atomic and JSON parsing undoes printing; how many bytes a document takes is an arbitrary function.
- Manifest, preference and layout normalisers, version comparison and allow-list checks: mostly single branches.
