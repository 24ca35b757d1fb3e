# somewm: the compositor's state machines, modelled and proved

somewm is a Wayland compositor whose scene, event delivery and protocol bookkeeping are
hand-written C: arrays changed in place, callbacks that re-enter, and ownership that moves
between owners. This project models those parts in Dafny and proves what each is for.

Each part has two sides. Pure functions say what an operation does to the whole state, and
lemmas prove the promises over them: for every input, every run, every interleaving. Beside
them, classes keep the fields the C code keeps and run its loops; each method is proved to
leave exactly the state the function gives.

| files | part of the compositor |
|---|---|
| `EventLog`, `EventQueue`, `EventBuffer`, `LuaRegistry` | the deferred signal queue: move coalescing, the drain under re-entrant producers, registry references |
| `Hover` | what the pointer is over: enter, leave and move signals, the held drawable |
| `DbusDecode`, `DbusStack`, `LuaValues` | the recursive message decoder on the Lua stack, and the reply loop |
| `FrameSpec`, `FrameRun` | an output's frame as a transaction: views that keep Clay's storage, exit owners, commit or fail |
| `Attachments` | the fixpoint that declares popups attached to other popups |
| `Handles` | the registry of renderer handles and the word a handle travels in |
| `LockBarrier` | the locked session as an input barrier, over the handle registry |
| `WidgetWalks` | the preorder walks over a widget tree that must agree on ids |
| `ClipBudget` | the budget of Clay scroll records |
| `Monitors` | the guarded, self-retriggering output layout pass |
| `IpcFramer` | the line framer of the command socket, and its subscriber count |
| `ClosureGuard` | the generation protocol that decides which callbacks run |
| `ActivationTokens` | startup tokens and their timers |
| `Entrances`, `CursorClock` | the in-place stable partition of transition records; the cursor's eased magnification |

Where a promise does not hold of the code as it is written, the project proves when it does
and gives the input that breaks it:

- A handler's move can fold into the snapshot being drained. The next drain finds a call exactly
  when it does not (`CallIsKeptIffItDoesNotFold`); one that folds is delivered by the running
  drain exactly when its slot is still to come (`FoldIsDeliveredIffItsSlotIsToCome`), and one that
  folds into the slot being dispatched is lost (`FoldIntoTheDispatchedIsLost`, `FoldedMoveIsLost`).
  It can even fold into a slot that was released, and take a reference from someone else, exactly
  when another user of the registry holds the moved object under the slot's integer
  (`ScanPassesReleased`, `EnqueueBehind`, `FoldIntoAReleasedSlot`).
- Arrays of file descriptors are counted but push nothing, and dictionary keys of types the
  decoder does not read become nil; the decoder leaves the denoted values exactly when a
  message has neither (`DecodesExactly`, `FdArrayTakesForeignValue`).
- A handler of a screen's solve may replace arrays Clay still points into before the frame
  holds them; a commit keeps the storage held exactly when each array Clay points into still
  belongs to a declared tree or is held by an older view
  (`CommitKeepsInvIffQuiet`, `EditDuringFirstSolveUncovers`).
- The ambiguity check of popup targets does not count lock drawins, whose widgets can be bound;
  then the set of declared popups can depend on the order of the list
  (`UncountedPlacementMakesOrderMatter`). Every order declares exactly the attachable popups
  exactly when no attachable popup's target names two elements among what is attachable without
  it (`EveryOrderDeclaresAllIffNoClash`); then the order does not matter.
- A lock cover whose widget tree holds a client in flow lets that client take points
  (`HostedClientTakesThePoint`); the section is the lock's own objects exactly when no other
  client is hosted so (`PlainSectionIsLockOnly`). A point outside the box an output last drew is
  not held by the backdrop (`UncoveredPointsReachTheDesktop`, `EnlargedOutputReachesTheDesktop`).
- A text element after a client composite that is left out gets another index from Clay than
  the one it is stored under (`TextKeepsItsIndexIffNothingIsLeftOut`,
  `TextBehindAGoneClientIsRenumbered`).
- A tree declared twice in one pass can exhaust the scroll records the pass reserved
  (`SecondDeclarationCanExhaust`); a pass is exhausted exactly when its clips exceed the total
  (`ExhaustedIffClipsExceed`).
- An output cleanup entered inside a layout pass starts a second pass inside it
  (`CleanupInsideAPassNests`).
- Bytes after a NUL are never dispatched (`NothingAfterNul`); lines come out whole exactly when
  none of them holds one (`LinesComeOutIffNoNul`).
- A call that loaded the ready generation before a bump runs after it
  (`AnInFlightCallRunsAfterABump`); a mark that a bump interrupts revives the old generation
  (`AnInterruptedMarkRevivesTheOld`); a generation warns twice, where the file's comment promises
  once (`ACallDuringABumpWarnsTwice`), exactly when a call warns between the stores of its bump and
  another is blocked after them (`OneWarningAGeneration`).
- A magnification request without duration jumps, unless it changes nothing (`NoJumpIff`).

## Model

| member | source | states |
|---|---|---|
| LuaRegistry.Ref | event_queue.c:119-164 | A reference taken is one nobody holds, and it reads back the referenced value; all others keep theirs. |
| LuaRegistry.Unref | event_queue.c:354-358 | A released reference is free to be taken again and every other stays valid. |
| EventLog.PushAllIsCoalesce | event_queue.c:222-283 | Queueing call after call gives exactly the coalesced log: non-moves unchanged and in order, each run of moves one event an object. |
| EventLog.PushAllConcat | event_queue.c:104-117 | Queueing two batches one after the other is queueing them together. |
| EventLog.CoalesceKeepsOthers | event_queue.c:222-283 | Coalescing neither drops, adds nor reorders anything but moves. |
| EventLog.RunHasOneMessageAnObject | event_queue.c:222-283 | A run of moves leaves one message for each object that moved and no other, in order of first appearance, with its last coordinates. |
| EventLog.PushAfter | event_queue.c:240-270 | A call behind older messages acts as if they were not there when the backward scan does not reach them. |
| EventQueue.EnqueueCorrect | event_queue.c:104-283 | A producer call changes the pending messages as the log semantics says and keeps every registry reference with exactly one owner. |
| EventQueue.PerformCorrect | event_queue.c:104-283 | A producer call, or another user taking a reference or giving back its own: every reference keeps one owner, and only producer calls change what is pending. |
| EventQueue.FoldCorrect | event_queue.c:240-270 | A fold changes only the coordinates of the object's newest pending move and releases the old argument table once. |
| EventQueue.AppendCorrect | event_queue.c:104-164 | An appended event takes fresh references only and leaves what was pending alone. |
| EventQueue.FindSameIsFindMove | event_queue.c:240-255 | The scan over slots and references finds the same pending move as the scan over messages. |
| EventQueue.QueueIsCoalescedLog | event_queue.c:222-283 | Between drains the queue is the coalesced log of all producer calls, whatever other users of the registry take or give back, and what is held is theirs and the queue's. |
| EventQueue.DrainDeliversSnapshot | event_queue.c:305-370 | A drain in which no call folds into the snapshot or a released slot delivers exactly what was pending, once and in order, and what the handlers queued is, coalesced, what the next drain finds. |
| EventQueue.DrainFromCorrect | event_queue.c:318-362 | From any slot on, whatever happens while handlers run, the loop over slots and references delivers and leaves what the drain on messages does, references exactly owned, unless a move folds into a released slot. |
| EventQueue.DrainSlot | event_queue.c:318-362 | One slot: what happens while its handler runs acts on what is pending, and then the copy's references are released once. |
| EventQueue.CallIsKeptIffItDoesNotFold | event_queue.c:222-283 | A call made during a drain reaches what the next drain finds, as the log semantics says, if and only if it does not fold into the snapshot. |
| EventQueue.DrainIsDeliver | event_queue.c:305-370 | Every drain in which no move folds into a released slot delivers and leaves exactly what the drain on messages does, and every reference keeps one owner, those that others take and give back meanwhile included. |
| EventQueue.ScanPassesReleased | event_queue.c:240-270 | The backward scan that gets past the pending events ends in a released slot exactly when another user of the registry holds the moved object under that slot's integer. |
| EventQueue.EnqueueBehind | event_queue.c:240-283 | During a drain a call acts as if the released slots were not there if and only if it does not fold into one of them. |
| EventQueue.TakingNoneFits | event_queue.c:305-370 | No move folds into a released slot in a drain during which others take no references, whatever handlers queue and others give back. |
| EventQueue.FoldIntoAReleasedSlot | event_queue.c:222-370 | A concrete drain in which others take the integers of a released slot: a handler's move is neither delivered nor kept, and a reference of another user is overwritten with its coordinates. |
| EventQueue.EnqueueKeepsSlots | event_queue.c:222-283 | A call leaves every pending slot's references in place, so the copy a drain took still names what the slot holds. |
| EventQueue.FoldIsDeliveredIffItsSlotIsToCome | event_queue.c:240-362 | A handler's move that folds into the snapshot, the last of its object until then, is delivered by the running drain if and only if its slot is behind the one being dispatched. |
| EventQueue.FoldIntoTheDispatchedIsLost | event_queue.c:240-362 | A move that folds into the slot being dispatched changes nothing that any drain delivers afterwards, whatever the handler calls after it. |
| EventQueue.FoldedMoveIsLost | event_queue.c:222-370 | A concrete drain in which a handler's move of the very object it is told about is never delivered. |
| EventQueue.FoldedMoveIsDelivered | event_queue.c:222-370 | A concrete drain in which a move folded into a later slot is delivered by that drain. |
| EventQueue.ReleaseAllOwned | event_queue.c:386-421 | Reset and wipe release every reference of the pending events and no other. |
| EventQueue.RunsHoldExactlyTheQueue | event_queue.c:305-421 | Over every run of calls, drains, resets and wipes, with other users taking and giving back references between and inside them, what is held is what they hold and what the queue holds, and what is pending is what the run on messages says. |
| EventBuffer.Queue.constructor | event_queue.c:378-384 | The queue starts empty. |
| EventBuffer.Queue.Grow | event_queue.c:82-95 | Growing keeps every pending event and makes room for one more. |
| EventBuffer.Queue.PushEvent | event_queue.c:96-117 | The new event is the last one and nothing else changes. |
| EventBuffer.Queue.CaptureArgs | event_queue.c:131-148 | The top values of the caller's stack go into one table under one reference and off the stack; read back, they are those values in their order. |
| EventBuffer.Queue.Signal | event_queue.c:150-164 | Queues one object event with the top values of the stack as its arguments, and pops them. |
| EventBuffer.Queue.Signal0 | event_queue.c:119-129 | Queues one object event without arguments. |
| EventBuffer.Queue.Global | event_queue.c:166-170 | Queues one global event without arguments. |
| EventBuffer.Queue.GlobalArgs | event_queue.c:178-210 | Queues one global event with the top values of the stack as its arguments, and pops them. |
| EventBuffer.Queue.ClassArgs | event_queue.c:213-220 | Queues one class event with the top values of the stack as its arguments, and pops them. |
| EventBuffer.Queue.ScanBack | event_queue.c:240-255 | Finds the newest pending move of the object within the moves at the end of the buffer. |
| EventBuffer.Queue.QueueMove | event_queue.c:222-283 | Overwrites the found move in place or appends one, as the log semantics says. |
| EventBuffer.Queue.UnpackArgs | event_queue.c:287-303 | Reads back exactly the captured arguments. |
| EventBuffer.Queue.Dispatch | event_queue.c:318-362 | Delivers one slot copied out of a buffer that its handler may move, and releases the copy's references once. |
| EventBuffer.Queue.Drain | event_queue.c:305-370 | The loop over the buffer delivers and leaves what the drain's specification says. |
| EventBuffer.Queue.DropFront | event_queue.c:361-369 | The dispatched slots go and the later events move to the front in order. |
| EventBuffer.Queue.Reset | event_queue.c:386-402 | Empties the queue, releasing its references only when the Lua state owns them. |
| EventBuffer.Queue.Wipe | event_queue.c:404-421 | Empties the queue and frees the buffer, releasing the references exactly when there is a Lua state. |
| Hover.StepTracked | event.c:102-128 | Every pointer step keeps enter and leave alternating in each slot and one reference exactly when a drawable is under the pointer. |
| Hover.RunsAreTracked | input.c:786-838 | Over every run of steps: alternation per slot, the held reference, and no reference released that was not held. |
| Hover.MotionTracksTheHit | input.c:962-1048 | A timed motion that nothing grabs leaves tracked exactly what it hits, queues the moves of the hit objects with their own coordinates, and crosses only what changes, leaves before enters; over nothing it leaves everything; a crossing to ignore, a motion without a time and a grab change nothing tracked, and the request to ignore is used up. |
| Hover.NextCrossingIsIgnored | input.c:962-1048 | After a request to ignore the next crossing a grabbed motion leaves it standing, and the next motion changes nothing but the request. |
| Hover.UnmanageForgets | objects/client.c:2858-2915 | A client that goes and its titlebars are tracked no more, every other slot is kept, and the calls are their leaves with the list event between them. |
| Hover.SegmentMovesInside | event_queue.c:222-283 | A batch of calls, any other producers' among them, on whatever is pending keeps every move after its object's enter and before its leave. |
| Hover.DeliveredMovesInside | event_queue.c:305-370 | Wherever drains fall, and whatever their handlers call, folds into the snapshot included, every delivered move lies between its object's enter and leave. |
| Hover.DrainMovesInside | event_queue.c:305-370 | The same for the rest of one drain, from any slot on. |
| Hover.OthersDoNotMatter | event_queue.c:104-220 | Other producers' calls change neither what is entered nor the order of the pointer's own calls. |
| Hover.PointerMovesInside | input.c:962-1048 | The two together for any run of pointer steps with any calls of other producers among theirs, between drains or made by their handlers; and what Lua has been told and will be told is entered is what is tracked. |
| Hover.Pointer.MouseEmitLeave | input.c:786-813 | Leaves whatever is tracked, the drawable with its reference and then the object. |
| Hover.Pointer.DrawableUnderMouse | event.c:102-128 | Switching the drawable under the pointer leaves the old one, enters the new one and moves the one reference. |
| Hover.Pointer.TrackClient | input.c:816-826 | A new client under the pointer is entered once, after the old object is left. |
| Hover.Pointer.TrackDrawin | input.c:827-838 | A new drawin under the pointer is entered once, after the old object is left. |
| Hover.Pointer.Motion | input.c:962-1048 | The motion leaves what its hit says in the two slots and queues the crossings between the old slots and the new, and the moves of the hit objects. |
| Hover.Pointer.Unmanage | objects/client.c:2858-2915 | A client that goes takes itself and its titlebars out of the tracking, with their leaves, the list event queued between them. |
| DbusDecode.DecodesExactly | dbus.c:86-275 | The decoder leaves the old stack plus exactly the denoted values and returns their count if and only if the message has no array of file descriptors and no key of an undecoded type. |
| DbusDecode.ItemCorrect | dbus.c:86-275 | One argument of any nesting becomes the value it denotes, on top of an untouched stack. |
| DbusDecode.ListCorrect | dbus.c:210-228 | An array or struct becomes one table of its elements' values in order. |
| DbusDecode.DictCorrect | dbus.c:192-209 | A dictionary becomes one table of its pairs. |
| DbusDecode.EntriesCorrect | dbus.c:109-119 | A run of dictionary entries leaves its keys and values in order. |
| DbusDecode.EntryRunPushesPairs | dbus.c:109-119 | A run of n entries pushes 2n values and counts n. |
| DbusDecode.FirstKeyWins | dbus.c:202-208 | Of duplicate keys the first entry's value is in the table. |
| DbusDecode.DenoteBasic | dbus.c:236-270 | A basic value becomes the Lua value that says the same; an unsigned integer beyond lua_Integer comes around. |
| DbusDecode.ItemHeight | dbus.c:86-275 | The stack grows by what the loop counts, less one for each array of file descriptors at any depth. |
| DbusDecode.FdArrayTakesForeignValue | dbus.c:138-191 | A concrete message for which the decoder takes a value of its caller into its own table. |
| DbusStack.LuaState.MessageIter | dbus.c:86-275 | The iterator loop with pushes, inserts and negative indices computes the decoder's specification. |
| DbusStack.LuaState.MessageItem | dbus.c:91-268 | So does the switch on one argument's type. |
| DbusStack.LuaState.CollectTable | dbus.c:128-135 | The last n values, taken from the top down, end in one table in their original order. |
| DbusStack.LuaState.CollectDict | dbus.c:202-208 | The last n pairs, taken from the top down, end in one table. |
| DbusStack.LuaState.PushItems | dbus.c:142-191 | A fixed-size array is stored as it is read, in order. |
| DbusStack.LuaState.Insert | dbus.c:131 | The top value moves below the values above its index, which keep their order. |
| DbusStack.LuaState.Reply | dbus.c:470-492 | The reply loop consumes type and value pairs in order and appends each converted value, down to the first that does not convert; the rest of the stack is left as it was. |
| LuaValues.DictOfCons | dbus.c:207-208 | Adding an earlier pair to a table overrides every later pair with its key. |
| LuaValues.ArrayOfSnoc | dbus.c:156-160 | Storing the next element extends the array by exactly that element. |
| FrameSpec.FailedFrameRestores | declare.c:4666-4704 | A failed frame leaves hosts, retired views, records and command handles as they were and releases every hold it took. |
| FrameSpec.CommitKeepsInvIffQuiet | declare.c:4521-4568 | A commit keeps every storage Clay points into held by a view of the band if and only if each of them, after what handlers of the solve replaced, still belongs to a declared tree or is held by an older view. |
| FrameSpec.CommitHolds | declare.c:4543-4574 | A storage Clay points into is held after a commit if and only if a declared tree or an older view had it when the holds were taken. |
| FrameSpec.CommitOwnsExactly | declare.c:4563-4574 | After a commit the views held are those of others and, once each, the band's own: nothing leaks and nothing is released twice. |
| FrameSpec.CommitRecordsHeld | declare.c:4575-4581 | No committed record refers to a live tree: each names a view one of the hosts holds. |
| FrameSpec.CommitRecordsNameTheirTrees | declare.c:4575-4588 | After a commit there are the solved records, each under its own id; one that named a live tree names a view of a host of that very tree, which holds what the tree had when the holds were taken; the hosts are the declared trees in order and the handles the solved ones. |
| FrameSpec.RetiredExactly | declare.c:4550-4562 | An old view stays, retired, if and only if Clay points into what it holds and no declared tree has that. |
| FrameSpec.CommitsIffAllFits | declare.c:4521-4562 | A frame commits exactly when it is solved, finds the memory it needs, and what a commit retires is at most 8 MiB. |
| FrameSpec.CommitOwners | declare.c:4585-4588 | After a commit exactly the owners named by a solved command are held, of those held before and the clients and drawins the pass found. |
| FrameSpec.ReleaseOwnersExact | declare.c:519-530 | The swap-with-last loop keeps the used owners and releases the others, each once. |
| FrameSpec.OldViewStaysHeld | declare.c:4552-4562 | An old view's storage that Clay still points into is held after the commit, by the view itself or by a host that shares it. |
| FrameSpec.CoveredIffQuiet | declare.c:4521-4568 | The exact condition on a committing frame, for the storage Clay points into after its solve. |
| FrameSpec.NoEditsIsQuiet | declare.c:4521-4526 | Frames whose solve handlers replace no arrays always satisfy it. |
| FrameSpec.EditDuringFirstSolveUncovers | declare.c:4521-4549 | A concrete commit after which Clay points into storage that nothing holds. |
| FrameSpec.StepKeepsInv | declare.c:4368-4704 | Every frame, edit between frames, state change, and hold or release by another output keeps the invariant, retired bytes within 8 MiB included. |
| FrameSpec.RunsKeepInv | declare.c:4368-4704 | Over every run of committed and failed frames, edits and state changes, with other outputs taking and releasing views of their own in between. |
| FrameSpec.WipeReleasesAll | declare.c:4213-4248 | When the Lua state goes, every view the band held has been released, every exit owner dropped, and nothing retained is left. |
| FrameRun.Output.SharesPayload | declare.c:4361-4366 | Whether some host's view holds the same arrays. |
| FrameRun.Output.HoldExitOwner | declare.c:502-518 | Holds a client or drawin the handle still resolves to, once; any other handle is not held. |
| FrameRun.Output.ReleaseExitOwners | declare.c:519-530 | The in-place loop releases what its specification says, in that order. |
| FrameRun.Output.HoldAll | declare.c:4542-4549 | Holds every declared tree up to the first hold that fails. |
| FrameRun.Output.RetireViews | declare.c:4550-4562 | Chooses the old views that must stay, and refuses when they exceed the limit. |
| FrameRun.Output.ReleaseHosts | declare.c:4683-4685 | A failed frame's holds are all released again. |
| FrameRun.Output.ReleaseOld | declare.c:4563-4568 | Exactly the old views that do not stay are released. |
| FrameRun.Output.WriteViews | declare.c:4575-4581 | Records keep their ids; one that named a live tree a host has names the view of a host of that tree, and any other is as it was. |
| FrameRun.Output.Install | declare.c:4563-4590 | The new state is exactly the committed band of the specification. |
| FrameRun.Output.HoldFrame | declare.c:4542-4562 | Either everything the commit needs is held, or nothing new is. |
| FrameRun.Output.Frame | declare.c:4368-4704 | The whole frame leaves the band its specification gives and says whether it committed. |
| Attachments.DeclaresLeastSet | declare.c:3116-3129 | The popups declared are exactly the least set closed under attaching to something declared or bound by a popup in the set, if no attachable popup's target clashes. |
| Attachments.OrderIsIrrelevant | declare.c:3116-3129 | Any order of the drawin list then declares the same popups. |
| Attachments.CyclesAreAbsent | declare.c:2971-3041 | Popups attached only to each other are not declared, in any scene. |
| Attachments.CanDeclareIffAttaches | declare.c:1507-1527 | A popup is declared in a sweep if and only if it attaches to what was declared so far and what its target matches there is one element. |
| Attachments.TargetNamesOne | declare.c:1471-1527 | When the ambiguity check counts every placement that can be bound, and a token names one element, a target that passes it names at most one. |
| Attachments.RoomLeft | declare.c:2971-2979 | The record array never fills up while each popup is declared once. |
| Attachments.OnlyPopupsAreDeclared | declare.c:3118-3129 | Only declarable drawins with a kind that is not the notification's are declared, and none that was declared before. |
| Attachments.AmbiguousIffTwice | declare.c:1472-1506 | A target is ambiguous exactly when two counted placements are of the widget it names, on the host it names if it names one. |
| Attachments.EveryOrderDeclaresAllIffNoClash | declare.c:3116-3129 | Every order of the list declares exactly the attachable popups if and only if no attachable popup's target names two elements among what is attachable without it. |
| Attachments.OneElementMeansNoClash | declare.c:1507-1527 | That holds when whatever a target that passes the ambiguity check could ever match is one element. |
| Attachments.ScanExact | declare.c:1517-1527 | The scan answers an element exactly when all that match are that one, and nothing for none or two. |
| Attachments.UncountedPlacementMakesOrderMatter | declare.c:1471-1527 | A concrete scene with a placement on a lock drawin, which is bound but not counted: two orders of the list declare different sets. |
| Attachments.Pass.AttachmentTarget | declare.c:1507-1527 | The scan answers the one matching element, or none for no match or two. |
| Attachments.Pass.IsAmbiguous | declare.c:1472-1506 | A widget placed visibly more than once is ambiguous. |
| Attachments.Pass.DeclareAttachment | declare.c:2971-3041 | Declares and binds the popup, or leaves everything as it was. |
| Attachments.Pass.DeclareAttachments | declare.c:3116-3129 | The repeated sweeps end, and with the declared list of the specification. |
| Handles.DroppedNeverResolves | declare.c:589-638 | Once an object is dropped its handle resolves to nothing in every later state, the same pointer registered again included. |
| Handles.LiveResolves | declare.c:596-626 | Until it is dropped a handle resolves to exactly its object, and asking again gives the same handle. |
| Handles.DropExact | declare.c:629-638 | Dropping removes the object's entry and no other, whatever order the swap leaves. |
| Handles.ForExact | declare.c:596-611 | Registering changes no entry and gives out an id never given before. |
| Handles.SpentStays | declare.c:365-387 | An id that was given out and dropped is never registered again. |
| Handles.GetExact | declare.c:612-626 | A handle resolves to an entry if and only if kind and id are registered together. |
| Handles.WordKeepsHandle | declare.c:747-763 | The handle comes back unchanged from a word with any opacity and clip bytes, which come back too. |
| Handles.OpacityWithinHalfStep | render.h:235-251 | The decoded opacity is within half of one of 254 steps of what was stored. |
| Handles.Table.HandleFor | declare.c:596-611 | The array version of registering. |
| Handles.Table.HandleGet | declare.c:612-626 | The array version of resolving. |
| Handles.Table.HandleDrop | declare.c:629-638 | The array version of dropping. |
| LockBarrier.LockedPointsReachOnlyTheSection | protocols.c:459-579 | From an accepted lock to its current lock's unlock, across client death, failed frames and any desktop, a point in the box an output has drawn since reaches nothing or an object of the lock section. |
| LockBarrier.BackdropEndsTheWalk | declare.c:802-957 | A hit walk over an order with the backdrop never passes it and takes only the section's objects above it. |
| LockBarrier.DesktopIsBelowTheLock | declare.c:671-710 | Every band a desktop element can get is below the lock backdrop. |
| LockBarrier.UnderTheFlow | declare.c:653-710 | Below the flow root are exactly the background and bottom layers, the desktop clients, the desktop and splash drawins, and shadows of what is not above it. |
| LockBarrier.OnTopOfTheDesktop | declare.c:671-710 | Above the overlay layer are exactly the drag icon and, under it, unmanaged clients; a fullscreen client's backing covers every client without a claim of its own. |
| LockBarrier.SectionOk | declare.c:3617-3652 | The section starts with the backdrop over the whole output, and its handles resolve only to its own objects, for good. |
| LockBarrier.LockedSceneOk | declare.c:3686-3713 | The whole pass under a lock declares the backdrop, and nothing above it that is not the section's or the cursor's. |
| LockBarrier.LockedFrameShowsTheLock | declare.c:3617-3652 | A frame under a lock shows every box of the covers and of the lock drawin, their shadows, and the lock client's surface over the whole output, under handles that name those objects. |
| LockBarrier.FrameShowsTheCursor | declare.c:3686-3713 | The pointer image is in every frame that has one, locked or not, in the topmost band. |
| LockBarrier.StepOk | declare.c:3617-3713 | Every event of the run keeps what each output shows guarded, handle drops and registrations included. |
| LockBarrier.StaysLocked | protocols.c:459-479 | A locked session stays locked until the current lock's unlock, an authenticated Lua unlock, or the forced one when Lua's lock surface is destroyed or the configuration reloads. |
| LockBarrier.OnlyAReleaseUnlocks | protocols.c:459-479 | Over every run an event ends a locked session if and only if it releases the lock that holds it, and a lock that unlocked or died is current no more. |
| LockBarrier.ReleaseEndsTheBarrier | declare.c:3686-3713 | After a release the next frame of an output is drawn unlocked, without a node of a lock, and every point gets what the desktop alone gives. |
| LockBarrier.DeadLockCannotUnlock | protocols.c:541-575 | A lock that died or was turned away has no effect in any later state. |
| LockBarrier.NeverBothLocks | luaa.c:1531-1570 | The session lock and the Lua lock never hold together, and a current lock means a locked session. |
| LockBarrier.LockedFrameShown | declare.c:4368-4704 | After a frame under the lock an output shows a locked order in every later state until it is unplugged. |
| LockBarrier.PlainSectionIsLockOnly | declare.c:3617-3652 | The section's objects are the covers, the lock drawin and the lock surface alone if and only if every client in flow in a lock drawin's tree is gone or one of them. |
| LockBarrier.HostedClientTakesThePoint | declare.c:1872-1940 | A concrete section in which a cover's tree lets a client take a point. |
| LockBarrier.HostedClientsBand | declare.c:1872-1940 | A hosted client in flow in the normal band or at the floor takes its host's band, any other its own, not below the flow's. |
| LockBarrier.FloatingPartsStayBelow | declare.c:1892-1916 | A floating composite of a lock drawin is drawn with the desktop, below the backdrop. |
| LockBarrier.UncoveredPointsReachTheDesktop | render.c:3458-3503 | Where no section node answers, the walk gives what the desktop alone would. |
| LockBarrier.EnlargedOutputReachesTheDesktop | declare.c:802-957 | A concrete locked run: after its locked frame an output is enlarged, and a point in the new part reaches a client of the desktop. |
| LockBarrier.PointsMoveWithTheOutput | declare.c:4203-4208 | A point is taken by what the output drew under it from wherever the output was last put; no other output's points change. |
| LockBarrier.NewOutputDrawsFirst | declare.c:4170-4186 | A new output takes no point before its first frame, and then those of its place. |
| LockBarrier.UnplugForgetsTheBackdrop | declare.c:4186-4201 | An output that goes takes its backdrop's handle along. |
| LockBarrier.WalkTopmost | render.c:3458-3503 | The topmost node that takes the point or bars it decides, and the point is missed when there is none. |
| LockBarrier.RenderHit | render.c:3458-3503 | The top-down loop answers the topmost node that takes the point, or nothing at a backdrop; image, wallpaper and drag nodes pass it on. |
| LockBarrier.DeclareHitAt | declare.c:945-957 | Of the output under the point and then the others in list order, the first that answers decides. |
| LockBarrier.Session.LockSession | protocols.c:540-568 | A request is taken exactly when no lock is current and Lua holds none; it then is the current lock of a locked session, and a refused one changes nothing. |
| LockBarrier.Session.DestroyLock | protocols.c:459-479 | The session is locked afterwards exactly when the lock did not unlock it, and no lock is current. |
| LockBarrier.Session.ActivateLua | luaa.c:1531-1570 | Lua's lock is taken exactly with a surface and without a session lock, and nothing else changes. |
| WidgetWalks.IdsPass | declare.c:1557-1573 | Down any path, for every node: a placed child has the id of its name and token, a text that of its index under its parent's id, any other that of its name and index under its parent's id. |
| WidgetWalks.IdsAreDistinct | declare.c:1557-1573 | When the hashes do not collide and a name and token belong to one node, no two nodes of a tree share an id. |
| WidgetWalks.TokenKeepsItsId | declare.c:1551-1573 | A placed widget keeps its id wherever it stands, in its tree or another. |
| WidgetWalks.FilledTreeIsOneElement | declare.c:3278-3300 | In a tree folded into the output's element every node has that element's id. |
| WidgetWalks.SubtreesNest | declare.c:1676-1683 | A subtree that starts inside a run of siblings ends inside it. |
| WidgetWalks.ChildStart | declare.c:1676-1683 | Where each child starts and ends, from the counts alone. |
| WidgetWalks.ShortOfChild | declare.c:1758-1768 | In a composite, a walk that stops short of a child's end still stays within the children passed. |
| WidgetWalks.BoxesMissNothing | declare.c:3718-3752 | The readback reports every published node. |
| WidgetWalks.BoxesExact | declare.c:3718-3752 | A readback reports in preorder, once each, exactly the nodes outside composites that are no text and that Clay found: widgets, and scroll nodes when ids are taken. |
| WidgetWalks.MaskPasses | declare.c:3766-3787 | The mask handed to a child is whether the node or anything around it rejects the point. |
| WidgetWalks.HitsMeans | declare.c:3766-3787 | A node is hit exactly when the point is over it, it is a widget, and neither it nor anything around it rejects the point. |
| WidgetWalks.TextKeepsItsIndexIffNothingIsLeftOut | declare.c:1957-1977 | A text's stored index is Clay's if and only if no composite before it among its siblings was left out. |
| WidgetWalks.TextBehindAGoneClientIsRenumbered | declare.c:1957-1977 | A concrete tree: with its client gone, the text behind a composite is number 0 for Clay and 1 for the tree. |
| WidgetWalks.Walker.SubtreeEnd | declare.c:1676-1683 | Answers where the preorder array's subtree ends. |
| WidgetWalks.Walker.DeclareComposite | declare.c:1697-1768 | Stores its own node, writes named ids in its own subtree only and stops within it: past a surface's own node, at the end of a hosted one. |
| WidgetWalks.Walker.DeclareClientFrame | declare.c:1785-1867 | Stores its own node and writes named ids of the composite only. |
| WidgetWalks.Walker.DeclareLayoutClient | declare.c:1872-1940 | Ends where the subtree ends, also when nothing is declared; then nothing is stored, and else the composite's own id is. |
| WidgetWalks.Walker.DeclareSubtree | declare.c:1942-2139 | Ends where the subtree ends and stores every node outside composites under its path's id. |
| WidgetWalks.Walker.DeclareTree | declare.c:2161-2171 | A declared tree is stored throughout, whichever clients are gone. |
| WidgetWalks.Walker.FoldIntoOutput | declare.c:3278-3300 | A folded tree is stored throughout under the output's id. |
| WidgetWalks.Walker.BoxesWalk | declare.c:3718-3752 | Reports each published node once, in preorder, with its box read under the very id it is stored with; scroll nodes that are no widget only when ids are asked for. |
| WidgetWalks.Walker.ReadBoxes | declare.c:3873-3886 | The same for a whole tree, with or without ids; nothing when its root was not solved. |
| WidgetWalks.Walker.HitsWalk | declare.c:3766-3787 | Answers the hit and unmasked widgets in preorder up to the limit, and whether a capturing float was hit. |
| WidgetWalks.Walker.WidgetHits | declare.c:3822-3870 | The hits in preorder, as many as there is room for, the missing ones behind them; and whether a capturing float is under the point. |
| WidgetWalks.Walker.NodeForId | declare.c:4948-4962 | Finds the first node in preorder with the id and moves the index past the subtree. |
| WidgetWalks.Walker.FindStored | declare.c:4948-4962 | A stored id is found again: at the node itself when no other has it, as when the hashes do not collide. |
| WidgetWalks.Walker.AnnotateTree | declare.c:5581-5591 | Adds every node once, in preorder, under its id. |
| ClipBudget.AdmitsIffReserved | declare.c:3658-3684 | Every pass that declares each hosted drawin's tree, each titlebar of a client that is here and each screen's layout at most once, in any order and with any host requests, stays within the records if and only if the hosts' share, the inspector's and all those trees' scroll containers fit together. |
| ClipBudget.DeclaredWithinCount | declare.c:3658-3674 | Such a pass declares no more scroll containers than are counted. |
| ClipBudget.HostsLeaveReservations | declare.c:1661-1674 | Host clips never take a record reserved for a scroll container that is still to come. |
| ClipBudget.ExhaustibleIffOverReserved | declare.c:437-446 | Host requests put in front of a pass can make it exhaust exactly when it declares more scroll containers than it reserved. |
| ClipBudget.ExhaustedIffClipsExceed | declare.c:437-446 | A pass as it stands is exhausted if and only if its scroll containers, the clips of the hosts that were granted one and the inspector's records exceed the total. |
| ClipBudget.SecondDeclarationCanExhaust | declare.c:3098-3130 | Declaring a counted tree twice can abandon the frame. |
| ClipBudget.Recording.ClipsPrepare | declare.c:3658-3684 | When it succeeds no such pass exhausts the records, and with one more host clip some pass would; when it refuses, some pass would exhaust them whatever is left to hosts. |
| ClipBudget.Recording.HostClip | declare.c:1661-1674 | A granted host is promised a record of its own and every record promised before is still there; a refused one changes nothing. |
| ClipBudget.Recording.NativeConfigure | declare.c:437-461 | A promised clip uses up its own promise and no other; only a clip beyond every promise abandons the pass. |
| ClipBudget.Recording.Declare | declare.c:437-461 | Whatever is declared, only scroll containers use up the records promised to them. |
| Monitors.NoNestingNoLostChange | monitor.c:604-621 | Passes never nest, and no change is left without a full pass that began after it, while cleanups are not entered inside passes. |
| Monitors.CleanupInsideAPassNests | monitor.c:137-158 | From every pass body, a cleanup that changes the layout starts a second pass inside the first. |
| Monitors.StepDisciplined | monitor.c:831-839 | Every call, end, cleanup and check keeps the guard up exactly inside guarded code and every owed pass noted. |
| Monitors.NotesStay | monitor.c:604-621 | A note stays until the check that answers it, and only a call inside guarded code leaves one. |
| Monitors.Layout.UpdateMons | monitor.c:603-839 | Ends for every finite interference, with every enabled output in the layout, no disabled awake one in it, and a monitor selected if one is enabled; undisturbed, in at most two passes, and then a selected monitor that stays in the layout stays selected and any other selection is an enabled one. |
| Monitors.Layout.TakeOut | monitor.c:633-672 | Disabled outputs that are not asleep leave the layout, a change is noted exactly when one does, and the selection leaves with its monitor and not otherwise. |
| Monitors.Layout.PutIn | monitor.c:674-678 | Enabled outputs enter the layout, and a change is noted exactly when one does. |
| Monitors.Layout.Settle | monitor.c:683-830 | Changes nothing of its own but the selection: one there was is kept, and when there is none the first enabled monitor gets it. |
| Monitors.Layout.CloseMon | monitor.c:160-176 | The selection never stays on a closed monitor and goes to the first other enabled one. |
| Monitors.Layout.CleanupMon | monitor.c:77-158 | The monitor leaves the list and the selection, and the passes its removal owes run before it returns. |
| Monitors.WithoutCloses | monitor.c:77-158 | The monitor leaves the list and the others close up in their order. |
| IpcFramer.CuttingDoesNotMatter | ipc.c:323-386 | However the stream is cut into reads, the commands dispatched are those of the whole stream and the buffer holds its unfinished end, within its size. |
| IpcFramer.LinesRoundTrip | ipc.c:353-375 | What was written as lines is dispatched as those lines in order, empty ones aside, and the unfinished end is kept. |
| IpcFramer.DroppedIffTooLong | ipc.c:377-385 | A client is dropped for length exactly when its stream comes to hold an unfinished line of the full buffer's length. |
| IpcFramer.NothingAfterNul | ipc.c:353-375 | Once a NUL has come, nothing after it is ever dispatched. |
| IpcFramer.NulStays | ipc.c:353-375 | A NUL that has come stays in the unfinished line. |
| IpcFramer.DispatchedUpToNul | ipc.c:353-375 | Of what was written as lines, exactly those before the first NUL are dispatched. |
| IpcFramer.LinesComeOutIffNoNul | ipc.c:353-375 | All lines come out if and only if none of them holds a NUL. |
| IpcFramer.Connection.BufferGrow | ipc.c:304-321 | Doubles the buffer up to the limit, keeps what it holds, and refuses at the limit. |
| IpcFramer.Connection.FindNewline | ipc.c:354 | Finds the first newline before any NUL. |
| IpcFramer.Connection.Shift | ipc.c:372-374 | The line leaves and the rest moves to the front with its final NUL. |
| IpcFramer.Connection.DispatchLines | ipc.c:353-375 | Dispatches every complete line and leaves the unfinished end. |
| IpcFramer.Connection.HandleData | ipc.c:323-386 | One read does to the buffer, its size and the dispatched commands what the byte-by-byte scan says. |
| IpcFramer.Server.HandleConnection | ipc.c:237-300 | A client is taken below the limit and turned away at it. |
| IpcFramer.Server.SubscribeClient | ipc.c:430-442 | Subscribing twice counts once, and the counter stays the number of subscribers. |
| IpcFramer.Server.ClientDestroy | ipc.c:390-408 | The client goes, the others stay in order, and the counter stays the number of subscribers. |
| IpcFramer.Server.HasSubscribers | ipc.c:450-454 | The counter answers whether anyone is subscribed. |
| IpcFramer.Server.Broadcast | ipc.c:461-484 | Every subscriber is written to once, in order; those whose socket failed go and the others keep their order. |
| IpcFramer.BroadcastReaches | ipc.c:461-484 | A client is written to exactly when it subscribed, and goes exactly when it subscribed and its socket failed. |
| ClosureGuard.OnlyTheReadyGenerationRuns | lgi_closure_guard.c:193-223 | Over every interleaving, a closure reaches its function only when its creation generation is the one its call found ready. |
| ClosureGuard.NothingOlderRunsAfterABump | lgi_closure_guard.c:121-141 | After a bump returns no older closure runs, except for calls that had loaded the ready generation before. |
| ClosureGuard.AnInFlightCallRunsAfterABump | lgi_closure_guard.c:193-223 | The exception happens, in a run from the initial state. |
| ClosureGuard.AnInterruptedMarkRevivesTheOld | lgi_closure_guard.c:143-148 | A bump inside a mark leaves the old generation ready. |
| ClosureGuard.OneWarningAGeneration | lgi_closure_guard.c:200-212 | Over every run a generation warns at most twice, and twice if and only if a blocked call warns between the stores of the bump to it and another is blocked in it afterwards. |
| ClosureGuard.ACallDuringABumpWarnsTwice | lgi_closure_guard.c:121-141 | A concrete run from the initial state that makes one generation warn twice. |
| ClosureGuard.LiveCountIsExact | lgi_closure_guard.c:98-118 | Over every run the live count of each generation is what was prepared less what was freed or replaced. |
| ClosureGuard.Guard.BumpGeneration | lgi_closure_guard.c:121-141 | Nothing in the table passes the generation test any more, and all of it is older than what is prepared next. |
| ClosureGuard.Guard.MarkReady | lgi_closure_guard.c:143-148 | Exactly the closures prepared since the last bump pass the test. |
| ClosureGuard.Guard.Callback | lgi_closure_guard.c:193-223 | Runs exactly a valid closure of the ready generation and warns exactly for the first stale one. |
| ClosureGuard.Guard.Prep | lgi_closure_guard.c:269-299 | The closure enters the table under the current generation, the newest there, replacing what was left at its address. |
| ClosureGuard.Guard.FreeClosure | lgi_closure_guard.c:307-319 | The closure leaves the table; an unknown address changes nothing. |
| ClosureGuard.Guard.LiveCountOf | lgi_closure_guard.c:98-118 | Counts exactly the live closures of the generation, or all. |
| ActivationTokens.RunsKeepAccounts | protocols.c:646-808 | Over every interleaving, pending tokens and armed timers are in bijection, each token ends at most one way, and those pending are the ones created and not ended, in order. |
| ActivationTokens.AnEndedTokenIsDead | protocols.c:754-808 | A token that ended in any way is never matched again. |
| ActivationTokens.EndKeeps | protocols.c:729-752 | Ending one token disarms its timer only and keeps the order of the rest. |
| ActivationTokens.CancelKeeps | protocols.c:645-654 | Cancelling ends every pending token and disarms every timer. |
| ActivationTokens.EveryTimerHasAToken | protocols.c:656-683 | A timer that fires always finds its token. |
| ActivationTokens.Tokens.Reserve | protocols.c:703-712 | The array holds 8 tokens at first and then twice as many, keeping what it holds. |
| ActivationTokens.Tokens.TokenCreate | protocols.c:685-727 | The new token is the last pending one with a timer of its own. |
| ActivationTokens.Tokens.CloseUp | protocols.c:744-748 | The slot is closed up and the rest keep their order. |
| ActivationTokens.Tokens.TokenCleanup | protocols.c:729-752 | The token leaves with its timer; an unknown name changes nothing. |
| ActivationTokens.Tokens.Urgent | protocols.c:754-808 | The activation is matched exactly when its token is pending, and completes it. |
| ActivationTokens.Tokens.TokenTimeout | protocols.c:656-683 | The token times out, signalled, and its timer is gone. |
| ActivationTokens.Tokens.CancelPending | protocols.c:645-654 | Nothing is pending and no timer armed. |
| Entrances.EntrancesFirst | clay_impl.c:214-228 | In place, the entering records come first and the others after, both in their old order. |
| Entrances.MoveToFront | clay_impl.c:224-226 | One record moves to the end of the front group and those between shift up by one. |
| Entrances.PartitionPermutes | clay_impl.c:214-228 | No record is lost or doubled. |
| Entrances.GroupsKeepTheirOrder | clay_impl.c:214-228 | Within a group no record overtakes another, equal ones included. |
| CursorClock.AlwaysInRange | root.c:651-667 | For every history of requests and frames the magnification stays between 1 and 16. |
| CursorClock.AMoveIsMonotone | declare.c:3469-3491 | From a request to the next, over any frames, samples start where the magnification was, move to the target without turning back, and end there when the time is over. |
| CursorClock.NoJumpIff | declare.c:3483-3491 | A request is continuous exactly when it has a duration or changes nothing. |
| CursorClock.SamplesApproachTheTarget | declare.c:3469-3481 | A later sample lies between an earlier one and the target. |
| CursorClock.SettlingShowsNothing | declare.c:3474-3477 | Stopping the clock at the end changes no later sample. |
| CursorClock.FramesOnlySample | declare.c:3469-3481 | Frames between requests leave the curve alone. |
| CursorClock.EaseMono | declare.c:3479-3480 | The cubic never falls. |
| CursorClock.EaseIsCubic | declare.c:3479-3480 | The curve is half a cube and its mirror image. |
| CursorClock.HalfwayInTime | declare.c:3469-3491 | When half of its time has passed, a move is halfway between where it started and its target. |
| CursorClock.Cursor.Magnification | declare.c:3469-3481 | Between the move's ends and within range, and taking the sample changes no later one. |
| CursorClock.Cursor.CursorMagnify | declare.c:3483-3491 | The new move starts where the old one has got to exactly when it is given time or has nowhere to go, and is at its target when its time is over. |
| CursorClock.Cursor.CursorMagnifyRequest | root.c:651-667 | Accepts exactly scales of 1 to 16 and durations of 0 to 60 seconds, enlarges no client's cursor, and changes nothing when it refuses. |

## Left out

- EventQueue.RunsHoldExactlyTheQueue: references are integers of Lua's registry with its free list; the nil reference and objects that are nil when they are pushed are not modelled. Runs in which a move folds into a released slot are left to FoldIntoAReleasedSlot.
- EventQueue.DrainDeliversSnapshot: a handler is the sequence of producer calls made and references taken and given back while it runs; one that drains again is not modelled, because the main loop guards its refresh (loop.c:257-273).
- EventBuffer.Queue.Grow: allocation succeeds, here and wherever an array grows.
- Hover.RunsAreTracked: drawins without a Lua object, for which the code warns and queues nothing, and drag and grab handling before the tracking are not modelled.
- DbusDecode.DecodesExactly: doubles are reals, so a dictionary key that is not a number is not modelled; strings are sequences of code units.
- DbusStack.LuaState.Reply: the body of the value converter (dbus.c:277-362) is a parameter; what a handler may leave on the stack is any sequence of values.
- FrameSpec.RunsKeepInv: committing frames are those the exact condition admits (CommitKeepsInvIffQuiet); the widget store's hold, release and reference answers are taken by their contract (widget.c:967-1006), Clay by the set of arrays it points into, and what a handle resolves to during a pass by a map.
- FrameRun.Output.Frame: the settling of bars, popups and clients, the reconcile and the bench counters after the commit change none of the transaction's state and are not modelled.
- Attachments.DeclaresLeastSet: Clay's element capacity does not run out, element ids are not 0, and pointer hover is a fixed answer during a pass.
- Handles.DroppedNeverResolves: holds below the wrap of the 32-bit id counter, which the lemmas require.
- Handles.OpacityWithinHalfStep: over the reals, without the float rounding of the division.
- LockBarrier.LockedPointsReachOnlyTheSection: what a node paints of its box and what its object takes are one arbitrary predicate; before an output's first frame under the lock, and past the box it last drew, points still reach the desktop.
- LockBarrier.Session.DestroyLock: the lock words only; the keyboard focus that is cleared and restored, the pointer motion after an unlock and the scene tree that is destroyed are not modelled.
- LockBarrier.SectionOk: a Clay exit transition that keeps a removed lock drawin drawn is not modelled.
- WidgetWalks.Walker.DeclareSubtree: a pass that runs out of elements half way stores no more ids; that frame fails and is not modelled here. Clay's and the compositor's hash are one function of a child index and a parent.
- ClipBudget.AdmitsIffReserved: a tree declared on an output it was not counted for is outside its passes, like one declared twice (SecondDeclarationCanExhaust).
- WidgetWalks.IdsAreDistinct: Clay's 32-bit hashes can collide, which the lemma excludes; nodes inside client composites are stored under names of their own instead.
- Monitors.Layout.UpdateMons: a callback that changes the layout raises the change signal; screen objects, client geometry and gamma tables are not modelled.
- Monitors.Layout.Settle: the selection only; the screen objects, client geometry and gamma tables it brings up to date are not modelled.
- Monitors.Layout.CloseMon: the selection only; the clients it moves and resizes are not modelled.
- Monitors.Layout.CleanupMon: the screen signals and the teardown of layer surfaces and callbacks before the guard goes up are not modelled; entered outside passes; what happens inside one is CleanupInsideAPassNests.
- IpcFramer.Connection.HandleData: a handler that destroys its own client while its lines are dispatched is not modelled. A read that returns nothing or fails, an interrupted one included, destroys the client.
- ClosureGuard.NothingOlderRunsAfterABump: a closure freed while its call is in flight is not modelled; generations do not wrap.
- ActivationTokens.RunsKeepAccounts: the protocol gives every token a new name, and GLib every timer a new id.
- CursorClock.AMoveIsMonotone: over the reals, without float rounding.
- Clay's layout solver and its root sort are a contract: the same nodes, lower bands first.
- The scroll wheel accumulator and the input settings overlay (input.c) would only add easy members.
- EWMH and X11 properties, PAM, nested inhibition, libinput configuration, sockets and files, the renderer, the widget store, drawing, dumps and logging are thin wrappers or foreign calls.
