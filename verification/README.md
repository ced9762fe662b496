# Verified model of gv8

gv8 binds Go to V8 through a layer of C++. Its own hard logic is an ownership
protocol with two sides. A Go `Value` points at a native `gv8_value`; Go
contexts index the values they own in `liveValues`, native contexts index their
handles by id; either `Value.Release` or `Context.Close` frees a handle; and host
callbacks cross the boundary both ways, nested without bound, with borrowed
handles that neither index knows. Around it stand a re-entrant isolate lock,
global registries that race with `Close`, a resolver that spreads through an
import graph, a polling loop, marshalling arithmetic, and V8 header code that
gv8 compiles. This project models these in Dafny and proves what they keep.

Check everything with `dafny verify dfyconfig.toml`.

## How it is put together

The handle heap is one value, `World` (Handles.dfy): native cells with their
per-context index, Go wrappers, contexts, and the function registry. Its steps are
functions that follow the source's branches. Native code that would read a null
or freed cell sets `fault`; a caller that breaks an obligation, which the library
neither states nor checks, sets `rogue` and the run goes on; neither is excluded by
a precondition, so safety is a statement about whole runs: nothing is at fault
before something is rogue, and something is rogue exactly if an obligation has been
broken (Obligations.dfy). A program (Programs.dfy) is a tree: an API call may run
JavaScript, JavaScript may call host functions, a host function's body is again a
program.
What V8, user code and the allocator choose is recorded in the tree, so a lemma
about every tree covers every behaviour. Some fields are history variables only:
the serial number of an allocation, the JavaScript value a wrapper was made for,
the functions ever made, the multiset of deletions, and what host functions have
given JavaScript.

The obligations that `rogue` records are these:

1. a context is not closed while a native call or a host function of it is in progress;
2. the receiver of a native call is neither released nor returned from a host
   function while that call is in progress;
3. wrappers passed as arguments still point somewhere;
4. no function of a context is called after that context has been closed. V8 still
   runs it, for `GV8ContextDispose` leaves the JavaScript context alone, and
   `HostFunctionCallback` reads the ref in the deleted `gv8_ctx`.

gv8's own documentation does not state them. Departures.dfy and Callbacks.dfy show for
each what breaking it does, twice as whole programs that end at fault, and when
exactly it does it: a native call reads its receiver again only if it has a value
to wrap, and entering a host function reads freed memory exactly if its context has
been closed.

A moment (Moments.dfy) is a state that a program passes through at any depth:
between two calls of a host function's body, between two host calls of a script, or
where a call either way is about to be made. The theorems of Runs.dfy hold at every one.

| files | what they hold |
|---|---|
| Handles, HandleInvariants | the heap, its invariant, and that every primitive keeps it |
| Framing, FramingPrimitives | what a piece of a run leaves alone for the native frames around it |
| Programs, HandleLists, HostCalls, HostReturns, ProgramSafety | programs, and the induction over all of them |
| Moments, Orphans | every state a program passes through; when a wrapper is orphaned |
| Runs, Obligations, Conservation, Arguments, Calls, Departures, Callbacks | the main theorems: ownership, the caller's obligations, conservation and what JavaScript receives, argument temporaries, what a call leaves behind, exceptions, which host calls find their function |
| HandleClasses, HandleFrames | the same steps in place, on classes with the source's fields and loops, each proved to do what the heap's step does |
| IsolateLock, CallTrees | the isolate lock: all interleavings, and all call trees |
| CloseRace, Registry | registration racing with Close; ids across a 32-bit boundary |
| ModuleLinking | resolver propagation through any import graph |
| HandleScopes, PersistentCells, Smis, TagRanges | V8 header code |
| Await, Doubles, Bytes | the polling loop and the marshalling |
| Options | a value that may be missing |

The invariant of the heap (`Handles.Inv`) says: native indexes and cells describe
each other; a cell outside every index belongs to a context that a native frame is
using; open Go and native contexts point at each other; `liveValues` holds owners
of its own context only; a wrapper with a pointer has an allocated cell of its own
context referring to its own JavaScript value, indexed exactly if owned, and owned
by no one else; a registered function belongs to one open context, and a function
that was made stays registered while its context is open; every
allocation is live at one address or was deleted once. Wrappers orphaned by the
callback-not-found path are the one explicit exception: their cell is gone, but as
long as they point at it they are tracked in an open context, which clears them when
it is closed.

## Results where the source does not keep the plain law

- A callback that is not found hands native code a pointer that Go still tracks
  (host.go:181-183); native code deletes it. The wrapper is an orphan until Close. A
  run orphans nothing if and only if every host call finds its function. That a
  function is found follows from its context being open, so with ids below 2^31
  (Registry.dfy) a run whose host calls are all of functions it has made orphans none.
- A host function of a closed context reads the deleted `gv8_ctx`
  (internal/gv8.cc:346-364), and then finds no context and reports nothing
  (host.go:180, primitives.go:132-135).
- `GV8ObjectCallMethod` leaves the method's handle behind (internal/gv8.cc:1248-1252),
  if and only if no argument fails and the lookup yields.
- An exception whose text is empty has no message (internal/gv8.cc:84-89), and so no
  error (result.go:20-23): a NewFunction that fails keeps its id registered until
  Close, if and only if there is no message (host.go:82-85).
- A receiver that a callback releases or returns, or whose context it closes, is read
  after it was freed, if and only if the call has a value to wrap
  (internal/gv8.cc:1241).
- The stack referrer of `ResolveModuleCallback` loses one persistent cell per call.
- `Persistent::Copy` and `Reset(isolate, other)` on the handle itself empty it.
- The tag check that folds in the mark bit agrees with `TagRange::Contains` only for
  ranges in order, which V8 asserts only in checked builds.
- Byte lengths wrap at 2^31, and registry ids are mistaken beyond it.
- A referrer without a script id is always refused; a nil resolver binds nothing; a
  module linked on the side takes over the binding of its script id.

## Model

| member | source | states |
|---|---|---|
| Runs.RunsAreSafe | internal/gv8.cc:346-389 | at every moment of every program, inside host functions too, for every choice of JavaScript, callbacks (those of closed contexts included) and allocator addresses: no native read of a null or freed cell or context so far and the ownership invariant, unless the caller has broken an obligation before |
| Obligations.BrokenExactly | internal/gv8.cc:1217-1242 | from any state, a program has a broken obligation on record if and only if there was one or one is broken at some moment of it, at any depth: a wrapper in use is released or returned, a context in use is closed, an argument points nowhere, a function of a closed context is called |
| Obligations.ObedientRunsAreSafe | internal/gv8.cc:346-389 | a run that keeps every obligation at every moment has the ownership invariant, and no native read of a null or freed cell or context, at every moment |
| Runs.ValidMeansBacked | value.go:41-43 | at every moment, inside host functions too, `valid()` implies an allocated cell in the wrapper's own native context that still refers to the JavaScript value the wrapper was made for; for an owner indexed under its own id, tracked in `liveValues` and pointed at by no other wrapper; for a borrowed view held by an active native frame of its context |
| Runs.BorrowedOnlyInside | internal/gv8.cc:131-138 | at every moment a borrowed view points somewhere, and a cell is outside the indexes, only while a native frame of its context is active |
| Runs.NothingBorrowedBetweenCalls | internal/gv8.cc:366-389 | so between the outermost calls every borrowed view is nil and no cell is outside the indexes |
| Runs.EachCellDeletedOnce | value.go:45-60 | at every moment every cell ever allocated is still allocated at one address or was deleted exactly once, by release or by dispose, never both; allocations = deletions + live cells |
| Runs.ClosedContextIsEmpty | context.go:91-108 | at every moment a closed context has no native context, no cell, no wrapper with a pointer (orphans included) and no registered function |
| Runs.AllClosedAllFreed | context.go:74-109 | whenever every context is closed no native cell or context is left, no function is registered, no wrapper points anywhere, and every cell ever allocated has been deleted |
| Runs.OrphansOfARun | host.go:177-186 | a run that breaks no obligation orphans nothing if and only if every host call it makes, at any depth, finds its function |
| Runs.CloseIsExact | context.go:76-109 | closing a context that no native frame uses deletes exactly its cells, clears exactly the wrappers tracked in it (orphans included) and unregisters exactly its functions; every other context, cell, wrapper and function is unchanged; a second time it does nothing |
| HandleInvariants.WrapKeepsInv | internal/gv8.cc:114-129 | wrapping keeps the ownership invariant and yields a fresh, unowned, indexed cell |
| HandleInvariants.WrapBorrowedKeepsInv | internal/gv8.cc:131-138 | wrapping outside the index keeps the invariant while a native frame of that context is active |
| HandleInvariants.NativeReleaseKeepsInv | internal/gv8.cc:924-934 | deleting a cell nobody owns keeps the invariant; nothing else in the heap changes |
| HandleInvariants.NewValueKeepsInv | value.go:16-25 | on an open context, a wrapper for an unowned cell becomes its one owner and the invariant holds |
| HandleInvariants.NewValueOnClosed | context.go:169-180 | on a closed context the wrapper is made without a pointer, nothing tracks it, and the invariant holds |
| HandleInvariants.NewBorrowedKeepsInv | value.go:27-32 | a borrowed view on a cell outside the index keeps the invariant |
| HandleInvariants.InvalidateKeepsInv | value.go:34-39 | clearing a borrowed pointer keeps the invariant |
| HandleInvariants.ReleaseKeepsInv | value.go:45-60 | Release deletes exactly the owner's cell, nothing for a borrowed or released wrapper, and never faults |
| HandleInvariants.IndexIsExact | internal/gv8.cc:594-605 | the index of a context no native frame uses lists exactly the cells allocated in it, each once |
| HandleInvariants.CloseKeepsInv | context.go:76-109 | Close keeps the invariant, leaves no wrapper of the context pointing anywhere, and never faults |
| HandleInvariants.NewContextKeepsInv | context.go:33-54 | a new context is open, linked both ways and has a ref never used before |
| ProgramSafety.ExecSafe | host.go:163-218 | from any state satisfying the invariant, any program keeps it and leaves alone whatever enclosing native frames use |
| Moments.ExecMoments | host.go:163-218 | and every state it passes through on the way, between two calls of a host function's body at any depth, satisfies it too, as long as no obligation has been broken |
| Moments.ExecBetween | host.go:163-218 | a fault, a broken obligation or an orphan on record before a moment is on record at it, and one on record after it is on record at the end |
| Orphans.HostCallOrphans | host.go:177-186 | a host call's own frame adds no orphan if its id is registered, and exactly one new one if not |
| Orphans.OrphansExactly | host.go:177-186 | from any state, a program that breaks no obligation leaves the orphans as they were if and only if every host call finds its function |
| ProgramSafety.HostCallSafe | internal/gv8.cc:346-389 | a host callback of any arity, body and nesting depth keeps the invariant and the enclosing frames; that of a closed context breaks an obligation |
| ProgramSafety.StepSafe | value.go:260-397 | every API step, failing ones included, keeps the invariant and the enclosing frames |
| ProgramSafety.UseSafe | value.go:379-397 | Object.Set, Function.Call and the like: both native reads of the receiver succeed, temporaries are given back, errors included |
| ProgramSafety.MethodSafe | value.go:351-377 | CallMethod with JavaScript running in the getter and in the call |
| ProgramSafety.CreateSafe | context.go:264-281 | RunScript and the other creating calls |
| ProgramSafety.NewFnSafe | host.go:64-87 | NewFunction keeps the invariant and the enclosing frames, whether native code yields a function, fails, or fails without an error message |
| ProgramSafety.RetainGlobalSafe | global.go:14-52 | a second handle on the same value gets a cell of its own |
| ProgramSafety.MaterializeSafe | host.go:89-149 | temporaries are new, library-only, and touch nothing older |
| ProgramSafety.ReadArgsOk | internal/gv8.cc:1217-1242 | handles of wrappers that still point somewhere are read without a fault and without an effect |
| Framing.InvNarrow | internal/gv8.cc:346-389 | a finished frame leaves no borrowed cell behind, so the invariant holds for the frames below |
| HostCalls.HostMissingSafe | host.go:177-186 | callback not found in an open context: receiver and argument cells are released, and exactly one orphaned wrapper is added |
| HostReturns.HandoffShape | host.go:163-174 | handoff gives native code a fresh handle to the same JavaScript value and gives up the Go side's; a borrowed original keeps its cell |
| HostReturns.ReturnNilSafe | internal/gv8.cc:373-389 | returning nil: exactly the frame's cells go |
| HostReturns.ReturnValueSafe | host.go:215-218 | returning any wrapper, a borrowed argument included: the frame's cells and the wrapper's own cell go, nothing else |
| HostReturns.ReturnErrSafe | host.go:207-214 | returning an error: exactly the frame's cells go, the error value's handles included |
| Conservation.HostCallConserves | internal/gv8.cc:346-389 | what a host call leaves allocated is exactly what its body left, less the frame's cells and the one it returns; receiver and argument cells survive the body and are then deleted exactly once; so are the returned cell, the handle native code reads the result from, and an error value's cell; all views are nil on return; of what the body left on the Go side nothing else changes but the wrapper returned and an error's own |
| Conservation.HostCallAnswers | internal/gv8.cc:366-389 | what JavaScript receives, whatever the body did: the error made for it, thrown, if the function is not found; otherwise nothing for nil and for a wrapper that points nowhere, the JavaScript value the wrapper was made for, or an error's own value, thrown |
| Conservation.ViewSees | host.go:188-195 | as many views as there are arguments and receiver; argument i is seen through view i, a valid wrapper that the body can name, receiver first |
| Conservation.ReturnedArgument | host.go:163-174 | returning one's own i-th argument, after any body, gives JavaScript that very value |
| Conservation.GoneIsFreedOnce | internal/gv8.cc:924-934 | a cell that was there and is gone was deleted exactly once |
| Arguments.MaterializeRight | host.go:128-149 | materializing fails exactly if some conversion fails; otherwise argv[i] is the caller's handle or a temporary referring to the converted value |
| Arguments.MaterializeCounts | host.go:128-149 | one temporary and one allocation for each conversion before the first that fails; contexts and the function registry are unchanged |
| Arguments.TemporariesGivenBack | host.go:131-140 | for any argument list and failing position, running the cleanups restores the heap and every older wrapper exactly |
| Arguments.CleanupIsExact | value.go:363-367 | the deferred cleanup deletes each temporary's cell once and touches no wrapper the caller supplied, whatever ran in between |
| Arguments.TemporariesOutlastTheCall | value.go:379-397 | whatever JavaScript does during the native call, its temporaries stay as made until the cleanup |
| Arguments.ReleaseAllExact | value.go:45-60 | releasing a list deletes exactly the cells its wrappers own |
| Calls.UseNet | value.go:309-397 | Object.Set, Function.Call and the like, with any JavaScript inside: failing in the arguments changes nothing; otherwise everything is as JavaScript left it plus one cell and one valid wrapper for the result, if there is one, less the temporaries' cells |
| Calls.CreateNet | context.go:264-281 | RunScript and the other creating calls, with any JavaScript inside: nothing on a context that is not open; without a value exactly what JavaScript left; with one, that plus one new cell and one new valid wrapper for that value, which the caller can name if and only if the result is kept |
| Calls.InvalidReceiver | value.go:309-329 | a call on a wrapper that is not valid changes nothing |
| Calls.MethodNet | value.go:351-377 | the same for CallMethod, which ends after its arguments, after the lookup, or after the call; the lookup adds one cell, the method's handle |
| Calls.CallEnds | result.go:9-18 | a call that yields ends with one new cell and one new valid wrapper of its context for the value, and gives back exactly the temporaries; all other cells and wrappers are as JavaScript left them |
| Calls.NewFnNet | host.go:64-87 | NewFunction: nothing on a context that is not open; otherwise one fresh id tracked by the context, with a valid function value if native code succeeds, which then and only then has made a function of that id; if it fails nothing else changes, and the id is registered if and only if there is no error message |
| Calls.RetainNet | global.go:14-52 | a second owner of the same JavaScript value, with a cell of its own in the same context; the original is unchanged; nothing for a wrapper that is not valid |
| Calls.ReleaseNet | value.go:45-60 | releasing a wrapper that no call is using deletes exactly the cell it owns and clears exactly its pointer; a second time it does nothing |
| Calls.NewCtxNet | context.go:33-54 | a new context, open and empty, under an unused ref and on a native context of its own; nothing else changes |
| Departures.LookupLeavesAHandle | internal/gv8.cc:1244-1253 | for any arguments, getter, method and outcome: CallMethod leaves the looked-up method's handle, a new indexed cell that no wrapper owns, if and only if no argument fails and the lookup yields |
| Departures.QuietMethodNet | internal/gv8.cc:1244-1253 | without JavaScript in getter and method, the net change is that handle and the result's |
| Departures.StaysUntilClose | internal/gv8.cc:594-605 | a cell that nobody owns outlives any program that does not close its context |
| Departures.EmptyMessageLeavesAnId | result.go:20-23 | an exception without text is no error: no function, and an id that stays registered until Close unregisters it |
| Departures.NativeCallFaults | internal/gv8.cc:1233-1242 | a native call is at fault exactly if its receiver's cell was not there, or JavaScript was at fault, or it has a value to wrap and the receiver's cell or context is gone when JavaScript is done |
| Departures.EveryHandleIsRead | internal/gv8.cc:1217-1242 | a call on a function is at fault if an argument, the receiver or the function points at a cell that is not there |
| Departures.FaultsExactly | internal/gv8.cc:924-945 | in a sound state reading, retaining, deleting, wrapping and disposing are at fault exactly for cells and contexts that are not allocated, the null pointer apart |
| Departures.ReleasedInside | internal/gv8.cc:1233-1242 | from any state, for any wrapper that a callback of a call releases: an obligation is broken exactly if that call or one further up is using it, and the call is at fault exactly if it is its own receiver and there is a value to wrap |
| Departures.ReturnedInside | host.go:163-174 | the same for a callback that returns a wrapper |
| Departures.ClosedInside | context.go:76-109 | the same for a callback that closes a context: broken exactly if a call in progress uses it, at fault exactly if it is the receiver's and there is a value to wrap |
| Departures.ClosedScript | context.go:264-281 | the same in a running script: at fault exactly if the script's own context is closed and the script yields |
| Departures.FaultyRun | internal/gv8.cc:1233-1242 | a whole program, from the empty library, that ends at fault, and with no result to wrap does not |
| Departures.ReadArgsFaults | internal/gv8.cc:1226-1230 | reading the arguments faults if and only if one of them points nowhere |
| Callbacks.FunctionsAreFound | host.go:58-62 | at every moment the id of a function ever made is registered for its context if and only if that context is open |
| Callbacks.YieldedFunctionIsFound | host.go:64-87 | a function that NewFunction has yielded is found, at every moment of every program run afterwards, exactly as long as its context is open |
| Callbacks.GenuineRunsOrphanNothing | host.go:177-186 | a run that breaks no obligation and calls no host function but those it has made orphans nothing |
| Callbacks.EntryFaults | internal/gv8.cc:346-364 | entering a host function reads freed memory if and only if its context has been closed |
| Callbacks.ClosedCallNet | host.go:177-186 | a host call of a closed context finds no context: no error value, no orphan, receiver and argument cells deleted once each, nothing else changed, and a fault on record |
| Callbacks.MissingCallNet | host.go:177-186 | a host call in an open context that does not find its function: it throws the error made for it; receiver, argument and error cells are deleted once each; a hidden wrapper stays that Go tracks although its cell is gone; nothing else changes |
| Callbacks.ExecAppend | host.go:163-218 | one program after another is their concatenation |
| Callbacks.UpcallsAppend | internal/gv8.cc:346-389 | so are host calls |
| Callbacks.ForgottenCallback | internal/gv8.cc:594-605 | after any program: closing a context and then calling a host function of it from a script of another context is at fault |
| Callbacks.RememberedCallback | internal/gv8.cc:346-389 | the same program without the Close, for a function that does nothing, is not at fault |
| Callbacks.FaultyCallback | internal/gv8.cc:594-605 | both programs whole, from the empty library, for a function they have made |
| HandleClasses.Library.WrapValue | internal/gv8.cc:114-129 | in-place wrapValue and trackValue refine the step of the heap model |
| HandleClasses.Library.WrapBorrowedValue | internal/gv8.cc:131-138 | in-place wrapBorrowedValue refines the model's step |
| HandleClasses.Library.ValueRelease | internal/gv8.cc:924-934 | in-place GV8ValueRelease refines the model's step |
| HandleClasses.Library.ValueRetain | internal/gv8.cc:936-945 | in-place GV8ValueRetain refines the model's step |
| HandleClasses.Library.ContextDispose | internal/gv8.cc:594-605 | the dispose loop deletes exactly the indexed cells, in whatever order the map yields them |
| HandleClasses.Library.DeleteIndexed | internal/gv8.cc:599-603 | the loop itself: heap and deletion count after any iteration order |
| HandleClasses.Library.TrackValue | context.go:169-180 | tracking on a closed context clears the pointer, on an open one adds to `liveValues` |
| HandleClasses.Library.UntrackValue | context.go:182-192 | untracking removes exactly that wrapper |
| HandleClasses.Library.NewValue | value.go:16-25 | newValue refines the model's step; a nil pointer makes nothing |
| HandleClasses.Library.NewBorrowedValue | value.go:27-32 | newBorrowedValue refines the model's step |
| HandleClasses.Library.IsValid | value.go:41-43 | `valid()` on the objects is `Valid` of the model |
| HandleClasses.Library.Release | value.go:45-60 | Value.Release refines the model's step, which is what the invariant is proved of |
| HandleClasses.Library.InvalidateSwept | context.go:101-103 | the loop over the swept values clears exactly those |
| HandleClasses.Library.Close | context.go:76-109 | Context.Close, loops and all, refines the model's Close |
| HandleClasses.Library.NewContext | context.go:33-54 | NewContext refines the model's step |
| HandleClasses.Library.RegisterHostFunction | host.go:39-45 | a fresh id is registered |
| HandleClasses.Library.TrackHostFunction | context.go:156-167 | on a closed context the id is unregistered again, otherwise tracked |
| HandleFrames.HandoffHostValue | host.go:163-174 | handoffHostValue refines the model's handoff |
| HandleFrames.WrapArguments | internal/gv8.cc:354-361 | the allocation loop over argv refines the model's list step |
| HandleFrames.ReleaseArguments | internal/gv8.cc:373-379 | the release loop over argv refines the model's list step |
| HandleFrames.MakeViews | host.go:188-195 | the view loop refines the model's list step |
| HandleFrames.InvalidateViews | host.go:197-204 | the release closure refines the model's list step |
| HandleFrames.MaterializeArgs | host.go:128-149 | the append loops, with cleanups run on failure, compute what the model's materialization says |
| HandleFrames.RunCleanups | host.go:144-148 | the cleanup loop releases every temporary |
| HandleFrames.CArgv | host.go:151-161 | argv[i] is the handle of argument i |
| HandleFrames.GlobalValue.Value | global.go:31-52 | a new handle exactly if the global is live and of this context |
| HandleFrames.GlobalValue.Release | global.go:54-60 | releases once, however often it is called |
| HandleFrames.RegisterFunction | host.go:72-73 | register and track on an open context |
| HandleFrames.NewFunction | host.go:64-87 | NewFunction in place, whatever native code answers, refines the model's step; an error is returned exactly for a closed context or a failure with a message |
| IsolateLock.Isolate.Enter | isolate.go:283-306 | enter succeeds exactly if there is an isolate and it is free or the thread's own; then the thread owns it one deeper, with one more pin; refusal leaves lock and pin count as they were |
| IsolateLock.Isolate.Leave | isolate.go:316-331 | leave panics exactly if the caller's thread is not inside |
| IsolateLock.Isolate.Dispose | isolate.go:135-144 | Dispose clears the pointer once and restores the lock it takes |
| IsolateLock.RunKeepsLockInv | isolate.go:283-331 | every interleaving of goroutines, with thread migration while unpinned, keeps the lock invariant |
| IsolateLock.MutualExclusion | isolate.go:283-331 | in every interleaving at most one goroutine is inside; `depth` is the number of releases it holds and `ownerThread` its thread |
| IsolateLock.DecideExactly | isolate.go:290-305 | in every reachable state enter gets in if and only if no other goroutine holds a release of that isolate; the lock is then its thread's, as deep as it holds releases; if not, it is unpinned again and nothing else changes |
| IsolateLock.LeaveExactly | isolate.go:316-331 | in every reachable state a release takes one level back, one pin, and gives the isolate free with the last one |
| IsolateLock.FreeExactly | isolate.go:316-331 | an isolate is free exactly when no release of it is out |
| IsolateLock.CallsCanBeMade | isolate.go:283-306 | in every reachable state a goroutine that is not waiting can call enter and decide, and any release it holds |
| IsolateLock.NoReleaseEverPanics | isolate.go:316-331 | a release called once by the goroutine it was handed to never panics, in any interleaving |
| IsolateLock.ExtraReleasePanics | isolate.go:322-324 | and leave panics exactly when the goroutine holds none |
| IsolateLock.PinsAreDepths | isolate.go:288-330 | a thread's LockOSThread count is the sum of the depths it owns over all isolates |
| CallTrees.CallRestores | isolate.go:283-331 | any tree of nested calls, with failing enters, panics and deferred cleanups, while other threads interfere: owner and depth of what the thread holds, and its pin count, end as they began |
| CallTrees.QuietCallRestores | value.go:309-329 | without other threads every lock ends exactly as it was |
| CallTrees.NestedCallSucceeds | isolate.go:308-314 | inside an isolate no nested enter fails and no mustEnter panics, at any depth |
| CallTrees.CallPanics | isolate.go:308-314 | whatever other threads do: a refused call runs nothing and panics exactly if it must enter; one that has entered panics exactly if user code, its body or a cleanup does, never in its own leave |
| CallTrees.PanicsExactly | isolate.go:283-314 | without other threads a tree panics exactly if it bursts, a definition that does not run it |
| CloseRace.RunKeepsRaceInv | context.go:76-109 | every interleaving of registering, tracking, releasing and closing keeps every id and pointer accounted for |
| CloseRace.CloseIsClean | context.go:156-180 | once everything concerning a closed context has finished, no id of it is registered and no value of it points anywhere |
| CloseRace.CloseLeavesOthers | context.go:87-106 | no step of Close touches another context's ids or values |
| CloseRace.StepChanges | context.go:76-192 | every step: exactly which ids, pointers and contexts it drops, clears and closes, and nothing comes back |
| CloseRace.StepGoesTo | context.go:76-192 | every step moves its own thread and no other, to the next point of what it is doing |
| CloseRace.TrackingChanges | context.go:156-192 | exactly what an open context tracks after a step, and what Close takes with it |
| CloseRace.FunctionStays | context.go:156-167 | whatever other threads do, an id that an open context tracks stays registered until the context is closed, unless native code fails to make the function |
| CloseRace.ThreadsCanMove | context.go:76-192 | in every reachable state each thread can go on |
| Registry.Table.Register | host.go:39-45 | an id is handed out once, ever |
| Registry.Table.Delete | host.go:47-56 | exactly the listed ids go |
| Registry.Table.Set | context.go:56-60 | an entry is stored under its reserved ref |
| Registry.CallbackFindsItsOwn | internal/gv8.cc:346-364 | below 2^31 ids a native callback finds the very entry it was made for, or none |
| Registry.MistakenIdsExactly | host.go:177-180 | exactly which ids can be mistaken for another entry once the counter outgrows a C int |
| Registry.FirstMistake | host.go:177-180 | id 2^32+1 is taken for id 1 |
| ModuleLinking.Context.BindModuleResolver | context.go:111-130 | binds under script id and name; nil module, nil resolver and closed contexts bind nothing |
| ModuleLinking.Context.ModuleResolverForScript | context.go:132-142 | what was bound under a non-zero id |
| ModuleLinking.Context.ModuleResolverForResource | context.go:144-154 | what was bound under a non-empty name |
| ModuleLinking.BindLooksUp | context.go:111-154 | after a binding its id and its name lead to the resolver bound, every other id and name to what they led to before; id 0 and the empty name lead nowhere |
| ModuleLinking.ResolveModule | module.go:143-174 | the callback, on the context's maps, refines the step of the walk |
| ModuleLinking.ResolverReachesEveryReferrer | module.go:71-89 | any finite graph, cycles included, any bindings and any linked modules before: every referrer asked about is bound to the root's resolver unless it has no script id, and `no module resolver configured` is reported exactly if one without is asked about; the root and newly visited modules are bound by name too |
| ModuleLinking.NeverUnconfigured | module.go:152-160 | with non-zero script ids that branch is unreachable |
| ModuleLinking.LinkVisitsReachable | internal/gv8.cc:781-791 | a successful link adds exactly what the root leads to without passing through a module linked before: the least set closed under the imports of what is new |
| ModuleLinking.LinkSucceedsExactly | module.go:143-174 | with a resolver, import cycles included: a link succeeds if and only if every newly reached module imports nothing, or has a script id and has all its requests answered; a failure names a module without a script id or with a request that is not answered |
| ModuleLinking.NilResolver | context.go:112-114 | a nil resolver fails exactly for an unbound root that is not linked yet and imports anything |
| ModuleLinking.RequestMisleads | module.go:143-174 | after one request, a module bound to the resolver is put to another one if and only if the last module linked on the side with its script id was given another, and the answer has not that id |
| ModuleLinking.SideMisleads | context.go:124-126 | the same for the side links alone |
| ModuleLinking.SharedScriptIdMisleads | context.go:124-126 | a whole link in which that happens to a referrer |
| HandleScopes.HandleScopeData.CreateHandle | internal/v8/include/v8-local-handle.h:227-241 | the next slot, or the first of new room if none is left: within the limit, held by no open scope, and every held slot keeps its contents |
| HandleScopes.HandleScope.Close | internal/v8/include/v8-local-handle.h:203-225 | the destructor gives back the free segment the scope found and everything allocated since; memory goes only if the scope was extended |
| HandleScopes.Run | internal/v8/include/v8-local-handle.h:188-241 | any well-bracketed program leaves enclosing scopes' slots disjoint and unchanged |
| HandleScopes.RunScope | internal/v8/include/v8-local-handle.h:190-225 | a scope restores next, limit and level exactly |
| PersistentCells.GlobalHandles.Reset | internal/v8/include/v8-persistent-handle.h:452-457 | cells stay linear; exactly the handle's cell goes |
| PersistentCells.GlobalHandles.ResetTo | internal/v8/include/v8-persistent-handle.h:463-470 | the handle holds the new contents in a cell of its own |
| PersistentCells.GlobalHandles.Copy | internal/v8/include/v8-persistent-handle.h:435-443 | linear; the target gets equal contents exactly unless a non-empty handle is copied to itself, which empties it |
| PersistentCells.GlobalHandles.Move | internal/v8/include/v8-persistent-handle.h:535-541 | the cell changes hands, none is made or lost |
| PersistentCells.GlobalHandles.MoveAssign | internal/v8/include/v8-persistent-handle.h:543-555 | the old cell goes, the source's changes hands, self-assignment does nothing |
| PersistentCells.GlobalHandles.DestroyPersistent | internal/v8/include/v8-persistent-handle.h:302-309 | the destructor leaks a cell that is still held |
| PersistentCells.GlobalHandles.DestroyGlobal | internal/v8/include/v8-persistent-handle.h:387 | a Global's destructor gives its cell up |
| PersistentCells.Release | internal/gv8.cc:734-740 | a release function gives up exactly its struct's cell |
| PersistentCells.ResolveModuleReferrer | internal/gv8.cc:306-308 | the stack referrer loses exactly one cell per call |
| PersistentCells.CellCount | internal/gv8.cc:594-605 | cells = native structs + referrers ever resolved |
| PersistentCells.ReleaseAll | internal/gv8.cc:599-602 | releasing every struct leaves only the referrers' cells |
| Doubles.ToDoubleRounds | internal/gv8.cc:854-859 | the computed conversion is roundTiesToEven, by its definition over all doubles |
| Doubles.RoundingIsUnique | internal/gv8.cc:854-859 | nothing else is |
| Doubles.RoundTripExact | primitives.go:42-53 | int64 through double and back is the identity up to 2^53 in magnitude |
| Doubles.RoundTripExactIff | internal/gv8.cc:969-975 | exactly for the doubles among the int64, and the largest int64 |
| Doubles.RoundTripMonotone | value.go:77-84 | order survives the round trip |
| Doubles.RoundTripError | internal/gv8.cc:969-975 | the error is at most 512 |
| Doubles.ErrorIsReached | internal/gv8.cc:854-859 | and 512 is reached |
| Smis.ValidExactlyInRange | internal/v8/include/v8-internal.h:98-131 | the wrapped unsigned comparison accepts exactly the smi range, for every type and platform |
| Smis.TagRoundTrip | internal/v8/include/v8-internal.h:1248-1255 | decoding returns the original; the encoding never carries the heap-object tag |
| Smis.TagIsShifted | internal/v8/include/v8-internal.h:1248-1255 | the tagged word read as signed is the value times 2 or 2^32, in every bit |
| Smis.SmiEncoding | internal/v8/include/v8-internal.h:1273-1280 | TryIntegralToSmi succeeds exactly on the smi range and round-trips |
| Smis.ReturnValue.Set | internal/v8/include/v8-function-callback.h:444-500 | JavaScript reads back what was set, rounded only for 64-bit values outside the smi range |
| Smis.SetIsExact | internal/v8/include/v8-function-callback.h:453-470 | exactly, for all types up to 32 bits and magnitudes up to 2^53 |
| TagRanges.FastCheckRefinesSimple | internal/v8/include/v8-sandbox.h:118-151 | the shifted check agrees with TagRange::Contains on every 64-bit entry exactly for ranges in order |
| TagRanges.ReadBack | internal/v8/include/v8-sandbox.h:130-151 | for either mark bit: the payload if the tag is in range, null otherwise |
| TagRanges.ContainsIs | internal/v8/include/v8-internal.h:521-527 | what the wrapped uint32 comparison decides, inverted ranges included |
| TagRanges.EntryParts | internal/v8/include/v8-internal.h:392-394 | every 64-bit entry is the encoding of its payload, tag and mark bit |
| Await.Await | promise.go:102-167 | over every environment: the first round in which something ends the loop ends it; the outcome is what that round shows, or for a settled promise the second state read, a rejection with the exact message; checkpoint before each read in the loop; no pump after seeing cancellation or termination |
| Await.Step | promise.go:110-146 | one round, with the world's reason for every verdict, in the order in which the loop looks |
| Await.Finish | promise.go:149-166 | what the second state read decides: value, nil or not, rejection with its message (`promise rejected: ` and the text if there is one, `promise rejected` if not), or not settled |
| Bytes.CopyRoundTrip | primitives.go:96-130 | into JavaScript and back is the identity exactly below 2^31 bytes; empty gives nil |
| Bytes.ReceivedExactly | value.go:204-222 | Bytes returns exactly what JavaScript sees iff its length fits an int; beyond, it panics or returns as many bytes as the low 32 bits of the length say |
| Bytes.StoredPrefixComesBack | internal/gv8.cc:890-922 | beyond the bound max(0, length read as int32) bytes are stored, and all of them come back |
| Bytes.NewBackingStore | internal/gv8.cc:890-904 | the store holds a prefix of the data and reads no byte past it |
| Bytes.NewUint8ArrayCopy | internal/gv8.cc:906-922 | a view on the whole of a new store |
| Bytes.NewArrayBufferCopy | internal/gv8.cc:890-904 | a new buffer with the copied prefix |
| Bytes.ValueBytes | internal/gv8.cc:1057-1092 | a buffer's store, a view's slice [offset, offset+length), an error for anything else, cut to an int length |
| Bytes.CopyInAndOut | value.go:204-222 | the two directions composed on the heap; the caller's data is unchanged |

## Left out

- V8 itself: parsing, execution, garbage collection, string conversion, JSON, WebAssembly; its choices are part of the program tree or the environment.
- cgo linking, platform and ICU setup, heap statistics, counters, version strings: no logic of gv8's own.
- The `Is*` predicates and the constructors as separate members: `Create` and `Use` stand for all of them.
- Snapshot builder and unbound scripts beyond their persistent cells, and Module.Release: small linear lifecycles.
- Unsynchronised use of one context from several threads, beyond registering, tracking, releasing and closing: callers must synchronise.
- External pointer masks and pointer compression: independent bit layouts that would add only easy members.
- Out of memory: allocations succeed. Handle ids are a C++ `long` in the source and never run out in the model; native cells and native contexts have separate address spaces in it.
- Module resolver and dynamic-import callbacks are not steps of the heap of their own: they read the `gv8_ctx` as a host call does (internal/gv8.cc:297-345), and to the heap each is a host call without receiver and arguments, at fault for a closed context alike.
- Resolver error values and the rejection result of Await stay tracked until Close: they are the results of `Create` that are not kept.
- A panic in the middle of Release or of a host function is part of the lock model, not of the heap model.
- Isolate.Dispose and the order of disposing contexts before isolates: the heap model has one isolate that stays.
- ProgramSafety.StepSafe: arguments that a getter of CallMethod's own lookup releases count as the caller's broken obligation, because the handles are read after the lookup; they are read through the wrappers then, so a released one is a fault even if its address has been used again.
- HandleClasses.Library.WrapValue: the address of a new cell is a parameter, because the allocator chooses it; the heap model covers every choice, reuse of freed addresses included.
- HandleFrames.WrapArguments: the body of a host function between setting up and taking down its frame is not a method; the whole call is the heap model's, the loops are in place.
- HandleScopes.HandleScopeData.CreateHandle: Extend and DeleteExtensions have no visible bodies; they may do anything within the contracts stated in the file.
- ModuleLinking.ResolverReachesEveryReferrer: assumes that a resolver answers from a finite set of modules with non-nil modules, and that modules it links on the side share no script id or name with the graph.
- ModuleLinking.LinkSucceedsExactly: the same, because a referrer whose script id is shared is put to another module's resolver (RequestMisleads).
- Await.Await: the source's loop may run for ever; the method looks at any finite number of its rounds.
- Doubles.RoundTripExact: V8's IntegerValue has no visible body; its contract is to truncate and saturate. JavaScript numbers that are not integers do not occur in the round trip.
- Bytes.ValueBytes: a negative length makes C.GoBytes panic; the model returns a distinct result for it.
- CloseRace.CloseIsClean: the unsynchronised pointer writes of Close and Release are single steps; the Go memory model is not modelled.
