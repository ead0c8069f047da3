# Purity: the process supervisor and the patch compiler, in Dafny

Purity drives Pure Data from Python. This project models two parts of it.

- **The process supervisor** (`purity/process.py`) has three pieces:
  - the deferred helpers: `DeferredWrapper`, `DelayedWrapper` and `deferred_list_wrapper`;
  - the bounded line log `TextLinesLogger`;
  - the six-state `ProcessManager`, which starts a child process, follows it through the reactor's callbacks and checks, after a delay, that it started or stopped.
- **The patch-graph builder and compiler** (`purity/obj.py`). A `SubPatch` holds an ordered list of objects, [receive] objects and nested subpatches, plus the connections between them. `get_fudi` compiles it into the atom lists that Pure Data's dynamic patching needs to create the whole tree. Each object takes a position from a per-scope counter.

Files:

- `outcomes.dfy`: `Option`, `Result` and `Outcome`.
- `deferreds.dfy` (module `Deferreds`): the deferred helpers.
  - Each stateful helper is a class. Its abstract state is a datatype value (`Cell`, `Timer`), and its methods are specified by a pure step function (`CellStep`, `TimerStep`).
  - The promises of the source are lemmas over any sequence of calls: one resolution, once-only setup, at most one invocation, and cancel before fire.
- `text_lines.dfy` (module `TextLines`): Python's `strip`, the line log, its text, and the class `TextLinesLogger`.
- `process_manager.dfy` (module `Process`): the transition table `Next`, the check verdicts, command resolution, and the class `ProcessManager`. Each reactor callback is an event method on that class.
- `patch_messages.dfy` (module `PatchMessages`): the atom lists of object creation, connection, `vis`, `clear` and `send`. A canvas's reading of them (`Parse`) is proved inverse to `Encode` in both directions.
- `patch.dfy` (module `Patch`): the counters, the classes `PositionIndexes`, `Obj` and `SubPatch`, and the tree invariant.
  - `SubPatch.GetFudi` is the compiler. It is recursive over nested subpatches and overwrites each object's `pos` in the heap. It is proved against the ghost specification `Compile`/`ScopeEmit`/`MembersEmit`/`MemberEmit`.
  - That specification works on a `View`: the member and connection lists of every scope, as a value.
- `patch_proofs.dfy` (module `PatchProofs`): what the compile specification produces. It covers which counters move and by how much, where each object is placed, the layout and order of the messages, that all of them are canvas commands, and what a second compile does.

The model keeps these behaviours of the source as written:

- `_on_connection_made` tests the constant `STATE_STARTING`, which is always true. So a "connection made" event sets RUNNING from every state (purity/process.py:402).
- `list(command)` runs before the test for `None`. So a missing command raises TypeError, and the ManagedProcessError branch is dead (purity/process.py:350-352).
- An empty command raises IndexError from inside the `except IndexError` handler itself (purity/process.py:355-357).
- The startup check does not change the manager's state when it fails. It only resolves the deferred with a Failure (purity/process.py:409-429).
- `connect` raises `PureError`, a name obj.py never defines or imports. The error that escapes is therefore a NameError (purity/obj.py:235, 237).
- Compiling writes a new position into every object, including one created with an explicit `pos=` (purity/obj.py:168).
- A subpatch's header takes its position from the subpatch's *own* counter, not its parent's (purity/obj.py:162).
- A nested subpatch named "main" gets no header, so it is never created in its parent, and a connection to it names an object id that does not exist in the parent (purity/obj.py:159-163).
- A root scope with a name other than "main" gets a header whose construction reads `parent.name` on `None`. The counter has already advanced when that AttributeError is raised (purity/obj.py:160-163).

## Model

| member | source | states |
|---|---|---|
| Deferreds.CellStep | purity/process.py:79-118 | `make_deferred` raises AsynchronousError iff the wrapper was already set up, and `callback`/`errback` raise iff it was not; a raising call changes nothing; the first callback or errback sets `is_called`, `is_success` and the result, and a called wrapper never changes; well-formedness of the flags is preserved |
| Deferreds.DeferredWrapper.constructor | purity/process.py:73-77 | a new wrapper is not set up, not called and has no result |
| Deferreds.DeferredWrapper.MakeDeferred | purity/process.py:79-88 | returns a fresh deferred the first time, raises AsynchronousError afterwards, as `CellStep` says |
| Deferreds.DeferredWrapper.Callback | purity/process.py:90-103 | resolves the deferred with the value if set up and not yet called, as `CellStep` says |
| Deferreds.DeferredWrapper.Errback | purity/process.py:105-118 | resolves the deferred with a Failure if set up and not yet called, as `CellStep` says |
| Deferreds.ResolvedCellIsFinal | purity/process.py:97-103 | once called, no sequence of later calls changes the wrapper |
| Deferreds.FirstResolutionWins | purity/process.py:97-99 | after setup, the first callback or errback decides `is_success` and the result for good, whatever follows |
| Deferreds.SetupOnlyOnce | purity/process.py:83-87 | `make_deferred` succeeds on a fresh wrapper and raises on every later call, after any sequence of calls in between |
| Deferreds.StaysCreated | purity/process.py:87 | a wrapper once set up stays set up |
| Deferreds.Deferred.Fired | purity/process.py:395 | `defer.fail`/`defer.succeed`: a deferred that already holds its result |
| Deferreds.TimerStep | purity/process.py:159-192 | the scheduled function is invoked iff the call is pending and the reactor fires it; a call that ran or was cancelled is unchanged; otherwise firing or cancelling resolves the deferred with the returned, resp. given, value (errback for a Failure) and sets `is_called`, resp. `is_cancelled` |
| Deferreds.InertTimer | purity/process.py:161-177 | a call that is unscheduled, ran or was cancelled is unchanged by any sequence of events and invokes nothing |
| Deferreds.CancelledTimerNeverFires | purity/process.py:169-192 | after a cancel the deferred holds the given value and no later event invokes the function or changes anything |
| Deferreds.InvokedAtMostOnce | purity/process.py:159-167 | over any sequence of events the function is invoked at most once, and never when the call is not pending |
| Deferreds.FirstTimerEventDecides | purity/process.py:159-192 | for a freshly scheduled call the first event alone decides the result, its success, and which of `is_called`/`is_cancelled` holds |
| Deferreds.DelayedWrapper.constructor | purity/process.py:127-138 | a new wrapper is unscheduled |
| Deferreds.DelayedWrapper.IsPending | purity/process.py:161-177 | the guard shared by `_call_it` and `cancel`: scheduled, not run, not cancelled |
| Deferreds.DelayedWrapper.CallLater | purity/process.py:140-157 | schedules the call and returns the fresh, unresolved deferred of a fresh DeferredWrapper |
| Deferreds.DelayedWrapper.CallIt | purity/process.py:159-167 | the new state is `TimerStep` of a firing with the function's return value; the wrapper keeps the same deferred, which therefore holds that value when the call was pending |
| Deferreds.DelayedWrapper.Cancel | purity/process.py:169-192 | the new state is `TimerStep` of a cancel with the given value; the wrapper keeps the same deferred, which therefore holds the given value when the call was pending |
| Deferreds.DeferredListWrapper | purity/process.py:202-230 | all results successful: succeeds with the concatenation of `str` of the values in order; otherwise fails with an AsynchronousError whose message is the concatenation of the error messages in order |
| Deferreds.SuccessTextAppend | purity/process.py:208-210 | the success text of a concatenation of result lists is the concatenation of their texts |
| Deferreds.ErrorTextAppend | purity/process.py:212-216 | the error text of a concatenation of result lists is the concatenation of their texts |
| Deferreds.TextsIgnoreTheOtherKind | purity/process.py:208-216 | with no failure the error text is empty; with only failures the success text is empty |
| TextLines.LeadingSpaces | purity/process.py:246 | the number of leading whitespace characters: it stops at the first non-space |
| TextLines.LeadingAreSpaces | purity/process.py:246 | every character it counts is whitespace |
| TextLines.TrailingSpaces | purity/process.py:246 | the number of trailing whitespace characters: it stops at the last non-space |
| TextLines.TrailingAreSpaces | purity/process.py:246 | every character it counts is whitespace |
| TextLines.Strip | purity/process.py:246 | `strip()` returns no longer a string that is empty or starts and ends with a non-space |
| TextLines.StripIsPiece | purity/process.py:246 | the result is the contiguous piece of the input left after cutting off only whitespace at both ends |
| TextLines.StrippedIsFixed | purity/process.py:246 | a string with no whitespace at either end is its own strip |
| TextLines.StripIdempotent | purity/process.py:435-437 | stripping twice (as `_on_out_received` followed by `append` does) is stripping once |
| TextLines.Appended | purity/process.py:245-249 | the stripped line is appended at the end; with a positive maximum size and a full log the oldest line is dropped, and the size never exceeds the maximum; with maximum size 0 nothing is dropped |
| TextLines.AppendAll | purity/process.py:245-249 | after appending several lines, a log within a positive bound stays within it, and its last line is the last one appended, stripped |
| TextLines.StripAll | purity/process.py:246 | as many stripped lines as input lines |
| TextLines.StripAllEach | purity/process.py:246 | the `k`-th stripped line is the `k`-th input line stripped, for every `k` |
| TextLines.LastN | purity/process.py:248-249 | the last `n` elements, or all of them when there are fewer: a suffix of length `min(n, |s|)` |
| TextLines.LastNOfLastN | purity/process.py:248-249 | truncating before appending more gives the same last `n` as truncating once at the end |
| TextLines.AppendedIsLastN | purity/process.py:245-249 | one append to a log within its bound keeps exactly the last `maxsize` lines |
| TextLines.BoundedLogKeepsNewest | purity/process.py:245-249 | after any sequence of appends a bounded log holds exactly the last `maxsize` stripped lines, in order |
| TextLines.UnboundedLogKeepsAll | purity/process.py:247 | with maximum size 0 the log holds every stripped line, in order |
| TextLines.TextAppend | purity/process.py:255-258 | the text of a concatenation of line lists is the concatenation of their texts |
| TextLines.LogText | purity/process.py:251-258 | the text is empty exactly when there are no lines, and otherwise ends with a newline |
| TextLines.FirstNewline | purity/process.py:257 | the index of the first newline |
| TextLines.Prefixed | purity/process.py:257 | each line with the prefix in front |
| TextLines.TextSplitsBack | purity/process.py:251-258 | when neither the prefix nor a line holds a newline, the text splits at its newlines back into exactly the prefixed lines |
| TextLines.TextLinesLogger.constructor | purity/process.py:240-243 | an empty log with the given maximum size and prefix |
| TextLines.TextLinesLogger.Append | purity/process.py:245-249 | the new lines are `Appended` of the old ones |
| TextLines.TextLinesLogger.GetText | purity/process.py:251-258 | returns `prefix + line + "\n"` concatenated over the lines, by a loop |
| TextLines.TextLinesLogger.Clear | purity/process.py:260-264 | the log is empty |
| Process.StateName | purity/process.py:335-340 | the state constants |
| Process.StateNamesDiffer | purity/process.py:335-340 | different states have different names, so the string comparisons of the source tell them apart |
| Process.Next | purity/process.py:370-475 | exactly which events lead to each state: STARTING iff the spawn call returned; RUNNING iff a connection was made; STOPPING iff stop from RUNNING; STOPPED iff stop from another state or the end of a STOPPING or STOPPED process; ERROR iff spawn raised or a STARTING, RUNNING or ERROR process ended; IDLE only when an IDLE process "ends" |
| Process.ProcessEndSettles | purity/process.py:463-472 | the end of the process leaves the manager IDLE, STOPPED or ERROR, and leaves those three unchanged |
| Process.StoppedOnlyAfterStop | purity/process.py:442-472 | a manager that is neither STOPPING nor STOPPED gets there only through a stop request |
| Process.StaysDown | purity/process.py:463-472 | a manager that is down stays down until a start or a connection |
| Process.EndedProcessStaysDown | purity/process.py:463-472 | after the process ends the manager is down until the next start or connection |
| Process.ResolveCommand | purity/process.py:349-357 | succeeds iff a non-empty command whose executable `which` finds; the first element becomes the first path found, the rest are kept; `None` raises TypeError, `[]` raises IndexError, an unknown executable raises ManagedProcessError "Could not find path of executable X." |
| Process.StartupVerdict | purity/process.py:409-429 | True iff RUNNING; otherwise a ManagedProcessError naming the process |
| Process.StartFailureMessage | purity/process.py:419-427 | the message begins "Could not start process <name>. " and ends with the given output |
| Process.StartFailureExplains | purity/process.py:420-427 | the failure message says "It crashed." exactly when the state is ERROR, and ends with both logs separated by a newline |
| Process.ShutdownVerdict | purity/process.py:477-491 | True iff STOPPED; otherwise a ManagedProcessError whose message names the state |
| Process.StoppedAnywayMessage | purity/process.py:459 | the state's name stands between the fixed text "Stopped process even if it was in an " and " state." |
| Process.StoppedAnywayNamesState | purity/process.py:459 | different states give different messages |
| Process.ProcessManager.Resolved | purity/process.py:359-368 | an IDLE manager with the resolved command, empty logs of the given size and no checks |
| Process.ProcessManager.Create | purity/process.py:343-368 | fails exactly as `ResolveCommand` does, otherwise yields that IDLE manager; the name defaults to "default" and the log size to 100 |
| Process.ProcessManager.Start | purity/process.py:370-399 | clears both logs; the state is `Next` of the spawn outcome; on success it returns the deferred of a freshly scheduled startup check, on TypeError an already failed deferred carrying the TypeError text |
| Process.ProcessManager.OnConnectionMade | purity/process.py:401-407 | the state is `Next(_, ConnectionMade)` |
| Process.ProcessManager.OnProcessEnded | purity/process.py:463-475 | the state is `Next(_, ProcessEnded)` |
| Process.ProcessManager.OnOutReceived | purity/process.py:435-437 | the stdout log is `Appended` with the stripped data |
| Process.ProcessManager.OnErrReceived | purity/process.py:439-440 | the stderr log is `Appended` with the stripped data |
| Process.ProcessManager.StartupCheckFires | purity/process.py:397-429 | the startup check's state is `TimerStep` of a firing with `StartupVerdict` of the state and both log texts at that moment, so its deferred (the same one `start` returned) is resolved with that verdict unless the check already ran or was cancelled; the shutdown check is unchanged |
| Process.ProcessManager.ShutdownCheckFires | purity/process.py:477-491 | the same with `ShutdownVerdict`, for the deferred `stop` returned; the startup check is unchanged |
| Process.ProcessManager.Stop | purity/process.py:442-461 | from RUNNING: STOPPING and the deferred of a freshly scheduled shutdown check; from any other state: STOPPED at once, no check, and a deferred already holding "Stopped process even if it was in an X state." |
| PatchMessages.Addressee | purity/obj.py:163-186 | the receiver `"pd-" + name`, from which the name can be read back |
| PatchMessages.ObjectAtoms | purity/obj.py:87-90 | exactly "obj", x, y and the name, followed by the arguments |
| PatchMessages.ConnectAtoms | purity/obj.py:126-131 | exactly five atoms: "connect", source id, outlet, sink id, inlet |
| PatchMessages.SendAtoms | purity/obj.py:105-111 | the receive symbol followed by the arguments |
| PatchMessages.Encode | purity/obj.py:159-192 | every message starts with the receiver of its scope |
| PatchMessages.ParseEncode | purity/obj.py:159-192 | a canvas reads every message the compiler builds back as the command it encodes |
| PatchMessages.EncodeParse | purity/obj.py:159-192 | every message a canvas accepts is the encoding of what it reads |
| PatchMessages.EncodeInjective | purity/obj.py:159-192 | different commands give different messages |
| PatchMessages.AddresseeInjective | purity/obj.py:163-172 | different scope names give different receivers |
| Patch.Gen | purity/obj.py:36-51 | the scope's counter (0 when unused) grows by 25 and the position is `[100, counter]`; no other counter changes |
| Patch.PositionIndexes.constructor | purity/obj.py:34 | the table starts empty |
| Patch.PositionIndexes.GenPosition | purity/obj.py:36-51 | the new table and position are `Gen` of the old table |
| Patch.Obj.Create | purity/obj.py:79-85 | name and arguments as given; position [0, 0] unless `pos=` is given |
| Patch.Obj.Fudi | purity/obj.py:87-90 | "obj", the current x and y, the name, then the arguments |
| Patch.Obj.Receive | purity/obj.py:101-103 | the object "r" whose only argument is the receive symbol |
| Patch.Obj.Send | purity/obj.py:105-111 | the message to a [receive] object is its symbol followed by the arguments |
| Patch.Connection.Fudi | purity/obj.py:126-131 | "connect", the source's id, the outlet, the sink's id and the inlet |
| Patch.SubPatch.constructor | purity/obj.py:144-149 | a root scope with no parent, no members, no connections |
| Patch.SubPatch.Child | purity/obj.py:194-219 | the subpatch that `subpatch` creates: empty, with the given name and visibility, its parent set to the creating scope and the next id |
| Patch.MainPatch | purity/obj.py:252-257 | the invisible root scope "main" |
| Patch.SubPatch.Obj | purity/obj.py:203-219 | appends exactly one new object, whose id is the number of members before it and whose parent is this scope; the tree stays valid |
| Patch.SubPatch.Receive | purity/obj.py:212-227 | the same for a new [receive] object |
| Patch.SubPatch.AddObject | purity/obj.py:212-219 | appending a member (object, [receive] or nested scope of the tree) with the next id and this parent keeps ids contiguous in insertion order and the tree valid |
| Patch.SubPatch.Subpatch | purity/obj.py:194-219 | appends exactly one new, empty, linked subpatch with the next id; the tree stays valid and gains that scope |
| Patch.SubPatch.Connect | purity/obj.py:229-240 | appends exactly one connection iff both ends are members of this scope; otherwise raises NameError and changes nothing |
| Patch.SubPatch.Clear | purity/obj.py:243-250 | members and connections become empty, so the next member gets id 0, and the message is `["pd-<name>", "clear"]` |
| Patch.SubPatch.GetFudi | purity/obj.py:154-192 | returns `Compile` of the current tree, leaves the counters as `Compile` says, gives each object the position `Compile` assigns, and leaves every other object below the scope (for instance one of a subpatch detached by `clear`) where it was |
| Patch.SubPatch.CompileIn | purity/obj.py:154-192 | the same for any scope of a tree, by recursion through nested subpatches |
| Patch.SubPatch.EmitMembers | purity/obj.py:167-176 | the objects loop produces `MembersEmit`: each member, in order, at the next position; objects it does not position keep theirs |
| Patch.SubPatch.EmitMember | purity/obj.py:168-174 | one pass: a plain object is moved to the next position and created there; a subpatch is compiled in place; objects positioned by earlier passes and objects this pass does not position keep their positions |
| Patch.SubPatch.EmitConnections | purity/obj.py:179-184 | one `connect` message per connection, in insertion order |
| Patch.ViewOf | purity/obj.py:148-149 | the lists of every scope of the tree |
| Patch.ShapeOfTree | purity/obj.py:212-219 | a valid tree has a well-formed view that agrees with the heap |
| Patch.LinkedAdd | purity/obj.py:200-201 | a new scope one level below a scope of the tree keeps the tree linked |
| Patch.MembersGrow | purity/obj.py:216-218 | appending with the next id and this parent keeps members valid |
| Patch.ConnectionsEmit | purity/obj.py:179-184 | one message per connection, the `k`-th for the `k`-th connection |
| Patch.HeaderStep | purity/obj.py:159-163 | no header for a scope called "main"; otherwise the scope's own counter advances by 25 and the single header creates the scope in its parent at the new position |
| Patch.MemberStep | purity/obj.py:167-170 | compiling one member positions only objects below this scope that earlier members did not position |
| Patch.ScopePlacedUnder | purity/obj.py:167-170 | every object a compile positions belongs to the compiled scope or to a scope below it |
| Patch.Compile | purity/obj.py:154-192 | `get_fudi` fails exactly for a root scope not called "main", with the missing-parent error, after advancing only that scope's counter and positioning nothing |
| PatchProofs.ScopeKeepsOthers | purity/obj.py:160-170 | compiling a scope moves no counter outside its subtree |
| PatchProofs.MemberAdvances | purity/obj.py:168-170 | each member, object or subpatch, moves its scope's counter by exactly 25 |
| PatchProofs.MembersAdvance | purity/obj.py:167-168 | the objects loop moves the scope's counter by 25 per member |
| PatchProofs.CompileAdvances | purity/obj.py:160-170 | `get_fudi` moves the scope's counter by 25 per member plus 25 for the header of a scope not called "main" (by 25 alone when it then fails for want of a parent), and no counter outside the subtree |
| PatchProofs.LaterMembersSkip | purity/obj.py:167-170 | no later member repositions an object of this scope |
| PatchProofs.MembersPlaceLeaf | purity/obj.py:167-174 | the object that is the `k`-th member is placed `k - i + 1` steps below the counter at the `i`-th member, and its creation message is emitted |
| PatchProofs.ScopePlacesLeaf | purity/obj.py:159-182 | compiling places the `k`-th member, an object, at `[100, counter + 25 * (k + 1 + header)]` whatever its previous position, and emits its creation message before the first connection message of the scope; the first object of a fresh root therefore gets [100, 25] |
| PatchProofs.MembersPlaceNested | purity/obj.py:159-170 | the `k`-th member, a scope not called "main", is created in this scope by a header at the position after its own counter, which no earlier member moves |
| PatchProofs.MemberHeaderFirst | purity/obj.py:159-170 | compiling a member scope not called "main" starts with its header in the parent |
| PatchProofs.MemberKeepsSibling | purity/obj.py:167-170 | one member leaves the counter of another member scope unchanged |
| PatchProofs.ScopePlacesNested | purity/obj.py:159-182 | compiling a scope creates each member scope not called "main" before the scope's first connection message |
| PatchProofs.ScopeCreatesPlaced | purity/obj.py:159-182 | every object compiling positions, at any depth, is created in its own scope at that position before the first connection message of the compiled scope |
| PatchProofs.ScopeHeaderFirst | purity/obj.py:159-163 | the output of a scope not called "main" starts with its header, created in the parent at the position after the scope's own counter |
| PatchProofs.MembersCreatePlaced | purity/obj.py:167-174 | the objects loop creates every object it positions, at that position |
| PatchProofs.MemberCreatesPlaced | purity/obj.py:168-174 | one member creates every object it positions, at that position |
| PatchProofs.ScopeLayout | purity/obj.py:176-192 | the connection messages of `s` come after the header and the members, one per connection in insertion order, followed only by the `vis` message, which is present iff the scope is not visible |
| PatchProofs.ScopeCommands | purity/obj.py:159-192 | every message a compile emits is one of the four canvas commands |
| PatchProofs.CommandsJoin | purity/obj.py:164-174 | concatenating command lists gives a command list |
| PatchProofs.CompileTwice | purity/obj.py:160-168 | compiling is not idempotent: a second compile from the counters the first left places every object of the scope `25 * (members + header)` lower, and changes the header |
| PatchProofs.ConnectionIds | purity/obj.py:229-240 | in a valid tree the ids in a connection message are the indexes of its two ends in the scope's member list |

## Left out

- The Twisted reactor, `reactor.spawnProcess`, `callLater` delays, `loseConnection` and `DeferredList` are foreign calls. The model has reactor events in their place: the spawn outcome is a parameter of `Start`, and the firing of a check is a method.
- `procutils.which` is a parameter of `ResolveCommand`. `os.environ` is left out: it only chooses which environment variables are passed to the child.
- The callbacks and errbacks attached to a Deferred by its users are outside the model. A Deferred is reduced to the value it holds.
- Deferreds.DelayedWrapper.CallIt: the source tests only `is_scheduled`. The reactor never runs a cancelled DelayedCall or one that already ran, so a firing in those states is modelled as changing nothing.
- The `AlreadyCancelled`/`AlreadyCalled` exceptions of `DelayedCall.cancel` are not modelled. `_call_it` runs the deferred's callbacks before it sets `is_called` (purity/process.py:164-167), so such an exception can only come from a cancel issued from one of those callbacks, and the callbacks are left out (above).
- Process.ProcessManager.Start, Process.ProcessManager.Stop: a second `start` (or `stop`) while the earlier check is still pending replaces the manager's reference to that check. In the source the replaced DelayedCall still fires later and resolves the first deferred; the model keeps only the latest check of each kind, and the earlier one never fires. The class is documented as one manager per process started.
- `Logger`, the `verbose` and `VERY_VERBOSE` prints, and `log.debug` are console output.
- `format_output_when_crashed` is the identity in ProcessManager, and subclasses that override it are not part of this model.
- `ManagedProcessProtocol` only forwards the reactor's callbacks to the manager. Its forwarding is the event methods, and its pipe-closed logging is console output.
- `_gen_position(..., be_random=True)` is randomised; only the counter branch is modelled.
- Keying the counters by `id(parent)` is modelled as keying by the scope itself. A `SubPatch` that is garbage-collected and whose address is reused is not modelled.
- Patch.SubPatch.EmitMember: obj.py:168 also assigns a position to a nested SubPatch member. Nothing reads that attribute, so SubPatch has no `pos`.
- `Obj.set_parent`, `SubPatch.set_parent` and `Connection.set_parent` are folded into the factories: id and parent are fixed when the scope creates the member. `_add_object` runs only inside `obj`, `receive` and `subpatch`, so adding the same object to two scopes, adding a scope to itself, or building a cycle of scopes is not modelled.
- `clear` leaves the scopes that were members in the tree, detached; the model keeps them in the root's ghost set of scopes.
- Patch.SubPatch.GetFudi: connection messages are produced before the members are compiled, then placed after them. Only the list of connections is read, and compiling does not change it. The listed order of the output is the source's.
- The `==` and `is` of the source (`in self.objects`, `self.state is ...`) are modelled as value equality of the members and states. For interned string constants and objects without `__eq__`, this is what Python does.
- Python 2 integer widths do not matter here (positions and ids are small and unbounded in Python).
- `zope.interface` declarations are runtime metadata. The self-test under `if __name__ == "__main__"`, the FUDI text codec, `client.py`, `server.py`, the GUI examples and `setup.py` are not part of this model.
