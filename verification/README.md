# NetworkMnt: what the monitor guarantees

A Dafny model of the parts of the network monitor whose correctness is not obvious from
reading one function, with proofs.

* **The byte formatter** (`MonitorApp/Format.h`). `ByteSprintf` picks a unit by repeated
  division, rescales by a table entry, picks a precision from two literals and prints into the
  caller's buffer. `ByteFormat` says what it prints as a function of the count, and how a reader
  takes the text back; `Decimal` is the `%w.df` printer with an independent reader; `FormatLaws`,
  `ColumnLaws`, `RoundTripLaws`, `ThresholdLaws` and `OptimalLaws` prove what the columns guarantee;
  `ByteSprintf` is the loop, the table look-ups and the buffer.
* **The driver-service lifecycle** (`MonitorApp/InstallService.cpp`). Install, start, stop and
  unload are small programs over a shared service database with open handles and a common
  cleanup. `Scm` states the rules of each system call; `Lifecycle` gives the four functions as
  client programs, one API call to a step, and runs of any number of interleaved clients;
  `SoloLaws` treats one call at a time; `RunLaws` (who holds what), `CountLaws` (how many handles there
  are), `DeletionLaws` (when a deletion completes), `LinearLaws` (what results are worth) and `ReplayLaws`
  (linearizability) treat all interleavings, and `StrayRuns` has the runs that go
  wrong; `AnswerLaws` spells out what each code means and when each function must succeed; `InstallService` has the functions in their own statement form, with a
  last-error cell, the system's answers and other clients acting before every call, each shown to be one
  client's part in a run (`Activations`);
  `DriverPath` is the path building in a fixed wide-character buffer, `CStrings` the strings in one.

## How to read it

Counts given to the formatter are exact reals. Dividing by 1024 and multiplying by the table's
powers of 1/1024 are exact in binary floating point for the whole counts below 2^40 that the tables
cover; the two precision literals are not exact, and `ThresholdsExact` settles when that matters
(never, for the literals as compiled). The direction in which the C library rounds an exact half is
not fixed by the program, so it is a parameter, `TieRule`: any function of the precision and of the
integer below. All theorems hold for every tie rule.

The system's own choices are parameters too: a `Verdict` for each service-control call says which
free handle is handed out, or that the call is refused, and with which code. Codes that report the
state of a service (exists, does not exist, already running, not active, marked for deletion) come
only from the database. A service marked for deletion is removed when it is stopped and its last
handle is closed; a kernel driver stops at once; opening a service that is marked is allowed, starting
it is not. `CloseServiceHandle` fails only for a handle that is not open. Service handles belong to a
process, so the one handle table is that of one process and the clients are its threads; a stray close
hits a handle of the same process.

Where the code does not do what its design suggests:

* `InstallDriver` closes `schService` even if `SetupDriverName` has failed and nothing was assigned
  to it (`MonitorApp/InstallService.cpp:37`, `:53`, `:96`). The local is modelled as an arbitrary value.
  Three promises then fail, each with a concrete run and an exact condition:
  * A client can lose its handle (`UnsetLocalHarms`). Ownership of handles holds exactly when that value
    is not an open handle (`TableUnchanged`, `SessionConservesHandles`, `RunOwnership`), always when it is
    NULL (`NullLocalsNeverStray`) and always when no handle is open to begin with (`LoneSessionIsClean`).
    The count of handles on each service is less easily upset: it holds all along a run exactly when no
    step takes a service handle (`CountsAlongRuns`); the stray close of a manager handle does no harm to it.
  * A client that is refused nothing can report an invalid handle where the database calls for success
    (`UnsetLocalHarms`): its result is exact exactly when the step that settles it has not lost the handle
    it uses and is not misdirected (`UnrefusedStepIsExact`).
  * A client can report success for a service it has not touched (`UnsetLocalMisleads`): a result is true
    exactly when no such loss shows in the step that settles it (`ReturnsAreTruthful`), and runs are
    linearizable exactly when no unrefused step is of either kind (`RunsReplay`).

  Deletion is not affected (`InterleavedDeletion`, `DeletionCompletes`, `DeletionHappens`).
* The unit loop can end with index 4, one past the tables. `TablesSuffice` shows that this happens
  exactly from 1024^4 bytes on; `ByteSprintf` reports `OutsideTable` there and does nothing.
* `SetupDriverName` passes a byte count where the first call takes characters. `PathLimits` gives the
  consequences for every directory length; where the buffer is overrun the functions report it and go
  no further.

## Model

| member | source | states |
|---|---|---|
| Decimal.PrintReadBack | MonitorApp/Format.h:81-93 | for every width, precision and mantissa the independent reader recovers from the printed field exactly the number printed, and the text behind it |
| Decimal.PrintedWidth | MonitorApp/Format.h:81-93 | the columns a printed number takes, from its size in powers of ten |
| Decimal.DigitGlyphs | MonitorApp/Format.h:81-93 | digit n is the nth of the characters 0 to 9 |
| FormatLaws.TableScaling | MonitorApp/Format.h:29-35 | one multiplication by the conversion entry equals dividing by 1024 that many times |
| FormatLaws.ReduceEnlarge | MonitorApp/Format.h:61-67 | dividing by 1024 any number of times loses nothing: multiplying back gives the original count |
| FormatLaws.UnitIsCanonical | MonitorApp/Format.h:61-67 | the unit is k if and only if 1024^k <= x < 1024^(k+1), cut off at both ends |
| FormatLaws.TablesSuffice | MonitorApp/Format.h:22-53 | the unit has an entry in all three tables if and only if x < 1024^4 |
| FormatLaws.TextReadsBack | MonitorApp/Format.h:69-96 | the text of any count below 1024^4 reads back as the amount shown, with its unit and kind of label |
| FormatLaws.ColumnWidth | MonitorApp/Format.h:38-96 | every total takes 6 characters and every rate 8 |
| ColumnLaws.TextIsWellSet | MonitorApp/Format.h:79-96 | every column is blanks, then a number in which no zero stands idle before another digit, then the label at the right end |
| ColumnLaws.TextIsUnique | MonitorApp/Format.h:79-96 | a string is the text of a count if and only if it has the column's width, is set in that way and reads as the amount shown with its label: nothing about its characters is left open |
| ColumnLaws.Labels | MonitorApp/Format.h:38-53 | the eight labels, spelled out |
| ColumnLaws.SevenBytes | MonitorApp/Format.h:79-96 | 7 bytes print as four blanks and 7B, under every tie rule |
| FormatLaws.MonotoneDisplay | MonitorApp/Format.h:64-96 | x <= y implies that the number denoted by the text of x is at most that of y, across precisions, units and labels |
| FormatLaws.Accuracy | MonitorApp/Format.h:69-96 | the denoted number is within half a byte of the count below 1024 and within one part in 201 above |
| FormatLaws.AccuracyIsSharp | MonitorApp/Format.h:83-84 | the bound of one part in 201 is attained at 1.005 KB under every tie rule |
| FormatLaws.SmallCountsExact | MonitorApp/Format.h:79-82 | whole counts below 1024 are denoted exactly |
| RoundTripLaws.PrintReadPrint | MonitorApp/Format.h:61-96 | reading a text and printing the value again denotes the same value; the text is identical if and only if no carry (1024) was shown; the value is printable again if and only if the count is below 1023.5 GB or at it with the tie rounded down |
| RoundTripLaws.Resolution | MonitorApp/Format.h:64-96 | counts that print the same text lie within one unit of its last place, even under different tie rules |
| RoundTripLaws.SmallCountsDistinct | MonitorApp/Format.h:79-82 | distinct whole counts below 1024 never print the same text |
| ThresholdLaws.ThresholdsExact | MonitorApp/Format.h:83-91 | a pair of literals prints every whole count below 2^40 as 9.995 and 99.95 do if and only if each lies in a stated window of width 2^-30 |
| ThresholdLaws.CompiledLiteralsExact | MonitorApp/Format.h:83-91 | the binary64 values of the two literals print every whole count below 2^40 as the decimals do |
| ThresholdLaws.LiteralsAreNearest | MonitorApp/Format.h:83-91 | these values are the binary64 numbers nearest to the decimals: a significand of 53 bits, within half a unit in the last place |
| OptimalLaws.LadderIsOptimal | MonitorApp/Format.h:79-94 | above 1 KB the precision shown is the greatest of 0, 1, 2 decimals that fits four columns, except exactly at a literal whose tie is rounded down |
| OptimalLaws.WholeCountsOptimal | MonitorApp/Format.h:79-94 | for whole counts the exception never occurs |
| OptimalLaws.NothingCloser | MonitorApp/Format.h:69-96 | no number written in the same unit with at most as many decimals is closer to the count than the one the text denotes |
| ByteSprintf.Compose | MonitorApp/Format.h:61-94 | the loop, table look-ups and branches produce the specified text exactly for the counts the tables cover |
| ByteSprintf.ByteSprintf | MonitorApp/Format.h:55-97 | the text and its terminator are in the buffer if and only if the count is in range and the size is at least 7 (totals) or 9 (rates); nothing else is written |
| SoloLaws.CloseSettled | MonitorApp/InstallService.cpp:96-104 | closing any handle keeps the database consistent: a marked and stopped service goes with its last handle, and no other does |
| RunLaws.AdvanceSettled | MonitorApp/InstallService.cpp:34-323 | one API call of any of the four functions keeps the database consistent, whatever the client and the system do |
| SoloLaws.HistoryStep | MonitorApp/InstallService.cpp:34-323 | every step of every function keeps locals, error code and the record of opened, failed and closed in step, whatever the system answers |
| SoloLaws.ReturnedHistory | MonitorApp/InstallService.cpp:93-105 | a function that has returned reports NO_ERROR if and only if no operation failed, otherwise the code of the one that did; each handle opened was closed once, service before manager, and nothing else, if and only if it is not an install whose setup failed with its local not NULL; such an install closes that local as well, which may be its own manager handle, closed twice |
| SoloLaws.AlwaysReturns | MonitorApp/InstallService.cpp:34-323 | every function returns within five steps |
| RunLaws.ReturnsInRuns | MonitorApp/InstallService.cpp:34-323 | in every run a function has returned once it has taken its remaining steps, whatever all others do in between |
| SoloLaws.CallIsAtomic | MonitorApp/InstallService.cpp:34-323 | alone on a consistent database a function does exactly what was requested if it reports no error and otherwise nothing, with the stray close as the one stated exception |
| SoloLaws.ResultIsTruthful | MonitorApp/InstallService.cpp:72-87 | the code returned is the one the database calls for, or a refusal of the system's own |
| SoloLaws.UnrefusedResult | MonitorApp/InstallService.cpp:34-323 | for a client alone: if nothing is refused the code returned is exactly the one the database calls for (under interleaving, see `UnrefusedStepIsExact`) |
| SoloLaws.ServiceIsAsReported | MonitorApp/InstallService.cpp:171-250 | success or "already running" from start means running, success or "not active" from stop means not running, success from install means new and present |
| AnswerLaws.CodesOfStates | MonitorApp/InstallService.cpp:74-87 | which code stands for which state of the service, for every function, and that no state in the way of a request goes without its code |
| AnswerLaws.CodesAreMeant | MonitorApp/InstallService.cpp:72-87 | after any returned call alone: EXISTS means an unmarked service, MARKED_FOR_DELETE a marked one, DOES_NOT_EXIST none, ALREADY_RUNNING and NOT_ACTIVE what they say, NO_ERROR that the request could be carried out |
| AnswerLaws.ResultFollowsVerdicts | MonitorApp/InstallService.cpp:57-87 | alone, a refusal is passed on unchanged, and a function that is refused nothing reports exactly what the database calls for |
| AnswerLaws.InstallSucceeds | MonitorApp/InstallService.cpp:57-91 | an unrefused install succeeds if and only if the service is absent, and adds it stopped and unmarked |
| AnswerLaws.StartSucceeds | MonitorApp/InstallService.cpp:171-186 | an unrefused start succeeds if and only if the service is there, unmarked and stopped, and leaves it running |
| AnswerLaws.StopSucceeds | MonitorApp/InstallService.cpp:235-250 | an unrefused stop succeeds on every running service and no other, marked or not, and leaves it stopped, or removed if it is marked and open to nobody else |
| AnswerLaws.UnloadSucceeds | MonitorApp/InstallService.cpp:291-307 | an unrefused unload succeeds on every unmarked service and no other, running or not, and leaves it marked, or removed if it is stopped and open to nobody else |
| AnswerLaws.ForcedUnload | MonitorApp/InstallService.cpp:203-323 | unload and then stop, unrefused, on a running service that nobody else has open leave it absent and all else as it was |
| AnswerLaws.StepChangesService | MonitorApp/InstallService.cpp:57-322 | any step of any client: a service appears new by an install of its name, changes only by a granted start, stop or unload through a handle on it, each as meant, and disappears only when marked, stopped and open to nobody |
| SoloLaws.TableUnchanged | MonitorApp/InstallService.cpp:37-105 | a call alone leaves the handle table as it was if and only if it is not an install that gets its manager handle, is refused in its setup, and starts with its unset local equal to an open handle; then exactly that handle is gone |
| SoloLaws.OutcomeSettled | MonitorApp/InstallService.cpp:34-323 | every call leaves a consistent database: handles refer to existing services, doomed services are referenced |
| SoloLaws.SessionConservesHandles | MonitorApp/InstallService.cpp:34-323 | after any sequence of returning calls with any refusals the database is consistent and the table has lost exactly the unset locals of the calls just described, so it is what it was if and only if there were none |
| SoloLaws.LoneSessionIsClean | MonitorApp/InstallService.cpp:34-323 | starting with no handle open, no sequence of calls loses or leaves a handle, whatever the unset local holds |
| SoloLaws.NullLocalIsClean | MonitorApp/InstallService.cpp:37 | with the local initialised to NULL no sequence of calls has a stray close |
| SoloLaws.LifecycleRoundTrip | MonitorApp/InstallService.cpp:34-323 | install, start, stop, unload, all successful, leave services and handles as they began, and the service was absent |
| RunLaws.StepKeepsInv | MonitorApp/InstallService.cpp:34-323 | ownership of handles and consistency survive a step of any interleaving if and only if it is no stray close |
| RunLaws.RunOwnership | MonitorApp/InstallService.cpp:34-323 | ownership and consistency hold all along a run if and only if none of its steps is a stray close |
| RunLaws.StepKeepsAccounts | MonitorApp/InstallService.cpp:34-323 | a step of any interleaving, stray close included, keeps the database consistent, every history in shape, and every open handle in some client's hands |
| RunLaws.NullLocalsNeverStray | MonitorApp/InstallService.cpp:37 | with NULL locals no run of any number of clients has a stray close |
| RunLaws.RunKeepsHistories | MonitorApp/InstallService.cpp:34-323 | in every run, stray closes included, every activation keeps its history in shape |
| CountLaws.HandleCount | MonitorApp/InstallService.cpp:57-100 | while clients and service handles match, the handles open on a service are as many as the clients between its open or create and its close |
| CountLaws.CountsAlongRuns | MonitorApp/InstallService.cpp:57-104 | all along any run this count holds for every service if and only if no step closes an open service handle that its client did not open as one |
| CountLaws.NoStrayNoTheft | MonitorApp/InstallService.cpp:93-104 | without a stray close there is no such step |
| DeletionLaws.InterleavedDeletion | MonitorApp/InstallService.cpp:284-322 | in every run, stray closes included, a service both marked and stopped is present only while a client has an open handle on it in its hands, and once all clients are out it is absent and no handle is open; the handle count holds all along the run if and only if no step is a theft of a service handle |
| DeletionLaws.DeletionCompletes | MonitorApp/InstallService.cpp:291-322 | from any reachable state with a marked service, any run that ends with all clients out, stray closes included, has removed it or ends with it running; if it was stopped, it has been removed |
| DeletionLaws.DeletionHappens | MonitorApp/InstallService.cpp:309-322 | from any reachable state, with nobody new, once every client has taken its remaining steps in any order all are out and a service that was marked and stopped has been removed |
| LinearLaws.DecisionIsTruthful | MonitorApp/InstallService.cpp:57-87 | at the step that settles a result, in any interleaving, the code is the system's refusal or else exactly what the database calls for at that moment, and the request has been carried out with NO_ERROR and nothing changed otherwise, if and only if the loss of a handle does not show: the handle used is of the right kind (or the system refuses with the same code) and a grant does not act on another service in another condition |
| LinearLaws.UnrefusedStepIsExact | MonitorApp/InstallService.cpp:57-87 | at such a step that is refused nothing, the code is exactly what the database calls for, with its effect, if and only if the client has not lost the handle it uses and does not act on another service in another condition |
| LinearLaws.OwnersAreUndisturbed | MonitorApp/InstallService.cpp:57-292 | while ownership holds no step lacks the handle it uses or acts on another service |
| LinearLaws.OtherStepsOnlyReap | MonitorApp/InstallService.cpp:93-105 | every other step leaves the services alone, except that closing the last handle on a service marked and stopped removes it, always |
| LinearLaws.EveryResultWasDecided | MonitorApp/InstallService.cpp:34-323 | in every run, stray closes included, each settled result was settled at one step of the client's own, in the same activation |
| LinearLaws.ReturnsAreTruthful | MonitorApp/InstallService.cpp:34-323 | in every run, stray closes included, what a function returns was settled at one of its steps; it was true there, in the sense of the two rows above, if and only if the loss of a handle did not show in that one step |
| LinearLaws.CleanRunsAreTruthful | MonitorApp/InstallService.cpp:34-323 | in the runs without a stray close what a function returns is the system's refusal at that step, or exactly what the database called for there, with its effect; only a refusal yields anything else |
| AnswerLaws.AnswersInRuns | MonitorApp/InstallService.cpp:57-292 | in every run what a function returns is answered so at its deciding step, unless the loss of a handle shows there: a refusal passed on, a code right about the service, success of an unrefused request exactly if it can be carried out |
| AnswerLaws.AnswersInCleanRuns | MonitorApp/InstallService.cpp:57-292 | in the runs without a stray close every answer is so |
| ReplayLaws.RunsReplay | MonitorApp/InstallService.cpp:34-323 | linearizability: all along a run the services are those of a sequential replay of the unrefused requests in the order of their deciding steps, each answered as the replay calls for, with removals of doomed services in between, if and only if no unrefused step has lost its handle or acts on another service in another condition |
| ReplayLaws.ReturnsAreLogged | MonitorApp/InstallService.cpp:34-323 | in every run the replayed history has the answer of each unrefused call that has returned, at a step between its call and its return |
| ReplayLaws.CleanRunsReplay | MonitorApp/InstallService.cpp:34-323 | runs without a stray close are linearizable |
| StrayRuns.UnsetLocalHarms | MonitorApp/InstallService.cpp:37-105 | a concrete run in which a failed install closes another client's handle: the count is wrong, and that client's start reports an invalid handle although nothing is refused and the database calls for success |
| StrayRuns.UnsetLocalMisleads | MonitorApp/InstallService.cpp:37-105 | the run goes on: the handle is handed out again for another service, the start reports NO_ERROR, that other service runs and the driver stays stopped |
| DriverPath.StringCbCat | MonitorApp/InstallService.cpp:120-123 | appends if and only if the result and its terminator fit, and then holds old text plus suffix |
| DriverPath.PathLimits | MonitorApp/InstallService.cpp:39-123 | for every directory length: where the first call overruns, where the path fits, and where the directory is dropped |
| InstallService.SetupDriverName | MonitorApp/InstallService.cpp:108-136 | for every buffer, directory and image: whether the first call overruns the buffer; if not, the directory's own code when it is unavailable, the abort code exactly when start, 15 characters and terminator do not fit, and otherwise NO_ERROR exactly when the image opens and file-not-found when it does not, with the path start, separator, driver name, `.sys` in the buffer; no file handle left open |
| InstallService.SetupCodes | MonitorApp/InstallService.cpp:39-54 | the same for the install function's buffer, in numbers: it goes on exactly if the directory is available, has at most 244 characters (or 520 and more, and is dropped) and the image opens |
| InstallService.FileExistedOrNot | MonitorApp/InstallService.cpp:12-32 | NO_ERROR if and only if the device opens, otherwise the system's code, and no handle left open |
| InstallService.InstallDriver | MonitorApp/InstallService.cpp:34-106 | for every directory, with any steps of other clients before each call, the statement form is the install client's part in a run, meeting exactly the answers the system gives it, in order: database, code and record of handles; with the manager open, if the setup fails it asks nothing more, returns that code and also closes its unset local, and if not it asks for the service and its history is bracketed; it overruns exactly if it got the manager and the directory has 260 to 519 characters |
| InstallService.CustomOpenService | MonitorApp/InstallService.cpp:139-201 | with any steps of other clients before each call, the statement form is the start client's part in a run, from call to return, meeting exactly the answers the system gives it, in order: database, code and record of handles |
| InstallService.CustomCloseService | MonitorApp/InstallService.cpp:203-265 | with any steps of other clients before each call, the statement form is the stop client's part in a run, from call to return, meeting exactly the answers the system gives it, in order: database, code and record of handles |
| InstallService.UnloadDriver | MonitorApp/InstallService.cpp:267-323 | with any steps of other clients before each call, the statement form is the unload client's part in a run, from call to return, meeting exactly the answers the system gives it, in order: database, code and record of handles |
| Activations.PerformedIsAtomic | MonitorApp/InstallService.cpp:34-323 | what that gives when nobody else acts and the unset local is no open handle: all or nothing, truthful code, unchanged handle table |
| Activations.PerformedSucceeds | MonitorApp/InstallService.cpp:57-292 | what it gives when moreover none of the answers is a refusal: each function reports NO_ERROR exactly when its request can be carried out, and then has done precisely that: install adds the service, start leaves it running, stop leaves it stopped or removes it, unload marks or removes it |
| Activations.PerformedHistory | MonitorApp/InstallService.cpp:93-105 | what it gives whatever others do: the code of the one failure, if any, is returned, and handles are bracketed, but for the unset local of an install whose setup failed |
| Activations.PerformedIsAccountable | MonitorApp/InstallService.cpp:34-323 | whatever others do the code returned was settled at one step of that activation; it was true there if and only if the loss of a handle did not show, and then passes a refusal on, is right about the service, and is NO_ERROR for an unrefused request exactly if it can be carried out |

## Left out

- IEEE 754 arithmetic in general: counts are exact reals; the two inexact literals are treated by `ThresholdLaws`. Counts from 2^53 on are rounded by the conversion to double, but lie outside the tables either way.
- Negative, infinite and NaN inputs to the formatter: byte counts are unsigned.
- ByteSprintf.SnprintfS: what the C run-time leaves behind the terminator of a buffer that is too small is not modelled, because the library leaves it open; nor is the invalid-parameter handler it calls then, which by default ends the program.
- InstallService.InstallDriver: says nothing of what happens after the buffer has been overrun, where C gives no meaning. The messages printed in its branches are not modelled.
- A `CloseServiceHandle` that fails on an open handle, service handles held by other processes, and drivers that refuse or delay their stop beyond a refused call.
- `ConvertErrorCodeToString`, console messages, access rights, the file system beyond "opens or not".
- The driver, the console command loop and the service entry (`NetworkMnt/MntInit.c`, `NetworkMnt/MntProcess.c`, `MonitorApp/MonitorCmd.cpp`, `MonitorService/MonitorService.cpp`): not part of this model.
- The widths `%4.1lf` of the report strings and the unit constants at the top of `MonitorApp/Format.h`: no function uses them.
