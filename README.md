# toggler: a Dafny model of the tray toggle

`toggler` is a small StatusNotifierItem client written in C against sd-bus. It
shows an on/off switch in a desktop tray. The primary action (`Activate`) runs a
user command for the current state and, when that succeeds, flips the state,
updates `Status`/`IconName` and emits `NewIcon` then `NewStatus`. The secondary
action (`SecondaryActivate`) asks the process to exit. At start-up it applies its
command-line options to a property record, registers with the
StatusNotifierWatcher, and, when the watcher is not running yet, installs a
NameOwnerChanged match whose handler retries the registration. A non-blocking
process / blocking wait loop then drives everything until an exit is requested
or the bus fails.

This project models that core, all of it in `main.c`:

- `tray_item.dfy` (module `TrayItem`): the `Properties` record as a class whose
  fields the two handlers overwrite in place, its value `Item`, the handlers'
  specifications `Activated` and `Exiting`, and lemmas about series of
  activations. A ghost field `signals` logs every signal sent.
- `options.dfy` (module `Options`): the `getopt_long` loop as an in-place method
  over already split options (`ParseOptions`), the fold that specifies it
  (`FoldOptions`), and its properties, including that the final `IconName`
  depends on option order and that `-s` never touches `enabled`.
- `registration.dfy` (module `Registration`): classification of the first
  registration reply, the branch `main` takes on it, and the NameOwnerChanged
  retry handler.
- `event_loop.dfy` (module `EventLoop`): the `for (;;)` loop over a script of
  `sd_bus_process` results (an idle result carries what the `sd_bus_wait` after
  it returns), with dispatch to the handlers, and its ordering, termination
  and retry properties.
- `program.dfy` (module `Program`): `main` end to end and its exit status.

The bus, `system()` and everything sd-bus does are inputs: the result of each
call is a parameter, and a processed message carries what its handler will meet
(what `system()` returns for a command, whether each signal could be sent, what
the three string reads and the registration call return).

### Behaviour as written

Some of what the code does is not what its messages and usage text suggest;
the model follows the code:

- A registration rejected for any reason other than `ServiceUnknown` jumps to
  `finish` without setting `ret`, which still holds the non-negative result of
  `sd_bus_get_unique_name`, so the process exits with `EXIT_SUCCESS`
  (main.c:210-226, 244), although main.c:223 reports it as an error.
  `Program.RejectedRegistrationExitsSuccessfully` states it.
- The retry handler tests `new_owner != NULL`, and a successful string read
  never yields NULL, so a watcher that disappears (empty new owner) also
  triggers a registration (main.c:99). `Registration.VanishingWatcherRetries`
  states it.
- `-s on` sets `Status` and `IconName` but not `enabled`, so the first
  activation runs the on-command again; `-i`/`-I` set `IconName` whatever the
  state (main.c:165-186). `Options.StateOnLeavesDisabled`,
  `Options.IconOptionIgnoresState` and `Options.FoldKeepsEnabled` state these.
- The NameOwnerChanged match is never removed: it stays installed for the whole
  loop, and every NameOwnerChanged signal it delivers retries the registration.

## Model

| member | source | states |
|---|---|---|
| TrayItem.Defaults | main.c:113-128 | the initial record is disabled, not exiting, `Status` "Passive" and `IconName` the off-icon, so status and icon agree with `enabled` |
| TrayItem.Properties.constructor | main.c:113-128 | the new record holds exactly the default values and no signal has been sent |
| TrayItem.Activated | main.c:28-50 | the command run is `cmd_off` when enabled and `cmd_on` otherwise; if it failed to start or exited non-zero nothing changes, nothing is sent and 0 is returned; otherwise `enabled` flips, `Status`/`IconName` match the new value, every other field is kept, and `NewIcon` is sent before `NewStatus`, a failed `NewIcon` stops `NewStatus` and its code is returned, with the flip kept |
| TrayItem.Properties.Activate | main.c:28-50 | the in-place handler leaves the record, its return value and the signal log exactly as `Activated` describes |
| TrayItem.Exiting | main.c:53-58 | the secondary action sets the exit request, keeps every other field and is idempotent |
| TrayItem.Properties.SecondaryActivate | main.c:53-58 | the in-place handler only raises `should_exit` and sends no signal; calling it again changes nothing more |
| TrayItem.SuccessfulClicksAlternate | main.c:33-40 | while both configured commands succeed, `enabled` alternates with each activation (even when sending fails) and afterwards `Status`/`IconName` match it |
| TrayItem.SuccessfulClicksNotify | main.c:42-45 | with both configured commands and every send succeeding, each activation sends exactly one `NewIcon` followed by one `NewStatus` |
| TrayItem.FailedClicksChangeNothing | main.c:33-37 | activations whose chosen command fails each time leave the record unchanged and send nothing |
| Options.ApplyOption | main.c:154-194 | `-h` exits with success, an unknown option or a state other than on/off exits with failure, every other option continues; no option changes `enabled`, the exit request or the identity fields; `-o`, `-O` and `-t` replace exactly their command or title; `-i`/`-I` replace exactly their icon and `IconName`; `-s on/off` replace exactly `Status` and `IconName`, with the matching icon |
| Options.FoldOptions | main.c:153-195 | option parsing exits only with `EXIT_SUCCESS` or `EXIT_FAILURE`, and only when some option stops it; its other properties are the `Fold` lemmas below |
| Options.ParseOptions | main.c:152-195 | the option loop, overwriting the record in place, ends in the state `FoldOptions` gives or exits with its status |
| Options.FoldAppend | main.c:153-195 | parsing two option lists in turn is parsing their concatenation |
| Options.FoldStopsAtFirstStop | main.c:155-193 | the first stopping option decides the exit status: success for `-h`, failure for a bad state or unknown option |
| Options.FoldContinuesWithoutStop | main.c:153-195 | option parsing runs to the end exactly when no option stops it |
| Options.FoldKeepsEnabled | main.c:176-186 | after all options `enabled`, the exit request and the identity fields are what they were; `-s on` never enables |
| Options.FoldSetsLastNamed | main.c:159-186 | after all options each command, each icon, the title, `Status` and `IconName` is set by the last option that names it, so the final `IconName` depends on option order |
| Options.StateOnLeavesDisabled | main.c:176-181 | from the defaults, `-s on` shows "Active" while `enabled` stays false |
| Options.IconOptionIgnoresState | main.c:165-186 | `-s off -i x` shows the on-icon `x` on a passive item; in the other order the off-icon is shown |
| Registration.Classify | main.c:214-226 | a reply without error is success, the `ServiceUnknown` error means the watcher is absent, any other error is a failure carrying its message |
| Registration.AfterRegistration | main.c:214-226 | success enters the loop with no match installed; an absent watcher installs exactly one NameOwnerChanged match or, if that fails, finishes with its negative code; any other error finishes with `ret` untouched, so the finish is negative exactly in the match-failure case |
| Registration.OwnerChanged | main.c:86-110 | the first failing read of name, old owner or new owner is returned with no registration attempted; when all three succeed exactly one registration is attempted and its error is copied into the handler's error |
| Registration.OnNameOwnerChanged | main.c:86-110 | the handler, read by read, returns what `OwnerChanged` describes |
| Registration.VanishingWatcherRetries | main.c:96-100 | an empty new owner still leads to a registration attempt |
| EventLoop.DispatchMessage | main.c:69-70 | an activation has exactly the effect and signals `Activated` gives, a secondary action exactly `Exiting`, any other message leaves the record as it was and sends nothing; a registration is retried exactly when the match is installed and a NameOwnerChanged signal's three strings read cleanly |
| EventLoop.Loop | main.c:229-238 | the loop never consumes more steps than the script holds, and ends unfinished only after consuming all of them; its other properties are the `Loop` lemmas below |
| EventLoop.FinalRet | main.c:229-238 | `ret` is 0 after the `break` at a quiescent point and the negative result itself after a failure |
| EventLoop.Deliver | main.c:69-70 | dispatching a message to the record's handlers has the effect `DispatchMessage` describes |
| EventLoop.RunLoop | main.c:229-238 | the loop run on the record ends, leaves the record and the signal log as the `Loop` specification gives |
| EventLoop.LoopWellOrdered | main.c:229-238 | in the events the loop produces, a wait comes only right after a zero process result that found no exit request, so a positive result never waits; a found exit request, a process error and a failed wait are each the last event |
| EventLoop.LoopSplit | main.c:229-238 | running the loop over two scripts in turn is running it over their concatenation; the second only matters when the first ran out without ending the loop |
| EventLoop.LoopKeepsSetup | main.c:229-238 | the loop never changes the commands, icons, title or identity fields, never withdraws the exit request, and keeps `Status`/`IconName` in agreement with `enabled` |
| EventLoop.LoopEnds | main.c:229-238 | in the events the loop produces, it stops normally exactly when the last event is a quiescent check that found the exit request, with the exit request then set; a failure's code is negative and is the last event's |
| EventLoop.LoopEndsAtItsStep | main.c:229-238 | a loop that ends does so on the last step it consumed: a stop on a zero process result, a failure on a failed process call with its code or on a zero process result whose wait returned that code; a positive process result never ends the loop |
| EventLoop.LoopFailsOnFailureEvent | main.c:229-238 | the loop fails exactly when its last event is a process error or a failed wait |
| EventLoop.FailureEndsLoop | main.c:229-238 | a negative `sd_bus_process` result, or a negative `sd_bus_wait` result met without the exit request, that the loop reaches ends it at that step with that code |
| EventLoop.ExitAtNextQuiescentPoint | main.c:233-234 | from a record with the exit requested, the loop stops at the first zero process result, after draining every message processed before it |
| EventLoop.ExitAfterSecondaryActivate | main.c:229-234 | a secondary action dispatched part-way through stops the loop at the first zero process result after it |
| EventLoop.StopNeedsSecondaryActivate | main.c:229-238 | a normal stop from a record without the exit request needs a secondary action among the steps the loop consumed |
| EventLoop.LoopRetries | main.c:219-220 | the registrations retried are exactly one per cleanly read NameOwnerChanged signal among the steps the loop consumed, and none without the match |
| Program.ExitStatus | main.c:244 | the exit status is `EXIT_FAILURE` exactly when the final `ret` is negative |
| Program.MainOutcome | main.c:112-245 | `main` only ever exits with `EXIT_SUCCESS` or `EXIT_FAILURE`; its other properties are the `Program` lemmas below |
| Program.Run | main.c:112-245 | `main`, step by step, ends as `MainOutcome` describes |
| Program.OptionsDecideExit | main.c:155-193 | the first stopping option decides how `main` ends: `-h` with `EXIT_SUCCESS`, a rejected option with `EXIT_FAILURE` |
| Program.CleanStopExitsSuccessfully | main.c:229-244 | a loop that stops at a quiescent point with the exit requested ends `main` with `EXIT_SUCCESS` |
| Program.SecondaryActivateExitsSuccessfully | main.c:229-244 | a secondary action the loop reaches, followed by a zero process result with only processed messages between, ends `main` with `EXIT_SUCCESS` |
| Program.RejectedRegistrationExitsSuccessfully | main.c:210-226 | a registration rejected other than with `ServiceUnknown` ends the process with `EXIT_SUCCESS` |
| Program.StartUpFailureExitsWithFailure | main.c:201-221 | after accepted options, a failure to open the bus, export the object or read the unique name, or to install the match when the watcher is absent, exits with `EXIT_FAILURE` |
| Program.LoopFailureExitsWithFailure | main.c:229-244 | a negative process or wait result the loop reaches exits the process with `EXIT_FAILURE` |
| Program.SuccessNeedsExitRequestOrRejection | main.c:197-244 | after accepted options, a successful exit needs the bus to have started and either a secondary action among the steps the loop consumed or a rejected registration |

## Left out

- The sd-bus transport (`sd_bus_open_user`, `sd_bus_add_object_vtable`, `sd_bus_get_unique_name`, `sd_bus_call_method`, `sd_bus_add_match`, `sd_bus_process`, `sd_bus_wait`, `sd_bus_emit_signal`, `sd_bus_message_read_basic`): a foreign library; each result is an input, and a processed message names the handler it reaches.
- The property export through the vtable and `offsetof` (main.c:60-74): the exported values are the fields of `Item`; `Category`, `Id`, `WindowId` and `ItemIsMenu` are never written after start-up.
- `system()` and `WEXITSTATUS`: a command's result is "could not start" or an exit-status byte. As written, a child killed by a signal yields exit-status byte 0 and counts as success.
- The `x`/`y` arguments of both actions: accepted and never used.
- `getopt_long` itself and the usage text: options arrive already split. The `long_options` table (main.c:142-150) lacks the all-zero entry that ends such a table.
- All `printf`/`fprintf` logging and the release of bus objects and errors.
- The contents of the match rule string (main.c:219): its parsing belongs to sd-bus, so whether `sd_bus_add_match` accepts it is the input `matchRet`.
- The unique bus name passed to the registration call: an identity string the model does not need.
- Registration.OwnerChanged: the negative code `sd_bus_error_set_const` derives from an error name comes from a table inside sd-bus; the model takes it as the `errno` carried with the error.
- Registration.OwnerChanged: a read that returns 0 (end of message) leaves its string unset in the C code; the model treats every non-negative read as having produced a string.
- EventLoop.RunLoop: the handlers' return values go to sd-bus, which turns them into error replies or logs them; the model takes each `sd_bus_process` result as an input independent of them.
- EventLoop.Loop: the real loop may run forever; the model runs over a finite script and reports `Unfinished` when the script ends first. Each idle `sd_bus_process` result is paired with the result of the `sd_bus_wait` that follows it.
- TrayItem.Defaults: the initializer reads `properties.icon_off` while initializing `properties` (main.c:125); the model takes the evidently intended value, the default off-icon.
