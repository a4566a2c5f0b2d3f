# hid-synergy client core in Dafny

This project models three sequential parts of the hid-synergy client and proves properties about each.

- **`ClientApp`**, the client's connection lifecycle and its command-line exit policy (`client_app.dfy`, module `ClientApplication`).
  - The event queue is an abstract class, `EventQueue`. It holds a set of `(event type, target)` handler registrations, a map of live one-shot timers to their timeouts, and the sequence of posted events.
  - `ClientApp` is a class holding the client, the screen, the suspended flag, the parsed client arguments and the server address.
  - Its handlers are methods with `modifies` clauses. `HandleScreenError`, `HandleClientFailed` and `HandleClientDisconnected` are each proved to post exactly one `Quit`, schedule exactly one timer, or do nothing, as a pure `Reaction` function decides. That function depends on the restartable and suspended flags and, for a failed connection, on the failure's `m_retry` flag as well. `HandleClientRestart` removes its fired timer and its handler. It then has `StartClient`'s three outcomes on the queue that remains: connect the open client, open a screen and a client and connect, or fail as `OpenErrorReaction` says. `StartNode` has the same three outcomes, together with its exit code.
  - `openClient` registers the client's handlers on `client->getEventTarget()`, and `closeClient` removes them from the client pointer itself. `Client` is not part of this model, so whether the two are the same target is the input `targetIsClient`.
  - The class invariant `Valid()` states two pairings. The registered object handlers are exactly those of the live client and screen, plus client handlers that closing could not remove (`leaked`). There are no leaked handlers when `targetIsClient` holds. The timer handlers are exactly those of the live timers.
  - What the platform screen, the connection attempt and address resolution report is passed in as an input: `OpenOutcome` and `Resolution`.
- **`ArgParser`**, the command-line scanner (`arg_parser.dfy`, module `ArgParser`).
  - Each `if … else if` chain of `isArg` tests is a table of `Entry` values, searched in the source's order by `FirstMatch`. Each parse function returns whether it consumed the argument (`Step.Taken` with the last index consumed, or `Declined`) together with the updated argument record.
  - The argument structs are datatype values. The scan loops of `parseClientArgs`/`parseServerArgs` are methods proved against a reference scan function (`ClientScan`/`ServerScan`).
  - The X11 configuration is chosen: `parsePlatformArg` knows `--display`, `--no-xinitthreads` and `--hid`, and `checkUnexpectedArgs` is false.
- **The command-string routines of `ArgParser`** (`command_string.dfy`, module `CommandString`).
  - `splitCommandString` splits at the spaces that no matched pair of double quotes encloses and strips one pair of surrounding quotes from each piece.
  - `searchDoubleQuotes` and `removeDoubleQuotes` are its helpers.
  - `assembleCommand` joins the kept arguments with single spaces, quoting those that contain a space in place in the array.
  - The specification of the splitter is `SplitSpec`, defined by quote parity. Round-trip lemmas relate it to the joiner.
  - The splitter as written differs from this specification in two ways; see Findings. After an unmatched quote it pairs a quote it has already passed with a later one. At a space past the pair it holds, it looks up the next pair but splits at that space even when the new pair encloses it, so this happens with all quotes matched too.
- **`HIDTouch::move`**, the five-byte absolute-touch report (`hid_touch.dfy`, module `HidTouch`).
  - The report buffer is an `array<uint8>`. `Move` writes the tag `0x02`, then x and y, each low byte first, and leaves every other byte of the buffer unchanged.

`maybe.dfy` holds the `Option` datatype the other modules share.

Calls into code outside the model are parameters:
- `atoi`/`std::stoi` are a function `toInt`;
- `ARCH->getHostName`/`getBasename` are the strings `hostName` and `pname`;
- the outcome of `NetworkAddress::resolve` is a `Resolution`;
- the outcome of opening the screen and the client is an `OpenOutcome`.

## Model

| member | source | states |
|---|---|---|
| HidTouch.TouchFrame | src/lib/platform/HIDTouch.cpp:21-32 | the frame `move` writes has exactly five bytes |
| HidTouch.LowByte | src/lib/platform/HIDTouch.cpp:28-32 | the low byte differs from the coordinate by a multiple of 256 |
| HidTouch.HighByte | src/lib/platform/HIDTouch.cpp:28-32 | the high byte and the low byte together give the coordinate modulo 65536 |
| HidTouch.Reassemble | src/lib/platform/HIDTouch.cpp:28-32 | a coordinate read back from two masked bytes is below 65536 |
| HidTouch.SplitTruncates | src/lib/platform/HIDTouch.cpp:28-32 | for every 32-bit coordinate the two bytes reassemble to the coordinate modulo 65536; the higher bits are dropped silently |
| HidTouch.SplitRoundTrip | src/lib/platform/HIDTouch.cpp:28-32 | a coordinate below 65536 is reassembled exactly |
| HidTouch.FrameDecodes | src/lib/platform/HIDTouch.cpp:21-32 | the frame decodes to tag 0x02, x mod 65536 and y mod 65536 |
| HidTouch.HIDTouch.constructor | src/lib/platform/HIDTouch.cpp:8-13 | the device buffer holds `DATA_SIZE` (5) bytes |
| HidTouch.HIDTouch.Move | src/lib/platform/HIDTouch.cpp:19-37 | bytes 0..4 become the frame (0x02, x mod 256, (x / 256) mod 256, y mod 256, (y / 256) mod 256); every later byte is unchanged |
| ArgParser.IsArg | src/lib/core/ArgParser.cpp:352-371 | matches iff the argument equals one of the non-null names and enough parameters follow; sets the exit flag iff a name matched without enough parameters (or the flag was already set) |
| ArgParser.FirstMatch | src/lib/core/ArgParser.cpp:352-371 | a matched test belongs to the chain and has all its parameters; the exit flag is never cleared |
| ArgParser.FirstMatchChoice | src/lib/core/ArgParser.cpp:352-371 | the chain takes the first test that matches; it takes none iff no test matches; a raised exit flag was already set or comes from a test that named the argument without enough parameters; when no test matches, such a test always raises it |
| ArgParser.ShortTestRaisesExit | src/lib/core/ArgParser.cpp:352-371 | a test the chain reaches before any match, naming the argument without enough parameters, raises the exit flag even when a later test matches |
| ArgParser.ApplyPlatform | src/lib/core/ArgParser.cpp:145-166 | exactly the X11 options are handled, consuming their parameters; any other option leaves the arguments unchanged |
| ArgParser.ApplyGeneric | src/lib/core/ArgParser.cpp:218-316 | exactly the generic options other than `--enable-crypto` are handled, consuming their parameters; any other option leaves the arguments unchanged |
| ArgParser.ParsePlatformArg | src/lib/core/ArgParser.cpp:145-167 | a taken option ends inside `argv`; a declined one changes at most the exit flag |
| ArgParser.ParseGenericArgs | src/lib/core/ArgParser.cpp:218-316 | a taken option ends inside `argv`; a declined one changes at most the exit flag |
| ArgParser.ParseDeprecatedArgs | src/lib/core/ArgParser.cpp:320-349 | a taken deprecated option consumes exactly one more position; no argument field changes except the exit flag |
| ArgParser.ParseClientOption | src/lib/core/ArgParser.cpp:93-102 | `--camp`, `--no-camp` and `--yscroll N` are taken within `argv`; otherwise only the exit flag may change |
| ArgParser.ParseServerOption | src/lib/core/ArgParser.cpp:56-66 | `-a`/`--address`, `-c`/`--config` and `--serial-key` (whose first name is the empty string, which an empty argument matches) each take one parameter inside `argv`; otherwise only the exit flag may change |
| ArgParser.PlatformArgChoice | src/lib/core/ArgParser.cpp:145-167 | `parsePlatformArg` returns true iff the first matching test is an X11 option |
| ArgParser.GenericArgsChoice | src/lib/core/ArgParser.cpp:218-316 | `parseGenericArgs` returns true iff the first matching test is not `--enable-crypto` |
| ArgParser.DeprecatedArgsChoice | src/lib/core/ArgParser.cpp:320-349 | `parseDeprecatedArgs` returns true iff the argument is one of the deprecated options |
| ArgParser.PlatformArgUnnamed | src/lib/core/ArgParser.cpp:145-167 | an argument no platform test names is declined and changes nothing |
| ArgParser.DeprecatedArgUnnamed | src/lib/core/ArgParser.cpp:320-349 | an argument no deprecated test names is declined and changes nothing |
| ArgParser.ClientOptionUnnamed | src/lib/core/ArgParser.cpp:93-102 | an argument no client test names is declined and changes nothing |
| ArgParser.UnnamedArgDeclined | src/lib/core/ArgParser.cpp:84-102 | an argument that is no option name is declined by every chain, with the arguments unchanged |
| ArgParser.ClientStep | src/lib/core/ArgParser.cpp:84-102 | one round of the client loop stays within `argv`, and runs past its end only through a deprecated option as the last argument |
| ArgParser.ServerStep | src/lib/core/ArgParser.cpp:46-66 | one round of the server loop stays within `argv`, and runs past its end only through a deprecated option as the last argument |
| ArgParser.BodiesAdvance | src/lib/core/ArgParser.cpp:46-102 | the loop bodies never move `i` backwards, and overrun `argc` only through a trailing deprecated option |
| ArgParser.ClientScan | src/lib/core/ArgParser.cpp:83-112 | the client loop runs out only at or past `argc`, and rejects an argument only at a position before the last |
| ArgParser.ServerScan | src/lib/core/ArgParser.cpp:46-71 | the server loop never takes a server address; it runs out only at or past `argc` and rejects only inside `argv` |
| ArgParser.ExhaustedVerdictAsWritten | src/lib/core/ArgParser.cpp:114-121 | as written, running out of arguments returns true iff the final index is not `argc` |
| ArgParser.CheckUnexpectedArgs | src/lib/core/ArgParser.cpp:508-525 | outside Windows no argument is unexpected |
| ArgParser.WithCommonArgs | src/lib/core/ArgParser.cpp:501-506 | the host name and the program's base name are set, and every other field is as it was |
| ArgParser.ClientScanExhaustsAtEnd | src/lib/core/ArgParser.cpp:83-119 | when the client loop runs out, `i` is `argc`, or `argc + 1` and then the last argument is a deprecated option |
| ArgParser.ServerScanExhaustsAtEnd | src/lib/core/ArgParser.cpp:46-73 | when the server loop runs out, `i` is `argc`, or `argc + 1` and then the last argument is a deprecated option |
| ArgParser.ClientAddressIsLastArg | src/lib/core/ArgParser.cpp:103-107 | a scan that finds a server address finds `argv[argc - 1]` |
| ArgParser.ClientRejectsOnlyBeforeLast | src/lib/core/ArgParser.cpp:103-111 | an unrecognised option is rejected only before the last position |
| ArgParser.ClientBareWordIsAddress | src/lib/core/ArgParser.cpp:103-107 | `synergyc X` with a non-option `X` parses with `X` as the server address |
| ArgParser.ServerBareWordIsRejected | src/lib/core/ArgParser.cpp:67-70 | `synergys X` with a non-option `X` is rejected at index 1 |
| ArgParser.DeprecatedNames | src/lib/core/ArgParser.cpp:320-349 | the deprecated options are exactly `--crypto-pass`, `--res-w`, `--res-h`, `--prm-wc` and `--prm-hc` |
| ArgParser.ParseClientArgs | src/lib/core/ArgParser.cpp:77-122 | true iff the scan ends at a trailing unrecognised argument, which becomes the server address (so false when the arguments run out, including `argc == 1`) |
| ArgParser.ParseServerArgs | src/lib/core/ArgParser.cpp:41-74 | true iff no argument is rejected |
| ArgParser.ToolTableOrder | src/lib/core/ArgParser.cpp:180-208 | the tool tests come in the order `ToolIndex` numbers the tool options |
| ArgParser.ApplyToolSetsItsFlag | src/lib/core/ArgParser.cpp:180-208 | a tool option sets its own flag and leaves every other tool flag as it was |
| ArgParser.ApplyToolOthers | src/lib/core/ArgParser.cpp:180-208 | an option that is not a tool option leaves the tool arguments unchanged |
| ArgParser.ParseToolArgs | src/lib/core/ArgParser.cpp:178-215 | true iff `argv[1]` is a tool option, whose flag is then set; otherwise the arguments are unchanged |
| ArgParser.FirstNamedIsMatched | src/lib/core/ArgParser.cpp:352-371 | the first test that names an argument with enough parameters is the one the chain takes |
| ArgParser.GenericOptionTaken | src/lib/core/ArgParser.cpp:218-316 | `parseGenericArgs` applies the first generic test that names the argument |
| ArgParser.GenericTablePositions | src/lib/core/ArgParser.cpp:239-299 | `-1`/`--no-restart`, `--restart` and `--enable-crypto` are first named by their own tests |
| ArgParser.GenericFlagTaken | src/lib/core/ArgParser.cpp:218-316 | a parameterless generic option first named at its test is applied |
| ArgParser.NoRestartAt | src/lib/core/ArgParser.cpp:239-242 | the no-restart test, once reached, clears `m_restartable` and consumes only its own argument |
| ArgParser.RestartAt | src/lib/core/ArgParser.cpp:243-246 | the restart test, once reached, sets `m_restartable` and consumes only its own argument |
| ArgParser.EnableCryptoAt | src/lib/core/ArgParser.cpp:296-299 | the `--enable-crypto` test, once reached, returns false with the arguments unchanged |
| ArgParser.NoRestartClears | src/lib/core/ArgParser.cpp:239-242 | `-1`/`--no-restart` clears `m_restartable` |
| ArgParser.RestartSets | src/lib/core/ArgParser.cpp:243-246 | `--restart` sets `m_restartable` |
| ArgParser.EnableCryptoDeclined | src/lib/core/ArgParser.cpp:296-299 | `--enable-crypto` returns false with the arguments unchanged |
| ArgParser.GenericOptionShort | src/lib/core/ArgParser.cpp:352-371 | a generic option without its parameters is declined with the exit flag set |
| ArgParser.ClientStepShort | src/lib/core/ArgParser.cpp:84-102 | in the client loop, a generic option without its parameters raises the exit flag and falls through |
| ArgParser.ClientMissingParameterExits | src/lib/core/ArgParser.cpp:103-107 | `synergyc -n` raises the exit flag, and the option itself is taken as the trailing address |
| ArgParser.NameIsGenericOnly | src/lib/core/ArgParser.cpp:235-238 | `-n`/`--name` is named by no platform, deprecated or client test |
| ArgParser.NameTakesParameter | src/lib/core/ArgParser.cpp:235-238 | `-n`/`--name` is named only by the name test, which needs one parameter |
| ArgParser.NameWithoutValueExits | src/lib/core/ArgParser.cpp:235-238 | `synergyc --name` ends with the exit flag set |
| ArgParser.TrailingDeprecatedAcceptedAsWritten | src/lib/core/ArgParser.cpp:114-121 | as written, a deprecated option as the last argument ends the loop at `argc + 1`, and the run-out check then returns true without a server address |
| ArgParser.CryptoPassNotPlatformOrGeneric | src/lib/core/ArgParser.cpp:320-323 | `--crypto-pass` is neither a platform nor a generic option |
| ArgParser.DeprecatedTestsTakeNoParameters | src/lib/core/ArgParser.cpp:320-349 | the deprecated tests ask for no parameters, so they match even as the last argument |
| ArgParser.CryptoPassAcceptedAsWritten | src/lib/core/ArgParser.cpp:114-121 | as written, `synergyc --crypto-pass` is accepted without a server address |
| CommandString.Find | src/lib/core/ArgParser.cpp:380-412 | `String::find` from a position: the first index of the character at or after it, or none |
| CommandString.SearchDoubleQuotes | src/lib/core/ArgParser.cpp:421-441 | true with `left < right` the first two `"` at or after `startPos`; otherwise false with `left = right = 0` and no two quotes from `startPos` on |
| CommandString.RemoveDoubleQuotes | src/lib/core/ArgParser.cpp:444-451 | exactly one leading and one trailing `"` are stripped when the string starts and ends with one; otherwise it is unchanged |
| CommandString.SplitSpec | src/lib/core/ArgParser.cpp:374-418 | an empty command gives no pieces and a non-empty one at least one |
| CommandString.CutNoSpace | src/lib/core/ArgParser.cpp:387-413 | a run without spaces stays inside the current piece and flips the quote parity by its own quotes |
| CommandString.CutProtectedRun | src/lib/core/ArgParser.cpp:387-413 | inside an open matched pair, a run without quotes does not split |
| CommandString.SplitCommandString | src/lib/core/ArgParser.cpp:374-418 | the pieces split at spaces outside matched pairs, each unquoted, are appended to `argv`; earlier contents are kept |
| CommandString.SplitLoopAsWritten | src/lib/core/ArgParser.cpp:387-413 | the loop as written always yields at least one piece |
| CommandString.SplitAsWritten | src/lib/core/ArgParser.cpp:374-418 | as written, an empty command gives no pieces and a non-empty one at least one |
| CommandString.UnmatchedQuoteMergesAsWritten | src/lib/core/ArgParser.cpp:387-413 | as written, `"a" b c "d` splits into `a`, `b`, `c "d`, where quote parity splits it into four pieces |
| CommandString.SplitSpecOfUnmatchedShape | src/lib/core/ArgParser.cpp:387-413 | for every `"a" b c "d` without further spaces or quotes, the specification gives four pieces |
| CommandString.LaterPairIgnoredAsWritten | src/lib/core/ArgParser.cpp:387-413 | as written, `"a""b c"` splits into `"a""b` and `c"` at a space the second matched pair encloses, where quote parity keeps it as one piece `a""b c` |
| CommandString.SplitSpecOfAdjacentShape | src/lib/core/ArgParser.cpp:387-413 | for every `"a""b c"` without further spaces or quotes, the specification gives one piece with its outer quotes removed |
| CommandString.Wrap | src/lib/core/ArgParser.cpp:482-486 | an argument is left as it is iff it has no space; one with a space is enclosed in one pair of double quotes |
| CommandString.UnwrapWrap | src/lib/core/ArgParser.cpp:444-451 | stripping quotes undoes the quoting of `assembleCommand` for a quote-free argument |
| CommandString.TrailIsJoin | src/lib/core/ArgParser.cpp:489-497 | the string with a space after every argument, minus its last space, is the arguments joined by single spaces |
| CommandString.KeptIndices | src/lib/core/ArgParser.cpp:476-483 | the kept positions increase, lie in the array and never hold `ignoreArg` |
| CommandString.KeptAllWithoutIgnored | src/lib/core/ArgParser.cpp:476-483 | without `ignoreArg`, every position is kept |
| CommandString.AssembleCommand | src/lib/core/ArgParser.cpp:472-499 | the result joins the kept arguments with single spaces, without a trailing space, quoting those that contain a space; exactly those array elements are quoted in place |
| CommandString.CutJoinWrapped | src/lib/core/ArgParser.cpp:374-499 | splitting the joined, quoted arguments gives back the quoted arguments |
| CommandString.JoinEmpty | src/lib/core/ArgParser.cpp:494-497 | the join is empty only for no arguments or one empty one |
| CommandString.SplitAssembledRoundTrip | src/lib/core/ArgParser.cpp:374-499 | splitting the join of quote-free arguments gives them back |
| CommandString.AssembleSplitRoundTrip | src/lib/core/ArgParser.cpp:374-499 | with no `ignoreArg` present, splitting what `assembleCommand` returns gives back the arguments |
| ClientApplication.NextRestartTimeout | src/lib/core/ClientApp.cpp:223-226 | the retry timeout is always `RETRY_TIME` |
| ClientApplication.ReactionEffects | src/lib/core/ClientApp.cpp:311-342 | a reaction posts exactly one `Quit`, or adds exactly one fresh timer with its handler, or changes nothing |
| ClientApplication.FailedReaction | src/lib/core/ClientApp.cpp:317-327 | a failed connection quits iff not restartable or not retrying, and schedules a retry after `RETRY_TIME` iff restartable, retrying and not suspended |
| ClientApplication.DisconnectedReaction | src/lib/core/ClientApp.cpp:335-340 | a disconnection quits iff not restartable, and schedules a retry iff restartable and not suspended |
| ClientApplication.OpenErrorReaction | src/lib/core/ClientApp.cpp:422-445 | a screen or client error schedules a restart with the error's retry time iff the screen is unavailable and the client restartable; it never quits |
| ClientApplication.OpenErrorResult | src/lib/core/ClientApp.cpp:422-445 | `startClient` returns true after an error iff it scheduled a restart |
| ClientApplication.ParseVerdict | src/lib/core/ClientApp.cpp:83-104 | the exit is `kExitArgs` iff parsing fails or the exit flag is set; `kExitFailed` iff the address does not resolve and the client is not restartable or the port is bad |
| ClientApplication.CryptoPassGoesOnAsWritten | src/lib/core/ClientApp.cpp:83-104 | with the run-out check as written, `synergyc --crypto-pass` goes on with no server address and no exit; with the corrected check it exits with `kExitArgs` |
| ClientApplication.BadPortAlwaysFatal | src/lib/core/ClientApp.cpp:92-104 | a bad port is always fatal; another resolution error is fatal only when the client is not restartable |
| ClientApplication.ClientEventTarget | src/lib/core/ClientApp.cpp:357-370 | `client->getEventTarget()` belongs to its client; it is the client object itself exactly when `targetIsClient` holds |
| ClientApplication.ClientHandlers | src/lib/core/ClientApp.cpp:357-370 | the three client handlers on a target are all on that target |
| ClientApplication.ScreenHandlers | src/lib/core/ClientApp.cpp:258-261 | the handler `openClientScreen` registers is on the screen |
| ClientApplication.ClientHandlersCount | src/lib/core/ClientApp.cpp:357-370 | a client has exactly three handlers on a target and a screen exactly one |
| ClientApplication.Owned | src/lib/core/ClientApp.cpp:451-457 | the live objects have no handlers iff neither the client nor the screen is live |
| ClientApplication.CloseMatchesOpen | src/lib/core/ClientApp.cpp:382-392 | removing the handlers from the client object takes away all three that `openClient` registered iff the client's event target is the client; otherwise all three stay |
| ClientApplication.Discarded | src/lib/core/ClientApp.cpp:278-283 | after the discard the timer and its handler are gone, nothing is posted, and the queue invariant is kept |
| ClientApplication.ObjectHandlersChange | src/lib/core/ClientApp.cpp:357-390 | adding or removing object handlers leaves the timer handlers alone |
| ClientApplication.TimerHandlersChange | src/lib/core/ClientApp.cpp:280-297 | adding (removing) a timer's handler adds (removes) exactly that timer among the timer handlers |
| ClientApplication.After | src/lib/core/ClientApp.cpp:291-298 | a reaction never takes away a posted event, a handler or a live timer, and never moves the timer counter back |
| ClientApplication.EventQueue.constructor | src/lib/core/ClientApp.cpp:66-72 | a fresh queue has no handlers, no timers and no posted events |
| ClientApplication.EventQueue.AdoptHandler | src/lib/core/ClientApp.cpp:258-261 | adds exactly one registration and changes nothing else |
| ClientApplication.EventQueue.RemoveHandler | src/lib/core/ClientApp.cpp:270-271 | removes exactly one registration and changes nothing else |
| ClientApplication.EventQueue.NewOneShotTimer | src/lib/core/ClientApp.cpp:295 | adds exactly one fresh timer with the timeout and changes nothing else |
| ClientApplication.EventQueue.DeleteTimer | src/lib/core/ClientApp.cpp:281 | removes exactly that timer and changes nothing else |
| ClientApplication.EventQueue.AddEvent | src/lib/core/ClientApp.cpp:249 | appends exactly one event and changes nothing else |
| ClientApplication.ClientApp.constructor | src/lib/core/ClientApp.cpp:66-72 | no client, no screen, not suspended, no server address, the given event-target choice; the invariant holds |
| ClientApplication.ClientApp.ParseArgs | src/lib/core/ClientApp.cpp:77-106 | the arguments become those of the client scan and the exit follows `ParseVerdict` of the corrected `parseClientArgs` verdict; the server address is recorded when the run goes on with one |
| ClientApplication.ClientApp.HandleScreenError | src/lib/core/ClientApp.cpp:246-250 | posts exactly one `Quit`, in every state |
| ClientApplication.ClientApp.OpenClientScreen | src/lib/core/ClientApp.cpp:254-263 | a new screen, and only its error handler, is registered |
| ClientApplication.ClientApp.CloseClientScreen | src/lib/core/ClientApp.cpp:267-274 | removes exactly the screen's handler; nothing for a null screen |
| ClientApplication.ClientApp.HandleClientRestart | src/lib/core/ClientApp.cpp:278-287 | the fired timer and its handler are gone afterwards; then, starting from the queue left after that discard: with a screen open, the client is asked to connect once more and the queue stays as it is; with none, both objects are opened with their handlers and connected, or on an error none stays open and the queue changes as `OpenErrorReaction` says; the arguments, the suspended flag and the server address are unchanged |
| ClientApplication.ClientApp.ScheduleClientRestart | src/lib/core/ClientApp.cpp:291-298 | exactly one new timer of the given timeout, with its restart handler |
| ClientApplication.ClientApp.HandleClientFailed | src/lib/core/ClientApp.cpp:311-328 | the queue changes exactly as `FailedReaction` says |
| ClientApplication.ClientApp.HandleClientDisconnected | src/lib/core/ClientApp.cpp:332-342 | the queue changes exactly as `DisconnectedReaction` says |
| ClientApplication.ClientApp.OpenClient | src/lib/core/ClientApp.cpp:345-378 | a new client, and exactly its three handlers on its event target, are registered |
| ClientApplication.ClientApp.CloseClient | src/lib/core/ClientApp.cpp:382-392 | removes exactly the three client handlers on the client object; nothing for a null client |
| ClientApplication.ClientApp.OpenScreenAndClient | src/lib/core/ClientApp.cpp:408-414 | a new screen and then a new client are opened, with exactly their handlers, and nothing else changes |
| ClientApplication.ClientApp.FailToOpen | src/lib/core/ClientApp.cpp:422-445 | the screen opened before the failure, if any, is closed again; neither object stays open; a restart is scheduled iff the screen is unavailable for now and the client is restartable, and that is the result |
| ClientApplication.ClientApp.StartClient | src/lib/core/ClientApp.cpp:404-447 | opens a screen and a client only when none is open; on success it connects; on an error neither stays open, and it reschedules or fails as `OpenErrorReaction` says |
| ClientApplication.ClientApp.StopClient | src/lib/core/ClientApp.cpp:451-457 | afterwards neither object is live; closing removes the client handlers on the client object and the screen's handler; no object handler remains iff the client's event target is the client, and otherwise the live client's three handlers are leaked; on a stopped client it changes nothing, so stopping twice is stopping once |
| ClientApplication.ClientApp.StartNode | src/lib/core/ClientApp.cpp:554-562 | exits with `kExitFailed` iff `startClient` returns false, which happens only when no screen was open, opening failed and no restart was scheduled; the client, the screen, the connect requests and the queue change as in `StartClient`'s three cases |

## Left out

- Logging (`LOG`, `CLOG`), the `help()` text, and the status texts of `updateStatus`: output only.
- The event loop and threads (`mainLoop`, `standardStartup`, `foregroundStartup`, `runInner`, `daemonize`, the macOS bridge): process plumbing. Handlers are called directly as methods.
- `createScreen` and the platform screens, `Client`, the socket factory and `Client::connect`: foreign collaborators. Their open/close and target identity are modelled. `Client::getEventTarget()` is not part of this model, so whether it returns the client object itself is the input `targetIsClient`. How they fail is the input `OpenOutcome`. An exception thrown by `connect` itself is not modelled.
- `NetworkAddress` construction and DNS resolution: only the outcome (`Resolution`) and the `kBadPort` case are modelled.
- The `m_bye` exit codes are the symbolic `ExitArgs`/`ExitFailed`; the process exit is not modelled.
- `RETRY_TIME` and `getRetryTime()` are `real` values that are only passed along. No floating-point arithmetic is modelled.
- `handleClientConnected`: not modelled. It calls only `resetRestartTimeout` and `updateStatus`, both empty in this source, so it changes no modelled state.
- `ClientApplication.ClientApp.ParseArgs`: uses the corrected `parseClientArgs` verdict, so with a deprecated option as the last argument (`synergyc --crypto-pass`) it exits with `kExitArgs`, where the source goes on with an empty server address. `ClientApplication.CryptoPassGoesOnAsWritten` states both verdicts.
- `suspend`/`resume` are not part of this model: `m_suspended` is read, never written.
- `ARCH->getHostName`/`getBasename` and `atoi`/`std::stoi` are parameters, not computed.
- `--run-as-uid` with a value that is not a number: `std::stoi` throws there, but the parameter `toInt` is total, so the model does not capture the exception.
- `--serial-key`: `SerialKey(argv[++i])` parses the key, and the key class is not part of this model. The model keeps the raw string in `serial`.
- Only the X11 branches of `parsePlatformArg` and `checkUnexpectedArgs` are modelled (the latter is false). The Windows and macOS branches are left out.
- `getArgv`: raw pointer array construction, memory management only.
- `assembleCommand` after an `ignoreArg` near the end: when fewer than `parametersRequired` entries follow, `it + parametersRequired` and the `++it` after it move the iterator past `end()`. The loop condition `it != end()` then stays true, and the source's behaviour is undefined. The model stops the scan there.
- `parametersRequired` is a `nat`. A negative count is not modelled.
- `HIDDevice::update()` (the device write) and the commented-out floating-point `move`: I/O and floats.
- `HIDMouse.h`: declarations only. `DATA_SIZE = 5` is used as the buffer size.

## Findings

| source | as written | input that shows it | evidently intended | confidence | as-written member | corrected member |
|---|---|---|---|---|---|---|
| src/lib/core/ArgParser.cpp:114-121 | after the loop only `i == argc` is taken as "no server address"; a deprecated option as the last argument consumes a value that is not there, so the loop ends at `i == argc + 1` and the function returns true with no server address; `parseArgs` then goes on without a server address and without an exit | `synergyc --crypto-pass` | running out of arguments without a server address returns false | not executed | ArgParser.CryptoPassAcceptedAsWritten | ArgParser.ParseClientArgs |
| src/lib/core/ArgParser.cpp:387-413 | after a failed quote search `left = right = 0`, so the next search restarts at index 1 and pairs a quote already passed with a later unmatched one; the merged piece then spans a space outside any matched pair | `"a" b c "d` | split at every space outside a matched pair of quotes, giving `a`, `b`, `c`, `"d` | not executed | CommandString.UnmatchedQuoteMergesAsWritten | CommandString.SplitCommandString |
| src/lib/core/ArgParser.cpp:387-413 | at a space past the pair it holds, the loop searches for the next pair but splits at that space regardless, even when the new pair encloses it; this happens with every quote matched | `"a""b c"` | a space between a matched pair does not split, giving the one piece `a""b c` | not executed | CommandString.LaterPairIgnoredAsWritten | CommandString.SplitCommandString |
