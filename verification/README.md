# Verified model of the Torizon gateway's hard cores

A Dafny 4.11 model of the parts of the gateway whose correctness is not visible from reading one function: the confirm-or-revert protocol for network changes, ownership of GPIO lines, the decoders for Docker log streams and rtnetlink attributes, the folds behind the Wi-Fi list, the mount table, the default routes and the sessions, path normalisation in the file explorer, the kernel banner, and the DNS encoding sent to NetworkManager. `dafny verify dfyconfig.toml` checks all of it.

## How it is laid out

Network changes

- `NetworkConfig.dfy`: configurations, validation, packed DNS servers, rewriting of a connection profile.
- `NetworkManager.dfy`: the environment. Devices, checkpoints with saved state and expiry, and a clock that fires them.
- `ConfirmOrRevert.dfy`: the protocol as a step system. Any number of apply, confirm and cancel handlers are interleaved at every D-Bus call; a call can be delivered, refused, or carried out with the reply lost; time passes; the gateway can restart at any point and then forgets its tokens and its handlers. The invariant says that each checkpoint has one owner.
- `ConfirmOrRevertSafety.dfy`: what holds over whole runs.
- `ConfirmOrRevertWindow.dfy`: that an operator has the two minutes, no more and no less.
- `ConfirmOrRevertRequests.dfy`: what a confirmation makes permanent.
- `ConfirmOrRevertOvertaken.dfy`: the run in which it makes somebody else's change permanent.
- `ConfirmOrRevertExposed.dfy`: exactly when a confirmation can do so.
- `ConfirmOrRevertScope.dfy`: what no run changes.
- `Gateway.dfy`: the handlers as imperative code over the `pending` map, each proved to be a run of the protocol with the others acting between its calls, and its own calls known one by one.

GPIO

- `GpioLines.dfy`: the step system (kernel table, `held`, `lastRead`, mutex, readers outside it, other processes), its invariant and its theorems.
- `GpioService.dfy`: the class with SetLine, ReleaseLine, ReadLine and the inventory, each proved to be a run with the others acting between its kernel calls.

Decoders and folds

- `DockerLogs.dfy`, `Netlink.dfy`, `CanLinks.dfy`, `WiFi.dfy`, `Mounts.dfy`, `Routes.dfy`, `Sessions.dfy`, `Paths.dfy`, `KernelBanner.dfy` with `KernelDetails.dfy`: one component each.
- `Sequences.dfy`, `Tables.dfy`, `Text.dfy`, `Decimal.dfy`, `Bytes.dfy`, `Options.dfy`, `Clock.dfy`: what they share.

## What the environment is assumed to do

- NetworkManager, called with checkpoint flags 0 (internal/network/edit.go:76), refuses a second checkpoint on a covered device, never reuses a checkpoint path, and rolls a checkpoint back as soon as the clock reaches its expiry. It and the gateway read one clock. Nothing but the gateway and the rollbacks edits a device, and every device has a connection profile of its own.
- Tokens and session ids are random and are not repeated.
- The kernel gives a GPIO line to one handle at a time and never hands out a descriptor that is open. Closing a descriptor always frees its line.
- Nothing is assumed of the wall clock of the session table: `Sessions.AnswerIsUnnoticed` says what the table answers whatever the clock does, `AnswerIsHistoryIff` when that is what the history says, and `AnswerIsHistory` that it is whenever the clock does not run back.

## What was found

- The promise that no unconfirmed change outlives the window does not hold for every interleaving. If ApplyIPv4 stalls until its checkpoint has fired and only then updates the profile, the change stays with nothing to revert it (`StalledApplyIsUnsafe`). `RunIsSafeIffGuarded` gives the exact condition: every write meets a live checkpoint on its device or changes nothing. Writes carried out before their own checkpoint's expiry meet it (`TimelyIsGuarded`, `TimelyRunIsSafe`). Comparing the clock with that expiry before the call is enough only if no more than the time found left passes until the call is carried out (`ComparedIsTimely`).
- Even a run that keeps this promise can confirm the wrong change. An apply that stalls may write under the checkpoint of the next one, and confirming the next one then makes the stalled change permanent (`ForeignChangeIsConfirmed`). Such a write is called foreign: it changes a device under the live checkpoint of somebody else's change, once that one has made its own update. A run has no foreign write if and only if from each own update on the device shows what was asked (`RunShowsIffOwn`), and if and only if at no point of the run a continuation free of foreign writes could confirm something else than was asked (`OwnIffNeverExposed`). A write before its own checkpoint's expiry is never foreign (`TimelyIsOwn`).
- A check that reads the clock at or past a session's expiry deletes its row, so if the clock then runs back the session is refused although its expiry lies ahead (`ClockRunningBackRefuses`); the exact condition is `AnswerIsHistoryIff`. A session the table refused once is refused for good, however the clock moves (`RefusedForGood`).
- A mount point with whitespace other than space, tab and newline is not escaped by the kernel but is split by `strings.Fields`; `MountPointSurvives` states the exact condition, `CarriageReturnIsLost` one such mount point.
- `splitNonEmpty` appends `string(s[i])` for a byte, which writes the byte as a code point; the names and links of the breadcrumbs are therefore wrong for any path that is not ASCII, `CrumbLeadsToPath` states the exact condition, and `AccentedCrumbFails` shows one such path.
- An address or a gateway in IPv6 notation for an IPv4 address passes validation and is sent as typed, and what is sent is a canonical dotted quad exactly if no such notation was used (`AddressSentAsTyped`); only DNS entries are brought into canonical form (`ValidatedDnsSurvives`). `MappedExample` is one such configuration.
- Where the code and the documents differ, the model follows the code: the window is 120 s (docs/ARCHITECTURE.md says e.g. 90 s); a "default route" is any row with destination 0.0.0.0, whatever its mask; sessions have an absolute lifetime and no idle timeout; the comment on canDetails names 64-bit targets, so a Go `int` holds every 32-bit counter.

## Model

| member | source | states |
|---|---|---|
| ConfirmOrRevertSafety.RunIsSafeIffGuarded | internal/network/edit.go:54-121 | for every interleaving from a quiet start: all states keep "uncovered devices are as last confirmed, live checkpoints save that state" exactly when every profile update and activation meets a live checkpoint of its device or changes nothing |
| ConfirmOrRevertSafety.StepIsSafeIffGuarded | internal/network/edit.go:73-93 | the same for one step: only writes can break the promise, and they do so exactly when unguarded |
| ConfirmOrRevertSafety.TimelyIsGuarded | internal/network/edit.go:81-93 | a write made before its own checkpoint's expiry is covered by that very checkpoint, because nobody else can have settled it |
| ConfirmOrRevertSafety.TimelyRunIsSafe | internal/network/edit.go:49-54 | the anti-lockout promise over any mix of handlers, failures, lost replies, clock ticks and restarts, as long as writes are timely |
| ConfirmOrRevertSafety.ComparedIsTimely | internal/network/edit.go:81-93 | a handler that finds more than some slack left before its checkpoint's expiry writes in time if no more than the slack passes until the write is carried out |
| ConfirmOrRevertSafety.StalledApplyIsUnsafe | internal/network/edit.go:81-92 | from every quiet state and for every request that changes the profile, a stalled apply reaches a state with a changed device and no checkpoint |
| ConfirmOrRevertSafety.NothingOutlivesTheWindow | internal/httpserver/network_edit.go:14-16 | once the clock has moved by the window, no checkpoint that was live is still live, whatever happened in between |
| ConfirmOrRevertSafety.SilenceReverts | internal/network/edit.go:49-53 | after a silence of the window's length every device is as last confirmed and no checkpoint is left, also when the gateway is gone |
| ConfirmOrRevertSafety.EachCheckpointIsCalledOnce | internal/httpserver/network_edit.go:100-106 | in every run a checkpoint gets at most one destroy or rollback call, a token is consumed at most once and never pending again, and the rollback of a failed apply only meets checkpoints without a token |
| ConfirmOrRevertSafety.ExpiredTokenHasFired | internal/httpserver/network_edit.go:156-168 | the checkpoint of a pending token is live exactly before its expiry, so a token past its deadline belongs to a checkpoint that has fired |
| ConfirmOrRevertWindow.CreateOpensWindow | internal/httpserver/network_edit.go:14-16 | a creation that NetworkManager carries out, reply lost or not, covers the device with its state saved and an expiry 120 000 000 000 ns away |
| ConfirmOrRevertWindow.LivesTwoMinutes | internal/httpserver/network_edit.go:93 | in every run from the start, a checkpoint for which no destroy or rollback call was sent is live exactly while the clock is before those 120 s are over |
| ConfirmOrRevertRequests.ConfirmKeepsRequest | internal/httpserver/network_edit.go:122-139 | in a run whose writes are guarded and none foreign, a confirmation that meets its checkpoint makes permanent exactly the old confirmed profile with the section its own token asked for, stored and in force, and touches no other device |
| ConfirmOrRevertRequests.CancelRestoresConfirmed | internal/httpserver/network_edit.go:141-153 | cancelling in time puts exactly that device back to its last confirmed state and leaves it uncovered |
| ConfirmOrRevertRequests.LateSettlingChangesNothing | internal/network/edit.go:96-121 | the checkpoint a settling handler holds is live exactly before its expiry, and after it a confirm or cancel changes no device and no confirmed state |
| ConfirmOrRevert.StepKeepsInv | internal/httpserver/network_edit.go:99-106 | every step keeps the ownership invariant: one handler or one token is entitled to each unsettled checkpoint, which lives until its expiry |
| ConfirmOrRevertSafety.RunKeepsInv | internal/httpserver/network_edit.go:77-176 | the ownership invariant holds in every state of every run |
| ConfirmOrRevertRequests.RunShowsIffOwn | internal/network/edit.go:81-93 | for every interleaving from a quiet start: in all states every device shows, from the own update of a change until it is settled, exactly as much of the request as the phase of the change says, exactly when no write is foreign: none changes a device under the live checkpoint of somebody else's change after that one's own update |
| ConfirmOrRevertRequests.StepShowsIffOwn | internal/network/edit.go:81-93 | the same for one step: only writes can break it, and they do so exactly when foreign |
| ConfirmOrRevertRequests.TimelyRunIsOwn | internal/network/edit.go:81-93 | a run whose writes are carried out before their own expiries has neither an unguarded nor a foreign write |
| ConfirmOrRevertExposed.ExposedIffNotShown | internal/httpserver/network_edit.go:122-139 | in every state of a run: some continuation without foreign writes confirms a device that is not its saved state with the section asked for, exactly when some device does not show what its change's phase says |
| ConfirmOrRevertExposed.OwnIffNeverExposed | internal/httpserver/network_edit.go:122-139 | for every interleaving from a quiet start: no write is foreign exactly when no state of the run has such a continuation |
| ConfirmOrRevertOvertaken.ForeignChangeIsConfirmed | internal/network/edit.go:81-92 | from every quiet state and for any two requests that differ in effect: a run that is safe throughout, in which confirming the second request makes the first permanent |
| ConfirmOrRevertScope.NothingElseChanges | internal/network/edit.go:147-160 | in every run, safe or not, what each device stores, runs, has confirmed or would be rolled back to agrees with its beginnings outside ipv4, but for the address keys of ipv6 and the timestamp |
| Gateway.Server.ApplyIPv4 | internal/network/edit.go:54-94 | a run of the protocol under interference whose own calls are exactly those of the code: none for an invalid configuration or an unknown device, else the checkpoint, refused by the bus or exactly if the device is covered when it is asked for, then the read, the update and the activation up to the first that fails, and then the one rollback if there was a checkpoint; a checkpoint is returned exactly when all were delivered, and the handler then holds it with the update and the activation done |
| Gateway.Server.UpdateIPv4 | internal/network/edit.go:123-166 | the read and, if it succeeds, the update as protocol steps with others acting in between; succeeds exactly when both were delivered |
| Gateway.Server.CheckpointCreate | internal/network/edit.go:73-79 | one protocol step: refused exactly on a covered device or when the bus refuses, and a checkpoint owned by the caller exactly when the call is delivered on an uncovered one; that step is what CreateOpensWindow speaks of |
| Gateway.Server.Settle | internal/network/edit.go:96-121 | one protocol step that destroys or rolls back a live checkpoint when it is delivered or its reply lost, and leaves NetworkManager alone otherwise |
| Gateway.Server.TakePending | internal/httpserver/network_edit.go:155-168 | the token is gone afterwards, and the change is handed out exactly when it was pending and its deadline has not passed |
| Gateway.Server.IssueToken | internal/httpserver/network_edit.go:99-106 | one protocol step adding exactly the new token, with a deadline 120 000 000 000 ns from now |
| Gateway.Server.SettleToken | internal/httpserver/network_edit.go:122-153 | a run whose own steps are the taking of the token and, exactly when it is known and not expired, the asked-for call; success is reported exactly when the token's checkpoint was live at that call and the reply came back, which in every reachable state is when the clock was then before the checkpoint's expiry |
| Gateway.Server.SettleInTime | internal/httpserver/network_edit.go:122-153 | a pending token is answered as settled exactly when the reply came back and the call was made within 120 s of the creation of its checkpoint, whatever happened between the two |
| Gateway.RunIsSteady | internal/httpserver/network_edit.go:99-106 | whatever others do between two calls, a handler's own place and the set of devices stay |
| NetworkConfig.UpdateSettings | internal/network/edit.go:131-160 | the profile sent, key by key: for a configuration that passes, ipv4 is the method alone, or the method, address and prefix, the gateway if given and one number for each DNS entry if there are any, and nothing else; ipv6 loses its addresses and routes, connection its timestamp, and every other section is as read; for any configuration it is the specified rewriting |
| NetworkConfig.RewrittenSpelledOut | internal/network/edit.go:131-160 | the same of the rewriting that the protocol's update steps use |
| NetworkConfig.LastRewriteWins | internal/network/edit.go:131-160 | a second apply leaves no trace of the first, and applying twice equals applying once |
| NetworkConfig.AddressSentAsTyped | internal/network/edit.go:136-142 | in the profile sent for a manual configuration that passes, address and gateway are as typed, and they are the canonical dotted quad of what they mean exactly if not in IPv6 notation |
| NetworkConfig.MappedTextSent | internal/network/edit.go:32-45 | any text in IPv6 notation for an IPv4 address passes everywhere; in the profile sent it is as typed for the address and the gateway, and in canonical form for a DNS entry |
| NetworkConfig.MappedExample | internal/network/edit.go:32-45 | one such configuration |
| NetworkConfig.ValidateBlamesFirstDns | internal/network/edit.go:41-45 | the DNS entry blamed is the first that is no IPv4 address, and nothing before the list is wrong |
| NetworkConfig.ValidateBlames | internal/network/edit.go:24-40 | each of the other errors is given exactly when it is the first in the order method, address, prefix, gateway |
| NetworkConfig.ValidateAccepts | internal/network/edit.go:24-47 | exactly which configurations pass |
| NetworkConfig.DnsToUint32 | internal/network/edit.go:196-208 | the packed addresses of the parsable entries, in order |
| NetworkConfig.ValidatedDnsSurvives | internal/network/edit.go:41-47 | a manual configuration that passes loses no DNS entry: order kept, 32 bits enough, read back as the canonical dotted quad, which is the typed text itself exactly if not in IPv6 notation |
| NetworkConfig.UnpackOfPack | internal/network/dbus_helpers.go:94-97 | reading back a packed address gives its dotted quad, for all addresses |
| NetworkConfig.PackOfUnpack | internal/network/dbus_helpers.go:94-97 | every 32-bit number is the packing of the address it is shown as |
| NetworkConfig.ParseOfDotted | internal/network/edit.go:201 | a rendered address parses to itself |
| NetworkConfig.DottedSpelledOut | internal/network/edit.go:201 | four decimal numbers with dots between them are parsed, whatever IPv6 notations mean, as the four bytes they print |
| NetworkConfig.DottedOfParse | internal/network/edit.go:201 | only the canonical text parses to an address |
| GpioLines.HeldIsExact | internal/gpio/gpio.go:221-274 | in every reachable state with no half-done SetLine or ReleaseLine, `held` has an entry with a descriptor and value exactly when the kernel says the line is an output of this process behind that descriptor driving that value |
| GpioLines.HeldAndReadDisjoint | internal/gpio/gpio.go:205-218 | in every reachable state, also inside critical sections, no line is both held and recently read |
| GpioLines.StepKeepsDisjoint | internal/gpio/gpio.go:208-218 | the write to `lastRead` cannot meet a held line because the reader's handle is still open |
| GpioLines.RecordedFdsDistinct | internal/gpio/gpio.go:254-257 | recorded descriptors differ from each other and from those of reads in flight |
| GpioLines.HandlesAreAccountedFor | internal/gpio/gpio.go:192-274 | the number of open line handles is the held lines plus the reads in flight: none leaks, none is lost |
| GpioLines.CloseFreesItsLine | internal/gpio/gpio.go:209 | the deferred close of a read frees exactly the line it took |
| GpioLines.MutexComesFree | internal/gpio/gpio.go:215-234 | whoever holds the mutex can always leave it by steps of its own |
| GpioLines.RunLeavesReader | internal/gpio/gpio.go:208-218 | while a read has its line open no interleaving of the others moves it or changes what is recorded about the line |
| GpioLines.RunIsFrozen | internal/gpio/gpio.go:233-234 | while one thread is in its critical section no interleaving of the others changes the maps or any output of this process |
| GpioLines.StepKeepsInv | internal/gpio/gpio.go:192-274 | every step keeps the invariant tying the kernel table, `held`, `lastRead`, readers and the critical section together |
| GpioLines.KeyInjective | internal/gpio/gpio.go:113 | the key of a valid chip and an offset names that line only, also against chip names that were never validated |
| GpioLines.ChipsAreNumbered | internal/gpio/gpio.go:40 | a chip name passes exactly when it is "gpiochip" and one to three decimal digits |
| GpioLines.NumberedChipIsValid | internal/gpio/gpio.go:113 | every chip numbered below 1000 passes, and its key is its name, a colon and the offset |
| Decimal.RenderSpelledOut | internal/gpio/gpio.go:113 | a number is printed in decimal digits, highest first, without leading zeros |
| GpioService.Service.SetLine | internal/gpio/gpio.go:221-260 | its own kernel calls and the exact error cases: a held line fails exactly when the ioctl does, another also when the kernel has given it away in the state in which the call is made; an error leaves both maps and every output alone; success leaves the kernel driving 1 for any value but 0, and 0 for 0, with the same number recorded, keeps the handle of a held line, and forgets the last read |
| GpioService.Service.ReleaseLine | internal/gpio/gpio.go:262-274 | its own kernel calls; removes exactly that entry, and the kernel has no output of this process on the line afterwards |
| GpioService.Service.ReadLine | internal/gpio/gpio.go:192-219 | under interference between all its calls: succeeds exactly when the line is given out and the value comes; then that value is the one recorded when it returns, and the line is free and not held; the handle is closed on every path |
| GpioService.Service.ReadRequest | internal/gpio/gpio.go:193-208 | opens a free line of a valid chip as input, otherwise changes nothing |
| GpioService.Service.ReadStore | internal/gpio/gpio.go:214-217 | records the value under the mutex for a line that is not held |
| GpioService.Service.ReadClose | internal/gpio/gpio.go:209 | frees exactly the line that was read |
| GpioService.Service.Chips | internal/gpio/gpio.go:115-159 | a row says "held by us" exactly when the kernel has an output of this process there, with the driven value, though readers and other processes act while the list is made |
| DockerLogs.StreamLines | internal/containers/logs.go:76-100 | on every byte stream emits the newline split of the complete payloads run together, the tail only when the stream stops at a header, and returns the error of the read that stopped it |
| DockerLogs.EmissionOfTruncated | internal/containers/logs.go:76-91 | a stream cut at any byte emits the lines of its whole frames, and the unfinished line exactly when fewer than eight bytes follow them |
| DockerLogs.DecodeTruncated | internal/containers/logs.go:79-90 | a stream cut at any byte decodes to exactly the frames that lie wholly before the cut; it stops at a header exactly when fewer than eight bytes follow them, and the error is the plain end exactly when no byte of the read that failed came |
| DockerLogs.HeaderSpelledOut | internal/containers/logs.go:79-90 | eight bytes, whatever the first four are, announce a payload of the length in the last four, highest first |
| DockerLogs.FramingDoesNotShow | internal/containers/logs.go:91-98 | how a text was cut into frames, and on which output, does not change what is emitted |
| DockerLogs.LinesAreTheOnlySplit | internal/containers/logs.go:92-98 | lines and tail are the only newline-free pieces that make up the text |
| DockerLogs.LineSpelledOut | internal/containers/logs.go:91-98 | what stands between two line feeds, free of them itself, is one line, and what precedes and follows is split on its own |
| DockerLogs.DrainLines | internal/containers/logs.go:92-99 | takes all complete lines off the buffer and keeps what follows the last newline |
| DockerLogs.IndexByte | internal/containers/logs.go:103-110 | the first occurrence, or -1 when there is none |
| Netlink.ParseAttrs | internal/sysinfo/can_netlink.go:129-146 | on arbitrary bytes ends with the last-wins table of the attributes up to the first malformed or cut one |
| Netlink.AttrListOfTruncated | internal/sysinfo/can_netlink.go:132-144 | an encoded list cut at any byte gives exactly the attributes whose header and payload lie before the cut |
| Netlink.PayloadsAreSubranges | internal/sysinfo/can_netlink.go:135-138 | on arbitrary bytes every payload is a piece of the buffer behind a header |
| Netlink.ParseOfArranged | internal/sysinfo/can_netlink.go:130-146 | attributes in any order, with any flag bits and padding, parse to the map they encode |
| Netlink.AttributeSpelledOut | internal/sysinfo/can_netlink.go:129-146 | an attribute is its length over header and payload and its type, each in two bytes with the lowest first, the two top bits of the type ignored, the payload, and padding to a multiple of four |
| Tables.LastWinsExactly | internal/sysinfo/can_netlink.go:138 | a table holds exactly the last entry of every key |
| CanLinks.WalkRecoversLink | internal/sysinfo/can_netlink.go:75-127 | a CAN link encoded in three nested levels, in any order and among other attributes, gives back its name and every field of the record |
| CanLinks.CanDetails | internal/sysinfo/can_netlink.go:60-87 | the table of all messages, a later description of an interface replacing an earlier one |
| CanLinks.DumpShowsLinks | internal/sysinfo/can_netlink.go:60-87 | messages that describe CAN links of different names, among any others, give exactly the table from each name to the record of its link |
| CanLinks.ParseCAN | internal/sysinfo/can_netlink.go:90-127 | the record for arbitrary attribute bytes, short or missing attributes leaving their fields blank |
| CanLinks.CanOfDescribed | internal/sysinfo/can_netlink.go:93-125 | the record shows exactly the fields the attributes carry |
| CanLinks.RatesSpelledOut | internal/sysinfo/can_netlink.go:93-117 | by the kernel's numbers: bitrate and sample point are the first two words of attribute 1, the data bitrate is in 9, the clock in 3, the restart delay in 6, and short ones leave 0 |
| CanLinks.StateSpelledOut | internal/sysinfo/can_netlink.go:102-121 | the six names of the states in attribute 4, FD as bit 5 of the flags in 5, and the two error counters in 8 |
| CanLinks.StatsSpelledOut | internal/sysinfo/can_netlink.go:119-126 | which of the six counters of the statistics is which |
| CanLinks.EntrySpelledOut | internal/sysinfo/can_netlink.go:70-86 | a message of type 16 with a header of 16 bytes contributes a record exactly from name 3, link information 18, and in it the kind "can" in 1, data in 2 and statistics in 3 |
| CanLinks.OtherMessages | internal/sysinfo/can_netlink.go:70-84 | any other message contributes none |
| CanLinks.Cstr | internal/sysinfo/can_netlink.go:148-156 | the text before the first NUL |
| WiFi.WiFiNetworks | internal/network/wifi.go:153-192 | for every scan and map order: one row per visible named network with the strength, label, band and channel of its first strongest access point, by the bits of its flags and the MHz of its frequency, and active exactly when some access point of it is the active one; active first, then by falling strength; the name returned is a connected network's |
| WiFi.RowIsSeen | internal/network/wifi.go:371-416 | whatever row the list should have for a network, it shows the flags and the frequency of an access point of that name than which none is stronger and none before it as strong |
| WiFi.MergedKeeps | internal/network/wifi.go:155-181 | one more access point keeps the table equal to what the scan so far should show |
| WiFi.MatchAP | internal/network/wifi.go:295-315 | finds the first strongest access point of a network, and nothing exactly when it is not visible |
| WiFi.PrepareConnect | internal/network/wifi.go:207-231 | path, security and key management are those of the first strongest access point, "sae" for bit 10 of its RSN flags and "wpa-psk" for bit 8 of either; on the same scan a connection is refused as unsupported exactly when the list labels the network 802.1X or WEP, and uses a key exactly when the list shows it secured |
| WiFi.UnsupportedLabels | internal/network/wifi.go:371-401 | of all flag words, exactly those labelled 802.1X or WEP need a key and have no key management |
| Mounts.ReadMounts | internal/sysinfo/peripherals.go:475-492 | the selection over the lines that parse |
| Mounts.SelectedExactly | internal/sysinfo/peripherals.go:486-490 | a device's mount is the last whole-device one, or the first of its mounts when there is none |
| Mounts.MountPointSurvives | internal/sysinfo/peripherals.go:476-485 | a mount point written by the kernel is read back exactly when its only whitespace is spaces, tabs and newlines |
| Mounts.CarriageReturnIsLost | internal/sysinfo/peripherals.go:476-485 | one mount point that is not |
| Mounts.UnescapeOfEscape | internal/sysinfo/peripherals.go:495-502 | unescaping undoes the kernel's escaping of any text |
| Mounts.EscapesSpelledOut | internal/sysinfo/peripherals.go:495-502 | the four escapes and what each of them stands for, wherever they occur |
| Text.FieldsSplitAt | internal/sysinfo/peripherals.go:480 | exactly which characters separate fields |
| Mounts.EntriesOfFile | internal/sysinfo/peripherals.go:475-485 | a whole table written by the kernel, each line ended by a newline, is read back line by line |
| Mounts.RecordSpelledOut | internal/sysinfo/peripherals.go:480-485 | the line of a mount, field by field with a space between each two |
| Routes.DefaultRoutes | internal/sysinfo/network.go:32-52 | every interface with a default route in the table read from the file once, by its least metric, equal metrics in table order |
| Routes.TableOfFile | internal/sysinfo/network.go:32-42 | of a file made of any header and lines of interface, destination, gateway, flags, counts, printed metric and more, tabs between them and blanks behind, the table is the interface and metric of exactly the lines with destination 00000000, in order |
| Routes.LineSpelledOut | internal/sysinfo/network.go:36-40 | such a line, field by field with a tab between each two |
| Routes.PrimaryHasLeastMetric | internal/sysinfo/network.go:11-18 | the primary interface carries a default route of least metric |
| Routes.FirstIsBest | internal/sysinfo/network.go:43-51 | keeping the first occurrence after a stable sort keeps each interface's best row |
| Routes.SortStable | internal/sysinfo/network.go:43 | some listing of every row of the table in strictly ascending order of metric and table position |
| Routes.AtoiOfRendered | internal/sysinfo/network.go:39 | a printed metric is read back |
| Routes.AtoiBounds | internal/sysinfo/network.go:39 | a number beyond 64 bits is read as the bound, and a text that does not begin as one as 0 |
| Sessions.AnswerIsUnnoticed | internal/store/store.go:130-151 | whatever the clock does, the table answers a user exactly for an open login of that user, before its expiry second, none of whose checks has read the clock at or past that second |
| Sessions.AnswerIsHistoryIff | internal/store/store.go:145-148 | the table with lazily deleted rows answers as the history does exactly when no check of a session still entitled has read the clock at or past its expiry |
| Sessions.AnswerIsHistory | internal/store/store.go:130-151 | so it does when the clock does not run back: created for that user, not logged out, before the expiry second |
| Sessions.LoginLasts | internal/store/store.go:122-148 | after a login at now, whatever came before, the id is answered with that user before the second of now plus the lifetime, rounded down, and with nobody from then on |
| Sessions.RefusedForGood | internal/store/store.go:145-148 | a created session that the table refuses once it refuses at every later time, whatever happens and however the clock moves |
| Sessions.ClockRunningBackRefuses | internal/store/store.go:145-148 | one history in which the clock runs back and the table refuses a session the history still entitles |
| Sessions.Auth.Validate | internal/auth/auth.go:90-100 | returns only a user the history entitles, whatever the clock does, and every such user when it does not run back; never one for the empty id |
| Sessions.Auth.Login | internal/auth/auth.go:65-88 | refused exactly when no account has that name and password, an error exactly when one has but the drawn id is in use; otherwise a session for that account until now plus the lifetime in whole seconds, rounded down; any error leaves the table alone |
| Sessions.Store.SessionUser | internal/store/store.go:130-151 | the answer of the table, and an expired row is gone |
| Sessions.Store.CreateSession | internal/store/store.go:122-128 | a row is added exactly for an unused id and a known user |
| Paths.CleanUserIdempotent | internal/files/files.go:165-168 | cleaning a cleaned path changes nothing |
| Paths.CleanUserIsNormal | internal/files/files.go:165-168 | a cleaned path is a slash and names, none empty, "." or ".." |
| Paths.CleaningWalks | internal/files/files.go:165-168 | appending an element walks: stay, go to the child, or go to the parent but never above the root |
| Paths.ResolveStaysBelowRoot | internal/files/files.go:158-163 | the real path is the root's elements followed by those of the cleaned path |
| Paths.WritePolicy | internal/files/files.go:45-59 | the two write checks agree; both mean writes are on, the first element is etc or var, and the last is none of the secrets' names: eight by name, those ending in .key, and the host keys of ssh, with or without a name between prefix and suffix |
| Paths.SecretsAreRefused | internal/files/files.go:133-140 | in no directory is a write to one of the eight names accepted, whatever the roots are |
| Paths.KeysAreRefused | internal/files/files.go:141-146 | nor to any name ending in .key, nor to any host key of ssh |
| Paths.BelowIsElementPrefix | internal/files/files.go:52-59 | the textual prefix test is the test on path elements |
| Paths.UploadLandsInDirectory | internal/files/files.go:78-92 | a file name is refused exactly when it cleans to nothing; an accepted destination is a direct child of the cleaned directory and passes the write policy |
| Paths.SplitNonEmpty | internal/httpserver/handlers_files.go:29-46 | the non-empty pieces between separators, each byte of them re-encoded as a code point |
| Paths.Breadcrumbs | internal/httpserver/handlers_files.go:18-27 | one crumb for the root and one for each name, leading to the names up to it |
| Paths.CrumbLeadsToPath | internal/httpserver/handlers_files.go:18-46 | on a cleaned path the n-th crumb leads to the path of the first n elements, the last one to the path itself, exactly when that path is ASCII |
| Paths.OtherCrumbFails | internal/httpserver/handlers_files.go:18-46 | the crumb of any single name that is not ASCII leads elsewhere |
| Paths.AccentedCrumbFails | internal/httpserver/handlers_files.go:18-46 | one such name |
| Paths.WidenedIsSame | internal/httpserver/handlers_files.go:40 | re-encoding a text byte by byte leaves it alone exactly when it is ASCII |
| Paths.WidenedIsUtf8 | internal/httpserver/handlers_files.go:40 | a byte of 128 or more becomes the two bytes of its code point in UTF-8 |
| KernelBanner.FirstParen | internal/hal/kernel.go:90-109 | the first group and what follows it, for every text |
| KernelBanner.FirstGroupUnique | internal/hal/kernel.go:90-109 | the group is the shortest balanced one, so the answer is unique |
| KernelBanner.FirstGroupReassembles | internal/hal/kernel.go:90-109 | the pieces make up the input again |
| KernelBanner.GroupOfBalanced | internal/hal/kernel.go:90-109 | a balanced text in parentheses is its own first group, whatever follows |
| KernelBanner.TakeApart | internal/hal/kernel.go:36-40 | release, builder, compiler group and tail as the banner's grammar determines them |
| KernelBanner.RenderedParses | internal/hal/kernel.go:36-42 | a banner whose groups nest to any depth gives back exactly its parts |
| KernelDetails.ParseCompiler | internal/hal/kernel.go:47-71 | triple, architecture, compiler and linker from the groups inside the compiler group, for every text |
| KernelDetails.ParseTail | internal/hal/kernel.go:73-88 | build number in front, multiprocessor mark and last preemption flag before the first weekday, and the date from there on, for every text |
| KernelDetails.RenderedTools | internal/hal/kernel.go:47-71 | a compiler group made of a toolchain gives back exactly its triple, architecture, compiler and linker with its version cut to three components |
| KernelDetails.RenderedBuild | internal/hal/kernel.go:73-88 | a build line gives back its number, flags and date |
| KernelDetails.Kernel | internal/hal/kernel.go:29-45 | all of it on the text of the file, the empty one included |
| KernelDetails.RenderedIsShown | internal/hal/kernel.go:29-45 | the file a kernel build writes, its groups nested to any depth, is shown as exactly what was put into it |
| KernelDetails.BannerSpelledOut | internal/hal/kernel.go:29-45 | the file that is shown as what was put into it, character by character: prefix, release, builder, compiler group and build line |
| KernelDetails.ToolsTextSpelledOut | internal/hal/kernel.go:47-71 | the same for its compiler group |
| KernelDetails.TripleSpelledOut | internal/hal/kernel.go:52 | a triple is found behind -gcc and -g++ |
| KernelDetails.ArchSpelledOut | internal/hal/kernel.go:53-55 | the architecture is what stands before the first dash |
| KernelDetails.ShortSpelledOut | internal/hal/kernel.go:111-119 | a version of four or more components is cut to three, a shorter one stays |
| KernelDetails.BuildSpelledOut | internal/hal/kernel.go:73-88 | of a build line with a # number, flags and a weekday: SMP shows when among the flags, of those that begin with PREEMPT the last, and the date is everything from the weekday on |
| KernelDetails.PlainBuildSpelledOut | internal/hal/kernel.go:73-88 | without such a flag and without a weekday neither is shown |

## Left out

- Gateway.Server.Interleave: its body lets the others do nothing; its contract allows them any steps, and callers rely on the contract alone.
- GpioService.Service.Interleave: as above, for readers, other threads and other processes; AwaitMutex lets the holder of the mutex finish, and its contract allows any steps that free it.
- Gateway.Server.IssueToken: the drawing of the token is not modelled; a token not issued before is its precondition, and the handler for an apply is ApplyIPv4 followed by it.
- GpioService.Service.Chips: takes the lines to list as a parameter, since opening the chips and reading names, consumers and kernel flags are kernel calls; only the part of a row that comes from the service's own maps is modelled.
- LineState reads the kernel before it takes the mutex, so its row is no snapshot; nothing is claimed about it.
- Waiting for the mutex: ReadLine waits; the other methods that lock are entered when the mutex is free, and the step system covers all orders in which threads get it.
- NetworkManager restarts, profiles shared by devices, edits by other programs, and Wi-Fi connections, which change NetworkManager outside any checkpoint.
- DockerLogs.StreamLines: the branch for a TTY, which hands the stream to a standard scanner, and how a reader cuts the stream into chunks; ReadFull is modelled on the bytes that are left.
- Netlink.ParseAttrs: payloads are values here, while the code shares the buffer between them.
- CanLinks.CanDetails: the netlink call and the splitting into messages are not modelled, and the sample point is a real number rather than a float.
- NetworkConfig.ValidatedDnsSurvives: which IPv6 notations mean an IPv4 address is a parameter; dotted quads are parsed in full.
- WiFi.WiFiNetworks: strengths, flags and the saved names come from D-Bus as given; the sort is any that meets its contract, as the order of equal rows is not fixed.
- Mounts.ReadMounts: the choice of the file to read is not modelled, nor invalid UTF-8.
- Sessions.Auth.Login: verification of a hash is a parameter, and the account queries are a lookup in the user table. Creation of the first administrator is not modelled.
- Paths.UploadLandsInDirectory: copying the file and its size limit, and symbolic links anywhere in the explorer.
- KernelDetails.Kernel: reading the file, and the layout in which a date is shown, which is a parameter.
- HTTP, CSRF, audit rows, templates, the terminal, updates and cloud pages, and the sysfs listings: plumbing with little logic.
