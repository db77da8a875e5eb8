# NimBLE host privacy (`ble_hs_pvcy.c`) in Dafny

This project models the host-side privacy module of the NimBLE Bluetooth LE
host stack. The module manages Resolvable Private Addresses and has three parts:

- **Privacy state.** A `started` flag and the 16-byte local Identity
  Resolving Key (IRK). Both are process-wide in C.
- **Resolving-list coordination.** Add, remove and clear go to the
  controller's resolving list. Add and remove run inside a GAP preemption
  bracket (`ble_gap_preempt` / `ble_gap_preempt_done`).
- **Key rotation.** When the local IRK changes, the module disables address
  resolution, clears the list, re-enables resolution, and re-installs the
  self-entry (all-zero address, all-zero peer IRK).

## How it is modelled

- `PvcyTypes` (`types.dfy`) holds the data:
  - `Host(started, irk, trace)` is the module state plus an observable trace.
  - An `Event` is `Hci(cmd, rc)` (a command sent and the status the
    controller answered), `Preempt`, or `PreemptDone`.
  - `Command` has one constructor per HCI LE command, with its logical
    parameters.
- The controller is a parameter `ctrl: (seq<Event>, Command) -> int`. Its
  answer may depend on everything sent before. `Transmit` models
  `ble_hs_hci_cmd_tx`.
- `Pvcy` (`pvcy.dfy`) has one pure function per C function, each taking the
  host. Most return `Ret(rc, host)`, and their `ensures` give the exact
  trace they append and say which state fields change. There are three
  exceptions:
  - `Reset` returns only the new host.
  - `OurIrk` returns an `IrkReply(rc, irk)` and leaves the host alone.
  - `SetOurIrk` states the trace in its `ensures` only for the no-op case.
    The trace of a key rotation is stated by
    `PvcyProperties.RotationProtocol`.
- `Trace` (`trace.dfy`) has reference notions that do not depend on how the
  module works:
  - `FollowsScript`: what running a command script with abort-on-first-failure
    sends.
  - `FirstFailure`: the status such a run reports.
  - `Safe`: the gate a trace must respect. Preemption is never nested and
    always released. Every resolving-list mutation (add, remove, clear) is
    sent while GAP is preempted or while the controller has acknowledged that
    address resolution is off. These are the conditions of sections 7.8.38 to
    7.8.40 of the HCI functional specification in the Bluetooth Core
    Specification.
- `PvcyProperties` (`properties.dfy`) relates calls to each other: rotation
  shape, idempotence, retry, reset.
- `Session` (`session.dfy`) covers any sequence of calls. It proves that the
  whole trace is `Safe`, that it records the controller's answers
  faithfully, and that every resolving-list entry carries the IRK the module
  holds when the call returns.

## Behaviour worth knowing

- `ble_hs_pvcy_clear_entries` is **not** wrapped in a preemption bracket.
  The clear is still `Safe` because rotation sends it only after the
  controller acknowledged that address resolution is off.
- A rotation that fails part-way keeps the new key. Calling
  `ble_hs_pvcy_set_our_irk` again with the same key is therefore a no-op
  that returns 0 and sends nothing (`SetOurIrkIdempotent`). Repeating the
  call does not redo the rotation.
- Statuses are raw codes: the HCI error 0x12 for a rejected parameter, and
  otherwise whatever the command transport returned for the failing command.
- `ble_hs_pvcy_remove_entry` reduces an out-of-range address type modulo 2,
  while `ble_hs_pvcy_add_entry` and `ble_hs_pvcy_set_mode` reject it.

Constants from headers that are not part of this model:

- `BLE_ADDR_PUBLIC` = 0 and `BLE_ADDR_RANDOM` = 1.
- `BLE_GAP_PRIVATE_MODE_DEVICE` = 1 (network = 0), the values of the LE Set
  Privacy Mode command.
- `BLE_ERR_INV_HCI_CMD_PARMS` = 0x12, the Bluetooth HCI error code "Invalid
  HCI Command Parameters".

## Model

| member | source | states |
|---|---|---|
| Pvcy.SetAddrTimeout | nimble/host/src/ble_hs_pvcy.c:34-48 | a timeout of 0 or above 0xA1B8 returns the invalid-parameters error and leaves the host, trace included, unchanged; otherwise exactly one set-RPA-timeout command carrying that timeout is appended |
| Pvcy.SetResolveEnabled | nimble/host/src/ble_hs_pvcy.c:50-60 | appends exactly one address-resolution-enable command with the requested setting; state unchanged |
| Pvcy.RemoveEntryHci | nimble/host/src/ble_hs_pvcy.c:62-77 | never rejects: appends one remove command whose address type is `addrType % 2`, with the given address |
| Pvcy.RemoveEntry | nimble/host/src/ble_hs_pvcy.c:79-92 | the trace grows by exactly [preempt, remove(addrType % 2, addr), preempt-done] whatever the controller answers; the result is the controller's answer; key and started unchanged |
| Pvcy.ClearEntries | nimble/host/src/ble_hs_pvcy.c:94-100 | appends exactly one clear-resolving-list command, with no preemption bracket |
| Pvcy.SetMode | nimble/host/src/ble_hs_pvcy.c:247-263 | an address type above random returns the invalid-parameters error and sends nothing; otherwise exactly one set-privacy-mode command with the given type, address and mode, without a bracket of its own |
| Pvcy.AddEntryHci | nimble/host/src/ble_hs_pvcy.c:102-139 | an address type above random returns the invalid-parameters error and sends nothing; otherwise the commands run the script [add(type, addr, peer IRK, current local IRK), set-privacy-mode(type, addr, device)] up to the first failure, and the result is that failure or 0 |
| Pvcy.AddEntry | nimble/host/src/ble_hs_pvcy.c:141-166 | the trace grows by preempt, then the add commands, then preempt-done, on every path; an invalid type leaves an empty bracket and the invalid-parameters error; key and started unchanged |
| Pvcy.EnsureStarted | nimble/host/src/ble_hs_pvcy.c:168-186 | already started: returns 0 and sends nothing; otherwise sends the configured timeout (validated first, converted to 16 bits); started afterwards exactly when it was started before or the result is 0 |
| Pvcy.AsU16 | nimble/host/src/ble_hs_pvcy.c:178 | the configured timeout is reduced modulo 2^16 as the `uint16_t` parameter requires: unchanged when in range, congruent otherwise |
| Pvcy.SetOurIrk | nimble/host/src/ble_hs_pvcy.c:188-236 | if the candidate key (the caller's, or the default when none) equals the current key, the host is returned unchanged with 0; otherwise the candidate is stored whatever the outcome; started is never touched |
| Pvcy.Reset | nimble/host/src/ble_hs_pvcy.c:265-270 | no command is sent; started becomes false and the key all-zero |
| PvcyProperties.RotationProtocol | nimble/host/src/ble_hs_pvcy.c:201-233 | a rotation to a new key sends a prefix of [resolution off, clear, resolution on, add self-entry with the new local IRK, device mode], stops at the first failure and reports it; only the self-entry commands are inside a preemption bracket |
| PvcyProperties.SetOurIrkIdempotent | nimble/host/src/ble_hs_pvcy.c:195-203 | setting the same key a second time is a no-op with result 0, even after a rotation that failed part-way |
| PvcyProperties.DefaultIrkAgainIsNoOp | nimble/host/src/ble_hs_pvcy.c:195-202 | with the default key installed, asking for the default sends nothing and changes nothing |
| PvcyProperties.RemoveEntryNormalizesType | nimble/host/src/ble_hs_pvcy.c:63-89 | the address type removed is always public or random, equals the given type when that type is valid, and the result is the controller's answer to that command |
| PvcyProperties.EnsureStartedIdempotent | nimble/host/src/ble_hs_pvcy.c:173-185 | after a successful start, starting again returns 0 and changes nothing; two calls send at most one command |
| PvcyProperties.EnsureStartedRetry | nimble/host/src/ble_hs_pvcy.c:178-183 | a start the controller refused leaves the module not started, and the next call sends the timeout again |
| Pvcy.OurIrk | nimble/host/src/ble_hs_pvcy.c:238-245 | the status is always 0 and the key returned is the one currently held |
| PvcyProperties.SetOurIrkThenOurIrk | nimble/host/src/ble_hs_pvcy.c:195-245 | after setting the key, reading it yields the candidate key (the caller's or the default) with status 0, even when the rotation failed part-way |
| PvcyProperties.SwitchPeerToNetworkMode | nimble/host/src/ble_hs_pvcy.c:126-166 | an add that reports 0 (so its address type was valid) followed by switching the same peer to network mode leaves exactly [preempt, add with the current local IRK, device mode, preempt-done, network mode]; the last status is the controller's answer; key and started unchanged |
| PvcyProperties.ResetThenOurIrk | nimble/host/src/ble_hs_pvcy.c:238-270 | reading the key after a reset yields the all-zero key with status 0 |
| PvcyProperties.ResetThenEnsureStarted | nimble/host/src/ble_hs_pvcy.c:168-186 | after a reset, starting behaves as the first start: a valid timeout gives exactly one timeout command and started exactly when it succeeded; an invalid one gives 0x12, no command and not started; the key stays all-zero |
| PvcyProperties.AddPeerScenario | nimble/host/src/ble_hs_pvcy.c:141-166 | adding a random-address peer against an accepting controller yields [preempt, add, set-privacy-mode device, preempt-done] and 0 |
| Session.RotationSafe | nimble/host/src/ble_hs_pvcy.c:201-233 | every trace of rotation shape is safe (the clear only after an acknowledged resolution-off, the add inside a bracket) and its entry carries the new key |
| Session.SetOurIrkMeetsContract | nimble/host/src/ble_hs_pvcy.c:188-236 | setting the key records the controller's answers, leaves a safe trace and only adds entries carrying the key it stores |
| Session.AddEntryMeetsContract | nimble/host/src/ble_hs_pvcy.c:102-166 | adding a peer records the controller's answers, leaves a safe trace and its entry carries the current local IRK |
| Session.RemoveEntryMeetsContract | nimble/host/src/ble_hs_pvcy.c:79-92 | removing a peer records the controller's answer and leaves a safe trace |
| Session.EnsureStartedMeetsContract | nimble/host/src/ble_hs_pvcy.c:168-186 | starting records the controller's answer and leaves a safe trace |
| Session.SetModeMeetsContract | nimble/host/src/ble_hs_pvcy.c:247-263 | setting a privacy mode records the controller's answer and leaves a safe trace |
| Session.RunContract | nimble/host/src/ble_hs_pvcy.c:79-270 | for any sequence of calls, the trace appended records every controller answer and is safe: no nested or unreleased preemption, no resolving-list mutation outside the gate |
| Session.RunKeepsIrk | nimble/host/src/ble_hs_pvcy.c:188-270 | a sequence of calls without set-key or reset leaves the local IRK unchanged |
| Session.RunKeepsStarted | nimble/host/src/ble_hs_pvcy.c:168-270 | once started, a sequence of calls without a reset stays started |

## Left out

- Statistics counters (`STATS_INC` of the add counters): an observability side channel with no effect on state or commands.
- HCI wire encoding (`htole16`, opcode packing, command struct layouts): each command is a datatype constructor with logical fields.
- The internals of `ble_hs_hci_cmd_tx`, `ble_gap_preempt` and `ble_gap_preempt_done` are not part of this model. The first is the controller parameter; the other two are trace markers.
- The `BLE_RPA_TIMEOUT` configuration value is a parameter of `EnsureStarted`.
- Concurrency between GAP procedures and this module: the preemption gate is recorded in the trace, not simulated.
- The controller's resolving-list contents and AES-based address resolution are controller-side and not modelled.
- Pointers: a NULL key argument is `None`. Every address and key is a value of the right length, so invalid pointers do not arise.
- SetResolveEnabled: takes a `bool` where the C function takes an `int` that is narrowed to a byte, because its only callers pass 0 and 1.
- OurIrk: returns the key's value, not a pointer to the module's buffer, so later changes seen through that pointer are not modelled.
