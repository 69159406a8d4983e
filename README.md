# LIS3DH accelerometer driver of nRF Desktop, modelled in Dafny

The nRF Desktop sample has a small driver for the LIS3DH accelerometer
(`samples/nrf_desktop/src/hw_interface/accel_lis3dh.c`). The driver does four things:

- It brings the sensor up in a deferred work item. The steps are, in order:
  - find the I2C bus;
  - check `WHO_AM_I`;
  - reset the sensor;
  - put it into idle (power-down) mode;
  - set up the GPIO interrupt line.
- It announces `READY` when the work item succeeds.
- When the system powers down, it arms the sensor's wake-on-motion interrupt and announces `STANDBY`.
- It keeps two latches:
  - `active`: the work item has been submitted and no power-down has followed;
  - `initialized`: the main module has reported ready.

This project models that file:

- `platform.dfy` (module `Platform`): the services the driver calls. These are:
  - the I2C register read and write;
  - device lookup;
  - the GPIO pin configuration and callbacks;
  - module-state announcements;
  - the work queue.

  They are methods of one class, `Hal`. Each call is appended to a single log, so the order of every bus operation, GPIO step and announcement can be observed. The replies come from an oracle: a function of the call and of everything issued before it. Error codes are 32-bit, so the driver's `err |=` accumulation is modelled bit for bit.
- `sequencing.dfy` (module `Sequencing`): the pattern every register routine shares. A routine is a plan of stages:
  - a single call, whose non-zero code stops the routine;
  - a block of writes whose codes are OR-ed together and checked once at the end (the `for … err |= …` loops);
  - the identity read, which must also return the expected byte.

  `Run` is the meaning of a plan. The lemmas cover every plan and every platform behaviour:
  - the routine stops at the first failing stage;
  - it issues a prefix of its calls, in order;
  - for a plan without the identity check, `Done` holds exactly when every reply code was 0. A plan with the identity check can also end in a wrong identity byte with every code 0.
- `protocol.dfy` (module `Lis3dhProtocol`): the register addresses and values of the file. It also gives each routine as a plan, with lemmas for each:
  - the exact trace on success;
  - the behaviour of each OR-block;
  - what happens when the bus or the identity check fails.
- `lifecycle.dfy` (module `Lifecycle`): the event handler's latch logic as a pure function `React`. Its lemmas cover any sequence of events.
- `driver.dfy` (module `Lis3dh`): the driver itself. It is a class `Accel` whose fields are the two latches, with one method per C function, written as the C code is written. The one method that is not a C function is `WriteRegs`: it is the `for … err |= …` loop that `wakeup_mode_set` and `idle_mode_set` write out inline (lines 99-102, 109-112 and 148-151), factored out once. The methods are proved against the plans:
  - `Reset` and `IdleModeSet` against `Run` of their plans;
  - `WakeupModeSet` and `AsyncInit` against stage-by-stage forms that lemmas prove equal to `Run`;
  - `EventHandler` against `React` plus the calls that its reaction issues.

Five behaviours of the code that are easy to get wrong, which the model follows:

- A power-down event clears `active` (line 306), and `active` is the only guard on submitting the initialiser (lines 293-295). A later board-ready event therefore submits the initialiser again. `Lifecycle.ResubmitAfterPowerDown` exhibits this, and `Lifecycle.SubmitsBound` gives the bound: at most one more submission than there are power-downs.
- `active` is set when the initialiser is submitted (lines 293-295), not when it succeeds. If the initialiser fails (for example, no I2C bus is found at lines 221-224), a later power-down still runs the wake-up routine (lines 304-307), whose register writes go through `i2c_dev` (line 50, reached from line 89). `Lis3dh.PowerDownAfterFailedInit` exhibits this.
- `STANDBY` is announced after the wake-up routine whatever that routine returned (lines 307-311). A failed wake-up only logs an error.
- The power-down branch returns `active` (line 314). At that point it is always false, so the handler never consumes an event.
- The interrupt callback (lines 211-217) does nothing. The interrupt is acknowledged only by the `INT1_SRC` reads inside the wake-up and idle routines.

Some lemmas only regroup plans or unfold `Run` once, for the proofs: `Sequencing.OpsAppend`, `Sequencing.RunAppend`, `Sequencing.ReplyAtAppend`, `Sequencing.RunSingle`, `Lis3dhProtocol.RunCons` and `Lis3dhProtocol.InitPlanNested`. They model no line of the driver and have no row below.

## Model

| member | source | states |
|---|---|---|
| Platform.Hal.RegRead | samples/nrf_desktop/src/hw_interface/accel_lis3dh.c:74 | `i2c_reg_read_byte`: the read is logged, and its code and byte are the platform's reply to it |
| Platform.Hal.RegWrite | samples/nrf_desktop/src/hw_interface/accel_lis3dh.c:50 | `i2c_reg_write_byte`: the write is logged and returns the platform's code for it |
| Platform.Hal.GetBinding | samples/nrf_desktop/src/hw_interface/accel_lis3dh.c:221-222 | `device_get_binding`: the lookup is logged; a device is found exactly when the platform answers with code 0 |
| Platform.Hal.PinConfigure | samples/nrf_desktop/src/hw_interface/accel_lis3dh.c:252-254 | `gpio_pin_configure`: logged with pin and flags, and returns the platform's code |
| Platform.Hal.AddCallback | samples/nrf_desktop/src/hw_interface/accel_lis3dh.c:262 | `gpio_add_callback`: logged, and returns the platform's code |
| Platform.Hal.EnableCallback | samples/nrf_desktop/src/hw_interface/accel_lis3dh.c:268 | `gpio_pin_enable_callback`: logged, and returns the platform's code |
| Platform.Hal.SetModuleState | samples/nrf_desktop/src/hw_interface/accel_lis3dh.c:274 | `module_set_state`: the announcement is appended to the log |
| Platform.Hal.SubmitWork | samples/nrf_desktop/src/hw_interface/accel_lis3dh.c:295 | `k_work_submit`: the submission is appended to the log |
| Sequencing.BlockErr | samples/nrf_desktop/src/hw_interface/accel_lis3dh.c:99-102 | definition: the code left by an OR-block is the bitwise OR of every write's reply code, in order; `BlockErrSnoc` and `BlockErrZero` state its properties |
| Sequencing.BlockErrSnoc | samples/nrf_desktop/src/hw_interface/accel_lis3dh.c:99-102 | one more write in an OR-block ORs its code into the accumulated code |
| Sequencing.OrZero | samples/nrf_desktop/src/hw_interface/accel_lis3dh.c:103-105 | an OR of codes is 0 exactly when each code is 0 |
| Sequencing.BlockErrZero | samples/nrf_desktop/src/hw_interface/accel_lis3dh.c:99-105 | an OR-block's code is 0 exactly when every write in it was answered with 0, so a failure anywhere in the block makes its code non-zero |
| Sequencing.RunStage | samples/nrf_desktop/src/hw_interface/accel_lis3dh.c:90-105 | a stage always issues all of its calls, and a failed stage carries a non-zero code |
| Sequencing.Run | samples/nrf_desktop/src/hw_interface/accel_lis3dh.c:84-131 | a routine that fails returns a non-zero code |
| Sequencing.RunIssuesPrefix | samples/nrf_desktop/src/hw_interface/accel_lis3dh.c:84-131 | whatever the replies, a routine issues a prefix of its calls in order, and nothing else |
| Sequencing.AnnouncesIffDone | samples/nrf_desktop/src/hw_interface/accel_lis3dh.c:219-274 | a call issued only after a plan succeeds, and not part of that plan, is issued exactly when the plan succeeded |
| Sequencing.RunDoneIssuesAll | samples/nrf_desktop/src/hw_interface/accel_lis3dh.c:84-131 | a routine that succeeds has issued every one of its calls, in order |
| Sequencing.RunStopsAtFailure | samples/nrf_desktop/src/hw_interface/accel_lis3dh.c:90-128 | a routine that fails stopped at some stage `j`: all earlier stages succeeded, stage `j` produced the result, and nothing after it was issued |
| Sequencing.StageDoneIff | samples/nrf_desktop/src/hw_interface/accel_lis3dh.c:99-105 | a stage other than the identity check succeeds exactly when every one of its calls was answered with 0 |
| Sequencing.RunDoneIff | samples/nrf_desktop/src/hw_interface/accel_lis3dh.c:84-163 | for a routine of codes only, success means exactly that every call it would issue is answered with 0; one non-zero code anywhere makes it fail |
| Lis3dhProtocol.WakeupPlan | samples/nrf_desktop/src/hw_interface/accel_lis3dh.c:84-131 | definition: `wakeup_mode_set` as a plan of six stages: disable the interrupt, the five control writes as one OR-block, the two threshold writes as one OR-block, read `REFERENCE`, clear and enable the interrupt; `WakeupOps` and `WakeupTrace` state its calls |
| Lis3dhProtocol.IdlePlan | samples/nrf_desktop/src/hw_interface/accel_lis3dh.c:134-163 | definition: `idle_mode_set` as a plan: disable the interrupt, the five control writes as one OR-block, clear the interrupt, `CTRL_REG1`=08; `IdleOps` and `IdleTrace` state its calls |
| Lis3dhProtocol.ResetPlan | samples/nrf_desktop/src/hw_interface/accel_lis3dh.c:184-209 | definition: `reset` as two single writes, each stopping the routine when it fails; `ResetTrace` states its behaviour |
| Lis3dhProtocol.IrqLinePlan | samples/nrf_desktop/src/hw_interface/accel_lis3dh.c:245-272 | definition: the interrupt-line part of the initialiser as four single calls, each stopping it when it fails; `IrqLineOps` and `IrqLineSteps` state its behaviour |
| Lis3dhProtocol.InitPlan | samples/nrf_desktop/src/hw_interface/accel_lis3dh.c:219-272 | definition: the initialiser as one plan: bus lookup, identity check, `reset`, `idle_mode_set`, interrupt line; `InitOps`, `InitTrace` and `InitStopsBeforeWrites` state its behaviour |
| Lis3dhProtocol.ConfigWrites | samples/nrf_desktop/src/hw_interface/accel_lis3dh.c:86-136 | the configuration arrays of both routines (lines 86, 87 and 136) turn into exactly the listed register writes |
| Lis3dhProtocol.WakeupOps | samples/nrf_desktop/src/hw_interface/accel_lis3dh.c:84-131 | the calls of `wakeup_mode_set`, in order |
| Lis3dhProtocol.WakeupTrace | samples/nrf_desktop/src/hw_interface/accel_lis3dh.c:84-131 | a successful `wakeup_mode_set` issues exactly: INT1_CFG=0, CTRL_REG1..5 = 5F 01 40 00 00, INT1_THS/DURATION = 08 00, read REFERENCE, read INT1_SRC, INT1_CFG=2A |
| Lis3dhProtocol.IdleOps | samples/nrf_desktop/src/hw_interface/accel_lis3dh.c:134-163 | the calls of `idle_mode_set`, in order |
| Lis3dhProtocol.IdleTrace | samples/nrf_desktop/src/hw_interface/accel_lis3dh.c:134-163 | a successful `idle_mode_set` issues exactly: INT1_CFG=0, CTRL_REG1..5 = 58 00 00 00 00, read INT1_SRC, CTRL_REG1=08 (power-down) |
| Lis3dhProtocol.ResetTrace | samples/nrf_desktop/src/hw_interface/accel_lis3dh.c:184-209 | `reset` writes CTRL_REG1=80, and CTRL_REG5=80 only if that write succeeded; it returns 0 exactly when both succeeded, and otherwise the failing write's code |
| Lis3dhProtocol.BlockCompletes | samples/nrf_desktop/src/hw_interface/accel_lis3dh.c:99-105 | once reached, an OR-block issues all of its writes whatever their codes; the routine stops right after it, with the OR of its codes, exactly when one of them failed |
| Lis3dhProtocol.WakeupCtrlBlock | samples/nrf_desktop/src/hw_interface/accel_lis3dh.c:99-105 | after a successful interrupt disable, all five control writes of `wakeup_mode_set` are issued; the routine stops right after them, with their OR, exactly when one failed |
| Lis3dhProtocol.WakeupThsBlock | samples/nrf_desktop/src/hw_interface/accel_lis3dh.c:109-115 | the same for the two threshold writes, once the control block succeeded |
| Lis3dhProtocol.IdleCtrlBlock | samples/nrf_desktop/src/hw_interface/accel_lis3dh.c:148-154 | the same for the five control writes of `idle_mode_set` |
| Lis3dhProtocol.InitStopsBeforeWrites | samples/nrf_desktop/src/hw_interface/accel_lis3dh.c:221-229 | the initialiser issues no register write unless the bus was found and `WHO_AM_I` read as 0x33. A missing bus stops it after the lookup; a failed or wrong identity read stops it right after that read, with that result |
| Lis3dhProtocol.ResetOps | samples/nrf_desktop/src/hw_interface/accel_lis3dh.c:184-209 | the calls of `reset`, in order |
| Lis3dhProtocol.IrqLineOps | samples/nrf_desktop/src/hw_interface/accel_lis3dh.c:245-272 | the interrupt-line calls of the initialiser, in order: GPIO lookup, configure pin 0x19, add callback, enable callback |
| Lis3dhProtocol.InitOps | samples/nrf_desktop/src/hw_interface/accel_lis3dh.c:219-275 | the calls of the initialiser, in order: bus lookup, identity read, reset, idle mode, interrupt line |
| Lis3dhProtocol.InitAnnouncesNothing | samples/nrf_desktop/src/hw_interface/accel_lis3dh.c:219-272 | no step of the initialiser before its last line announces `READY` |
| Lis3dhProtocol.InitTrace | samples/nrf_desktop/src/hw_interface/accel_lis3dh.c:219-275 | a successful initialiser has issued exactly its plan's calls, in order |
| Lis3dhProtocol.WakeupInStages | samples/nrf_desktop/src/hw_interface/accel_lis3dh.c:89-130 | definition: the early returns of `wakeup_mode_set`, where the first stage with a non-zero code ends the routine with that code; `WakeupSteps` proves it equal to `Run` of `WakeupPlan` |
| Lis3dhProtocol.WakeupSteps | samples/nrf_desktop/src/hw_interface/accel_lis3dh.c:84-131 | running the wake-up plan is the stage-by-stage form: the first non-zero code ends the routine right after that stage's calls |
| Lis3dhProtocol.IdleSteps | samples/nrf_desktop/src/hw_interface/accel_lis3dh.c:134-163 | the same for `idle_mode_set` |
| Lis3dhProtocol.IrqLineSteps | samples/nrf_desktop/src/hw_interface/accel_lis3dh.c:245-272 | the same for the interrupt-line part of the initialiser |
| Lis3dhProtocol.InitInParts | samples/nrf_desktop/src/hw_interface/accel_lis3dh.c:221-272 | definition: the early returns of `async_init_fn` at the level of its parts (lookup, `verify_id`, `reset`, `idle_mode_set`, interrupt line); `InitSteps` proves it equal to `Run` of `InitPlan` |
| Lis3dhProtocol.InitSteps | samples/nrf_desktop/src/hw_interface/accel_lis3dh.c:219-272 | running the initialiser's plan is the part-by-part form, in which each part runs only if everything before it succeeded |
| Lifecycle.React | samples/nrf_desktop/src/hw_interface/accel_lis3dh.c:280-315 | definition: the handler's decision on one event. Main-ready sets `initialized`. Board-ready sets `active` and submits the initialiser only when `active` was clear. Power-down, when `active` is set, clears it and enters wake-up. Anything else is ignored. The lemmas below state its effect over event sequences |
| Lifecycle.SubmitsBalanceWakeups | samples/nrf_desktop/src/hw_interface/accel_lis3dh.c:292-312 | over any event sequence, submissions of the initialiser and entries into wake-up alternate: their counts differ only by how `active` started and ended |
| Lifecycle.WakeupsAtMostPowerDowns | samples/nrf_desktop/src/hw_interface/accel_lis3dh.c:303-312 | over any event sequence, wake-up is entered no more often than power-down events arrive |
| Lifecycle.SubmitsBound | samples/nrf_desktop/src/hw_interface/accel_lis3dh.c:292-298 | from the start, the initialiser is submitted at most once more than there are power-downs; with no power-down, at most once however many board-ready events arrive |
| Lifecycle.ResubmitAfterPowerDown | samples/nrf_desktop/src/hw_interface/accel_lis3dh.c:292-312 | board-ready, power-down, board-ready submits the initialiser twice |
| Lifecycle.InitializedLatch | samples/nrf_desktop/src/hw_interface/accel_lis3dh.c:283-289 | `initialized` is set once a main-ready event has been seen and is never cleared |
| Lis3dh.AfterReaction | samples/nrf_desktop/src/hw_interface/accel_lis3dh.c:292-312 | definition: the platform log after one reaction: nothing, one submission, or the wake-up routine's calls followed by `STANDBY`; `StandbyAfterWakeup` states the last case |
| Lis3dh.AfterInit | samples/nrf_desktop/src/hw_interface/accel_lis3dh.c:219-275 | definition: the platform log after the initialiser: its calls up to the first failure, then `READY` only when none failed; `ReadyIffInitDone` states this |
| Lis3dh.ReadyIffInitDone | samples/nrf_desktop/src/hw_interface/accel_lis3dh.c:219-275 | the initialiser keeps the earlier log and announces `READY` exactly when every one of its steps succeeded |
| Lis3dh.StandbyAfterWakeup | samples/nrf_desktop/src/hw_interface/accel_lis3dh.c:303-312 | on a power-down that finds `active` set (line 304), `STANDBY` is announced last whatever the wake-up routine returned, after a prefix of that routine's calls |
| Lis3dh.PowerDownAfterFailedInit | samples/nrf_desktop/src/hw_interface/accel_lis3dh.c:292-307 | after board-ready and an initialiser whose I2C lookup failed (lines 221-224), a power-down still enters wake-up, and its first call is the `INT1_CFG` write of line 50 through the device that was never found |
| Lis3dh.Accel.constructor | samples/nrf_desktop/src/hw_interface/accel_lis3dh.c:45 | both latches start out false |
| Lis3dh.Accel.DisableIrq | samples/nrf_desktop/src/hw_interface/accel_lis3dh.c:48-57 | writes INT1_CFG=00 and returns its code |
| Lis3dh.Accel.EnableIrq | samples/nrf_desktop/src/hw_interface/accel_lis3dh.c:59-68 | writes INT1_CFG=2A and returns its code |
| Lis3dh.Accel.ClearIrq | samples/nrf_desktop/src/hw_interface/accel_lis3dh.c:70-82 | reads INT1_SRC, discards the byte and returns the read's code |
| Lis3dh.Accel.WriteRegs | samples/nrf_desktop/src/hw_interface/accel_lis3dh.c:99-102 | the OR-accumulating loop: writes every value to consecutive registers whatever the codes, and returns the OR of all codes |
| Lis3dh.Accel.WakeupModeSet | samples/nrf_desktop/src/hw_interface/accel_lis3dh.c:84-131 | issues the stage-by-stage wake-up sequence and returns its result, which `WakeupSteps` ties to `Run` of the wake-up plan |
| Lis3dh.Accel.IdleModeSet | samples/nrf_desktop/src/hw_interface/accel_lis3dh.c:134-163 | behaves as `Run` of the idle plan: same calls, same code |
| Lis3dh.Accel.VerifyId | samples/nrf_desktop/src/hw_interface/accel_lis3dh.c:165-182 | reads `WHO_AM_I` once; true exactly when the read succeeded and returned 0x33 |
| Lis3dh.Accel.Reset | samples/nrf_desktop/src/hw_interface/accel_lis3dh.c:184-209 | behaves as `Run` of the reset plan, returning 0 on success |
| Lis3dh.Accel.IrqCallback | samples/nrf_desktop/src/hw_interface/accel_lis3dh.c:211-217 | issues nothing |
| Lis3dh.Accel.AsyncInit | samples/nrf_desktop/src/hw_interface/accel_lis3dh.c:219-275 | issues the initialiser's plan up to its first failure, then `READY` exactly when no step failed |
| Lis3dh.Accel.EventHandler | samples/nrf_desktop/src/hw_interface/accel_lis3dh.c:278-321 | updates the latches as `React` says, issues exactly that reaction's calls (nothing, a submission, or wake-up then `STANDBY`), and never consumes the event |

## Left out

- Logging (`LOG_ERR`, `LOG_INF`) and `k_sleep` have no effect on the modelled state and are left out.
- The I2C bus address 0x19 is the same for every register operation, so it is not recorded in the log.
- `i2c_dev` keeps the NULL result of a failed bus lookup (lines 221-224). The power-down path still runs after such a failure and calls the register routines with that NULL device (see `Lis3dh.PowerDownAfterFailedInit`). The model does not track the device pointer: it lets the platform's oracle answer those calls like any other. What the platform really does with a NULL device is not modelled.
- `gpio_init_callback` only fills the file-static `gpio_cb` (line 43) and calls no platform service; a re-submitted initialiser fills and registers it again. It is not a logged call; the callback mask is the same pin 0x19 that the logged calls carry.
- The work queue's concurrency is left out. `AsyncInit` is a method of its own, and `EventHandler` only records the submission. The model does not cover the initialiser running in parallel with a later event.
- Lis3dh.Accel.EventHandler: the `__ASSERT_NO_MSG(!initialized)` for a second main-ready event is a precondition. Its release-build behaviour (the flag is set again) is not modelled separately.
- Lis3dh.Accel.EventHandler: the unsubscribed-event branch (lines 317-320) is unreachable, because the model's events are exactly the two kinds the handler subscribes to (lines 323-324). The event-manager registration macros themselves are not modelled.
- Named power states such as verifying, resetting or wake-armed are not a separate state machine. The code keeps only the two latches and the sensor's registers, and those are what the model keeps.
