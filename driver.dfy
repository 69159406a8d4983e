/** The LIS3DH accelerometer driver of the nRF Desktop application: its
    register routines, its deferred initialiser and its event handler, over
    the platform of `Platform`. Each register routine is proved to issue
    exactly what `Run` of its plan in `Lis3dhProtocol` issues and to return
    that plan's status; the lemmas there and in `Sequencing` say what those
    plans do. */
module Lis3dh {
  import opened Platform
  import opened Sequencing
  import opened Lis3dhProtocol
  import opened Lifecycle

  /** The platform log after the event handler carried out reaction `r`
      from `log`. The standby announcement follows the wake-up routine
      whatever that routine returned. */
  function AfterReaction(r: Reaction, o: Oracle, log: seq<Call>): seq<Call> {
    match r
    case Ignore => log
    case QueueInit => log + [SubmitInit]
    case EnterWakeup => WakeupInStages(o, log).log + [SetState(Standby)]
  }

  /** The platform log after the deferred initialiser ran from `log`: its
      plan, taken part by part as `InitInParts` says, then the ready
      announcement if and only if every step of the plan succeeded. */
  function AfterInit(o: Oracle, log: seq<Call>): seq<Call> {
    var r := InitInParts(o, log);
    if r.status == Done then r.log + [SetState(Ready)] else r.log
  }

  /** The deferred initialiser announces READY exactly when every step of
      its plan succeeded; otherwise it has issued a prefix of the plan's
      calls and announced nothing. */
  lemma ReadyIffInitDone(o: Oracle, log: seq<Call>)
    ensures var after := AfterInit(o, log);
            |log| <= |after| && after[..|log|] == log
            && (SetState(Ready) in after[|log|..] <==> Run(InitPlan(), o, log).status == Done)
  {
    InitSteps(o, log);
    InitAnnouncesNothing();
    AnnouncesIffDone(InitPlan(), o, log, SetState(Ready));
  }

  /** On power-down, standby is announced after the wake-up routine whatever
      that routine returned: the announcement is the last call, and the calls
      before it are a prefix of the wake-up routine's. */
  lemma StandbyAfterWakeup(o: Oracle, log: seq<Call>)
    returns (n: nat)
    ensures n <= |Ops(WakeupPlan())|
    ensures AfterReaction(EnterWakeup, o, log) == log + Ops(WakeupPlan())[..n] + [SetState(Standby)]
  {
    n := RunIssuesPrefix(WakeupPlan(), o, log);
    WakeupSteps(o, log);
  }

  /** `active` is set when the initialiser is submitted, not when it
      succeeds. So after a board-ready event whose initialiser found no I2C
      bus, a power-down still enters wake-up, and its first call is a register
      write through the device that was never found. */
  lemma PowerDownAfterFailedInit(o: Oracle, log: seq<Call>)
    requires o(log + [SubmitInit], Bind(I2c1)).err != 0
    ensures var board := React(START, BOARD_READY);
            var submitted := AfterReaction(board.reaction, o, log);
            var failed := AfterInit(o, submitted);
            var down := React(board.latches, PowerDownEvent);
            var after := AfterReaction(down.reaction, o, failed);
            && board.reaction == QueueInit
            && failed == log + [SubmitInit, Bind(I2c1)]
            && down.reaction == EnterWakeup
            && |failed| < |after| && after[|failed|] == Write(INT1_CFG, 0x00)
  {
  }

  class Accel {
    const hal: Hal
    /** Set while the deferred initialiser is armed, cleared on power-down. */
    var active: bool
    /** Set when the main module has reported ready. */
    var initialized: bool

    constructor (hal: Hal)
      ensures this.hal == hal && !active && !initialized
    {
      this.hal := hal;
      active := false;
      initialized := false;
    }

    /** Running `plan` from `log0` ends in `status` and leaves the platform
        log as it is now. */
    ghost predicate Performed(plan: seq<Stage>, log0: seq<Call>, status: Status)
      reads hal
    {
      Run(plan, hal.oracle, log0) == Outcome(status, hal.log)
    }

    method DisableIrq() returns (err: ErrCode)
      modifies hal
      ensures hal.log == old(hal.log) + [Write(INT1_CFG, 0x00)]
      ensures err == hal.oracle(old(hal.log), Write(INT1_CFG, 0x00)).err
    {
      err := hal.RegWrite(INT1_CFG, 0x00);
    }

    method EnableIrq() returns (err: ErrCode)
      modifies hal
      ensures hal.log == old(hal.log) + [Write(INT1_CFG, 0x2A)]
      ensures err == hal.oracle(old(hal.log), Write(INT1_CFG, 0x2A)).err
    {
      err := hal.RegWrite(INT1_CFG, 0x2A);
    }

    /** Reads and discards `INT1_SRC`, which acknowledges a latched interrupt. */
    method ClearIrq() returns (err: ErrCode)
      modifies hal
      ensures hal.log == old(hal.log) + [Read(INT1_SRC)]
      ensures err == hal.oracle(old(hal.log), Read(INT1_SRC)).err
    {
      var val;
      err, val := hal.RegRead(INT1_SRC);
    }

    /** Writes `vals` to consecutive registers from `first`, one at a time,
        OR-ing the codes together: a failed write does not stop the later ones. */
    method WriteRegs(first: Byte, vals: seq<Byte>) returns (err: ErrCode)
      requires first as int + |vals| <= 256
      modifies hal
      ensures hal.log == old(hal.log) + Writes(first, vals)
      ensures err == BlockErr(Writes(first, vals), hal.oracle, old(hal.log))
    {
      ghost var log0 := hal.log;
      ghost var cs := Writes(first, vals);
      err := 0;
      for i := 0 to |vals|
        invariant hal.log == log0 + cs[..i]
        invariant err == BlockErr(cs[..i], hal.oracle, log0)
      {
        var e := hal.RegWrite((first as int + i) as Byte, vals[i]);
        assert hal.log == log0 + cs[..i + 1] && err | e == BlockErr(cs[..i + 1], hal.oracle, log0) by {
          assert cs[i] == Write((first as int + i) as Byte, vals[i]);
          assert cs[..i + 1] == cs[..i] + [cs[i]];
          BlockErrSnoc(cs[..i], cs[i], hal.oracle, log0);
        }
        err := err | e;
      }
      assert cs[..|vals|] == cs;
    }

    /** `wakeup_mode_set`: arms the wake-on-motion interrupt. It ends as
        `WakeupInStages` says, which `WakeupSteps` proves is `Run` of
        `WakeupPlan`. */
    method WakeupModeSet() returns (err: ErrCode)
      modifies hal
      ensures WakeupInStages(hal.oracle, old(hal.log)) == Outcome(StatusOf(err), hal.log)
    {
      ConfigWrites();

      err := DisableIrq();
      if err != 0 {
        return;
      }

      err := WriteRegs(CTRL_REG1, WAKE_CTRL);
      if err != 0 {
        return;
      }

      err := WriteRegs(INT1_THS, WAKE_THS);
      if err != 0 {
        return;
      }

      // Reading REFERENCE resets the sensor's internal high-pass filter.
      var val;
      err, val := hal.RegRead(REFERENCE_REG);
      if err != 0 {
        return;
      }

      err := ClearIrq();
      if err != 0 {
        return;
      }

      err := EnableIrq();
    }

    /** `idle_mode_set`: puts the sensor into power-down mode with its
        interrupt cleared and disabled. */
    method IdleModeSet() returns (err: ErrCode)
      modifies hal
      ensures Performed(IdlePlan(), old(hal.log), StatusOf(err))
    {
      IdleSteps(hal.oracle, hal.log);
      ConfigWrites();

      err := DisableIrq();
      if err != 0 {
        return;
      }

      err := WriteRegs(CTRL_REG1, IDLE_CTRL);
      if err != 0 {
        return;
      }

      err := ClearIrq();
      if err != 0 {
        return;
      }

      // CTRL_REG1 = 0x08 selects power-down mode.
      err := hal.RegWrite(CTRL_REG1, 0x08);
    }

    /** `verify_id`: true exactly when `WHO_AM_I` was read without error and
        holds the LIS3DH identity. */
    method VerifyId() returns (ok: bool)
      modifies hal
      ensures hal.log == old(hal.log) + [Read(WHO_AM_I)]
      ensures var reply := hal.oracle(old(hal.log), Read(WHO_AM_I));
              ok <==> reply.err == 0 && reply.data == I_AM_LIS3DH
    {
      var err, val := hal.RegRead(WHO_AM_I);
      if err != 0 {
        return false;
      }
      if val != I_AM_LIS3DH {
        return false;
      }
      return true;
    }

    /** `reset`: selects the fast output data rate, then reboots the memory
        content; 0 only when both writes succeeded. */
    method Reset() returns (err: ErrCode)
      modifies hal
      ensures Performed(ResetPlan(), old(hal.log), StatusOf(err))
    {
      ResetTrace(hal.oracle, hal.log);

      // Fast output data rate, 1.6 kHz.
      err := hal.RegWrite(CTRL_REG1, 0x80);
      if err != 0 {
        return;
      }

      // Reboot memory content.
      err := hal.RegWrite(CTRL_REG5, 0x80);
      if err != 0 {
        return;
      }
      return 0;
    }

    /** `irq_callback`: the interrupt line only wakes the system; the
        callback itself does nothing. */
    method IrqCallback(pins: bv32)
      ensures hal.log == old(hal.log)
    {
    }

    /** `async_init_fn`: finds the bus, checks the identity, resets the
        sensor, puts it into idle mode and sets up the interrupt line, giving
        up at the first step that fails; only when all of them succeeded does
        it announce that the module is ready. */
    method AsyncInit()
      modifies hal
      ensures hal.log == AfterInit(hal.oracle, old(hal.log))
    {
      var found := hal.GetBinding(I2c1);
      if !found {
        return;
      }

      var ok := VerifyId();
      if !ok {
        return;
      }

      var err := Reset();
      if err != 0 {
        return;
      }

      err := IdleModeSet();
      if err != 0 {
        return;
      }

      IrqLineSteps(hal.oracle, hal.log);
      var gpioFound := hal.GetBinding(GpioP0);
      if !gpioFound {
        return;
      }

      err := hal.PinConfigure(IRQ_PIN, IRQ_PIN_FLAGS);
      if err != 0 {
        return;
      }

      err := hal.AddCallback(IRQ_PIN);
      if err != 0 {
        return;
      }

      err := hal.EnableCallback(IRQ_PIN);
      if err != 0 {
        return;
      }

      hal.SetModuleState(Ready);
    }

    /** `event_handler`: keeps the two latches as `React` says and carries out
        its reaction. A main-ready event may arrive only once. The handler never
        consumes an event: on power-down it returns `active`, which it has just
        cleared. */
    method EventHandler(e: Event) returns (consumed: bool)
      requires e == MAIN_READY ==> !initialized
      modifies this, hal
      ensures var step := React(Latches(old(active), old(initialized)), e);
              Latches(active, initialized) == step.latches
              && hal.log == AfterReaction(step.reaction, hal.oracle, old(hal.log))
      ensures !consumed
    {
      match e
      case ModuleStateEvent(m, s) =>
        if m == Main && s == Ready {
          initialized := true;
          return false;
        }
        if m == Board && s == Ready {
          if !active {
            active := true;
            hal.SubmitWork();
          }
          return false;
        }
        return false;
      case PowerDownEvent =>
        if active {
          active := false;
          var err := WakeupModeSet();
          hal.SetModuleState(Standby);
        }
        return active;
    }
  }
}
