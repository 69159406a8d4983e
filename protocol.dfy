/** The LIS3DH register protocol of the nRF Desktop accelerometer driver:
    the register addresses and values it uses, and each of its routines as a
    plan of stages (see `Sequencing`). The lemmas state what each routine
    issues on the bus, on success and on failure. */
module Lis3dhProtocol {
  import opened Platform
  import opened Sequencing

  const WHO_AM_I: Byte := 0x0F
  const CTRL_REG1: Byte := 0x20
  const CTRL_REG5: Byte := 0x24
  const REFERENCE_REG: Byte := 0x26
  const INT1_CFG: Byte := 0x30
  const INT1_SRC: Byte := 0x31
  const INT1_THS: Byte := 0x32

  /** The value of `WHO_AM_I` on a LIS3DH. */
  const I_AM_LIS3DH: Byte := 0x33

  /** The GPIO pin the sensor's INT1 line is wired to. */
  const IRQ_PIN: nat := 0x19

  /** Input, level-triggered, active-high, debounced interrupt. */
  const IRQ_PIN_FLAGS: set<PinFlag> := {DirIn, Int, IntLevel, IntActiveHigh, IntDebounce}

  /** `CTRL_REG1..CTRL_REG5` for wake-on-motion: 100 Hz, all axes, high-pass
      filter on INT1, INT1 driven by the activity interrupt. */
  const WAKE_CTRL: seq<Byte> := [0x5F, 0x01, 0x40, 0x00, 0x00]
  /** `INT1_THS` and `INT1_DURATION` for wake-on-motion. */
  const WAKE_THS: seq<Byte> := [0x08, 0x00]
  /** `CTRL_REG1..CTRL_REG5` for idle: 100 Hz low-power, axes off. */
  const IDLE_CTRL: seq<Byte> := [0x58, 0x00, 0x00, 0x00, 0x00]

  /** Writes of `vals` to consecutive registers starting at `first`. */
  function Writes(first: Byte, vals: seq<Byte>): seq<Call>
    requires first as int + |vals| <= 256
  {
    seq(|vals|, i requires 0 <= i < |vals| => Write((first as int + i) as Byte, vals[i]))
  }

  /** The register writes each configuration array turns into. */
  const WAKE_CTRL_WRITES: seq<Call> :=
    [Write(0x20, 0x5F), Write(0x21, 0x01), Write(0x22, 0x40), Write(0x23, 0x00), Write(0x24, 0x00)]
  const WAKE_THS_WRITES: seq<Call> := [Write(0x32, 0x08), Write(0x33, 0x00)]
  const IDLE_CTRL_WRITES: seq<Call> :=
    [Write(0x20, 0x58), Write(0x21, 0x00), Write(0x22, 0x00), Write(0x23, 0x00), Write(0x24, 0x00)]

  /** Writing each configuration array from its first register issues
      exactly the writes its plan lists. */
  lemma ConfigWrites()
    ensures Writes(CTRL_REG1, WAKE_CTRL) == WAKE_CTRL_WRITES
    ensures Writes(INT1_THS, WAKE_THS) == WAKE_THS_WRITES
    ensures Writes(CTRL_REG1, IDLE_CTRL) == IDLE_CTRL_WRITES
  {
  }

  const DISABLE_IRQ: Stage := Single(Write(INT1_CFG, 0x00))
  const ENABLE_IRQ: Stage := Single(Write(INT1_CFG, 0x2A))
  /** Reading `INT1_SRC` acknowledges a latched interrupt. */
  const CLEAR_IRQ: Stage := Single(Read(INT1_SRC))

  /** Wake-on-motion: interrupt off, control registers, threshold, reset the
      high-pass filter by reading `REFERENCE`, clear and re-enable the interrupt. */
  function WakeupPlan(): seq<Stage> {
    [DISABLE_IRQ,
     Block(WAKE_CTRL_WRITES),
     Block(WAKE_THS_WRITES),
     Single(Read(REFERENCE_REG)),
     CLEAR_IRQ,
     ENABLE_IRQ]
  }

  /** Idle: interrupt off, control registers, clear the interrupt, then
      `CTRL_REG1` = 0x08 (power-down mode). */
  function IdlePlan(): seq<Stage> {
    [DISABLE_IRQ,
     Block(IDLE_CTRL_WRITES),
     CLEAR_IRQ,
     Single(Write(CTRL_REG1, 0x08))]
  }

  /** Reset: fast output data rate, then reboot the memory content. */
  function ResetPlan(): seq<Stage> {
    [Single(Write(CTRL_REG1, 0x80)), Single(Write(CTRL_REG5, 0x80))]
  }

  /** Identity check: `WHO_AM_I` must read as `I_AM_LIS3DH`. */
  const VERIFY_ID: Stage := Expect(Read(WHO_AM_I), I_AM_LIS3DH)

  function VerifyIdPlan(): seq<Stage> {
    [VERIFY_ID]
  }

  /** Interrupt line set-up after the sensor is idle. */
  function IrqLinePlan(): seq<Stage> {
    [Single(Bind(GpioP0)),
     Single(Configure(IRQ_PIN, IRQ_PIN_FLAGS)),
     Single(AddCallback(IRQ_PIN)),
     Single(EnableCallback(IRQ_PIN))]
  }

  /** The deferred initialiser: bus lookup, identity, reset, idle mode, then
      the interrupt line. */
  function InitPlan(): seq<Stage> {
    [Single(Bind(I2c1))] + VerifyIdPlan() + ResetPlan() + IdlePlan() + IrqLinePlan()
  }

  /** The calls each routine issues when every step succeeds, grouped
      stage by stage from the right. */
  const WAKEUP_TRACE: seq<Call> :=
    [Write(INT1_CFG, 0x00)]
    + (WAKE_CTRL_WRITES
    + (WAKE_THS_WRITES
    + [Read(REFERENCE_REG), Read(INT1_SRC), Write(INT1_CFG, 0x2A)]))
  const IDLE_TRACE: seq<Call> :=
    [Write(INT1_CFG, 0x00)] + (IDLE_CTRL_WRITES + [Read(INT1_SRC), Write(CTRL_REG1, 0x08)])
  const RESET_TRACE: seq<Call> := [Write(CTRL_REG1, 0x80), Write(CTRL_REG5, 0x80)]
  const IRQ_LINE_TRACE: seq<Call> :=
    [Bind(GpioP0), Configure(IRQ_PIN, IRQ_PIN_FLAGS), AddCallback(IRQ_PIN), EnableCallback(IRQ_PIN)]
  const INIT_TRACE: seq<Call> :=
    [Bind(I2c1)] + ([Read(WHO_AM_I)] + (RESET_TRACE + (IDLE_TRACE + IRQ_LINE_TRACE)))

  /** Every call of `Run` unfolded once for a plan `[s] + rest`. */
  lemma RunCons(s: Stage, rest: seq<Stage>, o: Oracle, log: seq<Call>)
    ensures var first := RunStage(s, o, log);
            Run([s] + rest, o, log) == if first.status != Done then first else Run(rest, o, first.log)
  {
    assert ([s] + rest)[1..] == rest;
  }

  /** Every call of `wakeup_mode_set`, in order. */
  lemma WakeupOps()
    ensures Ops(WakeupPlan()) == WAKEUP_TRACE
  {
    var p := WakeupPlan();
    assert p[1..][1..] == p[2..];
    assert p[2..][1..] == p[3..];
    assert p[3..][1..] == p[4..];
    assert p[4..][1..] == p[5..];
    assert p[5..][1..] == [];
  }

  /** When `wakeup_mode_set` succeeds it has issued exactly `WAKEUP_TRACE`. */
  lemma WakeupTrace(o: Oracle, log: seq<Call>)
    ensures Run(WakeupPlan(), o, log).status == Done ==>
      Run(WakeupPlan(), o, log).log == log + WAKEUP_TRACE
  {
    RunDoneIssuesAll(WakeupPlan(), o, log);
    WakeupOps();
  }

  /** Every call of `idle_mode_set`, in order. */
  lemma IdleOps()
    ensures Ops(IdlePlan()) == IDLE_TRACE
  {
    var p := IdlePlan();
    assert p[1..][1..] == p[2..];
    assert p[2..][1..] == p[3..];
    assert p[3..][1..] == [];
  }

  /** When `idle_mode_set` succeeds it has issued exactly `IDLE_TRACE`, whose
      last write leaves `CTRL_REG1` = 0x08 (power-down mode). */
  lemma IdleTrace(o: Oracle, log: seq<Call>)
    ensures Run(IdlePlan(), o, log).status == Done ==>
      Run(IdlePlan(), o, log).log == log + IDLE_TRACE
  {
    RunDoneIssuesAll(IdlePlan(), o, log);
    IdleOps();
  }

  /** `reset` writes `CTRL_REG1` = 0x80 and, only if that succeeded,
      `CTRL_REG5` = 0x80; it succeeds exactly when both writes did, and
      otherwise returns the code of the write that failed. */
  lemma ResetTrace(o: Oracle, log: seq<Call>)
    ensures var w1, w2 := Write(CTRL_REG1, 0x80), Write(CTRL_REG5, 0x80);
            var e1, e2 := o(log, w1).err, o(log + [w1], w2).err;
            Run(ResetPlan(), o, log) ==
              if e1 != 0 then Outcome(Failed(e1), log + [w1]) else Outcome(StatusOf(e2), log + [w1] + [w2])
  {
    var p := ResetPlan();
    assert p[1..][1..] == [];
  }

  /** A block stage after a successful prefix `pre`: all of its writes are
      issued, in order, whatever their codes; the routine stops right after
      the block, returning the OR of the block's codes, exactly when one of
      the block's calls failed. */
  lemma BlockCompletes(pre: seq<Stage>, cs: seq<Call>, post: seq<Stage>, o: Oracle, log: seq<Call>)
    requires Run(pre, o, log).status == Done
    ensures var base := Run(pre, o, log).log;
            var r := Run(pre + [Block(cs)] + post, o, log);
            && |base| + |cs| <= |r.log|
            && r.log[..|base| + |cs|] == base + cs
            && ((exists k :: 0 <= k < |cs| && ReplyAt(o, base, cs, k).err != 0)
                <==> r == Outcome(Failed(BlockErr(cs, o, base)), base + cs))
  {
    var base := Run(pre, o, log).log;
    assert pre + [Block(cs)] + post == pre + ([Block(cs)] + post);
    RunAppend(pre, [Block(cs)] + post, o, log);
    RunCons(Block(cs), post, o, base);
    BlockErrZero(cs, o, base);
    var n := RunIssuesPrefix(post, o, base + cs);
  }

  /** The control-register block of `wakeup_mode_set`: issued in full once the
      interrupt is disabled, and the routine stops right after it exactly
      when one of its writes failed. */
  lemma WakeupCtrlBlock(o: Oracle, log: seq<Call>)
    requires o(log, Write(INT1_CFG, 0x00)).err == 0
    ensures var cs := WAKE_CTRL_WRITES;
            var r := Run(WakeupPlan(), o, log);
            var base := log + [Write(INT1_CFG, 0x00)];
            && |base| + |cs| <= |r.log| && r.log[..|base| + |cs|] == base + cs
            && ((exists k :: 0 <= k < |cs| && ReplyAt(o, base, cs, k).err != 0)
                <==> r == Outcome(Failed(BlockErr(cs, o, base)), base + cs))
  {
    var p := WakeupPlan();
    RunSingle(DISABLE_IRQ, o, log);
    assert p == [DISABLE_IRQ] + [p[1]] + p[2..];
    BlockCompletes([DISABLE_IRQ], WAKE_CTRL_WRITES, p[2..], o, log);
  }

  /** The threshold block of `wakeup_mode_set`: issued in full once the
      control block succeeded, and the routine stops right after it exactly
      when one of its writes failed. */
  lemma WakeupThsBlock(o: Oracle, log: seq<Call>)
    requires Run(WakeupPlan()[..2], o, log).status == Done
    ensures var cs := WAKE_THS_WRITES;
            var r := Run(WakeupPlan(), o, log);
            var base := log + [Write(INT1_CFG, 0x00)] + WAKE_CTRL_WRITES;
            && |base| + |cs| <= |r.log| && r.log[..|base| + |cs|] == base + cs
            && ((exists k :: 0 <= k < |cs| && ReplyAt(o, base, cs, k).err != 0)
                <==> r == Outcome(Failed(BlockErr(cs, o, base)), base + cs))
  {
    var p := WakeupPlan();
    var pre := p[..2];
    RunDoneIssuesAll(pre, o, log);
    assert Ops(pre) == [Write(INT1_CFG, 0x00)] + WAKE_CTRL_WRITES by {
      assert pre[1..] == [pre[1]];
      assert pre[1..][1..] == [];
    }
    assert log + Ops(pre) == log + [Write(INT1_CFG, 0x00)] + WAKE_CTRL_WRITES;
    assert p == pre + [p[2]] + p[3..];
    BlockCompletes(pre, WAKE_THS_WRITES, p[3..], o, log);
  }

  /** The control-register block of `idle_mode_set`: issued in full once the
      interrupt is disabled, and the routine stops right after it exactly
      when one of its writes failed. */
  lemma IdleCtrlBlock(o: Oracle, log: seq<Call>)
    requires o(log, Write(INT1_CFG, 0x00)).err == 0
    ensures var cs := IDLE_CTRL_WRITES;
            var r := Run(IdlePlan(), o, log);
            var base := log + [Write(INT1_CFG, 0x00)];
            && |base| + |cs| <= |r.log| && r.log[..|base| + |cs|] == base + cs
            && ((exists k :: 0 <= k < |cs| && ReplyAt(o, base, cs, k).err != 0)
                <==> r == Outcome(Failed(BlockErr(cs, o, base)), base + cs))
  {
    var p := IdlePlan();
    RunSingle(DISABLE_IRQ, o, log);
    assert p == [DISABLE_IRQ] + [p[1]] + p[2..];
    BlockCompletes([DISABLE_IRQ], IDLE_CTRL_WRITES, p[2..], o, log);
  }

  /** The deferred initialiser issues no register write unless the bus was
      found and `WHO_AM_I` read as `I_AM_LIS3DH`: a missing bus stops it after
      the lookup, a failed or wrong identity read right after that read. */
  lemma InitStopsBeforeWrites(o: Oracle, log: seq<Call>)
    ensures var bind, id := Bind(I2c1), Read(WHO_AM_I);
            var idReply := o(log + [bind], id);
            var r := Run(InitPlan(), o, log);
            && (o(log, bind).err != 0 ==> r == Outcome(Failed(o(log, bind).err), log + [bind]))
            && (o(log, bind).err == 0 && idReply.err != 0 ==> r == Outcome(Failed(idReply.err), log + [bind, id]))
            && (o(log, bind).err == 0 && idReply.err == 0 && idReply.data != I_AM_LIS3DH ==>
                  r == Outcome(WrongValue(idReply.data), log + [bind, id]))
  {
    var bind, id := Bind(I2c1), Read(WHO_AM_I);
    InitPlanNested();
    var tail := ResetPlan() + (IdlePlan() + IrqLinePlan());
    RunCons(Single(bind), [VERIFY_ID] + tail, o, log);
    RunCons(VERIFY_ID, tail, o, log + [bind]);
    assert log + [bind] + [id] == log + [bind, id];
  }

  lemma ResetOps()
    ensures Ops(ResetPlan()) == RESET_TRACE
  {
    var p := ResetPlan();
    assert p[1..][1..] == [];
  }

  lemma IrqLineOps()
    ensures Ops(IrqLinePlan()) == IRQ_LINE_TRACE
  {
    var p := IrqLinePlan();
    assert p[1..][1..] == p[2..];
    assert p[2..][1..] == p[3..];
    assert p[3..][1..] == [];
  }

  /** Every call of the deferred initialiser, in order. */
  lemma InitOps()
    ensures Ops(InitPlan()) == INIT_TRACE
  {
    var a, b, c, d, e := [Single(Bind(I2c1))], VerifyIdPlan(), ResetPlan(), IdlePlan(), IrqLinePlan();
    InitPlanNested();
    OpsAppend(a, b + (c + (d + e)));
    OpsAppend(b, c + (d + e));
    OpsAppend(c, d + e);
    OpsAppend(d, e);
    assert Ops(a) == [Bind(I2c1)];
    assert Ops(b) == [Read(WHO_AM_I)];
    ResetOps();
    IdleOps();
    IrqLineOps();
  }

  /** The deferred initialiser's plan holds no state announcement. */
  lemma InitAnnouncesNothing()
    ensures SetState(Ready) !in Ops(InitPlan())
  {
    InitOps();
    assert SetState(Ready) !in IDLE_CTRL_WRITES;
    assert SetState(Ready) !in IDLE_TRACE;
    assert SetState(Ready) !in IDLE_TRACE + IRQ_LINE_TRACE;
    assert SetState(Ready) !in RESET_TRACE + (IDLE_TRACE + IRQ_LINE_TRACE);
  }

  /** When the deferred initialiser succeeds it has issued exactly
      `INIT_TRACE`: bus lookup, identity read, reset, the idle-mode trace,
      then the interrupt-line lookup, configuration, callback and enable. */
  lemma InitTrace(o: Oracle, log: seq<Call>)
    ensures Run(InitPlan(), o, log).status == Done ==>
      Run(InitPlan(), o, log).log == log + INIT_TRACE
  {
    RunDoneIssuesAll(InitPlan(), o, log);
    InitOps();
  }

  /** `InitPlan` grouped from the right, the order in which the initialiser
      takes its parts. */
  lemma InitPlanNested()
    ensures InitPlan() == [Single(Bind(I2c1))] + ([VERIFY_ID] + (ResetPlan() + (IdlePlan() + IrqLinePlan())))
  {
    var a, b, c, d, e := [Single(Bind(I2c1))], VerifyIdPlan(), ResetPlan(), IdlePlan(), IrqLinePlan();
    assert a + b + c + d + e == a + (b + (c + (d + e)));
  }

  /** How `wakeup_mode_set` takes its plan, stage by stage: the first stage
      whose code is non-zero ends the routine with that code, right after its
      own calls. `WakeupSteps` proves this is `Run` of `WakeupPlan`. */
  function WakeupInStages(o: Oracle, log: seq<Call>): Outcome {
    var w0, c1, c2 := Write(INT1_CFG, 0x00), WAKE_CTRL_WRITES, WAKE_THS_WRITES;
    var rf, ci, w5 := Read(REFERENCE_REG), Read(INT1_SRC), Write(INT1_CFG, 0x2A);
    var l1 := log + [w0];
    var l2 := l1 + c1;
    var l3 := l2 + c2;
    var l4 := l3 + [rf];
    var l5 := l4 + [ci];
    var e0, e1, e2 := o(log, w0).err, BlockErr(c1, o, l1), BlockErr(c2, o, l2);
    var e3, e4, e5 := o(l3, rf).err, o(l4, ci).err, o(l5, w5).err;
    if e0 != 0 then Outcome(Failed(e0), l1)
    else if e1 != 0 then Outcome(Failed(e1), l2)
    else if e2 != 0 then Outcome(Failed(e2), l3)
    else if e3 != 0 then Outcome(Failed(e3), l4)
    else if e4 != 0 then Outcome(Failed(e4), l5)
    else Outcome(StatusOf(e5), l5 + [w5])
  }

  /** Taking the wake-up plan stage by stage is running it whole. */
  lemma WakeupSteps(o: Oracle, log: seq<Call>)
    ensures Run(WakeupPlan(), o, log) == WakeupInStages(o, log)
  {
    var p := WakeupPlan();
    assert p[1..][1..] == p[2..];
    assert p[2..][1..] == p[3..];
    assert p[3..][1..] == p[4..];
    assert p[4..][1..] == p[5..];
    assert p[5..][1..] == [];
  }

  /** `Run` of `IdlePlan` stage by stage, as `WakeupSteps`. */
  lemma IdleSteps(o: Oracle, log: seq<Call>)
    ensures var w0, c1, ci, w3 := Write(INT1_CFG, 0x00), IDLE_CTRL_WRITES, Read(INT1_SRC), Write(CTRL_REG1, 0x08);
            var l1 := log + [w0];
            var l2 := l1 + c1;
            var l3 := l2 + [ci];
            var e0, e1, e2, e3 := o(log, w0).err, BlockErr(c1, o, l1), o(l2, ci).err, o(l3, w3).err;
            Run(IdlePlan(), o, log) ==
              if e0 != 0 then Outcome(Failed(e0), l1)
              else if e1 != 0 then Outcome(Failed(e1), l2)
              else if e2 != 0 then Outcome(Failed(e2), l3)
              else Outcome(StatusOf(e3), l3 + [w3])
  {
    var p := IdlePlan();
    assert p[1..][1..] == p[2..];
    assert p[2..][1..] == p[3..];
    assert p[3..][1..] == [];
  }

  /** `Run` of the interrupt-line part of `InitPlan` stage by stage. */
  lemma IrqLineSteps(o: Oracle, log: seq<Call>)
    ensures var b, c, a, e := Bind(GpioP0), Configure(IRQ_PIN, IRQ_PIN_FLAGS), AddCallback(IRQ_PIN), EnableCallback(IRQ_PIN);
            var l1 := log + [b];
            var l2 := l1 + [c];
            var l3 := l2 + [a];
            var e0, e1, e2, e3 := o(log, b).err, o(l1, c).err, o(l2, a).err, o(l3, e).err;
            Run(IrqLinePlan(), o, log) ==
              if e0 != 0 then Outcome(Failed(e0), l1)
              else if e1 != 0 then Outcome(Failed(e1), l2)
              else if e2 != 0 then Outcome(Failed(e2), l3)
              else Outcome(StatusOf(e3), l3 + [e])
  {
    var p := IrqLinePlan();
    assert p[1..][1..] == p[2..];
    assert p[2..][1..] == p[3..];
    assert p[3..][1..] == [];
  }

  /** How the deferred initialiser takes its plan: bus lookup, identity
      check, then the reset, idle and interrupt-line parts, each run only if
      everything before it succeeded. `InitSteps` proves this is `Run` of
      `InitPlan`. */
  function InitInParts(o: Oracle, log: seq<Call>): Outcome {
    var bind, id := Bind(I2c1), Read(WHO_AM_I);
    var l1 := log + [bind];
    var l2 := l1 + [id];
    var e0, v := o(log, bind).err, o(l1, id);
    var rs := Run(ResetPlan(), o, l2);
    var im := Run(IdlePlan(), o, rs.log);
    if e0 != 0 then Outcome(Failed(e0), l1)
    else if v.err != 0 then Outcome(Failed(v.err), l2)
    else if v.data != I_AM_LIS3DH then Outcome(WrongValue(v.data), l2)
    else if rs.status != Done then rs
    else if im.status != Done then im
    else Run(IrqLinePlan(), o, im.log)
  }

  /** Taking the initialiser's plan part by part is running it whole. */
  lemma InitSteps(o: Oracle, log: seq<Call>)
    ensures Run(InitPlan(), o, log) == InitInParts(o, log)
  {
    var bind, id := Bind(I2c1), Read(WHO_AM_I);
    InitPlanNested();
    var tail := ResetPlan() + (IdlePlan() + IrqLinePlan());
    RunCons(Single(bind), [VERIFY_ID] + tail, o, log);
    RunCons(VERIFY_ID, tail, o, log + [bind]);
    var l2 := log + [bind] + [id];
    RunAppend(ResetPlan(), IdlePlan() + IrqLinePlan(), o, l2);
    var rs := Run(ResetPlan(), o, l2);
    RunAppend(IdlePlan(), IrqLinePlan(), o, rs.log);
  }
}
