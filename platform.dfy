/** The services the LIS3DH driver calls but does not implement: the I2C
    register transport, device lookup, the GPIO interrupt line, the module
    state announcements and the system work queue. Every call is appended to
    one log, so the order of bus operations, GPIO set-up and announcements is
    observable in a single trace, and every answer comes from an oracle that
    may depend on everything issued before. */
module Platform {

  /** An 8-bit register address or register value (`u8_t`). */
  newtype Byte = x: int | 0 <= x < 256

  /** A C `int` status as the Zephyr APIs return it: 0 on success, a negative
      errno otherwise. Kept as 32-bit two's complement so that the driver's
      `err |=` accumulation is modelled bit for bit. */
  type ErrCode = bv32

  /** The devices the driver looks up by name. */
  datatype Device = I2c1 | GpioP0

  /** The configuration flags the driver passes for its interrupt pin. */
  datatype PinFlag = DirIn | Int | IntLevel | IntActiveHigh | IntDebounce

  /** The module states of the application's module-state events. */
  datatype ModuleState = Ready | Standby | Off | Error

  /** One call into the platform. Register operations always address the
      sensor at its fixed bus address 0x19, so the address is left out. */
  datatype Call =
    | Read(reg: Byte)                           // i2c_reg_read_byte
    | Write(reg: Byte, val: Byte)               // i2c_reg_write_byte
    | Bind(dev: Device)                         // device_get_binding
    | Configure(pin: nat, flags: set<PinFlag>)  // gpio_pin_configure
    | AddCallback(pin: nat)                     // gpio_add_callback
    | EnableCallback(pin: nat)                  // gpio_pin_enable_callback
    | SetState(state: ModuleState)              // module_set_state
    | SubmitInit                                // k_work_submit(&accel_async_init)

  /** The platform's answer to a call: its status code and, for a register
      read, the byte read. A failed `Bind` (a NULL device) is a non-zero code. */
  datatype Reply = Reply(err: ErrCode, data: Byte)

  /** How the platform answers a call, given every call issued before it. */
  type Oracle = (seq<Call>, Call) -> Reply

  class Hal {
    /** Every call issued so far, oldest first. */
    var log: seq<Call>
    const oracle: Oracle

    constructor (oracle: Oracle)
      ensures log == [] && this.oracle == oracle
    {
      log := [];
      this.oracle := oracle;
    }

    method RegRead(reg: Byte) returns (err: ErrCode, val: Byte)
      modifies this
      ensures log == old(log) + [Read(reg)]
      ensures Reply(err, val) == oracle(old(log), Read(reg))
    {
      var r := oracle(log, Read(reg));
      log := log + [Read(reg)];
      err, val := r.err, r.data;
    }

    method RegWrite(reg: Byte, val: Byte) returns (err: ErrCode)
      modifies this
      ensures log == old(log) + [Write(reg, val)]
      ensures err == oracle(old(log), Write(reg, val)).err
    {
      err := oracle(log, Write(reg, val)).err;
      log := log + [Write(reg, val)];
    }

    method GetBinding(dev: Device) returns (found: bool)
      modifies this
      ensures log == old(log) + [Bind(dev)]
      ensures found <==> oracle(old(log), Bind(dev)).err == 0
    {
      found := oracle(log, Bind(dev)).err == 0;
      log := log + [Bind(dev)];
    }

    method PinConfigure(pin: nat, flags: set<PinFlag>) returns (err: ErrCode)
      modifies this
      ensures log == old(log) + [Configure(pin, flags)]
      ensures err == oracle(old(log), Configure(pin, flags)).err
    {
      err := oracle(log, Configure(pin, flags)).err;
      log := log + [Configure(pin, flags)];
    }

    method AddCallback(pin: nat) returns (err: ErrCode)
      modifies this
      ensures log == old(log) + [Call.AddCallback(pin)]
      ensures err == oracle(old(log), Call.AddCallback(pin)).err
    {
      err := oracle(log, Call.AddCallback(pin)).err;
      log := log + [Call.AddCallback(pin)];
    }

    method EnableCallback(pin: nat) returns (err: ErrCode)
      modifies this
      ensures log == old(log) + [Call.EnableCallback(pin)]
      ensures err == oracle(old(log), Call.EnableCallback(pin)).err
    {
      err := oracle(log, Call.EnableCallback(pin)).err;
      log := log + [Call.EnableCallback(pin)];
    }

    method SetModuleState(state: ModuleState)
      modifies this
      ensures log == old(log) + [SetState(state)]
    {
      log := log + [SetState(state)];
    }

    method SubmitWork()
      modifies this
      ensures log == old(log) + [SubmitInit]
    {
      log := log + [SubmitInit];
    }
  }
}
