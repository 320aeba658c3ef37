// The health word (include/flowcan/types.h:33-45) and the node health DroneCAN reports from it.
module Health {

  const PMW_FAULT: bv16 := 0x0001
  const TOF_FAULT: bv16 := 0x0002
  const I2C_FAULT: bv16 := 0x0004
  const CAN_BUS_OFF: bv16 := 0x0008
  const CAN_RX_OVERFLOW: bv16 := 0x0010
  const CAN_TX_OVERFLOW: bv16 := 0x0020
  const SCHEDULER_LATE: bv16 := 0x0040
  const WATCHDOG_MISSED: bv16 := 0x0080
  const RTOS_STACK_LOW: bv16 := 0x0100
  const RTOS_FATAL: bv16 := 0x0200
  const UART_TX_OVERFLOW: bv16 := 0x0400

  /** The bits this build never sets. */
  const UNUSED: bv16 := SCHEDULER_LATE | WATCHDOG_MISSED | RTOS_STACK_LOW | RTOS_FATAL | 0xF800

  function Raise(h: bv16, mask: bv16): bv16 {
    h | mask
  }

  function Lower(h: bv16, mask: bv16): bv16 {
    h & !mask
  }

  predicate Any(h: bv16, mask: bv16) {
    h & mask != 0
  }

  datatype Severity = Ok | Warning | Error | Critical {
    function Level(): nat {
      match this case Ok => 0 case Warning => 1 case Error => 2 case Critical => 3
    }
  }

  /** node_health */
  function NodeHealth(h: bv16): Severity {
    if Any(h, CAN_BUS_OFF | RTOS_FATAL) then Critical
    else if Any(h, PMW_FAULT | TOF_FAULT | I2C_FAULT | RTOS_STACK_LOW) then Error
    else if h != 0 then Warning
    else Ok
  }

  /** Adding health bits never makes the node report itself healthier. */
  lemma SeverityNeverFalls(h: bv16, added: bv16)
    ensures NodeHealth(Raise(h, added)).Level() >= NodeHealth(h).Level()
  {
    RaiseExactly(h, added, CAN_BUS_OFF | RTOS_FATAL);
    RaiseExactly(h, added, PMW_FAULT | TOF_FAULT | I2C_FAULT | RTOS_STACK_LOW);
    RaiseExactly(h, added, 0xFFFF);
  }

  /** Clearing everything reported is the only way to OK, and a level is reported exactly when one of its bits is set. */
  lemma SeverityExactly(h: bv16)
    ensures NodeHealth(h) == Critical <==> Any(h, CAN_BUS_OFF) || Any(h, RTOS_FATAL)
    ensures NodeHealth(h).Level() >= 2 <==>
            || Any(h, CAN_BUS_OFF) || Any(h, RTOS_FATAL) || Any(h, PMW_FAULT)
            || Any(h, TOF_FAULT) || Any(h, I2C_FAULT) || Any(h, RTOS_STACK_LOW)
    ensures NodeHealth(h) == Ok <==> h == 0
  {}

  /** Raising sets exactly the bits of the mask, for every single bit or set of bits asked about. */
  lemma RaiseExactly(h: bv16, mask: bv16, m: bv16)
    ensures Any(Raise(h, mask), m) <==> Any(h, m) || Any(mask, m)
  {
    assert (h | mask) & m == (h & m) | (mask & m);
  }

  lemma LowerExactly(h: bv16, mask: bv16, m: bv16)
    ensures m & mask == 0 ==> (Any(Lower(h, mask), m) <==> Any(h, m))
    ensures m & !mask == 0 ==> !Any(Lower(h, mask), m)
  {}

  /** The bits of the word by name; spare is set when any bit this build never sets is. */
  datatype Flags = Flags(pmw: bool, tof: bool, i2c: bool, busOff: bool, rxOverflow: bool, txOverflow: bool,
                         uartOverflow: bool, spare: bool)

  function Read(h: bv16): Flags {
    Flags(Any(h, PMW_FAULT), Any(h, TOF_FAULT), Any(h, I2C_FAULT), Any(h, CAN_BUS_OFF), Any(h, CAN_RX_OVERFLOW),
          Any(h, CAN_TX_OVERFLOW), Any(h, UART_TX_OVERFLOW), Any(h, UNUSED))
  }

  /** Raising a mask sets the bits it names and no others. */
  lemma RaiseReads(h: bv16, mask: bv16)
    ensures var f, m, r := Read(h), Read(mask), Read(Raise(h, mask));
            r == Flags(f.pmw || m.pmw, f.tof || m.tof, f.i2c || m.i2c, f.busOff || m.busOff,
                       f.rxOverflow || m.rxOverflow, f.txOverflow || m.txOverflow,
                       f.uartOverflow || m.uartOverflow, f.spare || m.spare)
  {
    RaiseExactly(h, mask, PMW_FAULT);
    RaiseExactly(h, mask, TOF_FAULT);
    RaiseExactly(h, mask, I2C_FAULT);
    RaiseExactly(h, mask, CAN_BUS_OFF);
    RaiseExactly(h, mask, CAN_RX_OVERFLOW);
    RaiseExactly(h, mask, CAN_TX_OVERFLOW);
    RaiseExactly(h, mask, UART_TX_OVERFLOW);
    RaiseExactly(h, mask, UNUSED);
    hide Raise, Any;
  }

  lemma RaisePmw(h: bv16)
    ensures Read(Raise(h, PMW_FAULT)) == Read(h).(pmw := true)
  {
    MaskReads();
    hide Read, Raise;
    RaiseReads(h, PMW_FAULT);
  }

  lemma RaiseTof(h: bv16)
    ensures Read(Raise(h, TOF_FAULT | I2C_FAULT)) == Read(h).(tof := true, i2c := true)
  {
    MaskReads();
    hide Read, Raise;
    RaiseReads(h, TOF_FAULT | I2C_FAULT);
  }

  lemma RaiseBusOff(h: bv16)
    ensures Read(Raise(h, CAN_BUS_OFF)) == Read(h).(busOff := true)
  {
    MaskReads();
    hide Read, Raise;
    RaiseReads(h, CAN_BUS_OFF);
  }

  lemma RaiseRx(h: bv16)
    ensures Read(Raise(h, CAN_RX_OVERFLOW)) == Read(h).(rxOverflow := true)
  {
    MaskReads();
    hide Read, Raise;
    RaiseReads(h, CAN_RX_OVERFLOW);
  }

  lemma RaiseTx(h: bv16)
    ensures Read(Raise(h, CAN_TX_OVERFLOW)) == Read(h).(txOverflow := true)
  {
    MaskReads();
    hide Read, Raise;
    RaiseReads(h, CAN_TX_OVERFLOW);
  }

  lemma RaiseUart(h: bv16)
    ensures Read(Raise(h, UART_TX_OVERFLOW)) == Read(h).(uartOverflow := true)
  {
    MaskReads();
    hide Read, Raise;
    RaiseReads(h, UART_TX_OVERFLOW);
  }

  lemma LowerChanges(h: bv16)
    ensures Read(Lower(h, PMW_FAULT)) == Read(h).(pmw := false)
    ensures Read(Lower(h, TOF_FAULT | I2C_FAULT)) == Read(h).(tof := false, i2c := false)
    ensures Read(Lower(h, CAN_BUS_OFF)) == Read(h).(busOff := false)
  {
    MaskReads();
    hide Read, Lower;
    LowerReads(h, PMW_FAULT);
    LowerReads(h, TOF_FAULT | I2C_FAULT);
    LowerReads(h, CAN_BUS_OFF);
  }

  /** Lowering clears the bits a mask of single bits names and no others. */
  lemma LowerReads(h: bv16, mask: bv16)
    requires mask & UNUSED == 0
    ensures var f, m, r := Read(h), Read(mask), Read(Lower(h, mask));
            r == Flags(f.pmw && !m.pmw, f.tof && !m.tof, f.i2c && !m.i2c, f.busOff && !m.busOff,
                       f.rxOverflow && !m.rxOverflow, f.txOverflow && !m.txOverflow,
                       f.uartOverflow && !m.uartOverflow, f.spare)
  {
    LowerBit(h, mask, PMW_FAULT);
    LowerBit(h, mask, TOF_FAULT);
    LowerBit(h, mask, I2C_FAULT);
    LowerBit(h, mask, CAN_BUS_OFF);
    LowerBit(h, mask, CAN_RX_OVERFLOW);
    LowerBit(h, mask, CAN_TX_OVERFLOW);
    LowerBit(h, mask, UART_TX_OVERFLOW);
    LowerExactly(h, mask, UNUSED);
    assert UNUSED & mask == 0;
    hide Lower, Any;
  }

  lemma LowerBit(h: bv16, mask: bv16, bit: bv16)
    requires bit & mask == 0 || bit & mask == bit
    ensures Any(Lower(h, mask), bit) <==> Any(h, bit) && !Any(mask, bit)
  {
    LowerExactly(h, mask, bit);
    if bit & mask == bit {
      NothingOutside(bit, mask);
    }
    assert mask & bit == bit & mask;
    hide Lower;
  }

  lemma NothingOutside(bit: bv16, mask: bv16)
    requires bit & mask == bit
    ensures bit & !mask == 0
  {}

  /** The masks of the main loop, read as flags. */
  lemma MaskReads()
    ensures Read(PMW_FAULT) == Flags(true, false, false, false, false, false, false, false)
    ensures Read(TOF_FAULT | I2C_FAULT) == Flags(false, true, true, false, false, false, false, false)
    ensures Read(CAN_BUS_OFF) == Flags(false, false, false, true, false, false, false, false)
    ensures Read(CAN_RX_OVERFLOW) == Flags(false, false, false, false, true, false, false, false)
    ensures Read(CAN_TX_OVERFLOW) == Flags(false, false, false, false, false, true, false, false)
    ensures Read(UART_TX_OVERFLOW) == Flags(false, false, false, false, false, false, true, false)
  {}

  /** What the reported node health says about a word with no spare bits. */
  lemma SeverityRead(h: bv16)
    requires !Read(h).spare
    ensures NodeHealth(h) == var f := Read(h);
            if f.busOff then Critical
            else if f.pmw || f.tof || f.i2c then Error
            else if f.rxOverflow || f.txOverflow || f.uartOverflow then Warning
            else Ok
  {}
}
