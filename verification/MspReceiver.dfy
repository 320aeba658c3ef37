// The parser object of protocol/msp.c: its fields and its 64-byte payload are updated in place.
// Every call is proved to do what MspParser.Consume says.
module MspReceiver {
  import opened Common
  import opened Bytes
  import opened Crc8
  import opened Msp
  import opened MspParser

  class FrameBuffer {
    var command: u16
    var payloadLength: u16
    const payload: array<byte>

    ghost function View(): Frame
      reads this, payload
    {
      Frame(command, payloadLength, payload[..])
    }

    constructor ()
      ensures fresh(payload) && payload.Length == MAX_PAYLOAD
      ensures View() == INITIAL.frame
    {
      command, payloadLength := 0, 0;
      payload := new byte[MAX_PAYLOAD](_ => 0);
    }
  }

  class Receiver {
    var state: State
    const frame: FrameBuffer
    var offset: nat
    var crc: bv8

    ghost function View(): Parser
      reads this, frame, frame.payload
    {
      Parser(state, frame.View(), offset, crc)
    }

    ghost predicate Valid()
      reads this, frame, frame.payload
    {
      View().Valid()
    }

    constructor ()
      ensures fresh(frame) && fresh(frame.payload)
      ensures Valid() && View() == INITIAL
    {
      state, offset, crc := Idle, 0, 0;
      frame := new FrameBuffer();
    }

    method ParserReset()
      modifies this
      ensures View() == Reset(old(View()))
    {
      state, offset, crc := Idle, 0, 0;
    }

    method Take(b: byte)
      modifies this`crc
      ensures crc == CrcByte(old(crc), b)
    {
      crc := Crc8DvbS2(crc, b);
    }

    /** *out = p->frame */
    method HandOver(out: FrameBuffer)
      requires out != frame && out.payload != frame.payload
      requires out.payload.Length == frame.payload.Length
      modifies out, out.payload
      ensures out.View() == frame.View()
    {
      out.command, out.payloadLength := frame.command, frame.payloadLength;
      forall k | 0 <= k < frame.payload.Length {
        out.payload[k] := frame.payload[k];
      }
    }

    /** The calls that take the bytes from the dollar sign to the length field. */
    method HeaderByte(b: byte)
      requires Valid() && state != Payload && state != Check
      modifies this, frame
      ensures View() == MspParser.Consume(old(View()), b).0 && MspParser.Consume(old(View()), b).1 == None
    {
      hide CrcByte, Value;
      match state {
        case Idle => state := if b == DOLLAR then X else Idle;
        case X => state := if b == LETTER_X then Direction else Idle;
        case Direction => state := if b == LESS_THAN then Flags else Idle;
        case Flags =>
          crc := Crc8DvbS2(0, b);
          state := CommandLo;
        case CommandLo =>
          frame.command := Value(b);
          Take(b);
          state := CommandHi;
        case CommandHi =>
          frame.command := frame.command + 256 * Value(b);
          Take(b);
          state := LengthLo;
        case LengthLo =>
          frame.payloadLength := Value(b);
          Take(b);
          state := LengthHi;
        case LengthHi =>
          frame.payloadLength := frame.payloadLength + 256 * Value(b);
          Take(b);
          if frame.payloadLength > MAX_PAYLOAD {
            ParserReset();
          } else {
            state := if frame.payloadLength == 0 then Check else Payload;
          }
      }
    }

    method PayloadByte(b: byte)
      requires Valid() && state == Payload
      modifies this, frame.payload
      ensures View() == MspParser.Consume(old(View()), b).0 && MspParser.Consume(old(View()), b).1 == None
    {
      hide CrcByte;
      frame.payload[offset] := b;
      offset := offset + 1;
      Take(b);
      if offset == frame.payloadLength {
        state := Check;
      }
    }

    method Consume(b: byte, out: FrameBuffer) returns (done: bool)
      requires Valid()
      requires out != frame && out.payload != frame.payload && out.payload.Length == MAX_PAYLOAD
      modifies this, frame, frame.payload, out, out.payload
      ensures Valid()
      ensures var (p, result) := MspParser.Consume(old(View()), b);
              && View() == p
              && done == result.Some?
              && out.View() == (if done then result.value else old(out.View()))
    {
      ConsumeKeepsValid(View(), b);
      match state {
        case Payload => PayloadByte(b);
        case Check =>
          if b == crc {
            HandOver(out);
            ParserReset();
            return true;
          }
          ParserReset();
        case _ => HeaderByte(b);
      }
      return false;
    }
  }
}
