// The byte-at-a-time MSP V2 parser of protocol/msp.c, and its relation to the grammar of Msp.
module MspParser {
  import opened Common
  import opened Bytes
  import opened Crc8
  import opened Msp

  datatype State =
    | Idle | X | Direction | Flags | CommandLo | CommandHi | LengthLo | LengthHi | Payload | Check

  /** The frame buffer: a fixed payload of 64 bytes of which only the first payloadLength matter. */
  datatype Frame = Frame(command: u16, payloadLength: u16, payload: seq<byte>) {
    function Body(): Message
      requires payloadLength <= |payload|
    {
      Message(command, payload[..payloadLength])
    }
  }

  datatype Parser = Parser(state: State, frame: Frame, offset: nat, crc: bv8) {
    /** What every caller can rely on: the payload index stays inside the length and the buffer. */
    predicate Valid() {
      && |frame.payload| == MAX_PAYLOAD
      && (state == Payload ==> offset < frame.payloadLength <= MAX_PAYLOAD)
      && (state == Check ==> offset == frame.payloadLength <= MAX_PAYLOAD)
      && (state != Payload && state != Check ==> offset == 0)
      && (state == CommandHi ==> frame.command < 256)
      && (state == LengthHi ==> frame.payloadLength < 256)
    }
  }

  function Reset(p: Parser): Parser {
    p.(state := Idle, offset := 0, crc := 0)
  }

  /** The parser after one byte, and the frame it hands over when the byte completes one. */
  function Consume(p: Parser, b: byte): (r: (Parser, Option<Frame>))
    requires p.Valid()
  {
    var next := CrcByte(p.crc, b);
    match p.state
    case Idle => (p.(state := if b == DOLLAR then X else Idle), None)
    case X => (p.(state := if b == LETTER_X then Direction else Idle), None)
    case Direction => (p.(state := if b == LESS_THAN then Flags else Idle), None)
    case Flags => (p.(crc := CrcByte(0, b), state := CommandLo), None)
    case CommandLo => (p.(frame := p.frame.(command := Value(b)), crc := next, state := CommandHi), None)
    case CommandHi =>
      (p.(frame := p.frame.(command := p.frame.command + 256 * Value(b)), crc := next, state := LengthLo), None)
    case LengthLo => (p.(frame := p.frame.(payloadLength := Value(b)), crc := next, state := LengthHi), None)
    case LengthHi =>
      var length := p.frame.payloadLength + 256 * Value(b);
      var q := p.(frame := p.frame.(payloadLength := length), crc := next);
      if length > MAX_PAYLOAD then (Reset(q), None)
      else (q.(state := if length == 0 then Check else Payload), None)
    case Payload =>
      var q := p.(frame := p.frame.(payload := p.frame.payload[p.offset := b]), offset := p.offset + 1, crc := next);
      (if q.offset == q.frame.payloadLength then q.(state := Check) else q, None)
    case Check => (Reset(p), if b == p.crc then Some(p.frame) else None)
  }

  lemma ConsumeKeepsValid(p: Parser, b: byte)
    requires p.Valid()
    ensures Consume(p, b).0.Valid()
    ensures Consume(p, b).1.Some? ==>
              var f := Consume(p, b).1.value; f.payloadLength <= |f.payload| == MAX_PAYLOAD
  {
    hide CrcByte, Value;
  }

  /** The parser after a whole stream. */
  function After(p: Parser, s: seq<byte>): (r: Parser)
    requires p.Valid()
    ensures r.Valid()
    decreases s
  {
    if s == [] then p else
      ConsumeKeepsValid(p, s[0]);
      After(Consume(p, s[0]).0, s[1..])
  }

  /** What one call hands over, as a list of at most one message. */
  function Output1(p: Parser, b: byte): (r: seq<Message>)
    requires p.Valid()
  {
    ConsumeKeepsValid(p, b);
    match Consume(p, b).1
    case None => []
    case Some(f) => [f.Body()]
  }

  /** The messages handed over while a whole stream is consumed. */
  function Output(p: Parser, s: seq<byte>): seq<Message>
    requires p.Valid()
    decreases s
  {
    if s == [] then [] else
      ConsumeKeepsValid(p, s[0]);
      Output1(p, s[0]) + Output(Consume(p, s[0]).0, s[1..])
  }

  lemma {:induction false} RunConcat(p: Parser, s: seq<byte>, t: seq<byte>)
    requires p.Valid()
    ensures After(p, s + t) == After(After(p, s), t)
    ensures Output(p, s + t) == Output(p, s) + Output(After(p, s), t)
    decreases s
  {
    if s == [] {
      assert s + t == t;
    } else {
      ConsumeKeepsValid(p, s[0]);
      hide Consume, Output1, Parser.Valid;
      assert (s + t)[0] == s[0] && (s + t)[1..] == s[1..] + t;
      RunConcat(Consume(p, s[0]).0, s[1..], t);
    }
  }

  // ---------------------------------------------------------------- what the parser remembers

  function StateAt(n: nat, length: nat): State {
    if n == 0 then Idle else if n == 1 then X else if n == 2 then Direction else if n == 3 then Flags
    else if n == 4 then CommandLo else if n == 5 then CommandHi else if n == 6 then LengthLo
    else if n == 7 then LengthHi else if n < 8 + length then Payload else Check
  }

  /** t is the part of the stream that the parser p has taken in but not yet decided on. */
  ghost predicate Pending(p: Parser, t: seq<byte>) {
    && p.Valid()
    && (|t| >= 1 ==> t[0] == DOLLAR)
    && (|t| >= 2 ==> t[1] == LETTER_X)
    && (|t| >= 3 ==> t[2] == LESS_THAN)
    && p.state == StateAt(|t|, if |t| >= 8 then p.frame.payloadLength else 0)
    && (|t| >= 4 ==> p.crc == Crc(0, t[3..]))
    && (|t| == 5 ==> p.frame.command == Value(t[4]))
    && (|t| >= 6 ==> p.frame.command == Word(t[4], t[5]))
    && (|t| == 7 ==> p.frame.payloadLength == Value(t[6]))
    && (|t| >= 8 ==>
          && p.frame.payloadLength == Word(t[6], t[7])
          && |t| == 8 + p.offset
          && p.frame.payload[..p.offset] == t[8..])
  }

  lemma PendingIsUnfinished(p: Parser, t: seq<byte>)
    requires Pending(p, t)
    ensures ScanFront(t) == More
  {
    hide Crc, Value;
  }

  /** The stored CRC after one more covered byte. */
  lemma CrcFollows(t: seq<byte>, b: byte)
    requires |t| >= 3
    ensures Crc(0, (t + [b])[3..]) == CrcByte(if |t| == 3 then 0 else Crc(0, t[3..]), b)
  {
    hide CrcByte;
    assert (t + [b])[3..] == t[3..] + [b];
    CrcSnoc(0, t[3..], b);
  }

  lemma PayloadExtends(p: Parser, t: seq<byte>, b: byte)
    requires Pending(p, t) && p.state == Payload
    ensures Consume(p, b).1 == None && Pending(Consume(p, b).0, t + [b])
  {
    hide Crc, CrcByte, Value;
    ConsumeKeepsValid(p, b);
    CrcFollows(t, b);
    assert (t + [b])[8..] == t[8..] + [b];
  }

  lemma HeaderExtends(p: Parser, t: seq<byte>, b: byte)
    requires Pending(p, t) && |t| < 8 && Consume(p, b).0.state != Idle
    ensures Consume(p, b).1 == None && Pending(Consume(p, b).0, t + [b])
  {
    hide Crc, CrcByte, Value;
    ConsumeKeepsValid(p, b);
    if |t| >= 3 {
      CrcFollows(t, b);
    }
  }

  /** While the parser is inside a message it extends what is pending by the byte it takes. */
  lemma ConsumeExtends(p: Parser, t: seq<byte>, b: byte)
    requires Pending(p, t) && Consume(p, b).0.state != Idle
    ensures Consume(p, b).1 == None && Pending(Consume(p, b).0, t + [b])
  {
    hide Crc, CrcByte, Value;
    if |t| < 8 {
      HeaderExtends(p, t, b);
    } else {
      PayloadExtends(p, t, b);
    }
  }

  /** When it returns to idle, the pending bytes and the new one are what the grammar takes off the front. */
  lemma ConsumeDecides(p: Parser, t: seq<byte>, b: byte, rest: seq<byte>)
    requires Pending(p, t) && Consume(p, b).0.state == Idle
    ensures Pending(Consume(p, b).0, [])
    ensures ScanFront(t + [b] + rest) ==
            match Consume(p, b).1 {
              case None => Skip(|t| + 1)
              case Some(f) => Good(|t| + 1, f.Body())
            }
  {
    hide Crc, CrcByte, Value;
    ConsumeKeepsValid(p, b);
    var s := t + [b] + rest;
    assert forall k :: 0 <= k < |t| ==> s[k] == t[k];
    assert s[|t|] == b;
    if p.state == Check {
      assert s[3..|t|] == t[3..];
      assert s[8..|t|] == t[8..];
    }
  }

  lemma PendingValid(p: Parser, t: seq<byte>)
    requires Pending(p, t)
    ensures p.Valid()
  {}

  /**
   * Streaming refines the grammar: from any point, the parser hands over the messages of the pending bytes
   * and the rest of the stream, and what it then remembers is the unfinished message at the end.
   */
  lemma {:induction false} RunRefinesGrammar(p: Parser, t: seq<byte>, s: seq<byte>)
    requires Pending(p, t) && p.Valid()
    ensures Output(p, s) == Messages(t + s)
    ensures Pending(After(p, s), Residue(t + s))
    decreases s
  {
    hide Consume, Pending, ScanFront;
    if s == [] {
      assert t + s == t;
      PendingIsUnfinished(p, t);
    } else {
      var b := s[0];
      assert t + s == t + [b] + s[1..];
      ConsumeKeepsValid(p, b);
      if Consume(p, b).0.state == Idle {
        ConsumeDecides(p, t, b, s[1..]);
        RunRefinesGrammar(Consume(p, b).0, [], s[1..]);
        assert [] + s[1..] == s[1..];
        assert (t + s)[|t| + 1..] == s[1..];
      } else {
        ConsumeExtends(p, t, b);
        RunRefinesGrammar(Consume(p, b).0, t + [b], s[1..]);
      }
    }
  }

  /** msp_parser_init: every field zero. */
  const INITIAL := Parser(Idle, Frame(0, 0, Blank()), 0, 0)

  function Blank(): (r: seq<byte>)
    ensures |r| == MAX_PAYLOAD && forall k :: 0 <= k < |r| ==> r[k] == 0
  {
    seq(MAX_PAYLOAD, _ => 0)
  }

  lemma InitialPending()
    ensures Pending(INITIAL, [])
  {}

  /** For every byte stream, a fresh parser hands over exactly the messages of the grammar. */
  lemma StreamDecodes(s: seq<byte>)
    ensures Output(INITIAL, s) == Messages(s)
    ensures Pending(After(INITIAL, s), Residue(s))
  {
    hide *;
    InitialPending();
    PendingValid(INITIAL, []);
    RunRefinesGrammar(INITIAL, [], s);
    assert [] + s == s;
  }

  /** Encoded messages separated by dollar-free noise come out of a fresh parser in order, none lost or added. */
  lemma EncodedStreamDecodes(items: seq<(seq<byte>, Message)>, tail: seq<byte>)
    requires forall k :: 0 <= k < |items| ==> DollarFree(items[k].0) && items[k].1.Valid()
    requires DollarFree(tail)
    ensures Output(INITIAL, Join(items) + tail) == Bodies(items)
  {
    hide After, Output, Messages, INITIAL, Join, Bodies;
    StreamDecodes(Join(items) + tail);
    JoinedMessagesDecode(items, tail);
  }

  // ---------------------------------------------------------------- self-stabilisation

  /** An upper bound on the bytes until the parser is idle again. */
  function Remaining(p: Parser): nat
    requires p.Valid()
  {
    match p.state
    case Idle => 0
    case X => 72
    case Direction => 71
    case Flags => 70
    case CommandLo => 69
    case CommandHi => 68
    case LengthLo => 67
    case LengthHi => 66
    case Payload => p.frame.payloadLength - p.offset + 1
    case Check => 1
  }

  lemma RemainingDrops(p: Parser, b: byte)
    requires p.Valid()
    ensures Consume(p, b).0.Valid()
    ensures p.state != Idle ==> Remaining(Consume(p, b).0) < Remaining(p) <= 72
    ensures p.state == Idle && b != DOLLAR ==> Consume(p, b).0.state == Idle
  {
    hide CrcByte, Value;
    ConsumeKeepsValid(p, b);
  }

  /** Dollar-free bytes bring any parser back to idle within its remaining count. */
  lemma {:induction false} Settles(p: Parser, s: seq<byte>)
    requires p.Valid() && DollarFree(s) && |s| >= Remaining(p)
    ensures After(p, s).Valid() && After(p, s).state == Idle
    decreases s
  {
    hide Consume;
    if s != [] {
      RemainingDrops(p, s[0]);
      Settles(Consume(p, s[0]).0, s[1..]);
    }
  }

  lemma {:induction false} RemainingBound(p: Parser)
    requires p.Valid()
    ensures Remaining(p) <= 72
  {}

  lemma IdleIsFresh(p: Parser)
    requires p.Valid() && p.state == Idle
    ensures Pending(p, [])
  {}

  lemma UnfinishedMessage(m: Message, k: nat)
    requires m.Valid() && k < 9 + |m.payload|
    ensures ScanFront(Encode(m)[..k]) == More
  {
    hide Crc, Value, Low, High;
    var s := Encode(m)[..k];
    WordRoundTrip(|m.payload|);
    assert forall i :: 0 <= i < k && i < 8 ==> s[i] == Header(m.command, |m.payload|)[i];
  }

  /** The call that takes byte b returns true and hands over m. */
  ghost predicate Returns(p: Parser, b: byte, m: Message)
    requires p.Valid()
  {
    var out := Consume(p, b).1;
    out.Some? && out.value.payloadLength <= |out.value.payload| && out.value.Body() == m
  }

  lemma SingleByte(p: Parser, b: byte, m: Message)
    requires p.Valid() && Output(p, [b]) == [m]
    ensures Returns(p, b, m)
  {
    hide Consume;
    ConsumeKeepsValid(p, b);
    assert [b][1..] == [];
    assert Output(p, [b]) == Output1(p, b) + Output(Consume(p, b).0, []) == Output1(p, b);
    assert [m][0] == m;
  }

  lemma EncodedAlone(m: Message)
    requires m.Valid()
    ensures Messages(Encode(m)) == [m] && Residue(Encode(m)) == []
  {
    hide Encode, ScanFront;
    var s := Encode(m);
    EncodedIsScanned(m, []);
    assert s + [] == s && s[|s|..] == [];
    NothingToScan();
  }

  lemma NothingToScan()
    ensures ScanFront([]) == More
  {}

  lemma NoMessageYet(m: Message, k: nat)
    requires m.Valid() && k < 9 + |m.payload|
    ensures Messages(Encode(m)[..k]) == []
  {
    hide Encode, ScanFront;
    UnfinishedMessage(m, k);
  }

  /** From an idle parser, an encoded message is handed over by its last byte and by no byte before it. */
  lemma IdleParserReads(p: Parser, m: Message)
    requires p.Valid() && p.state == Idle && m.Valid()
    ensures var s := Encode(m);
            var n := |s| - 1;
            && Output(p, s[..n]) == []
            && Returns(After(p, s[..n]), s[n], m)
            && After(p, s).state == Idle
  {
    hide Encode, Messages, Residue, Pending, Consume, After, Output;
    var s := Encode(m);
    var n := |s| - 1;
    IdleIsFresh(p);
    RunRefinesGrammar(p, [], s[..n]);
    assert [] + s[..n] == s[..n];
    NoMessageYet(m, n);
    RunRefinesGrammar(p, [], s);
    assert [] + s == s;
    EncodedAlone(m);
    PendingNothing(After(p, s));
    var q := After(p, s[..n]);
    RunConcat(p, s[..n], [s[n]]);
    assert s == s[..n] + [s[n]];
    SingleByte(q, s[n], m);
  }

  lemma PendingNothing(p: Parser)
    requires Pending(p, [])
    ensures p.Valid() && p.state == Idle
  {}

  /** After any stream at all, 72 dollar-free bytes and one encoded message make the last call return that message. */
  lemma Resynchronises(before: seq<byte>, noise: seq<byte>, m: Message)
    requires DollarFree(noise) && |noise| >= 72 && m.Valid()
    ensures var s := before + noise + Encode(m);
            var n := |s| - 1;
            && Output(INITIAL, s[..n]) == Output(INITIAL, before + noise)
            && Returns(After(INITIAL, s[..n]), s[n], m)
  {
    hide Encode, Consume, Pending, After, Output, Remaining, Returns;
    InitialPending();
    PendingValid(INITIAL, []);
    RunConcat(INITIAL, before, noise);
    var p := After(INITIAL, before);
    RemainingBound(p);
    Settles(p, noise);
    var q := After(p, noise);
    IdleParserReads(q, m);
    var f := Encode(m);
    var s := before + noise + f;
    assert s[..|s| - 1] == (before + noise) + f[..|f| - 1];
    RunConcat(INITIAL, before + noise, f[..|f| - 1]);
  }

  // ---------------------------------------------------------------- when exactly a message is read

  /** What is unfinished is only decided by later bytes. */
  lemma DecisionIsLater(t: seq<byte>, u: seq<byte>)
    requires ScanFront(t) == More
    ensures match ScanFront(t + u) { case More => true case Skip(c) => c > |t| case Good(c, _) => c > |t| }
  {
    hide Crc, Word;
    assert forall k :: 0 <= k < |t| ==> (t + u)[k] == t[k];
  }

  /** So the bytes after an unfinished message never are the unfinished rest by themselves. */
  lemma NoFreshStart(t: seq<byte>, u: seq<byte>)
    requires ScanFront(t) == More && t != []
    ensures |Residue(t + u)| != |u|
  {
    DecisionIsLater(t, u);
    hide ScanFront;
  }

  /** A call that hands over m ends a message begun |m.payload| + 9 bytes before. */
  lemma ReturnMeansWholeMessage(q: Parser, r: seq<byte>, b: byte, m: Message)
    requires Pending(q, r) && q.Valid() && Returns(q, b, m)
    ensures |r| == 8 + |m.payload|
  {
    hide Crc, CrcByte, Value, Word;
    assert q.state == Check;
  }

  /**
   * From any point of any stream: the last byte of an encoded message hands the message over exactly when the parser
   * was idle at its first byte.
   */
  lemma ReadExactlyWhenIdle(p: Parser, t: seq<byte>, m: Message)
    requires m.Valid() && Pending(p, t) && p.Valid()
    ensures var n := |Encode(m)| - 1;
            Returns(After(p, Encode(m)[..n]), Encode(m)[n], m) <==> p.state == Idle
  {
    var e := Encode(m);
    var n := |e| - 1;
    var q := After(p, e[..n]);
    PendingIsUnfinished(p, t);
    assert p.state == Idle <==> t == [];
    hide Encode, Consume, Pending, After, Output, Returns, ScanFront;
    if p.state == Idle {
      IdleParserReads(p, m);
    } else if Returns(q, e[n], m) {
      RunRefinesGrammar(p, t, e[..n]);
      ReturnMeansWholeMessage(q, Residue(t + e[..n]), e[n], m);
      NoFreshStart(t, e[..n]);
    }
  }

  /** In terms of the stream so far: exactly when nothing in it is unfinished. */
  lemma ReadExactlyWhenNothingPending(before: seq<byte>, m: Message)
    requires m.Valid()
    ensures var n := |Encode(m)| - 1;
            Returns(After(INITIAL, before + Encode(m)[..n]), Encode(m)[n], m) <==> Residue(before) == []
  {
    var n := |Encode(m)| - 1;
    StreamDecodes(before);
    var p := After(INITIAL, before);
    PendingStateIdle(p, Residue(before));
    ReadExactlyWhenIdle(p, Residue(before), m);
    assert INITIAL.Valid();
    hide Encode, Consume, Pending, After, Output, Returns, ScanFront, INITIAL;
    RunConcat(INITIAL, before, Encode(m)[..n]);
  }

  lemma PendingStateIdle(p: Parser, t: seq<byte>)
    requires Pending(p, t)
    ensures p.Valid() && (p.state == Idle <==> t == [])
  {}

  lemma ZeroByte()
    ensures ByteOfValue(0) == 0
  {}

  lemma EmptyMessageBytes()
    ensures Encode(Message(0, [])) == [DOLLAR, LETTER_X, LESS_THAN, 0, 0, 0, 0, 0, 0]
  {
    hide Crc, ByteOfValue;
    ZeroByte();
    ZerosHaveZeroCrc([0, 0, 0, 0, 0]);
    assert Header(0, 0) == [DOLLAR, LETTER_X, LESS_THAN, 0, 0, 0, 0, 0];
    hide Header;
    assert Covered(Message(0, [])) == [0, 0, 0, 0, 0];
  }

  /** One message that is lost: a header-only message of command 0, right behind a stray dollar sign. */
  lemma LostBehindDollar()
    ensures var m := Message(0, []);
            && m.Valid()
            && Encode(m) == [DOLLAR, LETTER_X, LESS_THAN, 0, 0, 0, 0, 0, 0]
            && Output(INITIAL, [DOLLAR] + Encode(m)) == []
  {
    var m := Message(0, []);
    EmptyMessageBytes();
    hide Encode, After, Output, Pending, Messages, INITIAL;
    StrayDollarLosesMessage(m);
    StreamDecodes([DOLLAR] + Encode(m));
  }

  lemma {:induction false} ZerosHaveZeroCrc(s: seq<byte>)
    requires forall k :: 0 <= k < |s| ==> s[k] == 0
    ensures Crc(0, s) == 0
    decreases s
  {
    if s != [] {
      MulXnZero(8);
      ZerosHaveZeroCrc(s[1..]);
    }
  }

  // ---------------------------------------------------------------- a parser from its start

  lemma InitialValid()
    ensures INITIAL.Valid()
  {}

  /** A fresh parser after a stream, and the messages it has handed over. */
  function FreshAfter(s: seq<byte>): (r: Parser)
    ensures r.Valid()
  {
    InitialValid();
    After(INITIAL, s)
  }

  function FreshOutput(s: seq<byte>): seq<Message> {
    InitialValid();
    Output(INITIAL, s)
  }

  /** One more byte after a stream. */
  lemma OneMore(s: seq<byte>, b: byte)
    ensures FreshAfter(s + [b]) == Consume(FreshAfter(s), b).0
    ensures FreshOutput(s + [b]) == FreshOutput(s) + Output1(FreshAfter(s), b)
  {
    InitialValid();
    hide Consume, INITIAL;
    RunConcat(INITIAL, s, [b]);
    assert [b][1..] == [];
    var p := After(INITIAL, s);
    assert Output(p, [b]) == Output1(p, b) + [];
  }
}
