// Messages on the wire: the bytes of a list of frames and what a parser makes of any part of them.
module MspWire {
  import opened Bytes
  import Msp
  import MspParser
  import UartTx

  /** The frames of a list of messages. */
  function Encoded(messages: seq<Msp.Message>): (r: seq<seq<byte>>)
    ensures |r| == |messages|
    ensures forall k :: 0 <= k < |r| ==> r[k] == Msp.Encode(messages[k])
  {
    seq(|messages|, k requires 0 <= k < |messages| => Msp.Encode(messages[k]))
  }

  ghost predicate AllValid(messages: seq<Msp.Message>) {
    forall k :: 0 <= k < |messages| ==> messages[k].Valid()
  }

  /** Messages with nothing in between. */
  function Bare(messages: seq<Msp.Message>): (r: seq<(seq<byte>, Msp.Message)>)
    ensures |r| == |messages| && forall k :: 0 <= k < |r| ==> r[k] == ([], messages[k])
  {
    seq(|messages|, k requires 0 <= k < |messages| => ([], messages[k]))
  }

  lemma {:induction false} JoinSnoc(messages: seq<Msp.Message>, m: Msp.Message)
    ensures Msp.Join(Bare(messages + [m])) == Msp.Join(Bare(messages)) + Msp.Encode(m)
    decreases messages
  {
    hide Msp.Encode;
    var all := messages + [m];
    if messages == [] {
      assert Bare(all)[1..] == [] && Bare(messages) == [];
      assert Msp.Join(Bare(all)) == [] + (Msp.Encode(m) + Msp.Join([]));
    } else {
      assert Bare(all)[1..] == Bare(messages[1..] + [m]);
      assert Bare(messages)[1..] == Bare(messages[1..]);
      JoinSnoc(messages[1..], m);
      var first, rest := Msp.Encode(messages[0]), Msp.Join(Bare(messages[1..]));
      assert [] + (first + (rest + Msp.Encode(m))) == ([] + (first + rest)) + Msp.Encode(m);
    }
  }

  lemma {:induction false} FlattenIsJoin(messages: seq<Msp.Message>)
    ensures UartTx.Flatten(Encoded(messages)) == Msp.Join(Bare(messages))
    decreases |messages|
  {
    hide Msp.Encode;
    if messages == [] {
      assert Encoded(messages) == [] && Bare(messages) == [];
    } else {
      var n := |messages| - 1;
      FlattenIsJoin(messages[..n]);
      assert Encoded(messages)[..n] == Encoded(messages[..n]);
      JoinSnoc(messages[..n], messages[n]);
      assert messages[..n] + [messages[n]] == messages;
    }
  }

  /** All the frames together are read as the messages. */
  lemma FramesRead(messages: seq<Msp.Message>)
    requires AllValid(messages)
    ensures MspParser.Output(MspParser.INITIAL, UartTx.Flatten(Encoded(messages))) == messages
  {
    hide Msp.Join, UartTx.Flatten, MspParser.Output, Msp.Encode, Msp.Bodies, MspParser.INITIAL;
    FlattenIsJoin(messages);
    MspParser.EncodedStreamDecodes(Bare(messages), []);
    assert Msp.Join(Bare(messages)) + [] == Msp.Join(Bare(messages));
    assert Msp.Bodies(Bare(messages)) == messages;
  }

  /** Reading part of a stream gives a prefix of what the whole gives. */
  lemma PartRead(part: seq<byte>, whole: seq<byte>)
    requires part <= whole
    ensures MspParser.Output(MspParser.INITIAL, part) <= MspParser.Output(MspParser.INITIAL, whole)
  {
    assert MspParser.INITIAL.Valid();
    hide MspParser.Output, MspParser.INITIAL, MspParser.After;
    MspParser.RunConcat(MspParser.INITIAL, part, whole[|part|..]);
    assert part + whole[|part|..] == whole;
  }
}
