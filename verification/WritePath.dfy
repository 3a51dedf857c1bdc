/**
 The STREAM frames that a connection writes, as they go into a packet.
 */
module WritePath {
  import opened Basics
  import opened StreamReceive
  import opened Machine
  import Fields
  import Frames

  /** The frame that stands for a piece of stream `id` on the wire. */
  function OnWire(id: nat, fr: StreamFrame): Frames.Frame { Frames.Stream(fr.fin, id, fr.offset, fr.data) }

  /** The length that the model of the connection reckons with is that of the encoded frame. */
  lemma EncodedLength(id: nat, fr: StreamFrame)
    requires Frames.WellFormed(OnWire(id, fr))
    ensures |Frames.Encode(OnWire(id, fr), [])| == FrameLen(id, fr.offset, |fr.data|)
  {
    var f := OnWire(id, fr);
    var fs := Frames.FieldsOf(f);
    Frames.FrameWritable(f);
    Fields.EncodeTail(fs, []);
    SizesAdd(fs);
  }

  lemma SizesAdd(fs: seq<Fields.Field>)
    ensures |fs| == 2 ==> Fields.SizeAll(fs) == Fields.Size(fs[0]) + Fields.Size(fs[1])
    ensures |fs| == 3 ==> Fields.SizeAll(fs) == Fields.Size(fs[0]) + Fields.Size(fs[1]) + Fields.Size(fs[2])
  {
    if |fs| == 3 {
      SizesAdd(fs[1..]);
    } else if |fs| == 2 {
      assert Fields.SizeAll(fs[1..]) == Fields.Size(fs[1]) + Fields.SizeAll(fs[1..][1..]);
    }
  }

  /** Every frame that is written can be encoded, and its bytes fit into the room that was left in the packet. */
  lemma WrittenFits(t: Endpoint, id: nat, data: seq<byte>, fin: bool, left: nat)
    requires Sound(t) && id <= MAX_VARINT && WriteStatus(t, id, data, left) == Ok
    ensures var f := OnWire(id, WrittenFrame(t, id, data, fin, left));
            Frames.WellFormed(f) && |Frames.Encode(f, [])| <= left
  {
    var fr := WrittenFrame(t, id, data, fin, left);
    LiveAt(t, id);
    WrittenMost(t, id, data, fin, left);
    CreditLeft(t);
    WrittenWithin(t, id, data, fin, left);
    EncodedLength(id, fr);
  }
}
