/**
 Transport parameters octet by octet, numbered as in draft-ietf-quic-transport-08, and what a
 message must have to be accepted.
 */
module ParamsWire {
  import opened Basics
  import opened Varint
  import opened TransportParams

  // ----- writing -----

  /** A parameter with a number below 256 and a value of at most 255 octets. */
  function Octets(id: byte, data: seq<byte>): seq<byte>
    requires |data| < 256
  {
    [0, id, 0, |data|] + data
  }

  /** The octets of the parameter that is written in place `k`, if it is. */
  function Part(m: Message, p: Params, k: nat): seq<byte>
    requires WellTyped(p)
  {
    match k
    case 0 => Octets(0, BigEndian(p.maxStreamData, 4))
    case 1 => Octets(1, BigEndian(p.maxData, 4))
    case 2 => Octets(3, BigEndian(p.idleTimeout, 2))
    case 3 => if m == ClientHello then [] else Octets(6, p.token)
    case 4 => if p.maxStreamIdBidi == 0 then [] else Octets(2, BigEndian(p.maxStreamIdBidi, 4))
    case 5 => if p.maxStreamIdUni == 0 then [] else Octets(8, BigEndian(p.maxStreamIdUni, 4))
    case 6 => if p.omitConnectionId then Octets(4, []) else []
    case 7 => if p.maxPacketSize == 65527 then [] else Octets(5, BigEndian(p.maxPacketSize, 2))
    case 8 =>
      if p.ip == [0, 0, 0, 0] then []
      else Octets(9, BigEndian(p.ip[0], 4) + BigEndian(p.ip[1], 4) + BigEndian(p.ip[2], 4) + BigEndian(p.ip[3], 4))
    case 9 => if p.exponent == 3 then [] else Octets(7, [p.exponent])
    case _ => []
  }

  /** The first `n` of them. */
  function Parts(m: Message, p: Params, n: nat): seq<byte>
    requires WellTyped(p)
  {
    if n == 0 then [] else Parts(m, p, n - 1) + Part(m, p, n - 1)
  }

  /** The parameters of a message. */
  function Body(m: Message, p: Params): seq<byte>
    requires WellTyped(p)
  {
    Parts(m, p, 10)
  }

  function ItemBytes(item: Item): seq<byte> { BigEndian(item.id, 2) + BigEndian(|item.data|, 2) + item.data }

  lemma FirstItem(items: seq<Item>)
    requires items != []
    ensures EncodeItems(items) == ItemBytes(items[0]) + EncodeItems(items[1..])
  {
  }

  lemma {:induction false} ItemsOnto(a: seq<Item>, b: seq<Item>)
    ensures EncodeItems(a + b) == EncodeItems(a) + EncodeItems(b)
  {
    if a == [] {
      assert a + b == b;
    } else {
      ItemsOnto(a[1..], b);
      assert (a + b)[1..] == a[1..] + b;
      FirstItem(a);
      FirstItem(a + b);
      Regroup(ItemBytes(a[0]), EncodeItems(a[1..]), EncodeItems(b));
    }
  }

  lemma Regroup(x: seq<byte>, y: seq<byte>, z: seq<byte>)
    ensures x + (y + z) == (x + y) + z
  {
  }

  lemma ItemOctets(id: byte, data: seq<byte>)
    requires |data| < 256
    ensures EncodeItems([Item(id, data)]) == Octets(id, data)
  {
    assert BigEndian(id, 2) == [0, id] by { assert BigEndian(id / 256, 1) == [0]; }
    assert BigEndian(|data|, 2) == [0, |data|] by { assert BigEndian(|data| / 256, 1) == [0]; }
    assert EncodeItems([Item(id, data)][1..]) == [];
  }

  /** One more choice adds its octets, or none. */
  lemma ChosenNext(cs: seq<Choice>, n: nat)
    requires n < |cs| && cs[n].id < 256 && |cs[n].data| < 256
    ensures EncodeItems(Chosen(cs[..n + 1])) == EncodeItems(Chosen(cs[..n])) + if cs[n].on then Octets(cs[n].id, cs[n].data) else []
  {
    assert cs[..n + 1][..n] == cs[..n];
    if cs[n].on {
      ItemsOnto(Chosen(cs[..n]), [Item(cs[n].id, cs[n].data)]);
      ItemOctets(cs[n].id, cs[n].data);
    } else {
      assert Chosen(cs[..n + 1]) == Chosen(cs[..n]);
    }
  }

  lemma PartIs(m: Message, p: Params, k: nat)
    requires WellTyped(p) && k < 10
    ensures var c := Choices(m, p)[k];
            c.id < 256 && |c.data| < 256 && Part(m, p, k) == if c.on then Octets(c.id, c.data) else []
  {
    if k == 8 { assert HasIp(p) <==> p.ip != [0, 0, 0, 0]; }
  }

  lemma {:induction false} BodyOctets(m: Message, p: Params, n: nat)
    requires WellTyped(p) && n <= 10
    ensures EncodeItems(Chosen(Choices(m, p)[..n])) == Parts(m, p, n)
  {
    if n > 0 {
      BodyOctets(m, p, n - 1);
      PartIs(m, p, n - 1);
      ChosenNext(Choices(m, p), n - 1);
    }
  }

  /** The versions that come first in a message, and the rest. */
  function Versions(m: Message, p: Params, rest: seq<byte>): seq<byte>
    requires WellTyped(p)
  {
    match m
    case ClientHello => BigEndian(p.version, 4) + rest
    case EncryptedExtensions => BigEndian(p.version, 4) + ([4 * |p.supported|] + Words(p.supported, rest))
    case NewSessionTicket => rest
  }

  lemma HeadOctets(m: Message, p: Params, rest: seq<byte>)
    requires WellTyped(p)
    ensures Head(m, p, rest) == Versions(m, p, rest)
  {
    assert BigEndian(4 * |p.supported|, 1) == [4 * |p.supported|];
  }

  lemma WholeBody(m: Message, p: Params)
    requires WellTyped(p)
    ensures EncodeItems(Chosen(Choices(m, p))) == Body(m, p)
  {
    BodyOctets(m, p, 10);
    assert Choices(m, p)[..10] == Choices(m, p);
  }

  /** A message is its versions, the length of the parameters, and the parameters. */
  lemma MessageOctets(m: Message, p: Params)
    requires WellTyped(p)
    ensures TransportParams.Encode(m, p) == Versions(m, p, BigEndian(|Body(m, p)|, 2) + Body(m, p))
  {
    WholeBody(m, p);
    HeadOctets(m, p, BigEndian(|Body(m, p)|, 2) + Body(m, p));
  }

  // ----- reading -----

  predicate HasItem(items: seq<Item>, id: nat) { exists i :: 0 <= i < |items| && items[i].id == id }

  /** The parameters in a message, if it is well formed. */
  ghost predicate ItemsOf(m: Message, init: Params, s: seq<byte>, items: seq<Item>) {
    && ReadHead(m, init, s).Some? && ReadWord(ReadHead(m, init, s).value.1, 2).Some?
    && var (len, body) := ReadWord(ReadHead(m, init, s).value.1, 2).value;
       len == |body| && ReadItems(m, body) == Some(items)
  }

  /**
   A well-formed message is accepted exactly if it has parameters 0, 1 and 3 (the initial limits for a stream and for
   the connection, and the idle timeout), and, unless it is the client's, parameter 6 (the stateless reset token).
   */
  lemma AcceptedIff(m: Message, init: Params, s: seq<byte>, items: seq<Item>)
    requires ItemsOf(m, init, s, items)
    ensures TransportParams.Decode(m, init, s) != Malformed
    ensures TransportParams.Decode(m, init, s).Ok? <==>
            HasItem(items, 0) && HasItem(items, 1) && HasItem(items, 3) && (m == ClientHello || HasItem(items, 6))
  {
    LatestHas(items, 0);
    LatestHas(items, 1);
    LatestHas(items, 3);
    LatestHas(items, 6);
  }

  lemma LatestHas(items: seq<Item>, id: nat)
    ensures id in Latest(items) <==> HasItem(items, id)
  {
    LatestAre(items);
    if HasItem(items, id) {
      var i :| 0 <= i < |items| && items[i].id == id;
      assert items[i] in items;
    }
    if id in Latest(items) {
      assert Item(id, Latest(items)[id]) in items;
    }
  }

  /** A message that is not well formed is refused as such. */
  lemma MalformedIff(m: Message, init: Params, s: seq<byte>)
    ensures TransportParams.Decode(m, init, s) == Malformed <==> forall items :: !ItemsOf(m, init, s, items)
  {
    if TransportParams.Decode(m, init, s) != Malformed {
      var (len, body) := ReadWord(ReadHead(m, init, s).value.1, 2).value;
      assert ItemsOf(m, init, s, ReadItems(m, body).value);
    }
    forall items | ItemsOf(m, init, s, items) ensures TransportParams.Decode(m, init, s) != Malformed {
      AcceptedIff(m, init, s, items);
    }
  }

  /**
   The values of accepted parameters: limits on stream IDs are 0 or IDs of streams that the receiver may open,
   the exponent is at most 20, and a parameter that is missing has its default.
   */
  lemma AcceptedValues(m: Message, init: Params, s: seq<byte>, items: seq<Item>)
    requires ItemsOf(m, init, s, items) && TransportParams.Decode(m, init, s).Ok?
    ensures var p := TransportParams.Decode(m, init, s).p;
            && (p.maxStreamIdBidi != 0 ==> p.maxStreamIdBidi % 4 == if m == ClientHello then 1 else 0)
            && (p.maxStreamIdUni != 0 ==> p.maxStreamIdUni % 4 == if m == ClientHello then 3 else 2)
            && p.exponent <= 20 && (m == ClientHello ==> !HasItem(items, 6))
            && (!HasItem(items, 2) ==> p.maxStreamIdBidi == 0) && (!HasItem(items, 8) ==> p.maxStreamIdUni == 0)
            && (!HasItem(items, 5) ==> p.maxPacketSize == 65527) && (!HasItem(items, 7) ==> p.exponent == 3)
            && (p.omitConnectionId <==> HasItem(items, 4))
  {
    var (len, body) := ReadWord(ReadHead(m, init, s).value.1, 2).value;
    ReadAcceptable(m, body);
    LatestAcceptable(m, items);
    LatestHas(items, 2);
    LatestHas(items, 8);
    LatestHas(items, 5);
    LatestHas(items, 7);
    LatestHas(items, 4);
    LatestHas(items, 6);
    OneByte(Latest(items));
  }

  lemma OneByte(got: map<nat, seq<byte>>)
    ensures 7 in got && |got[7]| == 1 ==> Value(got[7]) == got[7][0]
  {
    if 7 in got && |got[7]| == 1 { assert got[7][..0] == []; }
  }
}
