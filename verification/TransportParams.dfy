/**
 Transport parameters: what the three handshake messages carry, and the round trip.
 */
module TransportParams {
  import opened Basics
  import opened Varint
  import opened Fields

  datatype Message = ClientHello | EncryptedExtensions | NewSessionTicket

  const MAX_PKT_SIZE: nat := 65527
  const DEFAULT_EXPONENT: nat := 3

  datatype Params = Params(
    version: nat, supported: seq<nat>,
    maxStreamData: nat, maxData: nat, maxStreamIdBidi: nat, maxStreamIdUni: nat,
    idleTimeout: nat, omitConnectionId: bool, maxPacketSize: nat, token: seq<byte>, exponent: nat, ip: seq<nat>)

  /** The values that the fields can hold. */
  predicate WellTyped(p: Params) {
    && p.version < SPAN32 && |p.supported| <= 63 && (forall i :: 0 <= i < |p.supported| ==> p.supported[i] < SPAN32)
    && p.maxStreamData < SPAN32 && p.maxData < SPAN32 && p.maxStreamIdBidi < SPAN32 && p.maxStreamIdUni < SPAN32
    && p.idleTimeout < 0x1_0000 && p.maxPacketSize < 0x1_0000 && |p.token| == 16 && p.exponent < 256
    && |p.ip| == 4 && (forall i :: 0 <= i < 4 ==> p.ip[i] < SPAN32)
  }

  /** A parameter as it is written: its number, the length of its value in two octets, and its value. */
  datatype Item = Item(id: nat, data: seq<byte>)

  predicate WellTypedItem(i: Item) { i.id < 0x1_0000 && |i.data| < 0x1_0000 }

  predicate BidiId(m: Message, n: nat) { n % 4 == if m.ClientHello? then 1 else 0 }

  predicate UniId(m: Message, n: nat) { n % 4 == if m.ClientHello? then 3 else 2 }

  /** A parameter with this number may have this value; any other number is skipped. */
  predicate Acceptable(m: Message, id: nat, data: seq<byte>) {
    match id
    case 0 => |data| == 4
    case 1 => |data| == 4
    case 2 => |data| == 4 && BidiId(m, Value(data))
    case 3 => |data| == 2
    case 4 => |data| == 0
    case 5 => |data| == 2
    case 6 => |data| == 16 && !m.ClientHello?
    case 7 => |data| == 1 && data[0] <= 20
    case 8 => |data| == 4 && UniId(m, Value(data))
    case 9 => |data| == 16
    case _ => true
  }

  // ----- encoding -----

  /** A parameter that is written or not. */
  datatype Choice = Choice(on: bool, id: nat, data: seq<byte>)

  function Chosen(cs: seq<Choice>): seq<Item> {
    if cs == [] then []
    else
      var n := |cs| - 1;
      Chosen(cs[..n]) + (if cs[n].on then [Item(cs[n].id, cs[n].data)] else [])
  }

  function IpData(ip: seq<nat>): (r: seq<byte>)
    requires |ip| == 4
    ensures |r| == 16
  {
    BigEndian(ip[0], 4) + BigEndian(ip[1], 4) + BigEndian(ip[2], 4) + BigEndian(ip[3], 4)
  }

  predicate HasIp(p: Params)
    requires |p.ip| == 4
  {
    p.ip[0] != 0 || p.ip[1] != 0 || p.ip[2] != 0 || p.ip[3] != 0
  }

  /** The parameters in the order in which they are written; those at their default are not. */
  function Choices(m: Message, p: Params): (cs: seq<Choice>)
    requires WellTyped(p)
    ensures |cs| == 10
  {
    [
      Choice(true, 0, BigEndian(p.maxStreamData, 4)),
      Choice(true, 1, BigEndian(p.maxData, 4)),
      Choice(true, 3, BigEndian(p.idleTimeout, 2)),
      Choice(!m.ClientHello?, 6, p.token),
      Choice(p.maxStreamIdBidi != 0, 2, BigEndian(p.maxStreamIdBidi, 4)),
      Choice(p.maxStreamIdUni != 0, 8, BigEndian(p.maxStreamIdUni, 4)),
      Choice(p.omitConnectionId, 4, []),
      Choice(p.maxPacketSize != MAX_PKT_SIZE, 5, BigEndian(p.maxPacketSize, 2)),
      Choice(HasIp(p), 9, IpData(p.ip)),
      Choice(p.exponent != DEFAULT_EXPONENT, 7, [p.exponent])
    ]
  }

  function EncodeItems(items: seq<Item>): seq<byte> {
    if items == [] then [] else
    BigEndian(items[0].id, 2) + (BigEndian(|items[0].data|, 2) + (items[0].data + EncodeItems(items[1..])))
  }

  function Words(vs: seq<nat>, tail: seq<byte>): seq<byte> {
    if vs == [] then tail else BigEndian(vs[0], 4) + Words(vs[1..], tail)
  }

  /** The versions, and what follows them. */
  function Head(m: Message, p: Params, tail: seq<byte>): seq<byte> {
    match m
    case ClientHello => BigEndian(p.version, 4) + tail
    case EncryptedExtensions => BigEndian(p.version, 4) + (BigEndian(4 * |p.supported|, 1) + Words(p.supported, tail))
    case NewSessionTicket => tail
  }

  function Encode(m: Message, p: Params): seq<byte>
    requires WellTyped(p)
  {
    var body := EncodeItems(Chosen(Choices(m, p)));
    Head(m, p, BigEndian(|body|, 2) + body)
  }

  // ----- decoding -----

  function ReadWord(s: seq<byte>, w: nat): (r: Option<(nat, seq<byte>)>)
    ensures r.Some? <==> w <= |s|
    ensures r.Some? ==> r.value.1 == s[w..]
  {
    match Take(s, w) case None => None case Some((d, rest)) => Some((Value(d), rest))
  }

  function ReadWords(s: seq<byte>, k: nat): (r: Option<(seq<nat>, seq<byte>)>)
    decreases k
  {
    if k == 0 then Some(([], s)) else
    match ReadWord(s, 4)
    case None => None
    case Some((v, s')) => match ReadWords(s', k - 1) case None => None case Some((vs, rest)) => Some(([v] + vs, rest))
  }

  /** Reads the versions into the parameters. */
  function ReadHead(m: Message, p: Params, s: seq<byte>): Option<(Params, seq<byte>)> {
    if m.NewSessionTicket? then Some((p, s)) else
    match ReadWord(s, 4)
    case None => None
    case Some((v, s')) =>
      if m.ClientHello? then Some((p.(version := v), s')) else
      match ReadWord(s', 1)
      case None => None
      case Some((n, s'')) =>
        if n % 4 != 0 then None else
        match ReadWords(s'', n / 4)
        case None => None
        case Some((vs, rest)) => Some((p.(version := v, supported := vs), rest))
  }

  /** The parameters in `s`, if all of it is read and all can be accepted. */
  function ReadItems(m: Message, s: seq<byte>): Option<seq<Item>>
    decreases |s|
  {
    if |s| < 4 then if s == [] then Some([]) else None
    else
      var (id, s') := ReadWord(s, 2).value;
      var (len, s'') := ReadWord(s', 2).value;
      if |s''| < len || !Acceptable(m, id, s''[..len]) then None else
      match ReadItems(m, s''[len..]) case None => None case Some(more) => Some([Item(id, s''[..len])] + more)
  }

  /** The last value of each parameter. */
  function Latest(items: seq<Item>): map<nat, seq<byte>> {
    if items == [] then map[]
    else
      var n := |items| - 1;
      Latest(items[..n])[items[n].id := items[n].data]
  }

  lemma {:induction false} LatestAre(items: seq<Item>)
    ensures forall x :: x in items ==> x.id in Latest(items)
    ensures forall k :: k in Latest(items) ==> Item(k, Latest(items)[k]) in items
  {
    if items != [] {
      var n := |items| - 1;
      LatestAre(items[..n]);
      assert items == items[..n] + [items[n]];
    }
  }

  function Number(got: map<nat, seq<byte>>, id: nat, default: nat): nat { if id in got then Value(got[id]) else default }

  function Addresses(data: seq<byte>): seq<nat>
    requires |data| == 16
  {
    [Value(data[..4]), Value(data[4..8]), Value(data[8..12]), Value(data[12..16])]
  }

  ghost predicate AllAcceptable(m: Message, got: map<nat, seq<byte>>) { forall k :: k in got ==> Acceptable(m, k, got[k]) }

  predicate Complete(m: Message, seen: set<nat>) { {0, 1, 3} <= seen && (!m.ClientHello? ==> 6 in seen) }

  /** The parameters that a message gives: those it has, and for the others a default, or what was there. */
  ghost function Given(m: Message, init: Params, got: map<nat, seq<byte>>): Params
    requires AllAcceptable(m, got)
  {
    init.(
      maxStreamData := Number(got, 0, init.maxStreamData), maxData := Number(got, 1, init.maxData),
      maxStreamIdBidi := Number(got, 2, 0), maxStreamIdUni := Number(got, 8, 0),
      idleTimeout := Number(got, 3, init.idleTimeout), omitConnectionId := 4 in got,
      maxPacketSize := Number(got, 5, MAX_PKT_SIZE), token := if 6 in got then got[6] else init.token,
      exponent := Number(got, 7, DEFAULT_EXPONENT), ip := if 9 in got then Addresses(got[9]) else init.ip)
  }

  datatype Result = Ok(p: Params) | Malformed | Required

  lemma LatestAcceptable(m: Message, items: seq<Item>)
    requires forall i :: 0 <= i < |items| ==> Acceptable(m, items[i].id, items[i].data)
    ensures AllAcceptable(m, Latest(items))
  {
    LatestAre(items);
    forall k | k in Latest(items) ensures Acceptable(m, k, Latest(items)[k]) {
      assert Item(k, Latest(items)[k]) in items;
    }
  }

  lemma {:induction false} ReadAcceptable(m: Message, s: seq<byte>)
    requires ReadItems(m, s).Some?
    ensures forall i :: 0 <= i < |ReadItems(m, s).value| ==>
                          Acceptable(m, ReadItems(m, s).value[i].id, ReadItems(m, s).value[i].data)
    decreases |s|
  {
    if |s| >= 4 {
      var s'' := ReadWord(ReadWord(s, 2).value.1, 2).value.1;
      var len := ReadWord(ReadWord(s, 2).value.1, 2).value.0;
      ReadAcceptable(m, s''[len..]);
    }
  }

  /** What the parameters after the head say, read into `p`. */
  ghost function DecodeBody(m: Message, p: Params, body: seq<byte>): Result {
    match ReadItems(m, body)
    case None => Malformed
    case Some(items) =>
      ReadAcceptable(m, body);
      LatestAcceptable(m, items);
      if !Complete(m, Latest(items).Keys) then Required else Ok(Given(m, p, Latest(items)))
  }

  /** What `s` says, read into `init`. */
  ghost function Decode(m: Message, init: Params, s: seq<byte>): Result {
    match ReadHead(m, init, s)
    case None => Malformed
    case Some((p, s')) =>
      match ReadWord(s', 2)
      case None => Malformed
      case Some((len, body)) => if len != |body| then Malformed else DecodeBody(m, p, body)
  }

  // ----- round trips -----

  lemma WordBack(n: nat, w: nat, tail: seq<byte>)
    requires n < Span(w)
    ensures ReadWord(BigEndian(n, w) + tail, w) == Some((n, tail))
  {
    BigEndianRoundTrip(n, w);
    TakeBack(BigEndian(n, w), tail);
  }

  lemma {:induction false} WordsBack(vs: seq<nat>, tail: seq<byte>)
    requires forall i :: 0 <= i < |vs| ==> vs[i] < SPAN32
    ensures ReadWords(Words(vs, tail), |vs|) == Some((vs, tail))
  {
    if vs != [] {
      WordsBack(vs[1..], tail);
      Spans();
      WordBack(vs[0], 4, Words(vs[1..], tail));
      assert vs == [vs[0]] + vs[1..];
    }
  }

  /** The versions that a message carries, put into `init`. */
  function WithVersions(m: Message, init: Params, p: Params): Params {
    match m
    case ClientHello => init.(version := p.version)
    case EncryptedExtensions => init.(version := p.version, supported := p.supported)
    case NewSessionTicket => init
  }

  lemma HeadBack(m: Message, init: Params, p: Params, tail: seq<byte>)
    requires WellTyped(p)
    ensures ReadHead(m, init, Head(m, p, tail)) == Some((WithVersions(m, init, p), tail))
  {
    Spans();
    match m
    case ClientHello => WordBack(p.version, 4, tail);
    case EncryptedExtensions =>
      var n := 4 * |p.supported|;
      var s := Words(p.supported, tail);
      WordBack(p.version, 4, BigEndian(n, 1) + s);
      WordBack(n, 1, s);
      WordsBack(p.supported, tail);
    case NewSessionTicket =>
  }

  ghost predicate AllOk(m: Message, items: seq<Item>) {
    forall i :: 0 <= i < |items| ==> Acceptable(m, items[i].id, items[i].data)
  }

  lemma AllOkFirst(m: Message, items: seq<Item>)
    requires items != []
    ensures AllOk(m, items) <==> Acceptable(m, items[0].id, items[0].data) && AllOk(m, items[1..])
  {
    assert items == [items[0]] + items[1..];
  }

  lemma ItemBack(m: Message, item: Item, tail: seq<byte>)
    requires WellTypedItem(item)
    ensures var s := BigEndian(item.id, 2) + (BigEndian(|item.data|, 2) + (item.data + tail));
            ReadItems(m, s) ==
            if !Acceptable(m, item.id, item.data) then None
            else match ReadItems(m, tail) case None => None case Some(more) => Some([item] + more)
  {
    Spans();
    WordBack(item.id, 2, BigEndian(|item.data|, 2) + (item.data + tail));
    WordBack(|item.data|, 2, item.data + tail);
    assert (item.data + tail)[..|item.data|] == item.data && (item.data + tail)[|item.data|..] == tail;
  }

  /** The parameters are read back if all can be accepted. */
  lemma {:induction false} ItemsBack(m: Message, items: seq<Item>)
    requires forall i :: 0 <= i < |items| ==> WellTypedItem(items[i])
    ensures ReadItems(m, EncodeItems(items)) == if AllOk(m, items) then Some(items) else None
  {
    if items != [] {
      ItemsBack(m, items[1..]);
      ItemBack(m, items[0], EncodeItems(items[1..]));
      AllOkFirst(m, items);
      assert items == [items[0]] + items[1..];
    }
  }

  ghost predicate Distinct(cs: seq<Choice>) { forall i, j :: 0 <= i < j < |cs| ==> cs[i].id != cs[j].id }

  lemma {:induction false} ChosenAre(cs: seq<Choice>)
    ensures forall i :: 0 <= i < |cs| && cs[i].on ==> Item(cs[i].id, cs[i].data) in Chosen(cs)
    ensures forall x :: x in Chosen(cs) ==> exists i :: 0 <= i < |cs| && cs[i].on && x == Item(cs[i].id, cs[i].data)
  {
    if cs != [] {
      var n := |cs| - 1;
      ChosenAre(cs[..n]);
      forall x | x in Chosen(cs) ensures exists i :: 0 <= i < |cs| && cs[i].on && x == Item(cs[i].id, cs[i].data) {
        if x in Chosen(cs[..n]) {
          var i :| 0 <= i < n && cs[..n][i].on && x == Item(cs[..n][i].id, cs[..n][i].data);
          assert cs[i].on && x == Item(cs[i].id, cs[i].data);
        } else {
          assert cs[n].on && x == Item(cs[n].id, cs[n].data);
        }
      }
    }
  }

  lemma ChosenOk(m: Message, cs: seq<Choice>)
    ensures AllOk(m, Chosen(cs)) <==> forall i :: 0 <= i < |cs| && cs[i].on ==> Acceptable(m, cs[i].id, cs[i].data)
  {
    ChosenAre(cs);
  }

  /** Of distinct parameters, the message has exactly the chosen ones. */
  lemma {:induction false} ChosenLatest(cs: seq<Choice>, i: nat)
    requires Distinct(cs) && i < |cs|
    ensures cs[i].id in Latest(Chosen(cs)) <==> cs[i].on
    ensures cs[i].on ==> Latest(Chosen(cs))[cs[i].id] == cs[i].data
  {
    ChosenAre(cs);
    var items := Chosen(cs);
    LatestAre(items);
    if cs[i].on { assert Item(cs[i].id, cs[i].data) in items; }
    if cs[i].id in Latest(items) { assert Item(cs[i].id, Latest(items)[cs[i].id]) in items; }
  }

  /** The parameters that a message can carry. */
  predicate Carriable(m: Message, p: Params) {
    && (p.maxStreamIdBidi == 0 || BidiId(m, p.maxStreamIdBidi))
    && (p.maxStreamIdUni == 0 || UniId(m, p.maxStreamIdUni))
    && p.exponent <= 20
  }

  /** What arrives: every field of `p` that the message carries; the others stay. */
  function Arrived(m: Message, init: Params, p: Params): Params
    requires |p.ip| == 4
  {
    p.(version := if m.NewSessionTicket? then init.version else p.version,
       supported := if m.EncryptedExtensions? then p.supported else init.supported,
       token := if m.ClientHello? then init.token else p.token,
       ip := if HasIp(p) then p.ip else init.ip)
  }

  /** The parameter is there exactly if it was chosen, with its value. */
  ghost predicate Got(got: map<nat, seq<byte>>, c: Choice) { (c.id in got <==> c.on) && (c.on ==> got[c.id] == c.data) }

  lemma AllGot(m: Message, p: Params)
    requires WellTyped(p)
    ensures var cs := Choices(m, p); forall i :: 0 <= i < |cs| ==> Got(Latest(Chosen(cs)), cs[i])
  {
    var cs := Choices(m, p);
    assert Distinct(cs);
    forall i | 0 <= i < |cs| ensures Got(Latest(Chosen(cs)), cs[i]) { ChosenLatest(cs, i); }
  }

  lemma IpBack(ip: seq<nat>)
    requires |ip| == 4 && forall i :: 0 <= i < 4 ==> ip[i] < SPAN32
    ensures Addresses(IpData(ip)) == ip
  {
    Spans();
    forall i | 0 <= i < 4 ensures Value(BigEndian(ip[i], 4)) == ip[i] { BigEndianRoundTrip(ip[i], 4); }
    Quarters(BigEndian(ip[0], 4), BigEndian(ip[1], 4), BigEndian(ip[2], 4), BigEndian(ip[3], 4));
  }

  lemma Quarters(a: seq<byte>, b: seq<byte>, c: seq<byte>, d: seq<byte>)
    requires |a| == |b| == |c| == |d| == 4
    ensures var s := a + b + c + d; s[..4] == a && s[4..8] == b && s[8..12] == c && s[12..16] == d
  {
  }

  lemma NumberBack(got: map<nat, seq<byte>>, on: bool, id: nat, n: nat, w: nat, default: nat)
    requires n < Span(w) && Got(got, Choice(on, id, BigEndian(n, w)))
    ensures Number(got, id, default) == if on then n else default
  {
    BigEndianRoundTrip(n, w);
  }

  /** Every parameter of `p` is there as it was written. */
  ghost predicate Carried(m: Message, p: Params, got: map<nat, seq<byte>>)
    requires WellTyped(p)
  {
    && CarriedLimits(m, p, got)
    && Got(got, Choice(true, 3, BigEndian(p.idleTimeout, 2)))
    && Got(got, Choice(!m.ClientHello?, 6, p.token))
    && Got(got, Choice(p.omitConnectionId, 4, []))
    && Got(got, Choice(p.maxPacketSize != MAX_PKT_SIZE, 5, BigEndian(p.maxPacketSize, 2)))
    && Got(got, Choice(HasIp(p), 9, IpData(p.ip)))
    && Got(got, Choice(p.exponent != DEFAULT_EXPONENT, 7, [p.exponent]))
  }

  ghost predicate CarriedLimits(m: Message, p: Params, got: map<nat, seq<byte>>) {
    && Got(got, Choice(true, 0, BigEndian(p.maxStreamData, 4)))
    && Got(got, Choice(true, 1, BigEndian(p.maxData, 4)))
    && Got(got, Choice(p.maxStreamIdBidi != 0, 2, BigEndian(p.maxStreamIdBidi, 4)))
    && Got(got, Choice(p.maxStreamIdUni != 0, 8, BigEndian(p.maxStreamIdUni, 4)))
  }

  lemma AllCarried(m: Message, p: Params)
    requires WellTyped(p)
    ensures Carried(m, p, Latest(Chosen(Choices(m, p))))
  {
    var cs := Choices(m, p);
    var got := Latest(Chosen(cs));
    AllGot(m, p);
    assert Got(got, cs[0]) && Got(got, cs[1]) && Got(got, cs[2]) && Got(got, cs[3]) && Got(got, cs[4]);
    assert Got(got, cs[5]) && Got(got, cs[6]) && Got(got, cs[7]) && Got(got, cs[8]) && Got(got, cs[9]);
  }

  lemma LimitsBack(m: Message, p: Params, got: map<nat, seq<byte>>, a: nat, b: nat)
    requires WellTyped(p) && CarriedLimits(m, p, got)
    ensures Number(got, 0, a) == p.maxStreamData && Number(got, 1, b) == p.maxData
    ensures Number(got, 2, 0) == p.maxStreamIdBidi && Number(got, 8, 0) == p.maxStreamIdUni
  {
    Spans();
    NumberBack(got, true, 0, p.maxStreamData, 4, a);
    NumberBack(got, true, 1, p.maxData, 4, b);
    NumberBack(got, p.maxStreamIdBidi != 0, 2, p.maxStreamIdBidi, 4, 0);
    NumberBack(got, p.maxStreamIdUni != 0, 8, p.maxStreamIdUni, 4, 0);
  }

  lemma SmallBack(m: Message, p: Params, got: map<nat, seq<byte>>, a: nat)
    requires WellTyped(p) && Carried(m, p, got)
    ensures Number(got, 3, a) == p.idleTimeout && Number(got, 5, MAX_PKT_SIZE) == p.maxPacketSize
    ensures Number(got, 7, DEFAULT_EXPONENT) == p.exponent
  {
    Spans();
    NumberBack(got, true, 3, p.idleTimeout, 2, a);
    NumberBack(got, p.maxPacketSize != MAX_PKT_SIZE, 5, p.maxPacketSize, 2, MAX_PKT_SIZE);
    assert BigEndian(p.exponent, 1) == [p.exponent];
    NumberBack(got, p.exponent != DEFAULT_EXPONENT, 7, p.exponent, 1, DEFAULT_EXPONENT);
  }

  lemma GivenBack(m: Message, init: Params, p: Params, got: map<nat, seq<byte>>)
    requires WellTyped(p) && AllAcceptable(m, got) && Carried(m, p, got)
    ensures Given(m, WithVersions(m, init, p), got) == Arrived(m, init, p) && Complete(m, got.Keys)
  {
    LimitsBack(m, p, got, init.maxStreamData, init.maxData);
    SmallBack(m, p, got, init.idleTimeout);
    IpBack(p.ip);
  }

  lemma ChoicesOk(m: Message, p: Params)
    requires WellTyped(p)
    ensures AllOk(m, Chosen(Choices(m, p))) <==> Carriable(m, p)
  {
    var cs := Choices(m, p);
    Spans();
    ChosenOk(m, cs);
    BigEndianRoundTrip(p.maxStreamIdBidi, 4);
    BigEndianRoundTrip(p.maxStreamIdUni, 4);
    if AllOk(m, Chosen(cs)) {
      assert cs[4].on ==> Acceptable(m, cs[4].id, cs[4].data);
      assert cs[5].on ==> Acceptable(m, cs[5].id, cs[5].data);
      assert cs[9].on ==> Acceptable(m, cs[9].id, cs[9].data);
    }
  }

  lemma {:induction false} BodyLength(items: seq<Item>)
    requires forall i :: 0 <= i < |items| ==> |items[i].data| <= 16
    ensures |EncodeItems(items)| <= 20 * |items|
  {
    if items != [] { BodyLength(items[1..]); }
  }

  lemma {:induction false} ChosenFew(cs: seq<Choice>)
    ensures |Chosen(cs)| <= |cs|
  {
    if cs != [] { ChosenFew(cs[..|cs| - 1]); }
  }

  lemma ChoicesSmall(m: Message, p: Params)
    requires WellTyped(p)
    ensures var items := Chosen(Choices(m, p));
            && (forall i :: 0 <= i < |items| ==> WellTypedItem(items[i]))
            && |EncodeItems(items)| <= 200
  {
    var cs := Choices(m, p);
    var items := Chosen(cs);
    ChosenAre(cs);
    assert forall i :: 0 <= i < |cs| ==> |cs[i].data| <= 16 && cs[i].id <= 9;
    forall i | 0 <= i < |items| ensures |items[i].data| <= 16 && WellTypedItem(items[i]) {
      assert items[i] in items;
    }
    ChosenFew(cs);
    BodyLength(items);
  }

  lemma BodyBack(m: Message, init: Params, p: Params)
    requires WellTyped(p)
    ensures DecodeBody(m, WithVersions(m, init, p), EncodeItems(Chosen(Choices(m, p)))) ==
            if Carriable(m, p) then Ok(Arrived(m, init, p)) else Malformed
  {
    var items := Chosen(Choices(m, p));
    ChoicesSmall(m, p);
    ItemsBack(m, items);
    ChoicesOk(m, p);
    if Carriable(m, p) {
      AllCarried(m, p);
      LatestAcceptable(m, items);
      GivenBack(m, init, p, Latest(items));
    }
  }

  /**
   For each message, the parameters are read back with every field that the message carries,
   exactly if its stream IDs and its exponent are valid; if not, the message is malformed.
   The unicast address is not reset: a zero one leaves what was there.
   */
  lemma RoundTrip(m: Message, init: Params, p: Params)
    requires WellTyped(p)
    ensures Decode(m, init, Encode(m, p)) == if Carriable(m, p) then Ok(Arrived(m, init, p)) else Malformed
    ensures Arrived(m, init, p).ip == p.ip <==> HasIp(p) || init.ip == p.ip
  {
    var body := EncodeItems(Chosen(Choices(m, p)));
    ChoicesSmall(m, p);
    Spans();
    HeadBack(m, init, p, BigEndian(|body|, 2) + body);
    WordBack(|body|, 2, body);
    BodyBack(m, init, p);
  }
}
