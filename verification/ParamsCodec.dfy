/**
 The encoder and the decoder of transport parameters.
 */
module ParamsCodec {
  import opened Basics
  import opened Varint
  import opened FrameWriter
  import opened TransportParams

  // ----- encoding -----

  function ItemBytes(x: Item): seq<byte> { BigEndian(x.id, 2) + (BigEndian(|x.data|, 2) + x.data) }

  lemma EncodeItemsFirst(items: seq<Item>)
    requires items != []
    ensures EncodeItems(items) == ItemBytes(items[0]) + EncodeItems(items[1..])
  {
    Regroup(BigEndian(items[0].id, 2), BigEndian(|items[0].data|, 2), items[0].data, EncodeItems(items[1..]));
  }

  lemma Regroup(a: seq<byte>, b: seq<byte>, c: seq<byte>, d: seq<byte>)
    ensures a + (b + (c + d)) == a + (b + c) + d
  {
  }

  lemma {:induction false} EncodeItemsNext(items: seq<Item>, x: Item)
    ensures EncodeItems(items + [x]) == EncodeItems(items) + ItemBytes(x)
  {
    if items == [] {
      assert items + [x] == [x];
      EncodeItemsFirst([x]);
    } else {
      EncodeItemsNext(items[1..], x);
      EncodeItemsFirst(items);
      EncodeItemsFirst(items + [x]);
      assert (items + [x])[1..] == items[1..] + [x];
    }
  }

  /** The bytes of a parameter that is written or not. */
  function ChoiceBytes(c: Choice): seq<byte> {
    if c.on then BigEndian(c.id, 2) + (BigEndian(|c.data|, 2) + c.data) else []
  }

  function Prefix(cs: seq<Choice>, k: nat): seq<byte>
    requires k <= |cs|
  {
    EncodeItems(Chosen(cs[..k]))
  }

  lemma PrefixNext(cs: seq<Choice>, k: nat)
    requires k < |cs|
    ensures Prefix(cs, k + 1) == Prefix(cs, k) + ChoiceBytes(cs[k])
  {
    assert cs[..k + 1][..k] == cs[..k];
    if cs[k].on {
      EncodeItemsNext(Chosen(cs[..k]), Item(cs[k].id, cs[k].data));
    } else {
      assert Chosen(cs[..k]) + [] == Chosen(cs[..k]);
    }
  }

  /** The length of the first `k` parameters. */
  function Total(cs: seq<Choice>, k: nat): nat
    requires k <= |cs|
  {
    if k == 0 then 0 else Total(cs, k - 1) + Cost(cs[k - 1])
  }

  function Cost(c: Choice): nat { if c.on then 4 + |c.data| else 0 }

  lemma TotalNext(cs: seq<Choice>, k: nat)
    requires k < |cs|
    ensures Total(cs, k + 1) == Total(cs, k) + Cost(cs[k])
  {
  }

  lemma TotalOfTen(cs: seq<Choice>)
    requires |cs| == 10
    ensures Total(cs, 10) == Cost(cs[0]) + Cost(cs[1]) + Cost(cs[2]) + Cost(cs[3]) + Cost(cs[4])
                             + Cost(cs[5]) + Cost(cs[6]) + Cost(cs[7]) + Cost(cs[8]) + Cost(cs[9])
  {
    forall k | 0 <= k < 10 ensures Total(cs, k + 1) == Total(cs, k) + Cost(cs[k]) { TotalNext(cs, k); }
    assert Total(cs, 5) == Cost(cs[0]) + Cost(cs[1]) + Cost(cs[2]) + Cost(cs[3]) + Cost(cs[4]) by {
      assert Total(cs, 1) == Cost(cs[0]);
      assert Total(cs, 2) == Total(cs, 1) + Cost(cs[1]);
      assert Total(cs, 3) == Total(cs, 2) + Cost(cs[2]);
      assert Total(cs, 4) == Total(cs, 3) + Cost(cs[3]);
    }
    assert Total(cs, 6) == Total(cs, 5) + Cost(cs[5]);
    assert Total(cs, 7) == Total(cs, 6) + Cost(cs[6]);
    assert Total(cs, 8) == Total(cs, 7) + Cost(cs[7]);
    assert Total(cs, 9) == Total(cs, 8) + Cost(cs[8]);
  }

  lemma {:induction false} PrefixLength(cs: seq<Choice>, k: nat)
    requires k <= |cs|
    ensures |Prefix(cs, k)| == Total(cs, k)
  {
    if k > 0 {
      PrefixLength(cs, k - 1);
      PrefixNext(cs, k - 1);
    } else {
      assert cs[..0] == [];
    }
  }

  lemma {:induction false} TotalGrows(cs: seq<Choice>, k: nat, n: nat)
    requires k <= n <= |cs|
    ensures Total(cs, k) <= Total(cs, n)
  {
    if k < n { TotalGrows(cs, k, n - 1); }
  }

  lemma ChoicesLength(m: Message, p: Params)
    requires WellTyped(p)
    ensures |EncodeItems(Chosen(Choices(m, p)))| ==
            22 + (if m.ClientHello? then 0 else 20) + (if p.maxStreamIdBidi != 0 then 8 else 0)
            + (if p.maxStreamIdUni != 0 then 8 else 0) + (if p.omitConnectionId then 4 else 0)
            + (if p.maxPacketSize != MAX_PKT_SIZE then 6 else 0) + (if p.exponent != DEFAULT_EXPONENT then 5 else 0)
            + (if HasIp(p) then 20 else 0)
  {
    var cs := Choices(m, p);
    PrefixLength(cs, 10);
    assert cs[..10] == cs;
    TotalOfTen(cs);
    CostsAre(m, p, cs);
  }

  lemma CostsAre(m: Message, p: Params, cs: seq<Choice>)
    requires WellTyped(p) && cs == Choices(m, p)
    ensures Cost(cs[0]) == 8 && Cost(cs[1]) == 8 && Cost(cs[2]) == 6 && Cost(cs[3]) == (if m.ClientHello? then 0 else 20)
    ensures Cost(cs[4]) == (if p.maxStreamIdBidi != 0 then 8 else 0) && Cost(cs[5]) == (if p.maxStreamIdUni != 0 then 8 else 0)
    ensures Cost(cs[6]) == (if p.omitConnectionId then 4 else 0) && Cost(cs[7]) == (if p.maxPacketSize != MAX_PKT_SIZE then 6 else 0)
    ensures Cost(cs[8]) == (if HasIp(p) then 20 else 0) && Cost(cs[9]) == (if p.exponent != DEFAULT_EXPONENT then 5 else 0)
  {
  }

  /** The length of the parameters as the encoder computes it. */
  method BodyLength(m: Message, p: Params) returns (len: nat)
    requires WellTyped(p)
    ensures len == |EncodeItems(Chosen(Choices(m, p)))|
  {
    ChoicesLength(m, p);
    len := 8 + 8 + 6;
    len := len + if m.ClientHello? then 0 else 20;
    len := len + if p.maxStreamIdBidi != 0 then 8 else 0;
    len := len + if p.maxStreamIdUni != 0 then 8 else 0;
    len := len + if p.omitConnectionId then 4 else 0;
    len := len + if p.maxPacketSize != MAX_PKT_SIZE then 6 else 0;
    len := len + if p.exponent != DEFAULT_EXPONENT then 5 else 0;
    len := len + if HasIp(p) then 20 else 0;
  }

  /** Writes a parameter if it is chosen. */
  method WriteChoice(out: array<byte>, p: nat, c: Choice) returns (p': nat)
    requires p + |ChoiceBytes(c)| <= out.Length
    modifies out
    ensures p' == p + |ChoiceBytes(c)| && Wrote(old(out[..]), out[..], p, ChoiceBytes(c))
  {
    p' := p;
    if c.on {
      p' := PutWord(out, p, c.id, 2);
      ghost var mid := out[..];
      p' := PutWord(out, p', |c.data|, 2);
      ghost var mid' := out[..];
      p' := PutBytes(out, p', c.data);
      Joined(mid, mid', out[..], p + 2, BigEndian(|c.data|, 2), c.data);
      Joined(old(out[..]), mid, out[..], p, BigEndian(c.id, 2), BigEndian(|c.data|, 2) + c.data);
    }
  }

  /** Writes parameter `k` after those before it. */
  method WriteNextChoice(out: array<byte>, start: nat, p: nat, cs: seq<Choice>, k: nat, ghost before: seq<byte>) returns (p': nat)
    requires k < |cs| && p == start + |Prefix(cs, k)| && start + |Prefix(cs, k + 1)| <= out.Length
    requires Wrote(before, out[..], start, Prefix(cs, k))
    modifies out
    ensures p' == start + |Prefix(cs, k + 1)| && Wrote(before, out[..], start, Prefix(cs, k + 1))
  {
    PrefixNext(cs, k);
    ghost var mid := out[..];
    p' := WriteChoice(out, p, cs[k]);
    Joined(before, mid, out[..], start, Prefix(cs, k), ChoiceBytes(cs[k]));
  }

  lemma PrefixFits(cs: seq<Choice>, k: nat)
    requires k <= |cs|
    ensures |Prefix(cs, k)| <= |Prefix(cs, |cs|)|
  {
    PrefixLength(cs, k);
    PrefixLength(cs, |cs|);
    TotalGrows(cs, k, |cs|);
  }

  method WriteChoices(out: array<byte>, start: nat, cs: seq<Choice>) returns (p: nat)
    requires start + |EncodeItems(Chosen(cs))| <= out.Length
    modifies out
    ensures p == start + |EncodeItems(Chosen(cs))| && Wrote(old(out[..]), out[..], start, EncodeItems(Chosen(cs)))
  {
    p := start;
    assert cs[..0] == [] && cs[..|cs|] == cs;
    for k := 0 to |cs|
      invariant p == start + |Prefix(cs, k)| && Wrote(old(out[..]), out[..], start, Prefix(cs, k))
    {
      PrefixFits(cs, k + 1);
      p := WriteNextChoice(out, start, p, cs, k, old(out[..]));
    }
  }

  lemma {:induction false} WordsTail(vs: seq<nat>, tail: seq<byte>)
    ensures Words(vs, tail) == Words(vs, []) + tail && |Words(vs, [])| == 4 * |vs|
  {
    if vs != [] { WordsTail(vs[1..], tail); }
  }

  lemma {:induction false} WordsNext(vs: seq<nat>, v: nat)
    ensures Words(vs + [v], []) == Words(vs, []) + BigEndian(v, 4)
  {
    if vs == [] {
      assert vs + [v] == [v];
      assert [v][1..] == [];
    } else {
      WordsNext(vs[1..], v);
      assert (vs + [v])[1..] == vs[1..] + [v];
    }
  }

  method WriteWords(out: array<byte>, start: nat, vs: seq<nat>) returns (p: nat)
    requires start + 4 * |vs| <= out.Length
    modifies out
    ensures p == start + 4 * |vs| && Wrote(old(out[..]), out[..], start, Words(vs, []))
  {
    p := start;
    for i := 0 to |vs|
      invariant p == start + 4 * i && Wrote(old(out[..]), out[..], start, Words(vs[..i], []))
    {
      ghost var mid := out[..];
      p := PutWord(out, p, vs[i], 4);
      WordsTail(vs[..i], []);
      WordsNext(vs[..i], vs[i]);
      assert vs[..i + 1] == vs[..i] + [vs[i]];
      Joined(old(out[..]), mid, out[..], start, Words(vs[..i], []), BigEndian(vs[i], 4));
    }
    assert vs[..|vs|] == vs;
  }

  function HeadLength(m: Message, p: Params): nat {
    match m case ClientHello => 4 case EncryptedExtensions => 4 + 1 + 4 * |p.supported| case NewSessionTicket => 0
  }

  lemma HeadTail(m: Message, p: Params, tail: seq<byte>)
    ensures Head(m, p, tail) == Head(m, p, []) + tail && |Head(m, p, [])| == HeadLength(m, p)
  {
    WordsTail(p.supported, tail);
  }

  method WriteHead(out: array<byte>, m: Message, p: Params) returns (n: nat)
    requires HeadLength(m, p) <= out.Length
    modifies out
    ensures n == HeadLength(m, p) && Wrote(old(out[..]), out[..], 0, Head(m, p, []))
  {
    HeadTail(m, p, []);
    match m {
      case ClientHello =>
        n := PutWord(out, 0, p.version, 4);
        assert Head(m, p, []) == BigEndian(p.version, 4);
      case EncryptedExtensions =>
        n := PutWord(out, 0, p.version, 4);
        ghost var mid := out[..];
        n := PutWord(out, n, 4 * |p.supported|, 1);
        ghost var mid' := out[..];
        n := WriteWords(out, n, p.supported);
        Joined(mid, mid', out[..], 4, BigEndian(4 * |p.supported|, 1), Words(p.supported, []));
        Joined(old(out[..]), mid, out[..], 0, BigEndian(p.version, 4), BigEndian(4 * |p.supported|, 1) + Words(p.supported, []));
      case NewSessionTicket =>
        n := 0;
    }
  }

  /**
   Writes the parameters at the start of the buffer: fails exactly if they do not fit, and
   otherwise writes their bytes and nothing else.
   */
  method EncodeParams(out: array<byte>, m: Message, p: Params) returns (r: Option<nat>)
    requires WellTyped(p)
    modifies out
    ensures r.None? <==> out.Length < |TransportParams.Encode(m, p)|
    ensures r.None? ==> out[..] == old(out[..])
    ensures r.Some? ==> r.value == |TransportParams.Encode(m, p)|
    ensures r.Some? ==> Wrote(old(out[..]), out[..], 0, TransportParams.Encode(m, p))
  {
    var body := BodyLength(m, p);
    var len := HeadLength(m, p) + 2 + body;
    ghost var bytes := EncodeItems(Chosen(Choices(m, p)));
    HeadTail(m, p, BigEndian(body, 2) + bytes);
    if out.Length < len {
      return None;
    }
    var n := WriteHead(out, m, p);
    ghost var mid := out[..];
    n := WriteBody(out, n, body, Choices(m, p));
    Joined(old(out[..]), mid, out[..], 0, Head(m, p, []), BigEndian(body, 2) + bytes);
    assert n == len;
    r := Some(len);
  }

  method WriteBody(out: array<byte>, start: nat, body: nat, cs: seq<Choice>) returns (n: nat)
    requires start + 2 + |EncodeItems(Chosen(cs))| <= out.Length
    modifies out
    ensures n == start + 2 + |EncodeItems(Chosen(cs))|
    ensures Wrote(old(out[..]), out[..], start, BigEndian(body, 2) + EncodeItems(Chosen(cs)))
  {
    n := PutWord(out, start, body, 2);
    ghost var mid := out[..];
    n := WriteChoices(out, n, cs);
    Joined(old(out[..]), mid, out[..], start, BigEndian(body, 2), EncodeItems(Chosen(cs)));
  }

  // ----- decoding -----

  /** The parameters after some were read: each has its last value, or what it had. */
  ghost function Stored(m: Message, init: Params, got: map<nat, seq<byte>>): Params
    requires AllAcceptable(m, got)
  {
    init.(
      maxStreamData := Number(got, 0, init.maxStreamData), maxData := Number(got, 1, init.maxData),
      maxStreamIdBidi := Number(got, 2, init.maxStreamIdBidi), maxStreamIdUni := Number(got, 8, init.maxStreamIdUni),
      idleTimeout := Number(got, 3, init.idleTimeout), omitConnectionId := 4 in got || init.omitConnectionId,
      maxPacketSize := Number(got, 5, init.maxPacketSize), token := if 6 in got then got[6] else init.token,
      exponent := Number(got, 7, init.exponent), ip := if 9 in got then Addresses(got[9]) else init.ip)
  }

  /** Sets the field of one parameter. */
  function Store(m: Message, p: Params, id: nat, data: seq<byte>): Params
    requires Acceptable(m, id, data)
  {
    match id
    case 0 => p.(maxStreamData := Value(data))
    case 1 => p.(maxData := Value(data))
    case 2 => p.(maxStreamIdBidi := Value(data))
    case 3 => p.(idleTimeout := Value(data))
    case 4 => p.(omitConnectionId := true)
    case 5 => p.(maxPacketSize := Value(data))
    case 6 => p.(token := data)
    case 7 => p.(exponent := data[0])
    case 8 => p.(maxStreamIdUni := Value(data))
    case 9 => p.(ip := Addresses(data))
    case _ => p
  }

  lemma StoreLow(m: Message, init: Params, got: map<nat, seq<byte>>, id: nat, data: seq<byte>)
    requires id < 5 && AllAcceptable(m, got) && Acceptable(m, id, data) && AllAcceptable(m, got[id := data])
    ensures Store(m, Stored(m, init, got), id, data) == Stored(m, init, got[id := data])
  {
  }

  lemma StoreHigh(m: Message, init: Params, got: map<nat, seq<byte>>, id: nat, data: seq<byte>)
    requires 5 <= id && AllAcceptable(m, got) && Acceptable(m, id, data) && AllAcceptable(m, got[id := data])
    ensures Store(m, Stored(m, init, got), id, data) == Stored(m, init, got[id := data])
  {
    if id == 7 {
      assert data[..0] == [];
      assert Value(data) == data[0];
    }
  }

  lemma StoreNext(m: Message, init: Params, got: map<nat, seq<byte>>, id: nat, data: seq<byte>)
    requires AllAcceptable(m, got) && Acceptable(m, id, data)
    ensures AllAcceptable(m, got[id := data])
    ensures Store(m, Stored(m, init, got), id, data) == Stored(m, init, got[id := data])
  {
    if id < 5 { StoreLow(m, init, got, id, data); } else { StoreHigh(m, init, got, id, data); }
  }

  /** Sets the parameters that were not there to their defaults. */
  method SetDefaults(p: Params, flags: set<nat>) returns (r: Params)
    ensures r == p.(maxStreamIdBidi := if 2 in flags then p.maxStreamIdBidi else 0,
                    maxStreamIdUni := if 8 in flags then p.maxStreamIdUni else 0,
                    omitConnectionId := 4 in flags && p.omitConnectionId,
                    maxPacketSize := if 5 in flags then p.maxPacketSize else MAX_PKT_SIZE,
                    exponent := if 7 in flags then p.exponent else DEFAULT_EXPONENT)
  {
    r := p;
    if 2 !in flags { r := r.(maxStreamIdBidi := 0); }
    if 8 !in flags { r := r.(maxStreamIdUni := 0); }
    if 4 !in flags { r := r.(omitConnectionId := false); }
    if 5 !in flags { r := r.(maxPacketSize := MAX_PKT_SIZE); }
    if 7 !in flags { r := r.(exponent := DEFAULT_EXPONENT); }
  }

  /** What is left to read completes `goal`. */
  ghost predicate Rest(goal: Option<seq<Item>>, done: seq<Item>, more: Option<seq<Item>>) {
    if more.None? then goal.None? else goal == Some(done + more.value)
  }

  lemma RestNext(m: Message, goal: Option<seq<Item>>, done: seq<Item>, s: seq<byte>)
    requires |s| >= 4 && Rest(goal, done, ReadItems(m, s))
    ensures var id, len, data := Value(s[..2]), Value(s[2..4]), s[4..];
            if |data| < len || !Acceptable(m, id, data[..len]) then goal.None?
            else Rest(goal, done + [Item(id, data[..len])], ReadItems(m, data[len..]))
  {
    var id, len, data := Value(s[..2]), Value(s[2..4]), s[4..];
    assert s[2..][..2] == s[2..4] && s[2..][2..] == data;
    if |data| >= len && Acceptable(m, id, data[..len]) && ReadItems(m, data[len..]).Some? {
      var more := ReadItems(m, data[len..]).value;
      assert done + ([Item(id, data[..len])] + more) == done + [Item(id, data[..len])] + more;
    }
  }

  lemma LatestNext(done: seq<Item>, x: Item)
    ensures Latest(done + [x]) == Latest(done)[x.id := x.data]
  {
    assert (done + [x])[..|done|] == done;
  }

  /** Reads the parameters up to the end, or fails. */
  method ReadParams(m: Message, init: Params, body: seq<byte>) returns (ok: bool, p: Params, flags: set<nat>)
    ensures ok <==> ReadItems(m, body).Some?
    ensures ok ==> AllAcceptable(m, Latest(ReadItems(m, body).value))
    ensures ok ==> var got := Latest(ReadItems(m, body).value); p == Stored(m, init, got) && flags == got.Keys
  {
    ghost var goal, done := ReadItems(m, body), [];
    var s := body;
    p, flags := init, {};
    assert goal.Some? ==> [] + goal.value == goal.value;
    while |s| >= 4
      invariant Rest(goal, done, ReadItems(m, s))
      invariant AllAcceptable(m, Latest(done)) && p == Stored(m, init, Latest(done)) && flags == Latest(done).Keys
      decreases |s|
    {
      RestNext(m, goal, done, s);
      var id, len := Value(s[..2]), Value(s[2..4]);
      s := s[4..];
      if |s| < len || !Acceptable(m, id, s[..len]) {
        return false, p, flags;
      }
      var data := s[..len];
      StoreNext(m, init, Latest(done), id, data);
      LatestNext(done, Item(id, data));
      p, flags := Store(m, p, id, data), flags + {id};
      done, s := done + [Item(id, data)], s[len..];
    }
    ok := s == [];
    assert done + [] == done;
  }

  method ReadVersions(s: seq<byte>, k: nat) returns (vs: seq<nat>)
    requires 4 * k <= |s|
    ensures ReadWords(s, k) == Some((vs, s[4 * k..]))
  {
    vs := [];
    ghost var goal := ReadWords(s, k);
    assert s[4 * 0..] == s;
    if goal.Some? { assert [] + goal.value.0 == goal.value.0; }
    for i := 0 to k
      invariant WordsDone(goal, vs, ReadWords(s[4 * i..], k - i))
    {
      assert s[4 * i..][4..] == s[4 * (i + 1)..];
      assert s[4 * i..][..4] == s[4 * i..4 * i + 4];
      WordsDoneNext(goal, vs, s[4 * i..], k - i);
      vs := vs + [Value(s[4 * i..4 * i + 4])];
    }
    assert vs + [] == vs;
  }

  ghost predicate WordsDone(goal: Option<(seq<nat>, seq<byte>)>, vs: seq<nat>, more: Option<(seq<nat>, seq<byte>)>) {
    if more.None? then goal.None? else goal == Some((vs + more.value.0, more.value.1))
  }

  lemma WordsDoneNext(goal: Option<(seq<nat>, seq<byte>)>, vs: seq<nat>, s: seq<byte>, k: nat)
    requires k > 0 && |s| >= 4 && WordsDone(goal, vs, ReadWords(s, k))
    ensures WordsDone(goal, vs + [Value(s[..4])], ReadWords(s[4..], k - 1))
  {
    var more := ReadWords(s[4..], k - 1);
    if more.Some? { assert vs + ([Value(s[..4])] + more.value.0) == vs + [Value(s[..4])] + more.value.0; }
  }

  /** Reads the versions of a message. */
  method ReadHeadOf(m: Message, init: Params, s: seq<byte>) returns (ok: bool, p: Params, n: nat)
    ensures ok <==> ReadHead(m, init, s).Some?
    ensures ok ==> n <= |s| && ReadHead(m, init, s) == Some((p, s[n..]))
  {
    p, n := init, 0;
    match m {
      case ClientHello =>
        if |s| < 4 {
          return false, p, n;
        }
        p, n := p.(version := Value(s[..4])), 4;
      case EncryptedExtensions =>
        if |s| < 4 + 1 {
          return false, p, n;
        }
        ok, p, n := ReadSupported(init, s);
        return;
      case NewSessionTicket =>
    }
    ok := true;
  }

  lemma {:induction false} WordsNeeded(s: seq<byte>, k: nat)
    ensures ReadWords(s, k).Some? ==> 4 * k <= |s|
    decreases k
  {
    if k > 0 && |s| >= 4 { WordsNeeded(s[4..], k - 1); }
  }

  method ReadSupported(init: Params, s: seq<byte>) returns (ok: bool, p: Params, n: nat)
    requires |s| >= 5
    ensures ok <==> ReadHead(EncryptedExtensions, init, s).Some?
    ensures ok ==> n <= |s| && ReadHead(EncryptedExtensions, init, s) == Some((p, s[n..]))
  {
    p := init.(version := Value(s[..4]));
    var len: nat := s[4];
    n := 5 + len;
    assert s[4..][..1] == [s[4]] && s[4..][1..] == s[5..];
    assert Value([s[4]]) == s[4] by { assert [s[4]][..0] == []; }
    WordsNeeded(s[5..], len / 4);
    ok := n <= |s| && len % 4 == 0;
    if ok {
      var vs := ReadVersions(s[5..], len / 4);
      assert s[5..][4 * (len / 4)..] == s[n..];
      p := p.(supported := vs);
    }
  }

  /** The decoder reads what `TransportParams.Decode` defines, or fails as it does. */
  method DecodeParams(m: Message, init: Params, data: seq<byte>) returns (r: Result)
    ensures r == Decode(m, init, data)
  {
    var ok, p, n := ReadHeadOf(m, init, data);
    if !ok || |data| - n < 2 {
      return Malformed;
    }
    assert data[n..][..2] == data[n..n + 2] && data[n..][2..] == data[n + 2..];
    if n + 2 + Value(data[n..n + 2]) != |data| {
      return Malformed;
    }
    r := DecodeRest(m, p, data[n + 2..]);
  }

  method DecodeRest(m: Message, init: Params, body: seq<byte>) returns (r: Result)
    ensures r == DecodeBody(m, init, body)
  {
    var ok, p, flags := ReadParams(m, init, body);
    if !ok {
      return Malformed;
    }
    if !Complete(m, flags) {
      return Required;
    }
    p := SetDefaults(p, flags);
    r := Ok(p);
  }
}
