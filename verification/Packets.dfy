/**
 The payload of a packet: frames one after another.
 */
module Packets {
  import opened Basics
  import opened Frames
  import opened FrameReader

  datatype Contents = Contents(frames: seq<Frame>, complete: bool)

  /** The frames of a payload, up to the first that cannot be read. */
  function DecodeAll(payload: seq<byte>): (r: Contents)
    decreases |payload|
  {
    if payload == [] then Contents([], true) else
    match Decode(payload)
    case None => Contents([], false)
    case Some((f, rest)) => var c := DecodeAll(rest); Contents([f] + c.frames, c.complete)
  }

  /** After `frames`, what is left of the payload completes `goal`. */
  ghost predicate Completed(goal: Contents, frames: seq<Frame>, more: Contents) {
    goal == Contents(frames + more.frames, more.complete)
  }

  lemma CompletedNext(goal: Contents, frames: seq<Frame>, s: seq<byte>)
    requires s != [] && Completed(goal, frames, DecodeAll(s))
    ensures match Decode(s)
            case None => goal == Contents(frames, false)
            case Some((f, rest)) => Completed(goal, frames + [f], DecodeAll(rest))
  {
    match Decode(s)
    case None =>
      assert frames + [] == frames;
    case Some((f, rest)) =>
      assert frames + ([f] + DecodeAll(rest).frames) == frames + [f] + DecodeAll(rest).frames;
  }

  /** Reads a packet frame by frame, and stops at the first frame that cannot be read. */
  method DecodePacket(payload: seq<byte>) returns (c: Contents)
    ensures c == DecodeAll(payload)
  {
    ghost var goal := DecodeAll(payload);
    var frames, s := [], payload;
    assert [] + goal.frames == goal.frames;
    while s != []
      invariant Completed(goal, frames, DecodeAll(s))
      decreases |s|
    {
      CompletedNext(goal, frames, s);
      var r := DecodeFrame(s);
      if r.None? {
        return Contents(frames, false);
      }
      var (f, n) := r.value;
      frames, s := frames + [f], s[n..];
    }
    assert frames + [] == frames;
    c := Contents(frames, true);
  }

  /** Frames that can share a packet: PADDING does not follow PADDING. */
  ghost predicate Packable(fs: seq<Frame>) {
    && (forall i :: 0 <= i < |fs| ==> WellFormed(fs[i]))
    && (forall i :: 0 < i < |fs| ==> fs[i - 1].Padding? ==> !fs[i].Padding?)
  }

  ghost function EncodePacket(fs: seq<Frame>): seq<byte>
    requires Packable(fs)
  {
    if fs == [] then [] else
    assert WellFormed(fs[0]);
    PackableTail(fs);
    Frames.Encode(fs[0], EncodePacket(fs[1..]))
  }

  lemma PackableTail(fs: seq<Frame>)
    requires Packable(fs) && fs != []
    ensures Packable(fs[1..])
  {
    var gs := fs[1..];
    forall i | 0 <= i < |gs| ensures WellFormed(gs[i]) { assert WellFormed(fs[i + 1]); }
    forall i | 0 < i < |gs| && gs[i - 1].Padding? ensures !gs[i].Padding? { assert gs[i] == fs[i + 1]; }
  }

  /** A frame other than PADDING does not start with a zero byte. */
  lemma NotZero(f: Frame, tail: seq<byte>)
    requires WellFormed(f) && !f.Padding?
    ensures Frames.Encode(f, tail)[0] != 0
  {
  }

  lemma PaddingEnds(fs: seq<Frame>)
    requires Packable(fs) && fs != [] && fs[0].Padding? && Packable(fs[1..])
    ensures var tail := EncodePacket(fs[1..]); tail == [] || tail[0] != 0
  {
    var gs := fs[1..];
    if gs != [] {
      assert fs[1] == gs[0] && !gs[0].Padding?;
      PackableTail(gs);
      NotZero(gs[0], EncodePacket(gs[1..]));
    }
  }

  function Arrivals(fs: seq<Frame>): (r: seq<Frame>)
    ensures |r| == |fs| && forall i :: 0 <= i < |fs| ==> r[i] == Arriving(fs[i])
  {
    if fs == [] then [] else [Arriving(fs[0])] + Arrivals(fs[1..])
  }

  lemma DecodeFirst(s: seq<byte>, f: Frame, rest: seq<byte>)
    requires s != [] && Decode(s) == Some((f, rest))
    ensures DecodeAll(s) == Contents([f] + DecodeAll(rest).frames, DecodeAll(rest).complete)
  {
  }

  /** The frames of a packet are read back one by one, in order, and nothing else. */
  lemma {:induction false} PacketRoundTrip(fs: seq<Frame>)
    requires Packable(fs)
    ensures DecodeAll(EncodePacket(fs)) == Contents(Arrivals(fs), true)
  {
    if fs != [] {
      PackableTail(fs);
      var f, tail := fs[0], EncodePacket(fs[1..]);
      PacketRoundTrip(fs[1..]);
      if f.Padding? { PaddingEnds(fs); }
      RoundTrip(f, tail);
      DecodeFirst(Frames.Encode(f, tail), Arriving(f), tail);
    }
  }
}
