/**
 * Cutting an inbound byte stream into frames: a header of fixed size from which the body length is
 * read. The cutting loop runs on whatever has arrived so far; its result must not depend on how the
 * stream was split on the way.
 */
module Framing {
  import opened Bytes

  /** The adapter's view of a protocol: any pure function may read the body length. */
  datatype Protocol = Protocol(headSize: nat, bodyLength: seq<Byte> -> int, maxBody: int)

  ghost predicate Usable(p: Protocol) {
    p.headSize >= 1
  }

  datatype Cut = Cut(frames: seq<seq<Byte>>, rest: seq<Byte>, close: bool)

  /** One look at the buffer: wait for more, refuse the header, or take a frame of that length. */
  datatype Look = Wait | Refuse | Take(length: nat)

  function Inspect(p: Protocol, buffer: seq<Byte>): (l: Look)
    ensures l.Take? ==> p.headSize <= l.length <= |buffer| && p.bodyLength(buffer[..p.headSize]) == l.length - p.headSize
  {
    if |buffer| < p.headSize then Wait
    else
      var n := p.bodyLength(buffer[..p.headSize]);
      if n < 0 || n > p.maxBody then Refuse
      else if |buffer| < p.headSize + n then Wait
      else Take(p.headSize + n)
  }

  function Split(p: Protocol, buffer: seq<Byte>): Cut
    requires Usable(p)
    decreases |buffer|
  {
    match Inspect(p, buffer)
    case Wait => Cut([], buffer, false)
    case Refuse => Cut([], buffer, true)
    case Take(n) =>
      var c := Split(p, buffer[n..]);
      c.(frames := [buffer[..n]] + c.frames)
  }

  function Concat(frames: seq<seq<Byte>>): seq<Byte> {
    if frames == [] then [] else frames[0] + Concat(frames[1..])
  }

  // ---- a connection that is fed piece by piece ----

  datatype Stream = Stream(buffer: seq<Byte>, delivered: seq<seq<Byte>>, closed: bool)

  const EMPTY := Stream([], [], false)

  /** Bytes that arrive after the close decision are never looked at. */
  function Feed(p: Protocol, s: Stream, piece: seq<Byte>): Stream
    requires Usable(p)
  {
    if s.closed then s.(buffer := s.buffer + piece)
    else
      var c := Split(p, s.buffer + piece);
      Stream(c.rest, s.delivered + c.frames, c.close)
  }

  function FeedAll(p: Protocol, s: Stream, pieces: seq<seq<Byte>>): Stream
    requires Usable(p)
    decreases |pieces|
  {
    if pieces == [] then s else FeedAll(p, Feed(p, s, pieces[0]), pieces[1..])
  }

  // ---- laws ----

  lemma InspectMore(p: Protocol, buffer: seq<Byte>, more: seq<Byte>)
    requires !Inspect(p, buffer).Wait?
    ensures Inspect(p, buffer + more) == Inspect(p, buffer)
  {
    assert (buffer + more)[..p.headSize] == buffer[..p.headSize];
  }

  /** Bytes that come later only continue from what was left over. */
  lemma {:induction false} SplitMore(p: Protocol, buffer: seq<Byte>, more: seq<Byte>)
    requires Usable(p)
    ensures var c := Split(p, buffer);
            Split(p, buffer + more) ==
            if c.close then c.(rest := c.rest + more)
            else var d := Split(p, c.rest + more); d.(frames := c.frames + d.frames)
    decreases |buffer|
  {
    match Inspect(p, buffer)
    case Wait =>
      var d := Split(p, buffer + more);
      assert [] + d.frames == d.frames;
    case Refuse => InspectMore(p, buffer, more);
    case Take(n) =>
      InspectMore(p, buffer, more);
      assert (buffer + more)[..n] == buffer[..n] && (buffer + more)[n..] == buffer[n..] + more;
      SplitMore(p, buffer[n..], more);
      var c := Split(p, buffer);
      if !c.close {
        var d := Split(p, c.rest + more);
        assert [buffer[..n]] + (c.frames[1..] + d.frames) == c.frames + d.frames;
      }
  }

  /** A stream between two feeds holds no complete frame and no refused header. */
  ghost predicate Settled(p: Protocol, s: Stream)
    requires Usable(p)
  {
    s.closed || Split(p, s.buffer) == Cut([], s.buffer, false)
  }

  lemma {:induction false} SplitSettles(p: Protocol, buffer: seq<Byte>)
    requires Usable(p)
    ensures var c := Split(p, buffer); Split(p, c.rest) == Cut([], c.rest, c.close)
    decreases |buffer|
  {
    if Inspect(p, buffer).Take? {
      SplitSettles(p, buffer[Inspect(p, buffer).length..]);
    }
  }

  lemma FeedTwice(p: Protocol, s: Stream, a: seq<Byte>, b: seq<Byte>)
    requires Usable(p)
    ensures Feed(p, Feed(p, s, a), b) == Feed(p, s, a + b)
  {
    assert s.buffer + (a + b) == s.buffer + a + b;
    if !s.closed {
      SplitMore(p, s.buffer + a, b);
      var c := Split(p, s.buffer + a);
      if !c.close {
        var d := Split(p, c.rest + b);
        assert s.delivered + (c.frames + d.frames) == s.delivered + c.frames + d.frames;
      }
    }
  }

  lemma {:induction false} FeedNothing(p: Protocol, s: Stream)
    requires Usable(p) && Settled(p, s)
    ensures Feed(p, s, []) == s
  {
    assert s.buffer + [] == s.buffer;
    if !s.closed {
      assert s.delivered + [] == s.delivered;
    }
  }

  /** Feeding in pieces is feeding whole: same frames, same leftover, same close decision. */
  lemma {:induction false} PiecesDoNotMatter(p: Protocol, s: Stream, pieces: seq<seq<Byte>>)
    requires Usable(p) && Settled(p, s)
    ensures FeedAll(p, s, pieces) == Feed(p, s, Concat(pieces))
    decreases |pieces|
  {
    if pieces == [] {
      FeedNothing(p, s);
    } else {
      var t := Feed(p, s, pieces[0]);
      FeedSettles(p, s, pieces[0]);
      PiecesDoNotMatter(p, t, pieces[1..]);
      FeedTwice(p, s, pieces[0], Concat(pieces[1..]));
    }
  }

  lemma FeedSettles(p: Protocol, s: Stream, piece: seq<Byte>)
    requires Usable(p)
    ensures Settled(p, Feed(p, s, piece))
  {
    if !s.closed {
      SplitSettles(p, s.buffer + piece);
    }
  }

  /** Any two ways to cut the same stream end in the same state. */
  lemma ChunkingIsIrrelevant(p: Protocol, a: seq<seq<Byte>>, b: seq<seq<Byte>>)
    requires Usable(p) && Concat(a) == Concat(b)
    ensures FeedAll(p, EMPTY, a) == FeedAll(p, EMPTY, b)
  {
    assert Split(p, []) == Cut([], [], false);
    PiecesDoNotMatter(p, EMPTY, a);
    PiecesDoNotMatter(p, EMPTY, b);
  }

  predicate IsFrame(p: Protocol, f: seq<Byte>) {
    |f| >= p.headSize && p.bodyLength(f[..p.headSize]) == |f| - p.headSize <= p.maxBody
  }

  /** No byte is lost, invented or reordered. */
  lemma {:induction false} SplitKeepsBytes(p: Protocol, buffer: seq<Byte>)
    requires Usable(p)
    ensures Concat(Split(p, buffer).frames) + Split(p, buffer).rest == buffer
    decreases |buffer|
  {
    var look := Inspect(p, buffer);
    if look.Take? {
      SplitKeepsBytes(p, buffer[look.length..]);
      var later := Split(p, buffer[look.length..]);
      ConcatCons(buffer[..look.length], later.frames, later.rest);
    }
  }

  lemma ConcatCons(f: seq<Byte>, frames: seq<seq<Byte>>, rest: seq<Byte>)
    ensures Concat([f] + frames) + rest == f + (Concat(frames) + rest)
  {
    assert ([f] + frames)[1..] == frames;
  }

  /** Only whole frames are delivered. */
  lemma {:induction false} SplitGivesFrames(p: Protocol, buffer: seq<Byte>, i: nat)
    requires Usable(p) && i < |Split(p, buffer).frames|
    ensures IsFrame(p, Split(p, buffer).frames[i])
    decreases i
  {
    var n := Inspect(p, buffer).length;
    if i == 0 {
      assert buffer[..n][..p.headSize] == buffer[..p.headSize];
    } else {
      SplitGivesFrames(p, buffer[n..], i - 1);
    }
  }

  lemma SplitFrame(p: Protocol, f: seq<Byte>, rest: seq<Byte>)
    requires Usable(p) && IsFrame(p, f)
    ensures var c := Split(p, rest); Split(p, f + rest) == c.(frames := [f] + c.frames)
  {
    assert (f + rest)[..p.headSize] == f[..p.headSize];
    assert (f + rest)[..|f|] == f && (f + rest)[|f|..] == rest;
  }

  /** Whatever frames a peer sends back to back are the frames that come out. */
  lemma {:induction false} FramesComeBack(p: Protocol, frames: seq<seq<Byte>>, tail: seq<Byte>)
    requires Usable(p) && forall i :: 0 <= i < |frames| ==> IsFrame(p, frames[i])
    ensures var d := Split(p, tail);
            Split(p, Concat(frames) + tail) == d.(frames := frames + d.frames)
    decreases |frames|
  {
    if frames == [] {
      assert [] + tail == tail && [] + Split(p, tail).frames == Split(p, tail).frames;
    } else {
      FramesComeBack(p, frames[1..], tail);
      SplitFrame(p, frames[0], Concat(frames[1..]) + tail);
      assert Concat(frames) + tail == frames[0] + (Concat(frames[1..]) + tail);
      assert [frames[0]] + (frames[1..] + Split(p, tail).frames) == frames + Split(p, tail).frames;
    }
  }

  /** The length a complete header gives is negative or above the limit. */
  predicate BadHeader(p: Protocol, buffer: seq<Byte>) {
    |buffer| >= p.headSize && (p.bodyLength(buffer[..p.headSize]) < 0 || p.bodyLength(buffer[..p.headSize]) > p.maxBody)
  }

  /** The stream is closed exactly when what is left begins with a bad header; otherwise the rest is the start of a frame not all there. */
  lemma {:induction false} ClosesExactly(p: Protocol, buffer: seq<Byte>)
    requires Usable(p)
    ensures var c := Split(p, buffer);
            && (c.close <==> BadHeader(p, c.rest))
            && (!c.close ==> |c.rest| < p.headSize || |c.rest| < p.headSize + p.bodyLength(c.rest[..p.headSize]))
    decreases |buffer|
  {
    if Inspect(p, buffer).Take? {
      ClosesExactly(p, buffer[Inspect(p, buffer).length..]);
    }
  }

  // ---- the loop ----

  /** With `seen` cut off, what remains to be cut of `all` is `rest`. */
  ghost predicate Ahead(p: Protocol, all: seq<Byte>, seen: seq<seq<Byte>>, rest: seq<Byte>)
    requires Usable(p)
  {
    var d := Split(p, rest);
    Split(p, all) == Cut(seen + d.frames, d.rest, d.close)
  }

  lemma AheadStart(p: Protocol, all: seq<Byte>, none: seq<seq<Byte>>)
    requires Usable(p) && |none| == 0
    ensures Ahead(p, all, none, all)
  {
    assert none + Split(p, all).frames == Split(p, all).frames;
  }

  lemma AheadTake(p: Protocol, all: seq<Byte>, seen: seq<seq<Byte>>, rest: seq<Byte>, n: nat)
    requires Usable(p) && Ahead(p, all, seen, rest) && Inspect(p, rest) == Take(n)
    ensures Ahead(p, all, seen + [rest[..n]], rest[n..])
  {
    var later := Split(p, rest[n..]).frames;
    assert seen + ([rest[..n]] + later) == (seen + [rest[..n]]) + later;
  }

  lemma AheadEnd(p: Protocol, all: seq<Byte>, seen: seq<seq<Byte>>, rest: seq<Byte>)
    requires Usable(p) && Ahead(p, all, seen, rest) && !Inspect(p, rest).Take?
    ensures Split(p, all) == Cut(seen, rest, Inspect(p, rest).Refuse?)
  {
    assert seen + Split(p, rest).frames == seen;
  }

  class Inbound {
    var buffered: seq<Byte>
    var delivered: seq<seq<Byte>>
    var received: nat

    /** Runs whenever bytes have arrived; true asks for the connection to be closed. */
    method OnTraffic(p: Protocol) returns (close: bool)
      requires Usable(p)
      modifies this
      ensures var c := Split(p, old(buffered));
              buffered == c.rest && delivered == old(delivered) + c.frames && close == c.close
      ensures received + |buffered| == old(received) + |old(buffered)|
    {
      ghost var seen: seq<seq<Byte>> := [];
      AheadStart(p, buffered, seen);
      while true
        invariant delivered == old(delivered) + seen && Ahead(p, old(buffered), seen, buffered)
        invariant received + |buffered| == old(received) + |old(buffered)|
        decreases |buffered|
      {
        if |buffered| < p.headSize {
          AheadEnd(p, old(buffered), seen, buffered);
          return false;
        }
        var bodyLen := p.bodyLength(buffered[..p.headSize]);
        if bodyLen < 0 || bodyLen > p.maxBody {
          AheadEnd(p, old(buffered), seen, buffered);
          return true;
        }
        var total := p.headSize + bodyLen;
        if |buffered| < total {
          AheadEnd(p, old(buffered), seen, buffered);
          return false;
        }
        AheadTake(p, old(buffered), seen, buffered, total);
        seen := seen + [buffered[..total]];
        delivered := delivered + [buffered[..total]];
        received := received + total;
        buffered := buffered[total..];
      }
    }
  }
}
