/** Unpadding a whole buffer, and every cut of a stream into buffers. */
module VisionUnpad {
  import opened VisionFrame

  /** The stored state after a buffer: a finished stream is reset to initial. */
  function Stored(a: Auto): Parser {
    match a
    case Framed(p) => p
    case Raw(c) => Parser(-1, -1, -1, c)
  }

  predicate Usable(p: Parser) {
    IsInitial(p) || Active(p)
  }

  predicate StartsStream(uuid: Bytes, b: Bytes) {
    |b| >= 21 && b[..16] == uuid
  }

  /** One call on one buffer. */
  function Unpad(uuid: Bytes, p: Parser, b: Bytes): (r: (Parser, Bytes))
    requires Usable(p)
    ensures Usable(r.0) && |r.1| <= |b|
    ensures IsInitial(p) && StartsStream(uuid, b) ==> |r.1| + 16 <= |b|
  {
    if IsInitial(p) && !StartsStream(uuid, b) then (p, b)
    else
      var q, rest := if IsInitial(p) then p.(command := 5) else p, if IsInitial(p) then b[16..] else b;
      var (a, out) := Feed(Framed(q), rest);
      (Stored(a), out)
  }

  /** Successive calls on the buffers of one stream. */
  function UnpadAll(uuid: Bytes, p: Parser, bs: seq<Bytes>): (r: (Parser, Bytes))
    requires Usable(p)
    ensures Usable(r.0) && |r.1| <= |Concat(bs)|
    decreases |bs|
  {
    if bs == [] then (p, [])
    else
      var (p1, out1) := Unpad(uuid, p, bs[0]);
      var (p2, out2) := UnpadAll(uuid, p1, bs[1..]);
      (p2, out1 + out2)
  }

  /** Between streams a buffer is taken for a new one exactly if it has 21 bytes and
      starts with the id; otherwise it passes unchanged. */
  lemma BetweenStreams(uuid: Bytes, p: Parser, b: Bytes)
    requires IsInitial(p)
    ensures |b| < 21 || b[..16] != uuid ==> Unpad(uuid, p, b) == (p, b)
    ensures |b| >= 21 && b[..16] == uuid ==> Unpad(uuid, p, b) == Unpad(uuid, Parser(5, -1, -1, p.current), b[16..])
  {
    hide Feed;
  }

  // ----- where a frame ends -----

  /** Until the bytes due are in, the parser stays inside the frame. */
  lemma {:induction false} FeedDue(p: Parser, b: Bytes)
    requires Active(p) && p.command <= 0
    requires |b| < (if p.content > 0 then p.content else 0) + (if p.padding > 0 then p.padding else 0)
    ensures Feed(Framed(p), b).0.Framed? && Feed(Framed(p), b).0.p.command <= 0
    ensures Feed(Framed(p), b).0.p.current == p.current
    decreases |b|
  {
    if b != [] {
      var q := if p.content > 0 then p.(content := p.content - 1) else p.(padding := p.padding - 1);
      assert StepByte(p, b[0]).0 == Finish(q) == Framed(q);
      FeedDue(q, b[1..]);
    }
  }

  lemma {:induction false} FeedInHeader(p: Parser, b: Bytes)
    requires Active(p) && p.command > |b|
    ensures Feed(Framed(p), b).0.Framed?
    decreases |b|
  {
    if b != [] {
      var q := HeaderByte(p, b[0]);
      assert StepByte(p, b[0]).0 == Finish(q) == Framed(q);
      FeedInHeader(q, b[1..]);
    }
  }

  lemma FrameEndsLate(p: Parser, f: Frame, k: nat)
    requires AtHeader(p) && Encodable(f) && k < |Encode(f)|
    ensures Feed(Framed(p), Encode(f)[..k]).0.Framed?
  {
    hide StepByte, Feed;
    var e := Encode(f);
    if k < 5 {
      FeedInHeader(p, e[..k]);
    } else {
      var q := Parser(0, |f.content|, f.padding, f.command);
      FeedHeader(p, f);
      assert e[..k] == Header(f) + e[5..k];
      FeedAppend(Framed(p), Header(f), e[5..k]);
      FeedDue(q, e[5..k]);
    }
  }

  lemma FeedRaw(a: Auto, b: Bytes)
    requires a.Raw?
    ensures Feed(a, b).0.Raw?
  {
  }

  /** Only the last byte of the last frame ends the stream. */
  lemma {:induction false} StreamEndsLate(p: Parser, fs: seq<Frame>, k: nat)
    requires AtHeader(p) && Terminated(fs) && k < |EncodeAll(fs)|
    ensures Feed(Framed(p), EncodeAll(fs)[..k]).0.Framed?
    decreases |fs|
  {
    hide StepByte, Feed, Encode;
    var e, w := Encode(fs[0]), EncodeAll(fs);
    if |fs| == 1 {
      assert fs[1..] == [];
    }
    if k < |e| {
      assert w[..k] == e[..k];
      FrameEndsLate(p, fs[0], k);
    } else {
      FeedFrame(p, fs[0]);
      assert w[..k] == e + EncodeAll(fs[1..])[..k - |e|];
      FeedAppend(Framed(p), e, EncodeAll(fs[1..])[..k - |e|]);
      TailTerminated(fs);
      StreamEndsLate(Parser(5, 0, 0, 0), fs[1..], k - |e|);
    }
  }

  lemma TailTerminated(fs: seq<Frame>)
    requires Terminated(fs) && |fs| > 1
    ensures Terminated(fs[1..]) && fs[0].command == CONTINUE
  {
    var t := fs[1..];
    forall i | 0 <= i < |t|
      ensures t[i].command == CONTINUE <==> i < |t| - 1
    {
      assert t[i] == fs[i + 1];
    }
  }

  // ----- cutting the stream -----

  /** Some buffer would be taken for the start of a new stream. */
  predicate Restarts(uuid: Bytes, bs: seq<Bytes>) {
    exists i :: 0 <= i < |bs| && StartsStream(uuid, bs[i])
  }

  /** The buffers that begin n or more bytes into the stream. */
  function From(n: int, bs: seq<Bytes>): seq<Bytes>
    decreases |bs|
  {
    if n <= 0 || bs == [] then bs else From(n - |bs[0]|, bs[1..])
  }

  lemma RestartsCons(uuid: Bytes, bs: seq<Bytes>)
    requires bs != []
    ensures Restarts(uuid, bs) <==> StartsStream(uuid, bs[0]) || Restarts(uuid, bs[1..])
  {
    if i :| 0 <= i < |bs| && StartsStream(uuid, bs[i]) {
      if i > 0 {
        assert StartsStream(uuid, bs[1..][i - 1]);
      }
    }
    if Restarts(uuid, bs[1..]) {
      var i :| 0 <= i < |bs[1..]| && StartsStream(uuid, bs[1..][i]);
      assert StartsStream(uuid, bs[i + 1]);
    }
  }

  /** After the terminal frame buffers pass through unchanged, exactly unless one
      of them looks like a new stream. */
  lemma {:induction false} RawPhase(uuid: Bytes, p: Parser, bs: seq<Bytes>)
    requires IsInitial(p)
    ensures UnpadAll(uuid, p, bs).1 == Concat(bs) <==> !Restarts(uuid, bs)
    ensures !Restarts(uuid, bs) ==> UnpadAll(uuid, p, bs).0 == p
    decreases |bs|
  {
    hide Feed, StartsStream;
    if bs != [] {
      RestartsCons(uuid, bs);
      var (p1, out1) := Unpad(uuid, p, bs[0]);
      var out2 := UnpadAll(uuid, p1, bs[1..]).1;
      if StartsStream(uuid, bs[0]) {
        assert |out1 + out2| < |Concat(bs)|;
      } else {
        RawPhase(uuid, p, bs[1..]);
        SamePrefix(bs[0], out2, Concat(bs[1..]));
      }
    }
  }

  lemma SamePrefix(a: Bytes, b: Bytes, c: Bytes)
    ensures a + b == a + c <==> b == c
  {
    assert (a + b)[|a|..] == b && (a + c)[|a|..] == c;
  }

  lemma TwoCuts(b: Bytes, rest: Bytes, pre: Bytes, post: Bytes)
    requires b + rest == pre + post
    ensures |b| >= |pre| ==> b == pre + b[|pre|..] && post == b[|pre|..] + rest
    ensures |b| < |pre| ==> pre == b + pre[|b|..] && rest == pre[|b|..] + post
  {
    var w := b + rest;
    assert b == w[..|b|] && rest == w[|b|..] && pre == w[..|pre|] && post == w[|pre|..];
  }

  /** Everything up to the terminal frame's last byte is in buffer b. */
  lemma LastFramedBuffer(uuid: Bytes, p: Parser, b: Bytes, rest: seq<Bytes>, pre: Bytes, extra: Bytes)
    requires Active(p) && b == pre + extra && Feed(Framed(p), pre).0.Raw?
    ensures var out := Feed(Framed(p), pre).1;
      UnpadAll(uuid, p, [b] + rest).1 == out + (extra + Concat(rest)) <==> !Restarts(uuid, rest)
    ensures !Restarts(uuid, rest) ==> UnpadAll(uuid, p, [b] + rest).0 == Stored(Feed(Framed(p), pre).0)
  {
    hide Feed, Restarts, StartsStream, Concat;
    var out := Feed(Framed(p), pre).1;
    FeedAppend(Framed(p), pre, extra);
    FeedOfRaw(Feed(Framed(p), pre).0, extra);
    var (p1, out1) := Unpad(uuid, p, b);
    assert out1 == out + extra && IsInitial(p1);
    RawPhase(uuid, p1, rest);
    var out2 := UnpadAll(uuid, p1, rest).1;
    assert ([b] + rest)[1..] == rest;
    SamePrefix(out + extra, out2, Concat(rest));
    assert out + (extra + Concat(rest)) == (out + extra) + Concat(rest);
  }

  /** Inside the framed part, bytes pre end the stream and post follows. */
  lemma {:induction false} FramedPhase(uuid: Bytes, p: Parser, bs: seq<Bytes>, pre: Bytes, post: Bytes)
    requires Active(p) && pre != [] && Concat(bs) == pre + post
    requires Feed(Framed(p), pre).0.Raw?
    requires forall k :: 0 <= k < |pre| ==> Feed(Framed(p), pre[..k]).0.Framed?
    ensures UnpadAll(uuid, p, bs).1 == Feed(Framed(p), pre).1 + post <==> !Restarts(uuid, From(|pre|, bs))
    ensures !Restarts(uuid, From(|pre|, bs)) ==> UnpadAll(uuid, p, bs).0 == Stored(Feed(Framed(p), pre).0)
    decreases |bs|
  {
    hide Feed, StepByte, Restarts, StartsStream;
    var b, rest := bs[0], bs[1..];
    TwoCuts(b, Concat(rest), pre, post);
    if |b| >= |pre| {
      LastFramedBuffer(uuid, p, b, rest, pre, b[|pre|..]);
      assert bs == [b] + rest;
      assert From(|pre|, bs) == From(|pre| - |b|, rest) == rest;
    } else {
      var pre', a := pre[|b|..], Feed(Framed(p), b).0;
      assert b == pre[..|b|];
      FeedAppend(Framed(p), b, pre');
      forall k | 0 <= k < |pre'|
        ensures Feed(a, pre'[..k]).0.Framed?
      {
        assert pre[..|b| + k] == b + pre'[..k];
        FeedAppend(Framed(p), b, pre'[..k]);
      }
      FramedPhase(uuid, a.p, rest, pre', post);
      var out1, out2, tail := Feed(Framed(p), b).1, UnpadAll(uuid, a.p, rest).1, Feed(a, pre').1 + post;
      SamePrefix(out1, out2, tail);
      assert Feed(Framed(p), pre).1 + post == out1 + tail;
    }
  }

  lemma FeedOfRaw(a: Auto, b: Bytes)
    requires a.Raw?
    ensures Feed(a, b) == (a, b)
  {
  }

  /** The round trip. A stream is the user id, Continue frames, one terminal frame
      and any raw bytes after it. However it is cut into buffers (the first one
      holding at least the 21 bytes the parser looks at), unpadding returns
      exactly the contents followed by the raw bytes, if and only if no buffer
      that starts after the last frame has 21 bytes and begins with the id. */
  lemma RoundTrip(uuid: Bytes, fs: seq<Frame>, trailer: Bytes, bs: seq<Bytes>)
    requires |uuid| == 16 && Terminated(fs) && bs != [] && |bs[0]| >= 21
    requires Concat(bs) == uuid + EncodeAll(fs) + trailer
    ensures UnpadAll(uuid, Fresh, bs).1 == Contents(fs) + trailer
       <==> !Restarts(uuid, From(16 + |EncodeAll(fs)|, bs))
    ensures !Restarts(uuid, From(16 + |EncodeAll(fs)|, bs)) ==>
      UnpadAll(uuid, Fresh, bs).0 == Parser(-1, -1, -1, fs[|fs| - 1].command)
  {
    hide Feed, StepByte, Restarts, From, UnpadAll;
    var p := Fresh.(command := 5);
    var w, bs' := EncodeAll(fs), [bs[0][16..]] + bs[1..];
    assert bs[0][..16] == (uuid + w + trailer)[..16] == uuid;
    assert Concat(bs') == w + trailer by {
      assert bs'[1..] == bs[1..];
      assert (bs[0] + Concat(bs[1..]))[16..] == bs[0][16..] + Concat(bs[1..]);
      assert (uuid + w + trailer)[16..] == w + trailer;
    }
    FirstBuffer(uuid, p, bs, bs');
    FeedStream(p, fs, trailer);
    forall k | 0 <= k < |w|
      ensures Feed(Framed(p), w[..k]).0.Framed?
    {
      StreamEndsLate(p, fs, k);
    }
    assert w != [] by { assert w == Encode(fs[0]) + EncodeAll(fs[1..]); }
    FramedPhase(uuid, p, bs', w, trailer);
    assert From(16 + |w|, bs) == From(|w|, bs') by { FirstFrom(bs, bs', |w|); }
  }

  lemma FirstBuffer(uuid: Bytes, p: Parser, bs: seq<Bytes>, bs': seq<Bytes>)
    requires |uuid| == 16 && bs != [] && |bs[0]| >= 21 && bs[0][..16] == uuid
    requires p == Fresh.(command := 5) && bs' == [bs[0][16..]] + bs[1..]
    ensures UnpadAll(uuid, Fresh, bs) == UnpadAll(uuid, p, bs')
  {
    hide Feed;
    assert bs'[1..] == bs[1..] && StartsStream(uuid, bs[0]);
    assert Unpad(uuid, Fresh, bs[0]) == Unpad(uuid, p, bs[0][16..]);
  }

  lemma FirstFrom(bs: seq<Bytes>, bs': seq<Bytes>, n: nat)
    requires bs != [] && |bs[0]| >= 16 && bs' == [bs[0][16..]] + bs[1..] && n > 0
    ensures From(16 + n, bs) == From(n, bs')
  {
    assert bs'[1..] == bs[1..];
  }

  /** Before any terminal frame has arrived: exactly the contents so far. */
  lemma RoundTripContinue(uuid: Bytes, fs: seq<Frame>, bs: seq<Bytes>)
    requires |uuid| == 16 && AllContinue(fs) && bs != [] && |bs[0]| >= 21
    requires Concat(bs) == uuid + EncodeAll(fs)
    ensures UnpadAll(uuid, Fresh, bs).1 == Contents(fs)
  {
    hide Feed, StepByte, UnpadAll;
    var p := Fresh.(command := 5);
    var w, bs' := EncodeAll(fs), [bs[0][16..]] + bs[1..];
    assert bs[0][..16] == (uuid + w)[..16] == uuid;
    assert Concat(bs') == w by {
      assert bs'[1..] == bs[1..];
      assert (bs[0] + Concat(bs[1..]))[16..] == bs[0][16..] + Concat(bs[1..]);
      assert (uuid + w)[16..] == w;
    }
    FirstBuffer(uuid, p, bs, bs');
    FeedContinue(p, fs);
    StillFramed(uuid, p, bs');
  }

  lemma {:induction false} StillFramed(uuid: Bytes, p: Parser, bs: seq<Bytes>)
    requires Active(p) && Feed(Framed(p), Concat(bs)).0.Framed?
    ensures UnpadAll(uuid, p, bs) == (Feed(Framed(p), Concat(bs)).0.p, Feed(Framed(p), Concat(bs)).1)
    decreases |bs|
  {
    hide StepByte;
    if bs != [] {
      FeedAppend(Framed(p), bs[0], Concat(bs[1..]));
      var a := Feed(Framed(p), bs[0]).0;
      if a.Raw? {
        FeedRaw(a, Concat(bs[1..]));
        assert false;
      }
      StillFramed(uuid, a.p, bs[1..]);
    }
  }

  /** The exception is real: a raw buffer that repeats the user id after the last
      frame is parsed again and loses bytes. */
  lemma RestartLosesBytes(uuid: Bytes, b: Bytes)
    requires |uuid| == 16 && StartsStream(uuid, b)
    ensures UnpadAll(uuid, Parser(-1, -1, -1, 1), [b]).1 != b
  {
    hide Feed;
    assert [b][1..] == [];
  }
}
