/** The receiving end of a Vision connection: when it leaves padding mode, when
    it switches to the raw connection, and what it delivers. */
module VisionReader {
  import opened Words
  import opened VisionFrame
  import opened VisionUnpad
  import opened VisionPad
  import opened VisionState

  /** Reader fields of one direction. */
  datatype Mode = Mode(within: bool, direct: bool, parser: Parser)

  const Start := Mode(true, false, Fresh)

  /** What one read call gets from the inner reader (or, after the switch, from
      the raw connection), and whether the TLS filter is still looking. */
  datatype Read = Read(bufs: seq<Bytes>, filtering: bool)

  /** The reader takes this parser state for the end of padding. */
  predicate Leaves(p: Parser) {
    p.content <= 0 && p.padding <= 0 && p.current != 0
  }

  /** The mode after the buffers of one read have been unpadded. */
  function Decide(m: Mode, p: Parser): Mode {
    if !Leaves(p) then Mode(true, m.direct, p)
    else if p.current == 1 then Mode(false, m.direct, p)
    else if p.current == 2 then Mode(false, true, p)
    else m.(parser := p)
  }

  /** One read call; "held" is what the TLS connection holds decrypted, followed by
      what it holds undecrypted. */
  function ReadStep(uuid: Bytes, m: Mode, r: Read, held: Bytes): (Mode, Bytes)
    requires Usable(m.parser)
  {
    if Concat(r.bufs) == [] || m.direct || (!m.within && !r.filtering) then (m, Concat(r.bufs))
    else
      var (p, out) := UnpadAll(uuid, m.parser, r.bufs);
      var n := Decide(m, p);
      (n, out + if n.direct then held else [])
  }

  lemma StepUsable(uuid: Bytes, m: Mode, r: Read, held: Bytes)
    requires Usable(m.parser)
    ensures Usable(ReadStep(uuid, m, r, held).0.parser)
  {
  }

  /** A run of read calls from the start. */
  function Run(uuid: Bytes, rs: seq<Read>, held: Bytes): (res: (Mode, Bytes))
    ensures Usable(res.0.parser)
  {
    if rs == [] then (Start, [])
    else
      var n := |rs| - 1;
      var (m, out) := Run(uuid, rs[..n], held);
      StepUsable(uuid, m, rs[n], held);
      var (m', out') := ReadStep(uuid, m, rs[n], held);
      (m', out + out')
  }

  /** All buffers of a run, in order. */
  function Bufs(rs: seq<Read>): seq<Bytes> {
    if rs == [] then [] else Bufs(rs[..|rs| - 1]) + rs[|rs| - 1].bufs
  }

  function Sent(rs: seq<Read>): Bytes {
    Concat(Bufs(rs))
  }

  // ----- the parser inside a terminal header -----

  /** k bytes into the header of a terminal frame, when the lengths read so far
      are still zero. */
  predicate LooksFinished(f: Frame, k: int) {
    || k == 1
    || (k == 2 && |f.content| < 256)
    || (k == 3 && |f.content| == 0)
    || (k == 4 && |f.content| == 0 && f.padding < 256)
  }

  /** The same at position n of a stream of frames. */
  predicate EarlyCut(fs: seq<Frame>, n: int)
    requires forall f :: f in fs ==> Encodable(f)
    decreases |fs|
  {
    fs != [] && if fs[0].command != CONTINUE then LooksFinished(fs[0], n) else EarlyCut(fs[1..], n - |Encode(fs[0])|)
  }

  lemma HeaderState(p: Parser, f: Frame, k: nat)
    requires AtHeader(p) && p.current == 0 && Encodable(f) && k < 5
    ensures var a := Feed(Framed(p), Header(f)[..k]).0;
      a.Framed? && (Leaves(a.p) <==> f.command != CONTINUE && LooksFinished(f, k)) && (Leaves(a.p) ==> a.p.current == f.command)
  {
    var h := Header(f);
    var p4 := p.(command := 4, current := f.command);
    var p3 := p4.(command := 3, content := (h[1] as int) * 256);
    var p2 := p4.(command := 2, content := |f.content|);
    var p1 := p2.(command := 1, padding := (h[3] as int) * 256);
    HeaderSteps(p, f, p4, p3, p2, p1);
    HeaderPrefix(p, p4, p3, p2, p1, h, k);
  }

  lemma HeaderSteps(p: Parser, f: Frame, p4: Parser, p3: Parser, p2: Parser, p1: Parser)
    requires AtHeader(p) && Encodable(f)
    requires p4 == p.(command := 4, current := f.command) && p3 == p4.(command := 3, content := (Header(f)[1] as int) * 256)
    requires p2 == p4.(command := 2, content := |f.content|) && p1 == p2.(command := 1, padding := (Header(f)[3] as int) * 256)
    ensures Active(p4) && Active(p3) && Active(p2) && Active(p1)
    ensures StepByte(p, Header(f)[0]) == (Framed(p4), []) && StepByte(p4, Header(f)[1]) == (Framed(p3), [])
    ensures StepByte(p3, Header(f)[2]) == (Framed(p2), []) && StepByte(p2, Header(f)[3]) == (Framed(p1), [])
  {
    hide BitOr;
    Or256(p3, Header(f)[2]);
  }

  lemma HeaderPrefix(p: Parser, p4: Parser, p3: Parser, p2: Parser, p1: Parser, h: Bytes, k: nat)
    requires |h| == 5 && k < 5 && Active(p) && Active(p4) && Active(p3) && Active(p2) && Active(p1)
    requires StepByte(p, h[0]) == (Framed(p4), []) && StepByte(p4, h[1]) == (Framed(p3), [])
    requires StepByte(p3, h[2]) == (Framed(p2), []) && StepByte(p2, h[3]) == (Framed(p1), [])
    ensures Feed(Framed(p), h[..k]).0 == Framed(match k case 0 => p case 1 => p4 case 2 => p3 case 3 => p2 case _ => p1)
  {
    hide StepByte;
    if k == 0 {
      FeedEmpty(Framed(p));
    } else {
      Take(p, p4, h[..k]);
      if k > 1 {
        Take(p4, p3, h[..k][1..]);
        if k > 2 {
          Take(p3, p2, h[..k][1..][1..]);
          if k > 3 {
            Take(p2, p1, h[..k][1..][1..][1..]);
          }
        }
      }
    }
  }

  lemma Take(p: Parser, q: Parser, b: Bytes)
    requires Active(p) && Active(q) && b != [] && StepByte(p, b[0]) == (Framed(q), [])
    ensures Feed(Framed(p), b).0 == Feed(Framed(q), b[1..]).0
    ensures |b| == 1 ==> Feed(Framed(p), b).0 == Framed(q)
  {
    hide StepByte;
  }

  /** Inside one frame the reader leaves exactly at the cuts above. */
  lemma FrameState(p: Parser, f: Frame, k: nat)
    requires AtHeader(p) && p.current == 0 && Encodable(f) && k < |Encode(f)|
    ensures var a := Feed(Framed(p), Encode(f)[..k]).0;
      a.Framed? && (Leaves(a.p) <==> f.command != CONTINUE && LooksFinished(f, k)) && (Leaves(a.p) ==> a.p.current == f.command)
  {
    hide StepByte, Feed;
    var e := Encode(f);
    if k < 5 {
      HeaderState(p, f, k);
      assert e[..k] == Header(f)[..k];
    } else {
      var q := Parser(0, |f.content|, f.padding, f.command);
      FeedHeader(p, f);
      assert e[..k] == Header(f) + e[5..k];
      FeedAppend(Framed(p), Header(f), e[5..k]);
      FeedDue(q, e[5..k]);
    }
  }

  lemma {:induction false} StreamState(p: Parser, fs: seq<Frame>, n: nat)
    requires AtHeader(p) && p.current == 0 && Terminated(fs) && n < |EncodeAll(fs)|
    ensures var a := Feed(Framed(p), EncodeAll(fs)[..n]).0;
      a.Framed? && (Leaves(a.p) <==> EarlyCut(fs, n)) && (Leaves(a.p) ==> a.p.current == fs[|fs| - 1].command)
    decreases |fs|
  {
    hide StepByte, Feed, Encode, LooksFinished, Leaves;
    var e, w := Encode(fs[0]), EncodeAll(fs);
    if |fs| == 1 {
      assert fs[1..] == [] && e + [] == e;
      FrameState(p, fs[0], n);
    } else {
      TailTerminated(fs);
      if n < |e| {
        assert w[..n] == e[..n];
        FrameState(p, fs[0], n);
        NoCutBefore(fs[1..], n - |e|);
      } else {
        FeedFrame(p, fs[0]);
        assert w[..n] == e + EncodeAll(fs[1..])[..n - |e|];
        FeedAppend(Framed(p), e, EncodeAll(fs[1..])[..n - |e|]);
        StreamState(Parser(5, 0, 0, 0), fs[1..], n - |e|);
      }
    }
  }

  lemma {:induction false} NoCutBefore(fs: seq<Frame>, n: int)
    requires (forall f :: f in fs ==> Encodable(f)) && n <= 0
    ensures !EarlyCut(fs, n)
    decreases |fs|
  {
    hide Encode;
    if fs != [] && fs[0].command == CONTINUE {
      NoCutBefore(fs[1..], n - |Encode(fs[0])|);
    }
  }

  // ----- runs while the terminal frame is still to come -----

  lemma {:induction false} UnpadAllAppend(uuid: Bytes, p: Parser, a: seq<Bytes>, b: seq<Bytes>)
    requires Usable(p)
    ensures var (q, out) := UnpadAll(uuid, p, a); var (r, out') := UnpadAll(uuid, q, b);
      UnpadAll(uuid, p, a + b) == (r, out + out')
    decreases |a|
  {
    hide Unpad;
    if a == [] {
      assert a + b == b;
      assert [] + UnpadAll(uuid, p, b).1 == UnpadAll(uuid, p, b).1;
    } else {
      assert (a + b)[1..] == a[1..] + b && (a + b)[0] == a[0];
      var (p1, out1) := Unpad(uuid, p, a[0]);
      UnpadAllAppend(uuid, p1, a[1..], b);
      var (q, out2) := UnpadAll(uuid, p1, a[1..]);
      var out3 := UnpadAll(uuid, q, b).1;
      assert out1 + (out2 + out3) == out1 + out2 + out3;
    }
  }

  lemma {:induction false} UnpadNothing(uuid: Bytes, p: Parser, bs: seq<Bytes>)
    requires Usable(p) && Concat(bs) == []
    ensures UnpadAll(uuid, p, bs) == (p, [])
    decreases |bs|
  {
    if bs != [] {
      assert bs[0] == [] && Concat(bs[1..]) == [];
      UnpadNothing(uuid, p, bs[1..]);
    }
  }

  /** So far every read has been unpadded and none has left padding mode. */
  ghost predicate Tracks(uuid: Bytes, rs: seq<Read>, held: Bytes) {
    var (p, out) := UnpadAll(uuid, Fresh, Bufs(rs));
    Run(uuid, rs, held) == (Mode(true, false, p), out)
  }

  /** One more read after such a run. */
  lemma TrackStep(uuid: Bytes, rs: seq<Read>, held: Bytes)
    requires rs != [] && Tracks(uuid, rs[..|rs| - 1], held)
    ensures var (p, out) := UnpadAll(uuid, Fresh, Bufs(rs));
      if Concat(rs[|rs| - 1].bufs) == [] then Tracks(uuid, rs, held)
      else Run(uuid, rs, held) == (Decide(Mode(true, false, Fresh), p), out + if Decide(Mode(true, false, Fresh), p).direct then held else [])
  {
    hide UnpadAll, Leaves;
    var before, last := rs[..|rs| - 1], rs[|rs| - 1];
    var (q, out) := UnpadAll(uuid, Fresh, Bufs(before));
    UnpadAllAppend(uuid, Fresh, Bufs(before), last.bufs);
    if Concat(last.bufs) == [] {
      UnpadNothing(uuid, q, last.bufs);
    } else {
      var (r, out') := UnpadAll(uuid, q, last.bufs);
      var n := Decide(Mode(true, false, q), r);
      assert n == Decide(Mode(true, false, Fresh), r) || r.current > 2;
      var tail := if n.direct then held else [];
      assert out + (out' + tail) == out + out' + tail;
    }
  }

  lemma SentStep(rs: seq<Read>)
    requires rs != []
    ensures Sent(rs) == Sent(rs[..|rs| - 1]) + Concat(rs[|rs| - 1].bufs)
  {
    hide Concat;
    ConcatAppend(Bufs(rs[..|rs| - 1]), rs[|rs| - 1].bufs);
  }

  /** What arrives is the first bytes of a stream, in buffers the first of which
      shows the whole id and header. */
  ghost predicate Arrives(uuid: Bytes, fs: seq<Frame>, bs: seq<Bytes>)
    requires forall f :: f in fs ==> Encodable(f)
  {
    Concat(bs) <= uuid + EncodeAll(fs) && |Concat(bs)| < 16 + |EncodeAll(fs)| && (bs != [] ==> |bs[0]| >= 21)
  }

  lemma ArrivesBefore(uuid: Bytes, fs: seq<Frame>, rs: seq<Read>)
    requires (forall f :: f in fs ==> Encodable(f)) && rs != [] && Arrives(uuid, fs, Bufs(rs))
    ensures Arrives(uuid, fs, Bufs(rs[..|rs| - 1]))
  {
    hide Concat, EncodeAll, Encodable;
    SentStep(rs);
    if Bufs(rs[..|rs| - 1]) != [] {
      FirstBufBefore(rs);
    }
    PrefixOfPrefix(Sent(rs[..|rs| - 1]), Concat(rs[|rs| - 1].bufs), uuid + EncodeAll(fs));
  }

  lemma FirstBufBefore(rs: seq<Read>)
    requires rs != [] && Bufs(rs[..|rs| - 1]) != []
    ensures Bufs(rs) != [] && Bufs(rs)[0] == Bufs(rs[..|rs| - 1])[0]
  {
  }

  lemma PrefixOfPrefix(a: Bytes, b: Bytes, w: Bytes)
    requires a + b <= w
    ensures a <= w
  {
    assert a == (a + b)[..|a|] == w[..|a|];
  }

  /** The parser after such a beginning. */
  lemma ParserAt(uuid: Bytes, fs: seq<Frame>, bs: seq<Bytes>)
    requires |uuid| == 16 && Terminated(fs) && Arrives(uuid, fs, bs)
    ensures var p := UnpadAll(uuid, Fresh, bs).0;
      (Leaves(p) <==> EarlyCut(fs, |Concat(bs)| - 16)) && (Leaves(p) ==> p.current == fs[|fs| - 1].command)
  {
    hide Feed, StepByte, UnpadAll, EarlyCut, Leaves, Encode, EncodeAll;
    var w := EncodeAll(fs);
    if bs == [] {
      StartStays(uuid, fs);
    } else {
      var p, n := Fresh.(command := 5), |Concat(bs)| - 16;
      var bs' := [bs[0][16..]] + bs[1..];
      CutId(uuid, w, bs, bs');
      FirstBuffer(uuid, p, bs, bs');
      StreamState(p, fs, n);
      StillFramed(uuid, p, bs');
    }
  }

  lemma StartStays(uuid: Bytes, fs: seq<Frame>)
    requires Terminated(fs)
    ensures !Leaves(UnpadAll(uuid, Fresh, []).0) && !EarlyCut(fs, -16) && Concat([]) == []
  {
    NoCutBefore(fs, -16);
  }

  lemma CutId(uuid: Bytes, w: Bytes, bs: seq<Bytes>, bs': seq<Bytes>)
    requires |uuid| == 16 && bs != [] && |bs[0]| >= 21 && bs' == [bs[0][16..]] + bs[1..] && Concat(bs) <= uuid + w
    ensures |Concat(bs)| >= 21 && bs[0][..16] == uuid && Concat(bs') == w[..|Concat(bs)| - 16]
  {
    var c := Concat(bs);
    assert bs'[1..] == bs[1..];
    assert c == bs[0] + Concat(bs[1..]);
    assert c[..16] == bs[0][..16] && c[..16] == (uuid + w)[..16];
    assert c[16..] == bs[0][16..] + Concat(bs[1..]);
    assert c[16..] == (uuid + w)[16..|c|];
  }

  ghost predicate NoEarlyCut(fs: seq<Frame>, rs: seq<Read>)
    requires forall f :: f in fs ==> Encodable(f)
  {
    forall i :: 0 <= i <= |rs| ==> !EarlyCut(fs, |Sent(rs[..i])| - 16)
  }

  ghost predicate StaysWithin(uuid: Bytes, rs: seq<Read>, held: Bytes) {
    forall i :: 0 <= i <= |rs| ==> Run(uuid, rs[..i], held).0.within
  }

  lemma NoEarlyCutStep(fs: seq<Frame>, rs: seq<Read>)
    requires (forall f :: f in fs ==> Encodable(f)) && rs != []
    ensures NoEarlyCut(fs, rs) <==> NoEarlyCut(fs, rs[..|rs| - 1]) && !EarlyCut(fs, |Sent(rs)| - 16)
  {
    hide EarlyCut, Sent;
    var n := |rs| - 1;
    assert rs[..n + 1] == rs;
    assert forall i :: 0 <= i <= n ==> rs[..n][..i] == rs[..i];
  }

  lemma NoCutNow(fs: seq<Frame>, rs: seq<Read>)
    requires (forall f :: f in fs ==> Encodable(f)) && NoEarlyCut(fs, rs)
    ensures !EarlyCut(fs, |Sent(rs)| - 16)
  {
    hide EarlyCut, Sent;
    assert rs[..|rs|] == rs;
  }

  lemma StaysWithinStep(uuid: Bytes, rs: seq<Read>, held: Bytes)
    requires rs != []
    ensures StaysWithin(uuid, rs, held) <==> StaysWithin(uuid, rs[..|rs| - 1], held) && Run(uuid, rs, held).0.within
  {
    hide Run;
    var n := |rs| - 1;
    assert rs[..n + 1] == rs;
    assert forall i :: 0 <= i <= n ==> rs[..n][..i] == rs[..i];
  }

  /** Until the terminal frame has been consumed the reader stays in padding mode,
      exactly if no read ends inside the terminal header with zero lengths so far. */
  lemma {:induction false} LeavesOnlyAtEnd(uuid: Bytes, fs: seq<Frame>, rs: seq<Read>, held: Bytes)
    requires |uuid| == 16 && Terminated(fs) && fs[|fs| - 1].command <= DIRECT && Arrives(uuid, fs, Bufs(rs))
    ensures StaysWithin(uuid, rs, held) <==> NoEarlyCut(fs, rs)
    ensures NoEarlyCut(fs, rs) ==> Tracks(uuid, rs, held)
    decreases |rs|
  {
    hide Arrives, StaysWithin, NoEarlyCut, EarlyCut, Bufs, Run, UnpadAll, Leaves;
    if rs == [] {
      AtStart(uuid, fs, held);
    } else {
      var before := rs[..|rs| - 1];
      ArrivesBefore(uuid, fs, rs);
      LeavesOnlyAtEnd(uuid, fs, before, held);
      NoEarlyCutStep(fs, rs);
      StaysWithinStep(uuid, rs, held);
      if NoEarlyCut(fs, before) {
        TrackStep(uuid, rs, held);
        ParserAt(uuid, fs, Bufs(rs));
        NoCutNow(fs, before);
        LastStep(uuid, fs, rs, held);
      }
    }
  }

  lemma AtStart(uuid: Bytes, fs: seq<Frame>, held: Bytes)
    requires |uuid| == 16 && Terminated(fs)
    ensures StaysWithin(uuid, [], held) && NoEarlyCut(fs, []) && Tracks(uuid, [], held)
  {
    hide Encode;
    StartStays(uuid, fs);
    var none: seq<Read> := [];
    assert forall i :: 0 <= i <= 0 ==> none[..i] == none;
  }

  lemma LastStep(uuid: Bytes, fs: seq<Frame>, rs: seq<Read>, held: Bytes)
    requires (forall f :: f in fs ==> Encodable(f)) && rs != [] && fs != [] && fs[|fs| - 1].command <= DIRECT
    requires Tracks(uuid, rs[..|rs| - 1], held)
    requires !EarlyCut(fs, |Sent(rs[..|rs| - 1])| - 16)
    requires var p := UnpadAll(uuid, Fresh, Bufs(rs)).0;
      (Leaves(p) <==> EarlyCut(fs, |Sent(rs)| - 16)) && (Leaves(p) ==> p.current == fs[|fs| - 1].command)
    requires var (p, out) := UnpadAll(uuid, Fresh, Bufs(rs));
      if Concat(rs[|rs| - 1].bufs) == [] then Tracks(uuid, rs, held)
      else Run(uuid, rs, held) == (Decide(Mode(true, false, Fresh), p), out + if Decide(Mode(true, false, Fresh), p).direct then held else [])
    ensures Run(uuid, rs, held).0.within <==> !EarlyCut(fs, |Sent(rs)| - 16)
    ensures !EarlyCut(fs, |Sent(rs)| - 16) ==> Tracks(uuid, rs, held)
  {
    hide UnpadAll, Run, EarlyCut, Bufs, Sent;
    if Concat(rs[|rs| - 1].bufs) == [] {
      SentStep(rs);
    }
    var out := UnpadAll(uuid, Fresh, Bufs(rs)).1;
    assert out + [] == out;
  }

  // ----- the terminal frame and what follows -----

  /** The run up to read t takes in exactly the stream and some extra bytes, and
      its last read is the one that completes the terminal frame. */
  ghost predicate Completes(uuid: Bytes, fs: seq<Frame>, rs: seq<Read>, extra: Bytes)
    requires Terminated(fs)
  {
    && rs != [] && Bufs(rs) != [] && |Bufs(rs)[0]| >= 21
    && Sent(rs) == uuid + EncodeAll(fs) + extra
    && |Sent(rs[..|rs| - 1])| < 16 + |EncodeAll(fs)|
    && NoEarlyCut(fs, rs[..|rs| - 1])
    && !Restarts(uuid, From(16 + |EncodeAll(fs)|, Bufs(rs)))
  }

  function EndMode(command: Byte): Mode {
    Mode(false, command == DIRECT, Parser(-1, -1, -1, command))
  }

  function HeldIf(command: Byte, held: Bytes): Bytes {
    if command == DIRECT then held else []
  }

  /** The read that completes the terminal frame: the reader leaves padding mode,
      and switches to the raw connection exactly if the frame says Direct. */
  lemma TerminalRead(uuid: Bytes, fs: seq<Frame>, rs: seq<Read>, extra: Bytes, held: Bytes)
    requires |uuid| == 16 && Terminated(fs) && fs[|fs| - 1].command <= DIRECT && Completes(uuid, fs, rs, extra)
    ensures Run(uuid, rs, held)
         == (EndMode(fs[|fs| - 1].command), Contents(fs) + extra + HeldIf(fs[|fs| - 1].command, held))
  {
    hide NoEarlyCut, Bufs, Run, UnpadAll, EncodeAll, Restarts, From, Contents, Concat, Tracks;
    var before := rs[..|rs| - 1];
    SentStep(rs);
    BeforeArrives(uuid, fs, rs, extra);
    LeavesOnlyAtEnd(uuid, fs, before, held);
    TrackStep(uuid, rs, held);
    RoundTrip(uuid, fs, extra, Bufs(rs));
    LastIsTerminal(fs);
  }

  lemma LastIsTerminal(fs: seq<Frame>)
    requires Terminated(fs)
    ensures fs[|fs| - 1].command != CONTINUE
  {
  }

  lemma BeforeArrives(uuid: Bytes, fs: seq<Frame>, rs: seq<Read>, extra: Bytes)
    requires |uuid| == 16 && Terminated(fs) && Completes(uuid, fs, rs, extra)
    ensures Arrives(uuid, fs, Bufs(rs[..|rs| - 1]))
  {
    hide Concat, EncodeAll, NoEarlyCut, Restarts, From;
    SentStep(rs);
    var before := rs[..|rs| - 1];
    var s, w := Sent(before), uuid + EncodeAll(fs);
    assert s <= w + extra && |s| < |w|;
    assert s == (w + extra)[..|s|] == w[..|s|];
    assert Bufs(before) != [] ==> Bufs(rs)[0] == Bufs(before)[0];
  }

  /** No later buffer that is still unpadded looks like a new stream. */
  ghost predicate Quiet(uuid: Bytes, rs: seq<Read>) {
    forall i :: 0 <= i < |rs| && rs[i].filtering ==> !Restarts(uuid, rs[i].bufs)
  }

  /** Delivery. Nothing is lost, duplicated or reordered: the contents, then the
      bytes after the terminal frame, then (on Direct) what the TLS connection
      held, then the bytes of all later reads. */
  lemma {:induction false} Delivers(uuid: Bytes, fs: seq<Frame>, rs: seq<Read>, t: nat, extra: Bytes, held: Bytes)
    requires |uuid| == 16 && Terminated(fs) && fs[|fs| - 1].command <= DIRECT
    requires t <= |rs| && Completes(uuid, fs, rs[..t], extra)
    requires fs[|fs| - 1].command == END ==> Quiet(uuid, rs[t..])
    ensures Run(uuid, rs, held)
         == (EndMode(fs[|fs| - 1].command), Contents(fs) + extra + HeldIf(fs[|fs| - 1].command, held) + Sent(rs[t..]))
    decreases |rs|
  {
    hide Completes, Bufs, UnpadAll, EncodeAll, Restarts, Contents, Concat, Sent, ReadStep, EndMode, HeldIf;
    var command := fs[|fs| - 1].command;
    var fixed := Contents(fs) + extra + HeldIf(command, held);
    if |rs| == t {
      assert rs[..t] == rs;
      TerminalRead(uuid, fs, rs, extra, held);
      SentNone(rs[t..]);
      assert fixed + [] == fixed;
    } else {
      var n := |rs| - 1;
      assert rs[..n][..t] == rs[..t] && rs[..n][t..] == rs[t..n];
      assert rs[t..][..n - t] == rs[t..n];
      Delivers(uuid, fs, rs[..n], t, extra, held);
      LastIsTerminal(fs);
      if command == END && rs[n].filtering {
        assert rs[t..][n - t] == rs[n];
      }
      AfterEnd(uuid, command, rs[n], held);
      SentStep(rs[t..]);
      assert fixed + Sent(rs[t..n]) + Concat(rs[n].bufs) == fixed + (Sent(rs[t..n]) + Concat(rs[n].bufs));
    }
  }

  lemma SentNone(rs: seq<Read>)
    requires rs == []
    ensures Sent(rs) == []
  {
  }

  /** Later reads pass through, still in the same mode. */
  lemma AfterEnd(uuid: Bytes, command: Byte, r: Read, held: Bytes)
    requires command == END || command == DIRECT
    requires command == END && r.filtering ==> !Restarts(uuid, r.bufs)
    ensures ReadStep(uuid, EndMode(command), r, held) == (EndMode(command), Concat(r.bufs))
  {
    hide Restarts, UnpadAll;
    if command == END && r.filtering {
      RawPhase(uuid, EndMode(command).parser, r.bufs);
      assert Concat(r.bufs) + [] == Concat(r.bufs);
    }
  }

  /** After an End frame a read passes unchanged, exactly unless the filter is still
      looking and a buffer looks like a new stream. */
  lemma AfterEndExact(uuid: Bytes, r: Read)
    ensures ReadStep(uuid, EndMode(END), r, []).1 == Concat(r.bufs) <==> !(r.filtering && Restarts(uuid, r.bufs))
  {
    hide Restarts, UnpadAll;
    RawPhase(uuid, EndMode(END).parser, r.bufs);
    var out := UnpadAll(uuid, EndMode(END).parser, r.bufs).1;
    assert out + [] == out;
    if Concat(r.bufs) == [] {
      UnpadNothing(uuid, EndMode(END).parser, r.bufs);
    }
  }

  /** A terminal command the reader does not know leaves its mode as it is. */
  lemma UnknownCommand(m: Mode, p: Parser)
    requires Leaves(p) && p.current > 2
    ensures Decide(m, p) == m.(parser := p)
  {
  }

  // ----- the exception is real -----

  /** A terminal Direct frame cut after its first header byte: the reader switches
      to the raw connection, and the frame's header comes out as data. */
  lemma EarlySwitch(uuid: Bytes, held: Bytes)
    requires |uuid| == 16
    ensures var fs := [Frame(CONTINUE, [], 0), Frame(DIRECT, [7], 0)];
      var rs := [Read([uuid + [0, 0, 0, 0, 0, 2]], true), Read([[0, 1, 0, 0, 7]], true)];
      && Terminated(fs) && Sent(rs) == uuid + EncodeAll(fs) && Contents(fs) == [7]
      && Run(uuid, rs[..1], held).0.direct && !Run(uuid, rs[..1], held).0.within
      && Run(uuid, rs, held).1 == held + [0, 1, 0, 0, 7]
  {
    hide Run, UnpadAll, EncodeAll, Contents;
    var fs := [Frame(CONTINUE, [], 0), Frame(DIRECT, [7], 0)];
    EarlyBytes(fs);
    var b0, b1 := uuid + [0, 0, 0, 0, 0, 2], [0, 1, 0, 0, 7];
    var rs := [Read([b0], true), Read([b1], true)];
    ConcatOne(b0);
    ConcatOne(b1);
    SentStep(rs);
    assert rs[..1] == [rs[0]] && rs[..1][..0] == [];
    SentStep(rs[..1]);
    SentNone(rs[..1][..0]);
    assert [0, 0, 0, 0, 0, 2] + b1 == [0, 0, 0, 0, 0, 2, 0, 1, 0, 0, 7];
    assert Sent(rs) == uuid + EncodeAll(fs);
    EarlyFirst(uuid, b0, held);
    EarlySecond(uuid, rs, held);
  }

  lemma EarlyBytes(fs: seq<Frame>)
    requires fs == [Frame(CONTINUE, [], 0), Frame(DIRECT, [7], 0)]
    ensures Terminated(fs) && EncodeAll(fs) == [0, 0, 0, 0, 0, 2, 0, 1, 0, 0, 7] && Contents(fs) == [7]
  {
    var last := [fs[1]];
    assert fs[1..] == last && last[1..] == [];
    assert Encode(fs[0]) == [0, 0, 0, 0, 0] && Encode(fs[1]) == [2, 0, 1, 0, 0, 7];
    assert EncodeAll(last) == Encode(fs[1]) + EncodeAll([]) == [2, 0, 1, 0, 0, 7];
    assert EncodeAll(fs) == Encode(fs[0]) + EncodeAll(last);
    assert Contents(last) == [7] + Contents([]) == [7];
    assert Contents(fs) == [] + Contents(last);
  }

  lemma EarlyFirst(uuid: Bytes, b: Bytes, held: Bytes)
    requires |uuid| == 16 && b == uuid + [0, 0, 0, 0, 0, 2]
    ensures Run(uuid, [Read([b], true)], held) == (Mode(false, true, Parser(4, 0, 0, 2)), held)
  {
    hide Feed;
    var rs := [Read([b], true)];
    var p := Fresh.(command := 5);
    assert rs[..0] == [] && [b][1..] == [];
    ConcatOne(b);
    assert b[..16] == uuid && b[16..] == [0, 0, 0, 0, 0, 2];
    var f := Frame(CONTINUE, [], 0);
    FeedFrame(p, f);
    assert Encode(f) == [0, 0, 0, 0, 0];
    FeedAppend(Framed(p), Encode(f), [2]);
    FeedOne(Parser(5, 0, 0, 0), [2]);
    FeedEmpty(Framed(Parser(4, 0, 0, 2)));
    assert [2][1..] == [];
    assert [0, 0, 0, 0, 0, 2] == Encode(f) + [2];
    assert Unpad(uuid, Fresh, b) == (Parser(4, 0, 0, 2), []);
    assert UnpadAll(uuid, Fresh, [b]) == (Parser(4, 0, 0, 2), []);
    assert Run(uuid, rs[..0], held) == (Start, []);
    assert [] + ([] + held) == held;
  }

  lemma EarlySecond(uuid: Bytes, rs: seq<Read>, held: Bytes)
    requires |rs| == 2 && Run(uuid, rs[..1], held) == (Mode(false, true, Parser(4, 0, 0, 2)), held)
    ensures Run(uuid, rs, held).1 == held + Concat(rs[1].bufs)
  {
  }

  // ----- the reader itself -----

  class VisionReader {
    const ts: TrafficState
    const isUplink: bool
    /** Decrypted and undecrypted bytes the TLS connection still holds. */
    var input: Bytes
    var rawInput: Bytes
    /** The inner reader has been replaced by one on the raw connection. */
    var onRaw: bool

    constructor (ts: TrafficState, isUplink: bool, input: Bytes, rawInput: Bytes)
      ensures this.ts == ts && this.isUplink == isUplink && this.input == input && this.rawInput == rawInput && !onRaw
    {
      this.ts := ts;
      this.isUplink := isUplink;
      this.input := input;
      this.rawInput := rawInput;
      onRaw := false;
    }

    function ModeNow(): Mode
      reads this, ts
    {
      var l := ts.ReaderLink(isUplink);
      Mode(l.within, l.readDirect, l.parser)
    }

    ghost predicate Valid()
      reads this, ts
    {
      Usable(ModeNow().parser) && (onRaw <==> ModeNow().direct) && TlsInv(ts.view)
    }

    method SetMode(within: bool, direct: bool)
      modifies ts
      ensures ModeNow() == old(ModeNow()).(within := within, direct := direct)
      ensures ts.ReaderLink(isUplink) == old(ts.ReaderLink(isUplink)).(within := within, readDirect := direct)
      ensures ts.ReaderLink(!isUplink) == old(ts.ReaderLink(!isUplink)) && ts.view == old(ts.view)
    {
      if isUplink {
        ts.inbound := ts.inbound.(within := within, readDirect := direct);
      } else {
        ts.outbound := ts.outbound.(within := within, readDirect := direct);
      }
    }

    /** Every buffer of one read; buffers that come out empty are dropped. */
    method UnpadBuffers(bufs: seq<Bytes>) returns (out: seq<Bytes>)
      requires Usable(ModeNow().parser) && forall b :: b in bufs ==> |b| <= SIZE
      modifies ts
      ensures (ModeNow().parser, out) == UnpadPieces(ts.uuid, old(ModeNow().parser), bufs)
      ensures ts.ReaderLink(isUplink) == old(ts.ReaderLink(isUplink)).(parser := ModeNow().parser)
      ensures ts.ReaderLink(!isUplink) == old(ts.ReaderLink(!isUplink)) && ts.view == old(ts.view)
    {
      hide Unpad;
      out := [];
      ghost var p0 := ModeNow().parser;
      for i := 0 to |bufs|
        invariant Usable(ModeNow().parser)
        invariant (ModeNow().parser, out) == UnpadPieces(ts.uuid, p0, bufs[..i])
        invariant ts.ReaderLink(isUplink) == old(ts.ReaderLink(isUplink)).(parser := ModeNow().parser)
        invariant ts.ReaderLink(!isUplink) == old(ts.ReaderLink(!isUplink)) && ts.view == old(ts.view)
      {
        assert bufs[..i + 1][..i] == bufs[..i];
        var b := ts.XtlsUnpadding(bufs[i], isUplink);
        if |b| > 0 {
          out := out + [b];
        }
      }
      assert bufs[..|bufs|] == bufs;
    }

    /** The decision after the buffers of one read have been unpadded. */
    method LeaveOrStay()
      modifies ts
      ensures ModeNow() == Decide(old(ModeNow()), old(ModeNow()).parser)
      ensures ts.ReaderLink(isUplink) == old(ts.ReaderLink(isUplink)).(within := ModeNow().within, readDirect := ModeNow().direct)
      ensures ts.ReaderLink(!isUplink) == old(ts.ReaderLink(!isUplink)) && ts.view == old(ts.view)
    {
      var m := ModeNow();
      if m.parser.content > 0 || m.parser.padding > 0 || m.parser.current == 0 {
        SetMode(true, m.direct);
      } else if m.parser.current == 1 {
        SetMode(false, m.direct);
      } else if m.parser.current == 2 {
        SetMode(false, true);
      }
    }

    /** Unpad the buffers of one read and decide. */
    method Unframe(bufs: seq<Bytes>) returns (out: seq<Bytes>)
      requires Usable(ModeNow().parser) && forall b :: b in bufs ==> |b| <= SIZE
      modifies ts
      ensures var (p, bytes) := UnpadAll(ts.uuid, old(ModeNow().parser), bufs);
        Concat(out) == bytes && ModeNow() == Decide(old(ModeNow()), p) && Usable(p)
      ensures out == UnpadPieces(ts.uuid, old(ModeNow().parser), bufs).1
      ensures var l, l0 := ts.ReaderLink(isUplink), old(ts.ReaderLink(isUplink));
        l == l0.(within := l.within, readDirect := l.readDirect, parser := l.parser)
      ensures ts.ReaderLink(!isUplink) == old(ts.ReaderLink(!isUplink)) && ts.view == old(ts.view)
    {
      hide Concat, UnpadAll, Usable, UnpadPieces;
      UsableAfter(ts.uuid, ModeNow().parser, bufs);
      PiecesAre(ts.uuid, ModeNow().parser, bufs);
      out := UnpadBuffers(bufs);
      LeaveOrStay();
    }

    /** One read call does what ReadStep says, hands the connection's held bytes
        over once, behind what it delivers, and filters what it delivers while
        packets are left. */
    method ReadMultiBuffer(bufs: seq<Bytes>, suite: Suites) returns (out: seq<Bytes>)
      requires Valid() && (forall b :: b in bufs ==> |b| <= SIZE)
      modifies this, ts
      ensures Valid()
      ensures (ModeNow(), Concat(out))
           == ReadStep(ts.uuid, old(ModeNow()), Read(bufs, old(ts.view.left) > 0), old(input) + old(rawInput))
      ensures if onRaw && !old(onRaw) then input == [] && rawInput == [] else input == old(input) && rawInput == old(rawInput)
      ensures out == Delivered(ts.uuid, old(ModeNow()), Read(bufs, old(ts.view.left) > 0))
                     + if onRaw && !old(onRaw) then [old(input), old(rawInput)] else []
      ensures ts.view == (if old(ts.view.left) > 0
                          then Filter(old(ts.view), Filtered(ts.uuid, old(ModeNow()), Read(bufs, old(ts.view.left) > 0)), suite)
                          else old(ts.view))
      ensures ts.ReaderLink(!isUplink) == old(ts.ReaderLink(!isUplink))
      ensures var l, l0 := ts.ReaderLink(isUplink), old(ts.ReaderLink(isUplink));
        l == l0.(within := l.within, readDirect := l.readDirect, parser := l.parser)
    {
      hide Concat, UnpadAll, Filter, Usable, TlsInv, Leaves, UnpadPieces;
      out := bufs;
      FilterNothing(ts.view, suite);
      var total := Concat(bufs);
      var filtering := ts.view.left > 0;
      if total == [] || ModeNow().direct {
        return;
      }
      if ModeNow().within || filtering {
        out := Unframe(bufs);
      }
      var delivered := Concat(out);
      if filtering {
        FilterKeepsInv(ts.view, out, suite);
        ts.XtlsFilterTls(out, suite);
      }
      if ModeNow().direct {
        ConcatHeld(out, input, rawInput);
        out := out + [input, rawInput];
        input, rawInput := [], [];
        onRaw := true;
      } else {
        assert delivered + [] == delivered;
      }
    }
  }

  lemma UsableAfter(uuid: Bytes, p: Parser, bs: seq<Bytes>)
    requires Usable(p)
    ensures Usable(UnpadAll(uuid, p, bs).0)
  {
  }

  /** The buffers that come out of one read, without empty ones. */
  function UnpadPieces(uuid: Bytes, p: Parser, bs: seq<Bytes>): (r: (Parser, seq<Bytes>))
    requires Usable(p)
    ensures Usable(r.0)
  {
    if bs == [] then (p, [])
    else
      var n := |bs| - 1;
      var (q, out) := UnpadPieces(uuid, p, bs[..n]);
      var (r, b) := Unpad(uuid, q, bs[n]);
      (r, if b == [] then out else out + [b])
  }

  lemma {:induction false} PiecesAre(uuid: Bytes, p: Parser, bs: seq<Bytes>)
    requires Usable(p)
    ensures UnpadAll(uuid, p, bs) == (UnpadPieces(uuid, p, bs).0, Concat(UnpadPieces(uuid, p, bs).1))
    decreases |bs|
  {
    hide Unpad, UnpadAll, Concat;
    if bs == [] {
      UnpadNone(uuid, p, bs);
    } else {
      var n := |bs| - 1;
      PiecesAre(uuid, p, bs[..n]);
      UnpadNext(uuid, p, bs, n, UnpadPieces(uuid, p, bs[..n]).1);
      assert bs[..n + 1] == bs;
    }
  }

  /** The buffers a read hands on, before the held bytes. */
  function Delivered(uuid: Bytes, m: Mode, r: Read): seq<Bytes>
    requires Usable(m.parser)
  {
    if Concat(r.bufs) == [] || m.direct || (!m.within && !r.filtering) then r.bufs else UnpadPieces(uuid, m.parser, r.bufs).1
  }

  /** Of these, the ones the TLS filter looks at: not those of a direct or empty read. */
  function Filtered(uuid: Bytes, m: Mode, r: Read): seq<Bytes>
    requires Usable(m.parser)
  {
    if Concat(r.bufs) == [] || m.direct then [] else Delivered(uuid, m, r)
  }

  lemma FilterNothing(v: TlsView, suite: Suites)
    ensures Filter(v, [], suite) == v
  {
  }

  lemma UnpadNone(uuid: Bytes, p: Parser, bs: seq<Bytes>)
    requires Usable(p) && bs == []
    ensures UnpadAll(uuid, p, bs) == (p, []) && Concat(bs) == []
  {
  }

  lemma {:induction false} UnpadNext(uuid: Bytes, p: Parser, bs: seq<Bytes>, i: nat, out: seq<Bytes>)
    requires Usable(p) && i < |bs| && Concat(out) == UnpadAll(uuid, p, bs[..i]).1
    ensures var q := UnpadAll(uuid, p, bs[..i]).0; var (r, b) := Unpad(uuid, q, bs[i]);
      UnpadAll(uuid, p, bs[..i + 1]) == (r, if b == [] then Concat(out) else Concat(out + [b]))
  {
    hide Unpad, Concat, UnpadAll;
    assert bs[..i + 1] == bs[..i] + [bs[i]];
    UnpadAllAppend(uuid, p, bs[..i], [bs[i]]);
    var q := UnpadAll(uuid, p, bs[..i]).0;
    var b := Unpad(uuid, q, bs[i]).1;
    UnpadOne(uuid, q, bs[i]);
    ConcatAppend(out, [b]);
    ConcatOne(b);
    assert Concat(out) + [] == Concat(out);
  }

  lemma UnpadOne(uuid: Bytes, p: Parser, b: Bytes)
    requires Usable(p)
    ensures UnpadAll(uuid, p, [b]) == Unpad(uuid, p, b)
  {
    hide Unpad;
    assert [b][1..] == [];
    var r := Unpad(uuid, p, b);
    assert UnpadAll(uuid, r.0, []) == (r.0, []);
    assert r.1 + [] == r.1;
  }

  lemma ConcatHeld(out: seq<Bytes>, a: Bytes, b: Bytes)
    ensures Concat(out + [a, b]) == Concat(out) + (a + b)
  {
    hide Concat;
    ConcatAppend(out, [a, b]);
    ConcatTwo(a, b);
  }
}
