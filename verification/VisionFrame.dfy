/** XTLS Vision framing: the padded frame, and the resumable parser that undoes
    it whatever way the bytes are cut into buffers. */
module VisionFrame {
  import opened Words

  /** Capacity of a pooled buffer: any value that leaves room for the id and a
      header on both sides of a cut and fits the 16-bit lengths. */
  type BufferSize = n: nat | 42 <= n <= 0x1_0000 witness 8192

  const SIZE: BufferSize

  const CONTINUE: Byte := 0
  const END: Byte := 1
  const DIRECT: Byte := 2

  type Bytes = seq<Byte>

  // ----- frames -----

  datatype Frame = Frame(command: Byte, content: Bytes, padding: nat)

  predicate Encodable(f: Frame) {
    |f.content| < 0x1_0000 && f.padding < 0x1_0000
  }

  function Zeros(n: nat): (z: Bytes)
    ensures |z| == n
  {
    seq(n, _ => 0)
  }

  function Header(f: Frame): Bytes
    requires Encodable(f)
  {
    [f.command, |f.content| / 256, |f.content| % 256, f.padding / 256, f.padding % 256]
  }

  /** Command, two 16-bit lengths, content, zero padding. */
  function Encode(f: Frame): Bytes
    requires Encodable(f)
  {
    Header(f) + f.content + Zeros(f.padding)
  }

  /** The layout of a frame, byte by byte. */
  lemma FrameLayout(f: Frame)
    requires Encodable(f)
    ensures var e, n := Encode(f), |f.content|;
      && |e| == 5 + n + f.padding && e[0] == f.command
      && 0x100 * e[1] as int + e[2] as int == n && 0x100 * e[3] as int + e[4] as int == f.padding
      && e[5..5 + n] == f.content && forall i :: 5 + n <= i < |e| ==> e[i] == 0
  {
  }

  function EncodeAll(fs: seq<Frame>): Bytes
    requires forall f :: f in fs ==> Encodable(f)
  {
    if fs == [] then [] else Encode(fs[0]) + EncodeAll(fs[1..])
  }

  function Contents(fs: seq<Frame>): Bytes {
    if fs == [] then [] else fs[0].content + Contents(fs[1..])
  }

  function Concat(bs: seq<Bytes>): Bytes {
    if bs == [] then [] else bs[0] + Concat(bs[1..])
  }

  // ----- the parser, byte by byte -----

  /** The reader fields of a TrafficState: header bytes, content bytes and padding
      bytes still due, and the command of the frame being read. */
  datatype Parser = Parser(command: int, content: int, padding: int, current: nat)

  const Fresh := Parser(-1, -1, -1, 0)

  predicate IsInitial(p: Parser) {
    p.command == -1 && p.content == -1 && p.padding == -1
  }

  /** States the parser can be in between two bytes of a frame. */
  predicate Active(p: Parser) {
    && p.command <= 5
    && (p.command == 5 || p.command == 4 ==> p.content <= 0 && p.padding <= 0)
    && (p.command == 3 ==> p.content >= 0 && p.content % 256 == 0 && p.padding <= 0)
    && (p.command == 2 ==> p.content >= 0 && p.padding <= 0)
    && (p.command == 1 ==> p.content >= 0 && p.padding >= 0 && p.padding % 256 == 0)
    && (p.command <= 0 ==> p.content > 0 || p.padding > 0)
  }

  /** At the start of a frame header. */
  predicate AtHeader(p: Parser) {
    p.command == 5 && p.content <= 0 && p.padding <= 0
  }

  datatype Auto = Framed(p: Parser) | Raw(command: nat)

  /** One header byte. */
  function HeaderByte(p: Parser, x: Byte): Parser
    requires Active(p) && p.command > 0
  {
    var q := match p.command
             case 5 => p.(current := x)
             case 4 => p.(content := x * 256)
             case 3 => p.(content := BitOr(p.content, x))
             case 2 => p.(padding := x * 256)
             case _ => p.(padding := BitOr(p.padding, x));
    q.(command := q.command - 1)
  }

  /** The check at the end of every iteration. */
  function Finish(p: Parser): Auto {
    if p.command <= 0 && p.content <= 0 && p.padding <= 0 then
      if p.current == 0 then Framed(p.(command := 5)) else Raw(p.current)
    else Framed(p)
  }

  function StepByte(p: Parser, x: Byte): (r: (Auto, Bytes))
    requires Active(p)
    ensures r.0.Framed? ==> Active(r.0.p)
    ensures |r.1| <= 1
  {
    if p.command > 0 then
      assert p.command == 3 ==> p.content % Pow2(8) == 0 by { Pow2Table(); }
      assert p.command == 1 ==> p.padding % Pow2(8) == 0 by { Pow2Table(); }
      Or256(p, x);
      (Finish(HeaderByte(p, x)), [])
    else if p.content > 0 then (Finish(p.(content := p.content - 1)), [x])
    else (Finish(p.(padding := p.padding - 1)), [])
  }

  lemma Or256(p: Parser, x: Byte)
    requires Active(p) && p.command > 0
    ensures p.command == 3 ==> BitOr(p.content, x) == p.content + x
    ensures p.command == 1 ==> BitOr(p.padding, x) == p.padding + x
  {
    Pow2Table();
    if p.command == 3 {
      OrOfDisjoint(8, x, p.content);
      OrSwap(x, p.content);
    } else if p.command == 1 {
      OrOfDisjoint(8, x, p.padding);
      OrSwap(x, p.padding);
    }
  }

  /** Bytes fed one at a time; after a terminal frame everything is passed on. */
  function Feed(a: Auto, b: Bytes): (r: (Auto, Bytes))
    requires a.Framed? ==> Active(a.p)
    ensures r.0.Framed? ==> Active(r.0.p)
    ensures |r.1| <= |b|
    decreases |b|
  {
    if b == [] then (a, [])
    else if a.Raw? then (a, b)
    else
      var (a1, out1) := StepByte(a.p, b[0]);
      var (a2, out2) := Feed(a1, b[1..]);
      (a2, out1 + out2)
  }

  /** Feeding is independent of where the bytes are cut. */
  lemma {:induction false} FeedAppend(a: Auto, b: Bytes, c: Bytes)
    requires a.Framed? ==> Active(a.p)
    ensures Feed(a, b + c) == (Feed(Feed(a, b).0, c).0, Feed(a, b).1 + Feed(Feed(a, b).0, c).1)
    decreases |b|
  {
    hide StepByte;
    if b == [] {
      assert b + c == c;
      assert [] + Feed(a, c).1 == Feed(a, c).1;
    } else if a.Framed? {
      assert (b + c)[0] == b[0] && (b + c)[1..] == b[1..] + c;
      var (a1, out1) := StepByte(a.p, b[0]);
      FeedAppend(a1, b[1..], c);
      var (a2, out2) := Feed(a1, b[1..]);
      var out3 := Feed(a2, c).1;
      assert out1 + (out2 + out3) == (out1 + out2) + out3;
      assert Feed(a, b + c).1 == out1 + (out2 + out3);
    } else if c == [] {
      assert b + c == b;
    }
  }

  // ----- one frame -----

  /** Content bytes are copied out one by one. */
  lemma {:induction false} FeedContent(p: Parser, b: Bytes)
    requires Active(p) && p.command <= 0 && p.content >= |b| > 0
    ensures Feed(Framed(p), b) == (Finish(p.(content := p.content - |b|)), b)
    decreases |b|
  {
    var q := p.(content := p.content - 1);
    assert StepByte(p, b[0]) == (Finish(q), [b[0]]);
    if |b| == 1 {
      assert b[1..] == [];
      assert Feed(Finish(q), b[1..]) == (Finish(q), []);
      assert [b[0]] + [] == b;
    } else {
      FeedContent(q, b[1..]);
      assert [b[0]] + b[1..] == b;
    }
  }

  /** Padding bytes are dropped, whatever they are. */
  lemma {:induction false} FeedPadding(p: Parser, b: Bytes)
    requires Active(p) && p.command <= 0 && p.content <= 0 && p.padding >= |b| > 0
    ensures Feed(Framed(p), b) == (Finish(p.(padding := p.padding - |b|)), [])
    decreases |b|
  {
    var q := p.(padding := p.padding - 1);
    assert StepByte(p, b[0]) == (Finish(q), []);
    if |b| == 1 {
      assert b[1..] == [];
    } else {
      FeedPadding(q, b[1..]);
    }
  }

  /** The five header bytes carry both lengths exactly. */
  lemma FeedHeader(p: Parser, f: Frame)
    requires AtHeader(p) && Encodable(f)
    ensures Feed(Framed(p), Header(f)) == (Finish(Parser(0, |f.content|, f.padding, f.command)), [])
  {
    hide BitOr;
    var h := Header(f);
    var p4 := p.(command := 4, current := f.command);
    var p3 := p4.(command := 3, content := (h[1] as int) * 256);
    var p2 := p4.(command := 2, content := |f.content|);
    var p1 := p2.(command := 1, padding := (h[3] as int) * 256);
    assert StepByte(p, h[0]) == (Framed(p4), []);
    assert StepByte(p4, h[1]) == (Framed(p3), []);
    assert StepByte(p3, h[2]) == (Framed(p2), []) by { Or256(p3, h[2]); }
    assert StepByte(p2, h[3]) == (Framed(p1), []);
    assert StepByte(p1, h[4]) == (Finish(Parser(0, |f.content|, f.padding, f.command)), []) by { Or256(p1, h[4]); }
    FeedFive(p, p4, p3, p2, p1, Finish(Parser(0, |f.content|, f.padding, f.command)), h);
  }

  lemma FeedFive(p: Parser, p4: Parser, p3: Parser, p2: Parser, p1: Parser, last: Auto, h: Bytes)
    requires |h| == 5 && Active(p) && Active(p4) && Active(p3) && Active(p2) && Active(p1)
    requires StepByte(p, h[0]) == (Framed(p4), []) && StepByte(p4, h[1]) == (Framed(p3), [])
    requires StepByte(p3, h[2]) == (Framed(p2), []) && StepByte(p2, h[3]) == (Framed(p1), [])
    requires StepByte(p1, h[4]) == (last, [])
    ensures Feed(Framed(p), h) == (last, [])
  {
    hide StepByte;
    assert h[1..][1..] == h[2..] && h[2..][1..] == h[3..] && h[3..][1..] == h[4..] && h[4..][1..] == [];
    assert Feed(last, []) == (last, []);
    assert Feed(Framed(p1), h[4..]) == (last, []);
    assert Feed(Framed(p2), h[3..]) == (last, []);
    assert Feed(Framed(p3), h[2..]) == (last, []);
    assert Feed(Framed(p4), h[1..]) == (last, []);
  }

  /** A frame yields its content; a terminal one switches to raw. */
  lemma FeedFrame(p: Parser, f: Frame)
    requires AtHeader(p) && Encodable(f)
    ensures Feed(Framed(p), Encode(f))
         == (if f.command == CONTINUE then Framed(Parser(5, 0, 0, 0)) else Raw(f.command), f.content)
  {
    hide StepByte, Header;
    var q := Parser(0, |f.content|, f.padding, f.command);
    FeedHeader(p, f);
    FeedAppend(Framed(p), Header(f), f.content + Zeros(f.padding));
    assert Encode(f) == Header(f) + (f.content + Zeros(f.padding));
    var rest := f.content + Zeros(f.padding);
    FeedBody(q, f.content, Zeros(f.padding));
    assert [] + f.content == f.content;
  }

  lemma FeedBody(q: Parser, content: Bytes, padding: Bytes)
    requires q.command == 0 && q.content == |content| && q.padding == |padding|
    ensures Feed(Finish(q), content + padding) == (Finish(q.(content := 0, padding := 0)), content)
  {
    hide StepByte;
    if content == [] && padding == [] {
      assert content + padding == [];
      assert q == q.(content := 0, padding := 0);
    } else if content == [] {
      assert content + padding == padding;
      FeedPadding(q, padding);
    } else if padding == [] {
      assert content + padding == content;
      FeedContent(q, content);
    } else {
      FeedContent(q, content);
      FeedAppend(Framed(q), content, padding);
      FeedPadding(q.(content := 0), padding);
      assert content + [] == content;
    }
  }

  // ----- a stream of frames -----

  /** Continue frames, then one terminal frame. */
  predicate Terminated(fs: seq<Frame>) {
    && fs != [] && (forall f :: f in fs ==> Encodable(f))
    && (forall i :: 0 <= i < |fs| ==> (fs[i].command == CONTINUE <==> i < |fs| - 1))
  }

  predicate AllContinue(fs: seq<Frame>) {
    forall f :: f in fs ==> Encodable(f) && f.command == CONTINUE
  }

  lemma {:induction false} FeedContinue(p: Parser, fs: seq<Frame>)
    requires AtHeader(p) && AllContinue(fs)
    ensures Feed(Framed(p), EncodeAll(fs)).1 == Contents(fs)
    ensures Feed(Framed(p), EncodeAll(fs)).0 == Framed(if fs == [] then p else Parser(5, 0, 0, 0))
    decreases |fs|
  {
    if fs != [] {
      FeedFrame(p, fs[0]);
      FeedAppend(Framed(p), Encode(fs[0]), EncodeAll(fs[1..]));
      FeedContinue(Parser(5, 0, 0, 0), fs[1..]);
    }
  }

  /** All frames, then a raw trailer: contents, then the trailer. */
  lemma FeedStream(p: Parser, fs: seq<Frame>, trailer: Bytes)
    requires AtHeader(p) && Terminated(fs)
    ensures Feed(Framed(p), EncodeAll(fs)) == (Raw(fs[|fs| - 1].command), Contents(fs))
    ensures Feed(Framed(p), EncodeAll(fs) + trailer) == (Raw(fs[|fs| - 1].command), Contents(fs) + trailer)
  {
    var n := |fs| - 1;
    EncodeAllSplit(fs[..n], fs[n..]);
    assert fs == fs[..n] + fs[n..];
    assert AllContinue(fs[..n]);
    FeedContinue(p, fs[..n]);
    var q := Feed(Framed(p), EncodeAll(fs[..n])).0.p;
    assert EncodeAll(fs[n..]) == Encode(fs[n]) by {
      assert fs[n..][1..] == [];
      assert Encode(fs[n]) + [] == Encode(fs[n]);
    }
    assert Contents(fs[n..]) == fs[n].content by {
      assert fs[n..][1..] == [];
      assert fs[n].content + [] == fs[n].content;
    }
    FeedFrame(q, fs[n]);
    FeedAppend(Framed(p), EncodeAll(fs[..n]), Encode(fs[n]));
    FeedAppend(Framed(p), EncodeAll(fs), trailer);
  }

  lemma {:induction false} EncodeAllSplit(a: seq<Frame>, b: seq<Frame>)
    requires forall f :: f in a + b ==> Encodable(f)
    ensures (forall f :: f in a ==> Encodable(f)) && (forall f :: f in b ==> Encodable(f))
    ensures EncodeAll(a + b) == EncodeAll(a) + EncodeAll(b)
    ensures Contents(a + b) == Contents(a) + Contents(b)
  {
    assert forall f :: f in a ==> f in a + b;
    assert forall f :: f in b ==> f in a + b;
    if a == [] {
      assert a + b == b;
    } else {
      assert (a + b)[1..] == a[1..] + b && (a + b)[0] == a[0];
      EncodeAllSplit(a[1..], b);
    }
  }
}
