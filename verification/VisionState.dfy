/** The state both ends of one connection share: parser and mode fields for each
    direction, and what the TLS filter has seen. */
module VisionState {
  import opened VisionFrame
  import opened VisionUnpad

  /** Reader link state and writer link state of one side. */
  datatype Link = Link(within: bool, readDirect: bool, parser: Parser, isPadding: bool, writeDirect: bool)

  const FreshLink := Link(true, false, Fresh, true, false)

  // ----- the TLS filter -----

  /** What the filter remembers. "left" counts packets still to look at, "hello"
      the bytes of a server hello still to come. */
  datatype TlsView = TlsView(left: int, enableXtls: bool, tls12: bool, tls: bool, cipher: nat, hello: int)

  const FreshView := TlsView(8, false, false, false, 0, -1)

  const SUPPORTED_VERSIONS: Bytes := [0x00, 0x2b, 0x00, 0x02, 0x03, 0x04]

  predicate IsServerHello(b: Bytes) {
    |b| >= 6 && b[..3] == [0x16, 0x03, 0x03] && b[5] == 0x02
  }

  predicate IsClientHello(b: Bytes) {
    |b| >= 6 && b[..2] == [0x16, 0x03] && b[5] == 0x01
  }

  predicate MatchAt(b: Bytes, pattern: Bytes, i: nat) {
    i + |pattern| <= |b| && b[i..i + |pattern|] == pattern
  }

  predicate Contains(b: Bytes, pattern: Bytes) {
    exists i: nat :: i <= |b| && MatchAt(b, pattern, i)
  }

  /** TLS 1.3 suites for which direct copy is allowed (all but CCM_8). */
  predicate DirectCipher(cipher: nat) {
    0x1301 <= cipher <= 0x1304
  }

  /** Where the suite would be if the hello is long enough to look for it. */
  function SuiteOffset(b: Bytes): nat
    requires |b| >= 79
  {
    44 + b[43] as nat
  }

  /** Handshake recognition. "suite" is the value read when the suite lies past the
      end of the buffer's content, in whatever the backing array holds. */
  function Recognise(v: TlsView, b: Bytes, suite: nat): TlsView {
    if IsServerHello(b) then
      var hello := b[3] as nat * 256 + b[4] + 5;
      var w := v.(hello := hello, tls12 := true, tls := true);
      if |b| >= 79 && hello >= 79 then
        var o := SuiteOffset(b);
        w.(cipher := if o + 2 <= |b| then b[o] as nat * 256 + b[o + 1] else suite)
      else w
    else if IsClientHello(b) then v.(tls := true)
    else v
  }

  /** One buffer of the filter; the flag says that filtering stops here. */
  function FilterOne(v: TlsView, b: Bytes, suite: nat): (TlsView, bool) {
    var w := Recognise(v.(left := v.left - 1), b, suite);
    if w.hello > 0 then
      var end := if w.hello > |b| then |b| else w.hello;
      var x := w.(hello := w.hello - |b|);
      if Contains(b[..end], SUPPORTED_VERSIONS) then
        (x.(enableXtls := x.enableXtls || DirectCipher(x.cipher), left := 0), true)
      else if x.hello <= 0 then (x.(left := 0), true)
      else (x, false)
    else (w, false)
  }

  /** What lies behind each buffer's content, by its position in the call. */
  type Suites = nat -> nat

  /** The buffers of one call from position i on. */
  function FilterFrom(v: TlsView, bs: seq<Bytes>, i: nat, suite: Suites): TlsView
    requires i <= |bs|
    decreases |bs| - i
  {
    if i == |bs| then v
    else
      var (w, stop) := FilterOne(v, bs[i], suite(i));
      if stop then w else FilterFrom(w, bs, i + 1, suite)
  }

  function Filter(v: TlsView, bs: seq<Bytes>, suite: Suites): TlsView {
    FilterFrom(v, bs, 0, suite)
  }

  /** Direct copy is enabled only after a server hello was seen. */
  predicate TlsInv(v: TlsView) {
    (v.hello > 0 ==> v.tls12 && v.tls) && (v.enableXtls ==> v.tls12 && v.tls)
  }

  lemma FilterKeepsInv(v: TlsView, bs: seq<Bytes>, suite: Suites)
    requires TlsInv(v)
    ensures TlsInv(Filter(v, bs, suite))
  {
    FilterFromKeepsInv(v, bs, 0, suite);
  }

  lemma {:induction false} FilterFromKeepsInv(v: TlsView, bs: seq<Bytes>, i: nat, suite: Suites)
    requires TlsInv(v) && i <= |bs|
    ensures TlsInv(FilterFrom(v, bs, i, suite))
    decreases |bs| - i
  {
    hide Contains;
    if i < |bs| {
      var (w, stop) := FilterOne(v, bs[i], suite(i));
      if !stop {
        FilterFromKeepsInv(w, bs, i + 1, suite);
      }
    }
  }

  /** Once a server hello has been seen the flags stay; before, they stay clear. */
  lemma {:induction false} FilterFlags(v: TlsView, bs: seq<Bytes>, i: nat, suite: Suites)
    requires i <= |bs|
    ensures v.tls12 ==> FilterFrom(v, bs, i, suite).tls12
    ensures !v.tls12 && (forall k :: i <= k < |bs| ==> !IsServerHello(bs[k])) ==> !FilterFrom(v, bs, i, suite).tls12
    decreases |bs| - i
  {
    hide Contains, IsClientHello;
    if i < |bs| {
      var (w, stop) := FilterOne(v, bs[i], suite(i));
      if !stop {
        FilterFlags(w, bs, i + 1, suite);
      }
    }
  }

  /** With no server hello pending or seen, every buffer uses up one packet. */
  lemma {:induction false} FilterCounts(v: TlsView, bs: seq<Bytes>, i: nat, suite: Suites)
    requires i <= |bs| && v.hello <= 0 && (forall k :: i <= k < |bs| ==> !IsServerHello(bs[k]))
    ensures FilterFrom(v, bs, i, suite).left == v.left - (|bs| - i) && FilterFrom(v, bs, i, suite).hello <= 0
    decreases |bs| - i
  {
    hide Contains, IsClientHello, IsServerHello;
    if i < |bs| {
      FilterCounts(FilterOne(v, bs[i], suite(i)).0, bs, i + 1, suite);
    }
  }

  /** The loop body of XtlsFilterTls on the fields it works on. */
  method FilterBuffer(v: TlsView, b: Bytes, behind: nat) returns (w: TlsView, stop: bool)
    ensures (w, stop) == FilterOne(v, b, behind)
  {
    hide Contains, DirectCipher;
    w, stop := v.(left := v.left - 1), false;
    if |b| >= 6 {
      if b[..3] == [0x16, 0x03, 0x03] && b[5] == 0x02 {
        w := w.(hello := b[3] as nat * 256 + b[4] + 5);
        w := w.(tls12 := true, tls := true);
        if |b| >= 79 && w.hello >= 79 {
          var o := 43 + b[43] as nat + 1;
          w := w.(cipher := if o + 2 <= |b| then b[o] as nat * 256 + b[o + 1] else behind);
        }
      } else if b[..2] == [0x16, 0x03] && b[5] == 0x01 {
        w := w.(tls := true);
      }
    }
    if w.hello > 0 {
      var end := w.hello;
      if end > |b| {
        end := |b|;
      }
      w := w.(hello := w.hello - |b|);
      if Contains(b[..end], SUPPORTED_VERSIONS) {
        if DirectCipher(w.cipher) {
          w := w.(enableXtls := true);
        }
        return w.(left := 0), true;
      } else if w.hello <= 0 {
        return w.(left := 0), true;
      }
    }
  }

  /** The parsing loop over one buffer. */
  method UnpadLoop(start: Parser, all: Bytes) returns (p: Parser, out: Bytes)
    requires Active(start)
    ensures var (a, o) := Feed(Framed(start), all); p == Stored(a) && out == o
  {
    hide Feed, StepByte;
    var rest := all;
    p, out := start, [];
    assert [] + Feed(Framed(p), rest).1 == Feed(Framed(p), rest).1;
    while |rest| > 0
      invariant Active(p)
      invariant Feed(Framed(start), all) == (Feed(Framed(p), rest).0, out + Feed(Framed(p), rest).1)
      decreases |rest|
    {
      var n, piece, q := 1, [], p;
      if p.command > 0 {
        q := HeaderByte(p, rest[0]);
        FeedOne(p, rest);
      } else if p.content > 0 {
        n := if |rest| < p.content then |rest| else p.content;
        piece, q := rest[..n], p.(content := p.content - n);
        FeedSome(p, rest, n);
      } else {
        n := if |rest| < p.padding then |rest| else p.padding;
        q := p.(padding := p.padding - n);
        FeedSome(p, rest, n);
      }
      assert out + (piece + Feed(Finish(q), rest[n..]).1) == (out + piece) + Feed(Finish(q), rest[n..]).1;
      out, p, rest := out + piece, q, rest[n..];
      if p.command <= 0 && p.content <= 0 && p.padding <= 0 {
        if p.current == 0 {
          p := p.(command := 5);
        } else {
          FeedOfRaw(Raw(p.current), rest);
          p := p.(command := -1, content := -1, padding := -1);
          out := out + rest;
          return;
        }
      }
    }
    FeedEmpty(Framed(p));
    assert rest == [] && out + [] == out;
  }

  class TrafficState {
    const uuid: Bytes
    var view: TlsView
    var inbound: Link
    var outbound: Link

    constructor (uuid: Bytes)
      ensures this.uuid == uuid && view == FreshView && inbound == FreshLink && outbound == FreshLink
    {
      this.uuid := uuid;
      view := FreshView;
      inbound := FreshLink;
      outbound := FreshLink;
    }

    /** The link whose reader fields an uplink or downlink reader uses. */
    function ReaderLink(isUplink: bool): Link
      reads this
    {
      if isUplink then inbound else outbound
    }

    function WriterLink(isUplink: bool): Link
      reads this
    {
      if isUplink then outbound else inbound
    }

    /** XtlsUnpadding: the resumable loop computes Unpad, and consumes at least one
        byte per iteration. */
    method XtlsUnpadding(b: Bytes, isUplink: bool) returns (out: Bytes)
      requires Usable(ReaderLink(isUplink).parser) && |b| <= SIZE
      modifies this
      ensures view == old(view)
      ensures (ReaderLink(isUplink).parser, out) == Unpad(uuid, old(ReaderLink(isUplink)).parser, b)
      ensures ReaderLink(isUplink) == old(ReaderLink(isUplink)).(parser := ReaderLink(isUplink).parser)
      ensures ReaderLink(!isUplink) == old(ReaderLink(!isUplink))
    {
      hide Feed;
      var p, rest := ReaderLink(isUplink).parser, b;
      if IsInitial(p) {
        if |rest| >= 21 && uuid == rest[..16] {
          rest := rest[16..];
          p := p.(command := 5);
        } else {
          return b;
        }
      }
      p, out := UnpadLoop(p, rest);
      if isUplink {
        inbound := inbound.(parser := p);
      } else {
        outbound := outbound.(parser := p);
      }
    }

    /** XtlsFilterTls over the non-nil buffers of one write or read. */
    method XtlsFilterTls(bs: seq<Bytes>, suite: Suites)
      modifies this`view
      ensures view == Filter(old(view), bs, suite)
    {
      hide FilterOne;
      var i, stop := 0, false;
      while i < |bs| && !stop
        invariant 0 <= i <= |bs|
        invariant Filter(old(view), bs, suite) == if stop then view else FilterFrom(view, bs, i, suite)
        decreases |bs| - i, !stop
      {
        view, stop := FilterBuffer(view, bs[i], suite(i));
        i := i + 1;
      }
    }
  }

  lemma FeedEmpty(a: Auto)
    requires a.Framed? ==> Active(a.p)
    ensures Feed(a, []) == (a, [])
  {
  }

  /** Feeding one header byte and then the rest. */
  lemma FeedOne(p: Parser, b: Bytes)
    requires Active(p) && p.command > 0 && b != []
    ensures var a := Finish(HeaderByte(p, b[0]));
      (a.Framed? ==> Active(a.p)) && Feed(Framed(p), b) == (Feed(a, b[1..]).0, [] + Feed(a, b[1..]).1)
  {
    assert StepByte(p, b[0]) == (Finish(HeaderByte(p, b[0])), []);
  }

  /** Feeding a run of content or padding at once. */
  lemma FeedSome(p: Parser, b: Bytes, n: nat)
    requires Active(p) && p.command <= 0 && 0 < n <= |b|
    requires if p.content > 0 then n <= p.content else n <= p.padding
    ensures var q := if p.content > 0 then p.(content := p.content - n) else p.(padding := p.padding - n);
      && (Finish(q).Framed? ==> Active(Finish(q).p))
      && Feed(Framed(p), b) == (Feed(Finish(q), b[n..]).0, (if p.content > 0 then b[..n] else []) + Feed(Finish(q), b[n..]).1)
  {
    hide Feed, StepByte;
    assert b == b[..n] + b[n..];
    if p.content > 0 {
      FeedContent(p, b[..n]);
    } else {
      FeedPadding(p, b[..n]);
    }
    FeedAppend(Framed(p), b[..n], b[n..]);
  }
}
