/** The sending end of a Vision connection. Every call keeps Valid, so it holds in
    every run: Continue frames until exactly one terminal frame, nothing framed
    after it, direct copy armed exactly when that frame says Direct. */
module VisionWriter {
  import opened Words
  import opened VisionFrame
  import opened VisionPad
  import opened VisionState

  /** One write: the header-only write (a single nil buffer) or data buffers. */
  datatype Message = HeaderOnly | Data(bs: seq<Bytes>)

  function Payload(m: Message): Bytes {
    match m
    case HeaderOnly => []
    case Data(bs) => Concat(bs)
  }

  /** Seeds for which padding cannot go negative, and that can be drawn from. */
  predicate GoodSeeds(s: Seeds) {
    s.longDraw > 0 && s.shortDraw > 0 && (s.longBelow <= 0 || s.longBase >= s.longBelow - 1 || s.longBase >= SIZE - 21)
  }

  /** The seeds a writer uses when it is given none. */
  lemma DefaultSeedsAreGood()
    ensures GoodSeeds(DefaultSeeds)
  {
  }

  lemma {:induction false} ExtendContinue(fs: seq<Frame>, f: Frame)
    requires AllContinue(fs) && Encodable(f)
    ensures f.command == CONTINUE ==> AllContinue(fs + [f])
    ensures f.command != CONTINUE ==> Terminated(fs + [f])
    ensures EncodeAll(fs + [f]) == EncodeAll(fs) + Encode(f) && Contents(fs + [f]) == Contents(fs) + f.content
  {
    hide Encode;
    assert forall g :: g in fs + [f] ==> g in fs || g == f;
    EncodeAllSplit(fs, [f]);
    assert [f][1..] == [];
    assert EncodeAll([f]) == Encode(f) + [] == Encode(f);
    assert Contents([f]) == f.content + [] == f.content;
  }

  /** A piece that starts a TLS application data record. */
  predicate StartsAppData(b: Bytes) {
    |b| >= 6 && b[0] == 0x17 && b[1] == 0x03 && b[2] == 0x03
  }

  predicate SomeAppData(mb: seq<Bytes>, n: nat) {
    exists i :: 0 <= i < n && i < |mb| && StartsAppData(mb[i])
  }

  lemma AppDataStart(b: Bytes)
    ensures |b| >= 6 && b[..3] == APPLICATION_DATA <==> StartsAppData(b)
  {
    if |b| >= 6 {
      assert b[..3] == [b[0], b[1], b[2]];
    }
  }

  /** Piece j is padded long: it ends the padding, or nothing has yet and the
      connection is known to be TLS. */
  predicate LongFor(mb: seq<Bytes>, j: nat, tls: bool, complete: bool)
    requires j < |mb|
  {
    tls && ((complete && StartsAppData(mb[j])) || !(complete && SomeAppData(mb, j)))
  }

  /** The padding is one the seeds allow. */
  ghost predicate Drawn(f: Frame, long: bool, seeds: Seeds) {
    exists draw: nat :: ValidDraw(|f.content|, long, seeds, draw) && f.padding == PaddingLen(|f.content|, long, seeds, draw)
  }

  /** The frames from n on hold the first pieces, in order, padded as they should. */
  ghost predicate FramesOf(fs: seq<Frame>, n: nat, mb: seq<Bytes>, tls: bool, complete: bool, seeds: Seeds) {
    && n <= |fs| <= n + |mb|
    && forall j :: 0 <= j < |fs| - n ==> fs[n + j].content == mb[j] && Drawn(fs[n + j], LongFor(mb, j, tls, complete), seeds)
  }

  lemma FramesOfNext(fs: seq<Frame>, f: Frame, n: nat, mb: seq<Bytes>, tls: bool, complete: bool, seeds: Seeds)
    requires FramesOf(fs, n, mb, tls, complete, seeds) && |fs| < n + |mb| && f.content == mb[|fs| - n]
    requires Drawn(f, LongFor(mb, |fs| - n, tls, complete), seeds)
    ensures FramesOf(fs + [f], n, mb, tls, complete, seeds)
  {
    hide Drawn, LongFor;
  }

  function EndCommand(direct: bool): Byte {
    if direct then DIRECT else END
  }

  /** What the filter knows after one write; it looks while packets are left. */
  function AfterWrite(v: TlsView, m: Message, suite: Suites): TlsView {
    if v.left > 0 then Filter(v, if m.Data? then m.bs else [], suite) else v
  }

  class VisionWriter {
    const ts: TrafficState
    const isUplink: bool
    const seeds: Seeds
    var uuidOnce: Bytes
    /** Set once the inner writer has been replaced by the raw connection. */
    var onRaw: bool
    /** What the inner writer and the raw connection have received. */
    var wire: Bytes
    var raw: Bytes
    ghost var frames: seq<Frame>
    ghost var plain: Bytes
    ghost var given: Bytes

    /** The bytes on the wire are the id, the frames and then unframed bytes; what
        was handed over is the frame contents, then those, then the raw bytes. */
    ghost predicate Consistent()
      reads this
    {
      && |ts.uuid| == 16 && GoodSeeds(seeds)
      && (forall f :: f in frames ==> Encodable(f))
      && uuidOnce == (if frames == [] then ts.uuid else [])
      && wire == (if frames == [] then [] else ts.uuid) + EncodeAll(frames) + plain
      && given == Contents(frames) + plain + raw
    }

    /** While padding, only Continue frames; afterwards exactly one terminal frame,
        and direct copy (armed or done) exactly if it says Direct. */
    ghost predicate Phase()
      reads this, ts
    {
      var l := ts.WriterLink(isUplink);
      && (l.isPadding ==> AllContinue(frames) && plain == [] && raw == [] && !l.writeDirect && !onRaw)
      && (!l.isPadding ==>
            && Terminated(frames)
            && (frames[|frames| - 1].command == DIRECT || frames[|frames| - 1].command == END)
            && (l.writeDirect || onRaw <==> frames[|frames| - 1].command == DIRECT)
            && !(l.writeDirect && onRaw)
            && (frames[|frames| - 1].command == DIRECT ==> plain == [])
            && (!onRaw ==> raw == []))
    }

    ghost predicate Valid()
      reads this, ts
    {
      Consistent() && Phase() && TlsInv(ts.view)
    }

    constructor (ts: TrafficState, isUplink: bool, seeds: Seeds)
      requires |ts.uuid| == 16 && GoodSeeds(seeds) && TlsInv(ts.view)
      requires ts.WriterLink(isUplink).isPadding && !ts.WriterLink(isUplink).writeDirect
      ensures Valid() && this.ts == ts && this.isUplink == isUplink && frames == [] && given == []
    {
      this.ts := ts;
      this.isUplink := isUplink;
      this.seeds := seeds;
      uuidOnce := ts.uuid;
      onRaw := false;
      wire, raw := [], [];
      frames, plain, given := [], [], [];
    }

    method SetWriter(isPadding: bool, armed: bool)
      modifies ts
      ensures ts.WriterLink(isUplink) == old(ts.WriterLink(isUplink)).(isPadding := isPadding, writeDirect := armed)
      ensures ts.WriterLink(!isUplink) == old(ts.WriterLink(!isUplink)) && ts.view == old(ts.view)
    {
      if isUplink {
        ts.outbound := ts.outbound.(isPadding := isPadding, writeDirect := armed);
      } else {
        ts.inbound := ts.inbound.(isPadding := isPadding, writeDirect := armed);
      }
    }

    /** XtlsPadding with a random draw: one more frame on the wire. */
    method EmitFrame(content: Bytes, command: Byte, long: bool)
      requires Consistent() && AllContinue(frames) && plain == [] && raw == [] && |content| <= SIZE - 21
      modifies this
      ensures Consistent() && plain == [] && raw == [] && onRaw == old(onRaw)
      ensures |frames| == |old(frames)| + 1 && frames[..|old(frames)|] == old(frames)
      ensures frames[|frames| - 1].command == command && frames[|frames| - 1].content == content
      ensures Drawn(frames[|frames| - 1], long, seeds)
      ensures command == CONTINUE ==> AllContinue(frames)
      ensures command != CONTINUE ==> Terminated(frames)
      ensures given == old(given) + content
    {
      hide EncodeAll, Encode, Contents, Pad, PaddingLen, Terminated, AllContinue, Encodable;
      var bound := if LongPadding(|content|, long, seeds) then seeds.longDraw else seeds.shortDraw;
      var draw: nat :| draw < bound;
      PaddingNonNegative(seeds);
      assert ValidDraw(|content|, long, seeds, draw);
      PadIsFrame(content, command, uuidOnce, long, seeds, draw);
      var padded := Pad(content, command, uuidOnce, long, seeds, draw);
      ghost var f := Frame(command, content, PaddingLen(|content|, long, seeds, draw));
      ExtendContinue(frames, f);
      WireGrows(ts.uuid, frames, f);
      assert given + content == Contents(frames) + content + [] + [];
      wire := wire + padded.bytes;
      uuidOnce := [];
      frames := frames + [f];
      given := given + content;
    }

    /** The next piece of a data write as one more frame. */
    method EmitPiece(mb: seq<Bytes>, i: nat, command: Byte, long: bool, complete: bool, ghost n: nat, ghost start: Bytes)
      requires Consistent() && AllContinue(frames) && plain == [] && raw == [] && i < |mb| && Fits(mb)
      requires |frames| == n + i && FramesOf(frames, n, mb, ts.view.tls, complete, seeds)
      requires long == LongFor(mb, i, ts.view.tls, complete) && given == start + Concat(mb[..i])
      modifies this
      ensures Consistent() && plain == [] && raw == [] && onRaw == old(onRaw)
      ensures |frames| == n + i + 1 && frames[..n] == old(frames)[..n] && frames[|frames| - 1].command == command
      ensures FramesOf(frames, n, mb, ts.view.tls, complete, seeds)
      ensures command == CONTINUE ==> AllContinue(frames)
      ensures command != CONTINUE ==> Terminated(frames)
      ensures given == start + Concat(mb[..i + 1]) && given + Concat(mb[i + 1..]) == start + Concat(mb)
    {
      hide Consistent, Drawn, Concat, Terminated, AllContinue, LongFor, FramesOf;
      ghost var before := frames;
      ConcatNext(mb, i);
      assert start + Concat(mb[..i]) + mb[i] == start + Concat(mb[..i + 1]);
      assert start + Concat(mb[..i + 1]) + Concat(mb[i + 1..]) == start + Concat(mb);
      EmitFrame(mb[i], command, long);
      assert frames == before + [frames[|before|]];
      FramesOfNext(before, frames[|before|], n, mb, ts.view.tls, complete, seeds);
      assert frames[..n] == frames[..|before|][..n];
    }

    /** The loop over the pieces. */
    method EmitPieces(mb: seq<Bytes>, complete: bool) returns (padding: bool, armed: bool)
      requires Consistent() && AllContinue(frames) && plain == [] && raw == [] && !onRaw && Fits(mb) && TlsInv(ts.view)
      modifies this
      ensures Consistent() && raw == [] && !onRaw && given == old(given) + Concat(mb)
      ensures |frames| >= |old(frames)| && frames[..|old(frames)|] == old(frames)
      ensures FramesOf(frames, |old(frames)|, mb, ts.view.tls, complete, seeds)
      ensures |frames| == |old(frames)| + |mb| || (!ts.view.tls12 && ts.view.left <= 1)
      ensures padding ==> AllContinue(frames) && plain == []
      ensures !padding ==> Ended(armed)
      ensures !padding <==> (complete && ts.view.tls && SomeAppData(mb, |mb|)) || (mb != [] && !ts.view.tls12 && ts.view.left <= 1)
      ensures armed <==> complete && ts.view.enableXtls && SomeAppData(mb, |mb|)
    {
      hide Consistent, Concat, Terminated, AllContinue, FramesOf, StartsAppData, SomeAppData;
      var v, long, early := ts.view, ts.view.tls, false;
      padding, armed := true, false;
      var i := 0;
      ConcatNone();
      PiecesNone(frames, mb, v.tls, complete, seeds);
      assert given + [] == given;
      while i < |mb| && !early
        invariant 0 <= i <= |mb| && Consistent() && raw == [] && !onRaw
        invariant |frames| >= |old(frames)| && frames[..|old(frames)|] == old(frames)
        invariant FramesOf(frames, |old(frames)|, mb, v.tls, complete, seeds)
        invariant !early ==> plain == [] && given == old(given) + Concat(mb[..i]) && |frames| == |old(frames)| + i
        invariant !early && (i < |mb| || padding) ==> AllContinue(frames)
        invariant !early && i == |mb| && !padding ==> Ended(v.enableXtls)
        invariant !early ==> (!padding <==> complete && v.tls && SomeAppData(mb, i)) && long == (v.tls && padding)
        invariant !early ==> armed == (v.enableXtls && !padding)
        invariant !early && i > 0 && !v.tls12 && v.left <= 1 ==> !padding
        invariant early ==> i > 0 && !padding && !armed && !v.tls12 && v.left <= 1 && Ended(false) && given == old(given) + Concat(mb)
        decreases |mb| - i
      {
        var b := mb[i];
        var last := i == |mb| - 1;
        AppDataStart(b);
        SomeAppDataNext(mb, i);
        if v.tls && |b| >= 6 && b[..3] == APPLICATION_DATA && complete {
          armed := armed || v.enableXtls;
          EmitPiece(mb, i, if last then EndCommand(v.enableXtls) else CONTINUE, true, complete, |old(frames)|, old(given));
          padding, long := false, false;
        } else if !v.tls12 && v.left <= 1 {
          padding, early := false, true;
          EmitPiece(mb, i, END, long, complete, |old(frames)|, old(given));
          PassOn(mb, i);
        } else {
          EmitPiece(mb, i, if last && !padding then EndCommand(v.enableXtls) else CONTINUE, long, complete, |old(frames)|, old(given));
        }
        i := i + 1;
      }
      assert mb[..|mb|] == mb;
    }

    /** Frames for the pieces of one data write. Padding ends exactly if a complete
        write has a piece that starts application data of a TLS connection, or the
        filter is at its last packet without a server hello; direct copy is armed
        exactly in the first case with direct copy enabled. */
    method FramePieces(mb: seq<Bytes>, complete: bool)
      requires Valid() && ts.WriterLink(isUplink).isPadding && Fits(mb)
      modifies this, ts
      ensures Valid() && ts.view == old(ts.view) && given == old(given) + Concat(mb)
      ensures ts.WriterLink(!isUplink) == old(ts.WriterLink(!isUplink))
      ensures var l, l0 := ts.WriterLink(isUplink), old(ts.WriterLink(isUplink));
        l == l0.(isPadding := l.isPadding, writeDirect := l.writeDirect)
      ensures |frames| >= |old(frames)| && frames[..|old(frames)|] == old(frames) && !onRaw
      ensures FramesOf(frames, |old(frames)|, mb, ts.view.tls, complete, seeds)
      ensures |frames| == |old(frames)| + |mb| || (!ts.view.tls12 && ts.view.left <= 1)
      ensures !ts.WriterLink(isUplink).isPadding
         <==> (complete && ts.view.tls && SomeAppData(mb, |mb|)) || (mb != [] && !ts.view.tls12 && ts.view.left <= 1)
      ensures ts.WriterLink(isUplink).writeDirect <==> complete && ts.view.enableXtls && SomeAppData(mb, |mb|)
    {
      hide Concat, Terminated, AllContinue, Consistent, FramesOf, SomeAppData, Ended;
      var padding, armed := EmitPieces(mb, complete);
      SetWriter(padding, armed);
      PhaseAfter(armed);
    }

    lemma PhaseAfter(armed: bool)
      requires var l := ts.WriterLink(isUplink);
        l.writeDirect == (armed && !l.isPadding) && raw == [] && !onRaw
        && if l.isPadding then AllContinue(frames) && plain == [] else Ended(armed)
      ensures Phase()
    {
    }

    /** The inner writer becomes the raw connection. */
    method SwitchToRaw()
      requires Valid() && ts.WriterLink(isUplink).writeDirect
      modifies this, ts
      ensures Valid() && onRaw && frames == old(frames) && given == old(given) && ts.view == old(ts.view)
      ensures ts.WriterLink(isUplink) == old(ts.WriterLink(isUplink)).(writeDirect := false)
      ensures ts.WriterLink(!isUplink) == old(ts.WriterLink(!isUplink))
    {
      hide EncodeAll, Contents, Terminated, AllContinue;
      onRaw := true;
      SetWriter(ts.WriterLink(isUplink).isPadding, false);
    }

    /** Bytes that are passed on as they are, once padding has ended. */
    method WriteUnframed(b: Bytes)
      requires Valid() && !ts.WriterLink(isUplink).isPadding && !ts.WriterLink(isUplink).writeDirect
      modifies this
      ensures Valid() && given == old(given) + b && frames == old(frames) && onRaw == old(onRaw)
      ensures (wire, raw) == if onRaw then (old(wire), old(raw) + b) else (old(wire) + b, old(raw))
    {
      hide EncodeAll, Contents;
      assert given + b == Contents(frames) + (plain + raw) + b == Contents(frames) + (plain + (raw + b));
      if onRaw {
        assert given + b == Contents(frames) + plain + (raw + b);
        raw := raw + b;
      } else {
        var id := if frames == [] then [] else ts.uuid;
        assert wire + b == id + EncodeAll(frames) + (plain + b);
        assert given + b == Contents(frames) + (plain + b) + [];
        wire := wire + b;
        plain := plain + b;
      }
      given := given + b;
    }

    /** One write. Bytes handed over are never lost or reordered; frames already
        sent stay; nothing is framed once padding has ended; a switch to the raw
        connection armed by an earlier write happens before this one's bytes. */
    method WriteMultiBuffer(m: Message, suite: Suites) returns (ghost pieces: seq<Bytes>)
      requires Valid() && (m.Data? ==> forall b :: b in m.bs ==> |b| <= SIZE)
      modifies this, ts
      ensures Valid() && given == old(given) + Payload(m)
      ensures |frames| >= |old(frames)| && frames[..|old(frames)|] == old(frames)
      ensures !old(ts.WriterLink(isUplink)).isPadding ==>
        && frames == old(frames) && !ts.WriterLink(isUplink).isPadding && !ts.WriterLink(isUplink).writeDirect
        && onRaw == (old(onRaw) || old(ts.WriterLink(isUplink)).writeDirect)
      ensures ts.view == AfterWrite(old(ts.view), m, suite)
      ensures m.Data? && m.bs != [] && !ts.view.tls12 && ts.view.left <= 1 ==> !ts.WriterLink(isUplink).isPadding
      ensures m.HeaderOnly? && old(ts.WriterLink(isUplink)).isPadding ==>
        && ts.WriterLink(isUplink).isPadding && |frames| == |old(frames)| + 1
        && frames[|frames| - 1].content == [] && Drawn(frames[|frames| - 1], true, seeds)
      ensures m.Data? && old(ts.WriterLink(isUplink)).isPadding ==>
        && Concat(pieces) == Concat(m.bs) && Fits(pieces) && |pieces| >= |m.bs|
        && ((forall i :: 0 <= i < |m.bs| ==> |m.bs[i]| < SIZE - 21) ==> pieces == m.bs)
        && FramesOf(frames, |old(frames)|, pieces, ts.view.tls, IsRecords(Concat(m.bs)), seeds)
        && (|frames| == |old(frames)| + |pieces| || (!ts.view.tls12 && ts.view.left <= 1))
        && (!ts.WriterLink(isUplink).isPadding <==>
              || (IsRecords(Concat(m.bs)) && ts.view.tls && SomeAppData(pieces, |pieces|))
              || (pieces != [] && !ts.view.tls12 && ts.view.left <= 1))
        && (ts.WriterLink(isUplink).writeDirect <==> IsRecords(Concat(m.bs)) && ts.view.enableXtls && SomeAppData(pieces, |pieces|))
      ensures var l, l0 := ts.WriterLink(isUplink), old(ts.WriterLink(isUplink));
        l == l0.(isPadding := l.isPadding, writeDirect := l.writeDirect)
      ensures ts.ReaderLink(isUplink) == old(ts.ReaderLink(isUplink)).(isPadding := ts.ReaderLink(isUplink).isPadding, writeDirect := ts.ReaderLink(isUplink).writeDirect)
      ensures ts.WriterLink(!isUplink) == old(ts.WriterLink(!isUplink))
    {
      hide EncodeAll, Contents, Terminated, AllContinue, Filter, IsRecords, Concat, Consistent, FramesOf, SomeAppData, Drawn, Fits, TlsInv;
      pieces := [];
      if ts.WriterLink(isUplink).writeDirect {
        SwitchToRaw();
      }
      if ts.view.left > 0 {
        var bs := if m.Data? then m.bs else [];
        FilterKeepsInv(ts.view, bs, suite);
        ts.XtlsFilterTls(bs, suite);
      }
      if !ts.WriterLink(isUplink).isPadding {
        WriteUnframed(Payload(m));
      } else if m.HeaderOnly? {
        EmitFrame([], CONTINUE, true);
      } else {
        var complete := IsCompleteRecord(m.bs);
        var mb := Reshape(m.bs);
        pieces := mb;
        FramePieces(mb, complete);
      }
    }

    /** The frames end with a terminal one of the given kind. */
    ghost predicate Ended(direct: bool)
      reads this
    {
      Terminated(frames) && frames[|frames| - 1].command == EndCommand(direct) && (direct ==> plain == [])
    }

    /** After an early End the remaining pieces follow unframed. */
    method PassOn(mb: seq<Bytes>, i: nat)
      requires Consistent() && plain == [] && raw == [] && i < |mb|
      modifies this
      ensures Consistent() && raw == [] && onRaw == old(onRaw) && frames == old(frames)
      ensures given == old(given) + Concat(mb[i + 1..])
    {
      hide EncodeAll, Contents;
      var rest := Concat(mb[i + 1..]);
      assert wire + rest == (if frames == [] then [] else ts.uuid) + EncodeAll(frames) + rest;
      assert given + rest == Contents(frames) + rest + [];
      wire := wire + rest;
      plain := rest;
      given := given + rest;
    }
  }

  lemma WireGrows(uuid: Bytes, fs: seq<Frame>, f: Frame)
    requires AllContinue(fs) && Encodable(f)
    requires EncodeAll(fs + [f]) == EncodeAll(fs) + Encode(f)
    ensures ((if fs == [] then [] else uuid) + EncodeAll(fs) + []) + ((if fs == [] then uuid else []) + Encode(f)) == uuid + EncodeAll(fs + [f]) + []
  {
    hide Encode;
    if fs == [] {
      assert EncodeAll(fs) == [];
    }
  }

  lemma PiecesNone(fs: seq<Frame>, mb: seq<Bytes>, tls: bool, complete: bool, seeds: Seeds)
    ensures FramesOf(fs, |fs|, mb, tls, complete, seeds) && !SomeAppData(mb, 0) && mb[..0] == []
  {
  }

  lemma SomeAppDataNext(mb: seq<Bytes>, i: nat)
    requires i < |mb|
    ensures SomeAppData(mb, i + 1) <==> SomeAppData(mb, i) || StartsAppData(mb[i])
  {
    hide StartsAppData;
  }

  lemma ConcatNone()
    ensures Concat([]) == []
  {
  }

  lemma {:induction false} ConcatNext(mb: seq<Bytes>, i: nat)
    requires i < |mb|
    ensures Concat(mb[..i + 1]) == Concat(mb[..i]) + mb[i]
    ensures Concat(mb) == Concat(mb[..i + 1]) + Concat(mb[i + 1..])
  {
    hide *;
    assert mb[..i + 1] == mb[..i] + [mb[i]];
    ConcatAppend(mb[..i], [mb[i]]);
    ConcatOne(mb[i]);
    assert mb == mb[..i + 1] + mb[i + 1..];
    ConcatAppend(mb[..i + 1], mb[i + 1..]);
  }
}
