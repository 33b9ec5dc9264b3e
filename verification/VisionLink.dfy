/** A writer and a reader joined by a connection, and both on one traffic state. */
module VisionLink {
  import opened VisionFrame
  import opened VisionUnpad
  import opened VisionState
  import opened VisionTls
  import W = VisionWriter
  import R = VisionReader

  /** The reads are cuts of what the writer put on the wire and, on Direct, on the
      raw connection; some of the raw bytes may already sit in the TLS connection. */
  ghost predicate Carries(w: W.VisionWriter, rs: seq<R.Read>, t: nat, extra: Bytes, held: Bytes)
    requires t <= |rs|
    reads w
  {
    if w.onRaw then extra == w.plain && held + R.Sent(rs[t..]) == w.raw
    else extra + R.Sent(rs[t..]) == w.plain && held == []
  }

  /** Once the writer has finished padding, the reader has received exactly what
      the writer was given, and both ends agree on direct copy. */
  lemma EndToEnd(w: W.VisionWriter, rs: seq<R.Read>, t: nat, extra: Bytes, held: Bytes)
    requires w.Valid() && !w.ts.WriterLink(w.isUplink).isPadding
    requires t <= |rs| && R.Completes(w.ts.uuid, w.frames, rs[..t], extra) && Carries(w, rs, t, extra, held)
    requires !w.onRaw ==> R.Quiet(w.ts.uuid, rs[t..])
    ensures var (m, out) := R.Run(w.ts.uuid, rs, held);
      && out == w.given && !m.within
      && (m.direct <==> w.onRaw || w.ts.WriterLink(w.isUplink).writeDirect)
  {
    hide R.Run, R.Completes, R.Quiet, R.Sent, EncodeAll, Contents;
    R.Delivers(w.ts.uuid, w.frames, rs, t, extra, held);
    var c, later := Contents(w.frames), R.Sent(rs[t..]);
    if w.onRaw {
      assert c + extra + held + later == c + extra + (held + later);
    } else {
      assert c + extra + [] + later == c + (extra + later) + [];
    }
  }

  // ----- writes and reads of one connection -----

  /** A call on the writer or on the reader of one traffic state. */
  datatype Turn = Wrote(m: W.Message, suite: Suites) | ReadIn(bufs: seq<Bytes>, suite: Suites)

  predicate IsDataWrite(t: Turn) {
    t.Wrote? && t.m.Data? && t.m.bs != []
  }

  predicate Sized(t: Turn) {
    match t
    case Wrote(m, _) => m.Data? ==> forall b :: b in m.bs ==> |b| <= SIZE
    case ReadIn(bufs, _) => forall b :: b in bufs ==> |b| <= SIZE
  }

  function PayloadOf(t: Turn): Bytes {
    if t.Wrote? then W.Payload(t.m) else []
  }

  function Payloads(ts: seq<Turn>): Bytes {
    if ts == [] then [] else Payloads(ts[..|ts| - 1]) + PayloadOf(ts[|ts| - 1])
  }

  type Call = (seq<Bytes>, Suites)

  /** All buffers that have passed the filter's loop. */
  function Buffers(calls: seq<Call>): seq<Bytes> {
    if calls == [] then [] else Buffers(calls[..|calls| - 1]) + calls[|calls| - 1].0
  }

  ghost predicate NoServerHello(bs: seq<Bytes>) {
    forall i :: 0 <= i < |bs| ==> !IsServerHello(bs[i])
  }

  lemma NoHelloSplit(a: seq<Bytes>, b: seq<Bytes>)
    requires NoServerHello(a + b)
    ensures NoServerHello(a) && NoServerHello(b)
  {
    hide IsServerHello;
    assert forall i :: 0 <= i < |a| ==> (a + b)[i] == a[i];
    assert forall i :: 0 <= i < |b| ==> (a + b)[|a| + i] == b[i];
  }

  lemma {:induction false} PacketsUsed(calls: seq<Call>)
    requires NoServerHello(Buffers(calls))
    ensures var w := AfterCalls(calls); var n := |Buffers(calls)|;
      !w.tls12 && w.hello <= 0 && w.left <= (if n < 8 then 8 - n else 0)
    decreases |calls|
  {
    hide Filter, NoServerHello;
    if calls != [] {
      var before, c := calls[..|calls| - 1], calls[|calls| - 1];
      NoHelloSplit(Buffers(before), c.0);
      PacketsUsed(before);
      FilterQuiet(AfterCalls(before), c.0, c.1);
    }
  }

  lemma FilterQuiet(v: TlsView, bs: seq<Bytes>, suite: Suites)
    requires v.hello <= 0 && !v.tls12 && NoServerHello(bs)
    ensures var w := Filter(v, bs, suite); w.hello <= 0 && !w.tls12 && w.left == v.left - |bs|
  {
    FilterCounts(v, bs, 0, suite);
    FilterFlags(v, bs, 0, suite);
  }

  /** Turn k is a data write by which seven buffers have been filtered, none of them
      a server hello. */
  ghost predicate Seventh(ts: seq<Turn>, calls: seq<Call>, k: nat) {
    && k < |ts| && k < |calls| && IsDataWrite(ts[k])
    && |Buffers(calls[..k + 1])| >= 7 && NoServerHello(Buffers(calls[..k + 1]))
  }

  /** Both objects work on the same traffic state and are in order. */
  ghost predicate Joined(w: W.VisionWriter, r: R.VisionReader)
    reads w, r, w.ts, r.ts
  {
    w.ts == r.ts && w.Valid() && r.Valid()
  }

  /** One turn; "call" is what it puts through the filter. */
  method TakeTurn(w: W.VisionWriter, r: R.VisionReader, t: Turn) returns (ghost call: Call)
    requires Joined(w, r) && Sized(t)
    modifies w, r, w.ts
    ensures Joined(w, r) && w.given == old(w.given) + PayloadOf(t)
    ensures w.ts.view == AfterTurn(old(w.ts.view), call)
    ensures t.Wrote? ==> call == (if t.m.Data? then t.m.bs else [], t.suite)
    ensures t.ReadIn? ==>
      && Usable(old(r.ModeNow()).parser)
      && call == (R.Filtered(w.ts.uuid, old(r.ModeNow()), R.Read(t.bufs, old(w.ts.view.left) > 0)), t.suite)
    ensures !old(w.ts.WriterLink(w.isUplink)).isPadding ==> !w.ts.WriterLink(w.isUplink).isPadding
    ensures IsDataWrite(t) && !w.ts.view.tls12 && w.ts.view.left <= 1 ==> !w.ts.WriterLink(w.isUplink).isPadding
  {
    assert w.given + [] == w.given;
    hide Filter, Joined, R.Filtered, AfterTurn;
    match t {
      case Wrote(m, suite) => call := TurnWrite(w, r, m, suite);
      case ReadIn(bufs, suite) => call := TurnRead(w, r, bufs, suite);
    }
  }

  function AfterTurn(v: TlsView, call: Call): TlsView {
    if v.left > 0 then Filter(v, call.0, call.1) else v
  }

  method TurnWrite(w: W.VisionWriter, r: R.VisionReader, m: W.Message, suite: Suites) returns (ghost call: Call)
    requires Joined(w, r) && Sized(Wrote(m, suite))
    modifies w, r, w.ts
    ensures Joined(w, r) && w.given == old(w.given) + W.Payload(m)
    ensures w.ts.view == AfterTurn(old(w.ts.view), call) && call == (if m.Data? then m.bs else [], suite)
    ensures !old(w.ts.WriterLink(w.isUplink)).isPadding ==> !w.ts.WriterLink(w.isUplink).isPadding
    ensures m.Data? && m.bs != [] && !w.ts.view.tls12 && w.ts.view.left <= 1 ==> !w.ts.WriterLink(w.isUplink).isPadding
  {
    hide Filter, w.Valid, W.FramesOf, W.SomeAppData, W.Drawn, Usable, W.Payload;
    call := (if m.Data? then m.bs else [], suite);
    WriterInv(w);
    ghost var pieces := w.WriteMultiBuffer(m, suite);
    WriterInv(w);
  }

  lemma WriterInv(w: W.VisionWriter)
    requires w.Valid()
    ensures TlsInv(w.ts.view)
  {
  }

  method TurnRead(w: W.VisionWriter, r: R.VisionReader, bufs: seq<Bytes>, suite: Suites) returns (ghost call: Call)
    requires Joined(w, r) && Sized(ReadIn(bufs, suite))
    modifies r, w.ts
    ensures Joined(w, r) && w.given == old(w.given)
    ensures Usable(old(r.ModeNow()).parser)
    ensures call == (R.Filtered(w.ts.uuid, old(r.ModeNow()), R.Read(bufs, old(w.ts.view.left) > 0)), suite)
    ensures w.ts.view == AfterTurn(old(w.ts.view), call)
    ensures w.ts.WriterLink(w.isUplink).isPadding == old(w.ts.WriterLink(w.isUplink)).isPadding
  {
    hide Filter, w.Consistent, Terminated, AllContinue, R.ReadStep, R.Filtered, R.Delivered, Usable;
    call := (R.Filtered(w.ts.uuid, r.ModeNow(), R.Read(bufs, w.ts.view.left > 0)), suite);
    var _ := r.ReadMultiBuffer(bufs, suite);
  }

  /** Any run of writes and reads. The filter's view is what the bytes it saw say;
      padding has ended by the data write by which the seventh buffer without a
      server hello is filtered, and stays so; every byte written is accounted for. */
  method Converse(w: W.VisionWriter, r: R.VisionReader, ts: seq<Turn>) returns (ghost calls: seq<Call>)
    requires Joined(w, r) && w.ts.view == FreshView && forall i :: 0 <= i < |ts| ==> Sized(ts[i])
    modifies w, r, w.ts
    ensures Joined(w, r) && w.given == old(w.given) + Payloads(ts)
    ensures |calls| == |ts| && forall i :: 0 <= i < |ts| && ts[i].Wrote? ==> calls[i] == (if ts[i].m.Data? then ts[i].m.bs else [], ts[i].suite)
    ensures w.ts.view == AfterCalls(calls) && Means(w.ts.view, History(SeenCalls(calls)))
    ensures forall k: nat :: k < |ts| && Seventh(ts, calls, k) ==> !w.ts.WriterLink(w.isUplink).isPadding
  {
    hide Joined, NoServerHello, PayloadOf, IsDataWrite, Filter, Means, History, Sized, R.Filtered, Usable, Seventh, Buffers, AfterCalls, AfterTurn, SeenCalls;
    calls := [];
    AfterNone();
    assert w.given + [] == w.given;
    for i := 0 to |ts|
      invariant Joined(w, r) && w.given == old(w.given) + Payloads(ts[..i])
      invariant |calls| == i && forall k :: 0 <= k < i && ts[k].Wrote? ==> calls[k] == (if ts[k].m.Data? then ts[k].m.bs else [], ts[k].suite)
      invariant w.ts.view == AfterCalls(calls)
      invariant forall k: nat :: k < i && Seventh(ts, calls, k) ==> !w.ts.WriterLink(w.isUplink).isPadding
    {
      ghost var before := calls;
      ghost var call := TakeTurn(w, r, ts[i]);
      calls := calls + [call];
      assert calls[..i] == before && calls[..i + 1] == calls && ts[..i + 1][..i] == ts[..i];
      AfterOneMore(before, call);
      SameSevenths(ts, before, calls);
      SeventhQuiet(ts, calls, i);
      assert old(w.given) + Payloads(ts[..i]) + PayloadOf(ts[i]) == old(w.given) + Payloads(ts[..i + 1]);
    }
    assert ts[..|ts|] == ts;
    FilterMeans(calls);
    KnowsMeans(w.ts.view, History(SeenCalls(calls)));
  }

  lemma AfterNone()
    ensures AfterCalls([]) == FreshView
  {
  }

  lemma AfterOneMore(calls: seq<Call>, call: Call)
    ensures AfterCalls(calls + [call]) == AfterTurn(AfterCalls(calls), call)
  {
    hide Filter;
    assert (calls + [call])[..|calls|] == calls;
  }

  lemma SeventhQuiet(ts: seq<Turn>, calls: seq<Call>, i: nat)
    requires |calls| == i + 1
    ensures Seventh(ts, calls, i) ==> i < |ts| && IsDataWrite(ts[i]) && !AfterCalls(calls).tls12 && AfterCalls(calls).left <= 1
  {
    hide NoServerHello, IsDataWrite, AfterCalls, Buffers;
    if Seventh(ts, calls, i) {
      assert calls[..i + 1] == calls;
      PacketsUsed(calls);
    }
  }

  lemma SameSevenths(ts: seq<Turn>, before: seq<Call>, calls: seq<Call>)
    requires before <= calls
    ensures forall k: nat :: k < |before| ==> (Seventh(ts, calls, k) <==> Seventh(ts, before, k))
  {
    hide NoServerHello, IsDataWrite, Buffers;
    forall k: nat | k < |before|
      ensures Seventh(ts, calls, k) <==> Seventh(ts, before, k)
    {
      assert calls[..k + 1] == before[..k + 1];
    }
  }

  lemma KnowsMeans(v: TlsView, h: seq<Seen>)
    requires Knows(v, h)
    ensures Means(v, h)
  {
  }
}
