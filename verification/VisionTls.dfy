/** What the TLS filter knows, read off the bytes it has looked at. */
module VisionTls {
  import opened VisionFrame
  import opened VisionState

  /** A buffer the filter looked at, and the two bytes' value behind its content. */
  datatype Seen = Seen(b: Bytes, behind: nat)

  // ----- what the bytes say -----

  /** A handshake record that starts with a server hello. */
  predicate HelloBytes(b: Bytes) {
    |b| >= 6 && b[0] == 0x16 && b[1] == 0x03 && b[2] == 0x03 && b[5] == 0x02
  }

  predicate ClientBytes(b: Bytes) {
    |b| >= 6 && b[0] == 0x16 && b[1] == 0x03 && b[5] == 0x01
  }

  /** Length of the announced record with its header. */
  function Announced(b: Bytes): int
    requires |b| >= 6
  {
    0x100 * b[3] as int + b[4] as int + 5
  }

  /** The hello is long enough for the filter to look for the cipher suite. */
  predicate NamesSuite(b: Bytes) {
    HelloBytes(b) && |b| >= 79 && Announced(b) >= 79
  }

  /** The suite follows the session id, whose length is byte 43. */
  function SuiteIn(s: Seen): int
    requires |s.b| >= 79
  {
    var o := 44 + s.b[43] as int;
    if o + 2 <= |s.b| then 0x100 * s.b[o] as int + s.b[o + 1] as int else s.behind
  }

  /** Within the first n bytes stands the extension that selects TLS 1.3. */
  predicate SelectsTls13(b: Bytes, n: int) {
    exists p :: 0 <= p && p + 6 <= n && p + 6 <= |b| && TlsMark(b, p)
  }

  predicate TlsMark(b: Bytes, p: nat)
    requires p + 6 <= |b|
  {
    b[p] == 0x00 && b[p + 1] == 0x2b && b[p + 2] == 0x00 && b[p + 3] == 0x02 && b[p + 4] == 0x03 && b[p + 5] == 0x04
  }

  /** Bytes of the buffers from k up to j. */
  function Total(h: seq<Seen>, k: nat, j: nat): nat
    requires k <= j <= |h|
    decreases j
  {
    if j == k then 0 else Total(h, k, j - 1) + |h[j - 1].b|
  }

  /** The last server hello up to buffer j is in buffer k. */
  ghost predicate Current(h: seq<Seen>, k: nat, j: nat) {
    k <= j < |h| && HelloBytes(h[k].b) && forall i :: k < i <= j ==> !HelloBytes(h[i].b)
  }

  /** Bytes of that hello still to come when buffer j starts. */
  function Due(h: seq<Seen>, k: nat, j: nat): int
    requires k <= j < |h| && |h[k].b| >= 6
  {
    Announced(h[k].b) - Total(h, k, j)
  }

  /** Buffer j shows, inside the server hello, that TLS 1.3 was selected. */
  ghost predicate ShowsTls13(h: seq<Seen>, j: nat) {
    exists k: nat :: Current(h, k, j) && SelectsTls13(h[j].b, Due(h, k, j))
  }

  /** Buffer j completes the server hello. */
  ghost predicate CompletesHello(h: seq<Seen>, j: nat) {
    exists k: nat :: Current(h, k, j) && 0 < Due(h, k, j) <= |h[j].b|
  }

  /** Buffer j settles the question. */
  ghost predicate Settles(h: seq<Seen>, j: nat) {
    ShowsTls13(h, j) || CompletesHello(h, j)
  }

  /** c is the suite of the last hello long enough to name one, or 0. */
  ghost predicate SuiteIs(h: seq<Seen>, c: int) {
    || (exists k: nat :: LastNaming(h, k) && c == SuiteIn(h[k]))
    || (c == 0 && forall i :: 0 <= i < |h| ==> !NamesSuite(h[i].b))
  }

  ghost predicate LastNaming(h: seq<Seen>, k: nat) {
    k < |h| && NamesSuite(h[k].b) && forall i :: k < i < |h| ==> !NamesSuite(h[i].b)
  }

  ghost predicate Settled(h: seq<Seen>) {
    h != [] && Settles(h, |h| - 1)
  }

  /** The TLS 1.3 suites that allow direct copy. */
  predicate DirectSuite(c: int) {
    c == 0x1301 || c == 0x1302 || c == 0x1303 || c == 0x1304
  }

  /** Everything the filter remembers, in terms of the buffers it has seen. */
  ghost predicate Means(v: TlsView, h: seq<Seen>) {
    && v.left == (if Settled(h) then 0 else 8 - |h|)
    && (v.enableXtls <==> h != [] && ShowsTls13(h, |h| - 1) && DirectSuite(v.cipher))
    && SuiteIs(h, v.cipher)
    && (v.tls12 <==> exists k :: 0 <= k < |h| && HelloBytes(h[k].b))
    && (v.tls <==> exists k :: 0 <= k < |h| && (HelloBytes(h[k].b) || ClientBytes(h[k].b)))
  }

  // ----- which buffers it sees -----

  /** The buffers of one call, up to the one that settles the question. */
  ghost function Look(h: seq<Seen>, call: seq<Seen>): seq<Seen>
    decreases |call|
  {
    if call == [] || Settled(h) then h else Look(h + [call[0]], call[1..])
  }

  /** Nothing more is looked at once it is settled or eight buffers were seen. */
  ghost predicate Closed(h: seq<Seen>) {
    Settled(h) || |h| >= 8
  }

  /** All calls of a run, writes and reads alike. */
  ghost function History(calls: seq<seq<Seen>>): seq<Seen> {
    if calls == [] then []
    else
      var h := History(calls[..|calls| - 1]);
      if Closed(h) then h else Look(h, calls[|calls| - 1])
  }

  function CallOf(bs: seq<Bytes>, suite: Suites): (call: seq<Seen>)
    ensures |call| == |bs| && forall i :: 0 <= i < |bs| ==> call[i] == Seen(bs[i], suite(i))
  {
    seq(|bs|, i requires 0 <= i < |bs| => Seen(bs[i], suite(i)))
  }

  // ----- one buffer -----

  /** Position of the last server hello, or -1. */
  ghost function LastHello(h: seq<Seen>): (k: int)
    ensures -1 <= k < |h| && (k >= 0 ==> HelloBytes(h[k].b))
    ensures forall i :: k < i < |h| ==> !HelloBytes(h[i].b)
  {
    if h == [] then -1
    else if HelloBytes(h[|h| - 1].b) then |h| - 1
    else LastHello(h[..|h| - 1])
  }

  /** The filter's own counter while the question is open. */
  ghost predicate Counts(v: TlsView, h: seq<Seen>) {
    var k := LastHello(h);
    if k < 0 then v.hello <= 0 else v.hello > 0 && v.hello == Announced(h[k].b) - Total(h, k, |h|)
  }

  ghost predicate Knows(v: TlsView, h: seq<Seen>) {
    Means(v, h) && (!Settled(h) ==> Counts(v, h))
  }

  lemma HelloIs(b: Bytes)
    ensures IsServerHello(b) <==> HelloBytes(b)
    ensures IsClientHello(b) <==> ClientBytes(b)
  {
    if |b| >= 6 {
      assert b[..3] == [b[0], b[1], b[2]] && b[..2] == [b[0], b[1]];
    }
  }

  lemma ContainsIs(b: Bytes, n: int)
    requires n > 0
    ensures Contains(b[..if n > |b| then |b| else n], SUPPORTED_VERSIONS) <==> SelectsTls13(b, n)
  {
    var end := if n > |b| then |b| else n;
    var t := b[..end];
    if p :| 0 <= p && p + 6 <= n && p + 6 <= |b| && TlsMark(b, p) {
      assert t[p..p + 6] == [b[p], b[p + 1], b[p + 2], b[p + 3], b[p + 4], b[p + 5]];
      assert MatchAt(t, SUPPORTED_VERSIONS, p);
    }
    if Contains(t, SUPPORTED_VERSIONS) {
      var p: nat :| p <= |t| && MatchAt(t, SUPPORTED_VERSIONS, p);
      assert t[p..p + 6] == [b[p], b[p + 1], b[p + 2], b[p + 3], b[p + 4], b[p + 5]];
      assert TlsMark(b, p);
    }
  }

  lemma {:induction false} TotalKept(h: seq<Seen>, s: Seen, k: nat, j: nat)
    requires k <= j <= |h|
    ensures Total(h + [s], k, j) == Total(h, k, j)
    decreases j
  {
    if k < j {
      TotalKept(h, s, k, j - 1);
    }
  }

  /** The last hello is the only current one. */
  lemma CurrentIsLast(h: seq<Seen>, k: nat)
    requires h != []
    ensures Current(h, k, |h| - 1) <==> k == LastHello(h)
  {
    hide HelloBytes;
  }

  lemma LastHelloNext(h: seq<Seen>, s: Seen)
    ensures LastHello(h + [s]) == if HelloBytes(s.b) then |h| else LastHello(h)
  {
    hide HelloBytes;
    assert (h + [s])[..|h|] == h;
  }

  /** With d hello bytes due at the last buffer, when is it settled. */
  lemma SettlesAtLast(h: seq<Seen>)
    requires h != []
    ensures var k := LastHello(h);
      && (k < 0 ==> !ShowsTls13(h, |h| - 1) && !Settled(h))
      && (k >= 0 ==>
            var d := Due(h, k, |h| - 1);
            && (ShowsTls13(h, |h| - 1) <==> SelectsTls13(h[|h| - 1].b, d))
            && (Settled(h) <==> SelectsTls13(h[|h| - 1].b, d) || 0 < d <= |h[|h| - 1].b|))
  {
    hide HelloBytes, SelectsTls13, LastHello, Current;
    var j: nat := |h| - 1;
    forall k: nat
      ensures Current(h, k, j) <==> k == LastHello(h)
    {
      CurrentIsLast(h, k);
    }
    var k := LastHello(h);
    if k >= 0 {
      CurrentIsLast(h, k);
    }
    CurrentFits(h);
  }

  lemma CurrentFits(h: seq<Seen>)
    ensures forall k: nat, j: nat :: Current(h, k, j) ==> k <= j < |h| && |h[k].b| >= 6
    ensures LastHello(h) >= 0 ==> |h[LastHello(h)].b| >= 6
  {
  }

  /** The counter before a buffer's hello bytes are taken off. */
  lemma CounterIsDue(v: TlsView, h: seq<Seen>, s: Seen)
    requires Counts(v, h)
    ensures var k := LastHello(h + [s]); var c := if HelloBytes(s.b) then Announced(s.b) else v.hello;
      && (k < 0 ==> c <= 0)
      && (k >= 0 ==> |(h + [s])[k].b| >= 6 && c > 0 && c == Due(h + [s], k, |h|))
  {
    LastHelloNext(h, s);
    var k := LastHello(h);
    if k >= 0 {
      TotalKept(h, s, k, |h|);
    }
  }

  lemma SuiteNext(h: seq<Seen>, s: Seen, c: int)
    requires SuiteIs(h, c)
    ensures SuiteIs(h + [s], if NamesSuite(s.b) then SuiteIn(s) else c)
  {
    hide SuiteIn, HelloBytes;
    var h1 := h + [s];
    if NamesSuite(s.b) {
      assert LastNaming(h1, |h|);
    } else if k: nat :| LastNaming(h, k) && c == SuiteIn(h[k]) {
      assert h1[k] == h[k] && LastNaming(h1, k);
    }
  }

  lemma FlagsNext(h: seq<Seen>, s: Seen)
    ensures (exists k :: 0 <= k < |h + [s]| && HelloBytes((h + [s])[k].b)) <==> HelloBytes(s.b) || exists k :: 0 <= k < |h| && HelloBytes(h[k].b)
    ensures (exists k :: 0 <= k < |h + [s]| && (HelloBytes((h + [s])[k].b) || ClientBytes((h + [s])[k].b)))
       <==> HelloBytes(s.b) || ClientBytes(s.b) || exists k :: 0 <= k < |h| && (HelloBytes(h[k].b) || ClientBytes(h[k].b))
  {
    hide HelloBytes, ClientBytes;
    var h1 := h + [s];
    assert h1[|h|] == s;
    assert forall k :: 0 <= k < |h| ==> h1[k] == h[k];
  }

  /** What Recognise does, in terms of the bytes. */
  lemma RecogniseIs(v: TlsView, s: Seen)
    ensures var u := Recognise(v, s.b, s.behind);
      && u.hello == (if HelloBytes(s.b) then Announced(s.b) else v.hello)
      && u.cipher == (if NamesSuite(s.b) then SuiteIn(s) else v.cipher)
      && (u.tls12 <==> v.tls12 || HelloBytes(s.b)) && (u.tls <==> v.tls || HelloBytes(s.b) || ClientBytes(s.b))
      && u.left == v.left && u.enableXtls == v.enableXtls
  {
    HelloIs(s.b);
  }

  /** One more buffer. */
  lemma StepKnows(v: TlsView, h: seq<Seen>, s: Seen)
    requires Knows(v, h) && !Settled(h)
    ensures var (w, stop) := FilterOne(v, s.b, s.behind); Knows(w, h + [s]) && (stop <==> Settled(h + [s]))
  {
    hide Recognise, Contains, HelloBytes, ClientBytes, NamesSuite, SuiteIs, SelectsTls13, Settles, ShowsTls13, LastHello, Announced, SuiteIn, Total;
    var h1 := h + [s];
    var u := Recognise(v.(left := v.left - 1), s.b, s.behind);
    RecogniseIs(v.(left := v.left - 1), s);
    CounterIsDue(v, h, s);
    SuiteNext(h, s, v.cipher);
    FlagsNext(h, s);
    NotShown(h);
    assert h1[|h1| - 1] == s;
    SettlesAtLast(h1);
    var k := LastHello(h1);
    if u.hello > 0 {
      ContainsIs(s.b, u.hello);
      DueLeft(h1, k);
    }
  }

  lemma NotShown(h: seq<Seen>)
    requires !Settled(h)
    ensures !(h != [] && ShowsTls13(h, |h| - 1))
  {
  }

  lemma DueLeft(h: seq<Seen>, k: nat)
    requires k < |h| && |h[k].b| >= 6
    ensures Announced(h[k].b) - Total(h, k, |h|) == Due(h, k, |h| - 1) - |h[|h| - 1].b|
  {
  }

  // ----- whole runs -----

  lemma {:induction false} CallKnows(v: TlsView, h: seq<Seen>, bs: seq<Bytes>, i: nat, suite: Suites)
    requires i <= |bs| && Knows(v, h) && !Settled(h)
    ensures Knows(FilterFrom(v, bs, i, suite), Look(h, CallOf(bs, suite)[i..]))
    decreases |bs| - i
  {
    hide FilterOne, Knows, Settled;
    var call := CallOf(bs, suite);
    if i < |bs| {
      StepKnows(v, h, call[i]);
      assert call[i..][1..] == call[i + 1..];
      var (w, stop) := FilterOne(v, bs[i], suite(i));
      if !stop {
        CallKnows(w, h + [call[i]], bs, i + 1, suite);
      }
    }
  }

  /** One call of the filter, made while packets are left. */
  lemma FilterKnows(v: TlsView, h: seq<Seen>, bs: seq<Bytes>, suite: Suites)
    requires Knows(v, h)
    ensures v.left > 0 <==> !Closed(h)
    ensures Knows(if v.left > 0 then Filter(v, bs, suite) else v, if Closed(h) then h else Look(h, CallOf(bs, suite)))
  {
    hide FilterFrom, Settled, Look, Counts;
    if v.left > 0 {
      CallKnows(v, h, bs, 0, suite);
      assert CallOf(bs, suite)[0..] == CallOf(bs, suite);
    }
  }

  lemma FreshKnows()
    ensures Knows(FreshView, [])
  {
  }

  /** The filter's view after the calls of a run. */
  function AfterCalls(calls: seq<(seq<Bytes>, Suites)>): TlsView {
    if calls == [] then FreshView
    else
      var v, (bs, suite) := AfterCalls(calls[..|calls| - 1]), calls[|calls| - 1];
      if v.left > 0 then Filter(v, bs, suite) else v
  }

  function SeenCalls(calls: seq<(seq<Bytes>, Suites)>): (seen: seq<seq<Seen>>)
    ensures |seen| == |calls|
  {
    seq(|calls|, i requires 0 <= i < |calls| => CallOf(calls[i].0, calls[i].1))
  }

  /** In every run: direct copy is enabled exactly if a buffer seen inside the
      announced server hello selects TLS 1.3 and the suite named is one of four;
      no packet is left once the hello is settled. */
  lemma {:induction false} FilterMeans(calls: seq<(seq<Bytes>, Suites)>)
    ensures Knows(AfterCalls(calls), History(SeenCalls(calls)))
    decreases |calls|
  {
    hide Knows, Filter, Closed, Look;
    if calls == [] {
      FreshKnows();
    } else {
      var n := |calls| - 1;
      FilterMeans(calls[..n]);
      assert SeenCalls(calls)[..n] == SeenCalls(calls[..n]);
      FilterKnows(AfterCalls(calls[..n]), History(SeenCalls(calls[..n])), calls[n].0, calls[n].1);
    }
  }
}
