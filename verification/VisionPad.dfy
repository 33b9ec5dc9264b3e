/** The sending side's building blocks: the padded frame for one buffer, the
    splitter that makes room for the frame header, and the recogniser of
    complete TLS application data records. */
module VisionPad {
  import opened Words
  import opened VisionFrame

  // ----- padding -----

  /** The four padding seeds, as the 32-bit signed values the code uses. */
  datatype Seeds = Seeds(longBelow: int, longDraw: int, longBase: int, shortDraw: int)

  const DefaultSeeds := Seeds(900, 500, 900, 256)

  predicate LongPadding(contentLen: nat, long: bool, seeds: Seeds) {
    contentLen < seeds.longBelow && long
  }

  /** The padding length for a random draw, capped so that the frame fits. */
  function PaddingLen(contentLen: nat, long: bool, seeds: Seeds, draw: nat): int {
    var wanted := if LongPadding(contentLen, long, seeds) then draw + seeds.longBase - contentLen else draw;
    if wanted > SIZE - 21 - contentLen then SIZE - 21 - contentLen else wanted
  }

  predicate ValidDraw(contentLen: nat, long: bool, seeds: Seeds, draw: nat) {
    draw < if LongPadding(contentLen, long, seeds) then seeds.longDraw else seeds.shortDraw
  }

  /** Padding never goes negative, whatever is drawn, exactly when the long base
      reaches the longest content that gets long padding. */
  lemma PaddingNonNegative(seeds: Seeds)
    requires seeds.longDraw > 0 && seeds.shortDraw > 0
    ensures (forall n: nat, long, draw: nat :: n <= SIZE - 21 && ValidDraw(n, long, seeds, draw) ==> PaddingLen(n, long, seeds, draw) >= 0)
       <==> (seeds.longBelow <= 0 || seeds.longBase >= seeds.longBelow - 1 || seeds.longBase >= SIZE - 21)
  {
    var bad := if seeds.longBelow - 1 < SIZE - 21 then seeds.longBelow - 1 else SIZE - 21;
    if seeds.longBelow > 0 && seeds.longBase < bad {
      assert ValidDraw(bad, true, seeds, 0) && PaddingLen(bad, true, seeds, 0) < 0;
    }
  }

  /** What the padding hides: with long padding the frame's size does not depend on
      the content's, as long as it fits; otherwise the padding is just the draw; and
      content and padding always leave room for the id and the header. */
  lemma PaddingHides(n: nat, long: bool, seeds: Seeds, draw: nat)
    requires n <= SIZE - 21
    ensures var pad := PaddingLen(n, long, seeds, draw);
      && n + pad <= SIZE - 21
      && (long && n < seeds.longBelow ==> n + pad == SIZE - 21 || n + pad == seeds.longBase + draw)
      && (long && n < seeds.longBelow && seeds.longBase + draw <= SIZE - 21 ==> n + pad == seeds.longBase + draw)
      && (!(long && n < seeds.longBelow) && n + draw <= SIZE - 21 ==> pad == draw)
  {
  }

  datatype Padded = Padded(bytes: Bytes) | Panic

  /** Buffer.Write keeps what fits. */
  function Write(buf: Bytes, data: Bytes): Bytes
    requires |buf| <= SIZE
  {
    if |buf| + |data| <= SIZE then buf + data else buf + data[..SIZE - |buf|]
  }

  /** XtlsPadding: id (first frame only), header, content, then zero padding; the
      buffer panics when extended by a negative amount or beyond its capacity. */
  function Pad(content: Bytes, command: Byte, uuid: Bytes, long: bool, seeds: Seeds, draw: nat): Padded
    requires |uuid| <= 16
  {
    var n, pad := |content|, PaddingLen(|content|, long, seeds, draw);
    var header := [command, n / 256 % 256, n % 256, pad / 256 % 256, pad % 256];
    var buf := Write(Write(Write([], uuid), header), content);
    if pad < 0 || |buf| + pad > SIZE then Panic else Padded(buf + Zeros(pad))
  }

  /** Seeds outside that condition really fail: a one-byte content makes the
      padding negative, and the buffer panics. */
  lemma PaddingCanBeNegative(x: Byte, command: Byte, uuid: Bytes)
    requires |uuid| <= 16
    ensures var seeds := Seeds(2, 1, 0, 1);
      ValidDraw(1, true, seeds, 0) && PaddingLen(1, true, seeds, 0) == -1 && Pad([x], command, uuid, true, seeds, 0) == Panic
  {
  }

  /** For a content the splitter leaves, the padded buffer is a frame that fits. */
  lemma PadIsFrame(content: Bytes, command: Byte, uuid: Bytes, long: bool, seeds: Seeds, draw: nat)
    requires |uuid| <= 16 && |content| <= SIZE - 21 && PaddingLen(|content|, long, seeds, draw) >= 0
    ensures var f := Frame(command, content, PaddingLen(|content|, long, seeds, draw));
      && Encodable(f) && Pad(content, command, uuid, long, seeds, draw) == Padded(uuid + Encode(f))
      && |uuid + Encode(f)| <= SIZE
  {
    hide Write;
    var pad := PaddingLen(|content|, long, seeds, draw);
    var f := Frame(command, content, pad);
    var h := Header(f);
    assert h == [command, |content| / 256 % 256, |content| % 256, pad / 256 % 256, pad % 256];
    WriteFits([], uuid);
    WriteFits(uuid, h);
    WriteFits(uuid + h, content);
    assert [] + uuid == uuid;
    assert uuid + h + content + Zeros(pad) == uuid + Encode(f);
  }

  lemma WriteFits(buf: Bytes, data: Bytes)
    requires |buf| + |data| <= SIZE
    ensures Write(buf, data) == buf + data
  {
  }

  // ----- splitting -----

  const APPLICATION_DATA: Bytes := [0x17, 0x03, 0x03]

  predicate OccursAt(b: Bytes, i: int) {
    0 <= i <= |b| - 3 && b[i..i + 3] == APPLICATION_DATA
  }

  /** bytes.LastIndex of the application data marker, or -1. */
  method LastIndex(b: Bytes) returns (i: int)
    ensures -1 <= i
    ensures i >= 0 ==> OccursAt(b, i)
    ensures forall k :: k > i ==> !OccursAt(b, k)
  {
    i := |b| - 3;
    while i >= 0 && b[i..i + 3] != APPLICATION_DATA
      invariant i <= |b| - 3
      invariant forall k :: k > i ==> !OccursAt(b, k)
      decreases i
    {
      i := i - 1;
    }
    if i < -1 {
      i := -1;
    }
  }

  ghost predicate Fits(bs: seq<Bytes>) {
    forall i :: 0 <= i < |bs| ==> |bs[i]| <= SIZE - 21
  }

  lemma {:induction false} ConcatAppend(a: seq<Bytes>, b: seq<Bytes>)
    ensures Concat(a + b) == Concat(a) + Concat(b)
  {
    if a == [] {
      assert a + b == b;
    } else {
      assert (a + b)[1..] == a[1..] + b;
      ConcatAppend(a[1..], b);
    }
  }

  lemma ConcatOne(b: Bytes)
    ensures Concat([b]) == b
  {
    assert [b][1..] == [];
    assert b + [] == b;
  }

  lemma ConcatTwo(a: Bytes, b: Bytes)
    ensures Concat([a, b]) == a + b
  {
    assert [a, b][1..] == [b];
    ConcatOne(b);
  }

  /** i is the last place where a record header starts. */
  ghost predicate IsLastMarker(b: Bytes, i: int) {
    OccursAt(b, i) && forall k :: k > i ==> !OccursAt(b, k)
  }

  /** Cut an oversized buffer at its last record header if that leaves room on both
      sides, and in the middle otherwise. */
  method Split(b: Bytes) returns (left: Bytes, right: Bytes)
    requires SIZE - 21 <= |b| <= SIZE
    ensures left + right == b && |left| <= SIZE - 21 && |right| <= SIZE - 21
    ensures (IsLastMarker(b, |left|) && |left| >= 21) || |left| == SIZE / 2
    ensures forall i :: IsLastMarker(b, i) && 21 <= i <= SIZE - 21 ==> |left| == i
  {
    var index := LastIndex(b);
    if index < 21 || index > SIZE - 21 {
      index := SIZE / 2;
    }
    left, right := b[..index], b[index..];
  }

  /** The split keeps the byte stream and leaves pieces that fit a frame with the
      16-byte id and the 5-byte header. */
  method Reshape(bs: seq<Bytes>) returns (out: seq<Bytes>)
    requires forall i :: 0 <= i < |bs| ==> |bs[i]| <= SIZE
    ensures Concat(out) == Concat(bs) && Fits(out) && |out| >= |bs|
    ensures (forall i :: 0 <= i < |bs| ==> |bs[i]| < SIZE - 21) ==> out == bs
  {
    hide Concat;
    var need := 0;
    for i := 0 to |bs|
      invariant need == 0 <==> forall k :: 0 <= k < i ==> |bs[k]| < SIZE - 21
      invariant need >= 0
    {
      if |bs[i]| >= SIZE - 21 {
        need := need + 1;
      }
    }
    if need == 0 {
      return bs;
    }
    out := [];
    for i := 0 to |bs|
      invariant Concat(out) == Concat(bs[..i]) && Fits(out) && |out| >= i
    {
      var b := bs[i];
      assert bs[..i + 1] == bs[..i] + [b];
      ConcatAppend(bs[..i], [b]);
      ConcatOne(b);
      if |b| >= SIZE - 21 {
        var left, right := Split(b);
        ConcatAppend(out, [left, right]);
        ConcatTwo(left, right);
        out := out + [left, right];
      } else {
        ConcatAppend(out, [b]);
        out := out + [b];
      }
    }
    assert bs[..|bs|] == bs;
  }

  // ----- complete records -----

  /** A TLS application data record with a non-empty payload. */
  function Record(payload: Bytes): Bytes
    requires 0 < |payload| < 0x1_0000
  {
    APPLICATION_DATA + [|payload| / 256, |payload| % 256] + payload
  }

  function Records(ps: seq<Bytes>): Bytes
    requires Payloads(ps)
  {
    if ps == [] then [] else Record(ps[0]) + Records(ps[1..])
  }

  ghost predicate IsRecords(b: Bytes) {
    exists ps: seq<Bytes> :: Payloads(ps) && Records(ps) == b
  }

  /** What the scan accepts, read front to back. */
  predicate Accepts(b: Bytes)
    decreases |b|
  {
    b == [] ||
    (&& |b| >= 5 && b[..3] == APPLICATION_DATA
     && var n := b[3] as nat * 256 + b[4]; n > 0 && |b| >= 5 + n && Accepts(b[5 + n..]))
  }

  lemma {:induction false} AcceptsRecords(ps: seq<Bytes>)
    requires Payloads(ps)
    ensures Accepts(Records(ps))
  {
    if ps != [] {
      var b, r := Records(ps), Record(ps[0]);
      assert b[..3] == APPLICATION_DATA && b[3] as nat * 256 + b[4] == |ps[0]|;
      assert b[5 + |ps[0]|..] == Records(ps[1..]);
      AcceptsRecords(ps[1..]);
    }
  }

  ghost predicate Payloads(ps: seq<Bytes>) {
    forall i :: 0 <= i < |ps| ==> 0 < |ps[i]| < 0x1_0000
  }

  lemma FirstRecord(b: Bytes, n: nat)
    requires |b| >= 5 + n && b[..3] == APPLICATION_DATA && n == b[3] as nat * 256 + b[4] && n > 0
    ensures b == Record(b[5..5 + n]) + b[5 + n..]
  {
    assert n / 256 == b[3] && n % 256 == b[4];
    assert b == b[..3] + [b[3], b[4]] + b[5..5 + n] + b[5 + n..];
  }

  lemma {:induction false} ParseRecords(b: Bytes) returns (ps: seq<Bytes>)
    requires Accepts(b)
    ensures Payloads(ps) && Records(ps) == b
    decreases |b|
  {
    hide Record;
    if b == [] {
      ps := [];
    } else {
      var n := b[3] as nat * 256 + b[4];
      FirstRecord(b, n);
      var qs := ParseRecords(b[5 + n..]);
      ps := [b[5..5 + n]] + qs;
      assert ps[1..] == qs;
    }
  }

  lemma AcceptsIsRecords(b: Bytes)
    ensures Accepts(b) <==> IsRecords(b)
  {
    hide Accepts, Records;
    if Accepts(b) {
      var ps := ParseRecords(b);
    }
    if IsRecords(b) {
      var ps: seq<Bytes> :| Payloads(ps) && Records(ps) == b;
      AcceptsRecords(ps);
    }
  }

  /** The scan at i: left header bytes to come (5: between records), record length
      so far. */
  ghost predicate Scan(b: Bytes, i: nat, left: nat, recordLen: nat) {
    && i <= |b| && left <= 5 && i >= 5 - left
    && var s := i - (5 - left);
       && (Accepts(b) <==> Accepts(b[s..]))
       && (left <= 4 ==> b[s] == 0x17) && (left <= 3 ==> b[s + 1] == 0x03) && (left <= 2 ==> b[s + 2] == 0x03)
       && (left >= 2 ==> recordLen == 0)
       && (left == 1 ==> recordLen == b[s + 3] as nat * 256)
       && (left == 0 ==> recordLen == b[s + 3] as nat * 256 + b[s + 4])
  }

  lemma ScanReject(b: Bytes, i: nat, left: nat, recordLen: nat)
    requires Scan(b, i, left, recordLen) && i < |b|
    requires (left == 5 && b[i] != 0x17) || ((left == 4 || left == 3) && b[i] != 0x03)
    ensures !Accepts(b)
  {
    var t := b[i - (5 - left)..];
    assert t[5 - left] == b[i];
    if |t| >= 5 {
      assert t[..3][5 - left] == b[i];
    }
  }

  /** The record length after one more header byte. */
  function HeaderLen(left: nat, recordLen: nat, x: Byte): nat {
    if left == 2 then x as nat * 256 else if left == 1 then recordLen + x else recordLen
  }

  lemma ScanHeader(b: Bytes, i: nat, left: nat, recordLen: nat)
    requires Scan(b, i, left, recordLen) && i < |b| && left > 0
    requires !(left == 5 && b[i] != 0x17) && !((left == 4 || left == 3) && b[i] != 0x03)
    ensures Scan(b, i + 1, left - 1, HeaderLen(left, recordLen, b[i]))
  {
    hide Accepts;
  }

  lemma ScanStart(b: Bytes)
    ensures Scan(b, 0, 5, 0)
  {
    hide Accepts;
    assert b[0..] == b;
  }

  lemma ScanBody(b: Bytes, i: nat, recordLen: nat)
    requires Scan(b, i, 0, recordLen)
    ensures recordLen > 0 && |b| - i >= recordLen ==> Scan(b, i + recordLen, 5, 0)
    ensures recordLen == 0 || |b| - i < recordLen ==> !Accepts(b)
  {
    var t := b[i - 5..];
    assert |t| >= 5 && t[3] == b[i - 2] && t[4] == b[i - 1];
    assert t[..3] == [b[i - 5], b[i - 4], b[i - 3]];
    if recordLen > 0 && |b| - i >= recordLen {
      assert t[5 + recordLen..] == b[i + recordLen..];
    }
  }

  lemma ScanEnd(b: Bytes, left: nat, recordLen: nat)
    requires Scan(b, |b|, left, recordLen)
    ensures Accepts(b) <==> left == 5
  {
    if left == 0 {
      ScanBody(b, |b|, recordLen);
    }
  }

  lemma ScanBetween(b: Bytes, left: nat, recordLen: nat)
    requires Scan(b, |b|, left, recordLen)
    ensures left == 5 ==> recordLen == 0
  {
  }

  /** IsCompleteRecord: the byte scan accepts exactly the concatenations of
      complete, non-empty application data records (and the empty write). */
  method IsCompleteRecord(bs: seq<Bytes>) returns (complete: bool)
    ensures complete <==> IsRecords(Concat(bs))
  {
    hide Accepts, IsRecords, Concat, Scan;
    var b := Concat(bs);
    AcceptsIsRecords(b);
    var headerLen: nat, recordLen: nat, i: nat := 5, 0, 0;
    ScanStart(b);
    while i < |b|
      invariant i <= |b| && headerLen <= 5 && Scan(b, i, headerLen, recordLen)
      decreases |b| - i
    {
      if headerLen > 0 {
        var data := b[i];
        if (headerLen == 5 && data != 0x17) || ((headerLen == 4 || headerLen == 3) && data != 0x03) {
          ScanReject(b, i, headerLen, recordLen);
          return false;
        }
        ScanHeader(b, i, headerLen, recordLen);
        if headerLen == 2 {
          recordLen := data as nat * 256;
        } else if headerLen == 1 {
          recordLen := recordLen + data;
        }
        i, headerLen := i + 1, headerLen - 1;
      } else {
        ScanBody(b, i, recordLen);
        if recordLen == 0 || |b| - i < recordLen {
          return false;
        }
        i, recordLen, headerLen := i + recordLen, 0, 5;
      }
    }
    ScanEnd(b, headerLen, recordLen);
    ScanBetween(b, headerLen, recordLen);
    complete := headerLen == 5 && recordLen == 0;
  }
}
