/** The AK980 TFT upload of `ak980_tft_probe.py`: a header, then indexed chunks,
    every packet with a checksum in byte 32. */
module Ak980 {
  import opened Bytes
  import opened Division
  import opened Seqs

  const CHUNK_PAYLOAD := 28
  const REPORT_SIZE := 64
  const CHECKSUM_AT := 32

  /** The sum of the first `n` bytes, without the checksum's own. */
  function SumTo(pkt: seq<Byte>, n: nat): nat
    requires n <= |pkt|
  {
    if n == 0 then 0 else SumTo(pkt, n - 1) + if n - 1 == CHECKSUM_AT then 0 else pkt[n - 1]
  }

  function Stamped(pkt: seq<Byte>): seq<Byte>
    requires |pkt| > CHECKSUM_AT
  {
    pkt[CHECKSUM_AT := SumTo(pkt, |pkt|) % 0x100]
  }

  predicate Verifies(pkt: seq<Byte>) {
    |pkt| == REPORT_SIZE && pkt[CHECKSUM_AT] == SumTo(pkt, REPORT_SIZE) % 0x100
  }

  function Header(lcdSelect: int, totalChunks: nat): seq<Byte> {
    Stamped(Zeros(REPORT_SIZE)[1 := 0x7F][2 := 0x03][4 := (lcdSelect + 1) % 0x100]
              [5 := totalChunks % 0x100][6 := totalChunks / 0x100 % 0x100][7 := totalChunks / 0x10000 % 0x100])
  }

  /** A chunk before its checksum. */
  function ChunkFields(idx: nat, payload: seq<Byte>): (r: seq<Byte>)
    requires |payload| <= CHUNK_PAYLOAD
    ensures |r| == REPORT_SIZE
  {
    [0, 0x80 + idx / 0x10000 % 0x80, idx % 0x100, idx / 0x100 % 0x100] + payload
    + Zeros(REPORT_SIZE - 4 - |payload|)
  }

  function Chunk(idx: nat, payload: seq<Byte>): seq<Byte>
    requires |payload| <= CHUNK_PAYLOAD
  {
    Stamped(ChunkFields(idx, payload))
  }

  function TotalChunks(length: nat): nat {
    (length + CHUNK_PAYLOAD - 1) / CHUNK_PAYLOAD
  }

  /** The slice of the buffer chunk `i` carries. */
  function PayloadOf(pixels: seq<Byte>, i: nat): (r: seq<Byte>)
    requires i < TotalChunks(|pixels|)
    ensures |r| <= CHUNK_PAYLOAD
  {
    var off := i * CHUNK_PAYLOAD;
    pixels[off..if off + CHUNK_PAYLOAD <= |pixels| then off + CHUNK_PAYLOAD else |pixels|]
  }

  /** The first `n` chunk packets of an upload. */
  function ChunkPackets(pixels: seq<Byte>, n: nat): (r: seq<seq<Byte>>)
    requires n <= TotalChunks(|pixels|)
    ensures |r| == n
    ensures forall i | 0 <= i < n :: r[i] == Chunk(i, PayloadOf(pixels, i))
  {
    if n == 0 then [] else ChunkPackets(pixels, n - 1) + [Chunk(n - 1, PayloadOf(pixels, n - 1))]
  }

  // ---- The script, filling packets in place -----------------------------------------

  method StampChecksum(pkt: array<Byte>)
    requires pkt.Length == REPORT_SIZE
    modifies pkt
    ensures pkt[..] == Stamped(old(pkt[..]))
  {
    var total: nat := 0;
    var i := 0;
    while i < pkt.Length
      invariant 0 <= i <= pkt.Length
      invariant total == SumTo(pkt[..], i)
    {
      if i != CHECKSUM_AT {
        total := total + pkt[i];
      }
      i := i + 1;
    }
    pkt[CHECKSUM_AT] := total % 0x100;
  }

  method BuildHeader(lcdSelect: int, totalChunks: nat) returns (pkt: array<Byte>)
    ensures fresh(pkt) && pkt[..] == Header(lcdSelect, totalChunks)
  {
    pkt := new Byte[REPORT_SIZE](_ => 0);
    pkt[0] := 0x00;
    pkt[1] := 0x7F;
    pkt[2] := 0x03;
    pkt[3] := 0x00;
    pkt[4] := (lcdSelect + 1) % 0x100;
    pkt[5] := totalChunks % 0x100;
    pkt[6] := totalChunks / 0x100 % 0x100;
    pkt[7] := totalChunks / 0x10000 % 0x100;
    assert pkt[..] == Zeros(REPORT_SIZE)[1 := 0x7F][2 := 0x03][4 := (lcdSelect + 1) % 0x100]
                        [5 := totalChunks % 0x100][6 := totalChunks / 0x100 % 0x100]
                        [7 := totalChunks / 0x10000 % 0x100];
    StampChecksum(pkt);
  }

  method BuildChunk(idx: nat, payload: seq<Byte>) returns (pkt: array<Byte>)
    requires |payload| <= CHUNK_PAYLOAD
    ensures fresh(pkt) && pkt[..] == Chunk(idx, payload)
  {
    pkt := new Byte[REPORT_SIZE](_ => 0);
    pkt[0] := 0x00;
    pkt[1] := 0x80 + idx / 0x10000 % 0x80;
    pkt[2] := idx % 0x100;
    pkt[3] := idx / 0x100 % 0x100;
    forall i | 0 <= i < |payload| {
      pkt[4 + i] := payload[i];
    }
    assert pkt[..] == ChunkFields(idx, payload);
    StampChecksum(pkt);
  }

  /** `upload`: the packets sent, in order. */
  method Upload(pixels: seq<Byte>) returns (sent: seq<seq<Byte>>)
    ensures sent == [Header(0, TotalChunks(|pixels|))] + ChunkPackets(pixels, TotalChunks(|pixels|))
  {
    var totalChunks := (|pixels| + CHUNK_PAYLOAD - 1) / CHUNK_PAYLOAD;
    var header := BuildHeader(0, totalChunks);
    sent := [header[..]];
    var i := 0;
    while i < totalChunks
      invariant 0 <= i <= totalChunks
      invariant sent == [Header(0, totalChunks)] + ChunkPackets(pixels, i)
    {
      var off := i * CHUNK_PAYLOAD;
      var end := if off + CHUNK_PAYLOAD <= |pixels| then off + CHUNK_PAYLOAD else |pixels|;
      var pkt := BuildChunk(i, pixels[off..end]);
      Associates([Header(0, totalChunks)], ChunkPackets(pixels, i), [pkt[..]]);
      sent := sent + [pkt[..]];
      i := i + 1;
    }
  }

  // ---- Checksums ---------------------------------------------------------------------

  lemma {:induction false} SumAfterUpdate(pkt: seq<Byte>, i: nat, b: Byte, n: nat)
    requires i < |pkt| && n <= |pkt|
    ensures SumTo(pkt[i := b], n) == SumTo(pkt, n) + if i < n && i != CHECKSUM_AT then b - pkt[i] else 0
  {
    if n > 0 {
      SumAfterUpdate(pkt, i, b, n - 1);
    }
  }

  function Sum(s: seq<Byte>): nat {
    if s == [] then 0 else Sum(s[..|s| - 1]) + s[|s| - 1]
  }

  lemma {:induction false} SumOfPrefix(pkt: seq<Byte>, n: nat)
    requires n <= |pkt| && n <= CHECKSUM_AT
    ensures SumTo(pkt, n) == Sum(pkt[..n])
  {
    if n > 0 {
      SumOfPrefix(pkt, n - 1);
      assert pkt[..n][..n - 1] == pkt[..n - 1];
    }
  }

  lemma {:induction false} SumOfRest(pkt: seq<Byte>, n: nat)
    requires CHECKSUM_AT < n <= |pkt|
    ensures SumTo(pkt, n) == Sum(pkt[..CHECKSUM_AT]) + Sum(pkt[CHECKSUM_AT + 1..n])
  {
    if n == CHECKSUM_AT + 1 {
      SumOfPrefix(pkt, CHECKSUM_AT);
    } else {
      SumOfRest(pkt, n - 1);
      var rest := pkt[CHECKSUM_AT + 1..n];
      assert rest[..|rest| - 1] == pkt[CHECKSUM_AT + 1..n - 1];
    }
  }

  /** The checksum of a packet is the sum of the 32 bytes before it and the 31 after it, modulo 256. */
  lemma ChecksumIsTheSum(pkt: seq<Byte>)
    requires |pkt| == 64
    ensures Verifies(pkt) <==> pkt[32] == (Sum(pkt[..32]) + Sum(pkt[33..])) % 256
  {
    SumOfRest(pkt, REPORT_SIZE);
    assert pkt[..REPORT_SIZE] == pkt;
  }

  lemma StampedVerifies(pkt: seq<Byte>)
    requires |pkt| == REPORT_SIZE
    ensures Verifies(Stamped(pkt))
  {
    SumAfterUpdate(pkt, CHECKSUM_AT, SumTo(pkt, |pkt|) % 0x100, REPORT_SIZE);
  }

  /** Changing any one byte of a good packet, the checksum included, is detected. */
  lemma OneByteChangeIsDetected(pkt: seq<Byte>, i: nat, b: Byte)
    requires Verifies(pkt) && i < REPORT_SIZE && b != pkt[i]
    ensures !Verifies(pkt[i := b])
  {
    SumAfterUpdate(pkt, i, b, REPORT_SIZE);
    if i != CHECKSUM_AT {
      DifferentModulo(SumTo(pkt, REPORT_SIZE), b - pkt[i]);
    }
  }

  lemma DifferentModulo(sum: nat, d: int)
    requires d != 0 && -0x100 < d < 0x100 && sum + d >= 0
    ensures (sum + d) % 0x100 != sum % 0x100
  {
  }

  // ---- Reading packets ------------------------------------------------------------------

  predicate IsChunk(pkt: seq<Byte>) {
    Verifies(pkt) && pkt[1] >= 0x80
  }

  predicate IsHeader(pkt: seq<Byte>) {
    Verifies(pkt) && pkt[1] == 0x7F && pkt[2] == 0x03
  }

  function IndexOf(pkt: seq<int>): int
    requires |pkt| == REPORT_SIZE
  {
    (pkt[1] - 0x80) * 0x10000 + pkt[3] * 0x100 + pkt[2]
  }

  function CountOf(pkt: seq<int>): int
    requires |pkt| == REPORT_SIZE
  {
    pkt[7] * 0x10000 + pkt[6] * 0x100 + pkt[5]
  }

  /** Every packet verifies, headers and chunks are never confused, and their fields
      read back: 24 bits of chunk count, 23 bits of chunk index, the payload. */
  lemma PacketsReadBack(lcdSelect: int, total: nat, idx: nat, payload: seq<Byte>)
    requires |payload| <= CHUNK_PAYLOAD
    ensures IsHeader(Header(lcdSelect, total)) && !IsChunk(Header(lcdSelect, total))
    ensures IsChunk(Chunk(idx, payload)) && !IsHeader(Chunk(idx, payload))
    ensures CountOf(Header(lcdSelect, total)) == total % 0x1000000
    ensures Header(lcdSelect, total)[4] == (lcdSelect + 1) % 0x100
    ensures forall i | 0 <= i < 64 && i !in {1, 2, 4, 5, 6, 7, 32} :: Header(lcdSelect, total)[i] == 0
    ensures forall i | 4 + |payload| <= i < 64 && i != 32 :: Chunk(idx, payload)[i] == 0
    ensures IndexOf(Chunk(idx, payload)) == idx % 0x800000
    ensures Chunk(idx, payload)[4..4 + |payload|] == payload
  {
    HeaderReadsBack(lcdSelect, total);
    ChunkReadsBack(idx, payload);
  }

  lemma TopByte(q: nat, low: nat)
    requires low < 0x10000
    ensures q % 0x80 * 0x10000 + low == (q * 0x10000 + low) % 0x800000
    ensures q % 0x100 * 0x10000 + low == (q * 0x10000 + low) % 0x1000000
  {
    RemainderIs(q * 0x10000 + low, q / 0x80, q % 0x80 * 0x10000 + low, 0x800000);
    RemainderIs(q * 0x10000 + low, q / 0x100, q % 0x100 * 0x10000 + low, 0x1000000);
  }

  lemma LowBytes(n: nat)
    ensures n == n / 0x10000 * 0x10000 + (n / 0x100 % 0x100 * 0x100 + n % 0x100)
    ensures n / 0x100 % 0x100 * 0x100 + n % 0x100 < 0x10000
  {
    assert n / 0x100 / 0x100 == n / 0x10000;
  }

  lemma ThreeByteNumber(n: nat)
    ensures n / 0x10000 % 0x80 * 0x10000 + n / 0x100 % 0x100 * 0x100 + n % 0x100 == n % 0x800000
    ensures n / 0x10000 % 0x100 * 0x10000 + n / 0x100 % 0x100 * 0x100 + n % 0x100 == n % 0x1000000
  {
    LowBytes(n);
    TopByte(n / 0x10000, n / 0x100 % 0x100 * 0x100 + n % 0x100);
  }

  lemma HeaderReadsBack(lcdSelect: int, total: nat)
    ensures IsHeader(Header(lcdSelect, total)) && CountOf(Header(lcdSelect, total)) == total % 0x1000000
  {
    var fields := Zeros(REPORT_SIZE)[1 := 0x7F][2 := 0x03][4 := (lcdSelect + 1) % 0x100]
                    [5 := total % 0x100][6 := total / 0x100 % 0x100][7 := total / 0x10000 % 0x100];
    StampedVerifies(fields);
    ThreeByteNumber(total);
  }

  lemma ChunkReadsBack(idx: nat, payload: seq<Byte>)
    requires |payload| <= CHUNK_PAYLOAD
    ensures IsChunk(Chunk(idx, payload)) && IndexOf(Chunk(idx, payload)) == idx % 0x800000
    ensures Chunk(idx, payload)[4..4 + |payload|] == payload
  {
    var fields := ChunkFields(idx, payload);
    StampedVerifies(fields);
    ThreeByteNumber(idx);
    assert fields[4..4 + |payload|] == payload;
  }

  // ---- Reassembly ---------------------------------------------------------------------

  /** The panel writes a good chunk where its index says, as far as the frame goes. */
  function Place(frame: seq<Byte>, pkt: seq<Byte>): (r: seq<Byte>)
    ensures |r| == |frame|
  {
    if !IsChunk(pkt) then frame else seq(|frame|, i requires 0 <= i < |frame| => PlacedByte(frame, pkt, i))
  }

  function PlacedByte(frame: seq<Byte>, pkt: seq<Byte>, i: nat): Byte
    requires IsChunk(pkt) && i < |frame|
  {
    if IndexOf(pkt) == i / CHUNK_PAYLOAD then pkt[4 + i % CHUNK_PAYLOAD] else frame[i]
  }

  function Assemble(frame: seq<Byte>, packets: seq<seq<Byte>>): (r: seq<Byte>)
    ensures |r| == |frame|
  {
    if packets == [] then frame
    else Place(Assemble(frame, packets[..|packets| - 1]), packets[|packets| - 1])
  }

  /** A packet of the upload, header or chunk. */
  ghost predicate FromUpload(pkt: seq<Byte>, pixels: seq<Byte>) {
    || (exists lcd: int, n: nat :: pkt == Header(lcd, n))
    || exists i: nat | i < TotalChunks(|pixels|) :: pkt == Chunk(i, PayloadOf(pixels, i))
  }

  lemma PayloadByte(pixels: seq<Byte>, i: nat)
    requires i < |pixels|
    ensures var k := i / CHUNK_PAYLOAD;
            && k < TotalChunks(|pixels|) && i % CHUNK_PAYLOAD < |PayloadOf(pixels, k)|
            && PayloadOf(pixels, k)[i % CHUNK_PAYLOAD] == pixels[i]
  {
    var k, m := i / CHUNK_PAYLOAD, i % CHUNK_PAYLOAD;
    assert i == k * CHUNK_PAYLOAD + m;
  }

  lemma PlacedPayload(frame: seq<Byte>, j: nat, payload: seq<Byte>, i: nat)
    requires j < 0x800000 && |payload| <= CHUNK_PAYLOAD && i < |frame|
    ensures IsChunk(Chunk(j, payload))
    ensures i / CHUNK_PAYLOAD != j ==> PlacedByte(frame, Chunk(j, payload), i) == frame[i]
    ensures i / CHUNK_PAYLOAD == j && i % CHUNK_PAYLOAD < |payload| ==>
              PlacedByte(frame, Chunk(j, payload), i) == payload[i % CHUNK_PAYLOAD]
  {
    ChunkReadsBack(j, payload);
    var m := i % CHUNK_PAYLOAD;
    if m < |payload| {
      var pkt := Chunk(j, payload);
      assert pkt[4 + m] == pkt[4..4 + |payload|][m];
    }
  }

  lemma PlaceChunk(frame: seq<Byte>, j: nat, pixels: seq<Byte>, i: nat)
    requires TotalChunks(|pixels|) <= 0x800000 && |frame| == |pixels| && i < |pixels|
    requires j < TotalChunks(|pixels|)
    ensures Place(frame, Chunk(j, PayloadOf(pixels, j)))[i]
            == if i / CHUNK_PAYLOAD == j then pixels[i] else frame[i]
  {
    PlacedPayload(frame, j, PayloadOf(pixels, j), i);
    PayloadByte(pixels, i);
    assert Place(frame, Chunk(j, PayloadOf(pixels, j)))[i] == PlacedByte(frame, Chunk(j, PayloadOf(pixels, j)), i);
  }

  /** A packet of the upload puts the right byte at position `i` or leaves it alone. */
  lemma PlaceFromUpload(frame: seq<Byte>, pkt: seq<Byte>, pixels: seq<Byte>, i: nat)
    requires TotalChunks(|pixels|) <= 0x800000 && |frame| == |pixels| && i < |pixels|
    requires FromUpload(pkt, pixels) && i / CHUNK_PAYLOAD < TotalChunks(|pixels|)
    ensures pkt == Chunk(i / CHUNK_PAYLOAD, PayloadOf(pixels, i / CHUNK_PAYLOAD)) ==> Place(frame, pkt)[i] == pixels[i]
    ensures Place(frame, pkt)[i] == pixels[i] || Place(frame, pkt)[i] == frame[i]
  {
    var k := i / CHUNK_PAYLOAD;
    PlaceChunk(frame, k, pixels, i);
    if pkt != Chunk(k, PayloadOf(pixels, k)) {
      if j: nat :| j < TotalChunks(|pixels|) && pkt == Chunk(j, PayloadOf(pixels, j)) {
        PlaceChunk(frame, j, pixels, i);
      } else {
        var lcd: int, n: nat :| pkt == Header(lcd, n);
        HeaderReadsBack(lcd, n);
      }
    }
  }

  lemma {:induction false} AssembleAt(frame: seq<Byte>, packets: seq<seq<Byte>>, pixels: seq<Byte>, i: nat)
    requires TotalChunks(|pixels|) <= 0x800000 && |frame| == |pixels| && i < |pixels|
    requires forall p | p in packets :: FromUpload(p, pixels)
    requires i / CHUNK_PAYLOAD < TotalChunks(|pixels|)
    requires Chunk(i / CHUNK_PAYLOAD, PayloadOf(pixels, i / CHUNK_PAYLOAD)) in packets || frame[i] == pixels[i]
    ensures Assemble(frame, packets)[i] == pixels[i]
  {
    if packets != [] {
      var last := packets[|packets| - 1];
      var before := packets[..|packets| - 1];
      var mine := Chunk(i / CHUNK_PAYLOAD, PayloadOf(pixels, i / CHUNK_PAYLOAD));
      PlaceFromUpload(Assemble(frame, before), last, pixels, i);
      if last != mine {
        assert packets == before + [last];
        assert mine in packets ==> mine in before;
        AssembleAt(frame, before, pixels, i);
      }
    }
  }

  /** Main result: whatever order the packets of an upload arrive in, with or without
      repetitions, and whatever the frame held before, the frame becomes the exact
      pixel buffer, for every buffer of at most 2^23 chunks. */
  lemma AnyOrderReassembles(pixels: seq<Byte>, packets: seq<seq<Byte>>, frame: seq<Byte>)
    requires TotalChunks(|pixels|) <= 0x800000 && |frame| == |pixels|
    requires forall p | p in packets :: FromUpload(p, pixels)
    requires forall c | c in ChunkPackets(pixels, TotalChunks(|pixels|)) :: c in packets
    ensures Assemble(frame, packets) == pixels
  {
    forall i | 0 <= i < |pixels|
      ensures Assemble(frame, packets)[i] == pixels[i]
    {
      var k := i / CHUNK_PAYLOAD;
      assert k < TotalChunks(|pixels|);
      assert ChunkPackets(pixels, TotalChunks(|pixels|))[k] == Chunk(k, PayloadOf(pixels, k));
      AssembleAt(frame, packets, pixels, i);
    }
  }
}
