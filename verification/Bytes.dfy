/** Bytes, and buffers cut into the 1024-byte pieces the Stream Docks take. */
module Bytes {

  type Byte = b: int | 0 <= b < 0x100

  const PACKET := 1024

  function Zeros(n: nat): seq<Byte> {
    seq(n, _ => 0)
  }

  /** A buffer in pieces of 1024 bytes; the last piece may be shorter. */
  function Chunks(data: seq<Byte>): (r: seq<seq<Byte>>)
    decreases |data|
  {
    if data == [] then []
    else if |data| <= PACKET then [data]
    else [data[..PACKET]] + Chunks(data[PACKET..])
  }

  function Concat(pieces: seq<seq<Byte>>): seq<Byte> {
    if pieces == [] then [] else pieces[0] + Concat(pieces[1..])
  }

  function ChunkCount(length: nat): nat {
    (length + PACKET - 1) / PACKET
  }

  /** The chunks are the buffer, as many as its length calls for, none too long. */
  lemma {:induction false} ChunksSpellTheBuffer(data: seq<Byte>)
    ensures Concat(Chunks(data)) == data
    ensures |Chunks(data)| == ChunkCount(|data|)
    ensures forall c | c in Chunks(data) :: 0 < |c| <= PACKET
    decreases |data|
  {
    if 0 < |data| <= PACKET {
      assert Chunks(data)[1..] == [];
    } else if |data| > PACKET {
      ChunksSpellTheBuffer(data[PACKET..]);
      assert Chunks(data)[1..] == Chunks(data[PACKET..]);
      assert data == data[..PACKET] + data[PACKET..];
    }
  }
}
