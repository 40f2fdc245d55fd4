/** The announce / chunks / commit framing of the Stream Docks: unpadded on the
    AKP153 (`akp153.rs`), padded to 1025 bytes on the AKP05 (`akp05_color_probe.py`). */
module StreamDockWire {
  import opened Wrappers
  import opened Bytes
  import opened Seqs
  import Division

  /** `CRT` and two zero bytes. */
  const CRT: seq<Byte> := [0x43, 0x52, 0x54, 0x00, 0x00]
  const BAT: seq<Byte> := [0x42, 0x41, 0x54]
  const STP: seq<Byte> := [0x53, 0x54, 0x50]

  /** A report on the wire: report id 0, then the data. */
  function Report(data: seq<Byte>): seq<Byte> {
    [0x00] + data
  }

  function Hi(length: nat): Byte { length / 0x100 % 0x100 }

  function Lo(length: nat): Byte { length % 0x100 }

  /** The length two bytes announce, high byte first. */
  function BigEndian(hi: int, lo: int): int { hi * 0x100 + lo }

  // ---- Surfaces ------------------------------------------------------------------

  const UI_INDEX_TO_SLOT: seq<Byte> := [13, 10, 7, 4, 1, 14, 11, 8, 5, 2, 15, 12, 9, 6, 3]

  function SlotFor(key: Byte, touchzone: bool): Byte {
    if touchzone then (if key <= 2 then 16 + key else 18)
    else UI_INDEX_TO_SLOT[if key <= 14 then key else 14]
  }

  /** The 1-based key whose slot this is. */
  function SlotToUiKey(slot: Byte): Option<Byte> {
    UiKeyFrom(slot, 0)
  }

  function UiKeyFrom(slot: Byte, i: nat): Option<Byte>
    requires i <= 15
    decreases 15 - i
  {
    if i == 15 then None
    else if UI_INDEX_TO_SLOT[i] == slot then Some(i + 1)
    else UiKeyFrom(slot, i + 1)
  }

  method FindUiKey(slot: Byte) returns (key: Option<Byte>)
    ensures key == SlotToUiKey(slot)
  {
    var i := 0;
    while i < 15
      invariant 0 <= i <= 15
      invariant SlotToUiKey(slot) == UiKeyFrom(slot, i)
    {
      if UI_INDEX_TO_SLOT[i] == slot {
        return Some(i + 1);
      }
      i := i + 1;
    }
    return None;
  }

  /** A key's image goes to the slot whose presses are reported as that key, and
      no two surfaces share a slot. */
  lemma SlotsMatchKeys(key: Byte, key': Byte, zone: bool, zone': bool)
    ensures key < 15 ==> SlotToUiKey(SlotFor(key, false)) == Some(key + 1)
    ensures SlotToUiKey(SlotFor(key, true)) == None
    ensures (zone ==> key <= 2) && (zone' ==> key' <= 2) && (!zone ==> key < 15) && (!zone' ==> key' < 15) ==>
              (SlotFor(key, zone) == SlotFor(key', zone') <==> key == key' && zone == zone')
  {
    SlotOfKey(if key < 15 then key else 14);
    SlotOfKey(if key' < 15 then key' else 14);
    NoKeyAbove15(SlotFor(key, true), 0);
    NoKeyAbove15(SlotFor(key', true), 0);
  }

  /** The slots of the keys run down the columns, from the right one; the touch zones come after them, and
      a surface past the last one is the last one. */
  lemma SlotsRunDownColumns(key: Byte)
    ensures key < 15 ==> SlotFor(key, false) == 13 - 3 * (key % 5) + key / 5
    ensures key >= 15 ==> SlotFor(key, false) == SlotFor(14, false)
    ensures SlotFor(key, true) == if key < 2 then 16 + key else 18
  {
  }

  lemma SlotOfKey(key: Byte)
    requires key < 15
    ensures SlotToUiKey(SlotFor(key, false)) == Some(key + 1)
  {
    var slot := UI_INDEX_TO_SLOT[key];
    UiKeySkips(slot, 0, key);
  }

  lemma {:induction false} UiKeySkips(slot: Byte, i: nat, key: nat)
    requires i <= key < 15 && slot == UI_INDEX_TO_SLOT[key]
    ensures UiKeyFrom(slot, i) == Some(key + 1)
    decreases key - i
  {
    if i < key {
      UiKeySkips(slot, i + 1, key);
    }
  }

  lemma {:induction false} NoKeyAbove15(slot: Byte, i: nat)
    requires slot > 15 && i <= 15
    ensures UiKeyFrom(slot, i) == None
    decreases 15 - i
  {
    if i < 15 {
      NoKeyAbove15(slot, i + 1);
    }
  }

  // ---- Commands ------------------------------------------------------------------

  /** The commands the driver sends outside images. */
  datatype Command = Dis | Cle | Stop | Lig(percent: Byte) | Connect | Shutdown

  function CommandBytes(c: Command): seq<Byte> {
    match c
    case Dis => CRT + [0x44, 0x49, 0x53]
    case Cle => CRT + [0x43, 0x4C, 0x45, 0x00, 0x00, 0x00, 0xFF]
    case Stop => CRT + STP
    case Lig(p) => CRT + [0x4C, 0x49, if p <= 100 then p else 100, 0x00, 0x00, 0x00]
    case Connect => CRT + [0x43, 0x4F, 0x4E, 0x4E, 0x45, 0x43, 0x54]
    case Shutdown => CRT + [0x43, 0x4C, 0x45, 0x00, 0x00, 0x44, 0x43]
  }

  // ---- Unpadded images -------------------------------------------------------------

  function Announce(length: nat, slot: Byte): seq<Byte> {
    CRT + BAT + [0x00, 0x00, Hi(length), Lo(length), slot]
  }

  function ChunkReports(pieces: seq<seq<Byte>>): seq<seq<Byte>> {
    if pieces == [] then [] else [Report(pieces[0])] + ChunkReports(pieces[1..])
  }

  /** The reports of one `set_image`. */
  function ImageReports(slot: Byte, jpeg: seq<Byte>): seq<seq<Byte>> {
    [Report(Announce(|jpeg|, slot))] + ChunkReports(Chunks(jpeg)) + [Report(CRT + STP)]
  }

  /** The device's end of the wire: the reports received, in order. */
  class Device {
    var wire: seq<seq<Byte>>

    constructor ()
      ensures wire == []
    {
      wire := [];
    }

    method Write(report: seq<Byte>)
      modifies this
      ensures wire == old(wire) + [report]
    {
      wire := wire + [report];
    }
  }

  method WriteCmd(dev: Device, data: seq<Byte>)
    modifies dev
    ensures dev.wire == old(dev.wire) + [Report(data)]
  {
    var buf: seq<Byte> := [0x00];
    buf := buf + data;
    dev.Write(buf);
  }

  /** The percentage, at most 100, takes the place of the `G` of `LIG`. */
  method SetBrightness(dev: Device, percent: Byte)
    modifies dev
    ensures dev.wire == old(dev.wire) + [Report(CommandBytes(Lig(percent)))]
    ensures dev.wire == old(dev.wire) + [[0x00, 0x43, 0x52, 0x54, 0x00, 0x00, 0x4C, 0x49,
                                          if percent < 100 then percent else 100, 0x00, 0x00, 0x00]]
  {
    var p: Byte := if percent <= 100 then percent else 100;
    var cmd: seq<Byte> := CRT + [0x4C, 0x49, 0x47, 0x00, 0x00, 0x00];
    cmd := cmd[7 := p];
    assert cmd == CommandBytes(Lig(percent));
    assert Report(cmd) == [0x00, 0x43, 0x52, 0x54, 0x00, 0x00, 0x4C, 0x49, p, 0x00, 0x00, 0x00];
    WriteCmd(dev, cmd);
  }

  /** `set_image` after the JPEG is encoded, without write errors. */
  method SetImage(dev: Device, key: Byte, touchzone: bool, jpeg: seq<Byte>)
    modifies dev
    ensures dev.wire == old(dev.wire) + ImageReports(SlotFor(key, touchzone), jpeg)
  {
    var slot := SlotFor(key, touchzone);
    var bat: seq<Byte> := CRT + BAT + [0x00, 0x00, 0x00, 0x00, 0x00];
    bat := bat[10 := Hi(|jpeg|)];
    bat := bat[11 := Lo(|jpeg|)];
    bat := bat[12 := slot];
    assert bat == Announce(|jpeg|, slot);
    dev.Write([0x00] + bat);
    assert [0x00] + bat == Report(Announce(|jpeg|, slot));
    ghost var start := dev.wire;
    var rest := jpeg;
    while rest != []
      invariant dev.wire + ChunkReports(Chunks(rest)) == start + ChunkReports(Chunks(jpeg))
      decreases |rest|
    {
      var chunk := if |rest| <= PACKET then rest else rest[..PACKET];
      dev.Write([0x00] + chunk);
      assert Chunks(rest)[1..] == Chunks(rest[|chunk|..]);
      rest := rest[|chunk|..];
    }
    ghost var body := ChunkReports(Chunks(jpeg));
    assert dev.wire == start + body by {
      assert ChunkReports(Chunks(rest)) == [];
    }
    dev.Write([0x00] + CRT + STP);
    assert [0x00] + CRT + STP == Report(CRT + STP);
    assert dev.wire == old(dev.wire) + ([Report(Announce(|jpeg|, slot))] + body + [Report(CRT + STP)]);
  }

  /** `read_input` on the bytes a timed read returned. */
  method ReadInput(buf: seq<Byte>, n: nat) returns (r: Option<(Byte, Byte)>)
    requires |buf| == 512 && n <= 512
    ensures r == if n >= 11 && buf[..3] == [0x41, 0x43, 0x4B] && SlotToUiKey(buf[9]).Some?
                 then Some((SlotToUiKey(buf[9]).value, buf[10])) else None
  {
    if n >= 11 {
      if buf[0] == 0x41 && buf[1] == 0x43 && buf[2] == 0x4B {
        var key := FindUiKey(buf[9]);
        if key.Some? {
          return Some((key.value, buf[10]));
        }
      }
    }
    return None;
  }

  // ---- Reading the wire back --------------------------------------------------------

  datatype Message = Image(slot: Byte, jpeg: seq<Byte>) | Plain(data: seq<Byte>)

  predicate IsAnnounce(report: seq<Byte>) {
    |report| >= 14 && report[..9] == [0x00] + CRT + BAT
  }

  function AnnouncedLength(report: seq<Byte>): nat
    requires IsAnnounce(report)
  {
    BigEndian(report[11], report[12])
  }

  /** The bytes of a run of chunk reports, without their report ids. */
  function Payload(reports: seq<seq<Byte>>): seq<Byte> {
    if reports == [] then []
    else (if reports[0] == [] then [] else reports[0][1..]) + Payload(reports[1..])
  }

  /** A receiver that trusts only what is on the wire: an announced image is as many
      chunk reports as its length calls for, then the commit. */
  function ReadMessage(wire: seq<seq<Byte>>): (r: Option<(Message, seq<seq<Byte>>)>)
    requires wire != []
    ensures r.Some? ==> |r.value.1| < |wire|
  {
    if !IsAnnounce(wire[0]) then
      if wire[0] == [] then None else Some((Plain(wire[0][1..]), wire[1..]))
    else
      var length := AnnouncedLength(wire[0]);
      var n := ChunkCount(length);
      if |wire| < n + 2 || wire[n + 1] != Report(CRT + STP) then None
      else
        var jpeg := Payload(wire[1..n + 1]);
        if |jpeg| != length then None else Some((Image(wire[0][13], jpeg), wire[n + 2..]))
  }

  function ReadAll(wire: seq<seq<Byte>>): Option<seq<Message>>
    decreases |wire|
  {
    if wire == [] then Some([])
    else
      match ReadMessage(wire)
      case None => None
      case Some((m, rest)) =>
        match ReadAll(rest)
        case None => None
        case Some(ms) => Some([m] + ms)
  }

  lemma {:induction false} ChunkReportsCarry(pieces: seq<seq<Byte>>)
    ensures |ChunkReports(pieces)| == |pieces|
    ensures Payload(ChunkReports(pieces)) == Concat(pieces)
  {
    if pieces != [] {
      ChunkReportsCarry(pieces[1..]);
      assert ChunkReports(pieces)[1..] == ChunkReports(pieces[1..]);
      assert Report(pieces[0])[1..] == pieces[0];
    }
  }

  /** An announce frame, padded or not, announces the length modulo 65536. */
  lemma AnnounceFields(length: nat, slot: Byte, padding: seq<Byte>)
    ensures var r := [0x00] + CRT + BAT + [0x00, 0x00, Hi(length), Lo(length), slot] + padding;
            IsAnnounce(r) && r[13] == slot && AnnouncedLength(r) == length % 0x10000
  {
    AnnounceBytes(Hi(length), Lo(length), slot, padding);
    HiLo(length);
  }

  lemma AnnounceBytes(hi: Byte, lo: Byte, slot: Byte, padding: seq<Byte>)
    ensures var r := [0x00] + CRT + BAT + [0x00, 0x00, hi, lo, slot] + padding;
            IsAnnounce(r) && r[13] == slot && AnnouncedLength(r) == BigEndian(hi, lo)
  {
    Pushed([0x00] + CRT + BAT, [0x00, 0x00, hi, lo, slot], padding);
  }

  lemma Pushed<T>(a: seq<T>, b: seq<T>, c: seq<T>)
    ensures (a + b + c)[..|a|] == a
    ensures forall i | 0 <= i < |b| :: (a + b + c)[|a| + i] == b[i]
  {
  }

  lemma HiLo(length: nat)
    ensures BigEndian(Hi(length), Lo(length)) == length % 0x10000
  {
    var high := length / 0x100;
    assert length == 0x100 * high + Lo(length);
    assert high == 0x100 * (high / 0x100) + Hi(length);
    Division.RemainderIs(length, high / 0x100, BigEndian(Hi(length), Lo(length)), 0x10000);
  }

  lemma AnnounceIsAnnounced(slot: Byte, length: nat)
    ensures var r := Report(Announce(length, slot));
            IsAnnounce(r) && r[13] == slot && AnnouncedLength(r) == length % 0x10000
  {
    AnnounceFields(length, slot, []);
    EmptyIsUnit(Report(Announce(length, slot)));
    assert Report(Announce(length, slot)) == [0x00] + CRT + BAT + [0x00, 0x00, Hi(length), Lo(length), slot];
  }

  lemma Framed<T>(head: T, middle: seq<T>, last: T)
    ensures var r := [head] + middle + [last];
            |r| == |middle| + 2 && r[0] == head && r[1..|middle| + 1] == middle && r[|middle| + 1] == last
  {
  }

  lemma ImageReportsShape(slot: Byte, jpeg: seq<Byte>)
    ensures var r := ImageReports(slot, jpeg);
            && |r| == ChunkCount(|jpeg|) + 2
            && IsAnnounce(r[0]) && AnnouncedLength(r[0]) == |jpeg| % 0x10000 && r[0][13] == slot
            && Payload(r[1..ChunkCount(|jpeg|) + 1]) == jpeg
            && r[ChunkCount(|jpeg|) + 1] == Report(CRT + STP)
  {
    ChunksSpellTheBuffer(jpeg);
    ChunkReportsCarry(Chunks(jpeg));
    AnnounceIsAnnounced(slot, |jpeg|);
    Framed(Report(Announce(|jpeg|, slot)), ChunkReports(Chunks(jpeg)), Report(CRT + STP));
  }

  /** One transaction reads back as its slot and JPEG, and leaves what follows. */
  lemma ImageReads(slot: Byte, jpeg: seq<Byte>, rest: seq<seq<Byte>>)
    requires |jpeg| <= 0xFFFF
    ensures ImageReports(slot, jpeg) + rest != []
    ensures ReadMessage(ImageReports(slot, jpeg) + rest) == Some((Image(slot, jpeg), rest))
  {
    ImageReportsShape(slot, jpeg);
    Division.RemainderIs(|jpeg|, 0, |jpeg|, 0x10000);
    TransactionReads(ImageReports(slot, jpeg), rest, jpeg);
  }

  lemma TransactionReads(r: seq<seq<Byte>>, rest: seq<seq<Byte>>, jpeg: seq<Byte>)
    requires |r| == ChunkCount(|jpeg|) + 2 && IsAnnounce(r[0]) && AnnouncedLength(r[0]) == |jpeg|
    requires Payload(r[1..ChunkCount(|jpeg|) + 1]) == jpeg && r[ChunkCount(|jpeg|) + 1] == Report(CRT + STP)
    ensures ReadMessage(r + rest) == Some((Image(r[0][13], jpeg), rest))
  {
    var n := ChunkCount(|jpeg|);
    var wire := r + rest;
    assert wire[0] == r[0] && wire[n + 1] == r[n + 1];
    assert wire[1..n + 1] == r[1..n + 1];
    assert wire[n + 2..] == rest;
  }

  /** The codes of an ASCII text. */
  function Ascii(s: string): seq<Byte>
    requires forall i | 0 <= i < |s| :: s[i] < 128 as char
  {
    seq(|s|, i requires 0 <= i < |s| => s[i] as int)
  }

  /** Commands start with `CRT` and two zeros, and go on with their names. */
  lemma CommandsSpellTheirNames(p: Byte)
    ensures CRT == Ascii("CRT") + [0, 0]
    ensures CommandBytes(Dis) == CRT + Ascii("DIS")
    ensures CommandBytes(Cle) == CRT + (Ascii("CLE") + [0, 0, 0, 0xFF])
    ensures CommandBytes(Stop) == CRT + Ascii("STP")
    ensures CommandBytes(Lig(p)) == CRT + (Ascii("LI") + [if p < 100 then p else 100, 0, 0, 0])
    ensures CommandBytes(Connect) == CRT + Ascii("CONNECT")
    ensures CommandBytes(Shutdown) == CRT + (Ascii("CLE") + [0, 0] + Ascii("DC"))
  {
    ShortNames();
    assert Ascii("LI") == [0x4C, 0x49] && Ascii("CONNECT") == [0x43, 0x4F, 0x4E, 0x4E, 0x45, 0x43, 0x54];
  }

  lemma ShortNames()
    ensures Ascii("CRT") == [0x43, 0x52, 0x54] && Ascii("DIS") == [0x44, 0x49, 0x53]
    ensures Ascii("CLE") == [0x43, 0x4C, 0x45] && Ascii("STP") == [0x53, 0x54, 0x50] && Ascii("DC") == [0x44, 0x43]
  {
  }

  lemma CommandReads(c: Command, rest: seq<seq<Byte>>)
    ensures ReadMessage([Report(CommandBytes(c))] + rest) == Some((Plain(CommandBytes(c)), rest))
  {
    var report := Report(CommandBytes(c));
    assert report[1..] == CommandBytes(c);
    assert ([report] + rest)[1..] == rest;
    assert |report| < 14;
  }

  lemma LastMessage(wire: seq<seq<Byte>>)
    requires wire != [] && ReadMessage(wire).Some? && ReadMessage(wire).value.1 == []
    ensures ReadAll(wire) == Some([ReadMessage(wire).value.0])
  {
    var m := ReadMessage(wire).value.0;
    assert ReadAll([]) == Some([]);
    assert [m] + [] == [m];
  }

  lemma ImagesReadAreShort(wire: seq<seq<Byte>>)
    requires wire != []
    ensures ReadMessage(wire).Some? && ReadMessage(wire).value.0.Image? ==>
              |ReadMessage(wire).value.0.jpeg| <= 0xFFFF
  {
  }

  /** The two length bytes hold exactly the lengths up to 65535: a transaction reads
      back if and only if the JPEG is no longer. */
  lemma ImageReadsExactlyWhenItFits(slot: Byte, jpeg: seq<Byte>)
    ensures ReadAll(ImageReports(slot, jpeg)) == Some([Image(slot, jpeg)]) <==> |jpeg| <= 0xFFFF
  {
    var wire := ImageReports(slot, jpeg);
    if |jpeg| <= 0xFFFF {
      assert wire + [] == wire;
      ImageReads(slot, jpeg, []);
      assert ReadMessage(wire) == Some((Image(slot, jpeg), []));
      LastMessage(wire);
    } else {
      ImagesReadAreShort(wire);
      assert ReadAll(wire).Some? ==> ReadAll(wire).value[0] == ReadMessage(wire).value.0;
    }
  }

  // ---- Padded images (AKP05) ----------------------------------------------------------

  /** `pad`: zero bytes up to 1025. */
  function Pad(report: seq<Byte>): seq<Byte>
    requires |report| <= 1 + PACKET
  {
    report + Zeros(1 + PACKET - |report|)
  }

  const ULEND: seq<Byte> := Pad([0x00, 0x43, 0x52, 0x54, 0x55, 0x4C, 0x45, 0x4E, 0x44])

  function BatHeader(wireByte: nat, length: nat): seq<Byte> {
    Pad([0x00] + CRT + BAT + [0x00, 0x00, Hi(length), Lo(length), wireByte % 0x100])
  }

  function PaddedChunks(data: seq<Byte>): seq<seq<Byte>>
    decreases |data|
  {
    if data == [] then []
    else
      var n := if |data| <= PACKET then |data| else PACKET;
      [Pad(Report(data[..n]))] + PaddedChunks(data[n..])
  }

  function PaddedImage(wireByte: nat, jpeg: seq<Byte>): seq<seq<Byte>> {
    [BatHeader(wireByte, |jpeg|)] + PaddedChunks(jpeg) + [ULEND]
  }

  /** What is left of the image at offset `i`. */
  function Left(jpeg: seq<Byte>, i: nat): seq<Byte> {
    if i <= |jpeg| then jpeg[i..] else []
  }

  lemma NextChunk(jpeg: seq<Byte>, i: nat)
    requires i < |jpeg|
    ensures var end := if i + PACKET <= |jpeg| then i + PACKET else |jpeg|;
            && |jpeg[i..end]| <= PACKET
            && PaddedChunks(Left(jpeg, i)) == [Pad([0x00] + jpeg[i..end])] + PaddedChunks(Left(jpeg, i + PACKET))
  {
    var end := if i + PACKET <= |jpeg| then i + PACKET else |jpeg|;
    assert jpeg[i..][..end - i] == jpeg[i..end] && jpeg[i..][end - i..] == jpeg[end..];
  }

  method ImageChunks(jpeg: seq<Byte>) returns (out: seq<seq<Byte>>)
    ensures out == PaddedChunks(jpeg)
  {
    out := [];
    var i := 0;
    while i < |jpeg|
      invariant 0 <= i
      invariant out + PaddedChunks(Left(jpeg, i)) == PaddedChunks(jpeg)
    {
      var end := if i + PACKET <= |jpeg| then i + PACKET else |jpeg|;
      NextChunk(jpeg, i);
      var chunk := Pad([0x00] + jpeg[i..end]);
      Associates(out, [chunk], PaddedChunks(Left(jpeg, i + PACKET)));
      out := out + [chunk];
      i := i + PACKET;
    }
    EmptyIsUnit(out);
  }

  method SendImage(fd: Device, wireByte: nat, jpeg: seq<Byte>)
    modifies fd
    ensures fd.wire == old(fd.wire) + PaddedImage(wireByte, jpeg)
  {
    fd.Write(BatHeader(wireByte, |jpeg|));
    var chunks := ImageChunks(jpeg);
    var k := 0;
    while k < |chunks|
      invariant 0 <= k <= |chunks|
      invariant fd.wire == old(fd.wire) + [BatHeader(wireByte, |jpeg|)] + chunks[..k]
    {
      fd.Write(chunks[k]);
      k := k + 1;
    }
    assert chunks[..k] == chunks;
    fd.Write(ULEND);
  }

  predicate AllPadded(wire: seq<seq<Byte>>) {
    forall r | r in wire :: |r| == 1 + PACKET
  }

  /** A receiver of the padded framing: the announced length says how much of the
      padded chunks is image. */
  function ReadPadded(wire: seq<seq<Byte>>): Option<(Byte, seq<Byte>)> {
    if wire == [] || !IsAnnounce(wire[0]) || !AllPadded(wire) then None
    else
      var length := AnnouncedLength(wire[0]);
      var n := ChunkCount(length);
      if |wire| != n + 2 || wire[n + 1] != ULEND then None
      else
        var body := Payload(wire[1..n + 1]);
        if |body| < length then None else Some((wire[0][13], body[..length]))
  }

  lemma {:induction false} PaddedChunksShape(data: seq<Byte>)
    ensures |PaddedChunks(data)| == ChunkCount(|data|)
    ensures forall r | r in PaddedChunks(data) :: |r| == 1 + PACKET
    decreases |data|
  {
    if data != [] {
      var n := if |data| <= PACKET then |data| else PACKET;
      PaddedChunksShape(data[n..]);
    }
  }

  /** The chunk `a` padded with `z`, before the chunks that carry `b`. */
  lemma CarryPush<T>(a: seq<T>, z: seq<T>, b: seq<T>, rest: seq<T>)
    requires b <= rest && (z == [] || b == [])
    ensures a + b <= a + z + rest
  {
  }

  lemma {:induction false} PaddedChunksCarry(data: seq<Byte>)
    ensures data <= Payload(PaddedChunks(data))
    decreases |data|
  {
    if data != [] {
      var n := if |data| <= PACKET then |data| else PACKET;
      PaddedChunksCarry(data[n..]);
      var r := PaddedChunks(data);
      assert r[1..] == PaddedChunks(data[n..]);
      assert r[0][1..] == data[..n] + Zeros(PACKET - n);
      CarryPush(data[..n], Zeros(PACKET - n), data[n..], Payload(PaddedChunks(data[n..])));
      assert data == data[..n] + data[n..];
    }
  }

  lemma BatHeaderShape(wireByte: Byte, length: nat)
    ensures var h := BatHeader(wireByte, length);
            |h| == 1 + PACKET && IsAnnounce(h) && AnnouncedLength(h) == length % 0x10000 && h[13] == wireByte
  {
    AnnounceFields(length, wireByte, Zeros(1 + PACKET - 14));
    assert BatHeader(wireByte, length)
        == [0x00] + CRT + BAT + [0x00, 0x00, Hi(length), Lo(length), wireByte] + Zeros(1 + PACKET - 14);
  }

  /** Padding is zeros up to 1025 bytes. */
  lemma PaddingIsZeros(report: seq<Byte>)
    requires |report| <= 1025
    ensures |Pad(report)| == 1025 && Pad(report)[..|report|] == report
    ensures forall i | |report| <= i < 1025 :: Pad(report)[i] == 0
  {
  }

  lemma PaddedImageShape(wireByte: Byte, jpeg: seq<Byte>)
    ensures var n := ChunkCount(|jpeg|);
            var wire := PaddedImage(wireByte, jpeg);
            && |wire| == n + 2 && AllPadded(wire) && wire[0] == BatHeader(wireByte, |jpeg|)
            && wire[1..n + 1] == PaddedChunks(jpeg) && wire[n + 1] == ULEND
  {
    PaddedChunksShape(jpeg);
    BatHeaderShape(wireByte, |jpeg|);
  }

  lemma PaddedReadsAreShort(wire: seq<seq<Byte>>)
    ensures ReadPadded(wire).Some? ==> |ReadPadded(wire).value.1| <= 0xFFFF
  {
  }

  lemma PaddedTransactionReads(wire: seq<seq<Byte>>, jpeg: seq<Byte>)
    requires |wire| == ChunkCount(|jpeg|) + 2 && AllPadded(wire)
    requires IsAnnounce(wire[0]) && AnnouncedLength(wire[0]) == |jpeg|
    requires jpeg <= Payload(wire[1..ChunkCount(|jpeg|) + 1]) && wire[ChunkCount(|jpeg|) + 1] == ULEND
    ensures ReadPadded(wire) == Some((wire[0][13], jpeg))
  {
    assert Payload(wire[1..ChunkCount(|jpeg|) + 1])[..|jpeg|] == jpeg;
  }

  ghost predicate CarriesPadded(wire: seq<seq<Byte>>, wireByte: Byte, jpeg: seq<Byte>) {
    && |wire| == ChunkCount(|jpeg|) + 2 && AllPadded(wire)
    && IsAnnounce(wire[0]) && AnnouncedLength(wire[0]) == |jpeg| % 0x10000 && wire[0][13] == wireByte
    && jpeg <= Payload(wire[1..ChunkCount(|jpeg|) + 1]) && wire[ChunkCount(|jpeg|) + 1] == ULEND
  }

  lemma PaddedImageCarries(wireByte: Byte, jpeg: seq<Byte>)
    ensures CarriesPadded(PaddedImage(wireByte, jpeg), wireByte, jpeg)
  {
    PaddedImageShape(wireByte, jpeg);
    PaddedChunksCarry(jpeg);
    BatHeaderShape(wireByte, |jpeg|);
  }

  lemma CarriedExactlyWhenItFits(wire: seq<seq<Byte>>, wireByte: Byte, jpeg: seq<Byte>)
    requires CarriesPadded(wire, wireByte, jpeg)
    ensures ReadPadded(wire) == Some((wireByte, jpeg)) <==> |jpeg| <= 0xFFFF
  {
    if |jpeg| <= 0xFFFF {
      PaddedTransactionReads(wire, jpeg);
    } else {
      PaddedReadsAreShort(wire);
    }
  }

  /** The padded framing decodes to the same pair, again exactly up to 65535 bytes. */
  lemma PaddedImageReads(wireByte: Byte, jpeg: seq<Byte>)
    ensures ReadPadded(PaddedImage(wireByte, jpeg)) == Some((wireByte, jpeg)) <==> |jpeg| <= 0xFFFF
  {
    PaddedImageCarries(wireByte, jpeg);
    CarriedExactlyWhenItFits(PaddedImage(wireByte, jpeg), wireByte, jpeg);
  }
}
