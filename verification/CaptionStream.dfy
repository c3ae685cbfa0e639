/**
 Adding a caption stream to a program map section that lies in one transport packet
 (`withCaptionStream` in client/e2e/support/syntheticCaptionStream.ts; section 2.4.4.8 of
 ISO/IEC 13818-1).
 */
module CaptionStream {
  import opened Options
  import TransportBits

  type Byte = x: int | 0 <= x < 256

  type Bytes = seq<Byte>

  const PACKET_SIZE := 188
  const CAPTION_PID := 0x0130

  function Field12(high: Byte, low: Byte): nat { high % 16 * 256 + low }

  function Field13(high: Byte, low: Byte): nat { high % 32 * 256 + low }

  function PayloadOffset(packet: Bytes): nat
    requires |packet| == PACKET_SIZE
  {
    var adaptation := packet[3] / 16 % 4;
    if adaptation == 2 || adaptation == 3 then 5 + packet[4] as int else 4
  }

  predicate HasSection(packet: Bytes) {
    && |packet| == PACKET_SIZE
    && PayloadOffset(packet) < PACKET_SIZE
    && Section(packet) + 12 <= PACKET_SIZE
  }

  /** Where the section starts: so many bytes after the first payload byte as that byte says. */
  function Section(packet: Bytes): (s: nat)
    requires |packet| == PACKET_SIZE && PayloadOffset(packet) < PACKET_SIZE
    ensures s > PayloadOffset(packet) >= 4
  {
    PayloadOffset(packet) + 1 + packet[PayloadOffset(packet)]
  }

  function SectionLength(packet: Bytes): nat
    requires HasSection(packet)
  {
    Field12(packet[Section(packet) + 1], packet[Section(packet) + 2])
  }

  function CrcOffset(packet: Bytes): int
    requires HasSection(packet)
  {
    Section(packet) + 3 + SectionLength(packet) - 4
  }

  /** Where the loop over the elementary streams starts. */
  function Loop(packet: Bytes): nat
    requires HasSection(packet)
  {
    Section(packet) + 12 + Field12(packet[Section(packet) + 10], packet[Section(packet) + 11])
  }

  datatype Entry = Entry(streamType: Byte, pid: nat, info: Bytes)

  function EntrySize(bytes: Bytes): nat
    requires |bytes| >= 5
  {
    5 + Field12(bytes[3], bytes[4])
  }

  function FirstEntry(bytes: Bytes): Entry
    requires |bytes| >= 5 && EntrySize(bytes) <= |bytes|
  {
    Entry(bytes[0], Field13(bytes[1], bytes[2]), bytes[5..EntrySize(bytes)])
  }

  function Entries(bytes: Bytes): Option<seq<Entry>> {
    if bytes == [] then Some([])
    else if |bytes| < 5 || |bytes| < EntrySize(bytes) then None
    else
      var rest := Entries(bytes[EntrySize(bytes)..]);
      if rest.None? then None else Some([FirstEntry(bytes)] + rest.value)
  }

  /** A section inside one packet whose loop of streams, just these, ends where its code begins. */
  ghost predicate HasStreams(packet: Bytes, streams: seq<Entry>) {
    && HasSection(packet)
    && Loop(packet) <= CrcOffset(packet)
    && CrcOffset(packet) + 4 <= PACKET_SIZE
    && Entries(packet[Loop(packet)..CrcOffset(packet)]) == Some(streams)
  }

  ghost predicate WellFormed(packet: Bytes) {
    exists streams :: HasStreams(packet, streams)
  }

  /** The section with its code has residue zero. */
  predicate CodeIsValid(packet: Bytes)
    requires HasSection(packet) && Section(packet) + 3 + SectionLength(packet) <= PACKET_SIZE
  {
    TransportBits.Crc(Bits(packet[Section(packet)..Section(packet) + 3 + SectionLength(packet)])) == 0
  }

  const CAPTION_ENTRY: Bytes := [0x06, 0xe1, 0x30, 0xf0, 0x00]

  lemma FirstOfConcat(a: Bytes, b: Bytes)
    requires |a| >= 5 && EntrySize(a) <= |a|
    ensures EntrySize(a + b) == EntrySize(a) && FirstEntry(a + b) == FirstEntry(a)
    ensures (a + b)[EntrySize(a)..] == a[EntrySize(a)..] + b
  {
    assert (a + b)[5..EntrySize(a)] == a[5..EntrySize(a)];
  }

  lemma EntriesUnfold(bytes: Bytes)
    requires bytes != [] && Entries(bytes).Some?
    ensures |bytes| >= 5 && EntrySize(bytes) <= |bytes|
    ensures Entries(bytes[EntrySize(bytes)..]).Some?
    ensures Entries(bytes).value == [FirstEntry(bytes)] + Entries(bytes[EntrySize(bytes)..]).value
  {
  }

  lemma EntriesFold(bytes: Bytes, rest: seq<Entry>)
    requires |bytes| >= 5 && EntrySize(bytes) <= |bytes| && Entries(bytes[EntrySize(bytes)..]) == Some(rest)
    ensures Entries(bytes) == Some([FirstEntry(bytes)] + rest)
  {
  }

  lemma {:induction false} EntriesAppend(a: Bytes, b: Bytes)
    requires Entries(a).Some? && Entries(b).Some?
    ensures Entries(a + b) == Some(Entries(a).value + Entries(b).value)
  {
    var more := Entries(b).value;
    if a == [] {
      assert a + b == b && [] + more == more;
    } else {
      EntriesUnfold(a);
      FirstOfConcat(a, b);
      var tail := a[EntrySize(a)..];
      EntriesAppend(tail, b);
      EntriesFold(a + b, Entries(tail).value + more);
      Reassociate([FirstEntry(a)], Entries(tail).value, more);
    }
  }

  lemma Reassociate(x: seq<Entry>, y: seq<Entry>, z: seq<Entry>)
    ensures x + (y + z) == x + y + z
  {
  }

  lemma CaptionEntryIs()
    ensures Entries(CAPTION_ENTRY) == Some([Entry(0x06, CAPTION_PID, [])])
  {
    var entry := CAPTION_ENTRY;
    assert entry[0] == 0x06 && entry[1] == 0xe1 && entry[2] == 0x30 && entry[3] == 0xf0 && entry[4] == 0x00;
    assert Field12(entry[3], entry[4]) == 0 && Field13(entry[1], entry[2]) == CAPTION_PID;
    assert entry[5..] == [] && entry[5..5] == [];
    assert Entries(entry[EntrySize(entry)..]) == Some([]);
    assert [FirstEntry(entry)] + [] == [FirstEntry(entry)];
  }

  function Bits(bytes: Bytes): (bits: seq<bv8>)
    ensures |bits| == |bytes|
  {
    seq(|bytes|, i requires 0 <= i < |bytes| => bytes[i] as bv8)
  }

  /** The code of the bytes, as the four bytes that are stored. */
  function Code(bytes: Bytes): (code: Bytes)
    ensures |code| == 4
  {
    var code := TransportBits.BigEndian(TransportBits.Crc(Bits(bytes)));
    seq(4, i requires 0 <= i < 4 => code[i] as int)
  }

  lemma ByteAndBits(b: bv8)
    ensures (b as int) as bv8 == b
  {
  }

  lemma BitsConcat(a: Bytes, b: Bytes)
    ensures Bits(a + b) == Bits(a) + Bits(b)
  {
  }

  lemma CodeBits(bytes: Bytes)
    ensures Bits(Code(bytes)) == TransportBits.BigEndian(TransportBits.Crc(Bits(bytes)))
  {
    var code := TransportBits.BigEndian(TransportBits.Crc(Bits(bytes)));
    forall i | 0 <= i < 4 ensures Bits(Code(bytes))[i] == code[i] { ByteAndBits(code[i]); }
  }

  lemma CodeClears(bytes: Bytes)
    ensures TransportBits.Crc(Bits(bytes + Code(bytes))) == 0
  {
    BitsConcat(bytes, Code(bytes));
    CodeBits(bytes);
    TransportBits.ResidueIsZero(Bits(bytes));
  }

  /** The packet up to the code at `c` of the section at `s`, with other length bytes and the new entry. */
  function Front(packet: Bytes, s: nat, c: nat, length: Bytes): (front: Bytes)
    requires s + 3 <= c <= |packet| && |length| == 2
    ensures |front| == c + 5
  {
    packet[..s + 1] + length + packet[s + 3..c] + CAPTION_ENTRY
  }

  function Splice(packet: Bytes, s: nat, c: nat, length: Bytes): (after: Bytes)
    requires s + 3 <= c && c + 9 <= |packet| && |length| == 2
    ensures |after| == |packet|
  {
    var front := Front(packet, s, c, length);
    front + Code(front[s..]) + packet[c + 9..]
  }

  lemma FrontParts(packet: Bytes, s: nat, c: nat, length: Bytes)
    requires s + 3 <= c <= |packet| && |length| == 2
    ensures var front := Front(packet, s, c, length);
      && front[..s + 1] == packet[..s + 1] && front[s + 1] == length[0] && front[s + 2] == length[1]
      && front[s + 3..c] == packet[s + 3..c] && front[c..] == CAPTION_ENTRY
  {
  }

  lemma SpliceParts(packet: Bytes, s: nat, c: nat, length: Bytes)
    requires s + 3 <= c && c + 9 <= |packet| && |length| == 2
    ensures var after, front := Splice(packet, s, c, length), Front(packet, s, c, length);
      && after[..c + 5] == front && after[c + 9..] == packet[c + 9..]
      && after[s..c + 9] == front[s..] + Code(front[s..])
  {
  }

  lemma Within(all: Bytes, front: Bytes, from: nat, to: nat)
    requires from <= to <= |front| <= |all| && all[..|front|] == front
    ensures all[from..to] == front[from..to]
  {
    assert all[..|front|][from..to] == all[from..to];
  }

  /** What the spliced packet has where. */
  lemma SplicedBytes(packet: Bytes, s: nat, c: nat, length: Bytes)
    requires s + 3 <= c && c + 9 <= |packet| && |length| == 2
    ensures var after := Splice(packet, s, c, length);
      && after[..s + 1] == packet[..s + 1] && after[s + 1] == length[0] && after[s + 2] == length[1]
      && after[s + 3..c] == packet[s + 3..c] && after[c..c + 5] == CAPTION_ENTRY && after[c + 9..] == packet[c + 9..]
  {
    var after, front := Splice(packet, s, c, length), Front(packet, s, c, length);
    FrontParts(packet, s, c, length);
    SpliceParts(packet, s, c, length);
    Within(after, front, 0, s + 1);
    Within(after, front, s + 3, c);
    Within(after, front, c, c + 5);
    assert after[s + 1] == front[s + 1] && after[s + 2] == front[s + 2];
  }

  lemma SplicedCode(packet: Bytes, s: nat, c: nat, length: Bytes)
    requires s + 3 <= c && c + 9 <= |packet| && |length| == 2
    ensures TransportBits.Crc(Bits(Splice(packet, s, c, length)[s..c + 9])) == 0
  {
    SpliceParts(packet, s, c, length);
    CodeClears(Front(packet, s, c, length)[s..]);
  }

  /** The two length bytes for a section that is five bytes longer. */
  function LongerLength(packet: Bytes): (length: Bytes)
    requires HasSection(packet)
    ensures |length| == 2
  {
    var n := SectionLength(packet) + 5;
    [packet[Section(packet) + 1] / 16 * 16 + n / 256 % 16, n % 256]
  }

  /** One stream more, the earlier ones as they were, and a code that fits the new section. */
  ghost predicate Adds(before: Bytes, after: Bytes) {
    && HasSection(before) && HasSection(after)
    && (exists streams :: HasStreams(before, streams) && HasStreams(after, streams + [Entry(0x06, CAPTION_PID, [])]))
    && SectionLength(after) == SectionLength(before) + 5
    && Section(after) == Section(before)
    && CrcOffset(before) >= Section(before) + 3 && CrcOffset(before) + 9 <= PACKET_SIZE
    && CodeIsValid(after)
    && Keeps(before, after, Section(before), CrcOffset(before))
    && after[CrcOffset(before)..CrcOffset(before) + 5] == [0x06, 0xe1, 0x30, 0xf0, 0x00]
  }

  /** Nothing else in the packet changes, but the length field and what stands from the old code to the new one's end. */
  ghost predicate Keeps(before: Bytes, after: Bytes, s: nat, c: nat)
    requires s + 3 <= c && c + 9 <= |before| == |after|
  {
    && after[..s + 1] == before[..s + 1]
    && after[s + 1] / 16 == before[s + 1] / 16
    && after[s + 3..c] == before[s + 3..c]
    && after[c + 9..] == before[c + 9..]
  }

  lemma SamePayloadOffset(packet: Bytes, after: Bytes)
    requires |packet| == |after| == PACKET_SIZE && packet[3] == after[3] && packet[4] == after[4]
    ensures PayloadOffset(packet) == PayloadOffset(after)
  {
  }

  lemma Earlier(packet: Bytes, after: Bytes, n: nat, i: nat)
    requires i < n <= |packet| && n <= |after| && after[..n] == packet[..n]
    ensures after[i] == packet[i]
  {
    assert after[..n][i] == packet[..n][i];
  }

  lemma SameSection(packet: Bytes, after: Bytes)
    requires HasSection(packet) && |after| == PACKET_SIZE
    requires after[..Section(packet) + 1] == packet[..Section(packet) + 1]
    ensures PayloadOffset(after) == PayloadOffset(packet) && Section(after) == Section(packet) && HasSection(after)
  {
    var n := Section(packet) + 1;
    Earlier(packet, after, n, 3);
    Earlier(packet, after, n, 4);
    SamePayloadOffset(packet, after);
    Earlier(packet, after, n, PayloadOffset(packet));
  }

  lemma SameLoop(packet: Bytes, after: Bytes, c: nat)
    requires HasSection(packet) && HasSection(after) && Section(after) == Section(packet)
    requires Section(packet) + 12 <= c <= PACKET_SIZE && after[Section(packet) + 3..c] == packet[Section(packet) + 3..c]
    ensures Loop(after) == Loop(packet)
    ensures Loop(packet) <= c ==> after[Loop(packet)..c] == packet[Loop(packet)..c]
  {
    var s := Section(packet);
    var was, now := packet[s + 3..c], after[s + 3..c];
    assert was[7] == packet[s + 10] && was[8] == packet[s + 11] && now[7] == after[s + 10] && now[8] == after[s + 11];
    if Loop(packet) <= c {
      assert after[Loop(packet)..c] == now[Loop(packet) - s - 3..];
      assert packet[Loop(packet)..c] == was[Loop(packet) - s - 3..];
    }
  }

  lemma LongerSection(packet: Bytes, after: Bytes)
    requires HasSection(packet) && SectionLength(packet) + 5 < 256
    requires HasSection(after) && Section(after) == Section(packet)
    requires after[Section(packet) + 1] == LongerLength(packet)[0] && after[Section(packet) + 2] == LongerLength(packet)[1]
    ensures SectionLength(after) == SectionLength(packet) + 5 && CrcOffset(after) == CrcOffset(packet) + 5
    ensures after[Section(packet) + 1] / 16 == packet[Section(packet) + 1] / 16
  {
  }

  lemma LongerEntries(packet: Bytes, after: Bytes, from: nat, c: nat, streams: seq<Entry>)
    requires from <= c && c + 5 <= |packet| == |after| && Entries(packet[from..c]) == Some(streams)
    requires after[from..c] == packet[from..c] && after[c..c + 5] == CAPTION_ENTRY
    ensures Entries(after[from..c + 5]) == Some(streams + [Entry(0x06, CAPTION_PID, [])])
  {
    assert after[from..c + 5] == after[from..c] + after[c..c + 5];
    EntriesAppend(packet[from..c], CAPTION_ENTRY);
    CaptionEntryIs();
  }

  /** The spliced section has one stream more, and is otherwise the section it was. */
  lemma SpliceAdds(packet: Bytes, streams: seq<Entry>)
    requires HasStreams(packet, streams) && CrcOffset(packet) + 9 <= PACKET_SIZE
    ensures var after := Splice(packet, Section(packet), CrcOffset(packet), LongerLength(packet));
      Adds(packet, after) && HasStreams(after, streams + [Entry(0x06, CAPTION_PID, [])])
  {
    var s, c := Section(packet), CrcOffset(packet);
    var after := Splice(packet, s, c, LongerLength(packet));
    SplicedBytes(packet, s, c, LongerLength(packet));
    SplicedCode(packet, s, c, LongerLength(packet));
    SameSection(packet, after);
    SameLoop(packet, after, c);
    LongerSection(packet, after);
    LongerEntries(packet, after, Loop(packet), c, streams);
    assert HasStreams(after, streams + [Entry(0x06, CAPTION_PID, [])]);
    assert Keeps(packet, after, s, c);
  }

  method SetBytes(a: array<Byte>, bytes: Bytes, at: nat)
    requires at + |bytes| <= a.Length
    modifies a
    ensures a[..] == old(a[..])[..at] + bytes + old(a[..])[at + |bytes|..]
  {
    for i := 0 to |bytes|
      invariant a[..at] == old(a[..])[..at] && a[at..at + i] == bytes[..i] && a[at + i..] == old(a[..])[at + i..]
    {
      a[at + i] := bytes[i];
    }
    assert a[..] == a[..at] + a[at..at + |bytes|] + a[at + |bytes|..];
  }

  method ComputeCode(bytes: Bytes) returns (code: Bytes)
    ensures code == Code(bytes)
  {
    var crc := TransportBits.Crc32Mpeg2(Bits(bytes));
    var stored := TransportBits.BigEndian(crc);
    code := seq(4, i requires 0 <= i < 4 => stored[i] as int);
  }

  method SetFront(rewritten: array<Byte>, ghost packet: Bytes, section: nat, crcOffset: nat, high: Byte, low: Byte)
    requires rewritten[..] == packet && section + 3 <= crcOffset && crcOffset + 9 <= |packet|
    modifies rewritten
    ensures rewritten[..crcOffset + 5] == Front(packet, section, crcOffset, [high, low])
    ensures rewritten[crcOffset + 5..] == packet[crcOffset + 5..]
  {
    SetBytes(rewritten, CAPTION_ENTRY, crcOffset);
    rewritten[section + 1] := high;
    rewritten[section + 2] := low;
  }

  /** The rewriting of a copy of the packet, byte range by byte range. */
  method Splicing(packet: Bytes, section: nat, crcOffset: nat, high: Byte, low: Byte) returns (r: Bytes)
    requires section + 3 <= crcOffset && crcOffset + 9 <= |packet|
    ensures r == Splice(packet, section, crcOffset, [high, low])
  {
    var rewritten := new Byte[|packet|](i requires 0 <= i < |packet| => packet[i]);
    SetFront(rewritten, packet, section, crcOffset, high, low);
    var end := crcOffset + |CAPTION_ENTRY|;
    assert rewritten[section..end] == rewritten[..end][section..];
    var code := ComputeCode(rewritten[section..end]);
    ghost var front, back := rewritten[..end], rewritten[end + 4..];
    assert back == packet[end..][4..];
    SetBytes(rewritten, code, end);
    assert rewritten[..] == front + code + back;
    r := rewritten[..];
  }

  /** None stands for the error that the section does not fit in the packet. */
  method WithCaptionStream(packet: Bytes) returns (r: Option<Bytes>)
    requires HasSection(packet) && WellFormed(packet)
    ensures r.None? <==> CrcOffset(packet) + 9 > PACKET_SIZE
    ensures r.Some? ==> Adds(packet, r.value)
  {
    ghost var streams :| HasStreams(packet, streams);
    var section, sectionLength := Section(packet), SectionLength(packet);
    var crcOffset := section + 3 + sectionLength - 4;
    if crcOffset + |CAPTION_ENTRY| + 4 > PACKET_SIZE { return None; }
    var newLength := sectionLength + |CAPTION_ENTRY|;
    var rewritten := Splicing(packet, section, crcOffset, packet[section + 1] / 16 * 16 + newLength / 256 % 16, newLength % 256);
    assert rewritten == Splice(packet, section, crcOffset, LongerLength(packet));
    SpliceAdds(packet, streams);
    r := Some(rewritten);
  }
}
