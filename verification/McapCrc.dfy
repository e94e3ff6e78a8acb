/** CRC-32 as in section 8 of RFC 1952, on a shift register of 32 bits. */
module Crc32 {
  function ShiftOnce(c: bv32): bv32 {
    if c & 1 == 1 then 0xEDB88320 ^ (c >> 1) else c >> 1
  }

  function TableEntry(c: bv32): bv32 {
    ShiftOnce(ShiftOnce(ShiftOnce(ShiftOnce(ShiftOnce(ShiftOnce(ShiftOnce(ShiftOnce(c))))))))
  }

  function ByteShift(c: bv32, b: bv8): bv32 {
    TableEntry((c ^ (b as bv32)) & 0xFF) ^ (c >> 8)
  }

  function Register(c: bv32, bytes: seq<bv8>): bv32
    decreases |bytes|
  {
    if bytes == [] then c else Register(ByteShift(c, bytes[0]), bytes[1..])
  }

  function Complement(c: bv32): bv32 {
    c ^ 0xFFFFFFFF
  }

  /** The checksum of more bytes, given the checksum of those before. */
  function Crc(bytes: seq<bv8>, before: bv32): bv32 {
    Complement(Register(Complement(before), bytes))
  }

  lemma {:induction false} RegisterComposes(c: bv32, a: seq<bv8>, b: seq<bv8>)
    ensures Register(c, a + b) == Register(Register(c, a), b)
    decreases |a|
  {
    hide ByteShift;
    if a == [] {
      assert a + b == b;
    } else {
      assert (a + b)[1..] == a[1..] + b;
      RegisterComposes(ByteShift(c, a[0]), a[1..], b);
    }
  }

  lemma ComplementTwice(c: bv32)
    ensures Complement(Complement(c)) == c
  {
  }

  /** However a range is split into blocks, the checksum is that of the whole. */
  lemma CrcComposes(a: seq<bv8>, b: seq<bv8>, before: bv32)
    ensures Crc(a + b, before) == Crc(b, Crc(a, before))
  {
    hide Register, Complement;
    RegisterComposes(Complement(before), a, b);
    ComplementTwice(Register(Complement(before), a));
  }

  lemma CrcOfNothing(before: bv32)
    ensures Crc([], before) == before
  {
    ComplementTwice(before);
  }

  /** The published check value of the ASCII digits 1 to 9: a reference for polynomial, bit order and complements. */
  lemma CheckValue()
    ensures Crc([0x31, 0x32, 0x33, 0x34, 0x35, 0x36, 0x37, 0x38, 0x39], 0) == 0xCBF43926
  {
    var c := Complement(0);
    var bytes := [0x31 as bv8, 0x32, 0x33, 0x34, 0x35, 0x36, 0x37, 0x38, 0x39];
    DigitShifts(bytes, 0, 0xFFFFFFFF, 0x7C231048);
    DigitShifts(bytes, 1, 0x7C231048, 0xB0ACBB32);
    DigitShifts(bytes, 2, 0xB0ACBB32, 0x77B79C2D);
    DigitShifts(bytes, 3, 0x77B79C2D, 0x641C1F5C);
    DigitShifts(bytes, 4, 0x641C1F5C, 0x340AC5E3);
    DigitShifts(bytes, 5, 0x340AC5E3, 0xF68D2C9E);
    DigitShifts(bytes, 6, 0xF68D2C9E, 0xAFFC9660);
    DigitShifts(bytes, 7, 0xAFFC9660, 0x651F2550);
    DigitShifts(bytes, 8, 0x651F2550, 0x340BC6D9);
  }

  lemma DigitShifts(bytes: seq<bv8>, i: nat, c: bv32, next: bv32)
    requires i < |bytes| && ByteShift(c, bytes[i]) == next
    ensures Register(c, bytes[i..]) == Register(next, bytes[i + 1..])
  {
    hide ByteShift;
    assert bytes[i..][1..] == bytes[i + 1..];
  }
}

/** What the checksum fields of a file have to say, on the bytes of the file. */
module McapLayout {
  import opened Crc32

  const MAGIC_SIZE := 8
  const ENVELOPE_SIZE := 9
  const FOOTER_OPCODE: nat := 0x02
  const ATTACHMENT_OPCODE: nat := 0x09

  function LittleEndian(bytes: seq<bv8>): nat
    decreases |bytes|
  {
    if bytes == [] then 0 else bytes[0] as nat + 256 * LittleEndian(bytes[1..])
  }

  predicate InRange(file: seq<bv8>, start: int, end: int) {
    0 <= start <= end <= |file|
  }

  function IntegerAt(file: seq<bv8>, at: nat, size: nat): nat
    requires InRange(file, at, at + size)
  {
    LittleEndian(file[at..at + size])
  }

  /** The checksum at end is that of the bytes from start to end, or zero where none is available. */
  predicate ChecksumHolds(file: seq<bv8>, start: nat, end: nat)
    requires start <= end && InRange(file, end, end + 4)
  {
    var expected := IntegerAt(file, end, 4);
    expected == 0 || expected == Crc(file[start..end], 0) as nat
  }

  /** The end of a field of the given size, or of a field with a length before it; None beyond the record. */
  datatype Offset = Beyond | At(position: nat)

  function Skipped(from: Offset, size: nat, end: nat): Offset {
    if from.Beyond? || from.position + size > end then Beyond else At(from.position + size)
  }

  function SkippedPrefixed(file: seq<bv8>, from: Offset, width: nat, end: nat): Offset
    requires end <= |file|
  {
    var content := Skipped(from, width, end);
    if content.Beyond? then Beyond
    else Skipped(content, IntegerAt(file, content.position - width, width), end)
  }

  /** Two timestamps, two strings and the data of an attachment; its checksum field comes next. */
  function AttachmentData(file: seq<bv8>, start: nat, end: nat): Offset
    requires end <= |file|
  {
    SkippedPrefixed(file, SkippedPrefixed(file, SkippedPrefixed(file, Skipped(At(start), 16, end), 4, end), 4, end), 8, end)
  }

  predicate AttachmentHolds(file: seq<bv8>, start: nat, end: nat)
    requires end <= |file|
  {
    var data := AttachmentData(file, start, end);
    data.At? && start <= data.position && data.position + 4 <= end && ChecksumHolds(file, start, data.position)
  }

  /** The summary section, or only the footer's own prefix when there is none. */
  predicate FooterHolds(file: seq<bv8>, start: nat, end: nat)
    requires ENVELOPE_SIZE <= start && InRange(file, start, end)
  {
    && end - start == 20
    && var summary := IntegerAt(file, start, 8);
       && (summary == 0 || MAGIC_SIZE <= summary <= start - ENVELOPE_SIZE)
       && ChecksumHolds(file, if summary == 0 then start - ENVELOPE_SIZE else summary, end - 4)
  }

  // ---- One record after the other ------------------------------------------------------

  function Limit(file: seq<bv8>): int {
    |file| - MAGIC_SIZE
  }

  predicate HasEnvelope(file: seq<bv8>, position: nat) {
    position + ENVELOPE_SIZE <= Limit(file)
  }

  function OpcodeAt(file: seq<bv8>, position: nat): nat
    requires HasEnvelope(file, position)
  {
    IntegerAt(file, position, 1)
  }

  function RecordEnd(file: seq<bv8>, position: nat): nat
    requires HasEnvelope(file, position)
  {
    position + ENVELOPE_SIZE + IntegerAt(file, position + 1, 8)
  }

  predicate RecordHolds(file: seq<bv8>, position: nat) {
    && HasEnvelope(file, position)
    && var start, end := position + ENVELOPE_SIZE, RecordEnd(file, position);
       && end <= Limit(file)
       && (OpcodeAt(file, position) == ATTACHMENT_OPCODE ==> AttachmentHolds(file, start, end))
       && (OpcodeAt(file, position) == FOOTER_OPCODE ==> end == Limit(file) && FooterHolds(file, start, end))
  }

  /** Every record from here to the trailing magic holds. */
  predicate Walk(file: seq<bv8>, position: nat)
    decreases Limit(file) - position
  {
    position >= Limit(file) || (RecordHolds(file, position) && Walk(file, RecordEnd(file, position)))
  }

  /** Records laid end to end from one position to the trailing magic, each of which holds. */
  predicate Tiles(file: seq<bv8>, position: nat, records: seq<nat>) {
    && (forall i :: 0 <= i < |records| ==> RecordHolds(file, records[i]))
    && (forall i :: 0 <= i < |records| - 1 ==> records[i + 1] == RecordEnd(file, records[i]))
    && (if records == [] then position == Limit(file)
        else records[0] == position && RecordEnd(file, records[|records| - 1]) == Limit(file))
  }

  /** A walk accepts exactly when records tile the file from the position on, without gap or overlap. */
  lemma {:induction false} WalkIsATiling(file: seq<bv8>, position: nat) returns (records: seq<nat>)
    requires position <= Limit(file) && Walk(file, position)
    ensures Tiles(file, position, records)
    decreases Limit(file) - position
  {
    hide AttachmentHolds, FooterHolds, IntegerAt;
    if position == Limit(file) {
      records := [];
    } else {
      RecordIsWithin(file, position);
      var rest := WalkIsATiling(file, RecordEnd(file, position));
      records := [position] + rest;
    }
  }

  lemma {:induction false} TilingIsAWalk(file: seq<bv8>, position: nat, records: seq<nat>)
    requires Tiles(file, position, records)
    ensures Walk(file, position)
    decreases |records|
  {
    hide AttachmentHolds, FooterHolds, IntegerAt;
    if records != [] {
      RecordIsWithin(file, position);
      TilingIsAWalk(file, RecordEnd(file, position), records[1..]);
    }
  }

  lemma RecordIsWithin(file: seq<bv8>, position: nat)
    requires RecordHolds(file, position)
    ensures HasEnvelope(file, position) && position + ENVELOPE_SIZE <= RecordEnd(file, position) <= Limit(file)
  {
    hide AttachmentHolds, FooterHolds, LittleEndian;
  }

  /** The locator's walk starts behind the leading magic; a file too short for both magics has no records, yet is walked. */
  lemma AcceptedExactlyWhenTiled(file: seq<bv8>)
    ensures Walk(file, MAGIC_SIZE) && |file| >= 2 * MAGIC_SIZE <==> exists records :: Tiles(file, MAGIC_SIZE, records)
  {
    if Walk(file, MAGIC_SIZE) && |file| >= 2 * MAGIC_SIZE {
      var records := WalkIsATiling(file, MAGIC_SIZE);
    }
    if records :| Tiles(file, MAGIC_SIZE, records) {
      TilingIsAWalk(file, MAGIC_SIZE, records);
      if records != [] {
        RecordIsWithin(file, MAGIC_SIZE);
      }
    }
  }

  /** A file that cannot hold both magics is walked although nothing tiles it. */
  lemma ShortFilesAreWalkedUntiled(file: seq<bv8>)
    requires |file| < 2 * MAGIC_SIZE
    ensures Walk(file, MAGIC_SIZE) && !exists records :: Tiles(file, MAGIC_SIZE, records)
  {
    AcceptedExactlyWhenTiled(file);
  }

  lemma NextRecord(file: seq<bv8>, position: nat, records: seq<nat>, i: nat)
    requires Tiles(file, position, records) && i + 1 < |records|
    ensures HasEnvelope(file, records[i]) && HasEnvelope(file, RecordEnd(file, records[i]))
  {
    hide AttachmentHolds, FooterHolds, IntegerAt;
    assert RecordHolds(file, records[i]) && RecordHolds(file, records[i + 1]);
  }

  /** A footer is the last record, and there is at most one. */
  lemma FooterIsLast(file: seq<bv8>, position: nat, records: seq<nat>, i: nat)
    requires Tiles(file, position, records) && i < |records| && HasEnvelope(file, records[i])
    requires OpcodeAt(file, records[i]) == FOOTER_OPCODE
    ensures i == |records| - 1
  {
    hide AttachmentHolds, FooterHolds, IntegerAt;
    assert RecordHolds(file, records[i]);
    if i < |records| - 1 {
      NextRecord(file, position, records, i);
    }
  }

  // ---- Records assembled from their fields --------------------------------------------------

  /** The value in the given number of bytes, least significant first. */
  function Encoded(value: nat, size: nat): (bytes: seq<bv8>)
    ensures |bytes| == size
    decreases size
  {
    if size == 0 then [] else [(value % 256) as bv8] + Encoded(value / 256, size - 1)
  }

  function Power256(size: nat): nat {
    if size == 0 then 1 else 256 * Power256(size - 1)
  }

  lemma {:induction false} DecodedIsEncoded(value: nat, size: nat)
    requires value < Power256(size)
    ensures LittleEndian(Encoded(value, size)) == value
    decreases size
  {
    if size > 0 {
      DecodedIsEncoded(value / 256, size - 1);
      hide LittleEndian;
      LeastByteFirst(value % 256, Encoded(value / 256, size - 1));
    }
  }

  lemma LeastByteFirst(low: nat, rest: seq<bv8>)
    requires low < 256
    ensures LittleEndian([low as bv8] + rest) == low + 256 * LittleEndian(rest)
  {
    assert ([low as bv8] + rest)[1..] == rest;
    assert (low as bv8) as nat == low;
  }

  /** The bytes stand in the file at the position. */
  predicate StandsAt(file: seq<bv8>, position: nat, bytes: seq<bv8>) {
    position + |bytes| <= |file| && file[position..position + |bytes|] == bytes
  }

  lemma StandsApart(file: seq<bv8>, position: nat, a: seq<bv8>, b: seq<bv8>)
    requires StandsAt(file, position, a + b)
    ensures StandsAt(file, position, a) && StandsAt(file, position + |a|, b)
  {
    var whole := file[position..position + |a + b|];
    assert whole[..|a|] == a && whole[|a|..] == b;
    assert file[position..position + |a|] == whole[..|a|];
    assert file[position + |a|..position + |a| + |b|] == whole[|a|..];
  }

  lemma StandsTogether(file: seq<bv8>, position: nat, a: seq<bv8>, b: seq<bv8>)
    requires StandsAt(file, position, a) && StandsAt(file, position + |a|, b)
    ensures StandsAt(file, position, a + b)
  {
    assert file[position..position + |a + b|] == file[position..position + |a|] + file[position + |a|..position + |a| + |b|];
  }

  lemma FieldIsRead(file: seq<bv8>, position: nat, value: nat, size: nat)
    requires StandsAt(file, position, Encoded(value, size)) && value < Power256(size)
    ensures IntegerAt(file, position, size) == value
  {
    DecodedIsEncoded(value, size);
  }

  /** Opcode and length, the envelope of every record. */
  function Envelope(opcode: nat, length: nat): (bytes: seq<bv8>)
    ensures |bytes| == 9
  {
    Encoded(opcode, 1) + Encoded(length, 8)
  }

  lemma EnvelopeIsRead(file: seq<bv8>, position: nat, opcode: nat, length: nat)
    requires StandsAt(file, position, Envelope(opcode, length)) && opcode < 256 && length < Power256(8)
    requires position + 9 + length + 8 <= |file|
    ensures HasEnvelope(file, position) && OpcodeAt(file, position) == opcode && RecordEnd(file, position) == position + 9 + length
  {
    hide Encoded, Power256;
    StandsApart(file, position, Encoded(opcode, 1), Encoded(length, 8));
    assert opcode < Power256(1) by {
      OneByte();
    }
    FieldIsRead(file, position, opcode, 1);
    FieldIsRead(file, position + 1, length, 8);
  }

  lemma OneByte()
    ensures Power256(1) == 256
  {
    assert Power256(0) == 1;
  }

  /** A string or blob behind its length. */
  function Prefixed(content: seq<bv8>, width: nat): (bytes: seq<bv8>)
    ensures |bytes| == width + |content|
  {
    Encoded(|content|, width) + content
  }

  lemma PrefixedIsSkipped(file: seq<bv8>, position: nat, content: seq<bv8>, width: nat, end: nat)
    requires StandsAt(file, position, Prefixed(content, width)) && |content| < Power256(width)
    requires position + width + |content| <= end <= |file|
    ensures SkippedPrefixed(file, At(position), width, end) == At(position + width + |content|)
  {
    hide Encoded, Power256;
    StandsApart(file, position, Encoded(|content|, width), content);
    FieldIsRead(file, position, |content|, width);
  }

  /** The fields of an attachment that its checksum covers: log and creation time, name, media type and data. */
  function AttachmentFields(logged: nat, created: nat, name: seq<bv8>, media: seq<bv8>, data: seq<bv8>): seq<bv8> {
    Encoded(logged, 8) + Encoded(created, 8) + Prefixed(name, 4) + Prefixed(media, 4) + Prefixed(data, 8)
  }

  lemma AttachmentIsLocated(file: seq<bv8>, start: nat, logged: nat, created: nat, name: seq<bv8>, media: seq<bv8>, data: seq<bv8>, end: nat)
    requires var fields := AttachmentFields(logged, created, name, media, data);
             StandsAt(file, start, fields) && start + |fields| <= end <= |file|
    requires |name| < Power256(4) && |media| < Power256(4) && |data| < Power256(8)
    ensures AttachmentData(file, start, end) == At(start + |AttachmentFields(logged, created, name, media, data)|)
  {
    hide Encoded, Power256, SkippedPrefixed, Prefixed;
    var times := Encoded(logged, 8) + Encoded(created, 8);
    StandsApart(file, start, times + Prefixed(name, 4) + Prefixed(media, 4), Prefixed(data, 8));
    StandsApart(file, start, times + Prefixed(name, 4), Prefixed(media, 4));
    StandsApart(file, start, times, Prefixed(name, 4));
    PrefixedIsSkipped(file, start + 16, name, 4, end);
    PrefixedIsSkipped(file, start + 20 + |name|, media, 4, end);
    PrefixedIsSkipped(file, start + 24 + |name| + |media|, data, 8, end);
  }

  /**
   An attachment record written field by field, whatever follows its checksum:
   it holds exactly when the checksum is zero or that of the fields before it.
   */
  lemma AttachmentHoldsExactly(file: seq<bv8>, position: nat, logged: nat, created: nat, name: seq<bv8>, media: seq<bv8>, data: seq<bv8>,
                               crc: nat, extension: seq<bv8>)
    requires |name| < Power256(4) && |media| < Power256(4) && |data| < Power256(8) && crc < Power256(4)
    requires var fields := AttachmentFields(logged, created, name, media, data);
             && |fields| + 4 + |extension| < Power256(8)
             && StandsAt(file, position, Envelope(0x09, |fields| + 4 + |extension|) + (fields + Encoded(crc, 4) + extension))
             && position + 9 + |fields| + 4 + |extension| + 8 <= |file|
    ensures RecordHolds(file, position) <==> crc == 0 || crc == Crc(AttachmentFields(logged, created, name, media, data), 0) as nat
  {
    hide Encoded, Power256, AttachmentFields, Crc, LittleEndian, SkippedPrefixed, IntegerAt;
    var fields := AttachmentFields(logged, created, name, media, data);
    var length, start := |fields| + 4 + |extension|, position + 9;
    StandsApart(file, position, Envelope(0x09, length), fields + Encoded(crc, 4) + extension);
    StandsApart(file, start, fields + Encoded(crc, 4), extension);
    StandsApart(file, start, fields, Encoded(crc, 4));
    EnvelopeIsRead(file, position, 0x09, length);
    AttachmentIsLocated(file, start, logged, created, name, media, data, start + length);
    FieldIsRead(file, start + |fields|, crc, 4);
    assert file[start..start + |fields|] == fields;
  }

  /**
   A footer written field by field before the trailing magic: it holds exactly
   when the summary starts behind the leading magic and before the footer, and
   the checksum is zero or covers everything from there up to itself.
   */
  lemma FooterHoldsExactly(file: seq<bv8>, position: nat, summary: nat, offsets: nat, crc: nat)
    requires summary < Power256(8) && crc < Power256(4) && position + 9 + 20 + 8 == |file|
    requires StandsAt(file, position, Envelope(0x02, 20) + (Encoded(summary, 8) + Encoded(offsets, 8) + Encoded(crc, 4)))
    ensures RecordHolds(file, position) <==>
              && (summary == 0 || 8 <= summary <= position)
              && (crc == 0 || crc == Crc(file[if summary == 0 then position else summary..position + 25], 0) as nat)
  {
    hide Encoded, Power256, Crc, LittleEndian, IntegerAt;
    var start := position + 9;
    StandsApart(file, position, Envelope(0x02, 20), Encoded(summary, 8) + Encoded(offsets, 8) + Encoded(crc, 4));
    StandsApart(file, start, Encoded(summary, 8) + Encoded(offsets, 8), Encoded(crc, 4));
    StandsApart(file, start, Encoded(summary, 8), Encoded(offsets, 8));
    EightBytes();
    EnvelopeIsRead(file, position, 0x02, 20);
    FieldIsRead(file, start, summary, 8);
    FieldIsRead(file, start + 16, crc, 4);
  }

  /** A record of any other kind holds wherever it fits, whatever it contains. */
  lemma OtherRecordHolds(file: seq<bv8>, position: nat, opcode: nat, content: seq<bv8>)
    requires opcode < 256 && opcode != 0x02 && opcode != 0x09 && |content| < Power256(8)
    requires StandsAt(file, position, Envelope(opcode, |content|) + content) && position + 9 + |content| + 8 <= |file|
    ensures RecordHolds(file, position)
  {
    hide Power256, AttachmentHolds, FooterHolds, IntegerAt;
    StandsApart(file, position, Envelope(opcode, |content|), content);
    EnvelopeIsRead(file, position, opcode, |content|);
  }

  lemma EightBytes()
    ensures 20 < Power256(8)
  {
    assert Power256(1) == 256;
    PowersGrow(1, 8);
  }

  lemma {:induction false} PowersGrow(small: nat, large: nat)
    requires small <= large
    ensures Power256(small) <= Power256(large)
    decreases large - small
  {
    if small < large {
      PowersGrow(small, large - 1);
    }
  }
}

/** The locator itself, on a seekable stream that may deliver fewer bytes than it is asked for. */
module McapChecksums {
  import opened Crc32
  import opened McapLayout
  import opened Outcomes

  class Stream {
    const data: seq<bv8>
    /** Reads deliver everything that is there. */
    const full: bool
    var position: nat

    constructor (data: seq<bv8>, full: bool)
      ensures this.data == data && this.full == full && position == 0
    {
      this.data, this.full, position := data, full, 0;
    }

    method Seek(to: nat)
      modifies this
      ensures position == to
    {
      position := to;
    }

    method Read(size: nat) returns (block: seq<bv8>)
      modifies this
      ensures |block| <= size && position == old(position) + |block|
      ensures block == [] ==> size == 0 || old(position) >= |data|
      ensures block == [] || (position <= |data| && block == data[old(position)..position])
      ensures full ==> |block| == if old(position) + size <= |data| then size else if old(position) <= |data| then |data| - old(position) else 0
    {
      var available := if position <= |data| then |data| - position else 0;
      var wanted := if size <= available then size else available;
      var delivered: nat :| delivered <= wanted && (wanted > 0 ==> delivered > 0) && (full ==> delivered == wanted);
      block := if delivered == 0 then [] else data[position..position + delivered];
      position := position + delivered;
    }
  }

  datatype Failure =
    | TruncatedFields | FieldExceedsRecord | TruncatedRange | Mismatch
    | TruncatedAttachment | FooterLength | SummaryRange | PastTrailingMagic | FooterNotLast

  method ReadInteger(stream: Stream, size: nat, end: nat) returns (r: Result<nat, Failure>)
    requires end <= |stream.data| && size > 0
    modifies stream
    ensures r.Ok? ==>
              && old(stream.position) + size <= end && stream.position == old(stream.position) + size
              && r.value == IntegerAt(stream.data, old(stream.position), size)
    ensures r.Err? && stream.full ==> old(stream.position) + size > end
  {
    if stream.position + size > end {
      return Err(TruncatedFields);
    }
    var raw := stream.Read(size);
    if |raw| != size {
      return Err(TruncatedFields);
    }
    return Ok(LittleEndian(raw));
  }

  method Skip(stream: Stream, size: nat, end: nat) returns (failure: Option<Failure>)
    modifies stream
    ensures failure.None? <==> old(stream.position) + size <= end
    ensures failure.None? ==> stream.position == old(stream.position) + size
  {
    var destination := stream.position + size;
    if destination > end {
      return Some(FieldExceedsRecord);
    }
    stream.Seek(destination);
    return None;
  }

  /** The range is read in blocks; their split is up to the stream. */
  method CheckCrc(stream: Stream, start: nat, end: nat) returns (failure: Option<Failure>)
    requires start <= end && InRange(stream.data, end, end + 4)
    modifies stream
    ensures failure.None? ==> ChecksumHolds(stream.data, start, end)
    ensures failure.Some? && stream.full ==> !ChecksumHolds(stream.data, start, end)
  {
    hide Crc, LittleEndian;
    stream.Seek(end);
    var expected := ReadInteger(stream, 4, end + 4);
    if expected.Err? {
      return Some(expected.error);
    }
    if expected.value == 0 {
      return None;
    }
    stream.Seek(start);
    var actual: bv32, remaining := 0, end - start;
    assert stream.data[start..start] == [];
    CrcOfNothing(0);
    while remaining > 0
      invariant 0 <= remaining <= end - start && stream.position == end - remaining
      invariant actual == Crc(stream.data[start..end - remaining], 0)
    {
      ghost var from := stream.position;
      var block := stream.Read(if remaining <= 64 * 1024 then remaining else 64 * 1024);
      if block == [] {
        return Some(TruncatedRange);
      }
      CrcComposes(stream.data[start..from], block, 0);
      assert stream.data[start..from] + block == stream.data[start..stream.position];
      actual := Crc(block, actual);
      remaining := remaining - |block|;
    }
    if actual as nat != expected.value {
      return Some(Mismatch);
    }
    return None;
  }

  method AttachmentCrc(stream: Stream, start: nat, end: nat) returns (failure: Option<Failure>)
    requires end <= Limit(stream.data)
    modifies stream
    ensures failure.None? ==> AttachmentHolds(stream.data, start, end)
    ensures failure.Some? && stream.full ==> !AttachmentHolds(stream.data, start, end)
  {
    hide ChecksumHolds, IntegerAt;
    stream.Seek(start);
    failure := Skip(stream, 16, end);
    ghost var at := Skipped(At(start), 16, end);
    if failure.Some? {
      return;
    }
    failure := SkipPrefixed(stream, 4, end, at);
    at := SkippedPrefixed(stream.data, at, 4, end);
    if failure.Some? {
      return;
    }
    failure := SkipPrefixed(stream, 4, end, at);
    at := SkippedPrefixed(stream.data, at, 4, end);
    if failure.Some? {
      return;
    }
    failure := SkipPrefixed(stream, 8, end, at);
    at := SkippedPrefixed(stream.data, at, 8, end);
    if failure.Some? {
      return;
    }
    var crcOffset := stream.position;
    if crcOffset + 4 > end {
      return Some(TruncatedAttachment);
    }
    failure := CheckCrc(stream, start, crcOffset);
  }

  /** Reads a length and skips as many bytes; at is where the layout has the stream. */
  method SkipPrefixed(stream: Stream, width: nat, end: nat, ghost at: Offset) returns (failure: Option<Failure>)
    requires end <= |stream.data| && width > 0 && at == At(stream.position)
    modifies stream
    ensures failure.None? ==> SkippedPrefixed(stream.data, at, width, end) == At(stream.position) && old(stream.position) <= stream.position
    ensures failure.Some? && stream.full ==> SkippedPrefixed(stream.data, at, width, end).Beyond?
  {
    var length := ReadInteger(stream, width, end);
    if length.Err? {
      return Some(length.error);
    }
    failure := Skip(stream, length.value, end);
  }

  method FooterCrc(stream: Stream, start: nat, end: nat) returns (failure: Option<Failure>)
    requires ENVELOPE_SIZE <= start <= end <= Limit(stream.data)
    modifies stream
    ensures failure.None? ==> FooterHolds(stream.data, start, end)
    ensures failure.Some? && stream.full ==> !FooterHolds(stream.data, start, end)
  {
    hide ChecksumHolds;
    if end - start != 20 {
      return Some(FooterLength);
    }
    stream.Seek(start);
    var summary := ReadInteger(stream, 8, end);
    if summary.Err? {
      return Some(summary.error);
    }
    if summary.value != 0 && !(MAGIC_SIZE <= summary.value <= start - ENVELOPE_SIZE) {
      return Some(SummaryRange);
    }
    failure := CheckCrc(stream, if summary.value == 0 then start - ENVELOPE_SIZE else summary.value, end - 4);
  }

  /** One record: its envelope, and the checksum it carries if any. */
  method CheckRecord(stream: Stream, position: nat) returns (r: Result<nat, Failure>)
    requires position < Limit(stream.data)
    modifies stream
    ensures r.Ok? ==> RecordHolds(stream.data, position) && r.value == RecordEnd(stream.data, position)
    ensures r.Err? && stream.full ==> !RecordHolds(stream.data, position)
  {
    hide AttachmentHolds, FooterHolds, LittleEndian;
    var limit := Limit(stream.data);
    stream.Seek(position);
    var opcode := ReadInteger(stream, 1, limit);
    if opcode.Err? {
      return Err(opcode.error);
    }
    var length := ReadInteger(stream, 8, limit);
    if length.Err? {
      return Err(length.error);
    }
    var start := stream.position;
    var end := start + length.value;
    if end > limit {
      return Err(PastTrailingMagic);
    }
    var failure := None;
    if opcode.value == ATTACHMENT_OPCODE {
      failure := AttachmentCrc(stream, start, end);
    } else if opcode.value == FOOTER_OPCODE {
      if end != limit {
        return Err(FooterNotLast);
      }
      failure := FooterCrc(stream, start, end);
    }
    return if failure.Some? then Err(failure.value) else Ok(end);
  }

  /**
   Acceptance means that every record holds, however reads are split; a stream
   that delivers all it has is refused only when some record does not hold.
   */
  method VerifyExtraCrcs(stream: Stream) returns (failure: Option<Failure>)
    modifies stream
    ensures failure.None? ==> Walk(stream.data, MAGIC_SIZE) && stream.position == 0
    ensures failure.Some? && stream.full ==> !Walk(stream.data, MAGIC_SIZE)
  {
    hide RecordHolds, RecordEnd;
    var limit := Limit(stream.data);
    var position := MAGIC_SIZE;
    while position < limit
      invariant Walk(stream.data, MAGIC_SIZE) <==> Walk(stream.data, position)
      decreases limit - position
    {
      var r := CheckRecord(stream, position);
      if r.Err? {
        return Some(r.error);
      }
      RecordIsWithin(stream.data, position);
      position := r.value;
    }
    stream.Seek(0);
    return None;
  }

  /**
   A chunk is accepted exactly when it declares what it decodes to, within the
   limit; to find out, at most one byte more than declared is decoded.
   */
  method ValidateChunkSize(decoded: Stream, declared: nat, limit: nat) returns (accepted: bool)
    requires decoded.position == 0
    modifies decoded
    ensures accepted <==> declared <= limit && |decoded.data| == declared
    ensures decoded.position <= declared + 1 && (declared > limit ==> decoded.position == 0)
  {
    if declared > limit {
      return false;
    }
    var size := 0;
    var more := true;
    while more
      invariant size == decoded.position <= |decoded.data| && size <= declared + 1
      invariant !more ==> size == |decoded.data| || size > declared
      decreases declared + 1 - size, more
    {
      if size > declared {
        more := false;
      } else {
        var wanted := declared - size + 1;
        var block := decoded.Read(if wanted <= 64 * 1024 then wanted else 64 * 1024);
        size := size + |block|;
        more := block != [];
      }
    }
    return size == declared;
  }
}
