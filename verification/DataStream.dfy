/** createData up to the interleaving: segments, terminator and padding, and
    the reader that recovers the segments. */
module DataStream {
  import opened Wrappers
  import opened Numbers
  import opened BitBuffer

  /** The character codes of one string passed to addData. */
  type Text = seq<nat>

  const MODE_NUMBER := 1
  const MODE_ALPHA_NUM := 2
  const MODE_8BIT_BYTE := 4
  const MODE_KANJI := 8

  const PAD0: nat := 0xEC
  const PAD1: nat := 0x11

  /** Width of the character count.  Types below 1 fall into the second range,
      as in the program. */
  function LengthInBits(mode: int, typeNumber: int): (r: Result<nat>)
    ensures r.Ok? <==> typeNumber < 41 && mode in {MODE_NUMBER, MODE_ALPHA_NUM, MODE_8BIT_BYTE, MODE_KANJI}
    ensures r.Ok? ==> 8 <= r.value <= 16
  {
    if 1 <= typeNumber < 10 then
      if mode == MODE_NUMBER then Ok(10)
      else if mode == MODE_ALPHA_NUM then Ok(9)
      else if mode == MODE_8BIT_BYTE then Ok(8)
      else if mode == MODE_KANJI then Ok(8)
      else Thrown
    else if typeNumber < 27 then
      if mode == MODE_NUMBER then Ok(12)
      else if mode == MODE_ALPHA_NUM then Ok(11)
      else if mode == MODE_8BIT_BYTE then Ok(16)
      else if mode == MODE_KANJI then Ok(10)
      else Thrown
    else if typeNumber < 41 then
      if mode == MODE_NUMBER then Ok(14)
      else if mode == MODE_ALPHA_NUM then Ok(13)
      else if mode == MODE_8BIT_BYTE then Ok(16)
      else if mode == MODE_KANJI then Ok(12)
      else Thrown
    else Thrown
  }

  /** The width for byte segments; any value where the lookup throws. */
  function CountWidth(typeNumber: int): nat {
    var r := LengthInBits(MODE_8BIT_BYTE, typeNumber);
    if r.Ok? then r.value else 0
  }

  /** 0 for types 1 to 9, 2 for types 27 to 40, 1 for all others below 41. */
  function Band(typeNumber: int): nat {
    if 1 <= typeNumber <= 9 then 0 else if 27 <= typeNumber <= 40 then 2 else 1
  }

  /** Byte segments count with 8 bits in types 1 to 9 and with 16 in all others;
      each other mode takes two bits more from one band to the next. */
  lemma WidthsByBand(typeNumber: int)
    requires typeNumber < 41
    ensures CountWidth(typeNumber) == if 1 <= typeNumber <= 9 then 8 else 16
    ensures LengthInBits(MODE_8BIT_BYTE, typeNumber) == Ok(CountWidth(typeNumber))
    ensures LengthInBits(MODE_NUMBER, typeNumber) == Ok(10 + 2 * Band(typeNumber))
    ensures LengthInBits(MODE_ALPHA_NUM, typeNumber) == Ok(9 + 2 * Band(typeNumber))
    ensures LengthInBits(MODE_KANJI, typeNumber) == Ok(8 + 2 * Band(typeNumber))
  {}

  // ----- the payload as bits -----

  function Flatten(parts: seq<BitSeq>): BitSeq {
    if parts == [] then [] else parts[0] + Flatten(parts[1..])
  }

  lemma {:induction false} FlattenSnoc(parts: seq<BitSeq>, last: BitSeq)
    ensures Flatten(parts + [last]) == Flatten(parts) + last
  {
    if parts != [] {
      assert (parts + [last])[1..] == parts[1..] + [last];
      FlattenSnoc(parts[1..], last);
    }
  }

  function Characters(text: Text): seq<BitSeq> {
    seq(|text|, i requires 0 <= i < |text| => NumBits(text[i], 8))
  }

  function SegmentBits(text: Text, width: nat): BitSeq {
    NumBits(MODE_8BIT_BYTE, 4) + NumBits(|text|, width) + Flatten(Characters(text))
  }

  function Segments(list: seq<Text>, width: nat): seq<BitSeq> {
    seq(|list|, i requires 0 <= i < |list| => SegmentBits(list[i], width))
  }

  function PayloadBits(list: seq<Text>, width: nat): BitSeq {
    Flatten(Segments(list, width))
  }

  lemma CharactersSnoc(text: Text, i: nat)
    requires i < |text|
    ensures Flatten(Characters(text[..i + 1])) == Flatten(Characters(text[..i])) + NumBits(text[i], 8)
  {
    FlattenSnoc(Characters(text[..i]), NumBits(text[i], 8));
    assert Characters(text[..i + 1]) == Characters(text[..i]) + [NumBits(text[i], 8)];
  }

  lemma PayloadSnoc(list: seq<Text>, i: nat, width: nat)
    requires i < |list|
    ensures PayloadBits(list[..i + 1], width) == PayloadBits(list[..i], width) + SegmentBits(list[i], width)
  {
    FlattenSnoc(Segments(list[..i], width), SegmentBits(list[i], width));
    assert Segments(list[..i + 1], width) == Segments(list[..i], width) + [SegmentBits(list[i], width)];
  }

  /** The characters of all strings. */
  function CharacterCount(list: seq<Text>): nat {
    if list == [] then 0 else |list[0]| + CharacterCount(list[1..])
  }

  lemma {:induction false} CharactersLength(text: Text)
    ensures |Flatten(Characters(text))| == 8 * |text|
  {
    hide NumBits;
    if text != [] {
      assert Characters(text)[1..] == Characters(text[1..]);
      CharactersLength(text[1..]);
    }
  }

  lemma {:induction false} SegmentsLength(list: seq<Text>, width: nat)
    ensures |PayloadBits(list, width)| == |list| * (4 + width) + 8 * CharacterCount(list)
  {
    if list != [] {
      CharactersLength(list[0]);
      hide NumBits, Characters;
      assert Segments(list, width)[1..] == Segments(list[1..], width);
      SegmentsLength(list[1..], width);
    }
  }

  /** How long the payload is depends on the number of strings, the number of
      characters and, by the width of the count, on the type. */
  lemma PayloadLength(list: seq<Text>, typeNumber: int)
    requires typeNumber < 41
    ensures |PayloadBits(list, CountWidth(typeNumber))|
         == |list| * (if 1 <= typeNumber <= 9 then 12 else 20) + 8 * CharacterCount(list)
  {
    SegmentsLength(list, CountWidth(typeNumber));
  }

  /** A segment begins with 0100 and the number of characters, and the characters
      follow, eight bits each. */
  lemma SegmentLayout(text: Text, width: nat, k: nat)
    requires width <= 32 && k < |text|
    ensures var bits, at := SegmentBits(text, width), 4 + width + 8 * k;
            && at + 8 <= |bits| && bits[..4] == [false, true, false, false]
            && FromBits(bits[4..4 + width]) == |text| % Pow2(width)
            && FromBits(bits[at..at + 8]) == text[k] % 256
  {
    hide NumBits, FromBits, Pow2, Flatten, Characters;
    ModeNibble();
    FromNumBits(|text|, width);
    FromNumBits(text[k], 8);
    BytePowers();
    CharacterAt(text, k);
    var head := NumBits(MODE_8BIT_BYTE, 4) + NumBits(|text|, width);
    var chars := Flatten(Characters(text));
    assert SegmentBits(text, width) == head + chars;
    assert (head + chars)[4..4 + width] == NumBits(|text|, width);
    PartOfTail(head, chars, 8 * k, 8 * k + 8);
  }

  lemma {:induction false} CharacterAt(text: Text, k: nat)
    requires k < |text|
    ensures |Flatten(Characters(text))| == 8 * |text|
    ensures Flatten(Characters(text))[8 * k..8 * k + 8] == NumBits(text[k], 8)
  {
    hide NumBits;
    assert Characters(text)[1..] == Characters(text[1..]);
    CharactersLength(text[1..]);
    var bits := Flatten(Characters(text));
    assert bits == NumBits(text[0], 8) + Flatten(Characters(text[1..]));
    if k > 0 {
      CharacterAt(text[1..], k - 1);
      PartOfTail(NumBits(text[0], 8), Flatten(Characters(text[1..])), 8 * (k - 1), 8 * k);
    }
  }

  lemma ModeNibble()
    ensures NumBits(MODE_8BIT_BYTE, 4) == [false, true, false, false]
  {
    BytePowers();
    hide Pow2;
  }

  /** QR8bitByte.write. */
  method WriteText(text: Text, buffer: QRBitBuffer)
    requires buffer.Valid()
    modifies buffer
    ensures buffer.Valid() && buffer.Bits() == old(buffer.Bits()) + Flatten(Characters(text))
  {
    assert Characters(text[..0]) == [] && Flatten(Characters(text[..0])) == [];
    hide NumBits, Characters, Flatten, BitsOf, ZeroFrom;
    for i := 0 to |text|
      invariant buffer.Valid()
      invariant buffer.Bits() == old(buffer.Bits()) + Flatten(Characters(text[..i]))
    {
      CharactersSnoc(text, i);
      buffer.Put(text[i], 8);
    }
    assert text[..|text|] == text;
  }

  /** One round of the loop over dataList. */
  method WriteSegment(text: Text, typeNumber: int, buffer: QRBitBuffer) returns (thrown: bool)
    requires buffer.Valid()
    modifies buffer
    ensures buffer.Valid()
    ensures thrown <==> typeNumber >= 41
    ensures !thrown ==> buffer.Bits() == old(buffer.Bits()) + SegmentBits(text, CountWidth(typeNumber))
  {
    hide NumBits, Characters, Flatten, BitsOf, ZeroFrom;
    buffer.Put(MODE_8BIT_BYTE, 4);
    var w := LengthInBits(MODE_8BIT_BYTE, typeNumber);
    if w.Thrown? { return true; }
    buffer.Put(|text|, w.value);
    WriteText(text, buffer);
    return false;
  }

  /** The loop over dataList that createData and make share. */
  method WritePayload(list: seq<Text>, typeNumber: int, buffer: QRBitBuffer) returns (thrown: bool)
    requires buffer.Valid() && buffer.Bits() == []
    modifies buffer
    ensures buffer.Valid()
    ensures thrown <==> list != [] && typeNumber >= 41
    ensures !thrown ==> buffer.Bits() == PayloadBits(list, CountWidth(typeNumber))
  {
    ghost var width := CountWidth(typeNumber);
    assert Segments(list[..0], width) == [];
    assert PayloadBits(list[..0], width) == [];
    hide SegmentBits, PayloadBits, LengthInBits;
    for i := 0 to |list|
      invariant i > 0 ==> typeNumber < 41
      invariant buffer.Valid() && buffer.Bits() == PayloadBits(list[..i], width)
    {
      PayloadSnoc(list, i, width);
      thrown := WriteSegment(list[i], typeNumber, buffer);
      if thrown { return; }
    }
    assert list[..|list|] == list;
    return false;
  }

  // ----- terminator and padding -----

  function PadByte(k: nat): nat {
    if k % 2 == 0 then PAD0 else PAD1
  }

  /** First bit after the terminator, if there is room for one, and the zero fill. */
  function PaddingStart(payload: nat, capacity: nat): nat {
    ((if payload + 4 <= capacity then payload + 4 else payload) + 7) / 8 * 8
  }

  /** The padding starts at the first byte boundary after the terminator, or after
      the payload when the terminator does not fit. */
  lemma PaddingStartIsLeast(payload: nat, capacity: nat)
    ensures var start := PaddingStart(payload, capacity);
            var end := if payload + 4 <= capacity then payload + 4 else payload;
            start % 8 == 0 && end <= start < end + 8
  {}

  /** The pad bytes are 11101100 and 00010001 in turn. */
  lemma PadBits(k: nat)
    ensures NumBits(PadByte(2 * k), 8) == [true, true, true, false, true, true, false, false]
    ensures NumBits(PadByte(2 * k + 1), 8) == [false, false, false, true, false, false, false, true]
  {
    EvenPad();
    OddPad();
    assert PadByte(2 * k) == PAD0 && PadByte(2 * k + 1) == PAD1;
    hide NumBits;
  }

  lemma EvenPad()
    ensures NumBits(PAD0, 8) == [true, true, true, false, true, true, false, false]
  {
    BytePowers();
    hide Pow2;
  }

  lemma OddPad()
    ensures NumBits(PAD1, 8) == [false, false, false, true, false, false, false, true]
  {
    BytePowers();
    hide Pow2;
  }

  lemma BytePowers()
    ensures Pow2(0) == 1 && Pow2(1) == 2 && Pow2(2) == 4 && Pow2(3) == 8
    ensures Pow2(4) == 16 && Pow2(5) == 32 && Pow2(6) == 64 && Pow2(7) == 128 && Pow2(8) == 256
  {
    assert Pow2(4) == 16;
  }

  /** The full data area: the payload unchanged, then terminator and zero fill,
      then PAD0 and PAD1 in turn. */
  ghost predicate Padded(payload: BitSeq, bits: BitSeq, capacity: nat) {
    var start := PaddingStart(|payload|, capacity);
    && |bits| == capacity
    && |payload| <= start <= capacity
    && bits[..|payload|] == payload
    && bits[|payload|..start] == Falses(start - |payload|)
    && forall k: nat | start + 8 * k + 8 <= capacity ::
         bits[start + 8 * k..start + 8 * k + 8] == NumBits(PadByte(k), 8)
  }

  /** Terminator and fill up to the next byte boundary. */
  method Terminate(buffer: QRBitBuffer, capacity: nat)
    requires buffer.Valid() && buffer.length <= capacity && capacity % 8 == 0
    modifies buffer
    ensures buffer.Valid() && buffer.length == PaddingStart(old(buffer.length), capacity)
    ensures buffer.Bits() == old(buffer.Bits()) + Falses(buffer.length - old(buffer.length))
  {
    hide NumBits, Falses, BitsOf, ZeroFrom;
    ghost var bits, from := buffer.Bits(), buffer.length;
    ghost var start := PaddingStart(from, capacity);
    assert start % 8 == 0 && from <= start;
    AppendFalses(bits, 0, 0);
    if buffer.length + 4 <= capacity {
      ZeroNumBits(4);
      buffer.Put(0, 4);
    }
    assert start <= buffer.length + 7 && buffer.length <= start;
    hide PaddingStart;
    while buffer.length % 8 != 0
      invariant buffer.Valid()
      invariant from <= buffer.length <= start <= buffer.length + 7
      invariant buffer.Bits() == bits + Falses(buffer.length - from)
      decreases start - buffer.length
    {
      AppendFalses(bits, buffer.length - from, 1);
      buffer.PutBit(false);
    }
  }

  lemma AppendFalses(bits: BitSeq, n: nat, m: nat)
    ensures bits + Falses(n) + Falses(m) == bits + Falses(n + m)
    ensures bits + Falses(0) == bits && Falses(1) == [false]
  {}

  /** The first `count` pad bytes. */
  ghost function Pads(count: nat): (bits: BitSeq)
    ensures |bits| == 8 * count
  {
    if count == 0 then [] else Pads(count - 1) + NumBits(PadByte(count - 1), 8)
  }

  lemma {:induction false} PadsAt(count: nat, k: nat)
    requires k < count
    ensures Pads(count)[8 * k..8 * k + 8] == NumBits(PadByte(k), 8)
  {
    hide NumBits;
    if k < count - 1 { PadsAt(count - 1, k); }
  }

  lemma AppendPads(bits: BitSeq, k: nat)
    ensures bits + Pads(2 * k) + NumBits(PAD0, 8) == bits + Pads(2 * k + 1)
    ensures bits + Pads(2 * k + 1) + NumBits(PAD1, 8) == bits + Pads(2 * (k + 1))
  {
    hide NumBits;
    assert PadByte(2 * k) == PAD0 && PadByte(2 * k + 1) == PAD1;
  }

  method FillPads(buffer: QRBitBuffer, capacity: nat)
    requires buffer.Valid() && buffer.length <= capacity
    requires capacity % 8 == 0 && buffer.length % 8 == 0
    modifies buffer
    ensures buffer.Valid() && buffer.length == capacity
    ensures buffer.Bits() == old(buffer.Bits()) + Pads((capacity - old(buffer.length)) / 8)
  {
    hide NumBits, BitsOf, ZeroFrom;
    ghost var bits, from := buffer.Bits(), buffer.length;
    ghost var total := (capacity - from) / 8;
    assert capacity == from + 8 * total;
    ghost var pairs := 0;
    assert bits + Pads(0) == bits;
    hide Pads;
    while true
      invariant 2 * pairs <= total
      invariant buffer.Valid() && buffer.length == from + 16 * pairs
      invariant buffer.Bits() == bits + Pads(2 * pairs)
      decreases capacity - buffer.length
    {
      AppendPads(bits, pairs);
      if buffer.length >= capacity { break; }
      buffer.Put(PAD0, 8);
      if buffer.length >= capacity { break; }
      buffer.Put(PAD1, 8);
      pairs := pairs + 1;
    }
  }

  lemma PaddingStartBounds(payload: nat, capacity: nat)
    requires payload <= capacity && capacity % 8 == 0
    ensures var start := PaddingStart(payload, capacity);
            payload <= start <= capacity && capacity == start + 8 * ((capacity - start) / 8)
  {}

  lemma PaddingStartIsAligned(payload: nat, capacity: nat)
    ensures PaddingStart(payload, capacity) % 8 == 0
  {}

  lemma PaddedByParts(payload: BitSeq, capacity: nat)
    requires |payload| <= capacity && capacity % 8 == 0
    ensures var start := PaddingStart(|payload|, capacity);
            && |payload| <= start <= capacity
            && Padded(payload, payload + Falses(start - |payload|) + Pads((capacity - start) / 8), capacity)
  {
    PaddingStartBounds(|payload|, capacity);
    hide NumBits, Pads, PaddingStart, Falses;
    var start := PaddingStart(|payload|, capacity);
    var count := (capacity - start) / 8;
    var fill, pads := Falses(start - |payload|), Pads(count);
    var bits := payload + fill + pads;
    assert bits[|payload|..start] == fill;
    forall k: nat | start + 8 * k + 8 <= capacity
      ensures bits[start + 8 * k..start + 8 * k + 8] == NumBits(PadByte(k), 8)
    {
      PadsAt(count, k);
      PartOfTail(payload + fill, pads, 8 * k, 8 * k + 8);
    }
  }

  lemma PartOfTail(a: BitSeq, b: BitSeq, i: nat, j: nat)
    requires i <= j <= |b|
    ensures (a + b)[|a| + i..|a| + j] == b[i..j]
  {}

  /** From the overflow check to the end of the padding. */
  method PadBuffer(buffer: QRBitBuffer, totalDataCount: nat) returns (thrown: bool)
    requires buffer.Valid()
    modifies buffer
    ensures buffer.Valid()
    ensures thrown <==> |old(buffer.Bits())| > totalDataCount * 8
    ensures !thrown ==> Padded(old(buffer.Bits()), buffer.Bits(), totalDataCount * 8)
    ensures !thrown ==> |buffer.buffer| == totalDataCount && BitsOf(buffer.buffer) == buffer.Bits()
  {
    hide BitsOf, Padded, PaddingStart, Pads, Falses, NumBits, ZeroFrom;
    if buffer.length > totalDataCount * 8 { return true; }
    PaddedByParts(buffer.Bits(), totalDataCount * 8);
    PaddingStartIsAligned(buffer.length, totalDataCount * 8);
    Terminate(buffer, totalDataCount * 8);
    FillPads(buffer, totalDataCount * 8);
    WholeBuffer(buffer);
    return false;
  }

  lemma WholeBuffer(buffer: QRBitBuffer)
    requires buffer.Valid() && buffer.length % 8 == 0
    ensures |buffer.buffer| == buffer.length / 8 && BitsOf(buffer.buffer) == buffer.Bits()
  {}

  lemma ZeroNumBits(n: nat)
    ensures NumBits(0, n) == Falses(n)
  {
    forall i | 0 <= i < n ensures !NumBits(0, n)[i] {
      assert 0 / Pow2((n - i - 1) % 32) == 0;
    }
  }

  // ----- reading the segments back -----

  /** The characters in a run of bytes. */
  ghost function ReadCharacters(bits: BitSeq): Text {
    if |bits| < 8 then [] else [FromBits(bits[..8])] + ReadCharacters(bits[8..])
  }

  /** A reader of byte segments: it stops at the terminator, at any other mode
      indicator, and where the data runs out. */
  ghost function ReadSegments(bits: BitSeq, width: nat): seq<Text> {
    if |bits| < 4 + width || FromBits(bits[..4]) != MODE_8BIT_BYTE then []
    else
      var count := FromBits(bits[4..4 + width]);
      var rest := bits[4 + width..];
      if |rest| < 8 * count then []
      else [ReadCharacters(rest[..8 * count])] + ReadSegments(rest[8 * count..], width)
  }

  /** put keeps the low byte of a character code. */
  function LowBytes(text: Text): Text {
    seq(|text|, i requires 0 <= i < |text| => text[i] % 256)
  }

  function AllLowBytes(list: seq<Text>): seq<Text> {
    seq(|list|, i requires 0 <= i < |list| => LowBytes(list[i]))
  }

  /** All characters of all strings fit a byte. */
  ghost predicate ByteCodes(list: seq<Text>) {
    forall i, k | 0 <= i < |list| && 0 <= k < |list[i]| :: list[i][k] < 256
  }

  /** Nothing is lost exactly when every character fits a byte. */
  lemma LowBytesAreAll(list: seq<Text>)
    ensures AllLowBytes(list) == list <==> ByteCodes(list)
  {
    if AllLowBytes(list) == list {
      forall i, k | 0 <= i < |list| && 0 <= k < |list[i]| ensures list[i][k] < 256 {
        assert AllLowBytes(list)[i][k] == list[i][k] % 256;
      }
    } else {
      assert exists i :: 0 <= i < |list| && LowBytes(list[i]) != list[i];
    }
  }

  lemma {:induction false} CharactersRoundTrip(text: Text)
    ensures |Flatten(Characters(text))| == 8 * |text|
    ensures ReadCharacters(Flatten(Characters(text))) == LowBytes(text)
  {
    hide NumBits, FromBits;
    if text != [] {
      var bits := Flatten(Characters(text));
      assert Characters(text)[1..] == Characters(text[1..]);
      CharactersRoundTrip(text[1..]);
      FromNumBits(text[0], 8);
      assert Pow2(8) == 256;
      assert bits[..8] == NumBits(text[0], 8) && bits[8..] == Flatten(Characters(text[1..]));
    }
  }

  lemma ReadOne(mode: BitSeq, count: BitSeq, chars: BitSeq, rest: BitSeq)
    requires |mode| == 4 && FromBits(mode) == MODE_8BIT_BYTE && |chars| == 8 * FromBits(count)
    ensures ReadSegments(mode + count + chars + rest, |count|) == [ReadCharacters(chars)] + ReadSegments(rest, |count|)
  {
    hide FromBits, ReadCharacters;
    var bits := mode + count + chars + rest;
    assert bits[..4] == mode && bits[4..4 + |count|] == count;
    var tail := bits[4 + |count|..];
    assert tail == chars + rest;
    assert tail[..|chars|] == chars && tail[|chars|..] == rest;
  }

  lemma SegmentRoundTrip(text: Text, width: nat, rest: BitSeq)
    requires width <= 32 && |text| < Pow2(width)
    ensures ReadSegments(SegmentBits(text, width) + rest, width) == [LowBytes(text)] + ReadSegments(rest, width)
  {
    hide NumBits, FromBits, Characters, Flatten, ReadCharacters, ReadSegments, Pow2, LowBytes;
    FromNumBits(MODE_8BIT_BYTE, 4);
    SixteenIsPow2();
    FromNumBits(|text|, width);
    CharactersRoundTrip(text);
    ReadOne(NumBits(MODE_8BIT_BYTE, 4), NumBits(|text|, width), Flatten(Characters(text)), rest);
  }

  lemma SixteenIsPow2()
    ensures Pow2(4) == 16
  {}

  /** The reader stops in front of terminator or padding. */
  lemma {:induction false} PayloadRoundTrip(list: seq<Text>, width: nat, rest: BitSeq)
    requires width <= 32 && forall i | 0 <= i < |list| :: |list[i]| < Pow2(width)
    requires |rest| < 4 || rest[..4] == Falses(4)
    ensures ReadSegments(PayloadBits(list, width) + rest, width) == AllLowBytes(list)
  {
    hide NumBits, Characters, SegmentBits, Pow2;
    if list == [] {
      assert PayloadBits(list, width) + rest == rest;
      FromFalses(4);
    } else {
      hide ReadSegments, FromBits;
      PayloadCons(list, width, rest);
      SegmentRoundTrip(list[0], width, PayloadBits(list[1..], width) + rest);
      PayloadRoundTrip(list[1..], width, rest);
      assert AllLowBytes(list) == [LowBytes(list[0])] + AllLowBytes(list[1..]);
    }
  }

  lemma PayloadCons(list: seq<Text>, width: nat, rest: BitSeq)
    requires list != []
    ensures PayloadBits(list, width) + rest == SegmentBits(list[0], width) + (PayloadBits(list[1..], width) + rest)
  {
    hide SegmentBits;
    assert Segments(list, width)[1..] == Segments(list[1..], width);
  }

  lemma {:induction false} FromFalses(n: nat)
    ensures FromBits(Falses(n)) == 0
  {
    if n > 0 {
      assert Falses(n)[..n - 1] == Falses(n - 1);
      FromFalses(n - 1);
    }
  }

  /** Reading a padded data area gives back the low bytes of the strings when
      their lengths fit the count field, and so the strings themselves if and
      only if every character fits a byte. */
  lemma DataRoundTrip(list: seq<Text>, width: nat, bits: BitSeq, capacity: nat)
    requires width <= 32 && forall i | 0 <= i < |list| :: |list[i]| < Pow2(width)
    requires Padded(PayloadBits(list, width), bits, capacity)
    ensures ReadSegments(bits, width) == AllLowBytes(list)
    ensures ReadSegments(bits, width) == list <==> ByteCodes(list)
  {
    LowBytesAreAll(list);
    hide PayloadBits, ReadSegments, ByteCodes, AllLowBytes;
    var payload := PayloadBits(list, width);
    var rest := bits[|payload|..];
    assert bits == payload + rest;
    if |payload| + 4 <= capacity {
      var zeros := bits[|payload|..PaddingStart(|payload|, capacity)];
      assert rest[..4] == zeros[..4];
    }
    PayloadRoundTrip(list, width, rest);
  }
}
