/** Records of a binary ISO 11783-6 object pool: bytes, 16-bit object IDs,
    the type byte, and for each object type the child references the
    partitioner follows (ISO 11783-6 Annex B record layouts, Annex J.4.3
    for Auxiliary Function Type 2). */
module PoolRecords {

  type u8 = x: int | 0 <= x < 0x100
  type u16 = x: int | 0 <= x < 0x1_0000

  /** One encoded object record: ID (2 bytes, little-endian), type (1 byte), attributes. */
  type Record = seq<u8>

  // Object type tags, read from byte 2 of a record.
  const WORKING_SET: u8 := 0
  const DATA_MASK: u8 := 1
  const CONTAINER: u8 := 3
  const OUTPUT_STRING_FIELD: u8 := 11
  const OUTPUT_NUMBER_FIELD: u8 := 12
  const OUTPUT_RECTANGLE: u8 := 14
  const PICTURE_GRAPHIC: u8 := 20
  const FONT_ATTRIBUTES: u8 := 23
  const LINE_ATTRIBUTES: u8 := 24
  const FILL_ATTRIBUTES: u8 := 25
  const OBJECT_POINTER: u8 := 27
  const MACRO: u8 := 28
  const AUXILIARY_FUNCTION_2: u8 := 31

  /** The 16-bit value stored little-endian at offset i. */
  function GetU16(data: seq<u8>, i: nat): (v: u16)
    requires i + 2 <= |data|
  {
    data[i] as int + 256 * data[i + 1] as int
  }

  /** The two bytes, low byte first, that encode v. */
  function U16Bytes(v: u16): (b: seq<u8>)
    ensures |b| == 2
  {
    [v % 256, v / 256]
  }

  /** GetU16 decodes exactly what U16Bytes encodes ... */
  lemma GetU16OfU16Bytes(v: u16, rest: seq<u8>)
    ensures GetU16(U16Bytes(v) + rest, 0) == v
  {
  }

  /** ... and every pair of bytes is the encoding of the value GetU16 reads. */
  lemma U16BytesOfGetU16(data: seq<u8>, i: nat)
    requires i + 2 <= |data|
    ensures U16Bytes(GetU16(data, i)) == data[i..i + 2]
  {
    var v := GetU16(data, i);
    assert v % 256 == data[i] && v / 256 == data[i + 1];
  }

  function Id(r: Record): u16
    requires |r| >= 2
  {
    GetU16(r, 0)
  }

  function TypeOf(r: Record): u8
    requires |r| >= 3
  {
    r[2]
  }

  predicate IsAux2(r: Record)
  {
    |r| >= 3 && r[2] == AUXILIARY_FUNCTION_2
  }

  predicate IsWorkingSet(r: Record)
  {
    |r| >= 3 && r[2] == WORKING_SET
  }

  /** An object list of `count` 6-byte entries at `offset` can be read (ID = first 2 bytes of an entry). */
  predicate ObjectListFits(r: Record, count: nat, offset: nat)
  {
    count == 0 || offset + 6 * (count - 1) + 2 <= |r|
  }

  /** A macro list of `count` 2-byte entries at `offset` can be read (ID = second byte of an entry). */
  predicate MacroListFits(r: Record, count: nat, offset: nat)
  {
    count == 0 || offset + 2 * count <= |r|
  }

  /** The record is long enough for every byte the partitioner reads from it. */
  predicate WellFormed(r: Record)
  {
    |r| >= 3 &&
    var t := r[2];
    if t == WORKING_SET then
      |r| >= 9 && ObjectListFits(r, r[7], 10) && MacroListFits(r, r[8], 10 + 6 * (r[7] as int))
    else if t == DATA_MASK then
      |r| >= 8 && ObjectListFits(r, r[6], 8) && MacroListFits(r, r[7], 8 + 6 * (r[6] as int))
    else if t == CONTAINER then
      |r| >= 10 && ObjectListFits(r, r[8], 10) && MacroListFits(r, r[9], 10 + 6 * (r[8] as int))
    else if t == OUTPUT_STRING_FIELD then
      |r| >= 10
    else if t == OUTPUT_NUMBER_FIELD then
      |r| >= 29 && MacroListFits(r, r[28], 29)
    else if t == OUTPUT_RECTANGLE then
      |r| >= 13 && MacroListFits(r, r[12], 13)
    else if t == LINE_ATTRIBUTES || t == FILL_ATTRIBUTES then
      |r| >= 8 && MacroListFits(r, r[7], 8)
    else if t == OBJECT_POINTER then
      |r| >= 5
    else if t == AUXILIARY_FUNCTION_2 then
      |r| >= 6 && ObjectListFits(r, r[5], 6)
    else
      true
  }

  /** The IDs of an object list: entry i starts at offset + 6 * i. */
  function ObjectListIds(r: Record, count: nat, offset: nat): (ids: seq<u16>)
    requires ObjectListFits(r, count, offset)
    ensures |ids| == count
    decreases count
  {
    if count == 0 then []
    else ObjectListIds(r, count - 1, offset) + [GetU16(r, offset + 6 * (count - 1))]
  }

  /** Entry i of an object list is the 16-bit value at offset + 6 * i. */
  lemma {:induction false} ObjectListEntry(r: Record, count: nat, offset: nat, i: nat)
    requires ObjectListFits(r, count, offset) && i < count
    ensures ObjectListIds(r, count, offset)[i] == GetU16(r, offset + 6 * i)
    decreases count
  {
    if i < count - 1 {
      ObjectListEntry(r, count - 1, offset, i);
    }
  }

  /** The IDs of a macro list: a one-byte ID at offset + 2 * i + 1. */
  function MacroListIds(r: Record, count: nat, offset: nat): (ids: seq<u16>)
    requires MacroListFits(r, count, offset)
    ensures |ids| == count
    decreases count
  {
    if count == 0 then []
    else MacroListIds(r, count - 1, offset) + [r[offset + 2 * (count - 1) + 1] as u16]
  }

  /** Entry i of a macro list is the byte at offset + 2 * i + 1. */
  lemma {:induction false} MacroListEntry(r: Record, count: nat, offset: nat, i: nat)
    requires MacroListFits(r, count, offset) && i < count
    ensures MacroListIds(r, count, offset)[i] == r[offset + 2 * i + 1]
    decreases count
  {
    if i < count - 1 {
      MacroListEntry(r, count - 1, offset, i);
    }
  }

  /** The child references a full (recursive) move follows, in the order it follows them.
      Types without an entry here (Picture Graphic, Font Attributes, Macro and every
      other or unknown type) move without children. */
  function Children(r: Record): (cs: seq<u16>)
    requires WellFormed(r)
  {
    var t := r[2];
    if t == WORKING_SET then
      [GetU16(r, 5)] + ObjectListIds(r, r[7], 10) + MacroListIds(r, r[8], 10 + 6 * (r[7] as int))
    else if t == DATA_MASK then
      [GetU16(r, 4)] + ObjectListIds(r, r[6], 8) + MacroListIds(r, r[7], 8 + 6 * (r[6] as int))
    else if t == CONTAINER then
      ObjectListIds(r, r[8], 10) + MacroListIds(r, r[9], 10 + 6 * (r[8] as int))
    else if t == OUTPUT_STRING_FIELD then
      [GetU16(r, 8)]
    else if t == OUTPUT_NUMBER_FIELD then
      [GetU16(r, 8)] + [GetU16(r, 11)] + MacroListIds(r, r[28], 29)
    else if t == OUTPUT_RECTANGLE then
      [GetU16(r, 3)] + [GetU16(r, 10)] + MacroListIds(r, r[12], 13)
    else if t == LINE_ATTRIBUTES || t == FILL_ATTRIBUTES then
      MacroListIds(r, r[7], 8)
    else if t == OBJECT_POINTER then
      [GetU16(r, 3)]
    else if t == AUXILIARY_FUNCTION_2 then
      ObjectListIds(r, r[5], 6)
    else
      []
  }

  /** The record layouts of the types whose children the mover follows. */
  lemma WorkingSetLayout(r: Record)
    requires WellFormed(r) && r[2] == WORKING_SET
    ensures |r| >= 9
  {
  }

  /** The children of a Working Set, in the terms the mover reads them in. */
  lemma WorkingSetChildren(r: Record, activeMask: u16, objectCount: nat, objectOffset: nat, macroCount: nat, macroOffset: nat)
    requires WellFormed(r) && r[2] == WORKING_SET
    requires activeMask == GetU16(r, 5) && objectCount == r[7] && objectOffset == 10
    requires macroCount == r[8] && macroOffset == objectOffset + 6 * objectCount
    ensures ObjectListFits(r, objectCount, objectOffset) && MacroListFits(r, macroCount, macroOffset)
    ensures Children(r) == [activeMask] + ObjectListIds(r, objectCount, objectOffset) + MacroListIds(r, macroCount, macroOffset)
  {
  }

  lemma DataMaskLayout(r: Record)
    requires WellFormed(r) && r[2] == DATA_MASK
    ensures |r| >= 8
  {
  }

  /** The children of a Data Mask, in the terms the mover reads them in. */
  lemma DataMaskChildren(r: Record, softKeyMask: u16, objectCount: nat, objectOffset: nat, macroCount: nat, macroOffset: nat)
    requires WellFormed(r) && r[2] == DATA_MASK
    requires softKeyMask == GetU16(r, 4) && objectCount == r[6] && objectOffset == 8
    requires macroCount == r[7] && macroOffset == objectOffset + 6 * objectCount
    ensures ObjectListFits(r, objectCount, objectOffset) && MacroListFits(r, macroCount, macroOffset)
    ensures Children(r) == [softKeyMask] + ObjectListIds(r, objectCount, objectOffset) + MacroListIds(r, macroCount, macroOffset)
  {
  }

  lemma ContainerLayout(r: Record)
    requires WellFormed(r) && r[2] == CONTAINER
    ensures |r| >= 10
  {
  }

  /** The children of a Container, in the terms the mover reads them in. */
  lemma ContainerChildren(r: Record, objectCount: nat, objectOffset: nat, macroCount: nat, macroOffset: nat)
    requires WellFormed(r) && r[2] == CONTAINER
    requires objectCount == r[8] && objectOffset == 10
    requires macroCount == r[9] && macroOffset == objectOffset + 6 * objectCount
    ensures ObjectListFits(r, objectCount, objectOffset) && MacroListFits(r, macroCount, macroOffset)
    ensures Children(r) == ObjectListIds(r, objectCount, objectOffset) + MacroListIds(r, macroCount, macroOffset)
  {
  }

  lemma OutputStringLayout(r: Record)
    requires WellFormed(r) && r[2] == OUTPUT_STRING_FIELD
    ensures |r| >= 10 && Children(r) == [GetU16(r, 8)]
  {
  }

  lemma OutputNumberLayout(r: Record)
    requires WellFormed(r) && r[2] == OUTPUT_NUMBER_FIELD
    ensures |r| >= 29 && MacroListFits(r, r[28], 29)
    ensures Children(r) == [GetU16(r, 8)] + [GetU16(r, 11)] + MacroListIds(r, r[28], 29)
  {
  }

  lemma OutputRectangleLayout(r: Record)
    requires WellFormed(r) && r[2] == OUTPUT_RECTANGLE
    ensures |r| >= 13 && MacroListFits(r, r[12], 13)
    ensures Children(r) == [GetU16(r, 3)] + [GetU16(r, 10)] + MacroListIds(r, r[12], 13)
  {
  }

  lemma AttributesLayout(r: Record)
    requires WellFormed(r) && (r[2] == LINE_ATTRIBUTES || r[2] == FILL_ATTRIBUTES)
    ensures |r| >= 8 && MacroListFits(r, r[7], 8)
    ensures Children(r) == MacroListIds(r, r[7], 8)
  {
  }

  lemma ObjectPointerLayout(r: Record)
    requires WellFormed(r) && r[2] == OBJECT_POINTER
    ensures |r| >= 5 && Children(r) == [GetU16(r, 3)]
  {
  }

  lemma AuxiliaryFunction2Layout(r: Record)
    requires WellFormed(r) && r[2] == AUXILIARY_FUNCTION_2
    ensures |r| >= 6 && ObjectListFits(r, r[5], 6)
    ensures Children(r) == ObjectListIds(r, r[5], 6)
  {
  }

  /** Types the dispatcher moves alone: no child is followed. */
  lemma LeafTypesHaveNoChildren(r: Record)
    requires WellFormed(r)
    requires r[2] in {PICTURE_GRAPHIC, FONT_ATTRIBUTES, MACRO} ||
             r[2] !in {WORKING_SET, DATA_MASK, CONTAINER, OUTPUT_STRING_FIELD, OUTPUT_NUMBER_FIELD,
                       OUTPUT_RECTANGLE, LINE_ATTRIBUTES, FILL_ATTRIBUTES, OBJECT_POINTER,
                       AUXILIARY_FUNCTION_2}
    ensures Children(r) == []
  {
  }

  /** The 6-byte stand-in of an Auxiliary Function Type 2 object kept in the base pool:
      the record resized to 6 bytes (zero-padded if shorter) with its object count zeroed. */
  function Stub(r: Record): (s: Record)
    ensures |s| == 6 && s[5] == 0
    ensures forall i :: 0 <= i < 5 && i < |r| ==> s[i] == r[i]
    ensures forall i :: |r| <= i < 5 ==> s[i] == 0
  {
    var resized := if |r| >= 6 then r[..6] else r + seq(6 - |r|, _ => 0);
    resized[5 := 0]
  }

  /** A stub keeps ID and type, is well formed, and references nothing. */
  lemma StubHasNoChildren(r: Record)
    requires IsAux2(r)
    ensures IsAux2(Stub(r)) && WellFormed(Stub(r))
    ensures Id(Stub(r)) == Id(r)
    ensures Children(Stub(r)) == []
  {
  }
}
