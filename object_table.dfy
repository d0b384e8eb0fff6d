/** A tiny Option type for results that may be absent. */
module Options {
  datatype Option<T> = None | Some(value: T)
}

/** The object table of a pool buffer (itemizePool) and its inverse, the
    serialisation of a table into one buffer in ascending-ID order. The size
    decoder of the ISO library (IsoPoolObjSize) is a parameter; the object
    count of a buffer (IsoGetNumofPoolObjs) is defined by the same walk. */
module ObjectTable {
  import opened Options
  import opened PoolRecords

  /** The library's record-size decoder, applied to the bytes starting at a record. */
  type SizeDecoder = seq<u8> -> nat

  /** The bytes of a sequence of records, one after the other. */
  function Concat(recs: seq<Record>): (data: seq<u8>)
  {
    if recs == [] then [] else recs[0] + Concat(recs[1..])
  }

  lemma {:induction false} ConcatSnoc(recs: seq<Record>, r: Record)
    ensures Concat(recs + [r]) == Concat(recs) + r
  {
    if recs == [] {
      assert recs + [r] == [r];
      assert [r][1..] == [];
    } else {
      assert (recs + [r])[1..] == recs[1..] + [r];
      ConcatSnoc(recs[1..], r);
    }
  }

  /** Splits a pool buffer into its records, from offset 0, using the decoder for each
      record's size; None when the walk does not consume the buffer exactly (a record
      of fewer than 3 bytes, or one that runs past the end). */
  function Walk(data: seq<u8>, objSize: SizeDecoder): (recs: Option<seq<Record>>)
    ensures recs.Some? ==> forall i :: 0 <= i < |recs.value| ==> |recs.value[i]| >= 3
    decreases |data|
  {
    if |data| == 0 then Some([])
    else if |data| < 3 then None
    else
      var n := objSize(data);
      if n < 3 || n > |data| then None
      else match Walk(data[n..], objSize)
        case None => None
        case Some(rest) => Some([data[..n]] + rest)
  }

  /** The records of a walk are the buffer cut into pieces: nothing is skipped,
      nothing is duplicated. */
  lemma {:induction false} WalkCovers(data: seq<u8>, objSize: SizeDecoder)
    requires Walk(data, objSize).Some?
    ensures Concat(Walk(data, objSize).value) == data
    decreases |data|
  {
    if |data| > 0 {
      var n := objSize(data);
      var rest := Walk(data[n..], objSize).value;
      WalkCovers(data[n..], objSize);
      assert ([data[..n]] + rest)[1..] == rest;
      assert data == data[..n] + data[n..];
    }
  }

  /** IsoGetNumofPoolObjs: the number of records of a buffer as a 16-bit value,
      0 when the buffer is not an exact sequence of records. */
  function NumObjects(data: seq<u8>, objSize: SizeDecoder): (n: u16)
    ensures n != 0 ==> Walk(data, objSize).Some? && Walk(data, objSize).value != []
    ensures |data| == 0 ==> n == 0
    ensures Walk(data, objSize).Some? && |Walk(data, objSize).value| < 0x1_0000 ==>
              n as int == |Walk(data, objSize).value|
  {
    match Walk(data, objSize)
    case Some(recs) => |recs| % 0x1_0000
    case None => 0
  }

  /** Every key of the table is the ID in the first two bytes of its record. */
  ghost predicate IdsMatchKeys(m: map<u16, Record>)
  {
    forall k :: k in m ==> |m[k]| >= 2 && Id(m[k]) == k
  }

  /** No two records carry the same ID. */
  ghost predicate DistinctIds(recs: seq<Record>)
    requires forall i :: 0 <= i < |recs| ==> |recs[i]| >= 2
  {
    forall i, j :: 0 <= i < j < |recs| ==> Id(recs[i]) != Id(recs[j])
  }

  /** The table keyed by record ID, filled in order, so a later record with an ID
      already present replaces the earlier one. */
  function TableOf(recs: seq<Record>): (t: map<u16, Record>)
    requires forall i :: 0 <= i < |recs| ==> |recs[i]| >= 2
    ensures IdsMatchKeys(t)
  {
    if recs == [] then map[]
    else
      var last := recs[|recs| - 1];
      TableOf(recs[..|recs| - 1])[Id(last) := last]
  }

  /** Every record's ID is a key of the table, and every entry is an exact copy of
      one of the records. */
  lemma {:induction false} TableOfEntries(recs: seq<Record>)
    requires forall i :: 0 <= i < |recs| ==> |recs[i]| >= 2
    ensures forall i :: 0 <= i < |recs| ==> Id(recs[i]) in TableOf(recs)
    ensures forall k :: k in TableOf(recs) ==> exists i :: 0 <= i < |recs| && TableOf(recs)[k] == recs[i]
  {
    if recs != [] {
      var init := recs[..|recs| - 1];
      assert forall i :: 0 <= i < |init| ==> init[i] == recs[i];
      TableOfEntries(init);
    }
  }

  /** A record that no later record shares its ID with is the entry for that ID:
      a later duplicate overwrites an earlier one. */
  lemma {:induction false} TableOfLastWins(recs: seq<Record>, i: nat)
    requires forall j :: 0 <= j < |recs| ==> |recs[j]| >= 2
    requires i < |recs|
    requires forall j :: i < j < |recs| ==> Id(recs[j]) != Id(recs[i])
    ensures Id(recs[i]) in TableOf(recs) && TableOf(recs)[Id(recs[i])] == recs[i]
  {
    if i < |recs| - 1 {
      var init := recs[..|recs| - 1];
      assert forall j :: 0 <= j < |init| ==> init[j] == recs[j];
      TableOfLastWins(init, i);
    }
  }

  /** The table has one entry per record exactly when no ID repeats. */
  lemma {:induction false} TableOfSize(recs: seq<Record>)
    requires forall i :: 0 <= i < |recs| ==> |recs[i]| >= 2
    ensures |TableOf(recs)| <= |recs|
    ensures DistinctIds(recs) ==> |TableOf(recs)| == |recs|
  {
    if recs != [] {
      var init := recs[..|recs| - 1];
      var last := recs[|recs| - 1];
      assert forall i :: 0 <= i < |init| ==> init[i] == recs[i];
      TableOfSize(init);
      if DistinctIds(recs) {
        assert DistinctIds(init);
        TableOfEntries(init);
        assert Id(last) !in TableOf(init);
      }
    }
  }

  /** The table itemizePool builds from a pool buffer. */
  function Table(data: seq<u8>, objSize: SizeDecoder): (t: map<u16, Record>)
    ensures IdsMatchKeys(t)
  {
    match Walk(data, objSize)
    case Some(recs) => TableOf(recs)
    case None => map[]
  }

  /** A mutable object table (std::map<uint16_t, std::vector<uint8_t>>). */
  class ObjectMap {
    var items: map<u16, Record>

    constructor ()
      ensures items == map[]
    {
      items := map[];
    }
  }

  /** One step of the walk at offset at: the record there has the decoded size and is
      the next record of the walk, and the walk goes on right after it. */
  lemma WalkAdvance(data: seq<u8>, objSize: SizeDecoder, at: nat, recs: seq<Record>, j: nat)
    requires at < |data| && j <= |recs|
    requires Walk(data[at..], objSize) == Some(recs[j..])
    ensures j < |recs| && 3 <= objSize(data[at..]) <= |data| - at
    ensures recs[j] == data[at..][..objSize(data[at..])]
    ensures Walk(data[at + objSize(data[at..])..], objSize) == Some(recs[j + 1..])
  {
    var d := data[at..];
    var n := objSize(d);
    assert |d| > 0;
    assert Walk(d, objSize) == Some([d[..n]] + Walk(d[n..], objSize).value);
    assert |recs[j..]| > 0;
    assert d[n..] == data[at + n..];
    assert recs[j..][1..] == recs[j + 1..];
  }

  /** Filing one more record on top of a prefix's table. */
  lemma TableOfPrefix(recs: seq<Record>, j: nat)
    requires forall i :: 0 <= i < |recs| ==> |recs[i]| >= 2
    requires j < |recs|
    ensures TableOf(recs[..j + 1]) == TableOf(recs[..j])[Id(recs[j]) := recs[j]]
  {
    assert recs[..j + 1][..j] == recs[..j];
  }

  /** itemizePool: clears the table, then walks the buffer and files every record
      under the ID in its first two bytes. */
  method Itemize(data: seq<u8>, objSize: SizeDecoder, poolItems: ObjectMap)
    requires Walk(data, objSize).Some?
    modifies poolItems
    ensures poolItems.items == Table(data, objSize)
  {
    ghost var recs := Walk(data, objSize).value;
    assert forall i :: 0 <= i < |recs| ==> |recs[i]| >= 3;
    poolItems.items := map[];
    var srcIdx := 0;
    ghost var j := 0;
    assert data[0..] == data;
    while srcIdx < |data|
      invariant 0 <= srcIdx <= |data| && 0 <= j <= |recs|
      invariant forall i :: 0 <= i < |recs| ==> |recs[i]| >= 3
      invariant Walk(data[srcIdx..], objSize) == Some(recs[j..])
      invariant poolItems.items == TableOf(recs[..j])
      decreases |data| - srcIdx
    {
      var objectPoolData := data[srcIdx..];
      WalkAdvance(data, objSize, srcIdx, recs, j);
      var objectSize := objSize(objectPoolData);
      var poolItem := objectPoolData[..objectSize];
      var objectId := GetU16(poolItem, 0);
      TableOfPrefix(recs, j);
      poolItems.items := poolItems.items[objectId := poolItem];
      srcIdx := srcIdx + objectSize;
      j := j + 1;
    }
    assert recs[j..] == [] && recs[..j] == recs;
  }

  /** The records of m with a key below k, in ascending key order. */
  function RecordsBelow(m: map<u16, Record>, k: nat): (recs: seq<Record>)
    requires k <= 0x1_0000
    decreases k
  {
    if k == 0 then []
    else RecordsBelow(m, k - 1) + (if k - 1 in m then [m[k - 1]] else [])
  }

  /** The records of m in ascending key order. */
  function Records(m: map<u16, Record>): (recs: seq<Record>)
    ensures |recs| == |m|
  {
    RecordsBelowLength(m, 0x1_0000);
    assert KeysBelow(m, 0x1_0000) == m.Keys;
    RecordsBelow(m, 0x1_0000)
  }

  /** The buffer a table is written to: its records in ascending ID order. */
  function Serialise(m: map<u16, Record>): seq<u8>
  {
    Concat(Records(m))
  }

  function KeysBelow(m: map<u16, Record>, k: nat): set<u16>
  {
    set j | j in m && j < k
  }

  /** There is one record below k per key below k. */
  lemma {:induction false} RecordsBelowLength(m: map<u16, Record>, k: nat)
    requires k <= 0x1_0000
    ensures |RecordsBelow(m, k)| == |KeysBelow(m, k)|
    decreases k
  {
    if k == 0 {
      assert KeysBelow(m, k) == {};
    } else {
      RecordsBelowLength(m, k - 1);
      if k - 1 in m {
        assert KeysBelow(m, k) == KeysBelow(m, k - 1) + {k - 1};
      } else {
        assert KeysBelow(m, k) == KeysBelow(m, k - 1);
      }
    }
  }

  /** Every record below k is the table's entry for its own ID, which is below k. */
  lemma {:induction false} RecordsBelowEntries(m: map<u16, Record>, k: nat)
    requires k <= 0x1_0000
    requires IdsMatchKeys(m)
    ensures forall i :: 0 <= i < |RecordsBelow(m, k)| ==>
              |RecordsBelow(m, k)[i]| >= 2 && Id(RecordsBelow(m, k)[i]) < k &&
              Id(RecordsBelow(m, k)[i]) in m && m[Id(RecordsBelow(m, k)[i])] == RecordsBelow(m, k)[i]
    decreases k
  {
    if k > 0 {
      RecordsBelowEntries(m, k - 1);
      var prev := RecordsBelow(m, k - 1);
      assert forall i :: 0 <= i < |prev| ==> RecordsBelow(m, k)[i] == prev[i];
    }
  }

  /** The records below k stand in strictly ascending ID order. */
  lemma {:induction false} RecordsBelowAscending(m: map<u16, Record>, k: nat)
    requires k <= 0x1_0000
    requires IdsMatchKeys(m)
    ensures forall i :: 0 <= i < |RecordsBelow(m, k)| ==> |RecordsBelow(m, k)[i]| >= 2
    ensures forall i, j :: 0 <= i < j < |RecordsBelow(m, k)| ==>
              Id(RecordsBelow(m, k)[i]) < Id(RecordsBelow(m, k)[j])
    decreases k
  {
    RecordsBelowEntries(m, k);
    if k > 0 {
      RecordsBelowAscending(m, k - 1);
      RecordsBelowEntries(m, k - 1);
      var prev := RecordsBelow(m, k - 1);
      assert forall i :: 0 <= i < |prev| ==> RecordsBelow(m, k)[i] == prev[i];
    }
  }

  /** The entries of m with a key below k. */
  function Below(m: map<u16, Record>, k: nat): (r: map<u16, Record>)
    ensures r.Keys <= m.Keys && forall j :: j in r ==> r[j] == m[j]
    ensures k == 0 ==> r == map[]
    ensures k >= 0x1_0000 ==> r == m
  {
    map j | j in m && j < k :: m[j]
  }

  lemma BelowStep(m: map<u16, Record>, k: nat)
    requires 0 < k
    ensures Below(m, k) == if k - 1 in m then Below(m, k - 1)[k - 1 := m[k - 1]] else Below(m, k - 1)
  {
  }

  lemma TableOfSnoc(prev: seq<Record>, r: Record)
    requires forall i :: 0 <= i < |prev| ==> |prev[i]| >= 2
    requires |r| >= 2
    ensures TableOf(prev + [r]) == TableOf(prev)[Id(r) := r]
  {
    assert (prev + [r])[..|prev|] == prev;
  }

  /** Filing the records below k by ID gives back the table restricted to keys below k. */
  lemma {:induction false} RecordsBelowTable(m: map<u16, Record>, k: nat)
    requires k <= 0x1_0000
    requires IdsMatchKeys(m)
    ensures forall i :: 0 <= i < |RecordsBelow(m, k)| ==> |RecordsBelow(m, k)[i]| >= 2
    ensures TableOf(RecordsBelow(m, k)) == Below(m, k)
    decreases k
  {
    RecordsBelowEntries(m, k);
    if k == 0 {
      assert Below(m, k) == map[];
    } else {
      RecordsBelowTable(m, k - 1);
      BelowStep(m, k);
      if k - 1 in m {
        assert RecordsBelow(m, k) == RecordsBelow(m, k - 1) + [m[k - 1]];
        assert Id(m[k - 1]) == k - 1;
        TableOfSnoc(RecordsBelow(m, k - 1), m[k - 1]);
      } else {
        assert RecordsBelow(m, k) == RecordsBelow(m, k - 1);
      }
    }
  }

  /** Each record of the table decodes, wherever it stands, to its own length. */
  ghost predicate SelfDelimiting(m: map<u16, Record>, objSize: SizeDecoder)
  {
    forall k, t :: k in m ==> objSize(m[k] + t) == |m[k]|
  }

  lemma {:induction false} WalkOfConcat(recs: seq<Record>, objSize: SizeDecoder)
    requires forall i :: 0 <= i < |recs| ==> |recs[i]| >= 3
    requires forall i, t :: 0 <= i < |recs| ==> objSize(recs[i] + t) == |recs[i]|
    ensures Walk(Concat(recs), objSize) == Some(recs)
  {
    if recs != [] {
      var data := Concat(recs);
      var r := recs[0];
      assert data == r + Concat(recs[1..]);
      assert objSize(r + Concat(recs[1..])) == |r|;
      assert data[..|r|] == r && data[|r|..] == Concat(recs[1..]);
      assert forall i :: 0 <= i < |recs[1..]| ==> recs[1..][i] == recs[i + 1];
      WalkOfConcat(recs[1..], objSize);
      assert [r] + recs[1..] == recs;
    }
  }

  /** Round trip of the pool assembler: a table whose records are keyed by their IDs
      and decode to their own lengths serialises to a buffer that walks back into
      exactly its records in ascending ID order, itemizes back into the same table,
      and counts as many objects as the table has entries. */
  lemma SerialiseRoundTrip(m: map<u16, Record>, objSize: SizeDecoder)
    requires IdsMatchKeys(m)
    requires forall k :: k in m ==> |m[k]| >= 3
    requires SelfDelimiting(m, objSize)
    ensures Walk(Serialise(m), objSize) == Some(Records(m))
    ensures Table(Serialise(m), objSize) == m
    ensures NumObjects(Serialise(m), objSize) == |m| % 0x1_0000
  {
    RecordsBelowEntries(m, 0x1_0000);
    RecordsBelowTable(m, 0x1_0000);
    RecordsBelowLength(m, 0x1_0000);
    var recs := Records(m);
    forall i, t | 0 <= i < |recs|
      ensures |recs[i]| >= 3 && objSize(recs[i] + t) == |recs[i]|
    {
      assert m[Id(recs[i])] == recs[i];
    }
    WalkOfConcat(recs, objSize);
    assert Below(m, 0x1_0000) == m;
    assert KeysBelow(m, 0x1_0000) == m.Keys;
  }

  /** Serialisation writes the records in strictly ascending ID order. */
  lemma RecordsAscending(m: map<u16, Record>)
    requires IdsMatchKeys(m)
    ensures |Records(m)| == |m|
    ensures forall i :: 0 <= i < |Records(m)| ==>
              |Records(m)[i]| >= 2 && Id(Records(m)[i]) in m && m[Id(Records(m)[i])] == Records(m)[i]
    ensures forall i, j :: 0 <= i < j < |Records(m)| ==> Id(Records(m)[i]) < Id(Records(m)[j])
  {
    RecordsBelowEntries(m, 0x1_0000);
    RecordsBelowAscending(m, 0x1_0000);
    RecordsBelowLength(m, 0x1_0000);
    assert KeysBelow(m, 0x1_0000) == m.Keys;
  }

  /** The bytes written for the keys below k never exceed those written for all keys. */
  lemma {:induction false} RecordsBelowSizeGrows(m: map<u16, Record>, k: nat)
    requires k <= 0x1_0000
    ensures |Concat(RecordsBelow(m, k))| <= |Serialise(m)|
    decreases 0x1_0000 - k
  {
    if k < 0x1_0000 {
      RecordsBelowSizeGrows(m, k + 1);
      if k in m {
        ConcatSnoc(RecordsBelow(m, k), m[k]);
      } else {
        assert RecordsBelow(m, k + 1) == RecordsBelow(m, k);
      }
    }
  }

  /** The size loop of preparePool: the sum of the record sizes of a table is the
      length of the buffer it is written to. */
  method PoolSize(m: map<u16, Record>) returns (size: nat)
    ensures size == |Serialise(m)|
  {
    size := 0;
    var k := 0;
    while k < 0x1_0000
      invariant 0 <= k <= 0x1_0000
      invariant size == |Concat(RecordsBelow(m, k))|
    {
      if k in m {
        ConcatSnoc(RecordsBelow(m, k), m[k]);
        size := size + |m[k]|;
      } else {
        assert RecordsBelow(m, k + 1) == RecordsBelow(m, k);
      }
      k := k + 1;
    }
  }

  /** memcpy: the bytes are written at the offset, after the bytes already there,
      and every byte past the copy is left as it was. */
  method CopyInto(buffer: array<u8>, at: nat, bytes: seq<u8>)
    requires at + |bytes| <= buffer.Length
    modifies buffer
    ensures buffer[..at + |bytes|] == old(buffer[..at]) + bytes
    ensures buffer[at + |bytes|..] == old(buffer[at + |bytes|..])
  {
    forall i | 0 <= i < |bytes| {
      buffer[at + i] := bytes[i];
    }
  }

  /** The copy loop of preparePool: a buffer of the computed size is filled with every
      record of the table, in ascending ID order, at a running offset. */
  method SerialisePool(m: map<u16, Record>, poolSize: nat) returns (pool: seq<u8>)
    requires poolSize == |Serialise(m)|
    ensures pool == Serialise(m)
  {
    var buffer := new u8[poolSize];
    var poolIdx := 0;
    var k := 0;
    while k < 0x1_0000
      invariant 0 <= k <= 0x1_0000
      invariant poolIdx == |Concat(RecordsBelow(m, k))| <= poolSize
      invariant buffer[..poolIdx] == Concat(RecordsBelow(m, k))
    {
      if k in m {
        var poolItem := m[k];
        ConcatSnoc(RecordsBelow(m, k), poolItem);
        RecordsBelowSizeGrows(m, k + 1);
        CopyInto(buffer, poolIdx, poolItem);
        poolIdx := poolIdx + |poolItem|;
      } else {
        assert RecordsBelow(m, k + 1) == RecordsBelow(m, k);
      }
      k := k + 1;
    }
    assert buffer[..] == buffer[..poolIdx];
    pool := buffer[..];
  }
}
