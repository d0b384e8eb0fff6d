/** The recursive object mover of the pool partitioner (moveObject and its
    per-type helpers): an object leaves the source table for the destination
    table together with every object it references that is still in the source. */
module Partitioner {
  import opened PoolRecords
  import opened ObjectTable

  /** Every record of the table is long enough for the bytes the mover reads. */
  ghost predicate AllWellFormed(m: map<u16, Record>)
  {
    forall k :: k in m ==> WellFormed(m[k])
  }

  /** The object with this ID, if present, has the given type byte. */
  ghost predicate HasType(m: map<u16, Record>, id: u16, t: u8)
  {
    id in m ==> |m[id]| >= 3 && m[id][2] == t
  }

  /** Entries only leave the source, unchanged, and arrive in the destination,
      where they replace any earlier entry with the same ID; nothing else changes. */
  ghost predicate Transfer(d0: map<u16, Record>, s0: map<u16, Record>, d1: map<u16, Record>, s1: map<u16, Record>)
  {
    (forall k :: k in s1 ==> k in s0 && s1[k] == s0[k]) &&
    (forall k :: k in d1 <==> k in d0 || (k in s0 && k !in s1)) &&
    (forall k :: k in d1 ==> d1[k] == if k in s0 && k !in s1 then s0[k] else d0[k])
  }

  /** No child of an object that left the source is left behind in it. */
  ghost predicate Closed(s0: map<u16, Record>, s1: map<u16, Record>)
  {
    forall k :: k in s0 && k !in s1 && WellFormed(s0[k]) ==>
      forall c :: c in Children(s0[k]) ==> c !in s1
  }

  /** Every object that left the source is one of the roots or a child of another
      object that left it with a smaller rank. */
  ghost predicate RankedBy(s0: map<u16, Record>, s1: map<u16, Record>, roots: seq<u16>, rank: u16 -> nat)
  {
    forall k :: k in s0 && k !in s1 ==>
      k in roots ||
      exists p :: p in s0 && p !in s1 && WellFormed(s0[p]) && k in Children(s0[p]) && rank(p) < rank(k)
  }

  /** Every object that left the source is reached from the roots through objects that
      left it: a ranking exists, so no group of objects vouches for itself in a cycle. */
  ghost predicate Justified(s0: map<u16, Record>, s1: map<u16, Record>, roots: seq<u16>)
  {
    exists rank: u16 -> nat :: RankedBy(s0, s1, roots, rank)
  }

  /** None of the roots is left in the source. */
  ghost predicate Gone(roots: seq<u16>, s: map<u16, Record>)
  {
    forall i :: 0 <= i < |roots| ==> roots[i] !in s
  }

  /** The effect of moving the objects `roots` recursively from s0 into d0. */
  ghost predicate Moved(d0: map<u16, Record>, s0: map<u16, Record>, d1: map<u16, Record>, s1: map<u16, Record>, roots: seq<u16>)
  {
    Transfer(d0, s0, d1, s1) && Closed(s0, s1) && Justified(s0, s1, roots) && Gone(roots, s1)
  }

  /** What a recursive move conserves: the keys of both tables together, the bytes of
      every entry, the entries left in the source; every root that was in the source
      is now in the destination with its bytes, and so is every child of a moved
      object that was in the source. */
  lemma MovedConserves(d0: map<u16, Record>, s0: map<u16, Record>, d1: map<u16, Record>, s1: map<u16, Record>,
                       roots: seq<u16>)
    requires Moved(d0, s0, d1, s1, roots)
    ensures d1.Keys + s1.Keys == d0.Keys + s0.Keys
    ensures s1.Keys <= s0.Keys && forall k :: k in s1 ==> s1[k] == s0[k]
    ensures forall i :: 0 <= i < |roots| && roots[i] in s0 ==> roots[i] in d1 && d1[roots[i]] == s0[roots[i]]
    ensures forall k, c :: k in s0 && k !in s1 && WellFormed(s0[k]) && c in Children(s0[k]) && c in s0 ==>
              c in d1 && d1[c] == s0[c]
  {
  }

  /** The source only loses entries, so it stays well formed and does not grow. */
  lemma TransferShrinks(d0: map<u16, Record>, s0: map<u16, Record>, d1: map<u16, Record>, s1: map<u16, Record>)
    requires Transfer(d0, s0, d1, s1)
    requires AllWellFormed(s0)
    ensures AllWellFormed(s1)
    ensures |s1| <= |s0|
  {
    assert s1.Keys <= s0.Keys;
    SubsetCard(s1.Keys, s0.Keys);
  }

  /** A transfer that takes a present entry strictly shrinks the source. */
  lemma TransferDrops(d0: map<u16, Record>, s0: map<u16, Record>, d1: map<u16, Record>, s1: map<u16, Record>, id: u16)
    requires Transfer(d0, s0, d1, s1)
    requires id in s0 && id !in s1
    ensures |s1| < |s0|
  {
    assert s1.Keys <= s0.Keys - {id};
    SubsetCard(s1.Keys, s0.Keys - {id});
  }

  /** Entries move unchanged, so well-formed tables stay well formed on both sides. */
  lemma TransferWellFormed(d0: map<u16, Record>, s0: map<u16, Record>, d1: map<u16, Record>, s1: map<u16, Record>)
    requires Transfer(d0, s0, d1, s1)
    requires AllWellFormed(d0) && AllWellFormed(s0)
    ensures AllWellFormed(d1) && AllWellFormed(s1)
  {
  }

  /** Entries left in the source keep their keys. */
  lemma TransferKeepsIds(d0: map<u16, Record>, s0: map<u16, Record>, d1: map<u16, Record>, s1: map<u16, Record>)
    requires Transfer(d0, s0, d1, s1)
    requires IdsMatchKeys(s0)
    ensures IdsMatchKeys(s1)
  {
  }

  lemma {:induction false} SubsetCard(a: set<u16>, b: set<u16>)
    requires a <= b
    ensures |a| <= |b|
    decreases |b|
  {
    if b != {} {
      var x :| x in b;
      SubsetCard(a - {x}, b - {x});
    }
  }

  /** Erasing a present entry shrinks the table by one. */
  lemma EraseShrinks(s: map<u16, Record>, id: u16)
    requires id in s
    ensures |s - {id}| == |s| - 1
  {
    assert (s - {id}).Keys == s.Keys - {id};
  }

  /** Moving nothing: roots already absent from the source. */
  lemma MovedNothing(d: map<u16, Record>, s: map<u16, Record>, roots: seq<u16>)
    requires Gone(roots, s)
    ensures Moved(d, s, d, s, roots)
  {
    assert RankedBy(s, s, roots, (k: u16) => 0);
  }

  lemma TransferTrans(d0: map<u16, Record>, s0: map<u16, Record>, d1: map<u16, Record>, s1: map<u16, Record>,
                      d2: map<u16, Record>, s2: map<u16, Record>)
    requires Transfer(d0, s0, d1, s1) && Transfer(d1, s1, d2, s2)
    ensures Transfer(d0, s0, d2, s2)
  {
  }

  lemma ClosedTrans(s0: map<u16, Record>, s1: map<u16, Record>, s2: map<u16, Record>)
    requires forall k :: k in s1 ==> k in s0 && s1[k] == s0[k]
    requires forall k :: k in s2 ==> k in s1
    requires Closed(s0, s1) && Closed(s1, s2)
    ensures Closed(s0, s2)
  {
  }

  lemma JustifiedTrans(s0: map<u16, Record>, s1: map<u16, Record>, s2: map<u16, Record>, r1: seq<u16>, r2: seq<u16>)
    requires forall k :: k in s1 ==> k in s0 && s1[k] == s0[k]
    requires forall k :: k in s2 ==> k in s1
    requires Justified(s0, s1, r1) && Justified(s1, s2, r2)
    ensures Justified(s0, s2, r1 + r2)
  {
    var rank1: u16 -> nat :| RankedBy(s0, s1, r1, rank1);
    var rank2: u16 -> nat :| RankedBy(s1, s2, r2, rank2);
    var rank: u16 -> nat := (k: u16) => if k in s1 then rank2(k) else rank1(k);
    forall k | k in s0 && k !in s2
      ensures k in r1 + r2 ||
              exists p :: p in s0 && p !in s2 && WellFormed(s0[p]) && k in Children(s0[p]) && rank(p) < rank(k)
    {
      if k !in s1 {
        if k !in r1 {
          var p :| p in s0 && p !in s1 && WellFormed(s0[p]) && k in Children(s0[p]) && rank1(p) < rank1(k);
          assert rank(p) < rank(k);
        }
      } else if k !in r2 {
        var p :| p in s1 && p !in s2 && WellFormed(s1[p]) && k in Children(s1[p]) && rank2(p) < rank2(k);
        assert s0[p] == s1[p] && rank(p) < rank(k);
      }
    }
    assert RankedBy(s0, s2, r1 + r2, rank);
  }

  /** Two moves one after the other are one move of both root lists. */
  lemma MovedTrans(d0: map<u16, Record>, s0: map<u16, Record>, d1: map<u16, Record>, s1: map<u16, Record>,
                   d2: map<u16, Record>, s2: map<u16, Record>, r1: seq<u16>, r2: seq<u16>)
    requires Moved(d0, s0, d1, s1, r1) && Moved(d1, s1, d2, s2, r2)
    ensures Moved(d0, s0, d2, s2, r1 + r2)
  {
    TransferTrans(d0, s0, d1, s1, d2, s2);
    ClosedTrans(s0, s1, s2);
    JustifiedTrans(s0, s1, s2, r1, r2);
  }

  /** Moving one object: it leaves the source, then its children are moved. */
  lemma MovedOne(d0: map<u16, Record>, s0: map<u16, Record>, id: u16, d1: map<u16, Record>, s1: map<u16, Record>,
                 d2: map<u16, Record>, s2: map<u16, Record>, roots: seq<u16>)
    requires id in s0 && AllWellFormed(s0)
    requires d1 == d0[id := s0[id]] && s1 == s0 - {id} && roots == Children(s0[id])
    requires Moved(d1, s1, d2, s2, roots)
    ensures Moved(d0, s0, d2, s2, [id])
  {
    TransferTrans(d0, s0, d1, s1, d2, s2);
    MovedOneClosed(s0, id, s2);
    MovedOneJustified(s0, id, s2);
  }

  lemma MovedOneClosed(s0: map<u16, Record>, id: u16, s2: map<u16, Record>)
    requires id in s0 && AllWellFormed(s0)
    requires forall k :: k in s2 ==> k in s0 - {id} && s2[k] == s0[k]
    requires Closed(s0 - {id}, s2) && Gone(Children(s0[id]), s2)
    ensures Closed(s0, s2)
  {
    forall k | k in s0 && k !in s2 && WellFormed(s0[k])
      ensures forall c :: c in Children(s0[k]) ==> c !in s2
    {
      if k == id {
        assert forall c :: c in Children(s0[id]) ==> c !in s2;
      } else {
        assert k in s0 - {id} && (s0 - {id})[k] == s0[k];
      }
    }
  }

  lemma MovedOneJustified(s0: map<u16, Record>, id: u16, s2: map<u16, Record>)
    requires id in s0 && AllWellFormed(s0)
    requires forall k :: k in s2 ==> k in s0 - {id} && s2[k] == s0[k]
    requires Justified(s0 - {id}, s2, Children(s0[id]))
    ensures Justified(s0, s2, [id])
  {
    var rank1: u16 -> nat :| RankedBy(s0 - {id}, s2, Children(s0[id]), rank1);
    var rank: u16 -> nat := (k: u16) => if k == id then 0 else rank1(k) + 1;
    assert id !in s2;
    forall k | k in s0 && k !in s2
      ensures k in [id] ||
              exists p :: p in s0 && p !in s2 && WellFormed(s0[p]) && k in Children(s0[p]) && rank(p) < rank(k)
    {
      if k != id {
        MovedOneParent(s0, id, s2, rank1, rank, k);
      }
    }
    assert RankedBy(s0, s2, [id], rank);
  }

  /** An object the move of id takes besides id has a parent of smaller rank: id for
      the children of id, otherwise the parent it had in the move of those children. */
  lemma MovedOneParent(s0: map<u16, Record>, id: u16, s2: map<u16, Record>, rank1: u16 -> nat, rank: u16 -> nat,
                       k: u16)
    requires id in s0 && WellFormed(s0[id]) && id !in s2
    requires RankedBy(s0 - {id}, s2, Children(s0[id]), rank1)
    requires rank(id) == 0 && forall j :: j != id ==> rank(j) == rank1(j) + 1
    requires k in s0 && k != id && k !in s2
    ensures exists p :: p in s0 && p !in s2 && WellFormed(s0[p]) && k in Children(s0[p]) && rank(p) < rank(k)
  {
    var s1 := s0 - {id};
    assert k in s1;
    if k in Children(s0[id]) {
      assert rank(id) < rank(k);
    } else {
      var p :| p in s1 && p !in s2 && WellFormed(s1[p]) && k in Children(s1[p]) && rank1(p) < rank1(k);
      assert s0[p] == s1[p] && rank(p) < rank(k);
    }
  }

  /** An object a move takes is taken by every closed move of the same roots: it is
      reached from a root through moved parents, each of whose children such a move
      takes too. */
  lemma {:induction false} RankedTaken(s0: map<u16, Record>, s1: map<u16, Record>, roots: seq<u16>,
                                       rank: u16 -> nat, t1: map<u16, Record>, k: u16)
    requires RankedBy(s0, s1, roots, rank)
    requires Closed(s0, t1) && Gone(roots, t1)
    requires k in s0 && k !in s1
    ensures k !in t1
    decreases rank(k)
  {
    if k !in roots {
      var p :| p in s0 && p !in s1 && WellFormed(s0[p]) && k in Children(s0[p]) && rank(p) < rank(k);
      RankedTaken(s0, s1, roots, rank, t1, p);
    } else {
      var i :| 0 <= i < |roots| && roots[i] == k;
    }
  }

  /** A recursive move is determined by the two tables and the roots: moveObject has
      exactly one outcome that Moved allows. */
  lemma MovedUnique(d0: map<u16, Record>, s0: map<u16, Record>, roots: seq<u16>,
                    d1: map<u16, Record>, s1: map<u16, Record>, e1: map<u16, Record>, t1: map<u16, Record>)
    requires Moved(d0, s0, d1, s1, roots) && Moved(d0, s0, e1, t1, roots)
    ensures d1 == e1 && s1 == t1
  {
    MovedTakesSame(s0, s1, t1, roots);
    MovedTakesSame(s0, t1, s1, roots);
    TransferUnique(d0, s0, d1, s1, e1, t1);
  }

  /** A transfer is determined by what it leaves in the source. */
  lemma TransferUnique(d0: map<u16, Record>, s0: map<u16, Record>,
                       d1: map<u16, Record>, s1: map<u16, Record>, e1: map<u16, Record>, t1: map<u16, Record>)
    requires Transfer(d0, s0, d1, s1) && Transfer(d0, s0, e1, t1)
    requires forall k :: k in s0 ==> (k in s1 <==> k in t1)
    ensures d1 == e1 && s1 == t1
  {
    assert s1.Keys == t1.Keys;
    assert d1.Keys == e1.Keys;
  }

  /** What one move leaves in the source, every closed move of the same roots leaves. */
  lemma MovedTakesSame(s0: map<u16, Record>, s1: map<u16, Record>, t1: map<u16, Record>, roots: seq<u16>)
    requires Justified(s0, s1, roots) && Closed(s0, t1) && Gone(roots, t1)
    ensures forall k :: k in s0 && k !in s1 ==> k !in t1
  {
    var rank: u16 -> nat :| RankedBy(s0, s1, roots, rank);
    forall k | k in s0 && k !in s1
      ensures k !in t1
    {
      RankedTaken(s0, s1, roots, rank, t1, k);
    }
  }

  /** moveObject: dispatches on the type byte of the object, if it is in the
      source; Picture Graphic, Font Attributes and every other type move alone. */
  method MoveObject(id: u16, dst: ObjectMap, src: ObjectMap)
    requires dst != src && AllWellFormed(src.items)
    modifies dst, src
    ensures Moved(old(dst.items), old(src.items), dst.items, src.items, [id])
    ensures id !in old(src.items) ==> dst.items == old(dst.items) && src.items == old(src.items)
    decreases |src.items|, 2
  {
    if id in src.items {
      var poolItem := src.items[id];
      var eObjTyp := poolItem[2];
      if eObjTyp == WORKING_SET {
        MoveWorkingSet(id, dst, src);
      } else if eObjTyp == DATA_MASK {
        MoveDataMask(id, dst, src);
      } else if eObjTyp == CONTAINER {
        MoveContainer(id, dst, src);
      } else if eObjTyp == OUTPUT_STRING_FIELD {
        MoveOutputStringField(id, dst, src);
      } else if eObjTyp == OUTPUT_NUMBER_FIELD {
        MoveOutputNumberField(id, dst, src);
      } else if eObjTyp == OUTPUT_RECTANGLE {
        MoveOutputRectangle(id, dst, src);
      } else if eObjTyp == LINE_ATTRIBUTES {
        MoveLineAttributes(id, dst, src);
      } else if eObjTyp == FILL_ATTRIBUTES {
        MoveFillAttributes(id, dst, src);
      } else if eObjTyp == OBJECT_POINTER {
        MoveObjectPointer(id, dst, src);
      } else if eObjTyp == MACRO {
        MoveMacro(id, dst, src);
      } else if eObjTyp == AUXILIARY_FUNCTION_2 {
        MoveAuxiliaryFunction2(id, dst, src, true);
      } else {
        ghost var d0, s0 := dst.items, src.items;
        dst.items := dst.items[id := poolItem];
        src.items := src.items - {id};
        LeafTypesHaveNoChildren(poolItem);
        MovedNothing(dst.items, src.items, []);
        MovedOne(d0, s0, id, dst.items, src.items, dst.items, src.items, []);
      }
    } else {
      MovedNothing(dst.items, src.items, [id]);
    }
  }

  /** moveWorkingSet: the active mask, the object list and the macro list. */
  method MoveWorkingSet(id: u16, dst: ObjectMap, src: ObjectMap)
    requires dst != src && AllWellFormed(src.items) && HasType(src.items, id, WORKING_SET)
    modifies dst, src
    ensures Moved(old(dst.items), old(src.items), dst.items, src.items, [id])
    decreases |src.items|, 1
  {
    if id in src.items {
      ghost var d0, s0 := dst.items, src.items;
      var poolItem := src.items[id];
      WorkingSetLayout(poolItem);
      dst.items := dst.items[id := poolItem];
      src.items := src.items - {id};
      EraseShrinks(s0, id);
      ghost var d1, s1 := dst.items, src.items;
      var activeMask := GetU16(poolItem, 5);
      MoveObject(activeMask, dst, src);
      ghost var d2, s2 := dst.items, src.items;
      TransferShrinks(d1, s1, d2, s2);
      var objectCount := poolItem[7];
      var objectOffset := 10;
      MoveObjectList(poolItem, objectCount, objectOffset, dst, src);
      ghost var d3, s3 := dst.items, src.items;
      TransferShrinks(d2, s2, d3, s3);
      var macroCount := poolItem[8];
      var macroOffset := objectOffset + 6 * objectCount as int;
      WorkingSetChildren(poolItem, activeMask, objectCount, objectOffset, macroCount, macroOffset);
      MoveMacroList(poolItem, macroCount, macroOffset, dst, src);
      MovedTrans(d1, s1, d2, s2, d3, s3, [activeMask], ObjectListIds(poolItem, objectCount, objectOffset));
      MovedTrans(d1, s1, d3, s3, dst.items, src.items,
                 [activeMask] + ObjectListIds(poolItem, objectCount, objectOffset),
                 MacroListIds(poolItem, macroCount, macroOffset));
      MovedOne(d0, s0, id, d1, s1, dst.items, src.items,
               [activeMask] + ObjectListIds(poolItem, objectCount, objectOffset) + MacroListIds(poolItem, macroCount, macroOffset));
    } else {
      MovedNothing(dst.items, src.items, [id]);
    }
  }

  /** moveDataMask: the soft key mask, the object list and the macro list. */
  method MoveDataMask(id: u16, dst: ObjectMap, src: ObjectMap)
    requires dst != src && AllWellFormed(src.items) && HasType(src.items, id, DATA_MASK)
    modifies dst, src
    ensures Moved(old(dst.items), old(src.items), dst.items, src.items, [id])
    decreases |src.items|, 1
  {
    if id in src.items {
      ghost var d0, s0 := dst.items, src.items;
      var poolItem := src.items[id];
      DataMaskLayout(poolItem);
      dst.items := dst.items[id := poolItem];
      src.items := src.items - {id};
      EraseShrinks(s0, id);
      ghost var d1, s1 := dst.items, src.items;
      var softKeyMask := GetU16(poolItem, 4);
      MoveObject(softKeyMask, dst, src);
      ghost var d2, s2 := dst.items, src.items;
      TransferShrinks(d1, s1, d2, s2);
      var objectCount := poolItem[6];
      var objectOffset := 8;
      MoveObjectList(poolItem, objectCount, objectOffset, dst, src);
      ghost var d3, s3 := dst.items, src.items;
      TransferShrinks(d2, s2, d3, s3);
      var macroCount := poolItem[7];
      var macroOffset := objectOffset + 6 * objectCount as int;
      DataMaskChildren(poolItem, softKeyMask, objectCount, objectOffset, macroCount, macroOffset);
      MoveMacroList(poolItem, macroCount, macroOffset, dst, src);
      MovedTrans(d1, s1, d2, s2, d3, s3, [softKeyMask], ObjectListIds(poolItem, objectCount, objectOffset));
      MovedTrans(d1, s1, d3, s3, dst.items, src.items,
                 [softKeyMask] + ObjectListIds(poolItem, objectCount, objectOffset),
                 MacroListIds(poolItem, macroCount, macroOffset));
      MovedOne(d0, s0, id, d1, s1, dst.items, src.items,
               [softKeyMask] + ObjectListIds(poolItem, objectCount, objectOffset) + MacroListIds(poolItem, macroCount, macroOffset));
    } else {
      MovedNothing(dst.items, src.items, [id]);
    }
  }

  /** moveContainer: the object list and the macro list. */
  method MoveContainer(id: u16, dst: ObjectMap, src: ObjectMap)
    requires dst != src && AllWellFormed(src.items) && HasType(src.items, id, CONTAINER)
    modifies dst, src
    ensures Moved(old(dst.items), old(src.items), dst.items, src.items, [id])
    decreases |src.items|, 1
  {
    if id in src.items {
      ghost var d0, s0 := dst.items, src.items;
      var poolItem := src.items[id];
      ContainerLayout(poolItem);
      dst.items := dst.items[id := poolItem];
      src.items := src.items - {id};
      EraseShrinks(s0, id);
      ghost var d1, s1 := dst.items, src.items;
      var objectCount := poolItem[8];
      var objectOffset := 10;
      MoveObjectList(poolItem, objectCount, objectOffset, dst, src);
      ghost var d2, s2 := dst.items, src.items;
      TransferShrinks(d1, s1, d2, s2);
      var macroCount := poolItem[9];
      var macroOffset := objectOffset + 6 * objectCount as int;
      ContainerChildren(poolItem, objectCount, objectOffset, macroCount, macroOffset);
      MoveMacroList(poolItem, macroCount, macroOffset, dst, src);
      MovedTrans(d1, s1, d2, s2, dst.items, src.items,
                 ObjectListIds(poolItem, objectCount, objectOffset),
                 MacroListIds(poolItem, macroCount, macroOffset));
      MovedOne(d0, s0, id, d1, s1, dst.items, src.items,
               ObjectListIds(poolItem, objectCount, objectOffset) + MacroListIds(poolItem, macroCount, macroOffset));
    } else {
      MovedNothing(dst.items, src.items, [id]);
    }
  }

  /** moveOutputStringField: the font attributes. */
  method MoveOutputStringField(id: u16, dst: ObjectMap, src: ObjectMap)
    requires dst != src && AllWellFormed(src.items) && HasType(src.items, id, OUTPUT_STRING_FIELD)
    modifies dst, src
    ensures Moved(old(dst.items), old(src.items), dst.items, src.items, [id])
    decreases |src.items|, 1
  {
    if id in src.items {
      ghost var d0, s0 := dst.items, src.items;
      var poolItem := src.items[id];
      OutputStringLayout(poolItem);
      dst.items := dst.items[id := poolItem];
      src.items := src.items - {id};
      ghost var d1, s1 := dst.items, src.items;
      EraseShrinks(s0, id);
      var fontObject := GetU16(poolItem, 8);
      MoveObject(fontObject, dst, src);
      MovedOne(d0, s0, id, d1, s1, dst.items, src.items,
               [fontObject]);
    } else {
      MovedNothing(dst.items, src.items, [id]);
    }
  }

  /** moveOutputNumberField: the font attributes, the variable reference and the macro list. */
  method MoveOutputNumberField(id: u16, dst: ObjectMap, src: ObjectMap)
    requires dst != src && AllWellFormed(src.items) && HasType(src.items, id, OUTPUT_NUMBER_FIELD)
    modifies dst, src
    ensures Moved(old(dst.items), old(src.items), dst.items, src.items, [id])
    decreases |src.items|, 1
  {
    if id in src.items {
      ghost var d0, s0 := dst.items, src.items;
      var poolItem := src.items[id];
      OutputNumberLayout(poolItem);
      dst.items := dst.items[id := poolItem];
      src.items := src.items - {id};
      EraseShrinks(s0, id);
      ghost var d1, s1 := dst.items, src.items;
      var fontAttributes := GetU16(poolItem, 8);
      MoveObject(fontAttributes, dst, src);
      ghost var d2, s2 := dst.items, src.items;
      TransferShrinks(d1, s1, d2, s2);
      var variableReference := GetU16(poolItem, 11);
      MoveObject(variableReference, dst, src);
      ghost var d3, s3 := dst.items, src.items;
      TransferShrinks(d2, s2, d3, s3);
      var macroCount := poolItem[28];
      var macroOffset := 29;
      MoveMacroList(poolItem, macroCount, macroOffset, dst, src);
      MovedTrans(d1, s1, d2, s2, d3, s3, [fontAttributes], [variableReference]);
      MovedTrans(d1, s1, d3, s3, dst.items, src.items,
                 [fontAttributes] + [variableReference], MacroListIds(poolItem, macroCount, macroOffset));
      MovedOne(d0, s0, id, d1, s1, dst.items, src.items,
               [fontAttributes] + [variableReference] + MacroListIds(poolItem, macroCount, macroOffset));
    } else {
      MovedNothing(dst.items, src.items, [id]);
    }
  }

  /** moveTypRectangle: the line attributes, the fill attributes and the macro list. */
  method MoveOutputRectangle(id: u16, dst: ObjectMap, src: ObjectMap)
    requires dst != src && AllWellFormed(src.items) && HasType(src.items, id, OUTPUT_RECTANGLE)
    modifies dst, src
    ensures Moved(old(dst.items), old(src.items), dst.items, src.items, [id])
    decreases |src.items|, 1
  {
    if id in src.items {
      ghost var d0, s0 := dst.items, src.items;
      var poolItem := src.items[id];
      OutputRectangleLayout(poolItem);
      dst.items := dst.items[id := poolItem];
      src.items := src.items - {id};
      EraseShrinks(s0, id);
      ghost var d1, s1 := dst.items, src.items;
      var lineAttributes := GetU16(poolItem, 3);
      MoveObject(lineAttributes, dst, src);
      ghost var d2, s2 := dst.items, src.items;
      TransferShrinks(d1, s1, d2, s2);
      var fillAttributes := GetU16(poolItem, 10);
      MoveObject(fillAttributes, dst, src);
      ghost var d3, s3 := dst.items, src.items;
      TransferShrinks(d2, s2, d3, s3);
      var macroCount := poolItem[12];
      var macroOffset := 13;
      MoveMacroList(poolItem, macroCount, macroOffset, dst, src);
      MovedTrans(d1, s1, d2, s2, d3, s3, [lineAttributes], [fillAttributes]);
      MovedTrans(d1, s1, d3, s3, dst.items, src.items,
                 [lineAttributes] + [fillAttributes], MacroListIds(poolItem, macroCount, macroOffset));
      MovedOne(d0, s0, id, d1, s1, dst.items, src.items,
               [lineAttributes] + [fillAttributes] + MacroListIds(poolItem, macroCount, macroOffset));
    } else {
      MovedNothing(dst.items, src.items, [id]);
    }
  }

  /** moveLineAttributesObject: the macro list. */
  method MoveLineAttributes(id: u16, dst: ObjectMap, src: ObjectMap)
    requires dst != src && AllWellFormed(src.items) && HasType(src.items, id, LINE_ATTRIBUTES)
    modifies dst, src
    ensures Moved(old(dst.items), old(src.items), dst.items, src.items, [id])
    decreases |src.items|, 1
  {
    if id in src.items {
      ghost var d0, s0 := dst.items, src.items;
      var poolItem := src.items[id];
      AttributesLayout(poolItem);
      dst.items := dst.items[id := poolItem];
      src.items := src.items - {id};
      ghost var d1, s1 := dst.items, src.items;
      EraseShrinks(s0, id);
      var macroCount := poolItem[7];
      var macroOffset := 8;
      MoveMacroList(poolItem, macroCount, macroOffset, dst, src);
      MovedOne(d0, s0, id, d1, s1, dst.items, src.items,
               MacroListIds(poolItem, macroCount, macroOffset));
    } else {
      MovedNothing(dst.items, src.items, [id]);
    }
  }

  /** moveFillAttributesObject: the macro list. */
  method MoveFillAttributes(id: u16, dst: ObjectMap, src: ObjectMap)
    requires dst != src && AllWellFormed(src.items) && HasType(src.items, id, FILL_ATTRIBUTES)
    modifies dst, src
    ensures Moved(old(dst.items), old(src.items), dst.items, src.items, [id])
    decreases |src.items|, 1
  {
    if id in src.items {
      ghost var d0, s0 := dst.items, src.items;
      var poolItem := src.items[id];
      AttributesLayout(poolItem);
      dst.items := dst.items[id := poolItem];
      src.items := src.items - {id};
      ghost var d1, s1 := dst.items, src.items;
      EraseShrinks(s0, id);
      var macroCount := poolItem[7];
      var macroOffset := 8;
      MoveMacroList(poolItem, macroCount, macroOffset, dst, src);
      MovedOne(d0, s0, id, d1, s1, dst.items, src.items,
               MacroListIds(poolItem, macroCount, macroOffset));
    } else {
      MovedNothing(dst.items, src.items, [id]);
    }
  }

  /** moveObjectPointer: the object pointed to. */
  method MoveObjectPointer(id: u16, dst: ObjectMap, src: ObjectMap)
    requires dst != src && AllWellFormed(src.items) && HasType(src.items, id, OBJECT_POINTER)
    modifies dst, src
    ensures Moved(old(dst.items), old(src.items), dst.items, src.items, [id])
    decreases |src.items|, 1
  {
    if id in src.items {
      ghost var d0, s0 := dst.items, src.items;
      var poolItem := src.items[id];
      ObjectPointerLayout(poolItem);
      dst.items := dst.items[id := poolItem];
      src.items := src.items - {id};
      ghost var d1, s1 := dst.items, src.items;
      EraseShrinks(s0, id);
      var nextObject := GetU16(poolItem, 3);
      MoveObject(nextObject, dst, src);
      MovedOne(d0, s0, id, d1, s1, dst.items, src.items,
               [nextObject]);
    } else {
      MovedNothing(dst.items, src.items, [id]);
    }
  }

  /** moveMacro: a macro references nothing the mover follows. */
  method MoveMacro(id: u16, dst: ObjectMap, src: ObjectMap)
    requires dst != src && AllWellFormed(src.items) && HasType(src.items, id, MACRO)
    modifies dst, src
    ensures Moved(old(dst.items), old(src.items), dst.items, src.items, [id])
    decreases |src.items|, 1
  {
    if id in src.items {
      ghost var d0, s0 := dst.items, src.items;
      var poolItem := src.items[id];
      dst.items := dst.items[id := poolItem];
      src.items := src.items - {id};
      ghost var d1, s1 := dst.items, src.items;
      MovedNothing(dst.items, src.items, []);
      MovedOne(d0, s0, id, d1, s1, dst.items, src.items,
               []);
    } else {
      MovedNothing(dst.items, src.items, [id]);
    }
  }

  /** moveAuxiliaryFunction2. Recursive: the object and its object list move.
      Not recursive: the source keeps the object, and an Auxiliary Function Type 2
      object is written to the destination as its 6-byte stub; any other type is
      left alone. */
  method MoveAuxiliaryFunction2(id: u16, dst: ObjectMap, src: ObjectMap, recursive: bool)
    requires dst != src && AllWellFormed(src.items)
    requires recursive ==> HasType(src.items, id, AUXILIARY_FUNCTION_2)
    modifies dst, src
    ensures recursive ==> Moved(old(dst.items), old(src.items), dst.items, src.items, [id])
    ensures !recursive ==> src.items == old(src.items)
    ensures !recursive ==>
              dst.items == if id in old(src.items) && IsAux2(old(src.items)[id])
                           then old(dst.items)[id := Stub(old(src.items)[id])] else old(dst.items)
    decreases |src.items|, 1
  {
    if id in src.items {
      ghost var d0, s0 := dst.items, src.items;
      var poolItem := src.items[id];
      if recursive {
        dst.items := dst.items[id := poolItem];
        src.items := src.items - {id};
        EraseShrinks(s0, id);
      }
      ghost var d1, s1 := dst.items, src.items;
      if poolItem[2] == AUXILIARY_FUNCTION_2 {
        if recursive {
          AuxiliaryFunction2Layout(poolItem);
          var objectCount := poolItem[5];
          MoveObjectList(poolItem, objectCount, 6, dst, src);
          MovedOne(d0, s0, id, d1, s1, dst.items, src.items, ObjectListIds(poolItem, objectCount, 6));
        } else {
          dst.items := dst.items[id := Stub(poolItem)];
        }
      }
    } else if recursive {
      MovedNothing(dst.items, src.items, [id]);
    }
  }

  /** Extending a prefix by one element. */
  lemma TakeSnoc(s: seq<u16>, i: nat)
    requires i < |s|
    ensures s[..i + 1] == s[..i] + [s[i]]
  {
  }

  /** moveObjectList: moves every object of a list of 6-byte entries, in order. */
  method MoveObjectList(poolItem: Record, objectCount: u8, objectOffset: nat, dst: ObjectMap, src: ObjectMap)
    requires ObjectListFits(poolItem, objectCount, objectOffset)
    requires dst != src && AllWellFormed(src.items)
    modifies dst, src
    ensures Moved(old(dst.items), old(src.items), dst.items, src.items, ObjectListIds(poolItem, objectCount, objectOffset))
    decreases |src.items|, 3
  {
    ghost var d0, s0 := dst.items, src.items;
    ghost var ids := ObjectListIds(poolItem, objectCount, objectOffset);
    MovedNothing(d0, s0, []);
    for idx := 0 to objectCount
      invariant AllWellFormed(src.items) && |src.items| <= |s0|
      invariant Moved(d0, s0, dst.items, src.items, ids[..idx])
    {
      ghost var d1, s1 := dst.items, src.items;
      var objectID := GetU16(poolItem, objectOffset + 6 * idx);
      ObjectListEntry(poolItem, objectCount, objectOffset, idx);
      MoveObject(objectID, dst, src);
      TransferShrinks(d1, s1, dst.items, src.items);
      MovedTrans(d0, s0, d1, s1, dst.items, src.items, ids[..idx], [objectID]);
      TakeSnoc(ids, idx);
    }
    assert ids[..objectCount] == ids;
  }

  /** moveMacroList: moves every macro of a list of 2-byte entries (the ID is the
      second byte), in order. */
  method MoveMacroList(poolItem: Record, macroCount: u8, macroOffset: nat, dst: ObjectMap, src: ObjectMap)
    requires MacroListFits(poolItem, macroCount, macroOffset)
    requires dst != src && AllWellFormed(src.items)
    modifies dst, src
    ensures Moved(old(dst.items), old(src.items), dst.items, src.items, MacroListIds(poolItem, macroCount, macroOffset))
    decreases |src.items|, 3
  {
    ghost var d0, s0 := dst.items, src.items;
    ghost var ids := MacroListIds(poolItem, macroCount, macroOffset);
    MovedNothing(d0, s0, []);
    for idx := 0 to macroCount
      invariant AllWellFormed(src.items) && |src.items| <= |s0|
      invariant Moved(d0, s0, dst.items, src.items, ids[..idx])
    {
      ghost var d1, s1 := dst.items, src.items;
      var objectID := poolItem[macroOffset + 2 * idx + 1];
      MacroListEntry(poolItem, macroCount, macroOffset, idx);
      MoveObject(objectID, dst, src);
      TransferShrinks(d1, s1, dst.items, src.items);
      MovedTrans(d0, s0, d1, s1, dst.items, src.items, ids[..idx], [objectID]);
      TakeSnoc(ids, idx);
    }
    assert ids[..macroCount] == ids;
  }
}
