/** preparePool and parsePool: the split of a source object pool into the base pool
    (what the terminal shows while the rest loads), the secondary pool and the
    auxiliary pool, each written out in ascending ID order and cross-checked against
    the object count of the source. */
module PoolPreparation {
  import opened Options
  import opened PoolRecords
  import opened ObjectTable
  import opened Partitioner

  /** The IDs of the Auxiliary Function Type 2 objects of a table. */
  function Aux2Keys(m: map<u16, Record>): set<u16>
  {
    set k | k in m && IsAux2(m[k])
  }

  function Aux2KeysBelow(m: map<u16, Record>, k: nat): set<u16>
  {
    set j | j in m && j < k && IsAux2(m[j])
  }

  lemma Aux2KeysBelowStep(m: map<u16, Record>, k: nat)
    ensures |Aux2KeysBelow(m, k + 1)| == |Aux2KeysBelow(m, k)| + if k in m && IsAux2(m[k]) then 1 else 0
  {
    if k in m && IsAux2(m[k]) {
      assert Aux2KeysBelow(m, k + 1) == Aux2KeysBelow(m, k) + {k as u16};
    } else {
      assert Aux2KeysBelow(m, k + 1) == Aux2KeysBelow(m, k);
    }
  }

  /** The Auxiliary Function Type 2 objects of the table whose ID base still lacks. */
  function Unstubbed(base: map<u16, Record>, items: map<u16, Record>): set<u16>
  {
    set k | k in items && IsAux2(items[k]) && k !in base
  }

  /** b1 is b0 with the stub of every Auxiliary Function Type 2 object of items whose
      ID b0 lacks. */
  ghost predicate StubsAdded(b0: map<u16, Record>, items: map<u16, Record>, b1: map<u16, Record>)
  {
    (forall k :: k in b1 <==> k in b0 || (k in items && IsAux2(items[k]))) &&
    (forall k :: k in b1 ==> b1[k] == if k in b0 then b0[k] else Stub(items[k]))
  }

  /** The macro list as object IDs (a macro ID is one byte). */
  function MacroIds(macroList: seq<u8>): (ids: seq<u16>)
    ensures |ids| == |macroList|
    ensures forall i :: 0 <= i < |ids| ==> ids[i] == macroList[i]
  {
    seq(|macroList|, i requires 0 <= i < |macroList| => macroList[i] as u16)
  }

  /** b is b0 with the stubs of some Auxiliary Function Type 2 objects of items whose
      ID b0 lacks. */
  ghost predicate StubbedSoFar(b0: map<u16, Record>, items: map<u16, Record>, b: map<u16, Record>)
  {
    (forall j :: j in b0 ==> j in b) &&
    (forall j :: j in b ==>
       (j in b0 || (j in items && IsAux2(items[j]))) &&
       b[j] == if j in b0 then b0[j] else Stub(items[j]))
  }

  /** One step of the first scan: the stub of id joins base. */
  lemma StubStep(b0: map<u16, Record>, items: map<u16, Record>, b: map<u16, Record>, id: u16)
    requires StubbedSoFar(b0, items, b)
    requires id in items && IsAux2(items[id]) && id !in b
    ensures StubbedSoFar(b0, items, b[id := Stub(items[id])])
    ensures |Unstubbed(b[id := Stub(items[id])], items)| < |Unstubbed(b, items)|
  {
    assert Unstubbed(b[id := Stub(items[id])], items) == Unstubbed(b, items) - {id};
  }

  /** The first scan passes an ID whose object, if it is an Auxiliary Function Type 2,
      has its key in base. */
  lemma StubPast(items: map<u16, Record>, b: map<u16, Record>, k: int)
    requires forall j :: j in items && j < k && IsAux2(items[j]) ==> j in b
    requires k in items && IsAux2(items[k]) ==> k in b
    ensures forall j :: j in items && j < k + 1 && IsAux2(items[j]) ==> j in b
  {
  }

  /** When the first scan ends, every Auxiliary Function Type 2 object has its stub. */
  lemma StubsComplete(b0: map<u16, Record>, items: map<u16, Record>, b: map<u16, Record>)
    requires StubbedSoFar(b0, items, b)
    requires forall j :: j in items && j < 0x1_0000 && IsAux2(items[j]) ==> j in b
    ensures StubsAdded(b0, items, b)
  {
  }

  /** The first scan of preparePool: every Auxiliary Function Type 2 object of the
      table whose ID base lacks is written to base as its stub, restarting from the
      lowest ID after each one; the table keeps every object. */
  method StubAuxFunctions(base: ObjectMap, poolItems: ObjectMap)
    requires base != poolItems && AllWellFormed(poolItems.items) && IdsMatchKeys(poolItems.items)
    modifies base, poolItems
    ensures poolItems.items == old(poolItems.items)
    ensures StubsAdded(old(base.items), poolItems.items, base.items)
  {
    ghost var b0 := base.items;
    var k: int := 0;
    while k < 0x1_0000
      invariant 0 <= k <= 0x1_0000
      invariant poolItems.items == old(poolItems.items)
      invariant StubbedSoFar(b0, poolItems.items, base.items)
      invariant forall j :: j in poolItems.items && j < k && IsAux2(poolItems.items[j]) ==> j in base.items
      decreases |Unstubbed(base.items, poolItems.items)|, 0x1_0000 - k
    {
      if k in poolItems.items {
        var poolItem := poolItems.items[k];
        var objectID := GetU16(poolItem, 0);
        if poolItem[2] == AUXILIARY_FUNCTION_2 && objectID !in base.items {
          StubStep(b0, poolItems.items, base.items, objectID);
          MoveAuxiliaryFunction2(objectID, base, poolItems, false);
          k := 0;
        } else {
          StubPast(poolItems.items, base.items, k);
          k := k + 1;
        }
      } else {
        StubPast(poolItems.items, base.items, k);
        k := k + 1;
      }
    }
    StubsComplete(b0, poolItems.items, base.items);
  }

  /** The macro loop of preparePool: every macro of the list is moved, in order. */
  method MoveMacros(macroList: seq<u8>, base: ObjectMap, poolItems: ObjectMap)
    requires base != poolItems && AllWellFormed(poolItems.items)
    modifies base, poolItems
    ensures Moved(old(base.items), old(poolItems.items), base.items, poolItems.items, MacroIds(macroList))
  {
    ghost var d0, s0 := base.items, poolItems.items;
    ghost var ids := MacroIds(macroList);
    MovedNothing(d0, s0, []);
    for idx := 0 to |macroList|
      invariant AllWellFormed(poolItems.items)
      invariant Moved(d0, s0, base.items, poolItems.items, ids[..idx])
    {
      ghost var d1, s1 := base.items, poolItems.items;
      MoveObject(macroList[idx], base, poolItems);
      TransferShrinks(d1, s1, base.items, poolItems.items);
      MovedTrans(d0, s0, d1, s1, base.items, poolItems.items, ids[..idx], [macroList[idx] as u16]);
      assert ids[..idx] + [macroList[idx] as u16] == ids[..idx + 1];
    }
    assert ids[..|macroList|] == ids;
  }

  /** The scan passes an ID that holds no Auxiliary Function Type 2 object. */
  lemma NoAux2Past(items: map<u16, Record>, k: int)
    requires forall j :: j in items && j < k ==> !IsAux2(items[j])
    requires k in items ==> !IsAux2(items[k])
    ensures forall j :: j in items && j < k + 1 ==> !IsAux2(items[j])
  {
  }

  /** One step of the second scan: the Auxiliary Function Type 2 object id and its
      object list left the table for aux. */
  lemma ExtractStep(a0: map<u16, Record>, s0: map<u16, Record>, d1: map<u16, Record>, s1: map<u16, Record>,
                    d2: map<u16, Record>, s2: map<u16, Record>, roots: seq<u16>, id: u16)
    requires AllWellFormed(s1) && IdsMatchKeys(s1)
    requires id in s1 && IsAux2(s1[id])
    requires forall i :: 0 <= i < |roots| ==> roots[i] in s0 && IsAux2(s0[roots[i]])
    requires Moved(a0, s0, d1, s1, roots) && Moved(d1, s1, d2, s2, [id])
    ensures AllWellFormed(s2) && IdsMatchKeys(s2) && |s2| < |s1|
    ensures forall i :: 0 <= i < |roots + [id]| ==> (roots + [id])[i] in s0 && IsAux2(s0[(roots + [id])[i]])
    ensures Moved(a0, s0, d2, s2, roots + [id])
  {
    assert id !in s2 by {
      assert Gone([id], s2);
      assert [id][0] == id;
    }
    TransferShrinks(d1, s1, d2, s2);
    TransferKeepsIds(d1, s1, d2, s2);
    TransferDrops(d1, s1, d2, s2, id);
    assert id in s0 && s0[id] == s1[id];
    Aux2RootsSnoc(s0, roots, id);
    MovedTrans(a0, s0, d1, s1, d2, s2, roots, [id]);
  }

  /** One more Auxiliary Function Type 2 root. */
  lemma Aux2RootsSnoc(s0: map<u16, Record>, roots: seq<u16>, id: u16)
    requires forall i :: 0 <= i < |roots| ==> roots[i] in s0 && IsAux2(s0[roots[i]])
    requires id in s0 && IsAux2(s0[id])
    ensures forall i :: 0 <= i < |roots + [id]| ==> (roots + [id])[i] in s0 && IsAux2(s0[(roots + [id])[i]])
  {
    forall i | 0 <= i < |roots + [id]|
      ensures (roots + [id])[i] in s0 && IsAux2(s0[(roots + [id])[i]])
    {
      if i < |roots| {
        assert (roots + [id])[i] == roots[i];
      }
    }
  }

  /** The second scan of preparePool: every Auxiliary Function Type 2 object still in
      the table is moved, with its object list, to aux, restarting from the lowest ID
      after each one; afterwards the table holds none. */
  method ExtractAuxFunctions(aux: ObjectMap, poolItems: ObjectMap) returns (ghost roots: seq<u16>)
    requires aux != poolItems && AllWellFormed(poolItems.items) && IdsMatchKeys(poolItems.items)
    modifies aux, poolItems
    ensures Moved(old(aux.items), old(poolItems.items), aux.items, poolItems.items, roots)
    ensures forall i :: 0 <= i < |roots| ==> roots[i] in old(poolItems.items) && IsAux2(old(poolItems.items)[roots[i]])
    ensures forall k :: k in poolItems.items ==> !IsAux2(poolItems.items[k])
  {
    ghost var a0, s0 := aux.items, poolItems.items;
    roots := [];
    MovedNothing(a0, s0, []);
    var k: int := 0;
    while k < 0x1_0000
      invariant 0 <= k <= 0x1_0000
      invariant AllWellFormed(poolItems.items) && IdsMatchKeys(poolItems.items)
      invariant Moved(a0, s0, aux.items, poolItems.items, roots)
      invariant forall i :: 0 <= i < |roots| ==> roots[i] in s0 && IsAux2(s0[roots[i]])
      invariant forall j :: j in poolItems.items && j < k ==> !IsAux2(poolItems.items[j])
      decreases |poolItems.items|, 0x1_0000 - k
    {
      if k in poolItems.items {
        var poolItem := poolItems.items[k];
        var objectID := GetU16(poolItem, 0);
        if poolItem[2] == AUXILIARY_FUNCTION_2 {
          ghost var d1, s1 := aux.items, poolItems.items;
          MoveAuxiliaryFunction2(objectID, aux, poolItems, true);
          ExtractStep(a0, s0, d1, s1, aux.items, poolItems.items, roots, objectID);
          roots := roots + [objectID];
          k := 0;
        } else {
          NoAux2Past(poolItems.items, k);
          k := k + 1;
        }
      } else {
        NoAux2Past(poolItems.items, k);
        k := k + 1;
      }
    }
  }

  /** One more key of m written over p. */
  lemma MergeStep(p: map<u16, Record>, m: map<u16, Record>, k: nat)
    ensures k in m ==> p + Below(m, k + 1) == (p + Below(m, k))[k := m[k]]
    ensures k !in m ==> p + Below(m, k + 1) == p + Below(m, k)
  {
  }

  /** One more key of b written under a: it only lands where a has none. */
  lemma UnderlayStep(b: map<u16, Record>, a: map<u16, Record>, k: nat)
    ensures k in b && k !in a ==> Below(b, k + 1) + a == (Below(b, k) + a)[k := b[k]]
    ensures !(k in b && k !in a) ==> Below(b, k + 1) + a == Below(b, k) + a
  {
  }

  /** The first merge of preparePool: every aux entry is written into the table
      (replacing an entry with the same ID), counting the Auxiliary Function Type 2
      objects among them. */
  method MergeAux(aux: ObjectMap, poolItems: ObjectMap) returns (auxFunction2Count: nat)
    requires aux != poolItems && AllWellFormed(aux.items)
    modifies poolItems
    ensures poolItems.items == old(poolItems.items) + aux.items
    ensures auxFunction2Count == |Aux2Keys(aux.items)|
  {
    ghost var p0 := poolItems.items;
    auxFunction2Count := 0;
    var k: int := 0;
    while k < 0x1_0000
      invariant 0 <= k <= 0x1_0000
      invariant poolItems.items == p0 + Below(aux.items, k)
      invariant auxFunction2Count == |Aux2KeysBelow(aux.items, k)|
    {
      MergeStep(p0, aux.items, k);
      Aux2KeysBelowStep(aux.items, k);
      if k in aux.items {
        var poolItem := aux.items[k];
        if poolItem[2] == AUXILIARY_FUNCTION_2 {
          auxFunction2Count := auxFunction2Count + 1;
        }
        poolItems.items := poolItems.items[k := poolItem];
      }
      assert poolItems.items == p0 + Below(aux.items, k + 1);
      k := k + 1;
    }
    assert Below(aux.items, 0x1_0000) == aux.items;
    assert Aux2KeysBelow(aux.items, 0x1_0000) == Aux2Keys(aux.items);
  }

  /** The second merge of preparePool: every base entry whose ID aux lacks is copied
      into aux; aux entries win. */
  method MergeBase(base: ObjectMap, aux: ObjectMap)
    requires base != aux
    modifies aux
    ensures aux.items == base.items + old(aux.items)
  {
    ghost var a0 := aux.items;
    var k: int := 0;
    while k < 0x1_0000
      invariant 0 <= k <= 0x1_0000
      invariant aux.items == Below(base.items, k) + a0
    {
      UnderlayStep(base.items, a0, k);
      if k in base.items && k !in aux.items {
        aux.items := aux.items[k := base.items[k]];
      }
      k := k + 1;
    }
    assert Below(base.items, 0x1_0000) == base.items;
  }

  // The three tables preparePool derives from the source table T: base B, the rest L
  // left in the table after both scans, and aux A. Secondary is L + A, gAux is B + A.

  /** Every object of the source lands in at least one derived table. */
  ghost predicate Covers(T: map<u16, Record>, B: map<u16, Record>, L: map<u16, Record>, A: map<u16, Record>)
  {
    forall k :: k in T ==> k in B || k in L || k in A
  }

  /** Every derived entry is the source object, or in base the stub of a source
      Auxiliary Function Type 2 object. */
  ghost predicate Copies(T: map<u16, Record>, B: map<u16, Record>, L: map<u16, Record>, A: map<u16, Record>)
  {
    (forall k :: k in L ==> k in T && L[k] == T[k]) &&
    (forall k :: k in A ==> k in T && A[k] == T[k]) &&
    (forall k :: k in B ==> k in T && (B[k] == T[k] || (IsAux2(T[k]) && B[k] == Stub(T[k]))))
  }

  /** The rest shares no ID with base or aux; base and aux share only the IDs of
      Auxiliary Function Type 2 objects, which base holds as stubs. */
  ghost predicate Separate(B: map<u16, Record>, L: map<u16, Record>, A: map<u16, Record>)
  {
    (forall k :: k in L ==> k !in B && k !in A) &&
    (forall k :: k in A && k in B ==> IsAux2(A[k])) &&
    (forall k :: k in A && IsAux2(A[k]) ==> k in B && B[k] == Stub(A[k]))
  }

  /** Base holds the Working Set object 0 and, in full, every listed macro of the
      source, none of which is in aux; the rest holds no Auxiliary Function Type 2
      object. */
  ghost predicate Placed(T: map<u16, Record>, macros: seq<u16>, B: map<u16, Record>, L: map<u16, Record>,
                         A: map<u16, Record>)
  {
    0 in B && 0 in T && IsWorkingSet(T[0]) && B[0] == T[0] &&
    (forall i :: 0 <= i < |macros| && macros[i] in T ==>
       macros[i] in B && B[macros[i]] == T[macros[i]] && macros[i] !in A) &&
    (forall k :: k in L ==> !IsAux2(L[k]))
  }

  /** Every Auxiliary Function Type 2 object of the source is kept in full, in aux or
      in base. */
  ghost predicate AuxKept(T: map<u16, Record>, B: map<u16, Record>, A: map<u16, Record>)
  {
    forall k :: k in T && IsAux2(T[k]) ==> k in A || (k in B && B[k] == T[k])
  }

  /** No child of a base object is left in the rest or in aux, and no child of an aux
      object is left in the rest. */
  ghost predicate ChildrenFollow(B: map<u16, Record>, L: map<u16, Record>, A: map<u16, Record>)
  {
    (forall k :: k in B && WellFormed(B[k]) ==> forall c :: c in Children(B[k]) ==> c !in L && c !in A) &&
    (forall k :: k in A && WellFormed(A[k]) ==> forall c :: c in Children(A[k]) ==> c !in L)
  }

  /** Every base object is object 0, a listed macro, the stub of an Auxiliary Function
      Type 2 object that aux holds, or a child of a base object of smaller rank. */
  ghost predicate BaseRanked(T: map<u16, Record>, macros: seq<u16>, B: map<u16, Record>, A: map<u16, Record>,
                             rank: u16 -> nat)
  {
    forall k :: k in B ==>
      k == 0 || k in macros || (k in T && IsAux2(T[k]) && k in A && B[k] == Stub(T[k])) ||
      exists p :: p in B && WellFormed(B[p]) && k in Children(B[p]) && rank(p) < rank(k)
  }

  /** Every aux object is an Auxiliary Function Type 2 object or a child of an aux
      object of smaller rank. */
  ghost predicate AuxRanked(A: map<u16, Record>, rank: u16 -> nat)
  {
    forall k :: k in A ==>
      IsAux2(A[k]) || exists p :: p in A && WellFormed(A[p]) && k in Children(A[p]) && rank(p) < rank(k)
  }

  /** Nothing is moved without a reason: base objects are reached from object 0, the
      macros and the stubs, aux objects from the Auxiliary Function Type 2 objects,
      each through parents on its own side. */
  ghost predicate Needed(T: map<u16, Record>, macros: seq<u16>, B: map<u16, Record>, A: map<u16, Record>)
  {
    (exists rank: u16 -> nat :: BaseRanked(T, macros, B, A, rank)) &&
    (exists rank: u16 -> nat :: AuxRanked(A, rank))
  }

  /** The split preparePool makes of the source table. */
  ghost predicate Partition(T: map<u16, Record>, macros: seq<u16>, B: map<u16, Record>, L: map<u16, Record>, A: map<u16, Record>)
  {
    Covers(T, B, L, A) && Copies(T, B, L, A) && Separate(B, L, A) &&
    Placed(T, macros, B, L, A) && AuxKept(T, B, A) && ChildrenFollow(B, L, A) && Needed(T, macros, B, A)
  }

  /** The stage results: both scans and the macro moves leave copies of source objects
      (or stubs) and the derived tables cover the source. */
  lemma StagesCopy(T: map<u16, Record>, B1: map<u16, Record>, S1: map<u16, Record>, B2: map<u16, Record>,
                   B3: map<u16, Record>, S3: map<u16, Record>, A: map<u16, Record>, L: map<u16, Record>)
    requires Transfer(map[], T, B1, S1) && StubsAdded(B1, S1, B2)
    requires Transfer(B2, S1, B3, S3) && Transfer(map[], S3, A, L)
    ensures Covers(T, B3, L, A) && Copies(T, B3, L, A)
  {
    forall k | k in B3
      ensures k in T && (B3[k] == T[k] || (IsAux2(T[k]) && B3[k] == Stub(T[k])))
    {
      if !(k in S1 && k !in S3) {
        assert k in B2;
        if k !in B1 {
          assert k in S1 && IsAux2(S1[k]) && B2[k] == Stub(S1[k]);
        }
      }
    }
  }

  lemma StagesSeparate(T: map<u16, Record>, B1: map<u16, Record>, S1: map<u16, Record>, B2: map<u16, Record>,
                       B3: map<u16, Record>, S3: map<u16, Record>, A: map<u16, Record>, L: map<u16, Record>)
    requires Transfer(map[], T, B1, S1) && StubsAdded(B1, S1, B2)
    requires Transfer(B2, S1, B3, S3) && Transfer(map[], S3, A, L)
    requires forall k :: k in L ==> !IsAux2(L[k])
    ensures Separate(B3, L, A)
  {
    forall k | k in L
      ensures k !in B3 && k !in A
    {
      assert k in S3 && k in S1 && !IsAux2(S1[k]);
    }
    forall k | k in A && (k in B3 || IsAux2(A[k]))
      ensures IsAux2(A[k]) && k in B3 && B3[k] == Stub(A[k])
    {
      assert k in S3 && k in S1 && k !in B1 && A[k] == S1[k];
    }
  }

  lemma StagesPlaced(T: map<u16, Record>, B1: map<u16, Record>, S1: map<u16, Record>, B2: map<u16, Record>,
                     B3: map<u16, Record>, S3: map<u16, Record>, A: map<u16, Record>, L: map<u16, Record>,
                     macros: seq<u16>)
    requires 0 in T && IsWorkingSet(T[0])
    requires Transfer(map[], T, B1, S1) && Gone([0], S1) && StubsAdded(B1, S1, B2)
    requires Transfer(B2, S1, B3, S3) && Gone(macros, S3) && Transfer(map[], S3, A, L)
    requires forall k :: k in L ==> !IsAux2(L[k])
    ensures Placed(T, macros, B3, L, A)
  {
    assert [0][0] !in S1;
    forall i | 0 <= i < |macros| && macros[i] in T
      ensures macros[i] in B3 && B3[macros[i]] == T[macros[i]] && macros[i] !in A
    {
      if macros[i] !in S1 {
        assert macros[i] in B1 && macros[i] in B2;
      }
    }
  }

  lemma StagesKept(T: map<u16, Record>, B1: map<u16, Record>, S1: map<u16, Record>, B2: map<u16, Record>,
                   B3: map<u16, Record>, S3: map<u16, Record>, A: map<u16, Record>, L: map<u16, Record>)
    requires Transfer(map[], T, B1, S1) && StubsAdded(B1, S1, B2)
    requires Transfer(B2, S1, B3, S3) && Transfer(map[], S3, A, L)
    requires forall k :: k in L ==> !IsAux2(L[k])
    ensures AuxKept(T, B3, A)
  {
    forall k | k in T && IsAux2(T[k])
      ensures k in A || (k in B3 && B3[k] == T[k])
    {
      if k !in S1 {
        assert k in B1 && k in B2;
      } else if k in S3 {
        assert k !in L;
      }
    }
  }

  lemma StagesChildren(T: map<u16, Record>, B1: map<u16, Record>, S1: map<u16, Record>, B2: map<u16, Record>,
                       B3: map<u16, Record>, S3: map<u16, Record>, A: map<u16, Record>, L: map<u16, Record>)
    requires Transfer(map[], T, B1, S1) && Closed(T, S1) && StubsAdded(B1, S1, B2)
    requires Transfer(B2, S1, B3, S3) && Closed(S1, S3)
    requires Transfer(map[], S3, A, L) && Closed(S3, L)
    ensures ChildrenFollow(B3, L, A)
  {
    forall k | k in B3 && WellFormed(B3[k])
      ensures forall c :: c in Children(B3[k]) ==> c !in S3
    {
      if !(k in S1 && k !in S3) {
        assert k in B2;
        if k !in B1 {
          StubHasNoChildren(S1[k]);
        }
      }
    }
  }

  lemma StagesNeededBase(T: map<u16, Record>, B1: map<u16, Record>, S1: map<u16, Record>, B2: map<u16, Record>,
                         B3: map<u16, Record>, S3: map<u16, Record>, A: map<u16, Record>, L: map<u16, Record>,
                         macros: seq<u16>)
    requires Transfer(map[], T, B1, S1) && Justified(T, S1, [0]) && StubsAdded(B1, S1, B2)
    requires Transfer(B2, S1, B3, S3) && Justified(S1, S3, macros)
    requires Transfer(map[], S3, A, L) && forall k :: k in L ==> !IsAux2(L[k])
    ensures exists rank: u16 -> nat :: BaseRanked(T, macros, B3, A, rank)
  {
    var rank1: u16 -> nat :| RankedBy(T, S1, [0], rank1);
    var rank2: u16 -> nat :| RankedBy(S1, S3, macros, rank2);
    var rank: u16 -> nat := (k: u16) => if k in S1 then rank2(k) else rank1(k);
    forall k | k in B3
      ensures k == 0 || k in macros || (k in T && IsAux2(T[k]) && k in A && B3[k] == Stub(T[k])) ||
              exists p :: p in B3 && WellFormed(B3[p]) && k in Children(B3[p]) && rank(p) < rank(k)
    {
      BaseReason(T, B1, S1, B2, B3, S3, A, L, macros, rank1, rank2, rank, k);
    }
    assert BaseRanked(T, macros, B3, A, rank);
  }

  /** Why one object is in base: object 0, a macro, a stub aux holds, or a child of a
      base object moved before it. */
  lemma BaseReason(T: map<u16, Record>, B1: map<u16, Record>, S1: map<u16, Record>, B2: map<u16, Record>,
                   B3: map<u16, Record>, S3: map<u16, Record>, A: map<u16, Record>, L: map<u16, Record>,
                   macros: seq<u16>, rank1: u16 -> nat, rank2: u16 -> nat, rank: u16 -> nat, k: u16)
    requires Transfer(map[], T, B1, S1) && RankedBy(T, S1, [0], rank1) && StubsAdded(B1, S1, B2)
    requires Transfer(B2, S1, B3, S3) && RankedBy(S1, S3, macros, rank2)
    requires Transfer(map[], S3, A, L) && forall k :: k in L ==> !IsAux2(L[k])
    requires forall j :: rank(j) == if j in S1 then rank2(j) else rank1(j)
    requires k in B3
    ensures k == 0 || k in macros || (k in T && IsAux2(T[k]) && k in A && B3[k] == Stub(T[k])) ||
            exists p :: p in B3 && WellFormed(B3[p]) && k in Children(B3[p]) && rank(p) < rank(k)
  {
    if k in S1 && k !in S3 {
      if k !in macros {
        MacroTreeReason(S1, B2, B3, S3, macros, rank2, rank, k);
      }
    } else if k in B1 {
      if k != 0 {
        WorkingSetTreeReason(T, B1, S1, B2, B3, S3, rank1, rank, k);
      }
    } else {
      assert k in B2;
      assert k in S1 && IsAux2(S1[k]) && k in S3 && k !in L;
    }
  }

  /** An object the macros took is a macro or a child of one taken before it. */
  lemma MacroTreeReason(S1: map<u16, Record>, B2: map<u16, Record>, B3: map<u16, Record>, S3: map<u16, Record>,
                        macros: seq<u16>, rank2: u16 -> nat, rank: u16 -> nat, k: u16)
    requires Transfer(B2, S1, B3, S3) && RankedBy(S1, S3, macros, rank2)
    requires forall j :: j in S1 ==> rank(j) == rank2(j)
    requires k in S1 && k !in S3 && k !in macros
    ensures exists p :: p in B3 && WellFormed(B3[p]) && k in Children(B3[p]) && rank(p) < rank(k)
  {
    var p :| p in S1 && p !in S3 && WellFormed(S1[p]) && k in Children(S1[p]) && rank2(p) < rank2(k);
    assert p in B3 && B3[p] == S1[p] && rank(p) < rank(k);
  }

  /** An object of the Working Set tree other than object 0 is a child of one taken
      before it. */
  lemma WorkingSetTreeReason(T: map<u16, Record>, B1: map<u16, Record>, S1: map<u16, Record>, B2: map<u16, Record>,
                             B3: map<u16, Record>, S3: map<u16, Record>, rank1: u16 -> nat, rank: u16 -> nat, k: u16)
    requires Transfer(map[], T, B1, S1) && RankedBy(T, S1, [0], rank1) && StubsAdded(B1, S1, B2)
    requires Transfer(B2, S1, B3, S3)
    requires forall j :: j !in S1 ==> rank(j) == rank1(j)
    requires k in B1 && k != 0
    ensures exists p :: p in B3 && WellFormed(B3[p]) && k in Children(B3[p]) && rank(p) < rank(k)
  {
    var p :| p in T && p !in S1 && WellFormed(T[p]) && k in Children(T[p]) && rank1(p) < rank1(k);
    assert p in B1 && p in B2;
    assert p in B3 && B3[p] == T[p] && rank(p) < rank(k);
  }

  lemma StagesNeededAux(S3: map<u16, Record>, A: map<u16, Record>, L: map<u16, Record>, roots: seq<u16>)
    requires Transfer(map[], S3, A, L) && Justified(S3, L, roots)
    requires forall i :: 0 <= i < |roots| ==> roots[i] in S3 && IsAux2(S3[roots[i]])
    ensures exists rank: u16 -> nat :: AuxRanked(A, rank)
  {
    var rank: u16 -> nat :| RankedBy(S3, L, roots, rank);
    forall k | k in A
      ensures IsAux2(A[k]) || exists p :: p in A && WellFormed(A[p]) && k in Children(A[p]) && rank(p) < rank(k)
    {
      if k !in roots {
        var p :| p in S3 && p !in L && WellFormed(S3[p]) && k in Children(S3[p]) && rank(p) < rank(k);
        assert p in A && A[p] == S3[p];
      }
    }
    assert AuxRanked(A, rank);
  }

  /** The stages of preparePool, one after the other, split the source as Partition says. */
  lemma StagesPartition(T: map<u16, Record>, B1: map<u16, Record>, S1: map<u16, Record>, B2: map<u16, Record>,
                        B3: map<u16, Record>, S3: map<u16, Record>, A: map<u16, Record>, L: map<u16, Record>,
                        macros: seq<u16>, roots: seq<u16>)
    requires 0 in T && IsWorkingSet(T[0])
    requires Moved(map[], T, B1, S1, [0]) && StubsAdded(B1, S1, B2)
    requires Moved(B2, S1, B3, S3, macros) && Moved(map[], S3, A, L, roots)
    requires forall i :: 0 <= i < |roots| ==> roots[i] in S3 && IsAux2(S3[roots[i]])
    requires forall k :: k in L ==> !IsAux2(L[k])
    ensures Partition(T, macros, B3, L, A)
  {
    StagesCopy(T, B1, S1, B2, B3, S3, A, L);
    StagesSeparate(T, B1, S1, B2, B3, S3, A, L);
    StagesPlaced(T, B1, S1, B2, B3, S3, A, L, macros);
    StagesKept(T, B1, S1, B2, B3, S3, A, L);
    StagesChildren(T, B1, S1, B2, B3, S3, A, L);
    StagesNeededBase(T, B1, S1, B2, B3, S3, A, L, macros);
    StagesNeededAux(S3, A, L, roots);
  }

  /** An entry of base that aux lacks is the source object itself. */
  lemma BaseFullEntry(T: map<u16, Record>, B: map<u16, Record>, L: map<u16, Record>, A: map<u16, Record>, k: u16)
    requires Copies(T, B, L, A) && AuxKept(T, B, A)
    requires k in B && k !in A
    ensures k in T && B[k] == T[k]
  {
  }

  /** A base object that aux lacks is one in every split: it is reached from object 0
      or a macro through full base objects, whose children every split keeps in base. */
  lemma {:induction false} BaseFullShared(T: map<u16, Record>, macros: seq<u16>,
                                          B: map<u16, Record>, L: map<u16, Record>, A: map<u16, Record>,
                                          B': map<u16, Record>, L': map<u16, Record>, A': map<u16, Record>,
                                          rank: u16 -> nat, k: u16)
    requires Copies(T, B, L, A) && Separate(B, L, A) && AuxKept(T, B, A) && BaseRanked(T, macros, B, A, rank)
    requires Partition(T, macros, B', L', A')
    requires k in B && k !in A
    ensures k in B' && k !in A' && B'[k] == B[k]
    decreases rank(k)
  {
    BaseFullEntry(T, B, L, A, k);
    if k == 0 {
      assert !IsAux2(T[0]);
    } else if k in macros {
      var i :| 0 <= i < |macros| && macros[i] == k;
    } else {
      var p :| p in B && WellFormed(B[p]) && k in Children(B[p]) && rank(p) < rank(k);
      if p in A {
        StubHasNoChildren(A[p]);
        assert false;
      }
      BaseFullShared(T, macros, B, L, A, B', L', A', rank, p);
      assert k !in L' && k !in A';
      BaseFullEntry(T, B', L', A', k);
    }
  }

  /** An aux object is one in every split: it is reached from an Auxiliary Function
      Type 2 object through aux objects, and no split keeps any of them in full in base. */
  lemma {:induction false} AuxShared(T: map<u16, Record>, B: map<u16, Record>, A: map<u16, Record>,
                                     B': map<u16, Record>, L': map<u16, Record>, A': map<u16, Record>,
                                     rank: u16 -> nat, k: u16)
    requires (forall j :: j in A ==> j in T && A[j] == T[j]) && AuxRanked(A, rank)
    requires Covers(T, B', L', A') && Copies(T, B', L', A') && AuxKept(T, B', A') && ChildrenFollow(B', L', A')
    requires forall j :: j in B' && j !in A' ==> j in B && j !in A
    requires k in A
    ensures k in A'
    decreases rank(k)
  {
    if !IsAux2(A[k]) {
      var p :| p in A && WellFormed(A[p]) && k in Children(A[p]) && rank(p) < rank(k);
      AuxShared(T, B, A, B', L', A', rank, p);
      assert A'[p] == A[p] && k !in L';
    }
  }

  /** The split is determined by the source table and the macro list: preparePool
      has exactly one outcome that Partition allows. */
  lemma PartitionUnique(T: map<u16, Record>, macros: seq<u16>,
                        B: map<u16, Record>, L: map<u16, Record>, A: map<u16, Record>,
                        B': map<u16, Record>, L': map<u16, Record>, A': map<u16, Record>)
    requires Partition(T, macros, B, L, A) && Partition(T, macros, B', L', A')
    ensures B == B' && L == L' && A == A'
  {
    BaseFullAgree(T, macros, B, L, A, B', L', A');
    BaseFullAgree(T, macros, B', L', A', B, L, A);
    AuxAgree(T, macros, B, L, A, B', L', A');
    AuxAgree(T, macros, B', L', A', B, L, A);
    SplitsAgree(T, B, L, A, B', L', A');
  }

  lemma BaseFullAgree(T: map<u16, Record>, macros: seq<u16>,
                      B: map<u16, Record>, L: map<u16, Record>, A: map<u16, Record>,
                      B': map<u16, Record>, L': map<u16, Record>, A': map<u16, Record>)
    requires Partition(T, macros, B, L, A) && Partition(T, macros, B', L', A')
    ensures forall k :: k in B && k !in A ==> k in B' && k !in A' && B'[k] == B[k]
  {
    var rank: u16 -> nat :| BaseRanked(T, macros, B, A, rank);
    forall k | k in B && k !in A
      ensures k in B' && k !in A' && B'[k] == B[k]
    {
      BaseFullShared(T, macros, B, L, A, B', L', A', rank, k);
    }
  }

  lemma AuxAgree(T: map<u16, Record>, macros: seq<u16>,
                 B: map<u16, Record>, L: map<u16, Record>, A: map<u16, Record>,
                 B': map<u16, Record>, L': map<u16, Record>, A': map<u16, Record>)
    requires Partition(T, macros, B, L, A) && Partition(T, macros, B', L', A')
    requires forall j :: j in B' && j !in A' ==> j in B && j !in A
    ensures forall k :: k in A ==> k in A'
  {
    var rank: u16 -> nat :| AuxRanked(A, rank);
    forall k | k in A
      ensures k in A'
    {
      AuxShared(T, B, A, B', L', A', rank, k);
    }
  }

  /** Two splits with the same aux keys and the same full base entries are equal. */
  lemma SplitsAgree(T: map<u16, Record>, B: map<u16, Record>, L: map<u16, Record>, A: map<u16, Record>,
                    B': map<u16, Record>, L': map<u16, Record>, A': map<u16, Record>)
    requires Covers(T, B, L, A) && Copies(T, B, L, A) && Separate(B, L, A)
    requires Covers(T, B', L', A') && Copies(T, B', L', A') && Separate(B', L', A')
    requires forall k :: k in A <==> k in A'
    requires forall k :: k in B && k !in A ==> k in B' && B'[k] == B[k]
    requires forall k :: k in B' && k !in A' ==> k in B
    ensures B == B' && L == L' && A == A'
  {
    assert A.Keys == A'.Keys;
    assert B.Keys == B'.Keys;
    assert L.Keys == L'.Keys;
  }

  /** The key sets of a split: the source keys are base, aux and the rest, the rest
      apart from the other two, and base and aux overlapping in the Auxiliary Function
      Type 2 keys of aux. */
  lemma PartitionKeys(T: map<u16, Record>, B: map<u16, Record>, L: map<u16, Record>, A: map<u16, Record>)
    requires Covers(T, B, L, A) && Copies(T, B, L, A) && Separate(B, L, A)
    ensures T.Keys == (B.Keys + A.Keys) + L.Keys
    ensures (B.Keys + A.Keys) * L.Keys == {} && L.Keys * A.Keys == {}
    ensures B.Keys * A.Keys == Aux2Keys(A)
    ensures (L + A).Keys == L.Keys + A.Keys
  {
  }

  lemma {:induction false} UnionCount(tk: set<u16>, bk: set<u16>, lk: set<u16>, ak: set<u16>, both: set<u16>)
    requires tk == (bk + ak) + lk
    requires (bk + ak) * lk == {} && lk * ak == {} && bk * ak == both
    ensures |lk + ak| + |bk| == |tk| + |both|
  {
    var ba := bk + ak;
    assert |lk + ak| == |lk| + |ak|;
    assert |ba| == |bk| + |ak| - |both|;
    assert |tk| == |ba| + |lk|;
  }

  /** The object count the cross-check relies on: secondary and base together count
      every source object once, plus once more each Auxiliary Function Type 2 object
      (full in secondary, stub in base). */
  lemma PartitionCount(T: map<u16, Record>, B: map<u16, Record>, L: map<u16, Record>, A: map<u16, Record>)
    requires Covers(T, B, L, A) && Copies(T, B, L, A) && Separate(B, L, A)
    ensures |L + A| + |B| == |T| + |Aux2Keys(A)|
  {
    PartitionKeys(T, B, L, A);
    UnionCount(T.Keys, B.Keys, L.Keys, A.Keys, Aux2Keys(A));
  }

  /** Secondary holds copies of source objects only. */
  lemma SecondaryCopies(T: map<u16, Record>, B: map<u16, Record>, L: map<u16, Record>, A: map<u16, Record>)
    requires Copies(T, B, L, A)
    ensures forall k :: k in L + A ==> k in T && (L + A)[k] == T[k]
  {
  }

  /** IsoPoolObjSize reads the stub of every Auxiliary Function Type 2 object of the
      table as 6 bytes long. */
  ghost predicate StubsDelimit(T: map<u16, Record>, objSize: SizeDecoder)
  {
    forall k, t :: k in T && IsAux2(T[k]) ==> objSize(Stub(T[k]) + t) == 6
  }

  /** A table of copies and stubs of source objects is keyed by ID and self-delimiting
      when the source is. */
  lemma CopiesDelimit(T: map<u16, Record>, M: map<u16, Record>, objSize: SizeDecoder)
    requires IdsMatchKeys(T) && AllWellFormed(T) && SelfDelimiting(T, objSize) && StubsDelimit(T, objSize)
    requires forall k :: k in M ==> k in T && (M[k] == T[k] || (IsAux2(T[k]) && M[k] == Stub(T[k])))
    ensures IdsMatchKeys(M) && SelfDelimiting(M, objSize)
    ensures forall k :: k in M ==> |M[k]| >= 3
  {
    forall k | k in M
      ensures |M[k]| >= 3 && Id(M[k]) == k
    {
      if M[k] != T[k] {
        StubHasNoChildren(T[k]);
      }
    }
    forall k, t | k in M
      ensures objSize(M[k] + t) == |M[k]|
    {
      if M[k] != T[k] {
        assert objSize(Stub(T[k]) + t) == 6;
      }
    }
  }

  /** Such a table counts back as its size once written out. */
  lemma CopiesCount(T: map<u16, Record>, M: map<u16, Record>, objSize: SizeDecoder)
    requires IdsMatchKeys(T) && AllWellFormed(T) && SelfDelimiting(T, objSize) && StubsDelimit(T, objSize)
    requires |T| < 0x1_0000
    requires forall k :: k in M ==> k in T && (M[k] == T[k] || (IsAux2(T[k]) && M[k] == Stub(T[k])))
    ensures NumObjects(Serialise(M), objSize) == |M|
  {
    CopiesDelimit(T, M, objSize);
    SerialiseRoundTrip(M, objSize);
    assert M.Keys <= T.Keys;
    SubsetCard(M.Keys, T.Keys);
    SmallMod(|M|);
  }

  lemma SmallMod(n: nat)
    requires n < 0x1_0000
    ensures n % 0x1_0000 == n
  {
  }

  /** Counting the written base and secondary pools of a split of a pool of fewer than
      65536 self-delimiting objects. */
  lemma PartitionLoads(T: map<u16, Record>, objSize: SizeDecoder,
                       B: map<u16, Record>, L: map<u16, Record>, A: map<u16, Record>)
    requires Covers(T, B, L, A) && Copies(T, B, L, A) && Separate(B, L, A)
    requires IdsMatchKeys(T) && AllWellFormed(T) && SelfDelimiting(T, objSize) && StubsDelimit(T, objSize)
    requires |T| < 0x1_0000
    ensures NumObjects(Serialise(B), objSize) + NumObjects(Serialise(L + A), objSize) == |T| + |Aux2Keys(A)|
  {
    CopiesCount(T, B, objSize);
    SecondaryCount(T, objSize, B, L, A);
    PartitionCount(T, B, L, A);
  }

  /** Secondary, written out, counts back to its number of entries. */
  lemma SecondaryCount(T: map<u16, Record>, objSize: SizeDecoder,
                       B: map<u16, Record>, L: map<u16, Record>, A: map<u16, Record>)
    requires Copies(T, B, L, A)
    requires IdsMatchKeys(T) && AllWellFormed(T) && SelfDelimiting(T, objSize) && StubsDelimit(T, objSize)
    requires |T| < 0x1_0000
    ensures NumObjects(Serialise(L + A), objSize) == |L + A|
  {
    SecondaryCopies(T, B, L, A);
    CopiesCount(T, L + A, objSize);
  }

  /** The count cross-check of preparePool, in 32-bit unsigned arithmetic. */
  predicate CountsAgree(numberObjects: u16, baseSize: u16, secondarySize: u16, auxFunction2Count: nat)
    ensures auxFunction2Count <= secondarySize as int + baseSize as int ==>
              (CountsAgree(numberObjects, baseSize, secondarySize, auxFunction2Count) <==>
               secondarySize as int + baseSize as int - auxFunction2Count == numberObjects as int)
    ensures secondarySize as int + baseSize as int < auxFunction2Count < 0x1_0000_0000 - 0x1_0000 ==>
              !CountsAgree(numberObjects, baseSize, secondarySize, auxFunction2Count)
  {
    (secondarySize + baseSize - auxFunction2Count) % 0x1_0000_0000 == numberObjects
  }

  /** A pool that preparePool accepts: an exact sequence of fewer than 65536 records with
      distinct IDs, object 0 a Working Set, each record and each Auxiliary Function Type 2
      stub decoding to its own length. */
  ghost predicate Loadable(srcPool: seq<u8>, objSize: SizeDecoder)
  {
    match Walk(srcPool, objSize)
    case None => false
    case Some(recs) =>
      |recs| < 0x1_0000 && DistinctIds(recs) &&
      var t := TableOf(recs);
      0 in t && IsWorkingSet(t[0]) && SelfDelimiting(t, objSize) && StubsDelimit(t, objSize)
  }

  /** preparePool: itemizes the source pool; moves the Working Set tree to base; adds a
      stub of every Auxiliary Function Type 2 object left outside that tree to base;
      moves the listed macro trees to base, in full over any stub; moves the remaining
      Auxiliary Function Type 2 objects with what they reference to aux;
      then merges aux into the rest (secondary) and base under aux (gAux), writes the
      three pools and cross-checks the object counts. It fails on an empty or malformed
      pool, when object 0 is missing or not a Working Set, and when the counts disagree;
      every well-formed pool of distinct, self-delimiting objects rooted at a Working Set
      passes. */
  method PreparePool(srcPool: seq<u8>, objSize: SizeDecoder, macroList: seq<u8>)
    returns (ok: bool, basePool: seq<u8>, secondaryPool: seq<u8>, gAuxPool: seq<u8>,
             ghost base: map<u16, Record>, ghost rest: map<u16, Record>, ghost aux: map<u16, Record>)
    requires |macroList| < 0x100
    requires AllWellFormed(Table(srcPool, objSize))
    ensures ok <==>
              NumObjects(srcPool, objSize) != 0 &&
              0 in Table(srcPool, objSize) && IsWorkingSet(Table(srcPool, objSize)[0]) &&
              CountsAgree(NumObjects(srcPool, objSize), NumObjects(basePool, objSize),
                          NumObjects(secondaryPool, objSize), |Aux2Keys(aux)|)
    ensures ok ==> Partition(Table(srcPool, objSize), MacroIds(macroList), base, rest, aux)
    ensures ok ==> basePool == Serialise(base) && secondaryPool == Serialise(rest + aux) &&
                   gAuxPool == Serialise(base + aux)
    ensures Loadable(srcPool, objSize) ==> ok
  {
    var qRet := true;
    var u16NumberObjects := NumObjects(srcPool, objSize);
    var srcPoolSize := |srcPool|;
    if u16NumberObjects == 0 {
      srcPoolSize := 0;
      qRet := false;
    }
    assert srcPool[..|srcPool|] == srcPool;

    // split the source pool into individual objects
    var poolItems := new ObjectMap();
    Itemize(srcPool[..srcPoolSize], objSize, poolItems);
    ghost var T := poolItems.items;

    // 1. everything belonging to the Working Set
    var basePoolItems := new ObjectMap();
    if 0 in poolItems.items {
      var poolItem := poolItems.items[0];
      if poolItem[2] == WORKING_SET {
        MoveWorkingSet(0, basePoolItems, poolItems);
        TransferWellFormed(map[], T, basePoolItems.items, poolItems.items);
        TransferKeepsIds(map[], T, basePoolItems.items, poolItems.items);
      } else {
        poolItems.items := map[];
        qRet := false;
      }
    } else {
      poolItems.items := map[];
      qRet := false;
    }
    ghost var B1, S1 := basePoolItems.items, poolItems.items;

    // 2. a stub of every Auxiliary Function Type 2 object
    StubAuxFunctions(basePoolItems, poolItems);
    ghost var B2 := basePoolItems.items;

    // 3. the listed macros
    if qRet && |macroList| > 0 {
      MoveMacros(macroList, basePoolItems, poolItems);
      TransferShrinks(B2, S1, basePoolItems.items, poolItems.items);
      TransferKeepsIds(B2, S1, basePoolItems.items, poolItems.items);
    } else {
      MovedNothing(B2, S1, MacroIds(macroList));
    }
    ghost var B3, S3 := basePoolItems.items, poolItems.items;

    // the Auxiliary Function Type 2 objects with their object lists
    var auxPoolItems := new ObjectMap();
    ghost var roots := ExtractAuxFunctions(auxPoolItems, poolItems);
    ghost var A, L := auxPoolItems.items, poolItems.items;
    base, rest, aux := B3, L, A;

    basePool, secondaryPool, gAuxPool := [], [], [];
    if qRet {
      StagesPartition(T, B1, S1, B2, B3, S3, A, L, MacroIds(macroList), roots);
      TransferWellFormed(map[], S3, A, L);
      var auxFunction2Count := MergeAux(auxPoolItems, poolItems);
      MergeBase(basePoolItems, auxPoolItems);

      var basePoolSize := PoolSize(basePoolItems.items);
      var secondaryPoolSize := PoolSize(poolItems.items);
      var gAuxPoolSize := PoolSize(auxPoolItems.items);
      basePool := SerialisePool(basePoolItems.items, basePoolSize);
      secondaryPool := SerialisePool(poolItems.items, secondaryPoolSize);
      gAuxPool := SerialisePool(auxPoolItems.items, gAuxPoolSize);

      var baseSize := NumObjects(basePool, objSize);
      var secondarySize := NumObjects(secondaryPool, objSize);
      if !CountsAgree(u16NumberObjects, baseSize, secondarySize, auxFunction2Count) {
        qRet := false;
      }
      if Loadable(srcPool, objSize) {
        LoadableCounts(srcPool, objSize, MacroIds(macroList), B3, L, A);
      }
    } else if Loadable(srcPool, objSize) {
      LoadableRooted(srcPool, objSize);
    }
    ok := qRet;
  }

  /** A loadable pool is counted, and its object 0 is a Working Set. */
  lemma LoadableRooted(srcPool: seq<u8>, objSize: SizeDecoder)
    requires Loadable(srcPool, objSize)
    ensures NumObjects(srcPool, objSize) != 0
    ensures 0 in Table(srcPool, objSize) && IsWorkingSet(Table(srcPool, objSize)[0])
    ensures |Table(srcPool, objSize)| == NumObjects(srcPool, objSize)
  {
    var recs := Walk(srcPool, objSize).value;
    TableOfSize(recs);
    assert recs != [];
    SmallMod(|recs|);
  }

  /** The cross-check passes on every split of a loadable pool. */
  lemma LoadableCounts(srcPool: seq<u8>, objSize: SizeDecoder, macros: seq<u16>,
                       B: map<u16, Record>, L: map<u16, Record>, A: map<u16, Record>)
    requires Loadable(srcPool, objSize) && AllWellFormed(Table(srcPool, objSize))
    requires Partition(Table(srcPool, objSize), macros, B, L, A)
    ensures CountsAgree(NumObjects(srcPool, objSize), NumObjects(Serialise(B), objSize),
                        NumObjects(Serialise(L + A), objSize), |Aux2Keys(A)|)
  {
    LoadableRooted(srcPool, objSize);
    var T := Table(srcPool, objSize);
    PartitionLoads(T, objSize, B, L, A);
    var n := NumObjects(srcPool, objSize);
    assert NumObjects(Serialise(L + A), objSize) + NumObjects(Serialise(B), objSize) - |Aux2Keys(A)| == n;
    SmallMod32(n);
  }

  lemma SmallMod32(n: nat)
    requires n < 0x1_0000_0000
    ensures n % 0x1_0000_0000 == n
  {
  }

  /** parsePool: runs preparePool and hands out the three pools; on failure all three
      are empty. */
  method ParsePool(srcPool: seq<u8>, objSize: SizeDecoder, macroList: seq<u8>)
    returns (ok: bool, basePool: seq<u8>, secondaryPool: seq<u8>, gAuxPool: seq<u8>,
             ghost base: map<u16, Record>, ghost rest: map<u16, Record>, ghost aux: map<u16, Record>)
    requires |macroList| < 0x100
    requires AllWellFormed(Table(srcPool, objSize))
    ensures !ok ==> basePool == [] && secondaryPool == [] && gAuxPool == []
    ensures ok ==> NumObjects(srcPool, objSize) != 0 &&
                   0 in Table(srcPool, objSize) && IsWorkingSet(Table(srcPool, objSize)[0]) &&
                   CountsAgree(NumObjects(srcPool, objSize), NumObjects(basePool, objSize),
                               NumObjects(secondaryPool, objSize), |Aux2Keys(aux)|)
    ensures ok ==> Partition(Table(srcPool, objSize), MacroIds(macroList), base, rest, aux)
    ensures ok ==> basePool == Serialise(base) && secondaryPool == Serialise(rest + aux) &&
                   gAuxPool == Serialise(base + aux)
    ensures Loadable(srcPool, objSize) ==> ok
  {
    basePool, secondaryPool, gAuxPool := [], [], [];
    var pBasePool, pSecondaryPool, pGAuxPool;
    ok, pBasePool, pSecondaryPool, pGAuxPool, base, rest, aux := PreparePool(srcPool, objSize, macroList);
    if ok {
      if |pBasePool| > 0 {
        basePool := pBasePool;
      }
      if |pSecondaryPool| > 0 {
        secondaryPool := pSecondaryPool;
      }
      if |pGAuxPool| > 0 {
        gAuxPool := pGAuxPool;
      }
    }
  }
}
