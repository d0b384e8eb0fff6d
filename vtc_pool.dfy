/** The multi-step language load: the registry of derived pools, the VTCPool state
    record and the handler that uploads the loader pool, the English pool and the
    final language pool one after the other.

    Calls into the ISO library (delete or store a version, reload a pool, change the
    active mask, set a numeric value reference) are returned as a list of requests
    in call order. The outcome of IsoPoolReload is an argument. */
module VtcPools {
  import opened Options
  import opened PoolRecords
  import opened ObjectTable
  import opened Partitioner
  import opened PoolPreparation
  import opened LanguageCodes

  /** The Output Number object whose value reference is reset before a pool is stored. */
  const OUTPUT_NUMBER_12000: u16 := 12000
  /** The Working Set object and the mask shown once the last pool is active. */
  const WORKING_SET_ID: u16 := 0
  const MAIN_MASK_ID: u16 := 1001

  datatype Request =
    | DeleteVersion(versionString: seq<u8>)
    | NumericValueRef(objectId: u16, valueRef: u16)
    | StoreVersion(versionLabel: seq<u8>)
    | PoolReload(poolData: seq<u8>, numberObjects: u16)
    | PoolManipulation
    | ActiveMask(workingSetId: u16, maskId: u16)

  // ---------------------------------------------------------------------------
  // Pool registry

  /** The three pools derived by parsePool and the static German pool. */
  datatype Registry = Registry(base: seq<u8>, secondary: seq<u8>, gAux: seq<u8>, german: seq<u8>)

  /** A pool handed to IsoPoolReload: its bytes, its size as a 32-bit value and its
      object count. */
  datatype Pool = Pool(data: seq<u8>, size: nat, numberObjects: u16)

  /** vtcPoolGetPool: the aux pool for A3, the base pool for the loader code, the
      German pool for German and Swedish and the secondary pool for everything else. */
  function GetPool(lc: Code, registry: Registry, objSize: SizeDecoder): (pool: Pool)
    ensures lc == A3 ==> pool.data == registry.gAux
    ensures lc == BASE ==> pool.data == registry.base
    ensures lc == DE || lc == SV ==> pool.data == registry.german
    ensures lc != A3 && lc != BASE && lc != DE && lc != SV ==> pool.data == registry.secondary
    ensures pool.size == |pool.data| % 0x1_0000_0000
    ensures pool.numberObjects == NumObjects(pool.data, objSize)
  {
    var data :=
      if lc == A3 then registry.gAux
      else if lc == BASE then registry.base
      else if lc == DE || lc == SV then registry.german
      else registry.secondary;
    Pool(data, |data| % 0x1_0000_0000, NumObjects(data, objSize))
  }

  /** The object table each derived pool carries. */
  function PoolMap(lc: Code, B: map<u16, Record>, L: map<u16, Record>, A: map<u16, Record>): map<u16, Record>
  {
    if lc == A3 then B + A else if lc == BASE then B else L + A
  }

  /** A table of copies or stubs of source objects decodes from its serialisation and
      is counted exactly. */
  lemma CopiesLoad(T: map<u16, Record>, M: map<u16, Record>, objSize: SizeDecoder)
    requires IdsMatchKeys(T) && AllWellFormed(T) && SelfDelimiting(T, objSize) && StubsDelimit(T, objSize)
    requires |T| < 0x1_0000
    requires forall k :: k in M ==> k in T && (M[k] == T[k] || (IsAux2(T[k]) && M[k] == Stub(T[k])))
    ensures Table(Serialise(M), objSize) == M
    ensures NumObjects(Serialise(M), objSize) == |M|
  {
    CopiesDelimit(T, M, objSize);
    SerialiseRoundTrip(M, objSize);
    CopiesCount(T, M, objSize);
  }

  /** For a registry filled by a successful parsePool, every language other than
      German and Swedish selects a pool that decodes to its derived table (base, the
      rest with the aux functions, or base overlaid with the aux functions), and the
      object count handed to IsoPoolReload is that table's size. */
  lemma RegistryPools(T: map<u16, Record>, objSize: SizeDecoder,
                      B: map<u16, Record>, L: map<u16, Record>, A: map<u16, Record>,
                      german: seq<u8>, lc: Code)
    requires Copies(T, B, L, A)
    requires IdsMatchKeys(T) && AllWellFormed(T) && SelfDelimiting(T, objSize) && StubsDelimit(T, objSize)
    requires |T| < 0x1_0000
    requires lc != DE && lc != SV
    ensures Table(GetPool(lc, Registry(Serialise(B), Serialise(L + A), Serialise(B + A), german), objSize).data, objSize)
            == PoolMap(lc, B, L, A)
    ensures GetPool(lc, Registry(Serialise(B), Serialise(L + A), Serialise(B + A), german), objSize).numberObjects
            == |PoolMap(lc, B, L, A)|
  {
    PoolMapCopies(T, B, L, A, lc);
    CopiesLoad(T, PoolMap(lc, B, L, A), objSize);
  }

  /** Every derived table holds copies or stubs of source objects. */
  lemma PoolMapCopies(T: map<u16, Record>, B: map<u16, Record>, L: map<u16, Record>, A: map<u16, Record>, lc: Code)
    requires Copies(T, B, L, A)
    ensures var M := PoolMap(lc, B, L, A);
            forall k :: k in M ==> k in T && (M[k] == T[k] || (IsAux2(T[k]) && M[k] == Stub(T[k])))
  {
    var M := PoolMap(lc, B, L, A);
    forall k | k in M
      ensures k in T && (M[k] == T[k] || (IsAux2(T[k]) && M[k] == Stub(T[k])))
    {
      if lc == A3 && k in A {
        assert M[k] == A[k];
      }
    }
  }

  // ---------------------------------------------------------------------------
  // The load state and its steps

  /** The fields of the VTCPool record; stored lists the valid slots of the stored
      languages array. */
  datatype LoadState = LoadState(first: Code, final: Code, active: Code, transfer: Code, vt: Code,
                                 stored: seq<Code>, retry: bool, initialized: bool)

  /** vtcPoolClear's state. */
  function Cleared(): (s: LoadState)
    ensures s.stored == [] && !s.retry && !s.initialized
  {
    LoadState(UNDEFINED, UNDEFINED, UNDEFINED, UNDEFINED, UNDEFINED, [], false, false)
  }

  /** Appending a language to the stored array when there is a free slot, and leaving
      it unchanged when it is full. */
  function GuardedAppend(stored: seq<Code>, capacity: nat, lc: Code): (r: seq<Code>)
    ensures |stored| <= capacity ==> |r| <= capacity
    ensures stored <= r && |r| <= |stored| + 1
    ensures lc in r <==> lc in stored || |stored| < capacity
  {
    if |stored| < capacity then stored + [lc] else stored
  }

  /** The codes the stored array grows by when appending without a capacity check. */
  function CommitUnbounded(stored: seq<Code>, lc: Code): (r: seq<Code>)
    ensures lc in r
    ensures lc !in stored <==> |r| == |stored| + 1
  {
    if lc in stored then stored else stored + [lc]
  }

  /** The slots a sequence occupies in an array of the given capacity. */
  function Capped(codes: seq<Code>, capacity: nat): (r: seq<Code>)
    ensures |r| <= capacity && r <= codes
    ensures |codes| <= capacity ==> r == codes
  {
    if |codes| <= capacity then codes else codes[..capacity]
  }

  /** Whether vtcPoolInit keeps a reported version string: its suffix matches and its
      code is the loader, English, German or A3. */
  predicate Keep(versionString: seq<u8>, lenVersionStr: nat)
    requires lenVersionStr >= 32 && |versionString| == lenVersionStr
  {
    SuffixMatches(versionString, lenVersionStr) && Storable(GetLanguageCode(Some(versionString)))
  }

  predicate Reported(versionStrings: seq<seq<u8>>, lenVersionStr: nat)
  {
    lenVersionStr >= 32 && forall i :: 0 <= i < |versionStrings| ==> |versionStrings[i]| == lenVersionStr
  }

  /** The codes of the kept version strings in report order: what vtcPoolInit writes
      into consecutive stored slots. */
  function KeptCodes(versionStrings: seq<seq<u8>>, lenVersionStr: nat): (codes: seq<Code>)
    requires Reported(versionStrings, lenVersionStr)
    ensures |codes| <= |versionStrings|
    ensures forall i :: 0 <= i < |codes| ==> Storable(codes[i])
    decreases |versionStrings|
  {
    if versionStrings == [] then []
    else
      var last := versionStrings[|versionStrings| - 1];
      KeptCodes(versionStrings[..|versionStrings| - 1], lenVersionStr) +
      (if Keep(last, lenVersionStr) then [GetLanguageCode(Some(last))] else [])
  }

  /** The delete requests of vtcPoolInit in report order: one for every version
      string it does not keep. */
  function DeleteRequests(versionStrings: seq<seq<u8>>, lenVersionStr: nat): (requests: seq<Request>)
    requires Reported(versionStrings, lenVersionStr)
    ensures forall i :: 0 <= i < |requests| ==> requests[i].DeleteVersion? && requests[i].versionString in versionStrings
    decreases |versionStrings|
  {
    if versionStrings == [] then []
    else
      var last := versionStrings[|versionStrings| - 1];
      DeleteRequests(versionStrings[..|versionStrings| - 1], lenVersionStr) +
      (if Keep(last, lenVersionStr) then [] else [DeleteVersion(last)])
  }

  /** Every reported version string is either kept or gets exactly one delete request. */
  lemma {:induction false} EachLabelClassified(versionStrings: seq<seq<u8>>, lenVersionStr: nat)
    requires Reported(versionStrings, lenVersionStr)
    ensures |KeptCodes(versionStrings, lenVersionStr)| + |DeleteRequests(versionStrings, lenVersionStr)| == |versionStrings|
    decreases |versionStrings|
  {
    if versionStrings != [] {
      EachLabelClassified(versionStrings[..|versionStrings| - 1], lenVersionStr);
    }
  }

  /** A single version string: kept with its code, or deleted once. A Swedish label is
      deleted and never stored. */
  lemma SingleLabel(versionString: seq<u8>, lenVersionStr: nat)
    requires lenVersionStr >= 32 && |versionString| == lenVersionStr
    ensures Keep(versionString, lenVersionStr) ==>
              KeptCodes([versionString], lenVersionStr) == [GetLanguageCode(Some(versionString))] &&
              DeleteRequests([versionString], lenVersionStr) == []
    ensures !Keep(versionString, lenVersionStr) ==>
              KeptCodes([versionString], lenVersionStr) == [] &&
              DeleteRequests([versionString], lenVersionStr) == [DeleteVersion(versionString)]
    ensures GetLanguageCode(Some(versionString)) == SV ==> !Keep(versionString, lenVersionStr)
  {
    assert [versionString][..0] == [];
  }

  /** The first pool of a primary instance: the loader pool when the terminal has
      not stored it, else the final pool when stored, else English when stored, else
      the loader pool. */
  function InitialLanguage(stored: seq<Code>, final: Code): (lc: Code)
    ensures lc == BASE || lc == final || lc == EN
    ensures lc == BASE <==> BASE !in stored || (final !in stored && EN !in stored) || final == BASE
  {
    if BASE !in stored then BASE
    else if final in stored then final
    else if EN in stored then EN
    else BASE
  }

  /** The next pool of the load sequence: the final pool once English is stored,
      English once the loader pool is stored, else the loader pool. */
  function NextTransfer(stored: seq<Code>, final: Code): (lc: Code)
    ensures lc == final || lc == EN || lc == BASE
  {
    if EN in stored then final
    else if BASE in stored then EN
    else BASE
  }

  /** vtcPoolInit's state: cleared, the VT language set, initialized, the kept codes
      stored as far as the array holds them, and the first and final language chosen. */
  function InitState(auxVT: bool, vtLanguage: Code, versionStrings: seq<seq<u8>>,
                     lenVersionStr: nat, capacity: nat): (s: LoadState)
    requires Reported(versionStrings, lenVersionStr)
    ensures s.initialized && !s.retry && s.active == UNDEFINED && s.vt == vtLanguage
    ensures s.stored == Capped(KeptCodes(versionStrings, lenVersionStr), capacity)
    ensures auxVT ==> s.first == A3 && s.transfer == A3 && s.final == A3
    ensures !auxVT ==> s.final == FinalLanguage(vtLanguage) && s.transfer == s.first &&
                       s.first == InitialLanguage(s.stored, s.final)
  {
    var stored := Capped(KeptCodes(versionStrings, lenVersionStr), capacity);
    if auxVT then LoadState(A3, A3, UNDEFINED, A3, vtLanguage, stored, false, true)
    else
      var final := FinalLanguage(vtLanguage);
      var first := InitialLanguage(stored, final);
      LoadState(first, final, UNDEFINED, first, vtLanguage, stored, false, true)
  }

  /** The commit step of vtcPoolLoadHandler: a pending transfer becomes the active
      pool and is recorded as stored; a store request goes out only for a pool that
      was not stored and was not the initial upload. */
  function Commit(s: LoadState, capacity: nat, lenVersionStr: nat): (r: (LoadState, seq<Request>))
    requires lenVersionStr >= 32
    ensures s.transfer == UNDEFINED ==> r == (s, [])
    ensures s.transfer != UNDEFINED ==>
              r.0 == s.(active := s.transfer, transfer := UNDEFINED, stored := r.0.stored) &&
              (s.transfer in s.stored ==> r.0.stored == s.stored) &&
              (s.transfer in s.stored || |s.stored| < capacity <==> s.transfer in r.0.stored)
    ensures r.1 != [] <==> s.transfer != UNDEFINED && s.transfer !in s.stored && s.active != UNDEFINED
    ensures r.1 != [] ==> r.1 == [NumericValueRef(OUTPUT_NUMBER_12000, 0), StoreVersion(PoolLabel(s.transfer, lenVersionStr))]
  {
    if s.transfer == UNDEFINED then (s, [])
    else
      var contained := s.transfer in s.stored;
      var requests :=
        if !contained && s.active != UNDEFINED
        then [NumericValueRef(OUTPUT_NUMBER_12000, 0), StoreVersion(PoolLabel(s.transfer, lenVersionStr))]
        else [];
      var stored := if contained then s.stored else GuardedAppend(s.stored, capacity, s.transfer);
      (s.(active := s.transfer, transfer := UNDEFINED, stored := stored), requests)
  }

  /** The selection step of vtcPoolLoadHandler: once the final pool is active the
      main mask is shown; otherwise the next pool is reloaded, and a failed reload
      leaves nothing in transfer and arms the retry. */
  function Select(s: LoadState, registry: Registry, objSize: SizeDecoder, reloadOk: bool): (r: (LoadState, seq<Request>))
    ensures s.active == s.final ==> r == (s, [ActiveMask(WORKING_SET_ID, MAIN_MASK_ID)])
    ensures s.active != s.final ==>
              var pool := GetPool(NextTransfer(s.stored, s.final), registry, objSize);
              |r.1| >= 1 && r.1[0] == PoolReload(pool.data, pool.numberObjects) &&
              (reloadOk ==> r == (s.(transfer := NextTransfer(s.stored, s.final)), [r.1[0], PoolManipulation])) &&
              (!reloadOk ==> r == (s.(transfer := UNDEFINED, retry := true), [r.1[0]]))
  {
    if s.active == s.final then (s, [ActiveMask(WORKING_SET_ID, MAIN_MASK_ID)])
    else
      var transfer := NextTransfer(s.stored, s.final);
      var pool := GetPool(transfer, registry, objSize);
      var reload := PoolReload(pool.data, pool.numberObjects);
      if reloadOk then (s.(transfer := transfer), [reload, PoolManipulation])
      else (s.(transfer := UNDEFINED, retry := true), [reload])
  }

  /** vtcPoolLoadHandler: clears the retry, commits, then selects. */
  function Handle(s: LoadState, capacity: nat, lenVersionStr: nat, registry: Registry,
                  objSize: SizeDecoder, reloadOk: bool): (r: (LoadState, seq<Request>))
    requires lenVersionStr >= 32
    ensures r.0.first == s.first && r.0.final == s.final && r.0.vt == s.vt && r.0.initialized == s.initialized
    ensures s.stored <= r.0.stored
  {
    var c := Commit(s.(retry := false), capacity, lenVersionStr);
    var x := Select(c.0, registry, objSize, reloadOk);
    (x.0, c.1 + x.1)
  }

  /** The retry flag is set exactly when a reload was requested and failed. */
  lemma HandleRetry(s: LoadState, capacity: nat, lenVersionStr: nat, registry: Registry,
                    objSize: SizeDecoder, reloadOk: bool)
    requires lenVersionStr >= 32
    ensures var r := Handle(s, capacity, lenVersionStr, registry, objSize, reloadOk);
            r.0.retry <==> !reloadOk && |r.1| > 0 && r.1[|r.1| - 1].PoolReload?
  {
  }

  /** After a failed reload, the next call commits nothing and requests the very same
      pool again; when that reload succeeds, the target is the one that failed. */
  lemma {:induction false} RetryReselects(s: LoadState, capacity: nat, lenVersionStr: nat, registry: Registry,
                                          objSize: SizeDecoder, reloadOk: bool)
    requires lenVersionStr >= 32
    requires Handle(s, capacity, lenVersionStr, registry, objSize, false).0.retry
    ensures var r1 := Handle(s, capacity, lenVersionStr, registry, objSize, false);
            var r2 := Handle(r1.0, capacity, lenVersionStr, registry, objSize, reloadOk);
            var c := Commit(s.(retry := false), capacity, lenVersionStr).0;
            r2.1[0] == r1.1[|r1.1| - 1] &&
            (reloadOk ==> r2.0.transfer == NextTransfer(c.stored, c.final) && !r2.0.retry) &&
            (!reloadOk ==> r2.0 == r1.0)
  {
    var r1 := Handle(s, capacity, lenVersionStr, registry, objSize, false);
    var c := Commit(s.(retry := false), capacity, lenVersionStr).0;
    assert c.active != c.final;
    assert r1.0 == c.(transfer := UNDEFINED, retry := true);
    var c2 := Commit(r1.0.(retry := false), capacity, lenVersionStr);
    assert c2 == (c.(transfer := UNDEFINED), []);
  }

  /** The states the record can reach: the stored slots fit the array and hold
      storable codes, and every language field is undefined or storable. */
  predicate Sane(s: LoadState, capacity: nat)
  {
    |s.stored| <= capacity &&
    (forall i :: 0 <= i < |s.stored| ==> Storable(s.stored[i])) &&
    (s.transfer == UNDEFINED || Storable(s.transfer)) &&
    (s.active == UNDEFINED || Storable(s.active)) &&
    (s.final == UNDEFINED || Storable(s.final)) &&
    (s.final == UNDEFINED ==> s.active == UNDEFINED && s.transfer == UNDEFINED)
  }

  lemma ClearedSane(capacity: nat)
    ensures Sane(Cleared(), capacity)
  {
  }

  lemma InitSane(auxVT: bool, vtLanguage: Code, versionStrings: seq<seq<u8>>, lenVersionStr: nat, capacity: nat)
    requires Reported(versionStrings, lenVersionStr)
    ensures Sane(InitState(auxVT, vtLanguage, versionStrings, lenVersionStr, capacity), capacity)
  {
    var kept := KeptCodes(versionStrings, lenVersionStr);
    var stored := Capped(kept, capacity);
    assert forall i :: 0 <= i < |stored| ==> stored[i] == kept[i];
  }

  /** The handler keeps the stored array within its capacity and every field
      storable or undefined. */
  lemma HandleKeepsSane(s: LoadState, capacity: nat, lenVersionStr: nat, registry: Registry,
                        objSize: SizeDecoder, reloadOk: bool)
    requires lenVersionStr >= 32
    requires Sane(s, capacity)
    ensures Sane(Handle(s, capacity, lenVersionStr, registry, objSize, reloadOk).0, capacity)
  {
    var c := Commit(s.(retry := false), capacity, lenVersionStr).0;
    assert forall i :: 0 <= i < |c.stored| ==> Storable(c.stored[i]) by {
      if s.transfer != UNDEFINED && s.transfer !in s.stored && |s.stored| < capacity {
        assert c.stored == s.stored + [s.transfer];
      }
    }
  }

  /** A choice of the language setting keeps the state sane. */
  lemma UpdateSane(s: LoadState, capacity: nat, lc: Code)
    requires Sane(s, capacity)
    ensures Sane(s.(vt := lc, final := FinalLanguage(lc)), capacity)
    ensures Sane(s.(vt := lc), capacity)
  {
  }

  /** The handler applied steps times, every reload succeeding. */
  function Run(s: LoadState, steps: nat, capacity: nat, lenVersionStr: nat, registry: Registry,
               objSize: SizeDecoder): LoadState
    requires lenVersionStr >= 32
    decreases steps
  {
    if steps == 0 then s
    else Run(Handle(s, capacity, lenVersionStr, registry, objSize, true).0, steps - 1, capacity, lenVersionStr, registry, objSize)
  }

  /** With room for three more stored languages and every reload succeeding, the
      load sequence started by vtcPoolInit has the final pool active after three
      handler calls, and the next call shows the main mask. */
  lemma {:induction false} LoadSequenceReachesFinal(auxVT: bool, vtLanguage: Code, versionStrings: seq<seq<u8>>,
                                                    lenVersionStr: nat, capacity: nat, registry: Registry,
                                                    objSize: SizeDecoder, reloadOk: bool)
    requires Reported(versionStrings, lenVersionStr)
    requires |KeptCodes(versionStrings, lenVersionStr)| + 3 <= capacity
    ensures var s0 := InitState(auxVT, vtLanguage, versionStrings, lenVersionStr, capacity);
            var s3 := Run(s0, 3, capacity, lenVersionStr, registry, objSize);
            s3.active == s0.final && s3.transfer == UNDEFINED &&
            Handle(s3, capacity, lenVersionStr, registry, objSize, reloadOk).1 == [ActiveMask(WORKING_SET_ID, MAIN_MASK_ID)]
  {
    var s0 := InitState(auxVT, vtLanguage, versionStrings, lenVersionStr, capacity);
    var s1 := Handle(s0, capacity, lenVersionStr, registry, objSize, true).0;
    var s2 := Handle(s1, capacity, lenVersionStr, registry, objSize, true).0;
    var s3 := Handle(s2, capacity, lenVersionStr, registry, objSize, true).0;
    assert Run(s0, 3, capacity, lenVersionStr, registry, objSize) == s3 by {
      assert Run(s2, 1, capacity, lenVersionStr, registry, objSize) == s3;
    }
    CodesDistinct();
    Reaches(s0, s1, s2, s3, capacity, lenVersionStr, registry, objSize);
  }

  /** The case analysis behind LoadSequenceReachesFinal. */
  lemma Reaches(s0: LoadState, s1: LoadState, s2: LoadState, s3: LoadState, capacity: nat,
                lenVersionStr: nat, registry: Registry, objSize: SizeDecoder)
    requires lenVersionStr >= 32
    requires |s0.stored| + 3 <= capacity && s0.active == UNDEFINED
    requires s0.final == A3 ==> s0.transfer == A3
    requires s0.final != A3 ==> (s0.final == EN || s0.final == DE) && s0.transfer == InitialLanguage(s0.stored, s0.final)
    requires s1 == Handle(s0, capacity, lenVersionStr, registry, objSize, true).0
    requires s2 == Handle(s1, capacity, lenVersionStr, registry, objSize, true).0
    requires s3 == Handle(s2, capacity, lenVersionStr, registry, objSize, true).0
    ensures s3.active == s0.final && s3.transfer == UNDEFINED
  {
    CodesDistinct();
    assert s1.active == s0.transfer && s0.transfer in s1.stored;
    if s1.active != s1.final {
      assert s1.transfer == NextTransfer(s1.stored, s1.final);
      assert s2.active == s1.transfer && s1.transfer in s2.stored;
      if s2.active != s2.final {
        assert s2.transfer == NextTransfer(s2.stored, s2.final);
        assert s3.active == s2.transfer;
      }
    }
  }

  /** With stored slots for two languages, a German terminal that reports no stored
      pool makes vtcPoolLoadHandler append the loader, English and German codes in
      turn: the third append needs a third slot. */
  lemma LoadSequenceOverrunsStore()
    ensures var t1 := InitialLanguage([], FinalLanguage(DE));
            var s1 := CommitUnbounded([], t1);
            var t2 := NextTransfer(s1, FinalLanguage(DE));
            var s2 := CommitUnbounded(s1, t2);
            var t3 := NextTransfer(s2, FinalLanguage(DE));
            var s3 := CommitUnbounded(s2, t3);
            s3 == [BASE, EN, DE] && |s3| > 2
  {
    CodesDistinct();
  }

  /** Three matching labels for the loader, English and German pools make vtcPoolInit
      write three consecutive stored slots. */
  lemma InitOverrunsStore()
    ensures var labels := [PoolLabel(BASE, 32)[..32], PoolLabel(EN, 32)[..32], PoolLabel(DE, 32)[..32]];
            Reported(labels, 32) && KeptCodes(labels, 32) == [BASE, EN, DE] && |KeptCodes(labels, 32)| > 2
  {
    var labels := [PoolLabel(BASE, 32)[..32], PoolLabel(EN, 32)[..32], PoolLabel(DE, 32)[..32]];
    LabelKept(BASE, 32);
    LabelKept(EN, 32);
    LabelKept(DE, 32);
    ReportStep(labels, 0, 32);
    ReportStep(labels, 1, 32);
    ReportStep(labels, 2, 32);
    assert labels[..0] == [];
    assert labels[..3] == labels;
  }

  /** vtcPoolInit keeps the label vtcPoolGetPoolLabel makes for a storable code, and
      reads that code back from it. */
  lemma LabelKept(lc: Code, lenVersionStr: nat)
    requires lenVersionStr >= 32 && Storable(lc)
    ensures |PoolLabel(lc, lenVersionStr)[..lenVersionStr]| == lenVersionStr
    ensures Keep(PoolLabel(lc, lenVersionStr)[..lenVersionStr], lenVersionStr)
    ensures GetLanguageCode(Some(PoolLabel(lc, lenVersionStr)[..lenVersionStr])) == lc
  {
    LabelSuffixMatches(lc, lenVersionStr);
    LabelRoundTrip(lc, lenVersionStr);
  }

  // ---------------------------------------------------------------------------
  // The record

  /** struct VTCPool: the five language fields, the stored languages array of
      capacity POOLVERSIONS with its count, and the two flags. */
  class VtcPool {
    var firstLanguage: Code
    var finalLanguage: Code
    var activeLanguage: Code
    var transferLanguage: Code
    var vtLanguage: Code
    const storedLanguages: array<Code>
    var countStoredLanguages: u8
    var retryPoolLoad: bool
    var initialized: bool
    /** LENVERSIONSTR, the length of a version string. */
    const lenVersionStr: nat

    function State(): (s: LoadState)
      reads this, storedLanguages
      requires countStoredLanguages <= storedLanguages.Length
      ensures |s.stored| == countStoredLanguages as int && s.stored <= storedLanguages[..]
    {
      LoadState(firstLanguage, finalLanguage, activeLanguage, transferLanguage, vtLanguage,
                storedLanguages[..countStoredLanguages], retryPoolLoad, initialized)
    }

    ghost predicate Valid()
      reads this, storedLanguages
      ensures Valid() ==> countStoredLanguages as int <= storedLanguages.Length < 0x100
    {
      storedLanguages.Length < 0x100 && lenVersionStr >= 32 &&
      countStoredLanguages <= storedLanguages.Length && Sane(State(), storedLanguages.Length)
    }

    /** A record in its zero-initialised, cleared state. */
    constructor (poolVersions: nat, lenVersionStr: nat)
      requires poolVersions < 0x100 && lenVersionStr >= 32
      ensures Valid() && fresh(storedLanguages)
      ensures storedLanguages.Length == poolVersions && this.lenVersionStr == lenVersionStr
      ensures State() == Cleared()
      ensures storedLanguages[..] == seq(poolVersions, _ => UNDEFINED)
    {
      firstLanguage, finalLanguage, activeLanguage, transferLanguage, vtLanguage :=
        UNDEFINED, UNDEFINED, UNDEFINED, UNDEFINED, UNDEFINED;
      storedLanguages := new Code[poolVersions](_ => UNDEFINED);
      countStoredLanguages := 0;
      retryPoolLoad, initialized := false, false;
      this.lenVersionStr := lenVersionStr;
    }

    /** vtcPoolClear: every language field and every stored slot undefined, count
        zero, both flags false. */
    method Clear()
      requires Valid()
      modifies this, storedLanguages
      ensures Valid() && State() == Cleared()
      ensures storedLanguages[..] == seq(storedLanguages.Length, _ => UNDEFINED)
    {
      firstLanguage, finalLanguage, activeLanguage, transferLanguage, vtLanguage :=
        UNDEFINED, UNDEFINED, UNDEFINED, UNDEFINED, UNDEFINED;
      var idx := 0;
      while idx < storedLanguages.Length
        invariant idx <= storedLanguages.Length
        invariant forall i :: 0 <= i < idx ==> storedLanguages[i] == UNDEFINED
        modifies storedLanguages
      {
        storedLanguages[idx] := UNDEFINED;
        idx := idx + 1;
      }
      countStoredLanguages := 0;
      retryPoolLoad, initialized := false, false;
      ClearedSane(storedLanguages.Length);
    }

    /** vtcContainsLanguage: whether lc is among the valid stored slots. */
    method Contains(lc: Code) returns (found: bool)
      requires countStoredLanguages <= storedLanguages.Length
      ensures found <==> lc in State().stored
    {
      found := false;
      var idx := 0;
      while idx < storedLanguages.Length && idx < countStoredLanguages as int
        invariant idx <= countStoredLanguages as int
        invariant lc !in storedLanguages[..idx]
      {
        if storedLanguages[idx] == lc {
          found := true;
          return;
        }
        idx := idx + 1;
      }
    }

    /** vtcPoolInit: clears the record, keeps the reported version strings that match
        the family suffix and carry a storable code, requests deletion of the others
        and chooses the first and final language. A kept code is stored only while the
        array has a free slot. */
    method Init(auxVT: bool, vtLanguageIn: Code, versionStrings: seq<seq<u8>>) returns (requests: seq<Request>)
      requires Valid()
      requires |versionStrings| < 0x100
      requires Reported(versionStrings, lenVersionStr)
      modifies this, storedLanguages
      ensures Valid()
      ensures State() == InitState(auxVT, vtLanguageIn, versionStrings, lenVersionStr, storedLanguages.Length)
      ensures requests == DeleteRequests(versionStrings, lenVersionStr)
    {
      Clear();
      vtLanguage := vtLanguageIn;
      initialized := true;
      countStoredLanguages := 0;
      requests := StoreReported(versionStrings);
      ChooseLanguages(auxVT, vtLanguageIn);
      InitSane(auxVT, vtLanguageIn, versionStrings, lenVersionStr, storedLanguages.Length);
    }

    /** The scan of vtcPoolInit over the reported version strings. */
    method StoreReported(versionStrings: seq<seq<u8>>) returns (requests: seq<Request>)
      requires countStoredLanguages == 0 && storedLanguages.Length < 0x100
      requires Reported(versionStrings, lenVersionStr)
      modifies this, storedLanguages
      ensures countStoredLanguages <= storedLanguages.Length
      ensures State() == old(State()).(stored := Capped(KeptCodes(versionStrings, lenVersionStr), storedLanguages.Length))
      ensures requests == DeleteRequests(versionStrings, lenVersionStr)
    {
      requests := [];
      var count: nat := 0;
      var idx := 0;
      while idx < |versionStrings|
        invariant idx <= |versionStrings| && count <= storedLanguages.Length
        invariant storedLanguages[..count] == Capped(KeptCodes(versionStrings[..idx], lenVersionStr), storedLanguages.Length)
        invariant requests == DeleteRequests(versionStrings[..idx], lenVersionStr)
        modifies storedLanguages
      {
        count, requests := ScanOne(versionStrings, idx, count, requests);
        idx := idx + 1;
      }
      assert versionStrings[..idx] == versionStrings;
      countStoredLanguages := count;
    }

    /** One version string of vtcPoolInit's scan: deleted, stored in the next free
        slot, or left out when the array is full. */
    method ScanOne(versionStrings: seq<seq<u8>>, idx: nat, count: nat, requests: seq<Request>)
      returns (newCount: nat, newRequests: seq<Request>)
      requires Reported(versionStrings, lenVersionStr) && idx < |versionStrings|
      requires count <= storedLanguages.Length
      requires storedLanguages[..count] == Capped(KeptCodes(versionStrings[..idx], lenVersionStr), storedLanguages.Length)
      requires requests == DeleteRequests(versionStrings[..idx], lenVersionStr)
      modifies storedLanguages
      ensures newCount <= storedLanguages.Length
      ensures storedLanguages[..newCount] == Capped(KeptCodes(versionStrings[..idx + 1], lenVersionStr), storedLanguages.Length)
      ensures newRequests == DeleteRequests(versionStrings[..idx + 1], lenVersionStr)
    {
      newCount, newRequests := count, requests;
      var versionString := versionStrings[idx];
      ghost var before, requestsBefore := storedLanguages[..newCount], newRequests;
      if versionString[2..] != BaseLabel(lenVersionStr)[2..lenVersionStr] {
        newRequests := newRequests + [DeleteVersion(versionString)];
      } else {
        var lc := GetLanguageCode(Some(versionString));
        if lc == BASE || lc == EN || lc == DE || lc == A3 {
          if newCount < storedLanguages.Length {
            storedLanguages[newCount] := lc;
            newCount := newCount + 1;
            assert storedLanguages[..newCount] == before + [lc];
          }
        } else {
          newRequests := newRequests + [DeleteVersion(versionString)];
        }
      }
      StoreStep(versionStrings, idx, lenVersionStr, storedLanguages.Length, before, storedLanguages[..newCount],
                requestsBefore, newRequests);
    }

    /** vtcPoolInit's choice of the first, transfer and final language. */
    method ChooseLanguages(auxVT: bool, vtLanguageIn: Code)
      requires countStoredLanguages <= storedLanguages.Length
      modifies this
      ensures countStoredLanguages <= storedLanguages.Length
      ensures auxVT ==> State() == old(State()).(first := A3, final := A3, transfer := A3)
      ensures !auxVT ==>
                var final := FinalLanguage(vtLanguageIn);
                var first := InitialLanguage(old(State()).stored, final);
                State() == old(State()).(first := first, final := final, transfer := first)
    {
      if auxVT {
        transferLanguage := A3;
        firstLanguage := A3;
        finalLanguage := A3;
      } else {
        finalLanguage := FinalLanguage(vtLanguageIn);
        var lc := UNDEFINED;
        var hasBase := Contains(BASE);
        var hasFinal := Contains(finalLanguage);
        var hasEnglish := Contains(EN);
        if !hasBase {
          lc := BASE;
        } else if hasFinal {
          lc := finalLanguage;
        } else if hasEnglish {
          lc := EN;
        } else {
          lc := BASE;
        }
        transferLanguage := lc;
        firstLanguage := lc;
      }
    }

    /** vtcPoolUpdateVtLanguage: sets the VT language and the final language derived
        from it, and tells whether the final language changed. */
    method UpdateVtLanguage(lc: Code) returns (changed: bool)
      requires Valid()
      modifies this
      ensures Valid()
      ensures State() == old(State()).(vt := lc, final := FinalLanguage(lc))
      ensures changed <==> old(finalLanguage) != FinalLanguage(lc)
    {
      UpdateSane(State(), storedLanguages.Length, lc);
      vtLanguage := lc;
      var finalLanguageNew := FinalLanguage(lc);
      if finalLanguage != finalLanguageNew {
        finalLanguage := finalLanguageNew;
        return true;
      }
      return false;
    }

    /** vtcSetVTLanguage: sets the VT language only. */
    method SetVtLanguage(lc: Code)
      requires Valid()
      modifies this
      ensures Valid()
      ensures State() == old(State()).(vt := lc)
    {
      UpdateSane(State(), storedLanguages.Length, lc);
      vtLanguage := lc;
    }

    /** vtcPoolLoadHandler: one step of the load sequence; the new state and the
        requests are those of Handle. */
    method LoadHandler(registry: Registry, objSize: SizeDecoder, reloadOk: bool) returns (requests: seq<Request>)
      requires Valid()
      modifies this, storedLanguages
      ensures Valid()
      ensures (State(), requests) == Handle(old(State()), storedLanguages.Length, lenVersionStr, registry, objSize, reloadOk)
    {
      HandleKeepsSane(State(), storedLanguages.Length, lenVersionStr, registry, objSize, reloadOk);
      retryPoolLoad := false;
      var committed := CommitTransfer();
      var selected := SelectTransfer(registry, objSize, reloadOk);
      requests := committed + selected;
    }

    /** The commit step of vtcPoolLoadHandler. */
    method CommitTransfer() returns (requests: seq<Request>)
      requires countStoredLanguages <= storedLanguages.Length < 0x100 && lenVersionStr >= 32
      modifies this, storedLanguages
      ensures countStoredLanguages <= storedLanguages.Length
      ensures (State(), requests) == Commit(old(State()), storedLanguages.Length, lenVersionStr)
    {
      ghost var s := State();
      requests := [];
      if transferLanguage != UNDEFINED {
        var contained := Contains(transferLanguage);
        if !contained {
          var actPoolLabel := PoolLabel(transferLanguage, lenVersionStr);
          if activeLanguage != UNDEFINED {
            requests := requests + [NumericValueRef(OUTPUT_NUMBER_12000, 0), StoreVersion(actPoolLabel)];
          }
          if countStoredLanguages as int < storedLanguages.Length {
            storedLanguages[countStoredLanguages] := transferLanguage;
            countStoredLanguages := countStoredLanguages + 1;
            assert storedLanguages[..countStoredLanguages] == s.stored + [s.transfer];
          }
        }
        activeLanguage := transferLanguage;
        transferLanguage := UNDEFINED;
      }
      ghost var c := Commit(s, storedLanguages.Length, lenVersionStr);
      assert requests == c.1;
      assert State().stored == c.0.stored;
    }

    /** The selection step of vtcPoolLoadHandler. */
    method SelectTransfer(registry: Registry, objSize: SizeDecoder, reloadOk: bool) returns (requests: seq<Request>)
      requires countStoredLanguages <= storedLanguages.Length
      modifies this
      ensures countStoredLanguages <= storedLanguages.Length
      ensures (State(), requests) == Select(old(State()), registry, objSize, reloadOk)
    {
      var finalPoolLanguage := finalLanguage;
      if activeLanguage == finalPoolLanguage {
        requests := [ActiveMask(WORKING_SET_ID, MAIN_MASK_ID)];
      } else {
        var hasEnglish := Contains(EN);
        var hasBase := Contains(BASE);
        if hasEnglish {
          transferLanguage := finalPoolLanguage;
        } else if hasBase {
          transferLanguage := EN;
        } else {
          transferLanguage := BASE;
        }
        var pool := GetPool(transferLanguage, registry, objSize);
        requests := [PoolReload(pool.data, pool.numberObjects)];
        if !reloadOk {
          transferLanguage := UNDEFINED;
          retryPoolLoad := true;
        } else {
          requests := requests + [PoolManipulation];
        }
      }
      ghost var x := Select(old(State()), registry, objSize, reloadOk);
      assert requests == x.1;
      assert State().transfer == x.0.transfer;
      assert State().retry == x.0.retry;
      assert State().stored == x.0.stored;
    }
  }

  /** One pass of vtcPoolInit's scan: the stored slots stay the capped kept codes and
      the requests the delete requests of the version strings scanned so far. */
  lemma StoreStep(versionStrings: seq<seq<u8>>, idx: nat, lenVersionStr: nat, capacity: nat,
                  before: seq<Code>, after: seq<Code>, requestsBefore: seq<Request>, requestsAfter: seq<Request>)
    requires Reported(versionStrings, lenVersionStr) && idx < |versionStrings|
    requires before == Capped(KeptCodes(versionStrings[..idx], lenVersionStr), capacity)
    requires requestsBefore == DeleteRequests(versionStrings[..idx], lenVersionStr)
    requires !Keep(versionStrings[idx], lenVersionStr) ==>
               after == before && requestsAfter == requestsBefore + [DeleteVersion(versionStrings[idx])]
    requires Keep(versionStrings[idx], lenVersionStr) && |before| < capacity ==>
               after == before + [GetLanguageCode(Some(versionStrings[idx]))] && requestsAfter == requestsBefore
    requires Keep(versionStrings[idx], lenVersionStr) && |before| >= capacity ==>
               after == before && requestsAfter == requestsBefore
    ensures after == Capped(KeptCodes(versionStrings[..idx + 1], lenVersionStr), capacity)
    ensures requestsAfter == DeleteRequests(versionStrings[..idx + 1], lenVersionStr)
  {
    ReportStep(versionStrings, idx, lenVersionStr);
    CappedSnoc(KeptCodes(versionStrings[..idx], lenVersionStr), capacity, GetLanguageCode(Some(versionStrings[idx])));
  }

  /** One more reported version string: kept with its code, or deleted once. */
  lemma ReportStep(versionStrings: seq<seq<u8>>, idx: nat, lenVersionStr: nat)
    requires Reported(versionStrings, lenVersionStr) && idx < |versionStrings|
    ensures Reported(versionStrings[..idx], lenVersionStr) && Reported(versionStrings[..idx + 1], lenVersionStr)
    ensures KeptCodes(versionStrings[..idx + 1], lenVersionStr) ==
            KeptCodes(versionStrings[..idx], lenVersionStr) +
            (if Keep(versionStrings[idx], lenVersionStr) then [GetLanguageCode(Some(versionStrings[idx]))] else [])
    ensures DeleteRequests(versionStrings[..idx + 1], lenVersionStr) ==
            DeleteRequests(versionStrings[..idx], lenVersionStr) +
            (if Keep(versionStrings[idx], lenVersionStr) then [] else [DeleteVersion(versionStrings[idx])])
  {
    assert versionStrings[..idx + 1][..idx] == versionStrings[..idx];
  }

  /** Capping a sequence with one more element: it grows when there is room, else
      stays put. */
  lemma CappedSnoc(codes: seq<Code>, capacity: nat, lc: Code)
    ensures |Capped(codes, capacity)| < capacity ==> Capped(codes + [lc], capacity) == Capped(codes, capacity) + [lc]
    ensures |Capped(codes, capacity)| >= capacity ==> Capped(codes + [lc], capacity) == Capped(codes, capacity)
  {
    if |codes| > capacity {
      assert (codes + [lc])[..capacity] == codes[..capacity];
    }
  }
}
