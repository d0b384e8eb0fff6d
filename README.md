# Multi-step pool load of an ISO 11783-6 virtual terminal client

This project models two parts of an ISO 11783-6 working-set application, written in
Dafny and proved there.

The first part is the object-pool partitioner of `PreparePool.cpp`. It cuts a binary
object pool into records keyed by their 16-bit object ID. It then moves records between
tables by a recursion dispatched on the type byte, following each type's child
references (ISO 11783-6 Annex B record layouts, Annex J.4.3 for Auxiliary Function
Type 2). From the source pool it derives three pools:

- the **base** pool: the Working Set tree, the trees of the listed macros, and a 6-byte
  stub of every Auxiliary Function Type 2 object outside those trees;
- the **aux** table: those Auxiliary Function Type 2 objects in full, with every object
  they reference that base does not hold;
- the **secondary** pool: everything else, with aux merged over it;
- the **gAux** pool: aux over a copy of base.

The split is proved to be the only one the stated properties allow.

Each pool is written in ascending-ID order, and an object-count cross-check guards the
result.

The second part is the language state machine of `VTCPool.cpp` / `VTCPool.h`. It covers:

- the two-letter language codes and the pool labels built from them;
- the `VTCPool` record (a class with the stored-languages array);
- the initialisation that sorts the version strings the terminal reports;
- the load handler, which uploads the loader pool, then English, then the final
  language, arming a retry when an upload fails;
- the registry that hands out the derived pools.

Modules, in dependency order:

- `PoolRecords` (`pool_records.dfy`): bytes, `getU16`, record layouts, `Children`, the
  auxiliary-function stub.
- `ObjectTable` (`object_table.dfy`): the record walk, `itemizePool`, the object count,
  serialisation and its round trip.
- `Partitioner` (`partitioner.dfy`): `moveObject` and its per-type helpers over an
  `ObjectMap` class, specified by the `Moved` predicate.
- `PoolPreparation` (`prepare_pool.dfy`): the stages of `preparePool`, the `Partition`
  they produce, the count cross-check, and `parsePool`.
- `LanguageCodes` (`language_code.dfy`): `VTCLanguageCode`, labels, `vtcPoolGetLanguageCode`,
  `vtcPoolGetFinalLanguage`, `vtcPoolGetPoolLabel`.
- `VtcPools` (`vtc_pool.dfy`): the pool registry and the load state machine. Pure
  specification functions (`InitState`, `Commit`, `Select`, `Handle`) sit beside the
  `VtcPool` class whose methods are proved against them.

Foreign calls of the ISO library are handled as follows:

- `IsoPoolObjSize` is an abstract size decoder passed as a parameter.
- `IsoGetNumofPoolObjs` is `NumObjects`: the number of records of the same walk when
  that walk ends exactly at the end of the buffer, and 0 otherwise.
- `IsoDeleteVersion`, `IsoStoreVersion`, `IsoCmd_NumericValueRef`, `IsoPoolReload`,
  `vtcPoolSetPoolManipulation` and `IsoCmd_ActiveMask` are returned as a `Request`
  list in call order.
- The outcome of `IsoPoolReload` is an argument.
- `POOLVERSIONS` is the length of the stored-languages array, given to the
  constructor. `LENVERSIONSTR` is a constructor argument too.

## Model

| member | source | states |
|---|---|---|
| PoolRecords.GetU16OfU16Bytes | VTC_MultiStepLoad/AppIso/pools/PreparePool.cpp:28-31 | getU16 reads little-endian: it decodes the low-byte-first encoding of every 16-bit value |
| PoolRecords.U16BytesOfGetU16 | VTC_MultiStepLoad/AppIso/pools/PreparePool.cpp:28-31 | every byte pair is the encoding of the value getU16 reads from it (the other direction of the round trip) |
| PoolRecords.ObjectListIds | VTC_MultiStepLoad/AppIso/pools/PreparePool.cpp:826-833 | an object list of count entries yields exactly count IDs |
| PoolRecords.ObjectListEntry | VTC_MultiStepLoad/AppIso/pools/PreparePool.cpp:828-832 | entry i of an object list is the 16-bit value at offset + 6*i |
| PoolRecords.MacroListIds | VTC_MultiStepLoad/AppIso/pools/PreparePool.cpp:835-842 | a macro list of count entries yields exactly count IDs |
| PoolRecords.MacroListEntry | VTC_MultiStepLoad/AppIso/pools/PreparePool.cpp:837-841 | entry i of a macro list is the one-byte ID at offset + 2*i + 1 |
| PoolRecords.WorkingSetLayout | VTC_MultiStepLoad/AppIso/pools/PreparePool.cpp:563-571 | a well-formed Working Set is long enough for the bytes at 5, 7 and 8 the mover reads |
| PoolRecords.WorkingSetChildren | VTC_MultiStepLoad/AppIso/pools/PreparePool.cpp:563-572 | a Working Set's children are the active mask at byte 5, the object list (count at byte 7, offset 10, stride 6) and the macro list after it (count at byte 8) |
| PoolRecords.DataMaskLayout | VTC_MultiStepLoad/AppIso/pools/PreparePool.cpp:620-628 | a well-formed Data Mask is long enough for the bytes at 4, 6 and 7 the mover reads |
| PoolRecords.DataMaskChildren | VTC_MultiStepLoad/AppIso/pools/PreparePool.cpp:620-629 | a Data Mask's children are the soft key mask at byte 4, the object list (count at byte 6, offset 8) and the macro list after it (count at byte 7) |
| PoolRecords.ContainerLayout | VTC_MultiStepLoad/AppIso/pools/PreparePool.cpp:593-598 | a well-formed Container is long enough for the counts at bytes 8 and 9 |
| PoolRecords.ContainerChildren | VTC_MultiStepLoad/AppIso/pools/PreparePool.cpp:593-599 | a Container's children are its object list (count at byte 8, offset 10) and the macro list after it (count at byte 9) |
| PoolRecords.OutputStringLayout | VTC_MultiStepLoad/AppIso/pools/PreparePool.cpp:649-650 | an Output String's only child is the font attributes at byte 8 |
| PoolRecords.OutputNumberLayout | VTC_MultiStepLoad/AppIso/pools/PreparePool.cpp:669-677 | an Output Number's children are the font attributes at byte 8, the variable at byte 11 and the macro list (count at byte 28, offset 29) |
| PoolRecords.OutputRectangleLayout | VTC_MultiStepLoad/AppIso/pools/PreparePool.cpp:697-705 | an Output Rectangle's children are the line attributes at byte 3, the fill attributes at byte 10 and the macro list (count at byte 12, offset 13) |
| PoolRecords.AttributesLayout | VTC_MultiStepLoad/AppIso/pools/PreparePool.cpp:723-745 | Line and Fill Attributes reference only their macro list (count at byte 7, offset 8) |
| PoolRecords.ObjectPointerLayout | VTC_MultiStepLoad/AppIso/pools/PreparePool.cpp:765-766 | an Object Pointer's only child is the object at byte 3 |
| PoolRecords.AuxiliaryFunction2Layout | VTC_MultiStepLoad/AppIso/pools/PreparePool.cpp:811-815 | an Auxiliary Function Type 2 references its object list (count at byte 5, offset 6) |
| PoolRecords.LeafTypesHaveNoChildren | VTC_MultiStepLoad/AppIso/pools/PreparePool.cpp:500-544 | Picture Graphic, Font Attributes, Macro and every unlisted or unknown type move without children |
| PoolRecords.Stub | VTC_MultiStepLoad/AppIso/pools/PreparePool.cpp:816-821 | the stub is 6 bytes, keeps bytes 0-4 (zero-filled when shorter) and has object count 0 at byte 5 |
| PoolRecords.StubHasNoChildren | VTC_MultiStepLoad/AppIso/pools/PreparePool.cpp:816-821 | a stub keeps the ID and type, is well formed and references nothing |
| ObjectTable.Walk | VTC_MultiStepLoad/AppIso/pools/PreparePool.cpp:95-105 | the walk that advances by the decoded object size yields records of at least 3 bytes |
| ObjectTable.WalkCovers | VTC_MultiStepLoad/AppIso/pools/PreparePool.cpp:95-105 | a successful walk cuts the buffer into consecutive records whose concatenation is the whole buffer |
| ObjectTable.TableOf | VTC_MultiStepLoad/AppIso/pools/PreparePool.cpp:99-103 | every key of the table is the ID in the first two bytes of its record |
| ObjectTable.TableOfEntries | VTC_MultiStepLoad/AppIso/pools/PreparePool.cpp:99-103 | every record's ID is a key, and every entry is an exact copy of one of the records |
| ObjectTable.TableOfLastWins | VTC_MultiStepLoad/AppIso/pools/PreparePool.cpp:103 | with duplicate IDs the last record wins |
| ObjectTable.TableOfSize | VTC_MultiStepLoad/AppIso/pools/PreparePool.cpp:91-106 | the table has at most one entry per record, and exactly one when the IDs are distinct |
| ObjectTable.Table | VTC_MultiStepLoad/AppIso/pools/PreparePool.cpp:91-106 | the table of a buffer is keyed by record ID |
| ObjectTable.ObjectMap.constructor | VTC_MultiStepLoad/AppIso/pools/PreparePool.cpp:173 | a new object table is empty |
| ObjectTable.WalkAdvance | VTC_MultiStepLoad/AppIso/pools/PreparePool.cpp:96-104 | one step of the walk at an offset takes the next record, of the decoded size, and continues after it |
| ObjectTable.TableOfPrefix | VTC_MultiStepLoad/AppIso/pools/PreparePool.cpp:103 | inserting the next record extends the table of the prefix by its ID |
| ObjectTable.NumObjects | VTC_MultiStepLoad/AppIso/pools/PreparePool.cpp:326-329 | IsoGetNumofPoolObjs is 0 for an empty buffer and for one the size walk does not cut exactly; otherwise it is the number of records, whenever there are fewer than 65536 |
| ObjectTable.Itemize | VTC_MultiStepLoad/AppIso/pools/PreparePool.cpp:91-106 | itemizePool clears the table and leaves exactly the table of the buffer in it |
| ObjectTable.Below | VTC_MultiStepLoad/AppIso/pools/PreparePool.cpp:257-278 | the part an ascending iteration has passed: a sub-table of the table, empty at 0 and the whole table once k passes every 16-bit ID |
| ObjectTable.Records | VTC_MultiStepLoad/AppIso/pools/PreparePool.cpp:302-324 | a table is written out as exactly one record per key |
| ObjectTable.RecordsAscending | VTC_MultiStepLoad/AppIso/pools/PreparePool.cpp:302-324 | the records written out are the table's entries, one per key, in strictly ascending ID order |
| ObjectTable.SerialiseRoundTrip | VTC_MultiStepLoad/AppIso/pools/PreparePool.cpp:302-329 | a table of self-delimiting records keyed by ID, once written out, walks back into its records, itemizes back into the same table, and counts as its size modulo 65536 |
| ObjectTable.WalkOfConcat | VTC_MultiStepLoad/AppIso/pools/PreparePool.cpp:95-105 | the walk of concatenated self-delimiting records gives back those records |
| ObjectTable.RecordsBelowSizeGrows | VTC_MultiStepLoad/AppIso/pools/PreparePool.cpp:280-296 | every prefix of the written-out pool is no longer than the pool |
| ObjectTable.PoolSize | VTC_MultiStepLoad/AppIso/pools/PreparePool.cpp:280-296 | the size loop computes the length of the written-out pool |
| ObjectTable.CopyInto | VTC_MultiStepLoad/AppIso/pools/PreparePool.cpp:305-306 | memcpy at poolIdx: the buffer up to the copy's end is the old prefix followed by the bytes, and every byte after the copy is unchanged |
| ObjectTable.SerialisePool | VTC_MultiStepLoad/AppIso/pools/PreparePool.cpp:302-324 | the copy loop into a buffer of the computed size yields the concatenation of the records in ascending ID order |
| Partitioner.MovedConserves | VTC_MultiStepLoad/AppIso/pools/PreparePool.cpp:422-547 | after a recursive move the keys of both tables together are unchanged, the source only shrinks, the entries left in it are unchanged, every root that was in the source is in the destination with its bytes, and so is every child of a moved object |
| Partitioner.TransferShrinks | VTC_MultiStepLoad/AppIso/pools/PreparePool.cpp:422-547 | a move keeps the source well formed and never grows it |
| Partitioner.TransferDrops | VTC_MultiStepLoad/AppIso/pools/PreparePool.cpp:559-561 | erasing an object strictly shrinks the source, the measure of the recursion |
| Partitioner.TransferWellFormed | VTC_MultiStepLoad/AppIso/pools/PreparePool.cpp:422-547 | moving entries keeps both tables well formed |
| Partitioner.TransferKeepsIds | VTC_MultiStepLoad/AppIso/pools/PreparePool.cpp:422-547 | the source stays keyed by record ID |
| Partitioner.MovedNothing | VTC_MultiStepLoad/AppIso/pools/PreparePool.cpp:427-428 | moving roots already absent from the source changes nothing |
| Partitioner.TransferTrans | VTC_MultiStepLoad/AppIso/pools/PreparePool.cpp:826-842 | two transfers in a row are one transfer |
| Partitioner.ClosedTrans | VTC_MultiStepLoad/AppIso/pools/PreparePool.cpp:826-842 | closure under children composes over consecutive moves |
| Partitioner.JustifiedTrans | VTC_MultiStepLoad/AppIso/pools/PreparePool.cpp:826-842 | the rankings of consecutive moves combine into one ranking for the concatenated roots |
| Partitioner.MovedTrans | VTC_MultiStepLoad/AppIso/pools/PreparePool.cpp:826-842 | moving r1 and then r2 is moving r1 + r2 |
| Partitioner.MovedOne | VTC_MultiStepLoad/AppIso/pools/PreparePool.cpp:559-572 | copying an object to the destination, erasing it, then moving its children is a recursive move of that object |
| Partitioner.MovedOneClosed | VTC_MultiStepLoad/AppIso/pools/PreparePool.cpp:559-572 | after that, no child of the object is left in the source |
| Partitioner.MovedOneJustified | VTC_MultiStepLoad/AppIso/pools/PreparePool.cpp:559-572 | after that, everything that left the source is the object or reached from it through moved parents of strictly smaller rank, so no cycle vouches for itself |
| Partitioner.RankedTaken | VTC_MultiStepLoad/AppIso/pools/PreparePool.cpp:559-572 | an object a move takes is taken by every move of the same roots that leaves no child of a moved object behind |
| Partitioner.TransferUnique | VTC_MultiStepLoad/AppIso/pools/PreparePool.cpp:422-547 | a transfer is determined by what it leaves in the source |
| Partitioner.MovedUnique | VTC_MultiStepLoad/AppIso/pools/PreparePool.cpp:422-547 | two outcomes of moving the same roots out of the same tables are equal: Moved fixes both tables moveObject leaves |
| Partitioner.MoveObject | VTC_MultiStepLoad/AppIso/pools/PreparePool.cpp:422-547 | moveObject moves the object and, recursively, every child still in the source; an absent ID leaves both tables unchanged |
| Partitioner.MoveWorkingSet | VTC_MultiStepLoad/AppIso/pools/PreparePool.cpp:549-574 | the Working Set move, with active mask, object list and macro list, is a recursive move of the object |
| Partitioner.MoveDataMask | VTC_MultiStepLoad/AppIso/pools/PreparePool.cpp:604-632 | the Data Mask move is a recursive move of the object |
| Partitioner.MoveContainer | VTC_MultiStepLoad/AppIso/pools/PreparePool.cpp:576-602 | the Container move is a recursive move of the object |
| Partitioner.MoveOutputStringField | VTC_MultiStepLoad/AppIso/pools/PreparePool.cpp:634-653 | the Output String move is a recursive move of the object |
| Partitioner.MoveOutputNumberField | VTC_MultiStepLoad/AppIso/pools/PreparePool.cpp:655-680 | the Output Number move is a recursive move of the object |
| Partitioner.MoveOutputRectangle | VTC_MultiStepLoad/AppIso/pools/PreparePool.cpp:684-708 | the Output Rectangle move is a recursive move of the object |
| Partitioner.MoveLineAttributes | VTC_MultiStepLoad/AppIso/pools/PreparePool.cpp:710-728 | the Line Attributes move is a recursive move of the object |
| Partitioner.MoveFillAttributes | VTC_MultiStepLoad/AppIso/pools/PreparePool.cpp:730-748 | the Fill Attributes move is a recursive move of the object |
| Partitioner.MoveObjectPointer | VTC_MultiStepLoad/AppIso/pools/PreparePool.cpp:750-769 | the Object Pointer move is a recursive move of the object |
| Partitioner.MoveMacro | VTC_MultiStepLoad/AppIso/pools/PreparePool.cpp:771-790 | the Macro moves alone, which is a recursive move of the object |
| Partitioner.MoveAuxiliaryFunction2 | VTC_MultiStepLoad/AppIso/pools/PreparePool.cpp:792-824 | recursive: a recursive move with the object list; non-recursive: the source is untouched and the destination gains exactly the 6-byte stub of an Auxiliary Function Type 2 object, with nothing added for any other type |
| Partitioner.MoveObjectList | VTC_MultiStepLoad/AppIso/pools/PreparePool.cpp:826-833 | moving an object list is a recursive move of all its IDs in list order |
| Partitioner.MoveMacroList | VTC_MultiStepLoad/AppIso/pools/PreparePool.cpp:835-842 | moving a macro list is a recursive move of all its one-byte IDs in list order |
| PoolPreparation.MacroIds | VTC_MultiStepLoad/AppIso/pools/PreparePool.cpp:225-228 | macro list entry i is the object ID moved in step i |
| PoolPreparation.StubStep | VTC_MultiStepLoad/AppIso/pools/PreparePool.cpp:210-216 | each stub added by the first scan keeps its invariant and strictly reduces the unstubbed Auxiliary Function Type 2 objects, so the restarting loop terminates |
| PoolPreparation.StubsComplete | VTC_MultiStepLoad/AppIso/pools/PreparePool.cpp:203-221 | when the scan passes the last ID, every Auxiliary Function Type 2 object of the table has a key in base |
| PoolPreparation.StubAuxFunctions | VTC_MultiStepLoad/AppIso/pools/PreparePool.cpp:203-221 | the first scan leaves the table unchanged and adds a stub to base for every Auxiliary Function Type 2 object not yet there, and nothing else |
| PoolPreparation.MoveMacros | VTC_MultiStepLoad/AppIso/pools/PreparePool.cpp:223-229 | the listed macros are moved recursively to base, in list order |
| PoolPreparation.ExtractStep | VTC_MultiStepLoad/AppIso/pools/PreparePool.cpp:239-245 | each move of the second scan strictly shrinks the table and extends the move by one Auxiliary Function Type 2 root |
| PoolPreparation.ExtractAuxFunctions | VTC_MultiStepLoad/AppIso/pools/PreparePool.cpp:233-250 | the second scan moves Auxiliary Function Type 2 objects with their object lists to aux, and no Auxiliary Function Type 2 object remains in the table |
| PoolPreparation.MergeStep | VTC_MultiStepLoad/AppIso/pools/PreparePool.cpp:268 | one step of the ascending merge writes the aux entry over the table |
| PoolPreparation.UnderlayStep | VTC_MultiStepLoad/AppIso/pools/PreparePool.cpp:272-276 | one step of the base merge adds a base entry only where aux has none |
| PoolPreparation.MergeAux | VTC_MultiStepLoad/AppIso/pools/PreparePool.cpp:257-269 | secondary becomes the rest overwritten by aux, and the loop counts the Auxiliary Function Type 2 objects of aux |
| PoolPreparation.MergeBase | VTC_MultiStepLoad/AppIso/pools/PreparePool.cpp:271-278 | gAux becomes base overwritten by aux: aux entries win |
| PoolPreparation.StagesCopy | VTC_MultiStepLoad/AppIso/pools/PreparePool.cpp:181-250 | after the stages, base, rest and aux cover the source and hold only copies of source objects, or stubs in base |
| PoolPreparation.StagesSeparate | VTC_MultiStepLoad/AppIso/pools/PreparePool.cpp:181-250 | the rest shares no ID with base or aux, and base and aux share exactly the Auxiliary Function Type 2 IDs, with base holding their stubs |
| PoolPreparation.StagesPlaced | VTC_MultiStepLoad/AppIso/pools/PreparePool.cpp:181-250 | base holds object 0, a Working Set, and in full every listed macro of the source, none of which is in aux; the rest holds no Auxiliary Function Type 2 object |
| PoolPreparation.StagesKept | VTC_MultiStepLoad/AppIso/pools/PreparePool.cpp:181-250 | every Auxiliary Function Type 2 object of the source ends up in full in aux or in base |
| PoolPreparation.StagesChildren | VTC_MultiStepLoad/AppIso/pools/PreparePool.cpp:181-250 | no child of a base object stays in the rest or aux, and no child of an aux object stays in the rest |
| PoolPreparation.StagesNeededBase | VTC_MultiStepLoad/AppIso/pools/PreparePool.cpp:181-229 | every base object is object 0, a listed macro, the stub of an Auxiliary Function Type 2 object that aux holds, or a child of a base object of strictly smaller rank: base is what those roots reach |
| PoolPreparation.StagesNeededAux | VTC_MultiStepLoad/AppIso/pools/PreparePool.cpp:233-250 | every aux object is an Auxiliary Function Type 2 object or a child of an aux object of strictly smaller rank: aux is what its Auxiliary Function Type 2 objects reach through aux |
| PoolPreparation.StagesPartition | VTC_MultiStepLoad/AppIso/pools/PreparePool.cpp:181-250 | the three stages together produce a Partition of the source |
| PoolPreparation.BaseFullShared | VTC_MultiStepLoad/AppIso/pools/PreparePool.cpp:181-229 | an object base holds in full is held in full by base in every Partition of the same source and macros |
| PoolPreparation.AuxShared | VTC_MultiStepLoad/AppIso/pools/PreparePool.cpp:233-250 | an aux object is in aux in every Partition of the same source and macros |
| PoolPreparation.PartitionUnique | VTC_MultiStepLoad/AppIso/pools/PreparePool.cpp:181-278 | two Partitions of the same source table and macro list are equal, so the base, rest and aux preparePool produces are determined |
| PoolPreparation.PartitionKeys | VTC_MultiStepLoad/AppIso/pools/PreparePool.cpp:257-278 | the source keys are the union of base, aux and rest, and overlap only in the stubbed Auxiliary Function Type 2 IDs |
| PoolPreparation.PartitionCount | VTC_MultiStepLoad/AppIso/pools/PreparePool.cpp:326-334 | secondary and base together count each source object once plus once more each Auxiliary Function Type 2 object of aux (full in secondary, stub in base) |
| PoolPreparation.SecondaryCopies | VTC_MultiStepLoad/AppIso/pools/PreparePool.cpp:257-269 | secondary holds unchanged copies of source objects only |
| PoolPreparation.CopiesDelimit | VTC_MultiStepLoad/AppIso/pools/PreparePool.cpp:302-324 | a table of copies and stubs of a self-delimiting source is keyed by ID and self-delimiting |
| PoolPreparation.CopiesCount | VTC_MultiStepLoad/AppIso/pools/PreparePool.cpp:326-329 | such a table, written out, counts back to its number of entries |
| PoolPreparation.PartitionLoads | VTC_MultiStepLoad/AppIso/pools/PreparePool.cpp:326-334 | the written base and secondary count to the source count plus the Auxiliary Function Type 2 count |
| PoolPreparation.PreparePool | VTC_MultiStepLoad/AppIso/pools/PreparePool.cpp:158-395 | preparePool succeeds exactly when the count is non-zero, object 0 is a Working Set and the cross-check holds; on success the split is a Partition, the only one by PartitionUnique, and the three pools are base, rest+aux and base under aux written in ascending ID order; every loadable pool succeeds |
| PoolPreparation.CountsAgree | VTC_MultiStepLoad/AppIso/pools/PreparePool.cpp:331-334 | without underflow the 32-bit check is the exact equation secondary + base - aux count = source count; when the aux count exceeds secondary + base (by less than 2^32 - 2^16) the unsigned difference wraps and the check fails |
| PoolPreparation.LoadableRooted | VTC_MultiStepLoad/AppIso/pools/PreparePool.cpp:164-201 | a loadable pool passes the count and root checks and has one table entry per counted object |
| PoolPreparation.LoadableCounts | VTC_MultiStepLoad/AppIso/pools/PreparePool.cpp:331-334 | the 32-bit count cross-check passes on every Partition of a loadable pool |
| PoolPreparation.ParsePool | VTC_MultiStepLoad/AppIso/pools/PreparePool.cpp:108-156 | parsePool returns false with all three pools empty on failure, and on success the pools preparePool promises |
| LanguageCodes.Pack | VTC_MultiStepLoad/AppIso/pools/VTCPool.h:9-13 | a code's high byte is its first letter and its low byte the second |
| LanguageCodes.Unpack | VTC_MultiStepLoad/AppIso/pools/VTCPool.h:9-13 | every 16-bit code is the packing of its own two bytes |
| LanguageCodes.CodeValues | VTC_MultiStepLoad/AppIso/pools/VTCPool.h:8-13 | the enumerator values: undefined 0, 'x'*256+'x', 'e'*256+'n', 'd'*256+'e', 's'*256+'v', 'A'*256+'3' |
| LanguageCodes.CodesDistinct | VTC_MultiStepLoad/AppIso/pools/VTCPool.h:6-14 | the six enumerators are pairwise distinct, so no real code is undefined |
| LanguageCodes.FinalLanguage | VTC_MultiStepLoad/AppIso/pools/VTCPool.cpp:130-147 | the final language is German exactly for German and Swedish terminals and English otherwise |
| LanguageCodes.FinalLanguageFixed | VTC_MultiStepLoad/AppIso/pools/VTCPool.cpp:130-147 | a final language is its own final language and is a storable code |
| LanguageCodes.GetLanguageCode | VTC_MultiStepLoad/AppIso/pools/VTCPool.cpp:273-296 | an absent label gives undefined; otherwise the packed first two bytes when they are one of the five real codes, and undefined when they are not |
| LanguageCodes.GetLanguageCodeRange | VTC_MultiStepLoad/AppIso/pools/VTCPool.cpp:273-296 | the decoded code is always undefined or a real code |
| LanguageCodes.BaseLabel | VTC_MultiStepLoad/AppIso/pools/VTCPool.cpp:15 | the base label has LENVERSIONSTR + 1 bytes, starts with the loader code "xx" and is zero-terminated |
| LanguageCodes.BaseLabelCode | VTC_MultiStepLoad/AppIso/pools/VTCPool.cpp:15 | the base label decodes to the loader code |
| LanguageCodes.PoolLabel | VTC_MultiStepLoad/AppIso/pools/VTCPool.cpp:187-192 | a pool label has LENVERSIONSTR + 1 bytes and its first two bytes pack back into the code |
| LanguageCodes.LabelRoundTrip | VTC_MultiStepLoad/AppIso/pools/VTCPool.cpp:187-192 | decoding the label of a real code gives back the code; any other code's label decodes to undefined |
| LanguageCodes.LabelSuffixMatches | VTC_MultiStepLoad/AppIso/pools/VTCPool.cpp:43 | every pool label passes vtcPoolInit's suffix comparison with the base label |
| LanguageCodes.GetPoolLabel | VTC_MultiStepLoad/AppIso/pools/VTCPool.cpp:187-192 | vtcPoolGetPoolLabel leaves the pool label in the first LENVERSIONSTR + 1 bytes of the buffer and nothing else changed |
| VtcPools.GetPool | VTC_MultiStepLoad/AppIso/pools/VTCPool.cpp:150-185 | A3 selects gAux, the loader code base, German or Swedish the static German pool, every other code secondary; the size is the 32-bit length and the count that of the pool's bytes |
| VtcPools.CopiesLoad | VTC_MultiStepLoad/AppIso/pools/VTCPool.cpp:181 | a derived pool itemizes back into its table and counts its entries |
| VtcPools.RegistryPools | VTC_MultiStepLoad/AppIso/pools/VTCPool.cpp:150-185 | for every code but German and Swedish, the pool handed out itemizes back into base, base under aux, or rest plus aux, and its object count is that table's size |
| VtcPools.PoolMapCopies | VTC_MultiStepLoad/AppIso/pools/VTCPool.cpp:150-185 | each derived table holds only copies, or stubs, of source objects |
| VtcPools.Cleared | VTC_MultiStepLoad/AppIso/pools/VTCPool.cpp:368-383 | the cleared state has no stored language and both flags false |
| VtcPools.GuardedAppend | VTC_MultiStepLoad/AppIso/pools/VTCPool.cpp:317 | the guarded append never overflows the array and only grows the list; the code is then stored exactly when it already was or there was room |
| VtcPools.CommitUnbounded | VTC_MultiStepLoad/AppIso/pools/VTCPool.cpp:303-317 | the append as written: the code is always stored, and the list grows exactly when it was missing |
| VtcPools.Capped | VTC_MultiStepLoad/AppIso/pools/VTCPool.cpp:57 | the kept codes that fit the array, a prefix of all kept codes and equal to them when they fit |
| VtcPools.KeptCodes | VTC_MultiStepLoad/AppIso/pools/VTCPool.cpp:39-67 | the codes vtcPoolInit stores, in report order, are all storable (loader, English, German, A3) and at most one per label |
| VtcPools.DeleteRequests | VTC_MultiStepLoad/AppIso/pools/VTCPool.cpp:39-67 | vtcPoolInit issues only delete requests, each for a reported label |
| VtcPools.EachLabelClassified | VTC_MultiStepLoad/AppIso/pools/VTCPool.cpp:39-67 | every reported label is either kept or gets exactly one delete request |
| VtcPools.SingleLabel | VTC_MultiStepLoad/AppIso/pools/VTCPool.cpp:43-65 | a matching label with a storable code is kept under its code; any other label gets one delete request, a Swedish label included |
| VtcPools.InitialLanguage | VTC_MultiStepLoad/AppIso/pools/VTCPool.cpp:78-94 | the first language is the loader, the final language or English, and it is the loader exactly when the loader is not stored, or neither final nor English is |
| VtcPools.NextTransfer | VTC_MultiStepLoad/AppIso/pools/VTCPool.cpp:335-346 | the next language is the final language, English or the loader |
| VtcPools.InitState | VTC_MultiStepLoad/AppIso/pools/VTCPool.cpp:33-100 | after vtcPoolInit the record is initialised with no active language and the terminal language set; it holds the kept codes that fit; an aux instance loads A3 only, a primary instance aims at the final language starting from the initial language |
| VtcPools.Commit | VTC_MultiStepLoad/AppIso/pools/VTCPool.cpp:300-323 | with a transfer pending, it becomes active and transfer is cleared, and it is stored exactly when it already was or there is room; the value reset and store-version requests come out exactly when the code was new and a language was already active |
| VtcPools.Select | VTC_MultiStepLoad/AppIso/pools/VTCPool.cpp:325-365 | at the final language it only switches to mask 1001; otherwise it reloads the next pool, then requests the pool manipulation on success, or clears transfer and arms the retry on failure |
| VtcPools.Handle | VTC_MultiStepLoad/AppIso/pools/VTCPool.cpp:298-366 | the handler never changes first, final, terminal language or initialised, and stored only grows |
| VtcPools.HandleRetry | VTC_MultiStepLoad/AppIso/pools/VTCPool.cpp:352-358 | retry is armed exactly when the last request was a failed pool reload |
| VtcPools.RetryReselects | VTC_MultiStepLoad/AppIso/pools/VTCPool.cpp:298-366 | after a failed reload the next call reloads the same pool again, and repeats the failure state or proceeds to the same target |
| VtcPools.ClearedSane | VTC_MultiStepLoad/AppIso/pools/VTCPool.cpp:368-383 | the cleared record satisfies the record invariant |
| VtcPools.InitSane | VTC_MultiStepLoad/AppIso/pools/VTCPool.cpp:33-100 | vtcPoolInit establishes the invariant: stored fits the array and every code is storable |
| VtcPools.HandleKeepsSane | VTC_MultiStepLoad/AppIso/pools/VTCPool.cpp:298-366 | the load handler preserves the invariant |
| VtcPools.UpdateSane | VTC_MultiStepLoad/AppIso/pools/VTCPool.cpp:102-113 | changing the terminal language, with or without its final language, preserves the invariant |
| VtcPools.LoadSequenceReachesFinal | VTC_MultiStepLoad/AppIso/pools/VTCPool.cpp:298-366 | with room for three more codes and successful reloads, three handler calls after vtcPoolInit make the final language active, and the next call switches to the main mask |
| VtcPools.Reaches | VTC_MultiStepLoad/AppIso/pools/VTCPool.cpp:325-346 | from any initial choice, three successful steps reach the final language |
| VtcPools.LoadSequenceOverrunsStore | VTC_MultiStepLoad/AppIso/pools/VTCPool.cpp:317 | a German load from an empty store appends loader, English and German: three codes |
| VtcPools.InitOverrunsStore | VTC_MultiStepLoad/AppIso/pools/VTCPool.cpp:57 | three reported labels for loader, English and German are all kept: three codes |
| VtcPools.LabelKept | VTC_MultiStepLoad/AppIso/pools/VTCPool.cpp:43-57 | the label of a storable code, as reported by the terminal, is kept under that code |
| VtcPools.StoreStep | VTC_MultiStepLoad/AppIso/pools/VTCPool.cpp:41-66 | one guarded scan step extends the capped kept codes and the delete requests by that label |
| VtcPools.ReportStep | VTC_MultiStepLoad/AppIso/pools/VTCPool.cpp:41-66 | the kept codes and delete requests of one more label are those of the prefix plus that label's own |
| VtcPools.CappedSnoc | VTC_MultiStepLoad/AppIso/pools/VTCPool.cpp:57 | a kept code is appended while there is room and dropped once the array is full |
| VtcPools.VtcPool.State | VTC_MultiStepLoad/AppIso/pools/VTCPool.h:16-27 | the record as a value: its stored languages are the first countStoredLanguages slots of the array |
| VtcPools.VtcPool.Valid | VTC_MultiStepLoad/AppIso/pools/VTCPool.h:16-27 | the record invariant: the count fits the array, which has fewer than 256 slots, and the state is sane |
| VtcPools.VtcPool.constructor | VTC_MultiStepLoad/AppIso/pools/VTCPool.h:16-27 | a fresh record of POOLVERSIONS slots in the cleared state, with every slot undefined |
| VtcPools.VtcPool.Clear | VTC_MultiStepLoad/AppIso/pools/VTCPool.cpp:368-383 | vtcPoolClear: every language field and every slot undefined, count 0, both flags false |
| VtcPools.VtcPool.Contains | VTC_MultiStepLoad/AppIso/pools/VTCPool.cpp:115-128 | vtcContainsLanguage is true exactly when the code is among the stored ones |
| VtcPools.VtcPool.Init | VTC_MultiStepLoad/AppIso/pools/VTCPool.cpp:33-100 | vtcPoolInit leaves the record in InitState and returns the delete requests in report order |
| VtcPools.VtcPool.StoreReported | VTC_MultiStepLoad/AppIso/pools/VTCPool.cpp:38-67 | the scan loop stores the kept codes that fit and issues the delete requests |
| VtcPools.VtcPool.ScanOne | VTC_MultiStepLoad/AppIso/pools/VTCPool.cpp:41-66 | one label of the scan: kept, deleted, or dropped when the array is full |
| VtcPools.VtcPool.ChooseLanguages | VTC_MultiStepLoad/AppIso/pools/VTCPool.cpp:69-99 | the aux instance aims at A3; a primary instance sets final and the initial language as first and transfer |
| VtcPools.VtcPool.UpdateVtLanguage | VTC_MultiStepLoad/AppIso/pools/VTCPool.cpp:102-113 | sets the terminal language and its final language, and returns true exactly when the final language changed |
| VtcPools.VtcPool.SetVtLanguage | VTC_MultiStepLoad/AppIso/pools/VTCPool.cpp:266-271 | sets the terminal language only |
| VtcPools.VtcPool.LoadHandler | VTC_MultiStepLoad/AppIso/pools/VTCPool.cpp:298-366 | vtcPoolLoadHandler clears retry, commits, selects, keeps the invariant, and ends in the state and requests of Handle |
| VtcPools.VtcPool.CommitTransfer | VTC_MultiStepLoad/AppIso/pools/VTCPool.cpp:300-323 | the commit part on the record is Commit |
| VtcPools.VtcPool.SelectTransfer | VTC_MultiStepLoad/AppIso/pools/VTCPool.cpp:325-365 | the selection part on the record is Select |

## Left out

- Memory management (`malloc`, `free`, `releasePool`, the pointer-to-pointer outputs) is not modelled: pools are returned as sequences.
- The `iso_s32` casts of pool sizes and the 32-bit wrap of summed sizes are not modelled; sizes are unbounded naturals (the object count is 16-bit and the cross-check is 32-bit, both modelled).
- `IsoPoolObjSize` is an abstract function of the record bytes. `IsoGetNumofPoolObjs` is defined by the same walk, because the library is not part of this model.
- Partitioner.MoveObject and the per-type helpers require every record in the source table to be long enough for the offsets its type reads (`WellFormed`); the source reads those bytes unchecked.
- Partitioner.MoveWorkingSet and the other per-type helpers require the object, when present, to have their own type. The dispatcher only calls them that way, and their object-moves-alone branch for a different type is not modelled separately.
- `std::map` iteration is modelled as an ascending cursor over object IDs, restarting at 0 where the source restarts at `begin()`.
- `gAuxSize`, the object count of the gAux pool, is computed but never used by the source and is left out.
- The secondary and gAux buffers are allocated larger than needed; only the written bytes are modelled.
- `vtcPoolSetPoolManipulation` is a fixed sequence of foreign calls; it appears only as the `PoolManipulation` request.
- `vtcPoolParsePool` and its static initialiser work on embedded pool arrays that are not part of this model; the registry is an argument instead.
- The debug blocks and all debug prints are left out.
- `App_VTClient.c` (transport callbacks, settings, when the handler is called) is not part of this model.
- The outcome of `IsoPoolReload` and the static German pool are arguments; the ID of `OutputNumber_12000` is taken to be 12000.
- VtcPools.RegistryPools does not cover German and Swedish, whose static pool is not derived from the source pool.
- VtcPools.LoadSequenceReachesFinal assumes room for three more stored codes; with less room a code is dropped and the sequence may repeat a pool.
- VtcPools.VtcPool.Init drops a kept code once the stored-languages array is full, where the source writes past the array (see Findings).
- VtcPools.VtcPool.CommitTransfer does not record the transfer language once the array is full, where the source writes past the array (see Findings).
- VtcPools.VtcPool.constructor requires fewer than 256 slots: `POOLVERSIONS` sizes an array counted by `iso_u8`, and the clear loop at VTCPool.cpp:375 counts with an `iso_u8` index that would never reach 256 or more.
- VtcPools.VtcPool.constructor requires `LENVERSIONSTR` of at least 32: the base label at VTCPool.cpp:15 is initialised with 32 characters and its terminator.
- PoolPreparation.Loadable, the condition under which preparePool is proved to succeed, assumes the abstract size decoder reads each record, and each 6-byte stub, as its own length (`SelfDelimiting`, `StubsDelimit`); `IsoPoolObjSize` is not part of this model.
- VtcPools.VtcPool.Contains requires the count to be within the array; the source also bounds its loop by `POOLVERSIONS`, which is the same bound once the count fits.

## Findings

| source | as written | input that shows it | evidently intended | confidence | as-written member | corrected member |
|---|---|---|---|---|---|---|
| VTC_MultiStepLoad/AppIso/pools/VTCPool.cpp:57 | every kept label is written at `m_storedLanguages[m_countStoredLanguages++]` with no capacity check | the terminal reports the labels of the loader, English and German pools while `POOLVERSIONS` is 2: the third write goes past the array | stop storing when the array is full | not executed; the value of POOLVERSIONS is not part of this model | VtcPools.InitOverrunsStore | VtcPools.VtcPool.Init |
| VTC_MultiStepLoad/AppIso/pools/VTCPool.cpp:317 | each newly committed transfer language is appended with no capacity check | a German terminal with nothing stored loads loader, English and German, appending three codes; with `POOLVERSIONS` 2 the third write goes past the array | append only while there is room | not executed; the value of POOLVERSIONS is not part of this model | VtcPools.LoadSequenceOverrunsStore | VtcPools.GuardedAppend |
