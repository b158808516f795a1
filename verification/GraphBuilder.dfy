/**
 * The definition/reference graph of a manifest (`indexGraphManifest`, `assembleTlGraph`) and the
 * linear size bound that admits it for writing.
 */
module GraphBuilder {
  import opened Sorting
  import opened SourceIndex

  const MAX_SAFE_INTEGER: nat := 0x1F_FFFF_FFFF_FFFF

  datatype Definition = Definition(path: string, name: string, lineStart: nat)

  /** File `path` mentions `name`, which some other file defines and `path` does not. */
  datatype Reference = Reference(path: string, name: string)

  datatype Location = Location(path: string, line: nat, column: nat)

  datatype TlGraphSymbol = TlGraphSymbol(name: string, definition: Location, references: seq<Location>)

  datatype TlGraphFile = TlGraphFile(path: string, imports: seq<string>, exports: seq<string>)

  datatype TlGraph = TlGraph(rootHash: string, symbols: seq<TlGraphSymbol>, files: seq<TlGraphFile>)

  datatype NameSummary = NameSummary(
    definitionCount: nat, definitionPathChars: nat, referenceCount: nat, referencePathChars: nat)

  /** `names` is the insertion order of the two name-keyed maps. */
  datatype GraphBuildIndex = GraphBuildIndex(
    names: seq<string>,
    defsByName: map<string, seq<Definition>>,
    refsByName: map<string, seq<Location>>,
    nameSummaries: map<string, NameSummary>,
    symbolCount: nat,
    fileCount: nat,
    exportNameChars: nat,
    graphFilePathChars: nat,
    metricOverflow: bool)

  // ----- what the passes walk over

  function DefinitionsIn(path: string, symbols: seq<IndexedSymbol>): seq<Definition> {
    if symbols == [] then []
    else
      var last := symbols[|symbols| - 1];
      DefinitionsIn(path, symbols[..|symbols| - 1]) + [Definition(path, last.name, last.lineStart)]
  }

  /** Every definition of every file, in file and symbol order. */
  function Definitions(files: seq<IndexedFile>): seq<Definition> {
    if files == [] then []
    else Definitions(files[..|files| - 1]) + DefinitionsIn(files[|files| - 1].path, files[|files| - 1].symbols)
  }

  predicate Defines(defs: seq<Definition>, name: string) {
    exists d :: d in defs && d.name == name
  }

  predicate DefinesLocally(file: IndexedFile, name: string) {
    exists s :: s in file.symbols && s.name == name
  }

  function ReferencesIn(defs: seq<Definition>, file: IndexedFile, refs: seq<RefCount>): seq<Reference> {
    if refs == [] then []
    else
      var last := refs[|refs| - 1].name;
      ReferencesIn(defs, file, refs[..|refs| - 1]) +
      if Defines(defs, last) && !DefinesLocally(file, last) then [Reference(file.path, last)] else []
  }

  /** The references to names of `defs` from files that do not define them, in file order. */
  function References(defs: seq<Definition>, files: seq<IndexedFile>): seq<Reference> {
    if files == [] then []
    else
      var last := files[|files| - 1];
      References(defs, files[..|files| - 1]) + ReferencesIn(defs, last, last.outgoingSymbolRefs)
  }

  function NamesOf(defs: seq<Definition>): seq<string> {
    if defs == [] then []
    else
      var names, last := NamesOf(defs[..|defs| - 1]), defs[|defs| - 1].name;
      if last in names then names else names + [last]
  }

  function DefsOf(defs: seq<Definition>, name: string): seq<Definition> {
    if defs == [] then []
    else DefsOf(defs[..|defs| - 1], name) + if defs[|defs| - 1].name == name then [defs[|defs| - 1]] else []
  }

  function RefsOf(refs: seq<Reference>, name: string): seq<Location> {
    if refs == [] then []
    else
      RefsOf(refs[..|refs| - 1], name) +
      if refs[|refs| - 1].name == name then [Location(refs[|refs| - 1].path, 1, 0)] else []
  }

  /** A file appears in the graph when it exports or imports something. */
  predicate InGraph(defs: seq<Definition>, file: IndexedFile) {
    file.symbols != [] || ReferencesIn(defs, file, file.outgoingSymbolRefs) != []
  }

  function GraphFiles(defs: seq<Definition>, files: seq<IndexedFile>): seq<IndexedFile> {
    if files == [] then []
    else GraphFiles(defs, files[..|files| - 1]) + if InGraph(defs, files[|files| - 1]) then [files[|files| - 1]] else []
  }

  // ----- character counts

  function DefPathChars(defs: seq<Definition>): nat {
    if defs == [] then 0 else DefPathChars(defs[..|defs| - 1]) + |defs[|defs| - 1].path|
  }

  function DefNameChars(defs: seq<Definition>): nat {
    if defs == [] then 0 else DefNameChars(defs[..|defs| - 1]) + |defs[|defs| - 1].name|
  }

  function RefPathChars(refs: seq<Location>): nat {
    if refs == [] then 0 else RefPathChars(refs[..|refs| - 1]) + |refs[|refs| - 1].path|
  }

  function FilePathChars(files: seq<IndexedFile>): nat {
    if files == [] then 0 else FilePathChars(files[..|files| - 1]) + |files[|files| - 1].path|
  }

  function Saturated(n: nat): nat {
    if n > MAX_SAFE_INTEGER then MAX_SAFE_INTEGER else n
  }

  // ----- the first pass

  predicate MetricOverflows(current: nat, amount: nat) {
    amount > MAX_SAFE_INTEGER || current > MAX_SAFE_INTEGER - amount
  }

  function AddMetric(current: nat, amount: nat): nat {
    if MetricOverflows(current, amount) then MAX_SAFE_INTEGER else current + amount
  }

  /** What the index records of one name after the definitions `defs`, before any reference. */
  ghost predicate IndexesName(index: GraphBuildIndex, defs: seq<Definition>, name: string) {
    && (name in index.defsByName <==> DefsOf(defs, name) != [])
    && (name in index.nameSummaries <==> DefsOf(defs, name) != [])
    && (name in index.defsByName ==> index.defsByName[name] == DefsOf(defs, name))
    && (name in index.nameSummaries ==>
          index.nameSummaries[name]
          == NameSummary(|DefsOf(defs, name)|, Saturated(DefPathChars(DefsOf(defs, name))), 0, 0))
  }

  /** The index after the definitions `defs`, before any reference. */
  ghost predicate IndexesDefinitions(index: GraphBuildIndex, defs: seq<Definition>) {
    && index.names == NamesOf(defs)
    && (forall name :: IndexesName(index, defs, name))
    && index.refsByName == map[]
    && index.symbolCount == index.fileCount == index.graphFilePathChars == 0
    && index.exportNameChars == Saturated(DefNameChars(defs))
    && (index.metricOverflow <==> DefinitionsOverflow(defs))
  }

  ghost predicate DefinitionsOverflow(defs: seq<Definition>) {
    || DefNameChars(defs) > MAX_SAFE_INTEGER
    || exists name :: DefPathChars(DefsOf(defs, name)) > MAX_SAFE_INTEGER
  }

  function AddDefinition(index: GraphBuildIndex, def: Definition): GraphBuildIndex {
    var defs := if def.name in index.defsByName then index.defsByName[def.name] else [];
    var summary := if def.name in index.nameSummaries then index.nameSummaries[def.name] else NameSummary(0, 0, 0, 0);
    index.(
      names := if def.name in index.names then index.names else index.names + [def.name],
      defsByName := index.defsByName[def.name := defs + [def]],
      nameSummaries := index.nameSummaries[def.name := NameSummary(
        summary.definitionCount + 1, AddMetric(summary.definitionPathChars, |def.path|),
        summary.referenceCount, summary.referencePathChars)],
      exportNameChars := AddMetric(index.exportNameChars, |def.name|),
      metricOverflow := index.metricOverflow
        || MetricOverflows(summary.definitionPathChars, |def.path|)
        || MetricOverflows(index.exportNameChars, |def.name|))
  }

  lemma {:induction false} NamesAreDefined(defs: seq<Definition>, name: string)
    ensures name in NamesOf(defs) <==> Defines(defs, name)
    ensures name in NamesOf(defs) <==> DefsOf(defs, name) != []
  {
    if defs != [] {
      NamesAreDefined(defs[..|defs| - 1], name);
      assert defs == defs[..|defs| - 1] + [defs[|defs| - 1]];
    }
  }

  lemma DefsOfAppend(defs: seq<Definition>, def: Definition, name: string)
    ensures DefsOf(defs + [def], name) == DefsOf(defs, name) + if name == def.name then [def] else []
    ensures DefPathChars(DefsOf(defs + [def], name)) ==
            DefPathChars(DefsOf(defs, name)) + if name == def.name then |def.path| else 0
  {
    assert (defs + [def])[..|defs|] == defs;
    var of := DefsOf(defs, name);
    assert (of + [def])[..|of|] == of;
    assert of + [] == of;
  }

  lemma DefNamesAppend(defs: seq<Definition>, def: Definition)
    ensures NamesOf(defs + [def]) == if def.name in NamesOf(defs) then NamesOf(defs) else NamesOf(defs) + [def.name]
    ensures DefNameChars(defs + [def]) == DefNameChars(defs) + |def.name|
  {
    assert (defs + [def])[..|defs|] == defs;
  }

  lemma DefinitionsOverflowAppend(defs: seq<Definition>, def: Definition)
    ensures DefinitionsOverflow(defs + [def]) <==>
      || DefinitionsOverflow(defs)
      || DefNameChars(defs) + |def.name| > MAX_SAFE_INTEGER
      || DefPathChars(DefsOf(defs, def.name)) + |def.path| > MAX_SAFE_INTEGER
  {
    DefNamesAppend(defs, def);
    DefsOfAppend(defs, def, def.name);
    forall name
      ensures DefPathChars(DefsOf(defs, name)) > MAX_SAFE_INTEGER ==>
                DefPathChars(DefsOf(defs + [def], name)) > MAX_SAFE_INTEGER
      ensures DefPathChars(DefsOf(defs + [def], name)) > MAX_SAFE_INTEGER ==>
                name == def.name || DefPathChars(DefsOf(defs, name)) > MAX_SAFE_INTEGER
    {
      DefsOfAppend(defs, def, name);
    }
  }

  lemma AddDefinitionName(index: GraphBuildIndex, defs: seq<Definition>, def: Definition, name: string)
    requires IndexesName(index, defs, name)
    ensures IndexesName(AddDefinition(index, def), defs + [def], name)
  {
    DefsOfAppend(defs, def, name);
  }

  lemma AddDefinitionOverflow(index: GraphBuildIndex, defs: seq<Definition>, def: Definition)
    requires IndexesName(index, defs, def.name)
    requires index.exportNameChars == Saturated(DefNameChars(defs))
    requires index.metricOverflow <==> DefinitionsOverflow(defs)
    ensures AddDefinition(index, def).exportNameChars == Saturated(DefNameChars(defs + [def]))
    ensures AddDefinition(index, def).metricOverflow <==> DefinitionsOverflow(defs + [def])
  {
    DefNamesAppend(defs, def);
    DefinitionsOverflowAppend(defs, def);
    if DefPathChars(DefsOf(defs, def.name)) > MAX_SAFE_INTEGER {
      assert DefinitionsOverflow(defs);
    }
    assert DefsOf(defs, def.name) == [] ==> DefPathChars(DefsOf(defs, def.name)) == 0;
  }

  lemma AddDefinitionIndexes(index: GraphBuildIndex, defs: seq<Definition>, def: Definition)
    requires IndexesDefinitions(index, defs)
    ensures IndexesDefinitions(AddDefinition(index, def), defs + [def])
  {
    DefNamesAppend(defs, def);
    AddDefinitionOverflow(index, defs, def);
    forall name
      ensures IndexesName(AddDefinition(index, def), defs + [def], name)
    {
      AddDefinitionName(index, defs, def, name);
    }
  }

  // ----- the second pass

  /** What the index records of one name after the definitions `defs` and the references `refs`. */
  ghost predicate IndexesNameRefs(index: GraphBuildIndex, defs: seq<Definition>, refs: seq<Reference>, name: string) {
    && (name in index.defsByName <==> DefsOf(defs, name) != [])
    && (name in index.nameSummaries <==> DefsOf(defs, name) != [])
    && (name in index.defsByName ==> index.defsByName[name] == DefsOf(defs, name))
    && (name in index.nameSummaries ==>
          index.nameSummaries[name]
          == NameSummary(|DefsOf(defs, name)|, Saturated(DefPathChars(DefsOf(defs, name))),
                         |RefsOf(refs, name)|, Saturated(RefPathChars(RefsOf(refs, name)))))
    && (name in index.refsByName <==> RefsOf(refs, name) != [])
    && (name in index.refsByName ==> index.refsByName[name] == RefsOf(refs, name))
  }

  ghost predicate ReferencesOverflow(refs: seq<Reference>) {
    exists name :: RefPathChars(RefsOf(refs, name)) > MAX_SAFE_INTEGER
  }

  /** The index after all definitions, the references `refs` and the graph files `graphFiles`. */
  ghost predicate Indexes(index: GraphBuildIndex, defs: seq<Definition>, refs: seq<Reference>, graphFiles: seq<IndexedFile>) {
    && index.names == NamesOf(defs)
    && (forall name :: IndexesNameRefs(index, defs, refs, name))
    && index.symbolCount == 0
    && index.fileCount == |graphFiles|
    && index.graphFilePathChars == Saturated(FilePathChars(graphFiles))
    && index.exportNameChars == Saturated(DefNameChars(defs))
    && (index.metricOverflow <==>
        DefinitionsOverflow(defs) || ReferencesOverflow(refs) || FilePathChars(graphFiles) > MAX_SAFE_INTEGER)
  }

  function AddReference(index: GraphBuildIndex, ref: Reference): GraphBuildIndex
    requires ref.name in index.nameSummaries
  {
    var refs := if ref.name in index.refsByName then index.refsByName[ref.name] else [];
    var summary := index.nameSummaries[ref.name];
    index.(
      refsByName := index.refsByName[ref.name := refs + [Location(ref.path, 1, 0)]],
      nameSummaries := index.nameSummaries[ref.name := NameSummary(
        summary.definitionCount, summary.definitionPathChars,
        summary.referenceCount + 1, AddMetric(summary.referencePathChars, |ref.path|))],
      metricOverflow := index.metricOverflow || MetricOverflows(summary.referencePathChars, |ref.path|))
  }

  function AddGraphFile(index: GraphBuildIndex, file: IndexedFile): GraphBuildIndex {
    index.(
      fileCount := index.fileCount + 1,
      graphFilePathChars := AddMetric(index.graphFilePathChars, |file.path|),
      metricOverflow := index.metricOverflow || MetricOverflows(index.graphFilePathChars, |file.path|))
  }

  lemma RefsOfAppend(refs: seq<Reference>, ref: Reference, name: string)
    ensures RefsOf(refs + [ref], name) == RefsOf(refs, name) + if name == ref.name then [Location(ref.path, 1, 0)] else []
    ensures RefPathChars(RefsOf(refs + [ref], name)) ==
            RefPathChars(RefsOf(refs, name)) + if name == ref.name then |ref.path| else 0
  {
    assert (refs + [ref])[..|refs|] == refs;
    var of, at := RefsOf(refs, name), Location(ref.path, 1, 0);
    assert (of + [at])[..|of|] == of;
    assert of + [] == of;
  }

  lemma ReferencesOverflowAppend(refs: seq<Reference>, ref: Reference)
    ensures ReferencesOverflow(refs + [ref]) <==>
      ReferencesOverflow(refs) || RefPathChars(RefsOf(refs, ref.name)) + |ref.path| > MAX_SAFE_INTEGER
  {
    RefsOfAppend(refs, ref, ref.name);
    forall name
      ensures RefPathChars(RefsOf(refs, name)) > MAX_SAFE_INTEGER ==>
                RefPathChars(RefsOf(refs + [ref], name)) > MAX_SAFE_INTEGER
      ensures RefPathChars(RefsOf(refs + [ref], name)) > MAX_SAFE_INTEGER ==>
                name == ref.name || RefPathChars(RefsOf(refs, name)) > MAX_SAFE_INTEGER
    {
      RefsOfAppend(refs, ref, name);
    }
  }

  lemma AddReferenceName(index: GraphBuildIndex, defs: seq<Definition>, refs: seq<Reference>, ref: Reference, name: string)
    requires IndexesNameRefs(index, defs, refs, name) && ref.name in index.nameSummaries
    ensures IndexesNameRefs(AddReference(index, ref), defs, refs + [ref], name)
  {
    var next := AddReference(index, ref);
    RefsOfAppend(refs, ref, name);
    if name == ref.name {
      assert next.refsByName[name] == RefsOf(refs + [ref], name);
    } else {
      assert RefsOf(refs + [ref], name) == RefsOf(refs, name);
    }
  }

  lemma AddReferenceIndexes(index: GraphBuildIndex, defs: seq<Definition>, refs: seq<Reference>, graphFiles: seq<IndexedFile>,
                            ref: Reference)
    requires Indexes(index, defs, refs, graphFiles) && ref.name in index.nameSummaries
    ensures Indexes(AddReference(index, ref), defs, refs + [ref], graphFiles)
  {
    assert IndexesNameRefs(index, defs, refs, ref.name);
    ReferencesOverflowAppend(refs, ref);
    forall name
      ensures IndexesNameRefs(AddReference(index, ref), defs, refs + [ref], name)
    {
      AddReferenceName(index, defs, refs, ref, name);
    }
    if RefPathChars(RefsOf(refs, ref.name)) > MAX_SAFE_INTEGER {
      assert ReferencesOverflow(refs);
    }
  }

  lemma AddGraphFileIndexes(index: GraphBuildIndex, defs: seq<Definition>, refs: seq<Reference>, graphFiles: seq<IndexedFile>,
                            file: IndexedFile)
    requires Indexes(index, defs, refs, graphFiles)
    ensures Indexes(AddGraphFile(index, file), defs, refs, graphFiles + [file])
  {
    var next := AddGraphFile(index, file);
    assert (graphFiles + [file])[..|graphFiles|] == graphFiles;
    forall name
      ensures IndexesNameRefs(next, defs, refs, name)
    {
      assert IndexesNameRefs(index, defs, refs, name);
    }
  }

  /** Before the second pass there are no references. */
  lemma NoReferencesYet(index: GraphBuildIndex, defs: seq<Definition>)
    requires IndexesDefinitions(index, defs)
    ensures Indexes(index, defs, [], [])
  {
    forall name
      ensures IndexesNameRefs(index, defs, [], name)
    {
      assert IndexesName(index, defs, name);
    }
    assert forall name :: RefsOf([], name) == [];
  }

  /** The first pass. */
  method IndexDefinitions(files: seq<IndexedFile>) returns (index: GraphBuildIndex)
    ensures IndexesDefinitions(index, Definitions(files))
  {
    index := GraphBuildIndex([], map[], map[], map[], 0, 0, 0, 0, false);
    assert forall name :: DefsOf([], name) == [];
    for i := 0 to |files|
      invariant IndexesDefinitions(index, Definitions(files[..i]))
    {
      var file := files[i];
      ghost var before := Definitions(files[..i]);
      assert before + DefinitionsIn(file.path, file.symbols[..0]) == before;
      for j := 0 to |file.symbols|
        invariant IndexesDefinitions(index, before + DefinitionsIn(file.path, file.symbols[..j]))
      {
        var def := Definition(file.path, file.symbols[j].name, file.symbols[j].lineStart);
        AddDefinitionIndexes(index, before + DefinitionsIn(file.path, file.symbols[..j]), def);
        assert file.symbols[..j + 1][..j] == file.symbols[..j];
        assert before + DefinitionsIn(file.path, file.symbols[..j]) + [def]
            == before + DefinitionsIn(file.path, file.symbols[..j + 1]);
        index := AddDefinition(index, def);
      }
      assert file.symbols[..|file.symbols|] == file.symbols;
      assert files[..i + 1][..i] == files[..i];
    }
    assert files[..|files|] == files;
  }

  lemma KeyDecides(index: GraphBuildIndex, defs: seq<Definition>, refs: seq<Reference>, graphFiles: seq<IndexedFile>,
                   file: IndexedFile, keys: seq<RefCount>, k: nat)
    requires Indexes(index, defs, refs, graphFiles) && k < |keys|
    ensures ReferencesIn(defs, file, keys[..k + 1]) ==
      if keys[k].name in index.nameSummaries && !DefinesLocally(file, keys[k].name)
      then ReferencesIn(defs, file, keys[..k]) + [Reference(file.path, keys[k].name)]
      else ReferencesIn(defs, file, keys[..k])
  {
    assert keys[..k + 1][..k] == keys[..k];
    NamesAreDefined(defs, keys[k].name);
    assert IndexesNameRefs(index, defs, refs, keys[k].name);
  }

  /** The second pass over one file. */
  method IndexFile(index: GraphBuildIndex, file: IndexedFile, ghost defs: seq<Definition>, ghost refs: seq<Reference>,
                   ghost graphFiles: seq<IndexedFile>)
    returns (updated: GraphBuildIndex)
    requires Indexes(index, defs, refs, graphFiles)
    ensures Indexes(updated, defs, refs + ReferencesIn(defs, file, file.outgoingSymbolRefs),
                    graphFiles + if InGraph(defs, file) then [file] else [])
  {
    updated := index;
    var localSymbolNames := set s | s in file.symbols :: s.name;
    var hasExternalImport := false;
    var keys := file.outgoingSymbolRefs;
    assert refs + ReferencesIn(defs, file, keys[..0]) == refs;
    for k := 0 to |keys|
      invariant Indexes(updated, defs, refs + ReferencesIn(defs, file, keys[..k]), graphFiles)
      invariant hasExternalImport <==> ReferencesIn(defs, file, keys[..k]) != []
    {
      var isReference: bool;
      updated, isReference := IndexKey(updated, file, keys, k, localSymbolNames, defs, refs, graphFiles);
      hasExternalImport := hasExternalImport || isReference;
    }
    assert keys[..|keys|] == keys;
    if |file.symbols| > 0 || hasExternalImport {
      AddGraphFileIndexes(updated, defs, refs + ReferencesIn(defs, file, keys), graphFiles, file);
      updated := AddGraphFile(updated, file);
    }
    assert graphFiles + [] == graphFiles;
  }

  method IndexKey(index: GraphBuildIndex, file: IndexedFile, keys: seq<RefCount>, k: nat, localSymbolNames: set<string>,
                  ghost defs: seq<Definition>, ghost refs: seq<Reference>, ghost graphFiles: seq<IndexedFile>)
    returns (updated: GraphBuildIndex, isReference: bool)
    requires k < |keys| && localSymbolNames == set s | s in file.symbols :: s.name
    requires Indexes(index, defs, refs + ReferencesIn(defs, file, keys[..k]), graphFiles)
    ensures Indexes(updated, defs, refs + ReferencesIn(defs, file, keys[..k + 1]), graphFiles)
    ensures ReferencesIn(defs, file, keys[..k + 1]) != [] <==> ReferencesIn(defs, file, keys[..k]) != [] || isReference
  {
    var name := keys[k].name;
    ghost var before := refs + ReferencesIn(defs, file, keys[..k]);
    KeyDecides(index, defs, before, graphFiles, file, keys, k);
    updated, isReference := index, name in index.nameSummaries && name !in localSymbolNames;
    if isReference {
      assert before + [Reference(file.path, name)] == refs + ReferencesIn(defs, file, keys[..k + 1]);
      AddReferenceIndexes(index, defs, before, graphFiles, Reference(file.path, name));
      updated := AddReference(index, Reference(file.path, name));
    }
  }

  /** The assembled symbols: one for each definition of a referenced name. */
  function SymbolTotal(defs: seq<Definition>, refs: seq<Reference>, names: seq<string>): nat {
    if names == [] then 0
    else
      var last := names[|names| - 1];
      SymbolTotal(defs, refs, names[..|names| - 1]) + if RefsOf(refs, last) != [] then |DefsOf(defs, last)| else 0
  }

  ghost predicate IndexOf(index: GraphBuildIndex, files: seq<IndexedFile>) {
    var defs := Definitions(files);
    var refs := References(defs, files);
    && Indexes(index.(symbolCount := 0), defs, refs, GraphFiles(defs, files))
    && index.symbolCount == SymbolTotal(defs, refs, NamesOf(defs))
  }

  method IndexGraphManifest(files: seq<IndexedFile>) returns (index: GraphBuildIndex)
    ensures IndexOf(index, files)
  {
    ghost var defs := Definitions(files);
    index := IndexDefinitions(files);
    NoReferencesYet(index, defs);
    for i := 0 to |files|
      invariant Indexes(index, defs, References(defs, files[..i]), GraphFiles(defs, files[..i]))
    {
      index := IndexFile(index, files[i], defs, References(defs, files[..i]), GraphFiles(defs, files[..i]));
      assert files[..i + 1][..i] == files[..i];
    }
    assert files[..|files|] == files;
    ghost var refs := References(defs, files);
    var names, symbolCount := index.names, 0;
    for k := 0 to |names|
      invariant symbolCount == SymbolTotal(defs, refs, names[..k])
    {
      assert names[..k + 1][..k] == names[..k];
      assert names[k] in NamesOf(defs);
      NamesAreDefined(defs, names[k]);
      assert IndexesNameRefs(index, defs, refs, names[k]);
      var summary := index.nameSummaries[names[k]];
      if summary.referenceCount > 0 {
        symbolCount := symbolCount + summary.definitionCount;
      }
    }
    assert names[..|names|] == names;
    assert index.(symbolCount := 0) == index;
    index := index.(symbolCount := symbolCount);
    assert index.(symbolCount := 0).(symbolCount := symbolCount) == index;
  }

  // ----- the linear bound

  /** A lower bound that stops at the largest safe integer. */
  class LowerBound {
    var value: nat
    var overflow: bool

    constructor (overflow: bool)
      ensures this.value == 0 && this.overflow == overflow
    {
      this.value, this.overflow := 0, overflow;
    }

    method Add(amount: nat)
      modifies this
      ensures overflow == (old(overflow) || old(value) + amount > MAX_SAFE_INTEGER)
      ensures value == if old(overflow) then old(value) else Saturated(old(value) + amount)
    {
      if overflow {
        return;
      }
      if amount > MAX_SAFE_INTEGER || value > MAX_SAFE_INTEGER - amount {
        value, overflow := MAX_SAFE_INTEGER, true;
        return;
      }
      value := value + amount;
    }

    method AddProduct(left: nat, right: nat)
      modifies this
      ensures 0 < left <= MAX_SAFE_INTEGER ==>
        && overflow == (old(overflow) || old(value) + left * right > MAX_SAFE_INTEGER)
        && value == if old(overflow) then old(value) else Saturated(old(value) + left * right)
      ensures left > MAX_SAFE_INTEGER ==> overflow && value == if old(overflow) then old(value) else MAX_SAFE_INTEGER
      ensures left == 0 ==> overflow == (old(overflow) || right > MAX_SAFE_INTEGER || old(value) > MAX_SAFE_INTEGER)
      ensures left == 0 ==> value == if old(overflow) then old(value)
                                     else if right > MAX_SAFE_INTEGER then MAX_SAFE_INTEGER else Saturated(old(value))
    {
      if overflow {
        return;
      }
      if left > 0 {
        ProductGuard(MAX_SAFE_INTEGER, left, right);
      }
      if left > MAX_SAFE_INTEGER || right > MAX_SAFE_INTEGER || (left != 0 && right > MAX_SAFE_INTEGER / left) {
        value, overflow := MAX_SAFE_INTEGER, true;
        return;
      }
      Add(left * right);
    }
  }

  lemma MulMonotonic(left: nat, a: nat, b: nat)
    requires a <= b
    ensures left * a <= left * b
  {
    assert left * (b - a) >= 0;
  }

  lemma QuotientBounds(n: nat, left: nat)
    requires left > 0
    ensures left * (n / left) <= n < left * (n / left + 1)
  {
  }

  /** The division guard trips exactly when the product is out of range. */
  lemma ProductGuard(max: nat, left: nat, right: nat)
    requires left > 0
    ensures right > max / left <==> left * right > max
    ensures right > max ==> left * right > max
  {
    QuotientBounds(max, left);
    if right > max / left {
      MulMonotonic(left, max / left + 1, right);
    } else {
      MulMonotonic(left, right, max / left);
    }
    MulMonotonic(right, 1, left);
  }

  /** The serialized characters of the symbols of one referenced name. */
  function NameBytes(defs: seq<Definition>, refs: seq<Reference>, name: string): nat {
    if RefsOf(refs, name) == [] then 0
    else
      |DefsOf(defs, name)| * |name| + DefPathChars(DefsOf(defs, name))
      + |DefsOf(defs, name)| * RefPathChars(RefsOf(refs, name))
  }

  function NamesBytes(defs: seq<Definition>, refs: seq<Reference>, names: seq<string>): nat {
    if names == [] then 0
    else NamesBytes(defs, refs, names[..|names| - 1]) + NameBytes(defs, refs, names[|names| - 1])
  }

  /** The bound without saturation. */
  function TrueBound(rootHash: string, files: seq<IndexedFile>): nat {
    var defs := Definitions(files);
    var refs := References(defs, files);
    |rootHash| + DefNameChars(defs) + FilePathChars(GraphFiles(defs, files)) + NamesBytes(defs, refs, NamesOf(defs))
  }

  ghost predicate Bounded(value: nat, overflow: bool, metricOverflow: bool, total: nat) {
    && (overflow <==> metricOverflow || total > MAX_SAFE_INTEGER)
    && (!overflow ==> value == total)
  }

  lemma {:induction false} DefsAtMost(defs: seq<Definition>, name: string)
    ensures |DefsOf(defs, name)| <= |defs|
  {
    if defs != [] {
      DefsAtMost(defs[..|defs| - 1], name);
    }
  }

  lemma SummaryIsExact(index: GraphBuildIndex, files: seq<IndexedFile>, name: string)
    requires IndexOf(index, files) && name in index.names
    ensures name in index.nameSummaries
    ensures var defs := Definitions(files);
      var refs := References(defs, files);
      var summary := index.nameSummaries[name];
      && (summary.referenceCount == 0 <==> RefsOf(refs, name) == [])
      && 0 < summary.definitionCount == |DefsOf(defs, name)| <= |defs|
      && (!index.metricOverflow ==>
            && summary.definitionPathChars == DefPathChars(DefsOf(defs, name))
            && summary.referencePathChars == RefPathChars(RefsOf(refs, name)))
  {
    var defs := Definitions(files);
    NamesAreDefined(defs, name);
    DefsAtMost(defs, name);
    assert IndexesNameRefs(index.(symbolCount := 0), defs, References(defs, files), name);
    if DefPathChars(DefsOf(defs, name)) > MAX_SAFE_INTEGER {
      assert DefinitionsOverflow(defs);
    }
    if RefPathChars(RefsOf(References(defs, files), name)) > MAX_SAFE_INTEGER {
      assert ReferencesOverflow(References(defs, files));
    }
  }

  method AddName(bound: LowerBound, summary: NameSummary, name: string, ghost total: nat, ghost metricOverflow: bool)
    requires 0 < summary.definitionCount <= MAX_SAFE_INTEGER
    requires Bounded(bound.value, bound.overflow, metricOverflow, total)
    modifies bound
    ensures Bounded(bound.value, bound.overflow, metricOverflow,
      total + if summary.referenceCount == 0 then 0 else
        summary.definitionCount * |name| + summary.definitionPathChars
        + summary.definitionCount * summary.referencePathChars)
  {
    if summary.referenceCount == 0 {
      return;
    }
    ghost var named := total + summary.definitionCount * |name|;
    AddProductTo(bound, summary.definitionCount, |name|, total, metricOverflow);
    AddTo(bound, summary.definitionPathChars, named, metricOverflow);
    AddProductTo(bound, summary.definitionCount, summary.referencePathChars, named + summary.definitionPathChars, metricOverflow);
  }

  method AddTo(bound: LowerBound, amount: nat, ghost total: nat, ghost metricOverflow: bool)
    requires Bounded(bound.value, bound.overflow, metricOverflow, total)
    modifies bound
    ensures Bounded(bound.value, bound.overflow, metricOverflow, total + amount)
  {
    bound.Add(amount);
  }

  method AddProductTo(bound: LowerBound, left: nat, right: nat, ghost total: nat, ghost metricOverflow: bool)
    requires 0 < left <= MAX_SAFE_INTEGER && Bounded(bound.value, bound.overflow, metricOverflow, total)
    modifies bound
    ensures Bounded(bound.value, bound.overflow, metricOverflow, total + left * right)
  {
    ghost var product: nat := left * right;
    bound.AddProduct(left, right);
    assert total + product == total + left * right;
  }

  method EstimateIndexedGraphMinBytes(rootHash: string, index: GraphBuildIndex, ghost files: seq<IndexedFile>)
    returns (bound: LowerBound)
    requires IndexOf(index, files) && |Definitions(files)| <= MAX_SAFE_INTEGER
    ensures Bounded(bound.value, bound.overflow, index.metricOverflow, TrueBound(rootHash, files))
  {
    ghost var defs := Definitions(files);
    ghost var refs := References(defs, files);
    bound := new LowerBound(index.metricOverflow);
    bound.Add(|rootHash|);
    bound.Add(index.exportNameChars);
    bound.Add(index.graphFilePathChars);
    ghost var fixed: nat := |rootHash| + DefNameChars(defs) + FilePathChars(GraphFiles(defs, files));
    var names := index.names;
    for k := 0 to |names|
      invariant Bounded(bound.value, bound.overflow, index.metricOverflow, fixed + NamesBytes(defs, refs, names[..k]))
    {
      SummaryIsExact(index, files, names[k]);
      assert names[..k + 1][..k] == names[..k];
      AddName(bound, index.nameSummaries[names[k]], names[k], fixed + NamesBytes(defs, refs, names[..k]), index.metricOverflow);
    }
    assert names[..|names|] == names;
  }

  /** `maxBytes`: a number, or one of the values that are not. */
  datatype Cap = NotANumber | Unlimited | Bytes(limit: nat)

  predicate ExceedsCap(value: nat, overflow: bool, cap: Cap) {
    match cap
    case NotANumber => false
    case Unlimited => false
    case Bytes(limit) => if overflow then limit <= MAX_SAFE_INTEGER else value > limit
  }

  /** Some name that no other file mentions is defined so often that its definition paths alone overflow. */
  ghost predicate UnreferencedOverflow(files: seq<IndexedFile>) {
    var defs := Definitions(files);
    exists name :: RefsOf(References(defs, files), name) == [] && DefPathChars(DefsOf(defs, name)) > MAX_SAFE_INTEGER
  }

  lemma {:induction false} NameBytesIncluded(defs: seq<Definition>, refs: seq<Reference>, names: seq<string>, name: string)
    requires name in names
    ensures NameBytes(defs, refs, name) <= NamesBytes(defs, refs, names)
  {
    var init, last := names[..|names| - 1], names[|names| - 1];
    assert names == init + [last];
    if name in init {
      NameBytesIncluded(defs, refs, init, name);
    }
  }

  lemma {:induction false} ReferencedNamesAreDefined(defs: seq<Definition>, files: seq<IndexedFile>, name: string)
    requires RefsOf(References(defs, files), name) != []
    ensures Defines(defs, name)
  {
    if files != [] {
      var last := files[|files| - 1];
      var before, now := References(defs, files[..|files| - 1]), ReferencesIn(defs, last, last.outgoingSymbolRefs);
      RefsOfConcat(before, now, name);
      if RefsOf(before, name) != [] {
        ReferencedNamesAreDefined(defs, files[..|files| - 1], name);
      } else {
        ReferencedInIsDefined(defs, last, last.outgoingSymbolRefs, name);
      }
    }
  }

  lemma {:induction false} ReferencedInIsDefined(defs: seq<Definition>, file: IndexedFile, keys: seq<RefCount>, name: string)
    requires RefsOf(ReferencesIn(defs, file, keys), name) != []
    ensures Defines(defs, name)
  {
    if keys != [] {
      var before := ReferencesIn(defs, file, keys[..|keys| - 1]);
      var last := keys[|keys| - 1].name;
      if Defines(defs, last) && !DefinesLocally(file, last) {
        RefsOfAppend(before, Reference(file.path, last), name);
      } else {
        assert before + [] == before;
      }
      if RefsOf(before, name) != [] {
        ReferencedInIsDefined(defs, file, keys[..|keys| - 1], name);
      }
    }
  }

  lemma {:induction false} RefsOfConcat(a: seq<Reference>, b: seq<Reference>, name: string)
    ensures RefsOf(a + b, name) == RefsOf(a, name) + RefsOf(b, name)
  {
    if b == [] {
      assert a + b == a;
    } else {
      var init, last := b[..|b| - 1], b[|b| - 1];
      RefsOfConcat(a, init, name);
      assert a + b == (a + init) + [last];
      RefsOfAppend(a + init, last, name);
    }
  }

  /** A referenced name counts its definition paths, and its reference paths once for each definition. */
  lemma NameBytesCounts(defs: seq<Definition>, files: seq<IndexedFile>, name: string)
    requires RefsOf(References(defs, files), name) != []
    ensures DefPathChars(DefsOf(defs, name)) <= NamesBytes(defs, References(defs, files), NamesOf(defs))
    ensures RefPathChars(RefsOf(References(defs, files), name)) <= NamesBytes(defs, References(defs, files), NamesOf(defs))
  {
    var refs := References(defs, files);
    ReferencedNamesAreDefined(defs, files, name);
    NamesAreDefined(defs, name);
    NameBytesIncluded(defs, refs, NamesOf(defs), name);
    var count, chars := |DefsOf(defs, name)|, RefPathChars(RefsOf(refs, name));
    MulMonotonic(chars, 1, count);
    MulMonotonic(count, 0, |name|);
  }

  /** A counter overflows only for an unreferenced name, or when the bound itself is out of range. */
  lemma MetricOverflowMeaning(index: GraphBuildIndex, files: seq<IndexedFile>, rootHash: string)
    requires IndexOf(index, files)
    ensures index.metricOverflow && !UnreferencedOverflow(files) ==> TrueBound(rootHash, files) > MAX_SAFE_INTEGER
    ensures UnreferencedOverflow(files) ==> index.metricOverflow
  {
    var defs := Definitions(files);
    var refs := References(defs, files);
    if name :| DefPathChars(DefsOf(defs, name)) > MAX_SAFE_INTEGER {
      if RefsOf(refs, name) != [] {
        NameBytesCounts(defs, files, name);
      }
    }
    if name :| RefPathChars(RefsOf(refs, name)) > MAX_SAFE_INTEGER {
      NameBytesCounts(defs, files, name);
    }
  }

  /**
   * The pre-check rejects a graph exactly when its true bound is over the cap, or when a name nobody
   * references overflows a counter that the bound never uses.
   */
  lemma PrecheckRejectsExactly(index: GraphBuildIndex, files: seq<IndexedFile>, rootHash: string,
                               value: nat, overflow: bool, limit: nat)
    requires IndexOf(index, files) && limit <= MAX_SAFE_INTEGER
    requires Bounded(value, overflow, index.metricOverflow, TrueBound(rootHash, files))
    ensures ExceedsCap(value, overflow, Bytes(limit)) <==> TrueBound(rootHash, files) > limit || UnreferencedOverflow(files)
  {
    MetricOverflowMeaning(index, files, rootHash);
  }

  /**
   * Such a name: one file of path `path` defines the unused name "f" `copies` times. Within the string
   * and array limits of the language the counter overflows while the true bound stays small, so the
   * pre-check rejects a graph that fits.
   */
  function ManyCopies(path: string, copies: nat): IndexedFile {
    IndexedFile(path, "ts", 0, 0, "", Copies(copies), [], [], Ok)
  }

  function Copies(copies: nat): seq<IndexedSymbol> {
    seq(copies, _ => IndexedSymbol("f", "f", 1, 1, []))
  }

  lemma DefinitionsInCopies(path: string, copies: nat)
    requires copies > 0
    ensures DefinitionsIn(path, Copies(copies)) == DefinitionsIn(path, Copies(copies - 1)) + [Definition(path, "f", 1)]
  {
    assert Copies(copies)[..copies - 1] == Copies(copies - 1);
  }

  lemma {:induction false} ManyCopiesTotals(path: string, copies: nat)
    ensures var defs := DefinitionsIn(path, Copies(copies));
      && |defs| == copies
      && DefsOf(defs, "f") == defs
      && DefPathChars(defs) == copies * |path|
      && DefNameChars(defs) == copies
      && NamesOf(defs) == if copies == 0 then [] else ["f"]
  {
    if copies > 0 {
      ManyCopiesTotals(path, copies - 1);
      DefinitionsInCopies(path, copies);
      OneMoreCopy(DefinitionsIn(path, Copies(copies - 1)), Definition(path, "f", 1), (copies - 1) * |path|);
      OneMoreTime(copies, |path|);
    }
  }

  lemma OneMoreTime(copies: nat, chars: nat)
    ensures (copies - 1) * chars + chars == copies * chars
  {
  }

  lemma OneMoreCopy(init: seq<Definition>, def: Definition, chars: nat)
    requires |def.name| == 1 && DefsOf(init, def.name) == init && DefPathChars(init) == chars
    requires DefNameChars(init) == |init| && NamesOf(init) == if |init| == 0 then [] else [def.name]
    ensures var defs := init + [def];
      && DefsOf(defs, def.name) == defs
      && DefPathChars(defs) == chars + |def.path|
      && DefNameChars(defs) == |defs|
      && NamesOf(defs) == [def.name]
  {
    DefsOfAppend(init, def, def.name);
    DefNamesAppend(init, def);
  }

  /** The pre-check rejects this graph although its true bound is within the cap. */
  lemma PrecheckCanRejectFittingGraph() returns (files: seq<IndexedFile>, limit: nat)
    ensures TrueBound("", files) <= limit <= MAX_SAFE_INTEGER && UnreferencedOverflow(files)
    ensures |files| == 1 && |files[0].path| == 0x1FFF_FFE8 && |files[0].symbols| == 0x100_0001
    ensures forall index, value, overflow ::
      IndexOf(index, files) && Bounded(value, overflow, index.metricOverflow, TrueBound("", files)) ==>
        ExceedsCap(value, overflow, Bytes(limit))
  {
    var path := seq(0x1FFF_FFE8, _ => 'p');
    var file := ManyCopies(path, 0x100_0001);
    files, limit := [file], 0x4000_0000;
    ManyCopiesTotals(path, 0x100_0001);
    var defs := Definitions(files);
    assert files[..0] == [];
    assert Definitions(files[..0]) == [];
    assert defs == [] + DefinitionsIn(path, file.symbols) == DefinitionsIn(path, file.symbols);
    assert References(defs, files[..0]) == [];
    assert References(defs, files) == [] + ReferencesIn(defs, file, []) == [];
    assert DefPathChars(DefsOf(defs, "f")) > MAX_SAFE_INTEGER;
    assert RefsOf([], "f") == [];
    assert GraphFiles(defs, files[..0]) == [];
    assert GraphFiles(defs, files) == [] + [file] == [file];
    assert FilePathChars([file][..0]) == 0;
    assert FilePathChars([file]) == |path|;
    assert ["f"][..0] == [];
    assert NamesBytes(defs, [], []) == 0;
    assert NamesBytes(defs, [], ["f"]) == 0;
    assert UnreferencedOverflow(files);
    ThenRejected(files, limit);
  }

  lemma ThenRejected(files: seq<IndexedFile>, limit: nat)
    requires UnreferencedOverflow(files) && limit <= MAX_SAFE_INTEGER
    ensures forall index, value, overflow ::
      IndexOf(index, files) && Bounded(value, overflow, index.metricOverflow, TrueBound("", files)) ==>
        ExceedsCap(value, overflow, Bytes(limit))
  {
    forall index, value: nat, overflow |
      IndexOf(index, files) && Bounded(value, overflow, index.metricOverflow, TrueBound("", files))
      ensures ExceedsCap(value, overflow, Bytes(limit))
    {
      PrecheckRejectsExactly(index, files, "", value, overflow, limit);
    }
  }

  // ----- the assembled graph

  function RefsElsewhere(refs: seq<Location>, path: string): seq<Location> {
    if refs == [] then []
    else RefsElsewhere(refs[..|refs| - 1], path) + if refs[|refs| - 1].path != path then [refs[|refs| - 1]] else []
  }

  function SymbolsFor(of: seq<Definition>, refs: seq<Location>): seq<TlGraphSymbol> {
    if of == [] then []
    else
      var d := of[|of| - 1];
      SymbolsFor(of[..|of| - 1], refs) +
      [TlGraphSymbol(d.name, Location(d.path, d.lineStart, 0), RefsElsewhere(refs, d.path))]
  }

  /** The graph's symbols before sorting: every definition of every referenced name. */
  function GraphSymbols(defs: seq<Definition>, refs: seq<Reference>, names: seq<string>): seq<TlGraphSymbol> {
    if names == [] then []
    else
      var last := names[|names| - 1];
      GraphSymbols(defs, refs, names[..|names| - 1]) +
      if RefsOf(refs, last) == [] then [] else SymbolsFor(DefsOf(defs, last), RefsOf(refs, last))
  }

  /** The paths of the definitions `of` outside `self`, each added once. */
  function AddImports(imports: seq<string>, of: seq<Definition>, self: string): seq<string> {
    if of == [] then imports
    else
      var rest, path := AddImports(imports, of[..|of| - 1], self), of[|of| - 1].path;
      if path == self || path in rest then rest else rest + [path]
  }

  function ImportsOf(defs: seq<Definition>, self: string, refs: seq<Reference>): seq<string> {
    if refs == [] then []
    else AddImports(ImportsOf(defs, self, refs[..|refs| - 1]), DefsOf(defs, refs[|refs| - 1].name), self)
  }

  function FileImports(defs: seq<Definition>, file: IndexedFile): seq<string> {
    ImportsOf(defs, file.path, ReferencesIn(defs, file, file.outgoingSymbolRefs))
  }

  function Exports(symbols: seq<IndexedSymbol>): seq<string> {
    if symbols == [] then [] else Exports(symbols[..|symbols| - 1]) + [symbols[|symbols| - 1].name]
  }

  function FileEntry(defs: seq<Definition>, file: IndexedFile, order: (string, string) -> bool): TlGraphFile {
    TlGraphFile(file.path, Sorted(FileImports(defs, file), order), Sorted(Exports(file.symbols), order))
  }

  function FileEntries(defs: seq<Definition>, files: seq<IndexedFile>, order: (string, string) -> bool): seq<TlGraphFile> {
    if files == [] then []
    else
      var last := files[|files| - 1];
      FileEntries(defs, files[..|files| - 1], order) +
      if Exports(last.symbols) == [] && FileImports(defs, last) == [] then [] else [FileEntry(defs, last, order)]
  }

  /** How the library orders strings, symbols and files. */
  datatype Orders = Orders(
    strings: (string, string) -> bool,
    symbols: (TlGraphSymbol, TlGraphSymbol) -> bool,
    files: (TlGraphFile, TlGraphFile) -> bool)

  /** `buildTlGraphFromManifest`, apart from the generation it copies. */
  function BuildTlGraph(rootHash: string, files: seq<IndexedFile>, orders: Orders): TlGraph {
    var defs := Definitions(files);
    TlGraph(rootHash,
            Sorted(GraphSymbols(defs, References(defs, files), NamesOf(defs)), orders.symbols),
            Sorted(FileEntries(defs, files, orders.strings), orders.files))
  }

  ghost predicate DistinctPaths(files: seq<IndexedFile>) {
    forall i, j :: 0 <= i < j < |files| ==> files[i].path != files[j].path
  }

  // ----- loops that assemble it

  lemma NameLookup(index: GraphBuildIndex, files: seq<IndexedFile>, name: string)
    requires IndexOf(index, files)
    ensures name in index.defsByName <==> Defines(Definitions(files), name)
    ensures name in index.defsByName ==> index.defsByName[name] == DefsOf(Definitions(files), name)
    ensures name in index.refsByName <==> RefsOf(References(Definitions(files), files), name) != []
    ensures name in index.refsByName ==> index.refsByName[name] == RefsOf(References(Definitions(files), files), name)
    ensures name in index.names <==> Defines(Definitions(files), name)
  {
    NamesAreDefined(Definitions(files), name);
    assert IndexesNameRefs(index.(symbolCount := 0), Definitions(files), References(Definitions(files), files), name);
  }

  method AppendSymbols(symbols: seq<TlGraphSymbol>, of: seq<Definition>, refs: seq<Location>) returns (more: seq<TlGraphSymbol>)
    ensures more == symbols + SymbolsFor(of, refs)
  {
    more := symbols;
    for j := 0 to |of|
      invariant more == symbols + SymbolsFor(of[..j], refs)
    {
      assert of[..j + 1][..j] == of[..j];
      more := more + [TlGraphSymbol(of[j].name, Location(of[j].path, of[j].lineStart, 0), RefsElsewhere(refs, of[j].path))];
    }
    assert of[..|of|] == of;
  }

  method AppendName(symbols: seq<TlGraphSymbol>, index: GraphBuildIndex, name: string, ghost files: seq<IndexedFile>)
    returns (more: seq<TlGraphSymbol>)
    requires IndexOf(index, files) && name in index.names
    ensures var defs := Definitions(files); var refs := RefsOf(References(defs, files), name);
      more == if refs == [] then symbols else symbols + SymbolsFor(DefsOf(defs, name), refs)
  {
    NameLookup(index, files, name);
    more := symbols;
    if name in index.refsByName {
      more := AppendSymbols(symbols, index.defsByName[name], index.refsByName[name]);
    }
  }

  lemma OneMoreName(defs: seq<Definition>, refs: seq<Reference>, names: seq<string>, k: nat)
    requires k < |names|
    ensures var symbols, of := GraphSymbols(defs, refs, names[..k]), RefsOf(refs, names[k]);
      GraphSymbols(defs, refs, names[..k + 1]) == if of == [] then symbols else symbols + SymbolsFor(DefsOf(defs, names[k]), of)
  {
    var more := names[..k + 1];
    assert more[..k] == names[..k] && more[k] == names[k];
    assert GraphSymbols(defs, refs, names[..k]) + [] == GraphSymbols(defs, refs, names[..k]);
  }

  method AssembleSymbols(index: GraphBuildIndex, ghost files: seq<IndexedFile>) returns (symbols: seq<TlGraphSymbol>)
    requires IndexOf(index, files)
    ensures symbols == GraphSymbols(Definitions(files), References(Definitions(files), files), NamesOf(Definitions(files)))
  {
    ghost var defs := Definitions(files);
    ghost var refs := References(defs, files);
    symbols := [];
    var names := index.names;
    for k := 0 to |names|
      invariant symbols == GraphSymbols(defs, refs, names[..k])
    {
      OneMoreName(defs, refs, names, k);
      symbols := AppendName(symbols, index, names[k], files);
    }
    assert names[..|names|] == names;
  }

  method AppendImports(imports: seq<string>, of: seq<Definition>, self: string) returns (more: seq<string>)
    ensures more == AddImports(imports, of, self)
  {
    more := imports;
    for j := 0 to |of|
      invariant more == AddImports(imports, of[..j], self)
    {
      assert of[..j + 1][..j] == of[..j];
      if of[j].path != self && of[j].path !in more {
        more := more + [of[j].path];
      }
    }
    assert of[..|of|] == of;
  }

  lemma KeyImports(defs: seq<Definition>, file: IndexedFile, keys: seq<RefCount>, k: nat)
    requires k < |keys|
    ensures ImportsOf(defs, file.path, ReferencesIn(defs, file, keys[..k + 1])) ==
      if Defines(defs, keys[k].name) && !DefinesLocally(file, keys[k].name)
      then AddImports(ImportsOf(defs, file.path, ReferencesIn(defs, file, keys[..k])), DefsOf(defs, keys[k].name), file.path)
      else ImportsOf(defs, file.path, ReferencesIn(defs, file, keys[..k]))
  {
    assert keys[..k + 1][..k] == keys[..k];
    var before := ReferencesIn(defs, file, keys[..k]);
    assert (before + [Reference(file.path, keys[k].name)])[..|before|] == before;
    assert before + [] == before;
  }

  method CollectImports(file: IndexedFile, index: GraphBuildIndex, ghost files: seq<IndexedFile>) returns (imports: seq<string>)
    requires IndexOf(index, files)
    ensures imports == FileImports(Definitions(files), file)
  {
    ghost var defs := Definitions(files);
    var keys := file.outgoingSymbolRefs;
    var localSymbolNames := set s | s in file.symbols :: s.name;
    imports := [];
    for k := 0 to |keys|
      invariant imports == ImportsOf(defs, file.path, ReferencesIn(defs, file, keys[..k]))
    {
      var name := keys[k].name;
      NameLookup(index, files, name);
      KeyImports(defs, file, keys, k);
      if name in index.defsByName && name !in localSymbolNames {
        imports := AppendImports(imports, index.defsByName[name], file.path);
      }
    }
    assert keys[..|keys|] == keys;
  }

  method AssembleTlGraph(rootHash: string, files: seq<IndexedFile>, index: GraphBuildIndex, orders: Orders) returns (graph: TlGraph)
    requires IndexOf(index, files)
    ensures graph == BuildTlGraph(rootHash, files, orders)
  {
    ghost var defs := Definitions(files);
    var symbols := AssembleSymbols(index, files);
    var graphFiles: seq<TlGraphFile> := [];
    for i := 0 to |files|
      invariant graphFiles == FileEntries(defs, files[..i], orders.strings)
    {
      assert files[..i + 1][..i] == files[..i];
      var imports := CollectImports(files[i], index, files);
      var exports := Exports(files[i].symbols);
      if exports != [] || imports != [] {
        graphFiles := graphFiles +
          [TlGraphFile(files[i].path, Sorted(imports, orders.strings), Sorted(exports, orders.strings))];
      }
    }
    assert files[..|files|] == files;
    graph := TlGraph(rootHash, Sorted(symbols, orders.symbols), Sorted(graphFiles, orders.files));
  }

  // ----- index and graph agree

  lemma {:induction false} DefinitionsMembers(files: seq<IndexedFile>, d: Definition)
    ensures d in Definitions(files) ==>
      exists i :: 0 <= i < |files| && files[i].path == d.path && DefinesLocally(files[i], d.name)
  {
    if files != [] && d in Definitions(files) {
      var init, last := files[..|files| - 1], files[|files| - 1];
      if d in Definitions(init) {
        DefinitionsMembers(init, d);
        var i :| 0 <= i < |init| && init[i].path == d.path && DefinesLocally(init[i], d.name);
        assert files[i] == init[i];
      } else {
        DefinitionsInMembers(last.path, last.symbols, d);
        assert files[|files| - 1].path == d.path && DefinesLocally(files[|files| - 1], d.name);
      }
    }
  }

  lemma {:induction false} DefinitionsInMembers(path: string, symbols: seq<IndexedSymbol>, d: Definition)
    requires d in DefinitionsIn(path, symbols)
    ensures d.path == path && exists s :: s in symbols && s.name == d.name
  {
    var init := symbols[..|symbols| - 1];
    assert symbols == init + [symbols[|symbols| - 1]];
    if d in DefinitionsIn(path, init) {
      DefinitionsInMembers(path, init, d);
      var s :| s in init && s.name == d.name;
      assert s in symbols;
    }
  }

  lemma {:induction false} ReferencesInMembers(defs: seq<Definition>, file: IndexedFile, keys: seq<RefCount>, ref: Reference)
    requires ref in ReferencesIn(defs, file, keys)
    ensures ref.path == file.path && Defines(defs, ref.name) && !DefinesLocally(file, ref.name)
  {
    if ref in ReferencesIn(defs, file, keys[..|keys| - 1]) {
      ReferencesInMembers(defs, file, keys[..|keys| - 1], ref);
    }
  }

  /** File `file` makes the reference `ref`. */
  predicate Refers(defs: seq<Definition>, file: IndexedFile, ref: Reference) {
    ref in ReferencesIn(defs, file, file.outgoingSymbolRefs)
  }

  lemma {:induction false} ReferencesMembers(defs: seq<Definition>, files: seq<IndexedFile>, ref: Reference)
    ensures ref in References(defs, files) <==> exists file :: file in files && Refers(defs, file, ref)
  {
    if files != [] {
      var init, last := files[..|files| - 1], files[|files| - 1];
      ReferencesMembers(defs, init, ref);
      assert files == init + [last];
      assert ref in References(defs, files) <==> ref in References(defs, init) || Refers(defs, last, ref);
    }
  }

  /** No file that mentions a name from outside is one of the files that define it. */
  lemma NoSelfReference(files: seq<IndexedFile>, file: IndexedFile, ref: Reference, d: Definition)
    requires DistinctPaths(files) && file in files
    requires ref in ReferencesIn(Definitions(files), file, file.outgoingSymbolRefs)
    requires d in Definitions(files) && d.name == ref.name
    ensures d.path != file.path
  {
    ReferencesInMembers(Definitions(files), file, file.outgoingSymbolRefs, ref);
    DefinitionsMembers(files, d);
    var i :| 0 <= i < |files| && files[i].path == d.path && DefinesLocally(files[i], d.name);
    var j :| 0 <= j < |files| && files[j] == file;
    if i < j {
      assert files[i].path != files[j].path;
    }
  }

  lemma {:induction false} DefsOfMembers(defs: seq<Definition>, name: string, d: Definition)
    ensures d in DefsOf(defs, name) <==> d in defs && d.name == name
  {
    if defs != [] {
      DefsOfMembers(defs[..|defs| - 1], name, d);
      assert defs == defs[..|defs| - 1] + [defs[|defs| - 1]];
    }
  }

  lemma {:induction false} RefsOfMembers(refs: seq<Reference>, name: string, path: string)
    ensures (exists at :: at in RefsOf(refs, name) && at.path == path) <==> Reference(path, name) in refs
    ensures forall at :: at in RefsOf(refs, name) ==> at == Location(at.path, 1, 0)
  {
    if refs != [] {
      var init, last := refs[..|refs| - 1], refs[|refs| - 1];
      RefsOfMembers(init, name, path);
      assert refs == init + [last];
      if last == Reference(path, name) {
        assert Location(path, 1, 0) in RefsOf(refs, name);
      }
      if at :| at in RefsOf(init, name) && at.path == path {
        assert at in RefsOf(refs, name);
      }
      if at :| at in RefsOf(refs, name) && at.path == path {
        assert at in RefsOf(init, name) || last == Reference(path, name);
      }
    }
  }

  lemma {:induction false} NothingFiltered(refs: seq<Location>, path: string)
    requires forall at :: at in refs ==> at.path != path
    ensures RefsElsewhere(refs, path) == refs
  {
    if refs != [] {
      var init, last := refs[..|refs| - 1], refs[|refs| - 1];
      assert refs == init + [last] && last in refs;
      assert forall at :: at in init ==> at in refs;
      NothingFiltered(init, path);
    }
  }

  /** Both ends of every edge: a symbol keeps all the references recorded for its name. */
  lemma ReferencesSurviveFilter(files: seq<IndexedFile>, d: Definition)
    requires DistinctPaths(files) && d in Definitions(files)
    ensures var refs := RefsOf(References(Definitions(files), files), d.name); RefsElsewhere(refs, d.path) == refs
  {
    var defs := Definitions(files);
    var refs := References(defs, files);
    forall at | at in RefsOf(refs, d.name)
      ensures at.path != d.path
    {
      RefsOfMembers(refs, d.name, at.path);
      var ref := Reference(at.path, d.name);
      ReferencesMembers(defs, files, ref);
      var file :| file in files && Refers(defs, file, ref);
      ReferencesInMembers(defs, file, file.outgoingSymbolRefs, ref);
      NoSelfReference(files, file, ref, d);
    }
    NothingFiltered(RefsOf(refs, d.name), d.path);
  }

  lemma {:induction false} AddImportsMembers(imports: seq<string>, of: seq<Definition>, self: string, q: string)
    ensures q in AddImports(imports, of, self) <==> q in imports || (q != self && exists d :: d in of && d.path == q)
  {
    if of != [] {
      var init, last := of[..|of| - 1], of[|of| - 1];
      AddImportsMembers(imports, init, self, q);
      assert of == init + [last];
      if d :| d in init && d.path == q {
        assert d in of;
      }
      if last.path == q {
        assert last in of;
      }
    }
  }

  lemma {:induction false} ImportsOfMembers(defs: seq<Definition>, self: string, refs: seq<Reference>, q: string)
    ensures q in ImportsOf(defs, self, refs) <==> q != self && exists ref :: ref in refs && DefinedAt(defs, ref.name, q)
  {
    if refs != [] {
      var init, last := refs[..|refs| - 1], refs[|refs| - 1];
      ImportsOfMembers(defs, self, init, q);
      AddImportsMembers(ImportsOf(defs, self, init), DefsOf(defs, last.name), self, q);
      DefinedAtMeaning(defs, last.name, q);
      assert refs == init + [last];
    }
  }

  /** Some definition of `name` is in the file at `path`. */
  predicate DefinedAt(defs: seq<Definition>, name: string, path: string) {
    exists d :: d in defs && d.name == name && d.path == path
  }

  lemma DefinedAtMeaning(defs: seq<Definition>, name: string, path: string)
    ensures DefinedAt(defs, name, path) <==> exists d :: d in DefsOf(defs, name) && d.path == path
  {
    forall d
      ensures d in DefsOf(defs, name) <==> d in defs && d.name == name
    {
      DefsOfMembers(defs, name, d);
    }
  }

  /** A file is listed in the graph exactly when the index counted it. */
  lemma ListedIffInGraph(files: seq<IndexedFile>, file: IndexedFile)
    requires DistinctPaths(files) && file in files
    ensures InGraph(Definitions(files), file) <==>
      Exports(file.symbols) != [] || FileImports(Definitions(files), file) != []
  {
    var defs := Definitions(files);
    var refs := ReferencesIn(defs, file, file.outgoingSymbolRefs);
    if refs != [] {
      var ref := refs[0];
      ReferencesInMembers(defs, file, file.outgoingSymbolRefs, ref);
      var d :| d in defs && d.name == ref.name;
      NoSelfReference(files, file, ref, d);
      ImportsOfMembers(defs, file.path, refs, d.path);
    }
  }

  lemma {:induction false} EntriesMatchGraphFiles(files: seq<IndexedFile>, order: (string, string) -> bool, n: nat)
    requires DistinctPaths(files) && n <= |files|
    ensures |FileEntries(Definitions(files), files[..n], order)| == |GraphFiles(Definitions(files), files[..n])|
  {
    if n > 0 {
      EntriesMatchGraphFiles(files, order, n - 1);
      assert files[..n][..n - 1] == files[..n - 1];
      ListedIffInGraph(files, files[n - 1]);
    }
  }

  lemma {:induction false} SymbolsForLength(of: seq<Definition>, refs: seq<Location>)
    ensures |SymbolsFor(of, refs)| == |of|
  {
    if of != [] {
      SymbolsForLength(of[..|of| - 1], refs);
    }
  }

  lemma {:induction false} SymbolTotalIsLength(defs: seq<Definition>, refs: seq<Reference>, names: seq<string>)
    ensures SymbolTotal(defs, refs, names) == |GraphSymbols(defs, refs, names)|
  {
    if names != [] {
      SymbolTotalIsLength(defs, refs, names[..|names| - 1]);
      SymbolsForLength(DefsOf(defs, names[|names| - 1]), RefsOf(refs, names[|names| - 1]));
    }
  }

  /** The counts reported without assembling the graph are the assembled lengths. */
  lemma CountsAgree(index: GraphBuildIndex, rootHash: string, files: seq<IndexedFile>, orders: Orders)
    requires IndexOf(index, files) && DistinctPaths(files)
    ensures index.symbolCount == |BuildTlGraph(rootHash, files, orders).symbols|
    ensures index.fileCount == |BuildTlGraph(rootHash, files, orders).files|
  {
    var defs := Definitions(files);
    SymbolTotalIsLength(defs, References(defs, files), NamesOf(defs));
    SortedIsPermutation(GraphSymbols(defs, References(defs, files), NamesOf(defs)), orders.symbols);
    SortedIsPermutation(FileEntries(defs, files, orders.strings), orders.files);
    EntriesMatchGraphFiles(files, orders.strings, |files|);
    assert files[..|files|] == files;
  }

  // ----- imports and references are the two ends of the same edges

  lemma {:induction false} SymbolsForMembers(of: seq<Definition>, refs: seq<Location>, s: TlGraphSymbol)
    ensures s in SymbolsFor(of, refs) <==>
      exists d :: d in of && s == TlGraphSymbol(d.name, Location(d.path, d.lineStart, 0), RefsElsewhere(refs, d.path))
  {
    if of != [] {
      var init, last := of[..|of| - 1], of[|of| - 1];
      SymbolsForMembers(init, refs, s);
      assert of == init + [last];
    }
  }

  predicate SymbolOfName(defs: seq<Definition>, refs: seq<Reference>, name: string, s: TlGraphSymbol) {
    RefsOf(refs, name) != [] && s in SymbolsFor(DefsOf(defs, name), RefsOf(refs, name))
  }

  lemma {:induction false} GraphSymbolsMembers(defs: seq<Definition>, refs: seq<Reference>, names: seq<string>, s: TlGraphSymbol)
    ensures s in GraphSymbols(defs, refs, names) <==> exists name :: name in names && SymbolOfName(defs, refs, name, s)
  {
    if names != [] {
      var init, last := names[..|names| - 1], names[|names| - 1];
      GraphSymbolsMembers(defs, refs, init, s);
      assert names == init + [last];
      assert s in GraphSymbols(defs, refs, names) <==> s in GraphSymbols(defs, refs, init) || SymbolOfName(defs, refs, last, s);
    }
  }

  /** Symbol `s` is defined at `q` and lists `p` among its references. */
  predicate EdgeAtSymbol(s: TlGraphSymbol, p: string, q: string) {
    s.definition.path == q && exists at :: at in s.references && at.path == p
  }

  lemma SymbolEdgeMeansReference(files: seq<IndexedFile>, s: TlGraphSymbol, p: string, q: string)
    requires DistinctPaths(files)
    requires s in GraphSymbols(Definitions(files), References(Definitions(files), files), NamesOf(Definitions(files)))
    requires EdgeAtSymbol(s, p, q)
    ensures Reference(p, s.name) in References(Definitions(files), files) && DefinedAt(Definitions(files), s.name, q)
  {
    var defs := Definitions(files);
    var refs := References(defs, files);
    GraphSymbolsMembers(defs, refs, NamesOf(defs), s);
    var name :| name in NamesOf(defs) && SymbolOfName(defs, refs, name, s);
    SymbolsForMembers(DefsOf(defs, name), RefsOf(refs, name), s);
    var d :| d in DefsOf(defs, name)
      && s == TlGraphSymbol(d.name, Location(d.path, d.lineStart, 0), RefsElsewhere(RefsOf(refs, name), d.path));
    DefsOfMembers(defs, name, d);
    ReferencesSurviveFilter(files, d);
    RefsOfMembers(refs, name, p);
  }

  lemma ReferenceMeansSymbolEdge(files: seq<IndexedFile>, name: string, p: string, q: string)
    requires DistinctPaths(files)
    requires Reference(p, name) in References(Definitions(files), files) && DefinedAt(Definitions(files), name, q)
    ensures exists s ::
      EdgeAtSymbol(s, p, q)
      && s in GraphSymbols(Definitions(files), References(Definitions(files), files), NamesOf(Definitions(files)))
  {
    var defs := Definitions(files);
    var refs := References(defs, files);
    RefsOfMembers(refs, name, p);
    var d :| d in defs && d.name == name && d.path == q;
    DefsOfMembers(defs, name, d);
    NamesAreDefined(defs, name);
    ReferencesSurviveFilter(files, d);
    var s := TlGraphSymbol(d.name, Location(d.path, d.lineStart, 0), RefsElsewhere(RefsOf(refs, name), d.path));
    SymbolsForMembers(DefsOf(defs, name), RefsOf(refs, name), s);
    assert SymbolOfName(defs, refs, name, s);
    GraphSymbolsMembers(defs, refs, NamesOf(defs), s);
    assert EdgeAtSymbol(s, p, q);
  }

  /** In the graph, a file imports `q` exactly when some symbol defined in `q` lists the file as a reference. */
  lemma ImportIffReference(rootHash: string, files: seq<IndexedFile>, orders: Orders, file: IndexedFile, q: string)
    requires DistinctPaths(files) && file in files
    ensures q in FileEntry(Definitions(files), file, orders.strings).imports <==>
      exists s :: s in BuildTlGraph(rootHash, files, orders).symbols && EdgeAtSymbol(s, file.path, q)
  {
    var defs := Definitions(files);
    var refs := References(defs, files);
    var symbols := GraphSymbols(defs, refs, NamesOf(defs));
    SameMembers(FileImports(defs, file), orders.strings);
    SameMembers(symbols, orders.symbols);
    var own := ReferencesIn(defs, file, file.outgoingSymbolRefs);
    ImportsOfMembers(defs, file.path, own, q);
    if q in FileImports(defs, file) {
      var ref :| ref in own && DefinedAt(defs, ref.name, q);
      ReferencesInMembers(defs, file, file.outgoingSymbolRefs, ref);
      assert Refers(defs, file, ref);
      ReferencesMembers(defs, files, ref);
      ReferenceMeansSymbolEdge(files, ref.name, file.path, q);
    }
    if s :| s in symbols && EdgeAtSymbol(s, file.path, q) {
      SymbolEdgeMeansReference(files, s, file.path, q);
      var ref := Reference(file.path, s.name);
      ReferencesMembers(defs, files, ref);
      var from :| from in files && Refers(defs, from, ref);
      ReferencesInMembers(defs, from, from.outgoingSymbolRefs, ref);
      SamePathSameFile(files, from, file);
      var d :| d in defs && d.name == s.name && d.path == q;
      NoSelfReference(files, file, ref, d);
    }
  }

  lemma SamePathSameFile(files: seq<IndexedFile>, f: IndexedFile, g: IndexedFile)
    requires DistinctPaths(files) && f in files && g in files && f.path == g.path
    ensures f == g
  {
    var i :| 0 <= i < |files| && files[i] == f;
    var j :| 0 <= j < |files| && files[j] == g;
    assert i == j;
  }

  // ----- index and graph, from the files alone

  /** `d` is the definition of one of the file's symbols, at the symbol's line. */
  lemma {:induction false} DefinitionInFile(path: string, symbols: seq<IndexedSymbol>, d: Definition)
    ensures d in DefinitionsIn(path, symbols) <==> exists s :: s in symbols && d == Definition(path, s.name, s.lineStart)
  {
    if symbols != [] {
      var init, last := symbols[..|symbols| - 1], symbols[|symbols| - 1];
      DefinitionInFile(path, init, d);
      assert symbols == init + [last];
    }
  }

  predicate DefinesAtLine(file: IndexedFile, d: Definition) {
    exists s :: s in file.symbols && d == Definition(file.path, s.name, s.lineStart)
  }

  lemma {:induction false} DefinitionFromFiles(files: seq<IndexedFile>, d: Definition)
    ensures d in Definitions(files) <==> exists file :: file in files && DefinesAtLine(file, d)
  {
    if files != [] {
      var init, last := files[..|files| - 1], files[|files| - 1];
      DefinitionFromFiles(init, d);
      DefinitionInFile(last.path, last.symbols, d);
      assert files == init + [last];
      assert d in Definitions(files) <==> d in Definitions(init) || DefinesAtLine(last, d);
    }
  }

  lemma NameFromFiles(files: seq<IndexedFile>, name: string)
    ensures Defines(Definitions(files), name) <==> exists file, s :: file in files && s in file.symbols && s.name == name
  {
    if d :| d in Definitions(files) && d.name == name {
      DefinitionFromFiles(files, d);
      var file :| file in files && DefinesAtLine(file, d);
      var s :| s in file.symbols && d == Definition(file.path, s.name, s.lineStart);
      assert s.name == name;
    }
    if file, s :| file in files && s in file.symbols && s.name == name {
      var d := Definition(file.path, s.name, s.lineStart);
      assert DefinesAtLine(file, d);
      DefinitionFromFiles(files, d);
    }
  }

  lemma {:induction false} ReferenceInFile(defs: seq<Definition>, file: IndexedFile, keys: seq<RefCount>, ref: Reference)
    ensures ref in ReferencesIn(defs, file, keys) <==>
      && ref.path == file.path && (exists key :: key in keys && key.name == ref.name)
      && Defines(defs, ref.name) && forall t :: t in file.symbols ==> t.name != ref.name
  {
    if keys != [] {
      var init, last := keys[..|keys| - 1], keys[|keys| - 1];
      ReferenceInFile(defs, file, init, ref);
      assert keys == init + [last];
      assert DefinesLocally(file, last.name) <==> exists t :: t in file.symbols && t.name == last.name;
    }
  }

  /** A reference is recorded exactly for a file with this outgoing name that has no symbol of it, where some file has one. */
  lemma ReferenceFromFiles(files: seq<IndexedFile>, p: IndexedFile, name: string)
    requires DistinctPaths(files) && p in files
    ensures Reference(p.path, name) in References(Definitions(files), files) <==>
      && (exists key :: key in p.outgoingSymbolRefs && key.name == name)
      && (forall t :: t in p.symbols ==> t.name != name)
      && exists q, s :: q in files && s in q.symbols && s.name == name
  {
    var defs, ref := Definitions(files), Reference(p.path, name);
    NameFromFiles(files, name);
    ReferencesMembers(defs, files, ref);
    ReferenceInFile(defs, p, p.outgoingSymbolRefs, ref);
    if file :| file in files && Refers(defs, file, ref) {
      ReferenceInFile(defs, file, file.outgoingSymbolRefs, ref);
      SamePathSameFile(files, file, p);
    }
    assert Refers(defs, p, ref) <==> ref in ReferencesIn(defs, p, p.outgoingSymbolRefs);
  }

  /** In the index: a name's definitions are those of the files' symbols, and its references those recorded for the files. */
  lemma IndexFromFiles(index: GraphBuildIndex, files: seq<IndexedFile>, name: string)
    requires IndexOf(index, files) && DistinctPaths(files)
    ensures name in index.defsByName <==> exists q, s :: q in files && s in q.symbols && s.name == name
    ensures name in index.defsByName ==>
      forall q, line: nat :: q in files ==>
        (Definition(q.path, name, line) in index.defsByName[name] <==>
         exists s :: s in q.symbols && s.name == name && s.lineStart == line)
    ensures forall p :: p in files ==>
      ((name in index.refsByName && Location(p.path, 1, 0) in index.refsByName[name]) <==>
       && (exists key :: key in p.outgoingSymbolRefs && key.name == name)
       && (forall t :: t in p.symbols ==> t.name != name)
       && exists q, s :: q in files && s in q.symbols && s.name == name)
  {
    var defs := Definitions(files);
    var refs := References(defs, files);
    NameLookup(index, files, name);
    NameFromFiles(files, name);
    if name in index.defsByName {
      forall q, line: nat | q in files
        ensures Definition(q.path, name, line) in DefsOf(defs, name) <==>
          exists s :: s in q.symbols && s.name == name && s.lineStart == line
      {
        DefinedOnLine(files, q, name, line);
      }
    }
    forall p | p in files
      ensures Location(p.path, 1, 0) in RefsOf(refs, name) <==> Reference(p.path, name) in refs
      ensures Reference(p.path, name) in refs <==>
        && (exists key :: key in p.outgoingSymbolRefs && key.name == name)
        && (forall t :: t in p.symbols ==> t.name != name)
        && exists q, s :: q in files && s in q.symbols && s.name == name
    {
      RefsOfMembers(refs, name, p.path);
      ReferenceFromFiles(files, p, name);
    }
  }

  lemma DefinedOnLine(files: seq<IndexedFile>, q: IndexedFile, name: string, line: nat)
    requires DistinctPaths(files) && q in files
    ensures Definition(q.path, name, line) in DefsOf(Definitions(files), name) <==>
      exists s :: s in q.symbols && s.name == name && s.lineStart == line
  {
    var d := Definition(q.path, name, line);
    DefsOfMembers(Definitions(files), name, d);
    DefinitionFromFiles(files, d);
    if file :| file in files && DefinesAtLine(file, d) {
      SamePathSameFile(files, file, q);
    }
    if s :| s in q.symbols && s.name == name && s.lineStart == line {
      assert DefinesAtLine(q, d);
    }
  }

  /** In the graph: one file imports another exactly for a name it mentions and does not define, and the other does. */
  lemma ImportsFromFiles(rootHash: string, files: seq<IndexedFile>, orders: Orders, p: IndexedFile, q: IndexedFile)
    requires DistinctPaths(files) && p in files && q in files
    ensures (exists entry :: entry in BuildTlGraph(rootHash, files, orders).files && entry.path == p.path && q.path in entry.imports)
      <==>
      && p.path != q.path
      && exists key, s :: key in p.outgoingSymbolRefs && s in q.symbols && s.name == key.name
           && forall t :: t in p.symbols ==> t.name != key.name
  {
    EntryOfFile(rootHash, files, orders, p, q.path);
    var defs := Definitions(files);
    var own := ReferencesIn(defs, p, p.outgoingSymbolRefs);
    ImportsOfMembers(defs, p.path, own, q.path);
    if ref :| ref in own && DefinedAt(defs, ref.name, q.path) {
      ReferenceInFile(defs, p, p.outgoingSymbolRefs, ref);
      var key :| key in p.outgoingSymbolRefs && key.name == ref.name;
      NameInFile(files, q, ref.name);
      var s :| s in q.symbols && s.name == ref.name;
      assert s.name == key.name;
    }
    if key, s :| key in p.outgoingSymbolRefs && s in q.symbols && s.name == key.name
                 && forall t :: t in p.symbols ==> t.name != key.name {
      NameInFile(files, q, key.name);
      assert Defines(defs, key.name);
      ReferenceInFile(defs, p, p.outgoingSymbolRefs, Reference(p.path, key.name));
    }
  }

  lemma NameInFile(files: seq<IndexedFile>, q: IndexedFile, name: string)
    requires DistinctPaths(files) && q in files
    ensures DefinedAt(Definitions(files), name, q.path) <==> exists s :: s in q.symbols && s.name == name
    ensures DefinedAt(Definitions(files), name, q.path) ==> Defines(Definitions(files), name)
  {
    if d :| d in Definitions(files) && d.name == name && d.path == q.path {
      DefsOfMembers(Definitions(files), name, d);
      DefinedOnLine(files, q, name, d.lineStart);
    }
    if s :| s in q.symbols && s.name == name {
      DefinedOnLine(files, q, name, s.lineStart);
      DefsOfMembers(Definitions(files), name, Definition(q.path, name, s.lineStart));
    }
  }

  /** A file's entry is the only one of its path, and is there when the file exports or imports anything. */
  lemma EntryOfFile(rootHash: string, files: seq<IndexedFile>, orders: Orders, p: IndexedFile, q: string)
    requires DistinctPaths(files) && p in files
    ensures (exists entry :: entry in BuildTlGraph(rootHash, files, orders).files && entry.path == p.path && q in entry.imports)
      <==> q in FileImports(Definitions(files), p)
  {
    var defs := Definitions(files);
    SameMembers(FileEntries(defs, files, orders.strings), orders.files);
    SameMembers(FileImports(defs, p), orders.strings);
    forall entry
      ensures entry in FileEntries(defs, files, orders.strings) && entry.path == p.path <==>
        entry == FileEntry(defs, p, orders.strings) && (Exports(p.symbols) != [] || FileImports(defs, p) != [])
    {
      FileEntriesMembers(defs, files, orders.strings, entry);
      if file :| file in files && EntryIs(defs, file, orders.strings, entry) && entry.path == p.path {
        SamePathSameFile(files, file, p);
      }
      assert EntryIs(defs, p, orders.strings, FileEntry(defs, p, orders.strings)) <==>
        Exports(p.symbols) != [] || FileImports(defs, p) != [];
    }
    if q in FileImports(defs, p) {
      assert FileEntry(defs, p, orders.strings) in FileEntries(defs, files, orders.strings);
    }
  }

  predicate EntryIs(defs: seq<Definition>, file: IndexedFile, order: (string, string) -> bool, entry: TlGraphFile) {
    entry == FileEntry(defs, file, order) && (Exports(file.symbols) != [] || FileImports(defs, file) != [])
  }

  lemma {:induction false} FileEntriesMembers(defs: seq<Definition>, files: seq<IndexedFile>, order: (string, string) -> bool,
                                              entry: TlGraphFile)
    ensures entry in FileEntries(defs, files, order) <==> exists file :: file in files && EntryIs(defs, file, order, entry)
  {
    if files != [] {
      var init, last := files[..|files| - 1], files[|files| - 1];
      FileEntriesMembers(defs, init, order, entry);
      LastFileEntry(defs, files, order, entry);
      forall file | EntryIs(defs, file, order, entry)
        ensures file in files <==> file in init || file == last
      {
        assert files == init + [last];
      }
    }
  }

  lemma LastFileEntry(defs: seq<Definition>, files: seq<IndexedFile>, order: (string, string) -> bool, entry: TlGraphFile)
    requires files != []
    ensures entry in FileEntries(defs, files, order) <==>
      entry in FileEntries(defs, files[..|files| - 1], order) || EntryIs(defs, files[|files| - 1], order, entry)
  {
  }

  /**
   * In the graph: a symbol stands for one of a file, at that symbol's line, and a file is among its
   * references exactly when it mentions the name without defining it.
   */
  lemma SymbolsFromFiles(rootHash: string, files: seq<IndexedFile>, orders: Orders, symbol: TlGraphSymbol)
    requires DistinctPaths(files) && symbol in BuildTlGraph(rootHash, files, orders).symbols
    ensures exists q, s :: q in files && s in q.symbols && symbol.name == s.name && symbol.definition == Location(q.path, s.lineStart, 0)
    ensures forall p :: p in files ==>
      (Location(p.path, 1, 0) in symbol.references <==>
       && (exists key :: key in p.outgoingSymbolRefs && key.name == symbol.name)
       && forall t :: t in p.symbols ==> t.name != symbol.name)
    ensures symbol.references != [] && forall at :: at in symbol.references ==> at.line == 1 && at.column == 0
  {
    var d := SymbolIsDefinition(rootHash, files, orders, symbol);
    DefinitionFromFiles(files, d);
    var q :| q in files && DefinesAtLine(q, d);
    var s :| s in q.symbols && d == Definition(q.path, s.name, s.lineStart);
    assert symbol.name == s.name && symbol.definition == Location(q.path, s.lineStart, 0);
    RefsOfMembers(References(Definitions(files), files), d.name, q.path);
    forall p | p in files
      ensures Location(p.path, 1, 0) in symbol.references <==>
        && (exists key :: key in p.outgoingSymbolRefs && key.name == symbol.name)
        && forall t :: t in p.symbols ==> t.name != symbol.name
    {
      RefsOfMembers(References(Definitions(files), files), d.name, p.path);
      ReferenceFromFiles(files, p, d.name);
    }
  }

  lemma SymbolIsDefinition(rootHash: string, files: seq<IndexedFile>, orders: Orders, symbol: TlGraphSymbol) returns (d: Definition)
    requires DistinctPaths(files) && symbol in BuildTlGraph(rootHash, files, orders).symbols
    ensures d in Definitions(files) && symbol.name == d.name && symbol.definition == Location(d.path, d.lineStart, 0)
    ensures symbol.references == RefsOf(References(Definitions(files), files), d.name) != []
  {
    var defs := Definitions(files);
    var refs := References(defs, files);
    SameMembers(GraphSymbols(defs, refs, NamesOf(defs)), orders.symbols);
    GraphSymbolsMembers(defs, refs, NamesOf(defs), symbol);
    var name :| name in NamesOf(defs) && SymbolOfName(defs, refs, name, symbol);
    SymbolsForMembers(DefsOf(defs, name), RefsOf(refs, name), symbol);
    d :| d in DefsOf(defs, name)
      && symbol == TlGraphSymbol(d.name, Location(d.path, d.lineStart, 0), RefsElsewhere(RefsOf(refs, name), d.path));
    DefsOfMembers(defs, name, d);
    ReferencesSurviveFilter(files, d);
  }

  /** And every symbol of a file that some file so mentions has its place in the graph. */
  lemma MentionedSymbolIsThere(rootHash: string, files: seq<IndexedFile>, orders: Orders, q: IndexedFile, s: IndexedSymbol,
                               p: IndexedFile, key: RefCount)
    requires DistinctPaths(files) && q in files && s in q.symbols && p in files && key in p.outgoingSymbolRefs && key.name == s.name
    requires forall t :: t in p.symbols ==> t.name != s.name
    ensures exists symbol ::
      && symbol in BuildTlGraph(rootHash, files, orders).symbols
      && symbol.name == s.name && symbol.definition == Location(q.path, s.lineStart, 0)
  {
    var defs := Definitions(files);
    var refs := References(defs, files);
    ReferenceFromFiles(files, p, s.name);
    RefsOfMembers(refs, s.name, p.path);
    DefinedOnLine(files, q, s.name, s.lineStart);
    var d := Definition(q.path, s.name, s.lineStart);
    DefsOfMembers(defs, s.name, d);
    NamesAreDefined(defs, s.name);
    var symbol := TlGraphSymbol(d.name, Location(d.path, d.lineStart, 0), RefsElsewhere(RefsOf(refs, s.name), d.path));
    SymbolsForMembers(DefsOf(defs, s.name), RefsOf(refs, s.name), symbol);
    assert SymbolOfName(defs, refs, s.name, symbol);
    GraphSymbolsMembers(defs, refs, NamesOf(defs), symbol);
    SameMembers(GraphSymbols(defs, refs, NamesOf(defs)), orders.symbols);
  }

  /** A listed file's exports are the names of its symbols, each as often as it has one. */
  lemma ExportsFromFile(defs: seq<Definition>, p: IndexedFile, order: (string, string) -> bool, names: seq<string>)
    requires |names| == |p.symbols| && forall i :: 0 <= i < |names| ==> names[i] == p.symbols[i].name
    ensures multiset(FileEntry(defs, p, order).exports) == multiset(names)
  {
    ExportsAre(p.symbols, names);
    SortedIsPermutation(names, order);
  }

  lemma {:induction false} ExportsAre(symbols: seq<IndexedSymbol>, names: seq<string>)
    requires |names| == |symbols| && forall i :: 0 <= i < |names| ==> names[i] == symbols[i].name
    ensures Exports(symbols) == names
  {
    if symbols != [] {
      ExportsAre(symbols[..|symbols| - 1], names[..|names| - 1]);
    }
  }

  // ----- the bound agrees with the assembled graph

  function SymbolChars(s: TlGraphSymbol): nat {
    |s.name| + |s.definition.path| + RefPathChars(s.references)
  }

  function StringChars(s: string): nat {
    |s|
  }

  function ImportChars(f: TlGraphFile): nat {
    Total(f.imports, StringChars)
  }

  function FileChars(f: TlGraphFile): nat {
    |f.path| + ImportChars(f) + Total(f.exports, StringChars)
  }

  /** The estimate taken after assembly. */
  function EstimateGraphMinBytes(graph: TlGraph): nat {
    |graph.rootHash| + Total(graph.symbols, SymbolChars) + Total(graph.files, FileChars)
  }

  lemma {:induction false} SymbolsForChars(files: seq<IndexedFile>, of: seq<Definition>, refs: seq<Location>, name: string)
    requires DistinctPaths(files)
    requires forall d :: d in of ==> d in Definitions(files) && d.name == name
    requires refs == RefsOf(References(Definitions(files), files), name)
    ensures Total(SymbolsFor(of, refs), SymbolChars) == |of| * |name| + DefPathChars(of) + |of| * RefPathChars(refs)
  {
    if of != [] {
      var init, last := of[..|of| - 1], of[|of| - 1];
      SymbolsForChars(files, init, refs, name);
      ReferencesSurviveFilter(files, last);
      var rest := SymbolsFor(init, refs);
      var s := TlGraphSymbol(last.name, Location(last.path, last.lineStart, 0), RefsElsewhere(refs, last.path));
      assert SymbolsFor(of, refs) == rest + [s];
      assert (rest + [s])[..|rest|] == rest;
      OneMore(|init|, |name|);
      OneMore(|init|, RefPathChars(refs));
    }
  }

  lemma OneMore(count: nat, chars: nat)
    ensures (count + 1) * chars == count * chars + chars
  {
  }

  lemma {:induction false} GraphSymbolsChars(files: seq<IndexedFile>, names: seq<string>)
    requires DistinctPaths(files)
    ensures Total(GraphSymbols(Definitions(files), References(Definitions(files), files), names), SymbolChars)
         == NamesBytes(Definitions(files), References(Definitions(files), files), names)
  {
    if names != [] {
      var defs := Definitions(files);
      var refs := References(defs, files);
      var init, last := names[..|names| - 1], names[|names| - 1];
      GraphSymbolsChars(files, init);
      forall d
        ensures d in DefsOf(defs, last) ==> d in defs && d.name == last
      {
        DefsOfMembers(defs, last, d);
      }
      SymbolsForChars(files, DefsOf(defs, last), RefsOf(refs, last), last);
      var more := if RefsOf(refs, last) == [] then [] else SymbolsFor(DefsOf(defs, last), RefsOf(refs, last));
      TotalConcat(GraphSymbols(defs, refs, init), more, SymbolChars);
    }
  }

  lemma {:induction false} ExportChars(path: string, symbols: seq<IndexedSymbol>)
    ensures Total(Exports(symbols), StringChars) == DefNameChars(DefinitionsIn(path, symbols))
  {
    if symbols != [] {
      var init := symbols[..|symbols| - 1];
      ExportChars(path, init);
      var last := symbols[|symbols| - 1];
      assert Exports(symbols)[..|Exports(init)|] == Exports(init);
      assert DefinitionsIn(path, symbols)[..|DefinitionsIn(path, init)|] == DefinitionsIn(path, init);
    }
  }

  lemma {:induction false} DefNameCharsConcat(a: seq<Definition>, b: seq<Definition>)
    ensures DefNameChars(a + b) == DefNameChars(a) + DefNameChars(b)
  {
    if b == [] {
      assert a + b == a;
    } else {
      DefNameCharsConcat(a, b[..|b| - 1]);
      assert (a + b)[..|a + b| - 1] == a + b[..|b| - 1];
    }
  }

  lemma EntryChars(defs: seq<Definition>, file: IndexedFile, order: (string, string) -> bool)
    ensures var entry := FileEntry(defs, file, order);
      FileChars(entry) == |file.path| + ImportChars(entry) + DefNameChars(DefinitionsIn(file.path, file.symbols))
  {
    ExportChars(file.path, file.symbols);
    SortedTotal(Exports(file.symbols), order, StringChars);
  }

  lemma FileEntriesAppend(defs: seq<Definition>, init: seq<IndexedFile>, file: IndexedFile, order: (string, string) -> bool)
    requires InGraph(defs, file) <==> Exports(file.symbols) != [] || FileImports(defs, file) != []
    ensures FileEntries(defs, init + [file], order)
         == FileEntries(defs, init, order) + if InGraph(defs, file) then [FileEntry(defs, file, order)] else []
    ensures GraphFiles(defs, init + [file]) == GraphFiles(defs, init) + if InGraph(defs, file) then [file] else []
    ensures Definitions(init + [file]) == Definitions(init) + DefinitionsIn(file.path, file.symbols)
  {
    assert (init + [file])[..|init|] == init;
  }

  /** The files' share of the estimate: paths of listed files, all export names, and the imports. */
  predicate ShareOfFiles(defs: seq<Definition>, files: seq<IndexedFile>, order: (string, string) -> bool) {
    Total(FileEntries(defs, files, order), FileChars) ==
      FilePathChars(GraphFiles(defs, files)) + DefNameChars(Definitions(files))
      + Total(FileEntries(defs, files, order), ImportChars)
  }

  lemma ShareOfOneMore(defs: seq<Definition>, init: seq<IndexedFile>, file: IndexedFile, order: (string, string) -> bool)
    requires InGraph(defs, file) <==> Exports(file.symbols) != [] || FileImports(defs, file) != []
    requires ShareOfFiles(defs, init, order)
    ensures ShareOfFiles(defs, init + [file], order)
  {
    FileEntriesAppend(defs, init, file, order);
    DefNameCharsConcat(Definitions(init), DefinitionsIn(file.path, file.symbols));
    var before, entry := FileEntries(defs, init, order), FileEntry(defs, file, order);
    if InGraph(defs, file) {
      EntryChars(defs, file, order);
      OneMoreTotal(before, entry, FileChars);
      OneMoreTotal(before, entry, ImportChars);
      OneMoreListed(GraphFiles(defs, init), file);
    } else {
      assert before + [] == before && GraphFiles(defs, init) + [] == GraphFiles(defs, init);
    }
  }

  lemma {:induction false} FileEntriesChars(files: seq<IndexedFile>, order: (string, string) -> bool, n: nat)
    requires DistinctPaths(files) && n <= |files|
    ensures ShareOfFiles(Definitions(files), files[..n], order)
  {
    if n > 0 {
      var init, file := files[..n - 1], files[n - 1];
      assert files[..n] == init + [file];
      FileEntriesChars(files, order, n - 1);
      ListedIffInGraph(files, file);
      ShareOfOneMore(Definitions(files), init, file, order);
    }
  }

  lemma OneMoreTotal<T>(s: seq<T>, x: T, weight: T -> nat)
    ensures Total(s + [x], weight) == Total(s, weight) + weight(x)
  {
    assert (s + [x])[..|s|] == s;
  }

  lemma OneMoreListed(files: seq<IndexedFile>, file: IndexedFile)
    ensures FilePathChars(files + [file]) == FilePathChars(files) + |file.path|
    ensures files + [] == files
  {
    assert (files + [file])[..|files|] == files;
  }

  /** Unsaturated, the linear bound is the assembled estimate without the import path lengths. */
  lemma BoundIsEstimateWithoutImports(rootHash: string, files: seq<IndexedFile>, orders: Orders)
    requires DistinctPaths(files)
    ensures EstimateGraphMinBytes(BuildTlGraph(rootHash, files, orders)) ==
      TrueBound(rootHash, files) + Total(BuildTlGraph(rootHash, files, orders).files, ImportChars)
  {
    var defs := Definitions(files);
    var symbols := GraphSymbols(defs, References(defs, files), NamesOf(defs));
    var entries := FileEntries(defs, files, orders.strings);
    GraphSymbolsChars(files, NamesOf(defs));
    SortedTotal(symbols, orders.symbols, SymbolChars);
    FileEntriesChars(files, orders.strings, |files|);
    assert files[..|files|] == files;
    SortedTotal(entries, orders.files, FileChars);
    SortedTotal(entries, orders.files, ImportChars);
  }

  // ----- the bound and the written file

  /** The encoded length of a quoted string and of a number. */
  datatype Encoder = Encoder(quoted: string -> nat, number: nat -> nat)

  /** Two quotes, and at least one byte for every UTF-16 unit. */
  ghost predicate SoundEncoder(w: Encoder) {
    forall s :: w.quoted(s) >= |s| + 2
  }

  /** `[`, the elements with commas between them, `]` */
  function ListBytes<T>(elements: seq<T>, bytes: T -> nat): nat {
    2 + Total(elements, bytes) + if elements == [] then 0 else |elements| - 1
  }

  /** `{"path":P,"line":L,"column":C}` */
  function LocationBytes(w: Encoder, at: Location): nat {
    8 + w.quoted(at.path) + 8 + w.number(at.line) + 10 + w.number(at.column) + 1
  }

  /** `{"name":N,"definition":D,"references":R}` */
  function SymbolBytes(w: Encoder, s: TlGraphSymbol): nat {
    8 + w.quoted(s.name) + 14 + LocationBytes(w, s.definition) + 14
    + ListBytes(s.references, (at: Location) => LocationBytes(w, at)) + 1
  }

  /** `{"path":P,"imports":I,"exports":E}` */
  function FileBytes(w: Encoder, f: TlGraphFile): nat {
    8 + w.quoted(f.path) + 11 + ListBytes(f.imports, w.quoted) + 11 + ListBytes(f.exports, w.quoted) + 1
  }

  /** `{"version":1,"generation":G,"rootHash":R,"symbols":S,"files":F}` */
  function GraphBytes(w: Encoder, generation: nat, graph: TlGraph): nat {
    26 + w.number(generation) + 12 + w.quoted(graph.rootHash)
    + 11 + ListBytes(graph.symbols, (s: TlGraphSymbol) => SymbolBytes(w, s))
    + 9 + ListBytes(graph.files, (f: TlGraphFile) => FileBytes(w, f)) + 1
  }

  lemma {:induction false} TotalAtMost<T>(s: seq<T>, weight: T -> nat, weight': T -> nat)
    requires forall x :: x in s ==> weight(x) <= weight'(x)
    ensures Total(s, weight) <= Total(s, weight')
  {
    if s != [] {
      TotalAtMost(s[..|s| - 1], weight, weight');
    }
  }

  lemma {:induction false} ReferencesAtMost(w: Encoder, refs: seq<Location>)
    requires SoundEncoder(w)
    ensures RefPathChars(refs) <= Total(refs, (at: Location) => LocationBytes(w, at))
  {
    if refs != [] {
      ReferencesAtMost(w, refs[..|refs| - 1]);
    }
  }

  lemma FileAtMost(w: Encoder, f: TlGraphFile)
    requires SoundEncoder(w)
    ensures FileChars(f) <= FileBytes(w, f)
  {
    TotalAtMost(f.imports, StringChars, w.quoted);
    TotalAtMost(f.exports, StringChars, w.quoted);
  }

  /** The estimate never exceeds the bytes of the file that would be written. */
  lemma EstimateIsLowerBound(w: Encoder, generation: nat, graph: TlGraph)
    requires SoundEncoder(w)
    ensures EstimateGraphMinBytes(graph) <= GraphBytes(w, generation, graph)
  {
    forall s | s in graph.symbols
      ensures SymbolChars(s) <= SymbolBytes(w, s)
    {
      ReferencesAtMost(w, s.references);
    }
    forall f | f in graph.files
      ensures FileChars(f) <= FileBytes(w, f)
    {
      FileAtMost(w, f);
    }
    TotalAtMost(graph.symbols, SymbolChars, (s: TlGraphSymbol) => SymbolBytes(w, s));
    TotalAtMost(graph.files, FileChars, (f: TlGraphFile) => FileBytes(w, f));
  }

  /**
   * A graph whose file would fit under the cap passes both gates, the one before assembly and the one after it,
   * unless a name nobody references overflows a counter: then the first one, and only that one, rejects it.
   */
  lemma FittingGraphIsRejectedIff(w: Encoder, generation: nat, index: GraphBuildIndex, rootHash: string, files: seq<IndexedFile>,
                                  orders: Orders, value: nat, overflow: bool, limit: nat)
    requires SoundEncoder(w) && DistinctPaths(files) && IndexOf(index, files) && limit <= MAX_SAFE_INTEGER
    requires Bounded(value, overflow, index.metricOverflow, TrueBound(rootHash, files))
    requires GraphBytes(w, generation, BuildTlGraph(rootHash, files, orders)) <= limit
    ensures ExceedsCap(value, overflow, Bytes(limit)) <==> UnreferencedOverflow(files)
    ensures EstimateGraphMinBytes(BuildTlGraph(rootHash, files, orders)) <= limit
  {
    EstimateIsLowerBound(w, generation, BuildTlGraph(rootHash, files, orders));
    BoundIsEstimateWithoutImports(rootHash, files, orders);
    PrecheckRejectsExactly(index, files, rootHash, value, overflow, limit);
  }

  // ----- what the graph reads of a manifest

  /** The two lists agree on everything the graph reads: paths, symbols and references. */
  ghost predicate SameForGraph(files: seq<IndexedFile>, files': seq<IndexedFile>) {
    && |files| == |files'|
    && forall i :: 0 <= i < |files| ==>
         && files[i].path == files'[i].path
         && files[i].symbols == files'[i].symbols
         && files[i].outgoingSymbolRefs == files'[i].outgoingSymbolRefs
  }

  lemma {:induction false} SameDefinitions(files: seq<IndexedFile>, files': seq<IndexedFile>)
    requires SameForGraph(files, files')
    ensures Definitions(files) == Definitions(files')
  {
    if files != [] {
      SameDefinitions(files[..|files| - 1], files'[..|files'| - 1]);
    }
  }

  lemma {:induction false} SameReferencesIn(defs: seq<Definition>, f: IndexedFile, f': IndexedFile, keys: seq<RefCount>)
    requires f.path == f'.path && f.symbols == f'.symbols
    ensures ReferencesIn(defs, f, keys) == ReferencesIn(defs, f', keys)
  {
    if keys != [] {
      SameReferencesIn(defs, f, f', keys[..|keys| - 1]);
    }
  }

  lemma {:induction false} SameReferences(defs: seq<Definition>, files: seq<IndexedFile>, files': seq<IndexedFile>)
    requires SameForGraph(files, files')
    ensures References(defs, files) == References(defs, files')
  {
    if files != [] {
      var n := |files| - 1;
      SameReferences(defs, files[..n], files'[..n]);
      SameReferencesIn(defs, files[n], files'[n], files[n].outgoingSymbolRefs);
    }
  }

  lemma {:induction false} SameFileEntries(defs: seq<Definition>, files: seq<IndexedFile>, files': seq<IndexedFile>,
                                           order: (string, string) -> bool)
    requires SameForGraph(files, files')
    ensures FileEntries(defs, files, order) == FileEntries(defs, files', order)
  {
    if files != [] {
      var n := |files| - 1;
      SameFileEntries(defs, files[..n], files'[..n], order);
      SameReferencesIn(defs, files[n], files'[n], files[n].outgoingSymbolRefs);
    }
  }

  lemma SameGraph(rootHash: string, files: seq<IndexedFile>, files': seq<IndexedFile>, orders: Orders)
    requires SameForGraph(files, files')
    ensures BuildTlGraph(rootHash, files, orders) == BuildTlGraph(rootHash, files', orders)
  {
    SameDefinitions(files, files');
    SameReferences(Definitions(files), files, files');
    SameFileEntries(Definitions(files), files, files', orders.strings);
  }
}
