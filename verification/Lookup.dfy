// What the names in the linked program are worth.
module Lookup {
  import opened Text
  import opened Grammar
  import opened Interfaces
  import opened Emission
  import opened HeaderReading
  import opened SourceReading
  import opened Linking
  import opened Naming
  import opened Ambiguity

  function ProgramOf(es: seq<Interface>): Program
    requires AllHaveKeys(es)
  {
    Program(MissionItems(es), ErrorItems(es), SourceItems(es))
  }

  /** Both generated headers are complete even when a missing key cuts the source short. */
  predicate HasHeaders(p: Program, es: seq<Interface>) {
    p.mission == MissionItems(es) && p.errors == ErrorItems(es)
  }

  // ----- lists -----

  lemma {:induction false} IndexOfAt(ids: seq<string>, id: string, k: nat)
    requires k < |ids| && ids[k] == id
    requires forall j :: 0 <= j < k ==> ids[j] != id
    ensures IndexOf(ids, id) == k
  {
    if k > 0 {
      assert id in ids[1..] by { assert ids[1..][k - 1] == id; }
      IndexOfAt(ids[1..], id, k - 1);
    }
  }

  lemma {:induction false} EnumConcat(a: seq<Item>, b: seq<Item>, id: string)
    ensures EnumValue(a + b, id) == if EnumValue(a, id).Some? then EnumValue(a, id) else EnumValue(b, id)
  {
    if a == [] {
      assert a + b == b;
    } else {
      EnumConcat(a[1..], b, id);
      assert (a + b)[1..] == a[1..] + b;
    }
  }

  lemma {:induction false} MacroConcat(a: seq<Item>, b: seq<Item>, id: string)
    ensures FindMacro(a + b, id) == if FindMacro(a, id).Some? then FindMacro(a, id) else FindMacro(b, id)
  {
    if a == [] {
      assert a + b == b;
    } else {
      MacroConcat(a[1..], b, id);
      assert (a + b)[1..] == a[1..] + b;
    }
  }

  lemma EnumOne(item: Item, id: string)
    ensures EnumValue([item], id) ==
            if item.Enumeration? && id in item.constants then Some(IndexOf(item.constants, id)) else None
  {
    assert [item][1..] == [] && EnumValue([item][1..], id) == None;
  }

  lemma MacroOne(item: Item, id: string)
    ensures FindMacro([item], id) == if item.Macro? && item.name == id then Some(item.replacement) else None
  {
    assert [item][1..] == [] && FindMacro([item][1..], id) == None;
  }

  // ----- enumerators -----

  function ValueIn(ids: seq<string>, id: string): Option<nat> {
    if id in ids then Some(IndexOf(ids, id)) else None
  }

  lemma EnumHandles(names: seq<string>, id: string)
    ensures EnumValue(HandleItems(names), id) == ValueIn(HandleIds(names), id)
  {
    if names != [] {
      var e := Enumeration(HandleIds(names), "CFE_SRL_Handle_Indexer_t");
      var m := Macro("CFE_SRL_GNRL_DEVICE_NUM", Offset(HandleIndexer(names[|names| - 1]), 1));
      EnumConcat([e], [m], id);
      EnumOne(e, id);
      EnumOne(m, id);
    } else {
      EnumOne(Macro("CFE_SRL_GNRL_DEVICE_NUM", Literal(1)), id);
    }
  }

  lemma EnumPins(count: nat, names: seq<string>, id: string)
    ensures EnumValue(GpioItems(count, names), id) == ValueIn(GpioConstants(names), id)
  {
    var m, e := Macro("CFE_SRL_TOT_GPIO_NUM", Literal(count)),
                Enumeration(GpioConstants(names), "CFE_SRL_GPIO_Indexer_t");
    EnumConcat([m], [e], id);
    EnumOne(m, id);
    EnumOne(e, id);
  }

  function Opening(symbol: string, path: string): seq<Item> {
    [Guard(symbol), Macro(symbol, Empty), Include(path)]
  }

  lemma OpeningLookup(symbol: string, path: string, id: string)
    ensures EnumValue(Opening(symbol, path), id) == None
    ensures FindMacro(Opening(symbol, path), id) == if id == symbol then Some(Empty) else None
  {
    var g, m, i := Guard(symbol), Macro(symbol, Empty), Include(path);
    assert Opening(symbol, path) == [g] + ([m] + [i]);
    EnumConcat([g], [m] + [i], id);
    EnumConcat([m], [i], id);
    EnumOne(g, id);
    EnumOne(m, id);
    EnumOne(i, id);
    MacroConcat([g], [m] + [i], id);
    MacroConcat([m], [i], id);
    MacroOne(g, id);
    MacroOne(m, id);
    MacroOne(i, id);
  }

  /** The enumerators of the mission header, and nothing else, have enumerator values. */
  lemma EnumMission(es: seq<Interface>, id: string)
    ensures EnumValue(MissionItems(es), id) ==
            if id in HandleIds(HandleNames(es)) then ValueIn(HandleIds(HandleNames(es)), id)
            else ValueIn(GpioConstants(GpioNames(es)), id)
  {
    var o := Opening("CFE_SRL_MISSION_CFG_H", "cfe_srl_interface_cfg.h");
    var h, p := HandleItems(HandleNames(es)), GpioItems(GpioCount(es), GpioNames(es));
    OpeningLookup("CFE_SRL_MISSION_CFG_H", "cfe_srl_interface_cfg.h", id);
    EnumHandles(HandleNames(es), id);
    EnumPins(GpioCount(es), GpioNames(es), id);
    EnumOne(EndGuard, id);
    EnumConcat(o, h, id);
    EnumConcat(o + h, p, id);
    EnumConcat(o + h + p, [EndGuard], id);
  }

  // ----- macros -----

  function DeviceNumBody(names: seq<string>): MacroBody {
    if names != [] then Offset(HandleIndexer(names[|names| - 1]), 1) else Literal(1)
  }

  lemma MacroHandles(names: seq<string>, id: string)
    ensures FindMacro(HandleItems(names), id) == if id == "CFE_SRL_GNRL_DEVICE_NUM" then Some(DeviceNumBody(names))
            else None
  {
    var m := Macro("CFE_SRL_GNRL_DEVICE_NUM", DeviceNumBody(names));
    MacroOne(m, id);
    if names != [] {
      var e := Enumeration(HandleIds(names), "CFE_SRL_Handle_Indexer_t");
      MacroConcat([e], [m], id);
      MacroOne(e, id);
    }
  }

  lemma MacroPins(count: nat, names: seq<string>, id: string)
    ensures FindMacro(GpioItems(count, names), id) == if id == "CFE_SRL_TOT_GPIO_NUM" then Some(Literal(count))
            else None
  {
    var m, e := Macro("CFE_SRL_TOT_GPIO_NUM", Literal(count)),
                Enumeration(GpioConstants(names), "CFE_SRL_GPIO_Indexer_t");
    MacroConcat([m], [e], id);
    MacroOne(m, id);
    MacroOne(e, id);
  }

  lemma MacroMission(es: seq<Interface>, id: string)
    ensures FindMacro(MissionItems(es), id) ==
            if id == "CFE_SRL_MISSION_CFG_H" then Some(Empty)
            else if id == "CFE_SRL_GNRL_DEVICE_NUM" then Some(DeviceNumBody(HandleNames(es)))
            else if id == "CFE_SRL_TOT_GPIO_NUM" then Some(Literal(GpioCount(es)))
            else None
  {
    var o := Opening("CFE_SRL_MISSION_CFG_H", "cfe_srl_interface_cfg.h");
    var h, p := HandleItems(HandleNames(es)), GpioItems(GpioCount(es), GpioNames(es));
    OpeningLookup("CFE_SRL_MISSION_CFG_H", "cfe_srl_interface_cfg.h", id);
    MacroHandles(HandleNames(es), id);
    MacroPins(GpioCount(es), GpioNames(es), id);
    MacroOne(EndGuard, id);
    MacroConcat(o, h, id);
    MacroConcat(o + h, p, id);
    MacroConcat(o + h + p, [EndGuard], id);
  }

  lemma IndexOfCons(first: string, rest: seq<string>, id: string)
    ensures id in [first] + rest <==> id == first || id in rest
    ensures id in [first] + rest ==> IndexOf([first] + rest, id) == if id == first then 0 else 1 + IndexOf(rest, id)
  {
    assert ([first] + rest)[1..] == rest;
  }

  lemma {:induction false} MacroErrors(names: seq<string>, offset: nat, id: string)
    ensures FindMacro(ErrorMacros(names, offset), id) ==
            if id in ErrorIds(names) then Some(Applied("CFE_SERIAL_ERROR", offset + IndexOf(ErrorIds(names), id)))
            else None
    decreases |names|
  {
    if names != [] {
      var ids, rest := ErrorIds(names), ErrorIds(names[1..]);
      MacroErrors(names[1..], offset + 1, id);
      assert ids == [InitError(names[0])] + rest;
      IndexOfCons(InitError(names[0]), rest, id);
      var first := Macro(InitError(names[0]), Applied("CFE_SERIAL_ERROR", offset));
      MacroOne(first, id);
      MacroConcat([first], ErrorMacros(names[1..], offset + 1), id);
    }
  }

  lemma MacroErrorHeader(es: seq<Interface>, id: string)
    ensures FindMacro(ErrorItems(es), id) ==
            if id == "CFE_SRL_ERROR_H" then Some(Empty)
            else if id in ErrorIds(ReadyNames(es)) then
              Some(Applied("CFE_SERIAL_ERROR", FIRST_OFFSET + IndexOf(ErrorIds(ReadyNames(es)), id)))
            else None
  {
    var o, ms := Opening("CFE_SRL_ERROR_H", "cfe_usr_error_macro.h"), ErrorMacros(ReadyNames(es), FIRST_OFFSET);
    OpeningLookup("CFE_SRL_ERROR_H", "cfe_usr_error_macro.h", id);
    MacroErrors(ReadyNames(es), FIRST_OFFSET, id);
    MacroOne(EndGuard, id);
    MacroConcat(o, ms, id);
    MacroConcat(o + ms, [EndGuard], id);
  }

  // ----- an entry in its configuration -----

  /** The entry e stands in es after the entries of `done`. */
  predicate Splits(es: seq<Interface>, done: seq<Interface>, e: Interface, rest: seq<Interface>) {
    es == done + [e] + rest
  }

  lemma {:induction false} HandleNamesConcat(a: seq<Interface>, b: seq<Interface>)
    ensures HandleNames(a + b) == HandleNames(a) + HandleNames(b)
  {
    if a == [] {
      assert a + b == b;
    } else {
      HandleNamesConcat(a[1..], b);
      assert (a + b)[0] == a[0] && (a + b)[1..] == a[1..] + b;
      Associate([Upper(a[0].name)], HandleNames(a[1..]), HandleNames(b));
    }
  }

  lemma {:induction false} GpioNamesConcat(a: seq<Interface>, b: seq<Interface>)
    ensures GpioNames(a + b) == GpioNames(a) + GpioNames(b)
  {
    if a == [] {
      assert a + b == b;
    } else {
      GpioNamesConcat(a[1..], b);
      assert (a + b)[0] == a[0] && (a + b)[1..] == a[1..] + b;
      Associate([Upper(a[0].name)], GpioNames(a[1..]), GpioNames(b));
    }
  }

  lemma {:induction false} ReadyNamesConcat(a: seq<Interface>, b: seq<Interface>)
    ensures ReadyNames(a + b) == ReadyNames(a) + ReadyNames(b)
  {
    if a == [] {
      assert a + b == b;
    } else {
      ReadyNamesConcat(a[1..], b);
      assert (a + b)[0] == a[0] && (a + b)[1..] == a[1..] + b;
      Associate([Upper(a[0].name)], ReadyNames(a[1..]), ReadyNames(b));
    }
  }

  lemma NamesConcat(a: seq<Interface>, b: seq<Interface>)
    ensures HandleNames(a + b) == HandleNames(a) + HandleNames(b)
    ensures GpioNames(a + b) == GpioNames(a) + GpioNames(b)
    ensures ReadyNames(a + b) == ReadyNames(a) + ReadyNames(b)
  {
    HandleNamesConcat(a, b);
    GpioNamesConcat(a, b);
    ReadyNamesConcat(a, b);
  }

  lemma {:induction false} NameCounts(es: seq<Interface>)
    ensures |HandleNames(es)| == GeneralCount(es)
    ensures |GpioNames(es)| == GpioCount(es)
    ensures |ReadyNames(es)| == |Ready(es)|
  {
    if es != [] {
      NameCounts(es[1..]);
    }
  }

  lemma NamesOfOne(e: Interface)
    ensures HandleNames([e]) == if IsGeneral(e.kind) && e.ready then [Upper(e.name)] else []
    ensures GpioNames([e]) == if e.kind.Gpio? && e.ready then [Upper(e.name)] else []
    ensures ReadyNames([e]) == if e.ready then [Upper(e.name)] else []
  {
    assert [e][1..] == [];
    assert HandleNames([e][1..]) == [] && GpioNames([e][1..]) == [] && ReadyNames([e][1..]) == [];
  }

  /** The name lists around a ready entry, whose own name appears nowhere before or after it. */
  lemma NamesAround(es: seq<Interface>, done: seq<Interface>, e: Interface, rest: seq<Interface>)
    requires Splits(es, done, e, rest) && e.ready && DistinctNames(es)
    ensures ReadyNames(es) == ReadyNames(done) + [Upper(e.name)] + ReadyNames(rest)
    ensures HandleNames(es) == HandleNames(done) + HandleNames([e]) + HandleNames(rest)
    ensures GpioNames(es) == GpioNames(done) + GpioNames([e]) + GpioNames(rest)
    ensures Upper(e.name) !in ReadyNames(done) && Upper(e.name) !in ReadyNames(rest)
  {
    NamesConcat(done, [e]);
    NamesConcat(done + [e], rest);
    NamesOfOne(e);
    NoDuplicatesConcat(ReadyNames(done) + [Upper(e.name)], ReadyNames(rest));
    NoDuplicatesConcat(ReadyNames(done), [Upper(e.name)]);
    var one := ReadyNames(done) + [Upper(e.name)];
    assert one[|one| - 1] == Upper(e.name);
    assert [Upper(e.name)][0] == Upper(e.name);
  }

  lemma NoDeviceType(id: string)
    requires id != "" && id[0] == 'C' && id != "CFE_SUCCESS"
    ensures DeviceTypeValue(id) == None
  {
  }

  lemma IndexerIsNoBuiltin(u: string)
    ensures HandleIndexer(u) != "CFE_SUCCESS" && GpioIndexer(u) != "CFE_SUCCESS" && InitError(u) != "CFE_SUCCESS"
    ensures DeviceTypeValue(HandleIndexer(u)) == None && DeviceTypeValue(GpioIndexer(u)) == None &&
            DeviceTypeValue(InitError(u)) == None
  {
    HandleIndexerEnds(u);
    GpioIndexerEnds(u);
    InitErrorEnds(u);
    assert "CFE_SUCCESS"[|"CFE_SUCCESS"| - 1] == 'S';
  }

  /** In a list of identifiers made from distinct names, each stands at its name's position. */
  lemma HandleAt(names: seq<string>, before: seq<string>, u: string, after: seq<string>)
    requires names == before + [u] + after && u !in before
    ensures ValueIn(HandleIds(names), HandleIndexer(u)) == Some(|before|)
  {
    forall j | 0 <= j < |before|
      ensures HandleIds(names)[j] != HandleIndexer(u)
    {
      IndexersDiffer(names[j], u);
      assert names[j] in before;
    }
    assert HandleIds(names)[|before|] == HandleIndexer(u);
    IndexOfAt(HandleIds(names), HandleIndexer(u), |before|);
  }

  lemma PinAt(names: seq<string>, before: seq<string>, u: string, after: seq<string>)
    requires names == before + [u] + after && u !in before
    ensures ValueIn(GpioIds(names), GpioIndexer(u)) == Some(|before|)
  {
    forall j | 0 <= j < |before|
      ensures GpioIds(names)[j] != GpioIndexer(u)
    {
      IndexersDiffer(names[j], u);
      assert names[j] in before;
    }
    assert GpioIds(names)[|before|] == GpioIndexer(u);
    IndexOfAt(GpioIds(names), GpioIndexer(u), |before|);
  }

  lemma ErrorAt(names: seq<string>, before: seq<string>, u: string, after: seq<string>)
    requires names == before + [u] + after && u !in before
    ensures InitError(u) in ErrorIds(names) && IndexOf(ErrorIds(names), InitError(u)) == |before|
  {
    forall j | 0 <= j < |before|
      ensures ErrorIds(names)[j] != InitError(u)
    {
      IndexersDiffer(names[j], u);
      assert names[j] in before;
    }
    assert ErrorIds(names)[|before|] == InitError(u);
    IndexOfAt(ErrorIds(names), InitError(u), |before|);
  }

  // ----- the values that the function uses -----

  /** A ready general entry's index is the number of ready general entries before it. */
  lemma HandleValue(p: Program, es: seq<Interface>, done: seq<Interface>, e: Interface, rest: seq<Interface>)
    requires HasHeaders(p, es) && DistinctNames(es)
    requires Splits(es, done, e, rest) && e.ready && IsGeneral(e.kind)
    ensures ConstValue(p, HandleIndexer(Upper(e.name))) == Some(GeneralCount(done))
  {
    var u := Upper(e.name);
    NamesAround(es, done, e, rest);
    NamesOfOne(e);
    NameCounts(done);
    NamesComeFromReady(done);
    assert u !in HandleNames(done);
    HandleAt(HandleNames(es), HandleNames(done), u, HandleNames(rest));
    EnumMission(es, HandleIndexer(u));
    IndexerIsNoBuiltin(u);
  }

  lemma NothingIsNoIndexer(u: string)
    ensures GpioIndexer(u) != "NOTHING" && HandleIndexer(u) != "NOTHING" && InitError(u) != "NOTHING"
  {
    HandleIndexerEnds(u);
    GpioIndexerEnds(u);
    InitErrorEnds(u);
  }

  /** A ready GPIO entry's index is the number of ready GPIO entries before it. */
  lemma PinValue(p: Program, es: seq<Interface>, done: seq<Interface>, e: Interface, rest: seq<Interface>)
    requires HasHeaders(p, es) && DistinctNames(es)
    requires Splits(es, done, e, rest) && e.ready && e.kind.Gpio?
    ensures ConstValue(p, GpioIndexer(Upper(e.name))) == Some(GpioCount(done))
  {
    var u := Upper(e.name);
    NamesAround(es, done, e, rest);
    NamesOfOne(e);
    NameCounts(done);
    NamesComeFromReady(done);
    assert u !in GpioNames(done);
    PinAt(GpioNames(es), GpioNames(done), u, GpioNames(rest));
    assert GpioNames(es) != [];
    forall i | 0 <= i < |HandleNames(es)|
      ensures HandleIds(HandleNames(es))[i] != GpioIndexer(u)
    {
      IndexersDiffer(HandleNames(es)[i], u);
    }
    EnumMission(es, GpioIndexer(u));
    IndexerIsNoBuiltin(u);
  }

  lemma ErrorIsNoEnumerator(es: seq<Interface>, u: string)
    ensures EnumValue(MissionItems(es), InitError(u)) == None
    ensures FindMacro(MissionItems(es), InitError(u)) == None
  {
    EnumMission(es, InitError(u));
    MacroMission(es, InitError(u));
    forall i | 0 <= i < |HandleNames(es)|
      ensures HandleIds(HandleNames(es))[i] != InitError(u)
    {
      IndexersDiffer(HandleNames(es)[i], u);
    }
    forall i | 0 <= i < |GpioNames(es)|
      ensures GpioIds(GpioNames(es))[i] != InitError(u)
    {
      IndexersDiffer(GpioNames(es)[i], u);
    }
    NothingIsNoIndexer(u);
    InitErrorEnds(u);
    assert "CFE_SRL_MISSION_CFG_H"[20] == 'H' && "CFE_SRL_GNRL_DEVICE_NUM"[22] == 'M' &&
           "CFE_SRL_TOT_GPIO_NUM"[19] == 'M';
  }

  /** A ready entry's error code is that of its position among all ready entries. */
  lemma ErrorValue(p: Program, es: seq<Interface>, done: seq<Interface>, e: Interface, rest: seq<Interface>)
    requires HasHeaders(p, es) && DistinctNames(es)
    requires Splits(es, done, e, rest) && e.ready
    ensures ConstValue(p, InitError(Upper(e.name))) == Some(SerialError(FIRST_OFFSET + |Ready(done)|))
  {
    var u := Upper(e.name);
    NamesAround(es, done, e, rest);
    NameCounts(done);
    ErrorAt(ReadyNames(es), ReadyNames(done), u, ReadyNames(rest));
    IndexerIsNoBuiltin(u);
    ErrorIsNoEnumerator(es, u);
    ErrorMacro(es, u);
    MacroConst(p, InitError(u), Applied("CFE_SERIAL_ERROR", FIRST_OFFSET + |ReadyNames(done)|));
  }

  /** The macro behind an error name that the error header defines. */
  lemma ErrorMacro(es: seq<Interface>, u: string)
    requires InitError(u) in ErrorIds(ReadyNames(es))
    ensures FindMacro(MissionItems(es) + ErrorItems(es), InitError(u)) ==
            Some(Applied("CFE_SERIAL_ERROR", FIRST_OFFSET + IndexOf(ErrorIds(ReadyNames(es)), InitError(u))))
  {
    ErrorIsNoEnumerator(es, u);
    MacroErrorHeader(es, InitError(u));
    MacroConcat(MissionItems(es), ErrorItems(es), InitError(u));
    InitErrorEnds(u);
    assert "CFE_SRL_ERROR_H"[14] == 'H';
  }

  lemma MacroConst(p: Program, id: string, body: MacroBody)
    requires id != "CFE_SUCCESS" && DeviceTypeValue(id) == None && EnumValue(p.mission, id) == None
    requires FindMacro(p.mission + p.errors, id) == Some(body)
    ensures ConstValue(p, id) == MacroValue(p, body)
  {
  }

  // ----- names that have no value -----

  /** A name that is no enumerator and no macro. */
  lemma NoValue(p: Program, es: seq<Interface>, id: string)
    requires HasHeaders(p, es)
    requires id != "CFE_SUCCESS" && DeviceTypeValue(id) == None
    requires id !in HandleIds(HandleNames(es)) && id !in GpioConstants(GpioNames(es)) && id !in ErrorIds(ReadyNames(es))
    requires id != "CFE_SRL_MISSION_CFG_H" && id != "CFE_SRL_GNRL_DEVICE_NUM" && id != "CFE_SRL_TOT_GPIO_NUM" &&
             id != "CFE_SRL_ERROR_H"
    ensures ConstValue(p, id) == None
  {
    EnumMission(es, id);
    MacroMission(es, id);
    MacroErrorHeader(es, id);
    MacroConcat(MissionItems(es), ErrorItems(es), id);
  }

  /** The slot name of an entry of unknown type is not defined. */
  lemma UnknownHasNoSlot(p: Program, es: seq<Interface>, done: seq<Interface>, e: Interface, rest: seq<Interface>)
    requires HasHeaders(p, es) && DistinctNames(es)
    requires Splits(es, done, e, rest) && e.ready && e.kind.Other?
    ensures ConstValue(p, HandleIndexer(Upper(e.name))) == None
  {
    var u := Upper(e.name);
    NamesAround(es, done, e, rest);
    NamesOfOne(e);
    NamesComeFromReady(done);
    NamesComeFromReady(rest);
    assert HandleNames(es) == HandleNames(done) + HandleNames(rest);
    forall i | 0 <= i < |HandleNames(es)|
      ensures HandleIds(HandleNames(es))[i] != HandleIndexer(u)
    {
      var v := HandleNames(es)[i];
      assert v in HandleNames(done) || v in HandleNames(rest);
      assert v != u;
      IndexersDiffer(v, u);
    }
    SlotIsNothingElse(es, u);
    NoValue(p, es, HandleIndexer(u));
  }

  lemma SlotIsNothingElse(es: seq<Interface>, u: string)
    ensures HandleIndexer(u) !in GpioConstants(GpioNames(es)) && HandleIndexer(u) !in ErrorIds(ReadyNames(es))
    ensures var id := HandleIndexer(u);
            && id != "CFE_SRL_MISSION_CFG_H" && id != "CFE_SRL_GNRL_DEVICE_NUM" && id != "CFE_SRL_TOT_GPIO_NUM" &&
              id != "CFE_SRL_ERROR_H"
            && id != "CFE_SUCCESS" && DeviceTypeValue(id) == None
  {
    forall i | 0 <= i < |GpioNames(es)|
      ensures GpioIds(GpioNames(es))[i] != HandleIndexer(u)
    {
      IndexersDiffer(u, GpioNames(es)[i]);
    }
    forall i | 0 <= i < |ReadyNames(es)|
      ensures ErrorIds(ReadyNames(es))[i] != HandleIndexer(u)
    {
      IndexersDiffer(u, ReadyNames(es)[i]);
    }
    NothingIsNoIndexer(u);
    IndexerIsNoBuiltin(u);
    HandleIndexerEnds(u);
    assert "CFE_SRL_MISSION_CFG_H"[20] == 'H' && "CFE_SRL_GNRL_DEVICE_NUM"[22] == 'M' &&
           "CFE_SRL_TOT_GPIO_NUM"[19] == 'M';
    assert "CFE_SRL_ERROR_H"[14] == 'H';
  }

  /** Neither of the two undeclared device types is defined by the generated headers. */
  lemma DeviceTypeNeverGenerated(p: Program, es: seq<Interface>, id: string)
    requires HasHeaders(p, es)
    requires id != "" && id[0] == 'S' && DeviceTypeValue(id) == None
    ensures ConstValue(p, id) == None
  {
    forall i | 0 <= i < |HandleNames(es)|
      ensures HandleIds(HandleNames(es))[i] != id
    {
      HandleIndexerEnds(HandleNames(es)[i]);
    }
    forall i | 0 <= i < |GpioNames(es)|
      ensures GpioIds(GpioNames(es))[i] != id
    {
      GpioIndexerEnds(GpioNames(es)[i]);
    }
    forall i | 0 <= i < |ReadyNames(es)|
      ensures ErrorIds(ReadyNames(es))[i] != id
    {
      InitErrorEnds(ReadyNames(es)[i]);
    }
    NoValue(p, es, id);
  }

  // ----- sizes -----

  /** The number of handle slots: one per ready general entry, but at least one. */
  lemma DeviceNumValue(p: Program, es: seq<Interface>)
    requires HasHeaders(p, es) && DistinctNames(es)
    ensures ConstValue(p, "CFE_SRL_GNRL_DEVICE_NUM") == Some(if GeneralCount(es) == 0 then 1 else GeneralCount(es))
  {
    var names := HandleNames(es);
    DeviceNumMacro(p, es);
    NameCounts(es);
    if names != [] { LastHandleValue(es); }
  }

  lemma DeviceNumMacro(p: Program, es: seq<Interface>)
    requires HasHeaders(p, es)
    ensures ConstValue(p, "CFE_SRL_GNRL_DEVICE_NUM") == MacroValue(p, DeviceNumBody(HandleNames(es)))
  {
    var id := "CFE_SRL_GNRL_DEVICE_NUM";
    SizeIsNoEnumerator(es, id);
    MacroMission(es, id);
    MacroConcat(MissionItems(es), ErrorItems(es), id);
    MacroConst(p, id, DeviceNumBody(HandleNames(es)));
  }

  lemma LastHandleValue(es: seq<Interface>)
    requires DistinctNames(es) && HandleNames(es) != []
    ensures var names := HandleNames(es);
            EnumValue(MissionItems(es), HandleIndexer(names[|names| - 1])) == Some(|names| - 1)
  {
    var names := HandleNames(es);
    var last := names[|names| - 1];
    DistinctWithinKinds(es);
    assert names == names[..|names| - 1] + [last] + [];
    HandleAt(names, names[..|names| - 1], last, []);
    EnumMission(es, HandleIndexer(last));
  }

  lemma SizeIsNoEnumerator(es: seq<Interface>, id: string)
    requires |id| > 11 && id[|id| - 1] == 'M' && id[0] == 'C'
    ensures EnumValue(MissionItems(es), id) == None && DeviceTypeValue(id) == None && id != "CFE_SUCCESS"
  {
    SizeIsNoHandle(HandleNames(es), id);
    SizeIsNoPin(GpioNames(es), id);
    EnumMission(es, id);
    NoDeviceType(id);
  }

  lemma SizeIsNoHandle(names: seq<string>, id: string)
    requires |id| > 11 && id[|id| - 1] == 'M'
    ensures id !in HandleIds(names)
  {
    forall i | 0 <= i < |names|
      ensures HandleIds(names)[i] != id
    {
      HandleIndexerEnds(names[i]);
    }
  }

  lemma SizeIsNoPin(names: seq<string>, id: string)
    requires |id| > 11 && id[|id| - 1] == 'M'
    ensures id !in GpioConstants(names)
  {
    forall i | 0 <= i < |names|
      ensures GpioIds(names)[i] != id
    {
      GpioIndexerEnds(names[i]);
    }
    assert |"NOTHING"| == 7;
  }

  /** The number of GPIO slots is the number of ready GPIO entries. */
  lemma GpioNumValue(p: Program, es: seq<Interface>)
    requires HasHeaders(p, es)
    ensures ConstValue(p, "CFE_SRL_TOT_GPIO_NUM") == Some(GpioCount(es))
  {
    var id := "CFE_SRL_TOT_GPIO_NUM";
    SizeIsNoEnumerator(es, id);
    MacroMission(es, id);
    MacroConcat(MissionItems(es), ErrorItems(es), id);
  }

  lemma Arrays(es: seq<Interface>)
    requires AllHaveKeys(es)
    ensures FindArray(SourceItems(es), "Handles") == Some("CFE_SRL_GNRL_DEVICE_NUM")
    ensures FindArray(SourceItems(es), "GPIO") == Some("CFE_SRL_TOT_GPIO_NUM")
  {
    var items := SourceItems(es);
    assert items[0].Include? && items[1] == SourceGlobals()[1] && items[2] == SourceGlobals()[2];
    var rest := items[1..];
    assert rest[0] == items[1] && rest[1..] == items[2..] && items[2..][0] == items[2];
    assert "Handles" != "GPIO" by { assert |"Handles"| == 7 && |"GPIO"| == 4; }
    assert FindArray(rest, "GPIO") == FindArray(rest[1..], "GPIO");
  }

  // ----- index types -----

  /** The GPIO index type is always declared, the handle index type only if some general entry is ready. */
  lemma IndexTypes(es: seq<Interface>)
    ensures DeclaresType(MissionItems(es), "CFE_SRL_Handle_Indexer_t") <==> GeneralCount(es) > 0
    ensures DeclaresType(MissionItems(es), "CFE_SRL_GPIO_Indexer_t")
  {
    NameCounts(es);
    var o, h, g := Opening("CFE_SRL_MISSION_CFG_H", "cfe_srl_interface_cfg.h"), HandleItems(HandleNames(es)),
                   GpioItems(GpioCount(es), GpioNames(es));
    HandleTypes(HandleNames(es));
    GpioTypes(GpioCount(es), GpioNames(es));
    assert MissionItems(es) == o + h + g + [EndGuard];
    forall tag: string
      ensures DeclaresType(o + h + g + [EndGuard], tag) <==> DeclaresType(h, tag) || DeclaresType(g, tag)
    {
      TypesConcat(o, h, tag);
      TypesConcat(o + h, g, tag);
      TypesConcat(o + h + g, [EndGuard], tag);
    }
  }

  lemma TypesConcat(a: seq<Item>, b: seq<Item>, tag: string)
    ensures DeclaresType(a + b, tag) <==> DeclaresType(a, tag) || DeclaresType(b, tag)
  {
    if DeclaresType(a, tag) {
      var i :| 0 <= i < |a| && a[i].Enumeration? && a[i].tag == tag;
      assert (a + b)[i] == a[i];
    }
    if DeclaresType(b, tag) {
      var i :| 0 <= i < |b| && b[i].Enumeration? && b[i].tag == tag;
      assert (a + b)[|a| + i] == b[i];
    }
  }

  lemma HandleTypes(names: seq<string>)
    ensures DeclaresType(HandleItems(names), "CFE_SRL_Handle_Indexer_t") <==> names != []
    ensures !DeclaresType(HandleItems(names), "CFE_SRL_GPIO_Indexer_t")
  {
    assert "CFE_SRL_Handle_Indexer_t"[8] == 'H' && "CFE_SRL_GPIO_Indexer_t"[8] == 'G';
    if names != [] { assert HandleItems(names)[0] == Enumeration(HandleIds(names), "CFE_SRL_Handle_Indexer_t"); }
  }

  lemma GpioTypes(count: nat, names: seq<string>)
    ensures DeclaresType(GpioItems(count, names), "CFE_SRL_GPIO_Indexer_t")
    ensures !DeclaresType(GpioItems(count, names), "CFE_SRL_Handle_Indexer_t")
  {
    assert "CFE_SRL_Handle_Indexer_t"[8] == 'H' && "CFE_SRL_GPIO_Indexer_t"[8] == 'G';
    assert GpioItems(count, names)[1] == Enumeration(GpioConstants(names), "CFE_SRL_GPIO_Indexer_t");
  }
}
