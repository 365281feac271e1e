// The names that the three files define: which of them can coincide, and what
// each one is bound to.
module Naming {
  import opened Text
  import opened Grammar
  import opened Interfaces
  import opened Emission
  import opened HeaderReading
  import opened SourceReading
  import opened Linking

  // ----- configurations whose names are usable -----

  /** Ready entries have pairwise distinct upper-cased names. */
  ghost predicate DistinctNames(es: seq<Interface>) {
    NoDuplicates(ReadyNames(es))
  }

  /** No ready entry's error macro is one that the core error header defines already. */
  ghost predicate FreeNames(es: seq<Interface>) {
    forall i :: 0 <= i < |ReadyNames(es)| ==> ReadyNames(es)[i] !in TAKEN
  }

  // ----- the three families of identifiers -----

  lemma HandleIndexerEnds(u: string)
    ensures var s := HandleIndexer(u);
            |s| > 10 && s[|s| - 1] == 'R' && s[|s| - 2] == 'E' && s[|s| - 9] == 'E' && s[0] == 'C'
    ensures HandleIndexer(u)[8..|HandleIndexer(u)| - 15] == u
  {
    assert |"_HANDLE_INDEXER"| == 15;
  }

  lemma GpioIndexerEnds(u: string)
    ensures var s := GpioIndexer(u);
            |s| > 10 && s[|s| - 1] == 'R' && s[|s| - 2] == 'E' && s[|s| - 9] == 'O' && s[0] == 'C'
    ensures GpioIndexer(u)[8..|GpioIndexer(u)| - 13] == u
  {
    assert |"_GPIO_INDEXER"| == 13;
  }

  lemma InitErrorEnds(u: string)
    ensures var s := InitError(u); |s| > 10 && s[|s| - 1] == 'R' && s[|s| - 2] == 'R' && s[0] == 'C'
    ensures InitError(u)[8..|InitError(u)| - 9] == u
  {
    assert |"_INIT_ERR"| == 9;
  }

  lemma IndexersDiffer(u: string, v: string)
    ensures HandleIndexer(u) == HandleIndexer(v) ==> u == v
    ensures GpioIndexer(u) == GpioIndexer(v) ==> u == v
    ensures InitError(u) == InitError(v) ==> u == v
    ensures HandleIndexer(u) != GpioIndexer(v) && HandleIndexer(u) != InitError(v) && GpioIndexer(u) != InitError(v)
  {
    HandleIndexerEnds(u);
    HandleIndexerEnds(v);
    GpioIndexerEnds(u);
    GpioIndexerEnds(v);
    InitErrorEnds(u);
    InitErrorEnds(v);
  }

  // ----- everything that is defined -----

  function ErrorIds(names: seq<string>): seq<string> {
    seq(|names|, i requires 0 <= i < |names| => InitError(names[i]))
  }

  lemma {:induction false} DefinedConcat(a: seq<Item>, b: seq<Item>)
    ensures Defined(a + b) == Defined(a) + Defined(b)
  {
    if a == [] {
      assert a + b == b;
    } else {
      DefinedConcat(a[1..], b);
      assert (a + b)[0] == a[0] && (a + b)[1..] == a[1..] + b;
      Associate(Defines(a[0]), Defined(a[1..]), Defined(b));
    }
  }

  lemma DefinedOne(item: Item)
    ensures Defined([item]) == Defines(item)
  {
    assert [item][1..] == [];
    assert Defined([item]) == Defines(item) + Defined([]);
  }

  lemma DefinedTwo(a: Item, b: Item)
    ensures Defined([a, b]) == Defines(a) + Defines(b)
  {
    DefinedOne(a);
    DefinedOne(b);
    DefinedConcat([a], [b]);
    assert [a] + [b] == [a, b];
  }

  lemma DefinedThree(a: Item, b: Item, c: Item)
    ensures Defined([a, b, c]) == Defines(a) + Defines(b) + Defines(c)
  {
    DefinedTwo(a, b);
    DefinedOne(c);
    DefinedConcat([a, b], [c]);
    assert [a, b] + [c] == [a, b, c];
  }

  lemma {:induction false} DefinedErrors(names: seq<string>, offset: nat)
    ensures Defined(ErrorMacros(names, offset)) == ErrorIds(names)
    decreases |names|
  {
    if names != [] {
      var rest := ErrorMacros(names[1..], offset + 1);
      DefinedErrors(names[1..], offset + 1);
      assert ErrorMacros(names, offset)[1..] == rest;
      assert ErrorIds(names) == [InitError(names[0])] + ErrorIds(names[1..]);
    }
  }

  /** The names that do not come from the configuration. */
  function FixedHead(): seq<string> {
    ["CFE_SRL_MISSION_CFG_H"]
  }

  function HandleTagged(names: seq<string>): seq<string> {
    if names != [] then HandleIds(names) + ["CFE_SRL_Handle_Indexer_t", "CFE_SRL_GNRL_DEVICE_NUM"]
    else ["CFE_SRL_GNRL_DEVICE_NUM"]
  }

  function GpioTagged(names: seq<string>): seq<string> {
    ["CFE_SRL_TOT_GPIO_NUM"] + GpioConstants(names) + ["CFE_SRL_GPIO_Indexer_t"]
  }

  function FixedTail(): seq<string> {
    ["Handles", "GPIO", "CFE_SRL_EarlyInit"]
  }

  lemma DefinedMission(es: seq<Interface>)
    ensures Defined(MissionItems(es)) == FixedHead() + HandleTagged(HandleNames(es)) + GpioTagged(GpioNames(es))
  {
    var g, m, i := Guard("CFE_SRL_MISSION_CFG_H"), Macro("CFE_SRL_MISSION_CFG_H", Empty),
                   Include("cfe_srl_interface_cfg.h");
    var handles, pins := HandleNames(es), GpioNames(es);
    var h, p := HandleItems(handles), GpioItems(GpioCount(es), pins);
    DefinedThree(g, m, i);
    DefinedHandles(handles);
    DefinedPins(GpioCount(es), pins);
    DefinedOne(EndGuard);
    DefinedFour([g, m, i], h, p, [EndGuard]);
    assert FixedHead() == Defines(g) + Defines(m) + Defines(i);
  }

  lemma DefinedFour(a: seq<Item>, b: seq<Item>, c: seq<Item>, d: seq<Item>)
    ensures Defined(a + b + c + d) == Defined(a) + Defined(b) + Defined(c) + Defined(d)
  {
    DefinedConcat(a, b);
    DefinedConcat(a + b, c);
    DefinedConcat(a + b + c, d);
  }

  lemma DefinedHandles(names: seq<string>)
    ensures Defined(HandleItems(names)) == HandleTagged(names)
  {
    if names != [] {
      var e := Enumeration(HandleIds(names), "CFE_SRL_Handle_Indexer_t");
      var m := Macro("CFE_SRL_GNRL_DEVICE_NUM", Offset(HandleIndexer(names[|names| - 1]), 1));
      DefinedTwo(e, m);
      assert [e] + [m] == [e, m];
    } else {
      DefinedOne(Macro("CFE_SRL_GNRL_DEVICE_NUM", Literal(1)));
    }
  }

  lemma DefinedPins(count: nat, names: seq<string>)
    ensures Defined(GpioItems(count, names)) == GpioTagged(names)
  {
    var m, e := Macro("CFE_SRL_TOT_GPIO_NUM", Literal(count)),
                Enumeration(GpioConstants(names), "CFE_SRL_GPIO_Indexer_t");
    DefinedTwo(m, e);
    assert [m] + [e] == [m, e];
  }

  lemma DefinedErrorHeader(es: seq<Interface>)
    ensures Defined(ErrorItems(es)) == ["CFE_SRL_ERROR_H"] + ErrorIds(ReadyNames(es))
  {
    var g, m, i := Guard("CFE_SRL_ERROR_H"), Macro("CFE_SRL_ERROR_H", Empty), Include("cfe_usr_error_macro.h");
    DefinedThree(g, m, i);
    DefinedErrors(ReadyNames(es), FIRST_OFFSET);
    DefinedOne(EndGuard);
    DefinedConcat([g, m, i], ErrorMacros(ReadyNames(es), FIRST_OFFSET));
    DefinedConcat([g, m, i] + ErrorMacros(ReadyNames(es), FIRST_OFFSET), [EndGuard]);
  }

  lemma DefinedSource(es: seq<Interface>)
    requires AllHaveKeys(es)
    ensures Defined(SourceItems(es)) == FixedTail()
  {
    var f := SourceItems(es)[|SourceItems(es)| - 1];
    DefinedThree(SourceGlobals()[0], SourceGlobals()[1], SourceGlobals()[2]);
    DefinedOne(f);
    DefinedConcat(SourceGlobals(), [f]);
  }
}
