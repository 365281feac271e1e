// How the constants of the two generated headers depend on the configuration: the
// three counters agree, appending keeps every number, and making an entry not
// ready shifts exactly the numbers after it.
module Numbering {
  import opened Text
  import opened Grammar
  import opened Interfaces
  import opened Emission
  import opened Reading
  import opened HeaderReading
  import opened Linking
  import opened Naming
  import opened Ambiguity
  import opened Lookup
  import opened Booting
  import opened Preservation

  /** What the texts of the two headers declare. */
  function Headers(es: seq<Interface>): Option<Program> {
    var mission, errors := Parse(MissionText(es)), Parse(ErrorText(es));
    if mission.None? || errors.None? then None else Some(Program(mission.value, errors.value, []))
  }

  /** The value of a name in the two headers. */
  function Constant(es: seq<Interface>, id: string): Option<int> {
    if Headers(es).None? then None else ConstValue(Headers(es).value, id)
  }

  /** The headers can be read and their names told apart; keys and device types do not matter to them. */
  ghost predicate Numberable(es: seq<Interface>) {
    PlainNames(es) && DistinctNames(es)
  }

  lemma HeadersParse(es: seq<Interface>)
    requires PlainNames(es)
    ensures Headers(es).Some? && HasHeaders(Headers(es).value, es)
  {
    MissionHeaderRoundTrip(es);
    ErrorHeaderRoundTrip(es);
  }

  /** The constant that indexes an entry in the table of its kind. */
  function Indexer(e: Interface): string {
    if e.kind.Gpio? then GpioIndexer(Upper(e.name)) else HandleIndexer(Upper(e.name))
  }

  function ErrorName(e: Interface): string {
    InitError(Upper(e.name))
  }

  /** The number of earlier ready entries of the same kind of table. */
  function KindCount(es: seq<Interface>, kind: Kind): nat {
    if kind.Gpio? then GpioCount(es) else GeneralCount(es)
  }

  /** An entry's index: its place in its own table, and none for an unknown type. */
  lemma IndexOfEntry(es: seq<Interface>, done: seq<Interface>, e: Interface, rest: seq<Interface>)
    requires Numberable(es) && Splits(es, done, e, rest) && e.ready
    ensures Constant(es, Indexer(e)) == if IsKnown(e.kind) then Some(KindCount(done, e.kind)) else None
  {
    HeadersParse(es);
    var p := Headers(es).value;
    if e.kind.Gpio? {
      PinValue(p, es, done, e, rest);
    } else if IsKnown(e.kind) {
      HandleValue(p, es, done, e, rest);
    } else {
      UnknownHasNoSlot(p, es, done, e, rest);
    }
  }

  /** An entry's error code: its place among all ready entries, of whatever type. */
  lemma CodeOfEntry(es: seq<Interface>, done: seq<Interface>, e: Interface, rest: seq<Interface>)
    requires Numberable(es) && Splits(es, done, e, rest) && e.ready
    ensures Constant(es, ErrorName(e)) == Some(SerialError(90 + |Ready(done)|))
  {
    HeadersParse(es);
    ErrorValue(Headers(es).value, es, done, e, rest);
  }

  /** In the two headers an entry has this index, if its type is known, and the error code of this position. */
  predicate Numbered(es: seq<Interface>, e: Interface, index: nat, position: nat) {
    && Constant(es, Indexer(e)) == (if IsKnown(e.kind) then Some(index) else None)
    && Constant(es, ErrorName(e)) == Some(SerialError(90 + position))
  }

  lemma NumbersOfEntry(es: seq<Interface>, done: seq<Interface>, e: Interface, rest: seq<Interface>, index: nat,
                       position: nat)
    requires Numberable(es) && Splits(es, done, e, rest) && e.ready
    requires index == KindCount(done, e.kind) && position == |Ready(done)|
    ensures Numbered(es, e, index, position)
  {
    IndexOfEntry(es, done, e, rest);
    CodeOfEntry(es, done, e, rest);
  }

  /**
   * Three-counter identity. An entry's index counts the earlier ready entries of its own
   * table, and its error code the earlier ready entries of both, although the three
   * numbers come from separate passes over the configuration.
   */
  lemma ThreeCounters(es: seq<Interface>, done: seq<Interface>, e: Interface, rest: seq<Interface>)
    requires Numberable(es) && Splits(es, done, e, rest) && e.ready && IsKnown(e.kind)
    requires forall i :: 0 <= i < |done| && done[i].ready ==> IsKnown(done[i].kind)
    ensures Constant(es, Indexer(e)) == Some(KindCount(done, e.kind))
    ensures Constant(es, ErrorName(e)) == Some(SerialError(90 + GeneralCount(done) + GpioCount(done)))
  {
    CountsPartition(done);
    NumbersOfEntry(es, done, e, rest, KindCount(done, e.kind), |Ready(done)|);
  }

  lemma TableSizes(es: seq<Interface>)
    requires Numberable(es)
    ensures Constant(es, "CFE_SRL_GNRL_DEVICE_NUM") == Some(if GeneralCount(es) == 0 then 1 else GeneralCount(es))
    ensures Constant(es, "CFE_SRL_TOT_GPIO_NUM") == Some(GpioCount(es))
  {
    HeadersParse(es);
    DeviceNumValue(Headers(es).value, es);
    GpioNumValue(Headers(es).value, es);
  }

  /** The handle index type, which other serial headers use, is declared exactly if some general entry is ready. */
  lemma HandleTypeDeclaredIff(es: seq<Interface>)
    requires PlainNames(es)
    ensures var items := Parse(MissionText(es));
            items.Some? && (DeclaresType(items.value, "CFE_SRL_Handle_Indexer_t") <==> GeneralCount(es) > 0)
  {
    MissionHeaderRoundTrip(es);
    IndexTypes(es);
  }

  // ----- the reserved error codes -----

  /** The core error header sets codes 90 to 109 aside for early initialisation. */
  predicate InReservedBand(item: Item) {
    item.Macro? && item.replacement.Applied? ==>
      item.replacement.macro == "CFE_SERIAL_ERROR" && 90 <= item.replacement.value <= 109
  }

  /** Every code of the error header's text stays in that band exactly when at most 20 entries are ready. */
  lemma ReservedBandIff(es: seq<Interface>)
    requires PlainNames(es)
    ensures var items := Parse(ErrorText(es));
            items.Some? && (AllInBand(items.value) <==> |Ready(es)| <= 20)
  {
    ErrorHeaderRoundTrip(es);
    BandOfItems(es);
  }

  lemma BandOfItems(es: seq<Interface>)
    ensures AllInBand(ErrorItems(es)) <==> |Ready(es)| <= 20
  {
    var codes := ErrorMacros(ReadyNames(es), FIRST_OFFSET);
    NameCounts(es);
    BandOfCodes(ReadyNames(es));
    assert ErrorItems(es)[0].Guard? && ErrorItems(es)[2].Include?;
    BandAround(ErrorItems(es)[..3], codes, [EndGuard]);
    assert ErrorItems(es) == ErrorItems(es)[..3] + codes + [EndGuard];
  }

  ghost predicate AllInBand(items: seq<Item>) {
    forall i :: 0 <= i < |items| ==> InReservedBand(items[i])
  }

  lemma BandAround(a: seq<Item>, b: seq<Item>, c: seq<Item>)
    requires AllInBand(a) && AllInBand(c)
    ensures AllInBand(a + b + c) <==> AllInBand(b)
  {
    assert forall i :: 0 <= i < |b| ==> (a + b + c)[|a| + i] == b[i];
  }

  lemma BandOfCodes(names: seq<string>)
    ensures AllInBand(ErrorMacros(names, FIRST_OFFSET)) <==> |names| <= 20
  {
    ErrorMacroAt(names, FIRST_OFFSET);
    BandOfOffsets(ErrorMacros(names, FIRST_OFFSET));
  }

  lemma BandOfOffsets(codes: seq<Item>)
    requires forall k :: 0 <= k < |codes| ==>
               codes[k].Macro? && codes[k].replacement == Applied("CFE_SERIAL_ERROR", 90 + k)
    ensures AllInBand(codes) <==> |codes| <= 20
  {
    if |codes| > 20 { assert !InReservedBand(codes[20]); }
  }

  lemma {:induction false} ErrorMacroAt(names: seq<string>, offset: nat)
    ensures |ErrorMacros(names, offset)| == |names|
    ensures forall k :: 0 <= k < |names| ==>
              ErrorMacros(names, offset)[k] == Macro(InitError(names[k]), Applied("CFE_SERIAL_ERROR", offset + k))
    decreases |names|
  {
    if names != [] {
      ErrorMacroAt(names[1..], offset + 1);
      var ms, rest := ErrorMacros(names, offset), ErrorMacros(names[1..], offset + 1);
      forall k | 0 <= k < |names|
        ensures ms[k] == Macro(InitError(names[k]), Applied("CFE_SERIAL_ERROR", offset + k))
      {
        if k > 0 { assert ms[k] == rest[k - 1]; }
      }
    }
  }

  // ----- appending entries -----

  lemma KeepsNumberable(a: seq<Interface>, b: seq<Interface>)
    requires Numberable(a + b)
    ensures Numberable(a)
  {
    NamesConcat(a, b);
    NoDuplicatesConcat(ReadyNames(a), ReadyNames(b));
    assert forall i :: 0 <= i < |a| ==> a[i] == (a + b)[i];
  }

  /** A prefix of a buildable configuration is buildable. */
  lemma KeepsBuildable(a: seq<Interface>, b: seq<Interface>)
    requires Buildable(a + b)
    ensures Buildable(a)
  {
    NamesConcat(a, b);
    NoDuplicatesConcat(ReadyNames(a), ReadyNames(b));
    var names := ReadyNames(a + b);
    forall i | 0 <= i < |ReadyNames(a)|
      ensures ReadyNames(a)[i] !in TAKEN
    {
      assert names[i] == ReadyNames(a)[i];
    }
    forall i | 0 <= i < |a| && a[i].ready
      ensures HasKeys(a[i]) && Supported(a[i].kind)
    {
      assert (a + b)[i] == a[i];
    }
  }

  /** Appending entries changes no existing index and no existing error code. */
  lemma AppendingKeepsNumbers(a: seq<Interface>, b: seq<Interface>, done: seq<Interface>, e: Interface,
                              rest: seq<Interface>)
    returns (index: nat, position: nat)
    requires Numberable(a + b) && Splits(a, done, e, rest) && e.ready
    ensures Numbered(a, e, index, position) && Numbered(a + b, e, index, position)
  {
    index, position := KindCount(done, e.kind), |Ready(done)|;
    KeepsNumberable(a, b);
    assert Splits(a + b, done, e, rest + b);
    NumbersOfEntry(a, done, e, rest, index, position);
    NumbersOfEntry(a + b, done, e, rest + b, index, position);
  }

  // ----- making an entry not ready -----

  function Retired(e: Interface): Interface {
    e.(ready := false)
  }

  lemma RetiredNames(done: seq<Interface>, e: Interface, rest: seq<Interface>)
    ensures ReadyNames(done + [Retired(e)] + rest) == ReadyNames(done) + ReadyNames(rest) == ReadyNames(done + rest)
  {
    NamesConcat(done, [Retired(e)]);
    NamesConcat(done + [Retired(e)], rest);
    NamesConcat(done, rest);
    NamesOfOne(Retired(e));
  }

  /** Whatever is wrong with an entry, making it not ready is as good as deleting it. */
  lemma RetiringMendsIff(done: seq<Interface>, e: Interface, rest: seq<Interface>)
    ensures Buildable(done + [Retired(e)] + rest) <==> Buildable(done + rest)
  {
    RetiredNames(done, e, rest);
    var es, es' := done + rest, done + [Retired(e)] + rest;
    assert forall i :: 0 <= i < |es| ==> es[i] == es'[if i < |done| then i else i + 1];
    assert forall i :: 0 <= i < |es'| && i != |done| ==> es'[i] == es[if i < |done| then i else i - 1];
    assert !es'[|done|].ready;
  }

  lemma RetiringKeepsNumberable(done: seq<Interface>, e: Interface, rest: seq<Interface>, es: seq<Interface>,
                                es': seq<Interface>)
    requires es == done + [e] + rest && es' == done + [Retired(e)] + rest
    requires Numberable(es)
    ensures Numberable(es')
  {
    NamesConcat(done, [e]);
    NamesConcat(done + [e], rest);
    RetiredNames(done, e, rest);
    var a, u, b := ReadyNames(done), ReadyNames([e]), ReadyNames(rest);
    NoDuplicatesConcat(a + u, b);
    NoDuplicatesConcat(a, u);
    DisjointConcat(a, u, b);
    NoDuplicatesConcat(a, b);
    assert forall i :: 0 <= i < |es'| && i != |done| ==> es'[i] == es[i];
  }

  predicate SameTable(e: Interface, f: Interface) {
    IsKnown(e.kind) && (e.kind.Gpio? <==> f.kind.Gpio?)
  }

  lemma RetiredCounts(done: seq<Interface>, e: Interface, mid: seq<Interface>, f: Interface)
    requires e.ready
    ensures var before, after := done + [e] + mid, done + [Retired(e)] + mid;
            && KindCount(before, f.kind) == (if SameTable(e, f) then KindCount(after, f.kind) + 1
                                             else KindCount(after, f.kind))
            && |Ready(before)| == |Ready(after)| + 1
  {
    CountStep(done, e);
    CountSkip(done, Retired(e));
    CountConcat(done + [e], mid);
    CountConcat(done + [Retired(e)], mid);
    ReadyConcat(done + [e], mid);
    ReadyConcat(done + [Retired(e)], mid);
  }

  /** Making a ready entry not ready leaves every entry before it alone. */
  lemma RetiringKeepsEarlier(done: seq<Interface>, f: Interface, mid: seq<Interface>, e: Interface,
                             rest: seq<Interface>,
                             es: seq<Interface>, es': seq<Interface>)
    returns (index: nat, position: nat)
    requires es == done + [f] + mid + [e] + rest && es' == done + [f] + mid + [Retired(e)] + rest
    requires Numberable(es) && e.ready && f.ready
    ensures Numberable(es')
    ensures Numbered(es, f, index, position) && Numbered(es', f, index, position)
  {
    index, position := KindCount(done, f.kind), |Ready(done)|;
    RetiringKeepsNumberable(done + [f] + mid, e, rest, es, es');
    assert es == done + [f] + (mid + [e] + rest);
    assert es' == done + [f] + (mid + [Retired(e)] + rest);
    NumbersOfEntry(es, done, f, mid + [e] + rest, index, position);
    NumbersOfEntry(es', done, f, mid + [Retired(e)] + rest, index, position);
  }

  /**
   * ... and every later ready entry's error code moves down by one position, as does its
   * index if it lives in the same table; an index in the other table stays.
   */
  lemma RetiringShiftsLater(done: seq<Interface>, e: Interface, mid: seq<Interface>, f: Interface, rest: seq<Interface>,
                            es: seq<Interface>, es': seq<Interface>)
    returns (index: nat, position: nat)
    requires es == done + [e] + mid + [f] + rest && es' == done + [Retired(e)] + mid + [f] + rest
    requires Numberable(es) && e.ready && f.ready
    ensures Numberable(es')
    ensures Numbered(es', f, index, position)
    ensures Numbered(es, f, if SameTable(e, f) then index + 1 else index, position + 1)
  {
    var before, before' := done + [e] + mid, done + [Retired(e)] + mid;
    RegroupEntries(done, [e], mid, [f], rest);
    RegroupEntries(done, [Retired(e)], mid, [f], rest);
    RetiringKeepsNumberable(done, e, mid + [f] + rest, es, es');
    RetiredCounts(done, e, mid, f);
    index, position := KindCount(before', f.kind), |Ready(before')|;
    NumbersOfEntry(es', before', f, rest, index, position);
    NumbersOfEntry(es, before, f, rest, if SameTable(e, f) then index + 1 else index, position + 1);
  }

  lemma RegroupEntries(a: seq<Interface>, b: seq<Interface>, c: seq<Interface>, d: seq<Interface>, e: seq<Interface>)
    ensures a + b + c + d + e == a + b + (c + d + e)
  {
  }
}
