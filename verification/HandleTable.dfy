// The table of handles behind the devices. It has a fixed number of entries, every
// handle initialisation takes one, and with none left it fails.
module HandleTable {
  import opened Interfaces
  import opened Linking
  import opened Booting
  import opened Diagnosis

  /** Handle initialisation fails once more handles have been asked for than the table has entries. */
  ghost predicate HasTable(devices: Devices, size: nat) {
    forall calls: seq<Call> :: Overfull(calls, size) ==> devices(calls) != CFE_SUCCESS
  }

  /** ... and nothing else fails. */
  ghost predicate OnlyTableFails(devices: Devices, size: nat) {
    forall calls: seq<Call> :: calls != [] ==> (devices(calls) == CFE_SUCCESS <==> !Overfull(calls, size))
  }

  predicate Overfull(calls: seq<Call>, size: nat) {
    calls != [] && calls[|calls| - 1].HandleInit? && |SlotsOf(calls)| > size
  }

  lemma {:induction false} SlotsOfSnoc(calls: seq<Call>, call: Call)
    ensures SlotsOf(calls + [call]) == SlotsOf(calls) + if call.HandleInit? then [call.slot] else []
  {
    if calls == [] {
      assert [] + [call] == [call] && [call][1..] == [] && SlotsOf([call][1..]) == [];
    } else {
      SlotsOfSnoc(calls[1..], call);
      assert (calls + [call])[0] == calls[0] && (calls + [call])[1..] == calls[1..] + [call];
    }
  }

  /** Whether the next call overfills the table. */
  lemma OverfullNext(calls: seq<Call>, call: Call, size: nat)
    ensures Overfull(calls + [call], size) <==> call.HandleInit? && |SlotsOf(calls)| >= size
  {
    SlotsOfSnoc(calls, call);
  }

  // ----- live handles -----

  /** A handle initialisation that succeeded. */
  predicate IsLive(e: Event) {
    e.Called? && e.call.HandleInit? && e.status == CFE_SUCCESS
  }

  /** Every live handle has a slot of its own below a bound, and the slot cut to eight bits as its mutex. */
  ghost predicate LiveBelow(events: seq<Event>, bound: nat) {
    && (forall i :: 0 <= i < |events| && IsLive(events[i]) ==>
          events[i].call.slot < bound && events[i].call.mutex == events[i].call.slot % 0x100)
    && forall i, j :: 0 <= i < j < |events| && IsLive(events[i]) && IsLive(events[j]) ==>
         events[i].call.slot < events[j].call.slot
  }

  lemma LiveSnoc(events: seq<Event>, e: Event, bound: nat)
    requires LiveBelow(events, bound) && (IsLive(e) ==> e.call.slot == bound && e.call.mutex == bound % 0x100)
    ensures LiveBelow(events + [e], if IsLive(e) then bound + 1 else bound)
  {
  }

  lemma LiveWider(events: seq<Event>, bound: nat, wider: nat)
    requires LiveBelow(events, bound) && bound <= wider
    ensures LiveBelow(events, wider)
  {
  }

  lemma {:induction false} BootFromLive(es: seq<Interface>, slot: nat, pin: nat, position: nat, calls: seq<Call>,
                                        events: seq<Event>, devices: Devices, size: nat)
    requires Bootable(es) && HasTable(devices, size)
    requires |SlotsOf(calls)| == slot <= size && LiveBelow(events, slot)
    ensures LiveBelow(BootFrom(es, slot, pin, position, calls, events, devices).events, size)
    decreases |es|
  {
    if es == [] {
      LiveWider(events, slot, size);
    } else if !es[0].ready {
      BootFromLive(es[1..], slot, pin, position, calls, events, devices, size);
    } else {
      var e := es[0];
      var call := CallFor(e, slot, pin);
      var status := devices(calls + [call]);
      var after := events + [Called(call, status)];
      OverfullNext(calls, call, size);
      SlotsOfSnoc(calls, call);
      LiveSnoc(events, Called(call, status), slot);
      if status != CFE_SUCCESS {
        LiveSnoc(after, FailureNote(e), slot);
        LiveWider(after + [FailureNote(e)], slot, size);
      } else if e.kind.Gpio? {
        BootFromLive(es[1..], slot, pin + 1, position + 1, calls + [call], after, devices, size);
      } else {
        LiveSnoc(after, SuccessNote(e, slot), slot + 1);
        BootFromLive(es[1..], slot + 1, pin, position + 1, calls + [call], after + [SuccessNote(e, slot)], devices,
                     size);
      }
    }
  }

  /** No two live handles have the same mutex. */
  ghost predicate MutexesDistinct(events: seq<Event>) {
    forall i, j :: 0 <= i < j < |events| && IsLive(events[i]) && IsLive(events[j]) ==>
      events[i].call.mutex != events[j].call.mutex
  }

  lemma BootLive(es: seq<Interface>, devices: Devices, size: nat)
    requires Bootable(es) && HasTable(devices, size)
    ensures LiveBelow(Boot(es, devices).events, size)
  {
    var status := devices([PriorInit]);
    var events := [Called(PriorInit, status)];
    var note := Logged("%s: Prior Initialized.", []);
    assert LiveBelow(events, 0);
    LiveSnoc(events, note, 0);
    SlotsOfSnoc([], PriorInit);
    assert [] + [PriorInit] == [PriorInit];
    if status == CFE_SUCCESS {
      BootFromLive(es, 0, 0, 0, [PriorInit], events + [note], devices, size);
    } else {
      LiveWider(events, 0, size);
    }
  }

  /**
   * With at most 256 entries in the table, no run leaves two handles with the same mutex,
   * although a mutex is a slot cut to eight bits: the table is full before slots differ by 256.
   */
  lemma MutexesNeverShared(es: seq<Interface>, devices: Devices, size: nat)
    requires Bootable(es) && HasTable(devices, size) && size <= 0x100
    ensures MutexesDistinct(Boot(es, devices).events)
  {
    BootLive(es, devices, size);
  }

  // ----- when the table is large enough -----

  lemma {:induction false} FitsFrom(es: seq<Interface>, slot: nat, pin: nat, position: nat, calls: seq<Call>,
                                    events: seq<Event>, devices: Devices, size: nat)
    requires Bootable(es) && OnlyTableFails(devices, size)
    requires |SlotsOf(calls)| == slot && slot + GeneralCount(es) <= size
    ensures BootFrom(es, slot, pin, position, calls, events, devices).result == CFE_SUCCESS
    decreases |es|
  {
    if es != [] {
      if !es[0].ready {
        FitsFrom(es[1..], slot, pin, position, calls, events, devices, size);
      } else {
        var e := es[0];
        var call := CallFor(e, slot, pin);
        var after := events + [Called(call, devices(calls + [call]))];
        OverfullNext(calls, call, size);
        SlotsOfSnoc(calls, call);
        if e.kind.Gpio? {
          FitsFrom(es[1..], slot, pin + 1, position + 1, calls + [call], after, devices, size);
        } else {
          FitsFrom(es[1..], slot + 1, pin, position + 1, calls + [call], after + [SuccessNote(e, slot)], devices, size);
        }
      }
    }
  }

  /** The entry that finds the table full ends the boot with its code. */
  lemma {:induction false} OverflowsAt(es: seq<Interface>, done: seq<Interface>, e: Interface, rest: seq<Interface>,
                                       slot: nat, pin: nat, position: nat, calls: seq<Call>, events: seq<Event>,
                                       devices: Devices, size: nat)
    requires es == done + [e] + rest && e.ready && IsGeneral(e.kind)
    requires Bootable(es) && OnlyTableFails(devices, size)
    requires |SlotsOf(calls)| == slot && slot + GeneralCount(done) == size
    ensures BootFrom(es, slot, pin, position, calls, events, devices).result ==
            SerialError(90 + position + |Ready(done)|)
    decreases |done|
  {
    if done == [] {
      assert es[0] == e;
      OverfullNext(calls, CallFor(e, slot, pin), size);
    } else {
      var d := es[0];
      assert d == done[0] && es[1..] == done[1..] + [e] + rest;
      if !d.ready {
        OverflowsAt(es[1..], done[1..], e, rest, slot, pin, position, calls, events, devices, size);
      } else {
        var call := CallFor(d, slot, pin);
        var after := events + [Called(call, devices(calls + [call]))];
        OverfullNext(calls, call, size);
        SlotsOfSnoc(calls, call);
        if d.kind.Gpio? {
          OverflowsAt(es[1..], done[1..], e, rest, slot, pin + 1, position + 1, calls + [call], after, devices, size);
        } else {
          OverflowsAt(es[1..], done[1..], e, rest, slot + 1, pin, position + 1, calls + [call],
                      after + [SuccessNote(d, slot)], devices, size);
        }
      }
    }
  }

  /** The ready general entry that has exactly n others before it. */
  lemma {:induction false} SplitAtGeneral(es: seq<Interface>, n: nat)
    returns (done: seq<Interface>, e: Interface, rest: seq<Interface>)
    requires n < GeneralCount(es)
    ensures es == done + [e] + rest && e.ready && IsGeneral(e.kind) && GeneralCount(done) == n
    decreases |es|
  {
    var first := es[0].ready && IsGeneral(es[0].kind);
    if first && n == 0 {
      done, e, rest := [], es[0], es[1..];
    } else {
      done, e, rest := SplitAtGeneral(es[1..], if first then n - 1 else n);
      assert [es[0]] + done + [e] + rest == [es[0]] + es[1..];
      assert ([es[0]] + done)[1..] == done;
      done := [es[0]] + done;
    }
  }

  lemma PriorSucceeds(devices: Devices, size: nat)
    requires OnlyTableFails(devices, size)
    ensures devices([PriorInit]) == CFE_SUCCESS && |SlotsOf([PriorInit])| == 0
  {
    assert [PriorInit][1..] == [] && SlotsOf([PriorInit][1..]) == [];
    assert !Overfull([PriorInit], size);
  }

  lemma FitsTable(es: seq<Interface>, devices: Devices, size: nat)
    requires Bootable(es) && OnlyTableFails(devices, size) && GeneralCount(es) <= size
    ensures Boot(es, devices).result == CFE_SUCCESS
  {
    PriorSucceeds(devices, size);
    var events := [Called(PriorInit, CFE_SUCCESS)] + [Logged("%s: Prior Initialized.", [])];
    FitsFrom(es, 0, 0, 0, [PriorInit], events, devices, size);
  }

  /** When nothing but the table fails, the entry that finds it full is reported. */
  lemma OverflowsTable(es: seq<Interface>, done: seq<Interface>, e: Interface, rest: seq<Interface>, devices: Devices,
                       size: nat)
    requires es == done + [e] + rest && e.ready && IsGeneral(e.kind) && GeneralCount(done) == size
    requires Bootable(es) && OnlyTableFails(devices, size)
    ensures Boot(es, devices).result == SerialError(90 + |Ready(done)|)
  {
    PriorSucceeds(devices, size);
    var events := [Called(PriorInit, CFE_SUCCESS)] + [Logged("%s: Prior Initialized.", [])];
    OverflowsAt(es, done, e, rest, 0, 0, 0, [PriorInit], events, devices, size);
  }

  /** When nothing but the table fails, a boot succeeds exactly if the table holds all ready general entries. */
  lemma TableSufficesIff(es: seq<Interface>, devices: Devices, size: nat)
    requires Bootable(es) && OnlyTableFails(devices, size)
    ensures Boot(es, devices).result == CFE_SUCCESS <==> GeneralCount(es) <= size
  {
    if GeneralCount(es) <= size {
      FitsTable(es, devices, size);
    } else {
      var done, e, rest := SplitAtGeneral(es, size);
      OverflowsTable(es, done, e, rest, devices, size);
      ErrorCodesIdentify(|Ready(done)|, 0);
    }
  }

  /** Whatever else may fail, a boot that succeeds has found an entry of the table for every ready general entry. */
  lemma SuccessFitsTable(es: seq<Interface>, devices: Devices, size: nat)
    requires Bootable(es) && HasTable(devices, size) && Boot(es, devices).result == CFE_SUCCESS
    ensures GeneralCount(es) <= size
    ensures size <= 0x100 ==> !MutexShared(AllCalls(es))
  {
    if GeneralCount(es) > size {
      BootBeyondTable(es, devices, size);
    }
    if size <= 0x100 { SharedMutexIff(es); }
  }

  lemma BootBeyondTable(es: seq<Interface>, devices: Devices, size: nat)
    requires Bootable(es) && HasTable(devices, size) && GeneralCount(es) > size
    ensures Boot(es, devices).result != CFE_SUCCESS
  {
    var events := [Called(PriorInit, devices([PriorInit]))] + [Logged("%s: Prior Initialized.", [])];
    assert [PriorInit][1..] == [] && SlotsOf([PriorInit][1..]) == [];
    BeyondFrom(es, 0, 0, 0, [PriorInit], events, devices, size);
  }

  lemma {:induction false} BeyondFrom(es: seq<Interface>, slot: nat, pin: nat, position: nat, calls: seq<Call>,
                                      events: seq<Event>, devices: Devices, size: nat)
    requires Bootable(es) && HasTable(devices, size)
    requires |SlotsOf(calls)| == slot <= size < slot + GeneralCount(es)
    ensures BootFrom(es, slot, pin, position, calls, events, devices).result != CFE_SUCCESS
    decreases |es|
  {
    if !es[0].ready {
      BeyondFrom(es[1..], slot, pin, position, calls, events, devices, size);
    } else {
      var e := es[0];
      var call := CallFor(e, slot, pin);
      var status := devices(calls + [call]);
      var after := events + [Called(call, status)];
      OverfullNext(calls, call, size);
      SlotsOfSnoc(calls, call);
      if status != CFE_SUCCESS {
        ErrorCodesIdentify(position, 0);
      } else if e.kind.Gpio? {
        BeyondFrom(es[1..], slot, pin + 1, position + 1, calls + [call], after, devices, size);
      } else {
        BeyondFrom(es[1..], slot + 1, pin, position + 1, calls + [call], after + [SuccessNote(e, slot)], devices, size);
      }
    }
  }
}
