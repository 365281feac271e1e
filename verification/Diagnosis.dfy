// What a boot reports, and which slots it uses.
module Diagnosis {
  import opened Text
  import opened Interfaces
  import opened Linking
  import opened Booting

  ghost predicate Bootable(es: seq<Interface>) {
    AllSupported(es) && forall i :: 0 <= i < |es| && es[i].ready ==> HasKeys(es[i])
  }

  /** The calls for the ready entries, in configuration order. */
  function CallsFrom(es: seq<Interface>, slot: nat, pin: nat): seq<Call>
    requires AllSupported(es) && forall i :: 0 <= i < |es| && es[i].ready ==> HasKeys(es[i])
  {
    if es == [] then []
    else if !es[0].ready then CallsFrom(es[1..], slot, pin)
    else [CallFor(es[0], slot, pin)] +
         (if es[0].kind.Gpio? then CallsFrom(es[1..], slot, pin + 1) else CallsFrom(es[1..], slot + 1, pin))
  }

  /** Prior initialisation and then every ready entry: what a boot without failures calls. */
  function AllCalls(es: seq<Interface>): seq<Call>
    requires AllSupported(es) && forall i :: 0 <= i < |es| && es[i].ready ==> HasKeys(es[i])
  {
    [PriorInit] + CallsFrom(es, 0, 0)
  }

  /** The calls recorded in a run's events. */
  function CallsMade(events: seq<Event>): seq<Call> {
    if events == [] then []
    else if events[0].Called? then [events[0].call] + CallsMade(events[1..])
    else CallsMade(events[1..])
  }

  lemma {:induction false} CallsMadeConcat(a: seq<Event>, b: seq<Event>)
    ensures CallsMade(a + b) == CallsMade(a) + CallsMade(b)
  {
    if a == [] {
      assert a + b == b;
    } else {
      CallsMadeConcat(a[1..], b);
      assert (a + b)[0] == a[0] && (a + b)[1..] == a[1..] + b;
      if a[0].Called? { Associate([a[0].call], CallsMade(a[1..]), CallsMade(b)); }
    }
  }

  lemma CallsMadeOne(e: Event)
    ensures CallsMade([e]) == if e.Called? then [e.call] else []
  {
    assert [e][1..] == [] && CallsMade([e][1..]) == [];
  }

  lemma CallsMadeTwo(events: seq<Event>, c: Event, note: Event)
    requires c.Called? && note.Logged?
    ensures CallsMade(events + [c]) == CallsMade(events) + [c.call]
    ensures CallsMade(events + [c] + [note]) == CallsMade(events) + [c.call]
  {
    CallsMadeConcat(events, [c]);
    CallsMadeConcat(events + [c], [note]);
    CallsMadeOne(c);
    CallsMadeOne(note);
  }

  /** Among the calls after the first `from`, the first k succeed. */
  ghost predicate Succeed(devices: Devices, calls: seq<Call>, from: nat, k: nat) {
    forall j :: from < j <= from + k && j <= |calls| ==> devices(calls[..j]) == CFE_SUCCESS
  }

  /**
   * What an outcome says about a list of calls of which the first `done` have been made:
   * either all the rest succeed and are all made, or the run stops at the first call that
   * fails, the calls up to it are the ones made, and the result is the code of its position.
   */
  ghost predicate Reports(out: Outcome, calls: seq<Call>, done: nat, position: nat, devices: Devices)
    requires done <= |calls|
  {
    out.Finished? &&
    exists k: nat ::
      && done + k <= |calls| && Succeed(devices, calls, done, k)
      && if done + k == |calls| then out.result == CFE_SUCCESS && CallsMade(out.events) == calls
         else
           && devices(calls[..done + k + 1]) != CFE_SUCCESS
           && out.result == SerialError(90 + position + k)
           && CallsMade(out.events) == calls[..done + k + 1]
  }

  lemma ReportsEnd(events: seq<Event>, calls: seq<Call>, position: nat, devices: Devices)
    requires CallsMade(events) == calls
    ensures Reports(Finished(events, CFE_SUCCESS), calls, |calls|, position, devices)
  {
    var k: nat := 0;
    assert |calls| + k == |calls| && Succeed(devices, calls, |calls|, k);
  }

  lemma ReportsFailure(events: seq<Event>, calls: seq<Call>, done: nat, position: nat, devices: Devices)
    requires done < |calls| && devices(calls[..done + 1]) != CFE_SUCCESS && CallsMade(events) == calls[..done + 1]
    ensures Reports(Finished(events, SerialError(90 + position)), calls, done, position, devices)
  {
    var k: nat := 0;
    assert Succeed(devices, calls, done, k);
    assert devices(calls[..done + k + 1]) != CFE_SUCCESS;
  }

  lemma ReportsNext(out: Outcome, calls: seq<Call>, done: nat, position: nat, devices: Devices)
    requires done < |calls| && devices(calls[..done + 1]) == CFE_SUCCESS
    requires Reports(out, calls, done + 1, position + 1, devices)
    ensures Reports(out, calls, done, position, devices)
  {
    var k: nat :|
      && done + 1 + k <= |calls| && Succeed(devices, calls, done + 1, k)
      && if done + 1 + k == |calls| then out.result == CFE_SUCCESS && CallsMade(out.events) == calls
         else
           && devices(calls[..done + 1 + k + 1]) != CFE_SUCCESS
           && out.result == SerialError(90 + (position + 1) + k)
           && CallsMade(out.events) == calls[..done + 1 + k + 1];
    var k' := k + 1;
    assert done + k' == done + 1 + k;
    forall j | done < j <= done + k' && j <= |calls|
      ensures devices(calls[..j]) == CFE_SUCCESS
    {
      if j > done + 1 { assert done + 1 < j <= done + 1 + k; }
    }
    assert Succeed(devices, calls, done, k');
  }

  lemma {:induction false} BootFromReports(es: seq<Interface>, slot: nat, pin: nat, position: nat, made: seq<Call>,
                                           events: seq<Event>,
                                           devices: Devices)
    requires Bootable(es) && CallsMade(events) == made
    ensures Reports(BootFrom(es, slot, pin, position, made, events, devices), made + CallsFrom(es, slot, pin), |made|,
                    position, devices)
    decreases |es|
  {
    if es == [] {
      assert made + [] == made;
      ReportsEnd(events, made, position, devices);
    } else if !es[0].ready {
      BootFromReports(es[1..], slot, pin, position, made, events, devices);
    } else {
      var e := es[0];
      var call := CallFor(e, slot, pin);
      var status := devices(made + [call]);
      var after := events + [Called(call, status)];
      var slot', pin' := if e.kind.Gpio? then slot else slot + 1, if e.kind.Gpio? then pin + 1 else pin;
      var rest := CallsFrom(es[1..], slot', pin');
      AppendCall(made, call, rest);
      CallsMadeTwo(events, Called(call, status), FailureNote(e));
      CallsMadeTwo(events, Called(call, status), SuccessNote(e, slot));
      if status != CFE_SUCCESS {
        ReportsFailure(after + [FailureNote(e)], made + ([call] + rest), |made|, position, devices);
      } else {
        var noted := if e.kind.Gpio? then after else after + [SuccessNote(e, slot)];
        BootFromReports(es[1..], slot', pin', position + 1, made + [call], noted, devices);
        ReportsNext(BootFrom(es[1..], slot', pin', position + 1, made + [call], noted, devices),
                    made + ([call] + rest), |made|, position,
                    devices);
      }
    }
  }

  lemma AppendCall(made: seq<Call>, call: Call, rest: seq<Call>)
    ensures made + [call] + rest == made + ([call] + rest)
    ensures (made + ([call] + rest))[..|made| + 1] == made + [call]
  {
  }

  lemma {:induction false} CallsCount(es: seq<Interface>, slot: nat, pin: nat)
    requires Bootable(es)
    ensures |CallsFrom(es, slot, pin)| == |Ready(es)|
  {
    if es != [] {
      if !es[0].ready {
        CallsCount(es[1..], slot, pin);
      } else if es[0].kind.Gpio? {
        CallsCount(es[1..], slot, pin + 1);
      } else {
        CallsCount(es[1..], slot + 1, pin);
      }
    }
  }

  /**
   * First-failure diagnosis. Let n be the length of the longest run of successful calls.
   * With n = 0 the result is prior initialisation's own status; with all calls successful
   * it is success; otherwise it is the code of the entry at position n - 1 among the ready
   * entries, which is the first that failed. The calls made are exactly those up to the
   * first failure.
   */
  lemma FirstFailure(es: seq<Interface>, devices: Devices)
    requires Bootable(es)
    ensures |AllCalls(es)| == 1 + |Ready(es)|
    ensures var out, calls := Boot(es, devices), AllCalls(es);
            && out.Finished?
            && exists n: nat ::
                 && n <= |calls| && Succeed(devices, calls, 0, n)
                 && if n == |calls| then out.result == CFE_SUCCESS && CallsMade(out.events) == calls
                    else
                      && devices(calls[..n + 1]) != CFE_SUCCESS
                      && out.result == (if n == 0 then devices([PriorInit]) else SerialError(90 + (n - 1)))
                      && CallsMade(out.events) == calls[..n + 1]
  {
    var out, calls := Boot(es, devices), AllCalls(es);
    var status := devices([PriorInit]);
    var events := [Called(PriorInit, status)];
    CallsCount(es, 0, 0);
    assert calls[..1] == [PriorInit];
    CallsMadeOne(Called(PriorInit, status));
    if status != CFE_SUCCESS {
      var n: nat := 0;
      assert Succeed(devices, calls, 0, n) && devices(calls[..n + 1]) != CFE_SUCCESS;
    } else {
      var noted := events + [Logged("%s: Prior Initialized.", [])];
      CallsMadeConcat(events, [Logged("%s: Prior Initialized.", [])]);
      CallsMadeOne(Logged("%s: Prior Initialized.", []));
      BootFromReports(es, 0, 0, 0, [PriorInit], noted, devices);
      var k: nat :|
        && 1 + k <= |calls| && Succeed(devices, calls, 1, k)
        && if 1 + k == |calls| then out.result == CFE_SUCCESS && CallsMade(out.events) == calls
           else
             && devices(calls[..1 + k + 1]) != CFE_SUCCESS
             && out.result == SerialError(90 + 0 + k)
             && CallsMade(out.events) == calls[..1 + k + 1];
      var n := k + 1;
      forall j | 0 < j <= 0 + n && j <= |calls|
        ensures devices(calls[..j]) == CFE_SUCCESS
      {
        if j > 1 { assert 1 < j <= 1 + k; }
      }
      assert Succeed(devices, calls, 0, n);
    }
  }

  // ----- the codes -----

  /** The fields of a status word, from the top: 2, 2, 3, 9 and 16 bits. */
  datatype Fields = Fields(severity: int, reserve: int, service: int, mission: int, code: int)

  function FieldsOf(status: int): Fields {
    var word := status % 0x1_0000_0000;
    Fields(word / 0x4000_0000, word / 0x1000_0000 % 4, word / 0x200_0000 % 8, word / 0x1_0000 % 0x200, word % 0x1_0000)
  }

  /** An error status of the serial module as 32 bits: severity 3, mission 1, and the code. */
  lemma SerialErrorFields(n: nat)
    ensures FieldsOf(SerialError(n)) == Fields(3, 0, 0, 1, n % 0x1_0000)
    ensures -0x8000_0000 <= SerialError(n) < 0
  {
  }

  /** Error codes are never success, and identify positions up to 65536 of them. */
  lemma ErrorCodesIdentify(a: nat, b: nat)
    ensures SerialError(90 + a) != CFE_SUCCESS && -0x8000_0000 <= SerialError(90 + a) < 0
    ensures SerialError(90 + a) == SerialError(90 + b) <==> a % 0x1_0000 == b % 0x1_0000
  {
    ShiftedEqual(a, b);
  }

  lemma ShiftedEqual(a: nat, b: nat)
    ensures (90 + a) % 0x1_0000 == (90 + b) % 0x1_0000 <==> a % 0x1_0000 == b % 0x1_0000
  {
    if (90 + a) % 0x1_0000 == (90 + b) % 0x1_0000 {
      ApartByMultiple(a, b, (90 + a) / 0x1_0000 - (90 + b) / 0x1_0000);
    }
    if a % 0x1_0000 == b % 0x1_0000 {
      ApartByMultiple(90 + a, 90 + b, a / 0x1_0000 - b / 0x1_0000);
    }
  }

  lemma ApartByMultiple(a: int, b: int, k: int)
    requires a == b + 0x1_0000 * k
    ensures a % 0x1_0000 == b % 0x1_0000
  {
    assert a == 0x1_0000 * (b / 0x1_0000 + k) + b % 0x1_0000;
  }

  /** Prior initialisation has one status for its own failure. */
  const PRIOR_ERROR: int := SerialError(8)

  predicate CodeIs(position: nat, status: int) {
    SerialError(90 + position) == status
  }

  /** That status is also the code of some ready entry exactly if there are more than 65454 of them. */
  lemma PriorErrorConfusedIff(es: seq<Interface>)
    ensures (exists k: nat :: k < |Ready(es)| && CodeIs(k, PRIOR_ERROR)) <==> |Ready(es)| > 65454
  {
    if |Ready(es)| > 65454 {
      var k: nat := 65454;
      assert (90 + k) % 0x1_0000 == 8;
      assert CodeIs(k, PRIOR_ERROR);
    }
    forall k: nat | CodeIs(k, PRIOR_ERROR)
      ensures k >= 65454
    {
      assert (90 + k) % 0x1_0000 == 8;
    }
  }

  // ----- the slots -----

  function SlotsOf(calls: seq<Call>): seq<nat> {
    if calls == [] then []
    else if calls[0].HandleInit? then [calls[0].slot] + SlotsOf(calls[1..])
    else SlotsOf(calls[1..])
  }

  function PinsOf(calls: seq<Call>): seq<nat> {
    if calls == [] then []
    else if calls[0].GpioInit? then [calls[0].pin] + PinsOf(calls[1..])
    else PinsOf(calls[1..])
  }

  function Range(from: nat, count: nat): seq<nat> {
    seq(count, i requires 0 <= i < count => from + i)
  }

  lemma RangeStep(from: nat, count: nat)
    ensures Range(from, count + 1) == [from] + Range(from + 1, count)
  {
  }

  lemma {:induction false} SlotsFrom(es: seq<Interface>, slot: nat, pin: nat)
    requires Bootable(es)
    ensures SlotsOf(CallsFrom(es, slot, pin)) == Range(slot, GeneralCount(es))
    ensures PinsOf(CallsFrom(es, slot, pin)) == Range(pin, GpioCount(es))
    decreases |es|
  {
    if es != [] {
      var calls := CallsFrom(es, slot, pin);
      if !es[0].ready {
        SlotsFrom(es[1..], slot, pin);
      } else if es[0].kind.Gpio? {
        SlotsFrom(es[1..], slot, pin + 1);
        assert calls[1..] == CallsFrom(es[1..], slot, pin + 1);
        RangeStep(pin, GpioCount(es[1..]));
      } else {
        SlotsFrom(es[1..], slot + 1, pin);
        assert calls[1..] == CallsFrom(es[1..], slot + 1, pin);
        RangeStep(slot, GeneralCount(es[1..]));
      }
    }
  }

  /**
   * A boot without failures initialises the slots 0, 1, ... of each table in this order,
   * each exactly once and none besides: one per ready entry of the table's kind.
   */
  lemma SlotsExactlyOnce(es: seq<Interface>)
    requires Bootable(es)
    ensures SlotsOf(AllCalls(es)) == Range(0, GeneralCount(es))
    ensures PinsOf(AllCalls(es)) == Range(0, GpioCount(es))
    ensures GeneralCount(es) + GpioCount(es) == |Ready(es)|
  {
    SlotsFrom(es, 0, 0);
    assert AllCalls(es)[1..] == CallsFrom(es, 0, 0);
    CountsPartition(es);
  }

  // ----- the mutexes -----

  /** Handles get successive slots, and the slot cut to eight bits as their mutex. */
  ghost predicate SlotsRise(calls: seq<Call>, from: nat, to: nat) {
    && (forall i :: 0 <= i < |calls| && calls[i].HandleInit? ==>
          from <= calls[i].slot < to && calls[i].mutex == calls[i].slot % 0x100)
    && forall i, j :: 0 <= i < j < |calls| && calls[i].HandleInit? && calls[j].HandleInit? ==>
      calls[i].slot < calls[j].slot
  }

  lemma SlotsRiseCons(call: Call, calls: seq<Call>, from: nat, to: nat)
    requires if call.HandleInit? then call.slot == from < to && call.mutex == from % 0x100 &&
             SlotsRise(calls, from + 1, to)
             else SlotsRise(calls, from, to)
    ensures SlotsRise([call] + calls, from, to)
  {
    var all := [call] + calls;
    assert forall i :: 0 < i < |all| ==> all[i] == calls[i - 1];
  }

  lemma {:induction false} SlotsRiseFrom(es: seq<Interface>, slot: nat, pin: nat)
    requires Bootable(es)
    ensures SlotsRise(CallsFrom(es, slot, pin), slot, slot + GeneralCount(es))
    decreases |es|
  {
    if es != [] {
      if !es[0].ready {
        SlotsRiseFrom(es[1..], slot, pin);
      } else if es[0].kind.Gpio? {
        SlotsRiseFrom(es[1..], slot, pin + 1);
        SlotsRiseCons(CallFor(es[0], slot, pin), CallsFrom(es[1..], slot, pin + 1), slot, slot + GeneralCount(es));
      } else {
        SlotsRiseFrom(es[1..], slot + 1, pin);
        SlotsRiseCons(CallFor(es[0], slot, pin), CallsFrom(es[1..], slot + 1, pin), slot, slot + GeneralCount(es));
      }
    }
  }

  /** The call that initialises the k-th slot from here on. */
  lemma {:induction false} CallOfSlot(es: seq<Interface>, slot: nat, pin: nat, k: nat) returns (i: nat)
    requires Bootable(es) && k < GeneralCount(es)
    ensures i < |CallsFrom(es, slot, pin)|
    ensures var call := CallsFrom(es, slot, pin)[i]; call.HandleInit? && call.slot == slot + k
    decreases |es|
  {
    if !es[0].ready {
      i := CallOfSlot(es[1..], slot, pin, k);
    } else if es[0].kind.Gpio? {
      i := CallOfSlot(es[1..], slot, pin + 1, k);
      i := i + 1;
    } else if k == 0 {
      i := 0;
    } else {
      i := CallOfSlot(es[1..], slot + 1, pin, k - 1);
      i := i + 1;
    }
  }

  /** Two different handle initialisations among these calls ask for the same mutex. */
  ghost predicate MutexShared(calls: seq<Call>) {
    exists i, j :: 0 <= i < j < |calls| && calls[i].HandleInit? && calls[j].HandleInit? &&
      calls[i].mutex == calls[j].mutex
  }

  lemma SharingTakesMany(calls: seq<Call>, n: nat)
    requires SlotsRise(calls, 0, n) && MutexShared(calls)
    ensures n > 0x100
  {
    var i, j :| 0 <= i < j < |calls| && calls[i].HandleInit? && calls[j].HandleInit? &&
      calls[i].mutex == calls[j].mutex;
    assert calls[i].slot < calls[j].slot;
  }

  lemma ManyShare(calls: seq<Call>, n: nat, i: nat, j: nat)
    requires SlotsRise(calls, 0, n) && i < |calls| && j < |calls|
    requires calls[i].HandleInit? && calls[i].slot == 0 && calls[j].HandleInit? && calls[j].slot == 0x100
    ensures MutexShared(calls)
  {
    assert i < j && calls[i].mutex == calls[j].mutex;
  }

  /**
   * Two calls of a configuration ask for the same mutex exactly when more than 256 general
   * entries are ready. Such calls are never all made: the table of handles is full before.
   */
  lemma SharedMutexIff(es: seq<Interface>)
    requires Bootable(es)
    ensures MutexShared(AllCalls(es)) <==> GeneralCount(es) > 0x100
  {
    var calls, n := CallsFrom(es, 0, 0), GeneralCount(es);
    SlotsRiseFrom(es, 0, 0);
    SlotsRiseCons(PriorInit, calls, 0, n);
    if n > 0x100 {
      var i := CallOfSlot(es, 0, 0, 0);
      var j := CallOfSlot(es, 0, 0, 0x100);
      ManyShare(AllCalls(es), n, i + 1, j + 1);
    } else if MutexShared(AllCalls(es)) {
      SharingTakesMany(AllCalls(es), n);
    }
  }

  // ----- reading a slot -----

  /** Each slot that the event at position k reads was initialised successfully before it. */
  ghost predicate ReadsLiveSlots(events: seq<Event>, k: nat)
    requires k < |events|
  {
    events[k].Logged? ==> forall s :: s in events[k].slots ==> Initialised(events[..k], s)
  }

  ghost predicate Initialised(events: seq<Event>, slot: nat) {
    exists j :: 0 <= j < |events| && events[j].Called? && events[j].call.HandleInit? && events[j].call.slot == slot &&
                events[j].status == CFE_SUCCESS
  }

  ghost predicate SafeReads(events: seq<Event>) {
    forall k :: 0 <= k < |events| ==> ReadsLiveSlots(events, k)
  }

  lemma SafeReadsExtend(events: seq<Event>, e: Event)
    requires SafeReads(events)
    requires e.Logged? ==> forall s :: s in e.slots ==> Initialised(events, s)
    ensures SafeReads(events + [e])
  {
    var all := events + [e];
    forall k | 0 <= k < |all|
      ensures ReadsLiveSlots(all, k)
    {
      assert all[..k] == events[..k];
      if k < |events| {
        assert ReadsLiveSlots(events, k);
      } else {
        assert events[..k] == events;
      }
    }
  }

  lemma {:induction false} BootFromReadsSafely(es: seq<Interface>, slot: nat, pin: nat, position: nat,
                                               calls: seq<Call>, events: seq<Event>,
                                               devices: Devices)
    requires Bootable(es) && SafeReads(events)
    ensures SafeReads(BootFrom(es, slot, pin, position, calls, events, devices).events)
    decreases |es|
  {
    if es != [] {
      if !es[0].ready {
        BootFromReadsSafely(es[1..], slot, pin, position, calls, events, devices);
      } else {
        var e := es[0];
        var call := CallFor(e, slot, pin);
        var status := devices(calls + [call]);
        var after := events + [Called(call, status)];
        SafeReadsExtend(events, Called(call, status));
        SafeReadsExtend(after, FailureNote(e));
        if status == CFE_SUCCESS && e.kind.Gpio? {
          BootFromReadsSafely(es[1..], slot, pin + 1, position + 1, calls + [call], after, devices);
        } else if status == CFE_SUCCESS {
          assert after[|events|] == Called(call, status);
          assert Initialised(after, slot);
          SafeReadsExtend(after, SuccessNote(e, slot));
          BootFromReadsSafely(es[1..], slot + 1, pin, position + 1, calls + [call], after + [SuccessNote(e, slot)],
                              devices);
        }
      }
    }
  }

  /**
   * Dereference safety. On every run, a log line that reads a handle slot comes after a
   * successful initialisation of that same slot.
   */
  lemma LogsReadLiveSlots(es: seq<Interface>, devices: Devices)
    requires Bootable(es)
    ensures SafeReads(Boot(es, devices).events)
  {
    var status := devices([PriorInit]);
    var events := [Called(PriorInit, status)];
    assert SafeReads(events);
    SafeReadsExtend(events, Logged("%s: Prior Initialized.", []));
    if status == CFE_SUCCESS {
      BootFromReadsSafely(es, 0, 0, 0, [PriorInit], events + [Logged("%s: Prior Initialized.", [])], devices);
    }
  }

  /** Without a ready general entry, no run initialises or reads any handle slot. */
  lemma PaddingSlotUntouched(es: seq<Interface>, devices: Devices)
    requires Bootable(es) && GeneralCount(es) == 0
    ensures SlotsOf(AllCalls(es)) == []
    ensures forall e :: e in Boot(es, devices).events ==>
              (e.Called? ==> !e.call.HandleInit?) && (e.Logged? ==> e.slots == [])
  {
    SlotsExactlyOnce(es);
    var status := devices([PriorInit]);
    var events := [Called(PriorInit, status)] + [Logged("%s: Prior Initialized.", [])];
    if status == CFE_SUCCESS {
      NoSlotFrom(es, 0, 0, 0, [PriorInit], events, devices);
    }
  }

  ghost predicate TouchesNoSlot(events: seq<Event>) {
    forall e :: e in events ==> (e.Called? ==> !e.call.HandleInit?) && (e.Logged? ==> e.slots == [])
  }

  lemma {:induction false} NoSlotFrom(es: seq<Interface>, slot: nat, pin: nat, position: nat, calls: seq<Call>,
                                      events: seq<Event>,
                                      devices: Devices)
    requires Bootable(es) && GeneralCount(es) == 0 && TouchesNoSlot(events)
    ensures TouchesNoSlot(BootFrom(es, slot, pin, position, calls, events, devices).events)
    decreases |es|
  {
    if es != [] {
      if !es[0].ready {
        NoSlotFrom(es[1..], slot, pin, position, calls, events, devices);
      } else {
        var call := CallFor(es[0], slot, pin);
        var status := devices(calls + [call]);
        if status == CFE_SUCCESS {
          NoSlotFrom(es[1..], slot, pin + 1, position + 1, calls + [call], events + [Called(call, status)], devices);
        }
      }
    }
  }
}
