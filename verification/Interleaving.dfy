// The service and the window side by side, in any interleaving of received
// datagrams and delivered signals.
module Interleaving {
  import opened Text
  import opened Topics
  import opened Routing

  datatype System = System(router: Router, pending: seq<Signal>, window: Window)

  /** Either thread may move: the service handles an input, the window takes a signal. */
  datatype Event = Arrive(input: Input) | Deliver

  function Start(): System {
    System(InitialRouter(), [], InitialWindow())
  }

  function Step(s: System, e: Event): System
    requires |s.router.ips| == |s.router.names|
  {
    match e
    case Arrive(input) => s.(router := RouterStep(s.router, input), pending := s.pending + Emitted(s.router, input))
    case Deliver =>
      if s.pending == [] then s
      else s.(pending := s.pending[1..], window := WindowStep(s.window, s.pending[0]))
  }

  // ----- the registry -----

  ghost predicate NoRepeats(xs: seq<string>) {
    forall i, j :: 0 <= i < j < |xs| ==> xs[i] != xs[j]
  }

  /** Addresses never repeat, and entry k above 0 is named after k. */
  ghost predicate RegistryInv(ips: seq<string>, names: seq<Name>) {
    && |ips| == |names| >= 1
    && ips[0] == ALL && names[0] == Chars(ALL)
    && NoRepeats(ips)
    && forall k :: 1 <= k < |names| ==> names[k] == Bytes(SpacecraftName(k))
  }

  lemma NamesPairwiseDistinct(ips: seq<string>, names: seq<Name>, i: nat, j: nat)
    requires RegistryInv(ips, names) && i < |names| && j < |names| && names[i] == names[j]
    ensures i == j
  {
    if i >= 1 && j >= 1 {
      assert Decimal(i) == SpacecraftName(i)[10..] && Decimal(j) == SpacecraftName(j)[10..];
      NumeralInjective(10, i, j);
    }
  }

  lemma FindUnique(xs: seq<string>, x: string, i: nat)
    requires NoRepeats(xs) && i < |xs| && xs[i] == x
    ensures Find(xs, x) == i
  {
    assert xs[Find(xs, x)] == xs[i];
  }

  lemma RouterKeepsInv(r: Router, input: Input)
    requires RegistryInv(r.ips, r.names)
    ensures var r' := RouterStep(r, input);
            && RegistryInv(r'.ips, r'.names) && r.ips <= r'.ips && r.names <= r'.names
            && r'.ips == r.ips + IpsOf(Emitted(r, input)) && r'.names == r.names + NamesOf(Emitted(r, input))
  {
    var out := Emitted(r, input);
    if out != [] {
      assert IpsOf(out) == [out[0].ip] && NamesOf(out) == [out[0].name];
    } else {
      assert r.ips + IpsOf(out) == r.ips && r.names + NamesOf(out) == r.names;
    }
  }

  // ----- the copies -----

  function IpsOf(signals: seq<Signal>): seq<string> {
    seq(|signals|, i requires 0 <= i < |signals| => signals[i].ip)
  }

  function NamesOf(signals: seq<Signal>): seq<Name> {
    seq(|signals|, i requires 0 <= i < |signals| => signals[i].name)
  }

  /** The window's lists followed by the pending signals are the service's lists. */
  ghost predicate Inv(s: System) {
    && RegistryInv(s.router.ips, s.router.names)
    && s.window.ips + IpsOf(s.pending) == s.router.ips
    && s.window.names + NamesOf(s.pending) == s.router.names
    && |s.window.ips| == |s.window.names| >= 1
    && s.window.choices == s.window.ips
  }

  lemma SignalsConcat(a: seq<Signal>, b: seq<Signal>)
    ensures IpsOf(a + b) == IpsOf(a) + IpsOf(b) && NamesOf(a + b) == NamesOf(a) + NamesOf(b)
  {
  }

  lemma StepKeepsInv(s: System, e: Event)
    requires Inv(s)
    ensures Inv(Step(s, e))
    ensures s.router.ips <= Step(s, e).router.ips && s.router.names <= Step(s, e).router.names
    ensures s.window.ips <= Step(s, e).window.ips && s.window.names <= Step(s, e).window.names
  {
    match e
    case Arrive(input) =>
      RouterKeepsInv(s.router, input);
      SignalsConcat(s.pending, Emitted(s.router, input));
    case Deliver =>
      if s.pending != [] {
        var first, rest := s.pending[0], s.pending[1..];
        assert IpsOf(s.pending) == [first.ip] + IpsOf(rest);
        assert NamesOf(s.pending) == [first.name] + NamesOf(rest);
      }
  }

  /** Running any sequence of events from a state that satisfies the invariant. */
  ghost function RunFrom(s: System, events: seq<Event>): (end: System)
    requires Inv(s)
    ensures Inv(end)
    decreases |events|
  {
    if events == [] then s
    else
      StepKeepsInv(s, events[0]);
      RunFrom(Step(s, events[0]), events[1..])
  }

  lemma StartInv()
    ensures Inv(Start())
  {
  }

  ghost function Run(events: seq<Event>): (end: System)
    ensures Inv(end)
  {
    StartInv();
    RunFrom(Start(), events)
  }

  lemma {:induction false} RunFromConcat(s: System, a: seq<Event>, b: seq<Event>)
    requires Inv(s)
    ensures RunFrom(s, a + b) == RunFrom(RunFrom(s, a), b)
    decreases |a|
  {
    if a == [] {
      assert a + b == b;
    } else {
      StepKeepsInv(s, a[0]);
      RunFromConcat(Step(s, a[0]), a[1..], b);
      assert (a + b)[0] == a[0] && (a + b)[1..] == a[1..] + b;
    }
  }

  lemma RunSnoc(events: seq<Event>, e: Event)
    ensures Run(events + [e]) == Step(Run(events), e)
  {
    StartInv();
    RunFromConcat(Start(), events, [e]);
    StepKeepsInv(Run(events), e);
    assert [e][0] == e && [e][1..] == [];
  }

  lemma {:induction false} RunFromGrows(s: System, events: seq<Event>)
    requires Inv(s)
    ensures var end := RunFrom(s, events);
            && s.router.ips <= end.router.ips && s.router.names <= end.router.names
            && s.window.ips <= end.window.ips && s.window.names <= end.window.names
    decreases |events|
  {
    if events != [] {
      StepKeepsInv(s, events[0]);
      RunFromGrows(Step(s, events[0]), events[1..]);
    }
  }

  /**
   * Agreement over every interleaving: the window's lists followed by the pending signals
   * are the service's lists, so with nothing pending the two registries are equal.
   */
  lemma CopiesAgree(events: seq<Event>)
    ensures var s := Run(events);
            && s.window.ips + IpsOf(s.pending) == s.router.ips
            && s.window.names + NamesOf(s.pending) == s.router.names
            && (s.pending == [] ==> s.window.ips == s.router.ips && s.window.names == s.router.names)
  {
    var s := Run(events);
    assert s.pending == [] ==> IpsOf(s.pending) == [] && NamesOf(s.pending) == [];
  }

  function Deliveries(n: nat): seq<Event> {
    seq(n, _ => Deliver)
  }

  lemma {:induction false} DeliveringDrains(s: System)
    requires Inv(s)
    ensures RunFrom(s, Deliveries(|s.pending|)).pending == []
    ensures RunFrom(s, Deliveries(|s.pending|)).router == s.router
    decreases |s.pending|
  {
    var events := Deliveries(|s.pending|);
    if s.pending != [] {
      StepKeepsInv(s, Deliver);
      DeliveringDrains(Step(s, Deliver));
      assert events[0] == Deliver && events[1..] == Deliveries(|s.pending| - 1);
    }
  }

  /** After any run, as many deliveries as there are pending signals make the registries equal. */
  lemma CopiesConverge(events: seq<Event>)
    ensures var s := Run(events);
            var end := Run(events + Deliveries(|s.pending|));
            end.window.ips == s.router.ips == end.router.ips && end.window.names == s.router.names == end.router.names
  {
    var s := Run(events);
    StartInv();
    RunFromConcat(Start(), events, Deliveries(|s.pending|));
    DeliveringDrains(s);
    var end := RunFrom(s, Deliveries(|s.pending|));
    assert IpsOf(end.pending) == [] && NamesOf(end.pending) == [];
  }

  /** The name under which the service forwards a host's datagrams. */
  function RouterName(r: Router, host: string): Option<Name>
    requires |r.ips| == |r.names|
  {
    if host in r.ips then Some(r.names[Find(r.ips, host)]) else None
  }

  /**
   * Any address that the window offers resolves there, and to the name under which the
   * service forwards it, even while later signals are still pending.
   */
  lemma SelectionsResolveAlike(events: seq<Event>, address: string)
    requires address in Run(events).window.choices
    ensures var s := Run(events);
            SelectedName(s.window, address).Some? && SelectedName(s.window, address) == RouterName(s.router, address)
  {
    var s := Run(events);
    var i := Find(s.window.ips, address);
    assert s.router.ips[i] == address && s.router.names[i] == s.window.names[i];
    FindUnique(s.router.ips, address, i);
  }

  /** A host's name never changes once assigned. */
  lemma NamesAreStable(events: seq<Event>, more: seq<Event>, host: string)
    requires host in Run(events).router.ips
    ensures RouterName(Run(events + more).router, host) == RouterName(Run(events).router, host)
  {
    StartInv();
    var s := Run(events);
    RunFromConcat(Start(), events, more);
    RunFromGrows(s, more);
    var end := Run(events + more);
    var i := Find(s.router.ips, host);
    assert end.router.ips[i] == host && end.router.names[i] == s.router.names[i];
    FindUnique(end.router.ips, host, i);
  }

  // ----- the objects -----

  /**
   * The service, the queue and the window as objects, connected before the service
   * starts, and driven by any interleaving: together they are always in the state of the run.
   */
  method Drive(events: seq<Event>) returns (service: RoutingService, queue: SignalQueue, window: GroundSystem)
    ensures service.Valid() && window.Valid()
    ensures System(service.View(), queue.pending, window.View()) == Run(events)
  {
    queue := new SignalQueue();
    service := new RoutingService(queue);
    window := new GroundSystem();
    assert events[..0] == [];
    for i := 0 to |events|
      invariant service.Valid() && window.Valid() && service.queue == queue
      invariant fresh(service) && fresh(queue) && fresh(window)
      invariant System(service.View(), queue.pending, window.View()) == Run(events[..i])
    {
      assert events[..i + 1] == events[..i] + [events[i]];
      RunSnoc(events[..i], events[i]);
      match events[i] {
        case Arrive(input) =>
          service.Receive(input);
        case Deliver =>
          if queue.pending != [] {
            window.Deliver(queue);
          }
      }
    }
    assert events[..|events|] == events;
  }
}
