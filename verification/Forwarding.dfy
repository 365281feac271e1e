// What the service publishes over a whole run, stated without its registry:
// from the received datagrams alone. And which of it reaches a subscriber
// that the window set up at any moment of that run.
module Forwarding {
  import opened Text
  import opened Topics
  import opened Routing
  import opened Interleaving

  datatype Packet = Packet(data: seq<byte>, host: string)

  /** The packet primary header is three words of two bytes. */
  const HEADER_LENGTH: nat := 3 * 2

  /** The packet of a received datagram, if it is long enough to hold a packet header. */
  function PacketOf(e: Event): seq<Packet> {
    match e
    case Arrive(Datagram(data, host)) => if |data| >= HEADER_LENGTH then [Packet(data, host)] else []
    case _ => []
  }

  /** The received datagrams that hold a packet header, in order. */
  function Received(events: seq<Event>): seq<Packet> {
    if events == [] then [] else PacketOf(events[0]) + Received(events[1..])
  }

  /** The first position of a host; the length if there is none. */
  function FirstFrom(ps: seq<Packet>, host: string): (i: nat)
    ensures i <= |ps|
    ensures forall j :: 0 <= j < i ==> ps[j].host != host
    ensures i < |ps| ==> ps[i].host == host
  {
    if ps == [] || ps[0].host == host then 0 else 1 + FirstFrom(ps[1..], host)
  }

  ghost function Hosts(ps: seq<Packet>): set<string> {
    set i | 0 <= i < |ps| :: ps[i].host
  }

  /** The packets that the service forwards: those before the first from a host called "All". */
  function Served(ps: seq<Packet>): seq<Packet> {
    ps[..FirstFrom(ps, ALL)]
  }

  /** A host's number: one more than the count of distinct hosts heard before it. */
  ghost function Number(ps: seq<Packet>, host: string): nat {
    1 + |Hosts(ps[..FirstFrom(ps, host)])|
  }

  ghost function Forwarded(ps: seq<Packet>, i: nat): Message
    requires i < |ps| && |ps[i].data| >= HEADER_LENGTH
  {
    Message(Topic(SpacecraftName(Number(ps, ps[i].host)), PacketId(ps[i].data)), ps[i].data)
  }

  // ----- one more packet -----

  lemma FirstIs(ps: seq<Packet>, host: string, i: nat)
    requires i <= |ps| && (forall j :: 0 <= j < i ==> ps[j].host != host) && (i < |ps| ==> ps[i].host == host)
    ensures FirstFrom(ps, host) == i
  {
    var k := FirstFrom(ps, host);
    assert !(k < i) && !(i < k);
  }

  lemma HostsSnoc(ps: seq<Packet>, p: Packet)
    ensures Hosts(ps + [p]) == Hosts(ps) + {p.host}
  {
    var all := ps + [p];
    assert all[|ps|] == p && forall i :: 0 <= i < |ps| ==> all[i] == ps[i];
    forall h | h in Hosts(ps) + {p.host} ensures h in Hosts(all) {
      if h != p.host {
        var i :| 0 <= i < |ps| && ps[i].host == h;
        assert all[i].host == h;
      }
    }
  }

  /** A later packet leaves the numbers of the hosts already heard; a new host gets the next one. */
  lemma NumberSnoc(ps: seq<Packet>, p: Packet, host: string)
    requires host in Hosts(ps) || host == p.host
    ensures Number(ps + [p], host) == if host in Hosts(ps) then Number(ps, host) else 1 + |Hosts(ps)|
  {
    var all, i := ps + [p], FirstFrom(ps, host);
    FirstIs(all, host, i);
    assert all[..i] == ps[..i];
    if host !in Hosts(ps) { assert ps[..i] == ps; }
  }

  lemma ServedSnoc(ps: seq<Packet>, p: Packet)
    ensures Served(ps + [p]) == if ALL in Hosts(ps) || p.host == ALL then Served(ps) else Served(ps) + [p]
    ensures ALL !in Hosts(ps) ==> Served(ps) == ps
  {
    var all, i := ps + [p], FirstFrom(ps, ALL);
    FirstIs(all, ALL, if i == |ps| && p.host != ALL then i + 1 else i);
  }

  // ----- what the service's state has to do with the packets received -----

  ghost predicate KnowsHosts(ips: seq<string>, ps: seq<Packet>) {
    && |ips| == 1 + |Hosts(ps)| && ips[0] == ALL
    && (forall h | h in Hosts(ps) :: h in ips)
    && forall k :: 1 <= k < |ips| ==> ips[k] in Hosts(ps) && Number(ps, ips[k]) == k
  }

  ghost predicate AllLong(ps: seq<Packet>) {
    forall i :: 0 <= i < |ps| ==> |ps[i].data| >= HEADER_LENGTH
  }

  ghost predicate HasForwarded(published: seq<Message>, ps: seq<Packet>)
    requires AllLong(ps)
  {
    |published| == |ps| && forall i :: 0 <= i < |ps| ==> published[i] == Forwarded(ps, i)
  }

  ghost predicate Tracks(r: Router, ps: seq<Packet>) {
    && AllLong(ps)
    && (r.alive <==> ALL !in Hosts(ps))
    && KnowsHosts(r.ips, Served(ps))
    && HasForwarded(r.published, Served(ps))
  }

  lemma ServedFacts(ps: seq<Packet>)
    ensures ALL !in Hosts(Served(ps)) && (AllLong(ps) ==> AllLong(Served(ps)))
  {
    var served := Served(ps);
    assert forall i :: 0 <= i < |served| ==> served[i] == ps[i];
  }

  lemma KnowsHostsSnoc(ips: seq<string>, ps: seq<Packet>, p: Packet)
    requires KnowsHosts(ips, ps) && ALL !in Hosts(ps) && p.host != ALL
    ensures KnowsHosts(if p.host in ips then ips else ips + [p.host], ps + [p])
  {
    HostsSnoc(ps, p);
    var before, hosts, ips' := Hosts(ps), Hosts(ps + [p]), if p.host in ips then ips else ips + [p.host];
    assert p.host in ips <==> p.host in before;
    if p.host in before { assert before + {p.host} == before; }
    forall k | 1 <= k < |ips'|
      ensures ips'[k] in hosts && Number(ps + [p], ips'[k]) == k
    {
      NumberSnoc(ps, p, ips'[k]);
    }
  }

  lemma HasForwardedSnoc(published: seq<Message>, ps: seq<Packet>, p: Packet)
    requires AllLong(ps) && HasForwarded(published, ps) && |p.data| >= HEADER_LENGTH
    ensures AllLong(ps + [p]) && HasForwarded(published + [Forwarded(ps + [p], |ps|)], ps + [p])
  {
    var all := ps + [p];
    forall i | 0 <= i < |ps|
      ensures Forwarded(all, i) == Forwarded(ps, i)
    {
      assert all[i] == ps[i] && ps[i].host in Hosts(ps);
      NumberSnoc(ps, p, ps[i].host);
    }
  }

  /** The step of a living service on a packet of an ordinary host. */
  lemma ForwardStep(r: Router, ps: seq<Packet>, p: Packet)
    requires RegistryInv(r.ips, r.names) && r.alive && |p.data| >= HEADER_LENGTH && p.host != ALL
    requires KnowsHosts(r.ips, ps) && ALL !in Hosts(ps)
    ensures var r' := RouterStep(r, Datagram(p.data, p.host));
            && r'.alive
            && r'.ips == (if p.host in r.ips then r.ips else r.ips + [p.host])
            && r'.published == r.published + [Forwarded(ps + [p], |ps|)]
  {
    var known, n := Register(r, p.host), Number(ps + [p], p.host);
    KnowsHostsSnoc(r.ips, ps, p);
    HostsSnoc(ps, p);
    assert p.host in known.ips;
    RegisterKeepsInv(r, p.host);
    NameAt(known.ips, known.names, p.host, n);
  }

  lemma RegisterKeepsInv(r: Router, host: string)
    requires RegistryInv(r.ips, r.names)
    ensures RegistryInv(Register(r, host).ips, Register(r, host).names)
  {
  }

  lemma NameAt(ips: seq<string>, names: seq<Name>, host: string, n: nat)
    requires RegistryInv(ips, names) && 1 <= n < |ips| && ips[n] == host
    ensures names[Find(ips, host)] == Bytes(SpacecraftName(n))
  {
    FindUnique(ips, host, n);
  }

  lemma TracksStep(r: Router, ps: seq<Packet>, p: Packet)
    requires RegistryInv(r.ips, r.names) && Tracks(r, ps) && |p.data| >= HEADER_LENGTH
    ensures Tracks(RouterStep(r, Datagram(p.data, p.host)), ps + [p])
  {
    ServedSnoc(ps, p);
    HostsSnoc(ps, p);
    if !r.alive {
    } else if p.host == ALL {
      assert Find(r.ips, ALL) == 0;
    } else {
      ForwardStep(r, ps, p);
      KnowsHostsSnoc(r.ips, ps, p);
      HasForwardedSnoc(r.published, ps, p);
    }
  }

  lemma {:induction false} ReceivedConcat(a: seq<Event>, b: seq<Event>)
    ensures Received(a + b) == Received(a) + Received(b)
  {
    if a == [] {
      assert a + b == b;
    } else {
      ReceivedConcat(a[1..], b);
      assert (a + b)[0] == a[0] && (a + b)[1..] == a[1..] + b;
      Associate(PacketOf(a[0]), Received(a[1..]), Received(b));
    }
  }

  lemma ReceivedSnoc(events: seq<Event>, e: Event)
    ensures Received(events + [e]) == Received(events) + PacketOf(e)
  {
    ReceivedConcat(events, [e]);
    assert Received([e]) == PacketOf(e) + Received([]);
  }

  lemma TracksEvent(s: System, ps: seq<Packet>, e: Event)
    requires Inv(s) && Tracks(s.router, ps)
    ensures Tracks(Step(s, e).router, ps + PacketOf(e))
  {
    match e
    case Arrive(Datagram(data, host)) =>
      if |data| >= HEADER_LENGTH {
        TracksStep(s.router, ps, Packet(data, host));
      } else {
        assert ps + [] == ps;
      }
    case _ =>
      assert ps + [] == ps;
  }

  lemma {:induction false} RunTracks(events: seq<Event>)
    ensures Tracks(Run(events).router, Received(events))
    decreases |events|
  {
    if events != [] {
      var before, e := events[..|events| - 1], events[|events| - 1];
      assert events == before + [e];
      RunTracks(before);
      RunSnoc(before, e);
      ReceivedSnoc(before, e);
      TracksEvent(Run(before), Received(before), e);
    }
  }

  // ----- over every run -----

  /**
   * Conservation: what is published is, in order and once each, every received datagram
   * of at least a packet header's length, unchanged, under a topic that names its own
   * packet identifier and its sender's number, up to the first from a host called "All";
   * the service lives on exactly if there is none. Shorter datagrams and socket errors
   * leave no trace.
   */
  lemma ForwardingConserves(events: seq<Event>)
    ensures var r, ps := Run(events).router, Received(events);
            var served := Served(ps);
            && (r.alive <==> ALL !in Hosts(ps))
            && (r.alive ==> served == ps)
            && |r.published| == |served|
            && (forall i :: 0 <= i < |served| ==>
                  |served[i].data| >= HEADER_LENGTH && r.published[i] == Forwarded(served, i))
            && KnowsHosts(r.ips, served)
  {
    RunTracks(events);
    var ps := Received(events);
    if ALL !in Hosts(ps) { assert FirstFrom(ps, ALL) == |ps|; }
  }

  /** What is published, in the terms of the datagrams alone. */
  lemma PublishedNamesPacket(events: seq<Event>, i: nat)
    requires i < |Run(events).router.published|
    ensures var served, message := Served(Received(events)), Run(events).router.published[i];
            && |served| == |Run(events).router.published| && |served[i].data| >= 2
            && message.payload == served[i].data
            && NamesPacket(message.topic, Number(served, served[i].host), served[i].data)
  {
    RunTracks(events);
    MessageNamesPacket(Run(events).router, Received(events), i);
  }

  lemma MessageNamesPacket(r: Router, ps: seq<Packet>, i: nat)
    requires Tracks(r, ps) && i < |r.published|
    ensures var served := Served(ps);
            && |served| == |r.published| && |served[i].data| >= 2
            && r.published[i].payload == served[i].data
            && NamesPacket(r.published[i].topic, Number(served, served[i].host), served[i].data)
  {
    var served := Served(ps);
    ServedFacts(ps);
    TopicNamesPacket(Number(served, served[i].host), served[i].data);
  }

  /** Six bytes suffice: after any run that leaves the service alive, the datagram is published and its host known. */
  lemma SixBytesSuffice(events: seq<Event>, data: seq<byte>, host: string)
    requires Run(events).router.alive && |data| >= 6 && host != ALL
    ensures var r, r' := Run(events).router, Run(events + [Arrive(Datagram(data, host))]).router;
            && r'.alive && host in r'.ips
            && |r'.published| == |r.published| + 1 && r'.published[..|r.published|] == r.published
            && r'.published[|r.published|].payload == data
  {
    var s := Run(events);
    RunSnoc(events, Arrive(Datagram(data, host)));
    RunTracks(events);
    ServedAll(Received(events));
    ForwardStep(s.router, Received(events), Packet(data, host));
  }

  lemma ServedAll(ps: seq<Packet>)
    requires ALL !in Hosts(ps)
    ensures Served(ps) == ps
  {
    assert FirstFrom(ps, ALL) == |ps|;
  }

  /** One of five bytes leaves everything as it is. */
  lemma FiveBytesDoNot(events: seq<Event>, data: seq<byte>, host: string)
    requires |data| <= 5
    ensures Run(events + [Arrive(Datagram(data, host))]) == Run(events)
  {
    RunSnoc(events, Arrive(Datagram(data, host)));
    var s := Run(events);
    assert s.pending + [] == s.pending;
  }

  // ----- socket errors -----

  /** The socket errors before the first packet from a host called "All". */
  ghost function ErrorsIn(events: seq<Event>): nat {
    if events == [] || ALL in Hosts(PacketOf(events[0])) then 0
    else (if events[0] == Arrive(SocketError) then 1 else 0) + ErrorsIn(events[1..])
  }

  lemma {:induction false} ErrorsSnoc(events: seq<Event>, e: Event)
    ensures ErrorsIn(events + [e]) ==
            ErrorsIn(events) + if ALL !in Hosts(Received(events)) && e == Arrive(SocketError) then 1 else 0
  {
    if events == [] {
      assert [] + [e] == [e] && [e][1..] == [] && ErrorsIn([e][1..]) == 0;
    } else {
      var first, rest := PacketOf(events[0]), events[1..];
      ErrorsSnoc(rest, e);
      assert (events + [e])[0] == events[0] && (events + [e])[1..] == rest + [e];
      HostsConcat(first, Received(rest));
    }
  }

  lemma HostsConcat(ps: seq<Packet>, qs: seq<Packet>)
    ensures Hosts(ps + qs) == Hosts(ps) + Hosts(qs)
  {
    var all := ps + qs;
    assert forall i :: 0 <= i < |ps| ==> all[i] == ps[i];
    assert forall i :: 0 <= i < |qs| ==> all[|ps| + i] == qs[i];
    forall h | h in Hosts(ps) + Hosts(qs)
      ensures h in Hosts(all)
    {
      if h in Hosts(ps) {
        var i :| 0 <= i < |ps| && ps[i].host == h;
        assert all[i].host == h;
      } else {
        var i :| 0 <= i < |qs| && qs[i].host == h;
        assert all[|ps| + i].host == h;
      }
    }
  }

  /** Every socket error is counted while the service lives, and nothing else is. */
  lemma {:induction false} ErrorsCounted(events: seq<Event>)
    ensures Run(events).router.errors == ErrorsIn(events)
    decreases |events|
  {
    if events != [] {
      var before, e := events[..|events| - 1], events[|events| - 1];
      assert events == before + [e];
      ErrorsCounted(before);
      RunSnoc(before, e);
      ErrorsSnoc(before, e);
      RunTracks(before);
    }
  }

  /** Of two hosts heard, each has a number of its own. */
  lemma NumbersDistinct(ps: seq<Packet>, a: string, b: string)
    requires a in Hosts(ps) && b in Hosts(ps)
    ensures Number(ps, a) == Number(ps, b) <==> a == b
  {
    var i, j := FirstFrom(ps, a), FirstFrom(ps, b);
    if i < j {
      EarlierIsSmaller(ps, i, j);
    } else if j < i {
      EarlierIsSmaller(ps, j, i);
    }
  }

  /** By the second of two first sights, one more host has been heard. */
  lemma EarlierIsSmaller(ps: seq<Packet>, i: nat, j: nat)
    requires i < j <= |ps| && ps[i].host !in Hosts(ps[..i])
    ensures |Hosts(ps[..i])| < |Hosts(ps[..j])|
  {
    var first, second := Hosts(ps[..i]), Hosts(ps[..j]);
    assert ps[..j][i] == ps[i];
    forall h | h in first
      ensures h in second
    {
      var k :| 0 <= k < i && ps[..i][k].host == h;
      assert ps[..j][k].host == h;
    }
    assert second == first + (second - first) && ps[i].host in second - first;
  }

  lemma WindowKnowsNumber(events: seq<Event>, address: string)
    requires address in Run(events).window.choices && address != ALL
    ensures var served := Served(Received(events));
            address in Hosts(served) &&
            SelectedName(Run(events).window, address) == Some(Bytes(SpacecraftName(Number(served, address))))
  {
    var s, served := Run(events), Served(Received(events));
    RunTracks(events);
    SelectionsResolveAlike(events, address);
    var i := Find(s.window.ips, address);
    assert s.router.ips[i] == address;
    var k := Number(served, address);
    FindUnique(s.router.ips, address, k);
  }

  lemma NumberStays(ps: seq<Packet>, all: seq<Packet>, host: string)
    requires ps <= all && host in Hosts(ps)
    ensures host in Hosts(all) && Number(all, host) == Number(ps, host)
  {
    var i := FirstFrom(ps, host);
    FirstIs(all, host, i);
    assert all[..i] == ps[..i];
    assert all[i].host == host;
  }

  lemma ServedGrows(ps: seq<Packet>, more: seq<Packet>)
    ensures Served(ps) <= Served(ps + more)
  {
    var i := FirstFrom(ps, ALL);
    var j := FirstFrom(ps + more, ALL);
    assert forall k :: 0 <= k < |ps| ==> (ps + more)[k] == ps[k];
    assert !(j < i);
  }

  lemma NumberSurvives(events: seq<Event>, more: seq<Event>, host: string)
    requires host in Hosts(Served(Received(events)))
    ensures host in Hosts(Served(Received(events + more)))
    ensures Number(Served(Received(events + more)), host) == Number(Served(Received(events)), host)
  {
    ReceivedConcat(events, more);
    ServedGrows(Received(events), Received(more));
    NumberStays(Served(Received(events)), Served(Received(events + more)), host);
  }

  /** The name that the window gives an address stays that host's for the rest of the run. */
  lemma WindowNameSurvives(events: seq<Event>, all: seq<Event>, address: string)
    requires events <= all && address in Run(events).window.choices && address != ALL
    ensures var served := Served(Received(all));
            address in Hosts(served) &&
            SelectedName(Run(events).window, address) == Some(Bytes(SpacecraftName(Number(served, address))))
  {
    assert all == events + all[|events|..];
    WindowKnowsNumber(events, address);
    NumberSurvives(events, all[|events|..], address);
  }

  /** A subscriber receives the messages whose topic its subscription starts. */
  predicate Hears(subscription: string, message: Message) {
    subscription <= message.topic
  }

  lemma HearsIff(name: Name, r: Router, ps: seq<Packet>, address: string, i: nat)
    requires Tracks(r, ps) && address in Hosts(Served(ps)) && i < |r.published|
    requires name == Bytes(SpacecraftName(Number(Served(ps), address)))
    ensures |Served(ps)| == |r.published|
    ensures Hears(Subscription(name.text), r.published[i]) <==> Served(ps)[i].host == address
  {
    var served := Served(ps);
    ServedFacts(ps);
    NumbersDistinct(served, address, served[i].host);
    var n, m, id := Number(served, address), Number(served, served[i].host), PacketId(served[i].data);
    assert r.published[i].topic == Topic(SpacecraftName(m), id);
    TopicIsolation(n, m, id);
  }

  /**
   * From the window to the wire: take the name of an address at any moment of a run, as
   * text. Of everything that the service publishes in that run, before or after that
   * moment, the subscription receives exactly the packets that came from the address.
   */
  lemma SubscriberHearsItsHost(events: seq<Event>, all: seq<Event>, address: string, i: nat)
    requires events <= all && address in Run(events).window.choices && address != ALL
    requires i < |Run(all).router.published|
    ensures var name := SelectedName(Run(events).window, address);
            && name.Some? && |Served(Received(all))| == |Run(all).router.published|
            && (Hears(Subscription(name.value.text), Run(all).router.published[i]) <==>
                Served(Received(all))[i].host == address)
  {
    WindowNameSurvives(events, all, address);
    RunTracks(all);
    HearsIff(SelectedName(Run(events).window, address).value, Run(all).router, Received(all), address, i);
  }

  /**
   * With the names as the window holds them, in bytes for every host but the initial
   * entry, what it launches receives all published messages or none.
   */
  lemma LaunchedHearsAllOrNothing(events: seq<Event>, all: seq<Event>, address: string, i: nat)
    requires events <= all && address in Run(events).window.choices
    requires i < |Run(all).router.published|
    ensures var name := SelectedName(Run(events).window, address);
            && name.Some? && LaunchedSubscription(name.value).Some?
            && (Hears(LaunchedSubscription(name.value).value, Run(all).router.published[i]) <==> address == ALL)
  {
    var served := Served(Received(all));
    ForwardingConserves(all);
    var m, id := Number(served, served[i].host), PacketId(served[i].data);
    SelectionsResolveAlike(events, address);
    if address == ALL {
      LaunchedReachesIff(Chars(ALL), 0, m, id);
      assert Find(Run(events).router.ips, ALL) == 0;
    } else {
      WindowKnowsNumber(events, address);
      var n := Number(Served(Received(events)), address);
      LaunchedReachesIff(Bytes(SpacecraftName(n)), n, m, id);
    }
  }
}
