// The routing service and the main window: the registry that names spacecraft
// on first sight, the forwarding of datagrams, and the window's copy of the
// registry, which is fed through queued signals.
module Routing {
  import opened Text
  import opened Topics

  /** What the service's socket delivers in one round of its loop. */
  datatype Input = Datagram(data: seq<byte>, host: string) | SocketError

  datatype Message = Message(topic: string, payload: seq<byte>)

  datatype Signal = Signal(ip: string, name: Name)

  /** The state of the service; `alive` ends with an error that its loop does not catch. */
  datatype Router = Router(ips: seq<string>, names: seq<Name>, published: seq<Message>, errors: nat, alive: bool)

  /** The window's copy of the registry and the entries of its address list. */
  datatype Window = Window(ips: seq<string>, names: seq<Name>, choices: seq<string>)

  const MIN_LENGTH: nat := 6

  function Find(xs: seq<string>, x: string): (i: nat)
    requires x in xs
    ensures i < |xs| && xs[i] == x
    ensures forall j :: 0 <= j < i ==> xs[j] != x
  {
    if xs[0] == x then 0 else 1 + Find(xs[1..], x)
  }

  // ----- the service -----

  /** The signals that an input makes the service emit: one for a host that it has not seen. */
  function Emitted(r: Router, input: Input): seq<Signal> {
    if r.alive && input.Datagram? && |input.data| >= MIN_LENGTH && input.host !in r.ips then
      [Signal(input.host, Bytes(SpacecraftName(|r.names|)))]
    else []
  }

  function Register(r: Router, host: string): Router {
    if host in r.ips then r
    else r.(ips := r.ips + [host], names := r.names + [Bytes(SpacecraftName(|r.names|))])
  }

  /** Forwarding decodes the host's name; the initial entry is no bytes, which stops the service. */
  function Forward(r: Router, data: seq<byte>, name: Name): Router
    requires |data| >= 2
  {
    match name
    case Chars(_) => r.(alive := false)
    case Bytes(text) => r.(published := r.published + [Message(Topic(text, PacketId(data)), data)])
  }

  function RouterStep(r: Router, input: Input): Router
    requires |r.ips| == |r.names|
  {
    if !r.alive then r
    else match input
      case SocketError => r.(errors := r.errors + 1)
      case Datagram(data, host) =>
        if |data| < MIN_LENGTH then r
        else
          var known := Register(r, host);
          Forward(known, data, known.names[Find(known.ips, host)])
  }

  function InitialRouter(): Router {
    Router([ALL], [Chars(ALL)], [], 0, true)
  }

  /** The signals queued between the service's thread and the window's. */
  class SignalQueue {
    var pending: seq<Signal>

    constructor ()
      ensures pending == []
    {
      pending := [];
    }

    method Emit(signal: Signal)
      modifies this
      ensures pending == old(pending) + [signal]
    {
      pending := pending + [signal];
    }

    method Take() returns (signal: Signal)
      requires pending != []
      modifies this
      ensures signal == old(pending)[0] && pending == old(pending)[1..]
    {
      signal := pending[0];
      pending := pending[1..];
    }
  }

  class RoutingService {
    var ipAddressesList: seq<string>
    var spacecraftNames: seq<Name>
    var published: seq<Message>
    var socketErrorCount: nat
    var alive: bool
    const queue: SignalQueue

    ghost predicate Valid()
      reads this
    {
      |ipAddressesList| == |spacecraftNames|
    }

    ghost function View(): Router
      reads this
    {
      Router(ipAddressesList, spacecraftNames, published, socketErrorCount, alive)
    }

    constructor (queue: SignalQueue)
      ensures Valid() && View() == InitialRouter() && this.queue == queue
      ensures ipAddressesList == ["All"] && spacecraftNames == [Chars("All")]
      ensures published == [] && socketErrorCount == 0 && alive
    {
      ipAddressesList := [ALL];
      spacecraftNames := [Chars(ALL)];
      published := [];
      socketErrorCount := 0;
      alive := true;
      this.queue := queue;
    }

    /** One round of the service's loop. */
    method Receive(input: Input)
      requires Valid()
      modifies this, queue
      ensures Valid() && View() == RouterStep(old(View()), input)
      ensures queue.pending == old(queue.pending) + Emitted(old(View()), input)
    {
      if !alive {
        return;
      }
      match input {
        case SocketError =>
          socketErrorCount := socketErrorCount + 1;
        case Datagram(data, host) =>
          if |data| < MIN_LENGTH {
            return;
          }
          if host !in ipAddressesList {
            var hostname := Bytes(SpacecraftName(|spacecraftNames|));
            ipAddressesList := ipAddressesList + [host];
            spacecraftNames := spacecraftNames + [hostname];
            queue.Emit(Signal(host, hostname));
          }
          ForwardMessage(data, spacecraftNames[Find(ipAddressesList, host)]);
      }
    }

    method ForwardMessage(data: seq<byte>, name: Name)
      requires Valid() && |data| >= MIN_LENGTH
      modifies this
      ensures Valid() && View() == Forward(old(View()), data, name)
    {
      match name {
        case Chars(_) => alive := false;
        case Bytes(text) => published := published + [Message(Topic(text, PacketId(data)), data)];
      }
    }
  }

  // ----- the main window -----

  function InitialWindow(): Window {
    Window([ALL], [Chars(ALL)], [ALL])
  }

  function WindowStep(w: Window, s: Signal): Window {
    Window(w.ips + [s.ip], w.names + [s.name], w.choices + [s.ip])
  }

  /** The name of a selected address; none if the lookup fails. */
  function SelectedName(w: Window, address: string): Option<Name>
    requires |w.ips| == |w.names|
  {
    if address in w.ips then Some(w.names[Find(w.ips, address)]) else None
  }

  class GroundSystem {
    var ipAddressesList: seq<string>
    var spacecraftNames: seq<Name>
    var comboBox: seq<string>

    ghost predicate Valid()
      reads this
    {
      |ipAddressesList| == |spacecraftNames|
    }

    ghost function View(): Window
      reads this
    {
      Window(ipAddressesList, spacecraftNames, comboBox)
    }

    constructor ()
      ensures Valid() && View() == InitialWindow()
      ensures ipAddressesList == ["All"] && spacecraftNames == [Chars("All")] && comboBox == ["All"]
    {
      ipAddressesList := [ALL];
      spacecraftNames := [Chars(ALL)];
      comboBox := [ALL];
    }

    method UpdateIpList(ip: string, name: Name)
      requires Valid()
      modifies this
      ensures Valid() && View() == WindowStep(old(View()), Signal(ip, name))
    {
      ipAddressesList := ipAddressesList + [ip];
      spacecraftNames := spacecraftNames + [name];
      comboBox := comboBox + [ip];
    }

    /** The window's event loop delivers the oldest queued signal. */
    method Deliver(queue: SignalQueue)
      requires Valid() && queue.pending != []
      modifies this, queue
      ensures Valid() && View() == WindowStep(old(View()), old(queue.pending)[0])
      ensures queue.pending == old(queue.pending)[1..]
    {
      var signal := queue.Take();
      UpdateIpList(signal.ip, signal.name);
    }

    method GetSelectedSpacecraftName(address: string) returns (name: Option<Name>)
      requires Valid()
      ensures name == SelectedName(View(), address)
    {
      if address in ipAddressesList {
        name := Some(spacecraftNames[Find(ipAddressesList, address)]);
      } else {
        name := None;
      }
    }

    /** The subscription of the launched telemetry system; none if the lookup fails or the command line is malformed. */
    method StartTlmSystem(address: string) returns (subscription: Option<string>)
      requires Valid()
      ensures var name := SelectedName(View(), address);
              subscription == if name.None? then None else LaunchedSubscription(name.value)
    {
      var name := GetSelectedSpacecraftName(address);
      match name {
        case None => subscription := None;
        case Some(selected) =>
          if selected == Chars(ALL) {
            subscription := Some("GroundSystem");
          } else {
            subscription := Unquoted("GroundSystem." + Rendered(selected) + ".TelemetryPackets", false);
          }
      }
    }

    /** The file manager's subscription; none if the lookup fails or nothing but "All" is selected. */
    method StartFdlSystem(address: string) returns (subscription: Option<string>)
      requires Valid()
      ensures var name := SelectedName(View(), address);
              subscription == if name.None? then None else LaunchedFileSubscription(name.value)
    {
      var name := GetSelectedSpacecraftName(address);
      if name.None? || name.value == Chars(ALL) {
        subscription := None;
      } else {
        subscription := Some("GroundSystem." + Rendered(name.value));
      }
    }
  }
}
