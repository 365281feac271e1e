// What a configuration means directly: which devices are initialised, in which
// order and with which arguments, and what is reported. No generated text, no
// identifier and no table lookup takes part in this.
module Booting {
  import opened Interfaces
  import opened Linking

  /** The types for which both the tool and the serial module have a device type. */
  predicate Supported(kind: Kind) {
    !kind.Other? && !kind.Rs232? && !kind.Rs485?
  }

  ghost predicate AllSupported(es: seq<Interface>) {
    forall i :: 0 <= i < |es| && es[i].ready ==> Supported(es[i].kind)
  }

  /** The rate and mode of a general entry, as the device receives them. */
  function General(e: Interface, slot: nat, deviceType: nat, rate: nat, mode: nat): Call {
    HandleInit(slot, e.name, e.devName, deviceType, slot % 0x100, rate % 0x1_0000_0000, mode % 0x100)
  }

  function CallFor(e: Interface, slot: nat, pin: nat): Call
    requires Supported(e.kind) && HasKeys(e)
  {
    match e.kind
    case I2c => General(e, slot, 1, 0, 0)
    case Spi => General(e, slot, 2, e.speed.value, e.mode.value)
    case Can => General(e, slot, 3, 0, 0)
    case Uart => General(e, slot, 4, e.baudrate.value, 0)
    case Rs422 => General(e, slot, 5, e.baudrate.value, 0)
    case Socat => General(e, slot, 4, 115200, 0)
    case Gpio => GpioInit(pin, e.devName, e.line.value % 0x1_0000_0000, e.name, e.initial.value != 0)
  }

  function FailureNote(e: Interface): Event {
    Logged((if e.kind.Gpio? then "%s: GPIO " else "%s: ") + e.name + " Initialization failed! RC=%d\\n", [])
  }

  /** Reporting success reads the entry's own slot, for its descriptor and its path. */
  function SuccessNote(e: Interface, slot: nat): Event {
    Logged("%s: " + e.name + " Initialized. FD=%d" + " || DevName=%s\\n", [slot, slot])
  }

  /**
   * Initialise the ready entries in order. The next slot, pin and position count
   * the ready general, GPIO and all entries passed so far; the first failure ends
   * the boot with the code of its position.
   */
  function BootFrom(es: seq<Interface>, slot: nat, pin: nat, position: nat, calls: seq<Call>, events: seq<Event>,
                    devices: Devices): (out: Outcome)
    requires AllSupported(es) && forall i :: 0 <= i < |es| && es[i].ready ==> HasKeys(es[i])
    ensures out.Finished?
    decreases |es|
  {
    if es == [] then Finished(events, CFE_SUCCESS)
    else if !es[0].ready then BootFrom(es[1..], slot, pin, position, calls, events, devices)
    else
      var e := es[0];
      var call := CallFor(e, slot, pin);
      var status := devices(calls + [call]);
      var after := events + [Called(call, status)];
      if status != CFE_SUCCESS then Finished(after + [FailureNote(e)], SerialError(90 + position))
      else if e.kind.Gpio? then BootFrom(es[1..], slot, pin + 1, position + 1, calls + [call], after, devices)
      else BootFrom(es[1..], slot + 1, pin, position + 1, calls + [call], after + [SuccessNote(e, slot)], devices)
  }

  /** The whole boot: prior initialisation, whose failure is returned as it is, then the entries. */
  function Boot(es: seq<Interface>, devices: Devices): (out: Outcome)
    requires AllSupported(es) && forall i :: 0 <= i < |es| && es[i].ready ==> HasKeys(es[i])
    ensures out.Finished?
  {
    var status := devices([PriorInit]);
    var events := [Called(PriorInit, status)];
    if status != CFE_SUCCESS then Finished(events, status)
    else BootFrom(es, 0, 0, 0, [PriorInit], events + [Logged("%s: Prior Initialized.", [])], devices)
  }
}
