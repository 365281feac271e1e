// The configuration: a list of serial interface descriptions, and what it means
// independently of any generated file. The numbering functions here count over
// the ready entries once; the generated files must agree with them.
module Interfaces {
  import opened Text

  /** The `type` key. `Other` is any text that is not one of the nine known types. */
  datatype Kind = I2c | Spi | Uart | Rs232 | Rs422 | Rs485 | Can | Socat | Gpio | Other(text: string)

  /** One element of the configuration. Keys that only some types carry may be absent. */
  datatype Interface = Interface(
    kind: Kind, ready: bool, name: string, devName: string,
    baudrate: Option<nat>, speed: Option<nat>, mode: Option<nat>, line: Option<nat>, initial: Option<nat>)

  /** The eight types whose entries own a slot of the handle table. */
  predicate IsGeneral(kind: Kind) {
    !kind.Gpio? && !kind.Other?
  }

  predicate IsKnown(kind: Kind) {
    !kind.Other?
  }

  /** The keys that the entry's type makes the generator look up are present. */
  predicate HasKeys(e: Interface) {
    match e.kind
    case Spi => e.speed.Some? && e.mode.Some?
    case Uart => e.baudrate.Some?
    case Rs232 => e.baudrate.Some?
    case Rs422 => e.baudrate.Some?
    case Rs485 => e.baudrate.Some?
    case Gpio => e.line.Some? && e.initial.Some?
    case _ => true
  }

  /** The ready entries, in configuration order. */
  function Ready(es: seq<Interface>): (rs: seq<Interface>)
    ensures forall i :: 0 <= i < |rs| ==> rs[i].ready && rs[i] in es
  {
    if es == [] then []
    else if es[0].ready then [es[0]] + Ready(es[1..])
    else Ready(es[1..])
  }

  function GeneralCount(es: seq<Interface>): nat {
    if es == [] then 0 else GeneralCount(es[1..]) + if es[0].ready && IsGeneral(es[0].kind) then 1 else 0
  }

  function GpioCount(es: seq<Interface>): nat {
    if es == [] then 0 else GpioCount(es[1..]) + if es[0].ready && es[0].kind.Gpio? then 1 else 0
  }

  lemma {:induction false} ReadyConcat(a: seq<Interface>, b: seq<Interface>)
    ensures Ready(a + b) == Ready(a) + Ready(b)
  {
    if a == [] {
      assert a + b == b;
    } else {
      ReadyConcat(a[1..], b);
      assert (a + b)[1..] == a[1..] + b;
    }
  }

  lemma {:induction false} CountConcat(a: seq<Interface>, b: seq<Interface>)
    ensures GeneralCount(a + b) == GeneralCount(a) + GeneralCount(b)
    ensures GpioCount(a + b) == GpioCount(a) + GpioCount(b)
  {
    if a == [] {
      assert a + b == b;
    } else {
      CountConcat(a[1..], b);
      assert (a + b)[1..] == a[1..] + b;
    }
  }

  lemma {:induction false} CountReady(es: seq<Interface>)
    ensures GeneralCount(Ready(es)) == GeneralCount(es)
    ensures GpioCount(Ready(es)) == GpioCount(es)
  {
    if es != [] {
      CountReady(es[1..]);
      if es[0].ready {
        assert Ready(es)[1..] == Ready(es[1..]);
      }
    }
  }

  /** With known types only, the two counts add up to the number of ready entries. */
  lemma {:induction false} CountsPartition(es: seq<Interface>)
    requires forall i :: 0 <= i < |es| && es[i].ready ==> IsKnown(es[i].kind)
    ensures GeneralCount(es) + GpioCount(es) == |Ready(es)|
  {
    if es != [] {
      CountsPartition(es[1..]);
    }
  }
}
