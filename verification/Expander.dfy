/** The expander's functions on their state: a register behind two locks, and many ways to fail. */
module Expander {
  import opened I2cPorts
  import T = I2cTasks

  datatype Err = Ok | Timeout | Failed

  /** What happens around one transaction: whether the port's lock comes in time, and the calls. */
  datatype Trip = Trip(timely: bool, calls: Calls)

  /** One transaction on values: the port afterwards, the result, and whether the command got through. */
  function Transaction(p: Port, d: I2cPorts.Device, longest: nat, free: bool, t: Trip): (Port, Err, bool) {
    if !free || !t.timely then (p, Timeout, false) else
      var (q, ready) := SetUp(p, Compare, d, longest, t.calls);
      var reached := ready && q.driver.present;
      (q, if reached && t.calls.commandOk then Ok else Failed, reached)
  }

  /** It times out exactly without the port's lock, and is fine exactly if the set-up succeeds, a driver
      is there, and the command works. */
  lemma TransactionOutcome(p: Port, d: I2cPorts.Device, longest: nat, free: bool, t: Trip)
    ensures var (q, err, reached) := Transaction(p, d, longest, free, t);
            var (r, ready) := SetUp(p, Compare, d, longest, t.calls);
            && (err == Timeout <==> !(free && t.timely))
            && (err == Ok <==> reached && t.calls.commandOk)
            && (reached <==> err != Timeout && ready && r.driver.present)
            && q == (if err == Timeout then p else r)
  {
  }

  /** A transaction that leaves the driver to a configuration that is not its own. */
  predicate Mislays(p: Port, d: I2cPorts.Device, free: bool, t: Trip) {
    free && t.timely && Stuck(p, Compare, d, t.calls)
  }

  class Mutex {
    var held: bool

    method Take(timely: bool) returns (ok: bool)
      modifies this
      ensures ok == (timely && !old(held)) && held == (old(held) || ok)
    {
      ok := timely && !held;
      held := held || ok;
    }

    method Give()
      requires held
      modifies this
      ensures !held
    {
      held := false;
    }
  }

  class Device {
    const descriptor: I2cPorts.Device
    const mutex: Mutex
    const portLock: Mutex
    const port: PortState
    const longest: nat
    /** The output register of the chip. */
    var out: bv8

    constructor (descriptor: I2cPorts.Device, mutex: Mutex, portLock: Mutex, port: PortState, longest: nat, out: bv8)
      requires mutex != portLock
      ensures Valid() && this.descriptor == descriptor && this.mutex == mutex && this.portLock == portLock
      ensures this.port == port && this.longest == longest && this.out == out
    {
      this.descriptor, this.mutex, this.portLock := descriptor, mutex, portLock;
      this.port, this.longest, this.out := port, longest, out;
    }

    predicate Valid() {
      mutex != portLock
    }

    /** One transaction: the port's lock, the set-up, the command, and the lock back. `reached` tells
        whether the command got through to the chip. */
    method Transact(t: Trip) returns (err: Err, reached: bool)
      modifies portLock, port, port.driver
      ensures portLock.held == old(portLock.held)
      ensures old(Coherent(port.Value())) ==>
                (Coherent(port.Value()) <==> !Mislays(old(port.Value()), descriptor, !old(portLock.held), t))
      ensures (port.Value(), err, reached) ==
              Transaction(old(port.Value()), descriptor, longest, !old(portLock.held), t)
      ensures reached && old(Coherent(port.Value())) ==>
                port.driver.present && Agrees(port.Value(), descriptor, longest)
    {
      var locked := portLock.Take(t.timely);
      if !locked {
        return Timeout, false;
      }
      var ready := port.Setup(descriptor, longest, t.calls);
      reached := ready && port.driver.present;
      err := if reached && t.calls.commandOk then Ok else Failed;
      portLock.Give();
    }

    /** `tca9534_set_level`: on every return the locks are as before; on success exactly the pin
        has changed; on failure the register is either untouched or, if the write reached the chip
        although it was reported failed, as intended. */
    method SetLevel(pin: nat, high: bool, timely: bool, first: Trip, second: Trip) returns (err: Err)
      requires Valid()
      modifies mutex, portLock, port, port.driver, this
      ensures mutex.held == old(mutex.held) && portLock.held == old(portLock.held)
      ensures old(Coherent(port.Value())) ==>
                var free := !old(portLock.held);
                var (p, e, _) := Transaction(old(port.Value()), descriptor, longest, free, first);
                (Coherent(port.Value()) <==>
                  (!old(mutex.held) && timely ==>
                     && !Mislays(old(port.Value()), descriptor, free, first)
                     && !(e == Ok && Mislays(p, descriptor, free, second))))
      ensures out == old(out) || out == T.WithLevel(old(out), pin, high)
      ensures err == Ok ==> out == T.WithLevel(old(out), pin, high)
      ensures err != Ok && !second.calls.effect ==> out == old(out)
      ensures var free := !old(portLock.held);
              var (p, e, _) := Transaction(old(port.Value()), descriptor, longest, free, first);
              err == if old(mutex.held) || !timely then Timeout
                     else if e != Ok then e
                     else Transaction(p, descriptor, longest, free, second).1
    {
      var locked := mutex.Take(timely);
      if !locked {
        return Timeout;
      }
      var reached;
      err, reached := Transact(first);
      if err != Ok {
        mutex.Give();
        return;
      }
      var v := out;
      v := T.WithLevel(v, pin, high);
      err, reached := Transact(second);
      if reached && (second.calls.commandOk || second.calls.effect) {
        out := v;
      }
      mutex.Give();
    }

    method WriteOut(value: bv8, timely: bool, trip: Trip) returns (err: Err)
      requires Valid()
      modifies mutex, portLock, port, port.driver, this
      ensures mutex.held == old(mutex.held) && portLock.held == old(portLock.held)
      ensures old(Coherent(port.Value())) ==>
                (Coherent(port.Value()) <==>
                  (!old(mutex.held) && timely ==> !Mislays(old(port.Value()), descriptor, !old(portLock.held), trip)))
      ensures out == old(out) || out == value
      ensures err == Ok ==> out == value
      ensures err != Ok && !trip.calls.effect ==> out == old(out)
      ensures err == if old(mutex.held) || !timely then Timeout
                     else Transaction(old(port.Value()), descriptor, longest, !old(portLock.held), trip).1
    {
      var locked := mutex.Take(timely);
      if !locked {
        return Timeout;
      }
      var reached;
      err, reached := Transact(trip);
      if reached && (trip.calls.commandOk || trip.calls.effect) {
        out := value;
      }
      mutex.Give();
    }

    method ReadOut(timely: bool, trip: Trip) returns (err: Err, value: bv8)
      requires Valid()
      modifies mutex, portLock, port, port.driver
      ensures mutex.held == old(mutex.held) && portLock.held == old(portLock.held)
      ensures old(Coherent(port.Value())) ==>
                (Coherent(port.Value()) <==>
                  (!old(mutex.held) && timely ==> !Mislays(old(port.Value()), descriptor, !old(portLock.held), trip)))
      ensures err == Ok ==> value == out
      ensures err == if old(mutex.held) || !timely then Timeout
                     else Transaction(old(port.Value()), descriptor, longest, !old(portLock.held), trip).1
    {
      value := 0;
      var locked := mutex.Take(timely);
      if !locked {
        return Timeout, value;
      }
      var reached;
      err, reached := Transact(trip);
      if err == Ok {
        value := out;
      }
      mutex.Give();
    }
  }
}
