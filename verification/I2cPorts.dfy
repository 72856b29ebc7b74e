/** One I2C port: the driver of the SDK, and the cache of what it is configured with. */
module I2cPorts {

  /** A driver configuration; the comparison in the code leaves out `mode`. */
  datatype Cfg = Cfg(scl: int, sda: int, clock: nat, sclPullup: bool, sdaPullup: bool, mode: int)

  const MODE_MASTER := 1

  /** What a cleared cache holds. */
  const ZERO_CFG := Cfg(0, 0, 0, false, false, 0)

  datatype Device = Device(port: nat, cfg: Cfg, timeoutTicks: nat)

  predicate Same(a: Cfg, b: Cfg) {
    a.(mode := 0) == b.(mode := 0)
  }

  function Master(c: Cfg): Cfg {
    c.(mode := MODE_MASTER)
  }

  /** The bus timeout a device wants; zero stands for the longest there is. */
  function Ticks(d: Device, longest: nat): nat {
    if d.timeoutTicks != 0 then d.timeoutTicks else longest
  }

  /** The SDK's driver: whether it is installed, and the registers it was set up with. */
  datatype Driver = Driver(present: bool, cfg: Cfg, timeout: nat)

  datatype Port = Port(config: Cfg, installed: bool, driver: Driver)

  function Cleared(): Port {
    Port(ZERO_CFG, false, Driver(false, ZERO_CFG, 0))
  }

  /** What the SDK calls of one transaction do; setting up may leave any timeout behind. A write
      that fails may still have reached the device. */
  datatype Calls = Calls(deleteOk: bool, paramOk: bool, paramTimeout: nat, installOk: bool, installTimeout: nat,
                         getOk: bool, setOk: bool, commandOk: bool, effect: bool)

  /** Where the owner of a port is in a transaction. */
  datatype Pc = Compare | Delete | Param | Install | Record | GetTimeout | SetTimeout | Command | Leave(ok: bool)

  /** Deleting the driver; the code does not look at the result. */
  function Deleted(p: Port, ok: bool): Port {
    p.(driver := p.driver.(present := p.driver.present && !ok))
  }

  /** One step of `i2c_setup_port` and of the command that follows it. */
  function Step(p: Port, pc: Pc, d: Device, longest: nat, c: Calls): (Port, Pc) {
    match pc
    case Compare => (p, if Same(d.cfg, p.config) then GetTimeout else if p.installed then Delete else Param)
    case Delete => (Deleted(p, c.deleteOk), Param)
    case Param =>
      if c.paramOk then (p.(driver := p.driver.(cfg := Master(d.cfg), timeout := c.paramTimeout)), Install)
      else (p, Leave(false))
    case Install =>
      if c.installOk && !p.driver.present then
        (p.(driver := p.driver.(present := true, timeout := c.installTimeout)), Record)
      else (p, Leave(false))
    case Record => (p.(config := Master(d.cfg), installed := true), GetTimeout)
    case GetTimeout =>
      (p, if !c.getOk then Leave(false) else if p.driver.timeout != Ticks(d, longest) then SetTimeout else Command)
    case SetTimeout =>
      if c.setOk then (p.(driver := p.driver.(timeout := Ticks(d, longest))), Command) else (p, Leave(false))
    case Command => (p, Leave(c.commandOk && p.driver.present))
    case Leave(_) => (p, pc)
  }

  /** At rest: a driver that is present is the one the cache describes. */
  predicate Coherent(p: Port) {
    p.driver.present ==> p.installed && p.driver.cfg == p.config
  }

  /** What holds while the owner of the port, working for `d`, is at a given step. */
  predicate Midway(p: Port, pc: Pc, d: Device, longest: nat) {
    match pc
    case Compare => Coherent(p)
    case Delete => Coherent(p) && !Same(d.cfg, p.config)
    case Param => Coherent(p) && !Same(d.cfg, p.config)
    case Install => !p.driver.present && p.driver.cfg == Master(d.cfg)
    case Record => p.driver.cfg == Master(d.cfg)
    case GetTimeout => Coherent(p) && Same(d.cfg, p.config)
    case SetTimeout => Coherent(p) && Same(d.cfg, p.config)
    case Command => Coherent(p) && Same(d.cfg, p.config) && p.driver.timeout == Ticks(d, longest)
    case Leave(_) => Coherent(p)
  }

  /** The driver has the pins, the clock, the pull-ups and the timeout that the device asks for. */
  predicate Serves(driver: Driver, d: Device, longest: nat) {
    && driver.cfg.scl == d.cfg.scl && driver.cfg.sda == d.cfg.sda && driver.cfg.clock == d.cfg.clock
    && driver.cfg.sclPullup == d.cfg.sclPullup && driver.cfg.sdaPullup == d.cfg.sdaPullup
    && (d.timeoutTicks > 0 ==> driver.timeout == d.timeoutTicks)
    && (d.timeoutTicks == 0 ==> driver.timeout == longest)
  }

  /** A command meets no driver but one that its device asked for. */
  predicate Agrees(p: Port, d: Device, longest: nat) {
    p.driver.present ==> Serves(p.driver, d, longest)
  }

  /** The cache is taken for right if the pins, the clock and the pull-ups are, and only then. */
  predicate Fits(config: Cfg, d: Device) {
    && config.scl == d.cfg.scl && config.sda == d.cfg.sda && config.clock == d.cfg.clock
    && config.sclPullup == d.cfg.sclPullup && config.sdaPullup == d.cfg.sdaPullup
  }

  /** A driver that survived its deletion takes the registers of another configuration. */
  predicate Sticks(p: Port, pc: Pc, c: Calls) {
    pc == Param && p.driver.present && c.paramOk
  }

  /** Each step keeps that, whatever fails, unless it is this one; and this one does not. */
  lemma StepKeepsMidway(p: Port, pc: Pc, d: Device, longest: nat, c: Calls)
    requires Midway(p, pc, d, longest)
    ensures Midway(Step(p, pc, d, longest, c).0, Step(p, pc, d, longest, c).1, d, longest) <==> !Sticks(p, pc, c)
    ensures Sticks(p, pc, c) ==> !Coherent(Step(p, pc, d, longest, c).0)
    ensures pc == Command ==> Agrees(p, d, longest)
  {
  }

  /** The driver, if there is one, has the configuration in the cache, whether the flag is set or not. */
  predicate Matches(p: Port) {
    p.driver.present ==> Same(p.driver.cfg, p.config)
  }

  /** What holds at a given step as long as the driver has not gone astray. */
  predicate OnCourse(p: Port, pc: Pc, d: Device, longest: nat) {
    match pc
    case Compare => Matches(p)
    case Delete => Matches(p) && !Same(d.cfg, p.config)
    case Param => Matches(p) && !Same(d.cfg, p.config)
    case Install => !p.driver.present && p.driver.cfg == Master(d.cfg)
    case Record => p.driver.cfg == Master(d.cfg)
    case GetTimeout => Matches(p) && Same(d.cfg, p.config)
    case SetTimeout => Matches(p) && Same(d.cfg, p.config)
    case Command => Matches(p) && Same(d.cfg, p.config) && p.driver.timeout == Ticks(d, longest)
    case Leave(_) => Matches(p)
  }

  /** And once it has. */
  predicate OffCourse(p: Port, pc: Pc, d: Device) {
    && p.driver.present && !Same(p.driver.cfg, p.config)
    && match pc
       case Delete => !Same(d.cfg, p.config)
       case Param => !Same(d.cfg, p.config)
       case Record => false
       case GetTimeout => Same(d.cfg, p.config)
       case SetTimeout => Same(d.cfg, p.config)
       case Command => Same(d.cfg, p.config)
       case _ => true
  }

  /** A driver goes astray by taking the parameters of another configuration while it is installed,
      and stays so for as long as it is there. */
  lemma {:induction false} StepKeepsCourse(p: Port, pc: Pc, d: Device, longest: nat, c: Calls)
    ensures var (q, next) := Step(p, pc, d, longest, c);
            && (OnCourse(p, pc, d, longest) ==>
                  if Sticks(p, pc, c) then OffCourse(q, next, d) else OnCourse(q, next, d, longest))
            && (OffCourse(p, pc, d) ==>
                  if q.driver.present then OffCourse(q, next, d) else OnCourse(q, next, d, longest))
    ensures Sticks(p, pc, c) ==> Step(p, pc, d, longest, c).0.driver.present
  {
  }

  /** At the command: only a driver that is on course is the device's. */
  lemma CourseDecides(p: Port, d: Device, longest: nat)
    ensures OnCourse(p, Command, d, longest) ==> Agrees(p, d, longest)
    ensures OffCourse(p, Command, d) ==> !Agrees(p, d, longest)
  {
  }

  /** Every call works. */
  predicate Works(c: Calls) {
    c.deleteOk && c.paramOk && c.installOk && c.getOk && c.setOk && c.commandOk
  }

  /** While no call has failed: the cache is in use exactly if the driver is there. */
  predicate Healthy(p: Port, pc: Pc) {
    match pc
    case Delete => p.installed
    case Param => !p.driver.present && (p.installed || p.config == ZERO_CFG)
    case Install => p.installed || p.config == ZERO_CFG
    case Record => p.driver.present
    case Leave(ok) => ok && p.installed == p.driver.present && (p.installed || p.config == ZERO_CFG)
    case _ => p.installed == p.driver.present && (p.installed || p.config == ZERO_CFG)
  }

  lemma StepKeepsHealth(p: Port, pc: Pc, d: Device, longest: nat, c: Calls)
    requires Midway(p, pc, d, longest) && Healthy(p, pc) && Works(c) && d.cfg.clock != 0
    ensures Healthy(Step(p, pc, d, longest, c).0, Step(p, pc, d, longest, c).1)
    ensures pc == Command ==> p.driver.present
  {
  }

  function Rank(pc: Pc): nat {
    match pc
    case Compare => 8 case Delete => 7 case Param => 6 case Install => 5 case Record => 4
    case GetTimeout => 3 case SetTimeout => 2 case Command => 1 case Leave(_) => 0
  }

  /** Setting up without interference, until the command can be issued or a call has failed. */
  function SetUp(p: Port, pc: Pc, d: Device, longest: nat, c: Calls): (Port, bool)
    decreases Rank(pc)
  {
    if pc == Command || pc.Leave? then (p, pc == Command) else
      var (q, next) := Step(p, pc, d, longest, c);
      SetUp(q, next, d, longest, c)
  }

  /** Setting up from `pc` on lets a driver survive that then takes another configuration. */
  predicate Stuck(p: Port, pc: Pc, d: Device, c: Calls) {
    match pc
    case Compare => p.driver.present && !Same(d.cfg, p.config) && !c.deleteOk && c.paramOk
    case Delete => p.driver.present && !c.deleteOk && c.paramOk
    case Param => Sticks(p, Param, c)
    case _ => false
  }

  /** The steps of a set-up that comes to this. */
  lemma {:induction false} StuckFails(p: Port, pc: Pc, d: Device, longest: nat, c: Calls)
    requires Midway(p, pc, d, longest) && Stuck(p, pc, d, c)
    ensures SetUp(p, pc, d, longest, c) ==
            (p.(driver := p.driver.(cfg := Master(d.cfg), timeout := c.paramTimeout)), false)
    decreases Rank(pc)
  {
    if pc != Param {
      var (q, next) := Step(p, pc, d, longest, c);
      StuckFails(q, next, d, longest, c);
    } else {
      assert SetUp(Step(p, Param, d, longest, c).0, Install, d, longest, c).1 == false;
    }
  }

  /** Whatever fails, a set-up that succeeds leaves the driver as its device wants it. */
  lemma {:induction false} SetUpAgrees(p: Port, pc: Pc, d: Device, longest: nat, c: Calls)
    requires Midway(p, pc, d, longest)
    ensures var (q, ok) := SetUp(p, pc, d, longest, c); ok ==> Agrees(q, d, longest)
    decreases Rank(pc)
  {
    if Stuck(p, pc, d, c) {
      StuckFails(p, pc, d, longest, c);
    } else if pc != Command && !pc.Leave? {
      StepKeepsMidway(p, pc, d, longest, c);
      var (q, next) := Step(p, pc, d, longest, c);
      SetUpAgrees(q, next, d, longest, c);
    }
  }

  /** And it keeps the cache coherent, whether it succeeds or not, exactly if no driver is stuck. */
  lemma {:induction false} StaysCoherentIff(p: Port, pc: Pc, d: Device, longest: nat, c: Calls)
    requires Midway(p, pc, d, longest)
    ensures Coherent(SetUp(p, pc, d, longest, c).0) <==> !Stuck(p, pc, d, c)
    decreases Rank(pc)
  {
    if Stuck(p, pc, d, c) {
      StuckFails(p, pc, d, longest, c);
    } else if pc != Command && !pc.Leave? {
      StepKeepsMidway(p, pc, d, longest, c);
      var (q, next) := Step(p, pc, d, longest, c);
      StaysCoherentIff(q, next, d, longest, c);
    }
  }

  /** A set-up leaves driver and cache alone if the cache fits the device. It succeeds then if the
      timeout can be read and, where it is another, set. */
  lemma {:induction false} SetUpOfFitting(p: Port, d: Device, longest: nat, c: Calls)
    requires Fits(p.config, d)
    ensures var (q, ok) := SetUp(p, Compare, d, longest, c);
            var ticks := if d.timeoutTicks > 0 then d.timeoutTicks else longest;
            && q.config == p.config && q.installed == p.installed
            && q.driver.present == p.driver.present && q.driver.cfg == p.driver.cfg
            && (ok <==> c.getOk && (p.driver.timeout == ticks || c.setOk))
            && q.driver.timeout == (if ok then ticks else p.driver.timeout)
  {
    SetUpTimes(p, d, longest, c);
  }

  /** Otherwise it succeeds exactly if every call does that is made on the way, and then a driver is
      installed as a master with what the device asks for, and recorded. */
  lemma {:induction false} SetUpOfOther(p: Port, d: Device, longest: nat, c: Calls)
    requires Coherent(p) && !Fits(p.config, d)
    ensures var (q, ok) := SetUp(p, Compare, d, longest, c);
            var ticks := if d.timeoutTicks > 0 then d.timeoutTicks else longest;
            && (ok <==> (!p.driver.present || c.deleteOk) && c.paramOk && c.installOk
                        && c.getOk && (c.installTimeout == ticks || c.setOk))
            && (ok ==>
                  q.driver.present && q.installed && q.config == q.driver.cfg && q.driver.cfg.mode == 1
                  && Serves(q.driver, d, longest))
  {
    SetUpReconfigures(p, d, longest, c);
    var q := Step(Step(if p.installed then Deleted(p, c.deleteOk) else p, Param, d, 0, c).0, Install, d, 0, c).0;
    SetUpTimes(Step(q, Record, d, 0, c).0, d, longest, c);
  }

  /** `installed` is set and no driver is there: so after a set-up exactly if the flag was set and
      either there was nothing to do, or the driver went and another did not come. */
  lemma {:induction false} StaleIff(p: Port, d: Device, longest: nat, c: Calls)
    requires Coherent(p)
    ensures var q := SetUp(p, Compare, d, longest, c).0;
            q.installed && !q.driver.present <==>
            p.installed && if Same(d.cfg, p.config) then !p.driver.present
                           else (!p.driver.present || c.deleteOk) && !(c.paramOk && c.installOk)
  {
    if Same(d.cfg, p.config) {
      SetUpTimes(p, d, longest, c);
    } else {
      SetUpReconfigures(p, d, longest, c);
      var q := Step(Step(if p.installed then Deleted(p, c.deleteOk) else p, Param, d, 0, c).0, Install, d, 0, c).0;
      SetUpTimes(Step(q, Record, d, 0, c).0, d, longest, c);
    }
  }

  /** The shortest way there: the driver is deleted and the parameters are refused. */
  lemma {:induction false} InstalledCanBeStale(p: Port, d: Device, longest: nat, c: Calls)
    requires p.installed && !Same(d.cfg, p.config) && c.deleteOk && !c.paramOk
    ensures var (q, ok) := SetUp(p, Compare, d, longest, c); !ok && q.installed && !q.driver.present
  {
  }

  /** When one is, the next device of the old configuration is set up with success, and wrongly. */
  lemma {:induction false} StuckDriverMisleads(p: Port, d: Device, longest: nat, c: Calls, e: Device, f: Calls)
    requires Coherent(p) && Stuck(p, Compare, d, c) && Same(e.cfg, p.config) && f.getOk && f.setOk
    ensures var q := SetUp(p, Compare, d, longest, c).0;
            var (r, ok) := SetUp(q, Compare, e, longest, f);
            ok && r.driver.present && !Agrees(r, e, longest)
  {
    SetUpReconfigures(p, d, longest, c);
    var q := SetUp(p, Compare, d, longest, c).0;
    SetUpTimes(q, e, longest, f);
  }

  // ---------------------------------------------------------------------------------------------
  // Shutting down and starting.
  // ---------------------------------------------------------------------------------------------

  /** Shutting down deletes a driver that the cache knows of; the cached configuration stays. */
  function ShutDown(p: Port, deleteOk: bool): Port {
    if p.installed then Deleted(p, deleteOk).(installed := false) else p
  }

  /** Starting clears the cache and does not touch the driver. */
  function StartUp(p: Port): Port {
    Port(ZERO_CFG, false, p.driver)
  }

  /** Afterwards no driver is known; it is gone if its deletion worked, and the cached configuration is
      still there. */
  lemma ShutDownForgets(p: Port, deleteOk: bool)
    requires Coherent(p)
    ensures var q := ShutDown(p, deleteOk);
            !q.installed && q.config == p.config && (q.driver.present <==> p.driver.present && !deleteOk)
  {
  }

  function Restarted(p: Port, deleteOk: bool): Port {
    StartUp(ShutDown(p, deleteOk))
  }

  /** Nor does shutting down look at the result: a driver that survives is forgotten. */
  lemma RestartIsCoherentIff(p: Port, deleteOk: bool)
    requires Coherent(p)
    ensures Coherent(Restarted(p, deleteOk)) <==> !p.driver.present || deleteOk
    ensures Coherent(Restarted(p, deleteOk)) ==> Restarted(p, deleteOk) == StartUp(p).(driver := p.driver.(present := false))
  {
  }

  /** A driver that outlives a restart is astray unless its configuration happens to be the cleared one. */
  lemma RestartSetsCourse(p: Port, deleteOk: bool)
    ensures var q := Restarted(p, deleteOk);
            Matches(q) <==> (q.driver.present ==> Same(q.driver.cfg, ZERO_CFG))
  {
  }

  /** Starting again without shutting down is safe exactly if no driver is installed. */
  lemma StartTwiceIff(p: Port)
    ensures Coherent(StartUp(p)) <==> !p.driver.present
  {
  }

  // ---------------------------------------------------------------------------------------------
  // The code on its state.
  // ---------------------------------------------------------------------------------------------

  /** The SDK's driver of one port. */
  class PortDriver {
    var present: bool
    var cfg: Cfg
    var timeout: nat

    ghost function Value(): Driver
      reads this
    {
      Driver(present, cfg, timeout)
    }

    method Delete(works: bool)
      modifies this
      ensures Value() == old(Value()).(present := old(present) && !works)
    {
      present := present && !works;
    }

    method ParamConfig(temp: Cfg, c: Calls) returns (ok: bool)
      modifies this
      ensures ok == c.paramOk
      ensures Value() == if ok then old(Value()).(cfg := temp, timeout := c.paramTimeout) else old(Value())
    {
      ok := c.paramOk;
      if ok {
        cfg, timeout := temp, c.paramTimeout;
      }
    }

    method Install(c: Calls) returns (ok: bool)
      modifies this
      ensures ok == (c.installOk && !old(present))
      ensures Value() == if ok then old(Value()).(present := true, timeout := c.installTimeout) else old(Value())
    {
      ok := c.installOk && !present;
      if ok {
        present, timeout := true, c.installTimeout;
      }
    }

    method SetTimeout(ticks: nat, c: Calls) returns (ok: bool)
      modifies this
      ensures ok == c.setOk
      ensures Value() == if ok then old(Value()).(timeout := ticks) else old(Value())
    {
      ok := c.setOk;
      if ok {
        timeout := ticks;
      }
    }
  }

  class PortState {
    const driver: PortDriver
    var config: Cfg
    var installed: bool

    constructor (driver: PortDriver)
      ensures this.driver == driver && config == ZERO_CFG && !installed
    {
      this.driver := driver;
      config, installed := ZERO_CFG, false;
    }

    ghost function Value(): Port
      reads this, driver
    {
      Port(config, installed, driver.Value())
    }

    /** This port's part of `i2cdev_done` and of `i2cdev_init`. */
    method Done(deleteOk: bool)
      modifies this, driver
      ensures Value() == ShutDown(old(Value()), deleteOk)
    {
      if installed {
        driver.Delete(deleteOk);
        installed := false;
      }
    }

    method Init()
      modifies this
      ensures Value() == StartUp(old(Value()))
    {
      config, installed := ZERO_CFG, false;
    }

    /** Reinstalling the driver for another configuration. */
    method Reconfigure(d: Device, c: Calls) returns (ok: bool)
      modifies this, driver
      ensures var before := old(Value());
              var p := if before.installed then Deleted(before, c.deleteOk) else before;
              var (q, next) := Step(p, Param, d, 0, c);
              if next != Install then !ok && Value() == q
              else
                var (r, last) := Step(q, Install, d, 0, c);
                if last != Record then !ok && Value() == r else ok && Value() == Step(r, Record, d, 0, c).0
    {
      if installed {
        driver.Delete(c.deleteOk);
      }
      var temp := Master(d.cfg);
      ok := driver.ParamConfig(temp, c);
      if !ok {
        return;
      }
      ok := driver.Install(c);
      if !ok {
        return;
      }
      installed := true;
      config := temp;
    }

    /** `i2c_setup_port`: it computes what the steps above compute. */
    method Setup(d: Device, longest: nat, c: Calls) returns (ok: bool)
      modifies this, driver
      ensures (Value(), ok) == SetUp(old(Value()), Compare, d, longest, c)
      ensures old(Coherent(Value())) ==>
                && (Coherent(Value()) <==> !Stuck(old(Value()), Compare, d, c))
                && (ok ==> Agrees(Value(), d, longest))
    {
      if Coherent(Value()) {
        SetUpAgrees(Value(), Compare, d, longest, c);
        StaysCoherentIff(Value(), Compare, d, longest, c);
      }
      ghost var start := Value();
      if !Same(d.cfg, config) {
        ok := Reconfigure(d, c);
        SetUpReconfigures(start, d, longest, c);
        if !ok {
          return;
        }
      }
      SetUpTimes(Value(), d, longest, c);
      if !c.getOk {
        return false;
      }
      var ticks := if d.timeoutTicks != 0 then d.timeoutTicks else longest;
      if ticks != driver.timeout {
        ok := driver.SetTimeout(ticks, c);
        return;
      }
      return true;
    }
  }

  /** The reconfiguring part of the steps, unfolded. */
  lemma {:induction false} SetUpReconfigures(p: Port, d: Device, longest: nat, c: Calls)
    requires !Same(d.cfg, p.config)
    ensures var p' := if p.installed then Deleted(p, c.deleteOk) else p;
            var (q, next) := Step(p', Param, d, 0, c);
            SetUp(p, Compare, d, longest, c) ==
            if next != Install then (q, false)
            else
              var (r, last) := Step(q, Install, d, 0, c);
              if last != Record then (r, false) else SetUp(Step(r, Record, d, 0, c).0, GetTimeout, d, longest, c)
  {
  }

  lemma {:induction false} SetUpTimes(p: Port, d: Device, longest: nat, c: Calls)
    ensures SetUp(p, GetTimeout, d, longest, c) ==
            if !c.getOk then (p, false)
            else if p.driver.timeout == Ticks(d, longest) then (p, true)
            else if c.setOk then (p.(driver := p.driver.(timeout := Ticks(d, longest))), true)
            else (p, false)
    ensures Same(d.cfg, p.config) ==> SetUp(p, Compare, d, longest, c) == SetUp(p, GetTimeout, d, longest, c)
  {
  }
}
