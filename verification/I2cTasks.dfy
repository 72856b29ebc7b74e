/**
  Tasks that share I2C devices and ports, as interleaved steps: every step of the driver set-up,
  every lock taken or given, and every command on the bus is a step of its own.
*/
module I2cTasks {
  import opened Options
  import opened Seqs
  import P = I2cPorts

  // ---------------------------------------------------------------------------------------------
  // The output register of the expander.
  // ---------------------------------------------------------------------------------------------

  function Bit(pin: nat): bv8 {
    if pin < 8 then 1 << pin else 0
  }

  function WithLevel(v: bv8, pin: nat, high: bool): bv8 {
    (v & !Bit(pin)) | (if high then Bit(pin) else 0)
  }

  function IsHigh(v: bv8, pin: nat): bool {
    v & Bit(pin) != 0
  }

  /** Setting a level sets that pin and leaves every other alone. */
  lemma LevelsAreIndependent(v: bv8, pin: nat, high: bool, other: nat)
    requires pin < 8 && other < 8
    ensures IsHigh(WithLevel(v, pin, high), other) == if other == pin then high else IsHigh(v, other)
  {
    BitsDisjoint(pin, other);
    var b, o := Bit(pin), Bit(other);
    if other == pin {
      assert b != 0;
      assert ((v & !b) | b) & b == b;
      assert ((v & !b) | 0) & b == 0;
    } else {
      assert b & o == 0;
      MaskKeeps(v, b, o);
    }
  }

  lemma BitsDisjoint(p: nat, q: nat)
    requires p < 8 && q < 8
    ensures Bit(p) != 0 && (p != q ==> Bit(p) & Bit(q) == 0)
  {
  }

  lemma MaskKeeps(v: bv8, b: bv8, o: bv8)
    requires b & o == 0
    ensures ((v & !b) | b) & o == v & o && ((v & !b) | 0) & o == v & o
  {
  }

  datatype Change = Level(pin: nat, high: bool) | Whole(value: bv8)

  function Apply(v: bv8, c: Change): bv8 {
    match c
    case Level(pin, high) => WithLevel(v, pin, high)
    case Whole(value) => value
  }

  function Fold(v: bv8, cs: seq<Change>): bv8 {
    if cs == [] then v else Apply(Fold(v, cs[..|cs| - 1]), cs[|cs| - 1])
  }

  lemma {:induction false} FoldSnoc(v: bv8, cs: seq<Change>, c: Change)
    ensures Fold(v, cs + [c]) == Apply(Fold(v, cs), c)
  {
  }

  // ---------------------------------------------------------------------------------------------
  // The system.
  // ---------------------------------------------------------------------------------------------

  datatype Op = SetLevel(dev: nat, pin: nat, high: bool) | WriteOut(dev: nat, value: bv8) | ReadOut(dev: nat)

  /** Where a task is in an operation. A transaction reads or writes the register. */
  datatype At = Idle | WantDevice | WantPort(writing: bool) | OnPort(writing: bool, pc: P.Pc) | LeaveDevice(ok: bool)

  /** A task, its operation, the byte it read or is about to write, and how often its change has
      taken effect on the device. */
  datatype Task = Task(op: Op, at: At, v: bv8, effects: nat)

  /**
    The tasks; the owner of each device mutex and of each port mutex; the ports; the output
    register of each device, and the changes that took effect on it, in order.
  */
  datatype State = State(tasks: seq<Task>, owners: seq<Option<nat>>, holders: seq<Option<nat>>,
                         ports: seq<P.Port>, out: seq<bv8>, log: seq<seq<Change>>)

  datatype World = World(devices: seq<P.Device>, longest: nat)

  /** What a task does next: begin an operation, go on, or give up waiting for a lock. */
  datatype Action = Start(op: Op) | Go(calls: P.Calls) | GiveUp

  ghost predicate WellFormed(w: World, s: State) {
    && |s.owners| == |s.out| == |s.log| == |w.devices|
    && |s.holders| == |s.ports|
    && (forall d {:trigger w.devices[d]} | 0 <= d < |w.devices| :: w.devices[d].port < |s.ports|)
    && (forall t {:trigger s.tasks[t]} | 0 <= t < |s.tasks| :: s.tasks[t].op.dev < |w.devices|)
  }

  function PortOf(w: World, k: Task): nat
    requires k.op.dev < |w.devices|
  {
    w.devices[k.op.dev].port
  }

  predicate HasDevice(k: Task) {
    k.at.WantPort? || k.at.OnPort? || k.at.LeaveDevice?
  }

  /** The first transaction of an operation writes, unless the operation has to read first. */
  function WritesFirst(op: Op): bool {
    op.WriteOut?
  }

  /** The byte a write transaction sends. */
  function ToWrite(k: Task): bv8 {
    if k.op.WriteOut? then k.op.value else k.v
  }

  function ChangeOf(op: Op): Change {
    if op.SetLevel? then Level(op.pin, op.high) else if op.WriteOut? then Whole(op.value) else Level(8, false)
  }

  /** After a transaction: on to the write of a read-modify-write, or out. */
  function Next(k: Task, writing: bool, ok: bool): Task {
    if ok && !writing && k.op.SetLevel? then
      k.(at := WantPort(true), v := WithLevel(k.v, k.op.pin, k.op.high))
    else k.(at := LeaveDevice(ok))
  }

  predicate Reaches(p: P.Port, pc: P.Pc) {
    pc == P.Command && p.driver.present
  }

  /** A step of the owner of a port. */
  function OnPortStep(w: World, s: State, t: nat, c: P.Calls): State
    requires WellFormed(w, s) && t < |s.tasks| && s.tasks[t].at.OnPort? && !s.tasks[t].at.pc.Leave?
  {
    var k := s.tasks[t];
    var d, port := k.op.dev, PortOf(w, k);
    var (p, pc) := P.Step(s.ports[port], k.at.pc, w.devices[d], w.longest, c);
    var on := Reaches(s.ports[port], k.at.pc);
    var wrote := on && k.at.writing && (c.commandOk || c.effect);
    var read := on && !k.at.writing && c.commandOk;
    State(s.tasks[t := Task(k.op, OnPort(k.at.writing, pc), if read then s.out[d] else k.v,
                            if wrote then k.effects + 1 else k.effects)],
          s.owners, s.holders, s.ports[port := p],
          if wrote then s.out[d := ToWrite(k)] else s.out,
          if wrote then s.log[d := s.log[d] + [ChangeOf(k.op)]] else s.log)
  }

  /** One step of one task; a step that is not possible does nothing. */
  function Step(w: World, s: State, t: nat, a: Action): State
    requires WellFormed(w, s)
  {
    if t >= |s.tasks| then s else
      var k := s.tasks[t];
      match k.at
      case Idle =>
        if a.Start? && a.op.dev < |w.devices| then s.(tasks := s.tasks[t := Task(a.op, WantDevice, 0, 0)]) else s
      case WantDevice =>
        if a.Go? && s.owners[k.op.dev] == None then
          s.(tasks := s.tasks[t := k.(at := WantPort(WritesFirst(k.op)))], owners := s.owners[k.op.dev := Some(t)])
        else if a.GiveUp? then s.(tasks := s.tasks[t := k.(at := Idle)])
        else s
      case WantPort(writing) =>
        if a.Go? && s.holders[PortOf(w, k)] == None then
          s.(tasks := s.tasks[t := k.(at := OnPort(writing, P.Compare))], holders := s.holders[PortOf(w, k) := Some(t)])
        else if a.GiveUp? then s.(tasks := s.tasks[t := k.(at := LeaveDevice(false))])
        else s
      case OnPort(writing, pc) =>
        if !a.Go? then s
        else if pc.Leave? then
          s.(tasks := s.tasks[t := Next(k, writing, pc.ok)], holders := s.holders[PortOf(w, k) := None])
        else OnPortStep(w, s, t, a.calls)
      case LeaveDevice(_) =>
        if a.Go? then s.(tasks := s.tasks[t := k.(at := Idle)], owners := s.owners[k.op.dev := None]) else s
  }

  lemma {:induction false} StepKeepsWellFormed(w: World, s: State, t: nat, a: Action)
    requires WellFormed(w, s)
    ensures WellFormed(w, Step(w, s, t, a)) && |Step(w, s, t, a).tasks| == |s.tasks|
    ensures |Step(w, s, t, a).ports| == |s.ports|
  {
  }

  /** Any number of idle tasks, all locks free, ports cleared, and any bytes in the registers. */
  ghost predicate Initial(w: World, s: State) {
    && WellFormed(w, s)
    && (forall t {:trigger s.tasks[t]} | 0 <= t < |s.tasks| :: s.tasks[t].at == Idle && s.tasks[t].effects == 0)
    && (forall d {:trigger s.owners[d]} | 0 <= d < |s.owners| :: s.owners[d] == None)
    && (forall p {:trigger s.holders[p]} | 0 <= p < |s.holders| :: s.holders[p] == None)
    && (forall p {:trigger s.ports[p]} | 0 <= p < |s.ports| :: s.ports[p] == P.Cleared())
    && (forall d {:trigger s.log[d]} | 0 <= d < |s.log| :: s.log[d] == [])
  }

  /** A schedule: which task moves, and how; or the library is shut down and started again, which
      its callers do only while no operation is under way. Shutting down may fail to delete the
      drivers of some ports. */
  datatype Move = Move(task: nat, action: Action) | Restart(kept: set<nat>)

  predicate AllIdle(s: State) {
    forall t {:trigger s.tasks[t]} | 0 <= t < |s.tasks| :: s.tasks[t].at == Idle
  }

  function RestartAll(ps: seq<P.Port>, kept: set<nat>): (qs: seq<P.Port>)
    ensures |qs| == |ps| && forall i {:trigger qs[i]} | 0 <= i < |ps| :: qs[i] == P.Restarted(ps[i], i !in kept)
  {
    seq(|ps|, i requires 0 <= i < |ps| => P.Restarted(ps[i], i !in kept))
  }

  function Moved(w: World, s: State, m: Move): State
    requires WellFormed(w, s)
  {
    match m
    case Move(t, a) => Step(w, s, t, a)
    case Restart(kept) => if AllIdle(s) then s.(ports := RestartAll(s.ports, kept)) else s
  }

  lemma {:induction false} MoveKeepsWellFormed(w: World, s: State, m: Move)
    requires WellFormed(w, s)
    ensures WellFormed(w, Moved(w, s, m)) && |Moved(w, s, m).tasks| == |s.tasks|
    ensures |Moved(w, s, m).ports| == |s.ports|
  {
    hide Step;
    if m.Move? { StepKeepsWellFormed(w, s, m.task, m.action); }
  }

  ghost function Run(w: World, s: State, moves: seq<Move>): (r: State)
    requires WellFormed(w, s)
    ensures WellFormed(w, r) && |r.tasks| == |s.tasks| && |r.ports| == |s.ports|
  {
    if moves == [] then s else
      var m := moves[|moves| - 1];
      var r := Run(w, s, moves[..|moves| - 1]);
      MoveKeepsWellFormed(w, r, m);
      Moved(w, r, m)
  }

  // ---------------------------------------------------------------------------------------------
  // Locks.
  // ---------------------------------------------------------------------------------------------

  /**
    A table of locks against the tasks: a task holds the lock it is `Inside` of, and the holder of
    a lock is inside of it.
  */
  ghost predicate Locked(tasks: seq<Task>, locks: seq<Option<nat>>, inside: Task -> Option<nat>) {
    && (forall t {:trigger tasks[t]} | 0 <= t < |tasks| && inside(tasks[t]).Some? ::
          inside(tasks[t]).value < |locks| && locks[inside(tasks[t]).value] == Some(t))
    && (forall d {:trigger locks[d]} | 0 <= d < |locks| && locks[d].Some? ::
          locks[d].value < |tasks| && inside(tasks[locks[d].value]) == Some(d))
  }

  lemma {:induction false} LockedStay(tasks: seq<Task>, locks: seq<Option<nat>>, inside: Task -> Option<nat>,
      t: nat, k: Task)
    requires Locked(tasks, locks, inside) && t < |tasks| && inside(k) == inside(tasks[t])
    ensures Locked(tasks[t := k], locks, inside)
  {
  }

  lemma {:induction false} LockedTake(tasks: seq<Task>, locks: seq<Option<nat>>, inside: Task -> Option<nat>,
      t: nat, k: Task, d: nat)
    requires Locked(tasks, locks, inside) && t < |tasks| && d < |locks|
    requires inside(tasks[t]) == None && inside(k) == Some(d) && locks[d] == None
    ensures Locked(tasks[t := k], locks[d := Some(t)], inside)
  {
  }

  lemma {:induction false} LockedGive(tasks: seq<Task>, locks: seq<Option<nat>>, inside: Task -> Option<nat>,
      t: nat, k: Task, d: nat)
    requires Locked(tasks, locks, inside) && t < |tasks| && d < |locks|
    requires inside(tasks[t]) == Some(d) && inside(k) == None
    ensures Locked(tasks[t := k], locks[d := None], inside)
  {
  }

  function DeviceOf(k: Task): Option<nat> {
    if HasDevice(k) then Some(k.op.dev) else None
  }

  function PortHeld(w: World, k: Task): Option<nat> {
    if k.at.OnPort? && k.op.dev < |w.devices| then Some(w.devices[k.op.dev].port) else None
  }

  /** A task holds the mutex of its device exactly from taking it to giving it back, and no other. */
  ghost predicate DeviceLocks(s: State) {
    Locked(s.tasks, s.owners, DeviceOf)
  }

  /** And that of the port exactly during a transaction. */
  ghost predicate PortLocks(w: World, s: State) {
    Locked(s.tasks, s.holders, k => PortHeld(w, k))
  }

  lemma {:induction false} StepKeepsDeviceLocks(w: World, s: State, t: nat, a: Action)
    requires WellFormed(w, s) && DeviceLocks(s)
    ensures DeviceLocks(Step(w, s, t, a))
  {
    hide P.Step, WithLevel, ToWrite, ChangeOf, Reaches, Locked;
    var s' := Step(w, s, t, a);
    if s' != s {
      var k := s.tasks[t];
      if k.at.WantDevice? && a.Go? {
        LockedTake(s.tasks, s.owners, DeviceOf, t, s'.tasks[t], k.op.dev);
      } else if k.at.LeaveDevice? {
        LockedGive(s.tasks, s.owners, DeviceOf, t, s'.tasks[t], k.op.dev);
      } else {
        LockedStay(s.tasks, s.owners, DeviceOf, t, s'.tasks[t]);
      }
    }
  }

  lemma {:induction false} StepKeepsPortLocks(w: World, s: State, t: nat, a: Action)
    requires WellFormed(w, s) && PortLocks(w, s)
    ensures PortLocks(w, Step(w, s, t, a))
  {
    hide P.Step, WithLevel, ToWrite, ChangeOf, Reaches, Locked;
    var s' := Step(w, s, t, a);
    var inside := k => PortHeld(w, k);
    if s' != s {
      var k := s.tasks[t];
      if k.at.WantPort? && a.Go? {
        LockedTake(s.tasks, s.holders, inside, t, s'.tasks[t], PortOf(w, k));
      } else if k.at.OnPort? && k.at.pc.Leave? {
        LockedGive(s.tasks, s.holders, inside, t, s'.tasks[t], PortOf(w, k));
      } else {
        LockedStay(s.tasks, s.holders, inside, t, s'.tasks[t]);
      }
    }
  }

  // ---------------------------------------------------------------------------------------------
  // The cache of the ports.
  // ---------------------------------------------------------------------------------------------

  /** A free port is coherent; one in use is as far as its owner has got. */
  ghost predicate PortsMidway(w: World, tasks: seq<Task>, holders: seq<Option<nat>>, ports: seq<P.Port>) {
    && |holders| == |ports|
    && (forall p {:trigger ports[p]} | 0 <= p < |ports| && holders[p] == None :: P.Coherent(ports[p]))
    && (forall t {:trigger tasks[t]} | 0 <= t < |tasks| && PortHeld(w, tasks[t]).Some? ::
          PortHeld(w, tasks[t]).value < |ports|
          && P.Midway(ports[PortHeld(w, tasks[t]).value], tasks[t].at.pc, w.devices[tasks[t].op.dev], w.longest))
  }

  /** A step outside of the ports. */
  lemma {:induction false} MidwayOutside(w: World, s: State, t: nat, k: Task)
    requires t < |s.tasks| && PortHeld(w, s.tasks[t]) == PortHeld(w, k) == None
    requires PortsMidway(w, s.tasks, s.holders, s.ports)
    ensures PortsMidway(w, s.tasks[t := k], s.holders, s.ports)
  {
  }

  lemma {:induction false} MidwayTake(w: World, s: State, t: nat, k: Task, p: nat)
    requires t < |s.tasks| && p < |s.ports| && |s.holders| == |s.ports| && s.holders[p] == None
    requires PortHeld(w, s.tasks[t]) == None && PortHeld(w, k) == Some(p) && k.at.pc == P.Compare
    requires PortsMidway(w, s.tasks, s.holders, s.ports)
    ensures PortsMidway(w, s.tasks[t := k], s.holders[p := Some(t)], s.ports)
  {
  }

  lemma {:induction false} MidwayGive(w: World, s: State, t: nat, k: Task, p: nat)
    requires t < |s.tasks| && p < |s.ports| && PortLocks(w, s)
    requires PortHeld(w, s.tasks[t]) == Some(p) && s.tasks[t].at.pc.Leave? && PortHeld(w, k) == None
    requires PortsMidway(w, s.tasks, s.holders, s.ports)
    ensures PortsMidway(w, s.tasks[t := k], s.holders[p := None], s.ports)
  {
  }

  lemma {:induction false} MidwayInside(w: World, s: State, t: nat, k: Task, p: nat, q: P.Port)
    requires t < |s.tasks| && p < |s.ports| && PortLocks(w, s)
    requires PortHeld(w, s.tasks[t]) == Some(p) == PortHeld(w, k)
    requires P.Midway(q, k.at.pc, w.devices[k.op.dev], w.longest)
    requires PortsMidway(w, s.tasks, s.holders, s.ports)
    ensures PortsMidway(w, s.tasks[t := k], s.holders, s.ports[p := q])
  {
  }

  ghost predicate Cached(w: World, s: State) {
    PortsMidway(w, s.tasks, s.holders, s.ports)
  }

  /** A move that gives a driver that is present to another configuration, or forgets it. */
  ghost predicate Sticks(w: World, s: State, m: Move)
    requires WellFormed(w, s)
  {
    match m
    case Move(t, a) =>
      && t < |s.tasks| && s.tasks[t].at.OnPort? && a.Go?
      && P.Sticks(s.ports[PortOf(w, s.tasks[t])], s.tasks[t].at.pc, a.calls)
    case Restart(kept) =>
      AllIdle(s) && exists p {:trigger s.ports[p]} | 0 <= p < |s.ports| :: p in kept && s.ports[p].driver.present
  }

  lemma {:induction false} StepKeepsCache(w: World, s: State, t: nat, a: Action)
    requires WellFormed(w, s) && PortLocks(w, s) && Cached(w, s)
    ensures !Sticks(w, s, Move(t, a)) ==> Cached(w, Step(w, s, t, a))
  {
    hide P.Step, P.Midway, P.Coherent, P.Sticks, WithLevel, ToWrite, ChangeOf, Reaches, PortsMidway, PortLocks;
    var s' := Step(w, s, t, a);
    if s' != s && !Sticks(w, s, Move(t, a)) {
      var k := s.tasks[t];
      var p := PortOf(w, k);
      if k.at.WantPort? && a.Go? {
        MidwayTake(w, s, t, s'.tasks[t], p);
      } else if k.at.OnPort? && k.at.pc.Leave? {
        MidwayGive(w, s, t, s'.tasks[t], p);
      } else if k.at.OnPort? {
        OwnerStep(w, s, t, a.calls);
        MidwayInside(w, s, t, s'.tasks[t], p, s'.ports[p]);
      } else {
        MidwayOutside(w, s, t, s'.tasks[t]);
      }
    }
  }

  lemma {:induction false} OwnerStep(w: World, s: State, t: nat, c: P.Calls)
    requires WellFormed(w, s) && Cached(w, s) && t < |s.tasks| && s.tasks[t].at.OnPort? && !s.tasks[t].at.pc.Leave?
    ensures var r := OnPortStep(w, s, t, c);
            var k := r.tasks[t];
            var q := r.ports[PortOf(w, k)];
            && k.at.OnPort? && k.op == s.tasks[t].op
            && if P.Sticks(s.ports[PortOf(w, k)], s.tasks[t].at.pc, c) then !P.Coherent(q)
               else P.Midway(q, k.at.pc, w.devices[k.op.dev], w.longest)
  {
    hide P.Step, P.Midway, P.Coherent, P.Sticks, WithLevel, ToWrite, ChangeOf, Reaches;
    var k := s.tasks[t];
    P.StepKeepsMidway(s.ports[PortOf(w, k)], k.at.pc, w.devices[k.op.dev], w.longest, c);
  }

  /** The task that owns port `p` has installed a driver and is about to record what it is. */
  predicate Recording(s: State, p: nat)
    requires p < |s.holders|
  {
    s.holders[p].Some? && s.holders[p].value < |s.tasks| &&
    s.tasks[s.holders[p].value].at.OnPort? && s.tasks[s.holders[p].value].at.pc == P.Record
  }

  /** No cache is wrong about a driver, apart from that moment. */
  ghost predicate CachesRight(w: World, s: State)
    requires WellFormed(w, s)
  {
    forall p {:trigger s.ports[p]} | 0 <= p < |s.ports| :: P.Coherent(s.ports[p]) || Recording(s, p)
  }

  lemma {:induction false} CachedIsRight(w: World, s: State)
    requires WellFormed(w, s) && PortLocks(w, s) && Cached(w, s)
    ensures CachesRight(w, s)
  {
  }

  /** Such a move is the end of it. */
  lemma {:induction false} StickingBreaks(w: World, s: State, m: Move)
    requires WellFormed(w, s) && PortLocks(w, s) && Cached(w, s) && Sticks(w, s, m)
    ensures WellFormed(w, Moved(w, s, m)) && !CachesRight(w, Moved(w, s, m))
  {
    hide P.Step, P.Midway, P.Coherent, WithLevel, ToWrite, ChangeOf, Reaches;
    MoveKeepsWellFormed(w, s, m);
    var r := Moved(w, s, m);
    match m
    case Move(t, a) =>
      OwnerStep(w, s, t, a.calls);
      StuckGoesOn(w, s, t, a.calls);
      assert !Recording(r, PortOf(w, s.tasks[t]));
    case Restart(kept) =>
      var p :| 0 <= p < |s.ports| && p in kept && s.ports[p].driver.present;
      P.RestartIsCoherentIff(s.ports[p], false);
      assert !P.Coherent(r.ports[p]) && !Recording(r, p);
  }

  lemma StuckGoesOn(w: World, s: State, t: nat, c: P.Calls)
    requires WellFormed(w, s) && t < |s.tasks| && s.tasks[t].at.OnPort?
    requires P.Sticks(s.ports[PortOf(w, s.tasks[t])], s.tasks[t].at.pc, c)
    ensures OnPortStep(w, s, t, c).tasks[t].at.OnPort? && OnPortStep(w, s, t, c).tasks[t].at.pc == P.Install
  {
  }

  // ---------------------------------------------------------------------------------------------
  // The registers.
  // ---------------------------------------------------------------------------------------------

  /** A read-modify-write between its read and its write knows what is in the register, and so does a
      read that has been reported done, until it lets go of the device. */
  ghost predicate UpToDate(k: Task, out: bv8) {
    && (k.op.SetLevel? && (k.at == WantPort(true) || (k.at.OnPort? && k.at.writing && !k.at.pc.Leave?)) ==>
          k.v == WithLevel(out, k.op.pin, k.op.high))
    && (k.at == OnPort(false, P.Leave(true)) || (k.at == LeaveDevice(true) && k.op.ReadOut?) ==> k.v == out)
  }

  /** An operation's change takes effect at most once, not before its write transaction, and for
      sure once it has been reported done. */
  ghost predicate OnceOnly(k: Task) {
    && k.effects <= 1
    && (k.at.WantDevice? || k.at.WantPort? || (k.at.OnPort? && !(k.at.writing && k.at.pc.Leave?)) ==> k.effects == 0)
    && ((k.at == OnPort(true, P.Leave(true)) || k.at == LeaveDevice(true)) && !k.op.ReadOut? ==> k.effects == 1)
    && (k.at.WantPort? || k.at.OnPort? ==> if k.at.writing then !k.op.ReadOut? else !k.op.WriteOut?)
  }

  ghost predicate TasksUpToDate(s: State) {
    forall t {:trigger s.tasks[t]} | 0 <= t < |s.tasks| ::
      OnceOnly(s.tasks[t]) && s.tasks[t].op.dev < |s.out| && UpToDate(s.tasks[t], s.out[s.tasks[t].op.dev])
  }

  lemma {:induction false} LeaveOkIsCommand(p: P.Port, pc: P.Pc, d: P.Device, longest: nat, c: P.Calls)
    requires !pc.Leave?
    ensures P.Step(p, pc, d, longest, c).1 == P.Leave(true) <==> Reaches(p, pc) && c.commandOk
    ensures Reaches(p, pc) ==> P.Step(p, pc, d, longest, c).1.Leave?
  {
  }

  /** The owner of a port. */
  lemma {:induction false} OwnerUpToDate(w: World, s: State, t: nat, c: P.Calls)
    requires WellFormed(w, s) && t < |s.tasks| && s.tasks[t].at.OnPort? && !s.tasks[t].at.pc.Leave?
    requires OnceOnly(s.tasks[t]) && UpToDate(s.tasks[t], s.out[s.tasks[t].op.dev])
    ensures var r := OnPortStep(w, s, t, c);
            var k := r.tasks[t];
            OnceOnly(k) && k.op.dev < |r.out| && UpToDate(k, r.out[k.op.dev])
  {
    hide P.Step, WithLevel, ToWrite, ChangeOf, Reaches;
    var k := s.tasks[t];
    LeaveOkIsCommand(s.ports[PortOf(w, k)], k.at.pc, w.devices[k.op.dev], w.longest, c);
  }

  /** The task that moves. */
  lemma {:induction false} MoverUpToDate(w: World, s: State, t: nat, a: Action)
    requires WellFormed(w, s) && TasksUpToDate(s) && t < |s.tasks|
    ensures var r := Step(w, s, t, a);
            var k := r.tasks[t];
            OnceOnly(k) && k.op.dev < |r.out| && UpToDate(k, r.out[k.op.dev])
  {
    hide OnPortStep, WithLevel, ToWrite, ChangeOf, Reaches;
    var k := s.tasks[t];
    if k.at.OnPort? && !k.at.pc.Leave? && a.Go? {
      OwnerUpToDate(w, s, t, a.calls);
    }
  }

  /** The others: a register changes only under its device's mutex. */
  lemma {:induction false} OthersUpToDate(w: World, s: State, t: nat, a: Action, u: nat)
    requires WellFormed(w, s) && DeviceLocks(s) && TasksUpToDate(s)
    requires t < |s.tasks| && u < |s.tasks| && u != t
    ensures var r := Step(w, s, t, a);
            && r.tasks[u] == s.tasks[u]
            && (HasDevice(s.tasks[u]) ==> r.out[s.tasks[u].op.dev] == s.out[s.tasks[u].op.dev])
  {
  }

  lemma {:induction false} OutsideIsUpToDate(k: Task, x: bv8, y: bv8)
    requires UpToDate(k, x) && !HasDevice(k)
    ensures UpToDate(k, y)
  {
  }

  lemma {:induction false} StepKeepsUpToDate(w: World, s: State, t: nat, a: Action)
    requires WellFormed(w, s) && DeviceLocks(s) && TasksUpToDate(s)
    ensures TasksUpToDate(Step(w, s, t, a))
  {
    hide Step, UpToDate, OnceOnly, DeviceLocks;
    var r := Step(w, s, t, a);
    StepKeepsWellFormed(w, s, t, a);
    if t < |s.tasks| {
      forall u | 0 <= u < |r.tasks|
        ensures OnceOnly(r.tasks[u]) && r.tasks[u].op.dev < |r.out| && UpToDate(r.tasks[u], r.out[r.tasks[u].op.dev])
      {
        if u == t {
          MoverUpToDate(w, s, t, a);
        } else {
          assert OnceOnly(s.tasks[u]);
          OthersUpToDate(w, s, t, a, u);
          if !HasDevice(s.tasks[u]) {
            OutsideIsUpToDate(s.tasks[u], s.out[s.tasks[u].op.dev], r.out[s.tasks[u].op.dev]);
          }
        }
      }
    } else {
      NoSuchTask(w, s, t, a);
    }
  }

  lemma NoSuchTask(w: World, s: State, t: nat, a: Action)
    requires WellFormed(w, s) && t >= |s.tasks|
    ensures Step(w, s, t, a) == s
  {
  }

  /** Each register is its first value with the logged changes applied in order. */
  ghost predicate Logged(first: seq<bv8>, s: State) {
    && |first| == |s.out| == |s.log|
    && forall d {:trigger s.out[d]} | 0 <= d < |s.out| :: s.out[d] == Fold(first[d], s.log[d])
  }

  lemma {:induction false} StepKeepsLog(w: World, first: seq<bv8>, s: State, t: nat, a: Action)
    requires WellFormed(w, s) && TasksUpToDate(s) && Logged(first, s)
    ensures Logged(first, Step(w, s, t, a))
  {
    hide P.Step, WithLevel, Reaches, Fold;
    var r := Step(w, s, t, a);
    if t < |s.tasks| && s.tasks[t].at.OnPort? && !s.tasks[t].at.pc.Leave? && a.Go? {
      var k := s.tasks[t];
      FoldSnoc(first[k.op.dev], s.log[k.op.dev], ChangeOf(k.op));
    }
  }

  // ---------------------------------------------------------------------------------------------
  // Whole runs.
  // ---------------------------------------------------------------------------------------------

  ghost predicate Inv(w: World, first: seq<bv8>, s: State)
    requires WellFormed(w, s)
  {
    DeviceLocks(s) && PortLocks(w, s) && TasksUpToDate(s) && Logged(first, s)
  }

  lemma {:induction false} InitialInv(w: World, s: State)
    requires Initial(w, s)
    ensures Inv(w, s.out, s)
  {
  }

  lemma {:induction false} RestartKeepsCache(w: World, s: State, kept: set<nat>)
    requires WellFormed(w, s) && PortLocks(w, s) && Cached(w, s) && AllIdle(s) && !Sticks(w, s, Restart(kept))
    ensures Cached(w, s.(ports := RestartAll(s.ports, kept)))
  {
  }

  lemma {:induction false} MoveKeepsInv(w: World, first: seq<bv8>, s: State, m: Move)
    requires WellFormed(w, s) && Inv(w, first, s)
    ensures WellFormed(w, Moved(w, s, m)) && Inv(w, first, Moved(w, s, m))
  {
    hide Step, DeviceLocks, PortLocks, TasksUpToDate, Logged, AllIdle, RestartAll;
    MoveKeepsWellFormed(w, s, m);
    match m
    case Move(t, a) =>
      StepKeepsDeviceLocks(w, s, t, a);
      StepKeepsPortLocks(w, s, t, a);
      StepKeepsUpToDate(w, s, t, a);
      StepKeepsLog(w, first, s, t, a);
    case Restart(kept) =>
      if AllIdle(s) {
        OnlyPortsMatter(w, first, s, RestartAll(s.ports, kept));
      }
  }

  lemma {:induction false} OnlyPortsMatter(w: World, first: seq<bv8>, s: State, ports: seq<P.Port>)
    requires WellFormed(w, s) && DeviceLocks(s) && PortLocks(w, s) && TasksUpToDate(s) && Logged(first, s)
    ensures var r := s.(ports := ports); DeviceLocks(r) && PortLocks(w, r) && TasksUpToDate(r) && Logged(first, r)
  {
  }

  lemma {:induction false} RunsKeepInv(w: World, s: State, moves: seq<Move>)
    requires Initial(w, s)
    ensures Inv(w, s.out, Run(w, s, moves))
  {
    if moves == [] {
      InitialInv(w, s);
    } else {
      RunsKeepInv(w, s, moves[..|moves| - 1]);
      MoveKeepsInv(w, s.out, Run(w, s, moves[..|moves| - 1]), moves[|moves| - 1]);
    }
  }

  /**
    No lost update: after any interleaving, with any calls failing and any locks timing out, each
    register holds its first value with all changes that took effect applied in their order; and
    the change of an operation takes effect at most once, and once for sure if it reports success.
    A read that reports success returns what is in the register.
  */
  lemma {:induction false} NoLostUpdate(w: World, s: State, moves: seq<Move>)
    requires Initial(w, s)
    ensures var r := Run(w, s, moves);
            && (forall d {:trigger r.out[d]} | 0 <= d < |r.out| :: r.out[d] == Fold(s.out[d], r.log[d]))
            && (forall t {:trigger r.tasks[t]} | 0 <= t < |r.tasks| ::
                  && r.tasks[t].effects <= 1
                  && (r.tasks[t].at == LeaveDevice(true) && !r.tasks[t].op.ReadOut? ==> r.tasks[t].effects == 1)
                  && (r.tasks[t].at == LeaveDevice(true) && r.tasks[t].op.ReadOut? ==>
                        r.tasks[t].v == r.out[r.tasks[t].op.dev]))
  {
    hide Run, Fold, DeviceLocks, PortLocks, WithLevel;
    RunsKeepInv(w, s, moves);
  }

  /** No move of the run leaves a driver to a configuration that is not its own. */
  ghost predicate NeverStuck(w: World, s: State, moves: seq<Move>)
    requires WellFormed(w, s)
  {
    forall i {:trigger moves[i]} | 0 <= i < |moves| :: !Sticks(w, Run(w, s, moves[..i]), moves[i])
  }

  lemma {:induction false} NeverStuckBefore(w: World, s: State, moves: seq<Move>, n: nat)
    requires WellFormed(w, s) && NeverStuck(w, s, moves) && n <= |moves|
    ensures NeverStuck(w, s, moves[..n])
  {
    hide Run, Sticks;
    var p := moves[..n];
    forall i | 0 <= i < |p| ensures !Sticks(w, Run(w, s, p[..i]), p[i]) {
      TakeTake(moves, n, i);
      assert p[i] == moves[i];
    }
  }

  lemma {:induction false} CachedRun(w: World, s: State, moves: seq<Move>)
    requires Initial(w, s) && NeverStuck(w, s, moves)
    ensures Cached(w, Run(w, s, moves))
  {
    if moves != [] {
      hide Step, DeviceLocks, PortLocks, Cached, TasksUpToDate, Logged, AllIdle, NeverStuck, Sticks;
      var p, m := moves[..|moves| - 1], moves[|moves| - 1];
      NeverStuckBefore(w, s, moves, |moves| - 1);
      CachedRun(w, s, p);
      RunsKeepInv(w, s, p);
      var r := Run(w, s, p);
      LastNotStuck(w, s, moves);
      if m.Move? {
        StepKeepsCache(w, r, m.task, m.action);
      } else if AllIdle(r) {
        RestartKeepsCache(w, r, m.kept);
      }
    }
  }

  lemma LastNotStuck(w: World, s: State, moves: seq<Move>)
    requires WellFormed(w, s) && NeverStuck(w, s, moves) && moves != []
    ensures !Sticks(w, Run(w, s, moves[..|moves| - 1]), moves[|moves| - 1])
  {
    hide Run, Sticks;
    assert moves[|moves| - 1] == moves[|moves| - 1];
  }

  /** The caches are right at every moment of a run. */
  ghost predicate AlwaysRight(w: World, s: State, moves: seq<Move>)
    requires WellFormed(w, s)
  {
    forall n: nat {:trigger moves[..n]} | n <= |moves| :: CachesRight(w, Run(w, s, moves[..n]))
  }

  /**
    In any interleaving, with any calls failing, any locks timing out and any restarts, no cache is
    ever wrong about its driver, exactly if no move leaves a driver to another configuration.
  */
  lemma {:induction false} CachesAreRightIff(w: World, s: State, moves: seq<Move>)
    requires Initial(w, s)
    ensures AlwaysRight(w, s, moves) <==> NeverStuck(w, s, moves)
  {
    hide Run, CachesRight, Sticks, Cached, PortLocks;
    if NeverStuck(w, s, moves) {
      forall n: nat | n <= |moves| ensures CachesRight(w, Run(w, s, moves[..n])) {
        NeverStuckBefore(w, s, moves, n);
        CachedRun(w, s, moves[..n]);
        RunsKeepInv(w, s, moves[..n]);
        CachedIsRight(w, Run(w, s, moves[..n]));
      }
    } else {
      var n := FirstStuck(w, s, moves);
      assert !CachesRight(w, Run(w, s, moves[..n + 1]));
    }
  }

  /** The first such move, after which a cache is wrong. */
  lemma {:induction false} FirstStuck(w: World, s: State, moves: seq<Move>) returns (n: nat)
    requires Initial(w, s) && !NeverStuck(w, s, moves)
    ensures n < |moves| && !CachesRight(w, Run(w, s, moves[..n + 1]))
  {
    hide Run, CachesRight, Sticks, Cached, PortLocks, TasksUpToDate, Logged, DeviceLocks;
    n :| 0 <= n < |moves| && Sticks(w, Run(w, s, moves[..n]), moves[n]);
    var p := moves[..n];
    if NeverStuck(w, s, p) {
      CachedRun(w, s, p);
      RunsKeepInv(w, s, p);
      StickingBreaks(w, Run(w, s, p), moves[n]);
      RunOneMore(w, s, moves, n);
    } else {
      var m := FirstStuck(w, s, p);
      TakeTake(moves, n, m + 1);
      n := m;
    }
  }

  lemma {:induction false} RunOneMore(w: World, s: State, moves: seq<Move>, n: nat)
    requires WellFormed(w, s) && n < |moves|
    ensures Run(w, s, moves[..n + 1]) == Moved(w, Run(w, s, moves[..n]), moves[n])
  {
    hide Moved;
    var p := moves[..n + 1];
    TakeTake(moves, n + 1, n);
    assert p[|p| - 1] == moves[n] && p[..|p| - 1] == moves[..n];
  }

  // ---------------------------------------------------------------------------------------------
  // Commands and the drivers they meet.
  // ---------------------------------------------------------------------------------------------

  /** In this move the driver of port `p` takes the parameters of another configuration. */
  predicate SticksAt(w: World, s: State, t: nat, a: Action, p: nat)
    requires WellFormed(w, s) && p < |s.ports|
  {
    && t < |s.tasks| && s.tasks[t].at.OnPort? && PortOf(w, s.tasks[t]) == p && a.Go?
    && P.Sticks(s.ports[p], s.tasks[t].at.pc, a.calls)
  }

  /**
    The driver of port `p` has gone astray: since it was installed it has taken the parameters of
    another configuration, or has outlived a restart with a configuration that is not the cleared one.
  */
  ghost predicate Astray(w: World, s: State, moves: seq<Move>, p: nat)
    requires WellFormed(w, s) && p < |s.ports|
  {
    moves != [] &&
    var before, m := moves[..|moves| - 1], moves[|moves| - 1];
    GoesAstray(w, Run(w, s, before), m, p, Astray(w, s, before, p))
  }

  ghost predicate GoesAstray(w: World, s: State, m: Move, p: nat, already: bool)
    requires WellFormed(w, s) && p < |s.ports|
  {
    MoveKeepsWellFormed(w, s, m);
    var driver := Moved(w, s, m).ports[p].driver;
    driver.present &&
    match m
    case Move(t, a) => already || SticksAt(w, s, t, a, p)
    case Restart(_) => if AllIdle(s) then !P.Same(driver.cfg, P.ZERO_CFG) else already
  }

  /** Port `p` is on course or off it, as far as its owner has got. */
  ghost predicate CourseAt(w: World, s: State, p: nat, astray: bool)
    requires WellFormed(w, s) && p < |s.ports|
  {
    match s.holders[p]
    case None => if astray then s.ports[p].driver.present && !P.Matches(s.ports[p]) else P.Matches(s.ports[p])
    case Some(t) =>
      && t < |s.tasks| && s.tasks[t].at.OnPort? && PortOf(w, s.tasks[t]) == p
      && var d := w.devices[s.tasks[t].op.dev];
         if astray then P.OffCourse(s.ports[p], s.tasks[t].at.pc, d)
         else P.OnCourse(s.ports[p], s.tasks[t].at.pc, d, w.longest)
  }

  /** What a step changes at a port that its task does not hold: it may take it. */
  lemma {:induction false} StepElsewhere(w: World, s: State, t: nat, a: Action, p: nat)
    requires WellFormed(w, s) && p < |s.ports|
    requires t < |s.tasks| && s.tasks[t].at.OnPort? ==> PortOf(w, s.tasks[t]) != p
    ensures WellFormed(w, Step(w, s, t, a)) && |Step(w, s, t, a).tasks| == |s.tasks|
    ensures |Step(w, s, t, a).ports| == |s.ports| && Step(w, s, t, a).ports[p] == s.ports[p]
    ensures var r := Step(w, s, t, a);
            r.holders[p] != s.holders[p] ==>
              && s.holders[p] == None && r.holders[p] == Some(t) && t < |s.tasks|
              && r.tasks[t].at.OnPort? && r.tasks[t].at.pc == P.Compare && PortOf(w, r.tasks[t]) == p
    ensures forall u | 0 <= u < |s.tasks| && u != t :: Step(w, s, t, a).tasks[u] == s.tasks[u]
  {
    hide P.Step, WithLevel, ToWrite, ChangeOf, Reaches;
    StepKeepsWellFormed(w, s, t, a);
  }

  /** A step by a task that does not hold the port. */
  lemma {:induction false} CourseElsewhere(w: World, s: State, t: nat, a: Action, p: nat, astray: bool)
    requires WellFormed(w, s) && PortLocks(w, s) && p < |s.ports| && s.holders[p] != Some(t)
    requires CourseAt(w, s, p, astray)
    ensures WellFormed(w, Step(w, s, t, a)) && |Step(w, s, t, a).ports| == |s.ports|
    ensures Step(w, s, t, a).ports[p] == s.ports[p] && CourseAt(w, Step(w, s, t, a), p, astray)
    ensures !SticksAt(w, s, t, a, p)
  {
    hide Step, P.OnCourse, P.OffCourse, P.Matches;
    if t < |s.tasks| && s.tasks[t].at.OnPort? {
      assert PortHeld(w, s.tasks[t]) == Some(PortOf(w, s.tasks[t]));
    }
    StepElsewhere(w, s, t, a, p);
    CourseOfIdle(s.ports[p], w.longest);
  }

  /** A port that is taken is compared first. */
  lemma CourseOfIdle(p: P.Port, longest: nat)
    ensures forall d: P.Device :: P.OnCourse(p, P.Compare, d, longest) <==> P.Matches(p)
    ensures forall d: P.Device :: P.OffCourse(p, P.Compare, d) <==> p.driver.present && !P.Matches(p)
  {
  }

  /** A port that is left is as it was. */
  lemma CourseOfLeave(p: P.Port, ok: bool, d: P.Device, longest: nat)
    ensures P.OnCourse(p, P.Leave(ok), d, longest) <==> P.Matches(p)
    ensures P.OffCourse(p, P.Leave(ok), d) <==> p.driver.present && !P.Matches(p)
  {
  }

  /** A step by the task that does. */
  lemma {:induction false} CourseOfOwner(w: World, s: State, t: nat, a: Action, p: nat, astray: bool)
    requires WellFormed(w, s) && p < |s.ports| && CourseAt(w, s, p, astray) && s.holders[p] == Some(t)
    ensures WellFormed(w, Step(w, s, t, a)) && |Step(w, s, t, a).ports| == |s.ports|
    ensures CourseAt(w, Step(w, s, t, a), p,
                     Step(w, s, t, a).ports[p].driver.present && (astray || SticksAt(w, s, t, a, p)))
  {
    hide P.Step, P.OnCourse, P.OffCourse, P.Sticks, P.Same, P.Matches, WithLevel, ToWrite, ChangeOf, Reaches;
    StepKeepsWellFormed(w, s, t, a);
    var k := s.tasks[t];
    var d := w.devices[k.op.dev];
    if astray { OffIsPresent(s.ports[p], k.at.pc, d); }
    if k.at.pc.Leave? {
      CourseOfLeave(s.ports[p], k.at.pc.ok, d, w.longest);
      LeftDoesNotStick(s.ports[p], k.at.pc, a);
    } else if a.Go? {
      P.StepKeepsCourse(s.ports[p], k.at.pc, d, w.longest, a.calls);
    }
  }

  lemma OffIsPresent(p: P.Port, pc: P.Pc, d: P.Device)
    requires P.OffCourse(p, pc, d)
    ensures p.driver.present
  {
  }

  lemma LeftDoesNotStick(p: P.Port, pc: P.Pc, a: Action)
    requires pc.Leave?
    ensures a.Go? ==> !P.Sticks(p, pc, a.calls)
  {
  }

  lemma {:induction false} PresentAstray(w: World, s: State, p: nat)
    requires WellFormed(w, s) && p < |s.ports| && CourseAt(w, s, p, true)
    ensures s.ports[p].driver.present
  {
  }

  lemma {:induction false} MoveKeepsCourse(w: World, s: State, m: Move, p: nat, astray: bool)
    requires WellFormed(w, s) && PortLocks(w, s) && p < |s.ports| && CourseAt(w, s, p, astray)
    ensures WellFormed(w, Moved(w, s, m)) && |Moved(w, s, m).ports| == |s.ports|
    ensures CourseAt(w, Moved(w, s, m), p, GoesAstray(w, s, m, p, astray))
  {
    hide Step, SticksAt, CourseAt, PortLocks, P.Same, P.Restarted, P.Matches;
    if astray { PresentAstray(w, s, p); }
    match m
    case Move(t, a) =>
      if s.holders[p] == Some(t) {
        CourseOfOwner(w, s, t, a, p, astray);
      } else {
        CourseElsewhere(w, s, t, a, p, astray);
      }
    case Restart(kept) =>
      if AllIdle(s) {
        P.RestartSetsCourse(s.ports[p], p !in kept);
        IdleIsFree(w, s, p);
        CourseOfFree(w, Moved(w, s, m), p, GoesAstray(w, s, m, p, astray));
      }
  }

  lemma {:induction false} IdleIsFree(w: World, s: State, p: nat)
    requires WellFormed(w, s) && PortLocks(w, s) && AllIdle(s) && p < |s.ports|
    ensures s.holders[p] == None
  {
  }

  lemma {:induction false} CourseOfFree(w: World, s: State, p: nat, astray: bool)
    requires WellFormed(w, s) && p < |s.ports| && s.holders[p] == None
    requires if astray then s.ports[p].driver.present && !P.Matches(s.ports[p]) else P.Matches(s.ports[p])
    ensures CourseAt(w, s, p, astray)
  {
  }

  lemma {:induction false} RunsKeepCourse(w: World, s: State, moves: seq<Move>, p: nat)
    requires Initial(w, s) && p < |s.ports|
    ensures CourseAt(w, Run(w, s, moves), p, Astray(w, s, moves, p))
  {
    if moves == [] {
      CourseOfFree(w, s, p, false);
    } else {
      hide Moved, CourseAt, GoesAstray, DeviceLocks, PortLocks, TasksUpToDate, Logged;
      var before, m := moves[..|moves| - 1], moves[|moves| - 1];
      RunsKeepCourse(w, s, before, p);
      RunsKeepInv(w, s, before);
      MoveKeepsCourse(w, Run(w, s, before), m, p, Astray(w, s, before, p));
    }
  }

  /**
    In any interleaving, with any calls failing, any locks timing out and any restarts, a command
    that reaches a driver finds the configuration and the timeout of its own device there, exactly
    if the driver of its port has not gone astray.
  */
  lemma {:induction false} CommandsMeetTheirConfiguration(w: World, s: State, moves: seq<Move>, t: nat)
    requires Initial(w, s) && t < |s.tasks|
    requires Run(w, s, moves).tasks[t].at.OnPort? && Run(w, s, moves).tasks[t].at.pc == P.Command
    ensures var r := Run(w, s, moves);
            var p := PortOf(w, r.tasks[t]);
            p < |s.ports| && (P.Agrees(r.ports[p], w.devices[r.tasks[t].op.dev], w.longest) <==> !Astray(w, s, moves, p))
  {
    hide Run, Astray, P.Agrees, P.OnCourse, P.OffCourse, DeviceLocks, TasksUpToDate, Logged;
    RunsKeepInv(w, s, moves);
    var r := Run(w, s, moves);
    var p := PortOf(w, r.tasks[t]);
    RunsKeepCourse(w, s, moves, p);
    assert PortHeld(w, r.tasks[t]) == Some(p);
    P.CourseDecides(r.ports[p], w.devices[r.tasks[t].op.dev], w.longest);
  }

  /** While no move sticks, no driver goes astray. */
  lemma {:induction false} NeverStuckNeverAstray(w: World, s: State, moves: seq<Move>, p: nat)
    requires Initial(w, s) && NeverStuck(w, s, moves) && p < |s.ports|
    ensures !Astray(w, s, moves, p)
  {
    if moves != [] {
      hide Run, DeviceLocks, PortLocks, TasksUpToDate, Logged, NeverStuck, Cached;
      var before, m := moves[..|moves| - 1], moves[|moves| - 1];
      NeverStuckBefore(w, s, moves, |moves| - 1);
      NeverStuckNeverAstray(w, s, before, p);
      LastNotStuck(w, s, moves);
      CachedRun(w, s, before);
      RunsKeepInv(w, s, before);
      NotStuckNotAstray(w, Run(w, s, before), m, p);
    }
  }

  lemma {:induction false} NotStuckNotAstray(w: World, s: State, m: Move, p: nat)
    requires WellFormed(w, s) && PortLocks(w, s) && Cached(w, s) && p < |s.ports| && !Sticks(w, s, m)
    ensures !GoesAstray(w, s, m, p, false)
  {
    hide Step, P.Same;
    if m.Restart? && AllIdle(s) {
      IdleIsFree(w, s, p);
      P.RestartIsCoherentIff(s.ports[p], p !in m.kept);
    }
  }

  /** So as long as the caches are right, a command that reaches a driver finds what it needs. */
  lemma {:induction false} RightCachesSuffice(w: World, s: State, moves: seq<Move>, t: nat)
    requires Initial(w, s) && AlwaysRight(w, s, moves) && t < |s.tasks|
    requires Run(w, s, moves).tasks[t].at.OnPort? && Run(w, s, moves).tasks[t].at.pc == P.Command
    ensures var r := Run(w, s, moves);
            P.Agrees(r.ports[PortOf(w, r.tasks[t])], w.devices[r.tasks[t].op.dev], w.longest)
  {
    hide Run, Astray, AlwaysRight, NeverStuck, P.Agrees;
    CachesAreRightIff(w, s, moves);
    CommandsMeetTheirConfiguration(w, s, moves, t);
    NeverStuckNeverAstray(w, s, moves, PortOf(w, Run(w, s, moves).tasks[t]));
  }

  // ---------------------------------------------------------------------------------------------
  // A cache without a driver.
  // ---------------------------------------------------------------------------------------------

  /** The owner of a port without a driver has not begun to reconfigure it, and has not succeeded. */
  predicate Futile(pc: P.Pc) {
    match pc
    case Compare => true
    case GetTimeout => true
    case SetTimeout => true
    case Command => true
    case Leave(ok) => !ok
    case _ => false
  }

  ghost predicate LockedOut(w: World, s: State, p: nat)
    requires WellFormed(w, s) && p < |s.ports|
  {
    && !s.ports[p].driver.present
    && match s.holders[p]
       case None => true
       case Some(t) =>
         t < |s.tasks| && s.tasks[t].at.OnPort? && PortOf(w, s.tasks[t]) == p && Futile(s.tasks[t].at.pc)
  }

  /** Somebody begins to set port `p` up for a configuration that is not the cached one, or the
      library is started again. */
  ghost predicate Opens(w: World, s: State, m: Move, p: nat)
    requires WellFormed(w, s) && p < |s.ports|
  {
    match m
    case Move(t, a) =>
      && t < |s.tasks| && s.tasks[t].at.OnPort? && PortOf(w, s.tasks[t]) == p && a.Go?
      && s.tasks[t].at.pc == P.Compare && !P.Same(w.devices[s.tasks[t].op.dev].cfg, s.ports[p].config)
    case Restart(_) => AllIdle(s)
  }

  /** Two states between which nothing has happened to port `p` and its devices, but for the timeout
      register and the lock. */
  ghost predicate SameBehind(w: World, s: State, r: State, p: nat)
    requires WellFormed(w, s) && WellFormed(w, r) && p < |s.ports| == |r.ports|
  {
    && r.ports[p].config == s.ports[p].config && r.ports[p].installed == s.ports[p].installed
    && forall d {:trigger w.devices[d]} | 0 <= d < |w.devices| && w.devices[d].port == p ::
         r.out[d] == s.out[d] && r.log[d] == s.log[d]
  }

  lemma FutileStep(p: P.Port, pc: P.Pc, d: P.Device, longest: nat, c: P.Calls)
    requires !p.driver.present && Futile(pc) && !(pc == P.Compare && !P.Same(d.cfg, p.config))
    ensures var (q, next) := P.Step(p, pc, d, longest, c);
            !q.driver.present && Futile(next) && q.config == p.config && q.installed == p.installed && !Reaches(p, pc)
  {
  }

  lemma {:induction false} OwnerStaysOut(w: World, s: State, t: nat, a: Action, p: nat)
    requires WellFormed(w, s) && p < |s.ports| && LockedOut(w, s, p) && s.holders[p] == Some(t)
    requires !Opens(w, s, Move(t, a), p)
    ensures WellFormed(w, Step(w, s, t, a)) && |Step(w, s, t, a).ports| == |s.ports|
    ensures LockedOut(w, Step(w, s, t, a), p) && SameBehind(w, s, Step(w, s, t, a), p)
  {
    hide P.Step, P.Same, WithLevel, ToWrite, ChangeOf, Reaches, Futile;
    StepKeepsWellFormed(w, s, t, a);
    var k := s.tasks[t];
    if a.Go? && !k.at.pc.Leave? {
      FutileStep(s.ports[p], k.at.pc, w.devices[k.op.dev], w.longest, a.calls);
    }
  }

  lemma {:induction false} ElsewhereBehind(w: World, s: State, t: nat, a: Action, p: nat)
    requires WellFormed(w, s) && p < |s.ports|
    requires t < |s.tasks| && s.tasks[t].at.OnPort? ==> PortOf(w, s.tasks[t]) != p
    ensures WellFormed(w, Step(w, s, t, a)) && |Step(w, s, t, a).ports| == |s.ports|
    ensures SameBehind(w, s, Step(w, s, t, a), p)
  {
    hide P.Step, WithLevel, ToWrite, ChangeOf, Reaches;
    StepKeepsWellFormed(w, s, t, a);
  }

  lemma {:induction false} OthersStayOut(w: World, s: State, t: nat, a: Action, p: nat)
    requires WellFormed(w, s) && PortLocks(w, s) && p < |s.ports| && LockedOut(w, s, p) && s.holders[p] != Some(t)
    ensures WellFormed(w, Step(w, s, t, a)) && |Step(w, s, t, a).ports| == |s.ports|
    ensures LockedOut(w, Step(w, s, t, a), p) && SameBehind(w, s, Step(w, s, t, a), p)
  {
    hide Step, SameBehind;
    if t < |s.tasks| && s.tasks[t].at.OnPort? {
      assert PortHeld(w, s.tasks[t]) == Some(PortOf(w, s.tasks[t]));
    }
    StepElsewhere(w, s, t, a, p);
    ElsewhereBehind(w, s, t, a, p);
  }

  lemma {:induction false} MoveStaysOut(w: World, s: State, m: Move, p: nat)
    requires WellFormed(w, s) && PortLocks(w, s) && p < |s.ports| && LockedOut(w, s, p) && !Opens(w, s, m, p)
    ensures WellFormed(w, Moved(w, s, m)) && |Moved(w, s, m).ports| == |s.ports|
    ensures PortLocks(w, Moved(w, s, m)) && LockedOut(w, Moved(w, s, m), p) && SameBehind(w, s, Moved(w, s, m), p)
  {
    hide Step, PortLocks, LockedOut;
    if m.Move? {
      hide Opens, SameBehind;
      StepKeepsPortLocks(w, s, m.task, m.action);
      if s.holders[p] == Some(m.task) {
        OwnerStaysOut(w, s, m.task, m.action, p);
      } else {
        OthersStayOut(w, s, m.task, m.action, p);
      }
    }
  }

  lemma {:induction false} SameBehindThen(w: World, s: State, r: State, q: State, p: nat)
    requires WellFormed(w, s) && WellFormed(w, r) && WellFormed(w, q) && p < |s.ports| == |r.ports| == |q.ports|
    requires SameBehind(w, s, r, p) && SameBehind(w, r, q, p)
    ensures SameBehind(w, s, q, p)
  {
  }

  /**
    Devices of the cached configuration are locked out of a port without a driver: in any
    interleaving, whatever calls work, no transaction on it succeeds or reaches a device and no
    driver comes back, until one of another configuration is set up or the library is restarted.
  */
  lemma {:induction false} StaleLocksOut(w: World, s: State, moves: seq<Move>, p: nat)
    requires WellFormed(w, s) && PortLocks(w, s) && p < |s.ports| && LockedOut(w, s, p)
    requires forall i {:trigger moves[i]} | 0 <= i < |moves| :: !Opens(w, Run(w, s, moves[..i]), moves[i], p)
    ensures var r := Run(w, s, moves);
            PortLocks(w, r) && LockedOut(w, r, p) && SameBehind(w, s, r, p)
  {
    hide Moved, PortLocks, LockedOut, Opens;
    if moves != [] {
      hide SameBehind;
      var n := |moves| - 1;
      var before := moves[..n];
      forall i | 0 <= i < n ensures !Opens(w, Run(w, s, before[..i]), before[i], p) {
        TakeTake(moves, n, i);
        assert before[i] == moves[i];
      }
      StaleLocksOut(w, s, before, p);
      var r := Run(w, s, before);
      assert !Opens(w, r, moves[n], p);
      MoveStaysOut(w, r, moves[n], p);
      SameBehindThen(w, s, r, Moved(w, r, moves[n]), p);
    }
  }

  /** A transaction has its port to itself, and an operation its device. */
  lemma {:induction false} TransactionsExclude(w: World, s: State, moves: seq<Move>, t: nat, u: nat)
    requires Initial(w, s) && t < |s.tasks| && u < |s.tasks| && t != u
    ensures var r := Run(w, s, moves);
            && !(r.tasks[t].at.OnPort? && r.tasks[u].at.OnPort? && PortOf(w, r.tasks[t]) == PortOf(w, r.tasks[u]))
            && !(HasDevice(r.tasks[t]) && HasDevice(r.tasks[u]) && r.tasks[t].op.dev == r.tasks[u].op.dev)
  {
    hide Run, TasksUpToDate, Logged;
    RunsKeepInv(w, s, moves);
    var r := Run(w, s, moves);
    assert PortHeld(w, r.tasks[t]) == PortHeld(w, r.tasks[u]) != None ==> false;
  }

  /** However an operation ended, its task holds no lock afterwards. */
  lemma {:induction false} IdleHoldsNothing(w: World, s: State, moves: seq<Move>, t: nat)
    requires Initial(w, s) && t < |s.tasks| && Run(w, s, moves).tasks[t].at == Idle
    ensures var r := Run(w, s, moves); Some(t) !in r.owners && Some(t) !in r.holders
  {
    hide Run, TasksUpToDate, Logged;
    RunsKeepInv(w, s, moves);
  }

  // ---------------------------------------------------------------------------------------------
  // No deadlock.
  // ---------------------------------------------------------------------------------------------

  /** Task `a` waits for a lock that task `b` holds. */
  ghost predicate WaitsFor(w: World, s: State, a: nat, b: nat)
    requires WellFormed(w, s)
  {
    && a < |s.tasks|
    && var k := s.tasks[a];
       if k.at.WantDevice? then s.owners[k.op.dev] == Some(b)
       else k.at.WantPort? && s.holders[PortOf(w, k)] == Some(b)
  }

  function Height(k: Task): nat {
    if k.at.WantDevice? then 0 else if k.at.WantPort? then 1 else 2
  }

  lemma {:induction false} WaitingClimbs(w: World, s: State, a: nat, b: nat)
    requires WellFormed(w, s) && DeviceLocks(s) && PortLocks(w, s) && WaitsFor(w, s, a, b)
    ensures b < |s.tasks| && Height(s.tasks[a]) < Height(s.tasks[b])
  {
  }

  /** Each task in the list waits for the next, and the last for the first. */
  ghost predicate CircularWait(w: World, s: State, cs: seq<nat>)
    requires WellFormed(w, s)
  {
    && cs != []
    && (forall i {:trigger cs[i]} | 0 <= i < |cs| - 1 :: WaitsFor(w, s, cs[i], cs[i + 1]))
    && WaitsFor(w, s, cs[|cs| - 1], cs[0])
  }

  lemma {:induction false} ChainClimbs(w: World, s: State, cs: seq<nat>, i: nat)
    requires WellFormed(w, s) && DeviceLocks(s) && PortLocks(w, s) && i < |cs|
    requires forall i {:trigger cs[i]} | 0 <= i < |cs| - 1 :: WaitsFor(w, s, cs[i], cs[i + 1])
    requires cs[0] < |s.tasks|
    ensures cs[i] < |s.tasks| && Height(s.tasks[cs[i]]) >= Height(s.tasks[cs[0]]) + i
  {
    hide WaitsFor, DeviceLocks, PortLocks, Height;
    if i > 0 {
      ChainClimbs(w, s, cs, i - 1);
      WaitingClimbs(w, s, cs[i - 1], cs[i]);
    }
  }

  /** No reachable state has tasks waiting for each other in a circle. */
  lemma {:induction false} NoCircularWait(w: World, s: State, moves: seq<Move>, cs: seq<nat>)
    requires Initial(w, s)
    ensures !CircularWait(w, Run(w, s, moves), cs)
  {
    hide Run, TasksUpToDate, Logged, WaitsFor, Height;
    RunsKeepInv(w, s, moves);
    var r := Run(w, s, moves);
    if CircularWait(w, r, cs) {
      WaitingClimbs(w, r, cs[|cs| - 1], cs[0]);
      ChainClimbs(w, r, cs, |cs| - 1);
    }
  }

  // ---------------------------------------------------------------------------------------------
  // Runs without failures.
  // ---------------------------------------------------------------------------------------------

  /** Every call of the driver in this move works. */
  ghost predicate Working(m: Move) {
    if m.Move? then m.action.Go? ==> P.Works(m.action.calls) else m.kept == {}
  }

  ghost predicate AllWork(moves: seq<Move>) {
    forall i {:trigger moves[i]} | 0 <= i < |moves| :: Working(moves[i])
  }

  ghost predicate ClocksSet(w: World) {
    forall d {:trigger w.devices[d]} | 0 <= d < |w.devices| :: w.devices[d].cfg.clock != 0
  }

  predicate Sound(p: P.Port) {
    P.Healthy(p, P.Compare)
  }

  ghost predicate PortsHealthy(w: World, s: State) {
    && |s.holders| == |s.ports|
    && (forall p {:trigger s.ports[p]} | 0 <= p < |s.ports| && s.holders[p] == None :: Sound(s.ports[p]))
    && (forall t {:trigger s.tasks[t]} | 0 <= t < |s.tasks| && PortHeld(w, s.tasks[t]).Some? ::
          PortHeld(w, s.tasks[t]).value < |s.ports|
          && P.Healthy(s.ports[PortHeld(w, s.tasks[t]).value], s.tasks[t].at.pc))
  }

  lemma {:induction false} OwnerStaysHealthy(w: World, s: State, t: nat, c: P.Calls)
    requires WellFormed(w, s) && Cached(w, s) && PortsHealthy(w, s) && ClocksSet(w) && P.Works(c)
    requires t < |s.tasks| && s.tasks[t].at.OnPort? && !s.tasks[t].at.pc.Leave?
    ensures var r := OnPortStep(w, s, t, c);
            r.tasks[t].at.OnPort? && P.Healthy(r.ports[PortOf(w, s.tasks[t])], r.tasks[t].at.pc)
  {
    hide P.Step, P.Midway, P.Healthy, WithLevel, ToWrite, ChangeOf, Reaches, P.Works;
    var k := s.tasks[t];
    assert PortHeld(w, k) == Some(PortOf(w, k));
    assert w.devices[k.op.dev].cfg.clock != 0;
    P.StepKeepsHealth(s.ports[PortOf(w, k)], k.at.pc, w.devices[k.op.dev], w.longest, c);
  }

  lemma {:induction false} HealthInside(w: World, s: State, r: State, t: nat, p: nat)
    requires WellFormed(w, s) && PortLocks(w, s) && PortsHealthy(w, s) && t < |s.tasks| && p < |s.ports|
    requires PortHeld(w, s.tasks[t]) == Some(p)
    requires r.holders == s.holders && |r.tasks| == |s.tasks| && r.tasks == s.tasks[t := r.tasks[t]]
    requires |r.ports| == |s.ports| && r.ports == s.ports[p := r.ports[p]]
    requires PortHeld(w, r.tasks[t]) == Some(p) && P.Healthy(r.ports[p], r.tasks[t].at.pc)
    ensures PortsHealthy(w, r)
  {
  }

  lemma {:induction false} HealthOutside(w: World, s: State, r: State, t: nat)
    requires WellFormed(w, s) && PortLocks(w, s) && PortsHealthy(w, s) && t < |s.tasks|
    requires r.ports == s.ports && |r.tasks| == |s.tasks| && r.tasks == s.tasks[t := r.tasks[t]]
    requires var a, b := PortHeld(w, s.tasks[t]), PortHeld(w, r.tasks[t]);
             || (a == b == None && r.holders == s.holders)
             || (a == None && b.Some? && b.value < |s.holders| && s.holders[b.value] == None
                 && r.holders == s.holders[b.value := Some(t)] && r.tasks[t].at.pc == P.Compare)
             || (a.Some? && b == None && a.value < |s.holders| && r.holders == s.holders[a.value := None]
                 && s.tasks[t].at.pc.Leave?)
    ensures PortsHealthy(w, r)
  {
  }

  lemma {:induction false} StepKeepsHealthy(w: World, s: State, t: nat, a: Action)
    requires WellFormed(w, s) && PortLocks(w, s) && Cached(w, s) && PortsHealthy(w, s) && ClocksSet(w)
    requires a.Go? ==> P.Works(a.calls)
    ensures PortsHealthy(w, Step(w, s, t, a))
  {
    hide P.Step, P.Works, WithLevel, ToWrite, ChangeOf, Reaches, PortsHealthy, PortLocks, Cached, ClocksSet;
    var r := Step(w, s, t, a);
    if r != s {
      var k := s.tasks[t];
      if k.at.OnPort? && !k.at.pc.Leave? {
        OwnerStaysHealthy(w, s, t, a.calls);
        HealthInside(w, s, r, t, PortOf(w, k));
      } else {
        HealthOutside(w, s, r, t);
      }
    }
  }

  lemma {:induction false} RestartKeepsHealthy(w: World, s: State)
    requires WellFormed(w, s) && PortLocks(w, s) && PortsHealthy(w, s) && AllIdle(s)
    ensures PortsHealthy(w, s.(ports := RestartAll(s.ports, {})))
  {
  }

  /** While nothing fails, nothing gets stuck. */
  lemma {:induction false} HealthyNotStuck(w: World, s: State, m: Move)
    requires WellFormed(w, s) && PortsHealthy(w, s) && Working(m)
    ensures !Sticks(w, s, m)
  {
    if m.Move? && m.task < |s.tasks| && s.tasks[m.task].at.OnPort? {
      assert PortHeld(w, s.tasks[m.task]) == Some(PortOf(w, s.tasks[m.task]));
    }
  }

  lemma {:induction false} NeverStuckSnoc(w: World, s: State, moves: seq<Move>)
    requires WellFormed(w, s) && moves != []
    requires NeverStuck(w, s, moves[..|moves| - 1])
    requires !Sticks(w, Run(w, s, moves[..|moves| - 1]), moves[|moves| - 1])
    ensures NeverStuck(w, s, moves)
  {
    hide Run, Sticks;
    var p := moves[..|moves| - 1];
    forall i | 0 <= i < |moves| ensures !Sticks(w, Run(w, s, moves[..i]), moves[i]) {
      if i < |p| {
        TakeTake(moves, |p|, i);
        assert p[i] == moves[i];
      }
    }
  }

  lemma {:induction false} HealthyRun(w: World, s: State, moves: seq<Move>)
    requires Initial(w, s) && ClocksSet(w) && AllWork(moves)
    ensures PortsHealthy(w, Run(w, s, moves)) && NeverStuck(w, s, moves)
  {
    if moves != [] {
      hide Step, PortsHealthy, DeviceLocks, PortLocks, Cached, TasksUpToDate, Logged, AllIdle, NeverStuck, Sticks;
      var p, m := moves[..|moves| - 1], moves[|moves| - 1];
      assert AllWork(p) by {
        forall i | 0 <= i < |p| ensures Working(p[i]) {
          assert p[i] == moves[i];
        }
      }
      HealthyRun(w, s, p);
      RunsKeepInv(w, s, p);
      CachedRun(w, s, p);
      var r := Run(w, s, p);
      assert Working(m);
      HealthyNotStuck(w, r, m);
      NeverStuckSnoc(w, s, moves);
      if m.Move? {
        StepKeepsHealthy(w, r, m.task, m.action);
      } else if AllIdle(r) {
        RestartKeepsHealthy(w, r);
      }
    }
  }

  /** As long as no call fails, a command also finds a driver installed. */
  lemma {:induction false} CommandsMeetADriver(w: World, s: State, moves: seq<Move>, t: nat)
    requires Initial(w, s) && ClocksSet(w) && AllWork(moves) && t < |s.tasks|
    requires Run(w, s, moves).tasks[t].at.OnPort? && Run(w, s, moves).tasks[t].at.pc == P.Command
    ensures var r := Run(w, s, moves); r.ports[PortOf(w, r.tasks[t])].driver.present
  {
    HealthyRun(w, s, moves);
    CachedRun(w, s, moves);
    var r := Run(w, s, moves);
    var k := r.tasks[t];
    assert PortHeld(w, k).Some?;
    var any := P.Calls(true, true, 0, true, 0, true, true, true, true);
    assert w.devices[k.op.dev].cfg.clock != 0;
    P.StepKeepsHealth(r.ports[PortOf(w, k)], P.Command, w.devices[k.op.dev], w.longest, any);
  }

  // ---------------------------------------------------------------------------------------------
  // Operations come to an end.
  // ---------------------------------------------------------------------------------------------

  /** Task `t` goes on `n` times while the others stand still. */
  ghost function Alone(w: World, s: State, t: nat, c: P.Calls, n: nat): (r: State)
    requires WellFormed(w, s)
    ensures WellFormed(w, r) && |r.tasks| == |s.tasks|
    decreases n
  {
    if n == 0 then s else
      StepKeepsWellFormed(w, s, t, Go(c));
      Alone(w, Step(w, s, t, Go(c)), t, c, n - 1)
  }

  lemma {:induction false} AloneOneMore(w: World, s: State, t: nat, c: P.Calls, n: nat)
    requires WellFormed(w, s)
    ensures Alone(w, s, t, c, n + 1) == Step(w, Alone(w, s, t, c, n), t, Go(c))
    decreases n
  {
    hide Step;
    StepKeepsWellFormed(w, s, t, Go(c));
    if n > 0 { AloneOneMore(w, Step(w, s, t, Go(c)), t, c, n - 1); }
  }

  lemma {:induction false} AloneThen(w: World, s: State, t: nat, c: P.Calls, m: nat, n: nat)
    requires WellFormed(w, s)
    ensures Alone(w, s, t, c, m + n) == Alone(w, Alone(w, s, t, c, m), t, c, n)
    decreases m
  {
    hide Step;
    StepKeepsWellFormed(w, s, t, Go(c));
    if m > 0 { AloneThen(w, Step(w, s, t, Go(c)), t, c, m - 1, n); }
  }

  /** What a transaction that succeeds leaves behind. */
  ghost predicate Transacted(s: State, r: State, t: nat, writing: bool)
    requires t < |s.tasks|
  {
    var k := s.tasks[t];
    && k.op.dev < |s.out|
    && |r.tasks| == |s.tasks| && r.owners == s.owners && r.holders == s.holders
    && r.tasks[t].op == k.op && r.tasks[t].at == OnPort(writing, P.Leave(true))
    && (if writing then r.out == s.out[k.op.dev := ToWrite(k)]
        else r.out == s.out && r.tasks[t].v == s.out[k.op.dev])
  }

  /** The invariants that matter for one task alone. */
  ghost predicate Ready(w: World, s: State, t: nat, c: P.Calls)
    requires WellFormed(w, s)
  {
    t < |s.tasks| && PortLocks(w, s) && Cached(w, s) && PortsHealthy(w, s) && ClocksSet(w) && P.Works(c)
  }

  lemma WorksMeans(c: P.Calls)
    requires P.Works(c)
    ensures c.commandOk && c.deleteOk
  {
  }

  lemma {:induction false} ReadyStays(w: World, s: State, t: nat, c: P.Calls)
    requires WellFormed(w, s) && Ready(w, s, t, c)
    ensures WellFormed(w, Step(w, s, t, Go(c))) && Ready(w, Step(w, s, t, Go(c)), t, c)
  {
    WorksMeans(c);
    hide Step, PortLocks, Cached, PortsHealthy, ClocksSet, P.Works;
    StepKeepsWellFormed(w, s, t, Go(c));
    StepKeepsPortLocks(w, s, t, Go(c));
    HealthyNotStuck(w, s, Move(t, Go(c)));
    StepKeepsCache(w, s, t, Go(c));
    StepKeepsHealthy(w, s, t, Go(c));
  }

  lemma WorkingStep(p: P.Port, pc: P.Pc, d: P.Device, longest: nat, c: P.Calls)
    requires P.Midway(p, pc, d, longest) && P.Healthy(p, pc) && P.Works(c) && d.cfg.clock != 0
    requires !pc.Leave?
    ensures P.Rank(P.Step(p, pc, d, longest, c).1) < P.Rank(pc)
    ensures P.Step(p, pc, d, longest, c).1.Leave? <==> Reaches(p, pc)
    ensures P.Step(p, pc, d, longest, c).1.Leave? ==> P.Step(p, pc, d, longest, c).1 == P.Leave(true)
  {
  }

  /** One step of a transaction of which every call works: nearer to the end, or there. */
  lemma {:induction false} OneStepOn(w: World, s: State, t: nat, c: P.Calls)
    requires WellFormed(w, s) && Ready(w, s, t, c) && s.tasks[t].at.OnPort? && !s.tasks[t].at.pc.Leave?
    ensures var k := s.tasks[t];
            var r := Step(w, s, t, Go(c));
            if r.tasks[t].at.OnPort? && r.tasks[t].at.pc.Leave? then Transacted(s, r, t, k.at.writing)
            else
              && r.tasks[t].at.OnPort? && r.tasks[t].at.writing == k.at.writing
              && P.Rank(r.tasks[t].at.pc) < P.Rank(k.at.pc)
              && r.tasks[t].op == k.op && r.tasks[t].v == k.v
              && r.out == s.out && r.owners == s.owners && r.holders == s.holders
  {
    hide P.Step, P.Midway, P.Healthy, P.Works, WithLevel, ToWrite, Reaches;
    var k := s.tasks[t];
    assert PortHeld(w, k) == Some(PortOf(w, k));
    assert w.devices[k.op.dev].cfg.clock != 0;
    WorkingStep(s.ports[PortOf(w, k)], k.at.pc, w.devices[k.op.dev], w.longest, c);
    assert c.commandOk by { WorksMeans(c); }
  }

  lemma {:induction false} TransactionEnds(w: World, s: State, t: nat, c: P.Calls) returns (n: nat)
    requires WellFormed(w, s) && Ready(w, s, t, c) && s.tasks[t].at.OnPort? && !s.tasks[t].at.pc.Leave?
    ensures var r := Alone(w, s, t, c, n); Ready(w, r, t, c) && Transacted(s, r, t, s.tasks[t].at.writing)
    decreases P.Rank(s.tasks[t].at.pc)
  {
    hide Step, Ready, P.Rank;
    assert t < |s.tasks| by { ReadyIndex(w, s, t, c); }
    OneStepOn(w, s, t, c);
    ReadyStays(w, s, t, c);
    var r := Step(w, s, t, Go(c));
    StepKeepsWellFormed(w, s, t, Go(c));
    if r.tasks[t].at.pc.Leave? {
      n := 1;
    } else {
      var m := TransactionEnds(w, r, t, c);
      n := m + 1;
    }
  }

  lemma ReadyIndex(w: World, s: State, t: nat, c: P.Calls)
    requires WellFormed(w, s) && Ready(w, s, t, c)
    ensures t < |s.tasks|
  {
  }

  /** A transaction from its request to its end. */
  lemma {:induction false} WholeTransaction(w: World, s: State, t: nat, c: P.Calls) returns (n: nat)
    requires WellFormed(w, s) && Ready(w, s, t, c) && s.tasks[t].at.WantPort?
    requires s.holders[PortOf(w, s.tasks[t])] == None
    ensures var r := Alone(w, s, t, c, n);
            var k := s.tasks[t];
            && Ready(w, r, t, c) && k.op.dev < |s.out| && r.owners == s.owners
            && r.holders[PortOf(w, k)] == None
            && r.tasks[t].op == k.op
            && (if k.at.writing then r.out == s.out[k.op.dev := ToWrite(k)] && r.tasks[t].at == LeaveDevice(true)
                else r.out == s.out && (k.op.SetLevel? ==>
                       r.tasks[t].at == WantPort(true)
                       && r.tasks[t].v == WithLevel(s.out[k.op.dev], k.op.pin, k.op.high)))
  {
    hide Ready, P.Step, WithLevel;
    ReadyIndex(w, s, t, c);
    ReadyStays(w, s, t, c);
    var s1 := Step(w, s, t, Go(c));
    var m := TransactionEnds(w, s1, t, c);
    var s2 := Alone(w, s1, t, c, m);
    ReadyStays(w, s2, t, c);
    AloneOneMore(w, s1, t, c, m);
    n := m + 2;
    AloneFirst(w, s, t, c, m + 1);
  }

  lemma {:induction false} AloneFirst(w: World, s: State, t: nat, c: P.Calls, n: nat)
    requires WellFormed(w, s)
    ensures WellFormed(w, Step(w, s, t, Go(c))) && Alone(w, s, t, c, n + 1) == Alone(w, Step(w, s, t, Go(c)), t, c, n)
  {
    hide Step;
    StepKeepsWellFormed(w, s, t, Go(c));
  }

  /** A level change that is left alone and meets no failure comes to its end and does what it says. */
  lemma {:induction false} LevelChangeCompletes(w: World, s: State, t: nat, c: P.Calls) returns (n: nat)
    requires WellFormed(w, s) && Ready(w, s, t, c)
    requires s.tasks[t].at.WantDevice? && s.tasks[t].op.SetLevel? && s.owners[s.tasks[t].op.dev] == None
    requires s.holders[PortOf(w, s.tasks[t])] == None
    ensures var r := Alone(w, s, t, c, n);
            var op := s.tasks[t].op;
            && r.tasks[t].at == Idle
            && r.out == s.out[op.dev := WithLevel(s.out[op.dev], op.pin, op.high)]
            && r.owners == s.owners && r.holders[PortOf(w, s.tasks[t])] == None
  {
    hide Ready, WithLevel, P.Step;
    ReadyIndex(w, s, t, c);
    ReadyStays(w, s, t, c);
    var s1 := Step(w, s, t, Go(c));
    var m := WholeTransaction(w, s1, t, c);
    var s2 := Alone(w, s1, t, c, m);
    var o := WholeTransaction(w, s2, t, c);
    var s3 := Alone(w, s2, t, c, o);
    AloneThen(w, s1, t, c, m, o);
    AloneOneMore(w, s1, t, c, m + o);
    n := m + o + 2;
    AloneFirst(w, s, t, c, m + o + 1);
    assert s3.owners == s.owners[s.tasks[t].op.dev := Some(t)];
    assert s3.owners[s.tasks[t].op.dev := None] == s.owners;
  }

  // ---------------------------------------------------------------------------------------------
  // And they always can.
  // ---------------------------------------------------------------------------------------------

  /** What an impatient task does: it gives up at each lock, and otherwise goes on, whatever fails. */
  function Impatient(k: Task, c: P.Calls): Action {
    if k.at.WantDevice? || k.at.WantPort? then GiveUp else Go(c)
  }

  /** Task `t` goes on impatiently `n` times. */
  ghost function Hurried(w: World, s: State, t: nat, c: P.Calls, n: nat): (r: State)
    requires WellFormed(w, s) && t < |s.tasks|
    ensures WellFormed(w, r) && |r.tasks| == |s.tasks|
    decreases n
  {
    if n == 0 then s else
      StepKeepsWellFormed(w, s, t, Impatient(s.tasks[t], c));
      Hurried(w, Step(w, s, t, Impatient(s.tasks[t], c)), t, c, n - 1)
  }

  function StepsLeft(k: Task): nat {
    match k.at
    case Idle => 0
    case WantDevice => 1
    case LeaveDevice(_) => 1
    case WantPort(_) => 2
    case OnPort(_, pc) => 3 + P.Rank(pc)
  }

  lemma StepsDown(p: P.Port, pc: P.Pc, d: P.Device, longest: nat, c: P.Calls)
    requires !pc.Leave?
    ensures P.Rank(P.Step(p, pc, d, longest, c).1) < P.Rank(pc)
  {
  }

  lemma {:induction false} NearerToTheEnd(w: World, s: State, t: nat, c: P.Calls)
    requires WellFormed(w, s) && t < |s.tasks| && s.tasks[t].at != Idle
    ensures var r := Step(w, s, t, Impatient(s.tasks[t], c));
            && |r.tasks| == |s.tasks| && StepsLeft(r.tasks[t]) < StepsLeft(s.tasks[t])
            && r.tasks[t].op == s.tasks[t].op
  {
    hide P.Step, P.Rank, WithLevel, ToWrite, ChangeOf, Reaches;
    var k := s.tasks[t];
    if k.at.OnPort? && !k.at.pc.Leave? {
      StepsDown(s.ports[PortOf(w, k)], k.at.pc, w.devices[k.op.dev], w.longest, c);
    }
  }

  /** However far an operation has got and whatever fails, a task that does not wait comes to the end of
      it, and then holds no lock. */
  lemma {:induction false} OperationsCanEnd(w: World, s: State, t: nat, c: P.Calls) returns (n: nat)
    requires WellFormed(w, s) && DeviceLocks(s) && PortLocks(w, s) && t < |s.tasks|
    ensures var r := Hurried(w, s, t, c, n);
            r.tasks[t].at == Idle && Some(t) !in r.owners && Some(t) !in r.holders
    decreases StepsLeft(s.tasks[t])
  {
    if s.tasks[t].at == Idle {
      n := 0;
    } else {
      hide Step, Impatient, DeviceLocks, PortLocks;
      var a := Impatient(s.tasks[t], c);
      NearerToTheEnd(w, s, t, c);
      StepKeepsWellFormed(w, s, t, a);
      StepKeepsDeviceLocks(w, s, t, a);
      StepKeepsPortLocks(w, s, t, a);
      var m := OperationsCanEnd(w, Step(w, s, t, a), t, c);
      n := m + 1;
    }
  }

  /** An idle task can begin any operation on a device there is; nothing else changes. */
  lemma OperationsBegin(w: World, s: State, t: nat, op: Op)
    requires WellFormed(w, s) && t < |s.tasks| && s.tasks[t].at == Idle && op.dev < |w.devices|
    ensures Step(w, s, t, Start(op)) == s.(tasks := s.tasks[t := Task(op, WantDevice, 0, 0)])
  {
  }
}
