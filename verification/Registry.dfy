/** The driver's registry of encoders on values: a slot table, one lock, and the periodic poll. */
module Registry {
  import opened Options
  import opened Seqs
  import opened Quadrature
  import opened Encoders
  import B = Button

  datatype Err = Ok | InvalidArg | InvalidState | NoMem | GpioFailed | NotFound

  /** A descriptor as the driver sees it; `index` is the slot it was put in last. */
  datatype Member = Member(enc: Encoder, index: nat)

  datatype Driver = Driver(slots: seq<Option<nat>>, members: map<nat, Member>, locked: bool)

  /** An operation and what its surroundings do: whether the lock comes in time, and the pin setup. */
  datatype Op =
    | Add(id: nat, hasButton: bool, timely: bool, gpioOk: bool)
    | Remove(id: nat, timely: bool)
    | Tick(timely: bool, readings: seq<Reading>)

  function Zeroed(hasButton: bool): Encoder {
    Encoder([], B.Button(B.Released, 0), hasButton)
  }

  function Known(d: Driver, id: nat, hasButton: bool): Member {
    if id in d.members then d.members[id] else Member(Zeroed(hasButton), 0)
  }

  /** The first slot holding `x`, or the number of slots. */
  function Find(slots: seq<Option<nat>>, x: Option<nat>): (i: nat)
    ensures i <= |slots|
    ensures i < |slots| ==> slots[i] == x
    ensures forall k | 0 <= k < i :: slots[k] != x
  {
    if slots == [] then 0 else if slots[0] == x then 0 else
      var i := Find(slots[1..], x);
      assert forall k | 1 <= k < i + 1 :: slots[k] == slots[1..][k - 1];
      i + 1
  }

  lemma FindIs(slots: seq<Option<nat>>, x: Option<nat>, i: nat)
    requires i <= |slots| && (i < |slots| ==> slots[i] == x)
    requires forall k | 0 <= k < i :: slots[k] != x
    ensures Find(slots, x) == i
  {
  }

  function Reset(e: Encoder): Encoder {
    e.(button := B.Button(B.Released, 0))
  }

  function AddTo(d: Driver, id: nat, hasButton: bool, timely: bool, gpioOk: bool): (Driver, Err) {
    var i := Find(d.slots, None);
    if d.locked || !timely then (d, InvalidState)
    else if i == |d.slots| then (d, NoMem)
    else
      var m := Known(d, id, hasButton);
      if !gpioOk then
        (Driver(d.slots[i := Some(id)], d.members[id := m.(index := i)], true), GpioFailed)
      else
        (Driver(d.slots[i := Some(id)], d.members[id := Member(Reset(m.enc), i)], false), Ok)
  }

  function RemoveFrom(d: Driver, id: nat, timely: bool): (Driver, Err) {
    var i := Find(d.slots, Some(id));
    if d.locked || !timely then (d, InvalidState)
    else if i == |d.slots| then (d, NotFound)
    else (d.(slots := d.slots[i := None]), Ok)
  }

  /** Every slot that is taken holds a descriptor the driver knows. */
  ghost predicate Closed(d: Driver) {
    forall i | 0 <= i < |d.slots| && d.slots[i].Some? :: d.slots[i].value in d.members
  }

  /** Polling one slot. */
  function PollSlot(c: B.Config, ms: map<nat, Member>, s: Option<nat>, r: Reading): (map<nat, Member>, seq<Event>) {
    if s.Some? && s.value in ms then
      var (e, ks) := Poll(c, ms[s.value].enc, r);
      (ms[s.value := ms[s.value].(enc := e)], Tagged(s.value, ks))
    else
      (ms, [])
  }

  /** Polling the first `n` slots in order. */
  function PollSlots(c: B.Config, d: Driver, rs: seq<Reading>, n: nat): (r: (map<nat, Member>, seq<Event>))
    requires n <= |d.slots| && n <= |rs|
    ensures r.0.Keys == d.members.Keys
  {
    if n == 0 then (d.members, []) else
      var (ms, log) := PollSlots(c, d, rs, n - 1);
      var (ms', es) := PollSlot(c, ms, d.slots[n - 1], rs[n - 1]);
      (ms', log + es)
  }

  /** The periodic poll, with a reading for each slot: nothing happens unless the lock is there at once. */
  function PollAll(c: B.Config, d: Driver, timely: bool, rs: seq<Reading>): (Driver, seq<Event>) {
    if d.locked || !timely || |rs| < |d.slots| then (d, []) else
      var (ms, log) := PollSlots(c, d, rs, |d.slots|);
      (d.(members := ms), log)
  }

  /** One operation: the new driver and the events it tries to queue. */
  function Step(c: B.Config, d: Driver, op: Op): (Driver, seq<Event>) {
    match op
    case Add(id, hasButton, timely, gpioOk) => (AddTo(d, id, hasButton, timely, gpioOk).0, [])
    case Remove(id, timely) => (RemoveFrom(d, id, timely).0, [])
    case Tick(timely, rs) => PollAll(c, d, timely, rs)
  }

  function Run(c: B.Config, d: Driver, ops: seq<Op>): Driver {
    if ops == [] then d else Step(c, Run(c, d, ops[..|ops| - 1]), ops[|ops| - 1]).0
  }

  function Log(c: B.Config, d: Driver, ops: seq<Op>): seq<Event> {
    if ops == [] then [] else
      var p := ops[..|ops| - 1];
      Log(c, d, p) + Step(c, Run(c, d, p), ops[|ops| - 1]).1
  }

  function Fresh(size: nat): Driver {
    Driver(seq(size, _ => None), map[], false)
  }

  // ---------------------------------------------------------------------------------------------
  // Each encoder runs as if it were alone.
  // ---------------------------------------------------------------------------------------------

  /** What happens to one descriptor. */
  datatype Local = Registered | Polled(reading: Reading)

  /** The polls that the first `n` slots give to a descriptor. */
  function PollsOf(slots: seq<Option<nat>>, rs: seq<Reading>, id: nat, n: nat): seq<Local>
    requires n <= |slots| && n <= |rs|
  {
    if n == 0 then [] else
      PollsOf(slots, rs, id, n - 1) + (if slots[n - 1] == Some(id) then [Polled(rs[n - 1])] else [])
  }

  function LocalStep(d: Driver, op: Op, id: nat): seq<Local> {
    match op
    case Add(i, hasButton, timely, gpioOk) =>
      if i == id && AddTo(d, i, hasButton, timely, gpioOk).1 == Ok then [Registered] else []
    case Remove(_, _) => []
    case Tick(timely, rs) =>
      if d.locked || !timely || |rs| < |d.slots| then [] else PollsOf(d.slots, rs, id, |d.slots|)
  }

  /** The history of one descriptor within a run. */
  function History(c: B.Config, d: Driver, ops: seq<Op>, id: nat): seq<Local> {
    if ops == [] then [] else
      var p := ops[..|ops| - 1];
      History(c, d, p, id) + LocalStep(Run(c, d, p), ops[|ops| - 1], id)
  }

  /** A descriptor and all the events it has sent. */
  datatype Life = Life(enc: Encoder, sent: seq<B.Kind>)

  function React(c: B.Config, x: Life, l: Local): Life {
    match l
    case Registered => Life(Reset(x.enc), x.sent)
    case Polled(r) => Life(Poll(c, x.enc, r).0, x.sent + Poll(c, x.enc, r).1)
  }

  /** The descriptor's automaton on its own history. */
  function Alone(c: B.Config, x: Life, ls: seq<Local>): Life {
    if ls == [] then x else React(c, Alone(c, x, ls[..|ls| - 1]), ls[|ls| - 1])
  }

  /** The events of one sender. */
  function Of(log: seq<Event>, id: nat): seq<B.Kind> {
    if log == [] then [] else
      var e := log[|log| - 1];
      Of(log[..|log| - 1], id) + (if e.sender == id then [e.kind] else [])
  }

  lemma {:induction false} OfConcat(a: seq<Event>, b: seq<Event>, id: nat)
    ensures Of(a + b, id) == Of(a, id) + Of(b, id)
  {
    if b == [] {
      assert a + b == a;
    } else {
      OfConcat(a, b[..|b| - 1], id);
      assert (a + b)[..|a + b| - 1] == a + b[..|b| - 1];
    }
  }

  lemma {:induction false} OfTagged(sender: nat, ks: seq<B.Kind>, id: nat)
    ensures Of(Tagged(sender, ks), id) == if sender == id then ks else []
  {
    if ks != [] {
      OfTagged(sender, ks[..|ks| - 1], id);
      TakeSnoc(Tagged(sender, ks[..|ks| - 1]), Event(sender, ks[|ks| - 1]));
      SplitLast(ks);
    }
  }

  lemma {:induction false} SnocAlone(c: B.Config, x: Life, ls: seq<Local>, l: Local)
    ensures Alone(c, x, ls + [l]) == React(c, Alone(c, x, ls), l)
  {
  }

  lemma {:induction false} AloneConcat(c: B.Config, x: Life, a: seq<Local>, b: seq<Local>)
    ensures Alone(c, x, a + b) == Alone(c, Alone(c, x, a), b)
  {
    if b == [] {
      assert a + b == a;
    } else {
      AloneConcat(c, x, a, b[..|b| - 1]);
      assert (a + b)[..|a + b| - 1] == a + b[..|b| - 1];
    }
  }

  lemma {:induction false} SlotProjects(c: B.Config, ms: map<nat, Member>, s: Option<nat>, r: Reading,
      id: nat, sent: seq<B.Kind>)
    requires id in ms && (s.Some? ==> s.value in ms)
    ensures var (ms', es) := PollSlot(c, ms, s, r);
            && id in ms'
            && Life(ms'[id].enc, sent + Of(es, id)) ==
               if s == Some(id) then React(c, Life(ms[id].enc, sent), Polled(r)) else Life(ms[id].enc, sent)
  {
    assert sent + [] == sent;
    if s.Some? {
      OfTagged(s.value, Poll(c, ms[s.value].enc, r).1, id);
    }
  }

  lemma {:induction false} OfStranger(c: B.Config, ms: map<nat, Member>, s: Option<nat>, r: Reading, id: nat)
    requires s != Some(id)
    ensures Of(PollSlot(c, ms, s, r).1, id) == []
  {
    if s.Some? && s.value in ms {
      OfTagged(s.value, Poll(c, ms[s.value].enc, r).1, id);
    }
  }

  lemma {:induction false} OneMoreSlot(c: B.Config, x: Life, ls: seq<Local>, ms: map<nat, Member>, log: seq<Event>,
      s: Option<nat>, r: Reading, id: nat, sent: seq<B.Kind>)
    requires id in ms && (s.Some? ==> s.value in ms)
    requires Alone(c, x, ls) == Life(ms[id].enc, sent + Of(log, id))
    ensures var (ms', es) := PollSlot(c, ms, s, r);
            && id in ms'
            && Alone(c, x, ls + (if s == Some(id) then [Polled(r)] else [])) ==
               Life(ms'[id].enc, sent + Of(log + es, id))
  {
    SlotProjects(c, ms, s, r, id, sent + Of(log, id));
    SentGrows(sent, log, PollSlot(c, ms, s, r).1, id);
    SnocIf(c, x, ls, s == Some(id), Polled(r));
  }

  lemma {:induction false} SentGrows(sent: seq<B.Kind>, log: seq<Event>, es: seq<Event>, id: nat)
    ensures sent + Of(log + es, id) == sent + Of(log, id) + Of(es, id)
  {
    OfConcat(log, es, id);
    assert sent + (Of(log, id) + Of(es, id)) == sent + Of(log, id) + Of(es, id);
  }

  lemma {:induction false} SnocIf(c: B.Config, x: Life, ls: seq<Local>, b: bool, l: Local)
    ensures Alone(c, x, ls + (if b then [l] else [])) == if b then React(c, Alone(c, x, ls), l) else Alone(c, x, ls)
  {
    SnocAlone(c, x, ls, l);
    assert ls + [] == ls;
  }

  /** Polling the slots treats each descriptor as its own polls would. */
  lemma {:induction false} SlotsProject(c: B.Config, d: Driver, rs: seq<Reading>, n: nat, id: nat, sent: seq<B.Kind>)
    requires n <= |d.slots| && n <= |rs| && Closed(d) && id in d.members
    ensures var (ms, log) := PollSlots(c, d, rs, n);
            Alone(c, Life(d.members[id].enc, sent), PollsOf(d.slots, rs, id, n)) == Life(ms[id].enc, sent + Of(log, id))
  {
    if n == 0 {
      assert sent + [] == sent;
    } else {
      SlotsProject(c, d, rs, n - 1, id, sent);
      var (ms, log) := PollSlots(c, d, rs, n - 1);
      OneMoreSlot(c, Life(d.members[id].enc, sent), PollsOf(d.slots, rs, id, n - 1), ms, log,
                  d.slots[n - 1], rs[n - 1], id, sent);
    }
  }

  lemma {:induction false} StrangersSilent(c: B.Config, d: Driver, rs: seq<Reading>, n: nat, id: nat)
    requires n <= |d.slots| && n <= |rs| && Closed(d) && id !in d.members
    ensures Of(PollSlots(c, d, rs, n).1, id) == [] && PollsOf(d.slots, rs, id, n) == []
  {
    if n != 0 {
      hide PollSlot;
      StrangersSilent(c, d, rs, n - 1, id);
      var (ms, log) := PollSlots(c, d, rs, n - 1);
      OfStranger(c, ms, d.slots[n - 1], rs[n - 1], id);
      OfConcat(log, PollSlot(c, ms, d.slots[n - 1], rs[n - 1]).1, id);
    }
  }

  lemma {:induction false} StepKeepsClosed(c: B.Config, d: Driver, op: Op)
    requires Closed(d)
    ensures Closed(Step(c, d, op).0)
  {
  }

  lemma {:induction false} RunKeepsClosed(c: B.Config, d: Driver, ops: seq<Op>)
    requires Closed(d)
    ensures Closed(Run(c, d, ops))
  {
    if ops != [] {
      RunKeepsClosed(c, d, ops[..|ops| - 1]);
      StepKeepsClosed(c, Run(c, d, ops[..|ops| - 1]), ops[|ops| - 1]);
    }
  }

  ghost predicate SameButton(ops: seq<Op>, id: nat, hasButton: bool) {
    forall i | 0 <= i < |ops| && ops[i].Add? && ops[i].id == id :: ops[i].hasButton == hasButton
  }

  /** The descriptor in a driver, zeroed as long as it was never added. */
  function EncoderIn(d: Driver, id: nat, hasButton: bool): Encoder {
    Known(d, id, hasButton).enc
  }

  lemma {:induction false} StepProjects(c: B.Config, d: Driver, op: Op, id: nat, hasButton: bool, sent: seq<B.Kind>)
    requires Closed(d) && (op.Add? && op.id == id ==> op.hasButton == hasButton)
    ensures Alone(c, Life(EncoderIn(d, id, hasButton), sent), LocalStep(d, op, id)) ==
            Life(EncoderIn(Step(c, d, op).0, id, hasButton), sent + Of(Step(c, d, op).1, id))
  {
    assert sent + [] == sent;
    match op
    case Add(i, b, timely, gpioOk) =>
      AddProjects(c, d, op, id, hasButton, sent);
    case Remove(_, _) =>
    case Tick(timely, rs) =>
      if !d.locked && timely && |rs| >= |d.slots| {
        if id in d.members {
          SlotsProject(c, d, rs, |d.slots|, id, sent);
        } else {
          StrangersSilent(c, d, rs, |d.slots|, id);
        }
      }
  }

  lemma {:induction false} AddProjects(c: B.Config, d: Driver, op: Op, id: nat, hasButton: bool, sent: seq<B.Kind>)
    requires op.Add? && (op.id == id ==> op.hasButton == hasButton)
    ensures Alone(c, Life(EncoderIn(d, id, hasButton), sent), LocalStep(d, op, id)) ==
            Life(EncoderIn(Step(c, d, op).0, id, hasButton), sent)
  {
  }

  /**
    In any history of adds, removals and ticks, the state of a descriptor and the events it sends
    are those of its automaton run alone on what happened to it.
  */
  lemma {:induction false} EncodersAreIndependent(c: B.Config, size: nat, ops: seq<Op>, id: nat, hasButton: bool)
    requires SameButton(ops, id, hasButton)
    ensures Alone(c, Life(Zeroed(hasButton), []), History(c, Fresh(size), ops, id)) ==
            Life(EncoderIn(Run(c, Fresh(size), ops), id, hasButton), Of(Log(c, Fresh(size), ops), id))
  {
    if ops != [] {
      var d0 := Fresh(size);
      var p, op := ops[..|ops| - 1], ops[|ops| - 1];
      EncodersAreIndependent(c, size, p, id, hasButton);
      RunKeepsClosed(c, d0, p);
      var d := Run(c, d0, p);
      StepProjects(c, d, op, id, hasButton, Of(Log(c, d0, p), id));
      OfConcat(Log(c, d0, p), Step(c, d, op).1, id);
      AloneConcat(c, Life(Zeroed(hasButton), []), History(c, d0, p, id), LocalStep(d, op, id));
    }
  }

  // ---------------------------------------------------------------------------------------------
  // The steps one encoder reports are the steps of its walk.
  // ---------------------------------------------------------------------------------------------

  function PinsOf(ls: seq<Local>): seq<Sample> {
    if ls == [] then [] else
      PinsOf(ls[..|ls| - 1]) + (if ls[|ls| - 1].Polled? then [ls[|ls| - 1].reading.pins] else [])
  }

  function StepsIn(ks: seq<B.Kind>): seq<int> {
    if ks == [] then [] else
      StepsIn(ks[..|ks| - 1]) + (if ks[|ks| - 1].Changed? then [ks[|ks| - 1].diff] else [])
  }

  lemma {:induction false} StepsConcat(a: seq<B.Kind>, b: seq<B.Kind>)
    ensures StepsIn(a + b) == StepsIn(a) + StepsIn(b)
  {
    if b == [] {
      assert a + b == a;
    } else {
      StepsConcat(a, b[..|b| - 1]);
      assert (a + b)[..|a + b| - 1] == a + b[..|b| - 1];
    }
  }

  lemma {:induction false} PollSteps(c: B.Config, e: Encoder, r: Reading)
    ensures StepsIn(Poll(c, e, r).1) ==
            var d := DiffAt(e.trace + [r.pins]); if d == 0 then [] else [d]
  {
    var bs, ps := ButtonPart(c, e, r).1, PinsPart(e.trace, r.pins);
    StepsConcat(bs, ps);
    ButtonHasNoSteps(c, e, r);
    if ps != [] { assert ps[..0] == []; }
  }

  lemma {:induction false} ButtonHasNoSteps(c: B.Config, e: Encoder, r: Reading)
    ensures StepsIn(ButtonPart(c, e, r).1) == []
  {
  }

  /** Registering does not disturb the walk: the steps are those of all the pins ever polled. */
  lemma {:induction false} StepsAreOfTheWalk(c: B.Config, hasButton: bool, ls: seq<Local>)
    ensures var x := Alone(c, Life(Zeroed(hasButton), []), ls);
            x.enc.trace == PinsOf(ls) && StepsIn(x.sent) == StepsOf(PinsOf(ls))
  {
    if ls != [] {
      var p, l := ls[..|ls| - 1], ls[|ls| - 1];
      StepsAreOfTheWalk(c, hasButton, p);
      var x := Alone(c, Life(Zeroed(hasButton), []), p);
      if l.Polled? {
        PollSteps(c, x.enc, l.reading);
        StepsConcat(x.sent, Poll(c, x.enc, l.reading).1);
        SnocEdges(PinsOf(p), l.reading.pins);
      }
    }
  }

  /** So the steps in an encoder's part of the driver's log are those of the samples it was polled. */
  lemma StepsEndToEnd(c: B.Config, size: nat, ops: seq<Op>, id: nat, hasButton: bool)
    requires SameButton(ops, id, hasButton)
    ensures StepsIn(Of(Log(c, Fresh(size), ops), id)) == StepsOf(PinsOf(History(c, Fresh(size), ops, id)))
  {
    EncodersAreIndependent(c, size, ops, id, hasButton);
    StepsAreOfTheWalk(c, hasButton, History(c, Fresh(size), ops, id));
  }

  // ---------------------------------------------------------------------------------------------
  // The events one button reports.
  // ---------------------------------------------------------------------------------------------

  /** Who hears this descriptor's events knows its button. */
  predicate Informed(x: Life) {
    B.Listen(x.sent) == B.Believed(x.enc.button.phase)
  }

  /** A use was broken off: the button is up without a word, or what came after makes no sense. */
  predicate Misled(x: Life) {
    || B.Listen(x.sent) == B.Garbled
    || (x.enc.button.phase == B.Released && B.Listen(x.sent) in {B.Believed(B.Pressed), B.Believed(B.LongPressed)})
  }

  lemma {:induction false} PollIsHeard(c: B.Config, x: Life, r: Reading)
    ensures Informed(x) ==> Informed(React(c, x, Polled(r)))
    ensures Misled(x) ==> Misled(React(c, x, Polled(r)))
  {
    hide B.Poll, B.Listen, B.Hear, DiffAt;
    var e := x.enc;
    var (b, ks) := ButtonPart(c, e, r);
    var ls := PinsPart(e.trace, r.pins);
    B.HearPoll(c, e.button, r.down, x.sent);
    Empty(x.sent);
    Assoc(x.sent, ks, ls);
    PinsUnheard(x.sent + ks, e.trace, r.pins);
  }

  lemma {:induction false} PinsUnheard(ks: seq<B.Kind>, t: seq<Sample>, pins: Sample)
    ensures B.Listen(ks + PinsPart(t, pins)) == B.Listen(ks)
  {
    hide DiffAt, B.Listen;
    B.ListenMore(ks, PinsPart(t, pins));
  }

  ghost predicate OnlyPolls(ls: seq<Local>) {
    forall i | 0 <= i < |ls| :: ls[i].Polled?
  }

  lemma {:induction false} PollsAreHeard(c: B.Config, x: Life, ls: seq<Local>)
    requires OnlyPolls(ls)
    ensures Informed(x) ==> Informed(Alone(c, x, ls))
    ensures Misled(x) ==> Misled(Alone(c, x, ls))
  {
    if ls != [] {
      hide Informed, Misled, React;
      PollsAreHeard(c, x, ls[..|ls| - 1]);
      PollIsHeard(c, Alone(c, x, ls[..|ls| - 1]), ls[|ls| - 1].reading);
    }
  }

  lemma {:induction false} PollsOfArePolls(slots: seq<Option<nat>>, rs: seq<Reading>, id: nat, n: nat)
    requires n <= |slots| && n <= |rs|
    ensures OnlyPolls(PollsOf(slots, rs, id, n))
  {
    if n != 0 { PollsOfArePolls(slots, rs, id, n - 1); }
  }

  /** Registering a descriptor while its button is down. */
  predicate Interrupts(d: Driver, op: Op, id: nat, hasButton: bool) {
    && op.Add? && op.id == id && AddTo(d, id, op.hasButton, op.timely, op.gpioOk).1 == Ok
    && EncoderIn(d, id, hasButton).button.phase != B.Released
  }

  lemma {:induction false} StepIsHeard(c: B.Config, d: Driver, op: Op, id: nat, hasButton: bool, x: Life)
    requires x.enc == EncoderIn(d, id, hasButton)
    ensures var y := Alone(c, x, LocalStep(d, op, id));
            && (Informed(x) ==> if Interrupts(d, op, id, hasButton) then Misled(y) else Informed(y))
            && (Misled(x) ==> Misled(y))
  {
    hide B.Listen, AddTo;
    var ls := LocalStep(d, op, id);
    if op.Tick? {
      if ls != [] { PollsOfArePolls(d.slots, op.readings, id, |d.slots|); }
      PollsAreHeard(c, x, ls);
    } else if ls != [] {
      assert ls[..0] == [];
      assert Alone(c, x, ls) == React(c, x, Registered);
    }
  }

  ghost predicate NeverInterrupted(c: B.Config, d: Driver, ops: seq<Op>, id: nat, hasButton: bool) {
    forall i {:trigger ops[i]} | 0 <= i < |ops| :: !Interrupts(Run(c, d, ops[..i]), ops[i], id, hasButton)
  }

  lemma {:induction false} SnocInterrupted(c: B.Config, d: Driver, p: seq<Op>, op: Op, id: nat, hasButton: bool)
    ensures NeverInterrupted(c, d, p + [op], id, hasButton) <==>
            NeverInterrupted(c, d, p, id, hasButton) && !Interrupts(Run(c, d, p), op, id, hasButton)
  {
    hide Run, Interrupts;
    var ops := p + [op];
    TakeSnoc(p, op);
    forall i | 0 <= i < |p| ensures ops[i] == p[i] && ops[..i] == p[..i] {
    }
    if NeverInterrupted(c, d, ops, id, hasButton) {
      assert ops[|p|] == op;
      forall i | 0 <= i < |p| ensures !Interrupts(Run(c, d, p[..i]), p[i], id, hasButton) {
        assert ops[i] == p[i];
      }
    }
  }

  lemma {:induction false} LogIsHeard(c: B.Config, size: nat, ops: seq<Op>, id: nat, hasButton: bool)
    requires SameButton(ops, id, hasButton)
    ensures var d0 := Fresh(size);
            var x := Life(EncoderIn(Run(c, d0, ops), id, hasButton), Of(Log(c, d0, ops), id));
            if NeverInterrupted(c, d0, ops, id, hasButton) then Informed(x) else Misled(x)
  {
    if ops != [] {
      hide Informed, Misled, NeverInterrupted, Interrupts, Alone, Step, Closed, EncoderIn, LocalStep;
      var d0 := Fresh(size);
      var p, op := ops[..|ops| - 1], ops[|ops| - 1];
      SplitLast(ops);
      LogIsHeard(c, size, p, id, hasButton);
      SnocInterrupted(c, d0, p, op, id, hasButton);
      FreshClosed(size);
      RunKeepsClosed(c, d0, p);
      var d, sent := Run(c, d0, p), Of(Log(c, d0, p), id);
      StepProjects(c, d, op, id, hasButton, sent);
      OfConcat(Log(c, d0, p), Step(c, d, op).1, id);
      StepIsHeard(c, d, op, id, hasButton, Life(EncoderIn(d, id, hasButton), sent));
    }
  }

  lemma FreshClosed(size: nat)
    ensures Closed(Fresh(size))
  {
  }

  lemma MisledIsWrong(x: Life)
    requires Misled(x)
    ensures !Informed(x)
  {
  }

  /**
    The button events in an encoder's part of the log are whole uses and the begun part that fits
    its state, exactly if the encoder was never registered while its button was down.
  */
  lemma {:induction false} LogLanguageIff(c: B.Config, size: nat, ops: seq<Op>, id: nat, hasButton: bool)
    requires SameButton(ops, id, hasButton)
    ensures var phase := EncoderIn(Run(c, Fresh(size), ops), id, hasButton).button.phase;
            (exists us :: B.Buttons(Of(Log(c, Fresh(size), ops), id)) == B.Uses(us) + B.Begun(phase))
            <==> NeverInterrupted(c, Fresh(size), ops, id, hasButton)
  {
    hide Misled, NeverInterrupted, Run, Log, EncoderIn, Of;
    var x := Life(EncoderIn(Run(c, Fresh(size), ops), id, hasButton), Of(Log(c, Fresh(size), ops), id));
    LogIsHeard(c, size, ops, id, hasButton);
    if !NeverInterrupted(c, Fresh(size), ops, id, hasButton) { MisledIsWrong(x); }
    B.ListenIff(x.sent, x.enc.button.phase);
  }

  /** That happens: the encoder is added, pressed, and added once more. */
  lemma {:induction false} InterruptIsReached(c: B.Config, id: nat, readings: seq<Reading>, ops: seq<Op>)
    requires |readings| == 2 && readings[0].down && |ops| == 3
    requires ops[0] == ops[2] == Add(id, true, true, true) && ops[1] == Tick(true, readings)
    ensures !NeverInterrupted(c, Fresh(2), ops, id, true)
  {
    var d0 := Fresh(2);
    RunOneMore(c, d0, ops, 0);
    RunOneMore(c, d0, ops, 1);
    FindIs(d0.slots, None, 0);
    var d1 := Step(c, d0, ops[0]).0;
    FindIs(d1.slots, None, 1);
    FirstPress(c, d1, readings, id);
    assert Interrupts(Run(c, d0, ops[..2]), ops[2], id, true);
  }

  lemma {:induction false} RunOneMore(c: B.Config, d: Driver, ops: seq<Op>, n: nat)
    requires n < |ops|
    ensures Run(c, d, ops[..n + 1]) == Step(c, Run(c, d, ops[..n]), ops[n]).0
    ensures Run(c, d, ops[..0]) == d
  {
    hide Step;
    var p := ops[..n + 1];
    TakeTake(ops, n + 1, n);
    assert p[|p| - 1] == ops[n] && p[..|p| - 1] == ops[..n];
  }

  lemma {:induction false} FirstPress(c: B.Config, d: Driver, rs: seq<Reading>, id: nat)
    requires |d.slots| == |rs| == 2 && d.slots[0] == Some(id) && d.slots[1] == None && rs[0].down
    requires id in d.members && d.members[id].enc.hasButton
    requires d.members[id].enc.button == B.Button(B.Released, 0)
    ensures PollSlots(c, d, rs, 2).0[id].enc.button.phase == B.Pressed
  {
    assert PollSlots(c, d, rs, 0) == (d.members, []);
    assert PollSlots(c, d, rs, 1).0 == PollSlot(c, d.members, d.slots[0], rs[0]).0;
  }

  function DownsOf(ls: seq<Local>): seq<bool> {
    if ls == [] then [] else
      DownsOf(ls[..|ls| - 1]) + (if ls[|ls| - 1].Polled? then [ls[|ls| - 1].reading.down] else [])
  }

  lemma {:induction false} ButtonPartOfPoll(c: B.Config, x: Life, r: Reading)
    ensures var y := React(c, x, Polled(r));
            && y.enc.hasButton == x.enc.hasButton
            && y.enc.button == (if x.enc.hasButton then B.Poll(c, x.enc.button, r.down).0 else x.enc.button)
            && B.Buttons(y.sent) == B.Buttons(x.sent) + if x.enc.hasButton then B.Poll(c, x.enc.button, r.down).1 else []
  {
    var ks, ls := ButtonPart(c, x.enc, r).1, PinsPart(x.enc.trace, r.pins);
    hide DiffAt, B.Poll;
    B.PollIsButtons(c, x.enc.button, r.down);
    B.ButtonsConcat(ks, ls);
    B.ButtonsConcat(x.sent, ks + ls);
    NoButtons(ls);
    Empty(B.Buttons(ks));
  }

  lemma NoButtons(ls: seq<B.Kind>)
    requires |ls| <= 1 && forall k <- ls :: k.Changed?
    ensures B.Buttons(ls) == []
  {
    if |ls| == 1 { assert |ls[..0]| == 0; }
  }

  /** From one registration to the next, the button events of an encoder are those of the levels it was
      polled; an encoder without a button has none. */
  lemma {:induction false} ButtonsAreOfTheLevels(c: B.Config, x: Life, ls: seq<Local>)
    requires OnlyPolls(ls)
    ensures var y := Alone(c, x, ls);
            && y.enc.hasButton == x.enc.hasButton
            && B.Buttons(y.sent) == B.Buttons(x.sent) + (if x.enc.hasButton then B.Log(c, x.enc.button, DownsOf(ls)) else [])
            && y.enc.button == if x.enc.hasButton then B.After(c, x.enc.button, DownsOf(ls)) else x.enc.button
  {
    if ls == [] {
      Empty(B.Buttons(x.sent));
    } else {
      hide React, B.Poll, B.Buttons;
      var p, r := ls[..|ls| - 1], ls[|ls| - 1].reading;
      ButtonsAreOfTheLevels(c, x, p);
      ButtonPartOfPoll(c, Alone(c, x, p), r);
      B.SnocRun(c, x.enc.button, DownsOf(p), r.down);
      Assoc(B.Buttons(x.sent), B.Log(c, x.enc.button, DownsOf(p)),
            B.Poll(c, B.After(c, x.enc.button, DownsOf(p)), r.down).1);
      Empty(B.Buttons(x.sent));
    }
  }

  // ---------------------------------------------------------------------------------------------
  // The slot table.
  // ---------------------------------------------------------------------------------------------

  /** No descriptor is in two slots, and each knows its slot. */
  ghost predicate Indexed(d: Driver) {
    && Closed(d)
    && forall i | 0 <= i < |d.slots| && d.slots[i].Some? :: d.members[d.slots[i].value].index == i
  }

  /** An add that puts a descriptor into a second slot: it is in one, and the add is not refused. */
  predicate Doubles(d: Driver, op: Op) {
    op.Add? && op.timely && !d.locked && None in d.slots && Some(op.id) in d.slots
  }

  ghost predicate NeverDoubled(c: B.Config, d: Driver, ops: seq<Op>) {
    forall i {:trigger ops[i]} | 0 <= i < |ops| :: !Doubles(Run(c, d, ops[..i]), ops[i])
  }

  lemma {:induction false} PollKeepsIndex(c: B.Config, d: Driver, rs: seq<Reading>, n: nat, id: nat)
    requires n <= |d.slots| && n <= |rs| && id in d.members
    ensures PollSlots(c, d, rs, n).0[id].index == d.members[id].index
  {
    hide Poll;
    if n != 0 { PollKeepsIndex(c, d, rs, n - 1, id); }
  }

  lemma {:induction false} StepKeepsIndexed(c: B.Config, d: Driver, op: Op)
    requires Indexed(d)
    ensures Indexed(Step(c, d, op).0) <==> !Doubles(d, op)
  {
    hide Poll;
    var d' := Step(c, d, op).0;
    if op.Tick? && d' != d {
      forall i | 0 <= i < |d.slots| && d.slots[i].Some?
        ensures d'.members[d.slots[i].value].index == i
      {
        PollKeepsIndex(c, d, op.readings, |d.slots|, d.slots[i].value);
      }
    }
    if Doubles(d, op) {
      var i, j := Find(d.slots, None), Find(d.slots, Some(op.id));
      assert d'.slots[i] == Some(op.id) == d'.slots[j] && i != j;
    }
  }

  lemma {:induction false} NeverDoubledBefore(c: B.Config, d: Driver, ops: seq<Op>, n: nat)
    requires n <= |ops| && NeverDoubled(c, d, ops)
    ensures NeverDoubled(c, d, ops[..n])
  {
    hide Run, Doubles;
    forall i | 0 <= i < n ensures !Doubles(Run(c, d, ops[..n][..i]), ops[..n][i]) {
      TakeTake(ops, n, i);
      assert ops[..n][i] == ops[i];
    }
  }

  lemma {:induction false} UndoubledIsIndexed(c: B.Config, size: nat, ops: seq<Op>)
    requires NeverDoubled(c, Fresh(size), ops)
    ensures Indexed(Run(c, Fresh(size), ops))
  {
    if ops != [] {
      hide Step, Indexed, Doubles;
      var n := |ops| - 1;
      NeverDoubledBefore(c, Fresh(size), ops, n);
      UndoubledIsIndexed(c, size, ops[..n]);
      StepKeepsIndexed(c, Run(c, Fresh(size), ops[..n]), ops[n]);
      assert ops[n] == ops[n];
    }
  }

  /** Slots and indices agree at every moment of a run exactly if no add in it puts a descriptor into
      a second slot. */
  lemma {:induction false} RunsStayIndexed(c: B.Config, size: nat, ops: seq<Op>)
    ensures (forall n {:trigger ops[..n]} | 0 <= n <= |ops| :: Indexed(Run(c, Fresh(size), ops[..n])))
            <==> NeverDoubled(c, Fresh(size), ops)
  {
    hide Run, Step, Indexed, Doubles, Fresh;
    var d := Fresh(size);
    if NeverDoubled(c, d, ops) {
      forall n | 0 <= n <= |ops| ensures Indexed(Run(c, d, ops[..n])) {
        NeverDoubledBefore(c, d, ops, n);
        UndoubledIsIndexed(c, size, ops[..n]);
      }
    }
    if forall n {:trigger ops[..n]} | 0 <= n <= |ops| :: Indexed(Run(c, d, ops[..n])) {
      forall i | 0 <= i < |ops| ensures !Doubles(Run(c, d, ops[..i]), ops[i]) {
        RunOneMore(c, d, ops, i);
        assert Indexed(Run(c, d, ops[..i])) && Indexed(Run(c, d, ops[..i + 1]));
        StepKeepsIndexed(c, Run(c, d, ops[..i]), ops[i]);
      }
    }
  }

  /** Adding an encoder twice is such a run: the code accepts it. */
  lemma {:induction false} DoubleAddIsAccepted(c: B.Config, id: nat, hasButton: bool, ops: seq<Op>)
    requires |ops| == 2 && ops[0] == ops[1] == Add(id, hasButton, true, true)
    ensures var d := Run(c, Fresh(2), ops);
            d.slots == [Some(id), Some(id)] && !Indexed(d) && !NeverDoubled(c, Fresh(2), ops)
  {
    var d0 := Fresh(2);
    RunOneMore(c, d0, ops, 0);
    RunOneMore(c, d0, ops, 1);
    TakeAll(ops);
    FindIs(d0.slots, None, 0);
    var d1 := Step(c, d0, ops[0]).0;
    FindIs(d1.slots, None, 1);
    assert d1.slots[0] == Some(id) && d1.slots[1] == None;
    assert Doubles(Run(c, d0, ops[..1]), ops[1]);
    var d2 := Step(c, d1, ops[1]).0;
    assert d2.slots[0] == d2.slots[1] == Some(id);
  }

  /** Then a tick that gets the lock polls each registered descriptor exactly once, and no other. */
  lemma {:induction false} PolledOnce(d: Driver, rs: seq<Reading>, id: nat, n: nat)
    requires Indexed(d) && n <= |d.slots| && |d.slots| <= |rs|
    ensures PollsOf(d.slots, rs, id, n) ==
            if Some(id) in d.slots[..n] then [Polled(rs[d.members[id].index])] else []
  {
    if n != 0 {
      PolledOnce(d, rs, id, n - 1);
      assert d.slots[..n] == d.slots[..n - 1] + [d.slots[n - 1]];
      if d.slots[n - 1] == Some(id) {
        assert d.members[id].index == n - 1;
      }
    }
  }

  /** What an add says and does: without the lock nothing, and that it was not to be had; with the lock
      and no free slot nothing, and that there was no room; else the first free slot is taken. */
  lemma {:induction false} AddOutcome(d: Driver, id: nat, hasButton: bool, timely: bool, gpioOk: bool)
    ensures var (r, e) := AddTo(d, id, hasButton, timely, gpioOk);
            && (e == InvalidState <==> d.locked || !timely)
            && (e == NoMem <==> !d.locked && timely && None !in d.slots)
            && (e == Ok <==> !d.locked && timely && None in d.slots && gpioOk)
            && e in {InvalidState, NoMem, GpioFailed, Ok}
            && (e == InvalidState || e == NoMem ==> r == d)
            && (e == Ok ==> id in r.members && !r.locked && r.members[id].enc.button == B.Button(B.Released, 0))
            && (e == Ok || e == GpioFailed ==>
                  exists i {:trigger d.slots[i]} | 0 <= i < |d.slots| ::
                    d.slots[i] == None && None !in d.slots[..i] && r.slots == d.slots[i := Some(id)]
                    && id in r.members && r.members[id].index == i && r.members - {id} == d.members - {id})
  {
    var i := Find(d.slots, None);
    if i < |d.slots| {
      assert d.slots[i] == None && None !in d.slots[..i];
    }
  }

  /** And a removal: it clears the first slot that holds the encoder, or says that there is none. */
  lemma {:induction false} RemoveOutcome(d: Driver, id: nat, timely: bool)
    ensures var (r, e) := RemoveFrom(d, id, timely);
            && (e == InvalidState <==> d.locked || !timely)
            && (e == NotFound <==> !d.locked && timely && Some(id) !in d.slots)
            && (e == Ok <==> !d.locked && timely && Some(id) in d.slots)
            && (e != Ok ==> r == d)
            && (e == Ok ==>
                  r.members == d.members && !r.locked &&
                  exists i {:trigger d.slots[i]} | 0 <= i < |d.slots| ::
                    d.slots[i] == Some(id) && Some(id) !in d.slots[..i] && r.slots == d.slots[i := None])
  {
    var i := Find(d.slots, Some(id));
    if i < |d.slots| {
      assert d.slots[i] == Some(id) && Some(id) !in d.slots[..i];
    }
  }

  /** A tick without the lock polls nobody; with it the events come in the order of the slots. */
  ghost predicate InSlotOrder(d: Driver, log: seq<Event>) {
    forall i, j {:trigger log[i], log[j]} | 0 <= i < j < |log| ::
      log[i].sender in d.members && log[j].sender in d.members
      && d.members[log[i].sender].index <= d.members[log[j].sender].index
  }

  ghost predicate SentBelow(d: Driver, log: seq<Event>, n: nat) {
    forall i {:trigger log[i]} | 0 <= i < |log| :: log[i].sender in d.members && d.members[log[i].sender].index < n
  }

  lemma {:induction false} TaggedAll(sender: nat, ks: seq<B.Kind>)
    ensures forall i | 0 <= i < |Tagged(sender, ks)| :: Tagged(sender, ks)[i].sender == sender
  {
    if ks != [] { TaggedAll(sender, ks[..|ks| - 1]); }
  }

  lemma {:induction false} OrderGrows(d: Driver, log: seq<Event>, es: seq<Event>, id: nat, n: nat)
    requires InSlotOrder(d, log) && SentBelow(d, log, n)
    requires id in d.members && d.members[id].index == n
    requires forall i | 0 <= i < |es| :: es[i].sender == id
    ensures InSlotOrder(d, log + es) && SentBelow(d, log + es, n + 1)
  {
    var all := log + es;
    forall i | 0 <= i < |all| ensures all[i].sender in d.members && d.members[all[i].sender].index < n + 1 {
      assert if i < |log| then all[i] == log[i] else all[i] == es[i - |log|];
    }
    forall i, j | 0 <= i < j < |all| ensures d.members[all[i].sender].index <= d.members[all[j].sender].index {
      if j < |log| {
        assert all[i] == log[i] && all[j] == log[j];
      } else {
        assert all[j] == es[j - |log|];
        assert if i < |log| then all[i] == log[i] else all[i] == es[i - |log|];
      }
    }
  }

  lemma {:induction false} Below(d: Driver, log: seq<Event>, n: nat)
    requires SentBelow(d, log, n)
    ensures SentBelow(d, log, n + 1)
  {
  }

  lemma {:induction false} SlotSends(c: B.Config, ms: map<nat, Member>, s: Option<nat>, r: Reading)
    ensures s.Some? || PollSlot(c, ms, s, r).1 == []
    ensures s.Some? ==> forall i | 0 <= i < |PollSlot(c, ms, s, r).1| :: PollSlot(c, ms, s, r).1[i].sender == s.value
  {
    hide Poll, Tagged;
    if s.Some? && s.value in ms { TaggedAll(s.value, Poll(c, ms[s.value].enc, r).1); }
  }

  lemma NothingSent(d: Driver, log: seq<Event>)
    requires log == []
    ensures InSlotOrder(d, log) && SentBelow(d, log, 0)
  {
  }

  lemma SlotKnown(d: Driver, i: nat)
    requires Indexed(d) && i < |d.slots| && d.slots[i].Some?
    ensures d.slots[i].value in d.members && d.members[d.slots[i].value].index == i
  {
  }

  lemma {:induction false} SlotsInOrder(c: B.Config, d: Driver, rs: seq<Reading>, n: nat)
    requires Indexed(d) && n <= |d.slots| && n <= |rs|
    ensures InSlotOrder(d, PollSlots(c, d, rs, n).1) && SentBelow(d, PollSlots(c, d, rs, n).1, n)
  {
    hide PollSlot, InSlotOrder, SentBelow, Indexed;
    if n == 0 {
      NothingSent(d, PollSlots(c, d, rs, n).1);
    } else {
      SlotsInOrder(c, d, rs, n - 1);
      var (ms, log) := PollSlots(c, d, rs, n - 1);
      var s := d.slots[n - 1];
      SlotSends(c, ms, s, rs[n - 1]);
      if s.Some? {
        SlotKnown(d, n - 1);
        OrderGrows(d, log, PollSlot(c, ms, s, rs[n - 1]).1, s.value, n - 1);
      } else {
        Empty(log);
        Below(d, log, n - 1);
      }
    }
  }

  lemma {:induction false} TickInOrder(c: B.Config, d: Driver, timely: bool, rs: seq<Reading>)
    requires Indexed(d) && |d.slots| <= |rs|
    ensures InSlotOrder(d, Step(c, d, Tick(timely, rs)).1)
    ensures d.locked || !timely ==> Step(c, d, Tick(timely, rs)) == (d, [])
  {
    SlotsInOrder(c, d, rs, |d.slots|);
  }

  /** Removing an encoder that was added gives back the slot table, and nothing else changes. */
  lemma {:induction false} RemoveUndoesAdd(d: Driver, id: nat, hasButton: bool)
    requires Some(id) !in d.slots && !d.locked
    ensures var (d1, e1) := AddTo(d, id, hasButton, true, true);
            var (d2, e2) := RemoveFrom(d1, id, true);
            if None in d.slots then e1 == e2 == Ok && d2 == d1.(slots := d.slots)
            else e1 == NoMem && d1 == d && e2 == NotFound
  {
    var i := Find(d.slots, None);
    if i < |d.slots| {
      var slots := d.slots[i := Some(id)];
      FindIs(slots, Some(id), i);
      assert slots[i := None] == d.slots;
    } else {
      FindIs(d.slots, Some(id), |d.slots|);
    }
  }

  // ---------------------------------------------------------------------------------------------
  // The lock.
  // ---------------------------------------------------------------------------------------------

  /** An add whose pin setup fails returns without giving the lock back. */
  predicate Leaks(d: Driver, op: Op) {
    op.Add? && op.timely && !op.gpioOk && None in d.slots
  }

  ghost predicate SomeLeak(c: B.Config, d: Driver, ops: seq<Op>) {
    exists i :: 0 <= i < |ops| && Leaks(Run(c, d, ops[..i]), ops[i])
  }

  lemma {:induction false} SnocLeak(c: B.Config, d: Driver, p: seq<Op>, op: Op)
    ensures SomeLeak(c, d, p + [op]) <==> SomeLeak(c, d, p) || Leaks(Run(c, d, p), op)
  {
    var ops := p + [op];
    assert ops[..|p|] == p;
    if SomeLeak(c, d, p) {
      var i :| 0 <= i < |p| && Leaks(Run(c, d, p[..i]), p[i]);
      assert ops[..i] == p[..i] && Leaks(Run(c, d, ops[..i]), ops[i]);
    }
    if SomeLeak(c, d, ops) {
      var i :| 0 <= i < |ops| && Leaks(Run(c, d, ops[..i]), ops[i]);
      if i < |p| { assert ops[..i] == p[..i] && Leaks(Run(c, d, p[..i]), p[i]); }
    }
    if Leaks(Run(c, d, p), op) {
      assert Leaks(Run(c, d, ops[..|p|]), ops[|p|]);
    }
  }

  lemma StepLocks(c: B.Config, d: Driver, op: Op)
    ensures Step(c, d, op).0.locked <==> d.locked || Leaks(d, op)
  {
  }

  /** The lock is lost exactly by such an add, and never found again. */
  lemma {:induction false} LockLostIff(c: B.Config, size: nat, ops: seq<Op>)
    ensures Run(c, Fresh(size), ops).locked <==> SomeLeak(c, Fresh(size), ops)
  {
    hide Step, Leaks, SomeLeak, Fresh;
    if ops == [] {
      NoLeakYet(c, size, ops);
    } else {
      var p, op := ops[..|ops| - 1], ops[|ops| - 1];
      LockLostIff(c, size, p);
      StepLocks(c, Run(c, Fresh(size), p), op);
      SplitLast(ops);
      SnocLeak(c, Fresh(size), p, op);
    }
  }

  lemma NoLeakYet(c: B.Config, size: nat, ops: seq<Op>)
    requires |ops| == 0
    ensures !Run(c, Fresh(size), ops).locked && !SomeLeak(c, Fresh(size), ops)
  {
  }

  /** The first add to a fresh driver can lose it. */
  lemma {:induction false} FirstAddCanLeak(c: B.Config, size: nat, id: nat, hasButton: bool, ops: seq<Op>)
    requires size > 0 && |ops| == 1 && ops[0] == Add(id, hasButton, true, false)
    ensures Run(c, Fresh(size), ops).locked
  {
    assert |ops[..0]| == 0;
    var d := Run(c, Fresh(size), ops[..0]);
    assert d.slots[0] == None;
    StepLocks(c, d, ops[0]);
  }

  lemma {:induction false} NothingAfterLeak(c: B.Config, d: Driver, ops: seq<Op>)
    requires d.locked
    ensures Run(c, d, ops) == d && Log(c, d, ops) == []
  {
    if ops != [] { NothingAfterLeak(c, d, ops[..|ops| - 1]); }
  }
}
