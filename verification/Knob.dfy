/** From the pins of one encoder to the position its task keeps. */
module Knob {
  import opened Encoders
  import opened Options
  import opened Quadrature
  import opened Seqs
  import B = Button
  import P = Positions
  import R = Registry
  import W = Winding

  /** The driver does something, and what it emits is queued; or the task or the application acts. */
  datatype Move = Drive(op: R.Op) | Act(action: P.Action)

  function OpsOf(ms: seq<Move>): seq<R.Op> {
    if ms == [] then [] else
      OpsOf(ms[..|ms| - 1]) + (if ms[|ms| - 1].Drive? then [ms[|ms| - 1].op] else [])
  }

  /** What a move means for the queue and its task; only the driver posts. */
  function ActionOf(c: B.Config, d: R.Driver, m: Move): seq<P.Action> {
    match m
    case Drive(op) => [P.Post(R.Step(c, d, op).1)]
    case Act(a) => if a.Post? then [] else [a]
  }

  function ActionsOf(c: B.Config, size: nat, ms: seq<Move>): seq<P.Action> {
    if ms == [] then [] else
      var p := ms[..|ms| - 1];
      ActionsOf(c, size, p) + ActionOf(c, R.Run(c, R.Fresh(size), OpsOf(p)), ms[|ms| - 1])
  }

  lemma {:induction false} RunSnoc(capacity: nat, p: seq<P.Action>, a: P.Action)
    ensures var (s, l) := P.Run(capacity, p);
            P.Run(capacity, p + [a]) == (P.Step(capacity, s, a), P.Enter(s, l, a))
  {
    TakeSnoc(p, a);
  }

  lemma {:induction false} LogSnoc(c: B.Config, d: R.Driver, p: seq<R.Op>, op: R.Op)
    ensures R.Log(c, d, p + [op]) == R.Log(c, d, p) + R.Step(c, R.Run(c, d, p), op).1
  {
    TakeSnoc(p, op);
  }

  lemma OnlyPostsPost(s: P.System, l: P.Ledger, a: P.Action)
    ensures P.Enter(s, l, a).posted == if a.Post? then l.posted + a.events else l.posted
  {
  }

  /** The events posted are the driver's log. */
  lemma {:induction false} PostedIsLog(c: B.Config, size: nat, capacity: nat, ms: seq<Move>)
    ensures P.Run(capacity, ActionsOf(c, size, ms)).1.posted == R.Log(c, R.Fresh(size), OpsOf(ms))
  {
    if ms != [] {
      hide R.Step, R.Fresh, R.Run, R.Log, P.Run, P.Step, P.Enter;
      var p, m := ms[..|ms| - 1], ms[|ms| - 1];
      var d0, as_ := R.Fresh(size), ActionsOf(c, size, p);
      PostedIsLog(c, size, capacity, p);
      var (s, l) := P.Run(capacity, as_);
      Empty(as_);
      Empty(OpsOf(p));
      if m.Drive? {
        LogSnoc(c, d0, OpsOf(p), m.op);
        var a := P.Post(R.Step(c, R.Run(c, d0, OpsOf(p)), m.op).1);
        RunSnoc(capacity, as_, a);
        OnlyPostsPost(s, l, a);
      } else if !m.action.Post? {
        RunSnoc(capacity, as_, m.action);
        OnlyPostsPost(s, l, m.action);
      }
    } else {
      Nothing(c, size, capacity, ms);
    }
  }

  lemma Nothing(c: B.Config, size: nat, capacity: nat, ms: seq<Move>)
    requires |ms| == 0
    ensures P.Run(capacity, ActionsOf(c, size, ms)).1.posted == R.Log(c, R.Fresh(size), OpsOf(ms))
  {
  }

  // ---------------------------------------------------------------------------------------------
  // One encoder.
  // ---------------------------------------------------------------------------------------------

  /** Only this encoder is ever registered. */
  ghost predicate OnlyAdds(ops: seq<R.Op>, id: nat) {
    forall i | 0 <= i < |ops| && ops[i].Add? :: ops[i].id == id
  }

  ghost predicate OnlyIn(slots: seq<Option<nat>>, id: nat) {
    forall i | 0 <= i < |slots| && slots[i].Some? :: slots[i].value == id
  }

  ghost predicate AllFrom(log: seq<Event>, id: nat) {
    forall i | 0 <= i < |log| :: log[i].sender == id
  }

  lemma {:induction false} SlotsFrom(c: B.Config, d: R.Driver, rs: seq<Reading>, n: nat, id: nat)
    requires n <= |d.slots| && n <= |rs| && OnlyIn(d.slots, id)
    ensures AllFrom(R.PollSlots(c, d, rs, n).1, id)
  {
    if n != 0 {
      hide R.PollSlot, AllFrom;
      SlotsFrom(c, d, rs, n - 1, id);
      var (ms, log) := R.PollSlots(c, d, rs, n - 1);
      R.SlotSends(c, ms, d.slots[n - 1], rs[n - 1]);
      OneSlotFrom(log, R.PollSlot(c, ms, d.slots[n - 1], rs[n - 1]).1, d.slots[n - 1], id);
    } else {
      NothingFrom(R.PollSlots(c, d, rs, n).1, id);
    }
  }

  lemma NothingFrom(log: seq<Event>, id: nat)
    requires log == []
    ensures AllFrom(log, id)
  {
  }

  lemma {:induction false} OneSlotFrom(log: seq<Event>, es: seq<Event>, s: Option<nat>, id: nat)
    requires AllFrom(log, id) && (s.Some? ==> s.value == id) && (s.Some? || es == [])
    requires s.Some? ==> forall i | 0 <= i < |es| :: es[i].sender == s.value
    ensures AllFrom(log + es, id)
  {
  }

  lemma {:induction false} StepFrom(c: B.Config, d: R.Driver, op: R.Op, id: nat)
    requires OnlyIn(d.slots, id) && (op.Add? ==> op.id == id)
    ensures OnlyIn(R.Step(c, d, op).0.slots, id) && AllFrom(R.Step(c, d, op).1, id)
  {
    if op.Tick? && |op.readings| >= |d.slots| { SlotsFrom(c, d, op.readings, |d.slots|, id); }
  }

  lemma {:induction false} LogFrom(c: B.Config, size: nat, ops: seq<R.Op>, id: nat)
    requires OnlyAdds(ops, id)
    ensures OnlyIn(R.Run(c, R.Fresh(size), ops).slots, id) && AllFrom(R.Log(c, R.Fresh(size), ops), id)
  {
    if ops != [] {
      hide R.Step;
      var p, op := ops[..|ops| - 1], ops[|ops| - 1];
      LogFrom(c, size, p, id);
      StepFrom(c, R.Run(c, R.Fresh(size), p), op, id);
    }
  }

  lemma {:induction false} TravelIsSteps(log: seq<Event>, id: nat)
    requires AllFrom(log, id)
    ensures P.Travel(log) == W.Sum(R.StepsIn(R.Of(log, id)))
  {
    if log != [] {
      var p, e := log[..|log| - 1], log[|log| - 1];
      TravelIsSteps(p, id);
      TakeSnoc(R.Of(p, id), e.kind);
      Empty(R.StepsIn(R.Of(p, id)));
      if e.kind.Changed? { W.SnocSum(R.StepsIn(R.Of(p, id)), e.kind.diff); }
    }
  }

  lemma {:induction false} SumOfSteps(t: seq<Sample>)
    ensures W.Sum(StepsOf(t)) == W.Sum(Diffs(t))
  {
    if t != [] {
      hide DiffAt;
      var p := t[..|t| - 1];
      SumOfSteps(p);
      Empty(StepsOf(p));
      W.SnocSum(StepsOf(p), DiffAt(t));
      W.SnocSum(Diffs(p), DiffAt(t));
    }
  }

  // ---------------------------------------------------------------------------------------------
  // The position.
  // ---------------------------------------------------------------------------------------------

  predicate Writes(a: P.Action) {
    a.Set? || (a.Notify? && a.write.Some?)
  }

  /** Neither the application nor the callback writes the position. */
  ghost predicate NoWrites(ms: seq<Move>) {
    forall i {:trigger ms[i]} | 0 <= i < |ms| && ms[i].Act? :: !Writes(ms[i].action)
  }

  lemma {:induction false} NotWritten(s: P.System, l: P.Ledger, a: P.Action)
    requires !Writes(a) && l.base == 0 && l.since == l.delivered
    ensures P.Enter(s, l, a).base == 0 && P.Enter(s, l, a).since == P.Enter(s, l, a).delivered
  {
  }

  lemma {:induction false} NeverWritten(c: B.Config, size: nat, capacity: nat, ms: seq<Move>)
    requires NoWrites(ms)
    ensures var l := P.Run(capacity, ActionsOf(c, size, ms)).1; l.base == 0 && l.since == l.delivered
  {
    if ms != [] {
      hide R.Step, R.Fresh, R.Run, P.Run, P.Step, P.Enter;
      var p, m := ms[..|ms| - 1], ms[|ms| - 1];
      assert NoWrites(p) by {
        forall i | 0 <= i < |p| && p[i].Act? ensures !Writes(p[i].action) {
          assert p[i] == ms[i];
        }
      }
      NeverWritten(c, size, capacity, p);
      var as_ := ActionsOf(c, size, p);
      var (s, l) := P.Run(capacity, as_);
      Empty(as_);
      if m.Drive? {
        var a := P.Post(R.Step(c, R.Run(c, R.Fresh(size), OpsOf(p)), m.op).1);
        RunSnoc(capacity, as_, a);
        NotWritten(s, l, a);
      } else if !m.action.Post? {
        RunSnoc(capacity, as_, m.action);
        NotWritten(s, l, m.action);
      }
    } else {
      AtFirst(c, size, capacity, ms);
    }
  }

  lemma AtFirst(c: B.Config, size: nat, capacity: nat, ms: seq<Move>)
    requires |ms| == 0
    ensures var l := P.Run(capacity, ActionsOf(c, size, ms)).1; l.base == 0 && l.since == l.delivered
  {
  }

  /** The samples an encoder was polled in a run. */
  function Walk(c: B.Config, size: nat, ms: seq<Move>, id: nat): seq<Sample> {
    R.PinsOf(R.History(c, R.Fresh(size), OpsOf(ms), id))
  }

  function SystemAfter(c: B.Config, size: nat, capacity: nat, ms: seq<Move>): P.System {
    P.Run(capacity, ActionsOf(c, size, ms)).0
  }

  /** One encoder, and a position nobody writes. */
  ghost predicate Plain(ms: seq<Move>, id: nat, hasButton: bool) {
    OnlyAdds(OpsOf(ms), id) && R.SameButton(OpsOf(ms), id, hasButton) && NoWrites(ms)
  }

  /**
    In every interleaving of driver and task the position is what the decoder emits on the walk of
    all samples polled, less what is still queued and what the queue refused, as a 32-bit word.
  */
  lemma {:induction false} PositionFollowsTheWalk(c: B.Config, size: nat, capacity: nat, ms: seq<Move>, id: nat,
      hasButton: bool)
    requires Plain(ms, id, hasButton)
    ensures var s := SystemAfter(c, size, capacity, ms);
            s.task.d == P.Wrap(W.Sum(Diffs(Walk(c, size, ms, id))) - P.Travel(s.fifo.items) - P.Travel(s.fifo.dropped))
  {
    hide P.Run, P.InOrder, P.Balanced, P.Tracks, P.Wrap, P.Travel, Diffs, W.Sum, ActionsOf, OpsOf, NoWrites;
    hide R.Log, R.History, R.Fresh, R.StepsIn, R.Of, R.PinsOf, R.SameButton, StepsOf, AllFrom, OnlyIn, OnlyAdds;
    var ops := OpsOf(ms);
    P.PositionIsConserved(capacity, ActionsOf(c, size, ms));
    NeverWritten(c, size, capacity, ms);
    PostedIsLog(c, size, capacity, ms);
    LogFrom(c, size, ops, id);
    TravelIsSteps(R.Log(c, R.Fresh(size), ops), id);
    R.StepsEndToEnd(c, size, ops, id, hasButton);
    SumOfSteps(Walk(c, size, ms, id));
    var (s, l) := P.Run(capacity, ActionsOf(c, size, ms));
    Books(s, l);
  }

  lemma {:induction false} Books(s: P.System, l: P.Ledger)
    requires P.Balanced(s, l) && P.Tracks(s, l) && l.base == 0 && l.since == l.delivered
    ensures s.task.d == P.Wrap(P.Travel(l.posted) - P.Travel(s.fifo.items) - P.Travel(s.fifo.dropped))
  {
    hide P.Wrap, P.Travel;
  }

  /** Once everything is delivered and nothing was refused, the position of a knob that started at
      the detent is the number of its clean turns. */
  lemma {:induction false} PositionIsCleanTurns(c: B.Config, size: nat, capacity: nat, ms: seq<Move>, id: nat,
      hasButton: bool)
    requires Plain(ms, id, hasButton) && W.FromDetent(Walk(c, size, ms, id))
    requires SystemAfter(c, size, capacity, ms).fifo == P.Nothing()
    ensures SystemAfter(c, size, capacity, ms).task.d ==
            P.Wrap(W.CleanTotal(W.Cut(W.Moves(Walk(c, size, ms, id))).closed))
  {
    hide P.Run, R.History, P.Wrap, Diffs, W.Cut, W.Moves;
    PositionFollowsTheWalk(c, size, capacity, ms, id, hasButton);
    W.EmittedIsClean(Walk(c, size, ms, id));
    P.NoTravel(SystemAfter(c, size, capacity, ms).fifo.items);
    P.NoTravel(SystemAfter(c, size, capacity, ms).fifo.dropped);
  }

  /** If it rests at the detent and each of its excursions is one the decoder counts right, it is
      the number of revolutions. */
  lemma {:induction false} PositionIsRevolutions(c: B.Config, size: nat, capacity: nat, ms: seq<Move>, id: nat,
      hasButton: bool)
    requires Plain(ms, id, hasButton) && W.FromDetent(Walk(c, size, ms, id))
    requires SystemAfter(c, size, capacity, ms).fifo == P.Nothing()
    requires LastSample(Walk(c, size, ms, id)) == DETENT
    requires forall x <- W.Cut(W.Moves(Walk(c, size, ms, id))).closed :: W.Counted(x)
    ensures var turned := W.Unrolled(Walk(c, size, ms, id));
            turned % 4 == 0 && SystemAfter(c, size, capacity, ms).task.d == P.Wrap(turned / 4)
  {
    hide Walk, Plain, SystemAfter, P.Wrap, W.Cut, W.Moves, W.Counted, W.FromDetent, W.CleanTotal, W.Unrolled;
    PositionIsCleanTurns(c, size, capacity, ms, id, hasButton);
    CleanTurnsAreRevolutions(Walk(c, size, ms, id));
  }

  lemma {:induction false} CleanTurnsAreRevolutions(t: seq<Sample>)
    requires W.FromDetent(t) && LastSample(t) == DETENT
    requires forall x <- W.Cut(W.Moves(t)).closed :: W.Counted(x)
    ensures W.Unrolled(t) == 4 * W.CleanTotal(W.Cut(W.Moves(t)).closed)
  {
    hide W.Cut, W.Moves, W.Counted, W.CleanTotal, W.Unrolled;
    W.ExactIff(t);
    W.EmittedIsClean(t);
    TakeAll(t);
    assert t[|t| - 1] == DETENT;
  }

  // ---------------------------------------------------------------------------------------------
  // The reports.
  // ---------------------------------------------------------------------------------------------

  lemma {:induction false} KindsConcat(a: seq<Event>, b: seq<Event>)
    ensures P.KindsOf(a + b) == P.KindsOf(a) + P.KindsOf(b)
  {
    if b == [] {
      Empty(a);
      Empty(P.KindsOf(a));
    } else {
      var p, e := b[..|b| - 1], b[|b| - 1];
      KindsConcat(a, p);
      ConcatLast(a, b);
      TakeSnoc(a + p, e);
      Assoc(P.KindsOf(a), P.KindsOf(p), [e.kind]);
    }
  }

  lemma {:induction false} KindsAreOf(log: seq<Event>, id: nat)
    requires AllFrom(log, id)
    ensures P.KindsOf(log) == R.Of(log, id)
  {
    if log != [] { KindsAreOf(log[..|log| - 1], id); }
  }

  /**
    From the level of the pin to the callback: with one encoder that is never registered while its
    button is down, and nothing refused by the queue, the application is told of whole uses of the
    button, one after the other, and the beginning of one more.
  */
  lemma {:induction false} UsesReachTheApplication(c: B.Config, size: nat, capacity: nat, ms: seq<Move>, id: nat,
      hasButton: bool) returns (us: seq<bool>)
    requires OnlyAdds(OpsOf(ms), id) && R.SameButton(OpsOf(ms), id, hasButton)
    requires R.NeverInterrupted(c, R.Fresh(size), OpsOf(ms), id, hasButton)
    requires SystemAfter(c, size, capacity, ms).fifo.dropped == []
    ensures P.OfButton(P.Reports(capacity, ActionsOf(c, size, ms))) <= P.UsesTold(us)
  {
    hide P.Run, P.InOrder, P.Balanced, P.Tracks, P.Reports, P.OfButton, P.UsesTold, P.KindsOf, ActionsOf, OpsOf;
    hide R.Log, R.Run, R.Fresh, R.Of, R.SameButton, R.EncoderIn, R.NeverInterrupted, AllFrom, OnlyIn, OnlyAdds;
    hide B.Uses, B.Begun, B.Buttons;
    var ops := OpsOf(ms);
    var actions := ActionsOf(c, size, ms);
    P.PositionIsConserved(capacity, actions);
    PostedIsLog(c, size, capacity, ms);
    LogFrom(c, size, ops, id);
    var (s, l) := P.Run(capacity, actions);
    KindsAreOf(l.posted, id);
    KindsConcat(l.delivered, s.fifo.items);
    B.ButtonsConcat(P.KindsOf(l.delivered), P.KindsOf(s.fifo.items));
    R.LogLanguageIff(c, size, ops, id, hasButton);
    var phase := R.EncoderIn(R.Run(c, R.Fresh(size), ops), id, hasButton).button.phase;
    var vs :| B.Buttons(R.Of(R.Log(c, R.Fresh(size), ops), id)) == B.Uses(vs) + B.Begun(phase);
    us := vs + [phase == B.LongPressed];
    B.BegunIsPrefix(vs, phase);
    P.UsesAreTold(capacity, actions, us);
  }
}
