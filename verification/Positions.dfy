/** The task that turns encoder events into a position and reports them to the application. */
module Positions {
  import opened Encoders
  import opened Queues
  import opened Options
  import opened Seqs
  import B = Button

  datatype Report = BtnPushed | BtnReleased | BtnClicked | BtnLong | PosInc | PosDec

  const INT32_MIN := -0x8000_0000
  const INT32_MAX := 0x7fff_ffff

  /** Arithmetic on 32-bit words in two's complement. */
  function Wrap(n: int): (w: int)
    ensures INT32_MIN <= w <= INT32_MAX
    ensures INT32_MIN <= n <= INT32_MAX <==> w == n
  {
    (n - INT32_MIN) % 0x1_0000_0000 + INT32_MIN
  }

  /** Where the task is in its loop: waiting, about to report, or reported. */
  datatype Pc = Waiting | Decided(report: Report) | Reported

  /** The task's loop position, the position `d` and its copy `q` from the previous round. */
  datatype Task = Task(pc: Pc, d: int, q: int)

  /** A queue with nothing in it that has refused nothing. */
  function Nothing(): Fifo<Event> {
    Fifo([], [])
  }

  datatype System = System(fifo: Fifo<Event>, task: Task)

  datatype Action =
    | Post(events: seq<Event>)        // a tick of the driver
    | Receive                         // the task takes an event and decides what to report
    | Notify(write: Option<int>)      // the callback runs; it holds a pointer to the position
    | Finish                          // end of the round
    | Set(pos: int)                   // the application sets the position

  function Decide(k: B.Kind, d: int, q: int): Report {
    match k
    case BtnPressed => BtnPushed
    case BtnReleased => BtnReleased
    case BtnClicked => BtnClicked
    case BtnLongPressed => BtnLong
    case Changed(_) => if d > q then PosInc else PosDec
  }

  function Moved(k: B.Kind, d: int): int {
    if k.Changed? then Wrap(d + k.diff) else d
  }

  function Take(t: Task, k: B.Kind): Task {
    var d := Moved(k, t.d);
    Task(Decided(Decide(k, d, t.q)), d, t.q)
  }

  function Heard(t: Task, write: Option<int>): Task {
    Task(Reported, if write.Some? then Wrap(write.value) else t.d, t.q)
  }

  /** One step; an action that is not enabled does nothing. */
  function Step(capacity: nat, s: System, a: Action): System {
    match a
    case Post(es) => s.(fifo := SendAll(s.fifo, capacity, es))
    case Receive =>
      if s.task.pc == Waiting && s.fifo.items != [] then
        System(s.fifo.(items := s.fifo.items[1..]), Take(s.task, s.fifo.items[0].kind))
      else s
    case Notify(write) => if s.task.pc.Decided? then s.(task := Heard(s.task, write)) else s
    case Finish => if s.task.pc == Reported then s.(task := Task(Waiting, s.task.d, s.task.d)) else s
    case Set(pos) => s.(task := Task(s.task.pc, Wrap(pos), Wrap(pos)))
  }

  /** The books of a run: all events posted and delivered, the position last written, by whom
      makes no difference, and the events delivered since. */
  datatype Ledger = Ledger(posted: seq<Event>, delivered: seq<Event>, base: int, since: seq<Event>)

  function Enter(s: System, l: Ledger, a: Action): Ledger {
    match a
    case Post(es) => l.(posted := l.posted + es)
    case Receive =>
      if s.task.pc == Waiting && s.fifo.items != [] then
        l.(delivered := l.delivered + [s.fifo.items[0]], since := l.since + [s.fifo.items[0]])
      else l
    case Notify(write) =>
      if s.task.pc.Decided? && write.Some? then l.(base := write.value, since := []) else l
    case Finish => l
    case Set(pos) => l.(base := pos, since := [])
  }

  function Run(capacity: nat, actions: seq<Action>): (System, Ledger) {
    if actions == [] then (System(Nothing(), Task(Waiting, 0, 0)), Ledger([], [], 0, [])) else
      var (s, l) := Run(capacity, actions[..|actions| - 1]);
      var a := actions[|actions| - 1];
      (Step(capacity, s, a), Enter(s, l, a))
  }

  /** The change of position that a list of events stands for. */
  function Travel(es: seq<Event>): int {
    if es == [] then 0 else
      Travel(es[..|es| - 1]) + Diff(es[|es| - 1])
  }

  function Diff(e: Event): int {
    if e.kind.Changed? then e.kind.diff else 0
  }

  lemma {:induction false} SnocTravel(es: seq<Event>, e: Event)
    ensures Travel(es + [e]) == Travel(es) + Diff(e)
  {
  }

  lemma {:induction false} TravelConcat(a: seq<Event>, b: seq<Event>)
    ensures Travel(a + b) == Travel(a) + Travel(b)
  {
    if b == [] {
      Empty(a);
    } else {
      TravelConcat(a, b[..|b| - 1]);
      ConcatLast(a, b);
      TakeSnoc(a + b[..|b| - 1], b[|b| - 1]);
    }
  }

  lemma WrapStep(a: int, b: int)
    ensures Wrap(Wrap(a) + b) == Wrap(a + b)
  {
  }

  // ---------------------------------------------------------------------------------------------
  // Nothing is lost but what the queue refuses, and nothing overtakes.
  // ---------------------------------------------------------------------------------------------

  /** `all` without the events `out`, which are some of its events in its order, is `kept`. */
  ghost predicate Without(all: seq<Event>, out: seq<Event>, kept: seq<Event>)
    decreases |all|
  {
    if all == [] then out == kept == [] else
      var p, e := all[..|all| - 1], all[|all| - 1];
      || (out != [] && out[|out| - 1] == e && Without(p, out[..|out| - 1], kept))
      || (kept != [] && kept[|kept| - 1] == e && Without(p, out, kept[..|kept| - 1]))
  }

  lemma {:induction false} WithoutSnoc(all: seq<Event>, out: seq<Event>, kept: seq<Event>, e: Event)
    requires Without(all, out, kept)
    ensures Without(all + [e], out + [e], kept) && Without(all + [e], out, kept + [e])
  {
    TakeSnoc(all, e);
    TakeSnoc(out, e);
    TakeSnoc(kept, e);
  }

  /** So they are the same events in all, and stand for the same travel. */
  lemma {:induction false} WithoutAdds(all: seq<Event>, out: seq<Event>, kept: seq<Event>)
    requires Without(all, out, kept)
    ensures multiset(all) == multiset(out) + multiset(kept)
    ensures Travel(all) == Travel(out) + Travel(kept)
    decreases |all|
  {
    if all != [] {
      var p, e := all[..|all| - 1], all[|all| - 1];
      SplitLast(all);
      BagSnoc(p, e);
      if out != [] && out[|out| - 1] == e && Without(p, out[..|out| - 1], kept) {
        WithoutAdds(p, out[..|out| - 1], kept);
        SplitLast(out);
        BagSnoc(out[..|out| - 1], e);
      } else {
        WithoutAdds(p, out, kept[..|kept| - 1]);
        SplitLast(kept);
        BagSnoc(kept[..|kept| - 1], e);
      }
    }
  }

  lemma {:induction false} WithoutNothing(all: seq<Event>, out: seq<Event>, kept: seq<Event>)
    requires Without(all, out, kept) && out == []
    ensures kept == all
    decreases |all|
  {
    if all != [] {
      WithoutNothing(all[..|all| - 1], out, kept[..|kept| - 1]);
      SplitLast(all);
      SplitLast(kept);
    }
  }

  /** What was delivered, and behind it what is pending, is what was posted without what was dropped. */
  ghost predicate InOrder(s: System, l: Ledger) {
    Without(l.posted, s.fifo.dropped, l.delivered + s.fifo.items)
  }

  lemma {:induction false} SendKeepsOrder(posted: seq<Event>, delivered: seq<Event>, f: Fifo<Event>, capacity: nat,
      es: seq<Event>)
    requires Without(posted, f.dropped, delivered + f.items)
    ensures var g := SendAll(f, capacity, es); Without(posted + es, g.dropped, delivered + g.items)
  {
    if es == [] {
      Empty(posted);
    } else {
      hide Without;
      var p, e := es[..|es| - 1], es[|es| - 1];
      SendKeepsOrder(posted, delivered, f, capacity, p);
      var g := SendAll(f, capacity, p);
      WithoutSnoc(posted + p, g.dropped, delivered + g.items, e);
      ConcatLast(posted, es);
      Assoc(delivered, g.items, [e]);
    }
  }

  lemma {:induction false} StepKeepsOrder(capacity: nat, s: System, l: Ledger, a: Action)
    requires InOrder(s, l)
    ensures InOrder(Step(capacity, s, a), Enter(s, l, a))
  {
    hide Without, SendAll;
    match a
    case Post(es) => SendKeepsOrder(l.posted, l.delivered, s.fifo, capacity, es);
    case Receive =>
      if s.task.pc == Waiting && s.fifo.items != [] {
        var e, rest := s.fifo.items[0], s.fifo.items[1..];
        SplitFirst(s.fifo.items);
        Assoc(l.delivered, [e], rest);
      }
    case _ =>
  }

  ghost predicate Balanced(s: System, l: Ledger) {
    && multiset(l.posted) == multiset(l.delivered) + multiset(s.fifo.items) + multiset(s.fifo.dropped)
    && Travel(l.posted) == Travel(l.delivered) + Travel(s.fifo.items) + Travel(s.fifo.dropped)
  }

  lemma {:induction false} OrderBalances(s: System, l: Ledger)
    requires InOrder(s, l)
    ensures Balanced(s, l)
  {
    WithoutAdds(l.posted, s.fifo.dropped, l.delivered + s.fifo.items);
    BagConcat(l.delivered, s.fifo.items);
    TravelConcat(l.delivered, s.fifo.items);
  }

  // ---------------------------------------------------------------------------------------------
  // The position.
  // ---------------------------------------------------------------------------------------------

  /** The position is what was last written plus what was delivered since, as a 32-bit word; and
      at the head of the loop the copy agrees with it. */
  ghost predicate Tracks(s: System, l: Ledger) {
    && s.task.d == Wrap(l.base + Travel(l.since))
    && (s.task.pc == Waiting ==> s.task.q == s.task.d)
  }

  lemma {:induction false} StepKeepsTrack(capacity: nat, s: System, l: Ledger, a: Action)
    requires Tracks(s, l)
    ensures Tracks(Step(capacity, s, a), Enter(s, l, a))
  {
    hide Wrap, Travel, SendAll, Decide;
    if Enter(s, l, a).since == [] { NoTravel(Enter(s, l, a).since); }
    if a.Receive? && s.task.pc == Waiting && s.fifo.items != [] {
      var e := s.fifo.items[0];
      SnocTravel(l.since, e);
      if e.kind.Changed? { WrapStep(l.base + Travel(l.since), e.kind.diff); }
    }
  }

  lemma NoTravel(es: seq<Event>)
    requires |es| == 0
    ensures Travel(es) == 0
  {
  }

  /** For every interleaving of ticks, task steps, callbacks that may write, and setter calls. */
  lemma {:induction false} PositionIsConserved(capacity: nat, actions: seq<Action>)
    ensures var (s, l) := Run(capacity, actions); InOrder(s, l) && Balanced(s, l) && Tracks(s, l)
    ensures var (s, l) := Run(capacity, actions); s.fifo.dropped == [] ==> l.delivered + s.fifo.items == l.posted
  {
    if actions == [] {
      NothingYet(capacity, actions);
    } else {
      hide InOrder, Balanced, Tracks, Step, Enter;
      var p, a := actions[..|actions| - 1], actions[|actions| - 1];
      PositionIsConserved(capacity, p);
      var (s, l) := Run(capacity, p);
      StepKeepsOrder(capacity, s, l, a);
      StepKeepsTrack(capacity, s, l, a);
    }
    var (s, l) := Run(capacity, actions);
    OrderBalances(s, l);
    if s.fifo.dropped == [] { WithoutNothing(l.posted, s.fifo.dropped, l.delivered + s.fifo.items); }
  }

  lemma {:induction false} NothingYet(capacity: nat, actions: seq<Action>)
    requires |actions| == 0
    ensures var (s, l) := Run(capacity, actions); InOrder(s, l) && Tracks(s, l)
  {
    var (s, l) := Run(capacity, actions);
    Empty(s.fifo.items);
  }

  /**
    In every reachable round, the direction reported for a step is its sign exactly if the position
    does not run over the end of its 32 bits at that step.
  */
  lemma {:induction false} DirectionIsSign(capacity: nat, actions: seq<Action>)
    requires var s := Run(capacity, actions).0;
             && s.task.pc == Waiting && s.fifo.items != []
             && (s.fifo.items[0].kind == B.Changed(1) || s.fifo.items[0].kind == B.Changed(-1))
    ensures var s := Run(capacity, actions).0;
            var diff := s.fifo.items[0].kind.diff;
            var report := Step(capacity, s, Receive).task.pc.report;
            && (report == PosInc || report == PosDec)
            && ((report == PosInc <==> diff == 1) <==> INT32_MIN <= s.task.d + diff <= INT32_MAX)
  {
    PositionIsConserved(capacity, actions);
    var s := Run(capacity, actions).0;
    DecidesBySign(s.task.d, s.fifo.items[0].kind);
  }

  lemma AtFirst(capacity: nat, actions: seq<Action>)
    requires |actions| == 0
    ensures Run(capacity, actions).0 == System(Nothing(), Task(Waiting, 0, 0))
  {
  }

  /** And it can: one step on from the largest position is reported as a step back. */
  lemma {:induction false} OverflowIsReached(capacity: nat, sender: nat, actions: seq<Action>)
    requires capacity > 0 && |actions| == 2
    requires actions[0] == Set(INT32_MAX) && actions[1] == Post([Event(sender, B.Changed(1))])
    ensures var s := Run(capacity, actions).0;
            && s.task.pc == Waiting && s.task.d == INT32_MAX && s.fifo.items == [Event(sender, B.Changed(1))]
            && Step(capacity, s, Receive).task.pc == Decided(PosDec)
  {
    var e := Event(sender, B.Changed(1));
    var one := actions[..|actions| - 1];
    var s := Run(capacity, one).0;
    AtFirst(capacity, one[..|one| - 1]);
    assert one[|one| - 1] == Set(INT32_MAX);
    assert s == System(Nothing(), Task(Waiting, INT32_MAX, INT32_MAX));
    SendTwo(s.fifo, capacity, e, e);
    Empty([e]);
    DecidesBySign(INT32_MAX, e.kind);
  }

  lemma DecidesBySign(d: int, k: B.Kind)
    requires INT32_MIN <= d <= INT32_MAX && (k == B.Changed(1) || k == B.Changed(-1))
    ensures Decide(k, Moved(k, d), d) == PosInc || Decide(k, Moved(k, d), d) == PosDec
    ensures (Decide(k, Moved(k, d), d) == PosInc <==> k.diff == 1) <==> INT32_MIN <= d + k.diff <= INT32_MAX
  {
  }

  // ---------------------------------------------------------------------------------------------
  // What the application is told.
  // ---------------------------------------------------------------------------------------------

  /** The reports of a run, one for each event the task received. */
  function Reports(capacity: nat, actions: seq<Action>): seq<Report> {
    if actions == [] then [] else
      var p, a := actions[..|actions| - 1], actions[|actions| - 1];
      var s := Run(capacity, p).0;
      var r := Step(capacity, s, a).task.pc;
      if s.task.pc == Waiting && r.Decided? then Reports(capacity, p) + [r.report] else Reports(capacity, p)
  }

  /** This report is the one for this kind of event. */
  predicate Tells(r: Report, k: B.Kind) {
    && (k == B.BtnPressed <==> r == BtnPushed)
    && (k == B.BtnReleased <==> r == BtnReleased)
    && (k == B.BtnClicked <==> r == BtnClicked)
    && (k == B.BtnLongPressed <==> r == BtnLong)
    && (k.Changed? <==> r == PosInc || r == PosDec)
  }

  /** Event by event, the reports are those of the events. */
  ghost predicate AllTold(rs: seq<Report>, es: seq<Event>) {
    |rs| == |es| && forall i {:trigger rs[i]} {:trigger es[i]} | 0 <= i < |rs| :: Tells(rs[i], es[i].kind)
  }

  lemma {:induction false} ToldSnoc(rs: seq<Report>, es: seq<Event>, r: Report, e: Event)
    requires AllTold(rs, es) && Tells(r, e.kind)
    ensures AllTold(rs + [r], es + [e])
  {
  }

  lemma {:induction false} StepTells(capacity: nat, s: System, l: Ledger, a: Action)
    ensures var r, m := Step(capacity, s, a), Enter(s, l, a);
            if s.task.pc == Waiting && r.task.pc.Decided? then
              s.fifo.items != [] && m.delivered == l.delivered + [s.fifo.items[0]]
              && Tells(r.task.pc.report, s.fifo.items[0].kind)
            else m.delivered == l.delivered
  {
    hide Wrap, SendAll;
  }

  /** The application is told of every event delivered, once, in order, and what it was. */
  lemma {:induction false} EveryEventIsTold(capacity: nat, actions: seq<Action>)
    ensures AllTold(Reports(capacity, actions), Run(capacity, actions).1.delivered)
  {
    if actions != [] {
      hide Step, Enter, AllTold, Tells;
      var p, a := actions[..|actions| - 1], actions[|actions| - 1];
      EveryEventIsTold(capacity, p);
      var (s, l) := Run(capacity, p);
      StepTells(capacity, s, l, a);
      var r := Step(capacity, s, a).task.pc;
      if s.task.pc == Waiting && r.Decided? {
        ToldSnoc(Reports(capacity, p), l.delivered, r.report, s.fifo.items[0]);
      }
    }
  }

  predicate IsStep(r: Report) {
    r == PosInc || r == PosDec
  }

  /** The reports of the button alone. */
  function OfButton(rs: seq<Report>): seq<Report> {
    if rs == [] then [] else
      OfButton(rs[..|rs| - 1]) + (if IsStep(rs[|rs| - 1]) then [] else [rs[|rs| - 1]])
  }

  function KindsOf(es: seq<Event>): seq<B.Kind> {
    if es == [] then [] else KindsOf(es[..|es| - 1]) + [es[|es| - 1].kind]
  }

  /** One complete use of the button as the application is told of it. */
  function UseTold(long: bool): seq<Report> {
    if long then [BtnPushed, BtnLong, BtnReleased] else [BtnPushed, BtnReleased, BtnClicked]
  }

  function UsesTold(us: seq<bool>): seq<Report> {
    if us == [] then [] else UsesTold(us[..|us| - 1]) + UseTold(us[|us| - 1])
  }

  ghost predicate Match(rs: seq<Report>, ks: seq<B.Kind>) {
    |rs| == |ks| && forall i {:trigger rs[i]} {:trigger ks[i]} | 0 <= i < |rs| :: Tells(rs[i], ks[i])
  }

  lemma {:induction false} MatchConcat(rs: seq<Report>, ks: seq<B.Kind>, qs: seq<Report>, ls: seq<B.Kind>)
    requires Match(rs, ks) && Match(qs, ls)
    ensures Match(rs + qs, ks + ls)
  {
    hide Tells;
  }

  lemma {:induction false} ButtonsMatch(rs: seq<Report>, es: seq<Event>)
    requires AllTold(rs, es)
    ensures Match(OfButton(rs), B.Buttons(KindsOf(es)))
  {
    if rs != [] {
      var n := |rs| - 1;
      assert Tells(rs[n], es[n].kind);
      ButtonsMatch(rs[..n], es[..n]);
      B.ListenSnoc(KindsOf(es[..n]), es[n].kind);
      var r, k := if IsStep(rs[n]) then [] else [rs[n]], if es[n].kind.Changed? then [] else [es[n].kind];
      MatchConcat(OfButton(rs[..n]), B.Buttons(KindsOf(es[..n])), r, k);
    }
  }

  lemma {:induction false} UsesMatch(us: seq<bool>)
    ensures Match(UsesTold(us), B.Uses(us))
  {
    if us != [] {
      var n := |us| - 1;
      UsesMatch(us[..n]);
      assert Match(UseTold(us[n]), B.Use(us[n]));
      MatchConcat(UsesTold(us[..n]), B.Uses(us[..n]), UseTold(us[n]), B.Use(us[n]));
    }
  }

  /** No two reports of the button are for the same kind of event. */
  lemma {:induction false} SameKindsSameReports(rs: seq<Report>, ks: seq<B.Kind>, qs: seq<Report>, ls: seq<B.Kind>)
    requires Match(rs, ks) && Match(qs, ls) && ks <= ls
    requires forall i {:trigger ls[i]} | 0 <= i < |ls| :: !ls[i].Changed?
    ensures rs <= qs
  {
    forall i | 0 <= i < |rs| ensures rs[i] == qs[i] {
      assert ks[i] == ls[i];
      assert Tells(rs[i], ks[i]) && Tells(qs[i], ls[i]);
    }
  }

  lemma {:induction false} UsesAreButtons(us: seq<bool>)
    ensures forall i {:trigger B.Uses(us)[i]} | 0 <= i < |B.Uses(us)| :: !B.Uses(us)[i].Changed?
  {
    if us != [] { UsesAreButtons(us[..|us| - 1]); }
  }

  /** If the events of the button that were delivered are the beginning of whole uses, what the
      application is told of the button is the beginning of these uses in its own terms. */
  lemma {:induction false} UsesAreTold(capacity: nat, actions: seq<Action>, us: seq<bool>)
    requires B.Buttons(KindsOf(Run(capacity, actions).1.delivered)) <= B.Uses(us)
    ensures OfButton(Reports(capacity, actions)) <= UsesTold(us)
  {
    hide Run, Reports, B.Buttons, KindsOf, B.Uses, UsesTold, OfButton, AllTold, Match;
    EveryEventIsTold(capacity, actions);
    ButtonsMatch(Reports(capacity, actions), Run(capacity, actions).1.delivered);
    UsesMatch(us);
    UsesAreButtons(us);
    SameKindsSameReports(OfButton(Reports(capacity, actions)),
                         B.Buttons(KindsOf(Run(capacity, actions).1.delivered)), UsesTold(us), B.Uses(us));
  }

  // ---------------------------------------------------------------------------------------------
  // The task and the setter.
  // ---------------------------------------------------------------------------------------------

  class MyEncoder {
    const queue: Queue<Event>
    const hasCallback: bool
    var d: int
    var q: int

    constructor (queue: Queue<Event>, hasCallback: bool)
      ensures this.queue == queue && this.hasCallback == hasCallback && d == q == 0
    {
      this.queue, this.hasCallback := queue, hasCallback;
      d, q := 0, 0;
    }

    ghost function State(): System
      reads this, queue
    {
      System(queue.State(), Task(Waiting, d, q))
    }

    /** One round of the task's loop; `write` is what the callback, if there is one, writes. */
    method Round(write: Option<int>) returns (report: Report)
      requires queue.items != []
      modifies this, queue
      ensures var c := queue.capacity;
              var s := Step(c, old(State()), Receive);
              && s.task.pc == Decided(report)
              && State() == Step(c, Step(c, s, Notify(if hasCallback then write else None)), Finish)
      ensures Tells(report, old(queue.items)[0].kind)
    {
      var e := queue.Receive();
      match e.kind {
        case BtnPressed => report := BtnPushed;
        case BtnReleased => report := BtnReleased;
        case BtnClicked => report := BtnClicked;
        case BtnLongPressed => report := BtnLong;
        case Changed(diff) =>
          d := Wrap(d + diff);
          report := if d > q then PosInc else PosDec;
      }
      if hasCallback && write.Some? {
        d := Wrap(write.value);
      }
      q := d;
    }

    method SetCurrent(pos: int)
      modifies this
      ensures State() == Step(queue.capacity, old(State()), Set(pos))
    {
      d := Wrap(pos);
      q := Wrap(pos);
    }
  }
}
