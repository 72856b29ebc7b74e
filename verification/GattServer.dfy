/** The server's event handler: session flags, direct writes, and prepared writes. */
module GattServer {
  import opened Console
  import opened Fragments
  import opened PreparedWrites
  import opened Queues
  import opened Seqs

  datatype Attribute = DataRecv | DataNotifyConfig | OtherAttribute

  datatype Event =
    | Write(attribute: Attribute, value: seq<byte>)
    | Prepare(attribute: Attribute, value: seq<byte>, memory: bool)
    | Execute(commit: bool)
    | Mtu(mtu: nat)
    | Connect
    | Disconnect

  datatype Session = Session(pending: seq<seq<byte>>, rx: seq<byte>, connected: bool, notify: bool, mtu: nat)

  const NOTIFY_ON: seq<byte> := [1, 0]
  const NOTIFY_OFF: seq<byte> := [0, 0]

  function Configured(notify: bool, value: seq<byte>): bool {
    if value == NOTIFY_ON then true else if value == NOTIFY_OFF then false else notify
  }

  function Step(capacity: nat, s: Session, e: Event): Session {
    match e
    case Write(a, value) =>
      if a == DataRecv then s.(rx := Accept(s.rx, capacity, value))
      else if a == DataNotifyConfig then s.(notify := Configured(s.notify, value))
      else s
    case Prepare(a, value, memory) =>
      if a == DataRecv && memory then s.(pending := s.pending + [value]) else s
    case Execute(commit) =>
      if commit then s.(rx := AcceptAll(s.rx, capacity, s.pending), pending := []) else s
    case Mtu(m) => s.(mtu := m)
    case Connect => s.(connected := true)
    case Disconnect => s.(connected := false, notify := false)
  }

  function Run(capacity: nat, s: Session, es: seq<Event>): Session {
    if es == [] then s else Step(capacity, Run(capacity, s, es[..|es| - 1]), es[|es| - 1])
  }

  lemma {:induction false} RunConcat(capacity: nat, s: Session, a: seq<Event>, b: seq<Event>)
    ensures Run(capacity, s, a + b) == Run(capacity, Run(capacity, s, a), b)
  {
    if b == [] {
      Empty(a);
    } else {
      RunConcat(capacity, s, a, b[..|b| - 1]);
      ConcatLast(a, b);
      TakeSnoc(a + b[..|b| - 1], b[|b| - 1]);
    }
  }

  /** The values that a run of events prepares, in order. */
  function Prepared(es: seq<Event>): seq<seq<byte>> {
    if es == [] then [] else
      var e := es[|es| - 1];
      var before := Prepared(es[..|es| - 1]);
      if e.Prepare? && e.attribute == DataRecv && e.memory then before + [e.value] else before
  }

  ghost predicate NoCommit(es: seq<Event>) {
    forall i {:trigger es[i]} | 0 <= i < |es| :: es[i] != Execute(true)
  }

  lemma {:induction false} PendingGrows(capacity: nat, s: Session, es: seq<Event>)
    requires NoCommit(es)
    ensures Run(capacity, s, es).pending == s.pending + Prepared(es)
  {
    if es == [] {
      Empty(s.pending);
    } else {
      var p, e := es[..|es| - 1], es[|es| - 1];
      assert forall i {:trigger p[i]} | 0 <= i < |p| :: p[i] == es[i];
      PendingGrows(capacity, s, p);
      if e.Prepare? {
        Assoc(s.pending, Prepared(p), [e.value]);
      }
    }
  }

  /** The events since the last commit, or all of them. */
  function SinceCommit(es: seq<Event>): seq<Event> {
    if es == [] || es[|es| - 1] == Execute(true) then [] else SinceCommit(es[..|es| - 1]) + [es[|es| - 1]]
  }

  ghost predicate Committed(es: seq<Event>) {
    exists i {:trigger es[i]} | 0 <= i < |es| :: es[i] == Execute(true)
  }

  lemma {:induction false} SinceCommitIs(es: seq<Event>) returns (before: seq<Event>)
    ensures NoCommit(SinceCommit(es))
    ensures if Committed(es) then es == before + [Execute(true)] + SinceCommit(es) else es == SinceCommit(es)
  {
    before := [];
    if es != [] {
      var p, e := es[..|es| - 1], es[|es| - 1];
      SplitLast(es);
      if e == Execute(true) {
        before := p;
        Empty(before + [Execute(true)]);
      } else {
        before := SinceCommitIs(p);
        Assoc(before + [Execute(true)], SinceCommit(p), [e]);
        assert Committed(es) <==> Committed(p) by { CommittedSnoc(p, e); }
      }
    }
  }

  lemma {:induction false} CommittedSnoc(p: seq<Event>, e: Event)
    requires e != Execute(true)
    ensures Committed(p + [e]) <==> Committed(p)
  {
    var es := p + [e];
    if Committed(p) {
      var i :| 0 <= i < |p| && p[i] == Execute(true);
      assert es[i] == Execute(true);
    }
    if Committed(es) {
      var i :| 0 <= i < |es| && es[i] == Execute(true);
      assert p[i] == Execute(true);
    }
  }

  /**
    Whatever happened before and in between, cancels and disconnects included, a commit hands the
    console exactly the values prepared since the commit before it, or, if it is the first, since
    a start with nothing pending, in the order they came.
  */
  lemma {:induction false} CommitHandsWhatWasPrepared(capacity: nat, s: Session, es: seq<Event>)
    requires Committed(es) || s.pending == []
    ensures var t := Run(capacity, s, es);
            var values := Prepared(SinceCommit(es));
            && t.pending == values
            && Step(capacity, t, Execute(true)).rx == AcceptAll(t.rx, capacity, values)
            && Step(capacity, t, Execute(true)).pending == []
  {
    var since := SinceCommit(es);
    var before := SinceCommitIs(es);
    Empty(Prepared(since));
    if Committed(es) {
      RunConcat(capacity, s, before + [Execute(true)], since);
      TakeSnoc(before, Execute(true));
      PendingGrows(capacity, Run(capacity, s, before + [Execute(true)]), since);
    } else {
      PendingGrows(capacity, s, since);
    }
  }

  /** All values handed to the console, in order: those written directly, and with each commit those
      prepared since the one before. */
  function Delivered(es: seq<Event>): seq<seq<byte>> {
    if es == [] then [] else
      var p, e := es[..|es| - 1], es[|es| - 1];
      if e.Write? && e.attribute == DataRecv then Delivered(p) + [e.value]
      else if e == Execute(true) then Delivered(p) + Prepared(SinceCommit(p))
      else Delivered(p)
  }

  lemma {:induction false} DeliveredIsAccepted(capacity: nat, s: Session, es: seq<Event>)
    requires s.pending == []
    ensures Run(capacity, s, es).rx == AcceptAll(s.rx, capacity, Delivered(es))
  {
    if es != [] {
      hide SinceCommit, Prepared, AcceptAll;
      var p, e := es[..|es| - 1], es[|es| - 1];
      DeliveredIsAccepted(capacity, s, p);
      if e == Execute(true) {
        CommitHandsWhatWasPrepared(capacity, s, p);
        AcceptAllConcat(s.rx, capacity, Delivered(p), Prepared(SinceCommit(p)));
      } else if e.Write? && e.attribute == DataRecv {
        AcceptAllSnoc(s.rx, capacity, Delivered(p), e.value);
      }
    } else {
      NothingAccepted(s.rx, capacity, Delivered(es));
    }
  }

  lemma AcceptAllSnoc(queue: seq<byte>, capacity: nat, p: seq<seq<byte>>, c: seq<byte>)
    ensures AcceptAll(queue, capacity, p + [c]) == Accept(AcceptAll(queue, capacity, p), capacity, c)
  {
    TakeSnoc(p, c);
  }

  lemma NothingAccepted(queue: seq<byte>, capacity: nat, chunks: seq<seq<byte>>)
    requires chunks == []
    ensures AcceptAll(queue, capacity, chunks) == queue
  {
  }

  /** The console gets the bytes written and committed, in order, as far as its queue has room. */
  lemma {:induction false} ConsoleGetsTheWrites(capacity: nat, s: Session, es: seq<Event>) returns (n: nat)
    requires s.pending == []
    ensures n <= |Concat(Delivered(es))| && Run(capacity, s, es).rx == s.rx + Concat(Delivered(es))[..n]
    ensures n == |Concat(Delivered(es))| || |Run(capacity, s, es).rx| >= capacity
    ensures |s.rx| <= capacity ==> |Run(capacity, s, es).rx| <= capacity
  {
    hide Run, Accept;
    DeliveredIsAccepted(capacity, s, es);
    AcceptAllIsOne(s.rx, capacity, Delivered(es));
    n := AcceptTakes(s.rx, capacity, Concat(Delivered(es)));
  }

  // ---------------------------------------------------------------------------------------------
  // Cancelling.
  // ---------------------------------------------------------------------------------------------

  /** At these events the client's queue is empty by the Bluetooth Core (Vol 3, Part F): after a
      cancel (section 3.4.6.3), and when the client has gone, as queues of different clients have
      nothing to do with each other (section 3.4.6.1). */
  predicate Drops(e: Event) {
    e == Execute(false) || e == Disconnect
  }

  /** What is pending by that. */
  function StandardPending(pending: seq<seq<byte>>, es: seq<Event>): seq<seq<byte>> {
    if es == [] then pending else
      var e := es[|es| - 1];
      var before := StandardPending(pending, es[..|es| - 1]);
      if e.Prepare? && e.attribute == DataRecv && e.memory then before + [e.value]
      else if e == Execute(true) || Drops(e) then []
      else before
  }

  /** Every cancel and every disconnect in the run finds nothing waiting. */
  ghost predicate IdleDrops(capacity: nat, s: Session, es: seq<Event>) {
    forall i {:trigger es[i]} | 0 <= i < |es| && Drops(es[i]) :: Run(capacity, s, es[..i]).pending == []
  }

  lemma {:induction false} FollowsStandardWithIdleDrops(capacity: nat, s: Session, es: seq<Event>)
    requires IdleDrops(capacity, s, es)
    ensures Run(capacity, s, es).pending == StandardPending(s.pending, es)
  {
    if es != [] {
      var n := |es| - 1;
      IdlePrefix(capacity, s, es, n);
      FollowsStandardWithIdleDrops(capacity, s, es[..n]);
      assert es[n] == es[n];
    }
  }

  /** At every moment of a run the pending values are the standard's, exactly if each cancel and each
      disconnect so far found nothing waiting. */
  lemma {:induction false} FollowsStandardIff(capacity: nat, s: Session, es: seq<Event>)
    ensures (forall n {:trigger es[..n]} | 0 <= n <= |es| ::
               Run(capacity, s, es[..n]).pending == StandardPending(s.pending, es[..n]))
            <==> IdleDrops(capacity, s, es)
  {
    if IdleDrops(capacity, s, es) {
      forall n | 0 <= n <= |es|
        ensures Run(capacity, s, es[..n]).pending == StandardPending(s.pending, es[..n])
      {
        IdlePrefix(capacity, s, es, n);
        FollowsStandardWithIdleDrops(capacity, s, es[..n]);
      }
    }
    if forall n {:trigger es[..n]} | 0 <= n <= |es| ::
         Run(capacity, s, es[..n]).pending == StandardPending(s.pending, es[..n])
    {
      forall i | 0 <= i < |es| && Drops(es[i]) ensures Run(capacity, s, es[..i]).pending == [] {
        TakeTake(es, i + 1, i);
        assert es[..i + 1][i] == es[i];
      }
    }
  }

  lemma {:induction false} IdlePrefix(capacity: nat, s: Session, es: seq<Event>, n: nat)
    requires IdleDrops(capacity, s, es) && n <= |es|
    ensures IdleDrops(capacity, s, es[..n])
  {
    forall i | 0 <= i < n && Drops(es[..n][i]) ensures Run(capacity, s, es[..n][..i]).pending == [] {
      TakeTake(es, n, i);
      assert es[i] == es[..n][i];
    }
  }

  lemma {:induction false} RunSnoc(capacity: nat, s: Session, es: seq<Event>, e: Event)
    ensures Run(capacity, s, es + [e]) == Step(capacity, Run(capacity, s, es), e)
    ensures StandardPending(s.pending, es + [e]) ==
            var before := StandardPending(s.pending, es);
            if e.Prepare? && e.attribute == DataRecv && e.memory then before + [e.value]
            else if e == Execute(true) || Drops(e) then []
            else before
  {
    TakeSnoc(es, e);
  }

  /** A client prepares a value and is lost; the next client's commit delivers it. */
  lemma {:induction false} LostClientIsHeard(capacity: nat, s: Session, es: seq<Event>, value: seq<byte>)
    requires Run(capacity, s, es).pending == []
    ensures var lost := es + [Connect] + [Prepare(DataRecv, value, true)] + [Disconnect] + [Connect];
            && Run(capacity, s, lost).pending == [value]
            && StandardPending(s.pending, lost) == []
            && Run(capacity, s, lost + [Execute(true)]).rx == AcceptAll(Run(capacity, s, es).rx, capacity, [value])
  {
    hide Run, StandardPending;
    var one := es + [Connect];
    var two := one + [Prepare(DataRecv, value, true)];
    var three := two + [Disconnect];
    RunSnoc(capacity, s, es, Connect);
    RunSnoc(capacity, s, one, Prepare(DataRecv, value, true));
    RunSnoc(capacity, s, two, Disconnect);
    RunSnoc(capacity, s, three, Connect);
    RunSnoc(capacity, s, three + [Connect], Execute(true));
  }

  // ---------------------------------------------------------------------------------------------
  // When the link is up.
  // ---------------------------------------------------------------------------------------------

  /** One of the events `on` has happened, and none of the events `off` since. */
  ghost predicate LastlyOn(es: seq<Event>, on: set<Event>, off: set<Event>) {
    exists i {:trigger es[i]} | 0 <= i < |es| && es[i] in on :: NoneSince(es, i, off)
  }

  ghost predicate NoneSince(es: seq<Event>, i: int, off: set<Event>) {
    forall j {:trigger es[j]} | 0 <= j < |es| && i < j :: es[j] !in off
  }

  lemma {:induction false} LastlyOnSnoc(es: seq<Event>, e: Event, on: set<Event>, off: set<Event>)
    ensures LastlyOn(es + [e], on, off) <==> e in on || (e !in off && LastlyOn(es, on, off))
  {
    var all := es + [e];
    TakeSnoc(es, e);
    if e in on {
      assert NoneSince(all, |es|, off) && all[|es|] in on;
    } else {
      if LastlyOn(es, on, off) && e !in off {
        var i :| 0 <= i < |es| && es[i] in on && NoneSince(es, i, off);
        assert all[i] in on && NoneSince(all, i, off);
      }
      if LastlyOn(all, on, off) {
        var i :| 0 <= i < |all| && all[i] in on && NoneSince(all, i, off);
        assert es[i] in on;
        forall j | 0 <= j < |es| && i < j ensures es[j] !in off {
          assert all[j] == es[j];
        }
        assert all[|es|] !in off;
      }
    }
  }

  /** A client is there: the last connection event was a connect. */
  ghost predicate ClientThere(es: seq<Event>) {
    LastlyOn(es, {Connect}, {Disconnect})
  }

  /** It has asked to be notified: notification was switched on, and since then neither was it
      switched off nor did a client leave. */
  ghost predicate Asked(es: seq<Event>) {
    LastlyOn(es, {Write(DataNotifyConfig, [1, 0])}, {Write(DataNotifyConfig, [0, 0]), Disconnect})
  }

  lemma {:induction false} HistorySnoc(es: seq<Event>, e: Event)
    ensures ClientThere(es + [e]) <==> e == Connect || (e != Disconnect && ClientThere(es))
    ensures Asked(es + [e]) <==>
            if e.Write? && e.attribute == DataNotifyConfig then Configured(Asked(es), e.value)
            else e != Disconnect && Asked(es)
  {
    hide LastlyOn;
    LastlyOnSnoc(es, e, {Connect}, {Disconnect});
    LastlyOnSnoc(es, e, {Write(DataNotifyConfig, [1, 0])}, {Write(DataNotifyConfig, [0, 0]), Disconnect});
  }

  lemma {:induction false} FlagsAfter(capacity: nat, s: Session, es: seq<Event>, e: Event)
    requires s.connected == ClientThere(es) && s.notify == Asked(es)
    ensures var r := Step(capacity, s, e); r.connected == ClientThere(es + [e]) && r.notify == Asked(es + [e])
  {
    hide ClientThere, Asked;
    HistorySnoc(es, e);
  }

  /** So the flags are right after any run of events, whatever else was written or prepared. */
  lemma {:induction false} UpIff(capacity: nat, s: Session, es: seq<Event>)
    requires !s.connected && !s.notify
    ensures var r := Run(capacity, s, es); (r.connected <==> ClientThere(es)) && (r.notify <==> Asked(es))
  {
    if es != [] {
      hide ClientThere, Asked;
      var p := es[..|es| - 1];
      UpIff(capacity, s, p);
      SplitLast(es);
      FlagsAfter(capacity, Run(capacity, s, p), p, es[|es| - 1]);
    }
  }

  /** The MTU is the one of the last event that gave one. */
  lemma {:induction false} MtuIsTheLast(capacity: nat, s: Session, before: seq<Event>, m: nat, since: seq<Event>)
    requires forall i {:trigger since[i]} | 0 <= i < |since| :: !since[i].Mtu?
    ensures Run(capacity, s, before + [Mtu(m)] + since).mtu == m
    ensures Run(capacity, s, since).mtu == s.mtu
  {
    hide Step, Run;
    var x := before + [Mtu(m)];
    if since == [] {
      Empty(x);
      RunSnoc(capacity, s, before, Mtu(m));
      StepMtu(capacity, Run(capacity, s, before), Mtu(m));
      RunNothing(capacity, s, since);
    } else {
      var p, e := since[..|since| - 1], since[|since| - 1];
      assert forall i {:trigger p[i]} | 0 <= i < |p| :: p[i] == since[i];
      MtuIsTheLast(capacity, s, before, m, p);
      ConcatLast(x, since);
      SplitLast(since);
      RunSnoc(capacity, s, x + p, e);
      RunSnoc(capacity, s, p, e);
      StepMtu(capacity, Run(capacity, s, x + p), e);
      StepMtu(capacity, Run(capacity, s, p), e);
    }
  }

  lemma StepMtu(capacity: nat, s: Session, e: Event)
    ensures Step(capacity, s, e).mtu == if e.Mtu? then e.mtu else s.mtu
  {
  }

  lemma RunNothing(capacity: nat, s: Session, es: seq<Event>)
    requires es == []
    ensures Run(capacity, s, es) == s
  {
  }

  class Server {
    const buffer: WriteBuffer
    const console: Queue<byte>
    var connected: bool
    var notify: bool
    var mtu: nat
    /** The events so far. */
    ghost var past: seq<Event>

    constructor (console: Queue<byte>)
      ensures Valid() && fresh(buffer) && this.console == console && past == []
      ensures State() == Session([], console.items, false, false, MIN_MTU)
    {
      this.console := console;
      buffer := new WriteBuffer();
      connected, notify, mtu := false, false, MIN_MTU;
      past := [];
    }

    /** The list is in order, and the flags say what has happened. */
    ghost predicate Valid()
      reads this, buffer, buffer.spine
    {
      buffer.Valid() && connected == ClientThere(past) && notify == Asked(past)
    }

    ghost function State(): Session
      reads this, buffer`chunks, console`items
    {
      Session(buffer.chunks, console.items, connected, notify, mtu)
    }

    /** A write to the notify configuration takes effect only if it is two bytes, 1 0 or 0 0. */
    method Configure(value: seq<byte>)
      modifies this`notify
      ensures notify == Configured(old(notify), value)
    {
      if |value| == 2 && value[0] == 1 && value[1] == 0 {
        notify := true;
      } else if |value| == 2 && value[0] == 0 && value[1] == 0 {
        notify := false;
      }
    }

    method Commit()
      requires buffer.Valid()
      modifies buffer, console
      ensures buffer.Valid() && buffer.chunks == []
      ensures console.items == AcceptAll(old(console.items), console.capacity, old(buffer.chunks))
    {
      ghost var _ := buffer.Print(console);
      buffer.Free();
    }

    /** The event's case of the handler. */
    method Dispatch(e: Event)
      requires buffer.Valid()
      modifies this`connected, this`notify, this`mtu, buffer, buffer.p2, console
      ensures buffer.Valid()
      ensures State() == Step(console.capacity, old(State()), e)
    {
      match e {
        case Write(a, value) =>
          if a == DataRecv {
            var _ := LinkRx(console, value);
          } else if a == DataNotifyConfig {
            Configure(value);
          }
        case Prepare(a, value, memory) =>
          if a == DataRecv {
            var _ := buffer.Store(value, memory);
          }
        case Execute(commit) =>
          if commit {
            Commit();
          }
        case Mtu(m) => mtu := m;
        case Connect => connected := true;
        case Disconnect => connected, notify := false, false;
      }
    }

    /** One event, and the note that it has happened. */
    method Handle(e: Event)
      requires Valid()
      modifies this, buffer, buffer.p2, console
      ensures Valid() && past == old(past) + [e]
      ensures State() == Step(console.capacity, old(State()), e)
    {
      Dispatch(e);
      FlagsAfter(console.capacity, old(State()), past, e);
      past := past + [e];
    }

    /** Whether the link task may send: a client is there and has asked for it. */
    method Connected() returns (up: bool)
      requires Valid()
      ensures up <==> ClientThere(past) && Asked(past)
    {
      up := connected && notify;
    }
  }
}
