/** The uplink from the console's queue to the notifications, as interleaved steps. */
module Uplink {
  import opened Console
  import opened Fragments
  import opened Seqs
  import G = GattServer

  /** Where the link task is: between lines, filling its buffer, about to send, or gone. */
  datatype Link = Pausing | Reading(line: seq<byte>) | Holding(line: seq<byte>) | Dead

  /**
    The queue, the link task and the session. The last three fields are the books: every byte the
    queue took, every line sent and at which MTU, and the line that was in hand when the task died.
  */
  datatype State = State(queue: seq<byte>, link: Link, connected: bool, notify: bool, mtu: nat,
                         accepted: seq<byte>, out: seq<Message>, lost: seq<byte>)

  datatype Action =
    | Put(b: byte)            // some task's send to the queue
    | StartRead               // the link task finds the session up and starts on a line
    | TakeByte                // its wait for a byte succeeds
    | Timeout                 // its wait for a byte fails: the queue is empty
    | Send(memory: bool)      // it sends the line, if there is memory for a long one
    | Connect | Disconnect | Notify(on: bool) | Mtu(mtu: nat)

  function Started(): State {
    State([], Pausing, false, false, MIN_MTU, [], [], [])
  }

  function Taken(line: seq<byte>, b: byte): Link {
    if b == NUL then Holding(line)
    else if b == NEWLINE || |line| + 1 == UPLINK_BUFSIZE then Holding(line + [b])
    else Reading(line + [b])
  }

  function Sent(s: State, line: seq<byte>, memory: bool): State {
    if line == [] then s.(link := Pausing)
    else if |line| <= Whole(s.mtu) || memory then s.(link := Pausing, out := s.out + [Message(line, s.mtu)])
    else s.(link := Dead, lost := line)
  }

  /** One step; an action that is not enabled does nothing. */
  function Step(capacity: nat, s: State, a: Action): State {
    match a
    case Put(b) => if |s.queue| < capacity then s.(queue := s.queue + [b], accepted := s.accepted + [b]) else s
    case StartRead => if s.link == Pausing && s.connected && s.notify then s.(link := Reading([])) else s
    case TakeByte =>
      if s.link.Reading? && s.queue != [] then s.(queue := s.queue[1..], link := Taken(s.link.line, s.queue[0])) else s
    case Timeout => if s.link.Reading? && s.queue == [] then s.(link := Holding(s.link.line)) else s
    case Send(memory) => if s.link.Holding? then Sent(s, s.link.line, memory) else s
    case Connect => s.(connected := true)
    case Disconnect => s.(connected := false, notify := false)
    case Notify(on) => s.(notify := on)
    case Mtu(m) => s.(mtu := m)
  }

  function Run(capacity: nat, actions: seq<Action>): State {
    if actions == [] then Started() else Step(capacity, Run(capacity, actions[..|actions| - 1]), actions[|actions| - 1])
  }

  /** No MTU below the minimum of the Bluetooth Core is ever agreed on. */
  ghost predicate Standard(actions: seq<Action>) {
    forall i {:trigger actions[i]} | 0 <= i < |actions| :: actions[i].Mtu? ==> actions[i].mtu >= MIN_MTU
  }

  /** The line in the task's buffer. */
  function InHand(l: Link): seq<byte> {
    if l.Reading? || l.Holding? then l.line else []
  }

  ghost predicate Fits(m: Message) {
    IsLine(m.line) && 1 <= |m.line| <= UPLINK_BUFSIZE && m.mtu >= MIN_MTU
  }

  ghost predicate AllFit(ms: seq<Message>) {
    forall i {:trigger ms[i]} | 0 <= i < |ms| :: Fits(ms[i])
  }

  /** The shapes of the buffer and of what was sent. */
  ghost predicate Shaped(s: State) {
    && s.mtu >= MIN_MTU
    && (s.link.Reading? ==> |s.link.line| < UPLINK_BUFSIZE && IsLine(s.link.line) && NEWLINE !in s.link.line)
    && (s.link.Holding? ==> |s.link.line| <= UPLINK_BUFSIZE && IsLine(s.link.line))
    && (s.lost != [] ==> s.link == Dead)
    && AllFit(s.out)
  }

  lemma {:induction false} StepKeepsShape(capacity: nat, s: State, a: Action)
    requires Shaped(s) && (a.Mtu? ==> a.mtu >= MIN_MTU)
    ensures Shaped(Step(capacity, s, a))
  {
  }

  /** Everything accepted, but for the zero bytes: sent, lost, in hand, or still queued, in this order. */
  ghost predicate Conserved(s: State) {
    Text(s.accepted) == Concat(LinesOf(s.out)) + s.lost + InHand(s.link) + Text(s.queue)
  }

  lemma {:induction false} LinesSnoc(ms: seq<Message>, m: Message)
    ensures LinesOf(ms + [m]) == LinesOf(ms) + [m.line]
  {
    if ms == [] {
      var one := ms + [m];
      assert one[0] == m && |one[1..]| == 0;
    } else {
      LinesSnoc(ms[1..], m);
      assert (ms + [m])[1..] == ms[1..] + [m];
    }
  }

  lemma {:induction false} PutConserves(capacity: nat, s: State, b: byte)
    requires Conserved(s)
    ensures Conserved(Step(capacity, s, Action.Put(b)))
  {
  }

  lemma {:induction false} TakeConserves(capacity: nat, s: State)
    requires Conserved(s)
    ensures Conserved(Step(capacity, s, TakeByte))
  {
    if s.link.Reading? && s.queue != [] {
      var b, line := s.queue[0], s.link.line;
      SplitFirst(s.queue);
      TextCons(b, s.queue[1..]);
      var before := Concat(LinesOf(s.out)) + s.lost;
      if b != NUL {
        Assoc(before + line, [b], Text(s.queue[1..]));
        Assoc(before, line, [b]);
      }
    }
  }

  /** Moving the line in hand to the lines sent, or to the lost line. */
  lemma MoveOver(a: seq<byte>, lost: seq<byte>, line: seq<byte>, t: seq<byte>)
    requires lost == []
    ensures a + lost + line + t == (a + line) + lost + [] + t
    ensures a + lost + line + t == a + line + [] + t
    ensures line == [] ==> a + lost + line + t == a + lost + [] + t
  {
  }

  lemma {:induction false} SentOut(s: State, m: Message)
    requires Conserved(s) && s.link == Holding(m.line) && s.lost == []
    ensures Conserved(s.(link := Pausing, out := s.out + [m]))
  {
    hide Concat, LinesOf, Text;
    LinesSnoc(s.out, m);
    ConcatSnoc(LinesOf(s.out), m.line);
    MoveOver(Concat(LinesOf(s.out)), s.lost, m.line, Text(s.queue));
  }

  lemma {:induction false} NotSent(s: State, line: seq<byte>)
    requires Conserved(s) && s.link == Holding(line) && s.lost == []
    ensures Conserved(s.(link := Dead, lost := line))
    ensures line == [] ==> Conserved(s.(link := Pausing))
  {
    hide Concat, LinesOf, Text;
    MoveOver(Concat(LinesOf(s.out)), s.lost, line, Text(s.queue));
  }

  lemma {:induction false} SendConserves(capacity: nat, s: State, memory: bool)
    requires Conserved(s) && Shaped(s)
    ensures Conserved(Step(capacity, s, Send(memory)))
  {
    hide Conserved;
    if s.link.Holding? {
      SentOut(s, Message(s.link.line, s.mtu));
      NotSent(s, s.link.line);
    }
  }

  lemma {:induction false} StepConserves(capacity: nat, s: State, a: Action)
    requires Conserved(s) && Shaped(s)
    ensures Conserved(Step(capacity, s, a))
  {
    match a
    case Put(b) => PutConserves(capacity, s, b);
    case TakeByte => TakeConserves(capacity, s);
    case Send(memory) => SendConserves(capacity, s, memory);
    case _ =>
  }

  /**
    In every interleaving of writers, the link task and the session's events: each line sent is
    text, ends at its first newline, fits the link's buffer and is carried at its MTU, and no byte
    of text is lost, doubled or moved on the way.
  */
  lemma {:induction false} UplinkConserves(capacity: nat, actions: seq<Action>)
    requires Standard(actions)
    ensures Shaped(Run(capacity, actions)) && Conserved(Run(capacity, actions))
  {
    if actions != [] {
      var p, a := actions[..|actions| - 1], actions[|actions| - 1];
      UplinkConserves(capacity, p);
      StepKeepsShape(capacity, Run(capacity, p), a);
      StepConserves(capacity, Run(capacity, p), a);
    }
  }

  lemma {:induction false} SentIsCarried(ms: seq<Message>)
    requires AllFit(ms)
    ensures AllCarried(ms)
  {
  }

  /** What a receiver decodes from the notifications is the text, as far as it was sent. */
  lemma {:induction false} ReceiverGetsTheText(capacity: nat, actions: seq<Action>)
    requires Standard(actions)
    requires AllUnmistakable(Run(capacity, actions).out)
    ensures var s := Run(capacity, actions);
            AllCarried(s.out) &&
            Text(s.accepted) == Concat(Decode(Stream(s.out))) + s.lost + InHand(s.link) + Text(s.queue)
  {
    UplinkConserves(capacity, actions);
    SentIsCarried(Run(capacity, actions).out);
    StreamRoundTrip(Run(capacity, actions).out);
  }

  // ---------------------------------------------------------------------------------------------
  // When a line ends.
  // ---------------------------------------------------------------------------------------------

  /** The bytes that the link took since it began with its line, and how often it waited for one. */
  datatype Intake = Intake(taken: seq<byte>, waits: nat)

  function IntakeOf(capacity: nat, actions: seq<Action>): Intake {
    if actions == [] then Intake([], 0) else
      var p, a := actions[..|actions| - 1], actions[|actions| - 1];
      var s, i := Run(capacity, p), IntakeOf(capacity, p);
      if a.StartRead? && s.link == Pausing then Intake([], 0)
      else if a.TakeByte? && s.link.Reading? && s.queue != [] then Intake(i.taken + [s.queue[0]], i.waits + 1)
      else if a.Timeout? && s.link.Reading? && s.queue == [] then Intake(i.taken, i.waits + 1)
      else i
  }

  /** A line that goes on is what was taken, and nothing in it should have ended it. */
  ghost predicate GoesOn(s: State, i: Intake) {
    s.link.Reading? ==>
      i.taken == s.link.line && i.waits == |i.taken| < UPLINK_BUFSIZE && NUL !in i.taken && NEWLINE !in i.taken
  }

  lemma {:induction false} StepGoesOn(capacity: nat, p: seq<Action>, a: Action)
    requires GoesOn(Run(capacity, p), IntakeOf(capacity, p))
    ensures GoesOn(Run(capacity, p + [a]), IntakeOf(capacity, p + [a]))
  {
    TakeSnoc(p, a);
  }

  lemma {:induction false} LineGoesOn(capacity: nat, actions: seq<Action>)
    ensures GoesOn(Run(capacity, actions), IntakeOf(capacity, actions))
  {
    if actions != [] {
      hide GoesOn;
      var p := actions[..|actions| - 1];
      LineGoesOn(capacity, p);
      SplitLast(actions);
      StepGoesOn(capacity, p, actions[|actions| - 1]);
    } else {
      AtFirst(capacity, actions);
    }
  }

  lemma AtFirst(capacity: nat, actions: seq<Action>)
    requires actions == []
    ensures GoesOn(Run(capacity, actions), IntakeOf(capacity, actions))
  {
  }

  /**
    In every interleaving a line ends as the loops of the console end one: what was taken for it, and
    what is queued when it ends, are the line and the rest, and it ends at 512 bytes, at a newline, at
    an empty queue after a wait, or at a zero byte, which is swallowed.
  */
  lemma {:induction false} LineEndsRightly(capacity: nat, p: seq<Action>, a: Action)
    requires Run(capacity, p).link.Reading? && Run(capacity, p + [a]).link.Holding?
    ensures var s, i := Run(capacity, p + [a]), IntakeOf(capacity, p + [a]);
            && EndsRightly(i.taken + s.queue, Read(s.link.line, s.queue, i.waits), 512)
            && IsLine(s.link.line) && |s.link.line| <= 512
  {
    hide Run, IntakeOf;
    LineGoesOn(capacity, p);
    RunSnoc(capacity, p, a);
    IntakeSnoc(capacity, p, a);
    EndOfLine(capacity, Run(capacity, p), IntakeOf(capacity, p), a);
  }

  lemma {:induction false} IntakeSnoc(capacity: nat, p: seq<Action>, a: Action)
    ensures IntakeOf(capacity, p + [a]) ==
            var s, i := Run(capacity, p), IntakeOf(capacity, p);
            if a.StartRead? && s.link == Pausing then Intake([], 0)
            else if a.TakeByte? && s.link.Reading? && s.queue != [] then Intake(i.taken + [s.queue[0]], i.waits + 1)
            else if a.Timeout? && s.link.Reading? && s.queue == [] then Intake(i.taken, i.waits + 1)
            else i
  {
    TakeSnoc(p, a);
  }

  lemma {:induction false} EndOfLine(capacity: nat, s: State, i: Intake, a: Action)
    requires GoesOn(s, i) && s.link.Reading? && Step(capacity, s, a).link.Holding?
    ensures var r := Step(capacity, s, a);
            var j := if a.Timeout? then Intake(i.taken, i.waits + 1) else Intake(i.taken + [s.queue[0]], i.waits + 1);
            && (a.Timeout? ==> s.queue == []) && (!a.Timeout? ==> a.TakeByte?)
            && EndsRightly(j.taken + r.queue, Read(r.link.line, r.queue, j.waits), 512)
            && IsLine(r.link.line) && |r.link.line| <= 512
  {
  }

  // ---------------------------------------------------------------------------------------------
  // When a line is begun and what is sent.
  // ---------------------------------------------------------------------------------------------

  /** What an action of the link is for the server's event handler. */
  function EventOf(a: Action): seq<G.Event> {
    match a
    case Connect => [G.Connect]
    case Disconnect => [G.Disconnect]
    case Notify(on) => [G.Write(G.DataNotifyConfig, if on then [1, 0] else [0, 0])]
    case Mtu(m) => [G.Mtu(m)]
    case _ => []
  }

  function EventsOf(actions: seq<Action>): seq<G.Event> {
    if actions == [] then [] else EventsOf(actions[..|actions| - 1]) + EventOf(actions[|actions| - 1])
  }

  function Session(capacity: nat, actions: seq<Action>): G.Session {
    G.Run(capacity, G.Session([], [], false, false, MIN_MTU), EventsOf(actions))
  }

  predicate Alike(s: State, g: G.Session) {
    s.connected == g.connected && s.notify == g.notify && s.mtu == g.mtu
  }

  lemma StepAlike(capacity: nat, s: State, g: G.Session, a: Action)
    requires Alike(s, g)
    ensures var es := EventOf(a); |es| <= 1 && Alike(Step(capacity, s, a), if es == [] then g else G.Step(capacity, g, es[0]))
  {
  }

  /** The link's flags and MTU are those of the server after the same events. */
  lemma {:induction false} SessionsAgree(capacity: nat, actions: seq<Action>)
    ensures Alike(Run(capacity, actions), Session(capacity, actions))
  {
    if actions != [] {
      hide Alike, Step, EventOf, G.Run, G.Step;
      var p, a := actions[..|actions| - 1], actions[|actions| - 1];
      SessionsAgree(capacity, p);
      StepAlike(capacity, Run(capacity, p), Session(capacity, p), a);
      var es := EventOf(a);
      if es == [] {
        Empty(EventsOf(p));
      } else {
        assert es == [es[0]];
        G.RunSnoc(capacity, G.Session([], [], false, false, MIN_MTU), EventsOf(p), es[0]);
      }
    }
  }

  /** The link begins a line exactly if it is between two, a client is there, and it has asked to be
      notified. */
  lemma {:induction false} BeginsIffUp(capacity: nat, actions: seq<Action>)
    requires Run(capacity, actions).link == Pausing
    ensures forall a :: Run(capacity, actions + [a]).link != Pausing <==>
                        a == StartRead && G.ClientThere(EventsOf(actions)) && G.Asked(EventsOf(actions))
    ensures Run(capacity, actions + [StartRead]).link in {Pausing, Reading([])}
  {
    hide Run, G.ClientThere, G.Asked, G.Run;
    SessionsAgree(capacity, actions);
    G.UpIff(capacity, G.Session([], [], false, false, MIN_MTU), EventsOf(actions));
    forall a ensures Run(capacity, actions + [a]) == Step(capacity, Run(capacity, actions), a) {
      RunSnoc(capacity, actions, a);
    }
  }

  /** A byte is taken into the queue exactly if there is room, and then it is the last. */
  lemma PutIffRoom(capacity: nat, s: State, b: byte)
    ensures var r := Step(capacity, s, Action.Put(b));
            && (r.accepted == s.accepted + [b] <==> |s.queue| < capacity)
            && (r.accepted == s.accepted <==> |s.queue| >= capacity)
            && r.queue == s.queue + r.accepted[|s.accepted|..]
  {
    TakeSnoc(s.accepted, b);
  }

  /** Sending: a line goes out with the MTU in force, an empty one does not, and the task ends exactly if
      the line is longer than MTU - 3 and there is no memory. Nothing else sends or ends the task. */
  lemma {:induction false} SendOutcome(capacity: nat, s: State, a: Action)
    requires s.mtu >= MIN_MTU
    ensures var r := Step(capacity, s, a);
            if a.Send? && s.link.Holding? then
              var line := s.link.line;
              && (r.link == Dead <==> |line| > s.mtu - 3 && !a.memory)
              && (r.link == Dead ==> r.lost == line && r.out == s.out)
              && (r.link != Dead ==> r.link == Pausing && r.out == s.out + if line == [] then [] else [Message(line, s.mtu)])
            else r.out == s.out && (r.link == Dead ==> s.link == Dead)
  {
    Empty(s.out);
  }

  // ---------------------------------------------------------------------------------------------
  // The MTU of the client that is there.
  // ---------------------------------------------------------------------------------------------

  /** What is agreed upon: the default from a connect on (Bluetooth Core, Vol 3, Part G, section
      5.2.1), until another MTU is. */
  function AgreedMtu(actions: seq<Action>): nat {
    if actions == [] then MIN_MTU else
      match actions[|actions| - 1]
      case Mtu(m) => m
      case Connect => MIN_MTU
      case _ => AgreedMtu(actions[..|actions| - 1])
  }

  /** An MTU has been agreed upon with the client that came last. */
  ghost predicate Renegotiated(actions: seq<Action>) {
    exists i {:trigger actions[i]} | 0 <= i < |actions| ::
      actions[i].Mtu? && forall j {:trigger actions[j]} | i < j < |actions| :: actions[j] != Connect
  }

  lemma {:induction false} RenegotiatedSnoc(p: seq<Action>, a: Action)
    ensures Renegotiated(p + [a]) <==> a.Mtu? || (a != Connect && Renegotiated(p))
  {
    var all := p + [a];
    TakeSnoc(p, a);
    if Renegotiated(p) && a != Connect {
      var i :| 0 <= i < |p| && p[i].Mtu? && forall j {:trigger p[j]} | i < j < |p| :: p[j] != Connect;
      forall j | i < j < |all| ensures all[j] != Connect {
        if j < |p| { assert all[j] == p[j]; }
      }
      assert all[i].Mtu?;
    }
    if Renegotiated(all) {
      var i :| 0 <= i < |all| && all[i].Mtu? && forall j {:trigger all[j]} | i < j < |all| :: all[j] != Connect;
      if i < |p| {
        forall j | i < j < |p| ensures p[j] != Connect { assert p[j] == all[j]; }
        assert p[i].Mtu? && all[|p|] == a;
      }
    }
    if a.Mtu? { assert all[|p|].Mtu?; }
  }

  /** The server goes on with the MTU of an earlier client until it is told another. */
  lemma {:induction false} AgreedIs(capacity: nat, actions: seq<Action>)
    ensures AgreedMtu(actions) == if Renegotiated(actions) then Run(capacity, actions).mtu else MIN_MTU
  {
    if actions != [] {
      hide Renegotiated;
      var p, a := actions[..|actions| - 1], actions[|actions| - 1];
      AgreedIs(capacity, p);
      SplitLast(actions);
      RenegotiatedSnoc(p, a);
      MtuOnly(capacity, Run(capacity, p), a);
    }
  }

  lemma MtuOnly(capacity: nat, s: State, a: Action)
    ensures Step(capacity, s, a).mtu == if a.Mtu? then a.mtu else s.mtu
  {
  }

  /** No notification of the line is longer than an MTU allows. */
  ghost predicate WithinMtu(line: seq<byte>, mtu: nat, agreed: nat)
    requires Carried(line, mtu)
  {
    forall p <- Packets(line, mtu) :: |p| <= Whole(agreed)
  }

  lemma {:induction false} WithinMtuIff(line: seq<byte>, mtu: nat, agreed: nat)
    requires Carried(line, mtu)
    ensures WithinMtu(line, mtu, agreed) <==> Min(|line|, Whole(mtu)) <= Whole(agreed)
  {
    if |line| <= Whole(mtu) {
      assert line in Packets(line, mtu);
    } else {
      var fs := AllFragments(line, mtu);
      FragmentShape(line, mtu, 1);
      assert fs[0] == Fragment(line, mtu, 1) && fs[0] in Packets(line, mtu);
      forall p | p in fs ensures |p| <= Whole(mtu) {
        var i :| 0 <= i < |fs| && fs[i] == p;
        FragmentShape(line, mtu, i + 1);
      }
    }
  }

  /**
    At every moment of a run at which a line is sent, its notifications fit the MTU agreed upon with
    the client that came last, exactly if one has been since it came, or they fit the default.
  */
  lemma {:induction false} NotificationsFitIff(capacity: nat, actions: seq<Action>)
    requires Standard(actions) && Run(capacity, actions).link.Holding? && Run(capacity, actions).link.line != []
    ensures var s := Run(capacity, actions);
            && Carried(s.link.line, s.mtu)
            && (WithinMtu(s.link.line, s.mtu, AgreedMtu(actions)) <==>
                  Renegotiated(actions) || Min(|s.link.line|, Whole(s.mtu)) <= Whole(MIN_MTU))
  {
    hide Run, AgreedMtu, Renegotiated, WithinMtu, Conserved, AllFit, IsLine;
    UplinkConserves(capacity, actions);
    var s := Run(capacity, actions);
    LinesAreCarried(s.link.line, s.mtu);
    AgreedIs(capacity, actions);
    WithinMtuIff(s.link.line, s.mtu, AgreedMtu(actions));
  }

  lemma {:induction false} RunSnoc(capacity: nat, p: seq<Action>, a: Action)
    ensures Run(capacity, p + [a]) == Step(capacity, Run(capacity, p), a)
    ensures AgreedMtu(p + [a]) == if a.Mtu? then a.mtu else if a == Connect then MIN_MTU else AgreedMtu(p)
  {
    TakeSnoc(p, a);
  }

  /** A disconnect does not undo an MTU, so the next client begins with that of the one before. */
  lemma {:induction false} OldMtuStays(capacity: nat, actions: seq<Action>, mtu: nat)
    ensures var later := actions + [Mtu(mtu)] + [Disconnect] + [Connect];
            Run(capacity, later).mtu == mtu && AgreedMtu(later) == MIN_MTU
  {
    hide Run, AgreedMtu;
    RunSnoc(capacity, actions, Mtu(mtu));
    RunSnoc(capacity, actions + [Mtu(mtu)], Disconnect);
    RunSnoc(capacity, actions + [Mtu(mtu)] + [Disconnect], Connect);
  }
}
