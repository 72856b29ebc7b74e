/** The encoder descriptor and its poll. */
module Encoders {
  import opened Quadrature
  import opened Seqs
  import opened DecoderBits
  import opened Queues
  import B = Button

  /** An event of one descriptor. */
  datatype Event = Event(sender: nat, kind: B.Kind)

  /** What the pins read at one poll. */
  datatype Reading = Reading(down: bool, pins: Sample)

  /** What there is to know of a descriptor: the pins polled since it was zeroed, and the button. */
  datatype Encoder = Encoder(trace: seq<Sample>, button: B.Button, hasButton: bool)

  function ButtonPart(c: B.Config, e: Encoder, r: Reading): (B.Button, seq<B.Kind>) {
    if e.hasButton then B.Poll(c, e.button, r.down) else (e.button, [])
  }

  function PinsPart(t: seq<Sample>, pins: Sample): seq<B.Kind> {
    var d := DiffAt(t + [pins]);
    if d == 0 then [] else [B.Changed(d)]
  }

  /** One poll: the button first, then the pins. */
  function Poll(c: B.Config, e: Encoder, r: Reading): (Encoder, seq<B.Kind>) {
    var (b, ks) := ButtonPart(c, e, r);
    (Encoder(e.trace + [r.pins], b, e.hasButton), ks + PinsPart(e.trace, r.pins))
  }

  /** A poll reports steps of one only. */
  lemma StepsAreUnits(c: B.Config, e: Encoder, r: Reading, i: nat)
    requires i < |Poll(c, e, r).1| && Poll(c, e, r).1[i].Changed?
    ensures Poll(c, e, r).1[i] == B.Changed(1) || Poll(c, e, r).1[i] == B.Changed(-1)
  {
  }

  /** The events of a poll: those of the button come first, then at most one step; and without a button
      there is nothing before the step. */
  lemma {:induction false} ButtonBeforeStep(c: B.Config, e: Encoder, r: Reading)
    ensures var ks := Poll(c, e, r).1;
            && (forall i {:trigger ks[i]} | 0 <= i < |ks| - 1 :: !ks[i].Changed?)
            && (!e.hasButton ==> forall i {:trigger ks[i]} | 0 <= i < |ks| :: ks[i].Changed?)
    ensures !e.hasButton ==> Poll(c, e, r).0.button == e.button
  {
    hide DiffAt;
  }

  function Tagged(sender: nat, ks: seq<B.Kind>): seq<Event> {
    if ks == [] then [] else Tagged(sender, ks[..|ks| - 1]) + [Event(sender, ks[|ks| - 1])]
  }

  lemma {:induction false} TaggedConcat(sender: nat, ks: seq<B.Kind>, ls: seq<B.Kind>)
    ensures Tagged(sender, ks + ls) == Tagged(sender, ks) + Tagged(sender, ls)
  {
    if ls == [] {
      Empty(ks);
      Empty(Tagged(sender, ks));
    } else {
      var p, l := ls[..|ls| - 1], ls[|ls| - 1];
      TaggedConcat(sender, ks, p);
      ConcatLast(ks, ls);
      TakeSnoc(ks + p, l);
      Assoc(Tagged(sender, ks), Tagged(sender, p), [Event(sender, l)]);
    }
  }

  lemma {:induction false} TaggedOne(sender: nat, ks: seq<B.Kind>)
    requires |ks| == 1
    ensures Tagged(sender, ks) == [Event(sender, ks[0])]
  {
  }

  lemma {:induction false} TaggedTwo(sender: nat, ks: seq<B.Kind>)
    requires |ks| == 2
    ensures Tagged(sender, ks) == [Event(sender, ks[0]), Event(sender, ks[1])]
  {
    TaggedOne(sender, ks[..1]);
  }

  lemma {:induction false} SendParts(f: Fifo<Event>, capacity: nat, id: nat, ks: seq<B.Kind>, ls: seq<B.Kind>)
    ensures SendAll(f, capacity, Tagged(id, ks + ls)) ==
            SendAll(SendAll(f, capacity, Tagged(id, ks)), capacity, Tagged(id, ls))
  {
    TaggedConcat(id, ks, ls);
    SendConcat(f, capacity, Tagged(id, ks), Tagged(id, ls));
  }

  class RotaryEncoder {
    const id: nat
    const hasButton: bool
    var code: bv8
    var store: bv16
    var index: nat
    var time: nat
    var phase: B.Phase
    ghost var trace: seq<Sample>

    /** A zeroed descriptor. */
    constructor (id: nat, hasButton: bool)
      ensures Valid() && this.id == id && this.hasButton == hasButton && index == 0
      ensures Value() == Encoder([], B.Button(B.Released, 0), hasButton)
    {
      this.id, this.hasButton := id, hasButton;
      code, store, index, time, phase, trace := 0, 0, 0, 0, B.Released, [];
    }

    ghost predicate Valid()
      reads this`code, this`store, this`trace
    {
      Words(code, store) == WordsAfter(trace)
    }

    ghost function Value(): Encoder
      reads this`trace, this`phase, this`time
    {
      Encoder(trace, B.Button(phase, time), hasButton)
    }

    /** The descriptor is well formed and holds this state and slot number. */
    ghost predicate Shows(e: Encoder, slot: nat)
      reads this
    {
      Valid() && Value() == e && index == slot
    }

    /** What registering does to the descriptor; the button is only released if the pins were set up. */
    method Enroll(slot: nat, ready: bool)
      requires Valid()
      modifies this`index, this`phase, this`time
      ensures Valid() && index == slot
      ensures Value() == old(Value()).(button := if ready then B.Button(B.Released, 0) else old(Value()).button)
    {
      index := slot;
      if ready {
        phase := B.Released;
        time := 0;
      }
    }

    method PollButton(c: B.Config, down: bool, queue: Queue<Event>)
      modifies this`time, this`phase, queue
      ensures var (b, ks) := B.Poll(c, B.Button(old(phase), old(time)), down);
              && B.Button(phase, time) == b
              && queue.State() == SendAll(old(queue.State()), queue.capacity, Tagged(id, ks))
    {
      if phase == B.Pressed && time < c.dead {
        time := (time + c.interval) % B.UINT64;
        return;
      }
      if down {
        if phase == B.Released {
          phase, time := B.Pressed, 0;
          var _ := queue.SendToBack(Event(id, B.BtnPressed));
          return;
        }
        time := (time + c.interval) % B.UINT64;
        if phase == B.Pressed && time >= c.long {
          phase := B.LongPressed;
          var _ := queue.SendToBack(Event(id, B.BtnLongPressed));
        }
      } else if phase != B.Released {
        var clicked := phase == B.Pressed;
        phase := B.Released;
        SendTwo(queue.State(), queue.capacity, Event(id, B.BtnReleased), Event(id, B.BtnClicked));
        TaggedTwo(id, [B.BtnReleased, B.BtnClicked]);
        var _ := queue.SendToBack(Event(id, B.BtnReleased));
        if clicked {
          var _ := queue.SendToBack(Event(id, B.BtnClicked));
        }
      }
    }

    /** The decoder on the bits computes what the decoder on the walk emits. */
    method ShiftIn(pins: Sample) returns (inc: int)
      requires Valid()
      modifies this`code, this`store, this`trace
      ensures Valid() && trace == old(trace) + [pins]
      ensures inc == DiffAt(trace)
    {
      WordsDecide(trace, pins);
      trace := trace + [pins];
      code := NextCode(code, pins);
      inc := 0;
      if VALID_STATES[code as int] == 0 {
        return;
      }
      store := NextStore(store, code);
      if store == 0xe817 { inc := 1; }
      if store == 0xd42b { inc := -1; }
    }

    method Report(inc: int, queue: Queue<Event>)
      modifies queue
      ensures queue.State() == SendAll(old(queue.State()), queue.capacity,
                                       Tagged(id, if inc == 0 then [] else [B.Changed(inc)]))
    {
      if inc != 0 {
        SendTwo(queue.State(), queue.capacity, Event(id, B.Changed(inc)), Event(id, B.Changed(inc)));
        TaggedOne(id, [B.Changed(inc)]);
        var _ := queue.SendToBack(Event(id, B.Changed(inc)));
      }
    }

    method PollPins(pins: Sample, queue: Queue<Event>)
      requires Valid()
      modifies this`code, this`store, this`trace, queue
      ensures Valid() && trace == old(trace) + [pins]
      ensures queue.State() == SendAll(old(queue.State()), queue.capacity,
                                       Tagged(id, PinsPart(old(trace), pins)))
    {
      var inc := ShiftIn(pins);
      Report(inc, queue);
    }

    method ReadEncoder(c: B.Config, r: Reading, queue: Queue<Event>)
      requires Valid()
      modifies this, queue
      ensures Valid() && index == old(index)
      ensures Value() == Poll(c, old(Value()), r).0
      ensures queue.State() == SendAll(old(queue.State()), queue.capacity,
                                       Tagged(id, Poll(c, old(Value()), r).1))
    {
      hide WordsAfter;
      ghost var before := Value();
      if hasButton {
        PollButton(c, r.down, queue);
      }
      PollPins(r.pins, queue);
      SendParts(old(queue.State()), queue.capacity, id, ButtonPart(c, before, r).1, PinsPart(before.trace, r.pins));
    }
  }
}
