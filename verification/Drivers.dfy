/** The driver itself: an array of pointers to descriptors, scanned under a lock. */
module Drivers {
  import opened Encoders
  import opened Options
  import opened Queues
  import opened Registry
  import B = Button

  lemma SameEntry(m: map<nat, Member>, k: nat)
    requires k in m
    ensures m[k := m[k]] == m
  {
  }

  lemma Overwrite(m: map<nat, Member>, k: nat, x: Member, y: Member)
    ensures m[k := x][k := y] == m[k := y]
  {
  }

  class EncoderDriver {
    const config: B.Config
    const queue: Queue<Event>
    const encs: array<RotaryEncoder?>
    var locked: bool
    /** The slot table and the descriptors on values, and every descriptor ever registered. */
    ghost var slots: seq<Option<nat>>
    ghost var values: map<nat, Member>
    ghost var members: map<nat, RotaryEncoder>
    ghost var repr: set<RotaryEncoder>

    constructor (config: B.Config, queue: Queue<Event>, size: nat)
      ensures Valid() && Model() == Fresh(size) && this.config == config && this.queue == queue && fresh(encs)
    {
      this.config, this.queue := config, queue;
      encs := new RotaryEncoder?[size](_ => null);
      locked, members, repr, values, slots := false, map[], {}, map[], Fresh(size).slots;
    }

    ghost function Model(): Driver
      reads this`slots, this`values, this`locked
    {
      Driver(slots, values, locked)
    }

    /** The slot table in memory is the one of the model. */
    ghost predicate SlotsMatch()
      reads this`slots, this`repr, encs
    {
      && |slots| == encs.Length
      && forall i | 0 <= i < encs.Length ::
           if encs[i] == null then slots[i] == None else encs[i] in repr && slots[i] == Some(encs[i].id)
    }

    /** The descriptors in memory are those of the model, each under its own name. */
    ghost predicate MembersMatch()
      reads this`values, this`members, this`repr, repr
    {
      && values.Keys == members.Keys
      && (forall id | id in members :: members[id] in repr && members[id].id == id)
      && forall re | re in repr ::
           && re.id in members && members[re.id] == re
           && re.Shows(values[re.id].enc, values[re.id].index)
    }

    ghost predicate Valid()
      reads this`slots, this`values, this`members, this`repr, encs, repr
    {
      SlotsMatch() && MembersMatch()
    }

    /** A descriptor that may be passed in: one registered before, or a zeroed one. */
    ghost predicate Usable(re: RotaryEncoder)
      reads this`members, re
    {
      && re.Valid()
      && if re.id in members then members[re.id] == re
         else re.Value() == Zeroed(re.hasButton) && re.index == 0
    }

    /** Polling one slot. */
    method PollAt(i: nat, r: Reading)
      requires Valid() && i < encs.Length
      modifies this`values, repr, queue
      ensures Valid()
      ensures values == PollSlot(config, old(values), slots[i], r).0
      ensures queue.State() == SendAll(old(queue.State()), queue.capacity,
                                       PollSlot(config, old(values), slots[i], r).1)
    {
      hide RotaryEncoder.Valid, RotaryEncoder.Value;
      if encs[i] != null {
        var re := encs[i];
        values := PollSlot(config, values, slots[i], r).0;
        re.ReadEncoder(config, r, queue);
      }
    }

    /** The periodic poll, with what the pins of each slot read. */
    method TimerHandler(timely: bool, readings: seq<Reading>)
      requires Valid() && |readings| == encs.Length
      modifies this`locked, this`values, repr, queue
      ensures Valid()
      ensures Model() == Registry.PollAll(config, old(Model()), timely, readings).0
      ensures queue.State() == SendAll(old(queue.State()), queue.capacity,
                                       Registry.PollAll(config, old(Model()), timely, readings).1)
    {
      hide RotaryEncoder.Valid, RotaryEncoder.Value;
      if locked || !timely {
        return;
      }
      locked := true;
      PollAll(readings, old(Model()));
      locked := false;
    }

    method PollAll(readings: seq<Reading>, ghost before: Driver)
      requires Valid() && |readings| == encs.Length
      requires before.slots == slots && before.members == values
      modifies this`values, repr, queue
      ensures Valid()
      ensures values == PollSlots(config, before, readings, encs.Length).0
      ensures queue.State() == SendAll(old(queue.State()), queue.capacity,
                                       PollSlots(config, before, readings, encs.Length).1)
    {
      hide RotaryEncoder.Valid, RotaryEncoder.Value;
      ghost var sent := queue.State();
      for i := 0 to encs.Length
        invariant Valid()
        invariant values == PollSlots(config, before, readings, i).0
        invariant queue.State() == SendAll(sent, queue.capacity, PollSlots(config, before, readings, i).1)
      {
        SendConcat(sent, queue.capacity, PollSlots(config, before, readings, i).1,
                   PollSlot(config, values, slots[i], readings[i]).1);
        PollAt(i, readings[i]);
      }
    }

    /** The scan for a free slot. */
    method FreeSlot() returns (i: nat)
      requires SlotsMatch()
      ensures i == Find(slots, None)
    {
      i := 0;
      while i < encs.Length && encs[i] != null
        invariant i <= encs.Length
        invariant forall k | 0 <= k < i :: encs[k] != null
      {
        i := i + 1;
      }
      FindIs(slots, None, i);
    }

    lemma SamePointer(i: nat, re: RotaryEncoder)
      requires Valid() && Usable(re) && i < encs.Length
      ensures encs[i] == re <==> slots[i] == Some(re.id)
    {
    }

    /** The scan for a descriptor; comparing pointers finds the same slot as comparing names. */
    method SlotOf(re: RotaryEncoder) returns (i: nat)
      requires Valid() && Usable(re)
      ensures i == Find(slots, Some(re.id))
    {
      hide RotaryEncoder.Valid, RotaryEncoder.Value;
      i := 0;
      while i < encs.Length && encs[i] != re
        invariant i <= encs.Length
        invariant forall k | 0 <= k < i :: slots[k] != Some(re.id)
      {
        SamePointer(i, re);
        i := i + 1;
      }
      if i < encs.Length {
        SamePointer(i, re);
      }
      FindIs(slots, Some(re.id), i);
    }

    method SetSlot(i: nat, re: RotaryEncoder?)
      requires SlotsMatch() && i < encs.Length
      requires re != null ==> re in repr
      modifies this`slots, encs
      ensures SlotsMatch()
      ensures slots == old(slots)[i := if re == null then None else Some(re.id)]
    {
      hide RotaryEncoder.Valid, RotaryEncoder.Value;
      encs[i] := re;
      slots := slots[i := if re == null then None else Some(re.id)];
    }

    ghost method Join(re: RotaryEncoder)
      requires Valid() && re.Valid() && re.id !in members
      modifies this`members, this`repr, this`values
      ensures Valid() && re in repr
      ensures values == old(values)[re.id := Member(re.Value(), re.index)]
    {
      hide RotaryEncoder.Valid, RotaryEncoder.Value;
      members, repr, values := members[re.id := re], repr + {re}, values[re.id := Member(re.Value(), re.index)];
    }

    /** From now on the descriptor belongs to the driver. */
    ghost method Meet(re: RotaryEncoder)
      requires Valid() && Usable(re)
      modifies this`members, this`repr, this`values
      ensures Valid() && re in repr
      ensures values == old(values)[re.id := Member(re.Value(), re.index)]
    {
      hide RotaryEncoder.Valid, RotaryEncoder.Value;
      if re.id in members {
        SameEntry(values, re.id);
      } else {
        Join(re);
      }
    }

    /** Noting the slot in the descriptor, and releasing its button if the pins were set up. */
    method Note(i: nat, re: RotaryEncoder, ready: bool)
      requires Valid() && re in repr
      modifies this`values, re
      ensures Valid()
      ensures var e := old(re.Value());
              values == old(values)[re.id := Member(if ready then Reset(e) else e, i)]
    {
      ghost var e := re.Value();
      values := values[re.id := Member(if ready then Reset(e) else e, i)];
      re.Enroll(i, ready);
    }

    lemma UsableIsKnown(re: RotaryEncoder)
      requires Valid() && Usable(re)
      ensures Known(Model(), re.id, re.hasButton) == Member(re.Value(), re.index)
    {
    }

    method Take(i: nat, re: RotaryEncoder, ready: bool)
      requires Valid() && Usable(re)
      modifies this`members, this`repr, this`values, re
      ensures Valid() && re in repr
      ensures var e := old(re.Value());
              values == old(values)[re.id := Member(if ready then Reset(e) else e, i)]
    {
      ghost var before, e := values, re.Value();
      Meet(re);
      Overwrite(before, re.id, Member(e, re.index), Member(if ready then Reset(e) else e, i));
      Note(i, re, ready);
    }

    method Place(i: nat, re: RotaryEncoder, ready: bool)
      requires Valid() && Usable(re) && i < encs.Length
      modifies this`members, this`repr, this`values, this`slots, encs, re
      ensures Valid()
      ensures slots == old(slots)[i := Some(re.id)]
      ensures var e := old(re.Value());
              values == old(values)[re.id := Member(if ready then Reset(e) else e, i)]
    {
      hide RotaryEncoder.Valid, RotaryEncoder.Value;
      Take(i, re, ready);
      SetSlot(i, re);
    }

    method Add(re: RotaryEncoder?, timely: bool, gpioOk: bool) returns (err: Err)
      requires Valid() && (re != null ==> Usable(re))
      modifies this, encs, re
      ensures Valid()
      ensures re == null ==> err == InvalidArg && Model() == old(Model())
      ensures re != null ==> (Model(), err) == AddTo(old(Model()), re.id, re.hasButton, timely, gpioOk)
    {
      hide RotaryEncoder.Valid, RotaryEncoder.Value;
      if re == null {
        return InvalidArg;
      }
      if locked || !timely {
        return InvalidState;
      }
      locked := true;
      var i := FreeSlot();
      if i == encs.Length {
        locked := false;
        return NoMem;
      }
      UsableIsKnown(re);
      Place(i, re, gpioOk);
      if !gpioOk {
        return GpioFailed;
      }
      locked := false;
      return Ok;
    }

    method Vacate(re: RotaryEncoder) returns (found: bool)
      requires Valid() && Usable(re)
      modifies this`slots, encs
      ensures Valid()
      ensures var i := Find(old(slots), Some(re.id));
              && found == (i < |old(slots)|)
              && slots == if found then old(slots)[i := None] else old(slots)
    {
      hide RotaryEncoder.Valid, RotaryEncoder.Value;
      var i := SlotOf(re);
      found := i < encs.Length;
      if found {
        SetSlot(i, null);
      }
    }

    method Remove(re: RotaryEncoder?, timely: bool) returns (err: Err)
      requires Valid() && (re != null ==> Usable(re))
      modifies this`locked, this`slots, encs
      ensures Valid()
      ensures re == null ==> err == InvalidArg && Model() == old(Model())
      ensures re != null ==> (Model(), err) == RemoveFrom(old(Model()), re.id, timely)
    {
      hide RotaryEncoder.Valid, RotaryEncoder.Value;
      if re == null {
        return InvalidArg;
      }
      if locked || !timely {
        return InvalidState;
      }
      locked := true;
      var found := Vacate(re);
      locked := false;
      return if found then Ok else NotFound;
    }
  }
}
