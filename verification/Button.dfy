/** The push button of the rotary encoder: press, long press, release and click, with dead time. */
module Button {
  import opened Seqs

  /** Polling interval, dead time and long-press time in microseconds; C ints in the build settings. */
  datatype Config = Config(interval: nat, dead: nat, long: nat)

  const INT_MAX := 0x7fff_ffff
  const UINT64 := 0x1_0000_0000_0000_0000

  predicate Sane(c: Config) {
    c.interval <= INT_MAX && c.dead <= INT_MAX && c.long <= INT_MAX
  }

  datatype Phase = Released | Pressed | LongPressed

  /** State and the microsecond count since the press, an unsigned 64-bit word. */
  datatype Button = Button(phase: Phase, time: nat)

  datatype Kind = BtnPressed | BtnReleased | BtnLongPressed | BtnClicked | Changed(diff: int)

  /** The level of the pin is not looked at during the dead time after a press. */
  predicate InDeadTime(c: Config, b: Button) {
    b.phase == Pressed && b.time < c.dead
  }

  function Tick(c: Config, time: nat): nat {
    (time + c.interval) % UINT64
  }

  /** One poll. */
  function Poll(c: Config, b: Button, down: bool): (Button, seq<Kind>) {
    if InDeadTime(c, b) then
      (b.(time := Tick(c, b.time)), [])
    else if down then
      if b.phase == Released then
        (Button(Pressed, 0), [BtnPressed])
      else
        var t := Tick(c, b.time);
        if b.phase == Pressed && t >= c.long then
          (Button(LongPressed, t), [BtnLongPressed])
        else
          (b.(time := t), [])
    else if b.phase == Pressed then
      (b.(phase := Released), [BtnReleased, BtnClicked])
    else if b.phase == LongPressed then
      (b.(phase := Released), [BtnReleased])
    else
      (b, [])
  }

  /** The button after a run of polls. */
  function After(c: Config, b: Button, downs: seq<bool>): Button {
    if downs == [] then b else Poll(c, After(c, b, downs[..|downs| - 1]), downs[|downs| - 1]).0
  }

  /** All events of a run of polls. */
  function Log(c: Config, b: Button, downs: seq<bool>): seq<Kind> {
    if downs == [] then [] else
      var p := downs[..|downs| - 1];
      Log(c, b, p) + Poll(c, After(c, b, p), downs[|downs| - 1]).1
  }

  lemma {:induction false} SnocRun(c: Config, b: Button, downs: seq<bool>, d: bool)
    ensures After(c, b, downs + [d]) == Poll(c, After(c, b, downs), d).0
    ensures Log(c, b, downs + [d]) == Log(c, b, downs) + Poll(c, After(c, b, downs), d).1
  {
  }

  // ---------------------------------------------------------------------------------------------
  // The language of the events.
  // ---------------------------------------------------------------------------------------------

  /** One complete use of the button: a click, or a long press. */
  function Use(long: bool): seq<Kind> {
    if long then [BtnPressed, BtnLongPressed, BtnReleased] else [BtnPressed, BtnReleased, BtnClicked]
  }

  function Uses(us: seq<bool>): seq<Kind> {
    if us == [] then [] else Uses(us[..|us| - 1]) + Use(us[|us| - 1])
  }

  /** The part of a use that has been reported when the button is in a given phase. */
  function Begun(p: Phase): seq<Kind> {
    match p
    case Released => []
    case Pressed => [BtnPressed]
    case LongPressed => [BtnPressed, BtnLongPressed]
  }

  /** A poll reports the next part of a use; the use is whole when the button comes back up. */
  lemma UseGrows(c: Config, b: Button, down: bool)
    ensures var (b', es) := Poll(c, b, down);
            Begun(b.phase) + es ==
            if b.phase != Released && b'.phase == Released then Use(b.phase == LongPressed) else Begun(b'.phase)
  {
  }

  /** Any run reports whole uses, one after the other, and then the begun part of one more. */
  lemma {:induction false} EventLanguage(c: Config, downs: seq<bool>, time: nat) returns (us: seq<bool>)
    ensures Log(c, Button(Released, time), downs) ==
            Uses(us) + Begun(After(c, Button(Released, time), downs).phase)
  {
    hide Poll, Uses, Use;
    var start := Button(Released, time);
    if downs == [] {
      us := NoUse();
    } else {
      var p, d := downs[..|downs| - 1], downs[|downs| - 1];
      us := EventLanguage(c, p, time);
      var b := After(c, start, p);
      var b' := Poll(c, b, d).0;
      UseGrows(c, b, d);
      assert Log(c, start, downs) == Uses(us) + (Begun(b.phase) + Poll(c, b, d).1);
      if b.phase != Released && b'.phase == Released {
        us := SnocUse(us, b.phase == LongPressed);
      }
    }
  }

  lemma NoUse() returns (us: seq<bool>)
    ensures Uses(us) == []
  {
    us := [];
  }

  lemma {:induction false} SnocUse(us: seq<bool>, l: bool) returns (vs: seq<bool>)
    ensures vs == us + [l] && Uses(vs) + Begun(Released) == Uses(us) + Use(l)
  {
    vs := us + [l];
    assert vs[..|us|] == us;
  }

  /** Uses and the begun part of one more are the beginning of whole uses. */
  lemma {:induction false} BegunIsPrefix(us: seq<bool>, p: Phase)
    ensures Uses(us) + Begun(p) <= Uses(us + [p == LongPressed])
  {
    TakeSnoc(us, p == LongPressed);
    assert Begun(p) <= Use(p == LongPressed);
  }

  /** Nothing else can be reported: the log is a prefix of a sequence of whole uses. */
  lemma EventsArePrefixOfUses(c: Config, downs: seq<bool>, time: nat)
    ensures exists us :: Log(c, Button(Released, time), downs) <= Uses(us)
  {
    var us := EventLanguage(c, downs, time);
    var ph := After(c, Button(Released, time), downs).phase;
    BegunIsPrefix(us, ph);
    assert Log(c, Button(Released, time), downs) <= Uses(us + [ph == LongPressed]);
  }

  // ---------------------------------------------------------------------------------------------
  // A listener.
  // ---------------------------------------------------------------------------------------------

  /** What somebody who only hears the events takes the button to be; `LetGo` is before the click. */
  datatype Belief = Believed(phase: Phase) | LetGo | Garbled

  function Hear(h: Belief, k: Kind): Belief {
    if k.Changed? then h
    else if h == Believed(Released) && k == BtnPressed then Believed(Pressed)
    else if h == Believed(Pressed) && k == BtnLongPressed then Believed(LongPressed)
    else if h == Believed(Pressed) && k == BtnReleased then LetGo
    else if h == LetGo && k == BtnClicked then Believed(Released)
    else if h == Believed(LongPressed) && k == BtnReleased then Believed(Released)
    else Garbled
  }

  function Listen(ks: seq<Kind>): Belief {
    if ks == [] then Believed(Released) else Hear(Listen(ks[..|ks| - 1]), ks[|ks| - 1])
  }

  /** The events of the button alone. */
  function Buttons(ks: seq<Kind>): seq<Kind> {
    if ks == [] then [] else
      Buttons(ks[..|ks| - 1]) + (if ks[|ks| - 1].Changed? then [] else [ks[|ks| - 1]])
  }

  lemma {:induction false} ListenSnoc(ks: seq<Kind>, k: Kind)
    ensures Listen(ks + [k]) == Hear(Listen(ks), k)
    ensures Buttons(ks + [k]) == Buttons(ks) + (if k.Changed? then [] else [k])
  {
    TakeSnoc(ks, k);
  }

  lemma {:induction false} ButtonsConcat(ks: seq<Kind>, ls: seq<Kind>)
    ensures Buttons(ks + ls) == Buttons(ks) + Buttons(ls)
  {
    if ls == [] {
      Empty(ks);
      Empty(Buttons(ks));
    } else {
      var p, l := ls[..|ls| - 1], ls[|ls| - 1];
      ButtonsConcat(ks, p);
      ConcatLast(ks, ls);
      ListenSnoc(ks + p, l);
      Assoc(Buttons(ks), Buttons(p), [l]);
      Empty(Buttons(ks) + Buttons(p));
      Empty(Buttons(p));
    }
  }

  lemma {:induction false} ListenMore(ks: seq<Kind>, ls: seq<Kind>)
    requires |ls| <= 3
    ensures |ls| == 0 ==> Listen(ks + ls) == Listen(ks)
    ensures |ls| == 1 ==> Listen(ks + ls) == Hear(Listen(ks), ls[0])
    ensures |ls| == 2 ==> Listen(ks + ls) == Hear(Hear(Listen(ks), ls[0]), ls[1])
    ensures |ls| == 3 ==> Listen(ks + ls) == Hear(Hear(Hear(Listen(ks), ls[0]), ls[1]), ls[2])
  {
    hide Hear, Listen;
    if ls == [] {
      Empty(ks);
    } else {
      var p := ls[..|ls| - 1];
      ListenMore(ks, p);
      ConcatLast(ks, ls);
      ListenSnoc(ks + p, ls[|ls| - 1]);
    }
  }

  lemma {:induction false} PollIsButtons(c: Config, b: Button, down: bool)
    ensures Buttons(Poll(c, b, down).1) == Poll(c, b, down).1
  {
    var ks := Poll(c, b, down).1;
    if |ks| > 0 {
      SplitLast(ks);
      ListenSnoc(ks[..|ks| - 1], ks[|ks| - 1]);
      if |ks| > 1 {
        var one := ks[..1];
        assert |one[..0]| == 0 && one == [ks[0]];
      }
    }
  }

  lemma {:induction false} ListenButtons(ks: seq<Kind>)
    ensures Listen(Buttons(ks)) == Listen(ks)
  {
    if ks != [] {
      var p, k := ks[..|ks| - 1], ks[|ks| - 1];
      ListenButtons(p);
      if k.Changed? { Empty(Buttons(p)); } else { ListenSnoc(Buttons(p), k); }
    }
  }

  lemma {:induction false} ListenUse(ks: seq<Kind>, l: bool, p: Phase)
    requires Listen(ks) == Believed(Released)
    ensures Listen(ks + Use(l)) == Believed(Released)
    ensures Listen(ks + Begun(p)) == Believed(p)
  {
    hide Listen;
    ListenMore(ks, Use(l));
    ListenMore(ks, Begun(p));
  }

  lemma {:induction false} ListenUses(us: seq<bool>, p: Phase)
    ensures Listen(Uses(us)) == Believed(Released)
    ensures Listen(Uses(us) + Begun(p)) == Believed(p)
  {
    hide Hear, Use;
    if us != [] {
      ListenUses(us[..|us| - 1], Released);
      ListenUse(Uses(us[..|us| - 1]), us[|us| - 1], p);
    }
    ListenUse(Uses(us), false, p);
  }

  /** The part of a use that a listener has heard. */
  function HeardOf(h: Belief): seq<Kind> {
    match h
    case Believed(p) => Begun(p)
    case LetGo => [BtnPressed, BtnReleased]
    case Garbled => []
  }

  lemma HearGrows(h: Belief, k: Kind)
    requires Hear(h, k) != Garbled && !k.Changed?
    ensures HeardOf(h) + [k] ==
            if Hear(h, k) == Believed(Released) then Use(h == Believed(LongPressed)) else HeardOf(Hear(h, k))
  {
  }

  lemma {:induction false} UsesHeard(ks: seq<Kind>) returns (us: seq<bool>)
    requires Listen(ks) != Garbled
    ensures Buttons(ks) == Uses(us) + HeardOf(Listen(ks))
  {
    hide Uses, Use, HeardOf, Hear;
    if ks == [] {
      us := NoUse();
      assert HeardOf(Believed(Released)) == [] by { NoneHeard(); }
    } else {
      var p, k := ks[..|ks| - 1], ks[|ks| - 1];
      assert Listen(p) != Garbled by { GarbledStays(Listen(p), k); }
      us := UsesHeard(p);
      StepsAreNotHeard(Listen(p), k);
      if !k.Changed? {
        HearGrows(Listen(p), k);
        Assoc(Uses(us), HeardOf(Listen(p)), [k]);
        if Hear(Listen(p), k) == Believed(Released) {
          us := SnocUse(us, Listen(p) == Believed(LongPressed));
          NoneHeard();
        }
      }
    }
  }

  lemma NoneHeard()
    ensures HeardOf(Believed(Released)) == []
  {
  }

  lemma GarbledStays(h: Belief, k: Kind)
    ensures h == Garbled ==> Hear(h, k) == Garbled
  {
  }

  lemma StepsAreNotHeard(h: Belief, k: Kind)
    ensures k.Changed? ==> Hear(h, k) == h
  {
  }

  /** What a listener believes says what the events have been. */
  lemma {:induction false} ListenIff(ks: seq<Kind>, p: Phase)
    ensures Listen(ks) == Believed(p) <==> exists us :: Buttons(ks) == Uses(us) + Begun(p)
  {
    if Listen(ks) == Believed(p) {
      var us := UsesHeard(ks);
    }
    if us :| Buttons(ks) == Uses(us) + Begun(p) {
      ListenUses(us, p);
      ListenButtons(ks);
    }
  }

  /** A poll keeps a listener right who is right, and does not help one who is misled. */
  lemma {:induction false} HearPoll(c: Config, b: Button, down: bool, ks: seq<Kind>)
    ensures var h, (b', es) := Listen(ks), Poll(c, b, down);
            && (h == Believed(b.phase) ==> Listen(ks + es) == Believed(b'.phase))
            && (h == Garbled ==> Listen(ks + es) == Garbled)
            && (b.phase == Released && h in {Believed(Pressed), Believed(LongPressed)} ==>
                  Listen(ks + es) == Garbled || (b'.phase == Released && Listen(ks + es) == h))
  {
    hide Listen;
    ListenMore(ks, Poll(c, b, down).1);
  }

  // ---------------------------------------------------------------------------------------------
  // Timing.
  // ---------------------------------------------------------------------------------------------

  const JUST_PRESSED := Button(Pressed, 0)

  /** Poll k after a press, counted from 1, comes when k - 1 intervals have been added up. */
  predicate Dead(c: Config, k: nat)
    requires k > 0
  {
    (k - 1) * c.interval < c.dead
  }

  /** The poll at which a held button becomes a long press, or a later one. */
  predicate Due(c: Config, k: nat) {
    k > 0 && !Dead(c, k) && k * c.interval >= c.long
  }

  /** No poll so far could end the pressed phase. */
  ghost predicate Quiet(c: Config, downs: seq<bool>) {
    forall k | 0 < k <= |downs| :: Dead(c, k) || (downs[k - 1] && !Due(c, k))
  }

  lemma {:induction false} QuietSnoc(c: Config, p: seq<bool>, d: bool)
    ensures Quiet(c, p + [d]) <==> Quiet(c, p) && (Dead(c, |p| + 1) || (d && !Due(c, |p| + 1)))
  {
  }

  /** The next poll of a button that has been pressed for `k` quiet polls. */
  lemma QuietPoll(c: Config, k: nat, d: bool)
    requires Sane(c)
    requires k > 0 ==> Dead(c, k) || k * c.interval < c.long
    ensures Poll(c, Button(Pressed, k * c.interval), d) ==
            if Dead(c, k + 1) then (Button(Pressed, (k + 1) * c.interval), [])
            else if !d then (Button(Released, k * c.interval), [BtnReleased, BtnClicked])
            else if Due(c, k + 1) then (Button(LongPressed, (k + 1) * c.interval), [BtnLongPressed])
            else (Button(Pressed, (k + 1) * c.interval), [])
  {
    assert (k + 1) * c.interval == k * c.interval + c.interval;
    assert k > 0 ==> (k - 1) * c.interval == k * c.interval - c.interval;
    assert 0 <= k * c.interval + c.interval < UINT64;
  }

  lemma {:induction false} QuietRun(c: Config, downs: seq<bool>)
    requires Sane(c) && Quiet(c, downs)
    ensures After(c, JUST_PRESSED, downs) == Button(Pressed, |downs| * c.interval)
    ensures Log(c, JUST_PRESSED, downs) == []
  {
    if downs != [] {
      var p, d := downs[..|downs| - 1], downs[|downs| - 1];
      assert downs == p + [d];
      QuietSnoc(c, p, d);
      QuietRun(c, p);
      SnocRun(c, JUST_PRESSED, p, d);
      QuietPoll(c, |p|, d);
    }
  }

  /**
    What the k-th poll after a press does when the polls before it were quiet: nothing in the dead
    time; then a low level releases and clicks, and a high one is a long press once it is due.
  */
  lemma {:induction false} PressTiming(c: Config, downs: seq<bool>, d: bool)
    requires Sane(c) && Quiet(c, downs)
    ensures var k := |downs| + 1;
            Log(c, JUST_PRESSED, downs + [d]) ==
            if Dead(c, k) then [] else if !d then [BtnReleased, BtnClicked]
            else if Due(c, k) then [BtnLongPressed] else []
  {
    if downs != [] {
      var k := |downs|;
      assert Dead(c, k) || (downs[k - 1] && !Due(c, k));
    }
    QuietRun(c, downs);
    SnocRun(c, JUST_PRESSED, downs, d);
    QuietPoll(c, |downs|, d);
  }

  /** A press stays unreported for exactly as long as its polls are quiet. */
  lemma {:induction false} SilentIffQuiet(c: Config, downs: seq<bool>)
    requires Sane(c)
    ensures Log(c, JUST_PRESSED, downs) == [] <==> Quiet(c, downs)
  {
    if downs != [] {
      var p, d := downs[..|downs| - 1], downs[|downs| - 1];
      assert downs == p + [d];
      SilentIffQuiet(c, p);
      SnocRun(c, JUST_PRESSED, p, d);
      QuietSnoc(c, p, d);
      if Quiet(c, p) { PressTiming(c, p, d); }
    }
  }

  /** Every level that was looked at was high. */
  ghost predicate Held(c: Config, downs: seq<bool>) {
    forall k | 0 < k <= |downs| :: Dead(c, k) || downs[k - 1]
  }

  lemma DueStays(c: Config, k: nat)
    requires Due(c, k)
    ensures Due(c, k + 1)
  {
  }

  lemma {:induction false} HeldSnoc(c: Config, p: seq<bool>, d: bool)
    requires Held(c, p + [d])
    ensures Held(c, p) && (Dead(c, |p| + 1) || d)
  {
  }

  lemma {:induction false} NotDueIsQuiet(c: Config, p: seq<bool>)
    requires Held(c, p) && !Due(c, |p|)
    ensures Quiet(c, p)
  {
  }

  /** A button that is held reports one long press, at the first poll at which it is due. */
  lemma {:induction false} HeldButton(c: Config, downs: seq<bool>)
    requires Sane(c) && Held(c, downs)
    ensures Log(c, JUST_PRESSED, downs) == if Due(c, |downs|) then [BtnLongPressed] else []
    ensures After(c, JUST_PRESSED, downs).phase == if Due(c, |downs|) then LongPressed else Pressed
  {
    if downs != [] {
      var p, d := downs[..|downs| - 1], downs[|downs| - 1];
      assert downs == p + [d];
      HeldSnoc(c, p, d);
      HeldButton(c, p);
      SnocRun(c, JUST_PRESSED, p, d);
      if Due(c, |p|) {
        DueStays(c, |p|);
      } else {
        NotDueIsQuiet(c, p);
        QuietRun(c, p);
        assert |p| > 0 ==> Dead(c, |p|) || |p| * c.interval < c.long;
        QuietPoll(c, |p|, d);
      }
    }
  }

  /** The count reaches the long-press time exactly, at a poll that looks at the level. */
  predicate OnTheDot(c: Config) {
    c.interval == 0 || (c.long > 0 && c.long % c.interval == 0 && c.long - c.interval >= c.dead)
  }

  /** The first event after a press is a long press, and comes with this poll. */
  predicate ReportsLong(c: Config, downs: seq<bool>, d: bool) {
    Log(c, JUST_PRESSED, downs) == [] && Log(c, JUST_PRESSED, downs + [d]) == [BtnLongPressed]
  }

  lemma AddProduct(q: int, d: int, i: nat)
    ensures (q + d) * i == q * i + d * i
    ensures d > 0 ==> d * i >= i
    ensures d < 0 ==> d * i + i <= 0
  {
    if d < 0 { assert (-d - 1) * i >= 0; }
    if d > 0 { assert (d - 1) * i >= 0; }
  }

  lemma {:induction false} NoRemainder(k: int, q: int, i: nat, r: nat)
    requires k * i == q * i + r && r < i
    ensures r == 0
  {
    AddProduct(q, k - q, i);
  }

  lemma {:induction false} Multiple(k: nat, i: nat, n: nat)
    requires i > 0 && k * i == n
    ensures n % i == 0
  {
    NoRemainder(k, n / i, i, n % i);
  }

  lemma {:induction false} DueLater(c: Config, m: nat, n: nat)
    requires Due(c, m) && m <= n
    ensures Due(c, n)
    decreases n
  {
    if m < n {
      DueLater(c, m, n - 1);
      DueStays(c, n - 1);
    }
  }

  /** A poll that counts the long-press time to the microsecond. */
  lemma {:induction false} DotIsDue(c: Config) returns (m: nat)
    requires c.interval > 0 && OnTheDot(c)
    ensures Due(c, m) && m * c.interval == c.long
  {
    m := c.long / c.interval;
    assert m * c.interval == c.long;
    assert m > 0;
    assert (m - 1) * c.interval == m * c.interval - c.interval;
  }

  lemma {:induction false} TimeGrows(c: Config, k: nat, m: nat)
    requires k <= m
    ensures k * c.interval <= m * c.interval
  {
    assert (m - k) * c.interval >= 0;
  }

  /** The first poll that is due comes at the very time exactly if the settings meet. */
  lemma {:induction false} FirstDueTime(c: Config, k: nat)
    requires Due(c, k) && (k > 1 ==> !Due(c, k - 1))
    ensures k * c.interval >= c.long
    ensures k * c.interval == c.long <==> OnTheDot(c)
  {
    if c.interval > 0 {
      if k * c.interval == c.long {
        Multiple(k, c.interval, c.long);
        assert (k - 1) * c.interval == k * c.interval - c.interval;
      }
      if OnTheDot(c) {
        var m := DotIsDue(c);
        if k > m { DueLater(c, m, k - 1); }
        TimeGrows(c, k, m);
      }
    }
  }

  /** Every long press has lasted longer than the long-press time when it is reported, or just as
      long: that depends on the settings alone. */
  lemma {:induction false} LongPressTime(c: Config, downs: seq<bool>, d: bool)
    requires Sane(c) && ReportsLong(c, downs, d)
    ensures var time := After(c, JUST_PRESSED, downs + [d]).time;
            time >= c.long && (time > c.long <==> !OnTheDot(c))
  {
    hide OnTheDot;
    var k := |downs| + 1;
    SilentIffQuiet(c, downs);
    PressTiming(c, downs, d);
    QuietRun(c, downs);
    SnocRun(c, JUST_PRESSED, downs, d);
    if k > 1 {
      assert Dead(c, k - 1) || (downs[k - 2] && !Due(c, k - 1));
    }
    QuietPoll(c, |downs|, d);
    FirstDueTime(c, k);
  }

  /** The build's default settings. */
  const DEFAULTS := Config(1000, 10_000, 500_000)

  /** With them a button held for 500 polls is reported after exactly the long-press time. */
  lemma {:induction false} DefaultsAreOnTheDot(downs: seq<bool>)
    requires |downs| == 499 && forall i | 0 <= i < |downs| :: downs[i]
    ensures ReportsLong(DEFAULTS, downs, true)
    ensures After(DEFAULTS, JUST_PRESSED, downs + [true]).time == DEFAULTS.long
  {
    hide Log, After;
    assert Quiet(DEFAULTS, downs);
    SilentIffQuiet(DEFAULTS, downs);
    PressTiming(DEFAULTS, downs, true);
    LongPressTime(DEFAULTS, downs, true);
  }

  // ---------------------------------------------------------------------------------------------
  // From any state.
  // ---------------------------------------------------------------------------------------------

  lemma {:induction false} RunConcat(c: Config, b: Button, xs: seq<bool>, ys: seq<bool>)
    ensures After(c, b, xs + ys) == After(c, After(c, b, xs), ys)
    ensures Log(c, b, xs + ys) == Log(c, b, xs) + Log(c, After(c, b, xs), ys)
  {
    if ys == [] {
      Empty(xs);
      Empty(Log(c, b, xs));
    } else {
      hide Poll;
      var p, y := ys[..|ys| - 1], ys[|ys| - 1];
      RunConcat(c, b, xs, p);
      ConcatLast(xs, ys);
      SnocRun(c, b, xs + p, y);
      Assoc(Log(c, b, xs), Log(c, After(c, b, xs), p), Poll(c, After(c, b, xs + p), y).1);
    }
  }

  /** The last poll of the run reported a press. */
  predicate JustPressed(c: Config, b: Button, downs: seq<bool>) {
    downs != [] && Log(c, b, downs) == Log(c, b, downs[..|downs| - 1]) + [BtnPressed]
  }

  lemma PressIsFresh(c: Config, b: Button, down: bool, before: seq<Kind>)
    requires before + Poll(c, b, down).1 == before + [BtnPressed]
    ensures Poll(c, b, down).0 == JUST_PRESSED
  {
    var ks := Poll(c, b, down).1;
    SplitConcat(before, ks);
    SplitConcat(before, [BtnPressed]);
    assert ks[0] == BtnPressed;
  }

  /** After a press all that was before is forgotten: whatever was done with the button, and however
      long, the run goes on like one that begins with this press. */
  lemma {:induction false} PressStartsAfresh(c: Config, b: Button, downs: seq<bool>, more: seq<bool>)
    requires JustPressed(c, b, downs)
    ensures After(c, b, downs + more) == After(c, JUST_PRESSED, more)
    ensures Log(c, b, downs + more) == Log(c, b, downs) + Log(c, JUST_PRESSED, more)
  {
    var p, d := downs[..|downs| - 1], downs[|downs| - 1];
    PressIsFresh(c, After(c, b, p), d, Log(c, b, p));
    RunConcat(c, b, downs, more);
  }

  /** So every press of every run is timed as above. */
  lemma {:induction false} EveryPress(c: Config, b: Button, downs: seq<bool>, more: seq<bool>, d: bool)
    requires Sane(c) && JustPressed(c, b, downs)
    ensures Log(c, b, downs + more) == Log(c, b, downs) <==> Quiet(c, more)
    ensures Quiet(c, more) ==>
              var k := |more| + 1;
              Log(c, b, downs + (more + [d])) == Log(c, b, downs) +
                if Dead(c, k) then [] else if !d then [BtnReleased, BtnClicked]
                else if Due(c, k) then [BtnLongPressed] else []
    ensures Held(c, more) ==>
              Log(c, b, downs + more) == Log(c, b, downs) + if Due(c, |more|) then [BtnLongPressed] else []
  {
    hide Log, After, Quiet, Dead, Due, Held;
    PressStartsAfresh(c, b, downs, more);
    SilentIffQuiet(c, more);
    SplitConcat(Log(c, b, downs), Log(c, JUST_PRESSED, more));
    Empty(Log(c, b, downs));
    if Quiet(c, more) {
      PressStartsAfresh(c, b, downs, more + [d]);
      PressTiming(c, more, d);
    }
    if Held(c, more) { HeldButton(c, more); }
  }

  /** All levels in the run are the same. */
  ghost predicate Steady(downs: seq<bool>, level: bool) {
    forall i {:trigger downs[i]} | 0 <= i < |downs| :: downs[i] == level
  }

  /** A button at rest reports its press with the first high level, and one long pressed its release
      with the first low one; until then nothing. */
  lemma {:induction false} RestIffSteady(c: Config, b: Button, downs: seq<bool>)
    requires b.phase != Pressed
    ensures Log(c, b, downs) == [] <==> Steady(downs, b.phase == LongPressed)
    ensures Steady(downs, b.phase == LongPressed) ==>
              && After(c, b, downs).phase == b.phase
              && Log(c, b, downs + [b.phase == Released]) ==
                 if b.phase == Released then [BtnPressed] else [BtnReleased]
  {
    if downs != [] {
      var p, d := downs[..|downs| - 1], downs[|downs| - 1];
      RestIffSteady(c, b, p);
      SplitLast(downs);
      SteadySnoc(p, d, b.phase == LongPressed);
    }
    SnocRun(c, b, downs, b.phase == Released);
  }

  lemma {:induction false} SteadySnoc(p: seq<bool>, d: bool, level: bool)
    ensures Steady(p + [d], level) <==> Steady(p, level) && d == level
  {
    TakeSnoc(p, d);
    if Steady(p + [d], level) {
      assert (p + [d])[|p|] == d;
      forall i | 0 <= i < |p| ensures p[i] == level { assert (p + [d])[i] == p[i]; }
    }
  }

  // ---------------------------------------------------------------------------------------------
  // Dead time.
  // ---------------------------------------------------------------------------------------------

  /** The two runs of levels agree at every poll that looks at the level. */
  ghost predicate AgreeOutsideDeadTime(c: Config, b: Button, xs: seq<bool>, ys: seq<bool>) {
    && |xs| == |ys|
    && forall i | 0 <= i < |xs| :: !InDeadTime(c, After(c, b, xs[..i])) ==> xs[i] == ys[i]
  }

  /** Whatever the level does during the dead time leaves no mark on the events or the state. */
  lemma {:induction false} DeadTimeIsInvisible(c: Config, b: Button, xs: seq<bool>, ys: seq<bool>)
    requires AgreeOutsideDeadTime(c, b, xs, ys)
    ensures After(c, b, xs) == After(c, b, ys) && Log(c, b, xs) == Log(c, b, ys)
  {
    if xs != [] {
      var n := |xs| - 1;
      forall i | 0 <= i < n ensures xs[..n][..i] == xs[..i] && xs[..n][i] == xs[i] && ys[..n][i] == ys[i] {
      }
      DeadTimeIsInvisible(c, b, xs[..n], ys[..n]);
    }
  }
}
