/**
 The per-pass recording gate of the operator program's main loop: start a recording a minute before the
 satellite rises, stop it a minute after it has set. The clock, the geometry and the recorder's own
 state are inputs of every tick.
 */
module RecordingGate {

  const PREROLL := 60.0
  const POSTROLL := 60.0

  /** What the gate sees at one tick; `enabled` is false without a receiver session or in always-record mode. */
  datatype Tick = Tick(now: real, enabled: bool, elevation: real, secToAos: real, active: bool)
  {
    predicate Visible() { elevation > 0.0 }
    predicate InPreroll() { secToAos > 0.0 && secToAos <= PREROLL }
  }

  datatype Action = Nothing | Start | Stop

  datatype Outcome = Outcome(closeAt: real, action: Action)

  /** One tick of the gate: the new close time and the request made to the recorder. */
  function Step(closeAt: real, t: Tick): Outcome {
    if !t.enabled then Outcome(closeAt, Nothing)
    else if !t.active && (t.Visible() || t.InPreroll()) then Outcome(0.0, Start)
    else if !t.active then Outcome(closeAt, Nothing)
    else if t.Visible() then Outcome(0.0, Nothing)
    else if closeAt == 0.0 then Outcome(t.now + POSTROLL, Nothing)
    else if t.now >= closeAt then Outcome(0.0, Stop)
    else Outcome(closeAt, Nothing)
  }

  /** Close time after a run of ticks. */
  function CloseAt(ticks: seq<Tick>): real {
    if ticks == [] then 0.0 else Step(CloseAt(ticks[..|ticks| - 1]), ticks[|ticks| - 1]).closeAt
  }

  /** Request made at tick i of a run. */
  function ActionAt(ticks: seq<Tick>, i: nat): Action
    requires i < |ticks|
  {
    Step(CloseAt(ticks[..i]), ticks[i]).action
  }

  /** The gate as the main loop runs it. */
  class Gate {
    var closeAt: real
    ghost var history: seq<Tick>

    ghost predicate Valid()
      reads this
    {
      closeAt == CloseAt(history)
    }

    constructor ()
      ensures Valid() && history == []
    {
      closeAt := 0.0;
      history := [];
    }

    method OnTick(t: Tick) returns (action: Action)
      requires Valid()
      modifies this
      ensures Valid() && history == old(history) + [t]
      ensures action == ActionAt(history, |history| - 1)
    {
      history := history + [t];
      assert history[..|history| - 1] == old(history);
      action := Nothing;
      if t.enabled {
        var visible := t.elevation > 0.0;
        var inPreroll := t.secToAos > 0.0 && t.secToAos <= PREROLL;
        if !t.active && (visible || inPreroll) {
          action := Start;
          closeAt := 0.0;
        } else if t.active {
          if visible {
            closeAt := 0.0;
          } else if closeAt == 0.0 {
            closeAt := t.now + POSTROLL;
          } else if t.now >= closeAt {
            action := Stop;
            closeAt := 0.0;
          }
        }
      }
    }
  }

  /** The clock starts at zero or later and never runs backward. */
  ghost predicate ClockRuns(ticks: seq<Tick>) {
    && (forall i :: 0 <= i < |ticks| ==> ticks[i].now >= 0.0)
    && (forall i, j :: 0 <= i < j < |ticks| ==> ticks[i].now <= ticks[j].now)
  }

  /** A pending close was set at tick k: nothing was visible and nothing started from there on. */
  ghost predicate PendingSince(ticks: seq<Tick>, k: nat) {
    && k < |ticks| && ticks[k].enabled && CloseAt(ticks) == ticks[k].now + POSTROLL
    && (forall j :: k <= j < |ticks| && ticks[j].enabled ==> !ticks[j].Visible())
    && (forall j :: k <= j < |ticks| ==> ActionAt(ticks, j) != Start)
  }

  lemma {:induction false} PendingHasOrigin(ticks: seq<Tick>)
    requires ClockRuns(ticks)
    ensures CloseAt(ticks) == 0.0 || exists k: nat :: PendingSince(ticks, k)
  {
    if ticks != [] {
      var n := |ticks| - 1;
      var before, t := ticks[..n], ticks[n];
      PendingHasOrigin(before);
      var c := CloseAt(before);
      if CloseAt(ticks) != 0.0 {
        if c == 0.0 {
          assert PendingSince(ticks, n);
        } else {
          var k: nat :| PendingSince(before, k);
          forall j | k <= j < |ticks| ensures ActionAt(ticks, j) != Start {
            assert j < n ==> before[..j] == ticks[..j] && ActionAt(before, j) != Start;
          }
          assert PendingSince(ticks, k);
        }
      }
    }
  }

  /** Tick j is at or before tick i and less than 60 seconds old then. */
  predicate Recent(ticks: seq<Tick>, j: int, i: nat)
    requires i < |ticks|
  {
    0 <= j <= i && ticks[j].now > ticks[i].now - POSTROLL
  }

  /**
   A stop is requested only when every tick of the last 60 seconds at which the gate was enabled found the
   satellite down, and never within 60 seconds of a start.
   */
  lemma StopOnlyAfterAMinuteDown(ticks: seq<Tick>, i: nat)
    requires ClockRuns(ticks) && i < |ticks| && ActionAt(ticks, i) == Stop
    ensures forall j :: Recent(ticks, j, i) && ticks[j].enabled ==> !ticks[j].Visible()
    ensures forall j :: 0 <= j < i && ActionAt(ticks, j) == Start ==> ticks[j].now + PREROLL <= ticks[i].now
  {
    var before := ticks[..i];
    PendingHasOrigin(before);
    var k: nat :| PendingSince(before, k);
    forall j | 0 <= j < i && ActionAt(ticks, j) == Start ensures ticks[j].now + PREROLL <= ticks[i].now {
      StartIsBefore(ticks, i, k, j);
    }
    forall j | Recent(ticks, j, i) && ticks[j].enabled ensures !ticks[j].Visible() {
      if j < i {
        assert before[j] == ticks[j] && before[k] == ticks[k];
        assert j >= k;
      }
    }
  }

  /** A start comes before the tick that set the close now due. */
  lemma StartIsBefore(ticks: seq<Tick>, i: nat, k: nat, j: nat)
    requires ClockRuns(ticks) && i < |ticks| && ActionAt(ticks, i) == Stop && PendingSince(ticks[..i], k)
    requires j < i && ActionAt(ticks, j) == Start
    ensures ticks[j].now + PREROLL <= ticks[i].now
  {
    var before := ticks[..i];
    assert before[..j] == ticks[..j] && before[j] == ticks[j];
    assert ActionAt(before, j) == Start;
    assert ticks[j].now <= ticks[k].now == before[k].now;
  }

  /** A run that differs only in the elevation at ticks the gate was disabled at. */
  ghost predicate LooksTheSame(ticks: seq<Tick>, other: seq<Tick>) {
    && |other| == |ticks|
    && forall j :: 0 <= j < |ticks| ==> other[j] == ticks[j] || LooksTheSameAt(ticks[j], other[j])
  }

  predicate LooksTheSameAt(t: Tick, u: Tick) {
    !t.enabled && u == t.(elevation := u.elevation)
  }

  lemma {:induction false} SameClose(ticks: seq<Tick>, other: seq<Tick>)
    requires LooksTheSame(ticks, other)
    ensures CloseAt(other) == CloseAt(ticks)
    decreases |ticks|
  {
    if ticks != [] {
      SameClose(ticks[..|ticks| - 1], other[..|ticks| - 1]);
    }
  }

  lemma SameAction(ticks: seq<Tick>, other: seq<Tick>, i: nat)
    requires LooksTheSame(ticks, other) && i < |ticks|
    ensures ActionAt(other, i) == ActionAt(ticks, i)
  {
    SameClose(ticks[..i], other[..i]);
  }

  /** Every tick of the last 60 seconds found the satellite down. */
  ghost predicate MinuteDown(ticks: seq<Tick>, i: nat) {
    i < |ticks| && forall j :: Recent(ticks, j, i) ==> !ticks[j].Visible()
  }

  /**
   A stop guarantees a whole minute down, whatever the gate could not see, exactly when it was enabled at every
   tick of that minute.
   */
  lemma MinuteDownIffEnabled(ticks: seq<Tick>, i: nat)
    requires ClockRuns(ticks) && i < |ticks| && ActionAt(ticks, i) == Stop
    ensures (forall other :: LooksTheSame(ticks, other) ==> ActionAt(other, i) == Stop)
    ensures (forall other :: LooksTheSame(ticks, other) ==> MinuteDown(other, i))
       <==> (forall j :: Recent(ticks, j, i) ==> ticks[j].enabled)
  {
    StopOnlyAfterAMinuteDown(ticks, i);
    forall other: seq<Tick> | LooksTheSame(ticks, other) ensures ActionAt(other, i) == Stop {
      SameAction(ticks, other, i);
    }
    if forall j :: Recent(ticks, j, i) ==> ticks[j].enabled {
      forall other: seq<Tick> | LooksTheSame(ticks, other) ensures MinuteDown(other, i) {
        forall j | Recent(other, j, i) ensures !other[j].Visible() {
          assert Recent(ticks, j, i);
        }
      }
    } else {
      var j :| Recent(ticks, j, i) && !ticks[j].enabled;
      var other := ticks[j := ticks[j].(elevation := 1.0)];
      assert LooksTheSame(ticks, other) && Recent(other, j, i) && other[j].Visible();
    }
  }

  /** A satellite seen only while the gate is disabled does not cancel a pending close. */
  lemma DisabledTickIsMissed()
    ensures var ticks := [Tick(0.0, true, -1.0, -1.0, true), Tick(30.0, false, 1.0, -1.0, true),
                          Tick(60.0, true, -1.0, -1.0, true)];
      ClockRuns(ticks) && ActionAt(ticks, 2) == Stop && Recent(ticks, 1, 2) && ticks[1].Visible()
  {
    var ticks := [Tick(0.0, true, -1.0, -1.0, true), Tick(30.0, false, 1.0, -1.0, true),
                  Tick(60.0, true, -1.0, -1.0, true)];
    assert ticks[..2][..1] == [ticks[0]] && [ticks[0]][..0] == [];
    assert CloseAt([ticks[0]]) == 60.0;
    assert CloseAt(ticks[..2]) == 60.0;
  }

  /** A recording opened by the preroll is never stopped before the rise predicted when it opened. */
  lemma NeverStoppedBeforeTheRise(ticks: seq<Tick>, start: nat, stop: nat)
    requires ClockRuns(ticks) && start < stop < |ticks|
    requires ActionAt(ticks, start) == Start && !ticks[start].Visible()
    requires ActionAt(ticks, stop) == Stop
    ensures ticks[start].now + ticks[start].secToAos <= ticks[stop].now
  {
    StopOnlyAfterAMinuteDown(ticks, stop);
  }

  // ---- A recording is running when it should be ----

  /** Whether the recorder runs after a tick, if it does what it is asked. */
  predicate RunsAfter(t: Tick, a: Action) {
    match a
    case Start => true
    case Stop => false
    case Nothing => t.active
  }

  /** The recorder does what it is asked from one tick to the next. */
  ghost predicate RecorderFollows(ticks: seq<Tick>) {
    forall i :: 1 <= i < |ticks| ==> ticks[i].active == RunsAfter(ticks[i - 1], ActionAt(ticks, i - 1))
  }

  /** A close is pending and due at tick i. */
  predicate CloseIsDue(ticks: seq<Tick>, i: nat)
    requires i < |ticks|
  {
    CloseAt(ticks[..i]) != 0.0 && ticks[i].now >= CloseAt(ticks[..i])
  }

  /**
   Every enabled tick with the satellite visible, or within 60 seconds of its rise, leaves the recorder running,
   with one exception, exactly: a recording whose postroll runs out before the satellite is up.
   */
  lemma RecordsWhenDue(ticks: seq<Tick>, i: nat)
    requires i < |ticks| && ticks[i].enabled && (ticks[i].Visible() || ticks[i].InPreroll())
    ensures RunsAfter(ticks[i], ActionAt(ticks, i))
       <==> !(ticks[i].active && !ticks[i].Visible() && CloseIsDue(ticks, i))
  {
  }

  /** With a recorder that follows, a satellite visible at an enabled tick is being recorded at the next. */
  lemma VisibleIsRecorded(ticks: seq<Tick>, i: nat)
    requires RecorderFollows(ticks) && i + 1 < |ticks| && ticks[i].enabled && ticks[i].Visible()
    ensures ticks[i + 1].active && ActionAt(ticks, i) != Stop
  {
    RecordsWhenDue(ticks, i);
    assert ticks[i + 1].active == RunsAfter(ticks[i + 1 - 1], ActionAt(ticks, i + 1 - 1));
  }

  /** And nothing is recorded without cause: down, with the rise more than 60 seconds away, the recorder stays off. */
  lemma StaysOff(ticks: seq<Tick>, i: nat)
    requires RecorderFollows(ticks) && i + 1 < |ticks| && !ticks[i].active
    requires !ticks[i].enabled || (!ticks[i].Visible() && !ticks[i].InPreroll())
    ensures !ticks[i + 1].active
  {
    assert ticks[i + 1].active == RunsAfter(ticks[i + 1 - 1], ActionAt(ticks, i + 1 - 1));
  }

  /** The exception happens: a rise predicted ever later is given up 60 seconds after the preroll began. */
  lemma SlippingRiseIsDropped()
    ensures var ticks := [Tick(0.0, true, -1.0, 50.0, false), Tick(1.0, true, -1.0, 50.0, true),
                          Tick(61.0, true, -1.0, 50.0, true)];
      && ClockRuns(ticks) && RecorderFollows(ticks) && ActionAt(ticks, 0) == Start
      && ticks[2].InPreroll() && ActionAt(ticks, 2) == Stop
  {
    var ticks := [Tick(0.0, true, -1.0, 50.0, false), Tick(1.0, true, -1.0, 50.0, true),
                  Tick(61.0, true, -1.0, 50.0, true)];
    assert ticks[..2][..1] == [ticks[0]] && [ticks[0]][..0] == [] && ticks[..0] == [] && ticks[..1] == [ticks[0]];
    assert CloseAt([ticks[0]]) == 0.0;
    assert CloseAt(ticks[..2]) == 61.0;
  }

  /** Recording, with the satellite down, at every tick from k to n. */
  ghost predicate DownAndRecording(ticks: seq<Tick>, k: nat, n: nat) {
    k <= n < |ticks| && forall j :: k <= j <= n ==> ticks[j].enabled && ticks[j].active && !ticks[j].Visible()
  }

  lemma {:induction false} StaysPending(ticks: seq<Tick>, k: nat, n: nat)
    requires ClockRuns(ticks) && DownAndRecording(ticks, k, n)
    requires forall j :: k <= j <= n ==> ActionAt(ticks, j) != Stop
    ensures 0.0 < CloseAt(ticks[..n + 1]) <= ticks[k].now + POSTROLL
    decreases n
  {
    assert ticks[..n + 1][..n] == ticks[..n];
    var c := CloseAt(ticks[..n]);
    assert ticks[..n + 1][n] == ticks[n] && CloseAt(ticks[..n + 1]) == Step(c, ticks[n]).closeAt;
    assert ActionAt(ticks, n) != Stop;
    if n > k {
      StaysPending(ticks, k, n - 1);
    } else {
      PendingHasOrigin(ticks[..n]);
      if c != 0.0 {
        var o: nat :| PendingSince(ticks[..n], o);
        assert ticks[o].now <= ticks[n].now;
      }
    }
  }

  /** Once the satellite has been down for 60 seconds of recording, a stop has been requested. */
  lemma StopComes(ticks: seq<Tick>, k: nat, n: nat)
    requires ClockRuns(ticks) && DownAndRecording(ticks, k, n) && k < n
    requires ticks[n].now >= ticks[k].now + POSTROLL
    ensures exists j :: k <= j <= n && ActionAt(ticks, j) == Stop
  {
    if forall j :: k <= j < n ==> ActionAt(ticks, j) != Stop {
      StaysPending(ticks, k, n - 1);
      assert ActionAt(ticks, n) == Stop;
    }
  }

  /** The mark zero for "no close pending" needs a nonnegative clock: a close due at exactly zero is forgotten. */
  lemma NegativeClockForgets()
    ensures var ticks := [Tick(-60.0, true, -1.0, -1.0, true), Tick(0.0, true, -1.0, -1.0, true)];
      DownAndRecording(ticks, 0, 1) && ticks[1].now >= ticks[0].now + POSTROLL
      && forall j :: 0 <= j <= 1 ==> ActionAt(ticks, j) != Stop
  {
    var ticks := [Tick(-60.0, true, -1.0, -1.0, true), Tick(0.0, true, -1.0, -1.0, true)];
    assert ticks[..1] == [ticks[0]] && ticks[..1][..0] == [];
    assert CloseAt(ticks[..1]) == 0.0;
  }
}
