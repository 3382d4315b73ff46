/**
 * The fasting session: `FastingManager` and the zone lookup that the main
 * screen and the live activity share. Time is whole seconds since 1970 and
 * the clock is the `now` parameter of each operation. The key/value store
 * shared with the widget is the `sharedDefaults` map; every call out of the
 * app (watch context, live activity, notification, HealthKit, gamification)
 * is appended to `effects` instead of being performed.
 */
module FastingSession {
  import opened Wrappers
  import opened TimeUnits
  import opened FastingZones

  // ---------------------------------------------------------------------------
  // Zone lookup and progress

  /** The zone shown for an elapsed time: the last catalogue zone whose threshold has been reached, or Anabolic when none has. */
  function CurrentZone(elapsed: int): (z: FastingZone)
  {
    LastReachedOr(AllZones, elapsed, Anabolic)
  }

  /** The current zone is a catalogue zone: Anabolic before any threshold is reached (including at negative elapsed times), and otherwise the reached zone with the greatest threshold. */
  lemma CurrentZoneIsLatestReached(elapsed: int)
    ensures CurrentZone(elapsed) in AllZones
    ensures elapsed < Anabolic.duration ==> CurrentZone(elapsed) == Anabolic
    ensures Anabolic.duration <= elapsed ==> CurrentZone(elapsed).duration <= elapsed
    ensures forall z :: z in AllZones && z.duration <= elapsed ==> z.duration <= CurrentZone(elapsed).duration
  {
    CatalogueOrdered();
    LastReachedOrBounds(AllZones, elapsed, Anabolic);
  }

  /** The zone never goes back as the fast goes on. */
  lemma CurrentZoneMonotone(e1: int, e2: int)
    requires e1 <= e2
    ensures CurrentZone(e1).duration <= CurrentZone(e2).duration
  {
    CatalogueShape();
    CurrentZoneIsLatestReached(e1);
    CurrentZoneIsLatestReached(e2);
  }

  /** Between a zone's threshold and the next one's, the lookup reports that zone. */
  lemma CurrentZoneBetween(i: nat, elapsed: int)
    requires i < |AllZones|
    requires AllZones[i].duration <= elapsed
    requires i + 1 < |AllZones| ==> elapsed < AllZones[i + 1].duration
    ensures CurrentZone(elapsed) == AllZones[i]
  {
    CatalogueShape();
    CurrentZoneIsLatestReached(elapsed);
    var z := CurrentZone(elapsed);
    var k :| 0 <= k < |AllZones| && AllZones[k] == z;
    assert k <= i;
    assert AllZones[i].duration <= z.duration;
  }

  /**
   * The whole lookup, hour by hour. Since each threshold marks where its zone
   * ends, the lookup names the zone most recently completed: Anabolic until
   * 12 hours, Catabolic from 12 to 16 hours, and so on.
   */
  lemma ZoneTable(elapsed: int)
    ensures elapsed < 12 * 3600 ==> CurrentZone(elapsed) == Anabolic
    ensures 12 * 3600 <= elapsed < 16 * 3600 ==> CurrentZone(elapsed) == Catabolic
    ensures 16 * 3600 <= elapsed < 24 * 3600 ==> CurrentZone(elapsed) == FatBurning
    ensures 24 * 3600 <= elapsed < 48 * 3600 ==> CurrentZone(elapsed) == Ketosis
    ensures 48 * 3600 <= elapsed < 72 * 3600 ==> CurrentZone(elapsed) == Autophagy
    ensures 72 * 3600 <= elapsed ==> CurrentZone(elapsed) == DeepAutophagy
  {
    if elapsed < 4 * 3600 {
      CurrentZoneIsLatestReached(elapsed);
    } else if elapsed < 12 * 3600 {
      CurrentZoneBetween(0, elapsed);
    } else if elapsed < 16 * 3600 {
      CurrentZoneBetween(1, elapsed);
    } else if elapsed < 24 * 3600 {
      CurrentZoneBetween(2, elapsed);
    } else if elapsed < 48 * 3600 {
      CurrentZoneBetween(3, elapsed);
    } else if elapsed < 72 * 3600 {
      CurrentZoneBetween(4, elapsed);
    } else {
      CurrentZoneBetween(5, elapsed);
    }
  }

  /** The fraction of the goal that has elapsed, 0 when the goal is not positive; exact and not clamped. */
  function Progress(elapsed: int, goal: int): (p: real)
    ensures goal > 0 ==> p * goal as real == elapsed as real
    ensures goal <= 0 ==> p == 0.0
  {
    if goal > 0 then elapsed as real / goal as real else 0.0
  }

  /** Progress runs from 0 at the start to 1 at the goal, goes past 1 after it and below 0 before the start. */
  lemma ProgressRange(elapsed: int, goal: int)
    requires goal > 0
    ensures 0 <= elapsed <= goal ==> 0.0 <= Progress(elapsed, goal) <= 1.0
    ensures elapsed >= goal ==> Progress(elapsed, goal) >= 1.0
    ensures elapsed < 0 ==> Progress(elapsed, goal) < 0.0
  {
    var p := Progress(elapsed, goal);
    var g := goal as real;
    if p < 0.0 {
      assert p * g < 0.0;
    }
    if p > 1.0 {
      assert p * g > g;
    }
    if p < 1.0 {
      assert p * g < g;
    }
  }

  // ---------------------------------------------------------------------------
  // Session state and the shared key/value store

  datatype FastingState = Idle | Fasting
  {
    /** The raw value written to the store. */
    function RawValue(): string
    {
      match this
      case Idle => "idle"
      case Fasting => "fasting"
    }
  }

  /** Decoding a stored raw value: only the two raw values of the states decode. */
  function StateFromRawValue(raw: string): (r: Option<FastingState>)
    ensures r.Some? ==> r.value.RawValue() == raw
    ensures r.None? ==> raw != Idle.RawValue() && raw != Fasting.RawValue()
  {
    if raw == "idle" then Some(Idle) else if raw == "fasting" then Some(Fasting) else None
  }

  /** Every state's raw value decodes back to that state, so a stored state survives a relaunch. */
  lemma RawValueRoundTrip(st: FastingState)
    ensures StateFromRawValue(st.RawValue()) == Some(st)
  {
  }

  /** A value in `UserDefaults`: the state is stored as a string, times as numbers of seconds. */
  datatype DefaultsValue = StringValue(s: string) | DoubleValue(x: int)

  /** The three keys the manager uses in the shared suite. */
  datatype DefaultsKey = StateKey | StartKey | GoalKey
  {
    /** The key string under which `UserDefaults` files the value. */
    function Name(): string
    {
      match this
      case StateKey => "fastingState"
      case StartKey => "fastingStartDate"
      case GoalKey => "fastingGoal"
    }
  }

  type Defaults = map<DefaultsKey, DefaultsValue>

  /** Different keys have different names, so keeping the keys apart as constructors loses nothing. */
  lemma KeyNamesDistinct(a: DefaultsKey, b: DefaultsKey)
    ensures a.Name() == b.Name() <==> a == b
  {
    assert |StateKey.Name()| == 12 && |StartKey.Name()| == 16 && |GoalKey.Name()| == 11;
  }

  /** `string(forKey:)`: `None` unless a string is stored under `key`. */
  function StoredString(d: Defaults, key: DefaultsKey): Option<string>
  {
    if key in d && d[key].StringValue? then Some(d[key].s) else None
  }

  /** `double(forKey:)`: 0 unless a number is stored under `key`. */
  function StoredDouble(d: Defaults, key: DefaultsKey): int
  {
    if key in d && d[key].DoubleValue? then d[key].x else 0
  }

  /** The persisted part of a session. */
  datatype Session = Session(state: FastingState, startDate: int, goal: int)

  /** What `init` reads back from the store. */
  function RestoredSession(d: Defaults): (s: Session)
    ensures s.state == Fasting <==> StateKey in d && d[StateKey] == StringValue("fasting")
    ensures StartKey in d && d[StartKey].DoubleValue? ==> s.startDate == d[StartKey].x
    ensures GoalKey in d && d[GoalKey].DoubleValue? ==> s.goal == d[GoalKey].x
    ensures StartKey !in d ==> s.startDate == 0
    ensures GoalKey !in d ==> s.goal == 0
  {
    var raw := match StoredString(d, StateKey) case Some(r) => r case None => "idle";
    var state := match StateFromRawValue(raw) case Some(st) => st case None => Idle;
    Session(state, StoredDouble(d, StartKey), StoredDouble(d, GoalKey))
  }

  /** Writing a session's three fields through to the store, whatever it held before, makes a restore read back exactly that session. */
  lemma WriteThroughRestores(d: Defaults, s: Session)
    ensures RestoredSession(d[StateKey := StringValue(s.state.RawValue())]
                             [StartKey := DoubleValue(s.startDate)]
                             [GoalKey := DoubleValue(s.goal)]) == s
  {
  }

  /** `startFasting` writes the start before the state; the store still restores the new session. */
  lemma StartWritesRestore(d: Defaults, now: int, goal: int)
    ensures RestoredSession(d[StartKey := DoubleValue(now)][StateKey := StringValue("fasting")]
                             [GoalKey := DoubleValue(goal)]) == Session(Fasting, now, goal)
  {
    assert d[StartKey := DoubleValue(now)][StateKey := StringValue("fasting")]
        == d[StateKey := StringValue("fasting")][StartKey := DoubleValue(now)];
    WriteThroughRestores(d, Session(Fasting, now, goal));
  }

  // ---------------------------------------------------------------------------
  // Calls out of the app, recorded instead of performed

  /** What the live activity displays: elapsed seconds, the zone's name and the progress. */
  datatype ActivityContent = ActivityContent(elapsedTime: int, currentZoneName: string, progress: real)

  datatype Effect =
    | WatchContext(state: FastingState, startDate: int, goal: int)   // sendContextToWatch()
    | NotificationAuthorizationRequest
    | HealthAuthorizationRequest
    | CompletionNotification(hours: int, fireAfter: int)             // "You've completed your <hours>-hour fast", after `fireAfter` seconds
    | ActivityRequest(goal: int, content: ActivityContent)            // Activity.request
    | ActivityUpdate(content: ActivityContent)                        // currentActivity?.update
    | ActivityEnd(content: ActivityContent)                           // currentActivity?.end
    | HealthSave(startDate: int, endDate: int)                        // HealthKitManager.saveFast
    | FastCompleted(startDate: int, endDate: int)                     // GamificationManager.processCompletedFast

  /** How many times the gamification engine was called. */
  function Completions(effects: seq<Effect>): nat
  {
    if effects == [] then 0
    else Completions(effects[..|effects| - 1]) + (if effects[|effects| - 1].FastCompleted? then 1 else 0)
  }

  lemma {:induction false} CompletionsAppend(a: seq<Effect>, b: seq<Effect>)
    ensures Completions(a + b) == Completions(a) + Completions(b)
  {
    if b != [] {
      assert (a + b)[..|a + b| - 1] == a + b[..|b| - 1];
      CompletionsAppend(a, b[..|b| - 1]);
    } else {
      assert a + b == a;
    }
  }

  /** The live-activity update a tick sends every 30 seconds of elapsed time, if there is a live activity. */
  function ZoneUpdateEffects(elapsed: int, goal: int, liveActivity: bool): seq<Effect>
  {
    if Rem(elapsed, 30) == 0 then ZoneUpdate(elapsed, goal, liveActivity) else []
  }

  /** What `updateLiveActivity()` sends: the current zone and progress, if there is a live activity. */
  function ZoneUpdate(elapsed: int, goal: int, liveActivity: bool): seq<Effect>
  {
    if liveActivity then [ActivityUpdate(ActivityContent(elapsed, CurrentZone(elapsed).name, Progress(elapsed, goal)))]
    else []
  }

  /** The calls `endFasting` makes, given the start and goal it found and the elapsed time it leaves. */
  function EndFastingEffects(startDate: int, goal: int, now: int, elapsed: int, liveActivity: bool): seq<Effect>
  {
    (if startDate > 0 then [HealthSave(startDate, now), FastCompleted(startDate, now)] else [])
    + [WatchContext(Idle, startDate, goal)]
    + (if liveActivity then [ActivityEnd(ActivityContent(elapsed, "Ended", 1.0))] else [])
  }

  /** Ending calls the gamification engine and HealthKit, both with the interval from the stored start to now, exactly when the stored start is positive. */
  lemma EndFastingCompletions(startDate: int, goal: int, now: int, elapsed: int, liveActivity: bool)
    ensures Completions(EndFastingEffects(startDate, goal, now, elapsed, liveActivity)) == if startDate > 0 then 1 else 0
    ensures HealthSave(startDate, now) in EndFastingEffects(startDate, goal, now, elapsed, liveActivity) <==> startDate > 0
    ensures FastCompleted(startDate, now) in EndFastingEffects(startDate, goal, now, elapsed, liveActivity) <==> startDate > 0
  {
    var head: seq<Effect> := if startDate > 0 then [HealthSave(startDate, now), FastCompleted(startDate, now)] else [];
    var tail: seq<Effect> := [WatchContext(Idle, startDate, goal)]
      + (if liveActivity then [ActivityEnd(ActivityContent(elapsed, "Ended", 1.0))] else []);
    assert EndFastingEffects(startDate, goal, now, elapsed, liveActivity) == head + tail;
    CompletionsAppend(head, tail);
    CompletionsAppend([WatchContext(Idle, startDate, goal)],
      if liveActivity then [ActivityEnd(ActivityContent(elapsed, "Ended", 1.0))] else []);
    if startDate > 0 {
      CompletionsAppend([HealthSave(startDate, now)], [FastCompleted(startDate, now)]);
    }
  }

  /** A tick sends a zone update exactly when the whole elapsed seconds are a multiple of 30 and a live activity exists; the update names the current zone and the progress toward the goal. */
  lemma ZoneUpdateCadence(elapsed: int, goal: int, liveActivity: bool)
    ensures ZoneUpdateEffects(elapsed, goal, liveActivity) != [] <==> elapsed % 30 == 0 && liveActivity
    ensures elapsed % 30 == 0 && liveActivity ==>
      ZoneUpdateEffects(elapsed, goal, liveActivity)
        == [ActivityUpdate(ActivityContent(elapsed, CurrentZone(elapsed).name, Progress(elapsed, goal)))]
  {
    RemZeroIffDivides(elapsed, 30);
  }

  // ---------------------------------------------------------------------------
  // The manager

  class FastingManager {
    var fastingState: FastingState
    var elapsedTime: int
    var fastingStartDate: int
    var fastingGoal: int
    /** Whether the 1 Hz `timer` is scheduled. */
    var timerScheduled: bool
    /** Whether `currentActivity` holds a live activity. */
    var hasLiveActivity: bool
    var sharedDefaults: Defaults
    var effects: seq<Effect>

    /** The timer runs exactly while fasting, and the store holds the session: a relaunch would restore the same state, start and goal. */
    ghost predicate Valid()
      reads this`timerScheduled, this`fastingState, this`sharedDefaults, this`fastingStartDate, this`fastingGoal
    {
      && timerScheduled == (fastingState == Fasting)
      && RestoredSession(sharedDefaults) == Session(fastingState, fastingStartDate, fastingGoal)
    }

    /**
     * `init`: restores the session from the store and, while fasting, the
     * elapsed time and the timer. Property observers do not run inside an
     * initializer, so nothing is written back and only the final explicit
     * call sends the watch context.
     */
    constructor (defaults: Defaults, now: int)
      ensures Valid()
      ensures Session(fastingState, fastingStartDate, fastingGoal) == RestoredSession(defaults)
      ensures sharedDefaults == defaults
      ensures elapsedTime == if fastingState == Fasting then now - fastingStartDate else 0
      ensures !hasLiveActivity
      ensures effects == [NotificationAuthorizationRequest, HealthAuthorizationRequest,
                          WatchContext(fastingState, fastingStartDate, fastingGoal)]
    {
      sharedDefaults := defaults;
      var restored := RestoredSession(defaults);
      fastingState := restored.state;
      fastingStartDate := restored.startDate;
      fastingGoal := restored.goal;
      elapsedTime := 0;
      timerScheduled := false;
      hasLiveActivity := false;
      effects := [];
      new;
      if fastingState == Fasting {
        elapsedTime := now - fastingStartDate;
        StartTimer();
      }
      effects := effects + [NotificationAuthorizationRequest, HealthAuthorizationRequest];
      SendContextToWatch();
    }

    /** `fastingState`'s `didSet`: write through, then tell the watch. */
    method SetFastingState(state: FastingState)
      modifies this`fastingState, this`sharedDefaults, this`effects
      ensures fastingState == state
      ensures sharedDefaults == old(sharedDefaults)[StateKey := StringValue(state.RawValue())]
      ensures effects == old(effects) + [WatchContext(state, fastingStartDate, fastingGoal)]
    {
      fastingState := state;
      sharedDefaults := sharedDefaults[StateKey := StringValue(fastingState.RawValue())];
      SendContextToWatch();
    }

    /** `elapsedTime`'s `didSet`: tell the watch. */
    method SetElapsedTime(elapsed: int)
      modifies this`elapsedTime, this`effects
      ensures elapsedTime == elapsed
      ensures effects == old(effects) + [WatchContext(fastingState, fastingStartDate, fastingGoal)]
    {
      elapsedTime := elapsed;
      SendContextToWatch();
    }

    /** `fastingStartDate`'s `didSet`: write through. */
    method SetFastingStartDate(startDate: int)
      modifies this`fastingStartDate, this`sharedDefaults
      ensures fastingStartDate == startDate
      ensures sharedDefaults == old(sharedDefaults)[StartKey := DoubleValue(startDate)]
    {
      fastingStartDate := startDate;
      sharedDefaults := sharedDefaults[StartKey := DoubleValue(fastingStartDate)];
    }

    /** `fastingGoal`'s `didSet`: write through. */
    method SetFastingGoal(goal: int)
      modifies this`fastingGoal, this`sharedDefaults
      ensures fastingGoal == goal
      ensures sharedDefaults == old(sharedDefaults)[GoalKey := DoubleValue(goal)]
    {
      fastingGoal := goal;
      sharedDefaults := sharedDefaults[GoalKey := DoubleValue(fastingGoal)];
    }

    /**
     * `startFasting(goal:)`. It does not look at the current state: starting
     * while already fasting simply begins a new session. `activityGranted`
     * is whether ActivityKit grants the live-activity request; when it does
     * not, `currentActivity` keeps whatever it held.
     */
    method StartFasting(goal: int, now: int, activityGranted: bool)
      modifies this
      ensures Valid()
      ensures fastingState == Fasting && fastingStartDate == now && fastingGoal == goal && elapsedTime == 0
      ensures timerScheduled
      ensures hasLiveActivity == (old(hasLiveActivity) || activityGranted)
      ensures sharedDefaults == old(sharedDefaults)[StartKey := DoubleValue(now)]
                                [StateKey := StringValue("fasting")][GoalKey := DoubleValue(goal)]
      ensures effects == old(effects) + [
        WatchContext(Fasting, now, old(fastingGoal)),
        WatchContext(Fasting, now, goal),
        CompletionNotification(Quot(goal, SecondsPerHour), goal),
        ActivityRequest(goal, ActivityContent(0, "Anabolic", 0.0))]
    {
      ghost var before := sharedDefaults;
      SetFastingStartDate(now);
      SetFastingState(Fasting);
      SetFastingGoal(goal);
      SetElapsedTime(0);
      StartTimer();
      var hours := Quot(goal, SecondsPerHour);
      effects := effects + [CompletionNotification(hours, goal), ActivityRequest(goal, ActivityContent(0, "Anabolic", 0.0))];
      if activityGranted {
        hasLiveActivity := true;
      }
      assert sharedDefaults == before[StartKey := DoubleValue(now)][StateKey := StringValue("fasting")][GoalKey := DoubleValue(goal)];
      StartWritesRestore(before, now, goal);
    }

    /**
     * `endFasting()`. The completed interval goes to HealthKit and to the
     * gamification engine only while a start is stored, and the start is
     * then cleared, so a second call records no second completion. The live
     * activity is ended with progress 1 whenever one is held.
     */
    method EndFasting(now: int)
      modifies this
      ensures Valid()
      ensures fastingState == Idle && fastingStartDate == 0 && fastingGoal == 0 && !timerScheduled
      ensures elapsedTime == old(elapsedTime) && hasLiveActivity == old(hasLiveActivity)
      ensures sharedDefaults == old(sharedDefaults)[StateKey := StringValue("idle")]
                                [StartKey := DoubleValue(0)][GoalKey := DoubleValue(0)]
      ensures effects == old(effects)
        + EndFastingEffects(old(fastingStartDate), old(fastingGoal), now, elapsedTime, hasLiveActivity)
    {
      ghost var before := sharedDefaults;
      if fastingStartDate > 0 {
        effects := effects + [HealthSave(fastingStartDate, now), FastCompleted(fastingStartDate, now)];
      }
      SetFastingState(Idle);
      timerScheduled := false;
      SetFastingStartDate(0);
      SetFastingGoal(0);
      if hasLiveActivity {
        effects := effects + [ActivityEnd(ActivityContent(elapsedTime, "Ended", 1.0))];
      }
      assert sharedDefaults == before[StateKey := StringValue("idle")][StartKey := DoubleValue(0)][GoalKey := DoubleValue(0)];
      WriteThroughRestores(before, Session(Idle, 0, 0));
    }

    method StartTimer()
      modifies this`timerScheduled
      ensures timerScheduled
    {
      timerScheduled := true;
    }

    /**
     * One firing of the timer's closure. While idle it does nothing. While
     * fasting it recomputes the elapsed time, sends a zone update every 30
     * seconds, and ends the fast once the goal is reached.
     */
    method Tick(now: int)
      requires Valid()
      modifies this
      ensures Valid()
      ensures old(fastingState) == Idle ==> unchanged(this)
      ensures old(fastingState) == Fasting ==>
        var elapsed := now - old(fastingStartDate);
        && elapsedTime == elapsed
        && hasLiveActivity == old(hasLiveActivity)
        && (fastingState == Idle <==> elapsed >= old(fastingGoal))
        && (elapsed < old(fastingGoal) ==>
              fastingStartDate == old(fastingStartDate) && fastingGoal == old(fastingGoal)
              && sharedDefaults == old(sharedDefaults))
        && (elapsed >= old(fastingGoal) ==>
              fastingStartDate == 0 && fastingGoal == 0
              && sharedDefaults == old(sharedDefaults)[StateKey := StringValue("idle")]
                                     [StartKey := DoubleValue(0)][GoalKey := DoubleValue(0)])
        && effects == old(effects)
             + [WatchContext(Fasting, old(fastingStartDate), old(fastingGoal))]
             + ZoneUpdateEffects(elapsed, old(fastingGoal), hasLiveActivity)
             + (if elapsed >= old(fastingGoal)
                then EndFastingEffects(old(fastingStartDate), old(fastingGoal), now, elapsed, hasLiveActivity)
                else [])
    {
      if fastingState != Fasting {
        return;
      }
      RecordElapsed(now);
      EndIfGoalReached(now);
    }

    /** The closure's first steps: the new elapsed time, and the zone update every 30 seconds. */
    method RecordElapsed(now: int)
      modifies this`elapsedTime, this`effects
      ensures elapsedTime == now - fastingStartDate
      ensures effects == old(effects) + [WatchContext(fastingState, fastingStartDate, fastingGoal)]
        + ZoneUpdateEffects(elapsedTime, fastingGoal, hasLiveActivity)
    {
      SetElapsedTime(now - fastingStartDate);
      if Rem(elapsedTime, 30) == 0 {
        UpdateLiveActivity();
      }
    }

    /** The closure's last step: the fast ends once the elapsed time reaches the goal. */
    method EndIfGoalReached(now: int)
      requires Valid()
      modifies this
      ensures Valid()
      ensures elapsedTime == old(elapsedTime) && hasLiveActivity == old(hasLiveActivity)
      ensures old(elapsedTime) < old(fastingGoal) ==> unchanged(this)
      ensures old(elapsedTime) >= old(fastingGoal) ==>
        && fastingState == Idle && fastingStartDate == 0 && fastingGoal == 0
        && sharedDefaults == old(sharedDefaults)[StateKey := StringValue("idle")]
                               [StartKey := DoubleValue(0)][GoalKey := DoubleValue(0)]
        && effects == old(effects)
             + EndFastingEffects(old(fastingStartDate), old(fastingGoal), now, elapsedTime, hasLiveActivity)
    {
      if elapsedTime >= fastingGoal {
        EndFasting(now);
      }
    }

    /** `updateLiveActivity()`: the current zone and progress, sent to the live activity if there is one. */
    method UpdateLiveActivity()
      modifies this`effects
      ensures effects == old(effects) + ZoneUpdate(elapsedTime, fastingGoal, hasLiveActivity)
    {
      if hasLiveActivity {
        var zone := CurrentZone(elapsedTime);
        var progress := Progress(elapsedTime, fastingGoal);
        effects := effects + [ActivityUpdate(ActivityContent(elapsedTime, zone.name, progress))];
      }
    }

    /** `sendContextToWatch()`: the state, start and goal go to the watch. */
    method SendContextToWatch()
      modifies this`effects
      ensures effects == old(effects) + [WatchContext(fastingState, fastingStartDate, fastingGoal)]
    {
      effects := effects + [WatchContext(fastingState, fastingStartDate, fastingGoal)];
    }

    /** `getFastingGoal()`: the goal field as it stands, which is 0 after `EndFasting`. */
    method GetFastingGoal() returns (goal: int)
      ensures goal == fastingGoal
    {
      goal := fastingGoal;
    }
  }

  // ---------------------------------------------------------------------------
  // What callers can rely on

  /** Ending twice in a row calls the gamification engine once if a start was stored, and otherwise not at all. */
  method EndFastingTwice(m: FastingManager, now1: int, now2: int)
    modifies m
    ensures m.Valid() && m.fastingState == Idle
    ensures Completions(m.effects) == Completions(old(m.effects)) + (if old(m.fastingStartDate) > 0 then 1 else 0)
  {
    ghost var before := m.effects;
    var start := m.fastingStartDate;
    m.EndFasting(now1);
    ghost var middle := m.effects;
    EndFastingCompletions(start, old(m.fastingGoal), now1, m.elapsedTime, m.hasLiveActivity);
    CompletionsAppend(before, middle[|before|..]);
    assert middle == before + middle[|before|..];
    m.EndFasting(now2);
    EndFastingCompletions(0, 0, now2, m.elapsedTime, m.hasLiveActivity);
    assert m.effects == middle + m.effects[|middle|..];
    CompletionsAppend(middle, m.effects[|middle|..]);
  }

  /**
   * A 16-hour fast checked four hours in: the elapsed time is 14400 seconds,
   * the fast goes on, and the zone update reports Anabolic (the 4-hour
   * threshold has just been reached) at progress 0.25.
   */
  method FourHoursIntoSixteen(m: FastingManager, t0: int, activityGranted: bool)
    modifies m
    ensures m.Valid()
    ensures m.fastingState == Fasting && m.elapsedTime == 14400 && m.fastingGoal == 57600
    ensures m.hasLiveActivity ==>
      |m.effects| > 0 && m.effects[|m.effects| - 1] == ActivityUpdate(ActivityContent(14400, "Anabolic", 0.25))
  {
    m.StartFasting(57600, t0, activityGranted);
    m.Tick(t0 + 14400);
    ZoneTable(14400);
    assert Rem(14400, 30) == 0;
    assert Progress(14400, 57600) == 0.25;
  }

  /** Relaunching reads back, from the store alone, the session that was running. */
  method Relaunch(m: FastingManager, now: int) returns (restored: FastingManager)
    requires m.Valid()
    ensures restored.Valid()
    ensures restored.fastingState == m.fastingState
    ensures restored.fastingStartDate == m.fastingStartDate && restored.fastingGoal == m.fastingGoal
    ensures restored.elapsedTime == if m.fastingState == Fasting then now - m.fastingStartDate else 0
  {
    restored := new FastingManager(m.sharedDefaults, now);
  }
}
