/**
 * The gamification engine: turns each completed fast into an updated
 * profile (total, streaks, last fast date) and unlocks badges by a fixed
 * rule table. The functions below say what one completion does to a
 * profile; `GamificationManager` is the engine as written, updating its
 * `userProfile` field step by step, and is proved to agree with them.
 */
module Gamification {
  import opened Wrappers
  import opened TimeUnits
  import opened Profiles
  import FastingZones
  import Badges

  /**
   * The calendar day an instant falls on, for a calendar at a fixed offset
   * from UTC (daylight-saving changes are not modelled).
   */
  function Day(t: int, utcOffset: int): int
  {
    (t + utcOffset) / SecondsPerDay
  }

  /** Whether two instants fall on the same calendar day. */
  predicate SameDay(a: int, b: int, utcOffset: int)
  {
    Day(a, utcOffset) == Day(b, utcOffset)
  }

  /** Twenty-four hours later is the next calendar day. */
  lemma DayAdvance(t: int, utcOffset: int)
    ensures Day(t + SecondsPerDay, utcOffset) == Day(t, utcOffset) + 1
  {
    var x := t + utcOffset;
    assert x == (x / 86400) * 86400 + x % 86400;
    ExactMultiple((x / 86400 + 1) * 86400, 86400, x / 86400 + 1);
    assert x + 86400 == (x / 86400 + 1) * 86400 + x % 86400;
  }

  const FirstFastId := "first_fast"
  const TenFastsId := "10_fasts"
  const FiftyFastsId := "50_fasts"
  const WeekStreakId := "7_day_streak"
  const MonthStreakId := "30_day_streak"
  const DayLongFastId := "24_hour_fast"
  const AutophagyId := "autophagy_unlocked"

  /** Every badge id the engine can award. */
  const AwardableIds: set<string> :=
    {FirstFastId, TenFastsId, FiftyFastsId, WeekStreakId, MonthStreakId, DayLongFastId, AutophagyId}

  /** The rule table: whether a completion that brings the total to `total`, the streak to `streak` and lasted `duration` seconds earns badge `id`. */
  predicate Earns(id: string, total: int, streak: int, duration: int)
  {
    || (id == FirstFastId && total == 1)
    || (id == TenFastsId && total >= 10)
    || (id == FiftyFastsId && total >= 50)
    || (id == WeekStreakId && streak >= 7)
    || (id == MonthStreakId && streak >= 30)
    || (id == DayLongFastId && duration >= 24 * SecondsPerHour)
    || (id == AutophagyId && duration >= FastingZones.Autophagy.duration)
  }

  /** The badges one completion earns: every awardable badge whose rule holds. */
  function EarnedBadges(total: int, streak: int, duration: int): set<string>
  {
    set id | id in AwardableIds && Earns(id, total, streak, duration)
  }

  /** The streak after a completion on `completion`: one more on the day after the last fast, unchanged on the same day, otherwise restarted at 1. */
  function NextStreak(lastFastDate: Option<int>, currentStreak: int, completion: int, utcOffset: int): int
  {
    match lastFastDate
    case None => 1
    case Some(last) =>
      if Day(completion, utcOffset) == Day(last, utcOffset) + 1 then currentStreak + 1
      else if Day(completion, utcOffset) == Day(last, utcOffset) then currentStreak
      else 1
  }

  /** What `updateStreak(for:)` makes of a profile. */
  function AfterStreakUpdate(p: UserProfile, completion: int, utcOffset: int): UserProfile
  {
    var current := NextStreak(p.lastFastDate, p.currentStreak, completion, utcOffset);
    p.(currentStreak := current,
       longestStreak := if current > p.longestStreak then current else p.longestStreak,
       lastFastDate := Some(completion))
  }

  /** What `checkAndAwardBadges(duration:)` makes of a profile. */
  function AfterBadgeCheck(p: UserProfile, duration: int): UserProfile
  {
    p.(unlockedBadgeIDs := p.unlockedBadgeIDs + EarnedBadges(p.totalFastsCompleted, p.currentStreak, duration))
  }

  /** One badge rule: unlock `id` when `condition` holds. */
  function ApplyRule(p: UserProfile, condition: bool, id: string): (r: UserProfile)
    ensures r == p.(unlockedBadgeIDs := p.unlockedBadgeIDs + if condition then {id} else {})
  {
    if condition then p.UnlockBadge(id) else p
  }

  /** The seven rules applied one after another, each reading the profile the previous one left. */
  function AwardInOrder(p: UserProfile, duration: int): UserProfile
  {
    var p1 := ApplyRule(p, p.totalFastsCompleted == 1, FirstFastId);
    var p2 := ApplyRule(p1, p1.totalFastsCompleted >= 10, TenFastsId);
    var p3 := ApplyRule(p2, p2.totalFastsCompleted >= 50, FiftyFastsId);
    var p4 := ApplyRule(p3, p3.currentStreak >= 7, WeekStreakId);
    var p5 := ApplyRule(p4, p4.currentStreak >= 30, MonthStreakId);
    var p6 := ApplyRule(p5, duration >= 24 * SecondsPerHour, DayLongFastId);
    ApplyRule(p6, duration >= FastingZones.Autophagy.duration, AutophagyId)
  }

  /** The rule table read rule by rule: the earned set is the union of what each of the seven rules contributes. */
  lemma EarnedBadgesByRule(total: int, streak: int, duration: int)
    ensures EarnedBadges(total, streak, duration)
      == (if total == 1 then {FirstFastId} else {})
       + (if total >= 10 then {TenFastsId} else {})
       + (if total >= 50 then {FiftyFastsId} else {})
       + (if streak >= 7 then {WeekStreakId} else {})
       + (if streak >= 30 then {MonthStreakId} else {})
       + (if duration >= 24 * SecondsPerHour then {DayLongFastId} else {})
       + (if duration >= FastingZones.Autophagy.duration then {AutophagyId} else {})
  {
  }

  /** Applying the rules in order adds exactly the earned badges: no rule changes what another rule reads. */
  lemma AwardInOrderAddsEarned(p: UserProfile, duration: int)
    ensures AwardInOrder(p, duration) == AfterBadgeCheck(p, duration)
  {
    var total, streak := p.totalFastsCompleted, p.currentStreak;
    var r1: set<string> := if total == 1 then {FirstFastId} else {};
    var r2: set<string> := if total >= 10 then {TenFastsId} else {};
    var r3: set<string> := if total >= 50 then {FiftyFastsId} else {};
    var r4: set<string> := if streak >= 7 then {WeekStreakId} else {};
    var r5: set<string> := if streak >= 30 then {MonthStreakId} else {};
    var r6: set<string> := if duration >= 24 * SecondsPerHour then {DayLongFastId} else {};
    var r7: set<string> := if duration >= FastingZones.Autophagy.duration then {AutophagyId} else {};
    var a := p.unlockedBadgeIDs;
    assert AwardInOrder(p, duration).unlockedBadgeIDs == a + r1 + r2 + r3 + r4 + r5 + r6 + r7;
    UnionRegroup(a, r1, r2, r3, r4, r5, r6, r7);
    EarnedBadgesByRule(total, streak, duration);
  }

  lemma UnionRegroup<T>(a: set<T>, r1: set<T>, r2: set<T>, r3: set<T>, r4: set<T>, r5: set<T>, r6: set<T>, r7: set<T>)
    ensures a + r1 + r2 + r3 + r4 + r5 + r6 + r7 == a + (r1 + r2 + r3 + r4 + r5 + r6 + r7)
  {
  }

  /** What `processCompletedFast(startDate:endDate:)` makes of a profile. */
  function AfterCompletion(p: UserProfile, startDate: int, endDate: int, utcOffset: int): UserProfile
  {
    var counted := p.(totalFastsCompleted := p.totalFastsCompleted + 1);
    AfterBadgeCheck(AfterStreakUpdate(counted, endDate, utcOffset), endDate - startDate)
  }

  /** One completion's effect on the counters: the total goes up by one, the streak follows the calendar, the longest streak keeps the maximum, the last fast date is the end. */
  lemma CompletionCounters(p: UserProfile, startDate: int, endDate: int, utcOffset: int)
    ensures var r := AfterCompletion(p, startDate, endDate, utcOffset);
      && r.totalFastsCompleted == p.totalFastsCompleted + 1
      && r.currentStreak == NextStreak(p.lastFastDate, p.currentStreak, endDate, utcOffset)
      && r.longestStreak == (if r.currentStreak > p.longestStreak then r.currentStreak else p.longestStreak)
      && r.lastFastDate == Some(endDate)
  {
  }

  /** One completion: the total goes up by one, the streak follows the calendar, the longest streak keeps the maximum, the badge set only grows and only by catalogue ids. */
  lemma CompletionFacts(p: UserProfile, startDate: int, endDate: int, utcOffset: int)
    ensures var r := AfterCompletion(p, startDate, endDate, utcOffset);
      && r.totalFastsCompleted == p.totalFastsCompleted + 1
      && r.currentStreak == NextStreak(p.lastFastDate, p.currentStreak, endDate, utcOffset)
      && r.longestStreak == (if r.currentStreak > p.longestStreak then r.currentStreak else p.longestStreak)
      && r.longestStreak >= r.currentStreak && r.longestStreak >= p.longestStreak
      && r.lastFastDate == Some(endDate)
      && r.unlockedBadgeIDs == p.unlockedBadgeIDs
           + EarnedBadges(r.totalFastsCompleted, r.currentStreak, endDate - startDate)
      && p.unlockedBadgeIDs <= r.unlockedBadgeIDs
      && r.unlockedBadgeIDs - p.unlockedBadgeIDs <= AwardableIds
  {
  }

  /** The four streak cases of `updateStreak`, in calendar days. */
  lemma StreakCases(lastFastDate: Option<int>, currentStreak: int, completion: int, utcOffset: int)
    ensures lastFastDate.None? ==> NextStreak(lastFastDate, currentStreak, completion, utcOffset) == 1
    ensures lastFastDate.Some? && Day(completion, utcOffset) == Day(lastFastDate.value, utcOffset) + 1
      ==> NextStreak(lastFastDate, currentStreak, completion, utcOffset) == currentStreak + 1
    ensures lastFastDate.Some? && SameDay(completion, lastFastDate.value, utcOffset)
      ==> NextStreak(lastFastDate, currentStreak, completion, utcOffset) == currentStreak
    ensures lastFastDate.Some? && Day(completion, utcOffset) != Day(lastFastDate.value, utcOffset)
      && Day(completion, utcOffset) != Day(lastFastDate.value, utcOffset) + 1
      ==> NextStreak(lastFastDate, currentStreak, completion, utcOffset) == 1
  {
  }

  /** A fast of 48 hours or more earns both duration badges. */
  lemma LongFastBadges(p: UserProfile, startDate: int, endDate: int, utcOffset: int)
    requires endDate - startDate >= 48 * 3600
    ensures DayLongFastId in AfterCompletion(p, startDate, endDate, utcOffset).unlockedBadgeIDs
    ensures AutophagyId in AfterCompletion(p, startDate, endDate, utcOffset).unlockedBadgeIDs
  {
  }

  /** Every id the engine awards names a catalogue badge, and `badge(for:)` finds it. */
  lemma AwardableIdsInCatalogue()
    ensures AwardableIds <= Badges.CatalogueIds()
    ensures forall id :: id in AwardableIds ==> Badges.BadgeFor(id).Some? && Badges.BadgeFor(id).value.id == id
  {
    Badges.CatalogueContents();
    assert Badges.AllBadges[0] in Badges.AllBadges;
    assert Badges.AllBadges[1] in Badges.AllBadges;
    assert Badges.AllBadges[2] in Badges.AllBadges;
    assert Badges.AllBadges[3] in Badges.AllBadges;
    assert Badges.AllBadges[4] in Badges.AllBadges;
    assert Badges.AllBadges[5] in Badges.AllBadges;
    assert Badges.AllBadges[6] in Badges.AllBadges;
    forall id | id in Badges.CatalogueIds()
      ensures Badges.BadgeFor(id).Some? && Badges.BadgeFor(id).value.id == id
    {
      Badges.BadgeForFindsEntry(id);
    }
  }

  /** One completed fast: when it started and when it ended. */
  datatype Completion = Completion(startDate: int, endDate: int)

  /** The profile after `processCompletedFast` has been called once for each completion, in order. */
  function Replay(p: UserProfile, fasts: seq<Completion>, utcOffset: int): UserProfile
    decreases |fasts|
  {
    if fasts == [] then p
    else
      var last := fasts[|fasts| - 1];
      AfterCompletion(Replay(p, fasts[..|fasts| - 1], utcOffset), last.startDate, last.endDate, utcOffset)
  }

  /** Each call counts exactly one fast. */
  lemma {:induction false} ReplayTotal(p: UserProfile, fasts: seq<Completion>, utcOffset: int)
    ensures Replay(p, fasts, utcOffset).totalFastsCompleted == p.totalFastsCompleted + |fasts|
  {
    if fasts != [] {
      ReplayTotal(p, fasts[..|fasts| - 1], utcOffset);
    }
  }

  /** The last fast date is the end of the last completion. */
  lemma ReplayLastDate(p: UserProfile, fasts: seq<Completion>, utcOffset: int)
    requires fasts != []
    ensures Replay(p, fasts, utcOffset).lastFastDate == Some(fasts[|fasts| - 1].endDate)
  {
  }

  /** Badges are never revoked: the set after N calls contains the set after any earlier number of calls. */
  lemma {:induction false} BadgesOnlyGrow(p: UserProfile, fasts: seq<Completion>, k: nat, utcOffset: int)
    requires k <= |fasts|
    ensures p.unlockedBadgeIDs <= Replay(p, fasts[..k], utcOffset).unlockedBadgeIDs
    ensures Replay(p, fasts[..k], utcOffset).unlockedBadgeIDs <= Replay(p, fasts, utcOffset).unlockedBadgeIDs
  {
    if k < |fasts| {
      var prefix := fasts[..|fasts| - 1];
      assert prefix[..k] == fasts[..k];
      BadgesOnlyGrow(p, prefix, k, utcOffset);
      var last := fasts[|fasts| - 1];
      CompletionFacts(Replay(p, prefix, utcOffset), last.startDate, last.endDate, utcOffset);
    } else {
      assert fasts[..k] == fasts;
      if fasts != [] {
        var prefix := fasts[..|fasts| - 1];
        BadgesOnlyGrow(p, prefix, |prefix|, utcOffset);
        assert prefix[..|prefix|] == prefix;
        var last := fasts[|fasts| - 1];
        CompletionFacts(Replay(p, prefix, utcOffset), last.startDate, last.endDate, utcOffset);
      }
    }
  }

  /** From a new profile, the count badges appear exactly when the count is reached: "first_fast" from the first call, "10_fasts" from the tenth, "50_fasts" from the fiftieth, and never before. */
  lemma {:induction false} CountBadgesFromNewProfile(fasts: seq<Completion>, utcOffset: int)
    ensures var ids := Replay(NewProfile(), fasts, utcOffset).unlockedBadgeIDs;
      && (FirstFastId in ids <==> |fasts| >= 1)
      && (TenFastsId in ids <==> |fasts| >= 10)
      && (FiftyFastsId in ids <==> |fasts| >= 50)
  {
    if fasts != [] {
      var prefix := fasts[..|fasts| - 1];
      var last := fasts[|fasts| - 1];
      CountBadgesFromNewProfile(prefix, utcOffset);
      ReplayTotal(NewProfile(), prefix, utcOffset);
      CompletionFacts(Replay(NewProfile(), prefix, utcOffset), last.startDate, last.endDate, utcOffset);
    }
  }

  /** From index `k` on, each completion falls on the same calendar day as the previous one or on the next. */
  predicate UnbrokenFrom(fasts: seq<Completion>, k: nat, utcOffset: int)
  {
    forall j :: k < j < |fasts| ==>
      Day(fasts[j - 1].endDate, utcOffset) <= Day(fasts[j].endDate, utcOffset) <= Day(fasts[j - 1].endDate, utcOffset) + 1
  }

  /**
   * The streak counts calendar-consecutive days. Take a run of completions
   * from index `k` on whose days each equal or follow the previous one's,
   * begun either by the very first fast or by a completion that broke the
   * streak: the streak after the run is the number of calendar days it
   * spans, each of which holds a completion.
   */
  lemma {:induction false} StreakCountsConsecutiveDays(p: UserProfile, fasts: seq<Completion>, k: nat, utcOffset: int)
    requires k < |fasts|
    requires k == 0 ==> p.lastFastDate.None?
    requires k > 0 ==> (Day(fasts[k].endDate, utcOffset) != Day(fasts[k - 1].endDate, utcOffset)
      && Day(fasts[k].endDate, utcOffset) != Day(fasts[k - 1].endDate, utcOffset) + 1)
    requires UnbrokenFrom(fasts, k, utcOffset)
    ensures Replay(p, fasts, utcOffset).currentStreak
      == Day(fasts[|fasts| - 1].endDate, utcOffset) - Day(fasts[k].endDate, utcOffset) + 1
  {
    var n := |fasts|;
    var prefix := fasts[..n - 1];
    var last := fasts[n - 1];
    var before := Replay(p, prefix, utcOffset);
    CompletionCounters(before, last.startDate, last.endDate, utcOffset);
    if n - 1 == k {
      if k > 0 {
        ReplayLastDate(p, prefix, utcOffset);
        assert prefix[k - 1] == fasts[k - 1];
      }
    } else {
      assert prefix[k] == fasts[k];
      assert k > 0 ==> prefix[k - 1] == fasts[k - 1];
      assert UnbrokenFrom(prefix, k, utcOffset) by {
        forall j | k < j < |prefix|
          ensures Day(prefix[j - 1].endDate, utcOffset) <= Day(prefix[j].endDate, utcOffset) <= Day(prefix[j - 1].endDate, utcOffset) + 1
        {
          assert prefix[j - 1] == fasts[j - 1] && prefix[j] == fasts[j];
        }
      }
      StreakCountsConsecutiveDays(p, prefix, k, utcOffset);
      ReplayLastDate(p, prefix, utcOffset);
      assert prefix[n - 2] == fasts[n - 2];
      assert Day(fasts[n - 2].endDate, utcOffset) <= Day(last.endDate, utcOffset) <= Day(fasts[n - 2].endDate, utcOffset) + 1;
    }
  }

  /** The longest streak never falls below the loaded value, nor below any streak reached along the way. */
  lemma {:induction false} LongestBoundsStreaks(p: UserProfile, fasts: seq<Completion>, utcOffset: int)
    ensures var longest := Replay(p, fasts, utcOffset).longestStreak;
      && longest >= p.longestStreak
      && (forall k :: 1 <= k <= |fasts| ==> Replay(p, fasts[..k], utcOffset).currentStreak <= longest)
  {
    if fasts != [] {
      var n := |fasts|;
      var prefix := fasts[..n - 1];
      var last := fasts[n - 1];
      var longest := Replay(p, fasts, utcOffset).longestStreak;
      LongestBoundsStreaks(p, prefix, utcOffset);
      CompletionCounters(Replay(p, prefix, utcOffset), last.startDate, last.endDate, utcOffset);
      forall k | 1 <= k <= n
        ensures Replay(p, fasts[..k], utcOffset).currentStreak <= longest
      {
        if k < n {
          assert fasts[..k] == prefix[..k];
        } else {
          assert fasts[..k] == fasts;
        }
      }
    }
  }

  /** The longest streak is the loaded value or a streak actually reached after some call. */
  lemma {:induction false} LongestIsReached(p: UserProfile, fasts: seq<Completion>, utcOffset: int)
    ensures var longest := Replay(p, fasts, utcOffset).longestStreak;
      longest == p.longestStreak
      || exists k :: 1 <= k <= |fasts| && Replay(p, fasts[..k], utcOffset).currentStreak == longest
  {
    if fasts != [] {
      var n := |fasts|;
      var prefix := fasts[..n - 1];
      var last := fasts[n - 1];
      var before := Replay(p, prefix, utcOffset);
      var longest := Replay(p, fasts, utcOffset).longestStreak;
      LongestIsReached(p, prefix, utcOffset);
      CompletionCounters(before, last.startDate, last.endDate, utcOffset);
      if longest != p.longestStreak {
        if longest == Replay(p, fasts, utcOffset).currentStreak {
          assert fasts[..n] == fasts;
          assert Replay(p, fasts[..n], utcOffset).currentStreak == longest;
        } else {
          var k :| 1 <= k <= n - 1 && Replay(p, prefix[..k], utcOffset).currentStreak == before.longestStreak;
          assert fasts[..k] == prefix[..k];
          assert Replay(p, fasts[..k], utcOffset).currentStreak == longest;
        }
      }
    }
  }

  /** The longest streak is the greatest streak ever reached (or the loaded value, if that is larger). */
  lemma LongestIsGreatestStreak(p: UserProfile, fasts: seq<Completion>, utcOffset: int)
    ensures var longest := Replay(p, fasts, utcOffset).longestStreak;
      && longest >= p.longestStreak
      && (forall k :: 1 <= k <= |fasts| ==> Replay(p, fasts[..k], utcOffset).currentStreak <= longest)
      && (longest == p.longestStreak
          || exists k :: 1 <= k <= |fasts| && Replay(p, fasts[..k], utcOffset).currentStreak == longest)
  {
    LongestBoundsStreaks(p, fasts, utcOffset);
    LongestIsReached(p, fasts, utcOffset);
  }

  /** The engine as written: `GamificationManager`, with the profile file as a field. */
  class GamificationManager {
    var userProfile: UserProfile
    /** The contents of `user_profile.json`, `None` while there is no readable file. */
    var savedProfile: Option<UserProfile>
    /** The device calendar's offset from UTC, in seconds. */
    const utcOffset: int

    /** `init`: the decoded profile file when there is one, else a new profile. */
    constructor (stored: Option<UserProfile>, utcOffset: int)
      ensures stored.Some? ==> userProfile == stored.value
      ensures stored.None? ==> userProfile == NewProfile()
      ensures savedProfile == stored && this.utcOffset == utcOffset
    {
      userProfile := match stored case Some(p) => p case None => NewProfile();
      savedProfile := stored;
      this.utcOffset := utcOffset;
    }

    method ProcessCompletedFast(startDate: int, endDate: int)
      modifies this`userProfile, this`savedProfile
      ensures userProfile == AfterCompletion(old(userProfile), startDate, endDate, utcOffset)
      ensures savedProfile == Some(userProfile)
    {
      var duration := endDate - startDate;
      userProfile := userProfile.(totalFastsCompleted := userProfile.totalFastsCompleted + 1);
      UpdateStreak(endDate);
      CheckAndAwardBadges(duration);
      SaveProfile();
    }

    method UpdateStreak(completionDate: int)
      modifies this`userProfile
      ensures userProfile == AfterStreakUpdate(old(userProfile), completionDate, utcOffset)
    {
      match userProfile.lastFastDate {
        case Some(lastFast) =>
          DayAdvance(lastFast, utcOffset);
          if SameDay(completionDate, lastFast + 24 * 3600, utcOffset) {
            userProfile := userProfile.(currentStreak := userProfile.currentStreak + 1);
          } else if !SameDay(completionDate, lastFast, utcOffset) {
            userProfile := userProfile.(currentStreak := 1);
          }
        case None =>
          userProfile := userProfile.(currentStreak := 1);
      }
      if userProfile.currentStreak > userProfile.longestStreak {
        userProfile := userProfile.(longestStreak := userProfile.currentStreak);
      }
      userProfile := userProfile.(lastFastDate := Some(completionDate));
    }

    method CheckAndAwardBadges(duration: int)
      modifies this`userProfile
      ensures userProfile == AfterBadgeCheck(old(userProfile), duration)
    {
      AwardInOrderAddsEarned(userProfile, duration);
      AwardIf(userProfile.totalFastsCompleted == 1, FirstFastId);
      AwardIf(userProfile.totalFastsCompleted >= 10, TenFastsId);
      AwardIf(userProfile.totalFastsCompleted >= 50, FiftyFastsId);
      AwardIf(userProfile.currentStreak >= 7, WeekStreakId);
      AwardIf(userProfile.currentStreak >= 30, MonthStreakId);
      AwardIf(duration >= 24 * 3600, DayLongFastId);
      AwardIf(duration >= FastingZones.Autophagy.duration, AutophagyId);
    }

    /** One `if … { userProfile.unlockBadge(id:) }` of `checkAndAwardBadges`. */
    method AwardIf(condition: bool, id: string)
      modifies this`userProfile
      ensures userProfile == ApplyRule(old(userProfile), condition, id)
    {
      if condition {
        userProfile := userProfile.UnlockBadge(id);
      }
    }

    /** `saveProfile()`: writes the whole profile (a failed write is not modelled). */
    method SaveProfile()
      modifies this`savedProfile
      ensures savedProfile == Some(userProfile)
    {
      savedProfile := Some(userProfile);
    }

    method GetProfile() returns (profile: UserProfile)
      ensures profile == userProfile
    {
      profile := userProfile;
    }
  }
}
