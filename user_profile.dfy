/**
 * The user's lifetime statistics. `UserProfile` is a Swift struct, a value:
 * its `mutating` method is a function returning the updated value, which
 * the owner assigns back. Dates are whole seconds since 1970.
 */
module Profiles {
  import opened Wrappers

  datatype UserProfile = UserProfile(
    unlockedBadgeIDs: set<string>,
    currentStreak: int,
    longestStreak: int,
    totalFastsCompleted: int,
    lastFastDate: Option<int>)
  {
    /** `unlockBadge(id:)`: inserts `id` into the badge set and touches nothing else. */
    function UnlockBadge(id: string): (r: UserProfile)
      ensures id in r.unlockedBadgeIDs
      ensures unlockedBadgeIDs <= r.unlockedBadgeIDs
      ensures forall x :: x in r.unlockedBadgeIDs ==> x == id || x in unlockedBadgeIDs
      ensures id in unlockedBadgeIDs ==> r == this
      ensures r.currentStreak == currentStreak && r.longestStreak == longestStreak
      ensures r.totalFastsCompleted == totalFastsCompleted && r.lastFastDate == lastFastDate
    {
      this.(unlockedBadgeIDs := unlockedBadgeIDs + {id})
    }
  }

  /** `UserProfile()`: the field defaults. */
  function NewProfile(): (p: UserProfile)
    ensures p.unlockedBadgeIDs == {} && p.lastFastDate == None
    ensures p.currentStreak == 0 && p.longestStreak == 0 && p.totalFastsCompleted == 0
  {
    UserProfile({}, 0, 0, 0, None)
  }
}
