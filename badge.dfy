/**
 * The badge catalogue and its lookup by id. The `CodableColor` of each badge
 * is display content and is not modelled.
 */
module Badges {
  import opened Wrappers

  datatype Badge = Badge(id: string, name: string, description: string, icon: string)

  const AllBadges: seq<Badge> := [
    Badge("first_fast", "First Fast", "Completed your first fast.", "play.circle"),
    Badge("7_day_streak", "7-Day Warrior", "Completed a 7-day fasting streak.", "flame.fill"),
    Badge("30_day_streak", "Month of Consistency", "Completed a 30-day fasting streak.", "crown.fill"),
    Badge("10_fasts", "Fast Follower", "Completed 10 fasts.", "10.circle"),
    Badge("50_fasts", "Fasting Fanatic", "Completed 50 fasts.", "50.circle"),
    Badge("24_hour_fast", "24-Hour Club", "Completed a 24-hour fast.", "clock.arrow.2.circlepath"),
    Badge("autophagy_unlocked", "Cellular Cleaner", "Reached the Autophagy zone.", "atom")
  ]

  predicate DistinctIds(badges: seq<Badge>) {
    forall i, j :: 0 <= i < j < |badges| ==> badges[i].id != badges[j].id
  }

  lemma CatalogueShape()
    ensures |AllBadges| == 7 && DistinctIds(AllBadges)
  {
  }

  /** The earliest badge in `badges` carrying `id`, if any. */
  function FirstWithId(badges: seq<Badge>, id: string): (r: Option<Badge>)
    ensures r.None? <==> forall b :: b in badges ==> b.id != id
    ensures r.Some? ==> r.value.id == id
    ensures r.Some? ==> exists i :: (0 <= i < |badges| && badges[i] == r.value
      && forall j :: 0 <= j < i ==> badges[j].id != id)
  {
    if badges == [] then None
    else if badges[0].id == id then Some(badges[0])
    else
      var r := FirstWithId(badges[1..], id);
      assert forall b :: b in badges ==> b == badges[0] || b in badges[1..];
      if r.Some? then
        var i :| 0 <= i < |badges[1..]| && badges[1..][i] == r.value
          && forall j :: 0 <= j < i ==> badges[1..][j].id != id;
        assert badges[i + 1] == r.value;
        r
      else r
  }

  /** The catalogue's ids, in order. */
  lemma CatalogueContents()
    ensures |AllBadges| == 7
    ensures AllBadges[0].id == "first_fast" && AllBadges[1].id == "7_day_streak"
    ensures AllBadges[2].id == "30_day_streak" && AllBadges[3].id == "10_fasts"
    ensures AllBadges[4].id == "50_fasts" && AllBadges[5].id == "24_hour_fast"
    ensures AllBadges[6].id == "autophagy_unlocked"
  {
  }

  /** The ids the catalogue holds. */
  function CatalogueIds(): (ids: set<string>)
    ensures forall b :: b in AllBadges ==> b.id in ids
    ensures forall id :: id in ids ==> exists b :: b in AllBadges && b.id == id
  {
    set b | b in AllBadges :: b.id
  }

  /** `Badge.badge(for:)`. */
  function BadgeFor(id: string): Option<Badge>
  {
    FirstWithId(AllBadges, id)
  }

  /** With distinct ids the first match is the only one: the lookup finds exactly the catalogue entry carrying the id, and nothing otherwise. */
  lemma BadgeForFindsEntry(id: string)
    ensures forall b :: b in AllBadges && b.id == id ==> BadgeFor(id) == Some(b)
    ensures (forall b :: b in AllBadges ==> b.id != id) <==> BadgeFor(id) == None
  {
    CatalogueShape();
    forall b | b in AllBadges && b.id == id
      ensures BadgeFor(id) == Some(b)
    {
      var r := BadgeFor(id);
      var i :| 0 <= i < |AllBadges| && AllBadges[i] == r.value;
      var k :| 0 <= k < |AllBadges| && AllBadges[k] == b;
      assert i == k;
    }
  }
}
