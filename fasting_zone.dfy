/**
 * The fasting-zone catalogue. Each zone's `duration` is a cumulative
 * threshold in seconds from the start of the fast; the catalogue lists the
 * zones by strictly increasing threshold. Colours, trivia, benefits and
 * emoji are display content and are not modelled.
 */
module FastingZones {
  import opened TimeUnits

  datatype FastingZone = FastingZone(name: string, duration: int)

  const Anabolic := FastingZone("Anabolic", 4 * SecondsPerHour)
  const Catabolic := FastingZone("Catabolic", 12 * SecondsPerHour)
  const FatBurning := FastingZone("Fat Burning", 16 * SecondsPerHour)
  const Ketosis := FastingZone("Ketosis", 24 * SecondsPerHour)
  const Autophagy := FastingZone("Autophagy", 48 * SecondsPerHour)
  const DeepAutophagy := FastingZone("Deep Autophagy", 72 * SecondsPerHour)

  const AllZones: seq<FastingZone> := [Anabolic, Catabolic, FatBurning, Ketosis, Autophagy, DeepAutophagy]

  predicate StrictlyIncreasing(zones: seq<FastingZone>) {
    forall i, j :: 0 <= i < j < |zones| ==> zones[i].duration < zones[j].duration
  }

  predicate DistinctNames(zones: seq<FastingZone>) {
    forall i, j :: 0 <= i < j < |zones| ==> zones[i].name != zones[j].name
  }

  /** The facts the zone lookup and the badge rules rely on. */
  lemma CatalogueShape()
    ensures |AllZones| == 6
    ensures StrictlyIncreasing(AllZones) && DistinctNames(AllZones)
    ensures AllZones[0] == Anabolic
    ensures forall z :: z in AllZones ==> Anabolic.duration <= z.duration
    ensures Autophagy in AllZones && Autophagy.duration == 48 * 3600
  {
  }

  /** The catalogue in full: six zones in order, with their names and thresholds of 4, 12, 16, 24, 48 and 72 hours. */
  lemma CatalogueContents()
    ensures AllZones == [Anabolic, Catabolic, FatBurning, Ketosis, Autophagy, DeepAutophagy]
    ensures Anabolic.name == "Anabolic" && Catabolic.name == "Catabolic" && FatBurning.name == "Fat Burning"
    ensures Ketosis.name == "Ketosis" && Autophagy.name == "Autophagy" && DeepAutophagy.name == "Deep Autophagy"
    ensures Anabolic.duration == 4 * 3600 && Catabolic.duration == 12 * 3600 && FatBurning.duration == 16 * 3600
    ensures Ketosis.duration == 24 * 3600 && DeepAutophagy.duration == 72 * 3600
    ensures Autophagy.duration == 48 * 3600
  {
  }

  /** What the zone lookup needs of the catalogue: it is ordered by threshold and starts with Anabolic. */
  lemma CatalogueOrdered()
    ensures AllZones != [] && AllZones[0] == Anabolic && StrictlyIncreasing(AllZones)
  {
  }

  /** The zones whose threshold `elapsed` has reached, kept in catalogue order. */
  function Reached(zones: seq<FastingZone>, elapsed: int): seq<FastingZone>
  {
    if zones == [] then []
    else (if zones[0].duration <= elapsed then [zones[0]] else []) + Reached(zones[1..], elapsed)
  }

  /** The filter keeps exactly the zones whose threshold has passed. */
  lemma {:induction false} ReachedMembers(zones: seq<FastingZone>, elapsed: int)
    ensures forall z :: z in Reached(zones, elapsed) <==> z in zones && z.duration <= elapsed
    ensures |Reached(zones, elapsed)| <= |zones|
  {
    if zones != [] {
      ReachedMembers(zones[1..], elapsed);
      assert forall z :: z in zones <==> z == zones[0] || z in zones[1..];
    }
  }

  /** In a catalogue ordered by threshold, the last zone reached has the greatest threshold of all the zones reached. */
  lemma {:induction false} LastReachedIsLatest(zones: seq<FastingZone>, elapsed: int)
    requires StrictlyIncreasing(zones)
    requires Reached(zones, elapsed) != []
    ensures forall z :: z in zones && z.duration <= elapsed ==>
      z.duration <= Reached(zones, elapsed)[|Reached(zones, elapsed)| - 1].duration
  {
    var r := Reached(zones, elapsed);
    var tail := Reached(zones[1..], elapsed);
    ReachedMembers(zones, elapsed);
    ReachedMembers(zones[1..], elapsed);
    assert StrictlyIncreasing(zones[1..]);
    if tail == [] {
      assert r == [zones[0]];
      assert forall z :: z in zones ==> z == zones[0] || z in zones[1..];
    } else {
      LastReachedIsLatest(zones[1..], elapsed);
      assert r[|r| - 1] == tail[|tail| - 1];
      var last := tail[|tail| - 1];
      assert last in zones[1..];
      forall z | z in zones && z.duration <= elapsed
        ensures z.duration <= last.duration
      {
        if z == zones[0] {
          var k :| 0 <= k < |zones[1..]| && zones[1..][k] == last;
          assert zones[0].duration < zones[k + 1].duration;
        } else {
          assert z in zones[1..];
        }
      }
    }
  }

  /** The last of the reached zones, or `fallback` when no threshold has been reached. */
  function LastReachedOr(zones: seq<FastingZone>, elapsed: int, fallback: FastingZone): FastingZone
  {
    var reached := Reached(zones, elapsed);
    if reached == [] then fallback else reached[|reached| - 1]
  }

  /**
   * In a catalogue ordered by threshold whose fallback is its first zone:
   * before the first threshold the lookup gives the fallback; from then on it
   * gives a catalogue zone whose threshold has passed, and no zone whose
   * threshold has passed has a greater one.
   */
  lemma LastReachedOrBounds(zones: seq<FastingZone>, elapsed: int, fallback: FastingZone)
    requires zones != [] && StrictlyIncreasing(zones) && fallback == zones[0]
    ensures LastReachedOr(zones, elapsed, fallback) in zones
    ensures elapsed < zones[0].duration ==> LastReachedOr(zones, elapsed, fallback) == fallback
    ensures zones[0].duration <= elapsed ==> LastReachedOr(zones, elapsed, fallback).duration <= elapsed
    ensures forall z :: z in zones && z.duration <= elapsed ==> z.duration <= LastReachedOr(zones, elapsed, fallback).duration
  {
    var r := Reached(zones, elapsed);
    ReachedMembers(zones, elapsed);
    forall z | z in zones
      ensures zones[0].duration <= z.duration
    {
      var k :| 0 <= k < |zones| && zones[k] == z;
    }
    if zones[0].duration <= elapsed {
      assert zones[0] in r;
      LastReachedIsLatest(zones, elapsed);
      assert r[|r| - 1] in r;
    }
  }
}
