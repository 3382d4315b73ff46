/** The preset fasting plans offered when starting a fast. */
module FastingPlans {
  import opened TimeUnits

  /** `duration` is in seconds, despite the field's comment in hours. */
  datatype FastingPlan = FastingPlan(name: string, duration: int)
  {
    /** The whole hours of the plan's duration, truncated toward zero. */
    function DurationInHours(): (h: int)
      ensures duration >= 0 ==> 0 <= h && h * 3600 <= duration < h * 3600 + 3600
      ensures duration <= 0 ==> h <= 0 && duration <= h * 3600 && h * 3600 - 3600 < duration
    {
      Quot(duration, SecondsPerHour)
    }
  }

  const DefaultPlans: seq<FastingPlan> := [
    FastingPlan("16:8", 16 * SecondsPerHour),
    FastingPlan("18:6", 18 * SecondsPerHour),
    FastingPlan("20:4", 20 * SecondsPerHour),
    FastingPlan("OMAD", 23 * SecondsPerHour)
  ]

  /** Every preset is a positive whole number of hours, so the hours shown lose nothing. */
  lemma DefaultPlansShape()
    ensures |DefaultPlans| == 4
    ensures DefaultPlans[0].name == "16:8" && DefaultPlans[1].name == "18:6"
    ensures DefaultPlans[2].name == "20:4" && DefaultPlans[3].name == "OMAD"
    ensures DefaultPlans[0].DurationInHours() == 16 && DefaultPlans[1].DurationInHours() == 18
    ensures DefaultPlans[2].DurationInHours() == 20 && DefaultPlans[3].DurationInHours() == 23
    ensures forall p :: p in DefaultPlans ==> p.duration > 0 && p.DurationInHours() * 3600 == p.duration
  {
    forall p | p in DefaultPlans
      ensures p.duration > 0 && p.DurationInHours() * 3600 == p.duration
    {
      QuotUnique(p.duration, 3600, p.duration / 3600);
    }
    QuotUnique(16 * 3600, 3600, 16);
    QuotUnique(18 * 3600, 3600, 18);
    QuotUnique(20 * 3600, 3600, 20);
    QuotUnique(23 * 3600, 3600, 23);
  }
}
