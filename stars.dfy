/**
 * Stars and their point values (graph.js lines 1-18, 32, 105-111).
 *
 * The event has 25 days of two parts each; graph.js numbers the 50 stars
 * 0..49 by `(day - 1) * 2 + part - 1`. It also keeps a table of days whose
 * stars were voided, keyed by year, and expands it into star indices, but it
 * never reads that expansion: the one rule applied when scoring is the
 * hard-coded "in 2018, stars 10 and 11 are worth nothing".
 */
module Stars {

  const NumStars := 50
  const NumDays := 25

  /** The global index of part `part` of day `day` (graph.js line 32). */
  function StarIndex(day: int, part: int): int
  {
    (day - 1) * 2 + part - 1
  }

  function DayOfStar(star: int): int { star / 2 + 1 }

  function PartOfStar(star: int): int { star % 2 + 1 }

  /** Day and part in 1..25 x 1..2 map one to one onto the stars 0..49. */
  lemma StarIndexBijection()
    ensures forall day, part :: 1 <= day <= NumDays && 1 <= part <= 2 ==>
      0 <= StarIndex(day, part) < NumStars &&
      DayOfStar(StarIndex(day, part)) == day && PartOfStar(StarIndex(day, part)) == part
    ensures forall star :: 0 <= star < NumStars ==>
      1 <= DayOfStar(star) <= NumDays && 1 <= PartOfStar(star) <= 2 &&
      StarIndex(DayOfStar(star), PartOfStar(star)) == star
  {
  }

  /** The days whose stars were voided, 1-indexed (graph.js lines 2-5, 13). */
  function IgnoredDays(year: int): seq<int>
  {
    if year == 2018 then [6] else if year == 2020 then [1] else []
  }

  /** Both stars of every listed day, in order (the flatMap of lines 15-18). */
  function StarsOfDays(days: seq<int>): (stars: seq<int>)
    ensures |stars| == 2 * |days|
    ensures forall k :: 0 <= k < |days| ==>
      stars[2 * k] == StarIndex(days[k], 1) && stars[2 * k + 1] == StarIndex(days[k], 2)
  {
    if days == [] then []
    else
      var firstStarOfDay := (days[0] - 1) * 2;
      [firstStarOfDay, firstStarOfDay + 1] + StarsOfDays(days[1..])
  }

  /** The `ignoredStars` value of graph.js line 15, which nothing reads. */
  function IgnoredStars(year: int): seq<int>
  {
    StarsOfDays(IgnoredDays(year))
  }

  /** The rule scoring applies (graph.js lines 107-111). */
  predicate ZeroedStar(year: int, star: int)
  {
    year == 2018 && (star == 10 || star == 11)
  }

  /** Points for completing `star` when `completed` members already have it:
      one per member who has not, or none for a voided star. */
  function Points(year: int, numMembers: int, completed: int, star: int): int
  {
    if ZeroedStar(year, star) then 0 else numMembers - completed
  }

  /** In 2018 the hard-coded rule voids exactly the stars the table lists. */
  lemma ZeroedStarsMatchTableIn2018()
    ensures forall star :: ZeroedStar(2018, star) <==> star in IgnoredStars(2018)
  {
    assert IgnoredStars(2018) == [10, 11];
  }

  /** In 2020 the table lists day 1, yet no star is voided: the table is
      computed and never consulted. */
  lemma TableIgnoredIn2020()
    ensures IgnoredStars(2020) == [0, 1]
    ensures forall star :: !ZeroedStar(2020, star)
    ensures Points(2020, 7, 0, 0) == 7
  {
    assert StarsOfDays([1]) == [0, 1] + StarsOfDays([]);
  }

  /** A voided star is worth nothing whatever the completion count; any
      other star loses one point per earlier completion. */
  lemma PointsRule(year: int, numMembers: int, completed: int, star: int)
    ensures ZeroedStar(year, star) ==> Points(year, numMembers, completed, star) == 0
    ensures !ZeroedStar(year, star) ==>
      Points(year, numMembers, completed + 1, star) == Points(year, numMembers, completed, star) - 1
    ensures year != 2018 ==> Points(year, numMembers, completed, star) == numMembers - completed
    ensures 0 <= completed < numMembers ==> Points(year, numMembers, completed, star) >= 0
  {
  }
}
