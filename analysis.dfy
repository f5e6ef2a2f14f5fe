/** One run of the analysis: the raw scores, their percentages, the ranked
    breakdown, the dominant taste and the age report (webfinal13.py:242-249).
    Reading the five entry fields and rendering the result are not part of
    this model. */
module Analysis {
  import opened Tastes
  import opened Ranking
  import opened Age

  datatype Outcome = Outcome(raw: Scores, percent: Scores, ranked: seq<Item>, dominant: Taste, age: AgeReport)

  /** The first entry of a ranking has the largest value, and among the
      items with that value it is the first declared. */
  lemma RankedHead(p: Scores, ranked: seq<Item>, t: Taste)
    requires multiset(ranked) == multiset(Items(p))
    requires Ranked(ranked)
    ensures |ranked| == |ORDER|
    ensures ranked[0].1 == p.Get(ranked[0].0)
    ensures p.Get(t) <= ranked[0].1
    ensures p.Get(t) == ranked[0].1 ==> Idx(ranked[0].0) <= Idx(t)
  {
    var items := Items(p);
    assert |ranked| == |multiset(ranked)| == |multiset(items)| == |items|;
    assert ranked[0] in multiset(items);
    var h :| 0 <= h < |items| && items[h] == ranked[0];
    IdxOrder(Idx(t));
    var e := items[Idx(t)];
    assert e == (t, p.Get(t));
    assert e in multiset(ranked);
    var k :| 0 <= k < |ranked| && ranked[k] == e;
    if k > 0 {
      assert Before(ranked[0], ranked[k]);
    }
  }

  /** What the breakdown promises for one taste `t`, from non-negative raw
      scores and any ranking of their percentages. */
  lemma Breakdown(raw: Scores, ranked: seq<Item>, t: Taste)
    requires NonNegative(raw)
    requires multiset(ranked) == multiset(Items(Percentages(raw))) && Ranked(ranked)
    ensures |ranked| == |ORDER|
    ensures 0.0 <= Percentages(raw).Get(t) <= 100.0
    ensures Total(raw) == 0.0 ==> Percentages(raw).Get(t) == 0.0
    ensures Percentages(raw).Get(t) <= Percentages(raw).Get(ranked[0].0)
    ensures raw.Get(t) <= raw.Get(ranked[0].0)
    ensures Percentages(raw).Get(t) == Percentages(raw).Get(ranked[0].0) ==> Idx(ranked[0].0) <= Idx(t)
  {
    PercentagesBounded(raw, t);
    RankedHead(Percentages(raw), ranked, t);
    RawDominance(raw, t, ranked[0].0);
  }

  /** A taste whose percentage is at least every other's also has the
      largest raw score. */
  lemma RawDominance(raw: Scores, t: Taste, dominant: Taste)
    requires NonNegative(raw)
    requires Percentages(raw).Get(t) <= Percentages(raw).Get(dominant)
    ensures raw.Get(t) <= raw.Get(dominant)
  {
    if Total(raw) == 0.0 {
      ScoreWithinTotal(raw, t);
      ScoreWithinTotal(raw, dominant);
    } else {
      assert Total(raw) > 0.0;
      PercentagesKeepOrder(raw, t, dominant);
    }
  }

  /** Breakdown for every taste at once. */
  lemma BreakdownAll(raw: Scores, ranked: seq<Item>)
    requires NonNegative(raw)
    requires multiset(ranked) == multiset(Items(Percentages(raw))) && Ranked(ranked)
    ensures |ranked| == |ORDER|
    ensures Total(raw) > 0.0 ==> Total(Percentages(raw)) == 100.0
    ensures forall t :: 0.0 <= Percentages(raw).Get(t) <= 100.0
    ensures Total(raw) == 0.0 ==> forall t :: Percentages(raw).Get(t) == 0.0
    ensures forall t :: Percentages(raw).Get(t) <= Percentages(raw).Get(ranked[0].0)
    ensures forall t :: raw.Get(t) <= raw.Get(ranked[0].0)
    ensures forall t :: Percentages(raw).Get(t) == Percentages(raw).Get(ranked[0].0) ==> Idx(ranked[0].0) <= Idx(t)
  {
    RankedHead(Percentages(raw), ranked, Pungent);
    forall t
      ensures 0.0 <= Percentages(raw).Get(t) <= 100.0
      ensures Total(raw) == 0.0 ==> Percentages(raw).Get(t) == 0.0
      ensures Percentages(raw).Get(t) <= Percentages(raw).Get(ranked[0].0)
      ensures raw.Get(t) <= raw.Get(ranked[0].0)
      ensures Percentages(raw).Get(t) == Percentages(raw).Get(ranked[0].0) ==> Idx(ranked[0].0) <= Idx(t)
    {
      Breakdown(raw, ranked, t);
    }
    if Total(raw) > 0.0 {
      PercentagesSumTo100(raw);
    }
  }

  /** The run: score, normalise, rank, take the first entry as the dominant
      taste, and estimate the age. */
  method Analyze(r: Reading) returns (out: Outcome)
    ensures out.raw == RawScores(r)
    ensures out.percent == Percentages(out.raw)
    ensures Total(out.raw) > 0.0 ==> Total(out.percent) == 100.0
    ensures Total(out.raw) == 0.0 ==> forall t :: out.percent.Get(t) == 0.0
    ensures forall t :: 0.0 <= out.percent.Get(t) <= 100.0
    ensures multiset(out.ranked) == multiset(Items(out.percent)) && Ranked(out.ranked)
    ensures |out.ranked| == |ORDER| && out.dominant == out.ranked[0].0
    ensures forall t :: out.percent.Get(t) <= out.percent.Get(out.dominant)
    ensures forall t :: out.raw.Get(t) <= out.raw.Get(out.dominant)
    ensures forall t :: out.percent.Get(t) == out.percent.Get(out.dominant) ==> Idx(out.dominant) <= Idx(t)
    ensures out.age == AnalyzeAge(r.ph, r.ir)
  {
    var raw := TasteScores(r);
    ScoresEqual(raw, RawScores(r));
    RawScoresNonNegative(r);
    var percent := Percentages(raw);
    var ranked := Rank(percent);
    BreakdownAll(raw, ranked);
    var dominant := ranked[0].0;
    var age := AnalyzeAge(r.ph, r.ir);
    out := Outcome(raw, percent, ranked, dominant, age);
  }

  lemma RawScoresNonNegative(r: Reading)
    ensures NonNegative(RawScores(r))
  {
    var s := RawScores(r);
    assert s.pungent == RawScore(r, Pungent) && s.sweet == RawScore(r, Sweet);
    assert s.sour == RawScore(r, Sour) && s.astringent == RawScore(r, Astringent);
    assert s.bitter == RawScore(r, Bitter) && s.salt == RawScore(r, Salt);
  }

  /** A sample reading, worked out exactly. */
  const SAMPLE := Reading(6.2, 1.0, 500.0, 2.0, 40.0)

  const SAMPLE_RAW := Scores(29.0 / 15.0, 1.0, 169.0 / 90.0, 229.0 / 90.0, 44.0 / 15.0, 0.0)

  const SAMPLE_PERCENT :=
    Scores(8700.0 / 463.0, 4500.0 / 463.0, 8450.0 / 463.0, 11450.0 / 463.0, 13200.0 / 463.0, 0.0)

  /** The sample's raw scores, degree by degree. */
  lemma SampleScores()
    ensures RawScores(SAMPLE) == SAMPLE_RAW
  {
    assert Degree(SAMPLE, PH, Pungent) == 13.0 / 15.0;
    assert Degree(SAMPLE, Conductivity, Pungent) == 0.0;
    assert Degree(SAMPLE, Tds, Pungent) == 0.4;
    assert Degree(SAMPLE, Ir, Pungent) == 0.0;
    assert Degree(SAMPLE, Dielectric, Pungent) == 2.0 / 3.0;
    assert Degree(SAMPLE, PH, Sweet) == 1.0;
    assert Degree(SAMPLE, Conductivity, Sweet) == 0.0;
    assert Degree(SAMPLE, Tds, Sweet) == 0.0;
    assert Degree(SAMPLE, Ir, Sweet) == 0.0;
    assert Degree(SAMPLE, Dielectric, Sweet) == 0.0;
    assert Degree(SAMPLE, PH, Sour) == 0.0;
    assert Degree(SAMPLE, Conductivity, Sour) == 0.6;
    assert Degree(SAMPLE, Tds, Sour) == 4.0 / 9.0;
    assert Degree(SAMPLE, Ir, Sour) == 0.5;
    assert Degree(SAMPLE, Dielectric, Sour) == 1.0 / 3.0;
    assert Degree(SAMPLE, PH, Astringent) == 0.0;
    assert Degree(SAMPLE, Conductivity, Astringent) == 0.6;
    assert Degree(SAMPLE, Tds, Astringent) == 4.0 / 9.0;
    assert Degree(SAMPLE, Ir, Astringent) == 0.5;
    assert Degree(SAMPLE, Dielectric, Astringent) == 1.0;
    assert Degree(SAMPLE, PH, Bitter) == 14.0 / 15.0;
    assert Degree(SAMPLE, Conductivity, Bitter) == 1.0;
    assert Degree(SAMPLE, Tds, Bitter) == 1.0;
    assert Degree(SAMPLE, Ir, Bitter) == 0.0;
    assert Degree(SAMPLE, Dielectric, Bitter) == 0.0;
    assert Degree(SAMPLE, PH, Salt) == 0.0;
    assert Degree(SAMPLE, Conductivity, Salt) == 0.0;
    assert Degree(SAMPLE, Tds, Salt) == 0.0;
    assert Degree(SAMPLE, Ir, Salt) == 0.0;
    assert Degree(SAMPLE, Dielectric, Salt) == 0.0;
  }

  lemma SamplePercentages()
    ensures Total(SAMPLE_RAW) == 463.0 / 45.0
    ensures Percentages(SAMPLE_RAW) == SAMPLE_PERCENT
  {
    assert Total(SAMPLE_RAW) == 463.0 / 45.0;
    assert Denominator(SAMPLE_RAW) == 463.0 / 45.0;
  }

  /** The sample's expected ranking: Bitter is the dominant taste at
      13200/463 (about 28.51) percent. */
  const SAMPLE_RANKED: seq<Item> :=
    [(Bitter, 13200.0 / 463.0), (Astringent, 11450.0 / 463.0), (Pungent, 8700.0 / 463.0),
     (Sour, 8450.0 / 463.0), (Sweet, 4500.0 / 463.0), (Salt, 0.0)]

  lemma SampleRankedIsRanked()
    ensures Ranked(SAMPLE_RANKED)
  {
    var s := SAMPLE_RANKED;
    assert Before(s[0], s[1]) && Before(s[1], s[2]) && Before(s[2], s[3]);
    assert Before(s[3], s[4]) && Before(s[4], s[5]);
  }

  lemma SampleRankedIsPermutation()
    ensures multiset(SAMPLE_RANKED) == multiset(Items(SAMPLE_PERCENT))
  {
    var items := Items(SAMPLE_PERCENT);
    assert SAMPLE_RANKED == [items[4], items[3], items[0], items[2], items[1], items[5]];
  }

  /** Every ranking of the sample's percentages is SAMPLE_RANKED. */
  lemma SampleRanking(ranked: seq<Item>)
    requires multiset(ranked) == multiset(Items(SAMPLE_PERCENT))
    requires Ranked(ranked)
    ensures ranked == SAMPLE_RANKED
  {
    SampleRankedIsRanked();
    SampleRankedIsPermutation();
    RankedUnique(ranked, SAMPLE_RANKED);
  }
}
