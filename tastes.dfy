/** The six taste categories, the fixed membership table and the raw-score
    computation (webfinal13.py, `taste_scores`). */
module Tastes {
  import opened Membership

  datatype Taste = Pungent | Sweet | Sour | Astringent | Bitter | Salt

  /** Declaration order of the score dictionary; later stages break ties by it. */
  const ORDER: seq<Taste> := [Pungent, Sweet, Sour, Astringent, Bitter, Salt]

  /** Position of a taste in the declaration order. */
  function Idx(t: Taste): (i: nat)
    ensures i < |ORDER| && ORDER[i] == t
  {
    match t
    case Pungent => 0
    case Sweet => 1
    case Sour => 2
    case Astringent => 3
    case Bitter => 4
    case Salt => 5
  }

  lemma IdxOrder(i: nat)
    requires i < |ORDER|
    ensures Idx(ORDER[i]) == i
  {
  }

  datatype Attribute = PH | Conductivity | Tds | Ir | Dielectric

  /** The five sensor readings of one sample. */
  datatype Reading = Reading(ph: real, conductivity: real, tds: real, ir: real, dielectric: real)
  {
    function Value(a: Attribute): real {
      match a
      case PH => ph
      case Conductivity => conductivity
      case Tds => tds
      case Ir => ir
      case Dielectric => dielectric
    }
  }

  datatype Triple = Triple(low: real, mid: real, high: real)

  /** The configuration table, keyed by (attribute, taste): the triangle each
      attribute contributes to each taste. Every entry is well formed. */
  function Table(a: Attribute, t: Taste): (tr: Triple)
    ensures tr.low < tr.mid < tr.high
  {
    match a
    case PH => (
      match t
      case Sour => Triple(2.5, 3.5, 4.5)
      case Astringent => Triple(4.0, 5.0, 6.0)
      case Sweet => Triple(5.5, 6.2, 7.0)
      case Pungent => Triple(5.0, 6.0, 7.5)
      case Bitter => Triple(4.5, 6.0, 9.0)
      case Salt => Triple(6.5, 7.5, 9.0))
    case Conductivity => (
      match t
      case Sweet => Triple(0.1, 0.3, 0.5)
      case Pungent => Triple(0.2, 0.6, 1.0)
      case Bitter => Triple(0.3, 1.0, 2.0)
      case Astringent => Triple(0.4, 1.4, 2.5)
      case Sour => Triple(0.4, 1.4, 2.5)
      case Salt => Triple(1.5, 2.5, 3.0))
    case Tds => (
      match t
      case Sweet => Triple(100.0, 250.0, 400.0)
      case Pungent => Triple(150.0, 350.0, 600.0)
      case Bitter => Triple(200.0, 500.0, 900.0)
      case Astringent => Triple(300.0, 750.0, 1200.0)
      case Sour => Triple(300.0, 750.0, 1200.0)
      case Salt => Triple(500.0, 1000.0, 1500.0))
    case Ir => (
      match t
      case Bitter => Triple(0.5, 1.0, 1.5)
      case Astringent => Triple(1.5, 2.5, 3.5)
      case Sour => Triple(1.5, 2.5, 3.5)
      case Pungent => Triple(2.0, 3.0, 3.8)
      case Sweet => Triple(3.5, 4.0, 4.5)
      case Salt => Triple(3.8, 4.1, 4.5))
    case Dielectric => (
      match t
      case Salt => Triple(40.0, 55.0, 70.0)
      case Sour => Triple(35.0, 50.0, 65.0)
      case Astringent => Triple(25.0, 40.0, 55.0)
      case Pungent => Triple(20.0, 35.0, 50.0)
      case Sweet => Triple(10.0, 20.0, 30.0)
      case Bitter => Triple(5.0, 15.0, 25.0))
  }

  /** The contribution of attribute `a` to taste `t`: in [0, 1], and positive
      exactly when the reading lies strictly inside that table entry's
      support. */
  function Degree(r: Reading, a: Attribute, t: Taste): (d: real)
    ensures 0.0 <= d <= 1.0
    ensures d > 0.0 <==> Table(a, t).low < r.Value(a) < Table(a, t).high
  {
    var tr := Table(a, t);
    FuzzySupport(r.Value(a), tr.low, tr.mid, tr.high);
    Fuzzy(r.Value(a), tr.low, tr.mid, tr.high)
  }

  /** A taste's raw score: one contribution from each of the five attributes,
      all read from that taste's own table entries. */
  function RawScore(r: Reading, t: Taste): (s: real)
    ensures 0.0 <= s <= 5.0
  {
    Degree(r, PH, t) + Degree(r, Conductivity, t) + Degree(r, Tds, t)
    + Degree(r, Ir, t) + Degree(r, Dielectric, t)
  }

  /** The score dictionary `s` of the scoring step. It always holds exactly
      the six tastes, so it is a record with one entry per taste; `Get(t)` is
      the lookup `s[t]`. */
  datatype Scores = Scores(pungent: real, sweet: real, sour: real, astringent: real, bitter: real, salt: real)
  {
    function Get(t: Taste): real {
      match t
      case Pungent => pungent
      case Sweet => sweet
      case Sour => sour
      case Astringent => astringent
      case Bitter => bitter
      case Salt => salt
    }

    /** One `s[t] += x` update: it adds `x` to `t` and touches no other taste. */
    function Add(t: Taste, x: real): (r: Scores)
      ensures r.Get(t) == Get(t) + x
      ensures t != Pungent ==> r.pungent == pungent
      ensures t != Sweet ==> r.sweet == sweet
      ensures t != Sour ==> r.sour == sour
      ensures t != Astringent ==> r.astringent == astringent
      ensures t != Bitter ==> r.bitter == bitter
      ensures t != Salt ==> r.salt == salt
    {
      match t
      case Pungent => this.(pungent := pungent + x)
      case Sweet => this.(sweet := sweet + x)
      case Sour => this.(sour := sour + x)
      case Astringent => this.(astringent := astringent + x)
      case Bitter => this.(bitter := bitter + x)
      case Salt => this.(salt := salt + x)
    }
  }

  /** The raw scores of all six tastes, each under its own key; every entry
      of the dictionary lies in [0, 5], one degree in [0, 1] per attribute. */
  function RawScores(r: Reading): (s: Scores)
    ensures forall t :: 0.0 <= s.Get(t) <= 5.0
    ensures s.Get(Pungent) == RawScore(r, Pungent) && s.Get(Sweet) == RawScore(r, Sweet)
    ensures s.Get(Sour) == RawScore(r, Sour) && s.Get(Astringent) == RawScore(r, Astringent)
    ensures s.Get(Bitter) == RawScore(r, Bitter) && s.Get(Salt) == RawScore(r, Salt)
  {
    Scores(RawScore(r, Pungent), RawScore(r, Sweet), RawScore(r, Sour),
           RawScore(r, Astringent), RawScore(r, Bitter), RawScore(r, Salt))
  }

  /** A score record is determined by its six lookups: the dictionary holds
      exactly the six taste keys and nothing else. */
  lemma ScoresEqual(a: Scores, b: Scores)
    ensures a == b <==> a.Get(Pungent) == b.Get(Pungent) && a.Get(Sweet) == b.Get(Sweet)
                        && a.Get(Sour) == b.Get(Sour) && a.Get(Astringent) == b.Get(Astringent)
                        && a.Get(Bitter) == b.Get(Bitter) && a.Get(Salt) == b.Get(Salt)
  {
  }

  /** Any two updates commute, so the thirty additions of the scoring step
      give the same scores in any order (every reordering is a sequence of
      adjacent swaps). */
  lemma AddCommutes(s: Scores, t1: Taste, x1: real, t2: Taste, x2: real)
    ensures s.Add(t1, x1).Add(t2, x2) == s.Add(t2, x2).Add(t1, x1)
  {
  }

  /** The table read back per taste, in the attribute order of the source. */
  lemma RawScoreRows(r: Reading)
    ensures RawScore(r, Pungent) == Fuzzy(r.ph, 5.0, 6.0, 7.5) + Fuzzy(r.conductivity, 0.2, 0.6, 1.0)
      + Fuzzy(r.tds, 150.0, 350.0, 600.0) + Fuzzy(r.ir, 2.0, 3.0, 3.8) + Fuzzy(r.dielectric, 20.0, 35.0, 50.0)
    ensures RawScore(r, Sweet) == Fuzzy(r.ph, 5.5, 6.2, 7.0) + Fuzzy(r.conductivity, 0.1, 0.3, 0.5)
      + Fuzzy(r.tds, 100.0, 250.0, 400.0) + Fuzzy(r.ir, 3.5, 4.0, 4.5) + Fuzzy(r.dielectric, 10.0, 20.0, 30.0)
    ensures RawScore(r, Sour) == Fuzzy(r.ph, 2.5, 3.5, 4.5) + Fuzzy(r.conductivity, 0.4, 1.4, 2.5)
      + Fuzzy(r.tds, 300.0, 750.0, 1200.0) + Fuzzy(r.ir, 1.5, 2.5, 3.5) + Fuzzy(r.dielectric, 35.0, 50.0, 65.0)
    ensures RawScore(r, Astringent) == Fuzzy(r.ph, 4.0, 5.0, 6.0) + Fuzzy(r.conductivity, 0.4, 1.4, 2.5)
      + Fuzzy(r.tds, 300.0, 750.0, 1200.0) + Fuzzy(r.ir, 1.5, 2.5, 3.5) + Fuzzy(r.dielectric, 25.0, 40.0, 55.0)
    ensures RawScore(r, Bitter) == Fuzzy(r.ph, 4.5, 6.0, 9.0) + Fuzzy(r.conductivity, 0.3, 1.0, 2.0)
      + Fuzzy(r.tds, 200.0, 500.0, 900.0) + Fuzzy(r.ir, 0.5, 1.0, 1.5) + Fuzzy(r.dielectric, 5.0, 15.0, 25.0)
    ensures RawScore(r, Salt) == Fuzzy(r.ph, 6.5, 7.5, 9.0) + Fuzzy(r.conductivity, 1.5, 2.5, 3.0)
      + Fuzzy(r.tds, 500.0, 1000.0, 1500.0) + Fuzzy(r.ir, 3.8, 4.1, 4.5) + Fuzzy(r.dielectric, 40.0, 55.0, 70.0)
  {
  }

  /** The scoring step: all six scores start at 0.0, then thirty updates, in
      the source's order, each add one fuzzy degree to one taste. The result
      is the table-defined raw score of every taste. */
  method TasteScores(r: Reading) returns (s: Scores)
    ensures s.Get(Pungent) == RawScore(r, Pungent)
    ensures s.Get(Sweet) == RawScore(r, Sweet)
    ensures s.Get(Sour) == RawScore(r, Sour)
    ensures s.Get(Astringent) == RawScore(r, Astringent)
    ensures s.Get(Bitter) == RawScore(r, Bitter)
    ensures s.Get(Salt) == RawScore(r, Salt)
  {
    var pH, cond, tds, ir, dielectric := r.ph, r.conductivity, r.tds, r.ir, r.dielectric;
    s := Scores(0.0, 0.0, 0.0, 0.0, 0.0, 0.0);

    // pH
    s := s.Add(Sour, Fuzzy(pH, 2.5, 3.5, 4.5));
    s := s.Add(Astringent, Fuzzy(pH, 4.0, 5.0, 6.0));
    s := s.Add(Sweet, Fuzzy(pH, 5.5, 6.2, 7.0));
    s := s.Add(Pungent, Fuzzy(pH, 5.0, 6.0, 7.5));
    s := s.Add(Bitter, Fuzzy(pH, 4.5, 6.0, 9.0));
    s := s.Add(Salt, Fuzzy(pH, 6.5, 7.5, 9.0));

    // Conductivity
    s := s.Add(Sweet, Fuzzy(cond, 0.1, 0.3, 0.5));
    s := s.Add(Pungent, Fuzzy(cond, 0.2, 0.6, 1.0));
    s := s.Add(Bitter, Fuzzy(cond, 0.3, 1.0, 2.0));
    s := s.Add(Astringent, Fuzzy(cond, 0.4, 1.4, 2.5));
    s := s.Add(Sour, Fuzzy(cond, 0.4, 1.4, 2.5));
    s := s.Add(Salt, Fuzzy(cond, 1.5, 2.5, 3.0));

    // TDS
    s := s.Add(Sweet, Fuzzy(tds, 100.0, 250.0, 400.0));
    s := s.Add(Pungent, Fuzzy(tds, 150.0, 350.0, 600.0));
    s := s.Add(Bitter, Fuzzy(tds, 200.0, 500.0, 900.0));
    s := s.Add(Astringent, Fuzzy(tds, 300.0, 750.0, 1200.0));
    s := s.Add(Sour, Fuzzy(tds, 300.0, 750.0, 1200.0));
    s := s.Add(Salt, Fuzzy(tds, 500.0, 1000.0, 1500.0));

    // IR
    s := s.Add(Bitter, Fuzzy(ir, 0.5, 1.0, 1.5));
    s := s.Add(Astringent, Fuzzy(ir, 1.5, 2.5, 3.5));
    s := s.Add(Sour, Fuzzy(ir, 1.5, 2.5, 3.5));
    s := s.Add(Pungent, Fuzzy(ir, 2.0, 3.0, 3.8));
    s := s.Add(Sweet, Fuzzy(ir, 3.5, 4.0, 4.5));
    s := s.Add(Salt, Fuzzy(ir, 3.8, 4.1, 4.5));

    // Dielectric
    s := s.Add(Salt, Fuzzy(dielectric, 40.0, 55.0, 70.0));
    s := s.Add(Sour, Fuzzy(dielectric, 35.0, 50.0, 65.0));
    s := s.Add(Astringent, Fuzzy(dielectric, 25.0, 40.0, 55.0));
    s := s.Add(Pungent, Fuzzy(dielectric, 20.0, 35.0, 50.0));
    s := s.Add(Sweet, Fuzzy(dielectric, 10.0, 20.0, 30.0));
    s := s.Add(Bitter, Fuzzy(dielectric, 5.0, 15.0, 25.0));

    RawScoreRows(r);
  }
}
