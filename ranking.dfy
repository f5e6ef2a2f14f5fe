/** Normalisation of the raw scores into percentages and their ranking, the
    block of `input_window.run` that turns `taste_scores` into a breakdown and
    a dominant taste (webfinal13.py:242-247). */
module Ranking {
  import opened Ratio
  import opened Tastes

  type Item = (Taste, real)

  /** `d.items()`: the (taste, value) pairs in the dictionary's insertion
      order, which is the declaration order ORDER. */
  function Items(s: Scores): (items: seq<Item>)
    ensures |items| == |ORDER|
    ensures forall i :: 0 <= i < |items| ==> items[i] == (ORDER[i], s.Get(ORDER[i]))
  {
    [(Pungent, s.pungent), (Sweet, s.sweet), (Sour, s.sour),
     (Astringent, s.astringent), (Bitter, s.bitter), (Salt, s.salt)]
  }

  /** `sum(raw.values())`. */
  function Total(s: Scores): (total: real)
    ensures NonNegative(s) ==> total >= 0.0
  {
    s.pungent + s.sweet + s.sour + s.astringent + s.bitter + s.salt
  }

  /** `sum(raw.values()) or 1e-9`: a zero total is replaced by 1e-9, so the
      denominator is never zero. */
  function Denominator(raw: Scores): (d: real)
    ensures d != 0.0
    ensures Total(raw) != 0.0 ==> d == Total(raw)
    ensures Total(raw) >= 0.0 ==> d > 0.0
  {
    var total := Total(raw);
    if total == 0.0 then 0.000000001 else total
  }

  /** `{k: (v/total)*100 for k, v in raw.items()}`. */
  function Percentages(raw: Scores): (p: Scores)
    ensures NonNegative(raw) ==> NonNegative(p)
  {
    var d := Denominator(raw);
    var p := Scores(raw.pungent / d * 100.0, raw.sweet / d * 100.0, raw.sour / d * 100.0,
                    raw.astringent / d * 100.0, raw.bitter / d * 100.0, raw.salt / d * 100.0);
    if NonNegative(raw) then
      Scale(raw.pungent, d); Scale(raw.sweet, d); Scale(raw.sour, d);
      Scale(raw.astringent, d); Scale(raw.bitter, d); Scale(raw.salt, d);
      p
    else
      p
  }

  /** A non-negative share of a positive divisor is a non-negative percentage. */
  lemma Scale(x: real, d: real)
    requires x >= 0.0 && d > 0.0
    ensures x / d * 100.0 >= 0.0
  {
    RatioMonotone(0.0, x, d);
  }

  predicate NonNegative(s: Scores) {
    s.pungent >= 0.0 && s.sweet >= 0.0 && s.sour >= 0.0
    && s.astringent >= 0.0 && s.bitter >= 0.0 && s.salt >= 0.0
  }

  /** Whenever the raw total is non-zero, the percentages sum to exactly 100. */
  lemma PercentagesSumTo100(raw: Scores)
    requires Total(raw) != 0.0
    ensures Total(Percentages(raw)) == 100.0
  {
    var d := Total(raw);
    var p := Percentages(raw);
    calc {
      Total(p);
      (raw.pungent / d + raw.sweet / d + raw.sour / d
        + raw.astringent / d + raw.bitter / d + raw.salt / d) * 100.0;
      { DivSum(raw, d); }
      Total(raw) / d * 100.0;
      100.0;
    }
  }

  lemma DivSum(s: Scores, d: real)
    requires d != 0.0
    ensures s.pungent / d + s.sweet / d + s.sour / d + s.astringent / d + s.bitter / d + s.salt / d
            == Total(s) / d
  {
  }

  /** With non-negative raw scores every percentage lies in [0, 100]. */
  lemma PercentagesBounded(raw: Scores, t: Taste)
    requires NonNegative(raw)
    ensures 0.0 <= Percentages(raw).Get(t) <= 100.0
  {
    var d := Denominator(raw);
    var v := raw.Get(t);
    assert Percentages(raw).Get(t) == v / d * 100.0;
    ScoreWithinTotal(raw, t);
    RatioMonotone(0.0, v, d);
    if Total(raw) != 0.0 {
      RatioMonotone(v, Total(raw), d);
      UnitRatio(d);
    }
  }

  lemma ScoreWithinTotal(s: Scores, t: Taste)
    requires NonNegative(s)
    ensures 0.0 <= s.Get(t) <= Total(s)
  {
  }

  /** The 1e-9 fallback: when no taste scored at all, every percentage is 0
      and nothing is divided by zero. */
  lemma PercentagesAllZero(raw: Scores, t: Taste)
    requires NonNegative(raw)
    requires Total(raw) == 0.0
    ensures Percentages(raw).Get(t) == 0.0
  {
    assert raw.Get(t) == 0.0;
    assert Percentages(raw).Get(t) == 0.0 / Denominator(raw) * 100.0;
  }

  /** Normalising by a positive total keeps the order of the raw scores, so
      ranking by percentage is ranking by raw score. */
  lemma PercentagesKeepOrder(raw: Scores, a: Taste, b: Taste)
    requires Total(raw) > 0.0
    ensures raw.Get(a) <= raw.Get(b) <==> Percentages(raw).Get(a) <= Percentages(raw).Get(b)
    ensures raw.Get(a) == raw.Get(b) <==> Percentages(raw).Get(a) == Percentages(raw).Get(b)
  {
    var d := Total(raw);
    var x, y := raw.Get(a), raw.Get(b);
    assert Percentages(raw).Get(a) == x / d * 100.0 && Percentages(raw).Get(b) == y / d * 100.0;
    if x < y {
      RatioStrict(x, y, d);
    } else if y < x {
      RatioStrict(y, x, d);
    }
  }

  // ------------------------------------------------------------------
  // Ranking: `sorted(percent.items(), key=lambda x: x[1], reverse=True)`
  // ------------------------------------------------------------------

  /** `a` stands before `b` in the ranking: a larger percentage first, and
      equal percentages in declaration order (the stable sort keeps the
      dictionary's insertion order on ties). A strict total order on items. */
  predicate Before(a: Item, b: Item) {
    a.1 > b.1 || (a.1 == b.1 && Idx(a.0) < Idx(b.0))
  }

  /** Non-increasing by percentage, ties in declaration order. */
  predicate Ranked(s: seq<Item>) {
    forall i, j :: 0 <= i < j < |s| ==> Before(s[i], s[j])
  }

  /** Stable insertion of `x` into an already ranked list: `x` goes after
      every entry whose percentage is at least its own. */
  function Insert(s: seq<Item>, x: Item): (r: seq<Item>)
    ensures multiset(r) == multiset(s) + multiset{x}
  {
    if s == [] then [x]
    else if s[0].1 >= x.1 then
      assert s == [s[0]] + s[1..];
      [s[0]] + Insert(s[1..], x)
    else [x] + s
  }

  /** Inserting an item that comes later in declaration order than every
      item already placed keeps the list ranked. */
  lemma {:induction false} InsertRanked(s: seq<Item>, x: Item)
    requires Ranked(s)
    requires forall e :: e in s ==> Idx(e.0) < Idx(x.0)
    ensures Ranked(Insert(s, x))
  {
    if s != [] {
      if s[0].1 >= x.1 {
        RankedTail(s);
        forall e | e in s[1..] ensures Idx(e.0) < Idx(x.0) {
          assert e in s;
        }
        InsertRanked(s[1..], x);
        InsertBehind(s, x);
      } else {
        InsertInFront(s, x);
      }
    }
  }

  /** `x` is placed after the head `s[0]`, which stays in front. */
  lemma InsertBehind(s: seq<Item>, x: Item)
    requires Ranked(s) && s != [] && s[0].1 >= x.1
    requires Idx(s[0].0) < Idx(x.0)
    requires Ranked(Insert(s[1..], x))
    ensures Ranked(Insert(s, x))
  {
    HeadBeforeInserted(s, x);
    ConsRanked(s[0], Insert(s[1..], x));
  }

  /** The head of a ranked list comes before every entry of the rest with
      `x` inserted, `x` included. */
  lemma HeadBeforeInserted(s: seq<Item>, x: Item)
    requires Ranked(s) && s != [] && s[0].1 >= x.1
    requires Idx(s[0].0) < Idx(x.0)
    ensures forall e :: e in Insert(s[1..], x) ==> Before(s[0], e)
  {
    var rest := Insert(s[1..], x);
    forall e | e in rest ensures Before(s[0], e) {
      assert e in multiset(rest);
      if e != x {
        assert e in multiset(s[1..]);
        var j :| 0 <= j < |s[1..]| && s[1..][j] == e;
        assert s[j + 1] == e;
      }
    }
  }

  /** Putting an item that comes before every entry in front of a ranked
      list keeps it ranked. */
  lemma ConsRanked(h: Item, rest: seq<Item>)
    requires Ranked(rest)
    requires forall e :: e in rest ==> Before(h, e)
    ensures Ranked([h] + rest)
  {
    var r := [h] + rest;
    forall i, j | 0 <= i < j < |r| ensures Before(r[i], r[j]) {
      if i == 0 {
        assert r[j] == rest[j - 1];
        assert r[j] in rest;
      } else {
        assert r[i] == rest[i - 1] && r[j] == rest[j - 1];
      }
    }
  }

  /** `x` outranks the head, hence every entry of `s`. */
  lemma InsertInFront(s: seq<Item>, x: Item)
    requires Ranked(s) && s != [] && s[0].1 < x.1
    ensures Ranked(Insert(s, x))
  {
    var r := [x] + s;
    assert r == Insert(s, x);
    forall i, j | 0 <= i < j < |r| ensures Before(r[i], r[j]) {
      if i == 0 {
        assert r[j] == s[j - 1];
        if j > 1 {
          assert Before(s[0], s[j - 1]);
        }
      } else {
        assert r[i] == s[i - 1] && r[j] == s[j - 1];
      }
    }
  }

  /** The ranking: a stable sort of the items, largest percentage first. */
  method Rank(p: Scores) returns (ranked: seq<Item>)
    ensures multiset(ranked) == multiset(Items(p))
    ensures Ranked(ranked)
  {
    var items := Items(p);
    ranked := [];
    var i := 0;
    while i < |items|
      invariant 0 <= i <= |items|
      invariant multiset(ranked) == multiset(items[..i])
      invariant forall e :: e in ranked ==> Idx(e.0) < i
      invariant Ranked(ranked)
    {
      var x := items[i];
      IdxOrder(i);
      assert Idx(x.0) == i;
      InsertRanked(ranked, x);
      assert items[..i + 1] == items[..i] + [x];
      ghost var before := ranked;
      ranked := Insert(ranked, x);
      forall e | e in ranked ensures Idx(e.0) < i + 1 {
        assert e in multiset(ranked);
        assert e in multiset(before) || e == x;
      }
      i := i + 1;
    }
    assert items[..i] == items;
  }

  /** Any two ranked permutations of the same items are equal: the ranking
      is determined by its specification, so every stable sort (Python's
      included) yields this same list. */
  lemma {:induction false} RankedUnique(a: seq<Item>, b: seq<Item>)
    requires Ranked(a) && Ranked(b)
    requires multiset(a) == multiset(b)
    ensures a == b
    decreases |a|
  {
    assert |a| == |multiset(a)| == |multiset(b)| == |b|;
    if |a| > 0 {
      SameHead(a, b);
      assert a == [a[0]] + a[1..] && b == [b[0]] + b[1..];
      assert multiset(a[1..]) == multiset(a) - multiset{a[0]};
      assert multiset(b[1..]) == multiset(b) - multiset{b[0]};
      RankedTail(a);
      RankedTail(b);
      RankedUnique(a[1..], b[1..]);
    }
  }

  /** Two ranked lists with the same items start with the same item. */
  lemma SameHead(a: seq<Item>, b: seq<Item>)
    requires Ranked(a) && Ranked(b)
    requires multiset(a) == multiset(b) && |a| > 0
    ensures |b| > 0 && a[0] == b[0]
  {
    assert a[0] in multiset(b);
    var k :| 0 <= k < |b| && b[k] == a[0];
    assert b[0] in multiset(a);
    var m :| 0 <= m < |a| && a[m] == b[0];
    // Were k > 0, b[0] would stand before a[0] in b and after it in a.
    assert k == 0;
  }

  lemma RankedTail(s: seq<Item>)
    requires Ranked(s) && |s| > 0
    ensures Ranked(s[1..])
  {
    forall i, j | 0 <= i < j < |s[1..]| ensures Before(s[1..][i], s[1..][j]) {
      assert s[1..][i] == s[i + 1] && s[1..][j] == s[j + 1];
    }
  }
}
