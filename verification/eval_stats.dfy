/** Eval-case statistics and the compiler gate: dashboard/src/lib/eval-stats.ts. Scores are reals;
    a missing or NaN score is `None`. */
module EvalStats {
  import opened Sequences
  import opened Sorting
  import opened Wrappers

  datatype Origin = Synthetic | Real | HumanReviewed
  datatype Promotion = Eligible | Blocked | NeedsReview | OtherPromotion

  /** `origin` is what the wire carries; anything unknown counts as synthetic. */
  datatype Case = Case(id: string, origin: Option<Origin>, score: Option<real>, promotion: Promotion)

  function OriginOf(c: Case): Origin { if c.origin.Some? then c.origin.value else Synthetic }

  /** A record with one field per origin. */
  datatype PerOrigin<T> = PerOrigin(synthetic: T, reality: T, reviewed: T) {
    function At(o: Origin): T {
      match o case Synthetic => synthetic case Real => reality case HumanReviewed => reviewed
    }
    function With(o: Origin, x: T): PerOrigin<T> {
      match o
      case Synthetic => this.(synthetic := x)
      case Real => this.(reality := x)
      case HumanReviewed => this.(reviewed := x)
    }
  }

  datatype Stats = Stats(
    total: nat, byOrigin: PerOrigin<nat>, eligible: nat, blocked: nat, needsReview: nat,
    average: Option<real>, averageByOrigin: PerOrigin<Option<real>>, timeline: seq<real>)

  function OwnScore(c: Case): seq<real> { if c.score.Some? then [c.score.value] else [] }

  function Scores(cases: seq<Case>): seq<real> {
    if cases == [] then [] else OwnScore(cases[0]) + Scores(cases[1..])
  }

  lemma {:induction false} ScoresConcat(a: seq<Case>, b: seq<Case>)
    ensures Scores(a + b) == Scores(a) + Scores(b)
  {
    if a == [] {
      assert a + b == b;
    } else {
      assert (a + b)[1..] == a[1..] + b;
      ScoresConcat(a[1..], b);
      assert OwnScore(a[0]) + (Scores(a[1..]) + Scores(b)) == (OwnScore(a[0]) + Scores(a[1..])) + Scores(b);
    }
  }

  function FromOrigin(o: Origin): Case -> bool { (c: Case) => OriginOf(c) == o }
  function WithPromotion(p: Promotion): Case -> bool { (c: Case) => c.promotion == p }

  function Mean(values: seq<real>): Option<real> {
    if values == [] then None else Some(SumReal(values) / |values| as real)
  }

  method ComputeMean(values: seq<real>) returns (m: Option<real>)
    ensures m == Mean(values)
  {
    if |values| == 0 { return None; }
    var sum := 0.0;
    for k := 0 to |values|
      invariant sum == SumReal(values[..k])
    {
      assert values[..k + 1] == values[..k] + [values[k]];
      SumRealConcat(values[..k], [values[k]]);
      assert [values[k]][1..] == [];
      sum := sum + values[k];
    }
    assert values[..|values|] == values;
    return Some(sum / |values| as real);
  }

  predicate IdLe(a: Case, b: Case) { StringLe(a.id, b.id) }

  function ByOrigin(cases: seq<Case>): PerOrigin<nat> {
    PerOrigin(|Filter(FromOrigin(Synthetic), cases)|, |Filter(FromOrigin(Real), cases)|,
              |Filter(FromOrigin(HumanReviewed), cases)|)
  }

  function ScoresFrom(o: Origin, cases: seq<Case>): seq<real> { Scores(Filter(FromOrigin(o), cases)) }

  function ScoreGroups(cases: seq<Case>): PerOrigin<seq<real>> {
    PerOrigin(ScoresFrom(Synthetic, cases), ScoresFrom(Real, cases), ScoresFrom(HumanReviewed, cases))
  }

  function Promoted(cases: seq<Case>, p: Promotion): nat { |Filter(WithPromotion(p), cases)| }

  function StatsOf(cases: seq<Case>): Stats {
    Stats(|cases|, ByOrigin(cases), Promoted(cases, Eligible), Promoted(cases, Blocked), Promoted(cases, NeedsReview),
          Mean(Scores(cases)),
          PerOrigin(Mean(ScoresFrom(Synthetic, cases)), Mean(ScoresFrom(Real, cases)),
                    Mean(ScoresFrom(HumanReviewed, cases))),
          Scores(Sort(IdLe, cases)))
  }

  lemma ScoreAdds(cases: seq<Case>, c: Case)
    ensures Scores(cases + [c]) == Scores(cases) + OwnScore(c)
  {
    ScoresConcat(cases, [c]);
    assert [c][1..] == [];
  }

  lemma CaseAdds(cases: seq<Case>, c: Case, o: Origin)
    ensures |Filter(FromOrigin(o), cases + [c])| == |Filter(FromOrigin(o), cases)| + if OriginOf(c) == o then 1 else 0
    ensures ScoresFrom(o, cases + [c]) ==
            if OriginOf(c) == o then ScoresFrom(o, cases) + OwnScore(c) else ScoresFrom(o, cases)
    ensures Scores(cases + [c]) == Scores(cases) + OwnScore(c)
  {
    FilterSnoc(FromOrigin(o), cases, c);
    ScoreAdds(cases, c);
    if OriginOf(c) == o { ScoreAdds(Filter(FromOrigin(o), cases), c); }
  }

  lemma CaseCounts(cases: seq<Case>, c: Case)
    ensures var o := OriginOf(c);
            && ByOrigin(cases + [c]) == ByOrigin(cases).With(o, ByOrigin(cases).At(o) + 1)
            && ScoreGroups(cases + [c]) == ScoreGroups(cases).With(o, ScoreGroups(cases).At(o) + OwnScore(c))
  {
    CaseAdds(cases, c, Synthetic);
    CaseAdds(cases, c, Real);
    CaseAdds(cases, c, HumanReviewed);
  }

  lemma PromotionCounts(cases: seq<Case>, c: Case, p: Promotion)
    ensures Promoted(cases + [c], p) == Promoted(cases, p) + if c.promotion == p then 1 else 0
  {
    FilterSnoc(WithPromotion(p), cases, c);
  }

  /** What the k-th case adds to every figure. */
  lemma CaseCounted(cases: seq<Case>, k: nat)
    requires k < |cases|
    ensures var c, o, done, next := cases[k], OriginOf(cases[k]), cases[..k], cases[..k + 1];
            && ByOrigin(next) == ByOrigin(done).With(o, ByOrigin(done).At(o) + 1)
            && ScoreGroups(next) == ScoreGroups(done).With(o, ScoreGroups(done).At(o) + OwnScore(c))
            && Scores(next) == Scores(done) + OwnScore(c)
            && forall p :: Promoted(next, p) == Promoted(done, p) + if c.promotion == p then 1 else 0
  {
    var c := cases[k];
    assert cases[..k + 1] == cases[..k] + [c];
    CaseCounts(cases[..k], c);
    CaseAdds(cases[..k], c, OriginOf(c));
    forall p ensures Promoted(cases[..k + 1], p) == Promoted(cases[..k], p) + if c.promotion == p then 1 else 0 {
      PromotionCounts(cases[..k], c, p);
    }
  }

  method SummariseEvalCases(cases: seq<Case>) returns (s: Stats)
    ensures s == StatsOf(cases)
  {
    var byOrigin: PerOrigin<nat>, scores: PerOrigin<seq<real>> := PerOrigin(0, 0, 0), PerOrigin([], [], []);
    var all, eligible, blocked, review := [], 0, 0, 0;
    for k := 0 to |cases|
      invariant byOrigin == ByOrigin(cases[..k]) && scores == ScoreGroups(cases[..k]) && all == Scores(cases[..k])
      invariant eligible == Promoted(cases[..k], Eligible) && blocked == Promoted(cases[..k], Blocked)
      invariant review == Promoted(cases[..k], NeedsReview)
    {
      var c := cases[k];
      var o := OriginOf(c);
      CaseCounted(cases, k);
      byOrigin := byOrigin.With(o, byOrigin.At(o) + 1);
      scores := scores.With(o, scores.At(o) + OwnScore(c));
      all := all + OwnScore(c);
      match c.promotion {
        case Eligible => eligible := eligible + 1;
        case Blocked => blocked := blocked + 1;
        case NeedsReview => review := review + 1;
        case OtherPromotion =>
      }
    }
    assert cases[..|cases|] == cases;
    var synthetic := ComputeMean(scores.synthetic);
    var graded := ComputeMean(scores.reality);
    var reviewed := ComputeMean(scores.reviewed);
    var average := ComputeMean(all);
    s := Stats(|cases|, byOrigin, eligible, blocked, review, average,
               PerOrigin(synthetic, graded, reviewed), Scores(Sort(IdLe, cases)));
  }

  // ---- Consistency ---------------------------------------------------------------------------

  function Weighted(mean: Option<real>, count: nat): real { if mean.None? then 0.0 else mean.value * count as real }

  lemma {:induction false} OriginsSplit(cases: seq<Case>)
    ensures |Filter(FromOrigin(Synthetic), cases)| + |Filter(FromOrigin(Real), cases)|
              + |Filter(FromOrigin(HumanReviewed), cases)| == |cases|
    ensures |ScoresFrom(Synthetic, cases)| + |ScoresFrom(Real, cases)| + |ScoresFrom(HumanReviewed, cases)|
              == |Scores(cases)|
    ensures SumReal(ScoresFrom(Synthetic, cases)) + SumReal(ScoresFrom(Real, cases))
              + SumReal(ScoresFrom(HumanReviewed, cases)) == SumReal(Scores(cases))
  {
    if cases == [] {
    } else {
      var front, c := cases[..|cases| - 1], cases[|cases| - 1];
      assert cases == front + [c];
      OriginsSplit(front);
      var last := OwnScore(c);
      forall o: Origin ensures SumReal(ScoresFrom(o, cases)) ==
                SumReal(ScoresFrom(o, front)) + if OriginOf(c) == o then SumReal(last) else 0.0
      {
        CaseAdds(front, c, o);
        SumRealConcat(ScoresFrom(o, front), if OriginOf(c) == o then last else []);
        assert ScoresFrom(o, front) + [] == ScoresFrom(o, front);
      }
      CaseAdds(front, c, Synthetic);
      CaseAdds(front, c, Real);
      CaseAdds(front, c, HumanReviewed);
      SumRealConcat(Scores(front), last);
    }
  }

  lemma WeightedMeanIsSum(values: seq<real>)
    ensures Weighted(Mean(values), |values|) == SumReal(values)
  {
  }

  /** Origin counts add up to the total, and the overall mean is the per-origin means weighted by
      their scored counts. */
  lemma StatsAreConsistent(cases: seq<Case>)
    ensures var s := StatsOf(cases);
            && s.byOrigin.synthetic + s.byOrigin.reality + s.byOrigin.reviewed == s.total
            && Weighted(s.average, |Scores(cases)|) ==
                 Weighted(s.averageByOrigin.synthetic, |ScoresFrom(Synthetic, cases)|)
                 + Weighted(s.averageByOrigin.reality, |ScoresFrom(Real, cases)|)
                 + Weighted(s.averageByOrigin.reviewed, |ScoresFrom(HumanReviewed, cases)|)
  {
    OriginsSplit(cases);
    WeightedMeanIsSum(Scores(cases));
    WeightedMeanIsSum(ScoresFrom(Synthetic, cases));
    WeightedMeanIsSum(ScoresFrom(Real, cases));
    WeightedMeanIsSum(ScoresFrom(HumanReviewed, cases));
  }

  function ScoreBag(cases: seq<Case>): multiset<real> { multiset(Scores(cases)) }

  lemma ScoreBagCons(c: Case, rest: seq<Case>)
    ensures ScoreBag([c] + rest) == multiset(OwnScore(c)) + ScoreBag(rest)
  {
    assert ([c] + rest)[1..] == rest;
  }

  lemma {:induction false} ScoresOfInsert(c: Case, cases: seq<Case>)
    ensures ScoreBag(Insert(IdLe, c, cases)) == multiset(OwnScore(c)) + ScoreBag(cases)
  {
    ScoreBagCons(c, cases);
    if cases == [] || IdLe(c, cases[0]) {
    } else {
      var first, rest := cases[0], cases[1..];
      assert cases == [first] + rest;
      ScoresOfInsert(c, rest);
      ScoreBagCons(first, Insert(IdLe, c, rest));
      ScoreBagCons(first, rest);
    }
  }

  lemma IdLeIsTotal()
    ensures TotalPreorder(IdLe)
  {
    StringLeIsTotalPreorder();
  }

  function WithId(id: string): Case -> bool { (c: Case) => c.id == id }

  lemma SameIdKeepsOrder(cases: seq<Case>, id: string)
    ensures Filter(WithId(id), Sort(IdLe, cases)) == Filter(WithId(id), cases)
  {
    IdLeIsTotal();
    EqualsKeepOrder(IdLe, WithId(id), cases);
  }

  lemma {:induction false} SortKeepsScores(cases: seq<Case>)
    ensures ScoreBag(Sort(IdLe, cases)) == ScoreBag(cases)
  {
    if cases == [] {
    } else {
      SortKeepsScores(cases[1..]);
      ScoresOfInsert(cases[0], Sort(IdLe, cases[1..]));
      ScoreBagCons(cases[0], cases[1..]);
      assert cases == [cases[0]] + cases[1..];
    }
  }

  /** The timeline is the scores of the cases in id order, equal ids in their given order: every score,
      none lost or repeated. */
  lemma TimelineKeepsScores(cases: seq<Case>)
    ensures multiset(StatsOf(cases).timeline) == multiset(Scores(cases))
    ensures var byId := Sort(IdLe, cases);
            && StatsOf(cases).timeline == Scores(byId) && Sorted(IdLe, byId) && multiset(byId) == multiset(cases)
            && forall id :: Filter(WithId(id), byId) == Filter(WithId(id), cases)
  {
    SortKeepsScores(cases);
    IdLeIsTotal();
    SortSorts(IdLe, cases);
    forall id ensures Filter(WithId(id), Sort(IdLe, cases)) == Filter(WithId(id), cases) {
      SameIdKeepsOrder(cases, id);
    }
  }

  /** What the counts count; a case without an origin is synthetic. */
  lemma CountsMeaning(cases: seq<Case>)
    ensures var s := StatsOf(cases);
            && s.total == |cases|
            && s.eligible == |set k | 0 <= k < |cases| && cases[k].promotion == Eligible|
            && s.blocked == |set k | 0 <= k < |cases| && cases[k].promotion == Blocked|
            && s.needsReview == |set k | 0 <= k < |cases| && cases[k].promotion == NeedsReview|
            && s.byOrigin.synthetic ==
                 |set k | 0 <= k < |cases| && (cases[k].origin == None || cases[k].origin == Some(Synthetic))|
            && s.byOrigin.reality == |set k | 0 <= k < |cases| && cases[k].origin == Some(Real)|
            && s.byOrigin.reviewed == |set k | 0 <= k < |cases| && cases[k].origin == Some(HumanReviewed)|
  {
    FilterCount(WithPromotion(Eligible), cases, set k | 0 <= k < |cases| && cases[k].promotion == Eligible);
    FilterCount(WithPromotion(Blocked), cases, set k | 0 <= k < |cases| && cases[k].promotion == Blocked);
    FilterCount(WithPromotion(NeedsReview), cases, set k | 0 <= k < |cases| && cases[k].promotion == NeedsReview);
    FilterCount(FromOrigin(Synthetic), cases,
                set k | 0 <= k < |cases| && (cases[k].origin == None || cases[k].origin == Some(Synthetic)));
    FilterCount(FromOrigin(Real), cases, set k | 0 <= k < |cases| && cases[k].origin == Some(Real));
    FilterCount(FromOrigin(HumanReviewed), cases, set k | 0 <= k < |cases| && cases[k].origin == Some(HumanReviewed));
  }

  /** `m` is the mean of the values: none without values, else their sum over their number. */
  ghost predicate IsMean(m: Option<real>, values: seq<real>) {
    (m == None <==> values == []) && (m.Some? ==> m.value * |values| as real == SumReal(values))
  }

  lemma MeanIs(values: seq<real>)
    ensures IsMean(Mean(values), values)
  {
    WeightedMeanIsSum(values);
  }

  lemma {:induction false} ScoredOnly(cases: seq<Case>)
    ensures Scores(cases) == [] <==> forall c :: c in cases ==> c.score == None
  {
    if cases == [] {
    } else {
      ScoredOnly(cases[1..]);
      assert cases == [cases[0]] + cases[1..];
    }
  }

  /** What the averages are: means of the scores, over all cases and per origin; none exactly where no case
      has a score. */
  lemma AveragesMeaning(cases: seq<Case>)
    ensures var s := StatsOf(cases);
            && IsMean(s.average, Scores(cases))
            && (s.average == None <==> forall c :: c in cases ==> c.score == None)
            && IsMean(s.averageByOrigin.synthetic, ScoresFrom(Synthetic, cases))
            && IsMean(s.averageByOrigin.reality, ScoresFrom(Real, cases))
            && IsMean(s.averageByOrigin.reviewed, ScoresFrom(HumanReviewed, cases))
  {
    ScoredOnly(cases);
    MeanIs(Scores(cases));
    MeanIs(ScoresFrom(Synthetic, cases));
    MeanIs(ScoresFrom(Real, cases));
    MeanIs(ScoresFrom(HumanReviewed, cases));
  }

  // ---- Compiler gate -------------------------------------------------------------------------

  datatype CompilerState = NotStarted | BlockedSyntheticOnly | WarmingUp | Ready

  const THRESHOLD := 100

  function RealCases(s: Stats): nat { s.byOrigin.reality + s.byOrigin.reviewed }

  function Scaffold(s: Stats, threshold: int := THRESHOLD): CompilerState {
    if s.total == 0 then NotStarted
    else if RealCases(s) == 0 then BlockedSyntheticOnly
    else if RealCases(s) < threshold then WarmingUp
    else Ready
  }

  function Rank(c: CompilerState): nat {
    match c case NotStarted => 0 case BlockedSyntheticOnly => 1 case WarmingUp => 2 case Ready => 3
  }

  lemma RealCaseCount(cases: seq<Case>)
    ensures RealCases(StatsOf(cases)) == |Filter(FromOrigin(Real), cases)| + |Filter(FromOrigin(HumanReviewed), cases)|
    ensures StatsOf(cases).total == |cases|
    ensures RealCases(StatsOf(cases)) == 0 <==> forall c :: c in cases ==> OriginOf(c) == Synthetic
  {
    var a, b := Filter(FromOrigin(Real), cases), Filter(FromOrigin(HumanReviewed), cases);
    forall c ensures c in a <==> c in cases && OriginOf(c) == Real
             ensures c in b <==> c in cases && OriginOf(c) == HumanReviewed
    {
      FilterMember(FromOrigin(Real), cases, c);
      FilterMember(FromOrigin(HumanReviewed), cases, c);
    }
    if a != [] { assert a[0] in a; }
    if b != [] { assert b[0] in b; }
  }

  /** The gate's state from the number of cases that are not synthetic, for any threshold. */
  lemma ScaffoldIff(cases: seq<Case>, threshold: int)
    ensures var state := Scaffold(StatsOf(cases), threshold);
            var n := |Filter(FromOrigin(Real), cases)| + |Filter(FromOrigin(HumanReviewed), cases)|;
            && (state == NotStarted <==> cases == [])
            && (state == BlockedSyntheticOnly <==> cases != [] && n == 0)
            && (state == WarmingUp <==> 0 < n < threshold)
            && (state == Ready <==> n > 0 && n >= threshold)
    ensures Scaffold(StatsOf(cases)) == Scaffold(StatsOf(cases), 100)
  {
    RealCaseCount(cases);
  }

  /** More cases never move the compiler back, and it is blocked exactly while all are synthetic. */
  lemma CompilerNeverFallsBack(cases: seq<Case>, more: seq<Case>, threshold: int)
    ensures Rank(Scaffold(StatsOf(cases), threshold)) <= Rank(Scaffold(StatsOf(cases + more), threshold))
    ensures Scaffold(StatsOf(cases), threshold) == BlockedSyntheticOnly <==>
            cases != [] && forall c :: c in cases ==> OriginOf(c) == Synthetic
  {
    FilterConcat(FromOrigin(Real), cases, more);
    FilterConcat(FromOrigin(HumanReviewed), cases, more);
    RealCaseCount(cases);
    RealCaseCount(cases + more);
  }
}
