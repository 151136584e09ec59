/** The scoring block of `process_batch` in bot_saham.py: a decision on the
    last two rows of one ticker's indicator frame. A liquidity veto comes
    first; then additive rules award points and (all but one) a reason tag;
    the ticker is kept when its score reaches the pass mark.
    Python compares NaN as false, so every comparison on an undefined value
    (`None`) is false and only switches off the rule that reads it. */
module Scoring {
  import opened Wrappers
  import opened Indicators

  const MinPrice: real := 50.0
  const MinVolume: real := 1000.0
  const PassScore: int := 4
  const OversoldLevel: real := 30.0
  const CheapLevel: real := 40.0
  const StrengthFloor: real := -0.5
  const SpikeFactor: real := 1.5

  /** The screened result for one ticker (the dict `process_batch` appends). */
  datatype Candidate = Candidate(
    symbol: string,
    price: real,
    rsi: Option<real>,
    volume: real,
    score: int,
    reasons: string   // the tags joined with ", "
  )

  /** The additive rules, in the order the code evaluates them. */
  datatype Rule = RsiOversold | RsiCheap | GoldenCross | Strengthening | VolumeSpike | Uptrend

  /** Position of a rule in evaluation order. */
  function Rank(r: Rule): nat
  {
    match r
    case RsiOversold => 0
    case RsiCheap => 1
    case GoldenCross => 2
    case Strengthening => 3
    case VolumeSpike => 4
    case Uptrend => 5
  }

  function Points(r: Rule): int
  {
    match r
    case RsiOversold => 3
    case RsiCheap => 1
    case GoldenCross => 4
    case Strengthening => 1
    case VolumeSpike => 2
    case Uptrend => 1
  }

  /** The reason tag a rule appends; strengthening appends none. */
  function Tag(r: Rule): Option<string>
  {
    match r
    case RsiOversold => Some("RSI Oversold (<30)")
    case RsiCheap => Some("RSI Murah (<40)")
    case GoldenCross => Some("MACD Golden Cross")
    case Strengthening => None
    case VolumeSpike => Some("Volume Spike (>1.5x Avg)")
    case Uptrend => Some("Uptrend (Above MA200)")
  }

  /** Python's `x < c` where x may be NaN. */
  predicate Below(x: Option<real>, c: real)
  {
    x.Some? && x.value < c
  }

  /** Python's `x > c` where x may be NaN. */
  predicate Above(x: Option<real>, c: real)
  {
    x.Some? && x.value > c
  }

  /** Python's `x >= c` where x may be NaN. */
  predicate NotBelow(x: Option<real>, c: real)
  {
    x.Some? && x.value >= c
  }

  /** Python's `x > y` where either may be NaN. */
  predicate Exceeds(x: Option<real>, y: Option<real>)
  {
    x.Some? && y.Some? && x.value > y.value
  }

  /** The liquidity veto: a close under 50 or a volume under 1000 lots
      rejects the ticker before any rule is looked at. */
  predicate Illiquid(curr: Row)
  {
    curr.bar.close < MinPrice || curr.bar.volume < MinVolume
  }

  /** When each rule fires, read off the rule table on its own: the elif
      branches become explicit exclusions. */
  predicate Fires(r: Rule, curr: Row, prev: Row)
  {
    match r
    case RsiOversold => Below(curr.rsi, OversoldLevel)
    case RsiCheap => curr.rsi.Some? && OversoldLevel <= curr.rsi.value < CheapLevel
    case GoldenCross => curr.hist.Some? && prev.hist.Some? && prev.hist.value < 0.0 < curr.hist.value
    case Strengthening =>
      && curr.hist.Some? && prev.hist.Some?
      && curr.hist.value > prev.hist.value && curr.hist.value > StrengthFloor
      && !(prev.hist.value < 0.0 < curr.hist.value)
    case VolumeSpike => curr.volMa5.Some? && curr.bar.volume > curr.volMa5.value * SpikeFactor
    case Uptrend => curr.sma200.Some? && curr.bar.close > curr.sma200.value
  }

  function Keep(r: Rule, curr: Row, prev: Row): seq<Rule>
  {
    if Fires(r, curr, prev) then [r] else []
  }

  /** The rules that fire on (curr, prev), in evaluation order. */
  function Fired(curr: Row, prev: Row): seq<Rule>
  {
    Keep(RsiOversold, curr, prev) + Keep(RsiCheap, curr, prev)
    + Keep(GoldenCross, curr, prev) + Keep(Strengthening, curr, prev)
    + Keep(VolumeSpike, curr, prev) + Keep(Uptrend, curr, prev)
  }

  function TotalPoints(rs: seq<Rule>): int
  {
    if rs == [] then 0 else TotalPoints(rs[..|rs| - 1]) + Points(rs[|rs| - 1])
  }

  function Tags(rs: seq<Rule>): seq<string>
  {
    if rs == [] then []
    else
      var last := rs[|rs| - 1];
      Tags(rs[..|rs| - 1]) + (if Tag(last).Some? then [Tag(last).value] else [])
  }

  /** The points of one rule on (curr, prev): its weight if it fires, else 0. */
  function Award(r: Rule, curr: Row, prev: Row): int
  {
    if Fires(r, curr, prev) then Points(r) else 0
  }

  /** The score is the sum of the weights of the rules that fired. */
  lemma ScoreIsSumOfFiredRules(curr: Row, prev: Row)
    ensures TotalPoints(Fired(curr, prev)) ==
      Award(RsiOversold, curr, prev) + Award(RsiCheap, curr, prev)
      + Award(GoldenCross, curr, prev) + Award(Strengthening, curr, prev)
      + Award(VolumeSpike, curr, prev) + Award(Uptrend, curr, prev)
  {
    var k0 := Keep(RsiOversold, curr, prev);
    var k1 := k0 + Keep(RsiCheap, curr, prev);
    var k2 := k1 + Keep(GoldenCross, curr, prev);
    var k3 := k2 + Keep(Strengthening, curr, prev);
    var k4 := k3 + Keep(VolumeSpike, curr, prev);
    AddKeep([], RsiOversold, curr, prev);
    assert [] + k0 == k0;
    AddKeep(k0, RsiCheap, curr, prev);
    AddKeep(k1, GoldenCross, curr, prev);
    AddKeep(k2, Strengthening, curr, prev);
    AddKeep(k3, VolumeSpike, curr, prev);
    AddKeep(k4, Uptrend, curr, prev);
  }

  /** Keeping one more rule adds its award to the total. */
  lemma AddKeep(done: seq<Rule>, r: Rule, curr: Row, prev: Row)
    ensures TotalPoints(done + Keep(r, curr, prev)) == TotalPoints(done) + Award(r, curr, prev)
  {
    if Fires(r, curr, prev) {
      assert (done + [r])[..|done|] == done;
    } else {
      assert done + [] == done;
    }
  }

  /** At most one RSI rule and at most one MACD rule fires, the golden cross
      needs a strict sign change of the histogram, so the score lies in
      [0, 10]. */
  lemma ScoreRange(curr: Row, prev: Row)
    ensures !(Fires(RsiOversold, curr, prev) && Fires(RsiCheap, curr, prev))
    ensures !(Fires(GoldenCross, curr, prev) && Fires(Strengthening, curr, prev))
    ensures Fires(GoldenCross, curr, prev) <==>
      curr.hist.Some? && prev.hist.Some? && prev.hist.value < 0.0 && curr.hist.value > 0.0
    ensures 0 <= TotalPoints(Fired(curr, prev)) <= 10
  {
    ScoreIsSumOfFiredRules(curr, prev);
  }

  /** The rules in `Fired` appear in evaluation order, each at most once. */
  lemma FiredInRuleOrder(curr: Row, prev: Row)
    ensures StrictlyRanked(Fired(curr, prev))
  {
    var k0 := Keep(RsiOversold, curr, prev);
    ExtendRanked(k0, RsiCheap, curr, prev);
    var k1 := k0 + Keep(RsiCheap, curr, prev);
    ExtendRanked(k1, GoldenCross, curr, prev);
    var k2 := k1 + Keep(GoldenCross, curr, prev);
    ExtendRanked(k2, Strengthening, curr, prev);
    var k3 := k2 + Keep(Strengthening, curr, prev);
    ExtendRanked(k3, VolumeSpike, curr, prev);
    var k4 := k3 + Keep(VolumeSpike, curr, prev);
    ExtendRanked(k4, Uptrend, curr, prev);
  }

  predicate StrictlyRanked(rs: seq<Rule>)
  {
    forall i, j :: 0 <= i < j < |rs| ==> Rank(rs[i]) < Rank(rs[j])
  }

  lemma ExtendRanked(done: seq<Rule>, r: Rule, curr: Row, prev: Row)
    requires StrictlyRanked(done)
    requires forall i :: 0 <= i < |done| ==> Rank(done[i]) < Rank(r)
    ensures StrictlyRanked(done + Keep(r, curr, prev))
    ensures forall i :: 0 <= i < |done + Keep(r, curr, prev)| ==> Rank((done + Keep(r, curr, prev))[i]) <= Rank(r)
  {
  }

  /** Strengthening adds a point but no tag, so at most four tags are
      recorded, in the order the rules are evaluated. */
  lemma AtMostFourTags(curr: Row, prev: Row)
    ensures |Tags(Fired(curr, prev))| <= 4
  {
    TagsOfFiredRules(curr, prev);
    var rsi := TagIf(RsiOversold, curr, prev) + TagIf(RsiCheap, curr, prev);
    var macd := TagIf(GoldenCross, curr, prev) + TagIf(Strengthening, curr, prev);
    assert |rsi| <= 1 && |macd| <= 1;
    assert |TagIf(VolumeSpike, curr, prev)| <= 1 && |TagIf(Uptrend, curr, prev)| <= 1;
  }

  /** An undefined value switches off exactly the rules that read it and
      leaves every other rule and the veto as they were. */
  lemma UndefinedDisablesOnlyItsRules(curr: Row, prev: Row)
    ensures forall r :: Fires(r, curr.(rsi := None), prev) <==>
      Fires(r, curr, prev) && r != RsiOversold && r != RsiCheap
    ensures forall r :: Fires(r, curr.(hist := None), prev) <==>
      Fires(r, curr, prev) && r != GoldenCross && r != Strengthening
    ensures forall r :: Fires(r, curr, prev.(hist := None)) <==>
      Fires(r, curr, prev) && r != GoldenCross && r != Strengthening
    ensures forall r :: Fires(r, curr.(volMa5 := None), prev) <==>
      Fires(r, curr, prev) && r != VolumeSpike
    ensures forall r :: Fires(r, curr.(sma200 := None), prev) <==>
      Fires(r, curr, prev) && r != Uptrend
    ensures Illiquid(curr.(rsi := None, hist := None, volMa5 := None, sma200 := None)) == Illiquid(curr)
  {
  }

  /** The reason text: tags joined with a separator. */
  function Join(parts: seq<string>, sep: string): (s: string)
    ensures parts == [] ==> s == ""
    ensures |parts| == 1 ==> s == parts[0]
  {
    if parts == [] then ""
    else if |parts| == 1 then parts[0]
    else Join(parts[..|parts| - 1], sep) + sep + parts[|parts| - 1]
  }

  /** The outcome of the scoring block for one ticker whose frame ends with
      (prev, curr): nothing if vetoed or under the pass mark, otherwise a
      candidate. Every candidate is liquid and scores between 4 and 10. */
  function Verdict(symbol: string, curr: Row, prev: Row): (c: Option<Candidate>)
    ensures c.Some? ==> c.value.symbol == symbol && c.value.price == curr.bar.close
    ensures c.Some? ==> c.value.price >= MinPrice && c.value.volume >= MinVolume
    ensures c.Some? ==> PassScore <= c.value.score <= 10
    ensures c.None? <==> Illiquid(curr) || TotalPoints(Fired(curr, prev)) < PassScore
  {
    if Illiquid(curr) then None
    else
      var fired := Fired(curr, prev);
      var score := TotalPoints(fired);
      ScoreRange(curr, prev);
      if score >= PassScore then
        Some(Candidate(symbol, curr.bar.close, curr.rsi, curr.bar.volume, score, Join(Tags(fired), ", ")))
      else None
  }

  /** The scoring block as the code runs it: a running score and a list of
      reasons, updated rule by rule through if/elif chains. The score is the
      weight of every rule of the table that fires, and the reasons are the
      tags of those rules, in table order. */
  method ScoreRules(curr: Row, prev: Row) returns (score: int, reasons: seq<string>)
    ensures score ==
      Award(RsiOversold, curr, prev) + Award(RsiCheap, curr, prev)
      + Award(GoldenCross, curr, prev) + Award(Strengthening, curr, prev)
      + Award(VolumeSpike, curr, prev) + Award(Uptrend, curr, prev)
    ensures reasons ==
      TagIf(RsiOversold, curr, prev) + TagIf(RsiCheap, curr, prev)
      + TagIf(GoldenCross, curr, prev) + TagIf(Strengthening, curr, prev)
      + TagIf(VolumeSpike, curr, prev) + TagIf(Uptrend, curr, prev)
  {
    score := 0;
    reasons := [];

    if Below(curr.rsi, OversoldLevel) {
      score := score + 3;
      reasons := reasons + ["RSI Oversold (<30)"];
    } else if NotBelow(curr.rsi, OversoldLevel) && Below(curr.rsi, CheapLevel) {
      score := score + 1;
      reasons := reasons + ["RSI Murah (<40)"];
    }
    ghost var rsiTags := TagIf(RsiOversold, curr, prev) + TagIf(RsiCheap, curr, prev);
    assert score == Award(RsiOversold, curr, prev) + Award(RsiCheap, curr, prev) && reasons == rsiTags;

    if Above(curr.hist, 0.0) && Below(prev.hist, 0.0) {
      score := score + 4;
      reasons := reasons + ["MACD Golden Cross"];
    } else if Exceeds(curr.hist, prev.hist) && Above(curr.hist, StrengthFloor) {
      score := score + 1;
    }
    ghost var macdTags := rsiTags + TagIf(GoldenCross, curr, prev) + TagIf(Strengthening, curr, prev);
    assert reasons == macdTags;

    if curr.volMa5.Some? && curr.bar.volume > curr.volMa5.value * SpikeFactor {
      score := score + 2;
      reasons := reasons + ["Volume Spike (>1.5x Avg)"];
    }

    // SMA_200 is checked with pd.notna before the comparison
    if curr.sma200.Some? && curr.bar.close > curr.sma200.value {
      score := score + 1;
      reasons := reasons + ["Uptrend (Above MA200)"];
    }
  }

  /** The tag one rule contributes on (curr, prev). */
  function TagIf(r: Rule, curr: Row, prev: Row): seq<string>
  {
    if Fires(r, curr, prev) && Tag(r).Some? then [Tag(r).value] else []
  }

  /** The reasons are the tags of the fired rules, rule by rule. */
  lemma TagsOfFiredRules(curr: Row, prev: Row)
    ensures Tags(Fired(curr, prev)) ==
      TagIf(RsiOversold, curr, prev) + TagIf(RsiCheap, curr, prev)
      + TagIf(GoldenCross, curr, prev) + TagIf(Strengthening, curr, prev)
      + TagIf(VolumeSpike, curr, prev) + TagIf(Uptrend, curr, prev)
  {
    var k0 := Keep(RsiOversold, curr, prev);
    var k1 := k0 + Keep(RsiCheap, curr, prev);
    var k2 := k1 + Keep(GoldenCross, curr, prev);
    var k3 := k2 + Keep(Strengthening, curr, prev);
    var k4 := k3 + Keep(VolumeSpike, curr, prev);
    var t0, t1, t2 := TagIf(RsiOversold, curr, prev), TagIf(RsiCheap, curr, prev), TagIf(GoldenCross, curr, prev);
    var t3, t4, t5 := TagIf(Strengthening, curr, prev), TagIf(VolumeSpike, curr, prev), TagIf(Uptrend, curr, prev);
    AddTag([], RsiOversold, curr, prev);
    assert [] + k0 == k0;
    assert Tags(k0) == t0;
    AddTag(k0, RsiCheap, curr, prev);
    assert Tags(k1) == t0 + t1;
    AddTag(k1, GoldenCross, curr, prev);
    assert Tags(k2) == t0 + t1 + t2;
    AddTag(k2, Strengthening, curr, prev);
    assert Tags(k3) == t0 + t1 + t2 + t3;
    AddTag(k3, VolumeSpike, curr, prev);
    assert Tags(k4) == t0 + t1 + t2 + t3 + t4;
    AddTag(k4, Uptrend, curr, prev);
    assert Fired(curr, prev) == k4 + Keep(Uptrend, curr, prev);
  }

  /** Keeping one more rule appends its tag, if it has one. */
  lemma AddTag(done: seq<Rule>, r: Rule, curr: Row, prev: Row)
    ensures Tags(done + Keep(r, curr, prev)) == Tags(done) + TagIf(r, curr, prev)
  {
    if Fires(r, curr, prev) {
      assert (done + [r])[..|done|] == done;
    } else {
      assert done + [] == done;
    }
  }


  /** The setup the screener is built to find: a liquid ticker that is
      oversold, whose histogram has just crossed above zero and whose volume
      spikes is always kept, with a score of at least 9 and the three tags in
      rule order. */
  lemma OversoldCrossWithSpikeKept(symbol: string, curr: Row, prev: Row)
    requires !Illiquid(curr)
    requires Below(curr.rsi, OversoldLevel)
    requires curr.hist.Some? && prev.hist.Some? && prev.hist.value < 0.0 < curr.hist.value
    requires curr.volMa5.Some? && curr.bar.volume > curr.volMa5.value * SpikeFactor
    ensures Verdict(symbol, curr, prev).Some?
    ensures Verdict(symbol, curr, prev).value.score >= 9
    ensures Tags(Fired(curr, prev))
         == ["RSI Oversold (<30)", "MACD Golden Cross", "Volume Spike (>1.5x Avg)"] + TagIf(Uptrend, curr, prev)
  {
    ScoreIsSumOfFiredRules(curr, prev);
    TagsOfFiredRules(curr, prev);
  }
}
