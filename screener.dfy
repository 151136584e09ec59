/** The screening loops of bot_saham.py: `process_batch`, which scores every
    ticker of one downloaded batch, and `main`, which normalises the
    universe, walks it in batches of 50, and ranks what comes back.
    The download is a parameter: for a batch of symbols it yields either a
    frame per symbol it found, or `None` when the whole download raised. */
module Screener {
  import opened Wrappers
  import opened Indicators
  import opened Scoring
  import opened Tickers
  import opened Ranking

  /** Tickers with fewer daily bars than this are skipped. */
  const MinHistory: nat := 60

  type Download = map<string, seq<Bar>>

  /** What every emitted candidate satisfies. */
  predicate Qualifies(c: Candidate)
  {
    c.price >= MinPrice && c.volume >= MinVolume && PassScore <= c.score <= 10
  }

  /** The outcome for one ticker: skipped for short history, otherwise the
      verdict of the scoring block on the last two rows of its frame. */
  function ScreenTicker(symbol: string, bars: seq<Bar>): (c: Option<Candidate>)
    ensures c.Some? ==> Qualifies(c.value) && c.value.symbol == symbol
    ensures c.Some? ==> |bars| >= MinHistory && c.value.price == bars[|bars| - 1].close
  {
    if |bars| < MinHistory then None
    else
      match CalculateTechnical(bars)
      case None => None
      case Some(frame) => Verdict(symbol, frame[|frame| - 1], frame[|frame| - 2])
  }

  /** The candidates a ticker adds to the batch list (none if the download
      has no frame for it: the KeyError branch). */
  function Emit(ticker: string, data: Download): seq<Candidate>
  {
    if ticker !in data then []
    else match ScreenTicker(ticker, data[ticker])
      case None => []
      case Some(c) => [c]
  }

  /** The candidate list after the loop has seen `tickers`. */
  function Collect(tickers: seq<string>, data: Download): seq<Candidate>
  {
    if tickers == [] then []
    else Collect(tickers[..|tickers| - 1], data) + Emit(tickers[|tickers| - 1], data)
  }

  /** Everything Collect gathers qualifies and belongs to one of the tickers. */
  lemma {:induction false} CollectQualifies(tickers: seq<string>, data: Download)
    ensures forall c :: c in Collect(tickers, data) ==> Qualifies(c) && c.symbol in tickers
  {
    if tickers != [] {
      var init := tickers[..|tickers| - 1];
      CollectQualifies(init, data);
      assert forall x :: x in init ==> x in tickers;
    }
  }

  /** `process_batch(tickers)` given what the download returned. */
  function BatchOutcome(tickers: seq<string>, fetched: Option<Download>): seq<Candidate>
  {
    if fetched.None? then [] else Collect(tickers, fetched.value)
  }

  /** The body of `process_batch`'s loop for one downloaded frame: skip
      (no candidate) on fewer than 60 rows, on a missing indicator frame, or
      on the liquidity veto; otherwise score the last two rows and keep the
      ticker when its score reaches 4. */
  method ScoreTicker(ticker: string, df: seq<Bar>) returns (c: Option<Candidate>)
    ensures c == ScreenTicker(ticker, df)
  {
    if |df| < MinHistory {
      return None;
    }
    var frame := CalculateTechnical(df);
    LastRowsVerdict(ticker, df);
    c := ScoreLastRows(ticker, frame.value[|df| - 1], frame.value[|df| - 2]);
  }

  /** Once the history is long enough the frame exists, and the ticker's
      outcome is the verdict on its last two rows. */
  lemma LastRowsVerdict(ticker: string, df: seq<Bar>)
    requires |df| >= MinHistory
    ensures CalculateTechnical(df).Some? && |CalculateTechnical(df).value| == |df|
    ensures ScreenTicker(ticker, df)
         == Verdict(ticker, CalculateTechnical(df).value[|df| - 1], CalculateTechnical(df).value[|df| - 2])
  {
  }

  /** The scoring block on the last two rows of a frame: the liquidity veto,
      then the rule table, then the pass mark. */
  method ScoreLastRows(ticker: string, curr: Row, prev: Row) returns (c: Option<Candidate>)
    ensures c == Verdict(ticker, curr, prev)
  {
    if Illiquid(curr) {
      return None;
    }
    var score, reasons := ScoreRules(curr, prev);
    ScoreIsSumOfFiredRules(curr, prev);
    TagsOfFiredRules(curr, prev);
    assert score == TotalPoints(Fired(curr, prev));
    assert reasons == Tags(Fired(curr, prev));
    if score >= PassScore {
      c := Some(Candidate(ticker, curr.bar.close, curr.rsi, curr.bar.volume, score, Join(reasons, ", ")));
    } else {
      c := None;
    }
  }

  /** The loop of `process_batch`: a ticker the download has no frame for is
      skipped; every other one goes through ScoreTicker and, if it yields a
      candidate, is appended. Nothing is kept when the download raised. */
  method ProcessBatch(tickers: seq<string>, fetched: Option<Download>) returns (candidates: seq<Candidate>)
    ensures candidates == BatchOutcome(tickers, fetched)
    ensures forall c :: c in candidates ==> Qualifies(c) && c.symbol in tickers
  {
    candidates := [];
    if fetched.None? {
      return;
    }
    var data := fetched.value;
    for i := 0 to |tickers|
      invariant candidates == Collect(tickers[..i], data)
    {
      assert tickers[..i + 1][..i] == tickers[..i];
      var ticker := tickers[i];
      if ticker !in data {
        continue;
      }
      var c := ScoreTicker(ticker, data[ticker]);
      if c.Some? {
        candidates := candidates + [c.value];
      }
    }
    assert tickers[..|tickers|] == tickers;
    CollectQualifies(tickers, data);
  }

  /** `process_batch` as a function of the batch, for a given download. */
  function ScreenWith(download: seq<string> -> Option<Download>): seq<string> -> seq<Candidate>
  {
    batch => BatchOutcome(batch, download(batch))
  }

  /** `main`'s batch loop, batch by batch: the candidates of every batch,
      in batch order. */
  function RunBatches(batches: seq<seq<string>>, screen: seq<string> -> seq<Candidate>): seq<Candidate>
  {
    if batches == [] then []
    else screen(batches[0]) + RunBatches(batches[1..], screen)
  }

  /** `main`: normalise the symbols, drop duplicates, screen them in batches
      of 50, sort all candidates by descending score and keep the top 15.
      Every returned symbol carries the exchange suffix and appears once; the
      picks are the first entries of the stable descending sort of every
      candidate the batches produced. */
  method RunScreener(symbols: seq<string>, download: seq<string> -> Option<Download>)
    returns (unique: seq<string>, topPicks: seq<Candidate>)
    ensures forall x :: x in unique <==> x in NormalizeAll(symbols)
    ensures NoDuplicates(unique)
    ensures forall i :: 0 <= i < |unique| ==> EndsWith(unique[i], Suffix)
    ensures topPicks == TopPicks(RunBatches(Batches(unique), ScreenWith(download)))
    ensures |topPicks| <= TopN && Descending(topPicks)
    ensures AllQualify(topPicks, unique)
  {
    unique := Dedupe(NormalizeAll(symbols));
    UniverseSuffixed(symbols);
    var n := |unique|;
    var finalCandidates: seq<Candidate> := [];
    var i := 0;
    while i < n
      invariant 0 <= i
      invariant finalCandidates + RunBatches(Batches(unique[Min(i, n)..]), ScreenWith(download))
             == RunBatches(Batches(unique), ScreenWith(download))
      invariant AllQualify(finalCandidates, unique)
      decreases n - i
    {
      var end := Min(i + BatchSize, n);
      var batch := unique[i..end];
      var candidates := ProcessBatch(batch, download(batch));
      NextBatch(unique, i, ScreenWith(download));
      assert Min(i, n) == i;
      BatchStep(finalCandidates, candidates,
        RunBatches(Batches(unique[end..]), ScreenWith(download)), RunBatches(Batches(unique), ScreenWith(download)));
      AppendQualifies(finalCandidates, candidates, unique, i, end);
      finalCandidates := finalCandidates + candidates;
      i := i + BatchSize;
      assert Min(i, n) == end;
    }
    NoBatchesLeft(unique, i, ScreenWith(download), finalCandidates);
    topPicks := TopPicks(finalCandidates);
    TopPicksQualify(finalCandidates, unique);
  }

  /** Every symbol of the deduplicated universe carries the suffix. */
  lemma UniverseSuffixed(symbols: seq<string>)
    ensures forall i :: 0 <= i < |Dedupe(NormalizeAll(symbols))| ==>
      EndsWith(Dedupe(NormalizeAll(symbols))[i], Suffix)
  {
    var all := NormalizeAll(symbols);
    var unique := Dedupe(all);
    forall j | 0 <= j < |unique| ensures EndsWith(unique[j], Suffix) {
      assert unique[j] in all;
    }
  }

  /** One turn of `main`'s loop: the batch's candidates move from the
      outcome of the remaining batches to the accumulated list. */
  lemma BatchStep(acc: seq<Candidate>, cs: seq<Candidate>, rest: seq<Candidate>, total: seq<Candidate>)
    requires acc + (cs + rest) == total
    ensures (acc + cs) + rest == total
  {
    assert (acc + cs) + rest == acc + (cs + rest);
  }

  /** When the loop ends, the accumulated list is the whole batch outcome. */
  lemma NoBatchesLeft(unique: seq<string>, i: nat, screen: seq<string> -> seq<Candidate>, acc: seq<Candidate>)
    requires i >= |unique|
    requires acc + RunBatches(Batches(unique[Min(i, |unique|)..]), screen)
          == RunBatches(Batches(unique), screen)
    ensures acc == RunBatches(Batches(unique), screen)
  {
    assert unique[Min(i, |unique|)..] == [];
    assert Batches(unique[Min(i, |unique|)..]) == [];
    assert RunBatches([], screen) == [];
    assert acc + [] == acc;
  }

  /** Every candidate qualifies and names one of the symbols. */
  predicate AllQualify(cs: seq<Candidate>, symbols: seq<string>)
  {
    forall c :: c in cs ==> Qualifies(c) && c.symbol in symbols
  }

  /** Appending the candidates of the batch symbols[lo..hi] keeps every
      entry qualified. */
  lemma AppendQualifies(acc: seq<Candidate>, cs: seq<Candidate>, symbols: seq<string>, lo: nat, hi: nat)
    requires lo <= hi <= |symbols|
    requires AllQualify(acc, symbols)
    requires forall c :: c in cs ==> Qualifies(c) && c.symbol in symbols[lo..hi]
    ensures AllQualify(acc + cs, symbols)
  {
    forall c | c in cs ensures c.symbol in symbols {
      var k :| 0 <= k < hi - lo && symbols[lo..hi][k] == c.symbol;
      assert symbols[lo + k] == c.symbol;
    }
  }

  /** The top picks are drawn from the candidates, so they qualify too. */
  lemma TopPicksQualify(cs: seq<Candidate>, symbols: seq<string>)
    requires AllQualify(cs, symbols)
    ensures AllQualify(TopPicks(cs), symbols)
  {
    var top := TopPicks(cs);
    forall c | c in top ensures Qualifies(c) && c.symbol in symbols {
      assert c in multiset(top);
    }
  }

  /** One turn of `main`'s loop: the batch at offset i is the first of the
      batches of what remains. */
  lemma NextBatch(xs: seq<string>, i: nat, screen: seq<string> -> seq<Candidate>)
    requires i < |xs|
    ensures RunBatches(Batches(xs[i..]), screen) ==
      screen(xs[i..Min(i + BatchSize, |xs|)])
      + RunBatches(Batches(xs[Min(i + BatchSize, |xs|)..]), screen)
  {
    var rest := xs[i..];
    var k := Min(BatchSize, |rest|);
    assert rest[..k] == xs[i..Min(i + BatchSize, |xs|)];
    assert rest[k..] == xs[Min(i + BatchSize, |xs|)..];
    assert Batches(rest) == [rest[..k]] + Batches(rest[k..]);
  }

  /** A ticker whose history is completely flat (same close and same volume
      on every bar) never becomes a candidate: its RSI is undefined, its
      MACD histogram is 0 on both rows, its volume equals its own average
      and its close equals its own SMA_200, so no rule fires. */
  lemma FlatHistoryRejected(symbol: string, bars: seq<Bar>, price: real, volume: real)
    requires |bars| >= MinHistory
    requires forall t :: 0 <= t < |bars| ==> bars[t].close == price && bars[t].volume == volume
    ensures ScreenTicker(symbol, bars).None?
  {
    var frame := CalculateTechnical(bars).value;
    var curr, prev := frame[|bars| - 1], frame[|bars| - 2];
    FlatLastRows(bars, price, volume);
    if !Illiquid(curr) {
      QuietRowsScoreNothing(curr, prev);
    }
  }

  /** The last two rows of a flat history's frame: undefined RSI, zero
      histogram, volume equal to its 5-day mean, close equal to SMA_200 when
      that is defined. */
  lemma FlatLastRows(bars: seq<Bar>, price: real, volume: real)
    requires |bars| >= MinHistory
    requires forall t :: 0 <= t < |bars| ==> bars[t].close == price && bars[t].volume == volume
    ensures CalculateTechnical(bars).Some?
    ensures |CalculateTechnical(bars).value| == |bars|
    ensures var curr := CalculateTechnical(bars).value[|bars| - 1];
      curr.rsi.None? && curr.hist == Some(0.0) && curr.volMa5 == Some(curr.bar.volume)
      && (curr.sma200.None? || curr.sma200 == Some(curr.bar.close))
    ensures CalculateTechnical(bars).value[|bars| - 2].hist == Some(0.0)
  {
    var n := |bars|;
    var closes := Closes(bars);
    TechnicalRow(bars, n - 1);
    TechnicalRow(bars, n - 2);
    RsiUndefinedIffFlat(closes, n - 1);
    FlatMacd(closes, price);
    RollingMeanWindow(Volumes(bars), VolumeWindow, n - 1, volume, volume);
    RollingMeanWindow(closes, LongWindow, n - 1, price, price);
  }

  /** Liquid rows with an undefined RSI, a zero histogram on both days, a
      volume equal to its 5-day mean and a close equal to its SMA_200 (or no
      SMA_200 yet) fire no rule of the table. */
  lemma QuietRowsScoreNothing(curr: Row, prev: Row)
    requires curr.bar.volume >= 0.0
    requires curr.rsi.None?
    requires curr.hist == Some(0.0) && prev.hist == Some(0.0)
    requires curr.volMa5 == Some(curr.bar.volume)
    requires curr.sma200.None? || curr.sma200 == Some(curr.bar.close)
    ensures TotalPoints(Fired(curr, prev)) == 0
  {
    ScoreIsSumOfFiredRules(curr, prev);
  }
}
