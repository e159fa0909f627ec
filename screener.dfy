/**
 The screener's batch run: parse the manifest into ticker symbols, then check
 each ticker's series in turn and collect, in input order, the tickers that
 pass. Every iteration downloads afresh, so the model takes one downloaded
 series per position of the ticker list (an empty series when nothing came
 back); a ticker listed twice may get two different series.
 */
module Screener {
  import StockCheck
  import TickerManifest

  /** The tickers whose own download passes the check, in the order given;
      `downloads[i]` is the series fetched for `tickers[i]`. */
  function Passing(tickers: seq<string>, downloads: seq<StockCheck.Series>): (r: seq<string>)
    requires |downloads| == |tickers|
    ensures |r| <= |tickers|
    ensures forall k | 0 <= k < |r| :: r[k] in tickers
  {
    if tickers == [] then []
    else
      var n := |tickers| - 1;
      Passing(tickers[..n], downloads[..n])
        + (if StockCheck.Check(downloads[n]) then [tickers[n]] else [])
  }

  /** The loop that builds `found_stocks`. */
  method FindStocks(tickers: seq<string>, downloads: seq<StockCheck.Series>)
    returns (found: seq<string>)
    requires |downloads| == |tickers|
    ensures found == Passing(tickers, downloads)
  {
    found := [];
    for i := 0 to |tickers|
      invariant found == Passing(tickers[..i], downloads[..i])
    {
      var ticker := tickers[i];
      if StockCheck.Check(downloads[i]) {
        found := found + [ticker];
      }
      assert tickers[..i + 1][..i] == tickers[..i];
      assert downloads[..i + 1][..i] == downloads[..i];
    }
    assert tickers[..|tickers|] == tickers;
    assert downloads[..|downloads|] == downloads;
  }

  /** The body of the run: the manifest content and one download per parsed
      ticker in, `found_stocks` out. */
  method Run(content: string, downloads: seq<StockCheck.Series>) returns (found: seq<string>)
    requires |downloads| == |TickerManifest.ParseTickers(content)|
    ensures found == Passing(TickerManifest.ParseTickers(content), downloads)
  {
    var cleanedTickers := TickerManifest.ParseTickers(content);
    found := FindStocks(cleanedTickers, downloads);
  }

  /** Every reported ticker is listed at a position whose download passes. */
  lemma {:induction false} PassingSound(tickers: seq<string>, downloads: seq<StockCheck.Series>, x: string)
    requires |downloads| == |tickers|
    requires x in Passing(tickers, downloads)
    ensures exists i | 0 <= i < |tickers| :: tickers[i] == x && StockCheck.Check(downloads[i])
  {
    var n := |tickers| - 1;
    var init, early := tickers[..n], downloads[..n];
    var tail := if StockCheck.Check(downloads[n]) then [tickers[n]] else [];
    assert Passing(tickers, downloads) == Passing(init, early) + tail;
    if x in Passing(init, early) {
      PassingSound(init, early, x);
      var i :| 0 <= i < n && init[i] == x && StockCheck.Check(early[i]);
      assert tickers[i] == x && StockCheck.Check(downloads[i]);
    } else {
      assert tickers[n] == x && StockCheck.Check(downloads[n]);
    }
  }

  /** Every ticker listed at a position whose download passes is reported. */
  lemma {:induction false} PassingComplete(tickers: seq<string>, downloads: seq<StockCheck.Series>, i: nat)
    requires |downloads| == |tickers|
    requires i < |tickers| && StockCheck.Check(downloads[i])
    ensures tickers[i] in Passing(tickers, downloads)
  {
    var n := |tickers| - 1;
    var init, early := tickers[..n], downloads[..n];
    var tail := if StockCheck.Check(downloads[n]) then [tickers[n]] else [];
    assert Passing(tickers, downloads) == Passing(init, early) + tail;
    if i < n {
      assert init[i] == tickers[i] && early[i] == downloads[i];
      PassingComplete(init, early, i);
    }
  }

  /** The last position adds its ticker once when its download passes. */
  lemma PassingCountStep(tickers: seq<string>, downloads: seq<StockCheck.Series>, x: string)
    requires |downloads| == |tickers| > 0
    ensures var n := |tickers| - 1;
      && multiset(tickers)[x] == multiset(tickers[..n])[x] + (if tickers[n] == x then 1 else 0)
      && multiset(Passing(tickers, downloads))[x] ==
           multiset(Passing(tickers[..n], downloads[..n]))[x]
           + (if tickers[n] == x && StockCheck.Check(downloads[n]) then 1 else 0)
  {
    var n := |tickers| - 1;
    assert tickers == tickers[..n] + [tickers[n]];
  }

  /** A ticker is reported at most as often as it is listed. */
  lemma {:induction false} PassingCountBound(tickers: seq<string>, downloads: seq<StockCheck.Series>, x: string)
    requires |downloads| == |tickers|
    ensures multiset(Passing(tickers, downloads))[x] <= multiset(tickers)[x]
  {
    if tickers != [] {
      var n := |tickers| - 1;
      PassingCountBound(tickers[..n], downloads[..n], x);
      PassingCountStep(tickers, downloads, x);
    }
  }

  /** A ticker every download of which passes is reported as often as it is listed. */
  lemma {:induction false} PassingCountAllPass(tickers: seq<string>, downloads: seq<StockCheck.Series>, x: string)
    requires |downloads| == |tickers|
    requires forall i | 0 <= i < |tickers| && tickers[i] == x :: StockCheck.Check(downloads[i])
    ensures multiset(Passing(tickers, downloads))[x] == multiset(tickers)[x]
  {
    if tickers != [] {
      var n := |tickers| - 1;
      assert forall i | 0 <= i < n :: tickers[..n][i] == tickers[i] && downloads[..n][i] == downloads[i];
      PassingCountAllPass(tickers[..n], downloads[..n], x);
      PassingCountStep(tickers, downloads, x);
    }
  }

  /** A ticker none of whose downloads passes is never reported. */
  lemma {:induction false} PassingCountNonePass(tickers: seq<string>, downloads: seq<StockCheck.Series>, x: string)
    requires |downloads| == |tickers|
    requires forall i | 0 <= i < |tickers| && tickers[i] == x :: !StockCheck.Check(downloads[i])
    ensures multiset(Passing(tickers, downloads))[x] == 0
  {
    if tickers != [] {
      var n := |tickers| - 1;
      assert forall i | 0 <= i < n :: tickers[..n][i] == tickers[i] && downloads[..n][i] == downloads[i];
      PassingCountNonePass(tickers[..n], downloads[..n], x);
      PassingCountStep(tickers, downloads, x);
    }
  }

  /** Appending one ticker and its download appends it to the result when
      the download passes. */
  lemma PassingSnoc(tickers: seq<string>, downloads: seq<StockCheck.Series>, t: string, d: StockCheck.Series)
    requires |downloads| == |tickers|
    ensures Passing(tickers + [t], downloads + [d]) ==
      Passing(tickers, downloads) + (if StockCheck.Check(d) then [t] else [])
  {
    assert (tickers + [t])[..|tickers|] == tickers;
    assert (downloads + [d])[..|downloads|] == downloads;
  }

  /** Filtering a concatenation filters each part: the order of the input is
      kept, and a failing ticker (an empty series, say) does not stop the run. */
  lemma {:induction false} PassingAppend(a: seq<string>, b: seq<string>,
                                         da: seq<StockCheck.Series>, db: seq<StockCheck.Series>)
    requires |da| == |a| && |db| == |b|
    ensures Passing(a + b, da + db) == Passing(a, da) + Passing(b, db)
  {
    if b == [] {
      assert a + b == a && da + db == da;
    } else {
      var n := |b| - 1;
      var bs, ds := b[..n], db[..n];
      assert b == bs + [b[n]] && db == ds + [db[n]];
      assert a + b == (a + bs) + [b[n]] && da + db == (da + ds) + [db[n]];
      PassingAppend(a, bs, da, ds);
      PassingSnoc(a + bs, da + ds, b[n], db[n]);
      PassingSnoc(bs, ds, b[n], db[n]);
    }
  }

  /** The same ticker listed twice is judged on each download separately: a
      second download that comes back empty is not reported. */
  lemma RepeatedTickerJudgedPerDownload(x: string, s: StockCheck.Series)
    ensures Passing([x, x], [s, []]) == if StockCheck.Check(s) then [x] else []
  {
    assert [x, x][..1] == [x] && [s, []][..1] == [s];
    assert [x][..0] == [] && [s][..0] == [];
  }
}
