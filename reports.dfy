/** `save_report`: the report record, the path it is written under, and the
    directory of report files, modelled as a map from path to record that a
    write overwrites. */
module Reports {
  import opened Common
  import opened MarketData

  /** The decision field of every saved report; the extracted decision is not written. */
  const PendingDecision: string := "PENDING_LLM"

  const ResultsRoot: string := "eval_results/"
  const LogsDirectory: string := "/TradingAgentsStrategy_logs/"
  const LogPrefix: string := "full_states_log_"
  const LogSuffix: string := ".json"

  /** The JSON document written for one run. `rawData` is the snapshot
      dictionary; `None` stands for the empty dictionary. */
  datatype Report = Report(
    analysisDate: string,
    ticker: string,
    company: string,
    marketReport: string,
    finalTradeDecision: string,
    rawData: Option<Snapshot>)

  /** `eval_results/{ticker}/TradingAgentsStrategy_logs/full_states_log_{date}.json`. */
  function ReportKey(ticker: string, date: string): (k: string)
    ensures |k| == |ResultsRoot| + |ticker| + |LogsDirectory| + |LogPrefix| + |date| + |LogSuffix|
    ensures k[..|ResultsRoot|] == ResultsRoot
    ensures k[|ResultsRoot|..|ResultsRoot| + |ticker|] == ticker
    ensures k[|ResultsRoot| + |ticker|..|k| - |LogSuffix| - |date|] == LogsDirectory + LogPrefix
    ensures k[|k| - |LogSuffix| - |date|..|k| - |LogSuffix|] == date
    ensures k[|k| - |LogSuffix|..] == LogSuffix
  {
    ResultsRoot + ticker + LogsDirectory + LogPrefix + date + LogSuffix
  }

  ghost predicate NoSlash(s: string)
  {
    forall i :: 0 <= i < |s| ==> s[i] != '/'
  }

  /** Two slash-free names each followed by a part that starts with '/' can
      only make the same string if the names are equal: right after the
      shorter name that string has '/', where a longer name would go on. */
  lemma SlashTerminated(t1: string, r1: string, t2: string, r2: string)
    requires NoSlash(t1) && NoSlash(t2)
    requires |r1| > 0 && r1[0] == '/' && |r2| > 0 && r2[0] == '/'
    requires t1 + r1 == t2 + r2
    ensures t1 == t2
  {
    var s := t1 + r1;
    forall i | 0 <= i < |t1| && i < |t2| ensures t1[i] == t2[i] {
      assert s[i] == t1[i] && (t2 + r2)[i] == t2[i];
    }
    var m := Min(|t1|, |t2|);
    assert s[m] == (t1 + [r1[0]])[m];
    assert (t2 + r2)[m] == (t2 + [r2[0]])[m];
  }

  /** The key regrouped as the root, then the ticker followed by the rest. */
  lemma {:induction false} Regroup(a: string, b: string, c: string, d: string, e: string, f: string)
    ensures a + b + c + d + e + f == a + (b + (c + d + e + f))
  {
  }

  lemma CancelPrefix(a: string, x: string, y: string)
    requires a + x == a + y
    ensures x == y
  {
    assert x == (a + x)[|a|..];
    assert y == (a + y)[|a|..];
  }

  lemma KeyDeterminesTicker(t1: string, d1: string, t2: string, d2: string)
    requires NoSlash(t1) && NoSlash(t2)
    requires ReportKey(t1, d1) == ReportKey(t2, d2)
    ensures t1 == t2
  {
    var r1 := LogsDirectory + LogPrefix + d1 + LogSuffix;
    var r2 := LogsDirectory + LogPrefix + d2 + LogSuffix;
    Regroup(ResultsRoot, t1, LogsDirectory, LogPrefix, d1, LogSuffix);
    Regroup(ResultsRoot, t2, LogsDirectory, LogPrefix, d2, LogSuffix);
    CancelPrefix(ResultsRoot, t1 + r1, t2 + r2);
    assert r1[0] == LogsDirectory[0] && r2[0] == LogsDirectory[0];
    SlashTerminated(t1, r1, t2, r2);
  }

  /** Distinct (ticker, date) pairs never give the same path string, as long
      as the tickers contain no '/'. (Different strings can still name the
      same file once a path library collapses "//" or "/./"; that is not
      modelled.) */
  lemma ReportKeyInjective(t1: string, d1: string, t2: string, d2: string)
    requires NoSlash(t1) && NoSlash(t2)
    requires ReportKey(t1, d1) == ReportKey(t2, d2)
    ensures t1 == t2 && d1 == d2
  {
    KeyDeterminesTicker(t1, d1, t2, d2);
    var k := ReportKey(t1, d1);
    assert |d1| == |d2|;
    assert d1 == k[|k| - |LogSuffix| - |d1|..|k| - |LogSuffix|];
  }

  /** The report record: the company name from the snapshot (empty when there
      is none), the analysis as the market report and the decision pending. */
  function MakeReport(date: string, ticker: string, data: Option<Snapshot>, analysis: string): (r: Report)
    ensures r.analysisDate == date && r.ticker == ticker && r.rawData == data
    ensures r.marketReport == analysis
    ensures r.finalTradeDecision == PendingDecision
    ensures data.None? ==> r.company == ""
    ensures data.Some? ==> r.company == data.value.company
  {
    Report(date, ticker, match data case Some(s) => s.company case None => "", analysis, PendingDecision, data)
  }

  /** The report files written so far, by path. Writing a path replaces its file. */
  class ReportStore {
    var files: map<string, Report>

    constructor ()
      ensures files == map[]
    {
      files := map[];
    }

    /** Writes the report for `ticker` on `date` and returns its path. The file
        at that path is replaced; every other file is left as it was. */
    method Save(ticker: string, date: string, data: Option<Snapshot>, analysis: string) returns (path: string)
      modifies this
      ensures path == ReportKey(ticker, date)
      ensures files == old(files)[path := MakeReport(date, ticker, data, analysis)]
      ensures files[path].finalTradeDecision == PendingDecision
      ensures files.Keys == old(files).Keys + {path}
      ensures forall k :: k in old(files) && k != path ==> k in files && files[k] == old(files)[k]
    {
      path := ReportKey(ticker, date);
      files := files[path := MakeReport(date, ticker, data, analysis)];
    }
  }

  /** Saving twice under the same path leaves one file there, holding the
      second record, and the same set of paths as one save. */
  lemma SaveTwice(files: map<string, Report>, path: string, first: Report, second: Report)
    ensures files[path := first][path := second] == files[path := second]
    ensures |files[path := first][path := second].Keys| == |files.Keys| + (if path in files then 0 else 1)
  {
    var after := files[path := second];
    if path in files {
      assert after.Keys == files.Keys;
    } else {
      assert after.Keys == files.Keys + {path};
    }
  }

  /** Running twice for the same ticker on the same day: the second run's
      report replaces the first one's, and no other file changes. */
  method RerunSameDay(store: ReportStore, ticker: string, date: string,
                      data1: Option<Snapshot>, analysis1: string,
                      data2: Option<Snapshot>, analysis2: string)
    modifies store
    ensures store.files == old(store.files)[ReportKey(ticker, date) := MakeReport(date, ticker, data2, analysis2)]
    ensures |store.files.Keys| == |old(store.files).Keys| + (if ReportKey(ticker, date) in old(store.files) then 0 else 1)
  {
    var first := store.Save(ticker, date, data1, analysis1);
    var second := store.Save(ticker, date, data2, analysis2);
    SaveTwice(old(store.files), first, MakeReport(date, ticker, data1, analysis1), MakeReport(date, ticker, data2, analysis2));
  }
}
