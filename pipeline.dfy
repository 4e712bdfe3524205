/** `main` after its configuration check: fetch the snapshot, stop when there
    is none, otherwise ask the model, save the report, and read the decision
    off the analysis. */
module Pipeline {
  import opened Common
  import opened MarketData
  import opened Prompt
  import opened Completion
  import opened Decisions
  import opened Reports

  /** `main` returns nothing when it stops early, else the snapshot, the analysis and the decision. */
  datatype RunResult = Stopped | Completed(data: Snapshot, analysis: string, decision: Decision)

  /** One run for `ticker` on `today`. `complete` stands for the chat
      completion of the prompt built from the snapshot and its price
      position; whatever it does, including failing, the run goes on to
      save its report. */
  method RunLite(ticker: string, info: Info, hist: seq<PriceRow>, complete: (Snapshot, real) -> Outcome,
                 today: string, store: ReportStore) returns (result: RunResult)
    modifies store
    ensures |hist| == 0 <==> result.Stopped?
    ensures result.Stopped? ==> store.files == old(store.files)
    ensures result.Completed? ==>
      && GetStockData(ticker, info, hist) == Some(result.data)
      && result.analysis == AnalysisText(complete(result.data, SnapshotPosition(result.data)))
      && result.decision == DecisionOf(result.analysis)
      && store.files == old(store.files)[ReportKey(ticker, today) := MakeReport(today, ticker, Some(result.data), result.analysis)]
      && store.files[ReportKey(ticker, today)].finalTradeDecision == PendingDecision
  {
    var data := GetStockData(ticker, info, hist);
    if data.None? {
      return Stopped;
    }
    var position := SnapshotPosition(data.value);
    var analysis := AnalysisText(complete(data.value, position));
    var _ := store.Save(ticker, today, data, analysis);
    var decision := ExtractDecision(analysis);
    result := Completed(data.value, analysis, decision);
  }
}
