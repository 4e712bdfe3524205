/** `analyze_with_llm`: the chat completion is an opaque outcome; a failure
    of any kind is turned into a text instead of propagating. */
module Completion {
  import opened Decisions

  /** The completion call either returns the message content or raises. */
  datatype Outcome = Ok(content: string) | Err(error: string)

  /** "LLM 调用失败: " (LLM call failed), prefixed to the error's text. */
  const FailurePrefix: string := "LLM 调用失败: "

  /** The analysis text the caller receives: the content, or the failure
      notice followed by the error's text. */
  function AnalysisText(outcome: Outcome): (text: string)
    ensures outcome.Ok? ==> text == outcome.content
    ensures outcome.Err? ==>
      |text| == |FailurePrefix| + |outcome.error| &&
      text[..|FailurePrefix|] == FailurePrefix &&
      text[|FailurePrefix|..] == outcome.error
  {
    match outcome
    case Ok(content) => content
    case Err(error) => FailurePrefix + error
  }

  /** The failure notice starts no keyword and upper-casing leaves it as it is,
      so a failed call decides exactly as its error text alone would: a
      failure never yields BUY or SELL unless the error text itself says so. */
  lemma FailureDecision(error: string)
    ensures DecisionOf(AnalysisText(Err(error))) == DecisionOf(error)
  {
    assert Upper(FailurePrefix) == FailurePrefix by {
      forall i | 0 <= i < |FailurePrefix| ensures Upper(FailurePrefix)[i] == FailurePrefix[i] {
        assert !('a' <= FailurePrefix[i] <= 'z');
      }
    }
    DecisionAfterPrefix(FailurePrefix, error);
  }

  /** A failed call whose error text carries no character that could start
      a keyword, under Python's upper-casing too, leads to HOLD. */
  lemma FailureHolds(error: string)
    requires forall i :: 0 <= i < |error| ==> error[i] !in {'B', 'b', 'S', 's', 'ſ', 'ß', 'ﬅ', 'ﬆ', '买', '卖'}
    ensures DecisionOf(AnalysisText(Err(error))) == Hold
  {
    FailureDecision(error);
    NoKeywordHold(error);
  }
}
