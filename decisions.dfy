/** The trading decision that `main` reads off the analysis text: an ordered
    keyword rule, BUY before SELL, HOLD when neither keyword occurs. */
module Decisions {

  datatype Decision = Buy | Sell | Hold

  const BuyWord: string := "BUY"
  const SellWord: string := "SELL"
  const BuyWordZh: string := "买入"
  const SellWordZh: string := "卖出"

  // ---------------------------------------------------------------------
  // Upper-casing

  /** Upper case of one character; only the ASCII letters a-z change. */
  function UpperChar(c: char): (u: char)
    ensures 'a' <= c <= 'z' ==> u as int == c as int - 32
    ensures !('a' <= c <= 'z') ==> u == c
  {
    if 'a' <= c <= 'z' then (c as int - 32) as char else c
  }

  function Upper(s: string): (r: string)
    ensures |r| == |s|
    ensures forall i :: 0 <= i < |s| ==> r[i] == UpperChar(s[i])
  {
    seq(|s|, i requires 0 <= i < |s| => UpperChar(s[i]))
  }

  lemma UpperConcat(a: string, b: string)
    ensures Upper(a + b) == Upper(a) + Upper(b)
  {
    assert forall i :: 0 <= i < |a + b| ==> Upper(a + b)[i] == (Upper(a) + Upper(b))[i];
  }

  // ---------------------------------------------------------------------
  // Substring test

  /** `p` occurs in `s` starting at position `i`. */
  ghost predicate OccursAt(s: string, p: string, i: int)
  {
    0 <= i <= |s| - |p| && s[i..i + |p|] == p
  }

  /** `p` occurs in `s` at some position: the meaning of Python's `p in s`. */
  ghost predicate Occurs(s: string, p: string)
  {
    exists i :: OccursAt(s, p, i)
  }

  /** The substring test, scanning start positions from the left; it holds
      exactly when `p` occurs in `s`. */
  function Contains(s: string, p: string): (r: bool)
    ensures r <==> Occurs(s, p)
    decreases |s|
  {
    if |p| > |s| then false
    else if s[..|p|] == p then assert OccursAt(s, p, 0); true
    else OccursShift(s, p); Contains(s[1..], p)
  }

  /** When `p` does not start `s`, it occurs in `s` exactly when it occurs
      in `s` without its first character. */
  lemma OccursShift(s: string, p: string)
    requires |p| <= |s| && s[..|p|] != p
    ensures Occurs(s, p) <==> Occurs(s[1..], p)
  {
    if Occurs(s[1..], p) {
      var i :| OccursAt(s[1..], p, i);
      assert s[i + 1..i + 1 + |p|] == s[1..][i..i + |p|];
      assert OccursAt(s, p, i + 1);
    }
    if Occurs(s, p) {
      var i :| OccursAt(s, p, i);
      assert i != 0;
      assert s[1..][i - 1..i - 1 + |p|] == s[i..i + |p|];
      assert OccursAt(s[1..], p, i - 1);
    }
  }

  // ---------------------------------------------------------------------
  // The rule

  ghost predicate SaysBuy(text: string)
  {
    Occurs(Upper(text), BuyWord) || Occurs(text, BuyWordZh)
  }

  ghost predicate SaysSell(text: string)
  {
    Occurs(Upper(text), SellWord) || Occurs(text, SellWordZh)
  }

  /** The decision the rule assigns to a text. */
  ghost function DecisionOf(text: string): Decision
  {
    if SaysBuy(text) then Buy else if SaysSell(text) then Sell else Hold
  }

  /** The decision block: start from HOLD and overwrite it with BUY, or else
      with SELL, when the corresponding keyword occurs. */
  method ExtractDecision(analysis: string) returns (d: Decision)
    ensures d == Buy <==> SaysBuy(analysis)
    ensures d == Sell <==> !SaysBuy(analysis) && SaysSell(analysis)
    ensures d == Hold <==> !SaysBuy(analysis) && !SaysSell(analysis)
    ensures d == DecisionOf(analysis)
  {
    var upper := Upper(analysis);
    d := Hold;
    if Contains(upper, BuyWord) || Contains(analysis, BuyWordZh) {
      d := Buy;
    } else if Contains(upper, SellWord) || Contains(analysis, SellWordZh) {
      d := Sell;
    }
  }

  // ---------------------------------------------------------------------
  // Properties of the rule

  /** A text that mentions both buying and selling is a BUY. */
  lemma BuyTakesPrecedence(text: string)
    requires SaysBuy(text) && SaysSell(text)
    ensures DecisionOf(text) == Buy
  {
  }

  /** The English keywords are matched regardless of case: "buy", "Buy",
      "bUY" or any other spelling of it anywhere in the text is a BUY. */
  lemma AnyCaseBuy(text: string, i: nat)
    requires i + 3 <= |text| && Upper(text[i..i + 3]) == BuyWord
    ensures DecisionOf(text) == Buy
  {
    assert Upper(text)[i..i + 3] == Upper(text[i..i + 3]);
    assert OccursAt(Upper(text), BuyWord, i);
  }

  /** A keyword cannot occur where its first character does not. */
  lemma FirstCharacter(s: string, p: string, i: int)
    requires |p| > 0 && OccursAt(s, p, i)
    ensures s[i] == p[0]
  {
    assert s[i..i + |p|][0] == s[i];
  }

  /** A text without B, b, S, s, without the letters that Python upper-cases
      to an S ('ſ' to "S", 'ß' to "SS", 'ﬅ' and 'ﬆ' to "ST") and without the
      Chinese keywords is a HOLD. */
  lemma NoKeywordHold(text: string)
    requires forall i :: 0 <= i < |text| ==> text[i] !in {'B', 'b', 'S', 's', 'ſ', 'ß', 'ﬅ', 'ﬆ', '买', '卖'}
    ensures DecisionOf(text) == Hold
  {
    var u := Upper(text);
    if Occurs(u, BuyWord) {
      var i :| OccursAt(u, BuyWord, i);
      FirstCharacter(u, BuyWord, i);
      assert false;
    }
    if Occurs(u, SellWord) {
      var i :| OccursAt(u, SellWord, i);
      FirstCharacter(u, SellWord, i);
      assert false;
    }
    if Occurs(text, BuyWordZh) {
      var i :| OccursAt(text, BuyWordZh, i);
      FirstCharacter(text, BuyWordZh, i);
      assert false;
    }
    if Occurs(text, SellWordZh) {
      var i :| OccursAt(text, SellWordZh, i);
      FirstCharacter(text, SellWordZh, i);
      assert false;
    }
  }

  /** A keyword never starts inside a prefix that lacks the keyword's first
      character, so such a prefix does not change whether the keyword occurs. */
  lemma OccursAfterPrefix(pre: string, s: string, p: string)
    requires |p| > 0 && forall i :: 0 <= i < |pre| ==> pre[i] != p[0]
    ensures Occurs(pre + s, p) <==> Occurs(s, p)
  {
    var t := pre + s;
    if Occurs(t, p) {
      var i :| OccursAt(t, p, i);
      FirstCharacter(t, p, i);
      assert i >= |pre|;
      assert s[i - |pre|..i - |pre| + |p|] == t[i..i + |p|];
      assert OccursAt(s, p, i - |pre|);
    }
    if Occurs(s, p) {
      var i :| OccursAt(s, p, i);
      assert t[|pre| + i..|pre| + i + |p|] == s[i..i + |p|];
      assert OccursAt(t, p, |pre| + i);
    }
  }

  /** A prefix made of characters that start no keyword and that upper-casing
      leaves unchanged does not change the decision. The letters that Python
      upper-cases to an S ('ſ', 'ß', 'ﬅ', 'ﬆ') are excluded as well. */
  lemma DecisionAfterPrefix(pre: string, s: string)
    requires Upper(pre) == pre
    requires forall i :: 0 <= i < |pre| ==> pre[i] !in {'B', 'S', 'ſ', 'ß', 'ﬅ', 'ﬆ', '买', '卖'}
    ensures DecisionOf(pre + s) == DecisionOf(s)
  {
    UpperConcat(pre, s);
    OccursAfterPrefix(pre, Upper(s), BuyWord);
    OccursAfterPrefix(pre, Upper(s), SellWord);
    OccursAfterPrefix(pre, s, BuyWordZh);
    OccursAfterPrefix(pre, s, SellWordZh);
  }
}
