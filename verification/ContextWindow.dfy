/** Token-budgeted conversation context: the estimate, the longest fitting prefix, one assembly, and the
    summary state kept over the turns of a conversation.
    Models agent/context_engineering.py and `_prepare_conversation_context` of api/routes/conversation.py. */
module ContextWindow {
  import opened SeqOps

  // ----- token estimates -----

  predicate IsAscii(c: char) {
    c as int < 128
  }

  function AsciiCount(text: string): nat {
    if text == "" then 0 else AsciiCount(text[..|text| - 1]) + if IsAscii(text[|text| - 1]) then 1 else 0
  }

  lemma {:induction false} AsciiCountBound(text: string)
    ensures AsciiCount(text) <= |text|
  {
    if text != "" {
      AsciiCountBound(text[..|text| - 1]);
    }
  }

  function CeilQuarter(n: nat): nat {
    (n + 3) / 4
  }

  /** One token a non-ASCII character, one for every started group of four ASCII characters. */
  function EstimateTokens(text: string): nat {
    AsciiCountBound(text);
    (|text| - AsciiCount(text)) + CeilQuarter(AsciiCount(text))
  }

  lemma {:induction false} AsciiConcat(a: string, b: string)
    ensures AsciiCount(a + b) == AsciiCount(a) + AsciiCount(b)
    decreases |b|
  {
    if b == "" {
      assert a + b == a;
    } else {
      var n := |b| - 1;
      assert (a + b)[..|a + b| - 1] == a + b[..n];
      AsciiConcat(a, b[..n]);
    }
  }

  lemma EstimateSubadditive(a: string, b: string)
    ensures EstimateTokens(a + b) <= EstimateTokens(a) + EstimateTokens(b)
    ensures EstimateTokens(a) <= EstimateTokens(a + b) && EstimateTokens(b) <= EstimateTokens(a + b)
  {
    AsciiConcat(a, b);
    AsciiCountBound(a);
    AsciiCountBound(b);
  }

  lemma EstimateOfPart(text: string, i: nat, j: nat)
    requires i <= j <= |text|
    ensures EstimateTokens(text[i..j]) <= EstimateTokens(text)
  {
    assert text == text[..i] + (text[i..j] + text[j..]);
    EstimateSubadditive(text[..i], text[i..j] + text[j..]);
    EstimateSubadditive(text[i..j], text[j..]);
  }

  // Estimates depend only on how many characters of each kind a text has.
  lemma EstimateOfCounts(a: string, b: string)
    requires |a| == |b| && AsciiCount(a) == AsciiCount(b)
    ensures EstimateTokens(a) == EstimateTokens(b)
  {
  }

  // ----- trimming -----

  /** Python's white space, beyond ASCII too. */
  predicate IsSpace(c: char) {
    var n := c as int;
    || 9 <= n <= 13 || 28 <= n <= 32 || n == 0x85 || n == 0xA0 || n == 0x1680 || 0x2000 <= n <= 0x200A
    || n == 0x2028 || n == 0x2029 || n == 0x202F || n == 0x205F || n == 0x3000
  }

  function TrimLeft(text: string): (r: string)
    ensures |r| <= |text| && r == text[|text| - |r|..]
  {
    if text != "" && IsSpace(text[0]) then TrimLeft(text[1..]) else text
  }

  function TrimRight(text: string): (r: string)
    ensures |r| <= |text| && r == text[..|r|]
  {
    if text != "" && IsSpace(text[|text| - 1]) then TrimRight(text[..|text| - 1]) else text
  }

  function Trim(text: string): string {
    TrimLeft(TrimRight(text))
  }

  lemma TrimFits(text: string)
    ensures EstimateTokens(TrimRight(text)) <= EstimateTokens(text)
            && EstimateTokens(Trim(text)) <= EstimateTokens(text)
  {
    var right := TrimRight(text);
    EstimateOfPart(text, 0, |right|);
    assert text[0..|right|] == right;
    var both := TrimLeft(right);
    EstimateOfPart(right, |right| - |both|, |right|);
    assert right[|right| - |both|..|right|] == both;
  }

  // ----- the longest fitting prefix -----

  /** A text is cut to its longest prefix within the limit, then trimmed on the right. */
  ghost predicate IsCut(text: string, limit: nat, cut: string) {
    if EstimateTokens(text) <= limit then cut == text
    else exists n: nat :: n < |text| && EstimateTokens(text[..n]) <= limit < EstimateTokens(text[..n
        + 1]) && cut == TrimRight(text[..n])
  }

  lemma PrefixesGrow(text: string, i: nat, j: nat)
    requires i <= j <= |text|
    ensures EstimateTokens(text[..i]) <= EstimateTokens(text[..j])
  {
    EstimateOfPart(text[..j], 0, i);
    assert text[..j][0..i] == text[..i];
  }

  lemma CutIsUnique(text: string, limit: nat, a: string, b: string)
    requires IsCut(text, limit, a) && IsCut(text, limit, b)
    ensures a == b
  {
    hide EstimateTokens, TrimRight;
    if EstimateTokens(text) > limit {
      var n: nat :| n < |text| && EstimateTokens(text[..n]) <= limit < EstimateTokens(text[..n + 1])
          && a == TrimRight(text[..n]);
      var m: nat :| m < |text| && EstimateTokens(text[..m]) <= limit < EstimateTokens(text[..m + 1])
          && b == TrimRight(text[..m]);
      if n < m {
        PrefixesGrow(text, n + 1, m);
      } else if m < n {
        PrefixesGrow(text, m + 1, n);
      }
    }
  }

  /** `_truncate_to_tokens`: binary search. */
  method TruncateToTokens(text: string, limit: nat) returns (cut: string)
    ensures IsCut(text, limit, cut)
    ensures EstimateTokens(cut) <= limit
  {
    if EstimateTokens(text) <= limit {
      return text;
    }
    assert text[..|text|] == text;
    var low, high := 0, |text|;
    ghost var over := |text|;
    while low < high
      invariant 0 <= low <= high <= |text| && high <= over <= high + 1 && over <= |text|
      invariant EstimateTokens(text[..low]) <= limit < EstimateTokens(text[..over])
      invariant over == high ==> over == |text|
      decreases high - low
    {
      var mid := (low + high + 1) / 2;
      if EstimateTokens(text[..mid]) <= limit {
        low := mid;
      } else {
        high := mid - 1;
        over := mid;
      }
    }
    TrimFits(text[..low]);
    cut := TrimRight(text[..low]);
    assert over == low + 1;
  }

  // ----- messages and rendering -----

  datatype Message = Message(id: nat, fromUser: bool, content: string, sql: Option<string>)

  const PROMPT_LABEL := "本轮会话提示词：\n"
  const SUMMARY_LABEL := "较早对话摘要：\n"
  const HISTORY_LABEL := "未压缩的历史对话："
  const GAP := "\n\n"

  function Present(text: Option<string>): bool {
    text.Some? && text.value != ""
  }

  function Speaker(m: Message): string {
    if m.fromUser then "用户" else "助手"
  }

  function MessageLines(m: Message): string {
    "\n" + Speaker(m) + "：" + m.content + if Present(m.sql) then "\n助手已生成 SQL：" + m.sql.value else ""
  }

  function HistoryText(messages: seq<Message>): string {
    if messages == [] then HISTORY_LABEL
    else HistoryText(messages[..|messages| - 1]) + MessageLines(messages[|messages| - 1])
  }

  /** Parts joined by an empty line. */
  function JoinParts(parts: seq<string>): string {
    if parts == [] then ""
    else if |parts| == 1 then parts[0]
    else JoinParts(parts[..|parts| - 1]) + GAP + parts[|parts| - 1]
  }

  function PromptParts(prompt: Option<string>): seq<string> {
    if Present(prompt) then [PROMPT_LABEL + Trim(prompt.value)] else []
  }

  function SummaryParts(summary: Option<string>): seq<string> {
    if Present(summary) then [SUMMARY_LABEL + Trim(summary.value)] else []
  }

  function HistoryParts(messages: seq<Message>): seq<string> {
    if messages == [] then [] else [HistoryText(messages)]
  }

  /** The context block shared by every model call of a turn. */
  function Render(prompt: Option<string>, summary: Option<string>, messages: seq<Message>): string {
    JoinParts(PromptParts(prompt) + SummaryParts(summary) + HistoryParts(messages))
  }

  /** A summary is put in one place of the block: its label and text, then an empty line. */
  lemma SummaryInserted(prompt: Option<string>, summary: Option<string>, messages: seq<Message>)
    returns (before: string, after: string)
    requires messages != [] && Present(summary)
    ensures Render(prompt, None, messages) == before + after
    ensures Render(prompt, summary, messages) == before + (SUMMARY_LABEL + Trim(summary.value)) + GAP + after
  {
    hide Trim, HistoryText;
    var history := HistoryText(messages);
    var added := SUMMARY_LABEL + Trim(summary.value);
    if Present(prompt) {
      var head := PROMPT_LABEL + Trim(prompt.value);
      assert PromptParts(prompt) + SummaryParts(summary) + HistoryParts(messages) == [head, added, history];
      assert PromptParts(prompt) + SummaryParts(None) + HistoryParts(messages) == [head, history];
      JoinThree(head, added, history);
      JoinTwo(head, history);
      before, after := head + GAP, history;
    } else {
      assert PromptParts(prompt) + SummaryParts(summary) + HistoryParts(messages) == [added, history];
      assert PromptParts(prompt) + SummaryParts(None) + HistoryParts(messages) == [history];
      JoinTwo(added, history);
      before, after := "", history;
      assert "" + added == added && "" + history == history;
    }
  }

  // A summary adds its label, one gap and itself to a block with raw messages.
  lemma SummaryCost(prompt: Option<string>, summary: Option<string>, messages: seq<Message>)
    requires messages != []
    ensures EstimateTokens(Render(prompt, summary, messages)) <=
              EstimateTokens(Render(prompt, None, messages)) + EstimateTokens(GAP + SUMMARY_LABEL)
              + (if summary.Some? then EstimateTokens(summary.value) else 0)
  {
    hide Trim, HistoryText, EstimateTokens, AsciiCount, Render;
    if Present(summary) {
      var before, after := SummaryInserted(prompt, summary, messages);
      var added := SUMMARY_LABEL + Trim(summary.value);
      MoveAdded(before, added, after);
      TrimFits(summary.value);
      EstimateSubadditive(GAP + SUMMARY_LABEL, Trim(summary.value));
      assert GAP + added == (GAP + SUMMARY_LABEL) + Trim(summary.value);
    } else {
      NothingInserted(prompt, summary, messages);
    }
  }

  lemma NothingInserted(prompt: Option<string>, summary: Option<string>, messages: seq<Message>)
    requires !Present(summary)
    ensures Render(prompt, summary, messages) == Render(prompt, None, messages)
  {
    assert SummaryParts(summary) == SummaryParts(None);
  }

  lemma JoinTwo(a: string, b: string)
    ensures JoinParts([a, b]) == a + GAP + b
  {
    assert [a, b][..1] == [a];
  }

  lemma JoinThree(a: string, b: string, c: string)
    ensures JoinParts([a, b, c]) == a + GAP + b + GAP + c
  {
    assert [a, b, c][..2] == [a, b];
    JoinTwo(a, b);
  }

  lemma MoveAdded(before: string, added: string, after: string)
    ensures EstimateTokens(before + added + GAP + after) <= EstimateTokens(before + after) + EstimateTokens(GAP + added)
  {
    hide EstimateTokens;
    AsciiConcat(before + added + GAP, after);
    AsciiConcat(before + added, GAP);
    AsciiConcat(before, added);
    AsciiConcat(before, after);
    AsciiConcat(GAP, added);
    AsciiConcat(before + after, GAP + added);
    EstimateOfCounts(before + added + GAP + after, (before + after) + (GAP + added));
    EstimateSubadditive(before + after, GAP + added);
  }

  // ----- one assembly -----

  datatype Config = Config(trigger: nat, target: nat, keep: nat)
  datatype Assembled = Assembled(summary: Option<string>, messages: seq<Message>, boundary: Option<nat>, tokens: nat,
          compressed: bool)

  /** Tokens for the history: the smaller input limit without the static prompt. */
  function HistoryBudget(window: int, maxInput: int, maxOutput: int, reserve: int): int {
    (if maxInput <= window - maxOutput then maxInput else window - maxOutput) - reserve
  }

  function Share(budget: int, ratio: real): real {
    budget as real * ratio
  }

  function Whole(x: real): nat {
    if x.Floor > 1 then x.Floor else 1
  }

  /** The limits of an assembler; none when the window leaves no room or the ratios are out of order. */
  function MakeConfig(window: int, maxInput: int, maxOutput: int, reserve: int, triggerRatio: real, targetRatio: real,
          turns: int): (r: Option<Config>)
    ensures r.Some? ==> 1 <= r.value.target <= r.value.trigger && r.value.keep >= 2
    ensures r.Some? ==> 0 < HistoryBudget(window, maxInput, maxOutput, reserve)
                        && r.value.trigger <= HistoryBudget(window, maxInput, maxOutput, reserve)
  {
    var budget := HistoryBudget(window, maxInput, maxOutput, reserve);
    if budget <= 0 || !(0.0 < targetRatio < triggerRatio < 1.0) || turns < 1 then None
    else
      var low, high := Share(budget, targetRatio), Share(budget, triggerRatio);
      ProductsOrdered(budget as real, targetRatio, triggerRatio, low, high);
      FloorsOrdered(low, high, budget);
      Some(Config(Whole(high), Whole(low), turns * 2))
  }

  lemma FloorsOrdered(x: real, y: real, n: int)
    requires 0.0 < x <= y <= n as real
    ensures 0 <= x.Floor <= y.Floor <= n
  {
    assert x.Floor as real <= x && y < y.Floor as real + 1.0;
    assert (x.Floor - y.Floor) as real < 1.0;
  }

  lemma ProductsOrdered(b: real, x: real, y: real, low: real, high: real)
    requires b > 0.0 && 0.0 < x < y < 1.0 && low == b * x && high == b * y
    ensures 0.0 < low <= high <= b
  {
  }

  function AfterBoundary(messages: seq<Message>, boundary: Option<nat>): seq<Message> {
    Filter((m: Message) => boundary.None? || m.id > boundary.value, messages)
  }

  function InputTokens(input: Option<string>): nat {
    if input.Some? then EstimateTokens(input.value) else 0
  }

  function TotalTokens(prompt: Option<string>, summary: Option<string>, messages: seq<Message>,
          input: Option<string>): nat {
    EstimateTokens(Render(prompt, summary, messages)) + InputTokens(input)
  }

  /** Tokens left for a summary beside the kept messages, the prompt, the input and the label. */
  function Remaining(c: Config, prompt: Option<string>, recent: seq<Message>, input: Option<string>): int {
    c.target - EstimateTokens(Render(prompt, None, recent)) - InputTokens(input) - EstimateTokens(GAP + SUMMARY_LABEL)
  }

  function SummaryBudget(c: Config, prompt: Option<string>, recent: seq<Message>, input: Option<string>): nat {
    if Remaining(c, prompt, recent, input) > 32 then Remaining(c, prompt, recent, input) else 32
  }

  function DigitText(n: nat): string
    requires n < 10
  {
    [((n + '0' as nat) as char)]
  }

  function Decimal(n: nat): string {
    if n < 10 then DigitText(n) else Decimal(n / 10) + DigitText(n % 10)
  }

  function Shorten(text: string, n: nat): string {
    if |text| > n then text[..n] else text
  }

  function OneLine(text: string): string {
    Map((c: char) => if c == '\n' then ' ' else c, text)
  }

  /** The extract of one message: the start of its content in one line, and the start of its SQL. */
  function Extract(m: Message): string {
    "\n" + Speaker(m) + "#" + Decimal(m.id) + "：" + Shorten(OneLine(Trim(m.content)), 240)
    + if Present(m.sql) then "\nSQL#" + Decimal(m.id) + "：" + Shorten(Trim(m.sql.value), 400) else ""
  }

  function FallbackLines(messages: seq<Message>): string {
    if messages == [] then ""
    else FallbackLines(messages[..|messages| - 1]) + Extract(messages[|messages| - 1])
  }

  function FallbackSummary(previous: Option<string>, messages: seq<Message>): string {
    "历史上下文提取（模型摘要不可用）："
    + (if Present(previous) then "\n已有摘要：" + previous.value else "") + FallbackLines(messages)
  }

  /** The model's summary, trimmed; the deterministic one when the model fails or answers nothing. */
  function ChosenSummary(previous: Option<string>, prefix: seq<Message>, reply: Option<string>): string {
    if reply.Some? && Trim(reply.value) != "" then Trim(reply.value) else FallbackSummary(previous, prefix)
  }

  /** How many of the active messages are compacted in a turn. */
  function SplitAt(c: Config, prompt: Option<string>, previous: Option<string>, active: seq<Message>,
          input: Option<string>): nat {
    if TotalTokens(prompt, previous, active, input) < c.trigger || |active| <= c.keep then 0 else |active| - c.keep
  }

  method Assemble(c: Config, messages: seq<Message>, prompt: Option<string>, input: Option<string>,
                  previous: Option<string>, through: Option<nat>, reply: Option<string>) returns (r: Assembled)
    requires c.keep >= 2
    ensures var spent := if input.Some? then EstimateTokens(input.value) else 0;
            var active := AfterBoundary(messages, through);
            && r.tokens == EstimateTokens(Render(prompt, r.summary, r.messages)) + spent
            && (r.compressed <==>
                  EstimateTokens(Render(prompt, previous, active)) + spent >= c.trigger && |active| > c.keep)
            && |r.messages| == if r.compressed then c.keep else |active|
    ensures var active := AfterBoundary(messages, through);
            var split := SplitAt(c, prompt, previous, active, input);
            && split <= |active| && r.compressed == (split > 0) && r.messages == active[split..]
            && r.boundary == (if split > 0 then Some(active[split - 1].id) else through)
            && (split == 0 ==> r.summary == previous)
            && (split > 0 ==>
                  && r.summary.Some? && IsCut(ChosenSummary(previous, active[..split], reply),
                                              SummaryBudget(c, prompt, r.messages, input), r.summary.value)
                  && r.tokens <= (if Remaining(c, prompt, r.messages, input) >= 32 then c.target
                                  else EstimateTokens(Render(prompt, None,
                                                             r.messages)) + InputTokens(input)
                                                                 + EstimateTokens(GAP + SUMMARY_LABEL) + 32)
                  && (EstimateTokens(Render(prompt, None, r.messages)) + InputTokens(input) > c.target ==>
                      r.tokens > c.target))
  {
    hide Render, EstimateTokens, FallbackSummary, IsCut, Trim;
    var active := AfterBoundary(messages, through);
    var tokens := TotalTokens(prompt, previous, active, input);
    if tokens < c.trigger || |active| <= c.keep {
      assert active[0..] == active;
      return Assembled(previous, active, through, tokens, false);
    }
    var split := |active| - c.keep;
    var recent := active[split..];
    var budget := SummaryBudget(c, prompt, recent, input);
    var summary := TruncateToTokens(ChosenSummary(previous, active[..split], reply), budget);
    SummaryCost(prompt, Some(summary), recent);
    SummaryNeverSaves(prompt, Some(summary), recent);
    r := Assembled(Some(summary), recent, Some(active[split - 1].id),
                   TotalTokens(prompt, Some(summary), recent, input), true);
  }

  // ----- when the target is kept -----

  /** Ordinary and ASCII characters that a summary adds to the block. */
  lemma SummaryCounts(prompt: Option<string>, summary: Option<string>, messages: seq<Message>)
    requires messages != [] && Present(summary)
    ensures var with, without, added := Render(prompt, summary, messages), Render(prompt, None, messages),
            Trim(summary.value);
            && |with| == |without| + |GAP + SUMMARY_LABEL| + |added|
            && AsciiCount(with) == AsciiCount(without) + AsciiCount(GAP + SUMMARY_LABEL) + AsciiCount(added)
  {
    hide Trim, AsciiCount, Render;
    var before, after := SummaryInserted(prompt, summary, messages);
    var added := Trim(summary.value);
    AsciiConcat(before + (SUMMARY_LABEL + added) + GAP, after);
    AsciiConcat(before + (SUMMARY_LABEL + added), GAP);
    AsciiConcat(before, SUMMARY_LABEL + added);
    AsciiConcat(SUMMARY_LABEL, added);
    AsciiConcat(before, after);
    AsciiConcat(GAP, SUMMARY_LABEL);
  }

  /** No summary makes the block cheaper: what cannot be compressed is a lower bound. */
  lemma SummaryNeverSaves(prompt: Option<string>, summary: Option<string>, messages: seq<Message>)
    requires messages != []
    ensures EstimateTokens(Render(prompt, summary, messages)) >= EstimateTokens(Render(prompt, None, messages))
  {
    hide Render, Trim, AsciiCount;
    if Present(summary) {
      SummaryCounts(prompt, summary, messages);
      AsciiCountBound(GAP + SUMMARY_LABEL);
      AsciiCountBound(Trim(summary.value));
    } else {
      NothingInserted(prompt, summary, messages);
    }
  }

  /** Thirty-two tokens of text that nothing can trim or shorten. */
  function Filler(): string {
    seq(32, i => '要')
  }

  lemma {:induction false} NoAscii(text: string)
    requires forall c :: c in text ==> !IsAscii(c)
    ensures AsciiCount(text) == 0
  {
    if text != "" {
      NoAscii(text[..|text| - 1]);
    }
  }

  lemma FillerIs()
    ensures |Filler()| == 32 && AsciiCount(Filler()) == 0 && Trim(Filler()) == Filler() && Present(Some(Filler()))
    ensures EstimateTokens(Filler()) == 32
  {
    NoAscii(Filler());
  }

  lemma CeilQuarterAdds(a: nat, b: nat)
    ensures CeilQuarter(a + b) <= CeilQuarter(a) + CeilQuarter(b)
  {
  }

  /** Among summaries of at most 32 tokens none costs more than the filler. */
  lemma FillerIsWorst(prompt: Option<string>, summary: string, messages: seq<Message>)
    requires messages != [] && EstimateTokens(summary) <= 32
    ensures EstimateTokens(Render(prompt, Some(summary),
                                  messages)) <= EstimateTokens(Render(prompt, Some(Filler()), messages))
  {
    hide Render, Trim, AsciiCount, Filler;
    FillerIs();
    if Present(Some(summary)) {
      SummaryCounts(prompt, Some(summary), messages);
      SummaryCounts(prompt, Some(Filler()), messages);
      TrimFits(summary);
      AsciiCountBound(Trim(summary));
      AsciiCountBound(Render(prompt, None, messages));
      AsciiCountBound(GAP + SUMMARY_LABEL);
      CeilQuarterAdds(AsciiCount(Render(prompt, None, messages)) + AsciiCount(GAP + SUMMARY_LABEL),
                      AsciiCount(Trim(summary)));
    } else {
      NothingInserted(prompt, Some(summary), messages);
      SummaryNeverSaves(prompt, Some(Filler()), messages);
    }
  }

  lemma CutFits(text: string, limit: nat, cut: string)
    requires IsCut(text, limit, cut)
    ensures EstimateTokens(cut) <= limit
  {
    hide EstimateTokens, TrimRight;
    if EstimateTokens(text) > limit {
      var n: nat :| n < |text| && EstimateTokens(text[..n]) <= limit < EstimateTokens(text[..n + 1])
          && cut == TrimRight(text[..n]);
      TrimFits(text[..n]);
    }
  }

  /** The compressed context keeps the target whatever the summariser answers exactly when 32 tokens remain
      for the summary, or 32 tokens of text that cannot be shortened still fit. */
  lemma TargetKeptExactly(c: Config, prompt: Option<string>, previous: Option<string>, prefix: seq<Message>,
          recent: seq<Message>, input: Option<string>)
    requires recent != []
    ensures (forall reply, summary ::
             IsCut(ChosenSummary(previous, prefix, reply), SummaryBudget(c, prompt, recent, input), summary) ==>
               TotalTokens(prompt, Some(summary), recent, input) <= c.target)
       <==> Remaining(c, prompt, recent, input) >= 32 || TotalTokens(prompt, Some(Filler()), recent, input) <= c.target
  {
    hide Render, EstimateTokens, FallbackSummary, Filler, Trim, IsCut;
    var budget := SummaryBudget(c, prompt, recent, input);
    forall reply, summary | IsCut(ChosenSummary(previous, prefix, reply), budget, summary)
      ensures Remaining(c, prompt, recent, input) >= 32 ==>
              TotalTokens(prompt, Some(summary), recent, input) <= c.target
      ensures budget == 32 ==> TotalTokens(prompt, Some(summary), recent,
                                           input) <= TotalTokens(prompt, Some(Filler()), recent, input) {
      CutFits(ChosenSummary(previous, prefix, reply), budget, summary);
      SummaryCost(prompt, Some(summary), recent);
      if budget == 32 {
        FillerIsWorst(prompt, summary, recent);
      }
    }
    if Remaining(c, prompt, recent, input) < 32 {
      FillerIs();
      assert ChosenSummary(previous, prefix, Some(Filler())) == Filler();
      WholeIsCut(Filler(), budget);
    }
  }

  lemma WholeIsCut(text: string, limit: nat)
    requires EstimateTokens(text) <= limit
    ensures IsCut(text, limit, text)
  {
  }

  const SMALL_TALK := [Message(1, true, "", None), Message(2, false, "", None), Message(3, true, "", None)]

  /** With a small window a compressed context exceeds its target, whatever the summary is. */
  lemma TargetMayBeExceeded(summary: Option<string>)
    ensures var c := MakeConfig(8, 8, 1, 1, 0.5, 0.25, 1);
            && c == Some(Config(3, 1, 2)) && SplitAt(c.value, None, None, AfterBoundary(SMALL_TALK, None), None) == 1
            && TotalTokens(None, summary, AfterBoundary(SMALL_TALK, None)[1..], None) > c.value.target
  {
    hide EstimateTokens, MessageLines;
    SmallConfig();
    EverythingActive(SMALL_TALK);
    HistoryIsLong(SMALL_TALK);
    HistoryIsLong(SMALL_TALK[1..]);
    SummaryNeverSaves(None, summary, SMALL_TALK[1..]);
  }

  lemma SmallConfig()
    ensures MakeConfig(8, 8, 1, 1, 0.5, 0.25, 1) == Some(Config(3, 1, 2))
  {
    assert 6.0 * 0.25 == 1.5 && 6.0 * 0.5 == 3.0;
    assert (1.5).Floor == 1 && (3.0).Floor == 3;
  }

  lemma {:induction false} EverythingActive(messages: seq<Message>)
    ensures AfterBoundary(messages, None) == messages
  {
    if messages != [] {
      EverythingActive(messages[1..]);
    }
  }

  lemma {:induction false} HistoryIsLong(messages: seq<Message>)
    ensures EstimateTokens(HistoryText(messages)) >= 9
    ensures messages != [] ==> EstimateTokens(Render(None, None, messages)) >= 9
  {
    if messages == [] {
      NoAscii(HISTORY_LABEL);
    } else {
      HistoryIsLong(messages[..|messages| - 1]);
      EstimateSubadditive(HistoryText(messages[..|messages| - 1]), MessageLines(messages[|messages| - 1]));
      assert PromptParts(None) + SummaryParts(None) + HistoryParts(messages) == [HistoryText(messages)];
    }
  }

  // ----- turns of a conversation -----

  /** One turn: the stored history, the prompt and input of the turn, and what the model would answer. */
  datatype Turn = Turn(history: seq<Message>, prompt: Option<string>, input: Option<string>, reply: Option<string>)

  ghost predicate Ascending(history: seq<Message>) {
    forall i, j :: 0 <= i < j < |history| ==> history[i].id < history[j].id
  }

  /** Later histories only append messages with larger identifiers. */
  ghost predicate Extends(earlier: seq<Message>, later: seq<Message>) {
    earlier <= later
  }

  predicate Covered(through: Option<nat>, m: Message) {
    through.Some? && m.id <= through.value
  }

  /** The boundary covers exactly what was compacted so far, and nothing was compacted twice. */
  ghost predicate Consistent(through: Option<nat>, history: seq<Message>, compacted: seq<seq<Message>>) {
    && Ascending(history)
    && (forall m :: m in history ==> (Covered(through, m) <==> WasCompacted(compacted, m)))
    && (forall m :: WasCompacted(compacted, m) ==> m in history)
    && OncePerMessage(compacted)
    && (through.Some? ==> exists m :: m in history && m.id == through.value)
  }

  ghost predicate WasCompacted(compacted: seq<seq<Message>>, m: Message) {
    exists t :: 0 <= t < |compacted| && m in compacted[t]
  }

  ghost predicate OncePerMessage(compacted: seq<seq<Message>>) {
    forall t, u, m :: 0 <= t < u < |compacted| && m in compacted[t] ==> m !in compacted[u]
  }

  /** The stored summary state of a conversation, and which messages each turn gave to the summarising step. */
  class Conversation {
    var summary: Option<string>
    var through: Option<nat>
    ghost var last: seq<Message>
    ghost var compacted: seq<seq<Message>>

    ghost predicate Valid()
      reads this
    {
      Consistent(through, last, compacted)
    }

    constructor ()
      ensures Valid() && through == None && summary == None && compacted == [] && last == []
    {
      summary, through, last, compacted := None, None, [], [];
    }

    /** `_prepare_conversation_context`: assembles one context and stores only a newly produced summary. */
    method Prepare(c: Config, turn: Turn) returns (r: Assembled)
      requires Valid() && c.keep >= 2 && Ascending(turn.history) && Extends(last, turn.history)
      modifies this
      ensures Valid() && last == turn.history
      ensures |compacted| == |old(compacted)| + 1 && compacted[..|old(compacted)|] == old(compacted)
      ensures old(through).Some? ==> through.Some? && old(through).value <= through.value
      ensures r.messages == AfterBoundary(turn.history, through)
      ensures r.compressed ==> (old(through).Some? ==> old(through).value < through.value) && summary == r.summary
      ensures !r.compressed ==> summary == old(summary) && through == old(through) && compacted[|old(compacted)|] == []
      ensures forall m :: m in turn.history ==>
                m in compacted[|old(compacted)|] || m in r.messages || Covered(old(through), m)
    {
      hide TotalTokens, Remaining, SummaryBudget, ChosenSummary, IsCut, EstimateTokens, Render, AfterBoundary,
           Consistent, Ascending, Extends;
      r := Assemble(c, turn.history, turn.prompt, turn.input, summary, through, turn.reply);
      ghost var active := AfterBoundary(turn.history, through);
      ghost var split := SplitAt(c, turn.prompt, summary, active, turn.input);
      ghost var next := compacted + [active[..split]];
      TurnKeeps(through, last, turn.history, compacted, split);
      if r.compressed {
        summary := r.summary;
        through := r.boundary;
      }
      assert active[0..] == active && active[..0] == [];
      compacted := next;
      last := turn.history;
    }
  }

  function NextBoundary(history: seq<Message>, through: Option<nat>, split: nat): Option<nat>
    requires split <= |AfterBoundary(history, through)|
  {
    if split == 0 then through else Some(AfterBoundary(history, through)[split - 1].id)
  }

  /** Compacting the first active messages keeps the state consistent and loses no message. */
  lemma TurnKeeps(through: Option<nat>, earlier: seq<Message>, history: seq<Message>, compacted: seq<seq<Message>>,
          split: nat)
    requires Consistent(through, earlier, compacted) && Ascending(history) && Extends(earlier, history)
    requires split <= |AfterBoundary(history, through)|
    ensures var active, next := AfterBoundary(history, through), NextBoundary(history, through, split);
            && Consistent(next, history, compacted + [active[..split]])
            && (through.Some? ==> next.Some? && through.value <= next.value && (split > 0 ==>
                                                                                through.value < next.value))
            && active[split..] == AfterBoundary(history, next)
            && forall m :: m in history ==> m in active[..split] || m in active[split..] || Covered(through, m)
  {
    hide WasCompacted, OncePerMessage, AfterBoundary, Ascending, Covered;
    var active, next := AfterBoundary(history, through), NextBoundary(history, through, split);
    HistoryGrows(earlier, history, through, compacted);
    SplitFacts(history, through, split);
    ActiveAscends(history, through);
    assert active == active[..split] + active[split..];
    var given := active[..split];
    forall m: Message ensures WasCompacted(compacted + [given], m) <==> WasCompacted(compacted, m) || m in given {
      CompactedSnoc(compacted, given, m);
    }
    OnceSnoc(compacted, given);
    if split > 0 {
      assert active[split - 1] in active;
    }
  }

  lemma CompactedSnoc(compacted: seq<seq<Message>>, given: seq<Message>, m: Message)
    ensures WasCompacted(compacted + [given], m) <==> WasCompacted(compacted, m) || m in given
  {
    var more := compacted + [given];
    if WasCompacted(compacted, m) {
      var t :| 0 <= t < |compacted| && m in compacted[t];
      assert more[t] == compacted[t];
    }
    if m in given {
      assert more[|compacted|] == given;
    }
  }

  lemma OnceSnoc(compacted: seq<seq<Message>>, given: seq<Message>)
    requires OncePerMessage(compacted) && forall m :: m in given ==> !WasCompacted(compacted, m)
    ensures OncePerMessage(compacted + [given])
  {
    var more := compacted + [given];
    forall t, u, m | 0 <= t < u < |more| && m in more[t] ensures m !in more[u] {
      if u == |compacted| {
        assert m in compacted[t];
        assert WasCompacted(compacted, m);
      } else {
        assert m in compacted[t] && more[u] == compacted[u];
      }
    }
  }

  lemma {:induction false} ActiveAscends(history: seq<Message>, through: Option<nat>)
    requires Ascending(history)
    ensures Ascending(AfterBoundary(history, through))
    ensures forall m :: m in AfterBoundary(history, through) <==> m in history && !Covered(through, m)
  {
    AscendingFilter((m: Message) => through.None? || m.id > through.value, history);
  }

  lemma {:induction false} AscendingFilter(p: Message -> bool, history: seq<Message>)
    requires Ascending(history)
    ensures Ascending(Filter(p, history))
  {
    if history != [] {
      AscendingFilter(p, history[1..]);
      var rest := Filter(p, history[1..]);
      if p(history[0]) {
        forall j | 0 <= j < |rest| ensures history[0].id < rest[j].id {
          assert rest[j] in history[1..];
          var k :| 0 <= k < |history[1..]| && history[1..][k] == rest[j];
          assert history[k + 1] == rest[j];
        }
      }
    }
  }

  // Splitting the active messages moves the boundary exactly over the compacted part.
  lemma SplitFacts(history: seq<Message>, through: Option<nat>, split: nat)
    requires Ascending(history) && split <= |AfterBoundary(history, through)|
    ensures var active, next := AfterBoundary(history, through), NextBoundary(history, through, split);
            && (forall m :: m in active[..split] ==> m in history && !Covered(through, m))
            && (split > 0 && through.Some? ==> through.value < next.value)
            && active[split..] == AfterBoundary(history, next)
            && forall m :: m in history ==> (Covered(next, m) <==> Covered(through, m) || m in active[..split])
  {
    hide Ascending;
    var active, next := AfterBoundary(history, through), NextBoundary(history, through, split);
    ActiveAscends(history, through);
    assert active == active[..split] + active[split..];
    if split == 0 {
      assert active[0..] == active;
    } else {
      assert active[split - 1] in active;
      PartsByBoundary(active, split);
      SuffixIsFilter(history, through, split);
      forall m | m in history ensures Covered(next, m) <==> Covered(through, m) || m in active[..split] {
        if !Covered(through, m) {
          assert m in active;
        }
      }
    }
  }

  lemma PartsByBoundary(active: seq<Message>, split: nat)
    requires Ascending(active) && 0 < split <= |active|
    ensures forall m :: m in active[..split] ==> m.id <= active[split - 1].id
    ensures forall m :: m in active[split..] ==> m.id > active[split - 1].id
  {
    forall m | m in active[..split] ensures m.id <= active[split - 1].id {
      var i :| 0 <= i < split && active[..split][i] == m;
      assert active[i] == m;
    }
    forall m | m in active[split..] ensures m.id > active[split - 1].id {
      var i :| 0 <= i < |active| - split && active[split..][i] == m;
      assert active[split + i] == m;
    }
  }

  function Later(b: nat): Message -> bool {
    (m: Message) => m.id > b
  }

  lemma AfterBoth(history: seq<Message>, through: Option<nat>, b: nat)
    requires through.Some? ==> through.value < b
    ensures AfterBoundary(history, Some(b)) == Filter(Later(b), AfterBoundary(history, through))
  {
    var kept := (m: Message) => through.None? || m.id > through.value;
    FilterFilter(kept, Later(b), Later(b), history);
    FilterCong(Later(b), (m: Message) => Some(b).None? || m.id > Some(b).value, history);
  }

  lemma SuffixIsLater(active: seq<Message>, split: nat)
    requires Ascending(active) && 0 < split <= |active|
    ensures Filter(Later(active[split - 1].id), active) == active[split..]
  {
    hide Ascending;
    var later := Later(active[split - 1].id);
    PartsByBoundary(active, split);
    assert active == active[..split] + active[split..];
    FilterConcat(later, active[..split], active[split..]);
    FilterNone(later, active[..split]);
    FilterAll(later, active[split..]);
  }

  lemma SuffixIsFilter(history: seq<Message>, through: Option<nat>, split: nat)
    requires Ascending(history) && 0 < split <= |AfterBoundary(history, through)|
    ensures AfterBoundary(history, through)[split..] == AfterBoundary(history, NextBoundary(history, through, split))
  {
    hide Ascending, AfterBoundary;
    var active := AfterBoundary(history, through);
    ActiveAscends(history, through);
    assert active[split - 1] in active;
    AfterBoth(history, through, active[split - 1].id);
    SuffixIsLater(active, split);
  }

  lemma PrefixMember(earlier: seq<Message>, later: seq<Message>, k: nat)
    requires earlier <= later && k < |later|
    ensures k < |earlier| ==> later[k] in earlier
  {
    assert k < |earlier| ==> later[k] == earlier[k];
  }

  // Messages appended later are above the boundary.
  lemma HistoryGrows(earlier: seq<Message>, later: seq<Message>, through: Option<nat>, compacted: seq<seq<Message>>)
    requires Ascending(later) && Extends(earlier, later) && Consistent(through, earlier, compacted)
    ensures forall m :: m in later ==> (Covered(through, m) <==> WasCompacted(compacted, m))
    ensures forall m :: m in earlier ==> m in later
  {
    hide WasCompacted, OncePerMessage;
    forall m | m in later && m !in earlier ensures !Covered(through, m) {
      if through.Some? {
        var top :| top in earlier && top.id == through.value;
        var i :| 0 <= i < |earlier| && earlier[i] == top;
        var k :| 0 <= k < |later| && later[k] == m;
        assert later[i] == top;
        PrefixMember(earlier, later, k);
      }
    }
    forall m | m in earlier ensures m in later {
      var i :| 0 <= i < |earlier| && earlier[i] == m;
      assert later[i] == m;
    }
  }
}
