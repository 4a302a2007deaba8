/** What the texts of a conversation context say, and how they are counted: the estimate, trimming, the rendered block,
    the extracted summary and the limits, each stated on the texts alone.
    For `agent/context_engineering.py`. */
module ContextReading {
  import opened SeqOps
  import opened ContextWindow

  // ----- counting -----

  ghost function AsciiPlaces(text: string): set<nat> {
    set i: nat | i < |text| && text[i] as int < 128
  }

  lemma {:induction false} CountIsPlaces(text: string)
    ensures AsciiCount(text) == |AsciiPlaces(text)|
  {
    if text == "" {
      assert AsciiPlaces(text) == {};
    } else {
      var n: nat := |text| - 1;
      var before := AsciiPlaces(text[..n]);
      CountIsPlaces(text[..n]);
      assert n !in before;
      assert AsciiPlaces(text) == if text[n] as int < 128 then before + {n} else before;
    }
  }

  /** Every other character is a token, and every four ASCII characters, begun or complete, are one. */
  lemma EstimateExactly(text: string, n: nat)
    ensures EstimateTokens(text) == n <==>
              var ascii := |AsciiPlaces(text)|;
              var others := |text| - ascii;
              ascii <= 4 * (n - others) < ascii + 4
  {
    CountIsPlaces(text);
    AsciiCountBound(text);
  }

  // ----- trimming -----

  /** The characters that Python takes for white space. */
  const WHITE: set<int> := {
    9, 10, 11, 12, 13, 28, 29, 30, 31, 32, 133, 160, 5760, 8192, 8193, 8194, 8195, 8196, 8197, 8198, 8199, 8200, 8201,
    8202, 8232, 8233, 8239, 8287, 12288}

  predicate White(c: char) {
    c as int in WHITE
  }

  lemma SpacesAre(c: char)
    ensures IsSpace(c) <==> White(c)
  {
  }

  ghost predicate AllWhite(text: string) {
    forall i :: 0 <= i < |text| ==> White(text[i])
  }

  ghost predicate EndsBlack(text: string) {
    text == "" || !White(text[|text| - 1])
  }

  ghost predicate StartsBlack(text: string) {
    text == "" || !White(text[0])
  }

  /** `t` is `text` without the white space around it. */
  ghost predicate Trims(text: string, t: string) {
    exists a, b :: text == a + t + b && AllWhite(a) && AllWhite(b) && StartsBlack(t) && EndsBlack(t)
  }

  lemma {:induction false} RightTrimmed(text: string, b: string)
    requires EndsBlack(text) && AllWhite(b)
    ensures TrimRight(text + b) == text
    decreases |b|
  {
    hide White, IsSpace;
    if b == "" {
      assert text + b == text;
      if text != "" {
        SpacesAre(text[|text| - 1]);
      }
    } else {
      var n := |b| - 1;
      assert (text + b)[..|text + b| - 1] == text + b[..n];
      SpacesAre(b[n]);
      RightTrimmed(text, b[..n]);
    }
  }

  lemma {:induction false} LeftTrimmed(a: string, text: string)
    requires AllWhite(a) && StartsBlack(text)
    ensures TrimLeft(a + text) == text
    decreases |a|
  {
    hide White, IsSpace;
    if a == "" {
      assert a + text == text;
      if text != "" {
        SpacesAre(text[0]);
      }
    } else {
      assert (a + text)[1..] == a[1..] + text;
      SpacesAre(a[0]);
      LeftTrimmed(a[1..], text);
    }
  }

  lemma {:induction false} RightIsWhite(text: string)
    ensures AllWhite(text[|TrimRight(text)|..]) && EndsBlack(TrimRight(text))
  {
    hide White, IsSpace;
    if text != "" {
      var n := |text| - 1;
      SpacesAre(text[n]);
      if IsSpace(text[n]) {
        RightIsWhite(text[..n]);
        var k := |TrimRight(text[..n])|;
        assert text[k..] == text[..n][k..] + [text[n]];
      }
    }
  }

  lemma {:induction false} LeftIsWhite(text: string)
    ensures AllWhite(text[..|text| - |TrimLeft(text)|]) && StartsBlack(TrimLeft(text))
  {
    hide White, IsSpace, AllWhite;
    if text == "" {
      NothingIsWhite(text);
    } else {
      SpacesAre(text[0]);
      var left := TrimLeft(text);
      if IsSpace(text[0]) {
        assert left == TrimLeft(text[1..]);
        hide TrimLeft;
        LeftIsWhite(text[1..]);
        WhiteCons(text, |text| - |left|);
      } else {
        NothingIsWhite(text);
      }
    }
  }

  lemma NothingIsWhite(text: string)
    ensures AllWhite(text[..0])
  {
  }

  lemma WhiteCons(text: string, k: nat)
    requires 0 < k <= |text| && White(text[0]) && AllWhite(text[1..][..k - 1])
    ensures AllWhite(text[..k])
  {
    hide White;
    forall i | 0 <= i < k ensures White(text[i]) {
      if i > 0 {
        assert text[i] == text[1..][..k - 1][i - 1];
      }
    }
  }

  /** Trimming takes exactly the white space around a text. */
  lemma TrimExactly(text: string, t: string)
    ensures Trim(text) == t <==> Trims(text, t)
  {
    hide White, IsSpace, AllWhite, TrimLeft, TrimRight;
    if Trim(text) == t {
      var right := TrimRight(text);
      RightIsWhite(text);
      LeftIsWhite(right);
      EndOfSuffix(right, t);
      assert text == right[..|right| - |t|] + t + text[|right|..];
    }
    if Trims(text, t) {
      var a, b :| text == a + t + b && AllWhite(a) && AllWhite(b) && StartsBlack(t) && EndsBlack(t);
      TrimsBack(a, t, b);
    }
  }

  lemma EndOfSuffix(text: string, t: string)
    requires |t| <= |text| && t == text[|text| - |t|..] && EndsBlack(text)
    ensures EndsBlack(t)
  {
  }

  lemma TrimsBack(a: string, t: string, b: string)
    requires AllWhite(a) && AllWhite(b) && StartsBlack(t) && EndsBlack(t)
    ensures Trim(a + t + b) == t
  {
    hide White, IsSpace;
    if t == "" {
      assert a + t + b == "" + (a + b);
      RightTrimmed("", a + b);
    } else {
      RightTrimmed(a + t, b);
      LeftTrimmed(a, t);
    }
  }

  /** A cut text loses exactly the white space at its end. */
  lemma CutExactly(text: string, limit: nat, cut: string)
    requires EstimateTokens(text) > limit
    ensures IsCut(text, limit, cut) <==>
              exists n: nat ::
                && n < |text| && EstimateTokens(text[..n]) <= limit < EstimateTokens(text[..n + 1])
                && cut <= text[..n] && AllWhite(text[|cut|..n]) && EndsBlack(cut)
  {
    hide AllWhite, EstimateTokens, TrimRight, White;
    forall n: nat | n < |text|
      ensures cut == TrimRight(text[..n]) <==>
              cut <= text[..n] && AllWhite(text[|cut|..n]) && EndsBlack(cut) {
      RightIsWhite(text[..n]);
      if cut == TrimRight(text[..n]) {
        assert text[..n][|cut|..] == text[|cut|..n];
      }
      if cut <= text[..n] && AllWhite(text[|cut|..n]) && EndsBlack(cut) {
        assert text[..n] == cut + text[|cut|..n];
        RightTrimmed(cut, text[|cut|..n]);
      }
    }
  }

  // ----- limits -----

  /** The whole part of the budget's share, but at least one token. */
  predicate TakesShare(n: nat, budget: int, ratio: real) {
    var x := budget as real * ratio;
    if x < 1.0 then n == 1 else n as real <= x < n as real + 1.0
  }

  lemma WholeShares(budget: int, ratio: real)
    ensures TakesShare(Whole(Share(budget, ratio)), budget, ratio)
  {
    var x := Share(budget, ratio);
    assert x.Floor as real <= x < x.Floor as real + 1.0;
  }

  /** An assembler exists exactly for an ordered configuration with room, and its limits are the whole parts of the
      budget's shares and both messages of every kept turn. */
  lemma ConfigExactly(window: int, maxInput: int, maxOutput: int, reserve: int, triggerRatio: real, targetRatio: real,
                      turns: int)
    ensures var budget := (if maxInput <= window - maxOutput then maxInput else window - maxOutput) - reserve;
            var r := MakeConfig(window, maxInput, maxOutput, reserve, triggerRatio, targetRatio, turns);
            && (r.Some? <==> budget > 0 && 0.0 < targetRatio < triggerRatio < 1.0 && turns >= 1)
            && (r.Some? ==>
                  && TakesShare(r.value.trigger, budget, triggerRatio)
                  && TakesShare(r.value.target, budget, targetRatio) && r.value.keep == turns * 2)
  {
    hide Share, Whole, TakesShare;
    var budget := HistoryBudget(window, maxInput, maxOutput, reserve);
    WholeShares(budget, triggerRatio);
    WholeShares(budget, targetRatio);
  }

  /** What the target leaves for a summary, but never less than 32 tokens. */
  lemma BudgetExactly(c: Config, prompt: Option<string>, recent: seq<Message>, input: Option<string>, b: nat)
    ensures SummaryBudget(c, prompt, recent, input) == b <==>
              var used := EstimateTokens(Render(prompt, None, recent))
                          + (if input.Some? then EstimateTokens(input.value) else 0)
                          + EstimateTokens("\n\n较早对话摘要：\n");
              b >= 32 && b + used >= c.target && (b == 32 || b + used == c.target)
  {
    hide Render, EstimateTokens;
    assert GAP + SUMMARY_LABEL == "\n\n较早对话摘要：\n";
  }

  // ----- the rendered block -----

  /** One message: its speaker, its content, and the SQL that was generated for it. */
  predicate SaysMessage(m: Message, s: string) {
    s == (if m.fromUser then "\n用户：" else "\n助手：") + m.content
         + if m.sql.Some? && m.sql.value != "" then "\n助手已生成 SQL：" + m.sql.value else ""
  }

  function Concatenated(pieces: seq<string>): string {
    if pieces == [] then "" else Concatenated(pieces[..|pieces| - 1]) + pieces[|pieces| - 1]
  }

  /** Every message once, in order. */
  ghost predicate SaysHistory(messages: seq<Message>, s: string) {
    if messages == [] then s == ""
    else
      exists pieces: seq<string> ::
        && |pieces| == |messages| && (forall i :: 0 <= i < |pieces| ==> SaysMessage(messages[i], pieces[i]))
        && s == "未压缩的历史对话：" + Concatenated(pieces)
  }

  /** Nothing for an absent text, else its label and the text without surrounding white space. */
  ghost predicate SaysLabelled(heading: string, text: Option<string>, s: string) {
    if text.None? || text.value == "" then s == "" else exists t :: Trims(text.value, t) && s == heading + t
  }

  /** The parts that are there, with an empty line between them. */
  function Spaced(a: string, b: string): string {
    if a == "" then b else if b == "" then a else a + "\n\n" + b
  }

  ghost predicate SaysContext(prompt: Option<string>, summary: Option<string>, messages: seq<Message>, text: string) {
    exists p, s, h ::
      && SaysLabelled("本轮会话提示词：\n", prompt, p) && SaysLabelled("较早对话摘要：\n", summary, s)
      && SaysHistory(messages, h) && text == Spaced(Spaced(p, s), h)
  }

  lemma {:induction false} HistorySays(messages: seq<Message>) returns (pieces: seq<string>)
    ensures |pieces| == |messages| && forall i :: 0 <= i < |pieces| ==> SaysMessage(messages[i], pieces[i])
    ensures HistoryText(messages) == "未压缩的历史对话：" + Concatenated(pieces)
  {
    if messages == [] {
      pieces := [];
      assert HISTORY_LABEL + "" == HISTORY_LABEL;
    } else {
      var n := |messages| - 1;
      var before := HistorySays(messages[..n]);
      var last := MessageLines(messages[n]);
      MessageSays(messages[n]);
      hide MessageLines, SaysMessage;
      pieces := before + [last];
      assert pieces[..n] == before;
      Rejoin("未压缩的历史对话：", Concatenated(before), last);
    }
  }

  lemma Rejoin(a: string, b: string, c: string)
    ensures (a + b) + c == a + (b + c)
  {
  }

  lemma MessageSays(m: Message)
    ensures SaysMessage(m, MessageLines(m))
  {
    var who := if m.fromUser then "\n用户：" else "\n助手：";
    assert "\n" + Speaker(m) + "：" == who;
  }

  lemma LabelledSays(heading: string, text: Option<string>)
    ensures SaysLabelled(heading, text, if Present(text) then heading + Trim(text.value) else "")
  {
    hide Trim, Trims;
    if Present(text) {
      TrimExactly(text.value, Trim(text.value));
    }
  }

  /** The block names the prompt, the summary and every message, in this order. */
  lemma RenderSays(prompt: Option<string>, summary: Option<string>, messages: seq<Message>)
    ensures SaysContext(prompt, summary, messages, Render(prompt, summary, messages))
  {
    hide Trim, HistoryText, SaysLabelled, SaysHistory;
    var p := if Present(prompt) then PROMPT_LABEL + Trim(prompt.value) else "";
    var s := if Present(summary) then SUMMARY_LABEL + Trim(summary.value) else "";
    var h := if messages == [] then "" else HistoryText(messages);
    LabelledSays(PROMPT_LABEL, prompt);
    LabelledSays(SUMMARY_LABEL, summary);
    HistoryIsSaid(messages);
    RenderIsSpaced(prompt, summary, messages, p, s, h);
  }

  lemma HistoryIsSaid(messages: seq<Message>)
    ensures SaysHistory(messages, if messages == [] then "" else HistoryText(messages))
    ensures HistoryText(messages) != ""
  {
    hide HistoryText, SaysMessage, Concatenated;
    var pieces := HistorySays(messages);
  }

  lemma RenderIsSpaced(prompt: Option<string>, summary: Option<string>, messages: seq<Message>, p: string, s: string,
                       h: string)
    requires p == if Present(prompt) then PROMPT_LABEL + Trim(prompt.value) else ""
    requires s == if Present(summary) then SUMMARY_LABEL + Trim(summary.value) else ""
    requires h == (if messages == [] then "" else HistoryText(messages)) && HistoryText(messages) != ""
    ensures Render(prompt, summary, messages) == Spaced(Spaced(p, s), h)
  {
    hide Trim, HistoryText;
    var parts := PromptParts(prompt) + SummaryParts(summary) + HistoryParts(messages);
    assert PromptParts(prompt) == (if p == "" then [] else [p])
           && SummaryParts(summary) == (if s == "" then [] else [s])
           && HistoryParts(messages) == if h == "" then [] else [h];
    hide PromptParts, SummaryParts, HistoryParts;
    assert parts == (if p == "" then [] else [p]) + (if s == "" then [] else [s]) + if h == "" then [] else [h];
    PartsAreSpaced(p, s, h);
  }

  lemma PartsAreSpaced(p: string, s: string, h: string)
    ensures JoinParts((if p == "" then [] else [p]) + (if s == "" then [] else [s]) + if h == "" then [] else [h])
            == Spaced(Spaced(p, s), h)
  {
    hide JoinParts;
    var parts := (if p == "" then [] else [p]) + (if s == "" then [] else [s]) + if h == "" then [] else [h];
    JoinNone();
    JoinOne(p);
    JoinOne(s);
    JoinOne(h);
    JoinTwo(p, s);
    JoinTwo(p, h);
    JoinTwo(s, h);
    JoinThree(p, s, h);
    if p != "" && s != "" && h != "" {
      assert parts == [p, s, h];
    } else if p != "" && s != "" {
      assert parts == [p, s];
    } else if p != "" && h != "" {
      assert parts == [p, h];
    } else if s != "" && h != "" {
      assert parts == [s, h];
    } else {
      assert parts == if p != "" then [p] else if s != "" then [s] else if h != "" then [h] else [];
    }
  }

  lemma JoinNone()
    ensures JoinParts([]) == ""
  {
  }

  lemma JoinOne(a: string)
    ensures JoinParts([a]) == a
  {
  }

  // ----- the summary -----

  function NumberOf(digits: string): nat {
    if digits == "" then 0
    else NumberOf(digits[..|digits| - 1]) * 10 + if '0' <= digits[|digits| - 1] <= '9'
                                                 then digits[|digits| - 1] as int - '0' as int else 0
  }

  /** The decimal digits of a number, without leading zeros. */
  ghost predicate Writes(digits: string, n: nat) {
    && digits != "" && (forall i :: 0 <= i < |digits| ==> '0' <= digits[i] <= '9') && NumberOf(digits) == n
    && (|digits| > 1 ==> digits[0] != '0')
  }

  lemma {:induction false} DecimalWrites(n: nat)
    ensures Writes(Decimal(n), n) && (n > 0 ==> Decimal(n)[0] != '0')
  {
    if n >= 10 {
      DecimalWrites(n / 10);
      var before, last := Decimal(n / 10), DigitText(n % 10);
      assert (before + last)[..|before + last| - 1] == before;
    } else {
      assert DigitText(n)[..0] == "";
    }
  }

  /** At most `n` characters from the start. */
  predicate Starts(text: string, n: nat, s: string) {
    s <= text && |s| == if |text| <= n then |text| else n
  }

  /** The first 240 characters of the trimmed content, with blanks for line breaks. */
  ghost predicate IsExcerpt(content: string, e: string) {
    exists t ::
      && Trims(content, t) && |e| == (if |t| <= 240 then |t| else 240)
      && forall i :: 0 <= i < |e| ==> e[i] == if t[i] == '\n' then ' ' else t[i]
  }

  /** Nothing without SQL, else its start. */
  ghost predicate SaysSql(sql: Option<string>, digits: string, s: string) {
    if sql.None? || sql.value == "" then s == ""
    else exists t, q :: Trims(sql.value, t) && Starts(t, 400, q) && s == "\nSQL#" + digits + "：" + q
  }

  /** The extract of one message: speaker, number, the start of the content, and the start of the SQL. */
  ghost predicate SaysExtract(m: Message, s: string) {
    exists digits, e, sql ::
      && Writes(digits, m.id) && IsExcerpt(m.content, e) && SaysSql(m.sql, digits, sql)
      && s == (if m.fromUser then "\n用户#" else "\n助手#") + digits + "：" + e + sql
  }

  /** The deterministic summary: its heading, the previous summary, and an extract of every message in order. */
  ghost predicate SaysFallback(previous: Option<string>, messages: seq<Message>, s: string) {
    exists pieces: seq<string> ::
      && |pieces| == |messages| && (forall i :: 0 <= i < |pieces| ==> SaysExtract(messages[i], pieces[i]))
      && s == "历史上下文提取（模型摘要不可用）："
              + (if previous.Some? && previous.value != "" then "\n已有摘要：" + previous.value else "")
              + Concatenated(pieces)
  }

  lemma ExtractSays(m: Message)
    ensures SaysExtract(m, Extract(m))
  {
    hide Trim, Decimal, Writes, IsExcerpt, SaysSql, Shorten, OneLine;
    var e := Shorten(OneLine(Trim(m.content)), 240);
    var digits := Decimal(m.id);
    var sql := if Present(m.sql) then "\nSQL#" + digits + "：" + Shorten(Trim(m.sql.value), 400) else "";
    DecimalWrites(m.id);
    ExcerptIs(m.content);
    SqlIs(m.sql, digits);
    assert "\n" + Speaker(m) + "#" == if m.fromUser then "\n用户#" else "\n助手#";
    assert Extract(m) == (if m.fromUser then "\n用户#" else "\n助手#") + digits + "：" + e + sql;
  }

  lemma SqlIs(sql: Option<string>, digits: string)
    ensures SaysSql(sql, digits, if Present(sql) then "\nSQL#" + digits + "：" + Shorten(Trim(sql.value), 400) else "")
  {
    hide Trim, Trims;
    if Present(sql) {
      TrimExactly(sql.value, Trim(sql.value));
      assert Starts(Trim(sql.value), 400, Shorten(Trim(sql.value), 400));
    }
  }

  lemma ExcerptIs(content: string)
    ensures IsExcerpt(content, Shorten(OneLine(Trim(content)), 240))
  {
    hide Trim, Trims;
    TrimExactly(content, Trim(content));
  }

  lemma {:induction false} ExtractsSay(messages: seq<Message>) returns (pieces: seq<string>)
    ensures |pieces| == |messages| && forall i :: 0 <= i < |pieces| ==> SaysExtract(messages[i], pieces[i])
    ensures FallbackLines(messages) == Concatenated(pieces)
  {
    hide SaysExtract, Extract;
    if messages == [] {
      pieces := [];
    } else {
      var n := |messages| - 1;
      var before := ExtractsSay(messages[..n]);
      ExtractSays(messages[n]);
      pieces := before + [Extract(messages[n])];
      assert pieces[..n] == before;
    }
  }

  /** The model's answer without the white space around it; the deterministic summary when there is none or nothing
      else in it. */
  lemma SummarySays(previous: Option<string>, prefix: seq<Message>, reply: Option<string>)
    ensures var s := ChosenSummary(previous, prefix, reply);
            if reply.Some? && !AllWhite(reply.value) then Trims(reply.value, s) else SaysFallback(previous, prefix, s)
  {
    hide Trim, Trims, FallbackLines, SaysExtract, Concatenated, AllWhite;
    var pieces := ExtractsSay(prefix);
    assert SaysFallback(previous, prefix, FallbackSummary(previous, prefix));
    hide SaysFallback, FallbackSummary;
    if reply.Some? {
      TrimExactly(reply.value, Trim(reply.value));
      TrimExactly(reply.value, "");
      EmptyTrim(reply.value);
    }
  }

  lemma BothWhite(a: string, b: string)
    requires AllWhite(a) && AllWhite(b)
    ensures AllWhite(a + b)
  {
    hide White;
  }

  lemma EmptyTrim(text: string)
    ensures Trims(text, "") <==> AllWhite(text)
  {
    hide AllWhite;
    NothingIsWhite("");
    if AllWhite(text) {
      assert text == text + "" + "" && ""[..0] == "";
    }
    if Trims(text, "") {
      var a, b :| text == a + "" + b && AllWhite(a) && AllWhite(b) && StartsBlack("") && EndsBlack("");
      BothWhite(a, b);
      assert text == a + b;
    }
  }
}
