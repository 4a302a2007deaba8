/** What the patterns of a time request denote and which of their periods are collected, stated on the matches and the
    calendar alone. For `_month_tokens` and `_day_tokens` of ontology_core/temporal.py. */
module TimeReading {
  import opened SeqOps
  import opened Calendar
  import opened TimeRequests

  // ----- what one match denotes -----

  /** A token from one month to another that is not earlier. */
  predicate IsMonths(t: Token, span: Span, first: Month, last: Month, relative: bool) {
    && t == Token(span, MonthValue(first), MonthValue(last), relative)
    && 1 <= first.year <= 9999 && 1 <= first.month <= 12 && 1 <= last.year <= 9999 && 1 <= last.month <= 12
    && (first.year < last.year || (first.year == last.year && first.month <= last.month))
  }

  /** A token from one day of the calendar to another that is not earlier. */
  predicate IsDays(t: Token, span: Span, first: Day, last: Day, relative: bool) {
    && t == Token(span, DayValue(first), DayValue(last), relative)
    && ValidDay(first) && ValidDay(last)
    && (first.year < last.year
        || (first.year == last.year && (first.month < last.month
                                        || (first.month == last.month && first.day <= last.day))))
  }

  /** The end takes the year of the start when it has none. */
  predicate ReadsRange(r: RangeMatch, t: Token) {
    IsMonths(t, r.span, Month(r.startYear, r.startMonth),
             Month(match r.endYear case None => r.startYear case Some(year) => year, r.endMonth), false)
  }

  /** As many months as counted, up to the month before the system month. */
  predicate ReadsRecent(system: Day, r: CountMatch, t: Token) {
    && t.start.MonthValue? && t.end.MonthValue? && IsMonths(t, r.span, t.start.m, t.end.m, true)
    && 12 * t.end.m.year + t.end.m.month + 1 == 12 * system.year + system.month
    && 12 * t.start.m.year + t.start.m.month + r.count == 12 * system.year + system.month
  }

  predicate ReadsThisMonth(system: Day, span: Span, t: Token) {
    var month := Month(system.year, system.month);
    IsMonths(t, span, month, month, true)
  }

  predicate ReadsLastMonth(system: Day, span: Span, t: Token) {
    && t.start.MonthValue? && IsMonths(t, span, t.start.m, t.start.m, true)
    && 12 * t.start.m.year + t.start.m.month + 1 == 12 * system.year + system.month
  }

  predicate ReadsMonth(r: MonthMatch, t: Token) {
    IsMonths(t, r.span, Month(r.year, r.month), Month(r.year, r.month), false)
  }

  /** A month without a year lies in the system year. */
  predicate ReadsYearless(system: Day, r: MonthMatch, t: Token) {
    IsMonths(t, r.span, Month(system.year, r.month), Month(system.year, r.month), false)
  }

  predicate ReadsDay(r: DayMatch, t: Token) {
    IsDays(t, r.span, Day(r.year, r.month, r.day), Day(r.year, r.month, r.day), false)
  }

  predicate ReadsDayRange(r: DayRangeMatch, t: Token) {
    IsDays(t, r.span, Day(r.start.year, r.start.month, r.start.day), Day(r.end.year, r.end.month, r.end.day), false)
  }

  predicate ReadsRelativeDay(d: Day, span: Span, t: Token) {
    IsDays(t, span, d, d, true)
  }

  /** The first day of the token's first month to the last day of its last. */
  predicate ReadsWhole(months: Token, t: Token) {
    && months.start.MonthValue? && months.end.MonthValue? && ValidMonth(months.end.m)
    && var first, last := months.start.m, months.end.m;
       IsDays(t, months.span, Day(first.year, first.month, 1),
              Day(last.year, last.month, DaysIn(last.year, last.month)), months.relative)
  }

  lemma MonthsRead(t: Option<Token>, span: Span, first: Month, last: Month, relative: bool, x: Token)
    requires t == MonthToken(span, first, last, relative)
    ensures t == Some(x) <==> IsMonths(x, span, first, last, relative)
  {
  }

  lemma DaysRead(span: Span, first: Day, last: Day, relative: bool, x: Token)
    ensures DayToken(span, first, last, relative) == Some(x) <==> IsDays(x, span, first, last, relative)
  {
    if ValidDay(first) && ValidDay(last) {
      assert first.day <= 31 && last.day <= 31;
    }
  }

  lemma RangeReads(r: RangeMatch, t: Token)
    ensures RangeToken(r) == Some(t) <==> ReadsRange(r, t)
  {
  }

  lemma RecentReads(system: Day, r: CountMatch, t: Token)
    requires ValidDay(system)
    ensures RecentToken(system, r) == Some(t) <==> ReadsRecent(system, r, t)
  {
    var last := Shift(MonthOf(system), -1);
    var first := Shift(last, -(r.count - 1));
    MonthsRead(RecentToken(system, r), r.span, first, last, true, t);
    hide Shift, MonthToken;
    if ReadsRecent(system, r, t) {
      SameIndex(t.end.m, last);
      SameIndex(t.start.m, first);
    }
  }

  lemma SameIndex(a: Month, b: Month)
    requires 1 <= a.month <= 12 && 1 <= b.month <= 12 && Index(a) == Index(b)
    ensures a == b
  {
  }

  lemma ThisMonthReads(system: Day, span: Span, t: Token)
    requires ValidDay(system)
    ensures RelativeMonth(system, 0)(span) == Some(t) <==> ReadsThisMonth(system, span, t)
  {
    SameIndex(Shift(MonthOf(system), 0), MonthOf(system));
  }

  lemma LastMonthReads(system: Day, span: Span, t: Token)
    requires ValidDay(system)
    ensures RelativeMonth(system, -1)(span) == Some(t) <==> ReadsLastMonth(system, span, t)
  {
    var m := Shift(MonthOf(system), -1);
    MonthsRead(RelativeMonth(system, -1)(span), span, m, m, true, t);
    if ReadsLastMonth(system, span, t) {
      SameIndex(t.start.m, m);
    }
  }

  lemma DayReads(r: DayMatch, t: Token)
    ensures SingleDay(r) == Some(t) <==> ReadsDay(r, t)
  {
    DaysRead(r.span, Day(r.year, r.month, r.day), Day(r.year, r.month, r.day), false, t);
  }

  lemma DayRangeReads(r: DayRangeMatch, t: Token)
    ensures DayRange(r) == Some(t) <==> ReadsDayRange(r, t)
  {
    DaysRead(r.span, Day(r.start.year, r.start.month, r.start.day), Day(r.end.year, r.end.month, r.end.day), false, t);
  }

  lemma WholeReads(months: Token, t: Token)
    requires FineToken(months, MonthGrain)
    ensures Expand(months) == Some(t) <==> ReadsWhole(months, t)
  {
    var first, last := months.start.m, months.end.m;
    DaysRead(months.span, Day(first.year, first.month, 1), Day(last.year, last.month, DaysIn(last.year, last.month)),
             months.relative, t);
  }

  // ----- pattern after pattern -----

  /** Every match of a pattern gives one token, in order. */
  ghost predicate Listed<M>(matches: seq<M>, says: (M, Token) -> bool, tokens: seq<Token>) {
    |tokens| == |matches| && forall i :: 0 <= i < |matches| ==> says(matches[i], tokens[i])
  }

  lemma {:induction false} TokensListed<M(!new)>(f: M -> Option<Token>, matches: seq<M>, says: (M, Token) -> bool,
                                                 tokens: seq<Token>)
    requires forall m, t :: m in matches ==> (f(m) == Some(t) <==> says(m, t))
    ensures Tokens(f, matches) == Some(tokens) <==> Listed(matches, says, tokens)
  {
    if matches != [] && tokens != [] {
      TokensListed(f, matches[1..], says, tokens[1..]);
      assert tokens == [tokens[0]] + tokens[1..];
      assert matches[0] in matches;
      if Listed(matches, says, tokens) {
        assert says(matches[0], tokens[0]);
      }
    }
  }

  function Appended(lists: seq<seq<Token>>): seq<Token> {
    if lists == [] then [] else Appended(lists[..|lists| - 1]) + lists[|lists| - 1]
  }

  /** The lists of all parts, none of them missing. */
  ghost predicate PartsAre(parts: seq<Option<seq<Token>>>, lists: seq<seq<Token>>) {
    |lists| == |parts| && forall i :: 0 <= i < |parts| ==> parts[i] == Some(lists[i])
  }

  lemma {:induction false} AppendedParts(parts: seq<Option<seq<Token>>>) returns (lists: seq<seq<Token>>)
    requires AppendAll(parts).Some?
    ensures PartsAre(parts, lists) && AppendAll(parts).value == Appended(lists)
  {
    if parts == [] {
      lists := [];
    } else {
      var n := |parts| - 1;
      var before := AppendedParts(parts[..n]);
      lists := before + [parts[n].value];
      assert lists[..n] == before;
      forall i | 0 <= i < n ensures parts[i] == Some(lists[i]) {
        assert parts[..n][i] == parts[i];
      }
    }
  }

  lemma {:induction false} PartsAppend(parts: seq<Option<seq<Token>>>, lists: seq<seq<Token>>)
    requires PartsAre(parts, lists)
    ensures AppendAll(parts) == Some(Appended(lists))
  {
    if parts != [] {
      PartsAppend(parts[..|parts| - 1], lists[..|lists| - 1]);
    }
  }

  /** The month candidates: pattern after pattern in order of preference, and within a pattern in text order. */
  ghost predicate MonthCandidates(system: Day, m: MonthMatches, lists: seq<seq<Token>>) {
    && |lists| == 8
    && Listed(m.ranges, ReadsRange, lists[0])
    && Listed(m.recents, (r: CountMatch, t: Token) => ReadsRecent(system, r, t), lists[1])
    && Listed(m.thisMonth, (span: Span, t: Token) => ReadsThisMonth(system, span, t), lists[2])
    && Listed(m.lastMonth, (span: Span, t: Token) => ReadsLastMonth(system, span, t), lists[3])
    && Listed(m.full, ReadsMonth, lists[4]) && Listed(m.compact, ReadsMonth, lists[5])
    && Listed(m.dashed, ReadsMonth, lists[6])
    && Listed(m.yearless, (r: MonthMatch, t: Token) => ReadsYearless(system, r, t), lists[7])
  }

  lemma MonthPartsRead(system: Day, m: MonthMatches, lists: seq<seq<Token>>)
    requires ValidDay(system)
    ensures PartsAre(MonthParts(system, m), lists) <==> MonthCandidates(system, m, lists)
  {
    hide Tokens, Listed, RangeToken, RecentToken, RelativeMonth, SingleMonth, YearlessMonth, ReadsRecent,
         ReadsThisMonth, ReadsLastMonth, ReadsMonth, ReadsYearless, ReadsRange;
    if |lists| == 8 {
      RangesListed(m.ranges, lists[0]);
      RecentsListed(system, m.recents, lists[1]);
      ThisMonthsListed(system, m.thisMonth, lists[2]);
      LastMonthsListed(system, m.lastMonth, lists[3]);
      MonthsListed(m.full, lists[4]);
      MonthsListed(m.compact, lists[5]);
      MonthsListed(m.dashed, lists[6]);
      YearlessListed(system, m.yearless, lists[7]);
      RecentsSame(system, m);
    }
  }

  lemma RangesListed(matches: seq<RangeMatch>, tokens: seq<Token>)
    ensures Tokens(RangeToken, matches) == Some(tokens) <==> Listed(matches, ReadsRange, tokens)
  {
    forall r, t ensures RangeToken(r) == Some(t) <==> ReadsRange(r, t) {
      RangeReads(r, t);
    }
    TokensListed(RangeToken, matches, ReadsRange, tokens);
  }

  lemma RecentsListed(system: Day, matches: seq<CountMatch>, tokens: seq<Token>)
    requires ValidDay(system)
    ensures Tokens((r: CountMatch) => RecentToken(system, r), matches) == Some(tokens) <==>
              Listed(matches, (r: CountMatch, t: Token) => ReadsRecent(system, r, t), tokens)
  {
    forall r, t ensures RecentToken(system, r) == Some(t) <==> ReadsRecent(system, r, t) {
      RecentReads(system, r, t);
    }
    TokensListed((r: CountMatch) => RecentToken(system, r), matches,
                 (r: CountMatch, t: Token) => ReadsRecent(system, r, t), tokens);
  }

  lemma ThisMonthsListed(system: Day, matches: seq<Span>, tokens: seq<Token>)
    requires ValidDay(system)
    ensures Tokens(RelativeMonth(system, 0), matches) == Some(tokens) <==>
              Listed(matches, (span: Span, t: Token) => ReadsThisMonth(system, span, t), tokens)
  {
    forall span, t ensures RelativeMonth(system, 0)(span) == Some(t) <==> ReadsThisMonth(system, span, t) {
      ThisMonthReads(system, span, t);
    }
    TokensListed(RelativeMonth(system, 0), matches,
                 (span: Span, t: Token) => ReadsThisMonth(system, span, t), tokens);
  }

  lemma LastMonthsListed(system: Day, matches: seq<Span>, tokens: seq<Token>)
    requires ValidDay(system)
    ensures Tokens(RelativeMonth(system, -1), matches) == Some(tokens) <==>
              Listed(matches, (span: Span, t: Token) => ReadsLastMonth(system, span, t), tokens)
  {
    forall span, t ensures RelativeMonth(system, -1)(span) == Some(t) <==> ReadsLastMonth(system, span, t) {
      LastMonthReads(system, span, t);
    }
    TokensListed(RelativeMonth(system, -1), matches,
                 (span: Span, t: Token) => ReadsLastMonth(system, span, t), tokens);
  }

  lemma MonthsListed(matches: seq<MonthMatch>, tokens: seq<Token>)
    ensures Tokens(SingleMonth, matches) == Some(tokens) <==> Listed(matches, ReadsMonth, tokens)
  {
    TokensListed(SingleMonth, matches, ReadsMonth, tokens);
  }

  lemma YearlessListed(system: Day, matches: seq<MonthMatch>, tokens: seq<Token>)
    ensures Tokens(YearlessMonth(system), matches) == Some(tokens) <==>
              Listed(matches, (r: MonthMatch, t: Token) => ReadsYearless(system, r, t), tokens)
  {
    TokensListed(YearlessMonth(system), matches, (r: MonthMatch, t: Token) => ReadsYearless(system, r, t), tokens);
  }

  // ----- what is collected -----

  /** One piece of text ends before the other begins. */
  predicate Apart(a: Span, b: Span) {
    a.to <= b.from || b.to <= a.from
  }

  /** A candidate is kept when it lies apart from all candidates kept before it. */
  ghost predicate KeepsFirst(all: seq<Token>, kept: seq<bool>) {
    |kept| == |all|
    && forall i :: 0 <= i < |all| ==>
         (kept[i] <==> forall j :: 0 <= j < i && kept[j] ==> Apart(all[i].span, all[j].span))
  }

  function Picked(all: seq<Token>, kept: seq<bool>): seq<Token>
    requires |kept| == |all|
  {
    if all == [] then []
    else
      var n := |all| - 1;
      Picked(all[..n], kept[..n]) + if kept[n] then [all[n]] else []
  }

  /** The kept candidates, each once, in the order of the text. */
  ghost predicate Collects(all: seq<Token>, tokens: seq<Token>) {
    && (exists kept :: KeepsFirst(all, kept) && multiset(tokens) == multiset(Picked(all, kept)))
    && forall i, k :: 0 <= i < k < |tokens| ==> tokens[i].span.from <= tokens[k].span.from
  }

  lemma {:induction false} PickedAre(all: seq<Token>, kept: seq<bool>, t: Token)
    requires |kept| == |all|
    ensures t in Picked(all, kept) <==> exists j :: 0 <= j < |all| && kept[j] && all[j] == t
  {
    if all != [] {
      var n := |all| - 1;
      PickedAre(all[..n], kept[..n], t);
      if t in Picked(all[..n], kept[..n]) {
        var j :| 0 <= j < n && kept[..n][j] && all[..n][j] == t;
        assert kept[j] && all[j] == t;
      }
      if j :| 0 <= j < |all| && kept[j] && all[j] == t {
        if j < n {
          assert kept[..n][j] && all[..n][j] == t;
        }
      }
    }
  }

  lemma OverlapsPicked(all: seq<Token>, kept: seq<bool>, span: Span)
    requires |kept| == |all|
    ensures OverlapsAny(span, Picked(all, kept)) <==>
              exists j :: 0 <= j < |all| && kept[j] && !Apart(span, all[j].span)
  {
    hide Picked;
    forall t ensures t in Picked(all, kept) <==> exists j :: 0 <= j < |all| && kept[j] && all[j] == t {
      PickedAre(all, kept, t);
    }
    if j :| 0 <= j < |all| && kept[j] && !Apart(span, all[j].span) {
      assert all[j] in Picked(all, kept) && Overlap(span, all[j].span);
    }
  }

  lemma {:induction false} AcceptKeepsFirst(all: seq<Token>) returns (kept: seq<bool>)
    ensures KeepsFirst(all, kept) && Accept(all) == Picked(all, kept)
  {
    if all == [] {
      kept := [];
    } else {
      hide OverlapsAny, Apart, KeepsFirst;
      var n := |all| - 1;
      var before := AcceptKeepsFirst(all[..n]);
      OverlapsPicked(all[..n], before, all[n].span);
      kept := before + [!OverlapsAny(all[n].span, Accept(all[..n]))];
      assert kept[..n] == before;
      assert forall j :: 0 <= j < n ==> kept[j] == before[j] && all[..n][j] == all[j];
      KeepsOneMore(all, kept);
    }
  }

  lemma KeepsOneMore(all: seq<Token>, kept: seq<bool>)
    requires all != [] && |kept| == |all|
    requires KeepsFirst(all[..|all| - 1], kept[..|all| - 1])
    requires kept[|all| - 1] <==>
             forall j :: 0 <= j < |all| - 1 && kept[j] ==> Apart(all[|all| - 1].span, all[j].span)
    ensures KeepsFirst(all, kept)
  {
    hide Apart;
    var n := |all| - 1;
    forall i | 0 <= i < n
      ensures kept[i] <==> forall j :: 0 <= j < i && kept[j] ==> Apart(all[i].span, all[j].span) {
      assert kept[i] == kept[..n][i] && all[i] == all[..n][i];
      assert forall j :: 0 <= j < i ==> kept[j] == kept[..n][j] && all[j] == all[..n][j];
    }
  }

  /** Collecting keeps the first of overlapping candidates. */
  lemma CollectsFirst(all: seq<Token>)
    ensures Collects(all, SortTokens(Accept(all)))
  {
    hide KeepsFirst, Accept;
    var kept := AcceptKeepsFirst(all);
    var key := (t: Token) => t.span.from;
    SortBySorts(key, Accept(all));
    var tokens := SortTokens(Accept(all));
    forall i, k | 0 <= i < k < |tokens| ensures tokens[i].span.from <= tokens[k].span.from {
      assert key(tokens[i]) <= key(tokens[k]);
    }
  }

  // ----- the candidates of a request -----

  /** In month grain a request is read exactly when all its matches are, and then it has these candidates. */
  lemma MonthsAreRead(system: Day, d: DayMatches, m: MonthMatches)
    requires ValidDay(system)
    ensures var r := AppendAll(TokenParts(MonthGrain, system, d, m));
            && (r.Some? <==> exists lists :: MonthCandidates(system, m, lists))
            && (r.Some? ==> exists lists :: MonthCandidates(system, m, lists) && r.value == Appended(lists))
  {
    hide AppendAll, MonthCandidates, MonthParts;
    var parts := MonthParts(system, m);
    if AppendAll(parts).Some? {
      var lists := AppendedParts(parts);
      MonthPartsRead(system, m, lists);
    }
    if lists :| MonthCandidates(system, m, lists) {
      MonthPartsRead(system, m, lists);
      PartsAppend(parts, lists);
    }
  }

  /** The months that a request names, as in month grain. */
  ghost predicate NamesMonths(system: Day, m: MonthMatches, months: seq<Token>) {
    exists lists :: MonthCandidates(system, m, lists) && Collects(Appended(lists), months)
  }

  lemma MonthTokensName(system: Day, m: MonthMatches)
    requires ValidDay(system)
    ensures MonthTokens(system, m).Some? <==> exists months :: NamesMonths(system, m, months)
    ensures MonthTokens(system, m).Some? ==> NamesMonths(system, m, MonthTokens(system, m).value)
  {
    hide AppendAll, MonthCandidates, MonthParts, Collects, SortTokens, Accept;
    MonthsAreRead(system, NO_DAYS, m);
    if AppendAll(MonthParts(system, m)).Some? {
      CollectsFirst(AppendAll(MonthParts(system, m)).value);
      assert NamesMonths(system, m, MonthTokens(system, m).value);
    }
    if months :| NamesMonths(system, m, months) {
      assert exists lists :: MonthCandidates(system, m, lists);
    }
  }

  /** The last day before `d`. */
  ghost predicate JustBefore(x: Day, d: Day) {
    ValidDay(x) && Rank(x) < Rank(d) && forall y :: ValidDay(y) ==> !(Rank(x) < Rank(y) < Rank(d))
  }

  lemma JustBeforeIs(d: Day, x: Day)
    requires ValidDay(d)
    ensures JustBefore(x, d) <==> !IsFirstEver(d) && x == DayBefore(d)
  {
    hide ValidDay;
    if IsFirstEver(d) {
      if ValidDay(x) {
        FirstIsLeast(x);
      }
    } else {
      var before := DayBefore(d);
      DayBeforeIsNext(d, before);
      SameRank(before, d);
      forall y | ValidDay(y) ensures !(Rank(before) < Rank(y) < Rank(d)) {
        DayBeforeIsNext(d, y);
      }
      if JustBefore(x, d) {
        DayBeforeIsNext(d, x);
        SameRank(x, before);
        assert !(Rank(x) < Rank(before) < Rank(d));
      }
    }
  }

  lemma FirstIsLeast(x: Day)
    requires ValidDay(x)
    ensures Rank(Day(1, 1, 1)) <= Rank(x)
  {
  }

  lemma EarlierAre(system: Day)
    requires ValidDay(system)
    ensures forall y :: JustBefore(y, system) <==> Earlier(system, 1) == Some(y)
    ensures forall b :: (exists y :: JustBefore(y, system) && JustBefore(b, y)) <==> Earlier(system, 2) == Some(b)
  {
    hide JustBefore, DayBefore;
    forall y ensures JustBefore(y, system) <==> Earlier(system, 1) == Some(y) {
      JustBeforeIs(system, y);
      EarlierOnce(system);
    }
    forall b ensures (exists y :: JustBefore(y, system) && JustBefore(b, y)) <==> Earlier(system, 2) == Some(b) {
      if !IsFirstEver(system) {
        var y := DayBefore(system);
        JustBeforeIs(system, y);
        JustBeforeIs(y, b);
        EarlierTwice(system);
        EarlierOnce(y);
      } else {
        assert Earlier(system, 2) == None;
      }
    }
  }

  lemma EarlierOnce(d: Day)
    requires ValidDay(d)
    ensures Earlier(d, 1) == if IsFirstEver(d) then None else Some(DayBefore(d))
  {
  }

  lemma EarlierTwice(d: Day)
    requires ValidDay(d) && !IsFirstEver(d)
    ensures Earlier(d, 2) == Earlier(DayBefore(d), 1)
  {
  }

  /** The day candidates: pattern after pattern in order of preference, the months of the request last. */
  ghost predicate DayCandidates(system: Day, d: DayMatches, yesterday: Day, before: Day, months: seq<Token>,
                                lists: seq<seq<Token>>) {
    && |lists| == 8 && JustBefore(yesterday, system) && JustBefore(before, yesterday)
    && Listed(d.compact, ReadsDay, lists[0]) && Listed(d.ranges, ReadsDayRange, lists[1])
    && Listed(d.today, (span: Span, t: Token) => ReadsRelativeDay(system, span, t), lists[2])
    && Listed(d.yesterday, (span: Span, t: Token) => ReadsRelativeDay(yesterday, span, t), lists[3])
    && Listed(d.beforeYesterday, (span: Span, t: Token) => ReadsRelativeDay(before, span, t), lists[4])
    && Listed(d.chinese, ReadsDay, lists[5]) && Listed(d.iso, ReadsDay, lists[6])
    && Listed(months, ReadsWhole, lists[7])
  }

  lemma DaysListed(matches: seq<DayMatch>, tokens: seq<Token>)
    ensures Tokens(SingleDay, matches) == Some(tokens) <==> Listed(matches, ReadsDay, tokens)
  {
    forall r, t ensures SingleDay(r) == Some(t) <==> ReadsDay(r, t) {
      DayReads(r, t);
    }
    TokensListed(SingleDay, matches, ReadsDay, tokens);
  }

  lemma DayRangesListed(matches: seq<DayRangeMatch>, tokens: seq<Token>)
    ensures Tokens(DayRange, matches) == Some(tokens) <==> Listed(matches, ReadsDayRange, tokens)
  {
    forall r, t ensures DayRange(r) == Some(t) <==> ReadsDayRange(r, t) {
      DayRangeReads(r, t);
    }
    TokensListed(DayRange, matches, ReadsDayRange, tokens);
  }

  lemma RelativesListed(day: Day, matches: seq<Span>, tokens: seq<Token>)
    ensures Tokens(RelativeDay(day), matches) == Some(tokens) <==>
              Listed(matches, (span: Span, t: Token) => ReadsRelativeDay(day, span, t), tokens)
  {
    forall span, t ensures RelativeDay(day)(span) == Some(t) <==> ReadsRelativeDay(day, span, t) {
      DaysRead(span, day, day, true, t);
    }
    TokensListed(RelativeDay(day), matches, (span: Span, t: Token) => ReadsRelativeDay(day, span, t), tokens);
  }

  lemma WholesListed(months: seq<Token>, tokens: seq<Token>)
    requires forall t :: t in months ==> FineToken(t, MonthGrain)
    ensures Tokens(Expand, months) == Some(tokens) <==> Listed(months, ReadsWhole, tokens)
  {
    hide FineToken, Expand, ReadsWhole;
    forall r, t | r in months ensures Expand(r) == Some(t) <==> ReadsWhole(r, t) {
      WholeReads(r, t);
    }
    TokensListed(Expand, months, ReadsWhole, tokens);
  }

  lemma DayPartsRead(system: Day, d: DayMatches, m: MonthMatches, yesterday: Day, before: Day, lists: seq<seq<Token>>)
    requires ValidDay(system) && JustBefore(yesterday, system) && JustBefore(before, yesterday)
    requires MonthTokens(system, m).Some?
    ensures PartsAre(DayParts(system, d, m), lists) <==>
              DayCandidates(system, d, yesterday, before, MonthTokens(system, m).value, lists)
  {
    hide Tokens, Listed, MonthTokens, JustBefore, Earlier, SingleDay, DayRange, RelativeDay, Expand, ReadsDay,
         ReadsDayRange, ReadsRelativeDay, ReadsWhole, FineToken, Rank;
    EarlierAre(system);
    assert Earlier(system, 1) == Some(yesterday) && Earlier(system, 2) == Some(before);
    MonthTokensAreFine(system, m);
    if |lists| == 8 {
      DaysListed(d.compact, lists[0]);
      DayRangesListed(d.ranges, lists[1]);
      RelativesListed(system, d.today, lists[2]);
      RelativesListed(yesterday, d.yesterday, lists[3]);
      RelativesListed(before, d.beforeYesterday, lists[4]);
      DaysListed(d.chinese, lists[5]);
      DaysListed(d.iso, lists[6]);
      WholesListed(MonthTokens(system, m).value, lists[7]);
    }
  }

  /** In day grain a request that is read has these candidates: two days before the system day exist, its months are
      read as in month grain, and every match denotes a day of the calendar. */
  lemma DaysAreRead(system: Day, d: DayMatches, m: MonthMatches)
    requires ValidDay(system)
    ensures var r := AppendAll(TokenParts(DayGrain, system, d, m));
            r.Some? ==>
              exists yesterday, before, months, lists ::
                && NamesMonths(system, m, months) && DayCandidates(system, d, yesterday, before, months, lists)
                && r.value == Appended(lists)
  {
    hide AppendAll, DayCandidates, NamesMonths, MonthTokens, Earlier, JustBefore, Tokens;
    var parts := DayParts(system, d, m);
    if AppendAll(parts).Some? {
      var lists := AppendedParts(parts);
      assert parts[3] == Some(lists[3]) && parts[4] == Some(lists[4]) && parts[7] == Some(lists[7]);
      EarlierAre(system);
      var before := Earlier(system, 2).value;
      var yesterday :| JustBefore(yesterday, system) && JustBefore(before, yesterday);
      MonthTokensName(system, m);
      DayPartsRead(system, d, m, yesterday, before, lists);
    }
  }

  /** And it is read whenever all that is so. */
  lemma ReadableDays(system: Day, d: DayMatches, m: MonthMatches, yesterday: Day, before: Day, months: seq<Token>,
                     lists: seq<seq<Token>>)
    requires ValidDay(system) && NamesMonths(system, m, months)
    requires DayCandidates(system, d, yesterday, before, months, lists)
    ensures AppendAll(TokenParts(DayGrain, system, d, m)).Some?
  {
    hide AppendAll, NamesMonths, MonthTokens, JustBefore, Tokens, Listed, FineToken;
    MonthTokensName(system, m);
    MonthTokensAreFine(system, m);
    var named := MonthTokens(system, m).value;
    var wholes := WholesExist(named);
    var more := lists[7 := wholes];
    assert DayCandidates(system, d, yesterday, before, named, more);
    DayPartsRead(system, d, m, yesterday, before, more);
    PartsAppend(DayParts(system, d, m), more);
  }

  lemma WholesExist(months: seq<Token>) returns (wholes: seq<Token>)
    requires forall t :: t in months ==> FineToken(t, MonthGrain)
    ensures Listed(months, ReadsWhole, wholes)
  {
    hide FineToken, Expand, ReadsWhole;
    forall t | t in months ensures Expand(t).Some? {
      WholeExists(t);
    }
    TokensAre(Expand, months);
    wholes := Tokens(Expand, months).value;
    WholesListed(months, wholes);
  }

  lemma WholeExists(t: Token)
    requires FineToken(t, MonthGrain)
    ensures Expand(t).Some?
  {
    ExpansionIsExact(t, FirstDay(t.start.m));
  }
}
