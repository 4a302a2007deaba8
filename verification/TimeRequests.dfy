/** Time requests: from pattern matches to non-overlapping tokens, and from tokens to one partition interval.
    Models ontology_core/temporal.py with the regular-expression matches as input. */
module TimeRequests {
  import opened SeqOps
  import opened Calendar

  datatype Span = Span(from: nat, to: nat)

  /** A period text: six digits for a month, eight for a day. */
  datatype Value = MonthValue(m: Month) | DayValue(d: Day)

  predicate ValidValue(v: Value) {
    match v
    case MonthValue(m) => ValidMonth(m)
    case DayValue(d) => ValidDay(d)
  }

  function ValueRank(v: Value): int {
    match v
    case MonthValue(m) => Index(m)
    case DayValue(d) => Rank(d)
  }

  datatype Token = Token(span: Span, start: Value, end: Value, relative: bool)

  /** Both ends exist, are of one kind, and are in order. */
  predicate ValidToken(t: Token) {
    ValidValue(t.start) && ValidValue(t.end) && t.start.MonthValue? == t.end.MonthValue?
        && ValueRank(t.start) <= ValueRank(t.end)
  }

  // ----- candidates from matches -----

  datatype MonthMatch = MonthMatch(span: Span, year: nat, month: nat)
  datatype RangeMatch = RangeMatch(span: Span, startYear: nat, startMonth: nat, endYear: Option<nat>, endMonth: nat)
  datatype CountMatch = CountMatch(span: Span, count: nat)
  datatype DayMatch = DayMatch(span: Span, year: nat, month: nat, day: nat)
  datatype DayRangeMatch = DayRangeMatch(span: Span, start: DayMatch, end: DayMatch)

  datatype MonthMatches = MonthMatches(ranges: seq<RangeMatch>, recents: seq<CountMatch>, thisMonth: seq<Span>,
          lastMonth: seq<Span>,
                                       full: seq<MonthMatch>, compact: seq<MonthMatch>, dashed: seq<MonthMatch>,
                                           yearless: seq<MonthMatch>)
  datatype DayMatches = DayMatches(compact: seq<DayMatch>, ranges: seq<DayRangeMatch>, today: seq<Span>,
          yesterday: seq<Span>,
                                   beforeYesterday: seq<Span>, chinese: seq<DayMatch>, iso: seq<DayMatch>)

  function MonthToken(span: Span, first: Month, last: Month, relative: bool): Option<Token> {
    if ValidMonth(first) && ValidMonth(last)
        && MonthLeq(first, last) then Some(Token(span, MonthValue(first), MonthValue(last), relative)) else None
  }

  function DayToken(span: Span, first: Day, last: Day, relative: bool): Option<Token> {
    if ValidDay(first) && ValidDay(last)
        && DayLeq(first, last) then Some(Token(span, DayValue(first), DayValue(last), relative)) else None
  }

  function RangeToken(r: RangeMatch): Option<Token> {
    MonthToken(r.span, Month(r.startYear, r.startMonth),
               Month(if r.endYear.Some? then r.endYear.value else r.startYear, r.endMonth), false)
  }

  /** The last `count` months before the system month. */
  function RecentToken(system: Day, r: CountMatch): Option<Token>
    requires ValidDay(system)
  {
    var last := Shift(MonthOf(system), -1);
    MonthToken(r.span, Shift(last, -(r.count - 1)), last, true)
  }

  function RelativeMonth(system: Day, offset: int): Span -> Option<Token>
    requires ValidDay(system)
  {
    (span: Span) => MonthToken(span, Shift(MonthOf(system), offset), Shift(MonthOf(system), offset), true)
  }

  function SingleMonth(r: MonthMatch): Option<Token> {
    MonthToken(r.span, Month(r.year, r.month), Month(r.year, r.month), false)
  }

  function YearlessMonth(system: Day): MonthMatch -> Option<Token> {
    (r: MonthMatch) => MonthToken(r.span, Month(system.year, r.month), Month(system.year, r.month), false)
  }

  function SingleDay(r: DayMatch): Option<Token> {
    DayToken(r.span, Day(r.year, r.month, r.day), Day(r.year, r.month, r.day), false)
  }

  function DayRange(r: DayRangeMatch): Option<Token> {
    DayToken(r.span, Day(r.start.year, r.start.month, r.start.day), Day(r.end.year, r.end.month, r.end.day), false)
  }

  function RelativeDay(d: Day): Span -> Option<Token> {
    (span: Span) => DayToken(span, d, d, true)
  }

  /** Every match must denote a period; one that does not fails the request, even if it would be skipped. */
  function Tokens<M>(f: M -> Option<Token>, matches: seq<M>): Option<seq<Token>> {
    if matches == [] then Some([])
    else
      var first, rest := f(matches[0]), Tokens(f, matches[1..]);
      if first.None? || rest.None? then None else Some([first.value] + rest.value)
  }

  lemma {:induction false} TokensAre<M>(f: M -> Option<Token>, matches: seq<M>)
    ensures Tokens(f, matches).Some? <==> forall m :: m in matches ==> f(m).Some?
    ensures Tokens(f, matches).Some? ==>
            forall t :: t in Tokens(f, matches).value ==> exists m :: m in matches && f(m) == Some(t)
  {
    if matches != [] {
      TokensAre(f, matches[1..]);
      assert forall m :: m in matches <==> m == matches[0] || m in matches[1..];
    }
  }

  // ----- tokens that do not overlap -----

  predicate Overlap(a: Span, b: Span) {
    a.from < b.to && a.to > b.from
  }

  predicate OverlapsAny(span: Span, tokens: seq<Token>) {
    exists t :: t in tokens && Overlap(span, t.span)
  }

  /** `_add_token` over candidates in order: a candidate that overlaps an accepted one is dropped. */
  function Accept(candidates: seq<Token>): seq<Token> {
    if candidates == [] then []
    else
      var before, last := Accept(candidates[..|candidates| - 1]), candidates[|candidates| - 1];
      if OverlapsAny(last.span, before) then before else before + [last]
  }

  ghost predicate Disjoint(tokens: seq<Token>) {
    forall i, j :: 0 <= i < j < |tokens| ==> !Overlap(tokens[j].span, tokens[i].span)
  }

  /** Accepted tokens never overlap, and every candidate is accepted or overlaps an accepted one. */
  lemma {:induction false} AcceptedAreDisjoint(candidates: seq<Token>)
    ensures Disjoint(Accept(candidates))
    ensures forall t :: t in Accept(candidates) ==> t in candidates
    ensures forall t :: t in candidates ==> t in Accept(candidates) || OverlapsAny(t.span, Accept(candidates))
  {
    hide Overlap;
    if candidates != [] {
      var n := |candidates| - 1;
      var before, last := Accept(candidates[..n]), candidates[n];
      AcceptedAreDisjoint(candidates[..n]);
      assert candidates == candidates[..n] + [last];
      if !OverlapsAny(last.span, before) {
        forall i | 0 <= i < |before| ensures !Overlap(last.span, before[i].span) {
          assert before[i] in before;
        }
        forall t | t in candidates[..n] && OverlapsAny(t.span, before) ensures OverlapsAny(t.span, before + [last]) {
          var u :| u in before && Overlap(t.span, u.span);
          assert u in before + [last];
        }
      }
    }
  }

  method AddTokens(ghost earlier: seq<Token>, tokens: seq<Token>, more: seq<Token>) returns (r: seq<Token>)
    requires tokens == Accept(earlier)
    ensures r == Accept(earlier + more)
  {
    r := tokens;
    assert earlier + more[..0] == earlier;
    for i := 0 to |more|
      invariant r == Accept(earlier + more[..i])
    {
      assert (earlier + more[..i + 1])[..|earlier| + i] == earlier + more[..i];
      if !OverlapsAny(more[i].span, r) {
        r := r + [more[i]];
      }
    }
    assert more[..|more|] == more;
  }

  function SortTokens(tokens: seq<Token>): seq<Token> {
    SortBy((t: Token) => t.span.from, tokens)
  }

  function AppendAll(parts: seq<Option<seq<Token>>>): Option<seq<Token>> {
    if parts == [] then Some([])
    else
      var before, last := AppendAll(parts[..|parts| - 1]), parts[|parts| - 1];
      if before.None? || last.None? then None else Some(before.value + last.value)
  }

  /** All month candidates in order of preference. */
  function MonthParts(system: Day, m: MonthMatches): seq<Option<seq<Token>>>
    requires ValidDay(system)
  {
    [Tokens(RangeToken, m.ranges), Tokens((r: CountMatch) => RecentToken(system, r), m.recents),
     Tokens(RelativeMonth(system, 0), m.thisMonth), Tokens(RelativeMonth(system, -1), m.lastMonth),
     Tokens(SingleMonth, m.full), Tokens(SingleMonth, m.compact), Tokens(SingleMonth, m.dashed),
         Tokens(YearlessMonth(system), m.yearless)]
  }

  function MonthTokens(system: Day, m: MonthMatches): Option<seq<Token>>
    requires ValidDay(system)
  {
    var all := AppendAll(MonthParts(system, m));
    if all.None? then None else Some(SortTokens(Accept(all.value)))
  }

  /** `_month_tokens` and `_day_tokens`: pattern after pattern, skipping what is already taken. */
  method CollectTokens(parts: seq<Option<seq<Token>>>) returns (r: Option<seq<Token>>)
    ensures var all := AppendAll(parts); r == if all.None? then None else Some(SortTokens(Accept(all.value)))
  {
    var tokens: seq<Token> := [];
    ghost var all: seq<Token> := [];
    for i := 0 to |parts|
      invariant AppendAll(parts[..i]) == Some(all) && tokens == Accept(all)
    {
      assert parts[..i + 1][..i] == parts[..i];
      if parts[i].None? {
        StaysMissing(parts, i + 1);
        return None;
      }
      tokens := AddTokens(all, tokens, parts[i].value);
      all := all + parts[i].value;
    }
    assert parts[..|parts|] == parts;
    r := Some(SortTokens(tokens));
  }

  lemma {:induction false} StaysMissing(parts: seq<Option<seq<Token>>>, k: nat)
    requires k <= |parts| && AppendAll(parts[..k]).None?
    ensures AppendAll(parts).None?
    decreases |parts|
  {
    if k == |parts| {
      assert parts[..k] == parts;
    } else {
      assert parts[..|parts| - 1][..k] == parts[..k];
      StaysMissing(parts[..|parts| - 1], k);
    }
  }

  // ----- months in day grain -----

  /** A month token in day grain runs from its first day to its last. */
  function Expand(t: Token): Option<Token> {
    if t.start.MonthValue? && t.end.MonthValue? && ValidMonth(t.start.m) && ValidMonth(t.end.m)
    then DayToken(t.span, FirstDay(t.start.m), LastDay(t.end.m), t.relative) else None
  }

  function DayParts(system: Day, d: DayMatches, m: MonthMatches): seq<Option<seq<Token>>>
    requires ValidDay(system)
  {
    var months := MonthTokens(system, m);
    [Tokens(SingleDay, d.compact), Tokens(DayRange, d.ranges), Tokens(RelativeDay(system), d.today),
     EarlierPart(Earlier(system, 1), d.yesterday), EarlierPart(Earlier(system, 2), d.beforeYesterday),
     Tokens(SingleDay, d.chinese), Tokens(SingleDay, d.iso),
         if months.None? then None else Tokens(Expand, months.value)]
  }

  /** `n` days earlier; nothing lies before the first day of the calendar. */
  function Earlier(d: Day, n: nat): (r: Option<Day>)
    requires ValidDay(d)
    ensures r.Some? ==> ValidDay(r.value)
    decreases n
  {
    if n == 0 then Some(d) else if IsFirstEver(d) then None else Earlier(DayBefore(d), n - 1)
  }

  /** The day is computed before its matches are looked at, so an overflow fails the request in any case. */
  function EarlierPart(day: Option<Day>, matches: seq<Span>): Option<seq<Token>> {
    if day.None? then None else Tokens(RelativeDay(day.value), matches)
  }

  lemma EarlierExactly(system: Day)
    requires ValidDay(system)
    ensures Earlier(system, 2).None? <==> system == Day(1, 1, 1) || system == Day(1, 1, 2)
    ensures Earlier(system, 1).None? <==> system == Day(1, 1, 1)
  {
    assert Earlier(system, 1) == if IsFirstEver(system) then None else Some(DayBefore(system));
  }

  const NO_MONTHS := MonthMatches([], [], [], [], [], [], [], [])
  const NO_DAYS := DayMatches([], [], [], [], [], [], [])

  /** Every request in day grain fails on the first two days of the calendar, and on no other day do all fail: a
      request that names no period is collected. */
  lemma FirstDaysFail(system: Day)
    requires ValidDay(system)
    ensures system == Day(1, 1, 1) || system == Day(1, 1, 2) <==> forall d, m :: AppendAll(DayParts(system, d, m)).None?
    ensures system != Day(1, 1, 1) && system != Day(1, 1, 2) <==>
            AppendAll(DayParts(system, NO_DAYS, NO_MONTHS)) == Some([])
  {
    hide MonthTokens, AppendAll, Earlier, RelativeDay;
    EarlierExactly(system);
    if Earlier(system, 2).None? {
      forall d, m ensures AppendAll(DayParts(system, d, m)).None? {
        var parts := DayParts(system, d, m);
        assert parts[4] == None;
        MissingPartFails(parts, 4);
      }
    } else {
      NoMonthTokens(system);
      var parts := DayParts(system, NO_DAYS, NO_MONTHS);
      EmptyParts(parts);
    }
  }

  lemma {:induction false} EmptyParts(parts: seq<Option<seq<Token>>>)
    requires forall i :: 0 <= i < |parts| ==> parts[i] == Some([])
    ensures AppendAll(parts) == Some([])
  {
    if parts != [] {
      EmptyParts(parts[..|parts| - 1]);
      assert parts[|parts| - 1] == Some([]);
      var none: seq<Token> := [];
      assert none + none == [];
    }
  }

  lemma NoMonthTokens(system: Day)
    requires ValidDay(system)
    ensures MonthTokens(system, NO_MONTHS) == Some([])
  {
    hide AppendAll, Tokens;
    NoTokens();
    EmptyParts(MonthParts(system, NO_MONTHS));
    assert Accept([]) == [] && SortTokens([]) == [];
  }

  lemma NoTokens()
    ensures forall f: RangeMatch -> Option<Token> :: Tokens(f, []) == Some([])
    ensures forall f: CountMatch -> Option<Token> :: Tokens(f, []) == Some([])
    ensures forall f: MonthMatch -> Option<Token> :: Tokens(f, []) == Some([])
    ensures forall f: Span -> Option<Token> :: Tokens(f, []) == Some([])
  {
  }

  lemma {:induction false} MissingPartFails(parts: seq<Option<seq<Token>>>, k: nat)
    requires k < |parts| && parts[k].None?
    ensures AppendAll(parts).None?
    decreases |parts|
  {
    if k < |parts| - 1 {
      MissingPartFails(parts[..|parts| - 1], k);
    }
  }

  /** A day lies in the expansion of a month token exactly when its month lies in the token. */
  lemma ExpansionIsExact(t: Token, d: Day)
    requires ValidToken(t) && t.start.MonthValue? && ValidDay(d)
    ensures Expand(t).Some? && ValidToken(Expand(t).value)
    ensures var e := Expand(t).value;
            ValueRank(e.start) <= Rank(d) <= ValueRank(e.end) <==>
                Index(t.start.m) <= Index(MonthOf(d)) <= Index(t.end.m)
  {
    MonthsAreTheirDays(t.start.m, t.end.m, d);
    MonthsAreTheirDays(t.start.m, t.end.m, FirstDay(t.start.m));
  }

  /** "Recent n" is exactly the n months before the system month. */
  lemma RecentIsExact(system: Day, r: CountMatch, m: Month)
    requires ValidDay(system) && r.count >= 1 && RecentToken(system, r).Some? && 1 <= m.month <= 12
    ensures var t := RecentToken(system, r).value;
            && (Index(t.start.m) <= Index(m) <= Index(t.end.m) <==>
                Index(MonthOf(system)) - r.count <= Index(m) < Index(MonthOf(system)))
            && Index(t.end.m) - Index(t.start.m) + 1 == r.count && Index(t.end.m) + 1 == Index(MonthOf(system))
  {
  }

  // ----- one partition interval -----

  datatype Interval = Interval(start: Value, end: Value)

  function IntervalOf(t: Token): Interval {
    Interval(t.start, t.end)
  }

  function Intervals(tokens: seq<Token>): set<Interval> {
    set t | t in tokens :: IntervalOf(t)
  }

  function Ranges(distinct: set<Interval>): set<Interval> {
    set i | i in distinct && i.start != i.end
  }

  /** A range that a request repeats only by both of its end points. */
  predicate RangeWithEnds(distinct: set<Interval>, i: Interval) {
    i.start != i.end && distinct == {i, Interval(i.start, i.start), Interval(i.end, i.end)}
  }

  /** The intervals are one interval, or one range with both its end points. */
  ghost predicate Agreeing(distinct: set<Interval>, i: Interval) {
    distinct == {i} || RangeWithEnds(distinct, i)
  }

  /** The interval of a request; None when periods conflict. */
  method ChooseInterval(tokens: seq<Token>) returns (r: Option<Interval>)
    requires tokens != []
    ensures r.Some? <==> exists i :: Agreeing(Intervals(tokens), i)
    ensures r.Some? ==> Agreeing(Intervals(tokens), r.value)
  {
    var distinct := Intervals(tokens);
    assert IntervalOf(tokens[0]) in distinct;
    var ranges := Ranges(distinct);
    if |ranges| == 1 {
      var range :| range in ranges;
      OnlyRange(distinct, range);
      var first, last := Interval(range.start, range.start), Interval(range.end, range.end);
      if first in distinct && last in distinct && distinct <= {range, first, last} {
        assert distinct == {range, first, last};
        assert Agreeing(distinct, range);
        return Some(range);
      }
    }
    if |distinct| > 1 {
      forall i ensures !Agreeing(distinct, i) {
        if Agreeing(distinct, i) {
          NotOneRange(distinct, i);
          assert false;
        }
      }
      return None;
    }
    assert distinct == {IntervalOf(tokens[0])} by {
      forall i | i in distinct ensures i == IntervalOf(tokens[0]) {
        OneMember(distinct, i, IntervalOf(tokens[0]));
      }
    }
    assert Agreeing(distinct, IntervalOf(tokens[0]));
    r := Some(IntervalOf(tokens[0]));
  }

  lemma OneMember(s: set<Interval>, a: Interval, b: Interval)
    requires |s| <= 1 && a in s && b in s
    ensures a == b
  {
    OnlyMember(s, a, b);
  }

  lemma OnlyRange(distinct: set<Interval>, range: Interval)
    requires |Ranges(distinct)| == 1 && range in Ranges(distinct)
    ensures forall i :: i in distinct && i.start != i.end ==> i == range
  {
    forall i | i in distinct && i.start != i.end ensures i == range {
      OnlyMember(Ranges(distinct), i, range);
    }
  }

  // When more than one interval is left, only a range with both its end points agrees.
  lemma NotOneRange(distinct: set<Interval>, i: Interval)
    requires Agreeing(distinct, i) && |distinct| > 1
    ensures Ranges(distinct) == {i} && RangeWithEnds(distinct, i)
  {
    assert |{i}| == 1;
    assert distinct != {i};
  }

  predicate Within(start: Value, end: Value, x: int) {
    ValueRank(start) <= x <= ValueRank(end)
  }

  predicate WithinAny(tokens: seq<Token>, x: int) {
    exists t :: t in tokens && Within(t.start, t.end, x)
  }

  /** An accepted interval is in order and is exactly the union of all tokens. */
  lemma IntervalIsUnion(tokens: seq<Token>, i: Interval, x: int)
    requires Agreeing(Intervals(tokens), i) && forall t :: t in tokens ==> ValidToken(t)
    ensures ValueRank(i.start) <= ValueRank(i.end) && ValidValue(i.start) && ValidValue(i.end)
    ensures Within(i.start, i.end, x) <==> WithinAny(tokens, x)
  {
    hide ValueRank, ValidValue;
    assert i in Intervals(tokens);
    var whole :| whole in tokens && IntervalOf(whole) == i;
    forall t | t in tokens && Within(t.start, t.end, x) ensures Within(i.start, i.end, x) {
      assert IntervalOf(t) in Intervals(tokens);
    }
  }

  // ----- the whole request -----

  datatype Grain = MonthGrain | DayGrain

  predicate OfGrain(v: Value, grain: Grain) {
    v.MonthValue? <==> grain == MonthGrain
  }

  predicate FineToken(t: Token, grain: Grain) {
    ValidToken(t) && OfGrain(t.start, grain)
  }

  ghost predicate FineTokens(tokens: Option<seq<Token>>, grain: Grain) {
    tokens.Some? ==> forall t :: t in tokens.value ==> FineToken(t, grain)
  }

  lemma {:induction false} AppendedAreFine(parts: seq<Option<seq<Token>>>, grain: Grain)
    requires forall p :: p in parts ==> FineTokens(p, grain)
    ensures FineTokens(AppendAll(parts), grain)
  {
    hide FineToken;
    if parts != [] {
      var n := |parts| - 1;
      assert parts[n] in parts && forall p :: p in parts[..n] ==> p in parts;
      AppendedAreFine(parts[..n], grain);
      var before, last := AppendAll(parts[..n]), parts[n];
      if before.Some? && last.Some? {
        assert AppendAll(parts) == Some(before.value + last.value);
      }
    }
  }

  lemma MadeAreFine<M>(f: M -> Option<Token>, matches: seq<M>, grain: Grain)
    requires forall m :: m in matches && f(m).Some? ==> FineToken(f(m).value, grain)
    ensures FineTokens(Tokens(f, matches), grain)
  {
    hide FineToken;
    TokensAre(f, matches);
  }

  lemma SortedAreSame(tokens: seq<Token>)
    ensures forall t :: t in SortTokens(tokens) <==> t in tokens
  {
    SameBagSameMembers(tokens, SortTokens(tokens));
  }

  lemma MonthTokensAreFine(system: Day, m: MonthMatches)
    requires ValidDay(system)
    ensures FineTokens(AppendAll(MonthParts(system, m)), MonthGrain) && FineTokens(MonthTokens(system, m), MonthGrain)
  {
    hide AppendAll, Tokens, Accept, Index;
    MadeAreFine(RangeToken, m.ranges, MonthGrain);
    MadeAreFine((r: CountMatch) => RecentToken(system, r), m.recents, MonthGrain);
    MadeAreFine(RelativeMonth(system, 0), m.thisMonth, MonthGrain);
    MadeAreFine(RelativeMonth(system, -1), m.lastMonth, MonthGrain);
    MadeAreFine(SingleMonth, m.full, MonthGrain);
    MadeAreFine(SingleMonth, m.compact, MonthGrain);
    MadeAreFine(SingleMonth, m.dashed, MonthGrain);
    MadeAreFine(YearlessMonth(system), m.yearless, MonthGrain);
    var parts := MonthParts(system, m);
    RecentsSame(system, m);
    AppendedAreFine(parts, MonthGrain);
    var all := AppendAll(parts);
    if all.Some? {
      AcceptedAreDisjoint(all.value);
      SortedAreSame(Accept(all.value));
    }
  }

  lemma RecentsSame(system: Day, m: MonthMatches)
    requires ValidDay(system)
    ensures MonthParts(system, m)[1] == Tokens((r: CountMatch) => RecentToken(system, r), m.recents)
  {
  }

  function TokenParts(grain: Grain, system: Day, d: DayMatches, m: MonthMatches): seq<Option<seq<Token>>>
    requires ValidDay(system)
  {
    if grain == MonthGrain then MonthParts(system, m) else DayParts(system, d, m)
  }

  lemma PartsAreFine(grain: Grain, system: Day, d: DayMatches, m: MonthMatches)
    requires ValidDay(system)
    ensures FineTokens(AppendAll(TokenParts(grain, system, d, m)), grain)
  {
    hide AppendAll, Tokens, Accept, Index, MonthParts, MonthTokens, Rank;
    MonthTokensAreFine(system, m);
    if grain == DayGrain {
      MadeAreFine(SingleDay, d.compact, DayGrain);
      MadeAreFine(DayRange, d.ranges, DayGrain);
      MadeAreFine(RelativeDay(system), d.today, DayGrain);
      EarlierIsFine(Earlier(system, 1), d.yesterday);
      EarlierIsFine(Earlier(system, 2), d.beforeYesterday);
      MadeAreFine(SingleDay, d.chinese, DayGrain);
      MadeAreFine(SingleDay, d.iso, DayGrain);
      if MonthTokens(system, m).Some? {
        MadeAreFine(Expand, MonthTokens(system, m).value, DayGrain);
      }
      AppendedAreFine(DayParts(system, d, m), DayGrain);
    }
  }

  lemma EarlierIsFine(day: Option<Day>, matches: seq<Span>)
    requires day.Some? ==> ValidDay(day.value)
    ensures FineTokens(EarlierPart(day, matches), DayGrain)
  {
    hide Tokens, Rank;
    if day.Some? {
      MadeAreFine(RelativeDay(day.value), matches, DayGrain);
    }
  }

  /** What a token belongs to: the partition, or a business field next to it in the text. */
  datatype Owner = Partition | Business(isDate: bool)

  /** A business field takes a month period of a date field, as its first and last day. */
  predicate BusinessFits(t: Token, owner: Owner) {
    owner.Business? ==> owner.isDate && t.start.MonthValue? && t.end.MonthValue?
  }

  function BusinessInterval(t: Token): Option<Interval> {
    var e := Expand(t);
    if e.None? then None else Some(Interval(e.value.start, e.value.end))
  }

  /** A fitting business period always has an interval, and it holds exactly the days of the token's months. */
  lemma BusinessIsExact(t: Token, isDate: bool, d: Day)
    requires ValidToken(t) && BusinessFits(t, Business(isDate)) && ValidDay(d)
    ensures BusinessInterval(t).Some?
    ensures var i := BusinessInterval(t).value;
            ValueRank(i.start) <= Rank(d) <= ValueRank(i.end) <==>
                Index(t.start.m) <= Index(MonthOf(d)) <= Index(t.end.m)
  {
    ExpansionIsExact(t, d);
  }

  function PartitionTokens(tokens: seq<Token>, owner: Token -> Owner): seq<Token> {
    Filter((t: Token) => owner(t) == Partition, tokens)
  }

  /** The previous complete month, or the day two days earlier, if they exist. */
  function DefaultValue(grain: Grain, system: Day): Option<Value>
    requires ValidDay(system)
  {
    var v := if grain == MonthGrain then Some(MonthValue(Shift(MonthOf(system), -1)))
             else var day := Earlier(system, 2); if day.None? then None else Some(DayValue(day.value));
    if v.Some? && ValidValue(v.value) then v else None
  }

  /** The default in month grain is the month before the system month; there is none before the first month. */
  lemma DefaultMonth(system: Day)
    requires ValidDay(system)
    ensures var v := DefaultValue(MonthGrain, system);
            if v.Some? then v.value.MonthValue? && ValidMonth(v.value.m)
                            && Index(v.value.m) == Index(MonthOf(system)) - 1
            else MonthOf(system) == Month(1, 1)
  {
  }

  /** The default in day grain is the day with exactly one day between it and the system day. */
  lemma DefaultDay(system: Day)
    requires ValidDay(system)
    ensures var v := DefaultValue(DayGrain, system);
            if v.Some? then v.value.DayValue? && ValidDay(v.value.d) && exists x :: OnlyBetween(v.value.d, x, system)
            else system == Day(1, 1, 1) || system == Day(1, 1, 2)
  {
    hide Rank, DaysIn;
    EarlierExactly(system);
    if !IsFirstEver(system) {
      var x := DayBefore(system);
      assert Earlier(system, 1) == Some(x);
      if !IsFirstEver(x) {
        assert Earlier(system, 2) == Some(DayBefore(x));
        OneDayBetween(system);
      } else {
        assert Earlier(system, 2) == None;
      }
    }
  }

  /** `x` is the one day strictly between `a` and `b`. */
  ghost predicate OnlyBetween(a: Day, x: Day, b: Day) {
    forall y :: ValidDay(y) ==> (Rank(a) < Rank(y) < Rank(b) <==> y == x)
  }

  lemma OneDayBetween(system: Day)
    requires ValidDay(system) && !IsFirstEver(system) && !IsFirstEver(DayBefore(system))
    ensures OnlyBetween(DayBefore(DayBefore(system)), DayBefore(system), system)
  {
    var x := DayBefore(system);
    var a := DayBefore(x);
    hide DayBefore;
    forall y | ValidDay(y) ensures Rank(a) < Rank(y) < Rank(system) <==> y == x {
      DayBeforeIsNext(system, y);
      DayBeforeIsNext(x, y);
      SameRank(y, x);
      SameRank(y, system);
      SameRank(x, system);
      DayBeforeIsNext(system, x);
      DayBeforeIsNext(x, a);
      SameRank(a, x);
    }
  }

  lemma SameRank(a: Day, b: Day)
    requires ValidDay(a) && ValidDay(b)
    ensures Rank(a) == Rank(b) <==> a == b
  {
    assert a.day <= 31 && b.day <= 31;
  }

  datatype Request = Request(start: Value, end: Value, explicit: bool)

  /** The token speaks of the partition. */
  ghost predicate OfPartition(t: Token, owner: Token -> Owner) {
    owner(t) == Partition
  }

  /** The different intervals that the text names for the partition. */
  ghost function NamedIntervals(tokens: seq<Token>, owner: Token -> Owner): set<Interval> {
    set t | t in tokens && OfPartition(t, owner) :: Interval(t.start, t.end)
  }

  lemma PartitionTokensAre(tokens: seq<Token>, owner: Token -> Owner)
    ensures forall t :: t in PartitionTokens(tokens, owner) <==> t in tokens && OfPartition(t, owner)
    ensures PartitionTokens(tokens, owner) == [] <==> forall t :: t in tokens ==> !OfPartition(t, owner)
    ensures Intervals(PartitionTokens(tokens, owner)) == NamedIntervals(tokens, owner)
  {
    var partition := PartitionTokens(tokens, owner);
    if partition != [] {
      assert partition[0] in partition;
    } else {
      assert forall t :: t in tokens && OfPartition(t, owner) ==> t in partition;
    }
  }

  /** Without a period in the text there is a default, except at the start of the calendar. */
  predicate HasDefault(grain: Grain, system: Day) {
    if grain == MonthGrain then (system.year, system.month) != (1, 1) else system !in {Day(1, 1, 1), Day(1, 1, 2)}
  }

  lemma DefaultExists(grain: Grain, system: Day)
    requires ValidDay(system)
    ensures DefaultValue(grain, system).Some? <==> HasDefault(grain, system)
  {
    EarlierExactly(system);
  }

  /** A request is answered by an interval of its grain: the union of its partition tokens, or the default
      when it names none; conflicting periods and misplaced business periods are refused. */
  method ParseRequest(grain: Grain, system: Day, d: DayMatches, m: MonthMatches, owner: Token -> Owner, unbounded: bool)
      returns (r: Option<Request>, ghost tokens: seq<Token>)
    requires ValidDay(system)
    ensures r.Some? <==>
              && !unbounded && AppendAll(TokenParts(grain, system, d, m)).Some?
              && (forall t :: t in tokens && owner(t).Business? ==>
                    owner(t).isDate && t.start.MonthValue? && t.end.MonthValue?)
              && if forall t :: t in tokens ==> !OfPartition(t, owner) then HasDefault(grain, system)
                 else exists i :: Agreeing(NamedIntervals(tokens, owner), i)
    ensures AppendAll(TokenParts(grain, system, d, m)).Some? ==>
            tokens == SortTokens(Accept(AppendAll(TokenParts(grain, system, d, m)).value))
    ensures r.Some? ==>
              && ValidValue(r.value.start) && ValidValue(r.value.end)
                  && ValueRank(r.value.start) <= ValueRank(r.value.end)
              && OfGrain(r.value.start, grain) && OfGrain(r.value.end, grain)
              && (r.value.explicit <==> exists t :: t in tokens && OfPartition(t, owner))
    ensures r.Some? && !r.value.explicit ==>
            r.value.start == r.value.end && DefaultValue(grain, system) == Some(r.value.start)
    ensures r.Some? && r.value.explicit ==>
              forall x :: Within(r.value.start, r.value.end, x) <==>
                          exists t :: t in tokens && OfPartition(t, owner) && Within(t.start, t.end, x)
  {
    hide AppendAll, TokenParts, Accept, SortTokens, Agreeing, ValueRank, ValidValue, Intervals, Within, PartitionTokens,
         NamedIntervals, OfPartition;
    DefaultExists(grain, system);
    tokens := [];
    PartsAreFine(grain, system, d, m);
    var parts := TokenParts(grain, system, d, m);
    var collected := CollectTokens(parts);
    if collected.Some? {
      tokens := collected.value;
      AcceptedAreDisjoint(AppendAll(parts).value);
      SortedAreSame(Accept(AppendAll(parts).value));
    }
    if unbounded || collected.None? {
      return None, tokens;
    }
    if exists t :: t in collected.value && !BusinessFits(t, owner(t)) {
      return None, tokens;
    }
    var partition := PartitionTokens(collected.value, owner);
    PartitionTokensAre(collected.value, owner);
    if partition == [] {
      var v := DefaultValue(grain, system);
      if v.None? {
        return None, tokens;
      }
      return Some(Request(v.value, v.value, false)), tokens;
    }
    forall t | t in partition ensures ValidToken(t) && OfGrain(t.start, grain) {
      assert FineToken(t, grain);
    }
    var i := ChooseInterval(partition);
    if i.None? {
      return None, tokens;
    }
    r := Some(Request(i.value.start, i.value.end, true));
    ChosenIsToken(partition, i.value);
    IntervalIsUnion(partition, i.value, 0);
    forall x ensures Within(i.value.start, i.value.end, x) <==> WithinAny(partition, x) {
      IntervalIsUnion(partition, i.value, x);
    }
  }

  lemma ChosenIsToken(tokens: seq<Token>, i: Interval)
    requires Agreeing(Intervals(tokens), i)
    ensures exists t :: t in tokens && IntervalOf(t) == i
  {
    assert i in Intervals(tokens);
  }
}
