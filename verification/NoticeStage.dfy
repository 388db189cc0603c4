/** The notice stage of the daily collection: which items of each court are opened, in what order, and when
    a court is given up. The court's replies are arbitrary. */
module NoticeStage {
  import opened Collections

  const UNAVAILABLE_STREAK_LIMIT: nat := 20

  const NO_SALE_DATE: int := 99_999_999

  /** A search result. `saleDate` is the text it is sorted by, `bidDate` the date it is read as. */
  datatype Row = Row(caseNo: string, goodsSeq: string, itemNo: string, saleDate: Option<int>, bidDate: Option<int>)

  datatype Reply = Notice | NoNotice | RequestFailed | Blocks | Throws

  /** What one row came to. */
  datatype Answer = Parsed | Unavailable | Failed | BlockedByCourt | Thrown

  datatype Batch = Batch(notices: seq<Row>, failed: nat, unavailable: nat)

  datatype End = Finished(batch: Batch) | Blocked | Aborted

  predicate HasIds(row: Row) {
    row.caseNo != "" && row.goodsSeq != "" && row.itemNo != ""
  }

  /** The court may reply anything to the `i`-th row; past the end of the list its requests fail. */
  function ReplyTo(replies: seq<Reply>, i: nat): Reply {
    if i < |replies| then replies[i] else RequestFailed
  }

  /** A row without its ids is a failure and is not looked up. */
  function AnswerOf(row: Row, reply: Reply): Answer {
    if !HasIds(row) then Failed
    else match reply
      case Notice => Parsed
      case NoNotice => Unavailable
      case RequestFailed => Failed
      case Blocks => BlockedByCourt
      case Throws => Thrown
  }

  function Answers(rows: seq<Row>, replies: seq<Reply>): (answers: seq<Answer>)
    ensures |answers| == |rows|
    ensures forall i :: 0 <= i < |rows| ==> answers[i] == AnswerOf(rows[i], ReplyTo(replies, i))
  {
    seq(|rows|, i requires 0 <= i < |rows| => AnswerOf(rows[i], ReplyTo(replies, i)))
  }

  predicate Stops(answer: Answer) { answer.BlockedByCourt? || answer.Thrown? }

  // ---- specification

  /** How often `answer` occurs among the first `n`. */
  function Count(answers: seq<Answer>, n: nat, answer: Answer): nat
    requires n <= |answers|
  {
    if n == 0 then 0 else Count(answers, n - 1, answer) + if answers[n - 1] == answer then 1 else 0
  }

  /** Unavailable answers among the first `n` since the last parsed notice; failures do not break the streak. */
  function Streak(answers: seq<Answer>, n: nat): nat
    requires n <= |answers|
  {
    if n == 0 || answers[n - 1] == Parsed then 0
    else Streak(answers, n - 1) + if answers[n - 1] == Unavailable then 1 else 0
  }

  /** The streak before the row at `m` is not complete. */
  predicate MayGoOn(answers: seq<Answer>, m: nat)
    requires m <= |answers|
  {
    Streak(answers, m) < UNAVAILABLE_STREAK_LIMIT
  }

  function ParsedRows(rows: seq<Row>, answers: seq<Answer>, n: nat): seq<Row>
    requires n <= |answers| == |rows|
  {
    if n == 0 then [] else ParsedRows(rows, answers, n - 1) + if answers[n - 1] == Parsed then [rows[n - 1]] else []
  }

  function Lookups(rows: seq<Row>, n: nat): nat
    requires n <= |rows|
  {
    if n == 0 then 0 else Lookups(rows, n - 1) + if HasIds(rows[n - 1]) then 1 else 0
  }

  /** How a court's rows were worked off: in order, up to the first answer that stops everything or the row
      that completes a streak, and no further. */
  ghost predicate Ran(rows: seq<Row>, replies: seq<Reply>, processed: nat, lookups: nat, end: End) {
    var answers := Answers(rows, replies);
    && processed <= |rows|
    && lookups == Lookups(rows, processed)
    && (forall m :: 0 <= m < processed ==> MayGoOn(answers, m))
    && (forall m :: 0 <= m < processed - 1 ==> !Stops(answers[m]))
    && match end
       case Blocked => 0 < processed && answers[processed - 1] == BlockedByCourt
       case Aborted => 0 < processed && answers[processed - 1] == Thrown
       case Finished(batch) =>
         && (0 < processed ==> !Stops(answers[processed - 1]))
         && (processed < |rows| ==> Streak(answers, processed) == UNAVAILABLE_STREAK_LIMIT)
         && batch == Batch(ParsedRows(rows, answers, processed), Count(answers, processed, Failed),
                           Count(answers, processed, Unavailable))
  }

  // ---- one court

  datatype Tally = Tally(notices: seq<Row>, failed: nat, unavailable: nat, consecutiveUnavailable: nat, lookups: nat)

  /** `t` holds the counters after `n` rows. */
  predicate IsTally(t: Tally, rows: seq<Row>, answers: seq<Answer>, n: nat)
    requires n <= |answers| == |rows|
  {
    && t.notices == ParsedRows(rows, answers, n)
    && t.failed == Count(answers, n, Failed) && t.unavailable == Count(answers, n, Unavailable)
    && t.consecutiveUnavailable == Streak(answers, n)
    && t.lookups == Lookups(rows, n)
  }

  function TallyAfter(t: Tally, row: Row, answer: Answer): Tally {
    var t' := if HasIds(row) then t.(lookups := t.lookups + 1) else t;
    match answer
    case Parsed => t'.(notices := t.notices + [row], consecutiveUnavailable := 0)
    case Unavailable => t'.(unavailable := t.unavailable + 1, consecutiveUnavailable := t.consecutiveUnavailable + 1)
    case Failed => t'.(failed := t.failed + 1)
    case _ => t'
  }

  lemma TallyPush(t: Tally, rows: seq<Row>, answers: seq<Answer>, n: nat)
    requires n < |answers| == |rows| && IsTally(t, rows, answers, n)
    ensures IsTally(TallyAfter(t, rows[n], answers[n]), rows, answers, n + 1)
  {
  }

  ghost predicate Undisturbed(answers: seq<Answer>, n: nat)
    requires n <= |answers|
  {
    && (forall m :: 0 <= m < n ==> MayGoOn(answers, m))
    && forall m :: 0 <= m < n ==> !Stops(answers[m])
  }

  lemma UndisturbedPush(answers: seq<Answer>, n: nat)
    requires n < |answers| && Undisturbed(answers, n) && Streak(answers, n) < UNAVAILABLE_STREAK_LIMIT
        && !Stops(answers[n])
    ensures Undisturbed(answers, n + 1)
  {
  }

  lemma StoppedAt(rows: seq<Row>, replies: seq<Reply>, t: Tally, n: nat, end: End)
    requires n < |rows| && Undisturbed(Answers(rows, replies), n) && IsTally(t, rows, Answers(rows, replies), n)
    requires t.consecutiveUnavailable < UNAVAILABLE_STREAK_LIMIT
    requires var answer := Answers(rows, replies)[n];
             (answer.BlockedByCourt? && end.Blocked?) || (answer.Thrown? && end.Aborted?)
    ensures Ran(rows, replies, n + 1, t.lookups + 1, end)
  {
    hide Streak, Answers, ParsedRows, Count;
  }

  lemma FinishedAt(rows: seq<Row>, replies: seq<Reply>, t: Tally, n: nat)
    requires n <= |rows| && Undisturbed(Answers(rows, replies), n) && IsTally(t, rows, Answers(rows, replies), n)
    requires n < |rows| ==> t.consecutiveUnavailable == UNAVAILABLE_STREAK_LIMIT
    ensures Ran(rows, replies, n, t.lookups, Finished(Batch(t.notices, t.failed, t.unavailable)))
  {
    hide Streak, Lookups, Answers, ParsedRows, Count;
  }

  method CollectNoticesForRows(rows: seq<Row>, replies: seq<Reply>) returns (processed: nat, lookups: nat, end: End)
    ensures Ran(rows, replies, processed, lookups, end)
  {
    var notices: seq<Row>, failed: nat, unavailable: nat, consecutiveUnavailable: nat := [], 0, 0, 0;
    ghost var answers := Answers(rows, replies);
    processed, lookups := 0, 0;
    assert Undisturbed(answers, 0) && IsTally(Tally([], 0, 0, 0, 0), rows, answers, 0);
    hide Count, Lookups, ParsedRows, Streak, Answers, Ran, HasIds, Undisturbed, IsTally;
    while processed < |rows|
      invariant processed <= |rows| && Undisturbed(answers, processed)
      invariant IsTally(Tally(notices, failed, unavailable, consecutiveUnavailable, lookups), rows, answers, processed)
      invariant consecutiveUnavailable < UNAVAILABLE_STREAK_LIMIT
    {
      var row, reply := rows[processed], ReplyTo(replies, processed);
      ghost var tally := Tally(notices, failed, unavailable, consecutiveUnavailable, lookups);
      assert answers[processed] == AnswerOf(row, reply);
      TallyPush(tally, rows, answers, processed);
      if Stops(AnswerOf(row, reply)) {
        var stop := if reply.Blocks? then Blocked else Aborted;
        StoppedAt(rows, replies, tally, processed, stop);
        return processed + 1, lookups + 1, stop;
      }
      StreakOfTally(tally, rows, answers, processed);
      UndisturbedPush(answers, processed);
      processed := processed + 1;
      if !HasIds(row) {
        failed := failed + 1;
        continue;
      }
      lookups := lookups + 1;
      match reply
      case RequestFailed =>
        failed := failed + 1;
      case NoNotice =>
        unavailable := unavailable + 1;
        consecutiveUnavailable := consecutiveUnavailable + 1;
        if consecutiveUnavailable >= UNAVAILABLE_STREAK_LIMIT {
          break;
        }
      case Notice =>
        consecutiveUnavailable := 0;
        notices := notices + [row];
    }
    end := Finished(Batch(notices, failed, unavailable));
    FinishedAt(rows, replies, Tally(notices, failed, unavailable, consecutiveUnavailable, lookups), processed);
  }

  lemma StreakOfTally(t: Tally, rows: seq<Row>, answers: seq<Answer>, n: nat)
    requires n <= |answers| == |rows| && IsTally(t, rows, answers, n)
    ensures Streak(answers, n) == t.consecutiveUnavailable
  {
  }

  /** Every row that was worked off is counted once: parsed, failed or unavailable. */
  lemma CountsAddUp(rows: seq<Row>, replies: seq<Reply>, processed: nat, lookups: nat, end: End)
    requires Ran(rows, replies, processed, lookups, end) && end.Finished?
    ensures |end.batch.notices| + end.batch.failed + end.batch.unavailable == processed
    ensures lookups <= processed
  {
    CountsUpTo(rows, Answers(rows, replies), processed);
  }

  lemma {:induction false} CountsUpTo(rows: seq<Row>, answers: seq<Answer>, n: nat)
    requires n <= |answers| == |rows|
    requires forall m :: 0 <= m < n ==> !Stops(answers[m])
    ensures |ParsedRows(rows, answers, n)| + Count(answers, n, Failed) + Count(answers, n, Unavailable) == n
    ensures Lookups(rows, n) <= n
  {
    if n > 0 { CountsUpTo(rows, answers, n - 1); }
  }

  // ---- the counters in terms of what the court replied

  /** The rows among the first `n` to which the court replied like this; only rows with all three ids are asked for. */
  ghost function Replied(rows: seq<Row>, replies: seq<Reply>, n: nat, reply: Reply): set<nat>
    requires n <= |rows|
  {
    set m: nat | m < n && IsAskedFor(rows[m]) && ReplyTo(replies, m) == reply
  }

  ghost predicate IsAskedFor(row: Row) { row.caseNo != "" && row.goodsSeq != "" && row.itemNo != "" }

  ghost function NotAskedFor(rows: seq<Row>, n: nat): set<nat>
    requires n <= |rows|
  {
    set m: nat | m < n && !IsAskedFor(rows[m])
  }

  lemma {:induction false} CountsAreReplies(rows: seq<Row>, replies: seq<Reply>, n: nat)
    requires n <= |rows|
    ensures var answers := Answers(rows, replies);
            && Count(answers, n, Parsed) == |Replied(rows, replies, n, Notice)|
            && Count(answers, n, Unavailable) == |Replied(rows, replies, n, NoNotice)|
            && Count(answers, n, Failed) == |NotAskedFor(rows, n)| + |Replied(rows, replies, n, RequestFailed)|
            && Lookups(rows, n) + |NotAskedFor(rows, n)| == n
  {
    hide Replied, NotAskedFor;
    if n == 0 {
      NobodyAsked(rows, replies);
    } else {
      CountsAreReplies(rows, replies, n - 1);
      NextReply(rows, replies, n - 1, Notice);
      NextReply(rows, replies, n - 1, NoNotice);
      NextReply(rows, replies, n - 1, RequestFailed);
      NextNotAskedFor(rows, n - 1);
    }
  }

  lemma NobodyAsked(rows: seq<Row>, replies: seq<Reply>)
    ensures NotAskedFor(rows, 0) == {} && forall reply :: Replied(rows, replies, 0, reply) == {}
  {
  }

  lemma OneMore(before: set<nat>, after: set<nat>, n: nat, isNew: bool)
    requires n !in before && forall m: nat :: m in after <==> m in before || (isNew && m == n)
    ensures |after| == |before| + if isNew then 1 else 0
  {
    assert after == if isNew then before + {n} else before;
  }

  lemma NextReply(rows: seq<Row>, replies: seq<Reply>, n: nat, reply: Reply)
    requires n < |rows|
    ensures |Replied(rows, replies, n + 1, reply)|
            == |Replied(rows, replies, n, reply)| + if IsAskedFor(rows[n]) && ReplyTo(replies, n) == reply then 1 else 0
  {
    hide IsAskedFor, ReplyTo;
    OneMore(Replied(rows, replies, n, reply), Replied(rows, replies, n + 1, reply), n,
            IsAskedFor(rows[n]) && ReplyTo(replies, n) == reply);
  }

  lemma NextNotAskedFor(rows: seq<Row>, n: nat)
    requires n < |rows|
    ensures |NotAskedFor(rows, n + 1)| == |NotAskedFor(rows, n)| + if IsAskedFor(rows[n]) then 0 else 1
  {
    hide IsAskedFor;
    OneMore(NotAskedFor(rows, n), NotAskedFor(rows, n + 1), n, !IsAskedFor(rows[n]));
  }

  lemma {:induction false} ParsedAreReplies(rows: seq<Row>, replies: seq<Reply>, n: nat) returns (at: seq<nat>)
    requires n <= |rows|
    ensures var parsed := ParsedRows(rows, Answers(rows, replies), n);
            && |at| == |parsed| && (forall k :: 0 <= k < |at| ==> at[k] < n && parsed[k] == rows[at[k]])
    ensures forall k, l :: 0 <= k < l < |at| ==> at[k] < at[l]
    ensures forall m: nat :: m in at <==> m in Replied(rows, replies, n, Notice)
  {
    at := [];
    if n > 0 {
      at := ParsedAreReplies(rows, replies, n - 1);
      if IsAskedFor(rows[n - 1]) && ReplyTo(replies, n - 1) == Notice { at := at + [n - 1]; }
    }
  }

  /** Of the rows that were worked off, those without their ids and those whose request failed are counted as failed,
      those without a notice as unavailable; the notices are those of the others, in order; and a lookup is spent on
      every row that has its ids. */
  lemma CountedByReply(rows: seq<Row>, replies: seq<Reply>, processed: nat, lookups: nat, end: End)
    returns (at: seq<nat>)
    requires Ran(rows, replies, processed, lookups, end)
    ensures lookups + |NotAskedFor(rows, processed)| == processed
    ensures end.Finished? ==>
              && end.batch.failed == |NotAskedFor(rows, processed)| + |Replied(rows, replies, processed, RequestFailed)|
              && end.batch.unavailable == |Replied(rows, replies, processed, NoNotice)|
              && |at| == |end.batch.notices| == |Replied(rows, replies, processed, Notice)|
              && (forall k :: 0 <= k < |at| ==>
                    at[k] in Replied(rows, replies, processed, Notice) && end.batch.notices[k] == rows[at[k]])
              && forall k, l :: 0 <= k < l < |at| ==> at[k] < at[l]
  {
    CountsAreReplies(rows, replies, processed);
    at := ParsedAreReplies(rows, replies, processed);
    assert forall k :: 0 <= k < |at| ==> at[k] in at;
    ParsedIsCount(rows, Answers(rows, replies), processed);
    hide Replied, NotAskedFor, Answers, Count, Lookups;
  }

  lemma {:induction false} ParsedIsCount(rows: seq<Row>, answers: seq<Answer>, n: nat)
    requires n <= |answers| == |rows|
    ensures |ParsedRows(rows, answers, n)| == Count(answers, n, Parsed)
  {
    if n > 0 { ParsedIsCount(rows, answers, n - 1); }
  }

  /** The streak counts exactly the unavailable answers after the last parsed one. */
  lemma {:induction false} StreakSinceLastParsed(answers: seq<Answer>, n: nat) returns (start: nat)
    requires n <= |answers|
    ensures start <= n && (start == 0 || answers[start - 1] == Parsed)
    ensures forall m :: start <= m < n ==> answers[m] != Parsed
    ensures Streak(answers, n) == Count(answers, n, Unavailable) - Count(answers, start, Unavailable)
  {
    if n == 0 || answers[n - 1] == Parsed {
      start := n;
    } else {
      start := StreakSinceLastParsed(answers, n - 1);
    }
  }

  /** No row is worked off once twenty unavailable answers have come since the last parsed notice. */
  lemma NoLookupAfterTheStreak(rows: seq<Row>, replies: seq<Reply>, processed: nat, lookups: nat, end: End,
                               start: nat, m: nat)
    requires Ran(rows, replies, processed, lookups, end)
    requires start <= m < |rows| && forall i :: start <= i < m ==> Answers(rows, replies)[i] != Parsed
    requires Count(Answers(rows, replies), m, Unavailable) - Count(Answers(rows, replies), start, Unavailable)
             >= UNAVAILABLE_STREAK_LIMIT
    ensures processed <= m
  {
    StreakAtLeast(Answers(rows, replies), start, m);
    assert !MayGoOn(Answers(rows, replies), m);
  }

  lemma {:induction false} StreakAtLeast(answers: seq<Answer>, start: nat, n: nat)
    requires start <= n <= |answers| && forall i :: start <= i < n ==> answers[i] != Parsed
    ensures Streak(answers, n) >= Count(answers, n, Unavailable) - Count(answers, start, Unavailable)
  {
    if start < n { StreakAtLeast(answers, start, n - 1); }
  }

  // ---- all courts

  type ItemKey = (string, string, string)

  type BidKey = (string, string, string, Option<int>)

  /** What the repository knows when the stage starts. */
  datatype Known = Known(notices: set<BidKey>, tenantScans: set<BidKey>)

  function KeyOf(court: string, row: Row): ItemKey { (court, row.caseNo, row.itemNo) }

  function BidKeyOf(court: string, row: Row): BidKey { (court, row.caseNo, row.itemNo, row.bidDate) }

  /** The notice of this sale date is stored, and so is its tenant table if tables are wanted. */
  predicate IsStored(court: string, row: Row, known: Known, withTenants: bool) {
    && BidKeyOf(court, row) in known.notices
    && (withTenants ==> BidKeyOf(court, row) in known.tenantScans)
  }

  /** No row before is of the same item of the same case. */
  ghost predicate IsFirst(rows: seq<Row>, i: nat)
    requires i < |rows|
  {
    forall j :: 0 <= j < i ==> rows[j].caseNo != rows[i].caseNo || rows[j].itemNo != rows[i].itemNo
  }

  /** The rows to open: the first of each item, unless it is stored. */
  ghost function Missing(court: string, rows: seq<Row>, n: nat, known: Known, withTenants: bool): seq<Row>
    requires n <= |rows|
  {
    if n == 0 then []
    else
      Missing(court, rows, n - 1, known, withTenants)
      + if IsFirst(rows, n - 1) && !IsStored(court, rows[n - 1], known, withTenants) then [rows[n - 1]] else []
  }

  /** The distinct items among the first `n` rows. */
  ghost function Items(rows: seq<Row>, n: nat): nat
    requires n <= |rows|
  {
    if n == 0 then 0 else Items(rows, n - 1) + if IsFirst(rows, n - 1) then 1 else 0
  }

  method FindMissing(court: string, rows: seq<Row>, known: Known, withTenants: bool)
    returns (missing: seq<Row>, candidates: nat, skipped: nat)
    ensures missing == Missing(court, rows, |rows|, known, withTenants)
    ensures candidates == Items(rows, |rows|) == skipped + |missing|
  {
    missing, candidates, skipped := [], 0, 0;
    var seen: set<ItemKey> := {};
    for i := 0 to |rows|
      invariant missing == Missing(court, rows, i, known, withTenants)
      invariant candidates == Items(rows, i) == skipped + |missing|
      invariant forall key :: key in seen <==> exists j :: 0 <= j < i && KeyOf(court, rows[j]) == key
    {
      var row := rows[i];
      var key := KeyOf(court, row);
      assert key in seen <==> !IsFirst(rows, i);
      if key in seen { continue; }
      seen := seen + {key};
      candidates := candidates + 1;
      if IsStored(court, row, known, withTenants) {
        skipped := skipped + 1;
        continue;
      }
      missing := missing + [row];
    }
  }

  /** Rows without a date come last. */
  function Urgency(row: Row): int {
    if row.saleDate.Some? then row.saleDate.value else NO_SALE_DATE
  }

  /** How many of `n` rows may still be opened. */
  function Allowed(limit: Option<int>, detailed: int, n: nat): (allowed: nat)
    ensures allowed <= n
  {
    if limit.None? then n else Min(n, Max(limit.value - detailed, 0))
  }

  function Chosen(missing: seq<Row>, limit: Option<int>, detailed: int): seq<Row> {
    var sorted := StableSort(missing, Urgency);
    if Allowed(limit, detailed, |missing|) <= |sorted| then sorted[..Allowed(limit, detailed, |missing|)] else sorted
  }

  datatype Visit = Visit(court: string, candidates: nat, skipped: nat, missing: seq<Row>, chosen: seq<Row>,
                         processed: nat, lookups: nat, end: End, stored: bool)

  datatype Stage = Stage(candidates: int, skipped: int, detailed: int, parsed: int, unavailable: int, failed: int,
                         failures: int, blocked: bool, visits: seq<Visit>)

  // What one visit adds to the counters. A batch that could not be stored, or was never finished, adds nothing
  // but a failure.

  predicate Counted(v: Visit) { v.end.Finished? && v.stored }

  function CandidatesIn(v: Visit): int { v.candidates }

  function SkippedIn(v: Visit): int { v.skipped }

  function ChosenIn(v: Visit): int { |v.chosen| }

  function LookupsIn(v: Visit): int { v.lookups }

  function ParsedIn(v: Visit): int { if Counted(v) then |v.end.batch.notices| else 0 }

  function UnavailableIn(v: Visit): int { if Counted(v) then v.end.batch.unavailable else 0 }

  function FailedIn(v: Visit): int { if Counted(v) then v.end.batch.failed else 0 }

  function ProcessedIn(v: Visit): int { if Counted(v) then v.processed else 0 }

  function FailuresIn(v: Visit): int { if Counted(v) || v.end.Blocked? then 0 else 1 }

  function Detailed(visits: seq<Visit>): int { Sum(visits, ChosenIn) }

  function LookedUp(visits: seq<Visit>): int { Sum(visits, LookupsIn) }

  function StageOf(visits: seq<Visit>, blocked: bool): Stage {
    Stage(Sum(visits, CandidatesIn), Sum(visits, SkippedIn), Detailed(visits), Sum(visits, ParsedIn),
          Sum(visits, UnavailableIn), Sum(visits, FailedIn), Sum(visits, FailuresIn), blocked, visits)
  }

  /** The counters are the sums over the visits, and only the last court can have blocked the run. */
  ghost predicate IsStage(stage: Stage) {
    && stage == StageOf(stage.visits, stage.blocked) && (stage.blocked ==> stage.visits != [])
    && forall i :: 0 <= i < |stage.visits| ==>
         (stage.visits[i].end == Blocked <==> stage.blocked && i == |stage.visits| - 1)
  }

  function StageAfter(stage: Stage, v: Visit): Stage {
    Stage(stage.candidates + CandidatesIn(v), stage.skipped + SkippedIn(v), stage.detailed + ChosenIn(v),
          stage.parsed + ParsedIn(v), stage.unavailable + UnavailableIn(v),
          stage.failed + FailedIn(v), stage.failures + FailuresIn(v), v.end.Blocked?, stage.visits + [v])
  }

  lemma SumPush(visits: seq<Visit>, v: Visit, amount: Visit -> int)
    ensures Sum(visits + [v], amount) == Sum(visits, amount) + amount(v)
  {
    SumAppend(visits, [v], amount);
  }

  lemma StagePush(stage: Stage, v: Visit)
    requires IsStage(stage) && !stage.blocked
    ensures IsStage(StageAfter(stage, v))
  {
    SumPush(stage.visits, v, CandidatesIn);
    SumPush(stage.visits, v, SkippedIn);
    SumPush(stage.visits, v, ChosenIn);
    SumPush(stage.visits, v, ParsedIn);
    SumPush(stage.visits, v, UnavailableIn);
    SumPush(stage.visits, v, FailedIn);
    SumPush(stage.visits, v, FailuresIn);
  }

  /** What a stage starts from. A court may have no search results, and what it will reply to the `m`-th row opened
      in the `i`-th visit is `replies[i][m]`. */
  datatype Inputs = Inputs(courts: seq<string>, rowsOf: map<string, seq<Row>>, known: Known, withTenants: bool,
                           limit: Option<int>, replies: seq<seq<Reply>>)
  {
    function Rows(i: nat): seq<Row>
      requires i < |courts|
    {
      if courts[i] in rowsOf then rowsOf[courts[i]] else []
    }

    function Replies(i: nat): seq<Reply> {
      if i < |replies| then replies[i] else []
    }
  }

  /** The `i`-th visit, with `spent` of the limit already given out. */
  ghost predicate IsVisit(v: Visit, x: Inputs, i: nat, spent: int)
    requires i < |x.courts|
  {
    && v.court == x.courts[i]
    && v.candidates == Items(x.Rows(i), |x.Rows(i)|) == v.skipped + |v.missing|
    && v.missing == Missing(v.court, x.Rows(i), |x.Rows(i)|, x.known, x.withTenants)
    && v.chosen == Chosen(v.missing, x.limit, spent)
    && Ran(v.chosen, x.Replies(i), v.processed, v.lookups, v.end)
  }

  /** The courts were visited in order, each with the budget the earlier ones left. */
  ghost predicate Visited(visits: seq<Visit>, x: Inputs) {
    && |visits| <= |x.courts|
    && forall i :: 0 <= i < |visits| ==> IsVisit(visits[i], x, i, Detailed(visits[..i]))
  }

  method VisitCourt(x: Inputs, i: nat, detailed: int, storeFails: bool) returns (visit: Visit)
    requires i < |x.courts|
    ensures IsVisit(visit, x, i, detailed)
    ensures visit.stored <==> visit.end.Finished? && !storeFails
  {
    hide Missing, Chosen, Ran, Items;
    var court := x.courts[i];
    var missing, candidates, skipped := FindMissing(court, x.Rows(i), x.known, x.withTenants);
    var chosen := Chosen(missing, x.limit, detailed);
    var processed, lookups, end := CollectNoticesForRows(chosen, x.Replies(i));
    visit := Visit(court, candidates, skipped, missing, chosen, processed, lookups, end, end.Finished? && !storeFails);
  }

  /** Storing the batch of a visit in `storeFails` throws; so does reading what is known unless `readable`. */
  method CollectNotices(x: Inputs, readable: bool, storeFails: set<nat>) returns (stage: Stage)
    ensures !readable ==> stage == Stage(0, 0, 0, 0, 0, 0, 1, false, [])
    ensures readable ==> Visited(stage.visits, x) && IsStage(stage)
    ensures readable ==> if stage.blocked then stage.visits != [] else |stage.visits| == |x.courts|
  {
    hide Visited, IsVisit, IsStage, Missing, IsFirst, Chosen, Ran, Sum, Detailed;
    if !readable {
      return Stage(0, 0, 0, 0, 0, 0, 1, false, []);
    }
    stage := Stage(0, 0, 0, 0, 0, 0, 0, false, []);
    StageStart(x);
    for i := 0 to |x.courts|
      invariant |stage.visits| == i && !stage.blocked && IsStage(stage) && Visited(stage.visits, x)
    {
      SpentSoFar(stage);
      var visit := VisitCourt(x, i, stage.detailed, i in storeFails);
      VisitedPush(stage.visits, visit, x);
      StagePush(stage, visit);
      stage := stage.(candidates := stage.candidates + visit.candidates, skipped := stage.skipped + visit.skipped,
                      detailed := stage.detailed + |visit.chosen|, visits := stage.visits + [visit]);
      match visit.end
      case Blocked =>
        stage := stage.(blocked := true);
        return;
      case Aborted =>
        stage := stage.(failures := stage.failures + 1);
      case Finished(batch) =>
        if i in storeFails {
          stage := stage.(failures := stage.failures + 1);
        } else {
          stage := stage.(parsed := stage.parsed + |batch.notices|, failed := stage.failed + batch.failed,
                          unavailable := stage.unavailable + batch.unavailable);
        }
    }
  }

  lemma StageStart(x: Inputs)
    ensures IsStage(Stage(0, 0, 0, 0, 0, 0, 0, false, [])) && Visited([], x)
  {
  }

  lemma SpentSoFar(stage: Stage)
    requires IsStage(stage)
    ensures stage.detailed == Detailed(stage.visits)
  {
  }

  lemma VisitedPush(visits: seq<Visit>, visit: Visit, x: Inputs)
    requires |visits| < |x.courts| && Visited(visits, x) && IsVisit(visit, x, |visits|, Detailed(visits))
    ensures Visited(visits + [visit], x)
  {
    hide IsVisit, Detailed;
    var all := visits + [visit];
    forall i | 0 <= i < |all|
      ensures all[..i] == if i < |visits| then visits[..i] else visits
    {
    }
  }

  lemma SortKeepsLength(missing: seq<Row>)
    ensures |StableSort(missing, Urgency)| == |missing|
  {
    StableSortSorts(missing, Urgency);
    assert |multiset(StableSort(missing, Urgency))| == |multiset(missing)|;
  }

  // ---- what a stage promises

  lemma VisitBudget(v: Visit, x: Inputs, i: nat, spent: int)
    requires i < |x.courts| && IsVisit(v, x, i, spent)
    ensures v.lookups <= |v.chosen|
    ensures x.limit.Some? ==> |v.chosen| <= Max(x.limit.value - spent, 0)
  {
    hide Missing, StableSort;
    SortKeepsLength(v.missing);
    LookupsAtMost(v.chosen, v.processed);
  }

  lemma NothingSpent(visits: seq<Visit>)
    ensures Detailed(visits[..0]) == LookedUp(visits[..0]) == 0
  {
  }

  lemma SpentNext(visits: seq<Visit>, i: nat)
    requires i < |visits|
    ensures Detailed(visits[..i + 1]) == Detailed(visits[..i]) + |visits[i].chosen|
    ensures LookedUp(visits[..i + 1]) == LookedUp(visits[..i]) + visits[i].lookups
  {
    assert visits[..i + 1] == visits[..i] + [visits[i]];
    SumPush(visits[..i], visits[i], ChosenIn);
    SumPush(visits[..i], visits[i], LookupsIn);
    hide Sum;
  }

  lemma VisitAt(visits: seq<Visit>, x: Inputs, i: nat)
    requires Visited(visits, x) && i < |visits|
    ensures i < |x.courts| && IsVisit(visits[i], x, i, Detailed(visits[..i]))
  {
    hide IsVisit, Detailed;
  }

  lemma {:induction false} BudgetUpTo(visits: seq<Visit>, x: Inputs, n: nat)
    requires Visited(visits, x) && n <= |visits|
    ensures LookedUp(visits[..n]) <= Detailed(visits[..n])
    ensures x.limit.Some? ==> Detailed(visits[..n]) <= Max(x.limit.value, 0)
    decreases n
  {
    hide Visited, IsVisit, Detailed, LookedUp, Missing, IsFirst, Chosen, Ran, Sum;
    NothingSpent(visits);
    if n > 0 {
      VisitAt(visits, x, n - 1);
      VisitBudget(visits[n - 1], x, n - 1, Detailed(visits[..n - 1]));
      BudgetUpTo(visits, x, n - 1);
      SpentNext(visits, n - 1);
    }
  }

  lemma {:induction false} LookupsAtMost(rows: seq<Row>, n: nat)
    requires n <= |rows|
    ensures Lookups(rows, n) <= n
  {
    if n > 0 { LookupsAtMost(rows, n - 1); }
  }

  /** Over all courts, however they reply, no more items are looked up than the limit allows. */
  lemma LookupsWithinLimit(visits: seq<Visit>, x: Inputs)
    requires Visited(visits, x)
    ensures LookedUp(visits) <= Detailed(visits)
    ensures x.limit.Some? ==> LookedUp(visits) <= Max(x.limit.value, 0)
  {
    BudgetUpTo(visits, x, |visits|);
    assert visits[..|visits|] == visits;
  }

  lemma SplitSorted(s: seq<Row>, sorted: seq<Row>, k: nat)
    requires k <= |sorted| && multiset(s) == multiset(sorted) && SortedBy(sorted, Urgency)
    ensures multiset(s) == multiset(sorted[..k]) + multiset(sorted[k..])
    ensures SortedBy(sorted[..k], Urgency)
    ensures forall x, y :: x in sorted[..k] && y in sorted[k..] ==> Urgency(x) <= Urgency(y)
  {
    assert sorted == sorted[..k] + sorted[k..];
    hide Urgency;
    forall x, y | x in sorted[..k] && y in sorted[k..]
      ensures Urgency(x) <= Urgency(y)
    {
      var a :| 0 <= a < k && sorted[a] == x;
      var b :| k <= b < |sorted| && sorted[b] == y;
    }
  }

  lemma ChosenIsMostUrgent(missing: seq<Row>, limit: Option<int>, detailed: int) returns (leftOut: seq<Row>)
    ensures multiset(missing) == multiset(Chosen(missing, limit, detailed)) + multiset(leftOut)
    ensures SortedBy(Chosen(missing, limit, detailed), Urgency)
    ensures forall x, y :: x in Chosen(missing, limit, detailed) && y in leftOut ==> Urgency(x) <= Urgency(y)
    ensures leftOut != [] ==> limit.Some? && detailed + |Chosen(missing, limit, detailed)| >= limit.value
  {
    var sorted, k := StableSort(missing, Urgency), Allowed(limit, detailed, |missing|);
    StableSortSorts(missing, Urgency);
    SortKeepsLength(missing);
    leftOut := sorted[k..];
    assert Chosen(missing, limit, detailed) == sorted[..k];
    hide StableSort, Chosen, Urgency, Max;
    SplitSorted(missing, sorted, k);
  }

  /** By the text of the sale date; rows without one come after every date. */
  ghost predicate NotAfter(r: Row, q: Row) {
    && (r.saleDate.Some? && q.saleDate.Some? ==> r.saleDate.value <= q.saleDate.value)
    && (r.saleDate.Some? && q.saleDate.None? ==> r.saleDate.value <= 99_999_999)
    && (r.saleDate.None? && q.saleDate.Some? ==> 99_999_999 <= q.saleDate.value)
  }

  lemma UrgencyIsSaleDate(r: Row, q: Row)
    ensures Urgency(r) <= Urgency(q) <==> NotAfter(r, q)
  {
  }

  /** In each court the most urgent items are opened, in order: what is left out has no earlier sale date than
      what is opened, nothing is opened twice or invented, and items are left out only once the limit is used up. */
  lemma MostUrgentFirst(visits: seq<Visit>, x: Inputs, i: nat) returns (leftOut: seq<Row>)
    requires Visited(visits, x) && i < |visits|
    ensures multiset(visits[i].missing) == multiset(visits[i].chosen) + multiset(leftOut)
    ensures forall k, l :: 0 <= k < l < |visits[i].chosen| ==> NotAfter(visits[i].chosen[k], visits[i].chosen[l])
    ensures forall r, q :: r in visits[i].chosen && q in leftOut ==> NotAfter(r, q)
    ensures leftOut != [] ==> x.limit.Some? && Detailed(visits[..i + 1]) >= x.limit.value
  {
    var spent := Detailed(visits[..i]);
    assert visits[i].chosen == Chosen(visits[i].missing, x.limit, spent);
    SpentNext(visits, i);
    forall r, q { UrgencyIsSaleDate(r, q); }
    hide *;
    leftOut := ChosenIsMostUrgent(visits[i].missing, x.limit, spent);
    InSaleOrder(visits[i].chosen);
  }

  lemma InSaleOrder(rows: seq<Row>)
    requires SortedBy(rows, Urgency)
    ensures forall k, l :: 0 <= k < l < |rows| ==> NotAfter(rows[k], rows[l])
  {
    hide Urgency, NotAfter;
    forall k, l | 0 <= k < l < |rows|
      ensures NotAfter(rows[k], rows[l])
    {
      UrgencyIsSaleDate(rows[k], rows[l]);
    }
  }

  lemma {:induction false} ProcessedAddsUp(visits: seq<Visit>)
    requires forall v :: v in visits && v.end.Finished? ==>
               |v.end.batch.notices| + v.end.batch.failed + v.end.batch.unavailable == v.processed
    ensures Sum(visits, ParsedIn) + Sum(visits, FailedIn) + Sum(visits, UnavailableIn) == Sum(visits, ProcessedIn)
  {
    if visits != [] {
      assert visits[0] in visits;
      ProcessedAddsUp(visits[1..]);
    }
  }

  function MissingIn(v: Visit): int { |v.missing| }

  function StoredIn(v: Visit): int { if v.end.Finished? && v.stored then 1 else 0 }

  lemma {:induction false} CandidatesAddUp(visits: seq<Visit>)
    requires forall v :: v in visits ==> v.candidates == v.skipped + |v.missing|
    ensures Sum(visits, CandidatesIn) == Sum(visits, SkippedIn) + Sum(visits, MissingIn)
  {
    if visits != [] {
      assert visits[0] in visits;
      CandidatesAddUp(visits[1..]);
    }
  }

  lemma {:induction false} FailuresAddUp(visits: seq<Visit>, blocked: bool)
    requires forall i :: 0 <= i < |visits| ==> (visits[i].end == Blocked <==> blocked && i == |visits| - 1)
    requires blocked ==> visits != []
    ensures Sum(visits, FailuresIn) + (if blocked then 1 else 0) == |visits| - Sum(visits, StoredIn)
  {
    if visits != [] {
      var rest := visits[1..];
      assert forall i :: 0 <= i < |rest| ==> rest[i] == visits[i + 1];
      if rest == [] {
        assert Sum(rest, FailuresIn) == 0 && Sum(rest, StoredIn) == 0;
        assert visits[0].end == Blocked <==> blocked;
      } else {
        FailuresAddUp(rest, blocked);
      }
    }
  }

  /** Parsed, failed and unavailable together are the rows worked off in the courts whose batch was stored; candidates
      are what was skipped and what was missing; and every court that was not stored is a failure or the block. */
  lemma StageAddsUp(stage: Stage, x: Inputs)
    requires IsStage(stage) && Visited(stage.visits, x)
    ensures stage.parsed + stage.failed + stage.unavailable == Sum(stage.visits, ProcessedIn)
    ensures stage.candidates == stage.skipped + Sum(stage.visits, MissingIn)
    ensures stage.failures + (if stage.blocked then 1 else 0) == |stage.visits| - Sum(stage.visits, StoredIn)
  {
    hide Visited, Ran, Sum;
    VisitsAreCounted(stage.visits, x);
    FailuresAddUp(stage.visits, stage.blocked);
    ProcessedAddsUp(stage.visits);
    CandidatesAddUp(stage.visits);
  }

  lemma VisitsAreCounted(visits: seq<Visit>, x: Inputs)
    requires Visited(visits, x)
    ensures forall v :: v in visits ==> v.candidates == v.skipped + |v.missing|
    ensures forall v :: v in visits && v.end.Finished? ==>
              |v.end.batch.notices| + v.end.batch.failed + v.end.batch.unavailable == v.processed
  {
    hide Missing, Chosen, Items, Ran, Detailed;
    forall v | v in visits
      ensures v.candidates == v.skipped + |v.missing|
      ensures v.end.Finished? ==>
                |v.end.batch.notices| + v.end.batch.failed + v.end.batch.unavailable == v.processed
    {
      var i :| 0 <= i < |visits| && visits[i] == v;
      VisitAt(visits, x, i);
      if v.end.Finished? { CountsAddUp(v.chosen, x.Replies(i), v.processed, v.lookups, v.end); }
    }
  }

  /** What is to be opened are the first rows of items that are not stored. */
  lemma {:induction false} MissingExactlyWhen(court: string, rows: seq<Row>, n: nat, known: Known, withTenants: bool,
                                              row: Row)
    requires n <= |rows|
    ensures row in Missing(court, rows, n, known, withTenants)
            <==> (exists i :: 0 <= i < n && rows[i] == row && IsFirst(rows, i))
                 && ((court, row.caseNo, row.itemNo, row.bidDate) !in known.notices
                     || (withTenants && (court, row.caseNo, row.itemNo, row.bidDate) !in known.tenantScans))
  {
    if n > 0 { MissingExactlyWhen(court, rows, n - 1, known, withTenants, row); }
  }

  /** They are left in the order of the search. */
  lemma {:induction false} MissingInOrder(court: string, rows: seq<Row>, n: nat, known: Known, withTenants: bool)
    returns (at: seq<nat>)
    requires n <= |rows|
    ensures |at| == |Missing(court, rows, n, known, withTenants)|
    ensures forall k :: 0 <= k < |at| ==> at[k] < n && rows[at[k]] == Missing(court, rows, n, known, withTenants)[k]
    ensures forall k, l :: 0 <= k < l < |at| ==> at[k] < at[l]
  {
    at := [];
    if n > 0 {
      at := MissingInOrder(court, rows, n - 1, known, withTenants);
      if IsFirst(rows, n - 1) && !IsStored(court, rows[n - 1], known, withTenants) { at := at + [n - 1]; }
    }
  }
}
