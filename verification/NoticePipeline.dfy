/** From parsed notice rows to the sum shown for an item: merge by person, classify, add up. */
module NoticePipeline {
  import opened Collections
  import opened RightsTypes
  import opened Distribution
  import opened DistributionStages
  import opened NoticeAssumption
  import opened NoticeCells
  import opened NoticeMerge
  import opened NoticeTotals

  /** The demand and its date come from one cell of the row. */
  ghost predicate IsParsedRow(r: Row) {
    exists cell: DemandCell :: r.demandedDistribution == Demanded(cell)
        && r.demandedDistributionDate == DemandDate(cell)
  }

  function NoticeOf(m: MergedTenant): NoticeTenant {
    NoticeTenant(m.moveInDate, m.depositAmount, m.demandedDistribution, m.demandedDistributionDate)
  }

  function NoticesOf(ms: seq<MergedTenant>): (ns: seq<NoticeTenant>)
    ensures |ns| == |ms|
    ensures forall i :: 0 <= i < |ms| ==> ns[i] == NoticeOf(ms[i])
  {
    if ms == [] then [] else [NoticeOf(ms[0])] + NoticesOf(ms[1..])
  }

  /** Although demand and date are merged field by field from different rows, a merged demand is never
      without a date: the one case in which the full verdict would be wrong cannot come out of the merge. */
  lemma MergedDemandIsDated(rows: seq<Row>, person: int)
    requires forall r :: r in rows ==> IsParsedRow(r)
    ensures DemandIsDated(NoticeOf(MergedOf(rows, person)))
  {
    var i := SlotIsMostTrusted(rows, person, DemandedOf);
    var j := SlotIsMostTrusted(rows, person, DemandedDateOf);
    if SlotOf(rows, person, DemandedOf).value == Some(true) {
      assert rows[i] in rows;
      assert DemandedDateOf(rows[i]).Some?;
      assert HasValue(rows, person, DemandedDateOf);
    }
  }

  /** What is classified of a person with one row are the values of that row. */
  lemma LoneRowIsClassified(r: Row)
    ensures NoticeOf(MergedOf([r], r.tenantSeq))
            == NoticeTenant(r.moveInDate, r.depositAmount, r.demandedDistribution, r.demandedDistributionDate)
  {
    hide MergedOf;
    LoneRowIsKept(r);
  }

  /** `merged` are the persons the rows mention, `total` is the sum of their verdicts, and for every case that fits
      them it is at most what the engine makes the buyer take over, and that sum when it is not marked as a lower
      bound. */
  ghost predicate IsSumFor(total: AssumedTotal, merged: seq<MergedTenant>, rows: seq<Row>, baselineDate: Option<Date>,
                           deadline: Option<Date>) {
    && (forall i, j :: 0 <= i < j < |merged| ==> merged[i].tenantSeq < merged[j].tenantSeq)
    && (forall i :: 0 <= i < |merged| ==> merged[i] == MergedOf(rows, merged[i].tenantSeq))
    && (forall p :: Mentions(rows, p) <==> exists i :: 0 <= i < |merged| && merged[i].tenantSeq == p)
    && total == TotalOf(ClassifyAll(NoticesOf(merged), baselineDate, deadline))
    && forall c :: FitsAll(c, NoticesOf(merged), baselineDate, deadline) ==>
         && total.amount <= TotalAssumed(Distribute(c).value.outcomes)
         && (!total.isLowerBound ==> total.amount == TotalAssumed(Distribute(c).value.outcomes))
  }

  /** For every registry, sale price and completion of what the notice leaves open, the sum computed
      from the parsed rows is at most what the engine makes the buyer take over, and is that sum when
      it is not marked as a lower bound. */
  method AssumedDeposits(rows: seq<Row>, baselineDate: Option<Date>, deadline: Option<Date>)
    returns (merged: seq<MergedTenant>, total: AssumedTotal)
    requires forall r :: r in rows ==> IsParsedRow(r)
    ensures IsSumFor(total, merged, rows, baselineDate, deadline)
  {
    merged := MergeNoticeTenants(rows);
    var notices := NoticesOf(merged);
    total := AssumedTotalOf(ClassifyAll(notices, baselineDate, deadline));
    SumFits(rows, merged, baselineDate, deadline);
  }

  lemma SumFits(rows: seq<Row>, merged: seq<MergedTenant>, baselineDate: Option<Date>, deadline: Option<Date>)
    requires forall r :: r in rows ==> IsParsedRow(r)
    requires forall i, j :: 0 <= i < j < |merged| ==> merged[i].tenantSeq < merged[j].tenantSeq
    requires forall i :: 0 <= i < |merged| ==> merged[i] == MergedOf(rows, merged[i].tenantSeq)
    requires forall p :: Mentions(rows, p) <==> exists i :: 0 <= i < |merged| && merged[i].tenantSeq == p
    ensures var total := TotalOf(ClassifyAll(NoticesOf(merged), baselineDate, deadline));
            IsSumFor(total, merged, rows, baselineDate, deadline)
  {
    hide MergedOf, Mentions, TotalOf, ClassifyAll, NoticesOf, Fits, DistinctIds, Distribute, TotalAssumed, IsParsedRow;
    var total := TotalOf(ClassifyAll(NoticesOf(merged), baselineDate, deadline));
    forall c | FitsAll(c, NoticesOf(merged), baselineDate, deadline)
      ensures total.amount <= TotalAssumed(Distribute(c).value.outcomes)
      ensures !total.isLowerBound ==> total.amount == TotalAssumed(Distribute(c).value.outcomes)
    {
      TotalFits(c, rows, merged, baselineDate, deadline);
    }
  }

  lemma TotalFits(
    c: Case, rows: seq<Row>, merged: seq<MergedTenant>, baselineDate: Option<Date>, deadline: Option<Date>)
    requires forall r :: r in rows ==> IsParsedRow(r)
    requires forall i :: 0 <= i < |merged| ==> merged[i] == MergedOf(rows, merged[i].tenantSeq)
    requires FitsAll(c, NoticesOf(merged), baselineDate, deadline)
    ensures var total := TotalOf(ClassifyAll(NoticesOf(merged), baselineDate, deadline));
            && total.amount <= TotalAssumed(Distribute(c).value.outcomes)
            && (!total.isLowerBound ==> total.amount == TotalAssumed(Distribute(c).value.outcomes))
  {
    hide MergedOf, TotalOf, ClassifyAll, Fits, DistinctIds, Distribute, TotalMisread, TotalUncounted;
    forall i | 0 <= i < |merged|
      ensures DemandIsDated(NoticeOf(merged[i]))
    {
      MergedDemandIsDated(rows, merged[i].tenantSeq);
    }
    DatedIsNotMisread(NoticesOf(merged), baselineDate, deadline);
    NoticeTotalIsSound(c, NoticesOf(merged), baselineDate, deadline);
  }

  // ---- all notices of a list at once

  /** One listed item; an item without a notice has no notice id. */
  datatype NoticeMeta = NoticeMeta(noticeId: Option<string>, baselineDate: Option<Date>, deadline: Option<Date>)

  datatype StoredRow = StoredRow(noticeId: string, row: Row)

  /** The rows of one notice in stored order. */
  function RowsOf(rows: seq<StoredRow>, noticeId: string): seq<Row> {
    if rows == [] then []
    else
      var last := rows[|rows| - 1];
      RowsOf(rows[..|rows| - 1], noticeId) + if last.noticeId == noticeId then [last.row] else []
  }

  /** They are all of its rows, one behind the other as they are stored. */
  lemma {:induction false} RowsOfInOrder(rows: seq<StoredRow>, noticeId: string) returns (at: seq<nat>)
    ensures |at| == |RowsOf(rows, noticeId)| && forall k, l :: 0 <= k < l < |at| ==> at[k] < at[l]
    ensures forall k :: 0 <= k < |at| ==> at[k] < |rows| && rows[at[k]].row == RowsOf(rows, noticeId)[k]
    ensures forall i: nat :: i in at <==> i < |rows| && rows[i].noticeId == noticeId
  {
    at := [];
    if rows != [] {
      var n := |rows| - 1;
      at := RowsOfInOrder(rows[..n], noticeId);
      if rows[n].noticeId == noticeId { at := at + [n]; }
    }
  }

  lemma {:induction false} RowsOfParsed(rows: seq<StoredRow>, noticeId: string)
    requires forall s :: s in rows ==> IsParsedRow(s.row)
    ensures forall r :: r in RowsOf(rows, noticeId) ==> IsParsedRow(r)
  {
    hide IsParsedRow;
    if rows != [] {
      assert rows[|rows| - 1] in rows && forall s :: s in rows[..|rows| - 1] ==> s in rows;
      RowsOfParsed(rows[..|rows| - 1], noticeId);
    }
  }

  method GroupByNotice(rows: seq<StoredRow>) returns (byNotice: map<string, seq<Row>>)
    ensures forall id :: RowsOf(rows, id) == if id in byNotice then byNotice[id] else []
  {
    byNotice := map[];
    for i := 0 to |rows|
      invariant forall id :: RowsOf(rows[..i], id) == if id in byNotice then byNotice[id] else []
    {
      var noticeId, row := rows[i].noticeId, rows[i].row;
      assert rows[..i + 1][..i] == rows[..i];
      if noticeId in byNotice {
        byNotice := byNotice[noticeId := byNotice[noticeId] + [row]];
      } else {
        byNotice := byNotice[noticeId := [row]];
      }
    }
    assert rows[..|rows|] == rows;
  }

  /** The stored rows the query returns: those of the notices asked for, in stored order. */
  function SelectRows(rows: seq<StoredRow>, ids: set<string>): seq<StoredRow> {
    if rows == [] then []
    else
      var last := rows[|rows| - 1];
      SelectRows(rows[..|rows| - 1], ids) + if last.noticeId in ids then [last] else []
  }

  lemma {:induction false} SelectedRows(rows: seq<StoredRow>, ids: set<string>, s: StoredRow)
    ensures s in SelectRows(rows, ids) <==> s in rows && s.noticeId in ids
  {
    if rows != [] {
      SelectedRows(rows[..|rows| - 1], ids, s);
      assert rows == rows[..|rows| - 1] + [rows[|rows| - 1]];
    }
  }

  lemma {:induction false} SelectedRowsOf(rows: seq<StoredRow>, ids: set<string>, noticeId: string)
    requires noticeId in ids
    ensures RowsOf(SelectRows(rows, ids), noticeId) == RowsOf(rows, noticeId)
  {
    if rows != [] {
      var init, last := rows[..|rows| - 1], rows[|rows| - 1];
      SelectedRowsOf(init, ids, noticeId);
      var selected := SelectRows(init, ids);
      assert (selected + [last])[..|selected|] == selected && selected + [] == selected;
      assert RowsOf(init, noticeId) + [] == RowsOf(init, noticeId);
    }
  }

  /** The entry of a notice that counts: of several items with one notice the last. */
  function MetaOf(metas: seq<NoticeMeta>, noticeId: string): Option<NoticeMeta> {
    if metas == [] then None
    else if metas[|metas| - 1].noticeId == Some(noticeId) then Some(metas[|metas| - 1])
    else MetaOf(metas[..|metas| - 1], noticeId)
  }

  method CollectMetas(metas: seq<NoticeMeta>) returns (metaById: map<string, NoticeMeta>)
    ensures forall id :: MetaOf(metas, id) == if id in metaById then Some(metaById[id]) else None
  {
    metaById := map[];
    for i := 0 to |metas|
      invariant forall id :: MetaOf(metas[..i], id) == if id in metaById then Some(metaById[id]) else None
    {
      assert metas[..i + 1][..i] == metas[..i];
      if metas[i].noticeId.Some? {
        metaById := metaById[metas[i].noticeId.value := metas[i]];
      }
    }
    assert metas[..|metas|] == metas;
  }

  ghost predicate IsSummaryOf(total: AssumedTotal, noticeId: string, meta: NoticeMeta, rows: seq<StoredRow>) {
    exists merged :: IsSumFor(total, merged, RowsOf(rows, noticeId), meta.baselineDate, meta.deadline)
  }

  /** One summary for every notice of a listed item and none for any other, each from that notice's own rows. */
  ghost predicate Summarizes(result: map<string, AssumedTotal>, metas: seq<NoticeMeta>, rows: seq<StoredRow>) {
    forall id ::
      && (id in result <==> MetaOf(metas, id).Some?)
      && (id in result ==> IsSummaryOf(result[id], id, MetaOf(metas, id).value, rows))
  }

  method LoadAssumedDeposits(metas: seq<NoticeMeta>, stored: seq<StoredRow>) returns (result: map<string, AssumedTotal>)
    requires forall s :: s in stored ==> IsParsedRow(s.row)
    ensures Summarizes(result, metas, stored)
  {
    hide IsParsedRow, IsSumFor, RowsOf, MetaOf;
    var metaById := CollectMetas(metas);
    result := map[];
    if metaById == map[] {
      return;
    }
    var rows := SelectRows(stored, metaById.Keys);
    var byNotice := GroupByNotice(rows);
    var left := metaById.Keys;
    while left != {}
      decreases |left|
      invariant left <= metaById.Keys && result.Keys == metaById.Keys - left
      invariant forall id :: id in result ==> IsSummaryOf(result[id], id, metaById[id], stored)
    {
      var noticeId :| noticeId in left;
      var meta := metaById[noticeId];
      SelectedRowsOf(stored, metaById.Keys, noticeId);
      RowsOfParsed(stored, noticeId);
      var merged, total := AssumedDeposits(if noticeId in byNotice then byNotice[noticeId] else [],
                                           meta.baselineDate, meta.deadline);
      assert IsSummaryOf(total, noticeId, meta, stored);
      result := result[noticeId := total];
      left := left - {noticeId};
    }
  }
}
