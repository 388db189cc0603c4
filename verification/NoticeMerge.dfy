/** Rows of one person from several sources merged field by field, the more trusted source winning. */
module NoticeMerge {
  import opened Collections
  import opened RightsTypes

  /** Rights report, certified registry, site survey; any other wording ranks last. */
  datatype SourceKind = RightsReport | Registry | SiteSurvey | OtherSource(wording: string)

  datatype Row = Row(
    tenantSeq: int,
    sourceKind: Option<SourceKind>,
    occupiedPart: Option<string>,
    moveInDate: Option<Date>,
    fixedDate: Option<Date>,
    depositAmount: Option<nat>,
    demandedDistribution: Option<bool>,
    demandedDistributionDate: Option<Date>)

  datatype MergedTenant = MergedTenant(
    tenantSeq: int,
    sourceKinds: seq<SourceKind>,
    occupiedPart: Option<string>,
    moveInDate: Option<Date>,
    fixedDate: Option<Date>,
    depositAmount: Option<nat>,
    demandedDistribution: Option<bool>,
    demandedDistributionDate: Option<Date>)

  function PriorityOf(source: Option<SourceKind>): nat {
    match source
    case Some(RightsReport) => 3
    case Some(Registry) => 2
    case Some(SiteSurvey) => 1
    case Some(OtherSource(_)) => 0
    case None => 0
  }

  /** What the tenant reported is trusted most, then what is registered, then what was found on the spot. */
  ghost predicate Outranks(source: Option<SourceKind>, other: Option<SourceKind>) {
    || (source == Some(RightsReport) && other != Some(RightsReport))
    || (source == Some(Registry) && other != Some(RightsReport) && other != Some(Registry))
    || (source == Some(SiteSurvey) && (other.None? || other.value.OtherSource?))
  }

  lemma PriorityIsTrust(source: Option<SourceKind>, other: Option<SourceKind>)
    ensures PriorityOf(other) < PriorityOf(source) <==> Outranks(source, other)
  {
  }

  function OccupiedPartOf(r: Row): Option<string> { r.occupiedPart }

  function MoveInDateOf(r: Row): Option<Date> { r.moveInDate }

  function FixedDateOf(r: Row): Option<Date> { r.fixedDate }

  function DepositAmountOf(r: Row): Option<nat> { r.depositAmount }

  function DemandedOf(r: Row): Option<bool> { r.demandedDistribution }

  function DemandedDateOf(r: Row): Option<Date> { r.demandedDistributionDate }

  /** A field's current value and the priority of the source it came from. */
  datatype Slot<T> = Slot(value: Option<T>, priority: nat)

  function Fill<T>(slot: Slot<T>, value: Option<T>, rowPriority: nat): Slot<T> {
    if value.Some? && (slot.value.None? || rowPriority > slot.priority) then Slot(value, rowPriority) else slot
  }

  /** What the rows of person `person`, in order, leave in one field. */
  function SlotOf<T>(rows: seq<Row>, person: int, field: Row -> Option<T>): Slot<T> {
    if rows == [] then Slot(None, 0)
    else
      var before, row := SlotOf(rows[..|rows| - 1], person, field), rows[|rows| - 1];
      if row.tenantSeq == person then Fill(before, field(row), PriorityOf(row.sourceKind)) else before
  }

  function AddSource(kinds: seq<SourceKind>, source: Option<SourceKind>): seq<SourceKind> {
    if source.None? || source.value in kinds then kinds else kinds + [source.value]
  }

  function SourcesOf(rows: seq<Row>, person: int): seq<SourceKind> {
    if rows == [] then []
    else
      var before, row := SourcesOf(rows[..|rows| - 1], person), rows[|rows| - 1];
      if row.tenantSeq == person then AddSource(before, row.sourceKind) else before
  }

  function MergedOf(rows: seq<Row>, person: int): MergedTenant {
    MergedTenant(
      person,
      SourcesOf(rows, person),
      SlotOf(rows, person, OccupiedPartOf).value,
      SlotOf(rows, person, MoveInDateOf).value,
      SlotOf(rows, person, FixedDateOf).value,
      SlotOf(rows, person, DepositAmountOf).value,
      SlotOf(rows, person, DemandedOf).value,
      SlotOf(rows, person, DemandedDateOf).value)
  }

  // ---- what the merge is for

  /** Row `i` gives the field a value, and no other row of the person is more trusted, nor one before
      it as trusted. */
  ghost predicate IsFirstOfMostTrusted<T>(rows: seq<Row>, person: int, field: Row -> Option<T>, i: nat) {
    && i < |rows| && rows[i].tenantSeq == person && field(rows[i]).Some?
    && forall j :: 0 <= j < |rows| && j != i && rows[j].tenantSeq == person && field(rows[j]).Some? ==>
         if j < i then Outranks(rows[i].sourceKind, rows[j].sourceKind)
         else !Outranks(rows[j].sourceKind, rows[i].sourceKind)
  }

  ghost predicate HasValue<T>(rows: seq<Row>, person: int, field: Row -> Option<T>) {
    exists j :: 0 <= j < |rows| && rows[j].tenantSeq == person && field(rows[j]).Some?
  }

  /** The merged value is the first value among the rows of the most trusted source that has one. */
  lemma {:induction false} SlotIsMostTrusted<T>(rows: seq<Row>, person: int, field: Row -> Option<T>) returns (i: int)
    ensures SlotOf(rows, person, field).value.Some? <==> HasValue(rows, person, field)
    ensures HasValue(rows, person, field) ==>
              && 0 <= i && IsFirstOfMostTrusted(rows, person, field, i)
              && SlotOf(rows, person, field) == Slot(field(rows[i]), PriorityOf(rows[i].sourceKind))
  {
    i := 0;
    if rows != [] {
      var n := |rows| - 1;
      var before, row := rows[..n], rows[n];
      var k := SlotIsMostTrusted(before, person, field);
      assert forall j :: 0 <= j < n ==> before[j] == rows[j];
      forall a, b { PriorityIsTrust(a, b); }
      hide Outranks, PriorityOf;
      var slot := SlotOf(before, person, field);
      if row.tenantSeq == person && field(row).Some?
         && (slot.value.None? || PriorityOf(row.sourceKind) > slot.priority) {
        i := n;
        assert HasValue(rows, person, field);
      } else {
        i := k;
        if HasValue(rows, person, field) {
          assert HasValue(before, person, field);
        }
        if HasValue(before, person, field) {
          var j :| 0 <= j < n && before[j].tenantSeq == person && field(before[j]).Some?;
          assert rows[j].tenantSeq == person;
        }
      }
    }
  }

  /** Rows of `person` with a value, none more trusted than row `i`. */
  ghost predicate IsMostTrusted<T>(rows: seq<Row>, person: int, field: Row -> Option<T>, r: Row) {
    && r in rows && r.tenantSeq == person && field(r).Some?
    && forall s :: s in rows && s.tenantSeq == person && field(s).Some? ==>
         !Outranks(s.sourceKind, r.sourceKind)
  }

  ghost predicate TopValuesAgree<T>(rows: seq<Row>, person: int, field: Row -> Option<T>) {
    forall r, s :: IsMostTrusted(rows, person, field, r) && IsMostTrusted(rows, person, field, s) ==>
        field(r) == field(s)
  }

  lemma ValuesCarryOver<T>(rows: seq<Row>, rows': seq<Row>, person: int, field: Row -> Option<T>)
    requires forall r :: r in rows ==> r in rows'
    requires HasValue(rows, person, field)
    ensures HasValue(rows', person, field)
  {
    var j :| 0 <= j < |rows| && rows[j].tenantSeq == person && field(rows[j]).Some?;
    assert rows[j] in rows';
    var j' :| 0 <= j' < |rows'| && rows'[j'] == rows[j];
  }

  /** The order of the rows does not matter to a field whose most trusted values agree. */
  lemma OrderDoesNotMatter<T>(rows: seq<Row>, rows': seq<Row>, person: int, field: Row -> Option<T>)
    requires multiset(rows) == multiset(rows')
    requires TopValuesAgree(rows, person, field)
    ensures SlotOf(rows, person, field).value == SlotOf(rows', person, field).value
  {
    assert forall r :: r in rows <==> r in multiset(rows);
    assert forall r :: r in rows' <==> r in multiset(rows');
    var i := SlotIsMostTrusted(rows, person, field);
    var i' := SlotIsMostTrusted(rows', person, field);
    if HasValue(rows, person, field) {
      ValuesCarryOver(rows, rows', person, field);
      TopRow(rows, person, field, i);
      TopRow(rows', person, field, i');
      assert IsMostTrusted(rows, person, field, rows'[i']);
    } else if HasValue(rows', person, field) {
      ValuesCarryOver(rows', rows, person, field);
    }
  }

  lemma TopRow<T>(rows: seq<Row>, person: int, field: Row -> Option<T>, i: nat)
    requires IsFirstOfMostTrusted(rows, person, field, i)
    ensures IsMostTrusted(rows, person, field, rows[i])
  {
    forall s | s in rows && s.tenantSeq == person && field(s).Some?
      ensures !Outranks(s.sourceKind, rows[i].sourceKind)
    {
      var j :| 0 <= j < |rows| && rows[j] == s;
    }
  }

  /** The sources listed for a person are the sources of the person's rows, each once. */
  lemma {:induction false} SourcesAreListedOnce(rows: seq<Row>, person: int)
    ensures Distinct(SourcesOf(rows, person))
    ensures forall k :: k in SourcesOf(rows, person) <==>
              exists i :: 0 <= i < |rows| && rows[i].tenantSeq == person && rows[i].sourceKind == Some(k)
  {
    if rows != [] {
      var n := |rows| - 1;
      var before := rows[..n];
      SourcesAreListedOnce(before, person);
      assert forall i :: 0 <= i < n ==> before[i] == rows[i];
      forall k
        ensures k in SourcesOf(rows, person) <==>
                exists i :: 0 <= i < |rows| && rows[i].tenantSeq == person && rows[i].sourceKind == Some(k)
      {
        if k in SourcesOf(before, person) {
          var i :| 0 <= i < n && before[i].tenantSeq == person && before[i].sourceKind == Some(k);
          assert rows[i].sourceKind == Some(k);
        }
      }
    }
  }

  /** The sources are listed in the order in which they first turn up. */
  lemma {:induction false} SourcesInOrder(rows: seq<Row>, person: int, a: nat, b: nat) returns (i: nat)
    requires a < b < |SourcesOf(rows, person)|
    ensures i < |rows| && rows[i].tenantSeq == person && rows[i].sourceKind == Some(SourcesOf(rows, person)[a])
    ensures forall j :: 0 <= j <= i && rows[j].tenantSeq == person ==>
              rows[j].sourceKind != Some(SourcesOf(rows, person)[b])
  {
    var n := |rows| - 1;
    var before := rows[..n];
    if b < |SourcesOf(before, person)| {
      i := SourcesInOrder(before, person, a, b);
    } else {
      SourcesAreListedOnce(before, person);
      var k := SourcesOf(before, person)[a];
      i :| 0 <= i < |before| && before[i].tenantSeq == person && before[i].sourceKind == Some(k);
    }
    assert forall j :: 0 <= j < n ==> before[j] == rows[j];
  }

  /** A person with one row comes out with the values of that row, each in its own field. */
  lemma LoneRowIsKept(r: Row)
    ensures var m := MergedOf([r], r.tenantSeq);
            && m.tenantSeq == r.tenantSeq
            && m.sourceKinds == (if r.sourceKind.Some? then [r.sourceKind.value] else [])
            && m.occupiedPart == r.occupiedPart && m.moveInDate == r.moveInDate && m.fixedDate == r.fixedDate
            && m.depositAmount == r.depositAmount && m.demandedDistribution == r.demandedDistribution
            && m.demandedDistributionDate == r.demandedDistributionDate
  {
    assert [r][..0] == [];
    LoneSlot(r, OccupiedPartOf);
    LoneSlot(r, MoveInDateOf);
    LoneSlot(r, FixedDateOf);
    LoneSlot(r, DepositAmountOf);
    LoneSlot(r, DemandedOf);
    LoneSlot(r, DemandedDateOf);
    assert SourcesOf([r][..0], r.tenantSeq) == [];
  }

  lemma LoneSlot<T>(r: Row, field: Row -> Option<T>)
    ensures SlotOf([r], r.tenantSeq, field).value == field(r)
  {
    assert [r][..0] == [];
    assert SlotOf([r][..0], r.tenantSeq, field) == Slot(None, 0);
  }

  // ---- the merge itself: a map from person to what is known so far, updated row by row

  datatype Progress = Progress(
    sourceKinds: seq<SourceKind>,
    occupiedPart: Slot<string>,
    moveInDate: Slot<Date>,
    fixedDate: Slot<Date>,
    depositAmount: Slot<nat>,
    demanded: Slot<bool>,
    demandedDate: Slot<Date>)

  function ProgressOf(rows: seq<Row>, person: int): Progress {
    Progress(
      SourcesOf(rows, person),
      SlotOf(rows, person, OccupiedPartOf),
      SlotOf(rows, person, MoveInDateOf),
      SlotOf(rows, person, FixedDateOf),
      SlotOf(rows, person, DepositAmountOf),
      SlotOf(rows, person, DemandedOf),
      SlotOf(rows, person, DemandedDateOf))
  }

  function FirstOf<T>(value: Option<T>, rowPriority: nat): Slot<T> {
    Slot(value, if value.Some? then rowPriority else 0)
  }

  /** The first row of a person: its values as they are. */
  function Started(row: Row): Progress {
    var q := PriorityOf(row.sourceKind);
    Progress(
      if row.sourceKind.None? then [] else [row.sourceKind.value],
      FirstOf(row.occupiedPart, q),
      FirstOf(row.moveInDate, q),
      FirstOf(row.fixedDate, q),
      FirstOf(row.depositAmount, q),
      FirstOf(row.demandedDistribution, q),
      FirstOf(row.demandedDistributionDate, q))
  }

  /** A further row of a person: empty fields are filled, others only from a more trusted source. */
  function Updated(p: Progress, row: Row): Progress {
    var q := PriorityOf(row.sourceKind);
    Progress(
      AddSource(p.sourceKinds, row.sourceKind),
      Fill(p.occupiedPart, row.occupiedPart, q),
      Fill(p.moveInDate, row.moveInDate, q),
      Fill(p.fixedDate, row.fixedDate, q),
      Fill(p.depositAmount, row.depositAmount, q),
      Fill(p.demanded, row.demandedDistribution, q),
      Fill(p.demandedDate, row.demandedDistributionDate, q))
  }

  /** Appending a row changes the progress of its own person only. */
  lemma ProgressStep(rows: seq<Row>, row: Row, person: int)
    ensures ProgressOf(rows + [row], person)
            == if person == row.tenantSeq then Updated(ProgressOf(rows, person), row) else ProgressOf(rows, person)
  {
    assert (rows + [row])[..|rows|] == rows;
  }

  lemma {:induction false} NoProgress(rows: seq<Row>, person: int)
    requires forall i :: 0 <= i < |rows| ==> rows[i].tenantSeq != person
    ensures ProgressOf(rows, person) == ProgressOf([], person)
  {
    if rows != [] {
      NoProgress(rows[..|rows| - 1], person);
      ProgressStep(rows[..|rows| - 1], rows[|rows| - 1], person);
      assert rows == rows[..|rows| - 1] + [rows[|rows| - 1]];
    }
  }

  function Self(person: int): int { person }

  ghost predicate Mentions(rows: seq<Row>, person: int) {
    exists r :: r in rows && r.tenantSeq == person
  }

  /** What is known so far about each person, and the persons in order of first appearance. */
  ghost predicate Tracks(rows: seq<Row>, bySeq: map<int, Progress>, persons: seq<int>) {
    && Distinct(persons)
    && (forall p :: p in persons <==> p in bySeq)
    && (forall p :: p in persons ==> Mentions(rows, p))
    && (forall r :: r in rows ==> r.tenantSeq in persons)
    && (forall p :: p in bySeq ==> bySeq[p] == ProgressOf(rows, p))
  }

  lemma TracksStep(rows: seq<Row>, row: Row, bySeq: map<int, Progress>, persons: seq<int>)
    requires Tracks(rows, bySeq, persons)
    ensures Tracks(rows + [row], bySeq[row.tenantSeq := ProgressOf(rows + [row], row.tenantSeq)],
                   if row.tenantSeq in bySeq then persons else persons + [row.tenantSeq])
  {
    forall p { ProgressStep(rows, row, p); }
    hide ProgressOf;
    var persons' := if row.tenantSeq in bySeq then persons else persons + [row.tenantSeq];
    assert row in rows + [row];
    forall p | p in persons'
      ensures Mentions(rows + [row], p)
    {
      if p in persons {
        var r :| r in rows && r.tenantSeq == p;
        assert r in rows + [row];
      }
    }
  }

  method CollectRows(rows: seq<Row>) returns (bySeq: map<int, Progress>, persons: seq<int>)
    ensures Tracks(rows, bySeq, persons)
  {
    bySeq, persons := map[], [];
    for k := 0 to |rows|
      invariant Tracks(rows[..k], bySeq, persons)
    {
      hide ProgressOf, Updated;
      var row := rows[k];
      assert rows[..k + 1] == rows[..k] + [row];
      TracksStep(rows[..k], row, bySeq, persons);
      ProgressStep(rows[..k], row, row.tenantSeq);
      if row.tenantSeq !in bySeq {
        FirstRow(rows[..k], row);
        bySeq := bySeq[row.tenantSeq := Started(row)];
        persons := persons + [row.tenantSeq];
      } else {
        bySeq := bySeq[row.tenantSeq := Updated(bySeq[row.tenantSeq], row)];
      }
    }
    assert rows[..|rows|] == rows;
  }

  lemma FirstRow(rows: seq<Row>, row: Row)
    requires forall r :: r in rows ==> r.tenantSeq != row.tenantSeq
    ensures ProgressOf(rows + [row], row.tenantSeq) == Started(row)
  {
    NoProgress(rows, row.tenantSeq);
    ProgressStep(rows, row, row.tenantSeq);
  }

  method MergeNoticeTenants(rows: seq<Row>) returns (merged: seq<MergedTenant>)
    ensures forall i, j :: 0 <= i < j < |merged| ==> merged[i].tenantSeq < merged[j].tenantSeq
    ensures forall i :: 0 <= i < |merged| ==> merged[i] == MergedOf(rows, merged[i].tenantSeq)
    ensures forall p :: Mentions(rows, p) <==> exists i :: 0 <= i < |merged| && merged[i].tenantSeq == p
  {
    hide SlotOf, SourcesOf;
    var bySeq, persons := CollectRows(rows);
    var ordered := StableSort(persons, Self);
    PersonsInOrder(persons);
    merged := [];
    for k := 0 to |ordered|
      invariant |merged| == k
      invariant forall i :: 0 <= i < k ==> merged[i] == MergedOf(rows, ordered[i])
    {
      assert ordered[k] in ordered;
      var entry := bySeq[ordered[k]];
      merged := merged + [MergedTenant(
        ordered[k], entry.sourceKinds, entry.occupiedPart.value, entry.moveInDate.value, entry.fixedDate.value,
        entry.depositAmount.value, entry.demanded.value, entry.demandedDate.value)];
    }
    forall p
      ensures Mentions(rows, p) <==> exists i :: 0 <= i < |merged| && merged[i].tenantSeq == p
    {
      assert Mentions(rows, p) <==> p in persons;
      assert p in persons <==> p in ordered;
      if p in ordered {
        var i :| 0 <= i < |ordered| && ordered[i] == p;
        assert merged[i].tenantSeq == p;
      }
      if i :| 0 <= i < |merged| && merged[i].tenantSeq == p {
        assert ordered[i] == p;
      }
    }
  }

  ghost predicate Ascending(s: seq<int>) {
    forall i, j :: 0 <= i < j < |s| ==> s[i] < s[j]
  }

  lemma {:induction false} InsertAscends(x: int, s: seq<int>)
    requires Ascending(s) && x !in s
    ensures Ascending(Insert(x, s, Self))
  {
    if s != [] && Self(x) > Self(s[0]) {
      InsertAscends(x, s[1..]);
      var rest := Insert(x, s[1..], Self);
      forall i | 0 <= i < |rest|
        ensures s[0] < rest[i]
      {
        InsertMember(x, s[1..], Self, rest[i]);
      }
    }
  }

  lemma {:induction false} PersonsInOrder(persons: seq<int>)
    requires Distinct(persons)
    ensures Ascending(StableSort(persons, Self))
    ensures forall p :: p in StableSort(persons, Self) <==> p in persons
  {
    if persons != [] {
      var rest := StableSort(persons[1..], Self);
      PersonsInOrder(persons[1..]);
      InsertAscends(persons[0], rest);
      forall p
        ensures p in Insert(persons[0], rest, Self) <==> p in persons
      {
        InsertMember(persons[0], rest, Self, p);
        assert p in persons <==> p == persons[0] || p in persons[1..];
      }
    }
  }
}
