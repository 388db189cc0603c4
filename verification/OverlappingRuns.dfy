/** Runs of several dispatcher processes that overlap: the delivery protocol with the cursor on top. A run reads the
    cursor, settles what its batch asks for, and writes the cursor at its end; a claim that is refused counts as
    settled. */
module OverlappingRuns {
  import opened Collections
  import opened DeliveryProtocol
  import opened Dispatcher

  /** A run between reading the cursor and writing it. `due` is what its changes ask for. */
  datatype Pass = Pass(since: int, target: int, batch: seq<ChangeRow>, due: set<Delivery>, settled: set<Delivery>,
                       blocked: bool)

  /** `passed` is what finished runs have moved the cursor for. */
  datatype System = System(table: State, cursor: Option<int>, passes: map<nat, Pass>, passed: set<Delivery>)

  datatype Action =
    | Open(process: nat, watermark: int, schedule: seq<ChangeRow>, favorites: set<Favorite>, due: set<Delivery>)
    | Deliver(step: Step)
    | Close(process: nat)

  /** Every delivery is for a change of the batch. */
  ghost predicate IsFor(due: set<Delivery>, batch: seq<ChangeRow>) {
    forall d :: d in due ==> exists r :: r in batch && d.key == ScheduleKey(r.scheduleId)
  }

  ghost predicate Allowed(s: System, a: Action) {
    match a
    case Open(p, watermark, schedule, favorites, due) =>
      && p !in s.passes && p !in s.table.jobs && InOrder(schedule)
      && IsFor(due, BatchAfter(s.cursor, watermark, schedule, favorites))
    case Deliver(step) =>
      && IsListing(step)
      && (step.Claim? ==>
            && step.process !in s.table.jobs
            && (step.process in s.passes ==> Delivery(step.user, step.key) in s.passes[step.process].due))
    case Close(p) =>
      && p in s.passes && p !in s.table.jobs
      && (s.passes[p].blocked || s.passes[p].due <= s.passes[p].settled)
  }

  /** What one step of its process does to a run: a refused claim and a send that reached a device settle a delivery,
      anything that has to be tried again blocks the cursor. */
  function Track(pass: Pass, t: State, step: Step): Pass {
    match step
    case Claim(p, user, key, _) =>
      if Delivery(user, key) in t.records then pass.(settled := pass.settled + {Delivery(user, key)}) else pass
    case Answer(p, reply) =>
      if p in t.jobs && t.jobs[p].pending != [] && (reply.Failed? || reply.Thrown?) then pass.(blocked := true)
      else pass
    case Finish(p) =>
      if p !in t.jobs || t.jobs[p].pending != [] then pass
      else if t.jobs[p].anySent then pass.(settled := pass.settled + {t.jobs[p].Target()})
      else pass.(blocked := true)
  }

  /** One action; an action that cannot happen changes nothing. */
  ghost function Act(s: System, a: Action): System {
    if !Allowed(s, a) then s
    else
      match a
      case Open(p, watermark, schedule, favorites, due) =>
        if s.cursor.None? then s.(cursor := Some(watermark))
        else if watermark <= s.cursor.value then s
        else
          var batch := BatchAfter(s.cursor, watermark, schedule, favorites);
          s.(passes := s.passes[p := Pass(s.cursor.value, CursorAfter(watermark, batch), batch, due, {}, false)])
      case Deliver(step) =>
        s.(table := Next(s.table, step),
           passes := if step.process in s.passes
                     then s.passes[step.process := Track(s.passes[step.process], s.table, step)] else s.passes)
      case Close(p) =>
        if s.passes[p].blocked then s.(passes := s.passes - {p})
        else System(s.table, Some(s.passes[p].target), s.passes - {p}, s.passed + s.passes[p].due)
  }

  ghost function Runs(s: System, actions: seq<Action>): System
    decreases |actions|
  {
    if actions == [] then s else Runs(Act(s, actions[0]), actions[1..])
  }

  lemma {:induction false} RunsAppend(s: System, first: seq<Action>, second: seq<Action>)
    ensures Runs(s, first + second) == Runs(Runs(s, first), second)
    decreases |first|
  {
    if first == [] {
      assert first + second == second;
    } else {
      assert (first + second)[1..] == first[1..] + second;
      RunsAppend(Act(s, first[0]), first[1..], second);
    }
  }

  // ---- what every run keeps

  ghost predicate PassInv(s: System, p: nat)
    requires p in s.passes
  {
    var pass := s.passes[p];
    && pass.since < pass.target && pass.settled <= pass.due && IsFor(pass.due, pass.batch)
    && (forall r :: r in pass.batch ==> pass.since < r.observedAt)
    && (p in s.table.jobs ==> s.table.jobs[p].Target() in pass.due)
  }

  ghost predicate SystemInv(s: System) {
    Inv(s.table) && forall p :: p in s.passes ==> PassInv(s, p)
  }

  lemma OpenKeepsInv(s: System, a: Action)
    requires SystemInv(s) && a.Open?
    ensures SystemInv(Act(s, a))
  {
    hide Inv, WatchedIn, CheckpointOf, InOrder;
    var s' := Act(s, a);
    if Allowed(s, a) && s.cursor.Some? && s.cursor.value < a.watermark {
      NothingPassedExactlyWhen(a.schedule, a.favorites, s.cursor.value, a.watermark);
      BatchAfterCursor(s.cursor.value, a.watermark, a.schedule, a.favorites);
      assert PassInv(s', a.process);
    }
    forall p | p in s'.passes
      ensures PassInv(s', p)
    {
      if p in s.passes { assert PassInv(s, p); }
    }
  }

  lemma BatchAfterCursor(since: int, watermark: int, schedule: seq<ChangeRow>, favorites: set<Favorite>)
    ensures forall r :: r in BatchAfter(Some(since), watermark, schedule, favorites) ==> since < r.observedAt
  {
    var watched := WatchedIn(schedule, favorites, since, watermark);
    forall r | r in BatchAfter(Some(since), watermark, schedule, favorites)
      ensures since < r.observedAt
    {
      assert r in watched;
      WatchedMember(schedule, favorites, since, watermark, r);
    }
  }

  lemma StepKeepsInv(t: State, step: Step)
    requires Inv(t) && IsListing(step)
    ensures Inv(Next(t, step))
  {
    hide Inv, Next;
    match step
    case Claim(p, user, key, devices) => ClaimKeepsInv(t, p, user, key, devices);
    case Answer(p, reply) => AnswerKeepsInv(t, p, reply);
    case Finish(p) => FinishKeepsInv(t, p);
  }

  lemma DeliverKeepsInv(s: System, step: Step)
    requires SystemInv(s)
    ensures SystemInv(Act(s, Deliver(step)))
  {
    hide Inv, IsFor;
    var s' := Act(s, Deliver(step));
    if Allowed(s, Deliver(step)) {
      StepKeepsInv(s.table, step);
      forall p | p in s'.passes
        ensures PassInv(s', p)
      {
        assert PassInv(s, p);
      }
    }
  }

  lemma CloseKeepsInv(s: System, p: nat)
    requires SystemInv(s)
    ensures SystemInv(Act(s, Close(p)))
  {
    hide Inv;
    var s' := Act(s, Close(p));
    forall q | q in s'.passes
      ensures PassInv(s', q)
    {
      assert PassInv(s, q);
    }
  }

  lemma ActKeepsInv(s: System, a: Action)
    requires SystemInv(s)
    ensures SystemInv(Act(s, a))
  {
    hide SystemInv, Act;
    match a
    case Open(_, _, _, _, _) => OpenKeepsInv(s, a);
    case Deliver(step) => DeliverKeepsInv(s, step);
    case Close(p) => CloseKeepsInv(s, p);
  }

  /** However runs overlap, the table stays consistent and every run settles only what it was asked for. */
  lemma {:induction false} RunsKeepInv(s: System, actions: seq<Action>)
    requires SystemInv(s)
    ensures SystemInv(Runs(s, actions))
    decreases |actions|
  {
    hide SystemInv, Act;
    if actions != [] {
      ActKeepsInv(s, actions[0]);
      RunsKeepInv(Act(s, actions[0]), actions[1..]);
    }
  }

  /** Whatever runs overlap, the table is that of some run of the delivery protocol, so all its laws hold of it. */
  lemma {:induction false} TableFollowsProtocol(s: System, actions: seq<Action>) returns (steps: seq<Step>)
    ensures AreListings(steps) && Runs(s, actions).table == Run(s.table, steps)
    decreases |actions|
  {
    hide Next;
    if actions == [] {
      steps := [];
    } else {
      var a := actions[0];
      var rest := TableFollowsProtocol(Act(s, a), actions[1..]);
      if a.Deliver? && Allowed(s, a) {
        steps := [a.step] + rest;
        RunPush(s.table, [], a.step);
        assert [] + [a.step] == [a.step];
        RunAppend(s.table, [a.step], rest);
      } else {
        steps := rest;
      }
    }
  }

  // ---- what was reported keeps its record

  lemma ActKeepsReported(s: System, a: Action, d: Delivery)
    requires Reported(s.table.log, d)
    ensures Reported(Act(s, a).table.log, d)
  {
    if a.Deliver? && Allowed(s, a) {
      var i :| 0 <= i < |s.table.log| && s.table.log[i].user == d.user && s.table.log[i].key == d.key;
      assert Act(s, a).table.log[i] == s.table.log[i];
    }
  }

  lemma {:induction false} ReportedKeepsRecord(s: System, actions: seq<Action>, d: Delivery)
    requires SystemInv(s) && Reported(s.table.log, d)
    ensures Reported(Runs(s, actions).table.log, d) && d in Runs(s, actions).table.records
    decreases |actions|
  {
    hide Act, SystemInv;
    if actions == [] {
      ReportedIsRecorded(s, d);
    } else {
      ActKeepsInv(s, actions[0]);
      ActKeepsReported(s, actions[0], d);
      ReportedKeepsRecord(Act(s, actions[0]), actions[1..], d);
    }
  }

  lemma ReportedIsRecorded(s: System, d: Delivery)
    requires SystemInv(s) && Reported(s.table.log, d)
    ensures d in s.table.records
  {
    var i :| 0 <= i < |s.table.log| && s.table.log[i].user == d.user && s.table.log[i].key == d.key;
    assert Delivery(s.table.log[i].user, s.table.log[i].key) == d;
  }

  // ---- what was not is lost

  /** Another process holds the record and has reached nobody. */
  ghost predicate Doubtful(s: System, q: nat, d: Delivery) {
    q in s.table.jobs && s.table.jobs[q].Target() == d && !s.table.jobs[q].anySent
  }

  lemma UnreportedIsDoubtful(s: System, d: Delivery) returns (q: nat)
    requires SystemInv(s) && d in s.table.records && !Reported(s.table.log, d)
    ensures Doubtful(s, q, d)
  {
    assert Held(s.table, d);
    q :| q in s.table.jobs && s.table.jobs[q].Target() == d;
    assert JobInv(s.table, s.table.jobs[q]);
  }

  /** A run that still has its cursor to write, between two deliveries. */
  ghost predicate Unblocked(s: System, p: nat) {
    p in s.passes && !s.passes[p].blocked && p !in s.table.jobs
  }

  /** One more delivery settled by `p`, without touching another process' send. */
  lemma SettleOne(s: System, p: nat, d: Delivery, q: nat, e: Delivery) returns (more: seq<Action>)
    requires SystemInv(s) && Unblocked(s, p) && Doubtful(s, q, d) && p != q && e in s.passes[p].due
    ensures var s' := Runs(s, more);
            && SystemInv(s') && Unblocked(s', p) && Doubtful(s', q, d) && s'.cursor == s.cursor && s'.passed == s.passed
            && s'.passes[p] == s.passes[p].(settled := s.passes[p].settled + {e})
  {
    hide Inv, Distinct;
    var claim := Deliver(Claim(p, e.user, e.key, [""]));
    assert IsListing(claim.step) by { assert Distinct([""]) by { OneIsDistinct(""); } }
    assert Delivery(e.user, e.key) == e;
    var s1 := Act(s, claim);
    if e in s.table.records {
      more := [claim];
      RunsOne(s, claim);
    } else {
      var sent, finish := Deliver(Answer(p, Sent)), Deliver(Finish(p));
      more := [claim, sent, finish];
      assert s1.table.jobs[p] == Job(e.user, e.key, [""], false);
      var s2 := Act(s1, sent);
      assert s2.table.jobs[p].pending == [] && s2.table.jobs[p].anySent;
      RunsThree(s, claim, sent, finish);
    }
    RunsKeepInv(s, more);
  }

  lemma OneIsDistinct<T>(x: T)
    ensures Distinct([x])
  {
  }

  lemma RunsOne(s: System, a: Action)
    ensures Runs(s, [a]) == Act(s, a)
  {
    hide Act;
    assert [a][1..] == [];
  }

  lemma RunsThree(s: System, a: Action, b: Action, c: Action)
    ensures Runs(s, [a, b, c]) == Act(Act(Act(s, a), b), c)
  {
    hide Act;
    assert [a, b, c][1..] == [b, c] && [b, c][1..] == [c] && [c][1..] == [];
    assert Runs(s, [a, b, c]) == Runs(Act(s, a), [b, c]);
    RunsOne(Act(Act(s, a), b), c);
  }

  lemma {:induction false} SettleRest(s: System, p: nat, d: Delivery, q: nat) returns (more: seq<Action>)
    requires SystemInv(s) && Unblocked(s, p) && Doubtful(s, q, d) && p != q
    ensures var s' := Runs(s, more);
            && SystemInv(s') && Unblocked(s', p) && Doubtful(s', q, d) && s'.cursor == s.cursor && s'.passed == s.passed
            && s'.passes[p].due == s.passes[p].due <= s'.passes[p].settled
            && s'.passes[p].target == s.passes[p].target
    decreases s.passes[p].due - s.passes[p].settled
  {
    hide SystemInv, Act, Doubtful;
    if s.passes[p].due <= s.passes[p].settled {
      more := [];
    } else {
      var e :| e in s.passes[p].due && e !in s.passes[p].settled;
      var first := SettleOne(s, p, d, q, e);
      var rest := SettleRest(Runs(s, first), p, d, q);
      more := first + rest;
      RunsAppend(s, first, rest);
    }
  }

  /** The holder fails on every device that is left, and releases the record. */
  lemma {:induction false} HolderFails(s: System, q: nat, d: Delivery) returns (more: seq<Action>)
    requires SystemInv(s) && Doubtful(s, q, d)
    ensures var s' := Runs(s, more);
            && d !in s'.table.records && s'.table.log == s.table.log
            && s'.cursor == s.cursor && s'.passed == s.passed
    decreases |s.table.jobs[q].pending|
  {
    hide Inv, Distinct;
    if s.table.jobs[q].pending == [] {
      more := [Deliver(Finish(q))];
      RunsOne(s, Deliver(Finish(q)));
    } else {
      var answer := Deliver(Answer(q, Failed));
      ActKeepsInv(s, answer);
      assert Doubtful(Act(s, answer), q, d);
      var rest := HolderFails(Act(s, answer), q, d);
      more := [answer] + rest;
      assert more[0] == answer && more[1..] == rest;
    }
  }

  /** When a claim is refused, and its record is another process' that has reached nobody, then the run goes on to
      move the cursor past the change, the other send fails, and no record is left. */
  lemma RefusedClaimLoses(s: System, p: nat, q: nat, d: Delivery) returns (more: seq<Action>)
    requires SystemInv(s) && Unblocked(s, p) && Doubtful(s, q, d) && d in s.passes[p].due
    ensures var s' := Runs(s, more);
            && d in s'.passed && d !in s'.table.records && s'.cursor == Some(s.passes[p].target)
  {
    hide SystemInv, Doubtful, Runs;
    assert p != q by { NotItself(s, p, q, d); }
    var rest := SettleRest(s, p, d, q);
    var s1 := Runs(s, rest);
    var s2 := Act(s1, Close(p));
    CloseKeepsInv(s1, p);
    assert Doubtful(s2, q, d) by { CloseKeepsDoubtful(s1, p, q, d); }
    var fails := HolderFails(s2, q, d);
    more := rest + ([Close(p)] + fails);
    RunsAppend(s, rest, [Close(p)] + fails);
    RunsAppend(s1, [Close(p)], fails);
    RunsOne(s1, Close(p));
  }

  lemma NotItself(s: System, p: nat, q: nat, d: Delivery)
    requires Unblocked(s, p) && Doubtful(s, q, d)
    ensures p != q
  {
  }

  lemma CloseKeepsDoubtful(s: System, p: nat, q: nat, d: Delivery)
    requires Doubtful(s, q, d)
    ensures Doubtful(Act(s, Close(p)), q, d)
  {
  }

  /** Taking a refused claim for a delivery is right, in everything that may follow, exactly when the holder of the
      record has already reached a device. */
  lemma RefusedClaimIsRightExactlyWhen(s: System, p: nat, d: Delivery, devices: seq<Device>)
    requires SystemInv(s) && Unblocked(s, p) && d in s.passes[p].due && d in s.table.records && Distinct(devices)
    ensures var refused := Act(s, Deliver(Claim(p, d.user, d.key, devices)));
            (forall more :: d in Runs(refused, more).passed ==> d in Runs(refused, more).table.records)
            <==> Reported(s.table.log, d)
  {
    hide Inv, Distinct, Runs, Reported;
    var claim := Deliver(Claim(p, d.user, d.key, devices));
    var refused := Act(s, claim);
    assert Delivery(d.user, d.key) == d && refused.table == s.table;
    ActKeepsInv(s, claim);
    if Reported(s.table.log, d) {
      forall more
        ensures d in Runs(refused, more).table.records
      {
        ReportedKeepsRecord(refused, more, d);
      }
    } else {
      var q := UnreportedIsDoubtful(refused, d);
      var more := RefusedClaimLoses(refused, p, q, d);
    }
  }

  // ---- runs that do not take another's word

  /** Whoever's claim is refused finds a delivery that has already reached a device. */
  ghost predicate RefusalsAreReported(s: System, actions: seq<Action>)
    decreases |actions|
  {
    actions != [] ==>
      && (actions[0].Deliver? && actions[0].step.Claim? ==>
            var d := Delivery(actions[0].step.user, actions[0].step.key);
            d in s.table.records ==> Reported(s.table.log, d))
      && RefusalsAreReported(Act(s, actions[0]), actions[1..])
  }

  /** Everything settled or passed has reached a device. */
  ghost predicate AllReported(s: System) {
    && (forall d :: d in s.passed ==> Reported(s.table.log, d))
    && forall p, d :: p in s.passes && d in s.passes[p].settled ==> Reported(s.table.log, d)
  }

  lemma ActKeepsAllReported(s: System, a: Action)
    requires SystemInv(s) && AllReported(s) && RefusalsAreReported(s, [a])
    ensures AllReported(Act(s, a))
  {
    hide Inv, RefusalsAreReported, Reported, Distinct;
    var s' := Act(s, a);
    forall d | Reported(s.table.log, d)
      ensures Reported(s'.table.log, d)
    {
      ActKeepsReported(s, a, d);
    }
    if a.Deliver? && Allowed(s, a) && a.step.process in s.passes {
      SettledIsReported(s, a.step);
    }
  }

  lemma SettledIsReported(s: System, step: Step)
    requires SystemInv(s) && Allowed(s, Deliver(step)) && RefusalsAreReported(s, [Deliver(step)])
    requires step.process in s.passes
    ensures var pass := s.passes[step.process];
            forall d :: d in Track(pass, s.table, step).settled ==> d in pass.settled || Reported(s.table.log, d)
  {
    if step.Finish? && step.process in s.table.jobs {
      assert JobInv(s.table, s.table.jobs[step.process]);
    }
  }

  /** As long as refused claims are of deliveries that reached a device, every change the cursor was moved for keeps
      its records, for ever. */
  lemma {:induction false} NothingLostWithoutDoubt(s: System, actions: seq<Action>, more: seq<Action>)
    requires SystemInv(s) && AllReported(s) && RefusalsAreReported(s, actions)
    ensures Runs(s, actions).passed <= Runs(Runs(s, actions), more).table.records
    decreases |actions|
  {
    hide SystemInv, Act, Reported;
    if actions == [] {
      forall d | d in s.passed
        ensures d in Runs(s, more).table.records
      {
        ReportedKeepsRecord(s, more, d);
      }
    } else {
      ActKeepsInv(s, actions[0]);
      assert [actions[0]][1..] == [];
      ActKeepsAllReported(s, actions[0]);
      NothingLostWithoutDoubt(Act(s, actions[0]), actions[1..], more);
    }
  }

  // ---- what is not read again

  /** The cursor is at or after `time`, and so is every value a run that is under way may write. */
  ghost predicate Beyond(s: System, time: int) {
    s.cursor.Some? && time <= s.cursor.value && forall p :: p in s.passes ==> time <= s.passes[p].target
  }

  lemma ActStaysBeyond(s: System, a: Action, time: int)
    requires SystemInv(s) && Beyond(s, time)
    ensures Beyond(Act(s, a), time)
    ensures forall p :: p in Act(s, a).passes && p !in s.passes ==> time <= Act(s, a).passes[p].since
  {
    ActKeepsInv(s, a);
    hide Inv;
    var s' := Act(s, a);
    if a.Open? && a.process in s'.passes && a.process !in s.passes {
      assert PassInv(s', a.process);
    }
  }

  /** The runs opened on the way read no change of that time or before. */
  ghost predicate LaterPassesSkip(s: System, actions: seq<Action>, time: int)
    decreases |actions|
  {
    actions != [] ==>
      var s' := Act(s, actions[0]);
      && (forall p, r :: p in s'.passes && p !in s.passes && r in s'.passes[p].batch ==> time < r.observedAt)
      && LaterPassesSkip(s', actions[1..], time)
  }

  /** Once the cursor and all that may still be written to it are past a change, no later run reads it. */
  lemma {:induction false} PassedIsNotReadAgain(s: System, actions: seq<Action>, time: int)
    requires SystemInv(s) && Beyond(s, time)
    ensures LaterPassesSkip(s, actions, time)
    decreases |actions|
  {
    if actions != [] {
      var s' := Act(s, actions[0]);
      ActKeepsInv(s, actions[0]);
      ActStaysBeyond(s, actions[0], time);
      hide Act, Beyond;
      forall p, r | p in s'.passes && p !in s.passes && r in s'.passes[p].batch
        ensures time < r.observedAt
      {
        assert PassInv(s', p);
      }
      PassedIsNotReadAgain(s', actions[1..], time);
    }
  }

  // ---- both happen

  const START: System := System(EMPTY, Some(0), map[], {})

  /** Two runs that read one cursor: the one that reads less may write last and move the cursor back. */
  lemma CursorMovesBack(early: int, late: int)
    requires 0 < early < late
    ensures var first, second := Open(0, early, [], {}, {}), Open(1, late, [], {}, {});
            && Runs(START, [first, second, Close(1)]).cursor == Some(late)
            && Runs(START, [first, second, Close(1)] + [Close(0)]).cursor == Some(early)
  {
    var first, second := Open(0, early, [], {}, {}), Open(1, late, [], {}, {});
    RunsThree(START, first, second, Close(1));
    RunsAppend(START, [first, second, Close(1)], [Close(0)]);
    RunsOne(Runs(START, [first, second, Close(1)]), Close(0));
  }

  function OneChange(itemId: string): ChangeRow { ChangeRow(1, itemId, 5, "") }

  lemma OneChangeBatch(user: User, itemId: string)
    ensures var favorites := {Favorite(user, itemId)};
            && BatchAfter(Some(0), 9, [OneChange(itemId)], favorites) == [OneChange(itemId)]
            && CursorAfter(9, [OneChange(itemId)]) == 5
  {
    var row, favorites := OneChange(itemId), {Favorite(user, itemId)};
    assert Favorite(user, itemId) in favorites && [row][1..] == [];
    AllWatched([row], favorites, 0, 9);
    DistinctItemsCheckpoint([row]);
  }

  /** Two runs with the same change of one item: the second finds the first one's claim, moves the cursor past the
      change, and then the first send fails. */
  function LosingRun(user: User, itemId: string): seq<Action> {
    var key, rows, favorites := ScheduleKey(1), [OneChange(itemId)], {Favorite(user, itemId)};
    [Open(0, 9, rows, favorites, {Delivery(user, key)}), Open(1, 9, rows, favorites, {Delivery(user, key)}),
     Deliver(Claim(0, user, key, ["phone"])), Deliver(Claim(1, user, key, ["phone"])), Close(1),
     Deliver(Answer(0, Failed)), Deliver(Finish(0)), Close(0)]
  }

  lemma OpensRead(user: User, itemId: string)
    ensures var actions, due := LosingRun(user, itemId), {Delivery(user, ScheduleKey(1))};
            var pass := Pass(0, 5, [OneChange(itemId)], due, {}, false);
            && Act(START, actions[0]) == START.(passes := map[0 := pass])
            && Act(START.(passes := map[0 := pass]), actions[1]) == START.(passes := map[0 := pass, 1 := pass])
  {
    hide BatchAfter, CursorAfter;
    var row := OneChange(itemId);
    OneChangeBatch(user, itemId);
    assert row in [row] && IsFor({Delivery(user, ScheduleKey(1))}, [row]);
    assert InOrder([row]);
  }

  lemma SecondRunPasses(user: User, itemId: string, pass: Pass)
    requires pass == Pass(0, 5, [OneChange(itemId)], {Delivery(user, ScheduleKey(1))}, {}, false)
    ensures var d, actions := Delivery(user, ScheduleKey(1)), LosingRun(user, itemId);
            Act(Act(Act(START.(passes := map[0 := pass, 1 := pass]), actions[2]), actions[3]), actions[4])
            == System(State({d}, map[0 := Job(user, d.key, ["phone"], false)], []), Some(5), map[0 := pass], {d})
  {
    var d, actions := Delivery(user, ScheduleKey(1)), LosingRun(user, itemId);
    OneIsDistinct("phone");
    var s3 := Act(START.(passes := map[0 := pass, 1 := pass]), actions[2]);
    var held := State({d}, map[0 := Job(user, d.key, ["phone"], false)], []);
    assert s3 == System(held, Some(0), map[0 := pass, 1 := pass], {});
    var s4 := Act(s3, actions[3]);
    assert s4 == s3.(passes := map[0 := pass, 1 := pass.(settled := {d})]);
    assert Act(s4, actions[4]) == System(held, Some(5), map[0 := pass], {d});
  }

  lemma FirstRunFails(user: User, itemId: string, s: System)
    requires var d := Delivery(user, ScheduleKey(1));
             s.table == State({d}, map[0 := Job(user, d.key, ["phone"], false)], [])
    requires 0 in s.passes
    ensures var actions := LosingRun(user, itemId);
            Act(Act(Act(s, actions[5]), actions[6]), actions[7]) == s.(table := EMPTY, passes := s.passes - {0})
  {
    var d, actions := Delivery(user, ScheduleKey(1)), LosingRun(user, itemId);
    var s6 := Act(s, actions[5]);
    assert ["phone"][1..] == [];
    assert s6.table == State({d}, map[0 := Job(user, d.key, [], false)], []) && s6.passes[0].blocked;
    var s7 := Act(s6, actions[6]);
    assert s7.table == EMPTY && 0 in s7.passes && s7.passes[0].blocked && s7.passes - {0} == s.passes - {0};
  }

  /** The change is passed, nobody was told and no record is left; and no later run reads it. */
  lemma OverlapLosesAChange(user: User, itemId: string)
    ensures var s := Runs(START, LosingRun(user, itemId));
            && s == System(EMPTY, Some(5), map[], {Delivery(user, ScheduleKey(1))})
            && OneChange(itemId).observedAt <= s.cursor.value
            && forall more :: LaterPassesSkip(s, more, OneChange(itemId).observedAt)
  {
    hide Act, LaterPassesSkip, Runs;
    var d := Delivery(user, ScheduleKey(1));
    var pass := Pass(0, 5, [OneChange(itemId)], {d}, {}, false);
    var s := System(EMPTY, Some(5), map[], {d});
    OpensRead(user, itemId);
    SecondRunPasses(user, itemId, pass);
    var job := Job(user, d.key, ["phone"], false);
    FirstRunFails(user, itemId, System(State({d}, map[0 := job], []), Some(5), map[0 := pass], {d}));
    assert map[0 := pass] - {0} == map[];
    EightRuns(START, LosingRun(user, itemId));
    forall more
      ensures LaterPassesSkip(s, more, 5)
    {
      PassedIsNotReadAgain(s, more, 5);
    }
  }

  lemma EightRuns(s: System, a: seq<Action>)
    requires |a| == 8
    ensures Runs(s, a) == Act(Act(Act(Act(Act(Act(Act(Act(s, a[0]), a[1]), a[2]), a[3]), a[4]), a[5]), a[6]), a[7])
  {
    hide Act;
    assert a == [a[0], a[1], a[2]] + ([a[3], a[4], a[5]] + ([a[6]] + [a[7]]));
    RunsAppend(s, [a[0], a[1], a[2]], [a[3], a[4], a[5]] + ([a[6]] + [a[7]]));
    RunsThree(s, a[0], a[1], a[2]);
    var t := Runs(s, [a[0], a[1], a[2]]);
    RunsAppend(t, [a[3], a[4], a[5]], [a[6]] + [a[7]]);
    RunsThree(t, a[3], a[4], a[5]);
    var u := Runs(t, [a[3], a[4], a[5]]);
    RunsAppend(u, [a[6]], [a[7]]);
    RunsOne(u, a[6]);
    RunsOne(Act(u, a[6]), a[7]);
  }
}
