/** Claim, send, release: the steps any number of dispatcher processes take against one delivery
    table, interleaved in any way and with any replies from the push service. */
module DeliveryProtocol {
  import opened Collections

  type User = string

  type Device = string

  /** The dedupe key: a schedule row, or an item, a date and the days left. */
  datatype Key = ScheduleKey(scheduleId: int) | ReminderKey(itemId: string, bidDate: int, daysLeft: int)

  /** `Thrown` is an exception out of the send, or out of the deletion of a dead device token. */
  datatype Reply = Sent | Unregistered | Failed | Thrown(unavailable: bool)

  datatype Delivery = Delivery(user: User, key: Key)

  /** A device was reported sent on behalf of a user. */
  datatype SentEvent = SentEvent(user: User, device: Device, key: Key)

  /** What a process is doing between its claim and its release. */
  datatype Job = Job(user: User, key: Key, pending: seq<Device>, anySent: bool)
  {
    function Target(): Delivery { Delivery(user, key) }
  }

  datatype State = State(records: set<Delivery>, jobs: map<nat, Job>, log: seq<SentEvent>)

  datatype Step =
    | Claim(process: nat, user: User, key: Key, devices: seq<Device>)
    | Answer(process: nat, reply: Reply)
    | Finish(process: nat)

  function AnswerJob(job: Job, reply: Reply): Job
    requires job.pending != []
  {
    match reply
    case Sent => job.(pending := job.pending[1..], anySent := true)
    case Thrown(_) => job.(pending := [])
    case _ => job.(pending := job.pending[1..])
  }

  function Next(s: State, step: Step): State {
    match step
    case Claim(p, user, key, devices) =>
      if p in s.jobs || Delivery(user, key) in s.records then s
      else s.(records := s.records + {Delivery(user, key)}, jobs := s.jobs[p := Job(user, key, devices, false)])
    case Answer(p, reply) =>
      if p !in s.jobs || s.jobs[p].pending == [] then s
      else
        var job := s.jobs[p];
        s.(jobs := s.jobs[p := AnswerJob(job, reply)],
           log := if reply.Sent? then s.log + [SentEvent(job.user, job.pending[0], job.key)] else s.log)
    case Finish(p) =>
      if p !in s.jobs || s.jobs[p].pending != [] then s
      else
        s.(jobs := s.jobs - {p},
           records := if s.jobs[p].anySent then s.records else s.records - {s.jobs[p].Target()})
  }

  function Run(s: State, steps: seq<Step>): State {
    if steps == [] then s else Next(Run(s, steps[..|steps| - 1]), steps[|steps| - 1])
  }

  /** Device tokens are unique, so a user's device list names each device once. */
  ghost predicate IsListing(step: Step) {
    step.Claim? ==> Distinct(step.devices)
  }

  ghost predicate AreListings(steps: seq<Step>) {
    forall i :: 0 <= i < |steps| ==> IsListing(steps[i])
  }

  ghost predicate Reported(log: seq<SentEvent>, d: Delivery) {
    exists i :: 0 <= i < |log| && log[i].user == d.user && log[i].key == d.key
  }

  ghost predicate Held(s: State, d: Delivery) {
    exists p :: p in s.jobs && s.jobs[p].Target() == d
  }

  ghost predicate JobInv(s: State, job: Job) {
    && job.Target() in s.records
    && (job.anySent <==> Reported(s.log, job.Target()))
    && Distinct(job.pending)
    && forall i, j :: 0 <= i < |job.pending| && 0 <= j < |s.log| ==>
         s.log[j] != SentEvent(job.user, job.pending[i], job.key)
  }

  ghost predicate Inv(s: State) {
    && (forall p :: p in s.jobs ==> JobInv(s, s.jobs[p]))
    && (forall p, q :: p in s.jobs && q in s.jobs && p != q ==> s.jobs[p].Target() != s.jobs[q].Target())
    && (forall d :: d in s.records ==> Held(s, d) || Reported(s.log, d))
    && (forall i :: 0 <= i < |s.log| ==> Delivery(s.log[i].user, s.log[i].key) in s.records)
    && Distinct(s.log)
  }

  lemma ClaimKeepsInv(s: State, p: nat, user: User, key: Key, devices: seq<Device>)
    requires Inv(s) && Distinct(devices)
    ensures Inv(Next(s, Claim(p, user, key, devices)))
  {
    var d, s' := Delivery(user, key), Next(s, Claim(p, user, key, devices));
    if p !in s.jobs && d !in s.records {
      assert s'.jobs[p].Target() == d;
      assert !Reported(s.log, d);
      forall q | q in s'.jobs
        ensures JobInv(s', s'.jobs[q])
      {
        if q != p { assert JobInv(s, s.jobs[q]); }
      }
      forall e | e in s'.records
        ensures Held(s', e) || Reported(s'.log, e)
      {
        if e != d && Held(s, e) {
          var q :| q in s.jobs && s.jobs[q].Target() == e;
          assert s'.jobs[q].Target() == e;
        }
      }
    }
  }

  lemma ReportedPush(log: seq<SentEvent>, e: SentEvent, d: Delivery)
    ensures Reported(log + [e], d) <==> Reported(log, d) || d == Delivery(e.user, e.key)
  {
    var log' := log + [e];
    if Reported(log, d) {
      var i :| 0 <= i < |log| && log[i].user == d.user && log[i].key == d.key;
      assert log'[i] == log[i];
    }
    assert log'[|log|] == e;
  }

  /** The job that got an answer: what is left of its list was not reported before, so it is not now. */
  lemma AnsweredJobInv(s: State, p: nat, reply: Reply)
    requires p in s.jobs && JobInv(s, s.jobs[p]) && s.jobs[p].pending != []
    ensures var s' := Next(s, Answer(p, reply)); JobInv(s', s'.jobs[p])
  {
    var job := s.jobs[p];
    ReportedPush(s.log, SentEvent(job.user, job.pending[0], job.key), job.Target());
  }

  lemma OtherJobInv(s: State, p: nat, reply: Reply, q: nat)
    requires p in s.jobs && q in s.jobs && JobInv(s, s.jobs[q]) && s.jobs[p].pending != []
    requires s.jobs[p].Target() != s.jobs[q].Target()
    ensures JobInv(Next(s, Answer(p, reply)), s.jobs[q])
  {
    var job := s.jobs[p];
    ReportedPush(s.log, SentEvent(job.user, job.pending[0], job.key), s.jobs[q].Target());
  }

  lemma AnswerKeepsInv(s: State, p: nat, reply: Reply)
    requires Inv(s)
    ensures Inv(Next(s, Answer(p, reply)))
  {
    var s' := Next(s, Answer(p, reply));
    if p in s.jobs && s.jobs[p].pending != [] {
      var job := s.jobs[p];
      assert s'.jobs[p].Target() == job.Target();
      forall q | q in s'.jobs
        ensures JobInv(s', s'.jobs[q])
      {
        if q == p { AnsweredJobInv(s, p, reply); } else { OtherJobInv(s, p, reply, q); }
      }
      assert JobInv(s, job);
      hide JobInv;
      forall d | d in s'.records
        ensures Held(s', d) || Reported(s'.log, d)
      {
        ReportedPush(s.log, SentEvent(job.user, job.pending[0], job.key), d);
        if Held(s, d) {
          var q :| q in s.jobs && s.jobs[q].Target() == d;
          assert q in s'.jobs && s'.jobs[q].Target() == d;
        }
      }
      assert job.Target() in s.records by { TargetRecorded(s, job); }
      assert Distinct(s'.log) by { AnswerIsNew(s, job); }
    }
  }

  lemma TargetRecorded(s: State, job: Job)
    requires JobInv(s, job)
    ensures job.Target() in s.records
  {
  }

  lemma AnswerIsNew(s: State, job: Job)
    requires JobInv(s, job) && job.pending != [] && Distinct(s.log)
    ensures Distinct(s.log + [SentEvent(job.user, job.pending[0], job.key)])
  {
  }

  lemma FinishKeepsInv(s: State, p: nat)
    requires Inv(s)
    ensures Inv(Next(s, Finish(p)))
  {
    var s' := Next(s, Finish(p));
    if p in s.jobs && s.jobs[p].pending == [] {
      var job := s.jobs[p];
      assert JobInv(s, job);
      forall q | q in s'.jobs
        ensures JobInv(s', s'.jobs[q])
      {
        assert JobInv(s, s.jobs[q]);
      }
      forall d | d in s'.records
        ensures Held(s', d) || Reported(s'.log, d)
      {
        if Held(s, d) {
          var q :| q in s.jobs && s.jobs[q].Target() == d;
          if q != p { assert q in s'.jobs; }
        }
      }
      forall i | 0 <= i < |s'.log|
        ensures Delivery(s'.log[i].user, s'.log[i].key) in s'.records
      {
        assert Reported(s.log, Delivery(s.log[i].user, s.log[i].key));
      }
    }
  }

  /** Every interleaving keeps the table, the jobs and the log consistent. */
  lemma {:induction false} RunKeepsInv(s: State, steps: seq<Step>)
    requires Inv(s) && AreListings(steps)
    ensures Inv(Run(s, steps))
  {
    if steps != [] {
      var before, step := steps[..|steps| - 1], steps[|steps| - 1];
      assert forall i :: 0 <= i < |before| ==> before[i] == steps[i];
      RunKeepsInv(s, before);
      assert IsListing(step);
      match step
      case Claim(p, user, key, devices) => ClaimKeepsInv(Run(s, before), p, user, key, devices);
      case Answer(p, reply) => AnswerKeepsInv(Run(s, before), p, reply);
      case Finish(p) => FinishKeepsInv(Run(s, before), p);
    }
  }

  const EMPTY: State := State({}, map[], [])

  /** Whatever the interleaving, replies and exceptions: no device is reported sent twice for one user
      and key; a record outside any send stands exactly for a delivery that reached some device; and a
      reported delivery always has its record. */
  lemma AtMostOnce(steps: seq<Step>)
    requires AreListings(steps)
    ensures var s := Run(EMPTY, steps);
            && (forall i, j :: 0 <= i < j < |s.log| ==> s.log[i] != s.log[j])
            && (forall d :: !Held(s, d) ==> (d in s.records <==> Reported(s.log, d)))
            && (forall d :: Reported(s.log, d) ==> d in s.records)
  {
    RunKeepsInv(EMPTY, steps);
    var s := Run(EMPTY, steps);
    forall d | Reported(s.log, d)
      ensures d in s.records
    {
      var i :| 0 <= i < |s.log| && s.log[i].user == d.user && s.log[i].key == d.key;
      assert Delivery(s.log[i].user, s.log[i].key) == d;
    }
  }

  /** When a send ends, normally or by an exception, its record remains exactly when one of the user's
      devices was reported sent. */
  lemma RecordRemainsIffReported(s: State, p: nat)
    requires Inv(s) && p in s.jobs && s.jobs[p].pending == []
    ensures var d, s' := s.jobs[p].Target(), Next(s, Finish(p));
            !Held(s', d) && (d in s'.records <==> Reported(s'.log, d))
  {
    assert JobInv(s, s.jobs[p]);
  }

  // ---- devices that change hands

  /** Every claim of the run lists, for its user and key, only devices that may be listed for them. */
  ghost predicate ListsOnly(steps: seq<Step>, listed: (User, Device, Key) -> bool) {
    forall i, j :: 0 <= i < |steps| && steps[i].Claim? && 0 <= j < |steps[i].devices| ==>
      listed(steps[i].user, steps[i].devices[j], steps[i].key)
  }

  ghost predicate ListedState(s: State, listed: (User, Device, Key) -> bool) {
    && (forall p, j :: p in s.jobs && 0 <= j < |s.jobs[p].pending| ==>
          listed(s.jobs[p].user, s.jobs[p].pending[j], s.jobs[p].key))
    && (forall i :: 0 <= i < |s.log| ==> listed(s.log[i].user, s.log[i].device, s.log[i].key))
  }

  lemma NextKeepsListed(s: State, step: Step, listed: (User, Device, Key) -> bool)
    requires ListedState(s, listed)
    requires step.Claim? ==> forall j :: 0 <= j < |step.devices| ==> listed(step.user, step.devices[j], step.key)
    ensures ListedState(Next(s, step), listed)
  {
    var s' := Next(s, step);
    if step.Answer? && s' != s {
      var job := s.jobs[step.process];
      assert listed(job.user, job.pending[0], job.key);
      forall j | 0 <= j < |s'.jobs[step.process].pending|
        ensures listed(job.user, s'.jobs[step.process].pending[j], job.key)
      {
        assert s'.jobs[step.process].pending[j] == job.pending[j + 1];
      }
    }
  }

  lemma {:induction false} RunKeepsListed(s: State, steps: seq<Step>, listed: (User, Device, Key) -> bool)
    requires ListedState(s, listed) && ListsOnly(steps, listed)
    ensures ListedState(Run(s, steps), listed)
  {
    hide Next, ListedState;
    if steps != [] {
      var before := steps[..|steps| - 1];
      assert forall i :: 0 <= i < |before| ==> before[i] == steps[i];
      RunKeepsListed(s, before, listed);
      NextKeepsListed(Run(s, before), steps[|steps| - 1], listed);
    }
  }

  /** No device and key is listed for two users. */
  ghost predicate OneUserEach(listed: (User, Device, Key) -> bool) {
    forall a, b, d, k :: listed(a, d, k) && listed(b, d, k) ==> a == b
  }

  ghost predicate OncePerDevice(log: seq<SentEvent>) {
    forall i, j :: 0 <= i < j < |log| ==> log[i].device != log[j].device || log[i].key != log[j].key
  }

  /** While no device is listed for two users under one key, it is reported sent at most once per key. It may
      change hands between one key and the next. */
  lemma AtMostOncePerDevice(steps: seq<Step>, listed: (User, Device, Key) -> bool)
    requires AreListings(steps) && ListsOnly(steps, listed) && OneUserEach(listed)
    ensures OncePerDevice(Run(EMPTY, steps).log)
  {
    AtMostOnce(steps);
    RunKeepsListed(EMPTY, steps, listed);
    var log := Run(EMPTY, steps).log;
    forall i, j | 0 <= i < j < |log|
      ensures log[i].device != log[j].device || log[i].key != log[j].key
    {
      assert listed(log[i].user, log[i].device, log[i].key) && listed(log[j].user, log[j].device, log[j].key);
      assert log[i] != log[j];
    }
  }

  /** Every run is free of repeats exactly when no device is ever listed for two users under one key. */
  lemma OncePerDeviceExactlyWhen(listed: (User, Device, Key) -> bool)
    ensures (forall steps :: AreListings(steps) && ListsOnly(steps, listed) ==> OncePerDevice(Run(EMPTY, steps).log))
            <==> OneUserEach(listed)
  {
    if OneUserEach(listed) {
      forall steps | AreListings(steps) && ListsOnly(steps, listed)
        ensures OncePerDevice(Run(EMPTY, steps).log)
      {
        AtMostOncePerDevice(steps, listed);
      }
    } else {
      var a, b, d, k :| listed(a, d, k) && listed(b, d, k) && a != b;
      var steps := SendToOne(a, d, k) + SendToOne(b, d, k);
      HandedOverDeviceIsNotifiedTwice(a, b, d, k);
      assert AreListings(steps) && ListsOnly(steps, listed);
      var log := Run(EMPTY, steps).log;
      assert log[0].device == log[1].device && log[0].key == log[1].key;
    }
  }

  lemma RunPush(s: State, steps: seq<Step>, step: Step)
    ensures Run(s, steps + [step]) == Next(Run(s, steps), step)
  {
    assert (steps + [step])[..|steps|] == steps;
  }

  lemma {:induction false} RunAppend(s: State, first: seq<Step>, second: seq<Step>)
    ensures Run(s, first + second) == Run(Run(s, first), second)
    decreases |second|
  {
    if second == [] {
      assert first + second == first;
    } else {
      var init, last := second[..|second| - 1], second[|second| - 1];
      assert first + second == (first + init) + [last];
      RunPush(s, first + init, last);
      RunAppend(s, first, init);
    }
  }

  function SendToOne(user: User, device: Device, key: Key): seq<Step> {
    [Claim(0, user, key, [device]), Answer(0, Sent), Finish(0)]
  }

  lemma SendToOneReports(s: State, user: User, device: Device, key: Key)
    requires s.jobs == map[] && Delivery(user, key) !in s.records
    ensures Run(s, SendToOne(user, device, key))
            == State(s.records + {Delivery(user, key)}, map[], s.log + [SentEvent(user, device, key)])
  {
    var claim := Claim(0, user, key, [device]);
    assert [device][1..] == [] && [] + [claim] == [claim];
    RunPush(s, [], claim);
    RunPush(s, [claim], Answer(0, Sent));
    RunPush(s, [claim] + [Answer(0, Sent)], Finish(0));
    assert SendToOne(user, device, key) == [claim] + [Answer(0, Sent)] + [Finish(0)];
    assert Run(s, []) == s;
    var claimed := Next(s, claim);
    assert claimed.jobs == map[0 := Job(user, key, [device], false)];
    var answered := Next(claimed, Answer(0, Sent));
    assert answered.jobs == map[0 := Job(user, key, [], true)];
    assert answered.jobs - {0} == map[];
  }

  /** A device handed from one subscribed user to another is reported sent twice for one key. */
  lemma HandedOverDeviceIsNotifiedTwice(a: User, b: User, device: Device, key: Key)
    requires a != b
    ensures Run(EMPTY, SendToOne(a, device, key) + SendToOne(b, device, key)).log
            == [SentEvent(a, device, key), SentEvent(b, device, key)]
  {
    RunAppend(EMPTY, SendToOne(a, device, key), SendToOne(b, device, key));
    SendToOneReports(EMPTY, a, device, key);
    SendToOneReports(Run(EMPTY, SendToOne(a, device, key)), b, device, key);
  }
}
