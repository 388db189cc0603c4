/** The per-case cache in front of the paid registry lookups: one fetch at a time per key, and its value kept.
    A fetch is a promise that settles in two steps, first its outcome and then its removal from the pending map,
    and any other call may run between the two. */
module RegistryCache {
  import opened Collections

  datatype Outcome<T> = Fulfilled(value: T) | Rejected

  /** A fetch that was started; `settled` once its callers are told the outcome. */
  datatype Flight<T> = Flight(key: string, outcome: Option<Outcome<T>>, settled: bool)

  datatype Entry<T> = Entry(value: T, cachedAt: int)

  datatype State<T> = State(store: map<string, Entry<T>>, inFlight: map<string, nat>, flights: seq<Flight<T>>)

  /** What a caller is handed: a value, or the promise of a flight. */
  datatype Answer<T> = Cached(value: T) | Awaiting(flight: nat)

  datatype Event<T> =
    | Call(key: string)
    | Fulfil(flight: nat, value: T, at: int)
    | Reject(flight: nat)
    | Settle(flight: nat)
    | Invalidate(key: string)

  function AnswerTo<T>(s: State<T>, key: string): Answer<T> {
    if key in s.store then Cached(s.store[key].value)
    else if key in s.inFlight then Awaiting(s.inFlight[key])
    else Awaiting(|s.flights|)
  }

  predicate Running<T>(s: State<T>, f: nat) {
    f < |s.flights| && s.flights[f].outcome.None?
  }

  function Resolve<T>(s: State<T>, f: nat, outcome: Outcome<T>): seq<Flight<T>>
    requires f < |s.flights|
  {
    s.flights[f := s.flights[f].(outcome := Some(outcome))]
  }

  /** One event; an event that cannot happen in this state changes nothing. */
  function Step<T>(s: State<T>, e: Event<T>): State<T> {
    match e
    case Call(key) =>
      if key in s.store || key in s.inFlight then s
      else s.(inFlight := s.inFlight[key := |s.flights|], flights := s.flights + [Flight(key, None, false)])
    case Fulfil(f, value, at) =>
      if !Running(s, f) then s
      else s.(store := s.store[s.flights[f].key := Entry(value, at)], flights := Resolve(s, f, Fulfilled(value)))
    case Reject(f) =>
      if !Running(s, f) then s else s.(flights := Resolve(s, f, Rejected))
    case Settle(f) =>
      if f >= |s.flights| || s.flights[f].settled || s.flights[f].outcome.None? then s
      else s.(inFlight := s.inFlight - {s.flights[f].key}, flights := s.flights[f := s.flights[f].(settled := true)])
    case Invalidate(key) => s.(store := s.store - {key})
  }

  function Run<T>(events: seq<Event<T>>): State<T> {
    if events == [] then State(map[], map[], [])
    else Step(Run(events[..|events| - 1]), events[|events| - 1])
  }

  // ---- what every run keeps

  /** `f` is the flight of `key` that was started last. */
  ghost predicate IsLatest<T>(flights: seq<Flight<T>>, key: string, f: nat) {
    && f < |flights| && flights[f].key == key
    && forall g :: f < g < |flights| ==> flights[g].key != key
  }

  ghost predicate IsPending<T>(s: State<T>, key: string)
    requires key in s.inFlight
  {
    var f := s.inFlight[key];
    IsLatest(s.flights, key, f) && !s.flights[f].settled
  }

  ghost predicate HoldsLatest<T>(s: State<T>, key: string)
    requires key in s.store
  {
    exists f: nat :: IsLatest(s.flights, key, f) && s.flights[f].outcome == Some(Fulfilled(s.store[key].value))
  }

  ghost predicate Inv<T>(s: State<T>) {
    && (forall key :: key in s.inFlight ==> IsPending(s, key))
    && (forall f :: 0 <= f < |s.flights| && !s.flights[f].settled ==>
          s.flights[f].key in s.inFlight && s.inFlight[s.flights[f].key] == f)
    && (forall f :: 0 <= f < |s.flights| && s.flights[f].settled ==> s.flights[f].outcome.Some?)
    && (forall key :: key in s.store ==> HoldsLatest(s, key))
  }

  lemma CallKeepsInv<T>(s: State<T>, key: string)
    requires Inv(s)
    ensures Inv(Step(s, Call(key)))
  {
    var t := Step(s, Call(key));
    if t != s {
      var n := |s.flights|;
      forall k | k in t.inFlight
        ensures IsPending(t, k)
      {
        if k != key { assert IsPending(s, k); }
      }
      forall k | k in t.store
        ensures HoldsLatest(t, k)
      {
        var f: nat :| IsLatest(s.flights, k, f) && s.flights[f].outcome == Some(Fulfilled(s.store[k].value));
        assert IsLatest(t.flights, k, f);
      }
    }
  }

  /** Flights keep their keys, so the latest one of each key stays the latest. */
  lemma SameKeysSameLatest<T>(s: seq<Flight<T>>, t: seq<Flight<T>>, key: string, f: nat)
    requires |s| == |t| && forall i :: 0 <= i < |s| ==> s[i].key == t[i].key
    ensures IsLatest(s, key, f) <==> IsLatest(t, key, f)
  {
  }

  lemma ResolveKeepsInv<T>(s: State<T>, e: Event<T>)
    requires Inv(s) && (e.Fulfil? || e.Reject?)
    ensures Inv(Step(s, e))
  {
    var t := Step(s, e);
    if Running(s, e.flight) {
      var own := s.flights[e.flight].key;
      assert s.inFlight[own] == e.flight && IsPending(s, own);
      forall k | k in t.inFlight
        ensures IsPending(t, k)
      {
        assert IsPending(s, k);
        SameKeysSameLatest(s.flights, t.flights, k, s.inFlight[k]);
      }
      forall k | k in t.store
        ensures HoldsLatest(t, k)
      {
        if k == own && e.Fulfil? {
          SameKeysSameLatest(s.flights, t.flights, k, e.flight);
        } else {
          var f: nat :| IsLatest(s.flights, k, f) && s.flights[f].outcome == Some(Fulfilled(s.store[k].value));
          SameKeysSameLatest(s.flights, t.flights, k, f);
        }
      }
    }
  }

  lemma SettleKeepsInv<T>(s: State<T>, f: nat)
    requires Inv(s)
    ensures Inv(Step(s, Settle(f)))
  {
    var t := Step(s, Settle(f));
    if t != s {
      forall k | k in t.inFlight
        ensures IsPending(t, k)
      {
        assert IsPending(s, k);
        SameKeysSameLatest(s.flights, t.flights, k, s.inFlight[k]);
      }
      forall k | k in t.store
        ensures HoldsLatest(t, k)
      {
        var g: nat :| IsLatest(s.flights, k, g) && s.flights[g].outcome == Some(Fulfilled(s.store[k].value));
        SameKeysSameLatest(s.flights, t.flights, k, g);
      }
      forall g | 0 <= g < |t.flights| && !t.flights[g].settled
        ensures t.flights[g].key in t.inFlight && t.inFlight[t.flights[g].key] == g
      {
        assert s.inFlight[s.flights[g].key] == g && s.inFlight[s.flights[f].key] == f;
      }
    }
  }

  lemma InvalidateKeepsInv<T>(s: State<T>, key: string)
    requires Inv(s)
    ensures Inv(Step(s, Invalidate(key)))
  {
    var t := Step(s, Invalidate(key));
    forall k | k in t.inFlight
      ensures IsPending(t, k)
    {
      assert IsPending(s, k);
    }
    forall k | k in t.store
      ensures HoldsLatest(t, k)
    {
      assert HoldsLatest(s, k);
    }
  }

  lemma StepKeepsInv<T>(s: State<T>, e: Event<T>)
    requires Inv(s)
    ensures Inv(Step(s, e))
  {
    match e
    case Call(key) => CallKeepsInv(s, key);
    case Fulfil(_, _, _) => ResolveKeepsInv(s, e);
    case Reject(_) => ResolveKeepsInv(s, e);
    case Settle(f) => SettleKeepsInv(s, f);
    case Invalidate(key) => InvalidateKeepsInv(s, key);
  }

  lemma {:induction false} RunKeepsInv<T>(events: seq<Event<T>>)
    ensures Inv(Run(events))
  {
    if events != [] {
      RunKeepsInv(events[..|events| - 1]);
      hide Inv, Step;
      StepKeepsInv(Run(events[..|events| - 1]), events[|events| - 1]);
    }
  }

  /** Whatever the order of calls, outcomes and invalidations, a key never has two fetches under way. */
  lemma OneFlightPerKey<T>(events: seq<Event<T>>, f: nat, g: nat)
    requires var s := Run(events);
             f < |s.flights| && g < |s.flights| && s.flights[f].key == s.flights[g].key
             && !s.flights[f].settled && !s.flights[g].settled
    ensures f == g
  {
    RunKeepsInv(events);
  }

  // ---- what callers are told

  /** Once a flight has an outcome it keeps it, so all that await the flight are told the same. */
  lemma {:induction false} OutcomeIsFinal<T>(events: seq<Event<T>>, more: seq<Event<T>>, f: nat)
    requires f < |Run(events).flights|
    ensures var s, t := Run(events), Run(events + more);
            && f < |t.flights| && t.flights[f].key == s.flights[f].key
            && (s.flights[f].outcome.Some? ==> t.flights[f].outcome == s.flights[f].outcome)
            && (s.flights[f].settled ==> t.flights[f].settled)
  {
    if more == [] {
      assert events + more == events;
    } else {
      var rest := more[..|more| - 1];
      assert (events + more)[..|events + more| - 1] == events + rest;
      OutcomeIsFinal(events, rest, f);
    }
  }

  /** While a flight is under way every call for its key is answered with it: by its promise, or, in the gap
      between its outcome and its removal, by the value it fetched. No call starts another fetch. */
  lemma CallsJoinTheFlight<T>(events: seq<Event<T>>, f: nat)
    requires f < |Run(events).flights| && !Run(events).flights[f].settled
    ensures var s := Run(events); var flight := s.flights[f];
            && Step(s, Call(flight.key)) == s
            && match AnswerTo(s, flight.key)
               case Awaiting(g) => g == f
               case Cached(value) => flight.outcome == Some(Fulfilled(value))
  {
    RunKeepsInv(events);
    var s := Run(events);
    var key := s.flights[f].key;
    assert s.inFlight[key] == f && IsPending(s, key);
    if key in s.store {
      assert HoldsLatest(s, key);
    }
  }

  /** A cached answer is what the latest fetch of that very key brought; there is no older or foreign value. */
  lemma CachedAnswerIsLatest<T>(events: seq<Event<T>>, key: string, value: T)
    requires AnswerTo(Run(events), key) == Cached(value)
    ensures var s := Run(events);
            exists f: nat :: IsLatest(s.flights, key, f) && s.flights[f].outcome == Some(Fulfilled(value))
  {
    RunKeepsInv(events);
    assert HoldsLatest(Run(events), key);
  }

  // ---- how many fetches are paid for

  ghost function FetchesOf<T>(s: State<T>, key: string): set<nat> {
    set f: nat | f < |s.flights| && s.flights[f].key == key
  }

  ghost function FailuresOf<T>(s: State<T>, key: string): set<nat> {
    set f: nat | f < |s.flights| && s.flights[f].key == key && s.flights[f].outcome == Some(Rejected)
  }

  ghost function InvalidationsOf<T>(events: seq<Event<T>>, key: string): nat {
    if events == [] then 0
    else InvalidationsOf(events[..|events| - 1], key) + if events[|events| - 1] == Invalidate(key) then 1 else 0
  }

  /** Whether the fetch that is paid for is still good: kept, or still under way. */
  ghost predicate Covered<T>(s: State<T>, key: string) {
    key in s.store || exists f :: 0 <= f < |s.flights| && s.flights[f].key == key && s.flights[f].outcome.None?
  }

  /** Fetches of the key that are neither failed nor still good. */
  ghost function Wasted<T>(s: State<T>, key: string): int {
    |FetchesOf(s, key)| - |FailuresOf(s, key)| - if Covered(s, key) then 1 else 0
  }

  lemma StillCovered<T>(s: State<T>, t: State<T>, key: string)
    requires |s.flights| <= |t.flights| && (key in s.store ==> key in t.store)
    requires forall f :: 0 <= f < |s.flights| && s.flights[f].key == key ==>
               t.flights[f].key == key && (s.flights[f].outcome.None? ==> t.flights[f].outcome.None?)
    ensures Covered(s, key) ==> Covered(t, key)
  {
  }

  lemma CallAddsFetch<T>(s: State<T>, k: string, key: string)
    requires Step(s, Call(k)) != s
    ensures FetchesOf(Step(s, Call(k)), key) == FetchesOf(s, key) + if k == key then {|s.flights|} else {}
    ensures FailuresOf(Step(s, Call(k)), key) == FailuresOf(s, key)
    ensures |s.flights| !in FetchesOf(s, key)
  {
  }

  lemma NewFlightCovers<T>(s: State<T>, k: string, key: string)
    requires Inv(s) && Step(s, Call(k)) != s
    ensures k == key ==> !Covered(s, key) && Covered(Step(s, Call(k)), key)
    ensures Covered(s, key) ==> Covered(Step(s, Call(k)), key)
  {
    var t := Step(s, Call(k));
    assert t.flights[|s.flights|].outcome.None?;
    StillCovered(s, t, key);
  }

  lemma CallWastesNothing<T>(s: State<T>, k: string, key: string)
    requires Inv(s)
    ensures Wasted(Step(s, Call(k)), key) <= Wasted(s, key)
  {
    hide Inv, Step, FetchesOf, FailuresOf, Covered;
    if Step(s, Call(k)) != s {
      CallAddsFetch(s, k, key);
      NewFlightCovers(s, k, key);
    }
  }

  lemma FulfilWastesNothing<T>(s: State<T>, f: nat, value: T, at: int, key: string)
    ensures Wasted(Step(s, Fulfil(f, value, at)), key) <= Wasted(s, key)
  {
    var t := Step(s, Fulfil(f, value, at));
    if t != s {
      assert FetchesOf(t, key) == FetchesOf(s, key);
      assert FailuresOf(t, key) == FailuresOf(s, key);
      if key !in t.store { StillCovered(s, t, key); }
    }
  }

  lemma RejectAddsFailure<T>(s: State<T>, f: nat, key: string)
    requires Running(s, f)
    ensures FailuresOf(Step(s, Reject(f)), key) == FailuresOf(s, key) + if s.flights[f].key == key then {f} else {}
    ensures f !in FailuresOf(s, key)
  {
    var t := Step(s, Reject(f));
    var before, after := FailuresOf(s, key), FailuresOf(t, key);
    forall g: nat
      ensures g in after <==> g in before || (g == f && s.flights[f].key == key)
    {
      assert g < |s.flights| && g != f ==> t.flights[g] == s.flights[g];
    }
  }

  lemma RejectKeepsTheRest<T>(s: State<T>, f: nat, key: string)
    requires Running(s, f)
    ensures FetchesOf(Step(s, Reject(f)), key) == FetchesOf(s, key)
    ensures s.flights[f].key != key && Covered(s, key) ==> Covered(Step(s, Reject(f)), key)
  {
    var t := Step(s, Reject(f));
    if s.flights[f].key != key {
      StillCovered(s, t, key);
    }
  }

  lemma RejectWastesNothing<T>(s: State<T>, f: nat, key: string)
    ensures Wasted(Step(s, Reject(f)), key) <= Wasted(s, key)
  {
    hide Step, FetchesOf, FailuresOf, Covered;
    if Running(s, f) {
      RejectKeepsTheRest(s, f, key);
      RejectAddsFailure(s, f, key);
    } else {
      NothingToReject(s, f);
    }
  }

  lemma NothingToReject<T>(s: State<T>, f: nat)
    requires !Running(s, f)
    ensures Step(s, Reject(f)) == s
  {
  }

  lemma SettleWastesNothing<T>(s: State<T>, f: nat, key: string)
    ensures Wasted(Step(s, Settle(f)), key) <= Wasted(s, key)
  {
    var t := Step(s, Settle(f));
    assert FetchesOf(t, key) == FetchesOf(s, key);
    assert FailuresOf(t, key) == FailuresOf(s, key);
    StillCovered(s, t, key);
  }

  lemma InvalidateWastesOne<T>(s: State<T>, k: string, key: string)
    ensures Wasted(Step(s, Invalidate(k)), key) <= Wasted(s, key) + if k == key then 1 else 0
  {
    var t := Step(s, Invalidate(k));
    assert FetchesOf(t, key) == FetchesOf(s, key);
    assert FailuresOf(t, key) == FailuresOf(s, key);
    if k != key { StillCovered(s, t, key); }
  }

  /** Only an invalidation of the key itself can waste a fetch that succeeded. */
  lemma StepWastes<T>(s: State<T>, e: Event<T>, key: string)
    requires Inv(s)
    ensures Wasted(Step(s, e), key) <= Wasted(s, key) + if e == Invalidate(key) then 1 else 0
  {
    hide Wasted, Step, Inv;
    match e
    case Call(k) => CallWastesNothing(s, k, key);
    case Fulfil(f, value, at) => FulfilWastesNothing(s, f, value, at, key);
    case Reject(f) => RejectWastesNothing(s, f, key);
    case Settle(f) => SettleWastesNothing(s, f, key);
    case Invalidate(k) => InvalidateWastesOne(s, k, key);
  }

  /** Over any run a key costs at most one fetch, plus one for each fetch of it that failed and one for
      each time it was invalidated. */
  lemma {:induction false} FetchesAreBounded<T>(events: seq<Event<T>>, key: string)
    ensures Wasted(Run(events), key) <= InvalidationsOf(events, key)
    ensures |FetchesOf(Run(events), key)| <= 1 + |FailuresOf(Run(events), key)| + InvalidationsOf(events, key)
  {
    if events == [] {
      assert FetchesOf(Run(events), key) == {};
    } else {
      var init := events[..|events| - 1];
      FetchesAreBounded(init, key);
      RunKeepsInv(init);
      hide Step, Inv, FetchesOf, FailuresOf, Covered;
      StepWastes(Run(init), events[|events| - 1], key);
    }
  }

  // ---- invalidation

  /** The call right after an invalidation fetches again exactly when no flight of the key is under way. */
  lemma InvalidationRefetchesExactlyWhen<T>(events: seq<Event<T>>, key: string)
    ensures var s := Step(Run(events), Invalidate(key));
            |Step(s, Call(key)).flights| == |s.flights| + 1
            <==> forall f :: 0 <= f < |Run(events).flights| && Run(events).flights[f].key == key ==>
                Run(events).flights[f].settled
  {
    RunKeepsInv(events);
    var r := Run(events);
    if key in r.inFlight {
      assert IsPending(r, key);
    }
  }

  /** The flight whose value is kept for the key: the last one of the key to bring a value, unless that was before the
      last invalidation. */
  ghost function KeptFrom<T>(events: seq<Event<T>>, key: string): Option<nat> {
    if events == [] then None
    else
      var init, last := events[..|events| - 1], events[|events| - 1];
      if last.Fulfil? && Running(Run(init), last.flight) && Run(init).flights[last.flight].key == key
      then Some(last.flight)
      else if last == Invalidate(key) then None
      else KeptFrom(init, key)
  }

  /** The flight that the answer to a call now would come from; a call that starts one is answered by that. */
  ghost function SourceOf<T>(events: seq<Event<T>>, key: string): nat {
    var s := Run(events);
    if KeptFrom(events, key).Some? then KeptFrom(events, key).value
    else if key in s.inFlight then s.inFlight[key]
    else |s.flights|
  }

  lemma {:induction false} KeptFromIsKept<T>(events: seq<Event<T>>, key: string)
    ensures var s, kept := Run(events), KeptFrom(events, key);
            && (key in s.store <==> kept.Some?)
            && (kept.Some? ==> kept.value < |s.flights| && s.flights[kept.value].key == key
                               && s.flights[kept.value].outcome == Some(Fulfilled(s.store[key].value)))
  {
    if events != [] {
      KeptFromIsKept(events[..|events| - 1], key);
    }
  }

  /** An answer is the promise of that flight, or the value that flight brought. */
  lemma AnswersComeFromSource<T>(events: seq<Event<T>>, key: string)
    ensures var s := Step(Run(events), Call(key)); var f := SourceOf(events, key);
            && f < |s.flights| && s.flights[f].key == key
            && match AnswerTo(Run(events), key)
               case Awaiting(g) => g == f
               case Cached(value) => s.flights[f].outcome == Some(Fulfilled(value))
  {
    KeptFromIsKept(events, key);
    RunKeepsInv(events);
    assert key in Run(events).inFlight ==> IsPending(Run(events), key);
  }

  /** No flight of the key has a value still to come; and none is under way at all. */
  ghost predicate NoneRunning<T>(s: State<T>, key: string) {
    forall f :: 0 <= f < |s.flights| && s.flights[f].key == key ==> s.flights[f].outcome.Some?
  }

  ghost predicate NoneUnderWay<T>(s: State<T>, key: string) {
    forall f :: 0 <= f < |s.flights| && s.flights[f].key == key ==> s.flights[f].settled
  }

  ghost function AfterInvalidation<T>(events: seq<Event<T>>, key: string, more: seq<Event<T>>): seq<Event<T>> {
    events + ([Invalidate(key)] + more)
  }

  lemma {:induction false} KeptIsNew<T>(events: seq<Event<T>>, key: string, more: seq<Event<T>>)
    requires NoneRunning(Run(events), key)
    ensures var kept := KeptFrom(AfterInvalidation(events, key, more), key);
            kept.Some? ==> |Run(events).flights| <= kept.value
  {
    var n, all := |Run(events).flights|, AfterInvalidation(events, key, more);
    hide Run, Step;
    if more == [] {
      assert all[..|all| - 1] == events && all[|all| - 1] == Invalidate(key);
    } else {
      var rest, last := more[..|more| - 1], more[|more| - 1];
      assert all[..|all| - 1] == AfterInvalidation(events, key, rest) && all[|all| - 1] == last;
      KeptIsNew(events, key, rest);
      if last.Fulfil? && last.flight < n {
        OutcomeIsFinal(events, [Invalidate(key)] + rest, last.flight);
      }
    }
  }

  lemma PendingIsNew<T>(events: seq<Event<T>>, key: string, more: seq<Event<T>>)
    requires NoneUnderWay(Run(events), key)
    ensures var s := Run(AfterInvalidation(events, key, more));
            |Run(events).flights| <= |s.flights|
            && (key in s.inFlight ==> |Run(events).flights| <= s.inFlight[key])
  {
    var s := Run(AfterInvalidation(events, key, more));
    RunKeepsInv(AfterInvalidation(events, key, more));
    hide Run, Step, Inv;
    forall f | 0 <= f < |Run(events).flights|
      ensures f < |s.flights| && s.flights[f].key == Run(events).flights[f].key
      ensures Run(events).flights[f].settled ==> s.flights[f].settled
    {
      OutcomeIsFinal(events, [Invalidate(key)] + more, f);
    }
    var n := |Run(events).flights|;
    if 0 < n { OutcomeIsFinal(events, [Invalidate(key)] + more, n - 1); }
    if key in s.inFlight {
      assert IsPending(s, key) by { PendingInInv(s, key); }
    }
  }

  lemma PendingInInv<T>(s: State<T>, key: string)
    requires Inv(s) && key in s.inFlight
    ensures IsPending(s, key)
  {
  }

  /** Whatever happens after an invalidation, no answer comes from a fetch begun before it: exactly when no fetch of
      the key was under way. */
  lemma InvalidationHoldsExactlyWhen<T>(events: seq<Event<T>>, key: string)
    ensures (forall more :: |Run(events).flights| <= SourceOf(AfterInvalidation(events, key, more), key))
            <==> NoneUnderWay(Run(events), key)
  {
    hide Inv;
    if NoneUnderWay(Run(events), key) {
      SettledHasOutcome(events, key);
      forall more
        ensures |Run(events).flights| <= SourceOf(AfterInvalidation(events, key, more), key)
      {
        KeptIsNew(events, key, more);
        PendingIsNew(events, key, more);
      }
    } else {
      var f :| 0 <= f < |Run(events).flights| && Run(events).flights[f].key == key && !Run(events).flights[f].settled;
      var all := AfterInvalidation(events, key, []);
      assert all[..|all| - 1] == events && all[|all| - 1] == Invalidate(key);
      assert Run(all).inFlight == Run(events).inFlight;
      UnsettledIsPending(events, f);
      assert SourceOf(all, key) == f;
    }
  }

  lemma SettledHasOutcome<T>(events: seq<Event<T>>, key: string)
    requires NoneUnderWay(Run(events), key)
    ensures NoneRunning(Run(events), key)
  {
    RunKeepsInv(events);
  }

  lemma UnsettledIsPending<T>(events: seq<Event<T>>, f: nat)
    requires f < |Run(events).flights| && !Run(events).flights[f].settled
    ensures var s := Run(events); s.flights[f].key in s.inFlight && s.inFlight[s.flights[f].key] == f
  {
    RunKeepsInv(events);
  }

  /** No value fetched before it is kept after it: exactly when no fetch of the key was still without its outcome. */
  lemma NothingOldIsKeptExactlyWhen<T>(events: seq<Event<T>>, key: string, value: T)
    ensures (forall more :: var kept := KeptFrom(AfterInvalidation(events, key, more), key);
                            kept.Some? ==> |Run(events).flights| <= kept.value)
            <==> NoneRunning(Run(events), key)
  {
    if NoneRunning(Run(events), key) {
      forall more
        ensures var kept := KeptFrom(AfterInvalidation(events, key, more), key);
                kept.Some? ==> |Run(events).flights| <= kept.value
      {
        KeptIsNew(events, key, more);
      }
    } else {
      var f :| 0 <= f < |Run(events).flights| && Run(events).flights[f].key == key
          && Run(events).flights[f].outcome.None?;
      InvalidationMissesTheFlight(events, f, value, 0);
      assert KeptFrom(AfterInvalidation(events, key, [Fulfil(f, value, 0)]), key) == Some(f);
    }
  }

  /** A fetch without an outcome at the invalidation puts its value in the cache after it, where calls find it. */
  lemma InvalidationMissesTheFlight<T>(events: seq<Event<T>>, f: nat, value: T, at: int)
    requires Running(Run(events), f)
    ensures var key := Run(events).flights[f].key;
            var missed := AfterInvalidation(events, key, [Fulfil(f, value, at)]);
            && KeptFrom(missed, key) == Some(f) && AnswerTo(Run(missed), key) == Cached(value)
            && AnswerTo(Run(missed + [Settle(f)]), key) == Cached(value)
  {
    var key := Run(events).flights[f].key;
    var invalid, missed := events + [Invalidate(key)], AfterInvalidation(events, key, [Fulfil(f, value, at)]);
    RunPush(events, Invalidate(key));
    RunPush(invalid, Fulfil(f, value, at));
    assert missed == invalid + [Fulfil(f, value, at)];
    assert missed[..|missed| - 1] == invalid;
    RunPush(missed, Settle(f));
  }

  /** A call starts a fetch exactly when no value of its key is kept and no fetch of it is under way. */
  lemma CallFetchesExactlyWhen<T>(events: seq<Event<T>>, key: string)
    ensures |Step(Run(events), Call(key)).flights| == |Run(events).flights| + 1
            <==> KeptFrom(events, key).None? && NoneUnderWay(Run(events), key)
  {
    KeptFromIsKept(events, key);
    RunKeepsInv(events);
    if key in Run(events).inFlight { assert IsPending(Run(events), key); }
  }

  /** A fetch that failed is over and leaves nothing behind: the next call starts another. */
  lemma FailedFetchIsTriedAgain<T>(events: seq<Event<T>>, f: nat)
    requires Running(Run(events), f)
    ensures var key := Run(events).flights[f].key;
            var s := Run(events + [Reject(f)] + [Settle(f)]);
            && AnswerTo(s, key) == Awaiting(|s.flights|)
            && Step(s, Call(key)).flights == s.flights + [Flight(key, None, false)]
  {
    var key := Run(events).flights[f].key;
    RunPush(events, Reject(f));
    RunPush(events + [Reject(f)], Settle(f));
    RunKeepsInv(events);
    NothingKeptWhileRunning(Run(events), f);
  }

  lemma NothingKeptWhileRunning<T>(s: State<T>, f: nat)
    requires Inv(s) && Running(s, f)
    ensures s.flights[f].key !in s.store
  {
    var key := s.flights[f].key;
    assert key in s.inFlight && IsPending(s, key);
    assert key in s.store ==> HoldsLatest(s, key);
  }

  lemma RunPush<T>(events: seq<Event<T>>, e: Event<T>)
    ensures Run(events + [e]) == Step(Run(events), e)
  {
    assert (events + [e])[..|events|] == events;
  }

  // ---- the class

  class RegistryRequestCache<T> {
    var store: map<string, Entry<T>>

    /** The promise of the flight that is pending for a key. */
    var inFlight: map<string, nat>

    /** The promises made so far. */
    var flights: seq<Flight<T>>

    /** Calls, outcomes and invalidations so far. */
    ghost var events: seq<Event<T>>

    /** The cache is what its events have made of it, so what holds over all runs holds of it. */
    ghost predicate Valid()
      reads this
    {
      Value() == Run(events)
    }

    ghost function Value(): State<T>
      reads this
    {
      State(store, inFlight, flights)
    }

    constructor ()
      ensures Valid() && events == []
    {
      store, inFlight, flights, events := map[], map[], [], [];
    }

    /** `starts` says that the fetcher was called for this request. */
    method GetOrFetch(key: string) returns (answer: Answer<T>, starts: bool)
      requires Valid()
      modifies this
      ensures Valid() && events == old(events) + [Call(key)]
      ensures Value() == Step(old(Value()), Call(key))
      ensures answer == AnswerTo(old(Value()), key)
      ensures starts <==> flights != old(flights)
    {
      RunPush(events, Call(key));
      hide Run;
      events := events + [Call(key)];
      starts := false;
      if key in store {
        return Cached(store[key].value), false;
      }
      if key in inFlight {
        return Awaiting(inFlight[key]), false;
      }
      var promise := |flights|;
      flights := flights + [Flight(key, None, false)];
      inFlight := inFlight[key := promise];
      return Awaiting(promise), true;
    }

    /** The fetcher's promise is fulfilled: the value is kept first. */
    method OnValue(f: nat, value: T, now: int)
      requires Valid() && Running(Value(), f)
      modifies this
      ensures Valid() && events == old(events) + [Fulfil(f, value, now)]
      ensures Value() == Step(old(Value()), Fulfil(f, value, now))
    {
      RunPush(events, Fulfil(f, value, now));
      hide Run;
      events := events + [Fulfil(f, value, now)];
      store := store[flights[f].key := Entry(value, now)];
      flights := flights[f := flights[f].(outcome := Some(Fulfilled(value)))];
    }

    method OnError(f: nat)
      requires Valid() && Running(Value(), f)
      modifies this
      ensures Valid() && events == old(events) + [Reject(f)]
      ensures Value() == Step(old(Value()), Reject(f))
    {
      RunPush(events, Reject(f));
      hide Run;
      events := events + [Reject(f)];
      flights := flights[f := flights[f].(outcome := Some(Rejected))];
    }

    /** In both cases the pending entry goes last, and then the callers are told. */
    method Finally(f: nat)
      requires Valid() && f < |flights| && flights[f].outcome.Some? && !flights[f].settled
      modifies this
      ensures Valid() && events == old(events) + [Settle(f)]
      ensures Value() == Step(old(Value()), Settle(f))
    {
      RunPush(events, Settle(f));
      hide Run;
      events := events + [Settle(f)];
      inFlight := inFlight - {flights[f].key};
      flights := flights[f := flights[f].(settled := true)];
    }

    method Invalidate(key: string)
      requires Valid()
      modifies this
      ensures Valid() && events == old(events) + [Event.Invalidate(key)]
      ensures Value() == Step(old(Value()), Event.Invalidate(key))
    {
      RunPush(events, Event.Invalidate(key));
      hide Run;
      events := events + [Event.Invalidate(key)];
      store := store - {key};
    }
  }
}
