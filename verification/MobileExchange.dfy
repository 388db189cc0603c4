/** One-time exchange codes: signed, valid for a minute, remembered once consumed, forgotten once
    expired. The clock is read twice per call, once to verify the code and once to sweep. */
module MobileExchange {
  import opened Collections

  const EXCHANGE_TOKEN_TTL_SECONDS: int := 60

  /** The claims of a code this service signed; `exp` is in seconds. */
  datatype Claims = Claims(jti: string, exp: int, userId: string, codeChallenge: string)

  /** What a caller presents: something not signed here, a token signed for another purpose, or a code. */
  datatype Presented = Forged | OtherToken(exp: int) | Code(claims: Claims)

  datatype ExchangeError = InvalidCode | ExpiredCode | WrongClaims | AlreadyUsed | VerifierMismatch

  /** Times are in milliseconds. */
  datatype Call = Call(code: Presented, verifier: string, verifyNow: int, sweepNow: int)

  /** Signature checking compares seconds. */
  predicate IsExpired(exp: int, nowMs: int) {
    exp <= nowMs / 1000
  }

  function Sweep(consumed: map<string, int>, nowMs: int): map<string, int> {
    map jti | jti in consumed && consumed[jti] > nowMs :: consumed[jti]
  }

  function ConsumeStep(consumed: map<string, int>, call: Call, s256: string -> string)
    : (map<string, int>, Result<string, ExchangeError>)
  {
    match call.code
    case Forged => (consumed, Failure(InvalidCode))
    case OtherToken(exp) => (consumed, Failure(if IsExpired(exp, call.verifyNow) then ExpiredCode else WrongClaims))
    case Code(claims) =>
      if IsExpired(claims.exp, call.verifyNow) then (consumed, Failure(ExpiredCode))
      else
        var swept := Sweep(consumed, call.sweepNow);
        if claims.jti in swept then (swept, Failure(AlreadyUsed))
        else
          (swept[claims.jti := claims.exp * 1000],
           if s256(call.verifier) != claims.codeChallenge then Failure(VerifierMismatch) else Success(claims.userId))
  }

  // ---- any sequence of calls

  function Run(calls: seq<Call>, s256: string -> string): map<string, int> {
    if calls == [] then map[]
    else ConsumeStep(Run(calls[..|calls| - 1], s256), calls[|calls| - 1], s256).0
  }

  function ResultAt(calls: seq<Call>, s256: string -> string, i: nat): Result<string, ExchangeError>
    requires i < |calls|
  {
    ConsumeStep(Run(calls[..i], s256), calls[i], s256).1
  }

  /** The call used the code up, whether or not the verifier was right. */
  predicate Burns(calls: seq<Call>, s256: string -> string, i: nat)
    requires i < |calls|
  {
    var r := ResultAt(calls, s256, i);
    r.Success? || r.error.VerifierMismatch?
  }

  /** The clock does not run backwards, within a call or between calls. */
  ghost predicate ClockRuns(calls: seq<Call>) {
    && (forall i :: 0 <= i < |calls| ==> calls[i].verifyNow <= calls[i].sweepNow)
    && (forall i, j :: 0 <= i < j < |calls| ==> calls[i].sweepNow <= calls[j].verifyNow)
  }

  /** Identifiers are random: two codes with one identifier are one code. */
  ghost predicate UniqueJtis(calls: seq<Call>) {
    forall i, j :: 0 <= i < |calls| && 0 <= j < |calls| && calls[i].code.Code? && calls[j].code.Code? ==>
      (calls[i].code.claims.jti == calls[j].code.claims.jti ==> calls[i].code == calls[j].code)
  }

  /** The two clock readings of the call fall on either side of the code's expiry. */
  predicate Straddles(call: Call) {
    call.code.Code? && call.verifyNow < call.code.claims.exp * 1000 <= call.sweepNow
  }

  lemma ExpiryInMs(exp: int, nowMs: int)
    ensures IsExpired(exp, nowMs) <==> exp * 1000 <= nowMs
  {
  }

  /** A record holds the expiry of its own code. */
  lemma {:induction false} RecordsHoldExpiry(calls: seq<Call>, s256: string -> string, n: nat, i: nat)
    requires UniqueJtis(calls) && n <= |calls| && i < |calls| && calls[i].code.Code?
    ensures var claims, consumed := calls[i].code.claims, Run(calls[..n], s256);
            claims.jti in consumed ==> consumed[claims.jti] == claims.exp * 1000
    decreases n
  {
    if n > 0 {
      assert calls[..n][..n - 1] == calls[..n - 1];
      RecordsHoldExpiry(calls, s256, n - 1, i);
    }
  }

  lemma StepKeepsRecord(consumed: map<string, int>, call: Call, s256: string -> string, jti: string)
    requires jti in consumed && call.sweepNow < consumed[jti]
    ensures jti in ConsumeStep(consumed, call, s256).0
  {
  }

  lemma BurnedIsRecorded(calls: seq<Call>, s256: string -> string, i: nat)
    requires i < |calls| && Burns(calls, s256, i)
    ensures calls[i].code.Code? && calls[i].code.claims.jti in Run(calls[..i + 1], s256)
  {
    assert calls[..i + 1][..i] == calls[..i];
  }

  /** Until some sweep reaches the expiry, the record of a burned code stays. */
  lemma {:induction false} RecordStays(calls: seq<Call>, s256: string -> string, i: nat, n: nat)
    requires UniqueJtis(calls) && ClockRuns(calls)
    requires i < n <= |calls| && Burns(calls, s256, i) && calls[i].code.Code?
    requires calls[n - 1].sweepNow < calls[i].code.claims.exp * 1000
    ensures calls[i].code.claims.jti in Run(calls[..n], s256)
    decreases n
  {
    hide ConsumeStep, Burns, UniqueJtis;
    if i == n - 1 {
      BurnedIsRecorded(calls, s256, i);
    } else {
      assert calls[..n][..n - 1] == calls[..n - 1];
      assert calls[n - 2].sweepNow <= calls[n - 1].verifyNow;
      RecordStays(calls, s256, i, n - 1);
      RecordsHoldExpiry(calls, s256, n - 1, i);
      StepKeepsRecord(Run(calls[..n - 1], s256), calls[n - 1], s256, calls[i].code.claims.jti);
    }
  }

  /** A code that was used up is accepted again exactly when the two clock readings of the later call
      fall on either side of its expiry: only then does the call's own sweep forget the record of a code
      it has just found valid. */
  lemma AcceptedAgainExactlyWhen(calls: seq<Call>, s256: string -> string, i: nat, j: nat)
    requires UniqueJtis(calls) && ClockRuns(calls)
    requires i < j < |calls| && calls[j].code == calls[i].code
    requires Burns(calls, s256, i)
    ensures Burns(calls, s256, j) <==> Straddles(calls[j])
  {
    var claims, before := calls[i].code.claims, Run(calls[..j], s256);
    ExpiryInMs(claims.exp, calls[j].verifyNow);
    RecordsHoldExpiry(calls, s256, j, i);
    if calls[j].sweepNow < claims.exp * 1000 {
      assert calls[j - 1].sweepNow <= calls[j].verifyNow;
      RecordStays(calls, s256, i, j);
    }
  }

  /** With one clock reading per call a code is used at most once, although expired records are forgotten. */
  lemma AtMostOncePerCode(calls: seq<Call>, s256: string -> string, i: nat, j: nat)
    requires UniqueJtis(calls) && ClockRuns(calls)
    requires forall k :: 0 <= k < |calls| ==> calls[k].verifyNow == calls[k].sweepNow
    requires i < j < |calls| && calls[j].code == calls[i].code
    ensures !(Burns(calls, s256, i) && Burns(calls, s256, j))
  {
    if Burns(calls, s256, i) {
      AcceptedAgainExactlyWhen(calls, s256, i, j);
    }
  }

  // ---- what a call is answered

  /** The code was presented before while it was valid, whoever presented it and with whatever verifier. */
  ghost predicate PresentedBefore(calls: seq<Call>, i: nat)
    requires i < |calls| && calls[i].code.Code?
  {
    exists j :: 0 <= j < i && calls[j].code == calls[i].code && calls[j].verifyNow < calls[i].code.claims.exp * 1000
  }

  /** Only a call that used the code up leaves a record of it. */
  lemma {:induction false} RecordedWasBurned(calls: seq<Call>, s256: string -> string, n: nat, i: nat) returns (k: nat)
    requires UniqueJtis(calls) && n <= |calls| && i < |calls| && calls[i].code.Code?
    requires calls[i].code.claims.jti in Run(calls[..n], s256)
    ensures k < n && calls[k].code == calls[i].code && Burns(calls, s256, k)
    ensures calls[k].verifyNow < calls[i].code.claims.exp * 1000
    decreases n
  {
    assert calls[..n][..n - 1] == calls[..n - 1];
    ExpiryInMs(calls[i].code.claims.exp, calls[n - 1].verifyNow);
    if calls[i].code.claims.jti in Run(calls[..n - 1], s256) {
      k := RecordedWasBurned(calls, s256, n - 1, i);
    } else {
      k := n - 1;
    }
  }

  /** A code presented before while valid was used up then or even earlier. */
  lemma PresentedWasBurned(calls: seq<Call>, s256: string -> string, i: nat) returns (k: nat)
    requires UniqueJtis(calls) && i < |calls| && calls[i].code.Code? && PresentedBefore(calls, i)
    ensures k < i && calls[k].code == calls[i].code && Burns(calls, s256, k)
  {
    var j :| 0 <= j < i && calls[j].code == calls[i].code && calls[j].verifyNow < calls[i].code.claims.exp * 1000;
    ExpiryInMs(calls[i].code.claims.exp, calls[j].verifyNow);
    if Burns(calls, s256, j) {
      k := j;
    } else {
      k := RecordedWasBurned(calls, s256, j, i);
    }
  }

  /** What a call is answered, from the calls alone: a code is exchanged for its user exactly when it is presented
      within its minute, not for a second time (unless the two clock readings straddle its expiry), and with the
      verifier its challenge was made from. */
  lemma AnswerExactlyWhen(calls: seq<Call>, s256: string -> string, i: nat)
    requires UniqueJtis(calls) && ClockRuns(calls) && i < |calls|
    ensures var call, result := calls[i], ResultAt(calls, s256, i);
            match call.code
            case Forged => result == Failure(InvalidCode)
            case OtherToken(exp) => result == Failure(if exp * 1000 <= call.verifyNow then ExpiredCode else WrongClaims)
            case Code(claims) =>
              && (result == Failure(ExpiredCode) <==> claims.exp * 1000 <= call.verifyNow)
              && (result == Failure(AlreadyUsed) <==>
                    call.verifyNow < claims.exp * 1000 && PresentedBefore(calls, i) && !Straddles(call))
              && (result == Failure(VerifierMismatch) <==>
                    && call.verifyNow < claims.exp * 1000 && (PresentedBefore(calls, i) ==> Straddles(call))
                    && s256(call.verifier) != claims.codeChallenge)
              && (result == Success(claims.userId) <==>
                    && call.verifyNow < claims.exp * 1000 && (PresentedBefore(calls, i) ==> Straddles(call))
                    && s256(call.verifier) == claims.codeChallenge)
  {
    var call, before := calls[i], Run(calls[..i], s256);
    match call.code
    case Forged =>
    case OtherToken(exp) => ExpiryInMs(exp, call.verifyNow);
    case Code(claims) =>
      ExpiryInMs(claims.exp, call.verifyNow);
      if call.verifyNow < claims.exp * 1000 {
        if PresentedBefore(calls, i) {
          var k := PresentedWasBurned(calls, s256, i);
          AcceptedAgainExactlyWhen(calls, s256, k, i);
        } else if claims.jti in before {
          var k := RecordedWasBurned(calls, s256, i, i);
        }
      }
  }

  /** The straddling call exists: a code consumed once and presented again across its expiry. */
  lemma StraddlingReplay(claims: Claims, verifier: string, s256: string -> string)
    requires s256(verifier) == claims.codeChallenge
    ensures var expMs := claims.exp * 1000;
            var calls := [Call(Code(claims), verifier, expMs - 2, expMs - 2),
                          Call(Code(claims), verifier, expMs - 1, expMs)];
            && ResultAt(calls, s256, 0) == Success(claims.userId)
            && ResultAt(calls, s256, 1) == Success(claims.userId)
  {
    var expMs := claims.exp * 1000;
    var calls := [Call(Code(claims), verifier, expMs - 2, expMs - 2), Call(Code(claims), verifier, expMs - 1, expMs)];
    ExpiryInMs(claims.exp, expMs - 2);
    ExpiryInMs(claims.exp, expMs - 1);
    assert calls[..0] == [] && calls[..1] == [calls[0]];
    assert [calls[0]][..0] == [];
  }

  lemma RunPush(calls: seq<Call>, call: Call, s256: string -> string)
    ensures Run(calls + [call], s256) == ConsumeStep(Run(calls, s256), call, s256).0
  {
    assert (calls + [call])[..|calls|] == calls;
  }

  // ---- the service

  class MobileExchangeService {
    var consumed: map<string, int>
    const s256: string -> string

    /** The calls of `Consume` so far. */
    ghost var calls: seq<Call>

    /** The records are those the calls so far have left, so what holds over all sequences of calls holds here. */
    ghost predicate Valid()
      reads this
    {
      consumed == Run(calls, s256)
    }

    constructor (s256: string -> string)
      ensures Valid() && consumed == map[] && this.s256 == s256 && calls == []
    {
      this.consumed, this.s256, this.calls := map[], s256, [];
    }

    /** `jti` is a fresh random identifier. A code is valid for a minute, to the second. */
    method Issue(userId: string, codeChallenge: string, jti: string, nowMs: int) returns (claims: Claims)
      ensures claims.jti == jti && claims.userId == userId && claims.codeChallenge == codeChallenge
      ensures forall t :: nowMs <= t < nowMs + EXCHANGE_TOKEN_TTL_SECONDS * 1000 - 999 ==> !IsExpired(claims.exp, t)
      ensures forall t :: nowMs + EXCHANGE_TOKEN_TTL_SECONDS * 1000 <= t ==> IsExpired(claims.exp, t)
    {
      claims := Claims(jti, nowMs / 1000 + EXCHANGE_TOKEN_TTL_SECONDS, userId, codeChallenge);
    }

    method SweepExpired(nowMs: int)
      modifies this`consumed
      ensures consumed == Sweep(old(consumed), nowMs)
    {
      var todo := consumed.Keys;
      while todo != {}
        decreases |todo|
        invariant todo <= old(consumed).Keys
        invariant forall jti :: jti in consumed <==>
                    jti in old(consumed) && (jti in todo || old(consumed)[jti] > nowMs)
        invariant forall jti :: jti in consumed ==> consumed[jti] == old(consumed)[jti]
      {
        var jti :| jti in todo;
        if jti in consumed && consumed[jti] <= nowMs {
          consumed := consumed - {jti};
        }
        todo := todo - {jti};
      }
    }

    method Consume(call: Call) returns (result: Result<string, ExchangeError>)
      requires Valid()
      modifies this`consumed, this`calls
      ensures Valid() && calls == old(calls) + [call]
      ensures (consumed, result) == ConsumeStep(old(consumed), call, s256)
    {
      RunPush(calls, call, s256);
      hide Run;
      calls := calls + [call];
      match call.code {
        case Forged => return Failure(InvalidCode);
        case OtherToken(exp) =>
          if IsExpired(exp, call.verifyNow) {
            return Failure(ExpiredCode);
          }
          return Failure(WrongClaims);
        case Code(claims) =>
          if IsExpired(claims.exp, call.verifyNow) {
            return Failure(ExpiredCode);
          }
          SweepExpired(call.sweepNow);
          if claims.jti in consumed {
            return Failure(AlreadyUsed);
          }
          consumed := consumed[claims.jti := claims.exp * 1000];
          if s256(call.verifier) != claims.codeChallenge {
            return Failure(VerifierMismatch);
          }
          return Success(claims.userId);
      }
    }
  }
}
