/** Refresh-token rotation: the token table under issue, refresh, logout and account deletion. Each
    transaction is one step; the application's clock and the database's are read separately. */
module RefreshTokens {
  import opened Collections

  type Hash = string

  type Family = string

  const REFRESH_ROTATION_GRACE_MS: int := 10_000

  const REFRESH_TOKEN_TTL_MS: int := 14 * 24 * 60 * 60 * 1000

  datatype Row = Row(userId: string, familyId: Family, expiresAt: int, revokedAt: Option<int>)

  /** The table keyed by its unique token hash. */
  type Table = map<Hash, Row>

  /** The table, and every hash and family that was ever drawn. */
  datatype State = State(tokens: Table, issued: set<Hash>, families: set<Family>)

  /** Where, if anywhere, a statement of the transaction throws. */
  datatype Fault = NoFault | OnFind | OnRevoke | OnIssue | OnInsert | OnAccessToken | OnCommit

  /** `raceNow`, `expiryNow` and `insertNow` are readings of the application's clock, `dbNow` of the database's. */
  datatype Op =
    | IssueSession(userId: string, familyId: Family, newHash: Hash, insertNow: int)
    | Refresh(signed: bool, hash: Hash, newHash: Hash, raceNow: int, expiryNow: int, insertNow: int, dbNow: int,
        fault: Fault)
    | Logout(signed: bool, hash: Hash, dbNow: int, fault: Fault)
    | DeleteAccount(userId: string)

  datatype Outcome = Ok(newHash: Hash) | Done | BadSignature | NotFound | Raced | Reused | Expired | Crashed

  function RevokeToken(t: Table, hash: Hash, now: int): Table {
    if hash in t && t[hash].revokedAt.None? then t[hash := t[hash].(revokedAt := Some(now))] else t
  }

  function RevokeFamily(t: Table, familyId: Family, now: int): Table {
    map h | h in t ::
      if t[h].familyId == familyId && t[h].revokedAt.None? then t[h].(revokedAt := Some(now)) else t[h]
  }

  function DeleteUser(t: Table, userId: string): Table {
    map h | h in t && t[h].userId != userId :: t[h]
  }

  /** The transaction of a refresh: the table it would commit and its outcome, or a crash that rolls back. */
  function RefreshStep(t: Table, op: Op): (Table, Outcome)
    requires op.Refresh?
  {
    if !op.signed then (t, BadSignature)
    else if op.fault.OnFind? || op.fault.OnCommit? then (t, Crashed)
    else if op.hash !in t then (t, NotFound)
    else
      var row := t[op.hash];
      if row.revokedAt.Some? then
        if op.raceNow - row.revokedAt.value <= REFRESH_ROTATION_GRACE_MS then (t, Raced)
        else if op.fault.OnRevoke? then (t, Crashed)
        else (RevokeFamily(t, row.familyId, op.dbNow), Reused)
      else if row.expiresAt <= op.expiryNow then (t, Expired)
      else if !op.fault.NoFault? || op.newHash in t then (t, Crashed)
      else
        (RevokeToken(t, op.hash, op.dbNow)[
           op.newHash := Row(row.userId, row.familyId, op.insertNow + REFRESH_TOKEN_TTL_MS, None)],
         Ok(op.newHash))
  }

  function LogoutStep(t: Table, op: Op): (Table, Outcome)
    requires op.Logout?
  {
    if !op.signed then (t, BadSignature)
    else if op.fault.OnFind? || op.fault.OnCommit? then (t, Crashed)
    else if op.hash !in t then (t, NotFound)
    else if op.fault.OnRevoke? then (t, Crashed)
    else (RevokeFamily(t, t[op.hash].familyId, op.dbNow), Done)
  }

  function Step(s: State, op: Op): (State, Outcome) {
    match op
    case IssueSession(userId, familyId, newHash, insertNow) =>
      if newHash in s.tokens then (s, Crashed)
      else
        (State(s.tokens[newHash := Row(userId, familyId, insertNow + REFRESH_TOKEN_TTL_MS, None)],
               s.issued + {newHash}, s.families + {familyId}),
         Ok(newHash))
    case Refresh(_, _, _, _, _, _, _, _) =>
      var (t, outcome) := RefreshStep(s.tokens, op);
      (State(t, if outcome.Ok? then s.issued + {op.newHash} else s.issued, s.families), outcome)
    case Logout(_, _, _, _) =>
      var (t, outcome) := LogoutStep(s.tokens, op);
      (s.(tokens := t), outcome)
    case DeleteAccount(userId) =>
      (s.(tokens := DeleteUser(s.tokens, userId)), Done)
  }

  function Run(s: State, ops: seq<Op>): State {
    if ops == [] then s else Step(Run(s, ops[..|ops| - 1]), ops[|ops| - 1]).0
  }

  function OutcomeAt(s: State, ops: seq<Op>, i: nat): Outcome
    requires i < |ops|
  {
    Step(Run(s, ops[..i]), ops[i]).1
  }

  /** Hashes and families are random: one that is drawn was not drawn before. */
  ghost predicate IsFresh(s: State, op: Op) {
    && (op.IssueSession? ==> op.newHash !in s.issued && op.familyId !in s.families)
    && (op.Refresh? ==> op.newHash !in s.issued)
  }

  ghost predicate AllFresh(s: State, ops: seq<Op>) {
    forall i :: 0 <= i < |ops| ==> IsFresh(Run(s, ops[..i]), ops[i])
  }

  // ---- what every reachable table keeps

  predicate IsActive(t: Table, h: Hash) {
    h in t && t[h].revokedAt.None?
  }

  ghost predicate Inv(s: State) {
    && (forall h, k ::
          IsActive(s.tokens, h) && IsActive(s.tokens, k) && s.tokens[h].familyId == s.tokens[k].familyId ==> h == k)
    && (forall h :: h in s.tokens ==> h in s.issued && s.tokens[h].familyId in s.families)
  }

  /** A step only revokes or deletes rows, except for the one row a session or a rotation adds. */
  lemma StepShape(s: State, op: Op, h: Hash)
    requires IsFresh(s, op)
    ensures var (s', outcome) := Step(s, op);
            && s.issued <= s'.issued && s.families <= s'.families
            && (h in s'.tokens && outcome != Ok(h) ==>
                  h in s.tokens && s'.tokens[h].familyId == s.tokens[h].familyId
                  && (IsActive(s'.tokens, h) ==> IsActive(s.tokens, h)))
            && (outcome == Ok(h) ==>
                  && h in s'.tokens && h in s'.issued
                  && (op.IssueSession? ==> s'.tokens[h].familyId == op.familyId && op.familyId in s'.families)
                  && (op.Refresh? ==>
                        && IsActive(s.tokens, op.hash) && !IsActive(s'.tokens, op.hash)
                        && s'.tokens[h].familyId == s.tokens[op.hash].familyId))
            && (outcome.Ok? ==> op.IssueSession? || op.Refresh?)
  {
  }

  lemma StepKeepsInv(s: State, op: Op)
    requires Inv(s) && IsFresh(s, op)
    ensures Inv(Step(s, op).0)
  {
    var s' := Step(s, op).0;
    hide Step;
    forall h | h in s'.tokens
      ensures h in s'.issued && s'.tokens[h].familyId in s'.families
    {
      StepShape(s, op, h);
    }
    forall h, k | IsActive(s'.tokens, h) && IsActive(s'.tokens, k) && s'.tokens[h].familyId == s'.tokens[k].familyId
      ensures h == k
    {
      StepShape(s, op, h);
      StepShape(s, op, k);
    }
  }

  /** A token that cannot be used again: revoked, or gone. */
  ghost predicate IsSpent(s: State, h: Hash) {
    h in s.issued && !IsActive(s.tokens, h)
  }

  /** A family without an active token. */
  ghost predicate IsDead(s: State, f: Family) {
    f in s.families && forall h :: IsActive(s.tokens, h) ==> s.tokens[h].familyId != f
  }

  lemma StepIsMonotone(s: State, op: Op, h: Hash, f: Family)
    requires Inv(s) && IsFresh(s, op)
    ensures var s' := Step(s, op).0;
            && (h in s.tokens && s.tokens[h].revokedAt.Some? && h in s'.tokens ==>
                  s'.tokens[h].revokedAt == s.tokens[h].revokedAt)
            && (h in s.tokens && h in s'.tokens ==>
                  s'.tokens[h] == s.tokens[h].(revokedAt := s'.tokens[h].revokedAt))
            && (h in s.issued && h !in s.tokens ==> h !in s'.tokens)
            && (IsSpent(s, h) ==> IsSpent(s', h))
            && (IsDead(s, f) ==> IsDead(s', f))
            && s.issued <= s'.issued
  {
  }

  lemma {:induction false} RunKeepsInv(s: State, ops: seq<Op>)
    requires Inv(s) && AllFresh(s, ops)
    ensures Inv(Run(s, ops))
  {
    if ops != [] {
      var n := |ops| - 1;
      assert forall i :: 0 <= i <= n ==> ops[..n][..i] == ops[..i];
      RunKeepsInv(s, ops[..n]);
      StepKeepsInv(Run(s, ops[..n]), ops[n]);
    }
  }

  const EMPTY: State := State(map[], {}, {})

  /** In every reachable table each family has at most one token that is not revoked. */
  lemma OneActivePerFamily(ops: seq<Op>, h: Hash, k: Hash)
    requires AllFresh(EMPTY, ops)
    ensures var t := Run(EMPTY, ops).tokens;
            IsActive(t, h) && IsActive(t, k) && t[h].familyId == t[k].familyId ==> h == k
  {
    RunKeepsInv(EMPTY, ops);
  }

  /** From `i` operations on to `j`: what is revoked stays revoked at the same time, what is spent stays
      spent, what is dead stays dead. */
  lemma {:induction false} RunIsMonotone(s: State, ops: seq<Op>, i: nat, j: nat, h: Hash, f: Family)
    requires Inv(s) && AllFresh(s, ops) && i <= j <= |ops|
    ensures var a, b := Run(s, ops[..i]), Run(s, ops[..j]);
            && (h in a.tokens && a.tokens[h].revokedAt.Some? && h in b.tokens ==>
                  b.tokens[h].revokedAt == a.tokens[h].revokedAt)
            && (h in a.issued && h !in a.tokens ==> h !in b.tokens)
            && (IsSpent(a, h) ==> IsSpent(b, h))
            && (IsDead(a, f) ==> IsDead(b, f))
            && a.issued <= b.issued
    decreases j
  {
    hide Step, Inv, IsFresh;
    if i < j {
      RunIsMonotone(s, ops, i, j - 1, h, f);
      RunUpTo(s, ops, i);
      RunUpTo(s, ops, j - 1);
      IssuedBefore(Run(s, ops[..i]), h);
      assert Run(s, ops[..j]) == Step(Run(s, ops[..j - 1]), ops[j - 1]).0 by {
        assert ops[..j][..j - 1] == ops[..j - 1];
      }
      hide Run, IsSpent, IsDead;
      StepIsMonotone(Run(s, ops[..j - 1]), ops[j - 1], h, f);
    }
  }

  lemma RunUpTo(s: State, ops: seq<Op>, k: nat)
    requires Inv(s) && AllFresh(s, ops) && k <= |ops|
    ensures Inv(Run(s, ops[..k]))
  {
    var before := ops[..k];
    assert forall n :: 0 <= n < k ==> before[..n] == ops[..n] && before[n] == ops[n];
    RunKeepsInv(s, before);
  }

  lemma IssuedBefore(s: State, h: Hash)
    requires Inv(s)
    ensures h in s.tokens ==> h in s.issued
  {
  }

  /** `revoked_at`, once set, is never changed. */
  lemma RevokedAtIsFinal(ops: seq<Op>, i: nat, j: nat, h: Hash)
    requires AllFresh(EMPTY, ops) && i <= j <= |ops|
    ensures var a, b := Run(EMPTY, ops[..i]).tokens, Run(EMPTY, ops[..j]).tokens;
            h in a && a[h].revokedAt.Some? && h in b ==> b[h].revokedAt == a[h].revokedAt
  {
    RunIsMonotone(EMPTY, ops, i, j, h, "");
  }

  /** Each token yields at most one successor: of all refreshes with one token, at most one succeeds. */
  lemma OneSuccessorPerToken(ops: seq<Op>, i: nat, j: nat)
    requires AllFresh(EMPTY, ops) && i < j < |ops|
    requires ops[i].Refresh? && ops[j].Refresh? && ops[i].hash == ops[j].hash
    requires OutcomeAt(EMPTY, ops, i).Ok?
    ensures !OutcomeAt(EMPTY, ops, j).Ok?
  {
    var h := ops[i].hash;
    RunUpTo(EMPTY, ops, i);
    assert ops[..i + 1][..i] == ops[..i];
    RotationReplaces(Run(EMPTY, ops[..i]), ops[i]);
    assert IsSpent(Run(EMPTY, ops[..i + 1]), h);
    RunIsMonotone(EMPTY, ops, i + 1, j, h, "");
    SpentIsRefused(Run(EMPTY, ops[..j]), ops[j]);
  }

  lemma SpentIsRefused(s: State, op: Op)
    requires op.Refresh? && IsSpent(s, op.hash)
    ensures !Step(s, op).1.Ok?
  {
  }

  /** Rotation: the old token is revoked, its one successor has its family and user, nothing else changes. */
  lemma RotationReplaces(s: State, op: Op)
    requires Inv(s) && IsFresh(s, op) && op.Refresh? && Step(s, op).1.Ok?
    ensures var t, t' := s.tokens, Step(s, op).0.tokens;
            && IsActive(t, op.hash) && op.expiryNow < t[op.hash].expiresAt
            && t'.Keys == t.Keys + {op.newHash} && op.newHash !in t
            && t'[op.hash] == t[op.hash].(revokedAt := Some(op.dbNow))
            && IsActive(t', op.newHash)
            && t'[op.newHash].userId == t[op.hash].userId && t'[op.newHash].familyId == t[op.hash].familyId
            && forall h :: h in t && h != op.hash ==> t'[h] == t[h]
  {
  }

  /** A late replay and a logout both kill the family of the token. */
  lemma ReplayOrLogoutKillsFamily(s: State, op: Op)
    requires Inv(s)
    requires (op.Refresh? && Step(s, op).1.Reused?) || (op.Logout? && Step(s, op).1.Done?)
    ensures op.hash in s.tokens && IsDead(Step(s, op).0, s.tokens[op.hash].familyId)
  {
  }

  /** A dead family never has a successful refresh again. */
  lemma DeadFamilyNeverRefreshes(ops: seq<Op>, i: nat, j: nat, f: Family)
    requires AllFresh(EMPTY, ops) && i <= j < |ops|
    requires IsDead(Run(EMPTY, ops[..i]), f)
    requires ops[j].Refresh?
    ensures var s := Run(EMPTY, ops[..j]);
            ops[j].hash in s.tokens && s.tokens[ops[j].hash].familyId == f ==> !OutcomeAt(EMPTY, ops, j).Ok?
    ensures IsDead(Run(EMPTY, ops[..j]), f)
  {
    RunIsMonotone(EMPTY, ops, i, j, "", f);
  }

  /** Late replay and logout end a session: afterwards no token of the family is active, and no refresh with one
      succeeds. */
  lemma EndedSessionNeverRefreshes(ops: seq<Op>, i: nat, j: nat)
    requires AllFresh(EMPTY, ops) && i < j < |ops|
    requires (ops[i].Refresh? && OutcomeAt(EMPTY, ops, i).Reused?) || (ops[i].Logout? && OutcomeAt(EMPTY, ops, i).Done?)
    ensures ops[i].hash in Run(EMPTY, ops[..i]).tokens
    ensures var family, s := Run(EMPTY, ops[..i]).tokens[ops[i].hash].familyId, Run(EMPTY, ops[..j]);
            && (forall h :: IsActive(s.tokens, h) ==> s.tokens[h].familyId != family)
            && (ops[j].Refresh? && ops[j].hash in s.tokens && s.tokens[ops[j].hash].familyId == family ==>
                  !OutcomeAt(EMPTY, ops, j).Ok?)
  {
    hide Step, Inv, IsFresh, AllFresh, IsDead;
    var before := Run(EMPTY, ops[..i]);
    EmptyIsConsistent();
    RunUpTo(EMPTY, ops, i);
    ReplayOrLogoutKillsFamily(before, ops[i]);
    assert ops[..i + 1][..i] == ops[..i];
    var family := before.tokens[ops[i].hash].familyId;
    RunIsMonotone(EMPTY, ops, i + 1, j, "", family);
    DeadHasNoActive(Run(EMPTY, ops[..j]), family);
    if ops[j].Refresh? {
      DeadFamilyNeverRefreshes(ops, i + 1, j, family);
    }
  }

  lemma EmptyIsConsistent()
    ensures Inv(EMPTY)
  {
  }

  lemma DeadHasNoActive(s: State, f: Family)
    requires IsDead(s, f)
    ensures forall h :: IsActive(s.tokens, h) ==> s.tokens[h].familyId != f
  {
  }

  /** A rotated token that comes back is a race exactly within the grace period of its rotation, whatever was done
      in between, and then nothing changes; after it, it ends the session. */
  lemma ReplayAfterRotation(ops: seq<Op>, i: nat, j: nat)
    requires AllFresh(EMPTY, ops) && i < j < |ops|
    requires ops[i].Refresh? && ops[j].Refresh? && ops[i].hash == ops[j].hash && OutcomeAt(EMPTY, ops, i).Ok?
    requires ops[j].signed && ops[j].fault.NoFault? && ops[j].hash in Run(EMPTY, ops[..j]).tokens
    ensures var late := ops[j].raceNow - ops[i].dbNow > REFRESH_ROTATION_GRACE_MS;
            && OutcomeAt(EMPTY, ops, j) == (if late then Reused else Raced)
            && (!late ==> Run(EMPTY, ops[..j + 1]) == Run(EMPTY, ops[..j]))
  {
    hide Step, Inv, IsFresh, AllFresh;
    RotatedAt(ops, i);
    RevokedAtIsFinal(ops, i + 1, j, ops[i].hash);
    FoundRevoked(Run(EMPTY, ops[..j]), ops[j]);
    assert ops[..j + 1][..j] == ops[..j];
  }

  lemma RotatedAt(ops: seq<Op>, i: nat)
    requires AllFresh(EMPTY, ops) && i < |ops| && ops[i].Refresh? && OutcomeAt(EMPTY, ops, i).Ok?
    ensures var t := Run(EMPTY, ops[..i + 1]).tokens;
            ops[i].hash in t && t[ops[i].hash].revokedAt == Some(ops[i].dbNow)
  {
    RunUpTo(EMPTY, ops, i);
    assert IsFresh(Run(EMPTY, ops[..i]), ops[i]);
    assert ops[..i + 1][..i] == ops[..i];
    hide AllFresh;
    RotationReplaces(Run(EMPTY, ops[..i]), ops[i]);
  }

  lemma FoundRevoked(s: State, op: Op)
    requires op.Refresh? && op.signed && op.fault.NoFault?
    requires op.hash in s.tokens && s.tokens[op.hash].revokedAt.Some?
    ensures var late := op.raceNow - s.tokens[op.hash].revokedAt.value > REFRESH_ROTATION_GRACE_MS;
            && Step(s, op).1 == (if late then Reused else Raced)
            && (!late ==> Step(s, op).0 == s)
  {
  }

  lemma RunPush(s: State, ops: seq<Op>, op: Op)
    ensures Run(s, ops + [op]) == Step(Run(s, ops), op).0
  {
    assert (ops + [op])[..|ops|] == ops;
  }

  // ---- the service

  class AuthService {
    var tokens: Table
    ghost var issued: set<Hash>
    ghost var families: set<Family>

    /** Everything that was done to the table so far. */
    ghost var history: seq<Op>

    /** The table is the one its history leads to, so what holds over all runs holds of it. */
    ghost predicate Valid()
      reads this
    {
      Snapshot() == Run(EMPTY, history)
    }

    ghost function Snapshot(): State
      reads this
    {
      State(tokens, issued, families)
    }

    constructor ()
      ensures Valid() && Snapshot() == EMPTY && history == []
    {
      tokens, issued, families, history := map[], {}, {}, [];
    }

    method Issue(userId: string, familyId: Family, newHash: Hash, insertNow: int) returns (outcome: Outcome)
      requires Valid()
      modifies this
      ensures Valid() && history == old(history) + [IssueSession(userId, familyId, newHash, insertNow)]
      ensures (Snapshot(), outcome) == Step(old(Snapshot()), IssueSession(userId, familyId, newHash, insertNow))
    {
      ghost var op := IssueSession(userId, familyId, newHash, insertNow);
      RunPush(EMPTY, history, op);
      hide Run;
      history := history + [op];
      if newHash in tokens {
        return Crashed;
      }
      tokens := tokens[newHash := Row(userId, familyId, insertNow + REFRESH_TOKEN_TTL_MS, None)];
      issued, families := issued + {newHash}, families + {familyId};
      outcome := Ok(newHash);
    }

    /** The body of the refresh transaction, statement by statement; None is a throw. */
    method RefreshBody(hash: Hash, newHash: Hash, raceNow: int, expiryNow: int, insertNow: int, dbNow: int,
                       fault: Fault)
      returns (outcome: Option<Outcome>)
      modifies this`tokens
      ensures outcome.Some? && !fault.OnCommit? ==>
                (tokens, outcome.value)
                == RefreshStep(old(tokens), Refresh(true, hash, newHash, raceNow, expiryNow, insertNow, dbNow, fault))
      ensures outcome.None? ==>
                RefreshStep(old(tokens), Refresh(true, hash, newHash, raceNow, expiryNow, insertNow, dbNow, fault))
                == (old(tokens), Crashed)
    {
      if fault.OnFind? {
        return None;
      }
      if hash !in tokens {
        return Some(NotFound);
      }
      var row := tokens[hash];
      if row.revokedAt.Some? {
        if raceNow - row.revokedAt.value <= REFRESH_ROTATION_GRACE_MS {
          return Some(Raced);
        }
        if fault.OnRevoke? {
          return None;
        }
        tokens := RevokeFamily(tokens, row.familyId, dbNow);
        return Some(Reused);
      }
      if row.expiresAt <= expiryNow {
        return Some(Expired);
      }
      if fault.OnRevoke? {
        return None;
      }
      tokens := RevokeToken(tokens, hash, dbNow);
      if fault.OnIssue? || fault.OnInsert? || newHash in tokens {
        return None;
      }
      tokens := tokens[newHash := Row(row.userId, row.familyId, insertNow + REFRESH_TOKEN_TTL_MS, None)];
      if fault.OnAccessToken? {
        return None;
      }
      outcome := Some(Ok(newHash));
    }

    /** Commits what the body did, or rolls back to the table before it. */
    method RefreshSession(signed: bool, hash: Hash, newHash: Hash, raceNow: int, expiryNow: int, insertNow: int,
                          dbNow: int, fault: Fault)
      returns (outcome: Outcome)
      requires Valid()
      modifies this
      ensures Valid()
      ensures history
              == old(history) + [Refresh(signed, hash, newHash, raceNow, expiryNow, insertNow, dbNow, fault)]
      ensures (Snapshot(), outcome)
              == Step(old(Snapshot()), Refresh(signed, hash, newHash, raceNow, expiryNow, insertNow, dbNow, fault))
    {
      ghost var op := Refresh(signed, hash, newHash, raceNow, expiryNow, insertNow, dbNow, fault);
      RunPush(EMPTY, history, op);
      hide Run;
      history := history + [op];
      if !signed {
        return BadSignature;
      }
      var saved := tokens;
      var body := RefreshBody(hash, newHash, raceNow, expiryNow, insertNow, dbNow, fault);
      if body.None? || fault.OnCommit? {
        tokens := saved;
        return Crashed;
      }
      outcome := body.value;
      if outcome.Ok? {
        issued := issued + {newHash};
      }
    }

    method LogoutSession(signed: bool, hash: Hash, dbNow: int, fault: Fault) returns (outcome: Outcome)
      requires Valid()
      modifies this`tokens, this`history
      ensures Valid() && history == old(history) + [Logout(signed, hash, dbNow, fault)]
      ensures (Snapshot(), outcome) == Step(old(Snapshot()), Logout(signed, hash, dbNow, fault))
    {
      RunPush(EMPTY, history, Logout(signed, hash, dbNow, fault));
      hide Run;
      history := history + [Logout(signed, hash, dbNow, fault)];
      if !signed {
        return BadSignature;
      }
      var saved := tokens;
      if fault.OnFind? {
        return Crashed;
      }
      if hash in tokens {
        if fault.OnRevoke? {
          return Crashed;
        }
        tokens := RevokeFamily(tokens, tokens[hash].familyId, dbNow);
      }
      if fault.OnCommit? {
        tokens := saved;
        return Crashed;
      }
      outcome := if hash in saved then Done else NotFound;
    }

    method RemoveAccount(userId: string)
      requires Valid()
      modifies this`tokens, this`history
      ensures Valid() && history == old(history) + [DeleteAccount(userId)]
      ensures Snapshot() == Step(old(Snapshot()), DeleteAccount(userId)).0
    {
      RunPush(EMPTY, history, DeleteAccount(userId));
      hide Run;
      history := history + [DeleteAccount(userId)];
      tokens := DeleteUser(tokens, userId);
    }
  }
}
