/** The life of a refresh token over any run: who it belongs to, how long it is good, what ends it, and what a refresh
    with it is answered. */
module Sessions {
  import opened Collections
  import opened RefreshTokens

  const FOURTEEN_DAYS_MS: int := 1_209_600_000

  const TEN_SECONDS_MS: int := 10_000

  // ---- one operation

  /** The operation ends the session that token `h` belongs to, or rotates `h` itself. */
  ghost predicate Ends(s: State, op: Op, h: Hash)
    requires h in s.tokens
  {
    var outcome := Step(s, op).1;
    || (op.Refresh? && outcome.Ok? && op.hash == h)
    || (((op.Refresh? && outcome.Reused?) || (op.Logout? && outcome.Done?))
        && op.hash in s.tokens && s.tokens[op.hash].familyId == s.tokens[h].familyId)
  }

  /** What one operation does to one row: only the deletion of its own account removes it, nothing changes in it but the
      revocation time, and that is set exactly when it was open and the operation ends the token. */
  lemma RowAfter(s: State, op: Op, h: Hash)
    requires Inv(s) && IsFresh(s, op) && h in s.tokens
    ensures var t, t' := s.tokens, Step(s, op).0.tokens;
            && (h in t' <==> op != DeleteAccount(t[h].userId))
            && (h in t' ==>
                  && t'[h] == t[h].(revokedAt := t'[h].revokedAt)
                  && (t[h].revokedAt.Some? ==> t'[h].revokedAt == t[h].revokedAt)
                  && (t[h].revokedAt.None? && Ends(s, op, h) ==> t'[h].revokedAt == Some(op.dbNow))
                  && (t[h].revokedAt.None? && !Ends(s, op, h) ==> t'[h].revokedAt == None))
  {
  }

  /** A transaction that throws, and one that is refused, leaves the table as it was. */
  lemma RollsBack(s: State, op: Op)
    requires var outcome := Step(s, op).1; !outcome.Ok? && !outcome.Reused? && !outcome.Done?
    ensures Step(s, op).0.tokens == s.tokens
  {
  }

  /** Where no statement throws, a logout ends the session of every token that is stored, and an unsigned one none. */
  lemma LogoutIsDoneExactlyWhen(s: State, op: Op)
    requires op.Logout? && op.fault.NoFault?
    ensures Step(s, op).1.Done? <==> op.signed && op.hash in s.tokens
    ensures Step(s, op).1.NotFound? <==> op.signed && op.hash !in s.tokens
  {
  }

  /** Where no statement throws and the new hash is not taken: what a refresh is answered. */
  lemma RefreshIsAnswered(s: State, op: Op)
    requires op.Refresh? && op.fault.NoFault? && op.newHash !in s.tokens
    ensures var t, outcome := s.tokens, Step(s, op).1;
            && (outcome.BadSignature? <==> !op.signed)
            && (outcome.NotFound? <==> op.signed && op.hash !in t)
            && (op.signed && op.hash in t && t[op.hash].revokedAt.Some? ==>
                  outcome == if op.raceNow - t[op.hash].revokedAt.value <= TEN_SECONDS_MS then Raced else Reused)
            && (op.signed && op.hash in t && t[op.hash].revokedAt.None? ==>
                  outcome == if op.expiryNow < t[op.hash].expiresAt then Ok(op.newHash) else Expired)
  {
  }

  // ---- the row a token is born with

  /** A token is good for fourteen days from the reading of the clock at its insertion; that of a new session belongs
      to the user and the family drawn for it, a successor to those of the token it replaces. */
  lemma BornFor(ops: seq<Op>, i: nat, h: Hash)
    requires AllFresh(EMPTY, ops) && i < |ops| && OutcomeAt(EMPTY, ops, i) == Ok(h)
    ensures ops[i].IssueSession? || ops[i].Refresh?
    ensures var t, t' := Run(EMPTY, ops[..i]).tokens, Run(EMPTY, ops[..i + 1]).tokens;
            && h !in t && h in t' && t'[h].revokedAt.None?
            && t'[h].expiresAt == ops[i].insertNow + FOURTEEN_DAYS_MS
            && (ops[i].IssueSession? ==> t'[h].userId == ops[i].userId && t'[h].familyId == ops[i].familyId)
            && (ops[i].Refresh? ==>
                  && ops[i].hash in t
                  && t'[h].userId == t[ops[i].hash].userId && t'[h].familyId == t[ops[i].hash].familyId)
  {
    assert ops[..i + 1][..i] == ops[..i];
  }

  /** No operation between `i` and `j` ends the token or deletes its account. */
  ghost predicate StaysOpen(ops: seq<Op>, i: nat, j: nat, h: Hash)
    requires i < j <= |ops|
  {
    h in Run(EMPTY, ops[..i + 1]).tokens && forall k :: i < k < j ==>
      && ops[k] != DeleteAccount(Run(EMPTY, ops[..i + 1]).tokens[h].userId)
      && (h in Run(EMPTY, ops[..k]).tokens ==> !Ends(Run(EMPTY, ops[..k]), ops[k], h))
  }

  /** From its birth on the row of a token is there exactly until its account is deleted, keeps its user, family and
      expiry, and is open exactly as long as nothing ended it. */
  lemma {:induction false} RowSinceBirth(ops: seq<Op>, i: nat, j: nat, h: Hash)
    requires AllFresh(EMPTY, ops) && i < j <= |ops| && OutcomeAt(EMPTY, ops, i) == Ok(h)
    ensures h in Run(EMPTY, ops[..i + 1]).tokens && h in Run(EMPTY, ops[..j]).issued
    ensures var t, t' := Run(EMPTY, ops[..i + 1]).tokens, Run(EMPTY, ops[..j]).tokens;
            && (h in t' <==> forall k :: i < k < j ==> ops[k] != DeleteAccount(t[h].userId))
            && (h in t' ==> t'[h] == t[h].(revokedAt := t'[h].revokedAt))
            && (IsActive(t', h) <==> StaysOpen(ops, i, j, h))
    decreases j
  {
    hide Step, Run, AllFresh, Inv, IsFresh, Ends;
    BornFor(ops, i, h);
    LastStep(ops, i + 1);
    if j == i + 1 {
      IssuedBefore(Run(EMPTY, ops[..j]), h);
    } else {
      RowSinceBirth(ops, i, j - 1, h);
      LastStep(ops, j);
      RowStep(Run(EMPTY, ops[..j - 1]), ops[j - 1], h);
    }
  }

  lemma LastStep(ops: seq<Op>, j: nat)
    requires AllFresh(EMPTY, ops) && 0 < j <= |ops|
    ensures var s := Run(EMPTY, ops[..j - 1]);
            && Inv(s) && IsFresh(s, ops[j - 1])
            && Run(EMPTY, ops[..j]) == Step(s, ops[j - 1]).0 && Inv(Run(EMPTY, ops[..j]))
  {
    hide Step, Inv, IsFresh;
    EmptyIsConsistent();
    RunUpTo(EMPTY, ops, j - 1);
    RunUpTo(EMPTY, ops, j);
    assert ops[..j][..j - 1] == ops[..j - 1];
  }

  lemma RowStep(s: State, op: Op, h: Hash)
    requires Inv(s) && IsFresh(s, op) && h in s.issued
    ensures var t, t' := s.tokens, Step(s, op).0.tokens;
            && h in Step(s, op).0.issued
            && (h in t' <==> h in t && op != DeleteAccount(t[h].userId))
            && (h in t' ==> t'[h] == t[h].(revokedAt := t'[h].revokedAt))
            && (IsActive(t', h) <==> IsActive(t, h) && !Ends(s, op, h) && op != DeleteAccount(t[h].userId))
  {
    StepIsMonotone(s, op, h, "");
    if h in s.tokens { RowAfter(s, op, h); }
  }

  /** A token that is presented while nothing has ended it is answered with a successor exactly within fourteen days of
      its birth, and with expiry after that. */
  lemma OpenTokenRefreshesExactlyWhen(ops: seq<Op>, i: nat, j: nat, h: Hash)
    requires AllFresh(EMPTY, ops) && i < j < |ops| && OutcomeAt(EMPTY, ops, i) == Ok(h) && StaysOpen(ops, i, j, h)
    requires ops[j].Refresh? && ops[j].signed && ops[j].fault.NoFault? && ops[j].hash == h
    requires ops[j].newHash !in Run(EMPTY, ops[..j]).tokens
    ensures ops[i].IssueSession? || ops[i].Refresh?
    ensures OutcomeAt(EMPTY, ops, j)
            == if ops[j].expiryNow < ops[i].insertNow + FOURTEEN_DAYS_MS then Ok(ops[j].newHash) else Expired
  {
    hide Step, Run, AllFresh, Inv, IsFresh, Ends;
    BornFor(ops, i, h);
    RowSinceBirth(ops, i, j, h);
    RefreshIsAnswered(Run(EMPTY, ops[..j]), ops[j]);
  }

  /** A session that nothing ends goes on refreshing: issued once, then refreshed at any time within fourteen days of
      the last time, it is answered with a successor every time. */
  lemma SessionLives(userId: string, family: Family, first: Hash, second: Hash, third: Hash, start: int, middle: int,
                     later: int)
    requires first != second && second != third && first != third
    requires start <= middle < start + FOURTEEN_DAYS_MS && middle <= later < middle + FOURTEEN_DAYS_MS
    ensures var ops := [IssueSession(userId, family, first, start),
                        Refresh(true, first, second, middle, middle, middle, middle, NoFault),
                        Refresh(true, second, third, later, later, later, later, NoFault)];
            && AllFresh(EMPTY, ops)
            && OutcomeAt(EMPTY, ops, 0) == Ok(first) && OutcomeAt(EMPTY, ops, 1) == Ok(second)
            && OutcomeAt(EMPTY, ops, 2) == Ok(third)
  {
    var ops := [IssueSession(userId, family, first, start),
                Refresh(true, first, second, middle, middle, middle, middle, NoFault),
                Refresh(true, second, third, later, later, later, later, NoFault)];
    assert ops[..0] == [] && ops[..1][..0] == [] && ops[..2][..1] == ops[..1];
    var s1 := Step(EMPTY, ops[0]).0;
    assert Run(EMPTY, ops[..1]) == s1;
    var s2 := Step(s1, ops[1]).0;
    assert Run(EMPTY, ops[..2]) == s2;
  }
}
