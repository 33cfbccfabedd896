/**
 * Rotation as the separate statements it is: read the row, mark it consumed, store the new
 * token. Other requests may come between them.
 */
module TokenRuns {
  import opened Tokens
  import opened Wrappers

  /** A rotation that has read a live token, or has read it and consumed it. */
  datatype Pending = ToConsume(id: nat) | ToIssue(id: nat)

  /** `condemned` records the families that were revoked or whose live token was. */
  datatype State = State(db: Db, pending: map<nat, Pending>, condemned: set<nat>)

  datatype Step =
    | Whole(op: Op)
    | Read(tx: nat, presented: nat, now: int)
    | Consume(tx: nat)
    | Issue(tx: nat, expiresAt: int)

  predicate StepEnabled(s: State, step: Step) {
    match step
    case Whole(op) => Enabled(s.db, op)
    case Read(tx, _, _) => tx !in s.pending
    case Consume(tx) => tx in s.pending && s.pending[tx].ToConsume? && s.pending[tx].id < |s.db.tokens|
    case Issue(tx, _) => tx in s.pending && s.pending[tx].ToIssue? && s.pending[tx].id < |s.db.tokens|
  }

  /** The families an operation condemns. */
  function Condemns(db: Db, op: Op): set<nat> {
    match op
    case Rotate(presented, _, _) =>
      if presented < |db.tokens| && !Live(db.tokens[presented]) then {db.tokens[presented].family} else {}
    case Revoke(presented) =>
      if presented < |db.tokens| && Live(db.tokens[presented]) then {db.tokens[presented].family} else {}
    case RevokeAllForUser(user) =>
      set i | 0 <= i < |db.tokens| && db.tokens[i].user == user :: db.tokens[i].family
    case _ => {}
  }

  function Next(s: State, step: Step): State
    requires StepEnabled(s, step)
  {
    match step
    case Whole(op) => s.(db := Apply(s.db, op), condemned := s.condemned + Condemns(s.db, op))
    case Read(tx, presented, now) =>
      (match Admit(s.db, presented, now)
       case Ok(_) => s.(pending := s.pending[tx := ToConsume(presented)])
       case Err(e) =>
         if e == RefreshTokenReused then
           s.(db := RevokeFamily(s.db, s.db.tokens[presented].family),
              condemned := s.condemned + {s.db.tokens[presented].family})
         else s)
    case Consume(tx) =>
      s.(db := Consumed(s.db, s.pending[tx].id), pending := s.pending[tx := ToIssue(s.pending[tx].id)])
    case Issue(tx, expiresAt) =>
      var stored := s.db.tokens[s.pending[tx].id];
      s.(db := Issued(s.db, stored.user, stored.family, expiresAt), pending := s.pending - {tx})
  }

  /** Families are sound, and no condemned family has a live token. */
  ghost predicate Safe(s: State) {
    && Inv(s.db)
    && (forall family :: family in s.condemned ==> Dead(s.db, family))
    && forall tx :: tx in s.pending ==> s.pending[tx].id < |s.db.tokens|
  }

  /** The new token would join a family that has a live token again, or that was condemned meanwhile. */
  predicate Overtaken(s: State, step: Step) {
    && step.Issue? && StepEnabled(s, step)
    && var family := s.db.tokens[s.pending[step.tx].id].family;
       family in s.condemned || !NoLive(s.db, family)
  }

  lemma FamilyRevoked(db: Db, family: nat)
    requires Inv(db) && Used(db, family)
    ensures var after := RevokeFamily(db, family);
      Inv(after) && Dead(after, family) && forall f :: Dead(db, f) ==> Dead(after, f)
  {
    var after := RevokeFamily(db, family);
    forall f | Used(db, f) ensures Used(after, f) {
      var i :| 0 <= i < |db.tokens| && db.tokens[i].family == f;
      assert after.tokens[i].family == f;
    }
  }

  lemma CondemnedAreDead(db: Db, op: Op)
    requires Inv(db) && Enabled(db, op)
    ensures forall family :: family in Condemns(db, op) ==> Dead(Apply(db, op), family)
  {
    match op
    case Rotate(presented, now, expiresAt) =>
      if presented < |db.tokens| && !Live(db.tokens[presented]) {
        ReuseKillsFamily(db, presented, now, expiresAt);
      }
    case Revoke(presented) =>
      if presented < |db.tokens| && Live(db.tokens[presented]) { RevokingTheLiveOneKills(db, presented); }
    case RevokeAllForUser(user) =>
      forall i | 0 <= i < |db.tokens| && db.tokens[i].user == user
        ensures Dead(Apply(db, op), db.tokens[i].family)
      {
        RevokingAllKills(db, user, i);
      }
    case _ =>
  }

  lemma WholeKeepsSafe(s: State, op: Op)
    requires Safe(s) && Enabled(s.db, op)
    ensures Safe(Next(s, Whole(op)))
  {
    ApplyKeepsInv(s.db, op);
    ApplyAges(s.db, op);
    CondemnedAreDead(s.db, op);
    forall family | family in s.condemned ensures Dead(Apply(s.db, op), family) {
      DeadStaysDead(s.db, op, family);
    }
  }

  lemma ReadKeepsSafe(s: State, step: Step)
    requires Safe(s) && step.Read? && StepEnabled(s, step)
    ensures Safe(Next(s, step))
  {
    var admitted := Admit(s.db, step.presented, step.now);
    if admitted == Err(RefreshTokenReused) {
      FamilyRevoked(s.db, s.db.tokens[step.presented].family);
    }
  }

  lemma ConsumeKeepsSafe(s: State, tx: nat)
    requires Safe(s) && StepEnabled(s, Consume(tx))
    ensures Safe(Next(s, Consume(tx)))
  {
    var id := s.pending[tx].id;
    var after := Consumed(s.db, id);
    forall family | family in s.condemned ensures Dead(after, family) {
      assert Dead(s.db, family);
      var i :| 0 <= i < |s.db.tokens| && s.db.tokens[i].family == family;
      assert after.tokens[i].family == family;
    }
  }

  /** Storing the new token is safe exactly when nothing overtook the rotation. */
  lemma IssueStepExact(s: State, tx: nat, expiresAt: int)
    requires Safe(s) && StepEnabled(s, Issue(tx, expiresAt))
    ensures Safe(Next(s, Issue(tx, expiresAt))) <==> !Overtaken(s, Issue(tx, expiresAt))
  {
    var id := s.pending[tx].id;
    var stored := s.db.tokens[id];
    var after := Issued(s.db, stored.user, stored.family, expiresAt);
    SameUser(s.db, id);
    IssueExact(s.db, stored.user, stored.family, expiresAt);
    assert after.tokens[|s.db.tokens|].family == stored.family;
    if stored.family !in s.condemned {
      forall family | family in s.condemned ensures Dead(after, family) {
        assert Dead(s.db, family);
        var i :| 0 <= i < |s.db.tokens| && s.db.tokens[i].family == family;
        assert after.tokens[i].family == family;
      }
    } else {
      assert !Dead(after, stored.family);
    }
  }

  lemma StepExact(s: State, step: Step)
    requires Safe(s) && StepEnabled(s, step)
    ensures Safe(Next(s, step)) <==> !Overtaken(s, step)
  {
    match step
    case Whole(op) => WholeKeepsSafe(s, op);
    case Read(_, _, _) => ReadKeepsSafe(s, step);
    case Consume(tx) => ConsumeKeepsSafe(s, tx);
    case Issue(tx, expiresAt) => IssueStepExact(s, tx, expiresAt);
  }

  datatype Trace = Begin(active: set<string>) | Then(before: Trace, step: Step)

  ghost function End(trace: Trace): Option<State> {
    match trace
    case Begin(active) => Some(State(Db([], active), map[], {}))
    case Then(before, step) =>
      match End(before)
      case None => None
      case Some(s) => if StepEnabled(s, step) then Some(Next(s, step)) else None
  }

  ghost predicate NeverOvertaken(trace: Trace) {
    trace.Then? ==>
      && NeverOvertaken(trace.before)
      && (End(trace.before).Some? ==> !Overtaken(End(trace.before).value, trace.step))
  }

  /** Every interleaving in which no rotation is overtaken keeps families single and condemned ones dead. */
  lemma {:induction false} TraceKeepsSafe(trace: Trace)
    requires End(trace).Some? && NeverOvertaken(trace)
    ensures Safe(End(trace).value)
  {
    if trace.Then? {
      TraceKeepsSafe(trace.before);
      StepExact(End(trace.before).value, trace.step);
    }
  }

  /** The step presents a spent token of the family, revokes its live one, or all those of their user. */
  predicate Condemning(db: Db, step: Step, family: nat) {
    exists i :: 0 <= i < |db.tokens| && db.tokens[i].family == family && Strikes(db.tokens[i], i, step)
  }

  predicate Strikes(t: Token, id: nat, step: Step) {
    match step
    case Whole(Rotate(presented, _, _)) => id == presented && (t.consumed || t.revoked)
    case Read(_, presented, _) => id == presented && (t.consumed || t.revoked)
    case Whole(Revoke(presented)) => id == presented && !t.consumed && !t.revoked
    case Whole(RevokeAllForUser(user)) => t.user == user
    case _ => false
  }

  predicate Extends(trace: Trace, earlier: Trace) {
    trace == earlier || (trace.Then? && Extends(trace.before, earlier))
  }

  lemma CondemningMarks(s: State, step: Step, family: nat)
    requires StepEnabled(s, step) && Condemning(s.db, step, family)
    ensures family in Next(s, step).condemned
  {
  }

  lemma CondemnedStay(s: State, step: Step)
    requires StepEnabled(s, step)
    ensures s.condemned <= Next(s, step).condemned
  {
  }

  lemma {:induction false} StillCondemned(trace: Trace, earlier: Trace, family: nat)
    requires End(trace).Some? && Extends(trace, earlier) && earlier.Then?
    requires End(earlier.before).Some? && Condemning(End(earlier.before).value.db, earlier.step, family)
    ensures family in End(trace).value.condemned
  {
    if trace == earlier {
      CondemningMarks(End(earlier.before).value, earlier.step, family);
    } else {
      StillCondemned(trace.before, earlier, family);
      CondemnedStay(End(trace.before).value, trace.step);
    }
  }

  /**
   * Once a spent token of a family has been presented, its live token revoked or its user logged out
   * everywhere, the family is dead however such a trace goes on.
   */
  lemma CondemnedForGood(trace: Trace, earlier: Trace, family: nat)
    requires End(trace).Some? && NeverOvertaken(trace) && Extends(trace, earlier) && earlier.Then?
    requires End(earlier.before).Some? && Condemning(End(earlier.before).value.db, earlier.step, family)
    ensures Dead(End(trace).value.db, family)
  {
    TraceKeepsSafe(trace);
    StillCondemned(trace, earlier, family);
  }

  /** The three statements with nothing in between are `Rotate`, and are never overtaken. */
  lemma RotateIsItsStatements(s: State, tx: nat, presented: nat, now: int, expiresAt: int)
    requires Safe(s) && tx !in s.pending && Admit(s.db, presented, now).Ok?
    ensures var read := Next(s, Read(tx, presented, now));
      && StepEnabled(read, Consume(tx))
      && var consumed := Next(read, Consume(tx));
         && StepEnabled(consumed, Issue(tx, expiresAt)) && !Overtaken(consumed, Issue(tx, expiresAt))
         && Next(consumed, Issue(tx, expiresAt)) == s.(db := Rotated(s.db, presented, now, expiresAt))
  {
    ConsumeLeavesNone(s.db, presented);
    var family := s.db.tokens[presented].family;
    assert family in s.condemned ==> Dead(s.db, family);
    var consumed := Next(Next(s, Read(tx, presented, now)), Consume(tx));
    assert consumed.pending - {tx} == s.pending;
  }

  /** Two rotations that both read one token leave its family with two live tokens. */
  lemma TwoReadersTwoTokens(s: State, presented: nat, now: int, expiresAt: int)
    requires Safe(s) && s.pending == map[] && Admit(s.db, presented, now).Ok?
    ensures var read := Next(Next(s, Read(0, presented, now)), Read(1, presented, now));
      && StepEnabled(read, Consume(0)) && StepEnabled(Next(read, Consume(0)), Consume(1))
      && var consumed := Next(Next(read, Consume(0)), Consume(1));
         && StepEnabled(consumed, Issue(0, expiresAt))
         && StepEnabled(Next(consumed, Issue(0, expiresAt)), Issue(1, expiresAt))
         && var end, n := Next(Next(consumed, Issue(0, expiresAt)), Issue(1, expiresAt)).db, |s.db.tokens|;
            && |end.tokens| == n + 2 && Live(end.tokens[n]) && Live(end.tokens[n + 1])
            && end.tokens[n].family == end.tokens[n + 1].family == s.db.tokens[presented].family
  {
  }

  /** A family revoked between consuming and storing comes back to life. */
  lemma RevokedFamilyRevives(s: State, tx: nat, other: nat, presented: nat, now: int, expiresAt: int)
    requires Safe(s) && tx !in s.pending && other !in s.pending && tx != other
    requires Admit(s.db, presented, now).Ok?
    ensures var consumed := Next(Next(s, Read(tx, presented, now)), Consume(tx));
      var family, revoked := s.db.tokens[presented].family, Next(consumed, Read(other, presented, now));
      && Dead(revoked.db, family) && family in revoked.condemned
      && StepEnabled(revoked, Issue(tx, expiresAt)) && !Dead(Next(revoked, Issue(tx, expiresAt)).db, family)
  {
    var consumed := Next(Next(s, Read(tx, presented, now)), Consume(tx));
    var family := s.db.tokens[presented].family;
    assert !Live(consumed.db.tokens[presented]);
    var revoked := Next(consumed, Read(other, presented, now));
    assert revoked.db == RevokeFamily(consumed.db, family);
    assert revoked.db.tokens[presented].family == family;
    var end := Next(revoked, Issue(tx, expiresAt)).db;
    assert Live(end.tokens[|s.db.tokens|]) && end.tokens[|s.db.tokens|].family == family;
  }
}
