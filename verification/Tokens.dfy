/** apps/api/src/modules/auth/token.service.ts: refresh tokens rotated on every use, linked in families. */
module Tokens {
  import opened Wrappers

  datatype Token = Token(user: string, family: nat, expiresAt: int, consumed: bool, revoked: bool)

  /** Tokens in the order they were created; the secret a client presents stands for its index. */
  datatype Db = Db(tokens: seq<Token>, active: set<string>)

  datatype Op =
    | Login(user: string, family: nat, expiresAt: int)
    | Rotate(presented: nat, now: int, expiresAt: int)
    | Revoke(presented: nat)
    | RevokeAllForUser(user: string)
    | SetActive(user: string, active: bool)

  datatype Error = TokenInvalid | RefreshTokenReused | TokenExpired | Forbidden

  predicate Live(t: Token) { !t.consumed && !t.revoked }

  // ── the operations ──

  function Issued(db: Db, user: string, family: nat, expiresAt: int): Db {
    db.(tokens := db.tokens + [Token(user, family, expiresAt, false, false)])
  }

  function Consumed(db: Db, id: nat): Db
    requires id < |db.tokens|
  {
    db.(tokens := db.tokens[id := db.tokens[id].(consumed := true)])
  }

  function RevokeOne(db: Db, id: nat): Db {
    if id < |db.tokens| then db.(tokens := db.tokens[id := db.tokens[id].(revoked := true)]) else db
  }

  function RevokeFamily(db: Db, family: nat): Db {
    db.(tokens := seq(|db.tokens|, i requires 0 <= i < |db.tokens| =>
          if db.tokens[i].family == family then db.tokens[i].(revoked := true) else db.tokens[i]))
  }

  function RevokeUser(db: Db, user: string): Db {
    db.(tokens := seq(|db.tokens|, i requires 0 <= i < |db.tokens| =>
          if db.tokens[i].user == user then db.tokens[i].(revoked := true) else db.tokens[i]))
  }

  /** What `rotate` decides from the row it reads. */
  function Admit(db: Db, presented: nat, now: int): Result<Token, Error> {
    if presented >= |db.tokens| then Err(TokenInvalid)
    else
      var stored := db.tokens[presented];
      if !Live(stored) then Err(RefreshTokenReused)
      else if stored.expiresAt < now then Err(TokenExpired)
      else if stored.user !in db.active then Err(Forbidden)
      else Ok(stored)
  }

  function Rotated(db: Db, presented: nat, now: int, expiresAt: int): Db {
    match Admit(db, presented, now)
    case Ok(stored) => Issued(Consumed(db, presented), stored.user, stored.family, expiresAt)
    case Err(e) => if e == RefreshTokenReused then RevokeFamily(db, db.tokens[presented].family) else db
  }

  /** A login starts a family nobody has used. */
  predicate Enabled(db: Db, op: Op) {
    op.Login? ==> forall i :: 0 <= i < |db.tokens| ==> db.tokens[i].family != op.family
  }

  function Apply(db: Db, op: Op): Db {
    match op
    case Login(user, family, expiresAt) => Issued(db, user, family, expiresAt)
    case Rotate(presented, now, expiresAt) => Rotated(db, presented, now, expiresAt)
    case Revoke(presented) => RevokeOne(db, presented)
    case RevokeAllForUser(user) => RevokeUser(db, user)
    case SetActive(user, active) => db.(active := if active then db.active + {user} else db.active - {user})
  }

  // ── families ──

  /** Only the newest token of a family can be live, and a family belongs to one user. */
  ghost predicate Inv(db: Db) {
    forall i, j :: 0 <= i < j < |db.tokens| && db.tokens[i].family == db.tokens[j].family ==>
      !Live(db.tokens[i]) && db.tokens[i].user == db.tokens[j].user
  }

  predicate Used(db: Db, family: nat) {
    exists i :: 0 <= i < |db.tokens| && db.tokens[i].family == family
  }

  predicate NoLive(db: Db, family: nat) {
    forall i :: 0 <= i < |db.tokens| && db.tokens[i].family == family ==> !Live(db.tokens[i])
  }

  predicate Dead(db: Db, family: nat) { Used(db, family) && NoLive(db, family) }

  /** No token comes back to life: old tokens keep their identity and only lose liveness. */
  ghost predicate OnlyAges(before: Db, after: Db) {
    && |before.tokens| <= |after.tokens|
    && forall i :: 0 <= i < |before.tokens| ==>
         && after.tokens[i].family == before.tokens[i].family && after.tokens[i].user == before.tokens[i].user
         && (before.tokens[i].consumed ==> after.tokens[i].consumed)
         && (before.tokens[i].revoked ==> after.tokens[i].revoked)
  }

  /** Adding a token to a family keeps the invariant exactly when the family has no live token left. */
  lemma IssueExact(db: Db, user: string, family: nat, expiresAt: int)
    requires Inv(db)
    requires forall i :: 0 <= i < |db.tokens| && db.tokens[i].family == family ==> db.tokens[i].user == user
    ensures Inv(Issued(db, user, family, expiresAt)) <==> NoLive(db, family)
  {
    var after := Issued(db, user, family, expiresAt);
    var n := |db.tokens|;
    if !NoLive(db, family) {
      var i :| 0 <= i < n && db.tokens[i].family == family && Live(db.tokens[i]);
      assert after.tokens[i] == db.tokens[i] && after.tokens[n].family == family;
    }
  }

  lemma ApplyAges(db: Db, op: Op)
    requires Enabled(db, op)
    ensures OnlyAges(db, Apply(db, op))
  {
  }

  lemma ConsumeLeavesNone(db: Db, id: nat)
    requires Inv(db) && id < |db.tokens| && Live(db.tokens[id])
    ensures NoLive(Consumed(db, id), db.tokens[id].family) && Inv(Consumed(db, id))
  {
  }

  lemma ApplyKeepsInv(db: Db, op: Op)
    requires Inv(db) && Enabled(db, op)
    ensures Inv(Apply(db, op))
  {
    match op
    case Login(user, family, expiresAt) => IssueExact(db, user, family, expiresAt);
    case Rotate(presented, now, expiresAt) =>
      var admitted := Admit(db, presented, now);
      if admitted.Ok? {
        var stored := admitted.value;
        ConsumeLeavesNone(db, presented);
        SameUser(db, presented);
        IssueExact(Consumed(db, presented), stored.user, stored.family, expiresAt);
      }
    case _ =>
  }

  lemma SameUser(db: Db, id: nat)
    requires Inv(db) && id < |db.tokens|
    ensures forall i :: 0 <= i < |db.tokens| && db.tokens[i].family == db.tokens[id].family ==>
      db.tokens[i].user == db.tokens[id].user
  {
  }

  /** No operation brings a dead family back. */
  lemma DeadStaysDead(db: Db, op: Op, family: nat)
    requires Inv(db) && Enabled(db, op) && Dead(db, family)
    ensures Dead(Apply(db, op), family)
  {
    ApplyAges(db, op);
    var after := Apply(db, op);
    var i :| 0 <= i < |db.tokens| && db.tokens[i].family == family;
    assert after.tokens[i].family == family;
    forall j | 0 <= j < |after.tokens| && after.tokens[j].family == family ensures !Live(after.tokens[j]) {
      if j < |db.tokens| { assert !Live(db.tokens[j]); }
    }
  }

  /** Presenting a consumed or revoked token kills its family, whoever holds the newest one. */
  lemma ReuseKillsFamily(db: Db, presented: nat, now: int, expiresAt: int)
    requires presented < |db.tokens| && !Live(db.tokens[presented])
    ensures Dead(Rotated(db, presented, now, expiresAt), db.tokens[presented].family)
  {
    var after := Rotated(db, presented, now, expiresAt);
    assert after.tokens[presented].family == db.tokens[presented].family;
  }

  /** Revoking the live token of a family kills the family. */
  lemma RevokingTheLiveOneKills(db: Db, presented: nat)
    requires Inv(db) && presented < |db.tokens| && Live(db.tokens[presented])
    ensures Dead(RevokeOne(db, presented), db.tokens[presented].family)
  {
    var after := RevokeOne(db, presented);
    assert after.tokens[presented].family == db.tokens[presented].family;
  }

  /** Revoking a user's or a family's tokens leaves the live tokens of all others live. */
  lemma OthersStayLive(db: Db, user: string, family: nat, i: nat)
    requires i < |db.tokens| && !db.tokens[i].consumed && !db.tokens[i].revoked
    ensures Live(RevokeUser(db, user).tokens[i]) <==> db.tokens[i].user != user
    ensures Live(RevokeFamily(db, family).tokens[i]) <==> db.tokens[i].family != family
  {
  }

  lemma RevokingAllKills(db: Db, user: string, id: nat)
    requires Inv(db) && id < |db.tokens| && db.tokens[id].user == user
    ensures Dead(RevokeUser(db, user), db.tokens[id].family)
  {
    SameUser(db, id);
    var after := RevokeUser(db, user);
    assert after.tokens[id].family == db.tokens[id].family;
  }

  // ── runs ──

  datatype Run = Start | Then(before: Run, op: Op)

  ghost function Final(start: Db, run: Run): Option<Db> {
    match run
    case Start => Some(start)
    case Then(before, op) =>
      match Final(start, before)
      case None => None
      case Some(db) => if Enabled(db, op) then Some(Apply(db, op)) else None
  }

  /**
   * From any good state, over any sequence of logins, rotations, logouts and revocations:
   * each family has at most one live token, the newest; tokens only age; dead families stay dead.
   */
  lemma {:induction false} RunKeepsFamilies(start: Db, run: Run)
    requires Inv(start) && Final(start, run).Some?
    ensures Inv(Final(start, run).value) && OnlyAges(start, Final(start, run).value)
    ensures forall family :: Dead(start, family) ==> Dead(Final(start, run).value, family)
  {
    if run.Then? {
      RunKeepsFamilies(start, run.before);
      var db := Final(start, run.before).value;
      ApplyKeepsInv(db, run.op);
      ApplyAges(db, run.op);
      forall family | Dead(db, family) ensures Dead(Apply(db, run.op), family) {
        DeadStaysDead(db, run.op, family);
      }
    }
  }

  /**
   * A token rotated once is never accepted again, and the first later attempt, after any run,
   * leaves the family dead for every run that follows.
   */
  lemma RotatedTokenIsSpent(
    start: Db, presented: nat, now: int, expiresAt: int, run: Run, now': int, expiresAt': int, rest: Run)
    requires Inv(start) && Admit(start, presented, now).Ok?
    requires Final(Rotated(start, presented, now, expiresAt), run).Some?
    requires var db := Final(Rotated(start, presented, now, expiresAt), run).value;
      Final(Rotated(db, presented, now', expiresAt'), rest).Some?
    ensures var db := Final(Rotated(start, presented, now, expiresAt), run).value;
      && Admit(db, presented, now') == Err(RefreshTokenReused)
      && Dead(Final(Rotated(db, presented, now', expiresAt'), rest).value, start.tokens[presented].family)
  {
    var once := Rotated(start, presented, now, expiresAt);
    ApplyKeepsInv(start, Rotate(presented, now, expiresAt));
    assert once.tokens[presented] == start.tokens[presented].(consumed := true);
    RunKeepsFamilies(once, run);
    var db := Final(once, run).value;
    ReuseKillsFamily(db, presented, now', expiresAt');
    ApplyKeepsInv(db, Rotate(presented, now', expiresAt'));
    RunKeepsFamilies(Rotated(db, presented, now', expiresAt'), rest);
  }

  // ── the service ──

  class TokenService {
    var tokens: seq<Token>
    var active: set<string>

    ghost function Rows(): Db
      reads this
    {
      Db(tokens, active)
    }

    constructor (active: set<string>)
      ensures Rows() == Db([], active) && Inv(Rows())
    {
      tokens, this.active := [], active;
    }

    method IssueForUser(user: string, family: nat, expiresAt: int) returns (id: nat)
      modifies this
      ensures Rows() == Issued(old(Rows()), user, family, expiresAt)
      ensures id == |old(tokens)|
    {
      id := |tokens|;
      tokens := tokens + [Token(user, family, expiresAt, false, false)];
    }

    /** Accepted exactly for a live, unexpired token of an active user; reuse kills the family. */
    method RotateToken(presented: nat, now: int, expiresAt: int) returns (r: Result<nat, Error>)
      requires Inv(Rows())
      modifies this
      ensures Rows() == Rotated(old(Rows()), presented, now, expiresAt) && Inv(Rows())
      ensures r.Ok? <==>
        && presented < |old(tokens)| && Live(old(tokens)[presented])
        && old(tokens)[presented].expiresAt >= now && old(tokens)[presented].user in old(active)
      ensures r.Ok? ==> var was := old(tokens)[presented];
        && r.value == |old(tokens)| && |tokens| == |old(tokens)| + 1
        && tokens[r.value] == Token(was.user, was.family, expiresAt, false, false)
        && tokens[..r.value] == old(tokens)[presented := was.(consumed := true)]
      ensures r == Err(RefreshTokenReused) <==> presented < |old(tokens)| && !Live(old(tokens)[presented])
      ensures r == Err(RefreshTokenReused) ==> Dead(Rows(), old(tokens)[presented].family)
      ensures r.Err? && r.error != RefreshTokenReused ==> Rows() == old(Rows())
    {
      ApplyKeepsInv(Rows(), Rotate(presented, now, expiresAt));
      if presented >= |tokens| { return Err(TokenInvalid); }
      var stored := tokens[presented];
      if stored.consumed || stored.revoked {
        ReuseKillsFamily(Rows(), presented, now, expiresAt);
        RevokeTokens(stored.family);
        return Err(RefreshTokenReused);
      }
      if stored.expiresAt < now { return Err(TokenExpired); }
      if stored.user !in active { return Err(Forbidden); }
      tokens := tokens[presented := stored.(consumed := true)];
      var id := IssueForUser(stored.user, stored.family, expiresAt);
      return Ok(id);
    }

    method RevokeTokens(family: nat)
      modifies this
      ensures Rows() == RevokeFamily(old(Rows()), family)
      ensures active == old(active) && |tokens| == |old(tokens)|
      ensures forall i :: 0 <= i < |tokens| ==>
        tokens[i] == if old(tokens)[i].family == family then old(tokens)[i].(revoked := true) else old(tokens)[i]
    {
      var before := tokens;
      tokens := seq(|before|, i requires 0 <= i < |before| =>
        if before[i].family == family && !before[i].revoked then before[i].(revoked := true) else before[i]);
    }

    method RevokeToken(presented: nat)
      modifies this
      ensures Rows() == RevokeOne(old(Rows()), presented)
    {
      if presented < |tokens| && !tokens[presented].revoked {
        tokens := tokens[presented := tokens[presented].(revoked := true)];
      } else {
        assert presented < |tokens| ==> tokens[presented := tokens[presented].(revoked := true)] == tokens;
      }
    }

    method RevokeAll(user: string)
      modifies this
      ensures Rows() == RevokeUser(old(Rows()), user)
      ensures active == old(active) && |tokens| == |old(tokens)|
      ensures forall i :: 0 <= i < |tokens| ==>
        tokens[i] == if old(tokens)[i].user == user then old(tokens)[i].(revoked := true) else old(tokens)[i]
    {
      var before := tokens;
      tokens := seq(|before|, i requires 0 <= i < |before| =>
        if before[i].user == user && !before[i].revoked then before[i].(revoked := true) else before[i]);
    }
  }
}
