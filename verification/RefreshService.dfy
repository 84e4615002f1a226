/**
 The handlers of `authController.js` that touch refresh tokens, in the order their awaits run.
 Each is verified to be a sequence of actions of the machine in `RefreshRotation`, so that the
 theorems about runs apply to what the handlers answer.
 */
module RefreshService {
  import opened Wrappers
  import opened RefreshRotation
  import opened RefreshInvariant
  import opened RefreshTheorems
  import opened RefreshAnswers

  const REFRESH_TOKEN_TTL_MS: int := 30 * 24 * 60 * 60 * 1000

  function Empty(): State {
    State(map[], map[], 0, map[], History(map[], map[], {}, map[], {}, {}))
  }

  /** Taking one more action after a run. */
  lemma OneMore(run: seq<Action>, a: Action)
    requires Runs(Empty(), run) && Enabled(Final(Empty(), run), a)
    ensures Runs(Empty(), run + [a]) && Final(Empty(), run + [a]) == Apply(Final(Empty(), run), a)
  {
    var s := Final(Empty(), run);
    RunStep(s, [a]);
    RunsConcat(Empty(), run, [a]);
  }

  // What the theorems about runs say of a request that has been answered.

  lemma AnswerIsSuccessor(run: seq<Action>, p: Pid, t: Token, x: Token)
    requires Runs(Empty(), run) && Answered(Final(Empty(), run), p, t, x)
    ensures Follows(Final(Empty(), run).h, t, x)
  {
    SameTokenSameSuccessor(Empty(), run, p, p, t, x, x);
  }

  lemma ReuseMeansDead(run: seq<Action>, p: Pid, t: Token)
    requires Runs(Empty(), run) && p in Final(Empty(), run).procs && Final(Empty(), run).procs[p] == Done(t, Reuse)
    ensures InDeadFamily(Final(Empty(), run).h, t)
  {
    InitIsInv(Empty());
    RunKeepsInv(Empty(), run);
    assert ProcOk(Final(Empty(), run), p, Done(t, Reuse));
  }

  lemma DeadRowOffersNothing(start: seq<Action>, run: seq<Action>, t: Token)
    requires Runs(Empty(), start) && start <= run && Runs(Empty(), run)
    requires InDeadFamily(Final(Empty(), start).h, t) && t in Final(Empty(), run).rows
    ensures Final(Empty(), run).rows[t].revoked && Final(Empty(), run).rows[t].replacedBy.None?
  {
    var s := Final(Empty(), start);
    assert Inv(s) by {
      InitIsInv(Empty());
      RunKeepsInv(Empty(), start);
    }
    SplitAt(Empty(), run, start);
    DeadRow(s, run[|start|..], t);
  }

  lemma SplitAt(s: State, run: seq<Action>, start: seq<Action>)
    requires Runs(s, run) && start <= run
    ensures Runs(s, start) && Runs(Final(s, start), run[|start|..])
    ensures Final(Final(s, start), run[|start|..]) == Final(s, run)
  {
    RunsSplit(s, run, |start|);
    assert run[..|start|] == start;
  }

  lemma DeadRow(s: State, later: seq<Action>, t: Token)
    requires Inv(s) && Runs(s, later) && InDeadFamily(s.h, t) && t in Final(s, later).rows
    ensures Final(s, later).rows[t].revoked && Final(s, later).rows[t].replacedBy.None?
  {
    RunKeepsInv(s, later);
    assert RowOk(Final(s, later).h, t, Final(s, later).rows[t]);
  }

  lemma {:induction false} RunsSplit(s: State, run: seq<Action>, n: nat)
    requires Runs(s, run) && n <= |run|
    ensures Runs(s, run[..n]) && Runs(Final(s, run[..n]), run[n..])
    ensures Final(Final(s, run[..n]), run[n..]) == Final(s, run)
    decreases n
  {
    if n == 0 {
      assert run[..0] == [] && run[0..] == run;
    } else {
      RunsSplit(Apply(s, run[0]), run[1..], n - 1);
      assert run[..n][1..] == run[1..][..n - 1] && run[1..][n - 1..] == run[n..];
    }
  }

  /** A presented token without a row: if it is on a chain, its family is dead or it was removed as expired. */
  lemma NoRowMeansOver(run: seq<Action>, t: Token)
    requires Runs(Empty(), run) && t !in Final(Empty(), run).rows && t in Final(Empty(), run).h.place
    ensures InDeadFamily(Final(Empty(), run).h, t) || t in Final(Empty(), run).h.expired
  {
    MissingMeansDeadOrExpired(Empty(), run, Final(Empty(), run), t);
  }

  lemma DeadStays(start: seq<Action>, run: seq<Action>, t: Token)
    requires Runs(Empty(), start) && start <= run && Runs(Empty(), run) && InDeadFamily(Final(Empty(), start).h, t)
    ensures InDeadFamily(Final(Empty(), run).h, t)
  {
    InitIsInv(Empty());
    RunKeepsInv(Empty(), start);
    SplitAt(Empty(), run, start);
    RunKeepsInv(Final(Empty(), start), run[|start|..]);
  }

  lemma FoundIsPlaced(run: seq<Action>, p: Pid)
    requires Runs(Empty(), run) && p in Final(Empty(), run).procs && Final(Empty(), run).procs[p].LogoutDeleted?
    requires var s := Final(Empty(), run); s.procs[p].rec.family in s.h.fams ==> s.h.fams[s.procs[p].rec.family].dead
    requires var s := Final(Empty(), run);
             s.procs[p].presented in s.h.place && s.h.place[s.procs[p].presented].family == s.procs[p].rec.family
    ensures InDeadFamily(Final(Empty(), run).h, Final(Empty(), run).procs[p].presented)
  {
    InitIsInv(Empty());
    RunKeepsInv(Empty(), run);
  }

  lemma FoundPlace(run: seq<Action>, p: Pid)
    requires Runs(Empty(), run) && p in Final(Empty(), run).procs && Final(Empty(), run).procs[p].LogoutFound?
    ensures var s := Final(Empty(), run);
            s.procs[p].presented in s.h.place && s.h.place[s.procs[p].presented].family == s.procs[p].rec.family
  {
    InitIsInv(Empty());
    RunKeepsInv(Empty(), run);
    var s := Final(Empty(), run);
    assert ProcOk(s, p, s.procs[p]);
  }

  class TokenService {
    var rows: map<Token, Row>         // table refresh_tokens
    var blacklist: map<Token, int>    // Redis keys blacklist:rt:<hash>, with their expiry
    var clock: int
    var used: set<Token>              // every token value generated or presented so far
    ghost var log: seq<Action>        // the run so far
    ghost var now: State              // the machine's state after it

    ghost predicate Valid()
      reads this
    {
      && Runs(Empty(), log) && now == Final(Empty(), log)
      && now.rows == rows && now.blacklist == blacklist && now.clock == clock
      && now.h.made.Keys + now.h.seen <= used
    }

    /** Request `p` stands at `c`. */
    ghost predicate Stands(p: Pid, c: Proc)
      reads this
    {
      p in now.procs && now.procs[p] == c
    }

    constructor ()
      ensures Valid() && log == []
    {
      rows, blacklist, clock, used, log, now := map[], map[], 0, {}, [], Empty();
    }

    // -------------------------------------------------------------- Single statements

    method SelectByHash(t: Token) returns (r: Option<Row>)
      ensures r == if t in rows then Some(rows[t]) else None
    {
      if t in rows {
        r := Some(rows[t]);
      } else {
        r := None;
      }
    }

    method InsertToken(t: Token, row: Row)
      modifies this`rows
      ensures rows == old(rows)[t := row]
    {
      rows := rows[t := row];
    }

    method ClaimToken(t: Token, succ: Token) returns (claimed: bool)
      modifies this`rows
      ensures claimed == Live(old(rows), t)
      ensures !claimed ==> rows == old(rows)
      ensures claimed ==>
                rows == old(rows)[t := old(rows)[t].(revoked := true, revokedAt := Some(clock), replacedBy := Some(succ))]
    {
      claimed := t in rows && !rows[t].revoked;
      if claimed {
        rows := rows[t := rows[t].(revoked := true, revokedAt := Some(clock), replacedBy := Some(succ))];
      }
    }

    method DeleteToken(t: Token)
      modifies this`rows
      ensures rows == old(rows) - {t}
    {
      rows := rows - {t};
    }

    method GenerateRefreshToken() returns (t: Token)
      modifies this`used
      ensures t !in old(used) && used == old(used) + {t}
    {
      ghost var bound := UnusedExists(used);
      assert bound !in used;
      t :| t !in used;
      used := used + {t};
    }

    /** Books the statement just executed as action `a` of the machine. */
    ghost method Book(a: Action)
      requires Runs(Empty(), log) && now == Final(Empty(), log) && Enabled(now, a)
      requires rows == Apply(now, a).rows && blacklist == Apply(now, a).blacklist && clock == Apply(now, a).clock
      requires Apply(now, a).h.made.Keys + Apply(now, a).h.seen <= used
      modifies this`log, this`now
      ensures Valid() && log == old(log) + [a] && now == Apply(old(now), a)
    {
      OneMore(log, a);
      log, now := log + [a], Apply(now, a);
    }

    /**
     An await: any number of other requests may run here. The caller may only rely on the
     contract, which every sequence of other requests' actions meets.
     */
    method Await(ghost p: Pid)
      requires Valid() && p in now.procs
      modifies this
      ensures Valid() && old(log) <= log
      ensures Stands(p, old(now.procs[p]))
    {
    }

    // -------------------------------------------------------------- One await and the code up to the next

    method LookUp(ghost p: Pid, t: Token, ghost start: seq<Action>) returns (found: Option<Row>)
      requires Valid() && Stands(p, Checked(t)) && start <= log && Runs(Empty(), start)
      modifies this
      ensures Valid() && old(log) <= log
      ensures Stands(p, if found.Some? then Looked(t, found.value) else Done(t, Invalid)) && (found.None? ==> t !in rows)
      ensures found.Some? && InDeadFamily(Final(Empty(), start).h, t) ==> found.value.revoked && found.value.replacedBy.None?
    {
      Await(p);
      found := SelectByHash(t);
      if found.Some? && InDeadFamily(Final(Empty(), start).h, t) {
        DeadRowOffersNothing(start, log, t);
      }
      Book(Lookup(p));
    }

    method CheckRevocation(ghost p: Pid, t: Token, cacheUp: bool) returns (blacklisted: bool)
      requires Valid() && Stands(p, Start(t))
      modifies this
      ensures Valid() && old(log) <= log && Stands(p, if blacklisted then Done(t, Blacklisted) else Checked(t))
      ensures blacklisted <==> cacheUp && t in blacklist && clock < blacklist[t]
    {
      Await(p);
      blacklisted := cacheUp && t in blacklist && clock < blacklist[t];
      Book(CheckBlacklist(p, cacheUp));
    }

    /** Picks the branch of `refresh` for the row `rec`, generating a successor for the rotating one. */
    method Judge(ghost p: Pid, t: Token, rec: Row, suspended: bool) returns (graced: bool, expired: bool, succ: Token)
      requires Valid() && Stands(p, Looked(t, rec))
      modifies this
      ensures Valid() && old(log) <= log
      ensures graced <==> WithinGrace(rec, clock)
      ensures expired <==> rec.expiresAt < clock
      ensures Stands(p, if rec.revoked then
                          if graced then Replying(t, rec.replacedBy.value) else Killing(t, rec.family)
                        else if suspended then Done(t, Suspended)
                        else if expired then Expiring(t)
                        else Inserting(t, rec, succ))
    {
      Await(p);
      graced, expired := WithinGrace(rec, clock), rec.expiresAt < clock;
      succ := GenerateRefreshToken();
      Book(Decide(p, suspended, succ));
    }

    method InsertFresh(ghost p: Pid, t: Token, rec: Row, succ: Token)
      requires Valid() && Stands(p, Inserting(t, rec, succ))
      modifies this
      ensures Valid() && old(log) <= log && Stands(p, Claiming(t, rec, succ))
      ensures succ in rows && rows[succ] == Row(rec.user, rec.family, clock + 30 * 24 * 60 * 60 * 1000, false, None, None)
    {
      Await(p);
      var expiresAt := clock + REFRESH_TOKEN_TTL_MS;
      InsertToken(succ, Row(rec.user, rec.family, expiresAt, false, None, None));
      Book(InsertSuccessor(p, expiresAt));
    }

    method TryClaim(ghost p: Pid, t: Token, rec: Row, succ: Token) returns (claimed: bool, ghost before: map<Token, Row>)
      requires Valid() && Stands(p, Claiming(t, rec, succ))
      modifies this
      ensures Valid() && old(log) <= log && Stands(p, if claimed then Replying(t, succ) else Lost(t, rec, succ))
      ensures claimed <==> Live(before, t)
      ensures rows == if claimed
                      then before[t := before[t].(revoked := true, revokedAt := Some(clock), replacedBy := Some(succ))]
                      else before
    {
      Await(p);
      before := rows;
      claimed := ClaimToken(t, succ);
      Book(Claim(p));
    }

    method DropSuccessor(ghost p: Pid, t: Token, rec: Row, succ: Token)
      requires Valid() && Stands(p, Lost(t, rec, succ))
      modifies this
      ensures Valid() && old(log) <= log && Stands(p, Relooking(t, rec)) && succ !in rows
    {
      Await(p);
      DeleteToken(succ);
      Book(DeleteSuccessor(p));
    }

    method LookUpWinner(ghost p: Pid, t: Token, rec: Row) returns (winner: Option<Row>)
      requires Valid() && Stands(p, Relooking(t, rec))
      modifies this
      ensures Valid() && old(log) <= log && Stands(p, Relooked(t, rec, winner))
    {
      Await(p);
      winner := SelectByHash(t);
      Book(LookupWinner(p));
    }

    method JudgeLoser(ghost p: Pid, t: Token, rec: Row, winner: Option<Row>) returns (graced: bool)
      requires Valid() && Stands(p, Relooked(t, rec, winner))
      modifies this
      ensures Valid() && old(log) <= log && (graced ==> winner.Some? && winner.value.replacedBy.Some?)
      ensures Stands(p, if graced then Replying(t, winner.value.replacedBy.value) else Killing(t, rec.family))
    {
      Await(p);
      graced := winner.Some? && WithinGrace(winner.value, clock);
      Book(DecideLoser(p));
    }

    method RemoveExpired(ghost p: Pid, t: Token) returns (response: Response)
      requires Valid() && Stands(p, Expiring(t))
      modifies this
      ensures Valid() && old(log) <= log && response == Expired && Stands(p, Done(t, response))
    {
      Await(p);
      DeleteToken(t);
      Book(DeleteExpired(p));
      response := Expired;
    }

    method IssueRefreshResponse(ghost p: Pid, t: Token, token: Token) returns (response: Response)
      requires Valid() && Stands(p, Replying(t, token))
      modifies this
      ensures Valid() && old(log) <= log && response == Issued(token) && Stands(p, Done(t, response))
    {
      Book(Reply(p));
      response := Issued(token);
    }

    method RevokeFamilyForReuse(ghost p: Pid, t: Token, family: Family) returns (response: Response)
      requires Valid() && Stands(p, Killing(t, family))
      modifies this
      ensures Valid() && old(log) <= log && response == Reuse && Stands(p, Done(t, response))
      ensures forall u :: u in rows && rows[u].family == family ==>
                rows[u].revoked && rows[u].revokedAt.Some? && rows[u].replacedBy.None?
      ensures family in now.h.fams ==> now.h.fams[family].dead
    {
      Await(p);
      rows := map u | u in rows :: if rows[u].family == family then RevokeRow(rows[u], clock) else rows[u];
      Book(Action.RevokeFamilyForReuse(p));
      response := Reuse;
    }

    // -------------------------------------------------------------- Handlers

    method AnswerLoser(ghost p: Pid, t: Token, rec: Row, winner: Option<Row>) returns (response: Response)
      requires Valid() && Stands(p, Relooked(t, rec, winner))
      modifies this
      ensures Valid() && old(log) <= log && Stands(p, Done(t, response)) && (response.Issued? || response.Reuse?)
    {
      var graced := JudgeLoser(p, t, rec, winner);
      if graced {
        response := IssueRefreshResponse(p, t, winner.value.replacedBy.value);
      } else {
        response := RevokeFamilyForReuse(p, t, rec.family);
      }
    }

    /** A loser removes its own successor and joins the winner. */
    method JoinWinner(ghost p: Pid, t: Token, rec: Row, succ: Token) returns (response: Response)
      requires Valid() && Stands(p, Lost(t, rec, succ))
      modifies this
      ensures Valid() && old(log) <= log && Stands(p, Done(t, response))
      ensures match response
              case Issued(token) => Follows(now.h, t, token)
              case Reuse => InDeadFamily(now.h, t)
              case _ => false
    {
      DropSuccessor(p, t, rec, succ);
      var winner := LookUpWinner(p, t, rec);
      response := AnswerLoser(p, t, rec, winner);
      if response.Issued? { AnswerIsSuccessor(log, p, t, response.token); } else { ReuseMeansDead(log, p, t); }
    }

    /** Inserts the successor first, then claims the old token. */
    method InsertAndClaim(ghost p: Pid, t: Token, rec: Row, succ: Token) returns (response: Response)
      requires Valid() && Stands(p, Inserting(t, rec, succ))
      modifies this
      ensures Valid() && old(log) <= log && Stands(p, Done(t, response)) && (response.Issued? || response.Reuse?)
    {
      InsertFresh(p, t, rec, succ);
      var claimed, _ := TryClaim(p, t, rec, succ);
      if claimed {
        response := IssueRefreshResponse(p, t, succ);
      } else {
        response := JoinWinner(p, t, rec, succ);
      }
    }

    /** The part of `refresh` after its lookup found `rec`. */
    method Rotate(ghost p: Pid, t: Token, rec: Row, suspended: bool) returns (response: Response)
      requires Valid() && Stands(p, Looked(t, rec))
      modifies this
      ensures Valid() && old(log) <= log && Stands(p, Done(t, response))
      ensures rec.revoked && rec.replacedBy.None? ==> response.Reuse?
      ensures match response
              case Issued(_) => true
              case Reuse => true
              case Suspended => suspended && !rec.revoked
              case Expired => !suspended && !rec.revoked
              case _ => false
    {
      var graced, expired, succ := Judge(p, t, rec, suspended);
      if rec.revoked {
        if graced {
          response := IssueRefreshResponse(p, t, rec.replacedBy.value);
        } else {
          response := RevokeFamilyForReuse(p, t, rec.family);
        }
      } else if suspended {
        response := Suspended;
      } else if expired {
        response := RemoveExpired(p, t);
      } else {
        response := InsertAndClaim(p, t, rec, succ);
      }
    }

    /**
     POST /api/auth/refresh. `cacheUp` and `suspended` are what Redis and the users table answer.
     A token in the answer is the chain successor of the presented one; a family that was dead
     when the request arrived answers no one; and a reuse answer means the family is now dead.
     */
    method Refresh(ghost p: Pid, raw: Option<Token>, cacheUp: bool, suspended: bool) returns (response: Response)
      requires Valid() && p !in now.procs
      requires raw.Some? ==> Presentable(now.h, raw.value)
      modifies this
      ensures Valid() && old(log) <= log
      ensures raw.None? ==> response == NoToken && log == old(log)
      ensures raw.Some? ==> Stands(p, Done(raw.value, response))
      ensures response.Issued? ==> raw.Some? && Follows(now.h, raw.value, response.token)
      ensures response.Reuse? ==> raw.Some? && InDeadFamily(now.h, raw.value)
      ensures response.Blacklisted? <==> raw.Some? && TurnedAway(Empty(), log, p, raw.value)
      ensures (response.Suspended? ==> suspended) && (response.Blacklisted? ==> cacheUp)
      ensures response.Invalid? && raw.value in now.h.place ==>
                InDeadFamily(now.h, raw.value) || raw.value in now.h.expired
      ensures raw.Some? && old(InDeadFamily(now.h, raw.value)) ==> !response.Issued?
    {
      if raw.None? {
        return NoToken;
      }
      var t := raw.value;
      response := Serve(p, t, cacheUp, suspended);
      BlacklistedIffLoggedOut(Empty(), log, p, t);
      if response.Issued? { AnswerIsSuccessor(log, p, t, response.token); }
      if response.Reuse? { ReuseMeansDead(log, p, t); }
    }

    method Receive(ghost p: Pid, t: Token)
      requires Valid() && p !in now.procs && Presentable(now.h, t)
      modifies this
      ensures Valid() && old(log) <= log && Stands(p, Start(t))
    {
      used := used + {t};
      Book(Spawn(p, t));
    }

    method Serve(ghost p: Pid, t: Token, cacheUp: bool, suspended: bool) returns (response: Response)
      requires Valid() && p !in now.procs && Presentable(now.h, t)
      modifies this
      ensures Valid() && old(log) <= log && Stands(p, Done(t, response)) && response != NoToken
      ensures old(InDeadFamily(now.h, t)) ==> !response.Issued?
      ensures response.Suspended? ==> suspended
      ensures response.Blacklisted? ==> cacheUp
      ensures response.Invalid? && t in now.h.place ==> InDeadFamily(now.h, t) || t in now.h.expired
    {
      Receive(p, t);
      var blacklisted := CheckRevocation(p, t, cacheUp);
      if blacklisted {
        return Blacklisted;
      }
      response := LookUpAndRotate(p, t, suspended, old(log));
    }

    method LookUpAndRotate(ghost p: Pid, t: Token, suspended: bool, ghost start: seq<Action>) returns (response: Response)
      requires Valid() && Stands(p, Checked(t)) && start <= log && Runs(Empty(), start)
      modifies this
      ensures Valid() && old(log) <= log && Stands(p, Done(t, response)) && response != NoToken
      ensures InDeadFamily(Final(Empty(), start).h, t) ==> !response.Issued?
      ensures (response.Suspended? ==> suspended) && !response.Blacklisted?
      ensures response.Invalid? && t in now.h.place ==> InDeadFamily(now.h, t) || t in now.h.expired
    {
      var found := LookUp(p, t, start);
      if found.None? {
        if t in now.h.place { NoRowMeansOver(log, t); }
        response := Invalid;
      } else {
        response := Rotate(p, t, found.value, suspended);
      }
    }

    method LogoutFind(ghost p: Pid, t: Token) returns (found: Option<Row>)
      requires Valid() && Stands(p, LogoutStart(t))
      modifies this
      ensures Valid() && old(log) <= log
      ensures if found.Some? then Stands(p, LogoutFound(t, found.value)) else Stands(p, Done(t, LoggedOut)) && t !in rows
    {
      Await(p);
      found := SelectByHash(t);
      Book(LogoutLookup(p));
    }

    method DeleteFamilyRows(ghost p: Pid, t: Token, rec: Row)
      requires Valid() && Stands(p, LogoutFound(t, rec))
      modifies this
      ensures Valid() && old(log) <= log && Stands(p, LogoutDeleted(t, rec))
      ensures forall u :: u in rows ==> rows[u].family != rec.family
      ensures rec.family in now.h.fams ==> now.h.fams[rec.family].dead
      ensures InDeadFamily(now.h, t)
    {
      Await(p);
      FoundPlace(log, p);
      var family := rec.family;
      rows := map u | u in rows && rows[u].family != family :: rows[u];
      Book(LogoutDelete(p));
      FoundIsPlaced(log, p);
    }

    method BlacklistToken(ghost p: Pid, t: Token, rec: Row)
      requires Valid() && Stands(p, LogoutDeleted(t, rec))
      modifies this
      ensures Valid() && old(log) <= log && Stands(p, Done(t, LoggedOut))
      ensures rec.expiresAt - clock >= 1000 ==>
                t in blacklist && blacklist[t] == clock + (rec.expiresAt - clock) / 1000 * 1000
    {
      Await(p);
      var ttlSeconds := if rec.expiresAt < clock then 0 else (rec.expiresAt - clock) / 1000;
      if ttlSeconds > 0 {
        blacklist := blacklist[t := clock + ttlSeconds * 1000];
      }
      Book(LogoutBlacklist(p));
    }

    /** POST /api/auth/logout: deletes the presented token's family, then blacklists the token. */
    method Logout(ghost p: Pid, raw: Option<Token>) returns (response: Response)
      requires Valid() && p !in now.procs
      requires raw.Some? ==> Presentable(now.h, raw.value)
      modifies this
      ensures Valid() && old(log) <= log && response == LoggedOut
      ensures raw.None? ==> log == old(log)
      ensures raw.Some? ==> Stands(p, Done(raw.value, LoggedOut))
      ensures raw.Some? && raw.value in now.h.place ==> InDeadFamily(now.h, raw.value) || raw.value in now.h.expired
    {
      response := LoggedOut;
      if raw.Some? {
        EndSession(p, raw.value);
      }
    }

    method EndSession(ghost p: Pid, t: Token)
      requires Valid() && p !in now.procs && Presentable(now.h, t)
      modifies this
      ensures Valid() && old(log) <= log && Stands(p, Done(t, LoggedOut))
      ensures t in now.h.place ==> InDeadFamily(now.h, t) || t in now.h.expired
    {
      ReceiveLogout(p, t);
      var row := LogoutFind(p, t);
      if row.Some? {
        DeleteAndBlacklist(p, t, row.value);
      } else if t in now.h.place {
        NoRowMeansOver(log, t);
      }
    }

    method ReceiveLogout(ghost p: Pid, t: Token)
      requires Valid() && p !in now.procs && Presentable(now.h, t)
      modifies this
      ensures Valid() && old(log) <= log && Stands(p, LogoutStart(t))
    {
      used := used + {t};
      Book(SpawnLogout(p, t));
    }

    method DeleteAndBlacklist(ghost p: Pid, t: Token, rec: Row)
      requires Valid() && Stands(p, LogoutFound(t, rec))
      modifies this
      ensures Valid() && old(log) <= log && Stands(p, Done(t, LoggedOut)) && InDeadFamily(now.h, t)
    {
      DeleteFamilyRows(p, t, rec);
      ghost var deleted := log;
      BlacklistToken(p, t, rec);
      DeadStays(deleted, log, t);
    }

    /** The writing part of POST /api/auth/reset-password: every family of the user dies in one transaction. */
    method ResetPassword(ghost p: Pid, user: User)
      requires Valid() && p !in now.procs
      modifies this
      ensures Valid() && log == old(log) + [Action.ResetPassword(p, user)]
      ensures forall t :: t in rows <==> t in old(rows) && old(rows)[t].user != user
      ensures forall f :: f in now.h.fams && now.h.fams[f].user == user ==> now.h.fams[f].dead
    {
      rows := map t | t in rows && rows[t].user != user :: rows[t];
      Book(Action.ResetPassword(p, user));
    }
  }
}
