/**
 What refresh and logout answer: which requests the blacklist turns away, over every run, and what
 a request that nothing disturbs makes of the tables it finds.
 */
module RefreshAnswers {
  import opened Wrappers
  import opened RefreshRotation
  import opened RefreshTheorems

  // ---------------------------------------------------------------- Who is turned away by the blacklist

  lemma {:induction false} LastStep(s: State, run: seq<Action>)
    requires Runs(s, run) && run != []
    ensures Runs(s, run[..|run| - 1]) && Enabled(Final(s, run[..|run| - 1]), run[|run| - 1])
    ensures Final(s, run) == Apply(Final(s, run[..|run| - 1]), run[|run| - 1])
    decreases |run|
  {
    if |run| > 1 {
      LastStep(Apply(s, run[0]), run[1..]);
      assert run[..|run| - 1][1..] == run[1..][..|run| - 2];
    }
  }

  /** A logout of `t` that deletes a row with at least a second to live leaves an entry for the whole seconds left. */
  predicate Marks(s: State, a: Action, t: Token) {
    && a.LogoutBlacklist? && a.p in s.procs && s.procs[a.p].LogoutDeleted?
    && s.procs[a.p].presented == t && s.procs[a.p].rec.expiresAt - s.clock >= 1000
  }

  /** When the entry runs out that the last such logout of a run has left. */
  ghost function LastMark(s0: State, run: seq<Action>, t: Token): Option<int>
    requires Runs(s0, run)
    decreases |run|
  {
    if run == [] then None
    else
      LastStep(s0, run);
      var init, a := run[..|run| - 1], run[|run| - 1];
      var s := Final(s0, init);
      if Marks(s, a, t) then Some(s.clock + (s.procs[a.p].rec.expiresAt - s.clock) / 1000 * 1000)
      else LastMark(s0, init, t)
  }

  lemma OnlyMarksWrite(s: State, a: Action, t: Token)
    requires Enabled(s, a)
    ensures var after := Apply(s, a).blacklist;
            if Marks(s, a, t) then t in after && after[t] == s.clock + (s.procs[a.p].rec.expiresAt - s.clock) / 1000 * 1000
            else (t in after <==> t in s.blacklist) && (t in after ==> after[t] == s.blacklist[t])
  {
  }

  lemma {:induction false} BlacklistIsLastMark(s0: State, run: seq<Action>, t: Token)
    requires Init(s0) && Runs(s0, run)
    ensures LastMark(s0, run, t)
            == if t in Final(s0, run).blacklist then Some(Final(s0, run).blacklist[t]) else None
    decreases |run|
  {
    if run != [] {
      var init, a := run[..|run| - 1], run[|run| - 1];
      LastStep(s0, run);
      BlacklistIsLastMark(s0, init, t);
      OnlyMarksWrite(Final(s0, init), a, t);
    }
  }

  /** At step `k` of the run Redis answered request `p` that `t` was logged out and its entry has not run out. */
  ghost predicate TurnedAwayAt(s0: State, run: seq<Action>, k: nat, p: Pid, t: Token) {
    && k < |run| && run[k] == CheckBlacklist(p, true) && Runs(s0, run[..k])
    && p in Final(s0, run[..k]).procs && Final(s0, run[..k]).procs[p] == Start(t)
    && var mark := LastMark(s0, run[..k], t); mark.Some? && Final(s0, run[..k]).clock < mark.value
  }

  ghost predicate TurnedAway(s0: State, run: seq<Action>, p: Pid, t: Token) {
    exists k: nat :: TurnedAwayAt(s0, run, k, p, t)
  }

  predicate IsBlacklistedAnswer(s: State, p: Pid, t: Token) {
    p in s.procs && s.procs[p] == Done(t, Blacklisted)
  }

  lemma TurnedAwaySnoc(s0: State, run: seq<Action>, p: Pid, t: Token)
    requires Runs(s0, run) && run != []
    ensures var init := run[..|run| - 1];
            TurnedAway(s0, run, p, t) <==> TurnedAway(s0, init, p, t) || TurnedAwayAt(s0, run, |init|, p, t)
  {
    var init := run[..|run| - 1];
    forall k: nat | k < |init| ensures TurnedAwayAt(s0, run, k, p, t) <==> TurnedAwayAt(s0, init, k, p, t) {
      assert run[..k] == init[..k];
    }
    if TurnedAway(s0, init, p, t) {
      var k: nat :| TurnedAwayAt(s0, init, k, p, t);
      assert TurnedAwayAt(s0, run, k, p, t);
    }
    if TurnedAway(s0, run, p, t) {
      var k: nat :| TurnedAwayAt(s0, run, k, p, t);
      assert k < |init| ==> TurnedAwayAt(s0, init, k, p, t);
    }
  }

  /** One action turns a request away exactly if it is its check, Redis answers, and the entry is there. */
  lemma StepTurnsAway(s: State, a: Action, p: Pid, t: Token)
    requires Enabled(s, a)
    ensures IsBlacklistedAnswer(Apply(s, a), p, t)
            <==> IsBlacklistedAnswer(s, p, t)
                 || (a == CheckBlacklist(p, true) && s.procs[p] == Start(t) && t in s.blacklist && s.clock < s.blacklist[t])
  {
  }

  /** Over every run a request is answered so exactly if Redis answered it while a logout's entry for its token lasted. */
  lemma {:induction false} BlacklistedIffLoggedOut(s0: State, run: seq<Action>, p: Pid, t: Token)
    requires Init(s0) && Runs(s0, run)
    ensures IsBlacklistedAnswer(Final(s0, run), p, t) <==> TurnedAway(s0, run, p, t)
    decreases |run|
  {
    if run != [] {
      var init := run[..|run| - 1];
      LastStep(s0, run);
      BlacklistedIffLoggedOut(s0, init, p, t);
      TurnedAwaySnoc(s0, run, p, t);
      BlacklistIsLastMark(s0, init, t);
      StepTurnsAway(Final(s0, init), run[|run| - 1], p, t);
      assert run[..|init|] == init;
    }
  }

  // ---------------------------------------------------------------- A request on its own

  /** All steps are those of one request. */
  predicate OnlyBy(run: seq<Action>, p: Pid) {
    forall i :: 0 <= i < |run| ==> !run[i].Tick? && run[i].p == p
  }

  /** `p` has been answered, and `rows` and `blacklist` are what it leaves. */
  predicate Ends(s: State, p: Pid, t: Token, response: Response, rows: map<Token, Row>) {
    p in s.procs && s.procs[p] == Done(t, response) && s.rows == rows
  }

  lemma OneMoreStep(s: State, p: Pid, run: seq<Action>, a: Action)
    requires Runs(s, run) && Enabled(Final(s, run), a) && OnlyBy(run, p) && !a.Tick? && a.p == p
    ensures Runs(s, run + [a]) && Final(s, run + [a]) == Apply(Final(s, run), a) && OnlyBy(run + [a], p)
  {
    RunStep(Final(s, run), [a]);
    RunsConcat(s, run, [a]);
  }

  /** The rows after reuse was detected in a family: all of it revoked, and no successor left to hand out. */
  predicate FamilyRevoked(rows: map<Token, Row>, rows': map<Token, Row>, f: Family, now: int) {
    && rows'.Keys == rows.Keys
    && forall u :: u in rows ==>
         rows'[u] == if rows[u].family != f then rows[u]
                     else Row(rows[u].user, f, rows[u].expiresAt, true,
                              if rows[u].revokedAt.Some? then rows[u].revokedAt else Some(now), None)
  }

  /** What a refresh of a token whose row is `r` answers and leaves behind. */
  predicate RowAnswers(s: State, rows': map<Token, Row>, t: Token, suspended: bool, succ: Token, expiresAt: int, response: Response)
    requires t in s.rows
  {
    var r := s.rows[t];
    if r.revoked then
      if r.revokedAt.Some? && r.replacedBy.Some? && s.clock <= r.revokedAt.value + 20 * 1000
      then response == Issued(r.replacedBy.value) && rows' == s.rows
      else response == Reuse && FamilyRevoked(s.rows, rows', r.family, s.clock)
    else if suspended then response == Suspended && rows' == s.rows
    else if s.clock > r.expiresAt then response == Expired && rows' == s.rows - {t}
    else
      && response == Issued(succ)
      && rows' == s.rows[t := Row(r.user, r.family, r.expiresAt, true, Some(s.clock), Some(succ))]
                        [succ := Row(r.user, r.family, expiresAt, false, None, None)]
  }

  /** The same for any token, the blacklist first. */
  predicate TokenAnswers(s: State, rows': map<Token, Row>, t: Token, cacheUp: bool, suspended: bool,
                         succ: Token, expiresAt: int, response: Response) {
    if cacheUp && t in s.blacklist && s.clock < s.blacklist[t] then response == Blacklisted && rows' == s.rows
    else if t !in s.rows then response == Invalid && rows' == s.rows
    else RowAnswers(s, rows', t, suspended, succ, expiresAt, response)
  }

  /** The request has got to the judgement on the row it found. */
  lemma ReachesLooked(s: State, p: Pid, t: Token, cacheUp: bool) returns (run: seq<Action>)
    requires p !in s.procs && Presentable(s.h, t) && t in s.rows
    requires !(cacheUp && t in s.blacklist && s.clock < s.blacklist[t])
    ensures Runs(s, run) && OnlyBy(run, p)
    ensures Final(s, run) == Goto(s, p, Looked(t, s.rows[t])).(h := s.h.(seen := s.h.seen + {t}))
  {
    run := ReachesChecked(s, p, t, cacheUp);
    OneMoreStep(s, p, run, Lookup(p));
    run := run + [Lookup(p)];
    assert s.procs[p := Checked(t)][p := Looked(t, s.rows[t])] == s.procs[p := Looked(t, s.rows[t])];
  }

  lemma ReachesChecked(s: State, p: Pid, t: Token, cacheUp: bool) returns (run: seq<Action>)
    requires p !in s.procs && Presentable(s.h, t)
    requires !(cacheUp && t in s.blacklist && s.clock < s.blacklist[t])
    ensures Runs(s, run) && OnlyBy(run, p)
    ensures Final(s, run) == Goto(s, p, Checked(t)).(h := s.h.(seen := s.h.seen + {t}))
  {
    OneMoreStep(s, p, [], Spawn(p, t));
    run := [] + [Spawn(p, t)];
    OneMoreStep(s, p, run, CheckBlacklist(p, cacheUp));
    run := run + [CheckBlacklist(p, cacheUp)];
    assert s.procs[p := Start(t)][p := Checked(t)] == s.procs[p := Checked(t)];
  }

  lemma ReachesJudged(s: State, p: Pid, t: Token, cacheUp: bool, suspended: bool, succ: Token)
    returns (begun: seq<Action>, c: Proc)
    requires p !in s.procs && Presentable(s.h, t) && t in s.rows && Fresh(s.h, succ) && succ != t
    requires !(cacheUp && t in s.blacklist && s.clock < s.blacklist[t])
    ensures Judgement(s, t, suspended, succ, c) && Judged(s, p, begun, c)
  {
    begun := ReachesLooked(s, p, t, cacheUp);
    OneMoreStep(s, p, begun, Decide(p, suspended, succ));
    begun := begun + [Decide(p, suspended, succ)];
    c := Final(s, begun).procs[p];
  }

  /** A request that has been judged, with the tables as it found them. */
  predicate Judged(s: State, p: Pid, begun: seq<Action>, c: Proc) {
    && Runs(s, begun) && OnlyBy(begun, p)
    && p in Final(s, begun).procs && Final(s, begun).procs[p] == c
    && Final(s, begun).rows == s.rows && Final(s, begun).blacklist == s.blacklist && Final(s, begun).clock == s.clock
  }

  /** It goes on to its answer. */
  predicate Answers(s: State, p: Pid, t: Token, run: seq<Action>, response: Response) {
    && Runs(s, run) && OnlyBy(run, p) && Final(s, run).blacklist == s.blacklist
    && p in Final(s, run).procs && Final(s, run).procs[p] == Done(t, response)
  }

  lemma Replies(s: State, p: Pid, t: Token, begun: seq<Action>, token: Token) returns (run: seq<Action>)
    requires Judged(s, p, begun, Replying(t, token))
    ensures Answers(s, p, t, run, Issued(token)) && Final(s, run).rows == s.rows
  {
    OneMoreStep(s, p, begun, Reply(p));
    run := begun + [Reply(p)];
  }

  lemma Revokes(s: State, p: Pid, t: Token, begun: seq<Action>, f: Family) returns (run: seq<Action>)
    requires Judged(s, p, begun, Killing(t, f))
    ensures Answers(s, p, t, run, Reuse) && FamilyRevoked(s.rows, Final(s, run).rows, f, s.clock)
  {
    OneMoreStep(s, p, begun, RevokeFamilyForReuse(p));
    run := begun + [RevokeFamilyForReuse(p)];
  }

  lemma Expires(s: State, p: Pid, t: Token, begun: seq<Action>) returns (run: seq<Action>)
    requires Judged(s, p, begun, Expiring(t))
    ensures Answers(s, p, t, run, Expired) && Final(s, run).rows == s.rows - {t}
  {
    OneMoreStep(s, p, begun, DeleteExpired(p));
    run := begun + [DeleteExpired(p)];
  }

  lemma Rotates(s: State, p: Pid, t: Token, begun: seq<Action>, succ: Token, expiresAt: int) returns (run: seq<Action>)
    requires t in s.rows && succ != t && !s.rows[t].revoked && Judged(s, p, begun, Inserting(t, s.rows[t], succ))
    ensures Answers(s, p, t, run, Issued(succ))
    ensures var r := s.rows[t];
            Final(s, run).rows == s.rows[t := Row(r.user, r.family, r.expiresAt, true, Some(s.clock), Some(succ))]
                                        [succ := Row(r.user, r.family, expiresAt, false, None, None)]
  {
    run := Inserts(s, p, t, begun, succ, expiresAt);
    OneMoreStep(s, p, run, Claim(p));
    run := run + [Claim(p)];
    OneMoreStep(s, p, run, Reply(p));
    run := run + [Reply(p)];
  }

  lemma Inserts(s: State, p: Pid, t: Token, begun: seq<Action>, succ: Token, expiresAt: int) returns (run: seq<Action>)
    requires t in s.rows && Judged(s, p, begun, Inserting(t, s.rows[t], succ))
    ensures Runs(s, run) && OnlyBy(run, p)
    ensures var s' := Final(s, run);
            && p in s'.procs && s'.procs[p] == Claiming(t, s.rows[t], succ)
            && s'.rows == s.rows[succ := Row(s.rows[t].user, s.rows[t].family, expiresAt, false, None, None)]
            && s'.blacklist == s.blacklist && s'.clock == s.clock
  {
    OneMoreStep(s, p, begun, InsertSuccessor(p, expiresAt));
    run := begun + [InsertSuccessor(p, expiresAt)];
  }

  /** The judgement on a row, in the order of the code. */
  predicate Judgement(s: State, t: Token, suspended: bool, succ: Token, c: Proc)
    requires t in s.rows
  {
    var r := s.rows[t];
    c == if r.revoked then
           if r.revokedAt.Some? && r.replacedBy.Some? && s.clock <= r.revokedAt.value + 20 * 1000
           then Replying(t, r.replacedBy.value)
           else Killing(t, r.family)
         else if suspended then Done(t, Suspended)
         else if s.clock > r.expiresAt then Expiring(t)
         else Inserting(t, r, succ)
  }

  lemma JudgedIsAnswered(s: State, p: Pid, t: Token, suspended: bool, succ: Token, expiresAt: int, c: Proc, begun: seq<Action>)
    returns (run: seq<Action>, response: Response)
    requires t in s.rows && succ != t && Judgement(s, t, suspended, succ, c) && Judged(s, p, begun, c)
    ensures Answers(s, p, t, run, response)
    ensures RowAnswers(s, Final(s, run).rows, t, suspended, succ, expiresAt, response)
  {
    match c {
      case Done(_, _) =>
        run, response := begun, c.response;
      case Replying(_, token) =>
        run := Replies(s, p, t, begun, token);
        response := Issued(token);
      case Killing(_, f) =>
        run := Revokes(s, p, t, begun, f);
        response := Reuse;
      case Expiring(_) =>
        run := Expires(s, p, t, begun);
        response := Expired;
      case Inserting(_, _, _) =>
        run := Rotates(s, p, t, begun, succ, expiresAt);
        response := Issued(succ);
    }
  }

  /**
   A refresh that nothing disturbs, from any state, for any token: turned away by a live blacklist
   entry if Redis answers; without a row invalid; rotated before, the successor within 20 s and else
   the whole family revoked; suspended; expired and removed; or else rotated.
   */
  lemma UndisturbedRefreshAnswers(s: State, p: Pid, t: Token, cacheUp: bool, suspended: bool, succ: Token, expiresAt: int)
    returns (run: seq<Action>, response: Response)
    requires p !in s.procs && Presentable(s.h, t) && Fresh(s.h, succ) && succ != t
    ensures Runs(s, run) && OnlyBy(run, p)
    ensures p in Final(s, run).procs && Final(s, run).procs[p] == Done(t, response)
    ensures TokenAnswers(s, Final(s, run).rows, t, cacheUp, suspended, succ, expiresAt, response)
    ensures Final(s, run).blacklist == s.blacklist && Final(s, run).clock == s.clock
  {
    if cacheUp && t in s.blacklist && s.clock < s.blacklist[t] {
      run := TurnedAwayAlone(s, p, t);
      response := Blacklisted;
    } else if t !in s.rows {
      run := ReachesChecked(s, p, t, cacheUp);
      OneMoreStep(s, p, run, Lookup(p));
      run, response := run + [Lookup(p)], Invalid;
    } else {
      var begun, c := ReachesJudged(s, p, t, cacheUp, suspended, succ);
      run, response := JudgedIsAnswered(s, p, t, suspended, succ, expiresAt, c, begun);
    }
    ClockStands(s, run, p);
  }

  lemma TurnedAwayAlone(s: State, p: Pid, t: Token) returns (run: seq<Action>)
    requires p !in s.procs && Presentable(s.h, t) && t in s.blacklist && s.clock < s.blacklist[t]
    ensures Runs(s, run) && OnlyBy(run, p) && Final(s, run).blacklist == s.blacklist
    ensures Ends(Final(s, run), p, t, Blacklisted, s.rows)
  {
    OneMoreStep(s, p, [], Spawn(p, t));
    run := [] + [Spawn(p, t)];
    OneMoreStep(s, p, run, CheckBlacklist(p, true));
    run := run + [CheckBlacklist(p, true)];
  }

  lemma {:induction false} ClockStands(s: State, run: seq<Action>, p: Pid)
    requires Runs(s, run) && OnlyBy(run, p)
    ensures Final(s, run).clock == s.clock
    decreases |run|
  {
    if run != [] { ClockStands(Apply(s, run[0]), run[1..], p); }
  }

  /** A logout that nothing disturbs removes the token's family and leaves an entry for the whole seconds it had left. */
  lemma UndisturbedLogoutEnds(s: State, p: Pid, t: Token) returns (run: seq<Action>)
    requires p !in s.procs && Presentable(s.h, t)
    ensures Runs(s, run) && OnlyBy(run, p)
    ensures p in Final(s, run).procs && Final(s, run).procs[p] == Done(t, LoggedOut)
    ensures if t !in s.rows then Final(s, run).rows == s.rows && Final(s, run).blacklist == s.blacklist
            else LogoutLeaves(s, Final(s, run), t, s.rows[t])
  {
    OneMoreStep(s, p, [], SpawnLogout(p, t));
    run := [] + [SpawnLogout(p, t)];
    OneMoreStep(s, p, run, LogoutLookup(p));
    run := run + [LogoutLookup(p)];
    if t in s.rows {
      run := DeletesAndMarks(s, p, t, run);
    }
  }

  ghost predicate LogoutLeaves(s: State, s': State, t: Token, r: Row) {
    && (forall u :: u in s'.rows <==> u in s.rows && s.rows[u].family != r.family)
    && (forall u :: u in s'.rows ==> s'.rows[u] == s.rows[u])
    && s'.blacklist == if r.expiresAt - s.clock >= 1000 then s.blacklist[t := s.clock + (r.expiresAt - s.clock) / 1000 * 1000]
                       else s.blacklist
  }

  lemma DeletesAndMarks(s: State, p: Pid, t: Token, begun: seq<Action>) returns (run: seq<Action>)
    requires t in s.rows && Judged(s, p, begun, LogoutFound(t, s.rows[t]))
    ensures Runs(s, run) && OnlyBy(run, p) && LogoutLeaves(s, Final(s, run), t, s.rows[t])
    ensures p in Final(s, run).procs && Final(s, run).procs[p] == Done(t, LoggedOut)
  {
    run := DeletesFamily(s, p, t, begun);
    OneMoreStep(s, p, run, LogoutBlacklist(p));
    run := run + [LogoutBlacklist(p)];
  }

  lemma DeletesFamily(s: State, p: Pid, t: Token, begun: seq<Action>) returns (run: seq<Action>)
    requires t in s.rows && Judged(s, p, begun, LogoutFound(t, s.rows[t]))
    ensures Runs(s, run) && OnlyBy(run, p)
    ensures var s' := Final(s, run);
            && p in s'.procs && s'.procs[p] == LogoutDeleted(t, s.rows[t])
            && s'.blacklist == s.blacklist && s'.clock == s.clock
            && (forall u :: u in s'.rows <==> u in s.rows && s.rows[u].family != s.rows[t].family)
            && forall u :: u in s'.rows ==> s'.rows[u] == s.rows[u]
  {
    OneMoreStep(s, p, begun, LogoutDelete(p));
    run := begun + [LogoutDelete(p)];
  }
}
