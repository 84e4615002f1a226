/** What holds over whole runs of the refresh-token machine. */
module RefreshTheorems {
  import opened Wrappers
  import opened RefreshRotation
  import opened RefreshInvariant

  // ---------------------------------------------------------------- Whole runs

  /** Chains only get longer, at the end, and a dead family's chain is final. */
  ghost predicate Evolves(h: History, h': History) {
    && (forall t :: t in h.place ==> t in h'.place && h'.place[t] == h.place[t])
    && h.handed <= h'.handed
    && (forall f :: f in h.fams ==>
          && f in h'.fams
          && h'.fams[f].user == h.fams[f].user
          && h.fams[f].tokens <= h'.fams[f].tokens
          && (h.fams[f].dead ==> h'.fams[f] == h.fams[f]))
  }

  lemma ClaimEvolves(s: State, p: Pid)
    requires Inv(s) && p in s.procs && s.procs[p].Claiming?
    ensures Evolves(s.h, DoClaim(s, p).h)
  {
    var Claiming(t, rec, succ) := s.procs[p];
    assert ProcOk(s, p, s.procs[p]);
    if Live(s.rows, t) {
      LiveIsTip(s, t);
    }
  }

  lemma KillEvolves(s: State, s': State, killed: set<Family>)
    requires Kills(s, s', killed)
    ensures Evolves(s.h, s'.h)
  {
  }

  lemma EndingEvolves(s: State, a: Action)
    requires Inv(s) && Enabled(s, a)
    requires a.RevokeFamilyForReuse? || a.LogoutDelete? || a.ResetPassword?
    ensures Evolves(s.h, Apply(s, a).h)
  {
    match a
    case RevokeFamilyForReuse(p) =>
      ReuseKills(s, p);
      KillEvolves(s, DoRevokeFamily(s, p), {s.procs[p].family});
    case LogoutDelete(p) =>
      LogoutKills(s, p);
      KillEvolves(s, DoLogoutDelete(s, p), {s.procs[p].rec.family});
    case ResetPassword(p, u) =>
      KillEvolves(s, DoReset(s, u), FamiliesOf(s.h, u));
  }

  /** Every other action leaves existing chains as they are. */
  lemma QuietEvolves(s: State, a: Action)
    requires Enabled(s, a) && SetsOk(s.h)
    requires !a.Claim? && !a.RevokeFamilyForReuse? && !a.LogoutDelete? && !a.ResetPassword?
    ensures Evolves(s.h, Apply(s, a).h)
  {
    assert a.Login? || (Apply(s, a).h.fams == s.h.fams && Apply(s, a).h.place == s.h.place
                        && s.h.handed <= Apply(s, a).h.handed);
  }

  lemma ActionEvolves(s: State, a: Action)
    requires Inv(s) && Enabled(s, a)
    ensures Evolves(s.h, Apply(s, a).h)
  {
    if a.Claim? {
      ClaimEvolves(s, a.p);
    } else if a.RevokeFamilyForReuse? || a.LogoutDelete? || a.ResetPassword? {
      EndingEvolves(s, a);
    } else {
      QuietEvolves(s, a);
    }
  }

  lemma {:induction false} RunKeepsInv(s: State, run: seq<Action>)
    requires Inv(s) && Runs(s, run)
    ensures Inv(Final(s, run)) && Evolves(s.h, Final(s, run).h)
    decreases |run|
  {
    if run != [] {
      var s1 := Apply(s, run[0]);
      ActionKeepsInv(s, run[0]);
      ActionEvolves(s, run[0]);
      RunKeepsInv(s1, run[1..]);
    }
  }

  /** The tokens handed out in family `f`, as one chain: `tokens[i+1]` replaced `tokens[i]`. */
  ghost predicate SingleChain(s: State, f: Family)
    requires f in s.h.fams
  {
    var fam := s.h.fams[f];
    && (forall i, j :: 0 <= i < j < |fam.tokens| ==> fam.tokens[i] != fam.tokens[j])
    && (forall i :: 0 <= i < |fam.tokens| && Live(s.rows, fam.tokens[i]) ==> i == |fam.tokens| - 1 && !fam.dead)
    && (forall i :: 0 <= i < |fam.tokens| - 1 && fam.tokens[i] in s.rows && !fam.dead ==>
          s.rows[fam.tokens[i]].replacedBy == Some(fam.tokens[i + 1]))
  }

  lemma InitIsInv(s: State)
    requires Init(s)
    ensures Inv(s)
  {
  }

  /** `t` lies on the chain of exactly one family. */
  ghost predicate OnOneChain(h: History, t: Token) {
    exists f :: f in h.fams && t in h.fams[f].tokens && forall g :: g in h.fams && t in h.fams[g].tokens ==> g == f
  }

  /**
   In every run every handed-out token lies on exactly one family's chain, and of each chain at
   most the newest token is unrevoked.
   */
  lemma HandedTokensFormOneChain(s0: State, run: seq<Action>)
    requires Init(s0) && Runs(s0, run)
    ensures forall f :: f in Final(s0, run).h.fams ==> SingleChain(Final(s0, run), f)
    ensures forall t :: t in Final(s0, run).h.handed ==> OnOneChain(Final(s0, run).h, t)
  {
    InitIsInv(s0);
    RunKeepsInv(s0, run);
    var s := Final(s0, run);
    AllChains(s);
  }

  lemma AllChains(s: State)
    requires Inv(s)
    ensures forall f :: f in s.h.fams ==> SingleChain(s, f)
    ensures forall t :: t in s.h.handed ==> OnOneChain(s.h, t)
  {
    forall f | f in s.h.fams ensures SingleChain(s, f) { ChainOfFamily(s, f); }
    forall t | t in s.h.handed ensures OnOneChain(s.h, t) { PlacedOnOneChain(s.h, t); }
  }

  lemma PlacedOnOneChain(h: History, t: Token)
    requires PlacesOk(h) && t in h.place
    ensures OnOneChain(h, t)
  {
    var f := h.place[t].family;
    assert h.fams[f].tokens[h.place[t].index] == t;
    forall g | g in h.fams && t in h.fams[g].tokens ensures g == f {
      var i :| 0 <= i < |h.fams[g].tokens| && h.fams[g].tokens[i] == t;
      assert h.place[h.fams[g].tokens[i]] == Place(g, i);
    }
  }

  lemma ChainOfFamily(s: State, f: Family)
    requires Inv(s) && f in s.h.fams
    ensures SingleChain(s, f)
  {
    var tokens := s.h.fams[f].tokens;
    forall i, j | 0 <= i < j < |tokens| ensures tokens[i] != tokens[j] {
      assert s.h.place[tokens[i]] == Place(f, i) && s.h.place[tokens[j]] == Place(f, j);
    }
    forall i | 0 <= i < |tokens| && Live(s.rows, tokens[i]) ensures i == |tokens| - 1 && !s.h.fams[f].dead {
      assert s.h.place[tokens[i]] == Place(f, i);
      LiveIsTip(s, tokens[i]);
    }
    forall i | 0 <= i < |tokens| - 1 && tokens[i] in s.rows && !s.h.fams[f].dead
      ensures s.rows[tokens[i]].replacedBy == Some(tokens[i + 1])
    {
      StoredSuccessor(s, f, i);
    }
  }

  lemma StoredSuccessor(s: State, f: Family, i: nat)
    requires Inv(s) && f in s.h.fams && i < |s.h.fams[f].tokens| && s.h.fams[f].tokens[i] in s.rows
    requires !s.h.fams[f].dead && (s.rows[s.h.fams[f].tokens[i]].revoked || i < |s.h.fams[f].tokens| - 1)
    ensures i < |s.h.fams[f].tokens| - 1
    ensures s.rows[s.h.fams[f].tokens[i]].replacedBy == Some(s.h.fams[f].tokens[i + 1])
    ensures s.rows[s.h.fams[f].tokens[i]].revokedAt.Some? && s.rows[s.h.fams[f].tokens[i]].revoked
  {
    var t := s.h.fams[f].tokens[i];
    assert s.h.place[t] == Place(f, i);
    assert RowOk(s.h, t, s.rows[t]);
    var x := s.rows[t].replacedBy.value;
    assert IsNext(s.h, t, x);
    assert s.h.fams[f].tokens[s.h.place[x].index] == x;
  }

  /** Family `f` is finished: no token of its chain is live, and every claim still pending in it will fail. */
  ghost predicate Finished(s: State, f: Family)
    requires f in s.h.fams
  {
    && (forall i :: 0 <= i < |s.h.fams[f].tokens| ==> !Live(s.rows, s.h.fams[f].tokens[i]))
    && (forall p :: p in s.procs && s.procs[p].Claiming? && s.procs[p].rec.family == f ==>
          !Live(s.rows, s.procs[p].presented))
  }

  /**
   Once reuse revocation, logout or a password reset has killed a family, no later claim in it
   succeeds, whatever refreshes were in flight: its chain is final and none of its tokens is live.
   */
  lemma DeadFamilyStaysDead(s0: State, before: seq<Action>, f: Family, after: seq<Action>)
    requires Init(s0) && Runs(s0, before) && Runs(Final(s0, before), after)
    requires f in Final(s0, before).h.fams && Final(s0, before).h.fams[f].dead
    ensures var s := Final(Final(s0, before), after);
            f in s.h.fams && s.h.fams[f] == Final(s0, before).h.fams[f] && Finished(s, f)
  {
    InitIsInv(s0);
    RunKeepsInv(s0, before);
    DeadStaysFinished(Final(s0, before), f, after);
  }

  lemma DeadStaysFinished(s: State, f: Family, run: seq<Action>)
    requires Inv(s) && f in s.h.fams && s.h.fams[f].dead && Runs(s, run)
    ensures f in Final(s, run).h.fams && Final(s, run).h.fams[f] == s.h.fams[f] && Finished(Final(s, run), f)
  {
    RunKeepsInv(s, run);
    DeadIsFinished(Final(s, run), f);
  }

  lemma DeadIsFinished(s: State, f: Family)
    requires Inv(s) && f in s.h.fams && s.h.fams[f].dead
    ensures Finished(s, f)
  {
    ChainOfFamily(s, f);
    forall p | p in s.procs && s.procs[p].Claiming? && s.procs[p].rec.family == f
      ensures !Live(s.rows, s.procs[p].presented)
    {
      assert ProcOk(s, p, s.procs[p]);
      if Live(s.rows, s.procs[p].presented) { LiveIsTip(s, s.procs[p].presented); }
    }
  }

  /** `s` is where a run from an initial state ends. */
  ghost predicate Reached(s0: State, run: seq<Action>, s: State) {
    Init(s0) && Runs(s0, run) && s == Final(s0, run)
  }

  lemma ReachedIsInv(s0: State, run: seq<Action>, s: State)
    requires Reached(s0, run, s)
    ensures Inv(s)
  {
    InitIsInv(s0);
    RunKeepsInv(s0, run);
  }

  /** The three ways to kill a family do so, for the family of the request and all of the user's families. */
  lemma KillersKill(s0: State, run: seq<Action>, s: State, a: Action)
    requires Reached(s0, run, s) && Enabled(s, a)
    ensures var s' := Apply(s, a);
            && (a.RevokeFamilyForReuse? ==> s.procs[a.p].family in s'.h.fams && s'.h.fams[s.procs[a.p].family].dead)
            && (a.LogoutDelete? ==> s.procs[a.p].rec.family in s'.h.fams && s'.h.fams[s.procs[a.p].rec.family].dead)
            && (a.ResetPassword? ==> forall f :: f in s.h.fams && s.h.fams[f].user == a.user ==>
                                       f in s'.h.fams && s'.h.fams[f].dead)
  {
    ReachedIsInv(s0, run, s);
    if a.RevokeFamilyForReuse? || a.LogoutDelete? {
      var c := s.procs[a.p];
      assert ProcOk(s, a.p, c);
      assert s.h.place[c.presented].family in s.h.fams;
    }
  }

  /** `p` presented `t` and was answered with `x`. */
  predicate Answered(s: State, p: Pid, t: Token, x: Token) {
    p in s.procs && s.procs[p] == Done(t, Issued(x))
  }

  /** `x` follows `t` on some family's chain. */
  ghost predicate Follows(h: History, t: Token, x: Token) {
    exists f, i :: f in h.fams && 0 <= i < |h.fams[f].tokens| - 1 && h.fams[f].tokens[i] == t && h.fams[f].tokens[i + 1] == x
  }

  /** All requests that presented one token and were answered with a token got the same one, its chain successor. */
  lemma SameTokenSameSuccessor(s0: State, run: seq<Action>, p: Pid, q: Pid, t: Token, x: Token, y: Token)
    requires Init(s0) && Runs(s0, run)
    requires Answered(Final(s0, run), p, t, x) && Answered(Final(s0, run), q, t, y)
    ensures x == y && Follows(Final(s0, run).h, t, x)
  {
    InitIsInv(s0);
    RunKeepsInv(s0, run);
    var s := Final(s0, run);
    assert ProcOk(s, p, s.procs[p]) && ProcOk(s, q, s.procs[q]);
    NextFollows(s.h, t, x);
    NextIsUnique(s.h, t, x, y);
  }

  lemma NextIsUnique(h: History, t: Token, x: Token, y: Token)
    requires PlacesOk(h) && IsNext(h, t, x) && IsNext(h, t, y)
    ensures x == y
  {
    assert h.fams[h.place[x].family].tokens[h.place[x].index] == x;
    assert h.fams[h.place[y].family].tokens[h.place[y].index] == y;
  }

  lemma NextFollows(h: History, t: Token, x: Token)
    requires PlacesOk(h) && IsNext(h, t, x)
    ensures Follows(h, t, x)
  {
    var f, i := h.place[t].family, h.place[t].index;
    assert h.fams[f].tokens[i] == t && h.fams[f].tokens[h.place[x].index] == x;
  }

  /** What a request does with the copy of a rotated token's row that it holds, and when that copy was rotated. */
  ghost predicate JoinsWithinGrace(s: State, next: Proc, t: Token, copy: Row)
    requires t in s.h.place && s.h.place[t].family in s.h.fams
  {
    var f, i := s.h.place[t].family, s.h.place[t].index;
    && copy.family == f
    && (next == Killing(t, f) || (i + 1 < |s.h.fams[f].tokens| && next == Replying(t, s.h.fams[f].tokens[i + 1])))
    && (!s.h.fams[f].dead ==>
          copy.revokedAt.Some? && (next.Replying? <==> s.clock - copy.revokedAt.value <= REFRESH_GRACE_MS))
  }

  lemma CopyNamesNext(s: State, t: Token, copy: Row)
    requires PlacesOk(s.h) && CopyOk(s.h, t, copy) && copy.revoked
    ensures s.h.place[t].family in s.h.fams
    ensures JoinsWithinGrace(s, if WithinGrace(copy, s.clock) then Replying(t, copy.replacedBy.value)
                                else Killing(t, copy.family), t, copy)
  {
    if copy.replacedBy.Some? {
      var x := copy.replacedBy.value;
      assert s.h.fams[s.h.place[x].family].tokens[s.h.place[x].index] == x;
    }
  }

  /**
   The decision on a rotated token, at any time after the lookup: the request either answers with the
   chain successor or turns to revoking the family; while the family lives it answers exactly within
   20 s of the rotation that the copy it holds records.
   */
  lemma GraceIsExact(s0: State, run: seq<Action>, s: State, p: Pid, suspended: bool, succ: Token)
    requires Reached(s0, run, s) && p in s.procs && s.procs[p].Looked? && s.procs[p].rec.revoked
    ensures var Looked(t, rec) := s.procs[p];
            && t in s.h.place && s.h.place[t].family in s.h.fams
            && JoinsWithinGrace(s, DoDecide(s, p, suspended, succ).procs[p], t, rec)
  {
    ReachedIsInv(s0, run, s);
    assert ProcOk(s, p, s.procs[p]);
    CopyNamesNext(s, s.procs[p].presented, s.procs[p].rec);
  }

  /** The same for a request that lost the race, with the row it looked up again; without one it revokes the family. */
  lemma LoserJoinsWinner(s0: State, run: seq<Action>, s: State, p: Pid)
    requires Reached(s0, run, s) && p in s.procs && s.procs[p].Relooked?
    ensures var Relooked(t, rec, winner) := s.procs[p];
            && t in s.h.place && s.h.place[t].family in s.h.fams
            && if winner.Some? then JoinsWithinGrace(s, DoDecideLoser(s, p).procs[p], t, winner.value)
               else DoDecideLoser(s, p).procs[p] == Killing(t, s.h.place[t].family)
  {
    ReachedIsInv(s0, run, s);
    assert ProcOk(s, p, s.procs[p]);
    var Relooked(t, rec, winner) := s.procs[p];
    if winner.Some? { CopyNamesNext(s, t, winner.value); }
  }

  /** A request that looks its token up after the family was killed is never answered with a token. */
  lemma DeadFamilyAnswersNoOne(s0: State, run: seq<Action>, s: State, p: Pid, suspended: bool, succ: Token)
    requires Reached(s0, run, s) && p in s.procs && s.procs[p].Checked? && InDeadFamily(s.h, s.procs[p].presented)
    ensures var s' := DoLookup(s, p);
            && (s'.procs[p].Looked? || s'.procs[p] == Done(s.procs[p].presented, Invalid))
            && (s'.procs[p].Looked? ==> DoDecide(s', p, suspended, succ).procs[p].Killing?)
  {
    ReachedIsInv(s0, run, s);
    var t := s.procs[p].presented;
    if t in s.rows { assert RowOk(s.h, t, s.rows[t]); }
  }

  /**
   No race costs a user the session: the newest token of a live family still has an unrevoked
   row unless the expiry branch removed it.
   */
  lemma NewestTokenIsUsable(s0: State, run: seq<Action>, f: Family)
    requires Init(s0) && Runs(s0, run)
    requires f in Final(s0, run).h.fams && !Final(s0, run).h.fams[f].dead
    ensures var s := Final(s0, run);
            && |s.h.fams[f].tokens| > 0
            && (Newest(s.h, f) in s.h.expired || Live(s.rows, Newest(s.h, f)))
  {
    InitIsInv(s0);
    RunKeepsInv(s0, run);
  }

  // ---------------------------------------------------------------- Which tokens still have a row

  /** Every token of a living family has its row, unless it was removed as expired. */
  ghost predicate ChainRowsOk(s: State) {
    forall t :: t in s.h.place && s.h.place[t].family in s.h.fams && !s.h.fams[s.h.place[t].family].dead
                && t !in s.h.expired
      ==> t in s.rows
  }

  lemma ClaimKeepsChainRows(s: State, p: Pid)
    requires Inv(s) && ChainRowsOk(s) && p in s.procs && s.procs[p].Claiming?
    ensures ChainRowsOk(DoClaim(s, p))
  {
    assert ProcOk(s, p, s.procs[p]);
  }

  lemma DeletionKeepsChainRows(s: State, a: Action)
    requires Inv(s) && ChainRowsOk(s) && Enabled(s, a) && (a.DeleteExpired? || a.DeleteSuccessor?)
    ensures ChainRowsOk(Apply(s, a))
  {
    assert ProcOk(s, a.p, s.procs[a.p]);
  }

  lemma KillKeepsChainRows(s: State, s': State, killed: set<Family>)
    requires RowsOk(s) && ChainRowsOk(s) && Kills(s, s', killed)
    ensures ChainRowsOk(s')
  {
    forall t | t in s'.h.place && s'.h.place[t].family in s'.h.fams && !s'.h.fams[s'.h.place[t].family].dead
               && t !in s'.h.expired
      ensures t in s'.rows
    {
      assert RowOk(s.h, t, s.rows[t]);
    }
  }

  lemma EndingKeepsChainRows(s: State, a: Action)
    requires RowsOk(s) && ChainRowsOk(s) && Enabled(s, a)
    requires a.RevokeFamilyForReuse? || a.LogoutDelete? || a.ResetPassword?
    ensures ChainRowsOk(Apply(s, a))
  {
    if a.RevokeFamilyForReuse? {
      ReuseKills(s, a.p);
      KillKeepsChainRows(s, Apply(s, a), {s.procs[a.p].family});
    } else if a.LogoutDelete? {
      LogoutKills(s, a.p);
      KillKeepsChainRows(s, Apply(s, a), {s.procs[a.p].rec.family});
    } else {
      KillKeepsChainRows(s, Apply(s, a), FamiliesOf(s.h, a.user));
    }
  }

  lemma LoginKeepsChainRows(s: State, a: Action)
    requires PlacesOk(s.h) && ChainRowsOk(s) && Enabled(s, a) && a.Login?
    ensures ChainRowsOk(Apply(s, a))
  {
  }

  /** Every other action leaves chains and expiries alone and takes no row away. */
  predicate LeavesChains(s: State, s': State) {
    s'.h.fams == s.h.fams && s'.h.place == s.h.place && s'.h.expired == s.h.expired && s.rows.Keys <= s'.rows.Keys
  }

  lemma QuietLeavesChains(s: State, a: Action)
    requires Enabled(s, a) && !a.Login? && !a.Claim? && !a.DeleteExpired? && !a.DeleteSuccessor?
    requires !a.RevokeFamilyForReuse? && !a.LogoutDelete? && !a.ResetPassword?
    ensures LeavesChains(s, Apply(s, a))
  {
  }

  lemma {:induction false} RunKeepsChainRows(s: State, run: seq<Action>)
    requires Inv(s) && ChainRowsOk(s) && Runs(s, run)
    ensures ChainRowsOk(Final(s, run))
    decreases |run|
  {
    if run != [] {
      var a := run[0];
      ActionKeepsInv(s, a);
      if a.Claim? {
        ClaimKeepsChainRows(s, a.p);
      } else if a.DeleteExpired? || a.DeleteSuccessor? {
        DeletionKeepsChainRows(s, a);
      } else if a.RevokeFamilyForReuse? || a.LogoutDelete? || a.ResetPassword? {
        EndingKeepsChainRows(s, a);
      } else if a.Login? {
        LoginKeepsChainRows(s, a);
      } else {
        QuietLeavesChains(s, a);
      }
      RunKeepsChainRows(Apply(s, a), run[1..]);
    }
  }

  /** In every run a token on a chain that has no row belongs to a dead family or was removed as expired. */
  lemma MissingMeansDeadOrExpired(s0: State, run: seq<Action>, s: State, t: Token)
    requires Reached(s0, run, s) && t in s.h.place && t !in s.rows
    ensures InDeadFamily(s.h, t) || t in s.h.expired
  {
    InitIsInv(s0);
    RunKeepsChainRows(s0, run);
    ReachedIsInv(s0, run, s);
  }

  function RequestSteps(p: Pid, t: Token, cacheUp: bool, succ: Token): seq<Action> {
    [Spawn(p, t), CheckBlacklist(p, cacheUp), Lookup(p), Decide(p, false, succ)]
  }

  function RotationSteps(p: Pid, expiresAt: int): seq<Action> {
    [InsertSuccessor(p, expiresAt), Claim(p), Reply(p)]
  }

  /** No entry of the blacklist that has not run out, or no Redis to ask. */
  predicate Unmarked(s: State, t: Token, cacheUp: bool) {
    !cacheUp || t !in s.blacklist || s.blacklist[t] <= s.clock
  }

  /** ... and presenting it rotates it: the undisturbed request ends with its own successor on the chain. */
  lemma UndisturbedRefreshRotates(s: State, p: Pid, t: Token, cacheUp: bool, succ: Token, expiresAt: int)
    requires Inv(s) && p !in s.procs && t in s.h.handed && Live(s.rows, t) && s.clock <= s.rows[t].expiresAt
    requires Unmarked(s, t, cacheUp) && Fresh(s.h, succ) && succ != t
    ensures Runs(s, RequestSteps(p, t, cacheUp, succ) + RotationSteps(p, expiresAt))
    ensures Rotated(s, Final(s, RequestSteps(p, t, cacheUp, succ) + RotationSteps(p, expiresAt)), p, t, succ)
  {
    var h4 := s.h.(seen := s.h.seen + {t}, made := s.h.made[succ := p]);
    RequestReachesInsert(s, p, t, cacheUp, succ);
    assert t in s.rows && s.rows[t].family in s.h.fams by { LiveIsTip(s, t); }
    InsertReachesReply(s, p, t, succ, expiresAt, h4);
    RunsConcat(s, RequestSteps(p, t, cacheUp, succ), RotationSteps(p, expiresAt));
  }

  ghost predicate Rotated(s: State, s': State, p: Pid, t: Token, succ: Token)
    requires t in s.rows && s.rows[t].family in s.h.fams
  {
    && Answered(s', p, t, succ)
    && Live(s'.rows, succ) && !Live(s'.rows, t)
    && s.rows[t].family in s'.h.fams
    && s'.h.fams[s.rows[t].family].tokens == s.h.fams[s.rows[t].family].tokens + [succ]
  }

  lemma RequestReachesInsert(s: State, p: Pid, t: Token, cacheUp: bool, succ: Token)
    requires p !in s.procs && t in s.h.handed && Live(s.rows, t) && s.clock <= s.rows[t].expiresAt
    requires Unmarked(s, t, cacheUp) && Fresh(s.h, succ) && succ != t
    ensures var run := RequestSteps(p, t, cacheUp, succ);
            && Runs(s, run)
            && Final(s, run) == Goto(s, p, Inserting(t, s.rows[t], succ)).(
                                h := s.h.(seen := s.h.seen + {t}, made := s.h.made[succ := p]))
  {
    var run := RequestSteps(p, t, cacheUp, succ);
    var s0 := s.(h := s.h.(seen := s.h.seen + {t}));
    LookedReachesInsert(s0, p, t, succ, run[2..]);
    assert s0.procs[p := Start(t)][p := Checked(t)] == s0.procs[p := Checked(t)];
    RunStep(Goto(s0, p, Start(t)), run[1..]);
    RunStep(s, run);
  }

  lemma LookedReachesInsert(s: State, p: Pid, t: Token, succ: Token, run: seq<Action>)
    requires Live(s.rows, t) && s.clock <= s.rows[t].expiresAt && Fresh(s.h, succ)
    requires run == [Lookup(p), Decide(p, false, succ)]
    ensures Runs(Goto(s, p, Checked(t)), run)
    ensures Final(Goto(s, p, Checked(t)), run)
            == Goto(s, p, Inserting(t, s.rows[t], succ)).(h := s.h.(made := s.h.made[succ := p]))
  {
    var rec := s.rows[t];
    assert s.procs[p := Checked(t)][p := Looked(t, rec)] == s.procs[p := Looked(t, rec)];
    assert s.procs[p := Looked(t, rec)][p := Inserting(t, rec, succ)] == s.procs[p := Inserting(t, rec, succ)];
    RunStep(Goto(s, p, Looked(t, rec)), run[1..]);
    RunStep(Goto(s, p, Checked(t)), run);
  }

  lemma InsertReachesReply(s: State, p: Pid, t: Token, succ: Token, expiresAt: int, h4: History)
    requires Live(s.rows, t) && succ != t && s.rows[t].family in s.h.fams && h4.fams == s.h.fams
    ensures var run := RotationSteps(p, expiresAt);
            var s4 := Goto(s, p, Inserting(t, s.rows[t], succ)).(h := h4);
            Runs(s4, run) && Rotated(s, Final(s4, run), p, t, succ)
  {
    var run := RotationSteps(p, expiresAt);
    var s4 := Goto(s, p, Inserting(t, s.rows[t], succ)).(h := h4);
    var s5 := DoInsert(s4, p, expiresAt);
    assert s5.procs[p] == Claiming(t, s.rows[t], succ) && Live(s5.rows, t);
    var s6 := DoClaim(s5, p);
    assert s6.procs[p] == Replying(t, succ);
    RunStep(s6, run[2..]);
    RunStep(s5, run[1..]);
    RunStep(s4, run);
  }

  lemma RunStep(s: State, run: seq<Action>)
    requires run != [] && Enabled(s, run[0]) && Runs(Apply(s, run[0]), run[1..])
    ensures Runs(s, run) && Final(s, run) == Final(Apply(s, run[0]), run[1..])
  {
  }

  lemma {:induction false} RunsConcat(s: State, run1: seq<Action>, run2: seq<Action>)
    requires Runs(s, run1) && Runs(Final(s, run1), run2)
    ensures Runs(s, run1 + run2) && Final(s, run1 + run2) == Final(Final(s, run1), run2)
    decreases |run1|
  {
    if run1 == [] {
      assert run1 + run2 == run2;
    } else {
      assert (run1 + run2)[1..] == run1[1..] + run2;
      RunsConcat(Apply(s, run1[0]), run1[1..], run2);
    }
  }
}
