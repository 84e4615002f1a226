/** Every action of the refresh-token machine keeps its invariant. */
module RefreshInvariant {
  import opened RefreshRotation

  // ---------------------------------------------------------------- What one action may change for the others

  /** History only grows; tokens newly generated or newly placed were never another request's. */
  ghost predicate Grows(h: History, h': History, p: Pid) {
    && (forall t :: t in h.place ==> t in h'.place && h'.place[t] == h.place[t])
    && (forall t :: t in h.made ==> t in h'.made && h'.made[t] == h.made[t])
    && h.handed <= h'.handed
    && h.seen <= h'.seen
    && (forall t :: t in h'.made && t !in h.made ==> t !in h.seen)
    && (forall t :: t in h'.place && t !in h.place ==> t !in h.made || h.made[t] == p)
    && (forall f :: f in h.fams ==>
          f in h'.fams && h'.fams[f].user == h.fams[f].user && (h.fams[f].dead ==> h'.fams[f].dead))
  }

  /** A pending successor of another request is neither inserted nor removed on its own. */
  ghost predicate RowsRely(s: State, s': State, p: Pid) {
    && (forall u :: u in s'.rows && u !in s.rows ==> u !in s.h.made || s.h.made[u] == p)
    && (forall t :: t in s.h.place && Live(s'.rows, t) ==> Live(s.rows, t))
    && (forall t, u ::
          t in s.h.place && u in s.h.made && u !in s.h.place && s.h.made[u] != p
          && Live(s.rows, t) && Live(s.rows, u) && s.rows[t].family == s.rows[u].family && Live(s'.rows, t)
          ==> Live(s'.rows, u) && s'.rows[u].family == s.rows[u].family)
  }

  lemma CopyKept(h: History, h': History, p: Pid, t: Token, rec: Row)
    requires Grows(h, h', p) && CopyOk(h, t, rec)
    ensures CopyOk(h', t, rec)
  {
  }

  lemma OtherKept(s: State, s': State, p: Pid, q: Pid, c: Proc)
    requires Grows(s.h, s'.h, p) && RowsRely(s, s', p) && RowsOk(s)
    requires q != p && ProcOk(s, q, c)
    ensures ProcOk(s', q, c)
  {
    match c
    case Looked(t, rec) => CopyKept(s.h, s'.h, p, t, rec);
    case Inserting(t, rec, succ) => CopyKept(s.h, s'.h, p, t, rec);
    case Claiming(t, rec, succ) =>
      CopyKept(s.h, s'.h, p, t, rec);
      if Live(s'.rows, t) {
        assert Live(s.rows, t);
        assert RowOk(s.h, t, s.rows[t]);
      }
    case Lost(t, rec, succ) => CopyKept(s.h, s'.h, p, t, rec);
    case Relooking(t, rec) => CopyKept(s.h, s'.h, p, t, rec);
    case Relooked(t, rec, winner) =>
      CopyKept(s.h, s'.h, p, t, rec);
      if winner.Some? { CopyKept(s.h, s'.h, p, t, winner.value); }
    case _ =>
  }

  /** Reduces the preservation of `ProcsOk` to the acting request. */
  lemma ProcsKept(s: State, s': State, p: Pid)
    requires ProcsOk(s) && RowsOk(s)
    requires Grows(s.h, s'.h, p) && RowsRely(s, s', p)
    requires forall q :: q in s'.procs && q != p ==> q in s.procs && s'.procs[q] == s.procs[q]
    requires p in s'.procs ==> ProcOk(s', p, s'.procs[p])
    ensures ProcsOk(s')
  {
    forall q | q in s'.procs ensures ProcOk(s', q, s'.procs[q]) {
      if q != p {
        assert ProcOk(s, q, s.procs[q]);
        OtherKept(s, s', p, q, s.procs[q]);
      }
    }
  }

  // ---------------------------------------------------------------- Every action keeps the invariant

  /** Actions that move one request and at most mark tokens as seen or handed. */
  lemma LocalMoveKeepsInv(s: State, s': State, p: Pid, c: Proc)
    requires Inv(s) && s'.rows == s.rows && s'.procs == s.procs[p := c]
    requires s'.h.fams == s.h.fams && s'.h.place == s.h.place && s'.h.made == s.h.made && s'.h.expired == s.h.expired
    requires s.h.handed <= s'.h.handed && s.h.seen <= s'.h.seen
    requires forall t :: t in s'.h.handed ==> t in s'.h.place
    requires ProcOk(s', p, c)
    ensures Inv(s')
  {
    LocalMoveKeepsProcs(s, s', p, c);
  }

  lemma LocalMoveKeepsProcs(s: State, s': State, p: Pid, c: Proc)
    requires ProcsOk(s) && RowsOk(s) && s'.rows == s.rows && s'.procs == s.procs[p := c] && ProcOk(s', p, c)
    requires s'.h.fams == s.h.fams && s'.h.place == s.h.place && s'.h.made == s.h.made
    requires s.h.handed <= s'.h.handed && s.h.seen <= s'.h.seen
    ensures ProcsOk(s')
  {
    ProcsKept(s, s', p);
  }

  lemma RowIsCopy(s: State, t: Token)
    requires Inv(s) && t in s.rows && t in s.h.place
    ensures CopyOk(s.h, t, s.rows[t])
  {
    assert RowOk(s.h, t, s.rows[t]);
  }

  lemma SpawnKeepsInv(s: State, p: Pid, c: Proc)
    requires Inv(s) && p !in s.procs && (c.Start? || c.LogoutStart?) && Presentable(s.h, c.presented)
    ensures Inv(DoSpawn(s, p, c))
  {
    LocalMoveKeepsInv(s, DoSpawn(s, p, c), p, c);
  }

  lemma CheckKeepsInv(s: State, p: Pid, cacheUp: bool)
    requires Inv(s) && p in s.procs && s.procs[p].Start?
    ensures Inv(DoCheckBlacklist(s, p, cacheUp))
  {
    var s' := DoCheckBlacklist(s, p, cacheUp);
    assert ProcOk(s, p, s.procs[p]);
    LocalMoveKeepsInv(s, s', p, s'.procs[p]);
  }

  lemma PresentedIsPlaced(s: State, t: Token)
    requires Inv(s) && t in s.rows && Presentable(s.h, t)
    ensures CopyOk(s.h, t, s.rows[t])
  {
    assert RowOk(s.h, t, s.rows[t]);
  }

  lemma LookupKeepsInv(s: State, p: Pid)
    requires Inv(s) && p in s.procs && s.procs[p].Checked?
    ensures Inv(DoLookup(s, p))
  {
    var s' := DoLookup(s, p);
    var t := s.procs[p].presented;
    assert ProcOk(s, p, s.procs[p]);
    if t in s.rows { PresentedIsPlaced(s, t); }
    LocalMoveKeepsInv(s, s', p, s'.procs[p]);
  }

  lemma LogoutLookupKeepsInv(s: State, p: Pid)
    requires Inv(s) && p in s.procs && s.procs[p].LogoutStart?
    ensures Inv(DoLogoutLookup(s, p))
  {
    var s' := DoLogoutLookup(s, p);
    var t := s.procs[p].presented;
    assert ProcOk(s, p, s.procs[p]);
    if t in s.rows { PresentedIsPlaced(s, t); }
    LocalMoveKeepsInv(s, s', p, s'.procs[p]);
  }

  lemma LookupWinnerKeepsInv(s: State, p: Pid)
    requires Inv(s) && p in s.procs && s.procs[p].Relooking?
    ensures Inv(DoLookupWinner(s, p))
  {
    var s' := DoLookupWinner(s, p);
    var t := s.procs[p].presented;
    assert ProcOk(s, p, s.procs[p]);
    if t in s.rows { RowIsCopy(s, t); }
    LocalMoveKeepsInv(s, s', p, s'.procs[p]);
  }

  lemma GenerateKeepsProcs(s: State, p: Pid, t: Token, rec: Row, succ: Token)
    requires ProcsOk(s) && RowsOk(s) && SetsOk(s.h) && CopyOk(s.h, t, rec) && Fresh(s.h, succ)
    ensures ProcsOk(Goto(s, p, Inserting(t, rec, succ)).(h := s.h.(made := s.h.made[succ := p])))
  {
    var s' := Goto(s, p, Inserting(t, rec, succ)).(h := s.h.(made := s.h.made[succ := p]));
    assert forall u :: u in s.rows ==> RowOk(s.h, u, s.rows[u]) && u in s.h.made;
    assert Grows(s.h, s'.h, p);
    ProcsKept(s, s', p);
  }

  lemma GenerateKeepsInv(s: State, p: Pid, t: Token, rec: Row, succ: Token)
    requires Inv(s) && CopyOk(s.h, t, rec) && Fresh(s.h, succ)
    ensures Inv(Goto(s, p, Inserting(t, rec, succ)).(h := s.h.(made := s.h.made[succ := p])))
  {
    var s' := Goto(s, p, Inserting(t, rec, succ)).(h := s.h.(made := s.h.made[succ := p]));
    GenerateKeepsProcs(s, p, t, rec, succ);
  }

  lemma DecideKeepsInv(s: State, p: Pid, suspended: bool, succ: Token)
    requires Inv(s) && p in s.procs && s.procs[p].Looked? && Fresh(s.h, succ)
    ensures Inv(DoDecide(s, p, suspended, succ))
  {
    var Looked(t, rec) := s.procs[p];
    assert ProcOk(s, p, s.procs[p]);
    if rec.revoked {
      RevokedKeepsInv(s, p, t, rec);
    } else if suspended {
      LocalMoveKeepsInv(s, Goto(s, p, Done(t, Suspended)), p, Done(t, Suspended));
    } else if rec.expiresAt < s.clock {
      LocalMoveKeepsInv(s, Goto(s, p, Expiring(t)), p, Expiring(t));
    } else {
      GenerateKeepsInv(s, p, t, rec, succ);
    }
  }

  lemma RevokedKeepsInv(s: State, p: Pid, t: Token, rec: Row)
    requires Inv(s) && CopyOk(s.h, t, rec)
    ensures rec.replacedBy.Some? ==> Inv(Goto(s, p, Replying(t, rec.replacedBy.value)))
    ensures Inv(Goto(s, p, Killing(t, rec.family)))
  {
    var c := Killing(t, rec.family);
    LocalMoveKeepsInv(s, Goto(s, p, c), p, c);
    if rec.replacedBy.Some? {
      var c' := Replying(t, rec.replacedBy.value);
      LocalMoveKeepsInv(s, Goto(s, p, c'), p, c');
    }
  }

  lemma DecideLoserKeepsInv(s: State, p: Pid)
    requires Inv(s) && p in s.procs && s.procs[p].Relooked?
    ensures Inv(DoDecideLoser(s, p))
  {
    var Relooked(t, rec, winner) := s.procs[p];
    assert ProcOk(s, p, s.procs[p]);
    if winner.Some? { RevokedKeepsInv(s, p, t, winner.value); }
    RevokedKeepsInv(s, p, t, rec);
  }

  lemma ReplyKeepsInv(s: State, p: Pid)
    requires Inv(s) && p in s.procs && s.procs[p].Replying?
    ensures Inv(DoReply(s, p))
  {
    var s' := DoReply(s, p);
    assert ProcOk(s, p, s.procs[p]);
    LocalMoveKeepsInv(s, s', p, s'.procs[p]);
  }

  lemma BlacklistKeepsInv(s: State, p: Pid)
    requires Inv(s) && p in s.procs && s.procs[p].LogoutDeleted?
    ensures Inv(DoLogoutBlacklist(s, p))
  {
    var s' := DoLogoutBlacklist(s, p);
    LocalMoveKeepsInv(s, s', p, s'.procs[p]);
  }

  lemma LoginKeepsRows(s: State, p: Pid, user: User, family: Family, token: Token, expiresAt: int)
    requires RowsOk(s) && PlacesOk(s.h) && SetsOk(s.h) && family !in s.h.fams && Fresh(s.h, token)
    ensures RowsOk(DoLogin(s, p, user, family, token, expiresAt))
  {
    var s' := DoLogin(s, p, user, family, token, expiresAt);
    forall t | t in s'.rows ensures RowOk(s'.h, t, s'.rows[t]) {
      if t != token { assert RowOk(s.h, t, s.rows[t]); }
    }
  }

  lemma LoginKeepsTips(s: State, p: Pid, user: User, family: Family, token: Token, expiresAt: int)
    requires TipsOk(s) && family !in s.h.fams
    ensures TipsOk(DoLogin(s, p, user, family, token, expiresAt))
  {
    var s' := DoLogin(s, p, user, family, token, expiresAt);
    forall f | f in s'.h.fams && !s'.h.fams[f].dead && |s'.h.fams[f].tokens| > 0
      ensures Live(s'.rows, Newest(s'.h, f)) || Newest(s'.h, f) in s'.h.expired
    {
      if f != family { assert Newest(s'.h, f) == Newest(s.h, f); }
    }
  }

  lemma LoginKeepsPlaces(s: State, p: Pid, user: User, family: Family, token: Token, expiresAt: int)
    requires PlacesOk(s.h) && SetsOk(s.h) && family !in s.h.fams && Fresh(s.h, token)
    ensures PlacesOk(DoLogin(s, p, user, family, token, expiresAt).h)
    ensures SetsOk(DoLogin(s, p, user, family, token, expiresAt).h)
  {
  }

  lemma LoginKeepsInv(s: State, p: Pid, user: User, family: Family, token: Token, expiresAt: int)
    requires Inv(s) && p !in s.procs && family !in s.h.fams && Fresh(s.h, token)
    ensures Inv(DoLogin(s, p, user, family, token, expiresAt))
  {
    LoginKeepsPlaces(s, p, user, family, token, expiresAt);
    LoginKeepsRows(s, p, user, family, token, expiresAt);
    LoginKeepsTips(s, p, user, family, token, expiresAt);
    LoginKeepsProcs(s, p, user, family, token, expiresAt);
  }

  lemma LoginKeepsProcs(s: State, p: Pid, user: User, family: Family, token: Token, expiresAt: int)
    requires ProcsOk(s) && RowsOk(s) && SetsOk(s.h)
    requires p !in s.procs && family !in s.h.fams && Fresh(s.h, token)
    ensures ProcsOk(DoLogin(s, p, user, family, token, expiresAt))
  {
    var s' := DoLogin(s, p, user, family, token, expiresAt);
    assert forall t :: t in s.rows ==> RowOk(s.h, t, s.rows[t]) && t in s.h.made;
    LoginGrows(s, p, user, family, token, expiresAt);
    ProcsKept(s, s', p);
  }

  lemma LoginGrows(s: State, p: Pid, user: User, family: Family, token: Token, expiresAt: int)
    requires SetsOk(s.h) && family !in s.h.fams && Fresh(s.h, token) && token !in s.rows
    ensures Grows(s.h, DoLogin(s, p, user, family, token, expiresAt).h, p)
    ensures RowsRely(s, DoLogin(s, p, user, family, token, expiresAt), p)
  {
  }

  /** Deleting the row of a chain token, or the deleting request's own pending successor, disturbs no one. */
  lemma DeleteKeepsProcs(s: State, s': State, p: Pid, u: Token)
    requires ProcsOk(s) && RowsOk(s) && s'.rows == s.rows - {u} && s'.h.(expired := s.h.expired) == s.h
    requires p in s'.procs && s'.procs == s.procs[p := s'.procs[p]] && ProcOk(s', p, s'.procs[p])
    requires u in s.h.place || Pending(s.h, p, u)
    ensures ProcsOk(s')
  {
    assert RowsRely(s, s', p);
    ProcsKept(s, s', p);
  }

  lemma DeleteExpiredKeepsInv(s: State, p: Pid)
    requires Inv(s) && p in s.procs && s.procs[p].Expiring?
    ensures Inv(DoDeleteExpired(s, p))
  {
    var s' := DoDeleteExpired(s, p);
    var t := s.procs[p].presented;
    assert ProcOk(s, p, s.procs[p]);
    DeleteKeepsProcs(s, s', p, t);
  }

  lemma DeleteSuccessorKeepsInv(s: State, p: Pid)
    requires Inv(s) && p in s.procs && s.procs[p].Lost?
    ensures Inv(DoDeleteSuccessor(s, p))
  {
    var s' := DoDeleteSuccessor(s, p);
    var succ := s.procs[p].succ;
    assert ProcOk(s, p, s.procs[p]);
    DeleteKeepsProcs(s, s', p, succ);
  }

  lemma InsertKeepsInv(s: State, p: Pid, expiresAt: int)
    requires Inv(s) && p in s.procs && s.procs[p].Inserting?
    ensures Inv(DoInsert(s, p, expiresAt))
  {
    assert ProcOk(s, p, s.procs[p]);
    InsertKeepsProcs(s, p, expiresAt);
  }

  lemma InsertKeepsProcs(s: State, p: Pid, expiresAt: int)
    requires ProcsOk(s) && RowsOk(s) && p in s.procs && s.procs[p].Inserting?
    ensures ProcsOk(DoInsert(s, p, expiresAt))
  {
    var s' := DoInsert(s, p, expiresAt);
    assert ProcOk(s, p, s.procs[p]);
    assert RowsRely(s, s', p);
    ProcsKept(s, s', p);
  }

  // The claim: the one action that lengthens a chain.

  /** Only the newest token of a live family still has an unrevoked row. */
  lemma LiveIsTip(s: State, t: Token)
    requires PlacesOk(s.h) && RowsOk(s) && t in s.h.place && Live(s.rows, t)
    ensures s.h.place[t].family in s.h.fams && IsTip(s.h, t)
    ensures !s.h.fams[s.h.place[t].family].dead && s.rows[t].family == s.h.place[t].family
  {
    assert RowOk(s.h, t, s.rows[t]);
  }

  lemma SucceedKeepsPlaces(h: History, f: Family, succ: Token)
    requires PlacesOk(h) && SetsOk(h) && f in h.fams && succ !in h.place && succ in h.made
    ensures PlacesOk(Succeed(h, f, succ)) && SetsOk(Succeed(h, f, succ))
  {
    var h' := Succeed(h, f, succ);
    var n := |h.fams[f].tokens|;
    assert h'.fams[f].tokens[n] == succ;
    forall g, i | g in h'.fams && 0 <= i < |h'.fams[g].tokens|
      ensures h'.fams[g].tokens[i] in h'.place && h'.place[h'.fams[g].tokens[i]] == Place(g, i)
    {
      if g == f && i == n {
      } else {
        assert h'.fams[g].tokens[i] == h.fams[g].tokens[i];
        assert h.fams[g].tokens[i] in h.place;
      }
    }
  }

  lemma ClaimKeepsRows(s: State, p: Pid)
    requires PlacesOk(s.h) && RowsOk(s)
    requires p in s.procs && s.procs[p].Claiming? && ProcOk(s, p, s.procs[p]) && Live(s.rows, s.procs[p].presented)
    ensures RowsOk(DoClaim(s, p))
  {
    var s' := DoClaim(s, p);
    var Claiming(t, rec, succ) := s.procs[p];
    LiveIsTip(s, t);
    forall u | u in s'.rows ensures RowOk(s'.h, u, s'.rows[u]) {
      ClaimKeepsRow(s, p, u);
    }
  }

  lemma ClaimKeepsRow(s: State, p: Pid, u: Token)
    requires PlacesOk(s.h) && RowsOk(s) && u in s.rows
    requires p in s.procs && s.procs[p].Claiming? && ProcOk(s, p, s.procs[p]) && Live(s.rows, s.procs[p].presented)
    ensures RowOk(DoClaim(s, p).h, u, DoClaim(s, p).rows[u])
  {
    var Claiming(t, rec, succ) := s.procs[p];
    LiveIsTip(s, t);
    assert RowOk(s.h, u, s.rows[u]);
    assert RowOk(s.h, t, s.rows[t]);
    if u in s.h.place && s.h.place[u].family == rec.family && u != t {
      var tokens := s.h.fams[rec.family].tokens;
      assert tokens[s.h.place[u].index] == u && tokens[s.h.place[t].index] == t;
    }
  }

  lemma ClaimKeepsTips(s: State, p: Pid)
    requires PlacesOk(s.h) && TipsOk(s)
    requires p in s.procs && s.procs[p].Claiming? && ProcOk(s, p, s.procs[p]) && Live(s.rows, s.procs[p].presented)
    ensures TipsOk(DoClaim(s, p))
  {
    var s' := DoClaim(s, p);
    var Claiming(t, rec, succ) := s.procs[p];
    forall f | f in s'.h.fams && !s'.h.fams[f].dead && |s'.h.fams[f].tokens| > 0
      ensures Live(s'.rows, Newest(s'.h, f)) || Newest(s'.h, f) in s'.h.expired
    {
      if f != rec.family {
        assert Newest(s'.h, f) == Newest(s.h, f);
        assert s.h.place[Newest(s.h, f)].family == f;
      }
    }
  }

  lemma ClaimKeepsProcs(s: State, p: Pid)
    requires RowsOk(s) && ProcsOk(s)
    requires p in s.procs && s.procs[p].Claiming? && ProcOk(s, p, s.procs[p]) && Live(s.rows, s.procs[p].presented)
    ensures ProcsOk(DoClaim(s, p))
  {
    var s' := DoClaim(s, p);
    var Claiming(t, rec, succ) := s.procs[p];
    SucceedGrows(s.h, rec.family, succ, p);
    RevokeOneIsRely(s, s', p, t);
    ProcsKept(s, s', p);
  }

  lemma SucceedGrows(h: History, f: Family, succ: Token, p: Pid)
    requires f in h.fams && Pending(h, p, succ)
    ensures Grows(h, Succeed(h, f, succ), p)
  {
  }

  lemma RevokeOneIsRely(s: State, s': State, p: Pid, t: Token)
    requires t in s.h.place && t in s.rows && t in s'.rows
    requires s'.rows == s.rows[t := s'.rows[t]] && s'.rows[t].revoked
    ensures RowsRely(s, s', p)
  {
  }

  lemma ClaimKeepsInv(s: State, p: Pid)
    requires Inv(s) && p in s.procs && s.procs[p].Claiming?
    ensures Inv(DoClaim(s, p))
  {
    var Claiming(t, rec, succ) := s.procs[p];
    assert ProcOk(s, p, s.procs[p]);
    if Live(s.rows, t) {
      SucceedKeepsPlaces(s.h, rec.family, succ);
      ClaimKeepsRows(s, p);
      ClaimKeepsTips(s, p);
      ClaimKeepsProcs(s, p);
    } else {
      LocalMoveKeepsInv(s, Goto(s, p, Lost(t, rec, succ)), p, Lost(t, rec, succ));
    }
  }

  // Reuse revocation, logout and password reset: the actions that kill families.

  /** From `s` to `s'` every family in `killed` died: its rows went, or were revoked with no successor to hand out. */
  ghost predicate Kills(s: State, s': State, killed: set<Family>) {
    && s'.h.(fams := s.h.fams) == s.h
    && s'.h.fams.Keys == s.h.fams.Keys
    && (forall f :: f in s.h.fams ==>
          s'.h.fams[f] == if f in killed then s.h.fams[f].(dead := true) else s.h.fams[f])
    && (forall u :: u in s'.rows ==>
          && u in s.rows && s'.rows[u].user == s.rows[u].user && s'.rows[u].family == s.rows[u].family
          && (s.rows[u].family in killed ==> s'.rows[u].revoked && s'.rows[u].replacedBy.None?))
    && (forall u :: u in s.rows && s.rows[u].family !in killed ==> u in s'.rows && s'.rows[u] == s.rows[u])
  }

  lemma KillKeepsRows(s: State, s': State, killed: set<Family>)
    requires RowsOk(s) && Kills(s, s', killed)
    ensures RowsOk(s')
  {
    forall u | u in s'.rows ensures RowOk(s'.h, u, s'.rows[u]) {
      assert RowOk(s.h, u, s.rows[u]);
      assert s'.h.fams[s.rows[u].family].tokens == s.h.fams[s.rows[u].family].tokens;
    }
  }

  lemma KillKeepsTips(s: State, s': State, killed: set<Family>)
    requires PlacesOk(s.h) && RowsOk(s) && TipsOk(s) && Kills(s, s', killed)
    ensures TipsOk(s')
  {
    forall f | f in s'.h.fams && !s'.h.fams[f].dead && |s'.h.fams[f].tokens| > 0
      ensures Live(s'.rows, Newest(s'.h, f)) || Newest(s'.h, f) in s'.h.expired
    {
      var tip := Newest(s.h, f);
      assert Newest(s'.h, f) == tip && s.h.place[tip].family == f;
      if tip in s.rows { assert RowOk(s.h, tip, s.rows[tip]); }
    }
  }

  lemma KillKeepsProcs(s: State, s': State, killed: set<Family>, p: Pid)
    requires ProcsOk(s) && RowsOk(s) && Kills(s, s', killed)
    requires forall q :: q in s'.procs && q != p ==> q in s.procs && s'.procs[q] == s.procs[q]
    requires p in s'.procs ==> ProcOk(s', p, s'.procs[p])
    ensures ProcsOk(s')
  {
    assert RowsRely(s, s', p);
    ProcsKept(s, s', p);
  }

  lemma KillKeepsInv(s: State, s': State, killed: set<Family>, p: Pid)
    requires Inv(s) && Kills(s, s', killed)
    requires forall q :: q in s'.procs && q != p ==> q in s.procs && s'.procs[q] == s.procs[q]
    requires p in s'.procs ==> ProcOk(s', p, s'.procs[p])
    ensures Inv(s')
  {
    KillKeepsRows(s, s', killed);
    KillKeepsTips(s, s', killed);
    KillKeepsProcs(s, s', killed, p);
  }

  lemma ReuseKills(s: State, p: Pid)
    requires p in s.procs && s.procs[p].Killing?
    ensures Kills(s, DoRevokeFamily(s, p), {s.procs[p].family})
  {
  }

  lemma LogoutKills(s: State, p: Pid)
    requires p in s.procs && s.procs[p].LogoutFound?
    ensures Kills(s, DoLogoutDelete(s, p), {s.procs[p].rec.family})
  {
  }

  function FamiliesOf(h: History, u: User): set<Family> {
    set f | f in h.fams && h.fams[f].user == u
  }

  lemma RequestKeepsInv(s: State, a: Action)
    requires Inv(s) && Enabled(s, a) && IsRequest(a)
    ensures Inv(Apply(s, a))
  {
    match a
    case Spawn(p, t) => SpawnKeepsInv(s, p, Start(t));
    case CheckBlacklist(p, cacheUp) => CheckKeepsInv(s, p, cacheUp);
    case Lookup(p) => LookupKeepsInv(s, p);
    case Decide(p, suspended, succ) => DecideKeepsInv(s, p, suspended, succ);
    case LookupWinner(p) => LookupWinnerKeepsInv(s, p);
    case DecideLoser(p) => DecideLoserKeepsInv(s, p);
    case Reply(p) => ReplyKeepsInv(s, p);
  }

  lemma WriteKeepsInv(s: State, a: Action)
    requires Inv(s) && Enabled(s, a) && IsWrite(a)
    ensures Inv(Apply(s, a))
  {
    match a
    case Login(p, user, family, token, expiresAt) => LoginKeepsInv(s, p, user, family, token, expiresAt);
    case DeleteExpired(p) => DeleteExpiredKeepsInv(s, p);
    case InsertSuccessor(p, expiresAt) => InsertKeepsInv(s, p, expiresAt);
    case Claim(p) => ClaimKeepsInv(s, p);
    case DeleteSuccessor(p) => DeleteSuccessorKeepsInv(s, p);
  }

  lemma ReuseKeepsInv(s: State, p: Pid)
    requires Inv(s) && p in s.procs && s.procs[p].Killing?
    ensures Inv(DoRevokeFamily(s, p))
  {
    assert ProcOk(s, p, s.procs[p]);
    assert s.h.place[s.procs[p].presented].family in s.h.fams;
    ReuseKills(s, p);
    KillKeepsInv(s, DoRevokeFamily(s, p), {s.procs[p].family}, p);
  }

  lemma LogoutDeleteKeepsInv(s: State, p: Pid)
    requires Inv(s) && p in s.procs && s.procs[p].LogoutFound?
    ensures Inv(DoLogoutDelete(s, p))
  {
    LogoutKills(s, p);
    KillKeepsInv(s, DoLogoutDelete(s, p), {s.procs[p].rec.family}, p);
  }

  lemma ResetKeepsInv(s: State, p: Pid, u: User)
    requires Inv(s) && p !in s.procs
    ensures Inv(DoReset(s, u))
  {
    KillKeepsInv(s, DoReset(s, u), FamiliesOf(s.h, u), p);
  }

  predicate IsRequest(a: Action) {
    a.Spawn? || a.CheckBlacklist? || a.Lookup? || a.Decide? || a.LookupWinner? || a.DecideLoser? || a.Reply?
  }

  predicate IsWrite(a: Action) {
    a.Login? || a.DeleteExpired? || a.InsertSuccessor? || a.Claim? || a.DeleteSuccessor?
  }

  lemma EndingKeepsInv(s: State, a: Action)
    requires Inv(s) && Enabled(s, a) && !IsRequest(a) && !IsWrite(a)
    ensures Inv(Apply(s, a))
  {
    match a
    case SpawnLogout(p, t) => SpawnKeepsInv(s, p, LogoutStart(t));
    case LogoutLookup(p) => LogoutLookupKeepsInv(s, p);
    case LogoutBlacklist(p) => BlacklistKeepsInv(s, p);
    case RevokeFamilyForReuse(p) => ReuseKeepsInv(s, p);
    case LogoutDelete(p) => LogoutDeleteKeepsInv(s, p);
    case ResetPassword(p, u) => ResetKeepsInv(s, p, u);
    case Tick(ms) => TickKeepsInv(s, ms);
  }

  /** Whatever an enabled action does, the invariant survives. */
  lemma ActionKeepsInv(s: State, a: Action)
    requires Inv(s) && Enabled(s, a)
    ensures Inv(Apply(s, a))
  {
    if IsRequest(a) {
      RequestKeepsInv(s, a);
    } else if IsWrite(a) {
      WriteKeepsInv(s, a);
    } else {
      EndingKeepsInv(s, a);
    }
  }

  lemma TickKeepsInv(s: State, ms: nat)
    requires Inv(s)
    ensures Inv(s.(clock := s.clock + ms))
  {
    var s' := s.(clock := s.clock + ms);
    forall p | p in s'.procs ensures ProcOk(s', p, s'.procs[p]) {
      assert ProcOk(s, p, s.procs[p]);
    }
  }
}
