/**
 Refresh-token rotation as a concurrent protocol.

 Every awaited SQL or Redis call of `refresh`, `logout` and `resetPassword` is one atomic
 action; requests are processes that interleave freely. A request that is never scheduled
 again has crashed, so no separate crash action is needed.
 */
module RefreshRotation {
  import opened Wrappers

  // A raw token stands for itself, its SHA-256 hash, its encrypted form and its row id:
  // all four are in bijection.
  type Token = nat
  type Family = nat
  type User = nat
  type Pid = nat

  const REFRESH_GRACE_MS: int := 20_000

  /** One row of `refresh_tokens`, keyed by its token. */
  datatype Row = Row(
    user: User,
    family: Family,
    expiresAt: int,
    revoked: bool,
    revokedAt: Option<int>,
    replacedBy: Option<Token>)

  datatype Response =
    | Issued(token: Token)
    | NoToken
    | Invalid
    | Blacklisted
    | Suspended
    | Expired
    | Reuse
    | LoggedOut

  /** Where a request stands between two awaits, with the locals it still needs. */
  datatype Proc =
    | Start(presented: Token)
    | Checked(presented: Token)
    | Looked(presented: Token, rec: Row)
    | Inserting(presented: Token, rec: Row, succ: Token)
    | Claiming(presented: Token, rec: Row, succ: Token)
    | Lost(presented: Token, rec: Row, succ: Token)
    | Relooking(presented: Token, rec: Row)
    | Relooked(presented: Token, rec: Row, winner: Option<Row>)
    | Replying(presented: Token, token: Token)
    | Killing(presented: Token, family: Family)
    | Expiring(presented: Token)
    | LogoutStart(presented: Token)
    | LogoutFound(presented: Token, rec: Row)
    | LogoutDeleted(presented: Token, rec: Row)
    | Done(presented: Token, response: Response)

  /** History of one login: its user and its tokens, oldest first. */
  datatype Lineage = Lineage(user: User, tokens: seq<Token>, dead: bool)

  datatype Place = Place(family: Family, index: nat)

  /**
   What has happened so far, for specification only.
   `fams` and `place` record the successor chains and each other's inverse; `handed` holds the
   tokens some client has received, `made` which request generated a token, `seen` every value
   ever presented, `expired` the tokens whose row the expiry branch deleted.
   */
  datatype History = History(
    fams: map<Family, Lineage>,
    place: map<Token, Place>,
    handed: set<Token>,
    made: map<Token, Pid>,
    seen: set<Token>,
    expired: set<Token>)

  datatype State = State(
    rows: map<Token, Row>,
    blacklist: map<Token, int>,
    clock: int,
    procs: map<Pid, Proc>,
    h: History)

  datatype Action =
    | Login(p: Pid, user: User, family: Family, token: Token, expiresAt: int)
    | Spawn(p: Pid, presented: Token)
    | CheckBlacklist(p: Pid, cacheUp: bool)
    | Lookup(p: Pid)
    | Decide(p: Pid, suspended: bool, succ: Token)
    | DeleteExpired(p: Pid)
    | InsertSuccessor(p: Pid, expiresAt: int)
    | Claim(p: Pid)
    | DeleteSuccessor(p: Pid)
    | LookupWinner(p: Pid)
    | DecideLoser(p: Pid)
    | Reply(p: Pid)
    | RevokeFamilyForReuse(p: Pid)
    | SpawnLogout(p: Pid, presented: Token)
    | LogoutLookup(p: Pid)
    | LogoutDelete(p: Pid)
    | LogoutBlacklist(p: Pid)
    | ResetPassword(p: Pid, user: User)
    | Tick(ms: nat)

  // ---------------------------------------------------------------- SQL statements as functions

  function RevokeRow(r: Row, now: int): Row {
    r.(revoked := true,
       revokedAt := if r.revokedAt.Some? then r.revokedAt else Some(now),
       replacedBy := None)
  }

  /** UPDATE ... SET revoked = TRUE, revoked_at = COALESCE(..), replaced_by_enc = NULL WHERE family_id = f */
  function RevokeFamily(rows: map<Token, Row>, f: Family, now: int): map<Token, Row> {
    map t | t in rows :: if rows[t].family == f then RevokeRow(rows[t], now) else rows[t]
  }

  /** DELETE ... WHERE family_id = f */
  function DeleteFamily(rows: map<Token, Row>, f: Family): map<Token, Row> {
    map t | t in rows && rows[t].family != f :: rows[t]
  }

  /** DELETE ... WHERE user_id = u */
  function DeleteUser(rows: map<Token, Row>, u: User): map<Token, Row> {
    map t | t in rows && rows[t].user != u :: rows[t]
  }

  function FreshRow(user: User, family: Family, expiresAt: int): Row {
    Row(user, family, expiresAt, false, None, None)
  }

  predicate Live(rows: map<Token, Row>, t: Token) {
    t in rows && !rows[t].revoked
  }

  predicate WithinGrace(r: Row, now: int) {
    r.revokedAt.Some? && r.replacedBy.Some? && now - r.revokedAt.value <= REFRESH_GRACE_MS
  }

  predicate IsBlacklisted(blacklist: map<Token, int>, t: Token, now: int) {
    t in blacklist && now < blacklist[t]
  }

  // ---------------------------------------------------------------- History updates

  function KillFamily(h: History, f: Family): History {
    if f in h.fams then h.(fams := h.fams[f := h.fams[f].(dead := true)]) else h
  }

  function KillUser(h: History, u: User): History {
    h.(fams := map f | f in h.fams :: if h.fams[f].user == u then h.fams[f].(dead := true) else h.fams[f])
  }

  function Succeed(h: History, f: Family, succ: Token): History
    requires f in h.fams
  {
    h.(fams := h.fams[f := h.fams[f].(tokens := h.fams[f].tokens + [succ])],
       place := h.place[succ := Place(f, |h.fams[f].tokens|)])
  }

  // ---------------------------------------------------------------- The machine

  /** A raw token is unguessable: clients hold tokens they were handed, or values never generated. */
  predicate Presentable(h: History, t: Token) {
    t in h.handed || t !in h.made
  }

  predicate Fresh(h: History, t: Token) {
    t !in h.made && t !in h.seen
  }

  predicate Enabled(s: State, a: Action) {
    match a
    case Login(p, user, family, token, _) => p !in s.procs && family !in s.h.fams && Fresh(s.h, token)
    case Spawn(p, t) => p !in s.procs && Presentable(s.h, t)
    case CheckBlacklist(p, _) => p in s.procs && s.procs[p].Start?
    case Lookup(p) => p in s.procs && s.procs[p].Checked?
    case Decide(p, _, succ) => p in s.procs && s.procs[p].Looked? && Fresh(s.h, succ)
    case DeleteExpired(p) => p in s.procs && s.procs[p].Expiring?
    case InsertSuccessor(p, _) => p in s.procs && s.procs[p].Inserting?
    case Claim(p) => p in s.procs && s.procs[p].Claiming?
    case DeleteSuccessor(p) => p in s.procs && s.procs[p].Lost?
    case LookupWinner(p) => p in s.procs && s.procs[p].Relooking?
    case DecideLoser(p) => p in s.procs && s.procs[p].Relooked?
    case Reply(p) => p in s.procs && s.procs[p].Replying?
    case RevokeFamilyForReuse(p) => p in s.procs && s.procs[p].Killing?
    case SpawnLogout(p, t) => p !in s.procs && Presentable(s.h, t)
    case LogoutLookup(p) => p in s.procs && s.procs[p].LogoutStart?
    case LogoutDelete(p) => p in s.procs && s.procs[p].LogoutFound?
    case LogoutBlacklist(p) => p in s.procs && s.procs[p].LogoutDeleted?
    case ResetPassword(p, _) => p !in s.procs
    case Tick(_) => true
  }

  function Goto(s: State, p: Pid, c: Proc): State {
    s.(procs := s.procs[p := c])
  }

  function DoLogin(s: State, p: Pid, user: User, family: Family, token: Token, expiresAt: int): State {
    s.(rows := s.rows[token := FreshRow(user, family, expiresAt)],
       h := s.h.(fams := s.h.fams[family := Lineage(user, [token], false)],
                 place := s.h.place[token := Place(family, 0)],
                 handed := s.h.handed + {token},
                 made := s.h.made[token := p]))
  }

  function DoSpawn(s: State, p: Pid, c: Proc): State {
    Goto(s, p, c).(h := s.h.(seen := s.h.seen + {c.presented}))
  }

  function DoCheckBlacklist(s: State, p: Pid, cacheUp: bool): State
    requires p in s.procs && s.procs[p].Start?
  {
    var t := s.procs[p].presented;
    if cacheUp && IsBlacklisted(s.blacklist, t, s.clock) then Goto(s, p, Done(t, Blacklisted))
    else Goto(s, p, Checked(t))
  }

  function DoLookup(s: State, p: Pid): State
    requires p in s.procs && s.procs[p].Checked?
  {
    var t := s.procs[p].presented;
    if t in s.rows then Goto(s, p, Looked(t, s.rows[t])) else Goto(s, p, Done(t, Invalid))
  }

  /** The branches `refresh` takes, without an await, after its first lookup. */
  function DoDecide(s: State, p: Pid, suspended: bool, succ: Token): State
    requires p in s.procs && s.procs[p].Looked?
  {
    var Looked(t, rec) := s.procs[p];
    if rec.revoked then
      if WithinGrace(rec, s.clock) then Goto(s, p, Replying(t, rec.replacedBy.value))
      else Goto(s, p, Killing(t, rec.family))
    else if suspended then Goto(s, p, Done(t, Suspended))
    else if rec.expiresAt < s.clock then Goto(s, p, Expiring(t))
    else Goto(s, p, Inserting(t, rec, succ)).(h := s.h.(made := s.h.made[succ := p]))
  }

  /** DELETE FROM refresh_tokens WHERE id = t */
  function DoDeleteExpired(s: State, p: Pid): State
    requires p in s.procs && s.procs[p].Expiring?
  {
    var t := s.procs[p].presented;
    Goto(s, p, Done(t, Expired)).(rows := s.rows - {t}, h := s.h.(expired := s.h.expired + {t}))
  }

  function DoInsert(s: State, p: Pid, expiresAt: int): State
    requires p in s.procs && s.procs[p].Inserting?
  {
    var Inserting(t, rec, succ) := s.procs[p];
    Goto(s, p, Claiming(t, rec, succ)).(rows := s.rows[succ := FreshRow(rec.user, rec.family, expiresAt)])
  }

  /** UPDATE ... SET revoked = TRUE, revoked_at = NOW(), replaced_by_enc = succ WHERE id = t AND revoked = FALSE */
  function DoClaim(s: State, p: Pid): State
    requires p in s.procs && s.procs[p].Claiming?
  {
    var Claiming(t, rec, succ) := s.procs[p];
    if Live(s.rows, t) then
      Goto(s, p, Replying(t, succ)).(
      rows := s.rows[t := s.rows[t].(revoked := true, revokedAt := Some(s.clock), replacedBy := Some(succ))],
      h := if rec.family in s.h.fams then Succeed(s.h, rec.family, succ) else s.h)
    else Goto(s, p, Lost(t, rec, succ))
  }

  function DoDeleteSuccessor(s: State, p: Pid): State
    requires p in s.procs && s.procs[p].Lost?
  {
    var Lost(t, rec, succ) := s.procs[p];
    Goto(s, p, Relooking(t, rec)).(rows := s.rows - {succ})
  }

  function DoLookupWinner(s: State, p: Pid): State
    requires p in s.procs && s.procs[p].Relooking?
  {
    var Relooking(t, rec) := s.procs[p];
    Goto(s, p, Relooked(t, rec, if t in s.rows then Some(s.rows[t]) else None))
  }

  function DoDecideLoser(s: State, p: Pid): State
    requires p in s.procs && s.procs[p].Relooked?
  {
    var Relooked(t, rec, winner) := s.procs[p];
    if winner.Some? && WithinGrace(winner.value, s.clock)
    then Goto(s, p, Replying(t, winner.value.replacedBy.value))
    else Goto(s, p, Killing(t, rec.family))
  }

  function DoReply(s: State, p: Pid): State
    requires p in s.procs && s.procs[p].Replying?
  {
    var Replying(t, token) := s.procs[p];
    Goto(s, p, Done(t, Issued(token))).(h := s.h.(handed := s.h.handed + {token}))
  }

  function DoRevokeFamily(s: State, p: Pid): State
    requires p in s.procs && s.procs[p].Killing?
  {
    var Killing(t, f) := s.procs[p];
    Goto(s, p, Done(t, Reuse)).(rows := RevokeFamily(s.rows, f, s.clock), h := KillFamily(s.h, f))
  }

  function DoLogoutLookup(s: State, p: Pid): State
    requires p in s.procs && s.procs[p].LogoutStart?
  {
    var t := s.procs[p].presented;
    if t in s.rows then Goto(s, p, LogoutFound(t, s.rows[t])) else Goto(s, p, Done(t, LoggedOut))
  }

  function DoLogoutDelete(s: State, p: Pid): State
    requires p in s.procs && s.procs[p].LogoutFound?
  {
    var LogoutFound(t, rec) := s.procs[p];
    Goto(s, p, LogoutDeleted(t, rec)).(rows := DeleteFamily(s.rows, rec.family), h := KillFamily(s.h, rec.family))
  }

  function DoLogoutBlacklist(s: State, p: Pid): State
    requires p in s.procs && s.procs[p].LogoutDeleted?
  {
    var LogoutDeleted(t, rec) := s.procs[p];
    var ttlSeconds := if rec.expiresAt < s.clock then 0 else (rec.expiresAt - s.clock) / 1000;
    Goto(s, p, Done(t, LoggedOut)).(
    blacklist := if ttlSeconds > 0 then s.blacklist[t := s.clock + ttlSeconds * 1000] else s.blacklist)
  }

  function DoReset(s: State, u: User): State {
    s.(rows := DeleteUser(s.rows, u), h := KillUser(s.h, u))
  }

  function Apply(s: State, a: Action): State
    requires Enabled(s, a)
  {
    match a
    case Login(p, user, family, token, expiresAt) => DoLogin(s, p, user, family, token, expiresAt)
    case Spawn(p, t) => DoSpawn(s, p, Start(t))
    case CheckBlacklist(p, cacheUp) => DoCheckBlacklist(s, p, cacheUp)
    case Lookup(p) => DoLookup(s, p)
    case Decide(p, suspended, succ) => DoDecide(s, p, suspended, succ)
    case DeleteExpired(p) => DoDeleteExpired(s, p)
    case InsertSuccessor(p, expiresAt) => DoInsert(s, p, expiresAt)
    case Claim(p) => DoClaim(s, p)
    case DeleteSuccessor(p) => DoDeleteSuccessor(s, p)
    case LookupWinner(p) => DoLookupWinner(s, p)
    case DecideLoser(p) => DoDecideLoser(s, p)
    case Reply(p) => DoReply(s, p)
    case RevokeFamilyForReuse(p) => DoRevokeFamily(s, p)
    case SpawnLogout(p, t) => DoSpawn(s, p, LogoutStart(t))
    case LogoutLookup(p) => DoLogoutLookup(s, p)
    case LogoutDelete(p) => DoLogoutDelete(s, p)
    case LogoutBlacklist(p) => DoLogoutBlacklist(s, p)
    case ResetPassword(_, u) => DoReset(s, u)
    case Tick(ms) => s.(clock := s.clock + ms)
  }

  predicate Init(s: State) {
    s.rows == map[] && s.procs == map[] && s.blacklist == map[] && s.h == History(map[], map[], {}, map[], {}, {})
  }

  /** A run is a sequence of enabled actions; `Final` is the state it ends in. */
  predicate Runs(s: State, run: seq<Action>)
    decreases |run|
  {
    run == [] || (Enabled(s, run[0]) && Runs(Apply(s, run[0]), run[1..]))
  }

  function Final(s: State, run: seq<Action>): State
    requires Runs(s, run)
    decreases |run|
  {
    if run == [] then s else Final(Apply(s, run[0]), run[1..])
  }

  // ---------------------------------------------------------------- The invariant

  /** `x` is the token that replaced `t` in its family's chain. */
  predicate IsNext(h: History, t: Token, x: Token) {
    t in h.place && x in h.place && h.place[x] == Place(h.place[t].family, h.place[t].index + 1)
  }

  ghost predicate PlacesOk(h: History) {
    && (forall t :: t in h.place ==>
          h.place[t].family in h.fams
          && h.place[t].index < |h.fams[h.place[t].family].tokens|
          && h.fams[h.place[t].family].tokens[h.place[t].index] == t)
    && (forall f :: f in h.fams ==> |h.fams[f].tokens| > 0)
    && (forall f, i :: f in h.fams && 0 <= i < |h.fams[f].tokens| ==>
          h.fams[f].tokens[i] in h.place && h.place[h.fams[f].tokens[i]] == Place(f, i))
  }

  ghost predicate SetsOk(h: History) {
    && (forall t :: t in h.place ==> t in h.made)
    && (forall t :: t in h.handed ==> t in h.place)
  }

  /** `t` is the newest token of its family's chain. */
  predicate IsTip(h: History, t: Token)
    requires t in h.place && h.place[t].family in h.fams
  {
    h.place[t].index == |h.fams[h.place[t].family].tokens| - 1
  }

  /** What a row says about the token it stores, given the history. */
  predicate RowOk(h: History, t: Token, r: Row) {
    && t in h.made
    && r.family in h.fams
    && r.user == h.fams[r.family].user
    && (r.replacedBy.Some? ==> IsNext(h, t, r.replacedBy.value))
    && (t in h.place ==>
          && h.place[t].family == r.family
          && (!IsTip(h, t) || h.fams[r.family].dead ==> r.revoked)
          && (r.revoked && !h.fams[r.family].dead ==> r.revokedAt.Some? && r.replacedBy.Some?)
          && (h.fams[r.family].dead ==> r.replacedBy.None?))
  }

  ghost predicate RowsOk(s: State) {
    forall t :: t in s.rows ==> RowOk(s.h, t, s.rows[t])
  }

  function Newest(h: History, f: Family): Token
    requires f in h.fams && |h.fams[f].tokens| > 0
  {
    h.fams[f].tokens[|h.fams[f].tokens| - 1]
  }

  /** The newest token of a live family is usable, unless it expired. */
  ghost predicate TipsOk(s: State) {
    forall f :: f in s.h.fams && !s.h.fams[f].dead && |s.h.fams[f].tokens| > 0 ==>
      Live(s.rows, Newest(s.h, f)) || Newest(s.h, f) in s.h.expired
  }

  /** `rec` is a copy, possibly stale, of the row of the chain token `t`. */
  predicate CopyOk(h: History, t: Token, rec: Row) {
    && t in h.place
    && rec.family == h.place[t].family
    && rec.family in h.fams
    && rec.user == h.fams[rec.family].user
    && (rec.replacedBy.Some? ==> IsNext(h, t, rec.replacedBy.value))
    && (rec.revoked && !h.fams[rec.family].dead ==> rec.revokedAt.Some? && rec.replacedBy.Some?)
  }

  predicate InDeadFamily(h: History, t: Token) {
    t in h.place && h.place[t].family in h.fams && h.fams[h.place[t].family].dead
  }

  predicate Pending(h: History, p: Pid, succ: Token) {
    succ in h.made && h.made[succ] == p && succ !in h.place
  }

  predicate ProcOk(s: State, p: Pid, c: Proc) {
    match c
    case Start(t) => t in s.h.seen && Presentable(s.h, t)
    case Checked(t) => t in s.h.seen && Presentable(s.h, t)
    case LogoutStart(t) => t in s.h.seen && Presentable(s.h, t)
    case Looked(t, rec) => CopyOk(s.h, t, rec)
    case Inserting(t, rec, succ) => CopyOk(s.h, t, rec) && Pending(s.h, p, succ) && succ !in s.rows
    case Claiming(t, rec, succ) =>
      && CopyOk(s.h, t, rec)
      && Pending(s.h, p, succ)
      && (Live(s.rows, t) ==> Live(s.rows, succ) && s.rows[succ].family == rec.family)
    case Lost(t, rec, succ) => CopyOk(s.h, t, rec) && Pending(s.h, p, succ) && !Live(s.rows, t)
    case Relooking(t, rec) => CopyOk(s.h, t, rec) && !Live(s.rows, t)
    case Relooked(t, rec, winner) =>
      CopyOk(s.h, t, rec) && (winner.Some? ==> CopyOk(s.h, t, winner.value) && winner.value.revoked)
    case Replying(t, token) => IsNext(s.h, t, token)
    case Killing(t, f) => t in s.h.place && f == s.h.place[t].family
    case Expiring(t) => t in s.h.place
    case LogoutFound(t, rec) => t in s.h.place && rec.family == s.h.place[t].family
    case LogoutDeleted(t, rec) => true
    case Done(t, response) =>
      && (response.Issued? ==> IsNext(s.h, t, response.token))
      && (response.Reuse? ==> InDeadFamily(s.h, t))
  }

  ghost predicate ProcsOk(s: State) {
    forall p :: p in s.procs ==> ProcOk(s, p, s.procs[p])
  }

  ghost predicate Inv(s: State) {
    PlacesOk(s.h) && SetsOk(s.h) && RowsOk(s) && TipsOk(s) && ProcsOk(s)
  }
}
