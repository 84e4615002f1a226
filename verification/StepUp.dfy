/**
 Single-use step-up tokens (`middleware/requireStepUp.js`). A request verifies its token, computes
 the marker's lifetime, and then sets the marker if it is absent; time passes between the three,
 and any number of requests may present one token. Times are in milliseconds, `exp` in whole
 seconds, as section 4.1.4 of RFC 7519 has it.
 */
module StepUp {
  import opened Wrappers

  type Pid = nat
  type Jti = nat    // random, so that no two issued tokens share one
  type User = nat

  const STEP_UP_TTL_SECONDS: int := 120

  datatype Token = Token(user: User, exp: int)

  datatype Proc =
    | Verified(jti: Jti, at: int)
    | Timed(jti: Jti, at: int, ttl: int)
    | Finished

  /** A request let through: when it verified, when it marked, and how long its marker lasts. */
  datatype Pass = Pass(jti: Jti, verifiedAt: int, at: int, until: int)

  datatype State = State(
    tokens: map<Jti, Token>, store: map<Jti, int>, clock: int, procs: map<Pid, Proc>, passes: seq<Pass>)

  datatype Action =
    | Issue(jti: Jti, user: User)
    | Verify(p: Pid, jti: Jti, user: User)
    | ComputeTtl(p: Pid)
    | Mark(p: Pid)
    | Give(p: Pid)
    | Tick(ms: nat)

  function Seconds(ms: int): int {
    ms / 1000
  }

  /** jwt.verify and the three checks on the payload. */
  predicate Accepts(s: State, jti: Jti, user: User) {
    jti in s.tokens && Seconds(s.clock) < s.tokens[jti].exp && s.tokens[jti].user == user
  }

  predicate Live(s: State, jti: Jti) {
    jti in s.store && s.clock < s.store[jti]
  }

  predicate Enabled(s: State, a: Action) {
    match a
    case Issue(jti, _) => jti !in s.tokens
    case Verify(p, jti, user) => p !in s.procs && Accepts(s, jti, user)
    case ComputeTtl(p) => p in s.procs && s.procs[p].Verified?
    case Mark(p) => p in s.procs && s.procs[p].Timed?
    case Give(p) => p in s.procs
    case Tick(_) => true
  }

  function Goto(s: State, p: Pid, c: Proc): State {
    s.(procs := s.procs[p := c])
  }

  /** What is left in the store once the expired markers are swept out. */
  function Swept(store: map<Jti, int>, clock: int): map<Jti, int> {
    map jti | jti in store && clock < store[jti] :: store[jti]
  }

  /** SET key value EX ttl NX: only an absent or expired marker is set, and only then the request passes. */
  function DoMark(s: State, p: Pid): State
    requires p in s.procs && s.procs[p].Timed?
  {
    var Timed(jti, at, ttl) := s.procs[p];
    var kept := Goto(s, p, Finished).(store := Swept(s.store, s.clock));
    if Live(s, jti) then kept
    else
      var until := s.clock + ttl * 1000;
      kept.(store := kept.store[jti := until], passes := s.passes + [Pass(jti, at, s.clock, until)])
  }

  function DoComputeTtl(s: State, p: Pid): State
    requires p in s.procs && s.procs[p].Verified? && s.procs[p].jti in s.tokens
  {
    var Verified(jti, at) := s.procs[p];
    Goto(s, p, Timed(jti, at, Max(1, s.tokens[jti].exp - Seconds(s.clock))))
  }

  function Apply(s: State, a: Action): State
    requires Enabled(s, a) && TokensOk(s)
  {
    match a
    case Issue(jti, user) => s.(tokens := s.tokens[jti := Token(user, Seconds(s.clock) + STEP_UP_TTL_SECONDS)])
    case Verify(p, jti, user) => Goto(s, p, Verified(jti, s.clock))
    case ComputeTtl(p) => DoComputeTtl(s, p)
    case Mark(p) => DoMark(s, p)
    case Give(p) => Goto(s, p, Finished)
    case Tick(ms) => s.(clock := s.clock + ms)
  }

  // ---------------------------------------------------------------- The invariant

  /** Requests hold issued tokens that they verified before `exp`. */
  predicate TokensOk(s: State) {
    forall p :: p in s.procs && !s.procs[p].Finished? ==>
      && s.procs[p].jti in s.tokens && s.procs[p].at <= s.clock
      && Seconds(s.procs[p].at) < s.tokens[s.procs[p].jti].exp
  }

  /** A marker set with a computed lifetime, now or later, reaches `exp`. */
  predicate LifetimesOk(s: State) {
    forall p :: p in s.procs && s.procs[p].Timed? && s.procs[p].jti in s.tokens ==>
      s.clock + s.procs[p].ttl * 1000 >= s.tokens[s.procs[p].jti].exp * 1000
  }

  predicate PassOk(s: State, e: Pass) {
    && e.jti in s.tokens && e.verifiedAt <= e.at <= s.clock
    && Seconds(e.verifiedAt) < s.tokens[e.jti].exp
    && e.until >= s.tokens[e.jti].exp * 1000
  }

  predicate PassesOk(s: State) {
    forall i :: 0 <= i < |s.passes| ==> PassOk(s, s.passes[i])
  }

  /** The live markers are those of the passes that still last. */
  predicate MarkersOk(s: State) {
    && (forall i :: 0 <= i < |s.passes| && s.clock < s.passes[i].until ==>
          s.passes[i].jti in s.store && s.store[s.passes[i].jti] == s.passes[i].until)
    && (forall jti :: jti in s.store && s.clock < s.store[jti] ==> Marked(s, jti))
  }

  predicate Marked(s: State, jti: Jti) {
    exists i :: 0 <= i < |s.passes| && s.passes[i].jti == jti && s.clock < s.passes[i].until
  }

  /** A later pass of a token is marked when the earlier marker is gone. */
  predicate SpacedOut(s: State) {
    forall i, j :: 0 <= i < j < |s.passes| && s.passes[i].jti == s.passes[j].jti ==> s.passes[i].until <= s.passes[j].at
  }

  predicate Inv(s: State) {
    TokensOk(s) && LifetimesOk(s) && PassesOk(s) && MarkersOk(s) && SpacedOut(s)
  }

  lemma TokensKept(s: State, a: Action)
    requires TokensOk(s) && Enabled(s, a)
    ensures TokensOk(Apply(s, a))
  {
  }

  lemma LifetimesKept(s: State, a: Action)
    requires TokensOk(s) && LifetimesOk(s) && Enabled(s, a)
    ensures LifetimesOk(Apply(s, a))
  {
  }

  lemma PassesKept(s: State, a: Action)
    requires TokensOk(s) && LifetimesOk(s) && PassesOk(s) && Enabled(s, a)
    ensures PassesOk(Apply(s, a))
  {
    var after := Apply(s, a);
    forall i | 0 <= i < |after.passes| ensures PassOk(after, after.passes[i]) {
      if i < |s.passes| {
        assert PassOk(s, s.passes[i]) && after.passes[i] == s.passes[i];
      }
    }
  }

  lemma MarkersKept(s: State, a: Action)
    requires TokensOk(s) && LifetimesOk(s) && MarkersOk(s) && Enabled(s, a)
    ensures MarkersOk(Apply(s, a))
  {
    var after := Apply(s, a);
    forall jti | jti in after.store && after.clock < after.store[jti] ensures Marked(after, jti) {
      if jti in s.store && after.store[jti] == s.store[jti] {
        var i :| 0 <= i < |s.passes| && s.passes[i].jti == jti && s.clock < s.passes[i].until;
        assert after.passes[i] == s.passes[i];
      } else {
        assert after.passes[|s.passes|].jti == jti;
      }
    }
  }

  lemma SpacingKept(s: State, a: Action)
    requires TokensOk(s) && MarkersOk(s) && SpacedOut(s) && Enabled(s, a)
    ensures SpacedOut(Apply(s, a))
  {
  }

  lemma ActionKeepsInv(s: State, a: Action)
    requires Inv(s) && Enabled(s, a)
    ensures Inv(Apply(s, a))
  {
    TokensKept(s, a);
    LifetimesKept(s, a);
    PassesKept(s, a);
    MarkersKept(s, a);
    SpacingKept(s, a);
  }

  // ---------------------------------------------------------------- Whole runs

  predicate Runs(s: State, run: seq<Action>)
    requires TokensOk(s)
    decreases |run|
  {
    if run == [] then true
    else if !Enabled(s, run[0]) then false
    else
      TokensKept(s, run[0]);
      Runs(Apply(s, run[0]), run[1..])
  }

  function Final(s: State, run: seq<Action>): State
    requires TokensOk(s) && Runs(s, run)
    decreases |run|
  {
    if run == [] then s
    else
      TokensKept(s, run[0]);
      Final(Apply(s, run[0]), run[1..])
  }

  function Empty(): State { State(map[], map[], 0, map[], []) }

  lemma {:induction false} RunKeepsInv(s: State, run: seq<Action>)
    requires Inv(s) && Runs(s, run)
    ensures Inv(Final(s, run))
    decreases |run|
  {
    if run != [] {
      ActionKeepsInv(s, run[0]);
      RunKeepsInv(Apply(s, run[0]), run[1..]);
    }
  }

  lemma {:induction false} RunSnoc(s: State, run: seq<Action>, a: Action)
    requires Inv(s) && Runs(s, run) && Enabled(Final(s, run), a)
    ensures TokensOk(Final(s, run)) && Runs(s, run + [a]) && Final(s, run + [a]) == Apply(Final(s, run), a)
    decreases |run|
  {
    RunKeepsInv(s, run);
    if run == [] {
      assert run + [a] == [a];
    } else {
      assert (run + [a])[1..] == run[1..] + [a];
      ActionKeepsInv(s, run[0]);
      RunSnoc(Apply(s, run[0]), run[1..], a);
    }
  }

  lemma OneMore(run: seq<Action>, a: Action)
    requires Runs(Empty(), run) && Enabled(Final(Empty(), run), a)
    ensures TokensOk(Final(Empty(), run)) && Runs(Empty(), run + [a])
    ensures Final(Empty(), run + [a]) == Apply(Final(Empty(), run), a) && TokensOk(Final(Empty(), run + [a]))
  {
    RunSnoc(Empty(), run, a);
    TokensKept(Final(Empty(), run), a);
  }

  /** Two requests that the same token let through: the second marked only after the token had expired. */
  lemma SecondPassIsLate(run: seq<Action>, i: nat, j: nat)
    requires Runs(Empty(), run) && i < j < |Final(Empty(), run).passes|
    requires Final(Empty(), run).passes[i].jti == Final(Empty(), run).passes[j].jti
    ensures var s := Final(Empty(), run);
            var second := s.passes[j];
            second.jti in s.tokens && second.at >= s.tokens[second.jti].exp * 1000 > second.verifiedAt
  {
    RunKeepsInv(Empty(), run);
    var s := Final(Empty(), run);
    assert PassOk(s, s.passes[i]) && PassOk(s, s.passes[j]);
  }

  /** Every pass was marked before its token expired; so is every one marked in the second in which it verified. */
  predicate MarkedInTime(s: State) {
    forall i :: 0 <= i < |s.passes| ==>
      s.passes[i].jti in s.tokens && s.passes[i].at < s.tokens[s.passes[i].jti].exp * 1000
  }

  /** Then every token passes at most once. */
  lemma TokensMarkedInTimePassOnce(run: seq<Action>)
    requires Runs(Empty(), run) && MarkedInTime(Final(Empty(), run))
    ensures var s := Final(Empty(), run);
            forall i, j :: 0 <= i < j < |s.passes| ==> s.passes[i].jti != s.passes[j].jti
  {
    var s := Final(Empty(), run);
    forall i, j | 0 <= i < j < |s.passes| ensures s.passes[i].jti != s.passes[j].jti {
      if s.passes[i].jti == s.passes[j].jti {
        SecondPassIsLate(run, i, j);
      }
    }
  }

  /** With verify and mark in one second, as when they are one step, every mark is in time. */
  lemma SameSecondIsInTime(run: seq<Action>)
    requires Runs(Empty(), run)
    requires forall i :: 0 <= i < |Final(Empty(), run).passes| ==>
               Seconds(Final(Empty(), run).passes[i].at) == Seconds(Final(Empty(), run).passes[i].verifiedAt)
    ensures MarkedInTime(Final(Empty(), run))
  {
    RunKeepsInv(Empty(), run);
    var s := Final(Empty(), run);
    forall i | 0 <= i < |s.passes|
      ensures s.passes[i].jti in s.tokens && s.passes[i].at < s.tokens[s.passes[i].jti].exp * 1000
    {
      assert PassOk(s, s.passes[i]);
    }
  }

  /** What decides at the mark: a request passes exactly if every earlier pass of its token has run out. */
  lemma PassesIffMarkersRanOut(s: State, p: Pid)
    requires Inv(s) && p in s.procs && s.procs[p].Timed?
    ensures |DoMark(s, p).passes| > |s.passes|
            <==> forall i :: 0 <= i < |s.passes| && s.passes[i].jti == s.procs[p].jti ==> s.passes[i].until <= s.clock
  {
    if Live(s, s.procs[p].jti) {
      assert Marked(s, s.procs[p].jti);
    }
  }

  /** A token that expires at second `exp`, looked at by two requests as the second before begins. */
  function LastSecond(exp: int, first: Proc, second: Proc): State {
    State(map[0 := Token(7, exp)], map[], (exp - 1) * 1000, map[0 := first, 1 := second], [])
  }

  lemma IssueInTime(exp: int) returns (run: seq<Action>)
    requires exp >= STEP_UP_TTL_SECONDS
    ensures Runs(Empty(), run)
    ensures Final(Empty(), run) == State(map[0 := Token(7, exp)], map[], (exp - 1) * 1000, map[], [])
  {
    var start, wait := Tick((exp - 120) * 1000), Tick(119000);
    RunSnoc(Empty(), [], start);
    run := [] + [start];
    RunSnoc(Empty(), run, Issue(0, 7));
    run := run + [Issue(0, 7)];
    RunSnoc(Empty(), run, wait);
    run := run + [wait];
  }

  lemma VerifyTwice(exp: int) returns (run: seq<Action>)
    requires exp >= STEP_UP_TTL_SECONDS
    ensures Runs(Empty(), run)
    ensures Final(Empty(), run) == LastSecond(exp, Verified(0, (exp - 1) * 1000), Verified(0, (exp - 1) * 1000))
  {
    run := IssueInTime(exp);
    RunSnoc(Empty(), run, Verify(0, 0, 7));
    run := run + [Verify(0, 0, 7)];
    RunSnoc(Empty(), run, Verify(1, 0, 7));
    run := run + [Verify(1, 0, 7)];
  }

  lemma TimeTwice(exp: int) returns (run: seq<Action>)
    requires exp >= STEP_UP_TTL_SECONDS
    ensures Runs(Empty(), run)
    ensures Final(Empty(), run) == LastSecond(exp, Timed(0, (exp - 1) * 1000, 1), Timed(0, (exp - 1) * 1000, 1))
  {
    run := VerifyTwice(exp);
    RunSnoc(Empty(), run, ComputeTtl(0));
    run := run + [ComputeTtl(0)];
    RunSnoc(Empty(), run, ComputeTtl(1));
    run := run + [ComputeTtl(1)];
  }

  /** The first of them marks at once; its marker lasts until the token expires, and no longer. */
  lemma MarkFirst(exp: int) returns (run: seq<Action>)
    requires exp >= STEP_UP_TTL_SECONDS
    ensures Runs(Empty(), run)
    ensures Final(Empty(), run) == LastSecond(exp, Finished, Timed(0, (exp - 1) * 1000, 1)).(
              store := map[0 := exp * 1000], passes := [Pass(0, (exp - 1) * 1000, (exp - 1) * 1000, exp * 1000)])
  {
    run := TimeTwice(exp);
    RunSnoc(Empty(), run, Mark(0));
    run := run + [Mark(0)];
  }

  /** Two requests that the token with expiry `exp` let through, the second one marked at `m`. */
  ghost predicate PassesAgainAt(run: seq<Action>, exp: int, m: int) {
    && Runs(Empty(), run)
    && exists i, j :: 0 <= i < j < |Final(Empty(), run).passes| && PassesAgain(Final(Empty(), run), i, j, exp, m)
  }

  predicate PassesAgain(s: State, i: nat, j: nat, exp: int, m: int)
    requires i < |s.passes| && j < |s.passes|
  {
    && s.passes[i].jti == s.passes[j].jti && s.passes[j].at == m
    && s.passes[j].jti in s.tokens && s.tokens[s.passes[j].jti].exp == exp
  }

  lemma MarkedLatePassesAgain(exp: int, m: int) returns (run: seq<Action>)
    requires exp >= STEP_UP_TTL_SECONDS && m >= exp * 1000
    ensures PassesAgainAt(run, exp, m)
  {
    run := MarkFirst(exp);
    var wait := Tick(m - (exp - 1) * 1000);
    RunSnoc(Empty(), run, wait);
    run := run + [wait];
    RunSnoc(Empty(), run, Mark(1));
    run := run + [Mark(1)];
    assert PassesAgain(Final(Empty(), run), 0, 1, exp, m);
  }

  /**
   A token can let a second request through whose mark is set at `m`, exactly if the token has
   expired by then; every token expires at least 120 s after the clock starts.
   */
  lemma SecondPassPossibleIff(exp: int, m: int)
    requires exp >= STEP_UP_TTL_SECONDS
    ensures (exists run :: PassesAgainAt(run, exp, m)) <==> m >= exp * 1000
  {
    if m >= exp * 1000 {
      var run := MarkedLatePassesAgain(exp, m);
    }
    forall run | PassesAgainAt(run, exp, m) ensures m >= exp * 1000 {
      var i, j :| 0 <= i < j < |Final(Empty(), run).passes| && PassesAgain(Final(Empty(), run), i, j, exp, m);
      SecondPassIsLate(run, i, j);
    }
  }

  /** Issued tokens never change. */
  predicate Keeps(before: map<Jti, Token>, after: map<Jti, Token>) {
    forall jti :: jti in before ==> jti in after && after[jti] == before[jti]
  }

  // ---------------------------------------------------------------- The middleware

  /** The payload of a presented token, if its signature verifies. */
  datatype Payload = Payload(forStepUp: bool, jti: Option<Jti>)

  class StepUpGate {
    var tokens: map<Jti, Token>     // carried by the signed tokens themselves
    var store: map<Jti, int>        // localOneTimeKeys
    var clock: int
    ghost var log: seq<Action>
    ghost var now: State

    ghost predicate Valid()
      reads this
    {
      Past() && Shows(now)
    }

    ghost predicate Past()
      reads this
    {
      Runs(Empty(), log) && now == Final(Empty(), log) && TokensOk(now)
    }

    lemma Knows()
      requires Valid()
      ensures Inv(now)
    {
      RunKeepsInv(Empty(), log);
    }

    ghost predicate Shows(s: State)
      reads this
    {
      s.tokens == tokens && s.store == store && s.clock == clock
    }

    ghost predicate Stands(p: Pid, c: Proc)
      reads this
    {
      p in now.procs && now.procs[p] == c
    }

    constructor ()
      ensures Valid() && log == []
    {
      tokens, store, clock, log, now := map[], map[], 0, [], Empty();
    }

    ghost method Book(a: Action)
      requires Past() && Enabled(now, a) && Shows(Apply(now, a))
      modifies this`log, this`now
      ensures Valid() && log == old(log) + [a] && now == Apply(old(now), a)
    {
      OneMore(log, a);
      log, now := log + [a], Apply(now, a);
    }

    /** An await, or no more than time going by; the caller keeps its place. */
    method Await(ghost p: Pid)
      requires Valid() && p in now.procs
      modifies this
      ensures Valid() && old(log) <= log && Stands(p, old(now.procs[p])) && Keeps(old(tokens), tokens)
    {
    }

    method IssueStepUpToken(jti: Jti, user: User)
      requires Valid() && jti !in tokens
      modifies this
      ensures Valid() && log == old(log) + [Issue(jti, user)]
      ensures tokens == old(tokens)[jti := Token(user, Seconds(clock) + STEP_UP_TTL_SECONDS)]
    {
      tokens := tokens[jti := Token(user, Seconds(clock) + STEP_UP_TTL_SECONDS)];
      Book(Issue(jti, user));
    }

    method Sweep()
      modifies this`store
      ensures store == Swept(old(store), clock)
    {
      var keys := store.Keys;
      ghost var before := store;
      while keys != {}
        invariant keys <= store.Keys <= before.Keys
        invariant forall k :: k in store ==> store[k] == before[k]
        invariant forall k :: k in before && k !in keys ==> (k in store <==> clock < before[k])
        decreases keys
      {
        var k :| k in keys;
        if store[k] <= clock {
          store := store - {k};
        }
        keys := keys - {k};
      }
    }

    lemma LiveMeansMarked(p: Pid)
      requires Valid() && p in now.procs && now.procs[p].Timed?
      ensures Live(now, now.procs[p].jti) ==> Marked(now, now.procs[p].jti)
    {
      Knows();
    }

    /** Sweeps the expired markers, then sets the key unless it is still there. */
    method SetIfAbsent(p: Pid, ghost at: int, jti: Jti, ttl: int) returns (consumed: bool)
      requires Valid() && Stands(p, Timed(jti, at, ttl))
      modifies this
      ensures Valid() && log == old(log) + [Mark(p)] && Stands(p, Finished) && tokens == old(tokens)
      ensures consumed ==> now.passes == old(now.passes) + [Pass(jti, at, clock, clock + ttl * 1000)]
      ensures !consumed ==> now.passes == old(now.passes) && Marked(now, jti)
    {
      LiveMeansMarked(p);
      Sweep();
      consumed := jti !in store;
      if consumed {
        store := store[jti := clock + ttl * 1000];
      }
      Book(Mark(p));
    }

    /** The middleware: lets the request through once its token is verified and was not used yet. */
    method RequireStepUp(p: Pid, header: Option<Payload>, user: User, redisUp: bool) returns (passed: bool)
      requires Valid() && p !in now.procs
      modifies this
      ensures Valid() && old(log) <= log
      ensures passed ==>
                && header.Some? && header.value.forStepUp && header.value.jti.Some?
                && now.passes != [] && now.passes[|now.passes| - 1].jti == header.value.jti.value
                && header.value.jti.value in now.tokens && now.tokens[header.value.jti.value].user == user
      ensures !redisUp ==> !passed
      ensures header.Some? && header.value.forStepUp && header.value.jti.Some? && redisUp && !passed ==>
                (header.value.jti.value !in old(tokens) || old(tokens)[header.value.jti.value].user != user
                 || old(clock) / 1000 >= old(tokens)[header.value.jti.value].exp || Marked(now, header.value.jti.value))
    {
      if header.None? || !header.value.forStepUp || header.value.jti.None? {
        return false;
      }
      var jti := header.value.jti.value;
      if jti !in tokens || Seconds(clock) >= tokens[jti].exp || tokens[jti].user != user {
        return false;
      }
      passed := Consume(p, jti, user, redisUp);
    }

    method LifetimeOf(ghost p: Pid, ghost at: int, jti: Jti) returns (ttl: int)
      requires Valid() && Stands(p, Verified(jti, at)) && jti in tokens
      modifies this
      ensures Valid() && old(log) <= log && Stands(p, Timed(jti, at, ttl)) && Keeps(old(tokens), tokens)
    {
      Await(p);
      ttl := Max(1, tokens[jti].exp - Seconds(clock));
      Book(ComputeTtl(p));
    }

    method Consume(p: Pid, jti: Jti, user: User, redisUp: bool) returns (consumed: bool)
      requires Valid() && p !in now.procs && Accepts(now, jti, user)
      modifies this
      ensures Valid() && old(log) <= log
      ensures redisUp && !consumed ==> Marked(now, jti)
      ensures consumed ==>
                && redisUp && now.passes != [] && now.passes[|now.passes| - 1].jti == jti
                && jti in now.tokens && now.tokens[jti].user == user
    {
      ghost var at := clock;
      Book(Verify(p, jti, user));
      var ttl := LifetimeOf(p, at, jti);
      Await(p);
      if redisUp {
        consumed := SetIfAbsent(p, at, jti, ttl);
      } else {
        Book(Give(p));
        consumed := false;
      }
    }
  }
}
