/** What a logout achieves when refreshes of the same token run beside it. */
module LogoutThreads {
  import opened Schema
  import opened Sessions
  import opened Refresh
  import opened RefreshThreads

  lemma {:induction false} TokensStay(start: Auth, states: seq<System>, events: seq<Event>, n: nat, m: nat, i: ThreadId)
    requires Trace(start, states, events) && n <= m < |states| && i < |states[n].threads|
    ensures i < |states[m].threads| && states[m].threads[i].token == states[n].threads[i].token
    decreases m
  {
    if n < m {
      TokensStay(start, states, events, n, m - 1, i);
      TokenStays(states[m - 1], events[m - 1], i);
    }
  }

  lemma {:induction false} TokenStays(s: System, e: Event, i: ThreadId)
    requires Possible(s, e) && i < |s.threads|
    ensures i < |NextThreads(s, e)| && NextThreads(s, e)[i].token == s.threads[i].token
  {
  }

  // ---- does the session end?

  /** What the revocation of a logout does, given whether the token has been rotated since it was found active. */
  lemma {:induction false} RevokeStep(s: System, i: ThreadId)
    requires Sane(s) && Possible(s, LeaveRevoke(i)) && PhaseOf(s, i) == Cleared(true)
             && s.threads[i].token in s.auth.issued
    ensures var h, b := s.threads[i].token, NextAuth(s, LeaveRevoke(i));
            && b.rotated == s.auth.rotated
            && (h in s.auth.rotated ==> b.tokens == s.auth.tokens)
            && (h in b.tokens ==> b.tokens[h].revokedAt.Some?)
  {
  }

  /** A handed-out token that is gone or revoked is never rotated any more. */
  lemma {:induction false} SpentStaysUnrotated(a: Auth, b: Auth, h: Hash)
    requires Forward(a, b) && h in a.issued && (h in a.tokens ==> a.tokens[h].revokedAt.Some?)
    ensures h in b.rotated <==> h in a.rotated
    ensures h in b.tokens ==> b.tokens[h].revokedAt.Some?
  {
  }

  /** A logout in the trace that finds its token active at step n and revokes it at step m. */
  predicate LogsOut(start: Auth, states: seq<System>, events: seq<Event>, n: nat, m: nat, i: ThreadId) {
    && Trace(start, states, events) && n < m < |events|
    && events[n] == LeaveLook(i) && i < |states[n].threads|
    && Classify(states[n].auth, states[n].threads[i].token) == Status.ACTIVE
    && events[m] == LeaveRevoke(i) && i < |states[m].threads| && PhaseOf(states[m], i) == Cleared(true)
  }

  /**
   * The session outlives the logout exactly when its token was rotated between the finding and the revocation. Then
   * the revocation changes no token, the successor least of all; else the token has no successor at any later moment,
   * and every refresh of it is denied.
   */
  lemma {:induction false} SessionSurvivesIff(start: Auth, states: seq<System>, events: seq<Event>, n: nat, m: nat,
                                              i: ThreadId, k: nat)
    requires LogsOut(start, states, events, n, m, i) && m < k < |states|
    ensures var h := states[n].threads[i].token;
            && h !in states[n].auth.rotated
            && (h in states[k].auth.rotated <==> h in states[m].auth.rotated)
            && (h in states[m].auth.rotated ==> states[m + 1].auth.tokens == states[m].auth.tokens)
            && (h !in states[m].auth.rotated ==>
                  forall user, pair, redis :: RefreshResult(states[k].auth, h, user, pair, redis).Denied?)
  {
    FoundActive(start, states, events, n, m, i);
    TraceIsSane(start, states, events, m);
    TraceIsSane(start, states, events, k);
    TraceIsForward(start, states, events, m + 1, k);
    RevokedFrom(states[m], i, states[k].auth);
  }

  /** When found active the token is not rotated; the thread is still the same logout when it revokes. */
  lemma {:induction false} FoundActive(start: Auth, states: seq<System>, events: seq<Event>, n: nat, m: nat,
                                       i: ThreadId)
    requires LogsOut(start, states, events, n, m, i)
    ensures var h := states[n].threads[i].token;
            h !in states[n].auth.rotated && states[m].threads[i].token == h && h in states[m].auth.issued
  {
    TraceIsSane(start, states, events, n);
    TokensStay(start, states, events, n, m, i);
    IssuedStays(start, states, events, n, m, states[n].threads[i].token);
  }

  /** What follows from the revocation for any later state. */
  lemma {:induction false} RevokedFrom(s: System, i: ThreadId, later: Auth)
    requires Sane(s) && Possible(s, LeaveRevoke(i)) && PhaseOf(s, i) == Cleared(true)
             && s.threads[i].token in s.auth.issued
    requires AuthInv(later) && Forward(NextAuth(s, LeaveRevoke(i)), later)
    ensures var h := s.threads[i].token;
            && (h in later.rotated <==> h in s.auth.rotated)
            && (h in s.auth.rotated ==> NextAuth(s, LeaveRevoke(i)).tokens == s.auth.tokens)
            && (h !in s.auth.rotated ==>
                  forall user, pair, redis :: RefreshResult(later, h, user, pair, redis).Denied?)
  {
    var h := s.threads[i].token;
    RevokeStep(s, i);
    NextIsForward(s, LeaveRevoke(i));
    SpentStaysUnrotated(NextAuth(s, LeaveRevoke(i)), later, h);
    if h !in s.auth.rotated { UnrotatedIsDenied(later, h); }
  }

  lemma {:induction false} IssuedStays(start: Auth, states: seq<System>, events: seq<Event>, n: nat, m: nat, h: Hash)
    requires Trace(start, states, events) && n <= m < |states| && h in states[n].auth.issued
    ensures h in states[m].auth.issued
  {
    TraceIsForward(start, states, events, n, m);
  }

  lemma {:induction false} UnrotatedIsDenied(a: Auth, h: Hash)
    requires AuthInv(a) && h !in a.rotated && (h in a.tokens ==> a.tokens[h].revokedAt.Some?)
    ensures forall user, pair, redis :: RefreshResult(a, h, user, pair, redis).Denied?
  {
  }

  // ---- can the token still be replayed?

  /** Any further events, from a given state. */
  predicate Continues(s: System, states: seq<System>, events: seq<Event>) {
    && |states| == |events| + 1 && states[0] == s
    && forall k | 0 <= k < |events| :: Possible(states[k], events[k]) && states[k + 1] == Next(states[k], events[k])
  }

  predicate IsReplay(t: Thread, h: Hash) {
    t.token == h && t.phase.Answered? && t.phase.outcome.Replayed?
  }

  /** These events end with a replay of h to a refresh that was not there at the start. */
  predicate LeadsToReplay(s: System, states: seq<System>, events: seq<Event>, i: ThreadId, h: Hash) {
    && Continues(s, states, events) && |s.threads| <= i < |states[|events|].threads|
    && IsReplay(states[|events|].threads[i], h)
  }

  /** A refresh of h that arrives from now on can be answered with the pair of h's rotation. */
  ghost predicate Replayable(s: System, h: Hash) {
    exists states: seq<System>, events: seq<Event>, i: ThreadId :: LeadsToReplay(s, states, events, i, h)
  }

  /** Every rotation whose cache write is still to come belongs to a refresh that will make it. */
  predicate UnstoredAreMinted(s: System) {
    forall h | h in s.auth.unstored ::
      exists j | 0 <= j < |s.threads| :: s.threads[j].token == h && s.threads[j].phase.Minted?
  }

  /** Nothing is cached for h, and nothing will be. */
  predicate Dead(a: Auth, h: Hash) {
    && h in a.issued && (h in a.tokens ==> a.tokens[h].revokedAt.Some?)
    && h !in a.unstored && Cached(a, h).None?
  }

  lemma {:induction false} DeadStepStaysDead(a: Auth, x: Action, h: Hash)
    requires AuthInv(a) && Enabled(a, x) && Dead(a, h)
    ensures Dead(Do(a, x), h)
  {
    StepIsForward(a, x);
  }

  lemma {:induction false} DeadStaysDead(s: System, e: Event, h: Hash)
    requires Sane(s) && Possible(s, e) && Dead(s.auth, h)
    ensures Dead(NextAuth(s, e), h)
  {
    if Effect(s, e).Some? {
      EffectIsEnabled(s, e);
      DeadStepStaysDead(s.auth, Effect(s, e).value, h);
    }
  }

  /** No thread from `from` on has been answered with a replay of h. */
  predicate NoReplayFrom(threads: seq<Thread>, from: nat, h: Hash) {
    forall i | from <= i < |threads| :: !IsReplay(threads[i], h)
  }

  lemma {:induction false} DeadGivesNoReplay(s: System, e: Event, from: nat, h: Hash)
    requires Sane(s) && Possible(s, e) && Dead(s.auth, h) && from <= |s.threads| && NoReplayFrom(s.threads, from, h)
    ensures |s.threads| <= |NextThreads(s, e)| && NoReplayFrom(NextThreads(s, e), from, h)
  {
  }

  lemma {:induction false} NeverReplayed(s: System, states: seq<System>, events: seq<Event>, n: nat, h: Hash)
    requires Sane(s) && Dead(s.auth, h) && Continues(s, states, events) && n <= |events|
    ensures Sane(states[n]) && Dead(states[n].auth, h) && |s.threads| <= |states[n].threads|
    ensures NoReplayFrom(states[n].threads, |s.threads|, h)
  {
    if n > 0 {
      NeverReplayed(s, states, events, n - 1, h);
      NextKeepsSane(states[n - 1], events[n - 1]);
      DeadStaysDead(states[n - 1], events[n - 1], h);
      DeadGivesNoReplay(states[n - 1], events[n - 1], |s.threads|, h);
    }
  }

  /** A retry that finds the pair cached gets it. */
  lemma {:induction false} RetryNow(s: System, h: Hash)
    requires Sane(s) && Classify(s.auth, h) == GRACE_PERIOD && Cached(s.auth, h).Some?
    ensures Replayable(s, h)
  {
    var i := |s.threads|;
    var s1 := Next(s, Arrive(h));
    var s2 := Next(s1, Look(i));
    assert s2.threads[i].phase.Classified? && s2.threads[i].phase.status == GRACE_PERIOD;
    var s3 := Next(s2, Decide(i, true));
    assert Continues(s, [s, s1, s2, s3], [Arrive(h), Look(i), Decide(i, true)]);
    assert LeadsToReplay(s, [s, s1, s2, s3], [Arrive(h), Look(i), Decide(i, true)], i, h);
  }

  lemma {:induction false} EarlierEvent(s: System, e: Event, h: Hash)
    requires Possible(s, e) && Replayable(Next(s, e), h)
    ensures Replayable(s, h)
  {
    var t := Next(s, e);
    var states: seq<System>, events: seq<Event>, i: ThreadId :| LeadsToReplay(t, states, events, i, h);
    var states', events' := [s] + states, [e] + events;
    forall k | 0 <= k < |events'|
      ensures Possible(states'[k], events'[k]) && states'[k + 1] == Next(states'[k], events'[k])
    {
      if k > 0 {
        assert states'[k] == states[k - 1] && events'[k] == events[k - 1] && states'[k + 1] == states[k];
      }
    }
    assert Continues(s, states', events') && states'[|events'|] == states[|events|];
    assert LeadsToReplay(s, states', events', i, h);
  }

  /** The refresh that rotated h can still write the cache; a retry after that gets the pair. */
  lemma {:induction false} WriteThenRetry(s: System, h: Hash)
    requires Sane(s) && UnstoredAreMinted(s) && Classify(s.auth, h) == GRACE_PERIOD && h in s.auth.unstored
    ensures Replayable(s, h)
  {
    var j :| 0 <= j < |s.threads| && s.threads[j].token == h && s.threads[j].phase.Minted?;
    var e := Finish(j, true);
    NextKeepsSane(s, e);
    WriteCaches(s, j);
    RetryNow(Next(s, e), h);
    EarlierEvent(s, e, h);
  }

  lemma {:induction false} WriteCaches(s: System, j: ThreadId)
    requires Sane(s) && j < |s.threads| && s.threads[j].phase.Minted?
    ensures var h, b := s.threads[j].token, Next(s, Finish(j, true)).auth;
            Cached(b, h).Some? && Classify(b, h) == Classify(s.auth, h)
  {
    assert s.threads[j].token in s.auth.rotated;
  }

  /** While a token is in its grace period: it can be replayed exactly if its pair is cached or about to be. */
  lemma {:induction false} ReplayableIff(s: System, h: Hash)
    requires Sane(s) && UnstoredAreMinted(s) && Classify(s.auth, h) == GRACE_PERIOD
    ensures Replayable(s, h) <==> Cached(s.auth, h).Some? || h in s.auth.unstored
  {
    if Cached(s.auth, h).Some? {
      RetryNow(s, h);
    } else if h in s.auth.unstored {
      WriteThenRetry(s, h);
    } else {
      forall states: seq<System>, events: seq<Event>, i: ThreadId
        ensures !LeadsToReplay(s, states, events, i, h)
      {
        if Continues(s, states, events) { NeverReplayed(s, states, events, |events|, h); }
      }
    }
  }

  lemma {:induction false} NextKeepsMinted(s: System, e: Event)
    requires Sane(s) && UnstoredAreMinted(s) && Possible(s, e)
    ensures UnstoredAreMinted(Next(s, e))
  {
    var t := Next(s, e);
    forall h | h in t.auth.unstored
      ensures exists j | 0 <= j < |t.threads| :: t.threads[j].token == h && t.threads[j].phase.Minted?
    {
      if h in s.auth.unstored {
        var j :| 0 <= j < |s.threads| && s.threads[j].token == h && s.threads[j].phase.Minted?;
        MintedStays(s, e, j);
      } else {
        assert e.Mint? && s.threads[e.thread].token == h;
        assert t.threads[e.thread].phase.Minted?;
      }
    }
  }

  /** A refresh that has rotated waits for its cache write, or makes it. */
  lemma {:induction false} MintedStays(s: System, e: Event, j: ThreadId)
    requires Sane(s) && Possible(s, e) && j < |s.threads| && s.threads[j].phase.Minted?
    ensures j < |NextThreads(s, e)|
    ensures NextThreads(s, e)[j] == s.threads[j]
            || (e.Finish? && e.thread == j && s.threads[j].token !in NextAuth(s, e).unstored)
  {
    assert s.threads[j].token in s.auth.rotated;
  }

  lemma {:induction false} TraceKeepsMinted(start: Auth, states: seq<System>, events: seq<Event>, n: nat)
    requires Trace(start, states, events) && start.unstored == {} && n < |states|
    ensures UnstoredAreMinted(states[n])
  {
    if n > 0 {
      TraceKeepsMinted(start, states, events, n - 1);
      TraceIsSane(start, states, events, n - 1);
      NextKeepsMinted(states[n - 1], events[n - 1]);
    }
  }

  /**
   * Once logout has cleared the cache, a token in its grace period can still be replayed exactly when the refresh that
   * rotated it has its cache write still to come.
   */
  lemma {:induction false} ReplayableAfterClearIff(start: Auth, states: seq<System>, events: seq<Event>, n: nat,
                                                   i: ThreadId)
    requires Trace(start, states, events) && start.unstored == {} && n < |events|
    requires events[n] == LeaveAct(i, true) && i < |states[n].threads| && PhaseOf(states[n], i).LeaveFound?
    requires PhaseOf(states[n], i).status != REUSE_DETECTED
    requires Classify(states[n].auth, states[n].threads[i].token) == GRACE_PERIOD
    ensures var h := states[n].threads[i].token;
            Replayable(states[n + 1], h) <==> h in states[n].auth.unstored
  {
    TraceIsSane(start, states, events, n + 1);
    TraceKeepsMinted(start, states, events, n + 1);
    ReplayableIff(states[n + 1], states[n].threads[i].token);
  }

  /** The same at any moment of any trace, a logout's last step included. */
  lemma {:induction false} ReplayableInTraceIff(start: Auth, states: seq<System>, events: seq<Event>, n: nat, h: Hash)
    requires Trace(start, states, events) && start.unstored == {} && n < |states|
    requires Classify(states[n].auth, h) == GRACE_PERIOD
    ensures Replayable(states[n], h) <==> Cached(states[n].auth, h).Some? || h in states[n].auth.unstored
  {
    TraceIsSane(start, states, events, n);
    TraceKeepsMinted(start, states, events, n);
    ReplayableIff(states[n], h);
  }

  // ---- alone

  lemma {:induction false} LeaveLookStep(s: System, i: ThreadId)
    requires i < |s.threads| && PhaseOf(s, i).Leaving?
    ensures var looked := Next(s, LeaveLook(i));
            && looked.auth == s.auth && |looked.threads| == |s.threads| && looked.threads[i].token == s.threads[i].token
            && PhaseOf(looked, i) == AfterLeaveLook(s.auth, s.threads[i].token, PhaseOf(s, i).caller)
  {
  }

  lemma {:induction false} LeaveActStep(s: System, i: ThreadId, redis: bool)
    requires i < |s.threads| && PhaseOf(s, i).LeaveFound?
    ensures var acted, status := Next(s, LeaveAct(i, redis)), PhaseOf(s, i).status;
            && |acted.threads| == |s.threads| && acted.threads[i].token == s.threads[i].token
            && (status == REUSE_DETECTED ==>
                  PhaseOf(acted, i) == Left(TheftReported) && acted.auth == Do(s.auth, RevokeAll(PhaseOf(s, i).owner)))
            && (status != REUSE_DETECTED ==>
                  && PhaseOf(acted, i) == Cleared(status == Status.ACTIVE)
                  && acted.auth == if redis then Do(s.auth, Clear(s.threads[i].token)) else s.auth)
  {
  }

  lemma {:induction false} LeaveRevokeStep(s: System, i: ThreadId)
    requires i < |s.threads| && PhaseOf(s, i).Cleared?
    ensures var done := Next(s, LeaveRevoke(i));
            && |done.threads| == |s.threads| && PhaseOf(done, i) == Left(LoggedOut)
            && done.auth == if PhaseOf(s, i).active then Do(s.auth, Revoke(s.threads[i].token)) else s.auth
  {
  }

  /** The rest of a logout once it has found its token: act, and revoke if there is something to revoke. */
  lemma {:induction false} ActThenRevoke(s: System, i: ThreadId, redis: bool)
    requires i < |s.threads| && PhaseOf(s, i).LeaveFound?
    ensures var h, status := s.threads[i].token, PhaseOf(s, i).status;
            var acted := Next(s, LeaveAct(i, redis));
            && |acted.threads| == |s.threads|
            && (status == REUSE_DETECTED ==>
                  && PhaseOf(acted, i) == Left(TheftReported)
                  && acted.auth == Do(s.auth, RevokeAll(PhaseOf(s, i).owner)))
            && (status != REUSE_DETECTED ==>
                  && Possible(acted, LeaveRevoke(i))
                  && var done, cleared := Next(acted, LeaveRevoke(i)), if redis then Do(s.auth, Clear(h)) else s.auth;
                     && |done.threads| == |s.threads| && PhaseOf(done, i) == Left(LoggedOut)
                     && done.auth == if status == Status.ACTIVE then Do(cleared, Revoke(h)) else cleared)
  {
    LeaveActStep(s, i, redis);
    var acted := Next(s, LeaveAct(i, redis));
    if PhaseOf(acted, i).Cleared? { LeaveRevokeStep(acted, i); }
  }

  /** A logout that finds nothing to do answers at once, as the atomic model does, and changes nothing. */
  lemma {:induction false} NothingToLeave(s: System, i: ThreadId, redis: bool)
    requires i < |s.threads| && PhaseOf(s, i).Leaving?
    ensures var h, user := s.threads[i].token, PhaseOf(s, i).caller;
            var looked := Next(s, LeaveLook(i));
            && looked.auth == s.auth && |looked.threads| == |s.threads| && looked.threads[i].token == h
            && (PhaseOf(looked, i).Left?
               || PhaseOf(looked, i) == LeaveFound(Classify(s.auth, h), s.auth.tokens[h].user))
            && (PhaseOf(looked, i).Left? ==>
                  && PhaseOf(looked, i) == Left(LogoutResult(s.auth, h, user))
                  && AfterLogout(s.auth, h, user, redis) == s.auth)
            && (PhaseOf(looked, i).LeaveFound? ==>
                  LogoutResult(s.auth, h, user)
                  == if Classify(s.auth, h) == REUSE_DETECTED then TheftReported else LoggedOut)
  {
    LeaveLookStep(s, i);
    LogoutRuns(s.auth, s.threads[i].token, PhaseOf(s, i).caller, redis);
  }

  /** A logout whose steps follow one another at one instant is the logout of the atomic model. */
  lemma {:induction false} UndisturbedLogout(s: System, i: ThreadId, redis: bool)
    requires i < |s.threads| && PhaseOf(s, i).Leaving?
    requires LogoutResult(s.auth, s.threads[i].token, PhaseOf(s, i).caller) == LoggedOut
    ensures var h, looked := s.threads[i].token, Next(s, LeaveLook(i));
            && |looked.threads| == |s.threads| && Possible(looked, LeaveAct(i, redis))
            && var acted := Next(looked, LeaveAct(i, redis));
               && Possible(acted, LeaveRevoke(i))
               && var done := Next(acted, LeaveRevoke(i));
                  && |done.threads| == |s.threads| && PhaseOf(done, i) == Left(LoggedOut)
                  && done.auth == AfterLogout(s.auth, h, PhaseOf(s, i).caller, redis)
  {
    LogoutRuns(s.auth, s.threads[i].token, PhaseOf(s, i).caller, redis);
    NothingToLeave(s, i, redis);
    LeaveLookStep(s, i);
    ActThenRevoke(Next(s, LeaveLook(i)), i, redis);
  }

  // ---- an input

  /** User 7 with one token, valid for long. */
  const START: Auth := Auth(0, map[1 := Token(7, 0, 100_000, None)], map[], map[], {}, {1})

  /** Logout finds the token active; a refresh rotates it; logout clears and revokes; the refresh caches its pair. */
  const EVENTS: seq<Event> := [
    LeaveArrive(1, 7), LeaveLook(0), Arrive(1), Look(1), Mint(1, Active, TokenPair(0, 2), 200_000),
    LeaveAct(0, true), LeaveRevoke(0), Finish(1, true)]

  const MINTED: Auth := Auth(
    0, map[1 := Token(7, 0, 100_000, Some(0)), 2 := Token(7, 0, 200_000, None)], map[], map[1 := TokenPair(0, 2)],
    {1}, {1, 2})

  function After(n: nat): (s: System)
    requires n <= 8
  {
    if n == 0 then System(START, [])
    else if n == 1 then System(START, [Thread(1, Leaving(7))])
    else if n == 2 then System(START, [Thread(1, LeaveFound(Status.ACTIVE, 7))])
    else if n == 3 then System(START, [Thread(1, LeaveFound(Status.ACTIVE, 7)), Thread(1, Arrived)])
    else if n == 4 then
      System(START, [Thread(1, LeaveFound(Status.ACTIVE, 7)), Thread(1, Classified(Status.ACTIVE, 7))])
    else if n == 5 then
      System(MINTED, [Thread(1, LeaveFound(Status.ACTIVE, 7)), Thread(1, Minted(TokenPair(0, 2)))])
    else if n == 6 then System(MINTED, [Thread(1, Cleared(true)), Thread(1, Minted(TokenPair(0, 2)))])
    else if n == 7 then System(MINTED, [Thread(1, Left(LoggedOut)), Thread(1, Minted(TokenPair(0, 2)))])
    else
      System(MINTED.(cache := map[1 := CacheEntry(TokenPair(0, 2), LEEWAY)], unstored := {}),
             [Thread(1, Left(LoggedOut)), Thread(1, Answered(Refreshed(TokenPair(0, 2))))])
  }

  lemma {:induction false} StepOfInput(n: nat)
    requires n < 8
    ensures Possible(After(n), EVENTS[n]) && After(n + 1) == Next(After(n), EVENTS[n])
  {
  }

  lemma {:induction false} EndOfInput()
    ensures var s := After(8);
            && |s.threads| == 2 && s.threads[0].phase == Left(LoggedOut)
            && RefreshResult(s.auth, 1, Active, TokenPair(0, 3), true) == Replayed(TokenPair(0, 2))
            && Classify(s.auth, 2) == Status.ACTIVE
  {
  }

  /** Logout answers "logged out", yet the token is replayed and its successor stays active. */
  lemma {:induction false} LogoutLosesTheRace(states: seq<System>)
    requires |states| == 9 && forall n | 0 <= n < 9 :: states[n] == After(n)
    ensures |states[8].threads| == 2
    ensures Trace(START, states, EVENTS) && LogsOut(START, states, EVENTS, 1, 6, 0)
    ensures states[8].threads[0].phase == Left(LoggedOut)
    ensures RefreshResult(states[8].auth, 1, Active, TokenPair(0, 3), true) == Replayed(TokenPair(0, 2))
    ensures Classify(states[8].auth, 2) == Status.ACTIVE
  {
    EndOfInput();
    assert states[8] == After(8) && states[0] == After(0) && states[1] == After(1) && states[6] == After(6);
    forall n | 0 <= n < 8
      ensures Possible(states[n], EVENTS[n]) && states[n + 1] == Next(states[n], EVENTS[n])
    {
      StepOfInput(n);
    }
  }
}
