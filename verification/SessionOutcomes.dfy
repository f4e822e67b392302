/** What refresh, logout and session creation answer and change, in the columns of the token table. */
module SessionOutcomes {
  import opened Schema
  import opened Sessions
  import opened Refresh

  /** Known and not past its expiry. */
  predicate Unexpired(a: Auth, h: Hash) {
    h in a.tokens && a.now < a.tokens[h].expiresAt
  }

  /** Neither expired nor revoked. */
  predicate Live(a: Auth, h: Hash) {
    h in a.tokens && a.now < a.tokens[h].expiresAt && a.tokens[h].revokedAt.None?
  }

  /** Revoked more than ten seconds ago and not expired: taken for stolen. */
  predicate Stolen(a: Auth, h: Hash) {
    h in a.tokens && a.now < a.tokens[h].expiresAt
    && a.tokens[h].revokedAt.Some? && 10_000 < a.now - a.tokens[h].revokedAt.value
  }

  /** Revoked at most ten seconds ago and not expired. */
  predicate InGrace(a: Auth, h: Hash) {
    h in a.tokens && a.now < a.tokens[h].expiresAt
    && a.tokens[h].revokedAt.Some? && a.now - a.tokens[h].revokedAt.value <= 10_000
  }

  /** A pair is cached for h and its time to live has not ended. */
  predicate Retained(a: Auth, h: Hash) {
    h in a.cache && a.now < a.cache[h].expiresAt
  }

  // ---- refresh

  /** What a refresh is answered, each answer if and only if. */
  lemma {:induction false} RefreshAnswersIff(a: Auth, h: Hash, user: UserState, pair: TokenPair, redis: bool)
    ensures var answer := RefreshResult(a, h, user, pair, redis);
            && (answer == Refreshed(pair) <==> Live(a, h) && user == Active)
            && (answer.Replayed? <==> InGrace(a, h) && redis && Retained(a, h))
            && (answer.Replayed? ==> answer.pair == a.cache[h].pair)
            && (answer == Denied(Unauthorized) <==> Live(a, h) && user == Missing)
            && (answer == Denied(AccountBlocked) <==> Live(a, h) && user == Inactive)
            && (answer == Denied(Breach) <==> Stolen(a, h))
            && (answer == Denied(InvalidToken) <==> !Unexpired(a, h) || (InGrace(a, h) && !(redis && Retained(a, h))))
  {
  }

  /** What a refresh that is answered with a new pair leaves: one token revoked, one added, and the pair cached. */
  lemma {:induction false} RefreshedWrites(a: Auth, h: Hash, user: UserState, pair: TokenPair, exp: Millis, redis: bool)
    requires RefreshResult(a, h, user, pair, redis).Refreshed? && pair.refresh != h
    ensures h in a.tokens
    ensures var b := AfterRefresh(a, h, user, pair, exp, redis);
            && b.now == a.now
            && b.tokens == a.tokens[h := a.tokens[h].(revokedAt := Some(a.now))]
                                   [pair.refresh := Token(a.tokens[h].user, a.now, exp, None)]
            && b.cache == if redis then a.cache[h := CacheEntry(pair, a.now + 10_000)] else a.cache
  {
    RefreshRuns(a, h, user, pair, exp, redis);
  }

  /** Any other answer changes no token, but for a breach; a miss in the grace period drops what is cached for h. */
  lemma {:induction false} OtherAnswersWrite(a: Auth, h: Hash, user: UserState, pair: TokenPair, exp: Millis,
                                             redis: bool)
    requires !RefreshResult(a, h, user, pair, redis).Refreshed?
             && RefreshResult(a, h, user, pair, redis) != Denied(Breach)
    ensures var b := AfterRefresh(a, h, user, pair, exp, redis);
            && b.tokens == a.tokens && b.now == a.now
            && b.cache == if InGrace(a, h) && redis && !Retained(a, h) then a.cache - {h} else a.cache
  {
    RefreshRuns(a, h, user, pair, exp, redis);
  }

  // ---- theft

  /** All sessions of u are over: each live token is revoked now, and no other row is touched. */
  predicate SessionsEnded(a: Auth, b: Auth, u: UserId) {
    && b.now == a.now && b.rotated == a.rotated && b.tokens.Keys == a.tokens.Keys
    && (forall g | g in a.tokens && a.tokens[g].user == u && a.tokens[g].revokedAt.None? ::
          b.tokens[g] == a.tokens[g].(revokedAt := Some(a.now)))
    && (forall g | g in a.tokens && (a.tokens[g].user != u || a.tokens[g].revokedAt.Some?) ::
          b.tokens[g] == a.tokens[g])
    && (forall g | g in b.tokens && b.tokens[g].user == u :: !Live(b, g))
  }

  lemma {:induction false} RevokeAllEnds(a: Auth, u: UserId)
    ensures SessionsEnded(a, Do(a, RevokeAll(u)), u)
    ensures ActiveOf(Do(a, RevokeAll(u)).tokens, u, a.now) == {}
  {
  }

  /** A refresh answered with a breach ends every session of the token's owner. */
  lemma {:induction false} BreachEndsSessions(a: Auth, h: Hash, user: UserState, pair: TokenPair, exp: Millis,
                                              redis: bool)
    requires RefreshResult(a, h, user, pair, redis) == Denied(Breach)
    ensures h in a.tokens
    ensures var u, b := a.tokens[h].user, AfterRefresh(a, h, user, pair, exp, redis);
            && SessionsEnded(a, b, u) && ActiveOf(b.tokens, u, b.now) == {}
            && b.cache == if redis then a.cache - {h} else a.cache
  {
    RefreshRuns(a, h, user, pair, exp, redis);
    RevokeAllEnds(a, a.tokens[h].user);
  }

  /** So does a logout that reports a theft. */
  lemma {:induction false} TheftEndsSessions(a: Auth, h: Hash, caller: UserId, redis: bool)
    requires LogoutResult(a, h, caller) == TheftReported
    ensures h in a.tokens
    ensures var u, b := a.tokens[h].user, AfterLogout(a, h, caller, redis);
            SessionsEnded(a, b, u) && ActiveOf(b.tokens, u, b.now) == {} && b.cache == a.cache
  {
    LogoutRuns(a, h, caller, redis);
    RevokeAllEnds(a, a.tokens[h].user);
  }

  /** A session ended that way gets nothing any more, in any continuation. */
  lemma {:induction false} EndedForGood(a: Auth, b: Auth, u: UserId, g: Hash, xs: seq<Action>, user: UserState,
                                        pair: TokenPair, redis: bool)
    requires AuthInv(b) && SessionsEnded(a, b, u) && EnabledRun(b, xs)
    requires g in a.tokens && a.tokens[g].user == u && g !in a.rotated
    ensures RefreshResult(Run(b, xs), g, user, pair, redis).Denied?
  {
    RevokedNeverRefreshes(b, g, xs, user, pair, redis);
  }

  /** From the breach on: none of the owner's sessions that had not been rotated is ever refreshed again. */
  lemma {:induction false} BreachIsFinal(a: Auth, h: Hash, user: UserState, pair: TokenPair, exp: Millis, redis: bool,
                                         g: Hash, xs: seq<Action>, user2: UserState, pair2: TokenPair, redis2: bool)
    requires AuthInv(a) && pair.refresh !in a.issued && RefreshResult(a, h, user, pair, redis) == Denied(Breach)
    requires g in a.tokens && a.tokens[g].user == a.tokens[h].user && g !in a.rotated
    requires EnabledRun(AfterRefresh(a, h, user, pair, exp, redis), xs)
    ensures RefreshResult(Run(AfterRefresh(a, h, user, pair, exp, redis), xs), g, user2, pair2, redis2).Denied?
  {
    BreachEndsSessions(a, h, user, pair, exp, redis);
    RefreshIsAtomicRun(a, h, user, pair, exp, redis, 1);
    RunIsForward(a, RefreshSteps(a, h, user, pair, exp, redis));
    EndedForGood(a, AfterRefresh(a, h, user, pair, exp, redis), a.tokens[h].user, g, xs, user2, pair2, redis2);
  }

  lemma {:induction false} TheftIsFinal(a: Auth, h: Hash, caller: UserId, redis: bool, g: Hash, xs: seq<Action>,
                                        user2: UserState, pair2: TokenPair, redis2: bool)
    requires AuthInv(a) && LogoutResult(a, h, caller) == TheftReported
    requires g in a.tokens && a.tokens[g].user == a.tokens[h].user && g !in a.rotated
    requires EnabledRun(AfterLogout(a, h, caller, redis), xs)
    ensures RefreshResult(Run(AfterLogout(a, h, caller, redis), xs), g, user2, pair2, redis2).Denied?
  {
    TheftEndsSessions(a, h, caller, redis);
    LogoutRuns(a, h, caller, redis);
    StepKeepsAuth(a, RevokeAll(a.tokens[h].user));
    EndedForGood(a, AfterLogout(a, h, caller, redis), a.tokens[h].user, g, xs, user2, pair2, redis2);
  }

  // ---- logout

  /** What a logout is answered, each answer if and only if. */
  lemma {:induction false} LogoutAnswersIff(a: Auth, h: Hash, caller: UserId)
    ensures var answer := LogoutResult(a, h, caller);
            && (answer == Ignored <==> h !in a.tokens)
            && (answer == TheftReported <==> Stolen(a, h))
            && (answer == Mismatch <==> h in a.tokens && !Stolen(a, h) && a.tokens[h].user != caller)
            && (answer == LoggedOut <==> h in a.tokens && !Stolen(a, h) && a.tokens[h].user == caller)
  {
  }

  /** A logout that is not carried out, and reports no theft, changes nothing. */
  lemma {:induction false} RefusedLogoutWrites(a: Auth, h: Hash, caller: UserId, redis: bool)
    requires LogoutResult(a, h, caller) == Ignored || LogoutResult(a, h, caller) == Mismatch
    ensures AfterLogout(a, h, caller, redis) == a
  {
    LogoutRuns(a, h, caller, redis);
  }

  /** A logout carried out revokes the token if it is live, and drops what is cached for it. */
  lemma {:induction false} LogoutWrites(a: Auth, h: Hash, caller: UserId, redis: bool)
    requires LogoutResult(a, h, caller) == LoggedOut
    ensures h in a.tokens
    ensures var b := AfterLogout(a, h, caller, redis);
            && b.now == a.now
            && b.tokens == (if Live(a, h) then a.tokens[h := a.tokens[h].(revokedAt := Some(a.now))] else a.tokens)
            && b.cache == (if redis then a.cache - {h} else a.cache)
  {
    LogoutRuns(a, h, caller, redis);
    ClearAndRevoke(a, h, redis, AfterLogout(a, h, caller, redis));
  }

  lemma {:induction false} ClearAndRevoke(a: Auth, h: Hash, redis: bool, b: Auth)
    requires var cleared := if redis then Do(a, Clear(h)) else a;
             b == if Classify(a, h) == Status.ACTIVE then Do(cleared, Revoke(h)) else cleared
    ensures b.now == a.now
    ensures b.tokens == (if Live(a, h) then a.tokens[h := a.tokens[h].(revokedAt := Some(a.now))] else a.tokens)
    ensures b.cache == (if redis then a.cache - {h} else a.cache)
  {
  }

  // ---- session creation

  /** The user's live sessions. */
  function SessionsOf(a: Auth, u: UserId): set<Hash> {
    set g | g in a.tokens && a.tokens[g].user == u && a.tokens[g].revokedAt.None? && a.now < a.tokens[g].expiresAt
  }

  /** At the limit, and only then, a session is chosen for eviction: a live one of the user than which none is older. */
  lemma {:induction false} ChoiceIsOldest(a: Auth, u: UserId, max: nat, evicted: Option<Hash>)
    requires ChosenNow(a, u, max, evicted)
    ensures evicted.Some? <==> max <= |SessionsOf(a, u)| && SessionsOf(a, u) != {}
    ensures evicted.Some? ==> evicted.value in SessionsOf(a, u)
    ensures evicted.Some?
            ==> forall g | g in SessionsOf(a, u) :: a.tokens[evicted.value].createdAt <= a.tokens[g].createdAt
  {
    assert SessionsOf(a, u) == ActiveOf(a.tokens, u, a.now);
  }

  /**
   * The eviction by id and the insert: the chosen session is revoked now, the new one is live, no other row changes;
   * if the chosen row has been deleted, nothing changes.
   */
  lemma {:induction false} CreationWrites(a: Auth, u: UserId, h: Hash, exp: Millis, evicted: Option<Hash>)
    ensures var b := Do(a, Create(u, h, exp, evicted));
            if evicted.Some? && evicted.value !in a.tokens then b == a
            else
              && b.now == a.now && b.cache == a.cache
              && b.tokens == (if evicted.Some?
                              then a.tokens[evicted.value := a.tokens[evicted.value].(revokedAt := Some(a.now))]
                              else a.tokens)[h := Token(u, a.now, exp, None)]
  {
  }
}
