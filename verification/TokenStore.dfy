/** The refresh-token table and rotation cache in place: auth.repository.ts, session.service.ts and auth.service.ts. */
module TokenStore {
  import opened Schema
  import opened Sessions
  import opened Refresh
  import opened Cleanup

  predicate Oldest(tokens: map<Hash, Token>, s: set<Hash>, h: Hash)
    requires s <= tokens.Keys
  {
    h in s && forall g | g in s :: tokens[h].createdAt <= tokens[g].createdAt
  }

  lemma {:induction false} OldestExists(tokens: map<Hash, Token>, s: set<Hash>)
    requires s != {} && s <= tokens.Keys
    ensures exists h :: Oldest(tokens, s, h)
    decreases |s|
  {
    var x :| x in s;
    var rest := s - {x};
    if rest == {} {
      assert s == {x};
      assert Oldest(tokens, s, x);
    } else {
      OldestExists(tokens, rest);
      var h :| Oldest(tokens, rest, h);
      var oldest := if tokens[h].createdAt <= tokens[x].createdAt then h else x;
      forall g | g in s
        ensures tokens[oldest].createdAt <= tokens[g].createdAt
      {
        assert g == x || g in rest;
      }
      assert Oldest(tokens, s, oldest);
    }
  }

  /** Midway through a clean-up: only rows that have expired by now are gone. */
  predicate Sweeping(before: map<Hash, Token>, tokens: map<Hash, Token>, now: Millis) {
    && (forall h | h in tokens :: h in before && tokens[h] == before[h])
    && (forall h | h in before && h !in tokens :: before[h].expiresAt < now)
  }

  function Unexpired(tokens: map<Hash, Token>, t: Millis): map<Hash, Token> {
    map h | h in tokens && t <= tokens[h].expiresAt :: tokens[h]
  }

  lemma {:induction false} BatchRemoved(before: map<Hash, Token>, tokens: map<Hash, Token>, batch: set<Hash>,
                                        now: Millis)
    requires Sweeping(before, tokens, now)
    requires forall h | h in batch :: h in tokens && tokens[h].expiresAt < now
    ensures Sweeping(before, tokens - batch, now)
    ensures |tokens - batch| == |tokens| - |batch|
    ensures (forall h | h in tokens && tokens[h].expiresAt < now :: h in batch)
            ==> tokens - batch == Unexpired(before, now)
  {
    var kept := tokens - batch;
    assert tokens.Keys == kept.Keys + batch && kept.Keys !! batch;
    assert |tokens.Keys| == |tokens| && |kept.Keys| == |kept|;
  }

  /** Where the batched clean-up stands after some full batches. */
  predicate Midway(start: Auth, a: Auth, total: nat, rounds: seq<Round>, batchSize: nat) {
    && start.now <= a.now && Sweeping(start.tokens, a.tokens, a.now)
    && total == |start.tokens| - |a.tokens| == RowsRemoved(rounds)
    && RoundsOk(start, rounds, batchSize) && a == Through(start, rounds)
    && forall i | 0 <= i < |rounds| :: |rounds[i].rows| == batchSize
  }

  lemma {:induction false} WaitStep(start: Auth, a: Auth, total: nat, rounds: seq<Round>, batch: set<Hash>,
                                    wait: Millis,
                                    batchSize: nat)
    requires Midway(start, a, total, rounds, batchSize) && IsBatch(a, batch, batchSize) && |batch| == batchSize
    ensures Midway(start, Do(Do(a, Delete(batch)), Tick(wait)), total + |batch|,
            rounds + [Round(batch, [Tick(wait)])], batchSize)
    ensures |Do(a, Delete(batch)).tokens| == |a.tokens| - |batch|
  {
    BatchRemoved(start.tokens, a.tokens, batch, a.now);
    BatchRemoved(a.tokens, a.tokens, batch, a.now);
    OneWait(start, rounds, batch, wait, batchSize);
  }

  lemma {:induction false} LastStep(start: Auth, a: Auth, total: nat, rounds: seq<Round>, batch: set<Hash>,
                                    batchSize: nat)
    requires Midway(start, a, total, rounds, batchSize) && IsBatch(a, batch, batchSize) && |batch| < batchSize
    ensures var b, all := Do(a, Delete(batch)), rounds + [Round(batch, [])];
            && CleanupRun(start, all, batchSize) && b == Through(start, all) && b.now == a.now
            && total + |batch| == |start.tokens| - |b.tokens| == RowsRemoved(all)
            && b.tokens == Unexpired(start.tokens, a.now)
  {
    LastSweep(start.tokens, a, batch, batchSize);
    LastBatch(start, rounds, batch, batchSize);
  }

  lemma {:induction false} LastSweep(before: map<Hash, Token>, a: Auth, batch: set<Hash>, batchSize: nat)
    requires Sweeping(before, a.tokens, a.now) && IsBatch(a, batch, batchSize) && |batch| < batchSize
    ensures var b := Do(a, Delete(batch));
            |b.tokens| == |a.tokens| - |batch| && b.tokens == Unexpired(before, a.now) && b.now == a.now
  {
    SameSize(batch, Expired(a));
    BatchRemoved(before, a.tokens, batch, a.now);
  }

  /** auth.repository.ts: the RefreshToken table, and what has happened to it so far. */
  class AuthRepository {
    var now: Millis
    var tokens: map<Hash, Token>
    ghost var rotated: map<Hash, TokenPair>
    ghost var unstored: set<Hash>
    ghost var issued: set<Hash>

    /** The table together with a rotation cache. */
    ghost function View(cache: map<Hash, CacheEntry>): Auth
      reads this
    {
      Auth(now, tokens, cache, rotated, unstored, issued)
    }

    constructor (now: Millis)
      ensures View(map[]) == Auth(now, map[], map[], map[], {}, {})
    {
      this.now, tokens, rotated, unstored, issued := now, map[], map[], {}, {};
    }

    method FindRefreshTokenWithGrace(h: Hash) returns (status: Status)
      ensures status == Classify(View(map[]), h)
    {
      if h !in tokens { return NOT_FOUND; }
      var token := tokens[h];
      if token.expiresAt <= now { return EXPIRED; }
      if token.revokedAt.None? { return Status.ACTIVE; }
      if now - token.revokedAt.value <= LEEWAY { return GRACE_PERIOD; }
      return REUSE_DETECTED;
    }

    /** Finds its row only while unrevoked, and throws otherwise; the new hash has just been drawn. */
    method RotateRefreshToken(from: Hash, pair: TokenPair, expiresAt: Millis) returns (rotates: bool)
      requires pair.refresh !in issued
      modifies this`tokens, this`rotated, this`unstored, this`issued
      ensures rotates == Rotates(old(View(map[])), from)
      ensures View(map[]) == Do(old(View(map[])), Rotate(from, pair, expiresAt))
    {
      if from !in tokens || tokens[from].revokedAt.Some? { return false; }
      var user := tokens[from].user;
      tokens := tokens[from := tokens[from].(revokedAt := Some(now))];
      tokens := tokens[pair.refresh := Token(user, now, expiresAt, None)];
      rotated, unstored, issued := rotated[from := pair], unstored + {from}, issued + {pair.refresh};
      return true;
    }

    method RevokeRefreshToken(h: Hash)
      modifies this`tokens
      ensures View(map[]) == Do(old(View(map[])), Revoke(h))
    {
      if h in tokens && tokens[h].revokedAt.None? {
        tokens := tokens[h := tokens[h].(revokedAt := Some(now))];
      }
    }

    method RevokeAllUserTokens(user: UserId)
      modifies this`tokens
      ensures View(map[]) == Do(old(View(map[])), RevokeAll(user))
    {
      tokens := map h | h in tokens ::
        if tokens[h].user == user && tokens[h].revokedAt.None? then tokens[h].(revokedAt := Some(now)) else tokens[h];
    }

    /** The count and the choice: an oldest active session when the user is at the limit. */
    method ChooseSession(user: UserId, maxSessions: nat) returns (evicted: Option<Hash>)
      ensures ChosenNow(View(map[]), user, maxSessions, evicted)
    {
      var active := ActiveOf(tokens, user, now);
      if maxSessions <= |active| && active != {} {
        OldestExists(tokens, active);
        var oldest :| Oldest(tokens, active, oldest);
        return Some(oldest);
      }
      return None;
    }

    /** The eviction by id and the insert; a choice that has been deleted in the meantime throws. */
    method EvictAndInsert(user: UserId, h: Hash, expiresAt: Millis, evicted: Option<Hash>) returns (ok: bool)
      requires h !in issued
      modifies this`tokens, this`issued
      ensures ok == !EvictedIsGone(old(View(map[])), evicted)
      ensures View(map[]) == Do(old(View(map[])), Create(user, h, expiresAt, evicted))
    {
      if evicted.Some? {
        if evicted.value !in tokens { return false; }
        tokens := tokens[evicted.value := tokens[evicted.value].(revokedAt := Some(now))];
      }
      tokens := tokens[h := Token(user, now, expiresAt, None)];
      issued := issued + {h};
      return true;
    }

    /** Evicts an oldest active session when the user is at the limit, and only then. */
    method CreateSessionAtomic(user: UserId, h: Hash, expiresAt: Millis, maxSessions: nat)
      returns (evicted: Option<Hash>)
      requires h !in issued
      modifies this`tokens, this`issued
      ensures ChosenNow(old(View(map[])), user, maxSessions, evicted)
      ensures View(map[]) == Do(old(View(map[])), Create(user, h, expiresAt, evicted)) && h in tokens
    {
      evicted := ChooseSession(user, maxSessions);
      var _ := EvictAndInsert(user, h, expiresAt, evicted);
    }

    /** All rows with expiresAt before the given reading of the clock. */
    function ExpiredAt(ts: map<Hash, Token>, t: Millis): set<Hash> {
      set h | h in ts && ts[h].expiresAt < t
    }

    /**
     * The batched clean-up: any batchSize expired rows at a time, waiting in between, until a batch is short.
     * It ends, returns how many rows it removed, and leaves exactly those not expired at its last clock reading;
     * `rounds` are its batches.
     */
    method DeleteAllExpiredTokens(batchSize: nat, wait: nat -> Millis) returns (total: nat, ghost rounds: seq<Round>)
      requires 1 <= batchSize
      modifies this`tokens, this`now
      ensures old(now) <= now
      ensures forall h :: h in tokens <==> h in old(tokens) && now <= old(tokens)[h].expiresAt
      ensures forall h | h in tokens :: tokens[h] == old(tokens)[h]
      ensures total == |old(tokens)| - |tokens|
      ensures CleanupRun(old(View(map[])), rounds, batchSize) && View(map[]) == Through(old(View(map[])), rounds)
      ensures total == RowsRemoved(rounds)
    {
      total, rounds := 0, [];
      var waits := 0;
      ghost var start := View(map[]);
      while true
        invariant Midway(start, View(map[]), total, rounds, batchSize)
        decreases |tokens|
      {
        ghost var before := View(map[]);
        var batch := DeleteBatch(batchSize);
        total := total + |batch|;
        if |batch| < batchSize {
          LastStep(start, before, total - |batch|, rounds, batch, batchSize);
          rounds := rounds + [Round(batch, [])];
          break;
        }
        WaitStep(start, before, total - |batch|, rounds, batch, wait(waits), batchSize);
        rounds := rounds + [Round(batch, [Tick(wait(waits))])];
        now := now + wait(waits);
        waits := waits + 1;
      }
    }

    /** One statement: deletes a batch of expired rows. */
    method DeleteBatch(batchSize: nat) returns (batch: set<Hash>)
      modifies this`tokens
      ensures View(map[]) == Do(old(View(map[])), Delete(batch)) && tokens == old(tokens) - batch
      ensures IsBatch(old(View(map[])), batch, batchSize)
    {
      batch := PickBatch(ExpiredAt(tokens, now), batchSize);
      assert ExpiredAt(tokens, now) == Expired(View(map[]));
      tokens := tokens - batch;
    }

    /** LIMIT without ORDER BY: some rows, as many as there are up to the limit. */
    method PickBatch(expired: set<Hash>, limit: nat) returns (batch: set<Hash>)
      ensures batch <= expired
      ensures |batch| == if |expired| <= limit then |expired| else limit
      ensures |expired| <= limit ==> batch == expired
    {
      var rest := expired;
      batch := {};
      while rest != {} && |batch| < limit
        invariant batch + rest == expired && batch !! rest && |batch| <= limit
        decreases |rest|
      {
        var h :| h in rest;
        batch, rest := batch + {h}, rest - {h};
      }
      assert |expired| == |batch| + |rest|;
    }
  }

  /** session.service.ts: delegates to the table and keeps the rotation cache, which may be unreachable. */
  class SessionService {
    const repository: AuthRepository
    var cache: map<Hash, CacheEntry>

    ghost function State(): Auth
      reads this, repository
    {
      repository.View(cache)
    }

    constructor (repository: AuthRepository)
      ensures this.repository == repository && cache == map[]
    {
      this.repository, cache := repository, map[];
    }

    method FindTokenWithGrace(h: Hash) returns (status: Status)
      ensures status == Classify(State(), h)
    {
      status := repository.FindRefreshTokenWithGrace(h);
    }

    method RevokeToken(h: Hash)
      modifies repository`tokens
      ensures State() == Do(old(State()), Revoke(h))
    {
      repository.RevokeRefreshToken(h);
    }

    method RevokeAllTokens(user: UserId)
      modifies repository`tokens
      ensures State() == Do(old(State()), RevokeAll(user))
    {
      repository.RevokeAllUserTokens(user);
    }

    method StoreRotationCache(from: Hash, pair: TokenPair, redis: bool)
      requires from in repository.rotated && repository.rotated[from] == pair
      modifies this`cache, repository`unstored
      ensures State() == Do(old(State()), if redis then Store(from) else LoseStore(from))
    {
      if redis {
        cache := cache[from := CacheEntry(pair, repository.now + LEEWAY)];
      }
      repository.unstored := repository.unstored - {from};
    }

    method GetRotationCache(h: Hash, redis: bool) returns (r: Option<TokenPair>)
      ensures r == if redis then Cached(State(), h) else None
    {
      if redis && h in cache && repository.now < cache[h].expiresAt { return Some(cache[h].pair); }
      return None;
    }

    method ClearRotationCache(h: Hash, redis: bool)
      modifies this`cache
      ensures State() == if redis then Do(old(State()), Clear(h)) else old(State())
    {
      if redis { cache := cache - {h}; }
    }

    /** Rotates the token, then caches the pair; a rotation that throws leaves everything as it was. */
    method RotateToken(from: Hash, pair: TokenPair, expiresAt: Millis, redis: bool) returns (rotates: bool)
      requires pair.refresh !in repository.issued
      modifies this`cache, repository
      ensures rotates == Rotates(old(State()), from)
      ensures rotates ==>
                && var rotated := Do(old(State()), Rotate(from, pair, expiresAt));
                   State() == Do(rotated, if redis then Store(from) else LoseStore(from))
      ensures !rotates ==> State() == old(State())
    {
      rotates := repository.RotateRefreshToken(from, pair, expiresAt);
      if rotates { StoreRotationCache(from, pair, redis); }
    }
  }

  /** auth.service.ts, each call at one instant. */
  class AuthService {
    const sessions: SessionService

    constructor (sessions: SessionService)
      ensures this.sessions == sessions
    {
      this.sessions := sessions;
    }

    /** `user` is what the user lookup returns, `pair` what would be minted. */
    method Refresh(h: Hash, user: UserState, pair: TokenPair, expiresAt: Millis, redis: bool)
      returns (outcome: RefreshOutcome)
      requires pair.refresh !in sessions.repository.issued
      modifies sessions, sessions.repository
      ensures outcome == RefreshResult(old(sessions.State()), h, user, pair, redis)
      ensures sessions.State() == AfterRefresh(old(sessions.State()), h, user, pair, expiresAt, redis)
    {
      RefreshRuns(sessions.State(), h, user, pair, expiresAt, redis);
      var status := sessions.FindTokenWithGrace(h);
      if status == NOT_FOUND || status == EXPIRED { return Denied(InvalidToken); }
      if status == REUSE_DETECTED {
        sessions.RevokeAllTokens(sessions.repository.tokens[h].user);
        sessions.ClearRotationCache(h, redis);
        return Denied(Breach);
      }
      if status == GRACE_PERIOD {
        var cached := sessions.GetRotationCache(h, redis);
        if cached.Some? { return Replayed(cached.value); }
        sessions.ClearRotationCache(h, redis);
        return Denied(InvalidToken);
      }
      if user == Missing { return Denied(Unauthorized); }
      if user == Inactive { return Denied(AccountBlocked); }
      var rotates := sessions.RotateToken(h, pair, expiresAt, redis);
      if !rotates { return Denied(RotationLost); }
      return Refreshed(pair);
    }

    method Logout(h: Hash, user: UserId, redis: bool) returns (outcome: LogoutOutcome)
      modifies sessions, sessions.repository
      ensures outcome == LogoutResult(old(sessions.State()), h, user)
      ensures sessions.State() == AfterLogout(old(sessions.State()), h, user, redis)
    {
      LogoutRuns(sessions.State(), h, user, redis);
      var status := sessions.FindTokenWithGrace(h);
      if status == NOT_FOUND { return Ignored; }
      if status == REUSE_DETECTED {
        sessions.RevokeAllTokens(sessions.repository.tokens[h].user);
        return TheftReported;
      }
      if sessions.repository.tokens[h].user != user { return Mismatch; }
      sessions.ClearRotationCache(h, redis);
      if status == Status.ACTIVE {
        sessions.RevokeToken(h);
      }
      return LoggedOut;
    }
  }
}
