/** refresh and logout as sequences of atomic steps, and what a client sees over any later history. */
module Refresh {
  import opened Schema
  import opened Sessions

  /** authRepository.findById for the token's user. */
  datatype UserState = Missing | Inactive | Active

  /** Why a refresh is refused; RotationLost is the exception of a rotation that no longer finds its token unrevoked. */
  datatype Reason = InvalidToken | Breach | Unauthorized | AccountBlocked | RotationLost

  datatype RefreshOutcome = Refreshed(pair: TokenPair) | Replayed(pair: TokenPair) | Denied(reason: Reason)

  /** The steps of one refresh; `pair` and `expiresAt` are what it would mint, `redis` whether the cache answers. */
  function RefreshSteps(a: Auth, h: Hash, user: UserState, pair: TokenPair, expiresAt: Millis,
                        redis: bool): seq<Action> {
    match Classify(a, h)
    case NOT_FOUND => []
    case EXPIRED => []
    case REUSE_DETECTED => [RevokeAll(a.tokens[h].user)] + (if redis then [Clear(h)] else [])
    case GRACE_PERIOD => if redis && Cached(a, h).None? then [Clear(h)] else []
    case ACTIVE =>
      if user != Active then [] else [Rotate(h, pair, expiresAt), if redis then Store(h) else LoseStore(h)]
  }

  function RefreshResult(a: Auth, h: Hash, user: UserState, pair: TokenPair, redis: bool): RefreshOutcome {
    match Classify(a, h)
    case NOT_FOUND => Denied(InvalidToken)
    case EXPIRED => Denied(InvalidToken)
    case REUSE_DETECTED => Denied(Breach)
    case GRACE_PERIOD => if redis && Cached(a, h).Some? then Replayed(Cached(a, h).value) else Denied(InvalidToken)
    case ACTIVE =>
      (match user
       case Missing => Denied(Unauthorized)
       case Inactive => Denied(AccountBlocked)
       case Active => Refreshed(pair))
  }

  function AfterRefresh(a: Auth, h: Hash, user: UserState, pair: TokenPair, expiresAt: Millis, redis: bool): Auth {
    Run(a, RefreshSteps(a, h, user, pair, expiresAt, redis))
  }

  lemma {:induction false} RunOne(a: Auth, x: Action)
    ensures Run(a, [x]) == Do(a, x)
    ensures Enabled(a, x) ==> EnabledRun(a, [x])
  {
    assert [x][..0] == [];
  }

  lemma {:induction false} RunTwo(a: Auth, x: Action, y: Action)
    ensures Run(a, [x, y]) == Do(Do(a, x), y)
    ensures Enabled(a, x) && Enabled(Do(a, x), y) ==> EnabledRun(a, [x, y])
  {
    RunOne(a, x);
    assert [x, y][..1] == [x];
  }

  /**
   * A refresh with a newly drawn token is a run of enabled steps, and it respects the limit's one-instant condition.
   */
  lemma {:induction false} RefreshIsAtomicRun(a: Auth, h: Hash, user: UserState, pair: TokenPair, expiresAt: Millis,
                                              redis: bool, max: nat)
    requires pair.refresh !in a.issued
    ensures EnabledRun(a, RefreshSteps(a, h, user, pair, expiresAt, redis))
    ensures AtomicRun(a, RefreshSteps(a, h, user, pair, expiresAt, redis), max)
  {
    var xs := RefreshSteps(a, h, user, pair, expiresAt, redis);
    if |xs| == 1 {
      RunOne(a, xs[0]);
      AtomicOne(a, xs[0], max);
      assert xs == [xs[0]];
    } else if |xs| == 2 {
      RunTwo(a, xs[0], xs[1]);
      AtomicTwo(a, xs[0], xs[1], max);
      assert xs == [xs[0], xs[1]];
    }
  }

  lemma {:induction false} AtomicOne(a: Auth, x: Action, max: nat)
    requires AtomicStep(a, x, max)
    ensures AtomicRun(a, [x], max)
  {
    assert AtomicRun(a, [], max) && Run(a, []) == a;
    assert [x][..0] == [] && [x][0] == x;
  }

  lemma {:induction false} AtomicTwo(a: Auth, x: Action, y: Action, max: nat)
    requires AtomicStep(a, x, max) && AtomicStep(Do(a, x), y, max)
    ensures AtomicRun(a, [x, y], max)
  {
    RunOne(a, x);
    AtomicOne(a, x, max);
    assert [x, y][..1] == [x] && [x, y][1] == y;
  }

  /** The steps of a refresh, one after the other. */
  lemma {:induction false} RefreshRuns(a: Auth, h: Hash, user: UserState, pair: TokenPair, exp: Millis, redis: bool)
    ensures AfterRefresh(a, h, user, pair, exp, redis) ==
            match Classify(a, h)
            case REUSE_DETECTED =>
              var revoked := Do(a, RevokeAll(a.tokens[h].user));
              if redis then Do(revoked, Clear(h)) else revoked
            case GRACE_PERIOD => if redis && Cached(a, h).None? then Do(a, Clear(h)) else a
            case ACTIVE =>
              if user != Active then a else Do(Do(a, Rotate(h, pair, exp)), if redis then Store(h) else LoseStore(h))
            case _ => a
  {
    var steps := RefreshSteps(a, h, user, pair, exp, redis);
    if |steps| == 1 {
      RunOne(a, steps[0]);
      assert steps == [steps[0]];
    } else if |steps| == 2 {
      RunTwo(a, steps[0], steps[1]);
      assert steps == [steps[0], steps[1]];
    }
  }

  /** A refreshed token is spent: it has been rotated to exactly the pair the client got. */
  lemma {:induction false} RefreshRotates(a: Auth, h: Hash, user: UserState, pair: TokenPair, expiresAt: Millis,
                                          redis: bool)
    requires RefreshResult(a, h, user, pair, redis).Refreshed? && pair.refresh != h
    ensures var b := AfterRefresh(a, h, user, pair, expiresAt, redis);
            && h in b.rotated && b.rotated[h] == pair
            && h in b.tokens && b.tokens[h] == a.tokens[h].(revokedAt := Some(a.now))
            && pair.refresh in b.tokens && b.tokens[pair.refresh] == Token(a.tokens[h].user, a.now, expiresAt, None)
            && b.now == a.now
            && (redis ==> h in b.cache && b.cache[h] == CacheEntry(pair, a.now + LEEWAY))
  {
    RunTwo(a, Rotate(h, pair, expiresAt), if redis then Store(h) else LoseStore(h));
  }

  /** A refresh that does not rotate adds no token. */
  lemma {:induction false} OtherwiseNoSession(a: Auth, h: Hash, user: UserState, pair: TokenPair, expiresAt: Millis,
                                              redis: bool)
    requires !RefreshResult(a, h, user, pair, redis).Refreshed?
    ensures AfterRefresh(a, h, user, pair, expiresAt, redis).tokens.Keys == a.tokens.Keys
    ensures RefreshResult(a, h, user, pair, redis).Replayed? ==> AfterRefresh(a, h, user, pair, expiresAt, redis) == a
  {
    var xs := RefreshSteps(a, h, user, pair, expiresAt, redis);
    if |xs| == 1 {
      RunOne(a, xs[0]);
      assert xs == [xs[0]];
    } else if |xs| == 2 {
      RunTwo(a, xs[0], xs[1]);
      assert xs == [xs[0], xs[1]];
    }
  }

  lemma {:induction false} RefreshSpends(a: Auth, h: Hash, user: UserState, pair: TokenPair, expiresAt: Millis,
                                         redis: bool)
    requires AuthInv(a) && pair.refresh !in a.issued
    requires RefreshResult(a, h, user, pair, redis).Refreshed?
    ensures var b := AfterRefresh(a, h, user, pair, expiresAt, redis);
            && AuthInv(b) && h in b.tokens && b.tokens[h].revokedAt.Some? && h in b.issued
            && h in b.rotated && b.rotated[h] == pair
  {
    RefreshIsAtomicRun(a, h, user, pair, expiresAt, redis, 1);
    RunIsForward(a, RefreshSteps(a, h, user, pair, expiresAt, redis));
    RefreshRotates(a, h, user, pair, expiresAt, redis);
  }

  lemma {:induction false} SpentNeverRotates(a: Auth, h: Hash, xs: seq<Action>, user: UserState, pair: TokenPair,
                                             redis: bool)
    requires AuthInv(a) && EnabledRun(a, xs)
    requires h in a.tokens && a.tokens[h].revokedAt.Some? && h in a.rotated
    ensures var again := RefreshResult(Run(a, xs), h, user, pair, redis);
            again == Replayed(a.rotated[h]) || again.Denied?
  {
    ReplayIsExact(a, xs, h);
    NeverActiveAgain(a, xs, h);
  }

  /**
   * Refreshing twice with one token, with anything in between: the second call returns the very pair of the first or
   * is denied; it never mints another.
   */
  lemma {:induction false} SecondRefreshRepeats(a: Auth, h: Hash, u1: UserState, p1: TokenPair, exp: Millis, r1: bool,
                                                xs: seq<Action>, u2: UserState, p2: TokenPair, r2: bool)
    requires AuthInv(a) && p1.refresh !in a.issued
    requires RefreshResult(a, h, u1, p1, r1).Refreshed?
    requires EnabledRun(AfterRefresh(a, h, u1, p1, exp, r1), xs)
    ensures var again := RefreshResult(Run(AfterRefresh(a, h, u1, p1, exp, r1), xs), h, u2, p2, r2);
            again == Replayed(p1) || again.Denied?
  {
    RefreshSpends(a, h, u1, p1, exp, r1);
    SpentNeverRotates(AfterRefresh(a, h, u1, p1, exp, r1), h, xs, u2, p2, r2);
  }

  /** A token revoked by logout, eviction or revoke-all, not by rotation, is denied for ever. */
  lemma {:induction false} RevokedNeverRefreshes(a: Auth, h: Hash, xs: seq<Action>, user: UserState, pair: TokenPair,
                                                 redis: bool)
    requires AuthInv(a) && EnabledRun(a, xs)
    requires h in a.tokens && a.tokens[h].revokedAt.Some? && h !in a.rotated
    ensures RefreshResult(Run(a, xs), h, user, pair, redis).Denied?
  {
    ReplayIsExact(a, xs, h);
    NeverActiveAgain(a, xs, h);
  }

  // ---- a lost response and a retry

  /** What has become of the cache write that follows a rotation, `after` the rotation committed. */
  datatype CacheWrite = Outstanding | Failed(after: Millis) | Written(after: Millis)

  /** `wait` after h was rotated, with nothing else happening but the cache write. */
  function Waited(a: Auth, h: Hash, pair: TokenPair, expiresAt: Millis, wait: Millis, write: CacheWrite): Auth
    requires write.Outstanding? || write.after <= wait
  {
    var rotated := Do(a, Rotate(h, pair, expiresAt));
    match write
    case Outstanding => Do(rotated, Tick(wait))
    case Failed(d) => Do(Do(Do(rotated, Tick(d)), LoseStore(h)), Tick(wait - d))
    case Written(d) => Do(Do(Do(rotated, Tick(d)), Store(h)), Tick(wait - d))
  }

  /**
   * A retry `wait` after the rotation: while the token has not expired and is in its grace period, it gets the same
   * pair exactly when the cache write has happened and its entry, which lives LEEWAY from the write on, is still there.
   */
  lemma {:induction false} RetryAfter(a: Auth, h: Hash, pair: TokenPair, expiresAt: Millis, wait: Millis,
                                      write: CacheWrite, user: UserState, pair2: TokenPair, redis: bool)
    requires AuthInv(a) && pair.refresh !in a.issued && Classify(a, h) == Status.ACTIVE
    requires write.Outstanding? || write.after <= wait
    ensures RefreshResult(Waited(a, h, pair, expiresAt, wait, write), h, user, pair2, redis) ==
            if a.tokens[h].expiresAt <= a.now + wait then Denied(InvalidToken)
            else if LEEWAY < wait then Denied(Breach)
            else if redis && write.Written? && wait < write.after + LEEWAY then Replayed(pair)
            else Denied(InvalidToken)
  {
    assert h !in a.cache && pair.refresh != h;
  }

  const RETRY_START: Auth := Auth(0, map[1 := Token(7, 0, 100_000, None)], map[], map[], {}, {1})

  /**
   * A client that retries one millisecond after its rotation, before the cache write, is refused; after it, replayed.
   */
  lemma {:induction false} RetryBeforeTheWrite()
    ensures AuthInv(RETRY_START) && Classify(RETRY_START, 1) == Status.ACTIVE
    ensures RefreshResult(Waited(RETRY_START, 1, TokenPair(0, 2), 200_000, 1, Outstanding), 1, Active,
            TokenPair(0, 3), true)
            == Denied(InvalidToken)
    ensures RefreshResult(Waited(RETRY_START, 1, TokenPair(0, 2), 200_000, 3, Written(2)), 1, Active, TokenPair(0, 3),
            true)
            == Replayed(TokenPair(0, 2))
  {
    RetryAfter(RETRY_START, 1, TokenPair(0, 2), 200_000, 1, Outstanding, Active, TokenPair(0, 3), true);
    RetryAfter(RETRY_START, 1, TokenPair(0, 2), 200_000, 3, Written(2), Active, TokenPair(0, 3), true);
  }

  // ---- logout

  datatype LogoutOutcome = Ignored | TheftReported | Mismatch | LoggedOut

  function LogoutResult(a: Auth, h: Hash, user: UserId): LogoutOutcome {
    match Classify(a, h)
    case NOT_FOUND => Ignored
    case REUSE_DETECTED => TheftReported
    case _ => if a.tokens[h].user != user then Mismatch else LoggedOut
  }

  function LogoutSteps(a: Auth, h: Hash, user: UserId, redis: bool): seq<Action> {
    match LogoutResult(a, h, user)
    case Ignored => []
    case TheftReported => [RevokeAll(a.tokens[h].user)]
    case Mismatch => []
    case LoggedOut => (if redis then [Clear(h)] else []) + (if Classify(a, h) == Status.ACTIVE then [Revoke(h)] else [])
  }

  function AfterLogout(a: Auth, h: Hash, user: UserId, redis: bool): Auth {
    Run(a, LogoutSteps(a, h, user, redis))
  }

  /** The steps of a logout, one after the other. */
  lemma {:induction false} LogoutRuns(a: Auth, h: Hash, user: UserId, redis: bool)
    ensures AfterLogout(a, h, user, redis) ==
            match LogoutResult(a, h, user)
            case TheftReported => Do(a, RevokeAll(a.tokens[h].user))
            case LoggedOut =>
              var cleared := if redis then Do(a, Clear(h)) else a;
              if Classify(a, h) == Status.ACTIVE then Do(cleared, Revoke(h)) else cleared
            case _ => a
  {
    var steps := LogoutSteps(a, h, user, redis);
    if |steps| == 1 {
      RunOne(a, steps[0]);
      assert steps == [steps[0]];
    } else if |steps| == 2 {
      RunTwo(a, steps[0], steps[1]);
      assert steps == [steps[0], steps[1]];
    }
  }

  lemma {:induction false} LogoutRevokes(a: Auth, h: Hash, redis: bool)
    requires AuthInv(a) && Classify(a, h) == Status.ACTIVE
    ensures var b := AfterLogout(a, h, a.tokens[h].user, redis);
            AuthInv(b) && h in b.tokens && b.tokens[h].revokedAt == Some(a.now) && b.rotated == a.rotated
  {
    var steps := LogoutSteps(a, h, a.tokens[h].user, redis);
    if redis {
      RunTwo(a, Clear(h), Revoke(h));
      assert steps == [Clear(h), Revoke(h)];
      StepKeepsAuth(a, Clear(h));
      StepKeepsAuth(Do(a, Clear(h)), Revoke(h));
    } else {
      RunOne(a, Revoke(h));
      assert steps == [Revoke(h)];
      StepKeepsAuth(a, Revoke(h));
    }
  }

  /** A logout whose steps follow one another at one instant: no history lets the token refresh again. */
  lemma {:induction false} LoggedOutStaysOut(a: Auth, h: Hash, redis: bool, xs: seq<Action>, user: UserState,
                                             pair: TokenPair, r: bool)
    requires AuthInv(a) && Classify(a, h) == Status.ACTIVE
    requires EnabledRun(AfterLogout(a, h, a.tokens[h].user, redis), xs)
    ensures RefreshResult(Run(AfterLogout(a, h, a.tokens[h].user, redis), xs), h, user, pair, r).Denied?
  {
    assert h !in a.rotated;
    LogoutRevokes(a, h, redis);
    RevokedNeverRefreshes(AfterLogout(a, h, a.tokens[h].user, redis), h, xs, user, pair, r);
  }

  // ---- cleanup

  /** b is a with some expired rows missing. */
  predicate Cleaned(a: Auth, b: Auth) {
    && b == a.(tokens := b.tokens)
    && (forall h | h in b.tokens :: h in a.tokens && b.tokens[h] == a.tokens[h])
    && (forall h | h in a.tokens && h !in b.tokens :: a.tokens[h].expiresAt <= a.now)
  }

  lemma {:induction false} CleanedLooksTheSame(a: Auth, b: Auth, h: Hash, user: UserState, pair: TokenPair, redis: bool,
                                               u: UserId)
    requires Cleaned(a, b)
    ensures RefreshResult(a, h, user, pair, redis) == RefreshResult(b, h, user, pair, redis)
    ensures ActiveOf(a.tokens, u, a.now) == ActiveOf(b.tokens, u, b.now)
  {
  }

  /** A rotation that still finds its token in a, but in b no longer. */
  predicate LostRotation(a: Auth, b: Auth, x: Action) {
    x.Rotate? && Rotates(a, x.from) && x.from !in b.tokens
  }

  /** A creation that still finds the session it chose to evict in a, but in b no longer. */
  predicate LostCreation(a: Auth, b: Auth, x: Action) {
    x.Create? && !EvictedIsGone(a, x.evicted) && EvictedIsGone(b, x.evicted)
  }

  predicate Lost(a: Auth, b: Auth, x: Action) {
    LostRotation(a, b, x) || LostCreation(a, b, x)
  }

  /** Over any enabled step the clean-up stays invisible exactly when the step is not lost to it. */
  lemma {:induction false} StepKeepsCleanedIff(a: Auth, b: Auth, x: Action)
    requires AuthInv(a) && Cleaned(a, b) && Enabled(a, x)
    ensures Cleaned(Do(a, x), Do(b, x)) <==> !Lost(a, b, x)
  {
    match x {
      case Rotate(from, pair, exp) => RotateKeepsCleanedIff(a, b, from, pair, exp);
      case Create(_, _, _, _) => CreateKeepsCleanedIff(a, b, x);
      case RevokeAll(u) => RevokeAllKeepsCleaned(a, b, u);
      case Delete(hs) => DeleteKeepsCleaned(a, b, hs);
      case Revoke(h) => RevokeKeepsCleaned(a, b, h);
      case _ => CacheKeepsCleaned(a, b, x);
    }
  }

  lemma {:induction false} RevokeKeepsCleaned(a: Auth, b: Auth, h: Hash)
    requires Cleaned(a, b)
    ensures Cleaned(Do(a, Revoke(h)), Do(b, Revoke(h)))
  {
  }

  lemma {:induction false} CacheKeepsCleaned(a: Auth, b: Auth, x: Action)
    requires Cleaned(a, b) && (x.Tick? || x.Store? || x.LoseStore? || x.Clear?)
    ensures Cleaned(Do(a, x), Do(b, x))
  {
  }

  /** Further deletions may find some of their rows gone already. */
  lemma {:induction false} DeleteKeepsCleaned(a: Auth, b: Auth, hs: set<Hash>)
    requires Cleaned(a, b) && Enabled(a, Delete(hs))
    ensures Cleaned(Do(a, Delete(hs)), Do(b, Delete(hs)))
  {
  }

  lemma {:induction false} CreateKeepsCleanedIff(a: Auth, b: Auth, x: Action)
    requires AuthInv(a) && Cleaned(a, b) && x.Create? && Enabled(a, x)
    ensures Cleaned(Do(a, x), Do(b, x)) <==> !LostCreation(a, b, x)
  {
    if LostCreation(a, b, x) {
      assert x.hash in Do(a, x).issued && x.hash !in Do(b, x).issued;
    }
  }

  lemma {:induction false} RevokeAllKeepsCleaned(a: Auth, b: Auth, u: UserId)
    requires Cleaned(a, b)
    ensures Cleaned(Do(a, RevokeAll(u)), Do(b, RevokeAll(u)))
  {
  }

  lemma {:induction false} RotateKeepsCleanedIff(a: Auth, b: Auth, from: Hash, pair: TokenPair, exp: Millis)
    requires AuthInv(a) && Cleaned(a, b)
    ensures Cleaned(Do(a, Rotate(from, pair, exp)), Do(b, Rotate(from, pair, exp)))
            <==> !LostRotation(a, b, Rotate(from, pair, exp))
  {
    if LostRotation(a, b, Rotate(from, pair, exp)) {
      assert from !in Do(b, Rotate(from, pair, exp)).rotated;
    }
  }

  predicate NothingLost(a: Auth, b: Auth, xs: seq<Action>) {
    |xs| == 0 ||
    (NothingLost(a, b, xs[..|xs| - 1]) && !Lost(Run(a, xs[..|xs| - 1]), Run(b, xs[..|xs| - 1]), xs[|xs| - 1]))
  }

  /** A token handed out in a and never in b. */
  predicate Diverged(a: Auth, b: Auth, h: Hash) {
    h in a.issued && h !in b.issued
  }

  lemma {:induction false} StaysDiverged(a: Auth, b: Auth, x: Action, h: Hash)
    requires Diverged(a, b, h) && Enabled(a, x)
    ensures Diverged(Do(a, x), Do(b, x), h)
  {
  }

  lemma {:induction false} LossDiverges(a: Auth, b: Auth, x: Action)
    requires AuthInv(a) && Cleaned(a, b) && Enabled(a, x) && Lost(a, b, x)
    ensures Diverged(Do(a, x), Do(b, x), if x.Rotate? then x.pair.refresh else x.hash)
  {
  }

  /** Over any history the clean-up stays invisible exactly when no rotation and no creation is lost to it. */
  lemma {:induction false} RunKeepsCleanedIff(a: Auth, b: Auth, xs: seq<Action>)
    requires AuthInv(a) && Cleaned(a, b) && EnabledRun(a, xs)
    ensures Cleaned(Run(a, xs), Run(b, xs)) <==> NothingLost(a, b, xs)
    ensures !NothingLost(a, b, xs) ==> exists h :: Diverged(Run(a, xs), Run(b, xs), h)
  {
    if |xs| > 0 {
      var most, last := xs[..|xs| - 1], xs[|xs| - 1];
      RunKeepsCleanedIff(a, b, most);
      RunIsForward(a, most);
      if NothingLost(a, b, most) {
        StepKeepsCleanedIff(Run(a, most), Run(b, most), last);
        if Lost(Run(a, most), Run(b, most), last) {
          LossDiverges(Run(a, most), Run(b, most), last);
          assert Diverged(Run(a, xs), Run(b, xs), if last.Rotate? then last.pair.refresh else last.hash);
        }
      } else {
        var h :| Diverged(Run(a, most), Run(b, most), h);
        StaysDiverged(Run(a, most), Run(b, most), last, h);
        assert Diverged(Run(a, xs), Run(b, xs), h);
      }
    }
  }

  /**
   * Deleting expired rows is invisible: over any later history in which nothing is lost to it, every refresh is
   * answered as it would have been, and every user has the same active sessions.
   */
  lemma {:induction false} CleanupIsInvisible(a: Auth, b: Auth, xs: seq<Action>,
                                              h: Hash, user: UserState, pair: TokenPair, redis: bool, u: UserId)
    requires AuthInv(a) && Cleaned(a, b) && EnabledRun(a, xs) && NothingLost(a, b, xs)
    ensures RefreshResult(Run(a, xs), h, user, pair, redis) == RefreshResult(Run(b, xs), h, user, pair, redis)
    ensures ActiveOf(Run(a, xs).tokens, u, Run(a, xs).now) == ActiveOf(Run(b, xs).tokens, u, Run(b, xs).now)
  {
    RunKeepsCleanedIff(a, b, xs);
    CleanedLooksTheSame(Run(a, xs), Run(b, xs), h, user, pair, redis, u);
  }

  /** Refreshes and creations that find and change their token at one instant lose nothing: it has not expired. */
  lemma {:induction false} AtomicRunsLoseNothing(a: Auth, b: Auth, xs: seq<Action>, max: nat)
    requires AuthInv(a) && Cleaned(a, b) && EnabledRun(a, xs) && AtomicRun(a, xs, max)
    ensures NothingLost(a, b, xs)
  {
    if |xs| > 0 {
      AtomicRunsLoseNothing(a, b, xs[..|xs| - 1], max);
      RunKeepsCleanedIff(a, b, xs[..|xs| - 1]);
    }
  }

  /** A lost rotation shows at once: the pair it would have minted refreshes without the clean-up and not with it. */
  lemma {:induction false} LostRotationIsVisible(a: Auth, b: Auth, h: Hash, pair: TokenPair, exp: Millis,
                                                 pair2: TokenPair, redis: bool)
    requires AuthInv(a) && Cleaned(a, b) && pair.refresh !in a.issued && a.now < exp
    requires LostRotation(a, b, Rotate(h, pair, exp))
    ensures RefreshResult(Do(a, Rotate(h, pair, exp)), pair.refresh, Active, pair2, redis) == Refreshed(pair2)
    ensures RefreshResult(Do(b, Rotate(h, pair, exp)), pair.refresh, Active, pair2, redis) == Denied(InvalidToken)
  {
    assert pair.refresh !in b.tokens;
  }

  /** A token that a refresh found active expires and is swept before the rotation. */
  lemma {:induction false} SweptBeforeItsRotation()
    ensures var a := Do(LATE_START, Tick(6));
            var b := Do(a, Delete({1}));
            && AuthInv(a) && Classify(LATE_START, 1) == Status.ACTIVE
            && Enabled(a, Delete({1})) && Cleaned(a, b)
            && Enabled(a, Rotate(1, TokenPair(0, 3), 100)) && LostRotation(a, b, Rotate(1, TokenPair(0, 3), 100))
  {
    StepKeepsAuth(LATE_START, Tick(6));
  }

  /**
   * Logout, unlike refresh, tells a deleted row from an expired one: it no longer revokes the caller's access token.
   */
  lemma {:induction false} CleanupChangesLogoutIff(a: Auth, b: Auth, h: Hash, user: UserId)
    requires Cleaned(a, b)
    ensures LogoutResult(a, h, user) != LogoutResult(b, h, user) <==> h in a.tokens && h !in b.tokens
  {
  }
}
