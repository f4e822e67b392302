/**
 * Refresh tokens: classification, rotation, the replay cache and the session limit, over any interleaving of their
 * steps.
 */
module Sessions {
  import opened Schema

  /** A token is known by its hash; hashing is taken as injective, so a pair carries the hash of its refresh token. */
  type Hash = nat
  type Millis = nat

  datatype TokenPair = TokenPair(access: nat, refresh: Hash)
  datatype Token = Token(user: UserId, createdAt: Millis, expiresAt: Millis, revokedAt: Option<Millis>)
  datatype CacheEntry = CacheEntry(pair: TokenPair, expiresAt: Millis)

  /**
   * `tokens` is the RefreshToken table and `cache` the rotation cache. The rest is history: the pair each rotation
   * minted, the rotations whose cache write is still to come, and every hash ever handed out.
   */
  datatype Auth = Auth(
    now: Millis, tokens: map<Hash, Token>, cache: map<Hash, CacheEntry>,
    rotated: map<Hash, TokenPair>, unstored: set<Hash>, issued: set<Hash>)

  const LEEWAY: Millis := 10_000

  datatype Status = ACTIVE | GRACE_PERIOD | REUSE_DETECTED | EXPIRED | NOT_FOUND

  /** findRefreshTokenWithGrace: expiry is checked before revocation. */
  function Classify(a: Auth, h: Hash): Status {
    if h !in a.tokens then NOT_FOUND
    else if a.tokens[h].expiresAt <= a.now then EXPIRED
    else if a.tokens[h].revokedAt.None? then Status.ACTIVE
    else if a.now - a.tokens[h].revokedAt.value <= LEEWAY then GRACE_PERIOD
    else REUSE_DETECTED
  }

  /** Only forward: ACTIVE, grace period, reuse, expired, gone. */
  function Stage(s: Status): nat {
    match s
    case ACTIVE => 0
    case GRACE_PERIOD => 1
    case REUSE_DETECTED => 2
    case EXPIRED => 3
    case NOT_FOUND => 4
  }

  predicate IsActive(t: Token, u: UserId, now: Millis) {
    t.user == u && t.revokedAt.None? && now < t.expiresAt
  }

  function ActiveOf(tokens: map<Hash, Token>, u: UserId, now: Millis): set<Hash> {
    set h | h in tokens && IsActive(tokens[h], u, now)
  }

  predicate IsOldest(tokens: map<Hash, Token>, u: UserId, now: Millis, h: Hash) {
    h in ActiveOf(tokens, u, now)
    && forall g | g in ActiveOf(tokens, u, now) :: tokens[h].createdAt <= tokens[g].createdAt
  }

  // ---- the atomic steps: one database transaction or one cache command each

  datatype Action =
    | Tick(elapsed: Millis)
    | Create(user: UserId, hash: Hash, expiresAt: Millis, evicted: Option<Hash>)
    | Rotate(from: Hash, pair: TokenPair, expiresAt: Millis)
    | Store(from: Hash)
    | LoseStore(from: Hash)
    | Clear(hash: Hash)
    | Revoke(hash: Hash)
    | RevokeAll(user: UserId)
    | Delete(hashes: set<Hash>)

  /** createSessionAtomic's choice: an oldest active session when the user is at the limit, and otherwise none. */
  predicate ChosenNow(a: Auth, u: UserId, max: nat, evicted: Option<Hash>) {
    var active := ActiveOf(a.tokens, u, a.now);
    if max <= |active| && 0 < |active|
    then evicted.Some? && IsOldest(a.tokens, u, a.now, evicted.value)
    else evicted.None?
  }

  /**
   * What a step needs: random tokens are new, a token to evict is one the user was given at some time (its choice may
   * be stale by now), a cache write follows its rotation.
   */
  predicate Enabled(a: Auth, x: Action) {
    match x
    case Create(u, h, _, evicted) =>
      h !in a.issued
      && (evicted.Some? ==> evicted.value in a.issued)
      && (evicted.Some? && evicted.value in a.tokens ==> a.tokens[evicted.value].user == u)
    case Rotate(_, pair, _) => pair.refresh !in a.issued
    case Store(h) => h in a.unstored && h in a.rotated
    case Delete(hs) => forall h | h in hs :: h in a.tokens && a.tokens[h].expiresAt < a.now
    case _ => true
  }

  function RevokeOne(tokens: map<Hash, Token>, h: Hash, now: Millis): map<Hash, Token> {
    if h in tokens && tokens[h].revokedAt.None? then tokens[h := tokens[h].(revokedAt := Some(now))] else tokens
  }

  function RevokeUser(tokens: map<Hash, Token>, u: UserId, now: Millis): map<Hash, Token> {
    map h | h in tokens ::
      if tokens[h].user == u && tokens[h].revokedAt.None? then tokens[h].(revokedAt := Some(now)) else tokens[h]
  }

  /**
   * rotateRefreshToken finds its row only while it is unrevoked (it does not look at the expiry); otherwise it throws.
   */
  predicate Rotates(a: Auth, from: Hash) {
    from in a.tokens && a.tokens[from].revokedAt.None?
  }

  /** createSessionAtomic revokes its choice by id, revoked already or not; a choice that has been deleted throws. */
  function Evict(tokens: map<Hash, Token>, evicted: Option<Hash>, now: Millis): map<Hash, Token> {
    if evicted.Some? && evicted.value in tokens
    then tokens[evicted.value := tokens[evicted.value].(revokedAt := Some(now))] else tokens
  }

  predicate EvictedIsGone(a: Auth, evicted: Option<Hash>) {
    evicted.Some? && evicted.value !in a.tokens
  }

  function Do(a: Auth, x: Action): Auth {
    match x
    case Tick(ms) => a.(now := a.now + ms)
    case Create(u, h, exp, evicted) =>
      if EvictedIsGone(a, evicted) then a
      else a.(tokens := Evict(a.tokens, evicted, a.now)[h := Token(u, a.now, exp, None)], issued := a.issued + {h})
    case Rotate(from, pair, exp) =>
      if !Rotates(a, from) then a
      else a.(
        tokens := RevokeOne(a.tokens, from, a.now)[pair.refresh := Token(a.tokens[from].user, a.now, exp, None)],
        rotated := a.rotated[from := pair],
        unstored := a.unstored + {from},
        issued := a.issued + {pair.refresh})
    case Store(h) =>
      if h !in a.rotated then a
      else a.(cache := a.cache[h := CacheEntry(a.rotated[h], a.now + LEEWAY)], unstored := a.unstored - {h})
    case LoseStore(h) => a.(unstored := a.unstored - {h})
    case Clear(h) => a.(cache := a.cache - {h})
    case Revoke(h) => a.(tokens := RevokeOne(a.tokens, h, a.now))
    case RevokeAll(u) => a.(tokens := RevokeUser(a.tokens, u, a.now))
    case Delete(hs) => a.(tokens := a.tokens - hs)
  }

  /** getRotationCache: nothing after the entry's time to live. */
  function Cached(a: Auth, h: Hash): Option<TokenPair> {
    if h in a.cache && a.now < a.cache[h].expiresAt then Some(a.cache[h].pair) else None
  }

  predicate AuthInv(a: Auth) {
    && a.tokens.Keys <= a.issued
    && a.unstored <= a.rotated.Keys
    && (forall h | h in a.tokens ::
          a.tokens[h].createdAt <= a.now
          && (a.tokens[h].revokedAt.Some? ==> a.tokens[h].revokedAt.value <= a.now))
    && (forall h | h in a.rotated :: h in a.issued && a.rotated[h].refresh in a.issued)
    && (forall h | h in a.rotated && h in a.tokens :: a.tokens[h].revokedAt.Some?)
    && (forall g, h | g in a.rotated && h in a.rotated && g != h :: a.rotated[g].refresh != a.rotated[h].refresh)
    && (forall h | h in a.cache :: h in a.rotated && a.cache[h].pair == a.rotated[h])
  }

  function Run(a: Auth, xs: seq<Action>): Auth {
    if |xs| == 0 then a else Do(Run(a, xs[..|xs| - 1]), xs[|xs| - 1])
  }

  predicate EnabledRun(a: Auth, xs: seq<Action>) {
    |xs| == 0 || (EnabledRun(a, xs[..|xs| - 1]) && Enabled(Run(a, xs[..|xs| - 1]), xs[|xs| - 1]))
  }

  lemma {:induction false} RotateKeepsAuth(a: Auth, from: Hash, pair: TokenPair, exp: Millis)
    requires AuthInv(a) && pair.refresh !in a.issued
    ensures AuthInv(Do(a, Rotate(from, pair, exp)))
  {
  }

  lemma {:induction false} CreateKeepsAuth(a: Auth, x: Action)
    requires AuthInv(a) && x.Create? && Enabled(a, x)
    ensures AuthInv(Do(a, x))
  {
  }

  lemma {:induction false} StepKeepsAuth(a: Auth, x: Action)
    requires AuthInv(a) && Enabled(a, x)
    ensures AuthInv(Do(a, x))
  {
    match x {
      case Rotate(from, pair, exp) => RotateKeepsAuth(a, from, pair, exp);
      case Create(_, _, _, _) => CreateKeepsAuth(a, x);
      case RevokeAll(u) => RevokeAllKeepsAuth(a, u);
      case _ =>
    }
  }

  lemma {:induction false} RevokeAllKeepsAuth(a: Auth, u: UserId)
    requires AuthInv(a)
    ensures AuthInv(Do(a, RevokeAll(u)))
  {
  }

  // ---- what one step can do to one token

  /** Time does not run back, history is kept, and a token already handed out is never unrevoked or given back. */
  predicate Forward(a: Auth, b: Auth) {
    && a.now <= b.now && a.issued <= b.issued
    && (forall h | h in a.rotated :: h in b.rotated && b.rotated[h] == a.rotated[h])
    && (forall h | h in a.issued && h in b.tokens ::
          && h in a.tokens
          && b.tokens[h] == a.tokens[h].(revokedAt := b.tokens[h].revokedAt)
          && (a.tokens[h].revokedAt.Some? ==>
                b.tokens[h].revokedAt.Some? && a.tokens[h].revokedAt.value <= b.tokens[h].revokedAt.value)
          && (a.tokens[h].revokedAt.None? && b.tokens[h].revokedAt.Some? ==> a.now <= b.tokens[h].revokedAt.value))
    && (forall h | h in a.issued && h in b.rotated && h !in a.rotated ::
          h in a.tokens && a.tokens[h].revokedAt.None?)
  }

  lemma {:induction false} StepIsForward(a: Auth, x: Action)
    requires AuthInv(a) && Enabled(a, x)
    ensures Forward(a, Do(a, x))
  {
    match x {
      case Rotate(from, pair, exp) => RotateIsForward(a, from, pair, exp);
      case Create(_, _, _, _) => CreateIsForward(a, x);
      case RevokeAll(u) => RevokeAllIsForward(a, u);
      case _ =>
    }
  }

  lemma {:induction false} RotateIsForward(a: Auth, from: Hash, pair: TokenPair, exp: Millis)
    requires AuthInv(a) && pair.refresh !in a.issued
    ensures Forward(a, Do(a, Rotate(from, pair, exp)))
  {
  }

  lemma {:induction false} CreateIsForward(a: Auth, x: Action)
    requires AuthInv(a) && x.Create? && Enabled(a, x)
    ensures Forward(a, Do(a, x))
  {
  }

  lemma {:induction false} RevokeAllIsForward(a: Auth, u: UserId)
    requires AuthInv(a)
    ensures Forward(a, Do(a, RevokeAll(u)))
  {
  }

  lemma {:induction false} ForwardReflexive(a: Auth)
    requires AuthInv(a)
    ensures Forward(a, a)
  {
  }

  lemma {:induction false} ForwardTransitive(a: Auth, b: Auth, c: Auth)
    requires Forward(a, b) && Forward(b, c)
    ensures Forward(a, c)
  {
    forall h | h in a.issued && h in c.rotated && h !in a.rotated
      ensures h in a.tokens && a.tokens[h].revokedAt.None?
    {
      if h !in b.rotated {
        assert h in b.tokens && b.tokens[h].revokedAt.None?;
      }
    }
  }

  lemma {:induction false} RunIsForward(a: Auth, xs: seq<Action>)
    requires AuthInv(a) && EnabledRun(a, xs)
    ensures AuthInv(Run(a, xs)) && Forward(a, Run(a, xs))
  {
    if |xs| > 0 {
      var most := xs[..|xs| - 1];
      RunIsForward(a, most);
      StepKeepsAuth(Run(a, most), xs[|xs| - 1]);
      StepIsForward(Run(a, most), xs[|xs| - 1]);
      ForwardTransitive(a, Run(a, most), Run(a, xs));
    }
  }

  // ---- main results

  /** An eviction, chosen earlier, of a token that has been revoked since. */
  predicate LateEviction(a: Auth, x: Action, h: Hash) {
    x.Create? && x.evicted == Some(h) && h in a.tokens && a.tokens[h].revokedAt.Some?
  }

  /** In one step a revocation time is rewritten, and a classification moves back, exactly by a late eviction. */
  lemma {:induction false} StepMovesBackIff(a: Auth, x: Action, h: Hash)
    requires AuthInv(a) && Enabled(a, x) && h in a.issued
    ensures h in a.tokens && a.tokens[h].revokedAt.Some? && h in Do(a, x).tokens ==>
              (Do(a, x).tokens[h].revokedAt != a.tokens[h].revokedAt
               <==> LateEviction(a, x, h) && a.tokens[h].revokedAt.value < a.now)
    ensures Stage(Classify(Do(a, x), h)) < Stage(Classify(a, h))
            <==> LateEviction(a, x, h) && Classify(a, h) == REUSE_DETECTED
  {
    StepIsForward(a, x);
    if x.Rotate? {
      RotateSpares(a, x.from, x.pair, x.expiresAt, h);
    }
  }

  lemma {:induction false} RotateSpares(a: Auth, from: Hash, pair: TokenPair, exp: Millis, h: Hash)
    requires AuthInv(a) && pair.refresh !in a.issued && h in a.issued
    ensures h in a.tokens && a.tokens[h].revokedAt.Some? && h in Do(a, Rotate(from, pair, exp)).tokens ==>
              Do(a, Rotate(from, pair, exp)).tokens[h] == a.tokens[h]
    ensures Stage(Classify(a, h)) <= Stage(Classify(Do(a, Rotate(from, pair, exp)), h))
  {
  }

  predicate NoLateEviction(a: Auth, xs: seq<Action>, h: Hash) {
    |xs| == 0 || (NoLateEviction(a, xs[..|xs| - 1], h) && !LateEviction(Run(a, xs[..|xs| - 1]), xs[|xs| - 1], h))
  }

  /**
   * While no late eviction hits it, the classification of a token only moves forward, and its revocation time, once
   * set, stays while the row exists.
   */
  lemma {:induction false} LifecycleIsMonotone(a: Auth, xs: seq<Action>, h: Hash)
    requires AuthInv(a) && EnabledRun(a, xs) && h in a.issued && NoLateEviction(a, xs, h)
    ensures Stage(Classify(a, h)) <= Stage(Classify(Run(a, xs), h))
    ensures h in a.tokens && a.tokens[h].revokedAt.Some? && h in Run(a, xs).tokens ==>
              Run(a, xs).tokens[h].revokedAt == a.tokens[h].revokedAt
  {
    if |xs| > 0 {
      var most, last := xs[..|xs| - 1], xs[|xs| - 1];
      LifecycleIsMonotone(a, most, h);
      RunIsForward(a, most);
      StepIsForward(Run(a, most), last);
      StepMovesBackIff(Run(a, most), last, h);
    }
  }

  /** Late evictions or not: a token that is not active never is again, and one that has expired stays so. */
  lemma {:induction false} NeverActiveAgain(a: Auth, xs: seq<Action>, h: Hash)
    requires AuthInv(a) && EnabledRun(a, xs) && h in a.issued
    ensures Classify(a, h) != Status.ACTIVE ==> Classify(Run(a, xs), h) != Status.ACTIVE
    ensures Classify(a, h) == EXPIRED || Classify(a, h) == NOT_FOUND ==>
              Stage(Classify(a, h)) <= Stage(Classify(Run(a, xs), h))
    ensures h in a.tokens && a.tokens[h].revokedAt.Some? && h in Run(a, xs).tokens ==>
              Run(a, xs).tokens[h].revokedAt.Some?
  {
    RunIsForward(a, xs);
  }

  /**
   * Left alone, a revoked token is one day taken for stolen exactly when it outlives its grace period: expiry is
   * checked first, so an old token that has expired never sets off the alarm.
   */
  lemma {:induction false} ReuseIsSeenIff(a: Auth, h: Hash)
    requires h in a.tokens && a.tokens[h].revokedAt.Some? && a.tokens[h].revokedAt.value <= a.now
    ensures (exists wait: Millis :: Classify(Do(a, Tick(wait)), h) == REUSE_DETECTED)
            <==> a.now < a.tokens[h].expiresAt && a.tokens[h].revokedAt.value + LEEWAY + 1 < a.tokens[h].expiresAt
  {
    var graceEnds := a.tokens[h].revokedAt.value + LEEWAY;
    var wait := if graceEnds < a.now then 0 else graceEnds + 1 - a.now;
    assert a.now < a.tokens[h].expiresAt && graceEnds + 1 < a.tokens[h].expiresAt ==>
             Classify(Do(a, Tick(wait)), h) == REUSE_DETECTED;
  }

  /**
   * Rotation is linear: a token's successor never changes, two tokens never share one, and a rotated token is spent.
   */
  lemma {:induction false} RotationIsLinear(a: Auth, xs: seq<Action>, h: Hash)
    requires AuthInv(a) && EnabledRun(a, xs) && h in a.rotated
    ensures var b := Run(a, xs);
            && h in b.rotated && b.rotated[h] == a.rotated[h]
            && !Rotates(b, h)
            && forall g | g in b.rotated && g != h :: b.rotated[g].refresh != b.rotated[h].refresh
  {
    RunIsForward(a, xs);
  }

  /**
   * Replay is exact: a pair read from the cache, now or at any later moment of the run, by a caller that found its
   * token revoked, is the pair the token's one rotation minted; a token revoked otherwise never yields a pair.
   */
  lemma {:induction false} ReplayIsExact(a: Auth, xs: seq<Action>, h: Hash)
    requires AuthInv(a) && EnabledRun(a, xs)
    requires h in a.tokens && a.tokens[h].revokedAt.Some?
    ensures h in a.rotated ==> Cached(Run(a, xs), h) == None || Cached(Run(a, xs), h) == Some(a.rotated[h])
    ensures h !in a.rotated ==> Cached(Run(a, xs), h) == None && h !in Run(a, xs).rotated
  {
    RunIsForward(a, xs);
  }

  // ---- the session limit

  ghost predicate WithinLimit(a: Auth, max: nat) {
    forall u: UserId :: |ActiveOf(a.tokens, u, a.now)| <= max
  }

  /** Every creation chooses and evicts, and every rotation finds its token active, at the same instant. */
  predicate AtomicStep(a: Auth, x: Action, max: nat) {
    && (x.Create? ==> ChosenNow(a, x.user, max, x.evicted))
    && (x.Rotate? ==> Rotates(a, x.from) ==> a.now < a.tokens[x.from].expiresAt)
  }

  predicate AtomicRun(a: Auth, xs: seq<Action>, max: nat) {
    |xs| == 0 || (AtomicRun(a, xs[..|xs| - 1], max) && AtomicStep(Run(a, xs[..|xs| - 1]), xs[|xs| - 1], max))
  }

  lemma {:induction false} Subset(a: set<Hash>, b: set<Hash>)
    requires a <= b
    ensures |a| <= |b|
  {
    assert b == a + (b - a);
  }

  lemma {:induction false} ActiveAfterRevoke(tokens: map<Hash, Token>, h: Hash, u: UserId, now: Millis)
    ensures ActiveOf(RevokeOne(tokens, h, now), u, now) == ActiveOf(tokens, u, now) - {h}
  {
  }

  lemma {:induction false} ActiveAfterInsert(tokens: map<Hash, Token>, h: Hash, t: Token, u: UserId, now: Millis)
    requires h !in tokens
    ensures ActiveOf(tokens[h := t], u, now) == ActiveOf(tokens, u, now) + (if IsActive(t, u, now) then {h} else {})
  {
  }

  lemma {:induction false} ActiveAfterEvict(tokens: map<Hash, Token>, evicted: Option<Hash>, u: UserId, now: Millis)
    ensures ActiveOf(Evict(tokens, evicted, now), u, now)
            == ActiveOf(tokens, u, now) - (if evicted.Some? then {evicted.value} else {})
  {
  }

  /** The evicted token, if it was active, leaves the active set; the new one joins it. */
  lemma {:induction false} ActiveAfterCreate(a: Auth, x: Action, u: UserId)
    requires a.tokens.Keys <= a.issued && Enabled(a, x) && x.Create? && !EvictedIsGone(a, x.evicted)
    ensures ActiveOf(Do(a, x).tokens, u, a.now) ==
            ActiveOf(a.tokens, u, a.now) - (if x.evicted.Some? then {x.evicted.value} else {})
            + (if x.user == u && a.now < x.expiresAt then {x.hash} else {})
    ensures x.hash !in ActiveOf(a.tokens, u, a.now)
  {
    ActiveAfterEvict(a.tokens, x.evicted, u, a.now);
    ActiveAfterInsert(Evict(a.tokens, x.evicted, a.now), x.hash, Token(x.user, a.now, x.expiresAt, None), u, a.now);
  }

  lemma {:induction false} CreateKeepsLimit(a: Auth, x: Action, max: nat, u: UserId)
    requires a.tokens.Keys <= a.issued && Enabled(a, x) && x.Create? && AtomicStep(a, x, max) && 1 <= max
    requires |ActiveOf(a.tokens, u, a.now)| <= max
    ensures |ActiveOf(Do(a, x).tokens, u, a.now)| <= max
  {
    if !EvictedIsGone(a, x.evicted) {
      ActiveAfterCreate(a, x, u);
      if x.user != u && x.evicted.Some? {
        Subset(ActiveOf(a.tokens, u, a.now) - {x.evicted.value}, ActiveOf(a.tokens, u, a.now));
      }
    }
  }

  /** The rotated token leaves the active set, its successor joins it. */
  lemma {:induction false} ActiveAfterRotation(a: Auth, x: Action, u: UserId)
    requires a.tokens.Keys <= a.issued && Enabled(a, x) && x.Rotate? && Rotates(a, x.from)
    ensures ActiveOf(Do(a, x).tokens, u, a.now) ==
            ActiveOf(a.tokens, u, a.now) - {x.from}
            + (if a.tokens[x.from].user == u && a.now < x.expiresAt then {x.pair.refresh} else {})
    ensures x.pair.refresh !in ActiveOf(a.tokens, u, a.now)
  {
    ActiveAfterRevoke(a.tokens, x.from, u, a.now);
    ActiveAfterInsert(RevokeOne(a.tokens, x.from, a.now), x.pair.refresh,
                      Token(a.tokens[x.from].user, a.now, x.expiresAt, None), u, a.now);
  }

  lemma {:induction false} RotateKeepsLimit(a: Auth, x: Action, max: nat, u: UserId)
    requires a.tokens.Keys <= a.issued && Enabled(a, x) && x.Rotate? && AtomicStep(a, x, max)
    requires |ActiveOf(a.tokens, u, a.now)| <= max
    ensures |ActiveOf(Do(a, x).tokens, u, a.now)| <= max
  {
    if Rotates(a, x.from) {
      ActiveAfterRotation(a, x, u);
      Subset(ActiveOf(a.tokens, u, a.now) - {x.from}, ActiveOf(a.tokens, u, a.now));
    }
  }

  lemma {:induction false} StepKeepsLimit(a: Auth, x: Action, max: nat)
    requires AuthInv(a) && Enabled(a, x) && AtomicStep(a, x, max) && 1 <= max && WithinLimit(a, max)
    ensures WithinLimit(Do(a, x), max)
  {
    forall u: UserId
      ensures |ActiveOf(Do(a, x).tokens, u, Do(a, x).now)| <= max
    {
      if x.Create? {
        CreateKeepsLimit(a, x, max, u);
      } else if x.Rotate? {
        RotateKeepsLimit(a, x, max, u);
      } else {
        Subset(ActiveOf(Do(a, x).tokens, u, Do(a, x).now), ActiveOf(a.tokens, u, a.now));
      }
    }
  }

  /**
   * No user ever has more active sessions than the limit, when each refresh classifies and rotates, and each creation
   * chooses and evicts, at one instant.
   */
  lemma {:induction false} SessionBound(a: Auth, xs: seq<Action>, max: nat)
    requires AuthInv(a) && EnabledRun(a, xs) && AtomicRun(a, xs, max) && 1 <= max && WithinLimit(a, max)
    ensures WithinLimit(Run(a, xs), max)
  {
    if |xs| > 0 {
      var most := xs[..|xs| - 1];
      SessionBound(a, most, max);
      RunIsForward(a, most);
      StepKeepsLimit(Run(a, most), xs[|xs| - 1], max);
    }
  }

  /**
   * Without that instant the bound can break: a rotation adds an active session exactly when it replaces a token that
   * expired after it was classified (rotateRefreshToken does not look at the expiry).
   */
  lemma {:induction false} RotationAddsSessionIff(a: Auth, x: Action)
    requires AuthInv(a) && Enabled(a, x) && x.Rotate? && Rotates(a, x.from) && a.now < x.expiresAt
    ensures var u := a.tokens[x.from].user;
            |ActiveOf(Do(a, x).tokens, u, a.now)|
            == |ActiveOf(a.tokens, u, a.now)| + (if a.tokens[x.from].expiresAt <= a.now then 1 else 0)
  {
    ActiveAfterRotation(a, x, a.tokens[x.from].user);
  }

  lemma {:induction false} RunThree(a: Auth, x: Action, y: Action, z: Action)
    ensures Run(a, [x, y, z]) == Do(Do(Do(a, x), y), z)
    ensures Enabled(a, x) && Enabled(Do(a, x), y) && Enabled(Do(Do(a, x), y), z) ==> EnabledRun(a, [x, y, z])
  {
    assert [x][..0] == [] && [x, y][..1] == [x] && [x, y, z][..2] == [x, y];
    assert Run(a, [x]) == Do(a, x);
    assert Run(a, [x, y]) == Do(Do(a, x), y);
    assert Enabled(a, x) ==> EnabledRun(a, [x]);
    assert Enabled(a, x) && Enabled(Do(a, x), y) ==> EnabledRun(a, [x, y]);
  }

  /** One user with one session, about to expire. */
  const LATE_START: Auth := Auth(0, map[1 := Token(7, 0, 5, None)], map[], map[], {}, {1})

  /** The session expires, the user logs in again, and then a refresh that found it active rotates it. */
  const LATE_RUN: seq<Action> := [Tick(5), Create(7, 2, 100, None), Rotate(1, TokenPair(0, 3), 100)]

  lemma {:induction false} LateStartIsFine()
    ensures AuthInv(LATE_START) && WithinLimit(LATE_START, 1) && Classify(LATE_START, 1) == Status.ACTIVE
  {
    forall u: UserId
      ensures |ActiveOf(LATE_START.tokens, u, LATE_START.now)| <= 1
    {
      Subset(ActiveOf(LATE_START.tokens, u, LATE_START.now), {1});
    }
  }

  lemma {:induction false} LateRunEnds()
    ensures EnabledRun(LATE_START, LATE_RUN) && Run(LATE_START, LATE_RUN).now == 5
    ensures Run(LATE_START, LATE_RUN).tokens
            == map[1 := Token(7, 0, 5, Some(5)), 2 := Token(7, 5, 100, None), 3 := Token(7, 5, 100, None)]
  {
    var a1 := Do(LATE_START, LATE_RUN[0]);
    assert ActiveOf(a1.tokens, 7, 5) == {};
    var a2 := Do(a1, LATE_RUN[1]);
    assert a2.tokens == map[1 := Token(7, 0, 5, None), 2 := Token(7, 5, 100, None)];
    RunThree(LATE_START, LATE_RUN[0], LATE_RUN[1], LATE_RUN[2]);
    assert LATE_RUN == [LATE_RUN[0], LATE_RUN[1], LATE_RUN[2]];
  }

  /** So the bound does not survive a rotation that comes later than its classification. */
  lemma {:induction false} LateRotationBreaksBound()
    ensures AuthInv(LATE_START) && EnabledRun(LATE_START, LATE_RUN) && WithinLimit(LATE_START, 1)
    ensures !WithinLimit(Run(LATE_START, LATE_RUN), 1)
  {
    LateStartIsFine();
    LateRunEnds();
    var b := Run(LATE_START, LATE_RUN);
    assert ActiveOf(b.tokens, 7, b.now) == {2, 3};
    assert |ActiveOf(b.tokens, 7, b.now)| == 2;
  }
}
