/**
 * Session creation as createSessionAtomic runs it: one statement chooses the session to evict, a later one revokes it
 * by id. The user's advisory lock keeps other creations away in between, but not rotations, logouts or the clock.
 */
module Evictions {
  import opened Schema
  import opened Sessions

  /** While user u's advisory lock is held nobody else creates a session for u; rotations find their token active. */
  predicate StepUnderLock(a: Auth, x: Action, u: UserId) {
    && (x.Create? ==> x.user != u)
    && (x.Rotate? && Rotates(a, x.from) ==> a.now < a.tokens[x.from].expiresAt)
  }

  predicate RunUnderLock(a: Auth, xs: seq<Action>, u: UserId) {
    |xs| == 0 || (RunUnderLock(a, xs[..|xs| - 1], u) && StepUnderLock(Run(a, xs[..|xs| - 1]), xs[|xs| - 1], u))
  }

  function Active(a: Auth, u: UserId): set<Hash> {
    ActiveOf(a.tokens, u, a.now)
  }

  /** h was an active session of u at a, is none at b, and has no successor: it ended otherwise than by rotation. */
  predicate Ended(a: Auth, b: Auth, u: UserId, h: Hash) {
    h in Active(a, u) && h !in Active(b, u) && h !in b.rotated
  }

  lemma {:induction false} RotationUnderLock(a: Auth, x: Action, u: UserId, h: Hash)
    requires AuthInv(a) && Enabled(a, x) && x.Rotate? && StepUnderLock(a, x, u)
    ensures |Active(Do(a, x), u)| + (if Ended(a, Do(a, x), u, h) then 1 else 0) <= |Active(a, u)|
  {
    if Rotates(a, x.from) {
      ActiveAfterRotation(a, x, u);
      SwapCount(Active(a, u), x.from, x.pair.refresh, a.tokens[x.from].user == u
        && a.now < x.expiresAt, Active(Do(a, x), u));
      assert h != x.from ==> (h in Active(a, u) ==> h in Active(Do(a, x), u));
    }
  }

  lemma {:induction false} SwapCount(before: set<Hash>, from: Hash, next: Hash, joins: bool, after: set<Hash>)
    requires next !in before && after == before - {from} + (if joins then {next} else {})
    requires joins ==> from in before
    ensures |after| <= |before|
  {
    if from in before {
      assert |before - {from}| == |before| - 1;
    } else {
      assert before - {from} == before;
    }
  }

  lemma {:induction false} OtherCreationUnderLock(a: Auth, x: Action, u: UserId, h: Hash)
    requires AuthInv(a) && Enabled(a, x) && x.Create? && StepUnderLock(a, x, u)
    ensures |Active(Do(a, x), u)| + (if Ended(a, Do(a, x), u, h) then 1 else 0) <= |Active(a, u)|
  {
    if !EvictedIsGone(a, x.evicted) {
      ActiveAfterCreate(a, x, u);
      assert Active(Do(a, x), u) == Active(a, u);
    }
  }

  /** Under the lock a step gives the user no session more, and one less if one ends. */
  lemma {:induction false} StepAddsNoSession(a: Auth, x: Action, u: UserId, h: Hash)
    requires AuthInv(a) && Enabled(a, x) && StepUnderLock(a, x, u)
    ensures |Active(Do(a, x), u)| + (if Ended(a, Do(a, x), u, h) then 1 else 0) <= |Active(a, u)|
  {
    if x.Rotate? {
      RotationUnderLock(a, x, u, h);
    } else if x.Create? {
      OtherCreationUnderLock(a, x, u, h);
    } else {
      assert Active(Do(a, x), u) <= Active(a, u);
      Subset(Active(Do(a, x), u), Active(a, u));
      if Ended(a, Do(a, x), u, h) {
        assert Active(Do(a, x), u) <= Active(a, u) - {h};
        Subset(Active(Do(a, x), u), Active(a, u) - {h});
      }
    }
  }

  lemma {:induction false} RunAddsNoSession(a: Auth, xs: seq<Action>, u: UserId, h: Hash)
    requires AuthInv(a) && EnabledRun(a, xs) && RunUnderLock(a, xs, u)
    ensures |Active(Run(a, xs), u)| + (if Ended(a, Run(a, xs), u, h) then 1 else 0) <= |Active(a, u)|
  {
    if |xs| > 0 {
      var most := xs[..|xs| - 1];
      RunAddsNoSession(a, most, u, h);
      RunIsForward(a, most);
      StepAddsNoSession(Run(a, most), xs[|xs| - 1], u, h);
      StepIsForward(Run(a, most), xs[|xs| - 1]);
      assert Ended(a, Run(a, xs), u, h) ==> Ended(a, Run(a, most), u, h) || Ended(Run(a, most), Run(a, xs), u, h);
    }
  }

  /** The choice is made at a; xs happens; then the chosen one is evicted and the new session inserted. */
  predicate LateCreation(a: Auth, xs: seq<Action>, x: Action, max: nat) {
    && AuthInv(a) && EnabledRun(a, xs) && x.Create? && RunUnderLock(a, xs, x.user) && Enabled(Run(a, xs), x)
    && 1 <= max && |Active(a, x.user)| <= max && ChosenNow(a, x.user, max, x.evicted)
  }

  /**
   * The insert takes the user over the limit exactly when the chosen session was rotated in the meantime (and its row
   * is still there) while no other session of the user ended.
   */
  lemma {:induction false} LateCreationExceedsIff(a: Auth, xs: seq<Action>, x: Action, max: nat)
    requires LateCreation(a, xs, x, max) && Run(a, xs).now < x.expiresAt
    ensures max < |Active(Do(Run(a, xs), x), x.user)|
            <==> x.evicted.Some? && x.evicted.value in Run(a, xs).tokens
                 && x.evicted.value in Run(a, xs).rotated && x.evicted.value !in a.rotated
                 && |Active(Run(a, xs), x.user)| == max
  {
    var b := Run(a, xs);
    RunIsForward(a, xs);
    RunAddsNoSession(a, xs, x.user, if x.evicted.Some? then x.evicted.value else 0);
    if !EvictedIsGone(b, x.evicted) {
      ActiveAfterCreate(b, x, x.user);
      CountAfterEviction(Active(b, x.user), x.evicted, x.hash, Active(Do(b, x), x.user));
    }
  }

  lemma {:induction false} CountAfterEviction(before: set<Hash>, evicted: Option<Hash>, added: Hash, after: set<Hash>)
    requires added !in before
    requires after == before - (if evicted.Some? then {evicted.value} else {}) + {added}
    ensures |after| == |before| + (if evicted.Some? && evicted.value in before then 0 else 1)
  {
    var kept := before - (if evicted.Some? then {evicted.value} else {});
    assert |kept + {added}| == |kept| + 1;
    if evicted.None? || evicted.value !in before {
      assert kept == before;
    }
  }

  /**
   * The chosen session was active when chosen; its revocation time is rewritten exactly when it has been revoked since,
   * at an earlier instant. Within ten seconds of the choice that cannot move its classification back.
   */
  lemma {:induction false} LateCreationRewritesIff(a: Auth, xs: seq<Action>, x: Action, max: nat)
    requires LateCreation(a, xs, x, max) && x.evicted.Some? && x.evicted.value in Run(a, xs).tokens
    ensures var b, h := Run(a, xs), x.evicted.value;
            && h in a.tokens && a.tokens[h].revokedAt.None? && h in Do(b, x).tokens
            && Do(b, x).tokens[h].revokedAt == Some(b.now)
            && (LateEviction(b, x, h) <==> b.tokens[h].revokedAt.Some?)
            && (b.tokens[h].revokedAt.Some? ==>
                  (Do(b, x).tokens[h].revokedAt != b.tokens[h].revokedAt <==> b.tokens[h].revokedAt.value < b.now))
            && (b.now <= a.now + LEEWAY ==> Stage(Classify(b, h)) <= Stage(Classify(Do(b, x), h)))
  {
    var b, h := Run(a, xs), x.evicted.value;
    RunIsForward(a, xs);
    StepMovesBackIff(b, x, h);
  }

  /** Creations that choose and evict at one instant hit no token that is revoked already. */
  lemma {:induction false} PromptEvictionsAreNotLate(a: Auth, xs: seq<Action>, max: nat, h: Hash)
    requires AtomicRun(a, xs, max)
    ensures NoLateEviction(a, xs, h)
  {
    if |xs| > 0 {
      PromptEvictionsAreNotLate(a, xs[..|xs| - 1], max, h);
    }
  }

  // ---- inputs

  const START: Auth := Auth(0, map[1 := Token(7, 0, 100, None)], map[], map[], {}, {1})

  /** Chosen for eviction at 0, user 7's one session is rotated at 1 and evicted at 2. */
  const MEANWHILE: seq<Action> := [Tick(1), Rotate(1, TokenPair(0, 2), 100), Tick(1)]

  const INSERT: Action := Create(7, 3, 100, Some(1))

  lemma {:induction false} Meanwhile()
    ensures var b := Run(START, MEANWHILE);
            && EnabledRun(START, MEANWHILE) && RunUnderLock(START, MEANWHILE, 7) && Enabled(b, INSERT)
            && b.now == 2 && b.tokens == map[1 := Token(7, 0, 100, Some(1)), 2 := Token(7, 1, 100, None)]
            && b.rotated == map[1 := TokenPair(0, 2)]
  {
    RunThree(START, MEANWHILE[0], MEANWHILE[1], MEANWHILE[2]);
    assert MEANWHILE == [MEANWHILE[0], MEANWHILE[1], MEANWHILE[2]];
    LockedThree(START, MEANWHILE[0], MEANWHILE[1], MEANWHILE[2], 7);
  }

  lemma {:induction false} LockedThree(a: Auth, x: Action, y: Action, z: Action, u: UserId)
    requires StepUnderLock(a, x, u) && StepUnderLock(Do(a, x), y, u) && StepUnderLock(Do(Do(a, x), y), z, u)
    ensures RunUnderLock(a, [x, y, z], u)
  {
    assert [x][..0] == [] && [x, y][..1] == [x] && [x, y, z][..2] == [x, y];
    assert Run(a, []) == a && Run(a, [x]) == Do(a, x) && Run(a, [x, y]) == Do(Do(a, x), y);
    assert RunUnderLock(a, [], u) && RunUnderLock(a, [x], u) && RunUnderLock(a, [x, y], u);
  }

  lemma {:induction false} StartIsFine()
    ensures AuthInv(START) && WithinLimit(START, 1) && Active(START, 7) == {1} && ChosenNow(START, 7, 1, Some(1))
  {
    forall u: UserId
      ensures |ActiveOf(START.tokens, u, START.now)| <= 1
    {
      Subset(ActiveOf(START.tokens, u, START.now), {1});
    }
    assert Active(START, 7) == {1};
  }

  /** The limit of one is exceeded, and the rotated token's revocation time changes from 1 to 2. */
  lemma {:induction false} LateEvictionBreaksBound()
    ensures LateCreation(START, MEANWHILE, INSERT, 1) && WithinLimit(START, 1)
    ensures var b, c := Run(START, MEANWHILE), Do(Run(START, MEANWHILE), INSERT);
            && Active(c, 7) == {2, 3} && !WithinLimit(c, 1)
            && 1 in b.tokens && b.tokens[1].revokedAt == Some(1) && 1 in c.tokens && c.tokens[1].revokedAt == Some(2)
  {
    StartIsFine();
    Meanwhile();
    var c := Do(Run(START, MEANWHILE), INSERT);
    assert Active(c, 7) == {2, 3};
    assert |ActiveOf(c.tokens, 7, c.now)| == 2;
  }
}
