/**
 * Any number of refreshes and logouts at once, each as the steps auth.service.ts awaits one after the other: what a
 * call found may be stale when it acts on it.
 */
module RefreshThreads {
  import opened Schema
  import opened Sessions
  import opened Refresh

  /**
   * A refresh before its look at the token, after it, with one cache command still to come, or answered; and a logout
   * before its look, after it, with its revocation still to come (if it found the token active), or answered.
   */
  datatype Phase =
    | Arrived
    | Classified(status: Status, owner: UserId)
    | Compromised
    | Missed
    | Minted(pair: TokenPair)
    | Answered(outcome: RefreshOutcome)
    | Leaving(caller: UserId)
    | LeaveFound(status: Status, owner: UserId)
    | Cleared(active: bool)
    | Left(answer: LogoutOutcome)

  datatype Thread = Thread(token: Hash, phase: Phase)

  datatype System = System(auth: Auth, threads: seq<Thread>)

  type ThreadId = nat

  /** A thread's next step, a new request, or anything else that happens to the tokens, the cache or the clock. */
  datatype Event =
    | Arrive(token: Hash)
    | Look(thread: ThreadId)
    | Decide(thread: ThreadId, redis: bool)
    | Mint(thread: ThreadId, user: UserState, pair: TokenPair, expiresAt: Millis)
    | Finish(thread: ThreadId, redis: bool)
    | LeaveArrive(token: Hash, caller: UserId)
    | LeaveLook(thread: ThreadId)
    | LeaveAct(thread: ThreadId, redis: bool)
    | LeaveRevoke(thread: ThreadId)
    | Other(action: Action)

  function PhaseOf(s: System, i: ThreadId): Phase
    requires i < |s.threads|
  {
    s.threads[i].phase
  }

  /** Only refreshes rotate tokens and write the rotation cache. */
  predicate Possible(s: System, e: Event) {
    match e
    case Arrive(_) => true
    case Look(i) => i < |s.threads| && PhaseOf(s, i).Arrived?
    case Decide(i, _) => i < |s.threads| && PhaseOf(s, i).Classified? && PhaseOf(s, i).status != Status.ACTIVE
    case Mint(i, _, pair, _) =>
      i < |s.threads| && PhaseOf(s, i).Classified? && PhaseOf(s, i).status == Status.ACTIVE
        && pair.refresh !in s.auth.issued
    case Finish(i, _) => i < |s.threads|
      && (PhaseOf(s, i).Compromised? || PhaseOf(s, i).Missed? || PhaseOf(s, i).Minted?)
    case LeaveArrive(_, _) => true
    case LeaveLook(i) => i < |s.threads| && PhaseOf(s, i).Leaving?
    case LeaveAct(i, _) => i < |s.threads| && PhaseOf(s, i).LeaveFound?
    case LeaveRevoke(i) => i < |s.threads| && PhaseOf(s, i).Cleared?
    case Other(x) => Enabled(s.auth, x) && !x.Rotate? && !x.Store? && !x.LoseStore?
  }

  /** What the event does to tokens and cache: at most one atomic step. */
  function Effect(s: System, e: Event): Option<Action>
    requires Possible(s, e)
  {
    match e
    case Arrive(_) => None
    case Look(_) => None
    case Decide(i, _) => if PhaseOf(s, i).status == REUSE_DETECTED then Some(RevokeAll(PhaseOf(s, i).owner)) else None
    case Mint(i, user, pair, exp) =>
      if user == Active && Rotates(s.auth, s.threads[i].token) then Some(Rotate(s.threads[i].token, pair, exp))
        else None
    case Finish(i, redis) =>
      var h := s.threads[i].token;
      if PhaseOf(s, i).Minted? then Some(if redis then Store(h) else LoseStore(h))
      else if redis then Some(Clear(h)) else None
    case LeaveArrive(_, _) => None
    case LeaveLook(_) => None
    case LeaveAct(i, redis) =>
      if PhaseOf(s, i).status == REUSE_DETECTED then Some(RevokeAll(PhaseOf(s, i).owner))
      else if redis then Some(Clear(s.threads[i].token)) else None
    case LeaveRevoke(i) => if PhaseOf(s, i).active then Some(Revoke(s.threads[i].token)) else None
    case Other(x) => Some(x)
  }

  function AfterLook(a: Auth, h: Hash): Phase {
    Classified(Classify(a, h), if h in a.tokens then a.tokens[h].user else 0)
  }

  function AfterDecision(a: Auth, h: Hash, status: Status, redis: bool): Phase {
    match status
    case REUSE_DETECTED => Compromised
    case GRACE_PERIOD => if redis && Cached(a, h).Some? then Answered(Replayed(Cached(a, h).value)) else Missed
    case _ => Answered(Denied(InvalidToken))
  }

  /** A rotation that no longer finds its token unrevoked throws. */
  function AfterMint(a: Auth, h: Hash, user: UserState, pair: TokenPair): Phase {
    match user
    case Missing => Answered(Denied(Unauthorized))
    case Inactive => Answered(Denied(AccountBlocked))
    case Active => if Rotates(a, h) then Minted(pair) else Answered(Denied(RotationLost))
  }

  function AfterFinish(phase: Phase): Phase {
    match phase
    case Compromised => Answered(Denied(Breach))
    case Minted(pair) => Answered(Refreshed(pair))
    case _ => Answered(Denied(InvalidToken))
  }

  /** The order of logout's checks: unknown, stolen, somebody else's. */
  function AfterLeaveLook(a: Auth, h: Hash, user: UserId): Phase {
    if Classify(a, h) == NOT_FOUND then Left(Ignored)
    else if Classify(a, h) != REUSE_DETECTED && a.tokens[h].user != user then Left(Mismatch)
    else LeaveFound(Classify(a, h), a.tokens[h].user)
  }

  function SetPhase(threads: seq<Thread>, i: ThreadId, phase: Phase): seq<Thread>
    requires i < |threads|
  {
    threads[i := threads[i].(phase := phase)]
  }

  function NextThreads(s: System, e: Event): seq<Thread>
    requires Possible(s, e)
  {
    match e
    case Arrive(h) => s.threads + [Thread(h, Arrived)]
    case Look(i) => SetPhase(s.threads, i, AfterLook(s.auth, s.threads[i].token))
    case Decide(i, redis) =>
      SetPhase(s.threads, i, AfterDecision(s.auth, s.threads[i].token, PhaseOf(s, i).status, redis))
    case Mint(i, user, pair, _) => SetPhase(s.threads, i, AfterMint(s.auth, s.threads[i].token, user, pair))
    case Finish(i, _) => SetPhase(s.threads, i, AfterFinish(PhaseOf(s, i)))
    case LeaveArrive(h, user) => s.threads + [Thread(h, Leaving(user))]
    case LeaveLook(i) => SetPhase(s.threads, i, AfterLeaveLook(s.auth, s.threads[i].token, PhaseOf(s, i).caller))
    case LeaveAct(i, _) =>
      var status := PhaseOf(s, i).status;
      SetPhase(s.threads, i, if status == REUSE_DETECTED then Left(TheftReported) else Cleared(status == Status.ACTIVE))
    case LeaveRevoke(i) => SetPhase(s.threads, i, Left(LoggedOut))
    case Other(_) => s.threads
  }

  function NextAuth(s: System, e: Event): Auth
    requires Possible(s, e)
  {
    if Effect(s, e).Some? then Do(s.auth, Effect(s, e).value) else s.auth
  }

  function Next(s: System, e: Event): System
    requires Possible(s, e)
  {
    System(NextAuth(s, e), NextThreads(s, e))
  }

  // ---- what every event keeps

  /** The pair a thread has minted or answered with. */
  function PairOf(phase: Phase): Option<TokenPair> {
    match phase
    case Minted(pair) => Some(pair)
    case Answered(Refreshed(pair)) => Some(pair)
    case Answered(Replayed(pair)) => Some(pair)
    case _ => None
  }

  predicate HasRotated(phase: Phase) {
    phase.Minted? || (phase.Answered? && phase.outcome.Refreshed?)
  }

  predicate PairsAreMinted(a: Auth, threads: seq<Thread>) {
    forall i | 0 <= i < |threads| && PairOf(threads[i].phase).Some? ::
      threads[i].token in a.rotated && a.rotated[threads[i].token] == PairOf(threads[i].phase).value
  }

  predicate OneRotator(threads: seq<Thread>) {
    forall i, j | 0 <= i < j < |threads| && HasRotated(threads[i].phase) && HasRotated(threads[j].phase) ::
      threads[i].token != threads[j].token
  }

  predicate MintedAreUnstored(a: Auth, threads: seq<Thread>) {
    forall i | 0 <= i < |threads| && threads[i].phase.Minted? :: threads[i].token in a.unstored
  }

  predicate Sane(s: System) {
    && AuthInv(s.auth)
    && PairsAreMinted(s.auth, s.threads)
    && OneRotator(s.threads)
    && MintedAreUnstored(s.auth, s.threads)
  }

  lemma {:induction false} EffectIsEnabled(s: System, e: Event)
    requires Sane(s) && Possible(s, e) && Effect(s, e).Some?
    ensures Enabled(s.auth, Effect(s, e).value)
  {
    if e.Finish? {
      assert s.threads[e.thread].phase.Minted? ==> s.threads[e.thread].token in s.auth.unstored;
    }
  }

  lemma {:induction false} NextIsForward(s: System, e: Event)
    requires Sane(s) && Possible(s, e)
    ensures AuthInv(NextAuth(s, e)) && Forward(s.auth, NextAuth(s, e))
  {
    if Effect(s, e).Some? {
      EffectIsEnabled(s, e);
      StepKeepsAuth(s.auth, Effect(s, e).value);
      StepIsForward(s.auth, Effect(s, e).value);
    }
  }

  predicate Actor(e: Event, i: ThreadId) {
    (e.Look? || e.Decide? || e.Mint? || e.Finish? || e.LeaveLook? || e.LeaveAct? || e.LeaveRevoke?) && e.thread == i
  }

  lemma {:induction false} OthersWait(s: System, e: Event, j: ThreadId)
    requires Possible(s, e) && j < |s.threads| && !Actor(e, j)
    ensures |s.threads| <= |NextThreads(s, e)| && NextThreads(s, e)[j] == s.threads[j]
  {
  }

  /** A pair a thread gets in this step is the one its token's rotation minted; nobody rotates a token twice. */
  lemma {:induction false} ActorGetsMintedPair(s: System, e: Event, i: ThreadId)
    requires Sane(s) && Possible(s, e) && Actor(e, i)
    ensures i < |s.threads| == |NextThreads(s, e)| && NextThreads(s, e)[i].token == s.threads[i].token
    ensures var h, phase := s.threads[i].token, NextThreads(s, e)[i].phase;
            && (PairOf(phase).Some? ==> h in NextAuth(s, e).rotated && NextAuth(s, e).rotated[h] == PairOf(phase).value)
            && (phase.Minted? ==> h in NextAuth(s, e).unstored)
            && (HasRotated(phase) ==> HasRotated(s.threads[i].phase) || h !in s.auth.rotated)
  {
    assert PairOf(s.threads[i].phase).Some? ==> s.threads[i].token in s.auth.rotated;
  }

  lemma {:induction false} RotatorsHaveRotated(s: System, j: ThreadId)
    requires Sane(s) && j < |s.threads| && HasRotated(s.threads[j].phase)
    ensures s.threads[j].token in s.auth.rotated
  {
    assert PairOf(s.threads[j].phase).Some?;
  }

  lemma {:induction false} NextKeepsPairs(s: System, e: Event)
    requires Sane(s) && Possible(s, e)
    ensures PairsAreMinted(NextAuth(s, e), NextThreads(s, e))
  {
    NextIsForward(s, e);
    var threads := NextThreads(s, e);
    forall j | 0 <= j < |threads| && PairOf(threads[j].phase).Some?
      ensures threads[j].token in NextAuth(s, e).rotated
      ensures NextAuth(s, e).rotated[threads[j].token] == PairOf(threads[j].phase).value
    {
      if Actor(e, j) { ActorGetsMintedPair(s, e, j); } else if j < |s.threads| { OthersWait(s, e, j); }
    }
  }

  lemma {:induction false} NextKeepsOneRotator(s: System, e: Event)
    requires Sane(s) && Possible(s, e)
    ensures OneRotator(NextThreads(s, e))
  {
    var threads := NextThreads(s, e);
    forall i, j | 0 <= i < j < |threads| && HasRotated(threads[i].phase) && HasRotated(threads[j].phase)
      ensures threads[i].token != threads[j].token
    {
      if Actor(e, i) {
        OthersWait(s, e, j);
        ActorGetsMintedPair(s, e, i);
        RotatorsHaveRotated(s, j);
      } else if Actor(e, j) {
        OthersWait(s, e, i);
        ActorGetsMintedPair(s, e, j);
        RotatorsHaveRotated(s, i);
      } else if j < |s.threads| {
        OthersWait(s, e, i);
        OthersWait(s, e, j);
      }
    }
  }

  lemma {:induction false} OthersStayUnstored(s: System, e: Event, j: ThreadId)
    requires Sane(s) && Possible(s, e) && j < |s.threads| && !Actor(e, j) && s.threads[j].phase.Minted?
    ensures s.threads[j].token in NextAuth(s, e).unstored
  {
    assert s.threads[j].token in s.auth.unstored;
    if e.Finish? && s.threads[e.thread].phase.Minted? {
      assert HasRotated(s.threads[e.thread].phase) && HasRotated(s.threads[j].phase);
      assert s.threads[e.thread].token != s.threads[j].token;
    }
  }

  lemma {:induction false} NextKeepsUnstored(s: System, e: Event)
    requires Sane(s) && Possible(s, e)
    ensures MintedAreUnstored(NextAuth(s, e), NextThreads(s, e))
  {
    var threads := NextThreads(s, e);
    forall j | 0 <= j < |threads| && threads[j].phase.Minted?
      ensures threads[j].token in NextAuth(s, e).unstored
    {
      if Actor(e, j) {
        ActorGetsMintedPair(s, e, j);
      } else if j < |s.threads| {
        OthersWait(s, e, j);
        OthersStayUnstored(s, e, j);
      }
    }
  }

  lemma {:induction false} NextKeepsSane(s: System, e: Event)
    requires Sane(s) && Possible(s, e)
    ensures Sane(Next(s, e)) && Forward(s.auth, Next(s, e).auth)
  {
    NextIsForward(s, e);
    NextKeepsPairs(s, e);
    NextKeepsOneRotator(s, e);
    NextKeepsUnstored(s, e);
  }

  // ---- over every interleaving

  predicate Trace(start: Auth, states: seq<System>, events: seq<Event>) {
    && |states| == |events| + 1
    && AuthInv(start) && states[0] == System(start, [])
    && forall k | 0 <= k < |events| :: Possible(states[k], events[k]) && states[k + 1] == Next(states[k], events[k])
  }

  lemma {:induction false} TraceIsSane(start: Auth, states: seq<System>, events: seq<Event>, n: nat)
    requires Trace(start, states, events) && n < |states|
    ensures Sane(states[n]) && Forward(start, states[n].auth)
  {
    if n > 0 {
      TraceIsSane(start, states, events, n - 1);
      NextKeepsSane(states[n - 1], events[n - 1]);
      ForwardTransitive(start, states[n - 1].auth, states[n].auth);
    }
  }

  /**
   * However many refreshes of one token interleave, and however stale what they found: one at most is answered with a
   * new pair, and every answer that carries a pair carries that one.
   */
  lemma {:induction false} OnePairPerToken(start: Auth, states: seq<System>, events: seq<Event>, n: nat, i: ThreadId,
                                           j: ThreadId)
    requires Trace(start, states, events) && n < |states|
    requires i < |states[n].threads| && j < |states[n].threads| && i != j
    requires states[n].threads[i].token == states[n].threads[j].token
    ensures !(HasRotated(PhaseOf(states[n], i)) && HasRotated(PhaseOf(states[n], j)))
    ensures PairOf(PhaseOf(states[n], i)).Some? && PairOf(PhaseOf(states[n], j)).Some? ==>
              PairOf(PhaseOf(states[n], i)) == PairOf(PhaseOf(states[n], j))
  {
    TraceIsSane(start, states, events, n);
    assert OneRotator(states[n].threads);
  }

  lemma {:induction false} TraceIsForward(start: Auth, states: seq<System>, events: seq<Event>, n: nat, m: nat)
    requires Trace(start, states, events) && n <= m < |states|
    ensures Forward(states[n].auth, states[m].auth)
    decreases m
  {
    if n < m {
      TraceIsForward(start, states, events, n, m - 1);
      TraceIsSane(start, states, events, m - 1);
      NextKeepsSane(states[m - 1], events[m - 1]);
      ForwardTransitive(states[n].auth, states[m - 1].auth, states[m].auth);
    } else {
      TraceIsSane(start, states, events, n);
      ForwardReflexive(states[n].auth);
    }
  }

  /**
   * From the moment a token is revoked by logout, eviction or revoke-all rather than by rotation, no refresh of it
   * gets a pair, not even one that found it active before.
   */
  lemma {:induction false} RevokedYieldsNothing(start: Auth, states: seq<System>, events: seq<Event>, n: nat, m: nat,
                                                i: ThreadId)
    requires Trace(start, states, events) && n <= m < |states| && i < |states[m].threads|
    requires var h, a := states[m].threads[i].token, states[n].auth;
             h in a.tokens && a.tokens[h].revokedAt.Some? && h !in a.rotated
    ensures PairOf(PhaseOf(states[m], i)).None?
  {
    TraceIsSane(start, states, events, n);
    TraceIsSane(start, states, events, m);
    TraceIsForward(start, states, events, n, m);
    assert states[m].threads[i].token !in states[m].auth.rotated;
  }

  // ---- and alone

  /** What a thread does once it has looked. */
  function Move(i: ThreadId, status: Status, user: UserState, pair: TokenPair, exp: Millis, redis: bool): Event {
    if status == Status.ACTIVE then Mint(i, user, pair, exp) else Decide(i, redis)
  }

  lemma {:induction false} LookThenMove(s: System, i: ThreadId, user: UserState, pair: TokenPair, exp: Millis,
                                        redis: bool)
    requires i < |s.threads| && PhaseOf(s, i).Arrived? && pair.refresh !in s.auth.issued
    ensures var h, status := s.threads[i].token, Classify(s.auth, s.threads[i].token);
            var looked, e := Next(s, Look(i)), Move(i, status, user, pair, exp, redis);
            && Possible(looked, e)
            && var acted := Next(looked, e);
               && |acted.threads| == |s.threads| && acted.threads[i].token == h
               && PhaseOf(acted, i)
                  == (if status == Status.ACTIVE then AfterMint(s.auth, h, user, pair)
                    else AfterDecision(s.auth, h, status, redis))
               && acted.auth == (if status == REUSE_DETECTED then Do(s.auth, RevokeAll(s.auth.tokens[h].user))
                                 else if status == Status.ACTIVE && user == Active then Do(s.auth, Rotate(h, pair, exp))
                                 else s.auth)
  {
  }

  /** A refresh whose steps follow one another at one instant is the refresh of the atomic model. */
  lemma {:induction false} UndisturbedRefresh(s: System, i: ThreadId, user: UserState, pair: TokenPair, exp: Millis,
                                              redis: bool)
    requires i < |s.threads| && PhaseOf(s, i).Arrived? && pair.refresh !in s.auth.issued
    ensures var h := s.threads[i].token;
            var looked, e := Next(s, Look(i)), Move(i, Classify(s.auth, h), user, pair, exp, redis);
            && Possible(looked, e) && |Next(looked, e).threads| == |s.threads|
            && var acted := Next(looked, e);
               && (PhaseOf(acted, i).Answered? || Possible(acted, Finish(i, redis)))
               && var done := if PhaseOf(acted, i).Answered? then acted else Next(acted, Finish(i, redis));
                  && |done.threads| == |s.threads|
                  && PhaseOf(done, i) == Answered(RefreshResult(s.auth, h, user, pair, redis))
                  && done.auth == AfterRefresh(s.auth, h, user, pair, exp, redis)
  {
    var h := s.threads[i].token;
    LookThenMove(s, i, user, pair, exp, redis);
    RefreshRuns(s.auth, h, user, pair, exp, redis);
  }
}
