/** The OAuth token manager: cache, refresh, fall back, and how rarely it asks. */
module OAuth {
  import opened Arithmetic
  import opened Retry

  const SECOND: int := 1_000_000_000
  const EXPIRY_SKEW: int := 30 * SECOND
  const GRANT_ATTEMPTS: int := 3

  datatype Token = Token(access: string, refresh: string, expiry: int) {
    predicate ValidAt(now: int) {
      access != "" && now < expiry - EXPIRY_SKEW
    }
  }

  const NO_TOKEN := Token("", "", 0)

  datatype GrantType = RefreshGrant | ClientCredentials

  /** The classes of answer the token endpoint can give. */
  datatype Reply =
    | Granted(access: string, refresh: string, expiresIn: int)
    | MalformedBody
    | ClientError
    | ServerError
    | Unreachable
    | Interrupted

  /** Everything outside the manager: the answer to each token request, each reading of
      the clock, and when the caller's context is done, all by serial number. */
  datatype World = World(
    reply: nat -> Reply,
    clock: nat -> int,
    doneBefore: nat -> bool,
    doneWaiting: nat -> bool)

  function Classify(r: Reply): Attempt {
    match r
    case Granted(access, _, expiresIn) => if access == "" || expiresIn <= 0 then Permanent else Succeeded
    case MalformedBody => Permanent
    case ClientError => Permanent
    case ServerError => Transient
    case Unreachable => Transient
    case Interrupted => Cancelled
  }

  /** What happened to the cached token: a grant, with the clock reading its expiry was
      computed from, or an invalidation. */
  datatype Entry = Issued(at: int, expiry: int) | Dropped

  datatype Session = Session(token: Token, asked: seq<GrantType>, readings: nat, log: seq<Entry>)

  datatype GrantResult = Issue(token: Token, at: int) | Refused(cause: Attempt)

  /** One grant when so many attempts are left. */
  function GrantFrom(w: World, s: Session, kind: GrantType, left: nat): (GrantResult, Session)
    requires left > 0
    decreases left
  {
    var i := |s.asked|;
    if w.doneBefore(i) then (Refused(Cancelled), s)
    else
      var s' := s.(asked := s.asked + [kind]);
      var a := Classify(w.reply(i));
      if a == Succeeded then
        var now := w.clock(s.readings);
        (Issue(Token(w.reply(i).access, w.reply(i).refresh, now + w.reply(i).expiresIn * SECOND), now),
         s'.(readings := s.readings + 1))
      else if a != Transient || left == 1 then (Refused(a), s')
      else if w.doneWaiting(i) then (Refused(Cancelled), s')
      else GrantFrom(w, s', kind, left - 1)
  }

  function Obtain(w: World, s: Session): (GrantResult, Session) {
    if s.token.refresh != "" then
      var (r, s') := GrantFrom(w, s, RefreshGrant, GRANT_ATTEMPTS);
      if r == Refused(Permanent) then GrantFrom(w, s', ClientCredentials, GRANT_ATTEMPTS) else (r, s')
    else GrantFrom(w, s, ClientCredentials, GRANT_ATTEMPTS)
  }

  datatype AccessResult = Access(token: string) | NoAccess(cause: Attempt)

  function AccessToken(w: World, s: Session): (AccessResult, Session) {
    var now := w.clock(s.readings);
    var s' := s.(readings := s.readings + 1);
    if s.token.ValidAt(now) then (Access(s.token.access), s')
    else
      var (r, t) := Obtain(w, s');
      match r
      case Refused(cause) => (NoAccess(cause), t)
      case Issue(token, at) => (Access(token.access), t.(token := token, log := t.log + [Issued(at, token.expiry)]))
  }

  function Invalidate(s: Session): Session {
    s.(token := NO_TOKEN, log := s.log + [Dropped])
  }

  // ---- Serialised callers --------------------------------------------------------

  datatype Op = Ask | Revoke

  function Apply(w: World, s: Session, op: Op): Session {
    match op
    case Ask => AccessToken(w, s).1
    case Revoke => Invalidate(s)
  }

  /** Any serialised sequence of callers, latest last. */
  function After(w: World, s: Session, ops: seq<Op>): Session {
    if ops == [] then s else Apply(w, After(w, s, ops[..|ops| - 1]), ops[|ops| - 1])
  }

  function RunOps(w: World, ops: seq<Op>): Session {
    After(w, Session(NO_TOKEN, [], 0, []), ops)
  }

  class Manager {
    const world: World
    var token: Token
    var asked: seq<GrantType>
    var readings: nat
    ghost var log: seq<Entry>

    ghost function Snapshot(): Session
      reads this
    {
      Session(token, asked, readings, log)
    }

    constructor (world: World)
      ensures this.world == world && Snapshot() == Session(NO_TOKEN, [], 0, [])
    {
      this.world := world;
      token, asked, readings, log := NO_TOKEN, [], 0, [];
    }

    method Now() returns (now: int)
      modifies this
      ensures now == old(world.clock(readings))
      ensures Snapshot() == old(Snapshot()).(readings := old(readings) + 1)
    {
      now := world.clock(readings);
      readings := readings + 1;
    }

    /** The retry loop around one token request. */
    method Grant(kind: GrantType) returns (r: GrantResult)
      modifies this
      ensures (r, Snapshot()) == GrantFrom(world, old(Snapshot()), kind, GRANT_ATTEMPTS)
    {
      var attempt := 0;
      while true
        invariant attempt < GRANT_ATTEMPTS
        invariant GrantFrom(world, Snapshot(), kind, GRANT_ATTEMPTS - attempt)
               == GrantFrom(world, old(Snapshot()), kind, GRANT_ATTEMPTS)
        decreases GRANT_ATTEMPTS - attempt
      {
        var i := |asked|;
        if world.doneBefore(i) {
          return Refused(Cancelled);
        }
        asked := asked + [kind];
        var reply := world.reply(i);
        var a := Classify(reply);
        if a == Succeeded {
          var now := Now();
          return Issue(Token(reply.access, reply.refresh, now + reply.expiresIn * SECOND), now);
        }
        if a != Transient || attempt == GRANT_ATTEMPTS - 1 {
          return Refused(a);
        }
        if world.doneWaiting(i) {
          return Refused(Cancelled);
        }
        attempt := attempt + 1;
      }
    }

    method ObtainLocked() returns (r: GrantResult)
      modifies this
      ensures (r, Snapshot()) == Obtain(world, old(Snapshot()))
    {
      if token.refresh != "" {
        r := Grant(RefreshGrant);
        if r != Refused(Permanent) {
          return;
        }
      }
      r := Grant(ClientCredentials);
    }

    method GetAccessToken() returns (r: AccessResult)
      modifies this
      ensures (r, Snapshot()) == AccessToken(world, old(Snapshot()))
    {
      var now := Now();
      if token.ValidAt(now) {
        return Access(token.access);
      }
      var g := ObtainLocked();
      match g
      case Refused(cause) =>
        return NoAccess(cause);
      case Issue(tok, at) =>
        token := tok;
        log := log + [Issued(at, tok.expiry)];
        return Access(tok.access);
    }

    method Drop()
      modifies this
      ensures Snapshot() == Invalidate(old(Snapshot()))
    {
      token := NO_TOKEN;
      log := log + [Dropped];
    }

    /** Other callers have their turns under the mutex. */
    method LetOthers(ops: seq<Op>)
      modifies this
      ensures Snapshot() == After(world, old(Snapshot()), ops)
    {
      for i := 0 to |ops|
        invariant Snapshot() == After(world, old(Snapshot()), ops[..i])
      {
        assert ops[..i + 1][..i] == ops[..i];
        match ops[i] {
          case Ask => var _ := GetAccessToken();
          case Revoke => Drop();
        }
      }
      assert ops[..|ops|] == ops;
    }
  }

  /** The token is the one granted, and expires when the reply says it does. */
  predicate Honours(token: Token, at: int, reply: Reply) {
    && reply.Granted? && token.access == reply.access && token.refresh == reply.refresh
    && token.expiry - at == reply.expiresIn * SECOND > 0
  }

  // ---- How much one call can ask -------------------------------------------------

  lemma {:induction false} GrantIsBounded(w: World, s: Session, kind: GrantType, left: nat)
    returns (kinds: seq<GrantType>)
    requires left > 0
    ensures var (r, t) := GrantFrom(w, s, kind, left);
            && |t.asked| >= |s.asked| && (r.Issue? ==> |t.asked| > 0)
            && t.asked == s.asked + kinds && |kinds| <= left
            && (forall k :: k in kinds ==> k == kind)
            && t.token == s.token && t.log == s.log
            && (r.Issue? || (r.cause != Succeeded && (kinds == [] ==> r == Refused(Cancelled))))
            && t.readings == s.readings + (if r.Issue? then 1 else 0)
            && (r.Issue? ==> Honours(r.token, r.at, w.reply(|t.asked| - 1)))
            && (r.Issue? ==>
                  kinds != [] && r.token.access != "" && r.at == w.clock(s.readings) && r.at < r.token.expiry)
    decreases left
  {
    var i := |s.asked|;
    kinds := [];
    if w.doneBefore(i) {
      assert s.asked == s.asked + kinds;
    } else {
      var s' := s.(asked := s.asked + [kind]);
      kinds := [kind];
      if Classify(w.reply(i)) == Transient && left > 1 && !w.doneWaiting(i) {
        var later := GrantIsBounded(w, s', kind, left - 1);
        kinds := [kind] + later;
        assert s.asked + [kind] + later == s.asked + kinds;
      }
    }
  }

  lemma ObtainIsBounded(w: World, s: Session) returns (refreshes: seq<GrantType>, credentials: seq<GrantType>)
    ensures var (r, t) := Obtain(w, s);
            && t.asked == s.asked + refreshes + credentials
            && |refreshes| <= 3 && |credentials| <= 3
            && (forall k :: k in refreshes ==> k == RefreshGrant)
            && (forall k :: k in credentials ==> k == ClientCredentials)
            && (refreshes != [] ==> s.token.refresh != "")
            && (refreshes != [] && credentials != [] ==>
                  GrantFrom(w, s, RefreshGrant, GRANT_ATTEMPTS).0 == Refused(Permanent))
            && (r.Issue? ==> refreshes + credentials != [])
            && t.token == s.token && t.log == s.log
            && (if r.Issue? then r.token.access != "" && r.at == w.clock(s.readings) else r.cause != Succeeded)
  {
    refreshes, credentials := [], [];
    assert s.asked == s.asked + [];
    var t := s;
    if s.token.refresh != "" {
      refreshes := GrantIsBounded(w, s, RefreshGrant, GRANT_ATTEMPTS);
      t := GrantFrom(w, s, RefreshGrant, GRANT_ATTEMPTS).1;
    }
    assert t.asked == t.asked + [];
    if s.token.refresh == "" || GrantFrom(w, s, RefreshGrant, GRANT_ATTEMPTS).0 == Refused(Permanent) {
      credentials := GrantIsBounded(w, t, ClientCredentials, GRANT_ATTEMPTS);
    }
  }

  /** One call asks the endpoint at most six times, refresh requests before client
      credentials; a token is handed out unasked iff it is good for more than the skew;
      and only a permanently rejected refresh is followed by client credentials. */
  lemma AccessIsBounded(w: World, s: Session) returns (refreshes: seq<GrantType>, credentials: seq<GrantType>)
    ensures var (r, t) := AccessToken(w, s);
            && t.asked == s.asked + refreshes + credentials
            && |refreshes| <= 3 && |credentials| <= 3
            && (forall k :: k in refreshes ==> k == RefreshGrant)
            && (forall k :: k in credentials ==> k == ClientCredentials)
            && (s.token.ValidAt(w.clock(s.readings)) ==>
                  refreshes == [] == credentials && r == Access(s.token.access) && t.token == s.token)
            && (r.Access? && refreshes == [] == credentials ==> s.token.ValidAt(w.clock(s.readings)))
            && (refreshes != [] ==> s.token.refresh != "")
            && (refreshes != [] && credentials != [] ==>
                  GrantFrom(w, s.(readings := s.readings + 1), RefreshGrant, GRANT_ATTEMPTS).0 == Refused(Permanent))
            && (r.NoAccess? ==> t.token == s.token && t.log == s.log && r.cause != Succeeded)
  {
    if s.token.ValidAt(w.clock(s.readings)) {
      refreshes, credentials := [], [];
      assert s.asked == s.asked + [] + [];
    } else {
      refreshes, credentials := ObtainIsBounded(w, s.(readings := s.readings + 1));
    }
  }

  lemma CredentialsAreAsked(w: World, s: Session)
    requires !w.doneBefore(|s.asked|)
    ensures var t := GrantFrom(w, s, ClientCredentials, GRANT_ATTEMPTS).1;
            |t.asked| > |s.asked| && t.asked[|s.asked|] == ClientCredentials
  {
    if Classify(w.reply(|s.asked|)) == Transient && !w.doneWaiting(|s.asked|) {
      var later := GrantIsBounded(
        w, s.(asked := s.asked + [ClientCredentials]), ClientCredentials, GRANT_ATTEMPTS - 1);
    }
  }

  /** A dead refresh token does not wedge the manager: the very next request is for
      client credentials, unless the caller has gone away. */
  lemma RejectedRefreshFallsBack(w: World, s: Session)
    requires !s.token.ValidAt(w.clock(s.readings)) && s.token.refresh != ""
    requires var (r, t) := GrantFrom(w, s.(readings := s.readings + 1), RefreshGrant, GRANT_ATTEMPTS);
             r == Refused(Permanent) && !w.doneBefore(|t.asked|)
    ensures var (r, t) := GrantFrom(w, s.(readings := s.readings + 1), RefreshGrant, GRANT_ATTEMPTS);
            var (r', t') := AccessToken(w, s);
            |t'.asked| > |t.asked| && t'.asked[|t.asked|] == ClientCredentials
  {
    var t := GrantFrom(w, s.(readings := s.readings + 1), RefreshGrant, GRANT_ATTEMPTS).1;
    CredentialsAreAsked(w, t);
  }

  // ---- How often any number of callers can cause a grant ------------------------------

  ghost predicate ClockRuns(w: World) {
    forall i: nat, j: nat :: i <= j ==> w.clock(i) <= w.clock(j)
  }

  /** The log never shows two grants closer than the first one's lifetime less the skew,
      and its last entry describes the cached token. */
  ghost predicate Spaced(w: World, s: Session) {
    && (forall i :: 0 < i < |s.log| && s.log[i - 1].Issued? && s.log[i].Issued? ==>
          s.log[i].at >= s.log[i - 1].expiry - EXPIRY_SKEW)
    && (s.log != [] && s.log[|s.log| - 1].Issued? ==>
          s.token.access != "" && s.token.expiry == s.log[|s.log| - 1].expiry)
  }

  /** A call either leaves token and log alone, or replaces a token that was no longer
      valid by one granted at the next clock reading. */
  lemma AccessReplacesStaleTokens(w: World, s: Session)
    ensures var t := AccessToken(w, s).1;
            || (t.token == s.token && t.log == s.log)
            || (&& !s.token.ValidAt(w.clock(s.readings)) && t.token.access != ""
                && t.log == s.log + [Issued(w.clock(s.readings + 1), t.token.expiry)])
  {
    if !s.token.ValidAt(w.clock(s.readings)) {
      var refreshes, credentials := ObtainIsBounded(w, s.(readings := s.readings + 1));
    }
  }

  lemma GrantIsSpaced(w: World, s: Session)
    requires ClockRuns(w) && Spaced(w, s)
    ensures Spaced(w, AccessToken(w, s).1)
  {
    AccessReplacesStaleTokens(w, s);
    assert w.clock(s.readings) <= w.clock(s.readings + 1);
  }

  lemma {:induction false} RunsAreSpaced(w: World, ops: seq<Op>)
    requires ClockRuns(w)
    ensures Spaced(w, RunOps(w, ops))
  {
    if ops != [] {
      var n := |ops| - 1;
      RunsAreSpaced(w, ops[..n]);
      StepIsSpaced(w, RunOps(w, ops[..n]), ops[n]);
    }
  }

  lemma StepIsSpaced(w: World, s: Session, op: Op)
    requires ClockRuns(w) && Spaced(w, s)
    ensures Spaced(w, Apply(w, s, op))
  {
    if op == Ask {
      GrantIsSpaced(w, s);
    }
  }

  // ---- The retry loop's contract ------------------------------------------------------

  /** What a grant's refusal says about the loop's outcome. */
  function CauseOf(o: Outcome): Attempt {
    match o
    case Failed(a) => a
    case GaveUp => Transient
    case _ => Cancelled
  }

  /** How so many requests from a serial number on were answered. */
  function Classes(w: World, first: nat, count: nat): seq<Attempt>
    decreases count
  {
    if count == 0 then [] else [Classify(w.reply(first))] + Classes(w, first + 1, count - 1)
  }

  lemma {:induction false} GrantEnds(w: World, s: Session, kind: GrantType, left: nat) returns (n: nat, o: Outcome)
    requires left > 0
    ensures var (r, t) := GrantFrom(w, s, kind, left);
            && |t.asked| == |s.asked| + n
            && o in Endings(left, Classes(w, |s.asked|, n))
            && (o == Done <==> r.Issue?) && o != Panicked && (r.Refused? ==> r.cause == CauseOf(o))
    decreases left
  {
    var i := |s.asked|;
    if w.doneBefore(i) {
      n, o := 0, ContextDone;
    } else {
      var a := Classify(w.reply(i));
      if a == Transient && left > 1 && !w.doneWaiting(i) {
        n, o := GrantEnds(w, s.(asked := s.asked + [kind]), kind, left - 1);
        EndingsPrepend(a, Classes(w, i + 1, n), left, o);
        n := n + 1;
      } else {
        n := 1;
        o := if a == Succeeded then Done
             else if a != Transient then Failed(a)
             else if left == 1 then GaveUp
             else ContextDone;
        OneClass(w, i);
        EndingsOnce(a, left, o);
      }
    }
  }

  lemma OneClass(w: World, i: nat)
    ensures Classes(w, i, 1) == [Classify(w.reply(i))]
  {
  }

  /** A grant is the retry loop: its requests' results and its outcome obey the contract
      proved of the loop, with three attempts. */
  lemma GrantObeysLoop(w: World, s: Session, kind: GrantType) returns (n: nat, o: Outcome)
    ensures var (r, t) := GrantFrom(w, s, kind, GRANT_ATTEMPTS);
            && |t.asked| == |s.asked| + n
            && Obeys(GRANT_ATTEMPTS, Classes(w, |s.asked|, n), o)
            && (o == Done <==> r.Issue?) && o != Panicked && (r.Refused? ==> r.cause == CauseOf(o))
  {
    n, o := GrantEnds(w, s, kind, GRANT_ATTEMPTS);
    EndingsObey(GRANT_ATTEMPTS, Classes(w, |s.asked|, n), o);
  }

  lemma {:induction false} SpacingAddsUp(w: World, s: Session, i: nat, j: nat, ttl: int)
    requires Spaced(w, s) && i <= j < |s.log| && ttl >= EXPIRY_SKEW
    requires forall k :: i <= k <= j ==> s.log[k].Issued? && s.log[k].expiry - s.log[k].at >= ttl
    ensures (j - i) * (ttl - EXPIRY_SKEW) <= s.log[j].at - s.log[i].at
  {
    if i < j {
      SpacingAddsUp(w, s, i, j - 1, ttl);
      assert (j - i) * (ttl - EXPIRY_SKEW) == (j - 1 - i) * (ttl - EXPIRY_SKEW) + (ttl - EXPIRY_SKEW);
    }
  }

  lemma SpacedGrantsAreRare(w: World, s: Session, i: nat, j: nat, ttl: int, interval: int)
    requires Spaced(w, s) && ttl > EXPIRY_SKEW && i <= j < |s.log|
    requires forall k :: i <= k <= j ==> s.log[k].Issued? && s.log[k].expiry - s.log[k].at >= ttl
    requires s.log[j].at - s.log[i].at <= interval
    ensures j - i + 1 <= 1 + interval / (ttl - EXPIRY_SKEW)
  {
    SpacingAddsUp(w, s, i, j, ttl);
    DivideBound(j - i, ttl - EXPIRY_SKEW, interval);
  }

  /** However many callers there were and however their calls interleaved: grants of
      tokens living at least `ttl`, with no invalidation between them, all falling
      inside an interval, number at most one more than the interval holds lifetimes
      less the skew. */
  lemma GrantsAreRare(w: World, ops: seq<Op>, log: seq<Entry>, i: nat, j: nat, ttl: int, interval: int)
    requires ClockRuns(w) && ttl > EXPIRY_SKEW
    requires log == RunOps(w, ops).log && i <= j < |log|
    requires forall k :: i <= k <= j ==> log[k].Issued? && log[k].expiry - log[k].at >= ttl
    requires log[j].at - log[i].at <= interval
    ensures j - i + 1 <= 1 + interval / (ttl - EXPIRY_SKEW)
  {
    RunsAreSpaced(w, ops);
    SpacedGrantsAreRare(w, RunOps(w, ops), i, j, ttl, interval);
  }

  lemma DivideBound(n: int, d: int, x: int)
    requires d > 0 && n * d <= x
    ensures n <= x / d
  {
    MultiplyReflects(d, n, x / d + 1);
  }
}
