/** The AlphaSense adapter's HTTP plumbing: one authenticated request with its nested
    retries, beside other users of the same token manager. */
module AlphaSense {
  import opened Retry
  import OAuth

  const REQUEST_ATTEMPTS: int := 5

  /** What the API can do with a request that carries a token. */
  datatype ApiReply =
    | Status(code: int, decodable: bool)
    | Unreachable
    | Interrupted
    | Unsendable

  /** One try of a request: it stopped for want of a token, or it was answered. */
  datatype Try = NoToken(cause: Attempt) | Answered(reply: ApiReply)

  predicate Success(code: int) { 200 <= code < 300 }
  predicate Busy(code: int) { code == 429 || code >= 500 }

  /** A 401 is worth another try with a new token, once. */
  function Classify(reply: ApiReply, wantsBody: bool, refreshed: bool): Attempt {
    match reply
    case Status(code, decodable) =>
      if Success(code) then (if wantsBody && !decodable then Permanent else Succeeded)
      else if code == 401 then (if refreshed then Permanent else Transient)
      else if Busy(code) then Transient
      else Permanent
    case Unreachable => Transient
    case Interrupted => Cancelled
    case Unsendable => Permanent
  }

  /** Everything outside the adapter, by serial number of the try: replies, context
      checks, and what other users of the token manager do before the try asks for its
      token and while its request is on the way. */
  datatype World = World(
    tokens: OAuth.World,
    reply: nat -> ApiReply,
    doneBefore: nat -> bool,
    doneWaiting: nat -> bool,
    others: nat -> seq<OAuth.Op>,
    meanwhile: nat -> seq<OAuth.Op>)

  /** The shared token session; and the adapter's tries so far, the token requests they
      caused themselves, and the tokens they invalidated. */
  datatype Link = Link(auth: OAuth.Session, trace: seq<Try>, own: int, drops: nat)

  /** A turn at the token manager, its requests on the adapter's account. */
  function Charged(w: World, l: Link): (OAuth.AccessResult, Link) {
    var (access, auth) := OAuth.AccessToken(w.tokens, l.auth);
    (access, l.(auth := auth, own := l.own + |auth.asked| - |l.auth.asked|))
  }

  /** A try's turn comes after others had theirs. */
  function Asked(w: World, l: Link): (OAuth.AccessResult, Link) {
    Charged(w, l.(auth := OAuth.After(w.tokens, l.auth, w.others(|l.trace|))))
  }

  /** The exchange, during which others have turns again. */
  function Exchanged(w: World, access: OAuth.AccessResult, l: Link): (Try, Link) {
    match access
    case NoAccess(cause) => (NoToken(cause), l)
    case Access(_) =>
      (Answered(w.reply(|l.trace|)), l.(auth := OAuth.After(w.tokens, l.auth, w.meanwhile(|l.trace|))))
  }

  /** One try: its classification, whether the request has now used up its one token
      renewal, and the new state. */
  function OneTry(w: World, wantsBody: bool, refreshed: bool, l: Link): (Attempt, bool, Link) {
    var (access, l1) := Asked(w, l);
    var (t, l2) := Exchanged(w, access, l1);
    (Verdict(t, wantsBody, refreshed), refreshed || Unauthorized(t), Settle(refreshed, t, l2))
  }

  function Verdict(t: Try, wantsBody: bool, refreshed: bool): Attempt {
    match t
    case NoToken(cause) => cause
    case Answered(reply) => Classify(reply, wantsBody, refreshed)
  }

  /** The first 401 of a request costs the cached token, whoever fetched it. */
  function Settle(refreshed: bool, t: Try, l: Link): Link {
    if Unauthorized(t) && !refreshed then Link(OAuth.Invalidate(l.auth), l.trace + [t], l.own, l.drops + 1)
    else l.(trace := l.trace + [t])
  }

  /** The retry loop when so many attempts are left. */
  function RequestFrom(w: World, wantsBody: bool, refreshed: bool, l: Link, left: nat): (Outcome, Link)
    requires left > 0
    decreases left
  {
    var n := |l.trace|;
    if w.doneBefore(n) then (ContextDone, l)
    else
      var (a, refreshed', l') := OneTry(w, wantsBody, refreshed, l);
      if a == Succeeded then (Done, l')
      else if a == Permanent || a == Cancelled then (Failed(a), l')
      else if left == 1 then (GaveUp, l')
      else if w.doneWaiting(n) then (ContextDone, l')
      else RequestFrom(w, wantsBody, refreshed', l', left - 1)
  }

  function Request(w: World, wantsBody: bool, l: Link): (Outcome, Link) {
    RequestFrom(w, wantsBody, false, l, REQUEST_ATTEMPTS)
  }

  class Client {
    const world: World
    const tokens: OAuth.Manager
    var trace: seq<Try>
    ghost var own: int
    ghost var drops: nat

    ghost predicate Valid() {
      tokens.world == world.tokens
    }

    ghost function Snapshot(): Link
      reads this, tokens
    {
      Link(tokens.Snapshot(), trace, own, drops)
    }

    constructor (world: World, tokens: OAuth.Manager)
      requires tokens.world == world.tokens
      ensures Valid() && this.world == world && this.tokens == tokens
      ensures Snapshot() == Link(tokens.Snapshot(), [], 0, 0)
    {
      this.world, this.tokens, trace, own, drops := world, tokens, [], 0, 0;
    }

    method TakeTurn() returns (access: OAuth.AccessResult)
      requires Valid()
      modifies this, tokens
      ensures (access, Snapshot()) == Charged(world, old(Snapshot()))
    {
      access := tokens.GetAccessToken();
      own := own + |tokens.asked| - |old(tokens.asked)|;
    }

    method AskForToken() returns (access: OAuth.AccessResult)
      requires Valid()
      modifies this, tokens
      ensures (access, Snapshot()) == Asked(world, old(Snapshot()))
    {
      tokens.LetOthers(world.others(|trace|));
      access := TakeTurn();
    }

    method Exchange(access: OAuth.AccessResult) returns (t: Try)
      requires Valid()
      modifies this, tokens
      ensures (t, Snapshot()) == Exchanged(world, access, old(Snapshot()))
    {
      if access.NoAccess? {
        return NoToken(access.cause);
      }
      tokens.LetOthers(world.meanwhile(|trace|));
      return Answered(world.reply(|trace|));
    }

    method Conclude(t: Try, wantsBody: bool, refreshed: bool) returns (a: Attempt, refreshed': bool)
      requires Valid()
      modifies this, tokens
      ensures (a, refreshed', Snapshot()) ==
              (Verdict(t, wantsBody, refreshed), refreshed || Unauthorized(t), Settle(refreshed, t, old(Snapshot())))
    {
      trace := trace + [t];
      if t.NoToken? {
        return t.cause, refreshed;
      }
      if t.reply.Status? && t.reply.code == 401 && !refreshed {
        tokens.Drop();
        drops := drops + 1;
        return Transient, true;
      }
      return Classify(t.reply, wantsBody, refreshed), refreshed;
    }

    /** The body of the retry loop. */
    method TryOnce(wantsBody: bool, refreshed: bool) returns (a: Attempt, refreshed': bool)
      requires Valid()
      modifies this, tokens
      ensures (a, refreshed', Snapshot()) == OneTry(world, wantsBody, refreshed, old(Snapshot()))
    {
      var access := AskForToken();
      var t := Exchange(access);
      a, refreshed' := Conclude(t, wantsBody, refreshed);
    }

    method Do(wantsBody: bool) returns (r: Outcome)
      requires Valid()
      modifies this, tokens
      ensures (r, Snapshot()) == Request(world, wantsBody, old(Snapshot()))
    {
      var refreshed, attempt := false, 0;
      ghost var left: nat := REQUEST_ATTEMPTS;
      while true
        invariant attempt + left == REQUEST_ATTEMPTS && left > 0
        invariant RequestFrom(world, wantsBody, refreshed, Snapshot(), left)
               == Request(world, wantsBody, old(Snapshot()))
        decreases left
      {
        var n := |trace|;
        if world.doneBefore(n) {
          return ContextDone;
        }
        TryUnfolds(world, wantsBody, refreshed, Snapshot(), left);
        var a;
        a, refreshed := TryOnce(wantsBody, refreshed);
        if a == Succeeded {
          return Done;
        }
        if a == Permanent || a == Cancelled {
          return Failed(a);
        }
        if attempt == REQUEST_ATTEMPTS - 1 {
          return GaveUp;
        }
        if world.doneWaiting(n) {
          return ContextDone;
        }
        attempt, left := attempt + 1, left - 1;
      }
    }
  }

  lemma TryUnfolds(w: World, wantsBody: bool, refreshed: bool, l: Link, left: nat)
    requires left > 0 && !w.doneBefore(|l.trace|)
    ensures RequestFrom(w, wantsBody, refreshed, l, left) ==
            var (a, refreshed', l') := OneTry(w, wantsBody, refreshed, l);
            if a == Succeeded then (Done, l')
            else if a == Permanent || a == Cancelled then (Failed(a), l')
            else if left == 1 then (GaveUp, l')
            else if w.doneWaiting(|l.trace|) then (ContextDone, l')
            else RequestFrom(w, wantsBody, refreshed', l', left - 1)
  {
  }

  // ---- What one request costs --------------------------------------------------------

  predicate Unauthorized(t: Try) {
    t.Answered? && t.reply.Status? && t.reply.code == 401
  }

  function Rejections(tries: seq<Try>): nat {
    if tries == [] then 0 else (if Unauthorized(tries[0]) then 1 else 0) + Rejections(tries[1..])
  }

  /** Answers after which trying again can help. */
  predicate Passing(t: Try) {
    match t
    case NoToken(cause) => cause == Transient
    case Answered(Status(code, _)) => code == 401 || code == 429 || code >= 500
    case Answered(reply) => reply == Unreachable
  }

  predicate Fulfilled(t: Try, wantsBody: bool) {
    t.Answered? && t.reply.Status? && 200 <= t.reply.code <= 299 && (wantsBody ==> t.reply.decodable)
  }

  predicate Gone(t: Try) {
    t == NoToken(Cancelled) || t == Answered(Interrupted)
  }

  /** What a stretch of tries did: it is on the trace, caused at most six token requests a
      try, and invalidated the token once if it was the first to see a 401. */
  ghost predicate Costs(l: Link, l': Link, tries: seq<Try>, refreshed: bool) {
    && l'.trace == l.trace + tries
    && l.own <= l'.own <= l.own + 6 * |tries|
    && l'.drops == l.drops + (if !refreshed && Rejections(tries) > 0 then 1 else 0)
  }

  lemma CostsAddUp(l: Link, l1: Link, l2: Link, t: Try, later: seq<Try>, refreshed: bool)
    requires Costs(l, l1, [t], refreshed) && Costs(l1, l2, later, refreshed || Unauthorized(t))
    ensures Costs(l, l2, [t] + later, refreshed)
  {
    RejectionsFirst(t, later);
    RejectionsFirst(t, []);
    assert [t] + [] == [t];
    assert l.trace + [t] + later == l.trace + ([t] + later);
  }

  lemma RejectionsFirst(t: Try, later: seq<Try>)
    ensures Rejections([t] + later) == (if Unauthorized(t) then 1 else 0) + Rejections(later)
  {
    assert ([t] + later)[1..] == later;
  }

  lemma AccessCosts(w: OAuth.World, s: OAuth.Session)
    ensures var (r, s') := OAuth.AccessToken(w, s);
            && |s.asked| <= |s'.asked| <= |s.asked| + 6
            && (r.NoAccess? ==> r.cause != Succeeded)
  {
    var refreshes, credentials := OAuth.AccessIsBounded(w, s);
  }

  lemma AskedCosts(w: World, l: Link)
    ensures var (access, l') := Asked(w, l);
            && l'.trace == l.trace && l'.drops == l.drops && l.own <= l'.own <= l.own + 6
            && (access.NoAccess? ==> access.cause != Succeeded)
  {
    AccessCosts(w.tokens, OAuth.After(w.tokens, l.auth, w.others(|l.trace|)));
  }

  lemma SettleCosts(refreshed: bool, t: Try, l0: Link, l: Link)
    requires l.trace == l0.trace && l.drops == l0.drops && l0.own <= l.own <= l0.own + 6
    ensures Costs(l0, Settle(refreshed, t, l), [t], refreshed)
  {
    RejectionsFirst(t, []);
    assert [t] + [] == [t];
  }

  /** One try adds itself to the trace, and one that ended without a token did not
      succeed. */
  lemma OneTryIsBounded(w: World, wantsBody: bool, refreshed: bool, l: Link) returns (t: Try)
    ensures var (a, refreshed', l') := OneTry(w, wantsBody, refreshed, l);
            && Costs(l, l', [t], refreshed)
            && a == Verdict(t, wantsBody, refreshed) && refreshed' == (refreshed || Unauthorized(t))
            && t != NoToken(Succeeded)
  {
    AskedCosts(w, l);
    var (access, l1) := Asked(w, l);
    var (t', l2) := Exchanged(w, access, l1);
    SettleCosts(refreshed, t', l, l2);
    t := t';
  }

  /** How the tries of a request were classified, its one renewal used up by the first 401. */
  function Verdicts(tries: seq<Try>, wantsBody: bool, refreshed: bool): seq<Attempt> {
    if tries == [] then []
    else
      [Verdict(tries[0], wantsBody, refreshed)]
      + Verdicts(tries[1..], wantsBody, refreshed || Unauthorized(tries[0]))
  }

  lemma VerdictsFirst(t: Try, later: seq<Try>, wantsBody: bool, refreshed: bool)
    ensures Verdicts([t] + later, wantsBody, refreshed) ==
            [Verdict(t, wantsBody, refreshed)] + Verdicts(later, wantsBody, refreshed || Unauthorized(t))
    ensures Verdicts([t], wantsBody, refreshed) == [Verdict(t, wantsBody, refreshed)]
  {
    assert ([t] + later)[1..] == later && [t][1..] == [];
  }

  /** What a request that has already spent its renewal (or not) does from an attempt on. */
  ghost predicate Bounded(
    tries: seq<Try>, r: Outcome, wantsBody: bool, refreshed: bool, attempts: nat)
  {
    && |tries| <= attempts
    && Rejections(tries) <= (if refreshed then 1 else 2)
    && (forall i :: 0 <= i < |tries| - 1 ==> Passing(tries[i]))
    && (tries == [] ==> r == ContextDone)
    && (tries != [] ==>
          var last := tries[|tries| - 1];
          && (Rejections(tries) == (if refreshed then 1 else 2) ==> Unauthorized(last))
          && (r == Done <==> Fulfilled(last, wantsBody))
          && (r == Failed(Cancelled) <==> Gone(last))
          && (r == Failed(Permanent) <==>
                || Rejections(tries) == (if refreshed then 1 else 2)
                || !(Fulfilled(last, wantsBody) || Passing(last) || Gone(last)))
          && (r == GaveUp ==> |tries| == attempts && Passing(last)))
    && (r == Done || r == Failed(Cancelled) || r == Failed(Permanent) || r == GaveUp || r == ContextDone)
  }

  lemma BoundedOnce(t: Try, r: Outcome, wantsBody: bool, refreshed: bool, attempts: nat)
    requires attempts > 0 && t != NoToken(Succeeded) && r != Panicked
    requires r in Endings(attempts, [Verdict(t, wantsBody, refreshed)])
    ensures Bounded([t], r, wantsBody, refreshed, attempts)
  {
    RejectionsFirst(t, []);
    assert [t] + [] == [t];
  }

  lemma BoundedNever(wantsBody: bool, refreshed: bool, attempts: nat)
    ensures Bounded([], ContextDone, wantsBody, refreshed, attempts)
  {
  }

  lemma BoundedExtends(
      t: Try, later: seq<Try>, tries: seq<Try>, r: Outcome,
      wantsBody: bool, refreshed: bool, refreshed': bool, attempts: nat)
    requires Passing(t) && !(refreshed && Unauthorized(t)) && attempts > 0
    requires refreshed' == (refreshed || Unauthorized(t)) && tries == [t] + later
    requires Bounded(later, r, wantsBody, refreshed', attempts - 1)
    ensures Bounded(tries, r, wantsBody, refreshed, attempts)
  {
    RejectionsFirst(t, later);
    forall i | 0 <= i < |tries| - 1 ensures Passing(tries[i]) {
      assert i > 0 ==> tries[i] == later[i - 1];
    }
    if later != [] {
      assert tries[|tries| - 1] == later[|later| - 1];
    }
  }

  /** More than one try: the first was worth retrying and the rest is a shorter request. */
  lemma EndingContinues(
      t: Try, later: seq<Try>, r: Outcome, wantsBody: bool, refreshed: bool, refreshed': bool, attempts: nat)
    requires later != [] && refreshed' == (refreshed || Unauthorized(t))
    requires r in Endings(attempts, Verdicts([t] + later, wantsBody, refreshed))
    ensures attempts > 1 && Verdict(t, wantsBody, refreshed) == Transient
    ensures r in Endings(attempts - 1, Verdicts(later, wantsBody, refreshed'))
  {
    VerdictsFirst(t, later, wantsBody, refreshed);
    VerdictsFirst(later[0], later[1..], wantsBody, refreshed');
    assert later == [later[0]] + later[1..];
    var all := [Verdict(t, wantsBody, refreshed)] + Verdicts(later, wantsBody, refreshed');
    assert all[1..] == Verdicts(later, wantsBody, refreshed');
  }

  lemma {:induction false} EndingIsBounded(
      tries: seq<Try>, r: Outcome, wantsBody: bool, refreshed: bool, attempts: nat)
    requires r in Endings(attempts, Verdicts(tries, wantsBody, refreshed)) && r != Panicked
    requires NoToken(Succeeded) !in tries
    ensures Bounded(tries, r, wantsBody, refreshed, attempts)
  {
    if tries == [] {
      BoundedNever(wantsBody, refreshed, attempts);
    } else if |tries| == 1 {
      assert tries == [tries[0]];
      VerdictsFirst(tries[0], [], wantsBody, refreshed);
      BoundedOnce(tries[0], r, wantsBody, refreshed, attempts);
    } else {
      var t, later := tries[0], tries[1..];
      var refreshed' := refreshed || Unauthorized(t);
      assert tries == [t] + later;
      EndingContinues(t, later, r, wantsBody, refreshed, refreshed', attempts);
      EndingIsBounded(later, r, wantsBody, refreshed', attempts - 1);
      BoundedExtends(t, later, tries, r, wantsBody, refreshed, refreshed', attempts);
    }
  }

  /** One try: the request goes on after it as a shorter one, or ends with it. */
  lemma RequestUnfolds(w: World, wantsBody: bool, refreshed: bool, l: Link, left: nat)
    returns (t: Try, refreshed': bool, l': Link, goesOn: bool)
    requires left > 0 && !w.doneBefore(|l.trace|)
    ensures Costs(l, l', [t], refreshed) && t != NoToken(Succeeded)
    ensures refreshed' == (refreshed || Unauthorized(t))
    ensures goesOn ==>
              && left > 1 && Verdict(t, wantsBody, refreshed) == Transient
              && RequestFrom(w, wantsBody, refreshed, l, left) == RequestFrom(w, wantsBody, refreshed', l', left - 1)
    ensures !goesOn ==>
              var (r, last) := RequestFrom(w, wantsBody, refreshed, l, left);
              last == l' && r in Endings(left, [Verdict(t, wantsBody, refreshed)]) && r != Panicked
  {
    t := OneTryIsBounded(w, wantsBody, refreshed, l);
    TryUnfolds(w, wantsBody, refreshed, l, left);
    var one := OneTry(w, wantsBody, refreshed, l);
    refreshed', l' := one.1, one.2;
    goesOn := one.0 == Transient && left > 1 && !w.doneWaiting(|l.trace|);
    if !goesOn {
      EndingsOnce(one.0, left, RequestFrom(w, wantsBody, refreshed, l, left).0);
    }
  }

  lemma {:induction false} RequestEnds(w: World, wantsBody: bool, refreshed: bool, l: Link, left: nat)
    returns (tries: seq<Try>, r: Outcome, last: Link)
    requires left > 0
    ensures (r, last) == RequestFrom(w, wantsBody, refreshed, l, left)
    ensures Costs(l, last, tries, refreshed) && NoToken(Succeeded) !in tries
    ensures r in Endings(left, Verdicts(tries, wantsBody, refreshed)) && r != Panicked
    decreases left
  {
    if w.doneBefore(|l.trace|) {
      tries, r, last := [], ContextDone, l;
    } else {
      var t, refreshed', l', goesOn := RequestUnfolds(w, wantsBody, refreshed, l, left);
      if goesOn {
        var later;
        later, r, last := RequestEnds(w, wantsBody, refreshed', l', left - 1);
        tries := [t] + later;
        VerdictsFirst(t, later, wantsBody, refreshed);
        EndingsPrepend(Transient, Verdicts(later, wantsBody, refreshed'), left, r);
        CostsAddUp(l, l', last, t, later, refreshed);
      } else {
        tries := [t];
        r, last := RequestFrom(w, wantsBody, refreshed, l, left).0, l';
        VerdictsFirst(t, [], wantsBody, refreshed);
      }
    }
  }

  /** Whatever the API, the token endpoint and the other users of the token manager do, one
      request makes at most five tries, sees at most two 401s, invalidates the token once if
      it saw one and never otherwise, and asks for at most thirty tokens itself. Every try
      but the last met something worth retrying; it succeeds iff the last was answered 2xx
      with a body it could decode (when it wanted one), and fails for good iff the last was
      a second 401 or something not worth retrying. */
  lemma RequestIsBounded(w: World, wantsBody: bool, l: Link) returns (tries: seq<Try>)
    ensures var (r, l') := Request(w, wantsBody, l);
            && Costs(l, l', tries, false)
            && Bounded(tries, r, wantsBody, false, 5)
            && l'.own <= l.own + 30
  {
    var r, last;
    tries, r, last := RequestEnds(w, wantsBody, false, l, REQUEST_ATTEMPTS);
    EndingIsBounded(tries, r, wantsBody, false, 5);
  }

  /** A request is the retry loop: its tries' classifications and its outcome obey the
      contract proved of the loop, with five attempts. */
  lemma RequestObeysLoop(w: World, wantsBody: bool, l: Link) returns (tries: seq<Try>)
    ensures var (r, l') := Request(w, wantsBody, l);
            l'.trace == l.trace + tries && Obeys(REQUEST_ATTEMPTS, Verdicts(tries, wantsBody, false), r)
  {
    var r, last;
    tries, r, last := RequestEnds(w, wantsBody, false, l, REQUEST_ATTEMPTS);
    EndingsObey(REQUEST_ATTEMPTS, Verdicts(tries, wantsBody, false), r);
  }

  // ---- The bound is reached ------------------------------------------------------------

  /** A token endpoint that answers 503, 503, 400, then 503 three times, over and over. */
  function Flaky(i: nat): OAuth.Reply {
    if i % 6 == 2 then OAuth.ClientError else OAuth.ServerError
  }

  const WORST_TOKENS := OAuth.World(Flaky, (i: nat) => 0, (i: nat) => false, (i: nat) => false)
  const WORST := World(
    WORST_TOKENS, (i: nat) => Unreachable, (i: nat) => false, (i: nat) => false, (i: nat) => [], (i: nat) => [])

  lemma ThreeGrants(s: OAuth.Session, kind: OAuth.GrantType, last: Attempt)
    requires OAuth.Classify(Flaky(|s.asked|)) == Transient == OAuth.Classify(Flaky(|s.asked| + 1))
    requires OAuth.Classify(Flaky(|s.asked| + 2)) == last && last != Succeeded
    ensures var (r, t) := OAuth.GrantFrom(WORST_TOKENS, s, kind, 3);
            r == OAuth.Refused(last) && |t.asked| == |s.asked| + 3 && t.token == s.token
  {
    var s1 := s.(asked := s.asked + [kind]);
    var s2 := s1.(asked := s1.asked + [kind]);
    assert OAuth.GrantFrom(WORST_TOKENS, s, kind, 3) == OAuth.GrantFrom(WORST_TOKENS, s1, kind, 2);
    assert OAuth.GrantFrom(WORST_TOKENS, s1, kind, 2) == OAuth.GrantFrom(WORST_TOKENS, s2, kind, 1);
  }

  lemma WorstTry(l: Link, k: nat)
    requires |l.auth.asked| == 6 * k && l.auth.token.refresh != "" && l.auth.token.access == ""
    ensures var (a, refreshed, l') := OneTry(WORST, true, false, l);
            && a == Transient && !refreshed && l'.own == l.own + 6
            && |l'.auth.asked| == 6 * k + 6 && l'.auth.token == l.auth.token
  {
    var s := l.auth.(readings := l.auth.readings + 1);
    ThreeGrants(s, OAuth.RefreshGrant, Permanent);
    ThreeGrants(OAuth.GrantFrom(WORST_TOKENS, s, OAuth.RefreshGrant, 3).1, OAuth.ClientCredentials, Transient);
    assert OAuth.After(WORST.tokens, l.auth, WORST.others(|l.trace|)) == l.auth;
  }

  lemma {:induction false} WorstRequest(l: Link, k: nat, left: nat)
    requires left > 0 && k + left == 5
    requires |l.auth.asked| == 6 * k && l.auth.token.refresh != "" && l.auth.token.access == ""
    ensures RequestFrom(WORST, true, false, l, left).1.own == l.own + 6 * left
    decreases left
  {
    WorstTry(l, k);
    TryUnfolds(WORST, true, false, l, left);
    if left > 1 {
      WorstRequest(OneTry(WORST, true, false, l).2, k + 1, left - 1);
    }
  }

  /** Thirty is the least bound: a request that holds only a refresh token can ask thirty
      times. */
  lemma ThirtyTokensCanBeAsked()
    ensures var l := Link(OAuth.Session(OAuth.Token("", "r", 0), [], 0, []), [], 0, 0);
            Request(WORST, true, l).1.own == 30
  {
    WorstRequest(Link(OAuth.Session(OAuth.Token("", "r", 0), [], 0, []), [], 0, 0), 0, 5);
  }
}
