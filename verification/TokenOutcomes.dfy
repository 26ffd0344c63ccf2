/** What asking for a token and making a request come to, told by the replies met. */
module TokenOutcomes {
  import opened Retry
  import O = OAuth
  import A = AlphaSense

  // ---- One grant -----------------------------------------------------------------------------

  predicate Good(r: O.Reply) {
    r.Granted? && r.access != "" && r.expiresIn > 0
  }

  predicate Fleeting(r: O.Reply) {
    r == O.ServerError || r == O.Unreachable
  }

  /** What a good reply grants, its lifetime in seconds counted from `now`. */
  function TokenOf(r: O.Reply, now: int): O.Token
    requires r.Granted?
  {
    O.Token(r.access, r.refresh, now + r.expiresIn * 1_000_000_000)
  }

  /** How a grant ends by the last of its `n` requests, the first of them the `i`-th ever. */
  predicate GrantEndsBy(w: O.World, now: int, i: nat, n: nat, left: nat, r: O.GrantResult) {
    if n == 0 then w.doneBefore(i) && r == O.Refused(Cancelled)
    else
      var last := w.reply(i + n - 1);
      if Good(last) then r == O.Issue(TokenOf(last, now), now)
      else if last == O.Interrupted then r == O.Refused(Cancelled)
      else if !Fleeting(last) then r == O.Refused(Permanent)
      else if n == left then r == O.Refused(Transient)
      else r == O.Refused(Cancelled) && (w.doneWaiting(i + n - 1) || w.doneBefore(i + n))
  }

  lemma MoreRequests(w: O.World, now: int, i: nat, n: nat, left: nat, r: O.GrantResult)
    requires left > 1 && Fleeting(w.reply(i)) && GrantEndsBy(w, now, i + 1, n, left - 1, r)
    ensures GrantEndsBy(w, now, i, n + 1, left, r)
  {
  }

  /** A grant asks again exactly while the endpoint fails in passing, attempts are left and
      the caller waits; its result is what the last reply says. */
  lemma {:induction false} GrantOutcome(w: O.World, s: O.Session, kind: O.GrantType, left: nat) returns (n: nat)
    requires left > 0
    ensures var (r, t) := O.GrantFrom(w, s, kind, left);
            && |t.asked| == |s.asked| + n && n <= left && t.token == s.token && t.log == s.log
            && (n > 0 ==> t.asked[|s.asked|] == kind)
            && s.asked <= t.asked
            && (forall j :: |s.asked| <= j < |s.asked| + n - 1 ==> Fleeting(w.reply(j)))
            && GrantEndsBy(w, w.clock(s.readings), |s.asked|, n, left, r)
    decreases left
  {
    var i := |s.asked|;
    if w.doneBefore(i) {
      n := 0;
    } else {
      n := 1;
      if Fleeting(w.reply(i)) && left > 1 && !w.doneWaiting(i) {
        var s' := s.(asked := s.asked + [kind]);
        var later := GrantOutcome(w, s', kind, left - 1);
        MoreRequests(w, w.clock(s.readings), i, later, left, O.GrantFrom(w, s', kind, left - 1).0);
        n := later + 1;
      }
    }
  }

  // ---- One call for a token ----------------------------------------------------------------------

  predicate Fresh(t: O.Token, now: int) {
    t.access != "" && now < t.expiry - 30_000_000_000
  }

  /** Why a call ended without a token, by the last reply met and the caller's patience. */
  predicate FailsBecause(w: O.World, asked: nat, cause: Attempt) {
    match cause
    case Succeeded => false
    case Transient => asked > 0 && Fleeting(w.reply(asked - 1))
    case Permanent =>
      asked > 0 && !Good(w.reply(asked - 1)) && !Fleeting(w.reply(asked - 1)) && w.reply(asked - 1) != O.Interrupted
    case Cancelled =>
      w.doneBefore(asked) || (asked > 0 && (w.reply(asked - 1) == O.Interrupted || w.doneWaiting(asked - 1)))
  }

  lemma ObtainOutcome(w: O.World, s: O.Session)
    ensures var (r, t) := O.Obtain(w, s);
            && s.asked <= t.asked && t.token == s.token && t.log == s.log
            && (|t.asked| > |s.asked| ==>
                  t.asked[|s.asked|] == if s.token.refresh != "" then O.RefreshGrant else O.ClientCredentials)
            && (|t.asked| == |s.asked| ==> w.doneBefore(|s.asked|))
            && (r.Issue? <==> |t.asked| > |s.asked| && Good(w.reply(|t.asked| - 1)))
            && (r.Issue? ==> r == O.Issue(TokenOf(w.reply(|t.asked| - 1), w.clock(s.readings)), w.clock(s.readings)))
            && (r.Refused? ==> FailsBecause(w, |t.asked|, r.cause))
  {
    if s.token.refresh != "" {
      var n := GrantOutcome(w, s, O.RefreshGrant, 3);
      var (r, s') := O.GrantFrom(w, s, O.RefreshGrant, 3);
      if r == O.Refused(Permanent) {
        var m := GrantOutcome(w, s', O.ClientCredentials, 3);
      }
    } else {
      var n := GrantOutcome(w, s, O.ClientCredentials, 3);
    }
  }

  /** A call answers the cached token, without asking, iff that has more than thirty seconds
      left. Otherwise it asks, by refreshing if it can, and answers the token of the last
      reply, which is cached; or it keeps the cache and says why it failed. */
  lemma AccessOutcome(w: O.World, s: O.Session)
    ensures var (r, t) := O.AccessToken(w, s);
            if Fresh(s.token, w.clock(s.readings)) then
              r == O.Access(s.token.access) && t == s.(readings := s.readings + 1)
            else
              && s.asked <= t.asked
              && (|t.asked| > |s.asked| ==>
                    t.asked[|s.asked|] == if s.token.refresh != "" then O.RefreshGrant else O.ClientCredentials)
              && (|t.asked| == |s.asked| ==> w.doneBefore(|s.asked|))
              && (r.Access? <==> |t.asked| > |s.asked| && Good(w.reply(|t.asked| - 1)))
              && (r.Access? ==>
                    && r.token == t.token.access != ""
                    && t.token == TokenOf(w.reply(|t.asked| - 1), w.clock(s.readings + 1))
                    && t.log == s.log + [O.Issued(w.clock(s.readings + 1), t.token.expiry)])
              && (r.NoAccess? ==>
                    t.token == s.token && t.log == s.log && FailsBecause(w, |t.asked|, r.cause))
  {
    if !Fresh(s.token, w.clock(s.readings)) {
      ObtainOutcome(w, s.(readings := s.readings + 1));
    }
  }

  /** When the first reply is good the call asks once and answers with it. */
  lemma FirstGoodReplyIsUsed(w: O.World, s: O.Session)
    requires !Fresh(s.token, w.clock(s.readings)) && !w.doneBefore(|s.asked|) && Good(w.reply(|s.asked|))
    ensures var (r, t) := O.AccessToken(w, s);
            && r == O.Access(w.reply(|s.asked|).access)
            && t.asked == s.asked + [if s.token.refresh != "" then O.RefreshGrant else O.ClientCredentials]
            && t.token == TokenOf(w.reply(|s.asked|), w.clock(s.readings + 1))
  {
  }

  /** Invalidating forgets the refresh token too: the next call asks with the client's own
      credentials, unless its caller has gone. */
  lemma InvalidationForcesGrant(w: O.World, s: O.Session)
    ensures var dropped := O.Invalidate(s);
            var (r, t) := O.AccessToken(w, dropped);
            && dropped.asked == s.asked && dropped.readings == s.readings && dropped.log == s.log + [O.Dropped]
            && (w.doneBefore(|s.asked|) || (|t.asked| > |s.asked| && t.asked[|s.asked|] == O.ClientCredentials))
  {
    AccessOutcome(w, O.Invalidate(s));
  }

  // ---- One try and one request -------------------------------------------------------------------

  predicate Is401(t: A.Try) {
    t.Answered? && t.reply.Status? && t.reply.code == 401
  }

  /** What a try was worth. */
  function Worth(t: A.Try, wantsBody: bool, refreshed: bool): Attempt {
    match t
    case NoToken(cause) => cause
    case Answered(Interrupted) => Cancelled
    case Answered(Unreachable) => Transient
    case Answered(Unsendable) => Permanent
    case Answered(Status(code, decodable)) =>
      if 200 <= code <= 299 && (decodable || !wantsBody) then Succeeded
      else if code == 429 || code >= 500 || (code == 401 && !refreshed) then Transient
      else Permanent
  }

  /** A try takes its turn at the token manager after the others, is answered iff it got a
      token, and on the request's first 401 drops whatever token is cached by then. */
  lemma TryOutcome(w: A.World, wantsBody: bool, refreshed: bool, l: A.Link)
    ensures var (a, refreshed', l') := A.OneTry(w, wantsBody, refreshed, l);
            var n := |l.trace|;
            var before := O.After(w.tokens, l.auth, w.others(n));
            var (access, asked) := O.AccessToken(w.tokens, before);
            var t := if access.Access? then A.Answered(w.reply(n)) else A.NoToken(access.cause);
            var auth := if access.Access? then O.After(w.tokens, asked, w.meanwhile(n)) else asked;
            && l'.trace == l.trace + [t]
            && a == Worth(t, wantsBody, refreshed) && refreshed' == (refreshed || Is401(t))
            && l'.auth == (if Is401(t) && !refreshed then O.Invalidate(auth) else auth)
            && l'.drops == l.drops + (if Is401(t) && !refreshed then 1 else 0)
            && l'.own == l.own + |asked.asked| - |before.asked|
  {
  }

  lemma OneTryIsTraced(w: A.World, wantsBody: bool, refreshed: bool, l: A.Link)
    ensures |A.OneTry(w, wantsBody, refreshed, l).2.trace| == |l.trace| + 1
  {
  }

  /** Was the caller seen to have gone, before a try or while waiting after one? */
  predicate SeenGone(w: A.World, before: nat, after: nat) {
    w.doneBefore(after) || (after > before && w.doneWaiting(after - 1))
  }

  /** A request is broken off only when its caller is seen to have gone. */
  lemma {:induction false} BrokenOffByCaller(
      w: A.World, wantsBody: bool, refreshed: bool, l: A.Link, left: nat)
    returns (r: Outcome, l': A.Link)
    requires left > 0
    ensures (r, l') == A.RequestFrom(w, wantsBody, refreshed, l, left)
    ensures |l'.trace| >= |l.trace| && (w.doneBefore(|l.trace|) ==> l' == l && r == ContextDone)
    ensures r == ContextDone ==> SeenGone(w, |l.trace|, |l'.trace|)
    decreases left
  {
    if w.doneBefore(|l.trace|) {
      r, l' := ContextDone, l;
    } else {
      var one := A.OneTry(w, wantsBody, refreshed, l);
      OneTryIsTraced(w, wantsBody, refreshed, l);
      A.TryUnfolds(w, wantsBody, refreshed, l, left);
      if one.0 == Transient && left > 1 && !w.doneWaiting(|l.trace|) {
        r, l' := BrokenOffByCaller(w, wantsBody, one.1, one.2, left - 1);
      } else {
        r, l' := A.RequestFrom(w, wantsBody, refreshed, l, left).0, one.2;
      }
    }
  }

  /** With a fresh token and nobody else about, a request the API answers at once is one try
      and costs no token. */
  lemma FreshTokenSuffices(w: A.World, wantsBody: bool, l: A.Link)
    requires Fresh(l.auth.token, w.tokens.clock(l.auth.readings)) && !w.doneBefore(|l.trace|)
    requires w.others(|l.trace|) == [] == w.meanwhile(|l.trace|)
    requires w.reply(|l.trace|).Status? && 200 <= w.reply(|l.trace|).code <= 299 && w.reply(|l.trace|).decodable
    ensures var (r, l') := A.Request(w, wantsBody, l);
            && r == Done && l'.trace == l.trace + [A.Answered(w.reply(|l.trace|))]
            && l'.own == l.own && l'.drops == l.drops && l'.auth.token == l.auth.token
  {
    A.TryUnfolds(w, wantsBody, false, l, 5);
    TryOutcome(w, wantsBody, false, l);
    AccessOutcome(w.tokens, l.auth);
  }
}
