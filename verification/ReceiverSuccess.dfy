// When the operations of the receiver client succeed, and what they leave.
module ReceiverSuccess {
  import opened Wrappers
  import opened ReceiverState
  import opened ReceiverGuarantees

  // The client can submit at this time without authenticating: its token has more than five minutes left, and the
  // selected protocol client is connected, or made and not closed.
  predicate Ready(c: Client, now: int) {
    && c.authenticated && c.token.Some? && now < c.token.value.expires - 300
    && if c.useGrpc && c.grpc.Some? then c.grpc.value.connected
       else c.rest.Some? && c.rest.value.ready && !c.rest.value.closed
  }

  // It can at every attempt of the script, and a fallback to REST succeeds.
  ghost predicate ReadyFor(c: Client, script: seq<Attempt>) {
    forall a :: a in script ==> Ready(c, a.now) && a.restReady
  }

  lemma ReadyNeedsNothing(c: Client, a: Attempt)
    requires Ready(c, a.now)
    ensures EnsureAuthenticated(c, a) == Result(c, Returned)
    ensures Submit(c, a.accepted) == if a.accepted then Returned else Threw(SubmissionError)
    ensures a.restReady ==> Ready(FallbackToRest(c, true), a.now)
  {
  }

  lemma FallbackStaysReady(c: Client, script: seq<Attempt>)
    requires ReadyFor(c, script) && script != []
    ensures ReadyFor(FallbackToRest(c, true), script)
  {
    assert script[0] in script;
  }

  predicate OverGrpc(c: Client) {
    c.useGrpc && c.grpc.Some?
  }

  // One refused attempt that is not the last: the delay and, over gRPC, the fallback.
  lemma RefusedGoesOn(c: Client, script: seq<Attempt>, k: nat, backoff: real)
    requires k < |script| - 1 && Ready(c, script[k].now) && !script[k].accepted
    ensures var next := if OverGrpc(c) then FallbackToRest(c, script[k].restReady) else c;
      var r, rest := RetryFrom(c, script, k, backoff), RetryFrom(next, script, k + 1, backoff);
      r == Retried(rest.client, rest.outcome, rest.executions + 1, rest.slept + backoff * Pow2(k),
             rest.fallbacks + if OverGrpc(c) then 1 else 0)
  {
    ReadyNeedsNothing(c, script[k]);
    hide Ready, EnsureAuthenticated, Submit, FallbackToRest, Pow2;
  }

  lemma EndsHere(c: Client, script: seq<Attempt>, k: nat, backoff: real)
    requires k < |script| && Ready(c, script[k].now) && (script[k].accepted || k == |script| - 1)
    ensures RetryFrom(c, script, k, backoff)
      == Retried(c, if script[k].accepted then Returned else Threw(SubmissionError), 1, 0.0, 0)
  {
    ReadyNeedsNothing(c, script[k]);
    hide Ready, EnsureAuthenticated, Submit, FallbackToRest, Pow2;
  }

  // From attempt k on, when the attempts before j are refused and attempt j is accepted.
  lemma {:induction false} AcceptedFrom(c: Client, script: seq<Attempt>, k: nat, j: nat, backoff: real)
    requires k <= j < |script| && ReadyFor(c, script)
    requires script[j].accepted && forall i :: k <= i < j ==> !script[i].accepted
    ensures var r := RetryFrom(c, script, k, backoff);
      && r.outcome == Returned && r.executions == j - k + 1 && r.slept == backoff * (Pow2(j) - Pow2(k))
      && r.client.token == c.token && r.client.authenticated
    decreases j - k
  {
    assert script[k] in script;
    if k < j {
      RefusedGoesOn(c, script, k, backoff);
      FallbackStaysReady(c, script);
      AcceptedFrom(if OverGrpc(c) then FallbackToRest(c, true) else c, script, k + 1, j, backoff);
      assert Pow2(k + 1) == 2.0 * Pow2(k);
      OneSleepMore(backoff, Pow2(k), Pow2(j));
    } else {
      EndsHere(c, script, k, backoff);
    }
    hide RetryFrom, Pow2;
  }

  // With REST selected nothing of the client changes.
  lemma {:induction false} StaysOverRest(c: Client, script: seq<Attempt>, k: nat, backoff: real)
    requires k < |script| && ReadyFor(c, script) && !OverGrpc(c)
    ensures RetryFrom(c, script, k, backoff).fallbacks == 0 && RetryFrom(c, script, k, backoff).client == c
    decreases |script| - k
  {
    assert script[k] in script;
    if script[k].accepted || k == |script| - 1 {
      EndsHere(c, script, k, backoff);
    } else {
      RefusedGoesOn(c, script, k, backoff);
      StaysOverRest(c, script, k + 1, backoff);
    }
    hide RetryFrom, Ready;
  }

  // An operation falls back to REST exactly when its first attempt goes over gRPC, is refused and is not the only one;
  // it then leaves REST selected, with a client that carries the current token.
  lemma FallsBackIffRefused(c: Client, script: seq<Attempt>, backoff: real)
    requires script != [] && ReadyFor(c, script)
    ensures var r := RetryFrom(c, script, 0, backoff);
      && r.fallbacks == (if c.useGrpc && c.grpc.Some? && !script[0].accepted && |script| > 1 then 1 else 0)
      && r.client == if r.fallbacks == 0 then c
                     else c.(useGrpc := false, rest := Some(Rest(c.token.value.access, true, false)))
  {
    assert script[0] in script;
    if script[0].accepted || |script| == 1 {
      EndsHere(c, script, 0, backoff);
    } else if OverGrpc(c) {
      RefusedGoesOn(c, script, 0, backoff);
      FallbackStaysReady(c, script);
      StaysOverRest(FallbackToRest(c, true), script, 1, backoff);
    } else {
      StaysOverRest(c, script, 0, backoff);
    }
    hide RetryFrom, ReadyFor;
  }

  // A login that fails ends the operation before anything is executed.
  lemma FailedLoginEnds(c: Client, a: Attempt, script: seq<Attempt>, backoff: real)
    requires !c.locked && (!c.authenticated || c.token.None?) && !a.login.LoggedIn?
    ensures RetryFrom(c, [a] + script, 0, backoff) == Retried(c,
      if a.login.LoginMalformed? then Threw(OtherError) else Threw(AuthenticationError), 0, 0.0, 0)
  {
    LoginFails(c, a.login, a.setup, a.now);
    hide Authenticate;
  }

  // A client that cannot be used ends it at its first execution, without a retry.
  lemma UnusableEnds(c: Client, a: Attempt, script: seq<Attempt>, backoff: real)
    requires c.authenticated && c.token.Some? && a.now < c.token.value.expires - 300 && !Ready(c, a.now)
    ensures RetryFrom(c, [a] + script, 0, backoff) == Retried(c,
      Threw(if c.useGrpc && c.grpc.Some? then GrpcNotConnected else if c.rest.None? then NoActiveClient
            else if !c.rest.value.ready then RestNotInitialized else RestClosed), 1, 0.0, 0)
  {
  }

  // The first accepted attempt ends the operation: after as many executions, and the delays of the refusals before it.
  lemma SucceedsAtFirstAccepted(c: Client, script: seq<Attempt>, j: nat, backoff: real)
    requires j < |script| && ReadyFor(c, script)
    requires script[j].accepted && forall i :: 0 <= i < j ==> !script[i].accepted
    ensures var r := RetryFrom(c, script, 0, backoff);
      r.outcome == Returned && r.executions == j + 1 && r.slept == backoff * (Pow2(j) - 1.0)
  {
    AcceptedFrom(c, script, 0, j, backoff);
  }

  lemma {:induction false} RefusedFrom(c: Client, script: seq<Attempt>, k: nat, backoff: real)
    requires k <= |script| && ReadyFor(c, script) && forall i :: k <= i < |script| ==> !script[i].accepted
    ensures RetryFrom(c, script, k, backoff).outcome == Threw(SubmissionError)
    ensures RetryFrom(c, script, k, backoff).executions == |script| - k
    decreases |script| - k
  {
    if k < |script| {
      assert script[k] in script;
      if k == |script| - 1 {
        EndsHere(c, script, k, backoff);
      } else {
        RefusedGoesOn(c, script, k, backoff);
        FallbackStaysReady(c, script);
        RefusedFrom(if OverGrpc(c) then FallbackToRest(c, true) else c, script, k + 1, backoff);
      }
      hide RetryFrom, ReadyFor;
    }
  }

  lemma FirstAccepted(script: seq<Attempt>) returns (j: nat)
    requires exists i :: 0 <= i < |script| && script[i].accepted
    ensures j < |script| && script[j].accepted && forall i :: 0 <= i < j ==> !script[i].accepted
  {
    j := 0;
    while !script[j].accepted
      invariant j < |script| && forall i :: 0 <= i < j ==> !script[i].accepted
      invariant exists i :: j <= i < |script| && script[i].accepted
      decreases |script| - j
    {
      j := j + 1;
    }
  }

  // It returns exactly if some attempt of the script is accepted, and otherwise fails after max_retries executions.
  lemma ReturnsIffAccepted(c: Client, script: seq<Attempt>, backoff: real)
    requires ReadyFor(c, script)
    ensures var r := RetryFrom(c, script, 0, backoff);
      && (r.outcome == Returned <==> exists i :: 0 <= i < |script| && script[i].accepted)
      && (r.outcome != Returned ==> r.outcome == Threw(SubmissionError) && r.executions == |script|)
  {
    if i :| 0 <= i < |script| && script[i].accepted {
      var j := FirstAccepted(script);
      AcceptedFrom(c, script, 0, j, backoff);
    } else {
      RefusedFrom(c, script, 0, backoff);
    }
  }

  // After every good run that left the client authenticated, with its token valid through the script.
  lemma GoodRunReturns(ops: seq<Op>, script: seq<Attempt>, backoff: real)
    requires forall op :: op in ops ==> Good(op) && OpMakesRest(op)
    requires Exec(ops, backoff).authenticated && Exec(ops, backoff).token.Some?
    requires forall a :: a in script ==> a.restReady && a.now < Exec(ops, backoff).token.value.expires - 300
    ensures RetryFrom(Exec(ops, backoff), script, 0, backoff).outcome == Returned
      <==> exists i :: 0 <= i < |script| && script[i].accepted
  {
    RunKeepsInv(ops, backoff);
    RunMakesRest(ops, backoff);
    ReturnsIffAccepted(Exec(ops, backoff), script, backoff);
  }

  // ---------------------------------------------------------------- what logins and refreshes leave

  // A REST client that was made is closed.
  function ClosedOf(r: Option<Rest>): Option<Rest> {
    if r.Some? && r.value.ready then Some(Rest(r.value.token, true, true)) else r
  }

  // A login that is granted leaves the new token and a new client of the protocol that is up, and no lock.
  lemma LoginGrants(c: Client, access: string, refresh: string, expiresIn: int, setup: Setup, now: int)
    requires !c.locked && !setup.disconnectFails
    ensures var r := Authenticate(c, LoggedIn(access, refresh, expiresIn), setup, now);
      && r.outcome == Returned && !r.client.locked && r.client.authenticated
      && r.client.token == Some(Token(access, refresh, now + expiresIn))
      && r.client.grpc == Some(Grpc(access, setup.grpcUp))
      && (setup.grpcUp ==> r.client.useGrpc && r.client.rest == ClosedOf(c.rest))
      && (!setup.grpcUp ==> !r.client.useGrpc && r.client.rest == Some(Rest(access, setup.restReady, false)))
  {
  }

  // When closing the old REST client fails, the new token is there but both old clients are down.
  lemma LoginInterrupted(c: Client, access: string, refresh: string, expiresIn: int, setup: Setup, now: int)
    requires !c.locked && setup.disconnectFails && c.rest.Some? && c.rest.value.ready
    ensures Authenticate(c, LoggedIn(access, refresh, expiresIn), setup, now) == Result(
      Client(Some(Token(access, refresh, now + expiresIn)), c.useGrpc,
             if c.grpc.None? then None else Some(Grpc(c.grpc.value.token, false)), ClosedOf(c.rest), true, false),
      Threw(OtherError))
  {
  }

  // A login that is not leaves the client as it was.
  lemma LoginFails(c: Client, reply: LoginReply, setup: Setup, now: int)
    requires !c.locked && !reply.LoggedIn?
    ensures var r := Authenticate(c, reply, setup, now);
      r.client == c && r.outcome == if reply.LoginMalformed? then Threw(OtherError) else Threw(AuthenticationError)
  {
  }

  // A refresh that is granted replaces access token and expiry, and the protocol client.
  lemma RefreshGrants(c: Client, access: string, expiresIn: int, login: LoginReply, setup: Setup, now: int)
    requires !c.locked && !setup.disconnectFails && c.token.Some?
    ensures var r := RefreshToken(c, RefreshGranted(access, expiresIn), login, setup, now);
      && r.outcome == Returned && !r.client.locked && r.client.authenticated == c.authenticated
      && r.client.token == Some(Token(access, c.token.value.refresh, now + expiresIn))
      && r.client.grpc == Some(Grpc(access, setup.grpcUp))
      && (setup.grpcUp ==> r.client.useGrpc && r.client.rest == ClosedOf(c.rest))
      && (!setup.grpcUp ==> !r.client.useGrpc && r.client.rest == Some(Rest(access, setup.restReady, false)))
  {
  }

  // Every other reply to a refresh: without a token nothing is asked; a refusal hangs; a malformed expiry has already
  // replaced the access token; the others change nothing.
  lemma RefreshFails(c: Client, reply: RefreshReply, login: LoginReply, setup: Setup, now: int)
    requires !c.locked && (c.token.None? || !reply.RefreshGranted?)
    ensures RefreshToken(c, reply, login, setup, now) ==
      if c.token.None? || reply.RefreshUnreachable? then Result(c, Threw(AuthenticationError))
      else if reply.RefreshRefused? then Result(c.(locked := true), Hangs)
      else if reply.RefreshBadExpiry? then
        Result(c.(token := Some(Token(reply.newAccess, c.token.value.refresh, c.token.value.expires))),
               Threw(OtherError))
      else Result(c, Threw(OtherError))
  {
  }

  // When a client authenticates before an attempt: without a token, or with one that has at most five minutes left.
  lemma AuthenticatesIff(c: Client, a: Attempt)
    requires !c.locked
    ensures (!c.authenticated || c.token.None?) ==>
      EnsureAuthenticated(c, a) == Authenticate(c, a.login, a.setup, a.now)
    ensures c.authenticated && c.token.Some? && a.now >= c.token.value.expires - 300 ==>
      EnsureAuthenticated(c, a) == RefreshToken(c, a.refresh, a.login, a.setup, a.now)
    ensures c.authenticated && c.token.Some? && a.now < c.token.value.expires - 300 ==>
      EnsureAuthenticated(c, a) == Result(c, Returned)
  {
  }

  // A client that is not authenticated logs in and submits, in one execution.
  lemma FirstSubmissionReturns(c: Client, a: Attempt, script: seq<Attempt>, backoff: real)
    requires !c.locked && (!c.authenticated || c.token.None?)
    requires a.login.LoggedIn? && !a.setup.disconnectFails && a.setup.restReady && a.accepted
    ensures var r := RetryFrom(c, [a] + script, 0, backoff);
      r.outcome == Returned && r.executions == 1 && r.slept == 0.0
  {
    LoginGrants(c, a.login.access, a.login.refresh, a.login.expiresIn, a.setup, a.now);
    AuthenticatesIff(c, a);
    hide Authenticate, EnsureAuthenticated;
  }

  // close leaves both clients unusable and the client unauthenticated.
  lemma CloseCloses(c: Client)
    ensures var r := Close(c, false);
      && r.outcome == Returned && !r.client.authenticated && r.client.token == c.token && r.client.locked == c.locked
      && (r.client.grpc.Some? ==> !r.client.grpc.value.connected)
      && (r.client.rest.Some? && r.client.rest.value.ready ==> r.client.rest.value.closed)
  {
  }
}
