// The receiver client: token, protocol selection and retries, as functions of the client's state.
module ReceiverState {
  import opened Wrappers

  // Times in seconds; a token counts as expired five minutes early.
  const EXPIRY_MARGIN: int := 300

  datatype Token = Token(access: string, refresh: string, expires: int)

  // A gRPC client; connected is cleared by disconnect.
  datatype Grpc = Grpc(token: string, connected: bool)

  // A REST client; ready says that its HTTP client exists, closed that it was closed by disconnect, also by one that
  // fails.
  datatype Rest = Rest(token: string, ready: bool, closed: bool)

  // locked: somebody holds the client's lock, which is not reentrant.
  datatype Client = Client(
    token: Option<Token>, useGrpc: bool, grpc: Option<Grpc>, rest: Option<Rest>, authenticated: bool, locked: bool)

  const INITIAL := Client(None, true, None, None, false, false)

  datatype Error =
    | AuthenticationError
    | SubmissionError
    | GrpcNotConnected
    | RestNotInitialized
    | RestClosed
    | NoActiveClient
    | OtherError          // any exception the client does not name: a malformed body, a disconnect that fails

  datatype Outcome = Returned | Threw(error: Error) | Hangs

  // What the environment does to the set-up of the protocol clients.
  datatype Setup = Setup(disconnectFails: bool, grpcUp: bool, restReady: bool)

  datatype LoginReply =
    | LoginUnreachable
    | LoginRefused
    | LoginFieldMissing
    | LoginMalformed
    | LoggedIn(access: string, refresh: string, expiresIn: int)


  // RefreshBadExpiry: status 200 and an access token, but an expires_in that is not a number.
  datatype RefreshReply =
    | RefreshUnreachable
    | RefreshRefused
    | RefreshMalformed
    | RefreshBadExpiry(newAccess: string)
    | RefreshGranted(access: string, expiresIn: int)

  datatype Result = Result(client: Client, outcome: Outcome)

  // The REST client, if there is one, got its HTTP client.
  predicate RestMade(c: Client) {
    c.rest.Some? ==> c.rest.value.ready
  }

  function Disconnected(g: Option<Grpc>): Option<Grpc> {
    match g case None => None case Some(c) => Some(c.(connected := false))
  }

  function Closed(r: Option<Rest>): Option<Rest> {
    match r case Some(c) => (if c.ready then Some(c.(closed := true)) else Some(c)) case None => None
  }

  // _fallback_to_rest
  function FallbackToRest(c: Client, restReady: bool): Client {
    if c.token.None? then c else c.(rest := Some(Rest(c.token.value.access, restReady, false)), useGrpc := false)
  }

  // _try_grpc, and the fallback when it fails
  function SelectProtocol(c: Client, setup: Setup): Client
    requires c.token.Some?
  {
    var tried := c.(grpc := Some(Grpc(c.token.value.access, setup.grpcUp)));
    if setup.grpcUp then tried.(useGrpc := true) else FallbackToRest(tried, setup.restReady)
  }

  // _initialize_clients
  function InitializeClients(c: Client, setup: Setup): Result {
    if c.token.None? then Result(c, Returned)
    else
      var down := c.(grpc := Disconnected(c.grpc), rest := Closed(c.rest));
      if c.rest.Some? && c.rest.value.ready && setup.disconnectFails then Result(down, Threw(OtherError))
      else Result(SelectProtocol(down, setup), Returned)
  }

  // Leaving the block that holds the lock releases it, by a return or by an exception; a call that hangs never leaves.
  function Released(r: Result): Result {
    if r.outcome == Hangs then r else r.(client := r.client.(locked := false))
  }

  // authenticate takes the lock for the whole of its work. Nobody but a hanging call holds it when a call starts.
  function Authenticate(c: Client, reply: LoginReply, setup: Setup, now: int): Result {
    if c.locked then Result(c, Hangs) else Released(Login(c.(locked := true), reply, setup, now))
  }

  function Login(c: Client, reply: LoginReply, setup: Setup, now: int): Result {
    match reply
    case LoginUnreachable => Result(c, Threw(AuthenticationError))
    case LoginRefused => Result(c, Threw(AuthenticationError))
    case LoginFieldMissing => Result(c, Threw(AuthenticationError))
    case LoginMalformed => Result(c, Threw(OtherError))
    case LoggedIn(access, refresh, expiresIn) =>
      InitializeClients(c.(token := Some(Token(access, refresh, now + expiresIn)), authenticated := true), setup)
  }

  // refresh_token takes the same lock, and calls authenticate when the refresh is refused; login answers that call.
  function RefreshToken(c: Client, reply: RefreshReply, login: LoginReply, setup: Setup, now: int): Result {
    if c.token.None? then Result(c, Threw(AuthenticationError))
    else if c.locked then Result(c, Hangs)
    else Released(Refresh(c.(locked := true), reply, login, setup, now))
  }

  function Refresh(c: Client, reply: RefreshReply, login: LoginReply, setup: Setup, now: int): Result
    requires c.token.Some?
  {
    match reply
    case RefreshUnreachable => Result(c, Threw(AuthenticationError))
    case RefreshRefused => Authenticate(c, login, setup, now)
    case RefreshMalformed => Result(c, Threw(OtherError))
    case RefreshBadExpiry(access) => Result(c.(token := Some(c.token.value.(access := access))), Threw(OtherError))
    case RefreshGranted(access, expiresIn) =>
      InitializeClients(c.(token := Some(c.token.value.(access := access, expires := now + expiresIn))), setup)
  }

  predicate Expired(t: Token, now: int) {
    now >= t.expires - EXPIRY_MARGIN
  }

  // What the environment does to one attempt of an operation.
  datatype Attempt = Attempt(now: int, login: LoginReply, refresh: RefreshReply, setup: Setup, accepted: bool,
    restReady: bool)

  // _ensure_authenticated
  function EnsureAuthenticated(c: Client, a: Attempt): Result {
    if !c.authenticated || c.token.None? then Authenticate(c, a.login, a.setup, a.now)
    else if Expired(c.token.value, a.now) then RefreshToken(c, a.refresh, a.login, a.setup, a.now)
    else Result(c, Returned)
  }

  // _submit, for logs and for metrics alike
  function Submit(c: Client, accepted: bool): Outcome {
    if c.useGrpc && c.grpc.Some? then
      if !c.grpc.value.connected then Threw(GrpcNotConnected)
      else if accepted then Returned else Threw(SubmissionError)
    else if c.rest.Some? then
      if !c.rest.value.ready then Threw(RestNotInitialized)
      else if c.rest.value.closed then Threw(RestClosed)
      else if accepted then Returned else Threw(SubmissionError)
    else Threw(NoActiveClient)
  }

  // close: a disconnect that fails ends it before the client is marked as not authenticated.
  function Close(c: Client, disconnectFails: bool): Result {
    var down := c.(grpc := Disconnected(c.grpc), rest := Closed(c.rest));
    if c.rest.Some? && c.rest.value.ready && disconnectFails then Result(down, Threw(OtherError))
    else Result(down.(authenticated := false), Returned)
  }

  // ---------------------------------------------------------------- retries

  function Pow2(k: nat): (r: real)
    ensures r >= 1.0
  {
    if k == 0 then 1.0 else 2.0 * Pow2(k - 1)
  }

  // The sleep after attempt k.
  function Delay(backoff: real, k: nat): real {
    backoff * Pow2(k)
  }

  // The client with which the attempt after attempt k starts, if there is one after it.
  function Next(c: Client, script: seq<Attempt>, k: nat): Option<Client>
    requires k < |script|
  {
    var ensured := EnsureAuthenticated(c, script[k]);
    if ensured.outcome != Returned || Submit(ensured.client, script[k].accepted) != Threw(SubmissionError) then None
    else if k < |script| - 1 && ensured.client.useGrpc && ensured.client.grpc.Some? then
      Some(FallbackToRest(ensured.client, script[k].restReady))
    else Some(ensured.client)
  }

  // How an operation ends, and what it took: executions of the operation, seconds slept, fallbacks to REST.
  datatype Retried = Retried(client: Client, outcome: Outcome, executions: nat, slept: real, fallbacks: nat)

  // _retry_with_backoff from attempt k on; the script has max_retries attempts.
  function RetryFrom(c: Client, script: seq<Attempt>, k: nat, backoff: real): Retried
    requires k <= |script|
    decreases |script| - k
  {
    if k == |script| then Retried(c, Threw(SubmissionError), 0, 0.0, 0)
    else
      var ensured := EnsureAuthenticated(c, script[k]);
      if ensured.outcome != Returned then Retried(ensured.client, ensured.outcome, 0, 0.0, 0)
      else
        var outcome := Submit(ensured.client, script[k].accepted);
        if outcome != Threw(SubmissionError) then Retried(ensured.client, outcome, 1, 0.0, 0)
        else
          var last := k == |script| - 1;
          var falls := !last && ensured.client.useGrpc && ensured.client.grpc.Some?;
          var next := if falls then FallbackToRest(ensured.client, script[k].restReady) else ensured.client;
          var rest := RetryFrom(next, script, k + 1, backoff);
          Plus(rest, 1, if last then 0.0 else Delay(backoff, k), if falls then 1 else 0)
  }

  function Plus(r: Retried, executions: nat, slept: real, fallbacks: nat): Retried {
    r.(executions := r.executions + executions, slept := r.slept + slept, fallbacks := r.fallbacks + fallbacks)
  }
}

// What holds over every sequence of operations of one task.
module ReceiverGuarantees {
  import opened Wrappers
  import opened ReceiverState

  datatype Op =
    | DoAuthenticate(login: LoginReply, setup: Setup, now: int)
    | DoRefresh(refresh: RefreshReply, login: LoginReply, setup: Setup, now: int)
    | DoSubmit(script: seq<Attempt>)
    | DoHealthCheck(attempt: Attempt)
    | DoClose(disconnectFails: bool)

  function Apply(c: Client, op: Op, backoff: real): Client {
    match op
    case DoAuthenticate(login, setup, now) => Authenticate(c, login, setup, now).client
    case DoRefresh(refresh, login, setup, now) => RefreshToken(c, refresh, login, setup, now).client
    case DoSubmit(script) => RetryFrom(c, script, 0, backoff).client
    case DoHealthCheck(attempt) => EnsureAuthenticated(c, attempt).client
    case DoClose(fails) => Close(c, fails).client
  }

  function Exec(ops: seq<Op>, backoff: real): Client {
    if ops == [] then INITIAL else Apply(Exec(ops[..|ops| - 1], backoff), ops[|ops| - 1], backoff)
  }

  // Refreshes are answered with 200 and well formed or not at all, and no disconnect fails.
  predicate GoodRefresh(r: RefreshReply) {
    !r.RefreshRefused? && !r.RefreshBadExpiry?
  }

  predicate GoodAttempt(a: Attempt) {
    GoodRefresh(a.refresh) && !a.setup.disconnectFails
  }

  predicate Good(op: Op) {
    match op
    case DoAuthenticate(_, setup, _) => !setup.disconnectFails
    case DoRefresh(refresh, _, setup, _) => GoodRefresh(refresh) && !setup.disconnectFails
    case DoSubmit(script) => forall a :: a in script ==> GoodAttempt(a)
    case DoHealthCheck(a) => GoodAttempt(a)
    case DoClose(fails) => !fails
  }

  // The lock is free; and an authenticated client has a client object for the selected protocol that is usable
  // and carries the current access token.
  predicate Inv(c: Client) {
    && !c.locked
    && (c.authenticated ==>
          && c.token.Some?
          && (if c.useGrpc then c.grpc == Some(Grpc(c.token.value.access, true))
              else c.rest.Some? && !c.rest.value.closed && c.rest.value.token == c.token.value.access))
  }

  lemma EnsureKeepsInv(c: Client, a: Attempt)
    requires Inv(c) && GoodAttempt(a)
    ensures var r := EnsureAuthenticated(c, a); Inv(r.client) && (r.outcome == Returned ==> r.client.authenticated)
    ensures EnsureAuthenticated(c, a).outcome != Hangs
  {
  }

  predicate Unreachable(o: Outcome) {
    o == Hangs || o == Threw(NoActiveClient) || o == Threw(GrpcNotConnected) || o == Threw(RestClosed)
  }

  lemma {:induction false} RetryKeepsInv(c: Client, script: seq<Attempt>, k: nat, backoff: real)
    requires Inv(c) && k <= |script| && forall a :: a in script ==> GoodAttempt(a)
    ensures Inv(RetryFrom(c, script, k, backoff).client)
    ensures !Unreachable(RetryFrom(c, script, k, backoff).outcome)
    decreases |script| - k
  {
    if k < |script| {
      assert script[k] in script;
      EnsureKeepsInv(c, script[k]);
      SubmitIsReachable(EnsureAuthenticated(c, script[k]).client, script[k]);
      hide EnsureAuthenticated, Submit, FallbackToRest, Inv;
      if Next(c, script, k).Some? {
        RetryKeepsInv(Next(c, script, k).value, script, k + 1, backoff);
      }
    }
  }

  lemma SubmitIsReachable(c: Client, a: Attempt)
    requires Inv(c)
    ensures c.authenticated ==> !Unreachable(Submit(c, a.accepted)) && Inv(FallbackToRest(c, a.restReady))
  {
  }

  // In every such run the invariant holds between operations.
  lemma {:induction false} RunKeepsInv(ops: seq<Op>, backoff: real)
    requires forall op :: op in ops ==> Good(op)
    ensures Inv(Exec(ops, backoff))
  {
    if ops != [] {
      var last := ops[|ops| - 1];
      assert last in ops;
      RunKeepsInv(ops[..|ops| - 1], backoff);
      if last.DoSubmit? {
        RetryKeepsInv(Exec(ops[..|ops| - 1], backoff), last.script, 0, backoff);
      } else if last.DoHealthCheck? {
        EnsureKeepsInv(Exec(ops[..|ops| - 1], backoff), last.attempt);
      }
    }
  }

  // Every REST client that is made gets its HTTP client.
  predicate MakesRest(a: Attempt) {
    a.setup.restReady && a.restReady
  }

  predicate OpMakesRest(op: Op) {
    match op
    case DoAuthenticate(_, setup, _) => setup.restReady
    case DoRefresh(_, _, setup, _) => setup.restReady
    case DoSubmit(script) => forall a :: a in script ==> MakesRest(a)
    case DoHealthCheck(a) => MakesRest(a)
    case DoClose(_) => true
  }

  lemma EnsureMakesRest(c: Client, a: Attempt)
    requires RestMade(c) && MakesRest(a)
    ensures RestMade(EnsureAuthenticated(c, a).client) && EnsureAuthenticated(c, a).outcome != Threw(RestNotInitialized)
  {
  }

  lemma SubmitUsesRest(c: Client, a: Attempt)
    requires RestMade(c) && MakesRest(a)
    ensures Submit(c, a.accepted) != Threw(RestNotInitialized) && RestMade(FallbackToRest(c, a.restReady))
  {
  }

  lemma {:induction false} RetryMakesRest(c: Client, script: seq<Attempt>, k: nat, backoff: real)
    requires RestMade(c) && k <= |script| && forall a :: a in script ==> MakesRest(a)
    ensures var r := RetryFrom(c, script, k, backoff); RestMade(r.client) && r.outcome != Threw(RestNotInitialized)
    decreases |script| - k
  {
    if k < |script| {
      assert script[k] in script;
      EnsureMakesRest(c, script[k]);
      SubmitUsesRest(EnsureAuthenticated(c, script[k]).client, script[k]);
      hide EnsureAuthenticated, Submit, FallbackToRest, RestMade;
      if Next(c, script, k).Some? {
        RetryMakesRest(Next(c, script, k).value, script, k + 1, backoff);
      }
    }
  }

  lemma {:induction false} RunMakesRest(ops: seq<Op>, backoff: real)
    requires forall op :: op in ops ==> OpMakesRest(op)
    ensures RestMade(Exec(ops, backoff))
  {
    if ops != [] {
      var before, last := Exec(ops[..|ops| - 1], backoff), ops[|ops| - 1];
      assert last in ops;
      RunMakesRest(ops[..|ops| - 1], backoff);
      if last.DoSubmit? {
        RetryMakesRest(before, last.script, 0, backoff);
      } else if last.DoHealthCheck? {
        EnsureMakesRest(before, last.attempt);
      }
    }
  }

  // "No active protocol client", an unconnected gRPC client, a closed REST client and a hang are unreachable; so is a
  // REST client without an HTTP client when each of those that are made gets one.
  lemma SubmitFindsClient(ops: seq<Op>, script: seq<Attempt>, backoff: real)
    requires forall op :: op in ops ==> Good(op)
    requires forall a :: a in script ==> GoodAttempt(a)
    ensures !Unreachable(RetryFrom(Exec(ops, backoff), script, 0, backoff).outcome)
    ensures (forall op :: op in ops ==> OpMakesRest(op)) && (forall a :: a in script ==> MakesRest(a)) ==>
      RetryFrom(Exec(ops, backoff), script, 0, backoff).outcome != Threw(RestNotInitialized)
  {
    RunKeepsInv(ops, backoff);
    RetryKeepsInv(Exec(ops, backoff), script, 0, backoff);
    if (forall op :: op in ops ==> OpMakesRest(op)) && forall a :: a in script ==> MakesRest(a) {
      RunMakesRest(ops, backoff);
      RetryMakesRest(Exec(ops, backoff), script, 0, backoff);
    }
  }

  // Exactly when a refresh breaks the invariant: a refusal deadlocks the client, and a reply whose expiry is
  // malformed leaves the protocol client with the token it replaced.
  lemma RefreshCondition(c: Client, reply: RefreshReply, login: LoginReply, setup: Setup, now: int)
    requires Inv(c) && c.authenticated && !setup.disconnectFails
    ensures Inv(RefreshToken(c, reply, login, setup, now).client)
      <==> !reply.RefreshRefused? && (reply.RefreshBadExpiry? ==> reply.newAccess == c.token.value.access)
  {
  }

  // ---------------------------------------------------------------- the lock

  // authenticate finds the lock free and leaves it free, or finds it held and hangs.
  lemma AuthenticateReleases(c: Client, reply: LoginReply, setup: Setup, now: int)
    ensures var r := Authenticate(c, reply, setup, now);
      if c.locked then r == Result(c, Hangs) else r.outcome != Hangs && !r.client.locked
  {
  }

  // The lock is held afterwards if it was before or if the call hangs: whoever finds it free and returns leaves it
  // free.
  predicate KeepsLockIfHangs(c: Client, client: Client, outcome: Outcome) {
    client.locked <==> c.locked || outcome == Hangs
  }

  // refresh_token hangs, and keeps the lock, exactly when there is a token and the lock is held or the refresh is
  // refused.
  lemma RefreshHangs(c: Client, reply: RefreshReply, login: LoginReply, setup: Setup, now: int)
    ensures var r := RefreshToken(c, reply, login, setup, now);
      && (r.outcome == Hangs <==> c.token.Some? && (c.locked || reply.RefreshRefused?))
      && KeepsLockIfHangs(c, r.client, r.outcome)
  {
    if c.token.Some? {
      AuthenticateReleases(c.(locked := true), login, setup, now);
    }
  }

  // The attempt has to log in or to refresh an expired token, and the lock is held; or it is free and the refresh is
  // refused.
  predicate Blocks(c: Client, a: Attempt) {
    if !c.authenticated || c.token.None? then c.locked
    else Expired(c.token.value, a.now) && (c.locked || a.refresh.RefreshRefused?)
  }

  lemma EnsureHangs(c: Client, a: Attempt)
    ensures var r := EnsureAuthenticated(c, a);
      (r.outcome == Hangs <==> Blocks(c, a)) && KeepsLockIfHangs(c, r.client, r.outcome)
  {
    AuthenticateReleases(c, a.login, a.setup, a.now);
    RefreshHangs(c, a.refresh, a.login, a.setup, a.now);
  }

  // An operation at attempt k gets to attempt j and blocks there.
  predicate BlocksAt(c: Client, script: seq<Attempt>, k: nat, j: nat)
    requires k <= j < |script|
    decreases j - k
  {
    if k == j then Blocks(c, script[k])
    else Next(c, script, k).Some? && BlocksAt(Next(c, script, k).value, script, k + 1, j)
  }

  ghost predicate BlocksFrom(c: Client, script: seq<Attempt>, k: nat)
    requires k <= |script|
  {
    exists j :: k <= j < |script| && BlocksAt(c, script, k, j)
  }

  lemma BlocksNowOrLater(c: Client, script: seq<Attempt>, k: nat)
    requires k < |script|
    ensures BlocksFrom(c, script, k)
      <==> Blocks(c, script[k]) || (Next(c, script, k).Some? && BlocksFrom(Next(c, script, k).value, script, k + 1))
  {
    hide Next, Blocks;
    assert BlocksAt(c, script, k, k) == Blocks(c, script[k]);
    forall j | k < j < |script|
      ensures BlocksAt(c, script, k, j)
        <==> Next(c, script, k).Some? && BlocksAt(Next(c, script, k).value, script, k + 1, j)
    {
    }
    if Next(c, script, k).Some? && BlocksFrom(Next(c, script, k).value, script, k + 1) {
      var j :| k < j < |script| && BlocksAt(Next(c, script, k).value, script, k + 1, j);
      assert BlocksAt(c, script, k, j);
    }
  }

  // An operation with retries hangs, and keeps the lock, exactly when it reaches an attempt that blocks.
  lemma {:induction false} RetryHangs(c: Client, script: seq<Attempt>, k: nat, backoff: real)
    requires k <= |script|
    ensures var r := RetryFrom(c, script, k, backoff);
      (r.outcome == Hangs <==> BlocksFrom(c, script, k)) && KeepsLockIfHangs(c, r.client, r.outcome)
    decreases |script| - k
  {
    if k < |script| {
      EnsureHangs(c, script[k]);
      BlocksNowOrLater(c, script, k);
      SubmitReturns(EnsureAuthenticated(c, script[k]).client, script[k].accepted);
      hide EnsureAuthenticated, Submit, Blocks, BlocksFrom;
      if Next(c, script, k).Some? {
        RetryHangs(Next(c, script, k).value, script, k + 1, backoff);
      }
    }
  }

  lemma SubmitReturns(c: Client, accepted: bool)
    ensures Submit(c, accepted) != Hangs
  {
  }

  // How an operation ends.
  function Ends(c: Client, op: Op, backoff: real): Outcome {
    match op
    case DoAuthenticate(login, setup, now) => Authenticate(c, login, setup, now).outcome
    case DoRefresh(refresh, login, setup, now) => RefreshToken(c, refresh, login, setup, now).outcome
    case DoSubmit(script) => RetryFrom(c, script, 0, backoff).outcome
    case DoHealthCheck(attempt) => EnsureAuthenticated(c, attempt).outcome
    case DoClose(fails) => Close(c, fails).outcome
  }

  // What it takes for an operation to hang.
  ghost predicate OpBlocks(c: Client, op: Op) {
    match op
    case DoAuthenticate(_, _, _) => c.locked
    case DoRefresh(refresh, _, _, _) => c.token.Some? && (c.locked || refresh.RefreshRefused?)
    case DoSubmit(script) => BlocksFrom(c, script, 0)
    case DoHealthCheck(a) => Blocks(c, a)
    case DoClose(_) => false
  }

  // Each operation hangs exactly when it meets its condition; one that does not leaves a free lock free, and none frees
  // a held one.
  lemma OpHangs(c: Client, op: Op, backoff: real)
    ensures (Ends(c, op, backoff) == Hangs <==> OpBlocks(c, op))
      && KeepsLockIfHangs(c, Apply(c, op, backoff), Ends(c, op, backoff))
  {
    match op
    case DoAuthenticate(login, setup, now) => AuthenticateReleases(c, login, setup, now);
    case DoRefresh(refresh, login, setup, now) => RefreshHangs(c, refresh, login, setup, now);
    case DoSubmit(script) => RetryHangs(c, script, 0, backoff);
    case DoHealthCheck(a) => EnsureHangs(c, a);
    case DoClose(fails) =>
  }

  ghost predicate BlockedAt(ops: seq<Op>, backoff: real, i: nat)
    requires i < |ops|
  {
    !Exec(ops[..i], backoff).locked && OpBlocks(Exec(ops[..i], backoff), ops[i])
  }

  // Over every sequence of operations: the lock is held for ever exactly when some operation met its condition.
  lemma {:induction false} LockIsHeldIff(ops: seq<Op>, backoff: real)
    ensures Exec(ops, backoff).locked <==> exists i: nat :: i < |ops| && BlockedAt(ops, backoff, i)
  {
    if ops != [] {
      var n := |ops| - 1;
      var before := Exec(ops[..n], backoff);
      LockIsHeldIff(ops[..n], backoff);
      forall i: nat | i < n ensures BlockedAt(ops[..n], backoff, i) <==> BlockedAt(ops, backoff, i) {
        assert ops[..n][..i] == ops[..i];
      }
      assert BlockedAt(ops, backoff, n) <==> !before.locked && OpBlocks(before, ops[n]);
      OpHangs(before, ops[n], backoff);
      hide Apply, OpBlocks, Ends;
    }
  }

  // Once the lock is held by a call that hangs, it is held after any further operations, and each of them that has to
  // authenticate hangs as well.
  lemma {:induction false} DeadlockIsFinal(ops: seq<Op>, later: seq<Op>, backoff: real)
    requires Exec(ops, backoff).locked
    ensures var c := Exec(ops + later, backoff);
      c.locked && forall op :: Ends(c, op, backoff) == Hangs <==> OpBlocks(c, op)
  {
    if later == [] {
      assert ops + later == ops;
    } else {
      var init, last := later[..|later| - 1], later[|later| - 1];
      assert (ops + later)[..|ops + later| - 1] == ops + init;
      DeadlockIsFinal(ops, init, backoff);
      OpHangs(Exec(ops + init, backoff), last, backoff);
    }
    forall op {
      OpHangs(Exec(ops + later, backoff), op, backoff);
    }
    hide Apply, OpBlocks, Ends;
  }

  // ---------------------------------------------------------------- retries

  // The sleeps of attempts k to m - 1 when all of them fail; there is none after the last.
  function SleepFrom(backoff: real, m: nat, k: nat): real
    requires k <= m
  {
    if k == m then 0.0 else backoff * (Pow2(m - 1) - Pow2(k))
  }

  lemma OneSleepMore(backoff: real, p: real, q: real)
    ensures backoff * (q - 2.0 * p) + backoff * p == backoff * (q - p)
  {
  }

  lemma SleepStep(backoff: real, m: nat, k: nat)
    requires k < m
    ensures SleepFrom(backoff, m, k + 1) + (if k == m - 1 then 0.0 else Delay(backoff, k)) == SleepFrom(backoff, m, k)
  {
    assert Pow2(k + 1) == 2.0 * Pow2(k);
    OneSleepMore(backoff, Pow2(k), Pow2(m - 1));
  }

  // An operation is executed at most max_retries times. When every attempt ends in SubmissionError it is executed
  // exactly max_retries times, and the sleeps add up to backoff * (2^(m-1) - 1).
  lemma {:induction false} RetryBound(c: Client, script: seq<Attempt>, k: nat, backoff: real)
    requires k <= |script|
    ensures var r := RetryFrom(c, script, k, backoff);
      && r.executions <= |script| - k
      && (r.outcome == Threw(SubmissionError) ==>
            r.executions == |script| - k && r.slept == SleepFrom(backoff, |script|, k))
    decreases |script| - k
  {
    hide EnsureAuthenticated, Submit, FallbackToRest, Delay, SleepFrom;
    if k < |script| {
      var e := EnsureAuthenticated(c, script[k]).client;
      RetryBound(e, script, k + 1, backoff);
      RetryBound(FallbackToRest(e, script[k].restReady), script, k + 1, backoff);
      EnsureNeverSubmits(c, script[k]);
      SleepStep(backoff, |script|, k);
    } else {
      NoSleepAfterLast(backoff, k);
    }
  }

  lemma NoSleepAfterLast(backoff: real, m: nat)
    ensures SleepFrom(backoff, m, m) == 0.0
  {
  }

  lemma EnsureNeverSubmits(c: Client, a: Attempt)
    ensures EnsureAuthenticated(c, a).outcome != Threw(SubmissionError)
  {
  }

  lemma TotalSleep(c: Client, script: seq<Attempt>, backoff: real)
    requires script != [] && RetryFrom(c, script, 0, backoff).outcome == Threw(SubmissionError)
    ensures RetryFrom(c, script, 0, backoff).slept == backoff * (Pow2(|script| - 1) - 1.0)
    ensures RetryFrom(c, script, 0, backoff).executions == |script|
  {
    RetryBound(c, script, 0, backoff);
  }

  // No attempt of the script authenticates or refreshes.
  ghost predicate NoReauth(c: Client, script: seq<Attempt>) {
    c.authenticated && c.token.Some? && forall a :: a in script ==> !Expired(c.token.value, a.now)
  }

  lemma {:induction false} FallsBackOnce(c: Client, script: seq<Attempt>, k: nat, backoff: real)
    requires k <= |script| && NoReauth(c, script)
    ensures var r := RetryFrom(c, script, k, backoff);
      && r.client.token == c.token && r.client.authenticated
      && (r.client.useGrpc ==> c.useGrpc)
      && r.fallbacks <= (if c.useGrpc && !r.client.useGrpc then 1 else 0)
    decreases |script| - k
  {
    if k < |script| {
      assert script[k] in script;
      FallsBackOnce(c, script, k + 1, backoff);
      FallsBackOnce(FallbackToRest(c, script[k].restReady), script, k + 1, backoff);
    }
  }

  // The operations of a sequence of scripts, and their fallbacks in all.
  function Fallbacks(c: Client, scripts: seq<seq<Attempt>>, backoff: real): nat
    decreases |scripts|
  {
    if scripts == [] then 0
    else
      var r := RetryFrom(c, scripts[0], 0, backoff);
      r.fallbacks + Fallbacks(r.client, scripts[1..], backoff)
  }

  // Between two (re)authentications the protocol moves from gRPC to REST at most once, over any number of
  // operations, and never back.
  lemma {:induction false} OneFallback(c: Client, scripts: seq<seq<Attempt>>, backoff: real)
    requires forall script :: script in scripts ==> NoReauth(c, script)
    ensures Fallbacks(c, scripts, backoff) <= if c.useGrpc then 1 else 0
    decreases |scripts|
  {
    if scripts != [] {
      assert scripts[0] in scripts;
      FallsBackOnce(c, scripts[0], 0, backoff);
      var r := RetryFrom(c, scripts[0], 0, backoff);
      forall script | script in scripts[1..] ensures NoReauth(r.client, script) {
        assert script in scripts;
      }
      OneFallback(r.client, scripts[1..], backoff);
    }
  }
}

// The client as the object it is. Parameters stand for what the servers answer and for the clock.
module ReceiverClient {
  import State = ReceiverState
  import opened Wrappers
  import opened ReceiverState

  class ReceiverClient {
    const retryBackoff: real
    var token: Option<Token>
    var useGrpc: bool
    var grpc: Option<Grpc>
    var rest: Option<Rest>
    var authenticated: bool
    var locked: bool

    constructor (retryBackoff: real)
      ensures View() == INITIAL && this.retryBackoff == retryBackoff
    {
      this.retryBackoff := retryBackoff;
      token, useGrpc, grpc, rest, authenticated, locked := None, true, None, None, false, false;
    }

    function View(): Client
      reads this
    {
      Client(token, useGrpc, grpc, rest, authenticated, locked)
    }

    method TryGrpc(setup: Setup) returns (connected: bool)
      modifies this
      ensures token.None? ==> !connected && View() == old(View())
      ensures token.Some? ==> connected == setup.grpcUp && View() == old(View()).(
        grpc := Some(Grpc(token.value.access, setup.grpcUp)), useGrpc := old(useGrpc) || setup.grpcUp)
      ensures token == old(token)
    {
      if token.None? {
        return false;
      }
      grpc := Some(Grpc(token.value.access, setup.grpcUp));
      if setup.grpcUp {
        useGrpc := true;
      }
      return setup.grpcUp;
    }

    method FallbackToRest(restReady: bool)
      modifies this
      ensures View() == State.FallbackToRest(old(View()), restReady)
    {
      if token.Some? {
        rest := Some(Rest(token.value.access, restReady, false));
        useGrpc := false;
      }
    }

    method InitializeClients(setup: Setup) returns (o: Outcome)
      modifies this
      ensures Result(View(), o) == State.InitializeClients(old(View()), setup)
    {
      if token.None? {
        return Returned;
      }
      if grpc.Some? {
        grpc := Some(grpc.value.(connected := false));
      }
      if rest.Some? && rest.value.ready {
        rest := Some(rest.value.(closed := true));
        if setup.disconnectFails {
          return Threw(OtherError);
        }
      }
      var connected := TryGrpc(setup);
      if !connected {
        FallbackToRest(setup.restReady);
      }
      return Returned;
    }

    method Authenticate(reply: LoginReply, setup: Setup, now: int) returns (o: Outcome)
      modifies this
      ensures Result(View(), o) == State.Authenticate(old(View()), reply, setup, now)
    {
      if locked {
        return Hangs;
      }
      locked := true;
      o := Login(reply, setup, now);
      if o != Hangs {
        locked := false;
      }
    }

    // What authenticate does while it holds the lock.
    method Login(reply: LoginReply, setup: Setup, now: int) returns (o: Outcome)
      modifies this
      ensures Result(View(), o) == State.Login(old(View()), reply, setup, now)
    {
      match reply {
        case LoginUnreachable =>
          return Threw(AuthenticationError);
        case LoginRefused =>
          return Threw(AuthenticationError);
        case LoginFieldMissing =>
          return Threw(AuthenticationError);
        case LoginMalformed =>
          return Threw(OtherError);
        case LoggedIn(access, refresh, expiresIn) =>
          token := Some(Token(access, refresh, now + expiresIn));
          authenticated := true;
          o := InitializeClients(setup);
      }
    }

    method RefreshToken(reply: RefreshReply, login: LoginReply, setup: Setup, now: int) returns (o: Outcome)
      modifies this
      ensures Result(View(), o) == State.RefreshToken(old(View()), reply, login, setup, now)
    {
      if token.None? {
        return Threw(AuthenticationError);
      }
      if locked {
        return Hangs;
      }
      locked := true;
      o := Refresh(reply, login, setup, now);
      if o != Hangs {
        locked := false;
      }
    }

    // What refresh_token does while it holds the lock.
    method Refresh(reply: RefreshReply, login: LoginReply, setup: Setup, now: int) returns (o: Outcome)
      requires token.Some?
      modifies this
      ensures Result(View(), o) == State.Refresh(old(View()), reply, login, setup, now)
    {
      match reply {
        case RefreshUnreachable =>
          return Threw(AuthenticationError);
        case RefreshRefused =>
          o := Authenticate(login, setup, now);
        case RefreshMalformed =>
          return Threw(OtherError);
        case RefreshBadExpiry(access) =>
          token := Some(token.value.(access := access));
          return Threw(OtherError);
        case RefreshGranted(access, expiresIn) =>
          token := Some(token.value.(access := access));
          token := Some(token.value.(expires := now + expiresIn));
          o := InitializeClients(setup);
      }
    }

    method EnsureAuthenticated(a: Attempt) returns (o: Outcome)
      modifies this
      ensures Result(View(), o) == State.EnsureAuthenticated(old(View()), a)
    {
      if !authenticated || token.None? {
        o := Authenticate(a.login, a.setup, a.now);
      } else if Expired(token.value, a.now) {
        o := RefreshToken(a.refresh, a.login, a.setup, a.now);
      } else {
        o := Returned;
      }
    }

    method RetryWithBackoff(script: seq<Attempt>) returns (o: Outcome, executions: nat, slept: real, fallbacks: nat)
      modifies this
      ensures Retried(View(), o, executions, slept, fallbacks) == RetryFrom(old(View()), script, 0, retryBackoff)
    {
      hide State.EnsureAuthenticated, Submit, Delay;
      executions, slept, fallbacks := 0, 0.0, 0;
      for k := 0 to |script|
        invariant RetryFrom(old(View()), script, 0, retryBackoff)
          == Plus(RetryFrom(View(), script, k, retryBackoff), executions, slept, fallbacks)
      {
        o := EnsureAuthenticated(script[k]);
        if o != Returned {
          return;
        }
        executions := executions + 1;
        o := Submit(View(), script[k].accepted);
        if o != Threw(SubmissionError) {
          return;
        }
        if k < |script| - 1 {
          slept := slept + Delay(retryBackoff, k);
          if useGrpc && grpc.Some? {
            FallbackToRest(script[k].restReady);
            fallbacks := fallbacks + 1;
          }
        }
      }
      o := Threw(SubmissionError);
    }

    method Close(disconnectFails: bool) returns (o: Outcome)
      modifies this
      ensures Result(View(), o) == State.Close(old(View()), disconnectFails)
    {
      if grpc.Some? {
        grpc := Some(grpc.value.(connected := false));
      }
      if rest.Some? && rest.value.ready {
        rest := Some(rest.value.(closed := true));
        if disconnectFails {
          return Threw(OtherError);
        }
      }
      authenticated := false;
      return Returned;
    }
  }
}
