// A task that no other disturbs does what the operations say: each of them is a run of the system of tasks.
module ReceiverAlone {
  import opened Wrappers
  import opened ReceiverState
  import opened ReceiverTasks

  // The system with the submissions made on the way to it.
  datatype Trace = Trace(s: System, submitted: seq<Outcome>)

  function Traced(tr: Trace, r: Stepped): Trace {
    Trace(r.s, tr.submitted + match r.submitted case None => [] case Some(o) => [o])
  }

  function Next(tr: Trace, l: Label): Trace {
    Traced(tr, Do(tr.s, l))
  }

  function TraceFrom(tr: Trace, run: seq<Label>): Trace {
    if run == [] then tr else Next(TraceFrom(tr, run[..|run| - 1]), run[|run| - 1])
  }

  lemma {:induction false} TraceIsRun(tr: Trace, run: seq<Label>)
    ensures TraceFrom(tr, run).s == RunFrom(tr.s, run)
  {
    if run != [] {
      TraceIsRun(tr, run[..|run| - 1]);
      hide Do;
    }
  }

  lemma {:induction false} TraceConcat(tr: Trace, first: seq<Label>, second: seq<Label>)
    ensures TraceFrom(tr, first + second) == TraceFrom(TraceFrom(tr, first), second)
  {
    hide Next;
    if second == [] {
      assert first + second == first;
    } else {
      var all := first + second;
      assert all[..|all| - 1] == first + second[..|second| - 1] && all[|all| - 1] == second[|second| - 1];
      TraceConcat(tr, first, second[..|second| - 1]);
    }
  }

  lemma TraceOfOne(tr: Trace, l: Label)
    ensures TraceFrom(tr, [l]) == Next(tr, l)
  {
    assert [l][..0] == [];
  }

  // ---------------------------------------------------------------- one call

  // The answers that a call may wait for, in turn. Those that it does not wait for change nothing.
  function Answers(t: nat, login: LoginReply, refresh: RefreshReply, ch: Choice): seq<Label> {
    [LoginAnswer(t, login, ch)] + [RefreshAnswer(t, refresh, ch)] + [DisconnectDone(t, ch)] + [ConnectDone(t, ch)]
  }

  function Answered(tr: Trace, t: nat, login: LoginReply, refresh: RefreshReply, ch: Choice): Trace {
    Next(Next(Next(Next(tr, LoginAnswer(t, login, ch)), RefreshAnswer(t, refresh, ch)), DisconnectDone(t, ch)),
      ConnectDone(t, ch))
  }

  lemma AnswersTrace(tr: Trace, t: nat, login: LoginReply, refresh: RefreshReply, ch: Choice)
    ensures TraceFrom(tr, Answers(t, login, refresh, ch)) == Answered(tr, t, login, refresh, ch)
  {
    hide Next;
    var a, b, c := [LoginAnswer(t, login, ch)], [RefreshAnswer(t, refresh, ch)], [DisconnectDone(t, ch)];
    TraceOfOne(tr, a[0]);
    TraceConcat(tr, a, b);
    TraceOfOne(TraceFrom(tr, a), b[0]);
    TraceConcat(tr, a + b, c);
    TraceOfOne(TraceFrom(tr, a + b), c[0]);
    TraceConcat(tr, a + b + c, [ConnectDone(t, ch)]);
    TraceOfOne(TraceFrom(tr, a + b + c), ConnectDone(t, ch));
  }

  function SetupOf(ch: Choice): Setup {
    Setup(ch.disconnectFails, ch.grpcUp, ch.restReady)
  }

  predicate Rests(p: Phase) {
    p.Idle? || p.Sleeps? || p.WaitsForItself?
  }

  lemma NothingToAnswer(tr: Trace, t: nat, login: LoginReply, refresh: RefreshReply, ch: Choice)
    requires Rests(PhaseOf(tr.s, t))
    ensures Next(tr, LoginAnswer(t, login, ch)) == tr && Next(tr, RefreshAnswer(t, refresh, ch)) == tr
    ensures Next(tr, DisconnectDone(t, ch)) == tr && Next(tr, ConnectDone(t, ch)) == tr
  {
  }

  predicate HeldBy(s: System, t: nat) {
    s.holder == Some(t) && s.c.locked
  }

  predicate Free(s: System) {
    s.holder.None? && !s.c.locked
  }

  // The call has ended as r says: it waits for itself, has thrown, or has gone on to the submission if there is one.
  predicate Ends(was: Trace, tr: Trace, t: nat, goal: Goal, ch: Choice, r: Result) {
    && tr.s.c == r.client && tr.s.now == was.s.now
    && match r.outcome
       case Hangs => PhaseOf(tr.s, t).WaitsForItself? && HeldBy(tr.s, t) && tr.submitted == was.submitted
       case Threw(_) => PhaseOf(tr.s, t).Idle? && Free(tr.s) && tr.submitted == was.submitted
       case Returned =>
         && Free(tr.s)
         && (goal == Stop ==> PhaseOf(tr.s, t).Idle? && tr.submitted == was.submitted)
         && (goal == ThenSubmit ==>
               && tr.submitted == was.submitted + [Submit(r.client, ch.accepted)]
               && PhaseOf(tr.s, t) ==
                  if Submit(r.client, ch.accepted) == Threw(SubmissionError) && !ch.lastAttempt then Sleeps else Idle)
  }

  lemma ReturnsEnds(was: Trace, s: System, t: nat, goal: Goal, ch: Choice)
    requires HeldBy(s, t) && s.now == was.s.now
    ensures Ends(was, Traced(was, Returns(s, t, goal, ch)), t, goal, ch, Result(s.c.(locked := false), Returned))
  {
    hide Submit;
  }

  lemma CreatesEnds(was: Trace, s: System, t: nat, goal: Goal, ch: Choice)
    requires HeldBy(s, t) && s.c.token.Some? && s.now == was.s.now
    ensures Ends(was, Next(Traced(was, Creates(s, t, goal, ch)), ConnectDone(t, ch)), t, goal, ch,
              Result(SelectProtocol(s.c, SetupOf(ch)).(locked := false), Returned))
  {
    var tr := Traced(was, Creates(s, t, goal, ch));
    if ch.grpcUp {
      CreatesGrpc(was, s, t, goal, ch);
      NothingToAnswer(tr, t, LoginMalformed, RefreshMalformed, ch);
    } else {
      hide Submit, Ends;
      var rest := tr.s.(c := tr.s.c.(useGrpc := false));
      assert Next(tr, ConnectDone(t, ch)) == Traced(tr, Returns(rest, t, goal, ch));
      assert rest.c.(locked := false) == SelectProtocol(s.c, SetupOf(ch)).(locked := false);
      ReturnsEnds(tr, rest, t, goal, ch);
      hide Next, Creates, Returns, SelectProtocol;
      EndsFrom(tr, was, Next(tr, ConnectDone(t, ch)), t, goal, ch,
        Result(SelectProtocol(s.c, SetupOf(ch)).(locked := false), Returned));
    }
  }

  lemma CreatesGrpc(was: Trace, s: System, t: nat, goal: Goal, ch: Choice)
    requires HeldBy(s, t) && s.c.token.Some? && s.now == was.s.now && ch.grpcUp
    ensures var tr := Traced(was, Creates(s, t, goal, ch));
      && Ends(was, tr, t, goal, ch, Result(SelectProtocol(s.c, SetupOf(ch)).(locked := false), Returned))
      && Rests(PhaseOf(tr.s, t))
  {
    hide Submit;
    var c := s.c.(grpc := Some(Grpc(s.c.token.value.access, true)), useGrpc := true);
    assert Creates(s, t, goal, ch) == Returns(s.(c := c), t, goal, ch);
    ReturnsEnds(was, s.(c := c), t, goal, ch);
  }

  lemma InitializesEnds(was: Trace, s: System, t: nat, goal: Goal, ch: Choice)
    requires HeldBy(s, t) && s.c.token.Some? && s.now == was.s.now
    ensures Ends(was, Next(Next(Traced(was, Initializes(s, t, goal, ch)), DisconnectDone(t, ch)), ConnectDone(t, ch)),
              t, goal, ch, Released(InitializeClients(s.c, SetupOf(ch))))
  {
    hide Submit;
    var down := s.(c := s.c.(grpc := Disconnected(s.c.grpc), rest := Closed(s.c.rest)));
    var tr := Traced(was, Initializes(s, t, goal, ch));
    if s.c.rest.Some? && s.c.rest.value.ready {
      assert PhaseOf(tr.s, t) == Disconnects(goal);
      if ch.disconnectFails {
        NothingToAnswer(Next(tr, DisconnectDone(t, ch)), t, LoginMalformed, RefreshMalformed, ch);
      } else {
        CreatesEnds(tr, tr.s, t, goal, ch);
      }
    } else {
      CreatesEnds(was, down, t, goal, ch);
      CreatesSkipsDisconnect(tr, was, down, t, goal, ch);
    }
  }

  lemma CreatesSkipsDisconnect(tr: Trace, was: Trace, s: System, t: nat, goal: Goal, ch: Choice)
    requires s.c.token.Some? && tr == Traced(was, Creates(s, t, goal, ch))
    ensures Next(tr, DisconnectDone(t, ch)) == tr
  {
  }

  lemma LoginEnds(tr: Trace, t: nat, goal: Goal, login: LoginReply, refresh: RefreshReply, ch: Choice)
    requires PhaseOf(tr.s, t) == LoginPosts(goal) && HeldBy(tr.s, t)
    ensures Ends(tr, Answered(tr, t, login, refresh, ch), t, goal, ch,
              Released(Login(tr.s.c, login, SetupOf(ch), tr.s.now)))
  {
    hide Submit, InitializeClients, Initializes;
    var after := Next(tr, LoginAnswer(t, login, ch));
    if login.LoggedIn? {
      var token := Token(login.access, login.refresh, tr.s.now + login.expiresIn);
      var s := tr.s.(c := tr.s.c.(token := Some(token), authenticated := true));
      InitializesEnds(tr, s, t, goal, ch);
      InitializesSkipsRefresh(after, tr, s, t, goal, refresh, ch);
    } else {
      NothingToAnswer(after, t, login, refresh, ch);
    }
  }

  lemma InitializesSkipsRefresh(tr: Trace, was: Trace, s: System, t: nat, goal: Goal, refresh: RefreshReply, ch: Choice)
    requires s.c.token.Some? && tr == Traced(was, Initializes(s, t, goal, ch))
    ensures Next(tr, RefreshAnswer(t, refresh, ch)) == tr
  {
  }

  lemma RefreshEnds(tr: Trace, t: nat, goal: Goal, login: LoginReply, refresh: RefreshReply, ch: Choice)
    requires PhaseOf(tr.s, t) == RefreshPosts(goal) && HeldBy(tr.s, t) && tr.s.c.token.Some?
    ensures Ends(tr, Answered(tr, t, login, refresh, ch), t, goal, ch,
              Released(Refresh(tr.s.c, refresh, login, SetupOf(ch), tr.s.now)))
  {
    assert Next(tr, LoginAnswer(t, login, ch)) == tr;
    if refresh.RefreshGranted? {
      GrantedEnds(tr, t, goal, refresh, ch);
    } else {
      hide Submit, InitializeClients, Initializes;
      NothingToAnswer(Next(tr, RefreshAnswer(t, refresh, ch)), t, login, refresh, ch);
    }
  }

  lemma GrantedEnds(tr: Trace, t: nat, goal: Goal, refresh: RefreshReply, ch: Choice)
    requires PhaseOf(tr.s, t) == RefreshPosts(goal) && HeldBy(tr.s, t) && tr.s.c.token.Some? && refresh.RefreshGranted?
    ensures Ends(tr, Next(Next(Next(tr, RefreshAnswer(t, refresh, ch)), DisconnectDone(t, ch)), ConnectDone(t, ch)),
              t, goal, ch, Released(Refresh(tr.s.c, refresh, LoginMalformed, SetupOf(ch), tr.s.now)))
  {
    hide Submit, InitializeClients, Initializes, Ends;
    var token := tr.s.c.token.value.(access := refresh.access, expires := tr.s.now + refresh.expiresIn);
    var s := tr.s.(c := tr.s.c.(token := Some(token)));
    assert Next(tr, RefreshAnswer(t, refresh, ch)) == Traced(tr, Initializes(s, t, goal, ch));
    InitializesEnds(tr, s, t, goal, ch);
  }

  // authenticate and refresh_token are runs.
  lemma AuthenticateIsRun(s: System, t: nat, login: LoginReply, refresh: RefreshReply, ch: Choice)
    requires PhaseOf(s, t).Idle? && Free(s)
    ensures var tr := Trace(s, []);
      Ends(tr, TraceFrom(tr, [Start(t, CallAuthenticate, ch)] + Answers(t, login, refresh, ch)), t, Stop, ch,
        Authenticate(s.c, login, SetupOf(ch), s.now))
  {
    hide Login, Ends;
    var tr := Trace(s, []);
    TraceOfOne(tr, Start(t, CallAuthenticate, ch));
    TraceConcat(tr, [Start(t, CallAuthenticate, ch)], Answers(t, login, refresh, ch));
    var started := Next(tr, Start(t, CallAuthenticate, ch));
    AnswersTrace(started, t, login, refresh, ch);
    LoginEnds(started, t, Stop, login, refresh, ch);
    EndsFrom(started, tr, Answered(started, t, login, refresh, ch), t, Stop, ch,
      Authenticate(s.c, login, SetupOf(ch), s.now));
  }

  lemma EndsFrom(started: Trace, was: Trace, tr: Trace, t: nat, goal: Goal, ch: Choice, r: Result)
    requires started.submitted == was.submitted && started.s.now == was.s.now && Ends(started, tr, t, goal, ch, r)
    ensures Ends(was, tr, t, goal, ch, r)
  {
  }

  lemma RefreshIsRun(s: System, t: nat, login: LoginReply, refresh: RefreshReply, ch: Choice)
    requires PhaseOf(s, t).Idle? && Free(s)
    ensures var tr := Trace(s, []);
      Ends(tr, TraceFrom(tr, [Start(t, CallRefresh, ch)] + Answers(t, login, refresh, ch)), t, Stop, ch,
        RefreshToken(s.c, refresh, login, SetupOf(ch), s.now))
  {
    hide Refresh;
    var tr := Trace(s, []);
    TraceOfOne(tr, Start(t, CallRefresh, ch));
    TraceConcat(tr, [Start(t, CallRefresh, ch)], Answers(t, login, refresh, ch));
    var started := Next(tr, Start(t, CallRefresh, ch));
    AnswersTrace(started, t, login, refresh, ch);
    if s.c.token.None? {
      NothingToAnswer(started, t, login, refresh, ch);
    } else {
      RefreshEnds(started, t, Stop, login, refresh, ch);
    }
  }

  // So is close.
  lemma CloseIsRun(s: System, t: nat, ch: Choice)
    requires PhaseOf(s, t).Idle? && Free(s)
    ensures var u, r := RunFrom(s, [Start(t, CallClose, ch)] + [DisconnectDone(t, ch)]), Close(s.c, ch.disconnectFails);
      u.c == r.client && u.now == s.now && PhaseOf(u, t).Idle? && Free(u)
  {
    assert [Start(t, CallClose, ch)][..0] == [];
    ThenFrom(s, [], Start(t, CallClose, ch));
    ThenFrom(s, [Start(t, CallClose, ch)], DisconnectDone(t, ch));
  }

  // ---------------------------------------------------------------- a submission with its retries

  function ChoiceOf(script: seq<Attempt>, k: nat): Choice
    requires k < |script|
  {
    var a := script[k];
    Choice(a.setup.grpcUp, a.setup.restReady, a.setup.disconnectFails, a.accepted, k == |script| - 1)
  }

  function AnswersTo(t: nat, script: seq<Attempt>, k: nat): seq<Label>
    requires k < |script|
  {
    Answers(t, script[k].login, script[k].refresh, ChoiceOf(script, k))
  }

  // After the sleep of attempt k - 1: the fallback, if there is one, and attempt k.
  function Resumed(t: nat, script: seq<Attempt>, k: nat): seq<Label>
    requires 0 < k < |script|
  {
    [Tick(Pause(script, k))] + [Wake(t, FallbackChoice(script, k))] + [ConnectDone(t, ChoiceOf(script, k))]
    + AnswersTo(t, script, k)
  }

  function Pause(script: seq<Attempt>, k: nat): nat
    requires 0 < k < |script|
  {
    if script[k].now < script[k - 1].now then 0 else script[k].now - script[k - 1].now
  }

  function FallbackChoice(script: seq<Attempt>, k: nat): Choice
    requires 0 < k < |script|
  {
    ChoiceOf(script, k).(restReady := script[k - 1].restReady)
  }

  function ResumedFrom(t: nat, script: seq<Attempt>, k: nat): seq<Label>
    requires 0 < k <= |script|
    decreases |script| - k
  {
    if k == |script| then [] else Resumed(t, script, k) + ResumedFrom(t, script, k + 1)
  }

  function Submission(t: nat, script: seq<Attempt>): seq<Label>
    requires script != []
  {
    [Start(t, CallSubmit, ChoiceOf(script, 0))] + AnswersTo(t, script, 0) + ResumedFrom(t, script, 1)
  }

  predicate LogsIn(c: Client) {
    !c.authenticated || c.token.None?
  }

  lemma AttemptLogsIn(was: Trace, s: System, t: nat, a: Attempt, ch: Choice, c: Choice)
    requires Free(s) && s.now == was.s.now == a.now && LogsIn(s.c) && SetupOf(c) == a.setup
    ensures var tr := Traced(was, Attempts(s, t, ch));
      && Ends(was, Answered(tr, t, a.login, a.refresh, c), t, ThenSubmit, c, EnsureAuthenticated(s.c, a))
      && Next(tr, ConnectDone(t, c)) == tr
  {
    hide Login, Ends, Answered;
    var tr := Traced(was, Attempts(s, t, ch));
    LoginEnds(tr, t, ThenSubmit, a.login, a.refresh, c);
    EndsFrom(tr, was, Answered(tr, t, a.login, a.refresh, c), t, ThenSubmit, c, EnsureAuthenticated(s.c, a));
  }

  lemma AttemptRefreshes(was: Trace, s: System, t: nat, a: Attempt, ch: Choice, c: Choice)
    requires Free(s) && s.now == was.s.now == a.now && !LogsIn(s.c) && Expired(s.c.token.value, a.now)
    requires SetupOf(c) == a.setup
    ensures var tr := Traced(was, Attempts(s, t, ch));
      && Ends(was, Answered(tr, t, a.login, a.refresh, c), t, ThenSubmit, c, EnsureAuthenticated(s.c, a))
      && Next(tr, ConnectDone(t, c)) == tr
  {
    hide Refresh, Ends, Answered, Expired;
    var tr := Traced(was, Attempts(s, t, ch));
    RefreshEnds(tr, t, ThenSubmit, a.login, a.refresh, c);
    EndsFrom(tr, was, Answered(tr, t, a.login, a.refresh, c), t, ThenSubmit, c, EnsureAuthenticated(s.c, a));
  }

  lemma AttemptSubmits(was: Trace, s: System, t: nat, a: Attempt, ch: Choice, c: Choice)
    requires Free(s) && s.now == was.s.now == a.now && !LogsIn(s.c) && !Expired(s.c.token.value, a.now)
    requires ch.accepted == c.accepted && ch.lastAttempt == c.lastAttempt
    ensures var tr := Traced(was, Attempts(s, t, ch));
      && Ends(was, Answered(tr, t, a.login, a.refresh, c), t, ThenSubmit, c, EnsureAuthenticated(s.c, a))
      && Next(tr, ConnectDone(t, c)) == tr
  {
    hide Submit, Expired, Next;
    var tr := Traced(was, Attempts(s, t, ch));
    NothingToAnswer(tr, t, a.login, a.refresh, c);
  }

  // One attempt, from _ensure_authenticated to the submission, whether or not it has to wait.
  lemma AttemptEnds(was: Trace, s: System, t: nat, script: seq<Attempt>, k: nat, ch: Choice)
    requires k < |script| && Free(s) && s.now == was.s.now == script[k].now
    requires ch.accepted == script[k].accepted && ch.lastAttempt == (k == |script| - 1)
    ensures var tr := Traced(was, Attempts(s, t, ch));
      && Ends(was, TraceFrom(tr, AnswersTo(t, script, k)), t, ThenSubmit, ChoiceOf(script, k),
           EnsureAuthenticated(s.c, script[k]))
      && Next(tr, ConnectDone(t, ChoiceOf(script, k))) == tr
  {
    hide Attempts, Ends, EnsureAuthenticated, Next, Answered, Expired;
    var a, c := script[k], ChoiceOf(script, k);
    AnswersTrace(Traced(was, Attempts(s, t, ch)), t, a.login, a.refresh, c);
    if LogsIn(s.c) {
      AttemptLogsIn(was, s, t, a, ch, c);
    } else if Expired(s.c.token.value, a.now) {
      AttemptRefreshes(was, s, t, a, ch, c);
    } else {
      AttemptSubmits(was, s, t, a, ch, c);
    }
  }

  lemma FirstAttempt(tr: Trace, t: nat, script: seq<Attempt>)
    requires script != [] && PhaseOf(tr.s, t).Idle? && Free(tr.s) && tr.s.now == script[0].now
    ensures Ends(tr, TraceFrom(tr, [Start(t, CallSubmit, ChoiceOf(script, 0))] + AnswersTo(t, script, 0)), t,
              ThenSubmit, ChoiceOf(script, 0), EnsureAuthenticated(tr.s.c, script[0]))
  {
    var start := Start(t, CallSubmit, ChoiceOf(script, 0));
    TraceOfOne(tr, start);
    TraceConcat(tr, [start], AnswersTo(t, script, 0));
    assert Next(tr, start) == Traced(tr, Attempts(tr.s, t, ChoiceOf(script, 0)));
    hide Next, Attempts, Ends, EnsureAuthenticated;
    AttemptEnds(tr, tr.s, t, script, 0, ChoiceOf(script, 0));
  }

  // The client with which attempt k starts.
  function AfterSleep(c: Client, script: seq<Attempt>, k: nat): Client
    requires 0 < k < |script|
  {
    if c.useGrpc && c.grpc.Some? then FallbackToRest(c, script[k - 1].restReady) else c
  }

  lemma NextAttempt(tr: Trace, t: nat, script: seq<Attempt>, k: nat)
    requires 0 < k < |script| && PhaseOf(tr.s, t).Sleeps? && Free(tr.s)
    requires tr.s.now == script[k - 1].now <= script[k].now
    ensures Ends(Trace(tr.s.(now := script[k].now), tr.submitted), TraceFrom(tr, Resumed(t, script, k)), t, ThenSubmit,
              ChoiceOf(script, k), EnsureAuthenticated(AfterSleep(tr.s.c, script, k), script[k]))
  {
    var ticked := Next(tr, Tick(Pause(script, k)));
    assert ticked == Trace(tr.s.(now := script[k].now), tr.submitted);
    ResumedTrace(tr, t, script, k);
    WakeStarts(ticked, t, script, k);
    hide *;
  }

  lemma ResumedTrace(tr: Trace, t: nat, script: seq<Attempt>, k: nat)
    requires 0 < k < |script|
    ensures TraceFrom(tr, Resumed(t, script, k)) ==
      var woken := Next(Next(tr, Tick(Pause(script, k))), Wake(t, FallbackChoice(script, k)));
      TraceFrom(Next(woken, ConnectDone(t, ChoiceOf(script, k))), AnswersTo(t, script, k))
  {
    hide Next, AnswersTo, Pause, FallbackChoice, ChoiceOf, TraceFrom;
    var a, b := [Tick(Pause(script, k))], [Wake(t, FallbackChoice(script, k))];
    var d, e := [ConnectDone(t, ChoiceOf(script, k))], AnswersTo(t, script, k);
    TraceOfOne(tr, a[0]);
    TraceConcat(tr, a, b);
    TraceOfOne(TraceFrom(tr, a), b[0]);
    TraceConcat(tr, a + b, d);
    TraceOfOne(TraceFrom(tr, a + b), d[0]);
    TraceConcat(tr, a + b + d, e);
  }

  lemma WakeStarts(tr: Trace, t: nat, script: seq<Attempt>, k: nat)
    requires 0 < k < |script| && PhaseOf(tr.s, t).Sleeps? && Free(tr.s) && tr.s.now == script[k].now
    ensures var c := ChoiceOf(script, k);
      var woken := Next(tr, Wake(t, FallbackChoice(script, k)));
      Ends(tr, TraceFrom(Next(woken, ConnectDone(t, c)), AnswersTo(t, script, k)), t, ThenSubmit, c,
        EnsureAuthenticated(AfterSleep(tr.s.c, script, k), script[k]))
  {
    hide Attempts, Ends, EnsureAuthenticated, Expired, AnswersTo;
    var c := ChoiceOf(script, k);
    var ch := FallbackChoice(script, k);
    var woken := Next(tr, Wake(t, ch));
    if tr.s.c.useGrpc && tr.s.c.grpc.Some? && tr.s.c.token.Some? {
      var s := woken.s.(c := woken.s.c.(useGrpc := false));
      assert Next(woken, ConnectDone(t, c)) == Traced(woken, Attempts(s, t, c));
      AttemptEnds(woken, s, t, script, k, c);
      EndsFrom(woken, tr, TraceFrom(Next(woken, ConnectDone(t, c)), AnswersTo(t, script, k)), t, ThenSubmit, c,
        EnsureAuthenticated(AfterSleep(tr.s.c, script, k), script[k]));
    } else {
      assert woken == Traced(tr, Attempts(tr.s, t, ch));
      AttemptEnds(tr, tr.s, t, script, k, ch);
    }
  }

  // A call that has ended is not changed by what is left of the script.
  lemma {:induction false} EndedStays(tr: Trace, t: nat, script: seq<Attempt>, k: nat)
    requires 0 < k <= |script| && (PhaseOf(tr.s, t).Idle? || PhaseOf(tr.s, t).WaitsForItself?)
    ensures var u := TraceFrom(tr, ResumedFrom(t, script, k));
      u.s == tr.s.(now := u.s.now) && u.submitted == tr.submitted
    decreases |script| - k
  {
    if k < |script| {
      var u := TraceFrom(tr, Resumed(t, script, k));
      TraceConcat(tr, Resumed(t, script, k), ResumedFrom(t, script, k + 1));
      ResumedStays(tr, t, script, k);
      EndedStays(u, t, script, k + 1);
      hide Resumed, TraceFrom;
    }
  }

  lemma ResumedStays(tr: Trace, t: nat, script: seq<Attempt>, k: nat)
    requires 0 < k < |script| && (PhaseOf(tr.s, t).Idle? || PhaseOf(tr.s, t).WaitsForItself?)
    ensures var u := TraceFrom(tr, Resumed(t, script, k)); u.s == tr.s.(now := u.s.now) && u.submitted == tr.submitted
  {
    var c := ChoiceOf(script, k);
    var ticked := Next(tr, Tick(Pause(script, k)));
    assert Next(ticked, Wake(t, FallbackChoice(script, k))) == ticked;
    NothingToAnswer(ticked, t, script[k].login, script[k].refresh, c);
    assert ticked.s == tr.s.(now := ticked.s.now) && ticked.submitted == tr.submitted;
    hide Next, ChoiceOf, FallbackChoice, Pause;
    ResumedTrace(tr, t, script, k);
    AnswersTrace(ticked, t, script[k].login, script[k].refresh, c);
  }

  // ... of the submissions made, the last is the operation's outcome, unless it ended in a call for a token.
  predicate Tells(submitted: seq<Outcome>, o: Outcome) {
    o == Returned <==> submitted != [] && submitted[|submitted| - 1] == Returned
  }

  // The run has done what the operation does: the same client, as many submissions, and the same end.
  predicate Does(was: Trace, tr: Trace, t: nat, r: Retried) {
    && tr.s.c == r.client && |tr.submitted| == |was.submitted| + r.executions
    && (if r.outcome == Hangs then PhaseOf(tr.s, t).WaitsForItself? && HeldBy(tr.s, t)
        else PhaseOf(tr.s, t).Idle? && Free(tr.s))
    && Tells(tr.submitted, r.outcome)
  }

  ghost predicate Chronological(script: seq<Attempt>) {
    forall i :: 0 < i < |script| ==> script[i - 1].now <= script[i].now
  }

  // Attempt k is followed by another.
  predicate Repeats(c: Client, script: seq<Attempt>, k: nat)
    requires k < |script|
  {
    var ensured := EnsureAuthenticated(c, script[k]);
    ensured.outcome == Returned && Submit(ensured.client, script[k].accepted) == Threw(SubmissionError)
    && k < |script| - 1
  }

  lemma RetryRepeats(c: Client, script: seq<Attempt>, k: nat, backoff: real)
    requires k < |script| && Repeats(c, script, k)
    ensures var next := AfterSleep(EnsureAuthenticated(c, script[k]).client, script, k + 1);
      var r, rest := RetryFrom(c, script, k, backoff), RetryFrom(next, script, k + 1, backoff);
      r.client == rest.client && r.outcome == rest.outcome && r.executions == rest.executions + 1
  {
    hide EnsureAuthenticated, Submit, FallbackToRest, Delay;
  }

  lemma AttemptSleeps(was: Trace, tr: Trace, t: nat, script: seq<Attempt>, k: nat, c: Client)
    requires k < |script| && Repeats(c, script, k)
    requires Ends(was, tr, t, ThenSubmit, ChoiceOf(script, k), EnsureAuthenticated(c, script[k]))
    ensures PhaseOf(tr.s, t).Sleeps? && Free(tr.s) && tr.s.c == EnsureAuthenticated(c, script[k]).client
    ensures tr.submitted == was.submitted + [Threw(SubmissionError)]
  {
    hide EnsureAuthenticated, Submit;
  }

  lemma AttemptIsLast(was: Trace, tr: Trace, t: nat, script: seq<Attempt>, k: nat, c: Client, backoff: real)
    requires k < |script| && !Repeats(c, script, k) && Tells(was.submitted, Hangs)
    requires Ends(was, tr, t, ThenSubmit, ChoiceOf(script, k), EnsureAuthenticated(c, script[k]))
    ensures Does(was, tr, t, RetryFrom(c, script, k, backoff))
    ensures PhaseOf(tr.s, t).Idle? || PhaseOf(tr.s, t).WaitsForItself?
  {
    RetryEnds(c, script, k, backoff);
    SubmitNeverHangs(EnsureAuthenticated(c, script[k]).client, script[k].accepted);
    hide EnsureAuthenticated, Submit, RetryFrom;
  }

  lemma SubmitNeverHangs(c: Client, accepted: bool)
    ensures Submit(c, accepted) != Hangs
  {
  }

  lemma RetryEnds(c: Client, script: seq<Attempt>, k: nat, backoff: real)
    requires k < |script| && !Repeats(c, script, k)
    ensures var ensured, r := EnsureAuthenticated(c, script[k]), RetryFrom(c, script, k, backoff);
      && r.client == ensured.client && r.executions == (if ensured.outcome == Returned then 1 else 0)
      && r.outcome == if ensured.outcome == Returned then Submit(r.client, script[k].accepted) else ensured.outcome
  {
    hide EnsureAuthenticated, Submit, FallbackToRest, Delay;
  }

  // From the end of attempt k on.
  lemma {:induction false} AttemptGoesOn(was: Trace, tr: Trace, t: nat, script: seq<Attempt>, k: nat, c: Client,
      backoff: real)
    requires k < |script| && Chronological(script) && tr.s.now == script[k].now && Tells(was.submitted, Hangs)
    requires Ends(was, tr, t, ThenSubmit, ChoiceOf(script, k), EnsureAuthenticated(c, script[k]))
    ensures Does(was, TraceFrom(tr, ResumedFrom(t, script, k + 1)), t, RetryFrom(c, script, k, backoff))
    decreases |script| - k
  {
    hide EnsureAuthenticated, Submit, Resumed, TraceFrom, AfterSleep, ChoiceOf, RetryFrom, Repeats, Ends, Does, PhaseOf;
    if Repeats(c, script, k) {
      AttemptSleeps(was, tr, t, script, k, c);
      RetryRepeats(c, script, k, backoff);
      RepeatsBeforeLast(c, script, k);
      var next := Trace(tr.s.(now := script[k + 1].now), tr.submitted);
      var resumed := TraceFrom(tr, Resumed(t, script, k + 1));
      NextAttempt(tr, t, script, k + 1);
      EndsKeepsTime(next, resumed, t, ThenSubmit, ChoiceOf(script, k + 1),
        EnsureAuthenticated(AfterSleep(tr.s.c, script, k + 1), script[k + 1]));
      TraceConcat(tr, Resumed(t, script, k + 1), ResumedFrom(t, script, k + 2));
      AttemptGoesOn(next, resumed, t, script, k + 1, AfterSleep(tr.s.c, script, k + 1), backoff);
      DoesOneMore(was, next, TraceFrom(resumed, ResumedFrom(t, script, k + 2)), t,
        RetryFrom(AfterSleep(tr.s.c, script, k + 1), script, k + 1, backoff), RetryFrom(c, script, k, backoff));
    } else {
      AttemptIsLast(was, tr, t, script, k, c, backoff);
      EndedStays(tr, t, script, k + 1);
      DoesLater(was, tr, TraceFrom(tr, ResumedFrom(t, script, k + 1)), t, RetryFrom(c, script, k, backoff));
    }
  }

  lemma RepeatsBeforeLast(c: Client, script: seq<Attempt>, k: nat)
    requires k < |script| && Repeats(c, script, k)
    ensures k < |script| - 1
  {
  }

  lemma EndsKeepsTime(was: Trace, tr: Trace, t: nat, goal: Goal, ch: Choice, r: Result)
    requires Ends(was, tr, t, goal, ch, r)
    ensures tr.s.now == was.s.now
  {
  }

  lemma DoesOneMore(was: Trace, next: Trace, tr: Trace, t: nat, rest: Retried, r: Retried)
    requires Does(next, tr, t, rest) && |next.submitted| == |was.submitted| + 1
    requires r.client == rest.client && r.outcome == rest.outcome && r.executions == rest.executions + 1
    ensures Does(was, tr, t, r)
  {
  }

  lemma DoesLater(was: Trace, tr: Trace, later: Trace, t: nat, r: Retried)
    requires Does(was, tr, t, r) && later.s == tr.s.(now := later.s.now) && later.submitted == tr.submitted
    ensures Does(was, later, t, r)
  {
  }

  // A submission with all its retries is a run: the same client at the end, the same number of submissions, and the
  // same outcome.
  lemma SubmissionIsRun(s: System, t: nat, script: seq<Attempt>, backoff: real)
    requires PhaseOf(s, t).Idle? && Free(s) && script != [] && Chronological(script) && s.now == script[0].now
    ensures Does(Trace(s, []), TraceFrom(Trace(s, []), Submission(t, script)), t, RetryFrom(s.c, script, 0, backoff))
  {
    hide Ends, TraceFrom, EnsureAuthenticated, RetryFrom, Does;
    var first := [Start(t, CallSubmit, ChoiceOf(script, 0))] + AnswersTo(t, script, 0);
    FirstAttempt(Trace(s, []), t, script);
    EndsKeepsTime(Trace(s, []), TraceFrom(Trace(s, []), first), t, ThenSubmit, ChoiceOf(script, 0),
      EnsureAuthenticated(s.c, script[0]));
    TraceConcat(Trace(s, []), first, ResumedFrom(t, script, 1));
    AttemptGoesOn(Trace(s, []), TraceFrom(Trace(s, []), first), t, script, 0, s.c, backoff);
  }
}
