// Any number of tasks that share one receiver client, interleaved wherever a task waits. A label runs one task from
// one wait to the next; a label that is not enabled leaves the system as it is.
module ReceiverTasks {
  import opened Wrappers
  import opened ReceiverState

  // What a task does once it is authenticated.
  datatype Goal = Stop | ThenSubmit

  // What a task waits for. The phases from LoginPosts to WaitsForItself hold the lock.
  datatype Phase =
    | Idle
    | LoginWaits(goal: Goal)      // authenticate, for the lock
    | RefreshWaits(goal: Goal)    // refresh_token, for the lock
    | LoginPosts(goal: Goal)      // for the answer to the login
    | RefreshPosts(goal: Goal)    // for the answer to the refresh
    | Disconnects(goal: Goal)     // for the old REST client to close
    | Connects(goal: Goal)        // for the new REST client to connect
    | WaitsForItself(goal: Goal)  // authenticate called from refresh_token, for the lock
    | Sleeps                      // before the next attempt
    | FallsBack                   // for the REST client of a fallback to connect
    | Closes                      // close, for the REST client to close

  datatype System = System(c: Client, holder: Option<nat>, tasks: map<nat, Phase>, now: int)

  // The choices of the environment in one step.
  datatype Choice = Choice(grpcUp: bool, restReady: bool, disconnectFails: bool, accepted: bool, lastAttempt: bool)

  datatype Call = CallAuthenticate | CallRefresh | CallSubmit | CallClose

  datatype Label =
    | Tick(seconds: nat)
    | Start(t: nat, call: Call, ch: Choice)
    | Acquire(t: nat)
    | LoginAnswer(t: nat, login: LoginReply, ch: Choice)
    | RefreshAnswer(t: nat, refresh: RefreshReply, ch: Choice)
    | DisconnectDone(t: nat, ch: Choice)
    | ConnectDone(t: nat, ch: Choice)
    | Wake(t: nat, ch: Choice)

  const START := System(INITIAL, None, map[], 0)

  // A step, and how the submission in it ended if there is one.
  datatype Stepped = Stepped(s: System, submitted: Option<Outcome>)

  function PhaseOf(s: System, t: nat): Phase {
    if t in s.tasks then s.tasks[t] else Idle
  }

  function Moved(s: System, t: nat, p: Phase): System {
    s.(tasks := s.tasks[t := p])
  }

  function Quietly(s: System): Stepped {
    Stepped(s, None)
  }

  // ---------------------------------------------------------------- between two waits

  function SubmitNow(s: System, t: nat, ch: Choice): Stepped {
    var o := Submit(s.c, ch.accepted);
    Stepped(Moved(s, t, if o == Threw(SubmissionError) && !ch.lastAttempt then Sleeps else Idle), Some(o))
  }

  function Locked(s: System, t: nat): System {
    s.(c := s.c.(locked := true), holder := Some(t))
  }

  function Unlocked(s: System): System {
    s.(c := s.c.(locked := false), holder := None)
  }

  // Leaving the lock's block with an exception, and by returning.
  function Throws(s: System, t: nat): Stepped {
    Quietly(Moved(Unlocked(s), t, Idle))
  }

  function Returns(s: System, t: nat, goal: Goal, ch: Choice): Stepped {
    if goal == ThenSubmit then SubmitNow(Unlocked(s), t, ch) else Quietly(Moved(Unlocked(s), t, Idle))
  }

  // Taking the lock waits only if it is held.
  function EntersLogin(s: System, t: nat, goal: Goal): System {
    if s.holder.None? then Moved(Locked(s, t), t, LoginPosts(goal)) else Moved(s, t, LoginWaits(goal))
  }

  function EntersRefresh(s: System, t: nat, goal: Goal): System {
    if s.holder.None? then Moved(Locked(s, t), t, RefreshPosts(goal)) else Moved(s, t, RefreshWaits(goal))
  }

  // _ensure_authenticated, and the submission if it does not have to wait
  function Attempts(s: System, t: nat, ch: Choice): Stepped {
    if !s.c.authenticated || s.c.token.None? then Quietly(EntersLogin(s, t, ThenSubmit))
    else if Expired(s.c.token.value, s.now) then Quietly(EntersRefresh(s, t, ThenSubmit))
    else SubmitNow(s, t, ch)
  }

  // _initialize_clients up to the wait for the old REST client, and from there on
  function Initializes(s: System, t: nat, goal: Goal, ch: Choice): Stepped
    requires s.c.token.Some?
  {
    var down := s.(c := s.c.(grpc := Disconnected(s.c.grpc), rest := Closed(s.c.rest)));
    if s.c.rest.Some? && s.c.rest.value.ready then Quietly(Moved(down, t, Disconnects(goal)))
    else Creates(down, t, goal, ch)
  }

  function Creates(s: System, t: nat, goal: Goal, ch: Choice): Stepped
    requires s.c.token.Some?
  {
    var access := s.c.token.value.access;
    var tried := s.c.(grpc := Some(Grpc(access, ch.grpcUp)));
    if ch.grpcUp then Returns(s.(c := tried.(useGrpc := true)), t, goal, ch)
    else Quietly(Moved(s.(c := tried.(rest := Some(Rest(access, ch.restReady, false)))), t, Connects(goal)))
  }

  function Starts(s: System, t: nat, call: Call, ch: Choice): Stepped {
    match call
    case CallAuthenticate => Quietly(EntersLogin(s, t, Stop))
    case CallRefresh => Quietly(if s.c.token.None? then s else EntersRefresh(s, t, Stop))
    case CallSubmit => Attempts(s, t, ch)
    case CallClose => Quietly(EntersClose(s, t))
  }

  // close up to the wait for the REST client
  function EntersClose(s: System, t: nat): System {
    var down := s.(c := s.c.(grpc := Disconnected(s.c.grpc), rest := Closed(s.c.rest)));
    if s.c.rest.Some? && s.c.rest.value.ready then Moved(down, t, Closes)
    else down.(c := down.c.(authenticated := false))
  }

  function AfterLogin(s: System, t: nat, goal: Goal, login: LoginReply, ch: Choice): Stepped {
    if login.LoggedIn? then
      var token := Token(login.access, login.refresh, s.now + login.expiresIn);
      Initializes(s.(c := s.c.(token := Some(token), authenticated := true)), t, goal, ch)
    else Throws(s, t)
  }

  function AfterRefresh(s: System, t: nat, goal: Goal, refresh: RefreshReply, ch: Choice): Stepped
    requires s.c.token.Some?
  {
    var token := s.c.token.value;
    match refresh
    case RefreshRefused => Quietly(Moved(s, t, WaitsForItself(goal)))
    case RefreshBadExpiry(access) => Throws(s.(c := s.c.(token := Some(token.(access := access)))), t)
    case RefreshGranted(access, expiresIn) =>
      Initializes(s.(c := s.c.(token := Some(token.(access := access, expires := s.now + expiresIn)))), t, goal, ch)
    case _ => Throws(s, t)
  }

  // After the sleep: the fallback, if gRPC is selected, and the next attempt.
  function Wakes(s: System, t: nat, ch: Choice): Stepped {
    if s.c.useGrpc && s.c.grpc.Some? && s.c.token.Some? then
      Quietly(Moved(s.(c := s.c.(rest := Some(Rest(s.c.token.value.access, ch.restReady, false)))), t, FallsBack))
    else Attempts(s, t, ch)
  }

  function Do(s: System, l: Label): Stepped {
    match l
    case Tick(seconds) => Quietly(s.(now := s.now + seconds))
    case Start(t, call, ch) => if PhaseOf(s, t).Idle? then Starts(s, t, call, ch) else Quietly(s)
    case Acquire(t) =>
      if s.holder.Some? then Quietly(s)
      else if PhaseOf(s, t).LoginWaits? then Quietly(Moved(Locked(s, t), t, LoginPosts(PhaseOf(s, t).goal)))
      else if PhaseOf(s, t).RefreshWaits? then Quietly(Moved(Locked(s, t), t, RefreshPosts(PhaseOf(s, t).goal)))
      else if PhaseOf(s, t).WaitsForItself? then Quietly(Moved(Locked(s, t), t, LoginPosts(PhaseOf(s, t).goal)))
      else Quietly(s)
    case LoginAnswer(t, login, ch) =>
      if PhaseOf(s, t).LoginPosts? then AfterLogin(s, t, PhaseOf(s, t).goal, login, ch) else Quietly(s)
    case RefreshAnswer(t, refresh, ch) =>
      if PhaseOf(s, t).RefreshPosts? && s.c.token.Some? then AfterRefresh(s, t, PhaseOf(s, t).goal, refresh, ch)
      else Quietly(s)
    case DisconnectDone(t, ch) =>
      var p := PhaseOf(s, t);
      if p.Disconnects? && s.c.token.Some? then
        if ch.disconnectFails then Throws(s, t) else Creates(s, t, p.goal, ch)
      else if p.Closes? then
        Quietly(Moved(if ch.disconnectFails then s else s.(c := s.c.(authenticated := false)), t, Idle))
      else Quietly(s)
    case ConnectDone(t, ch) =>
      var p := PhaseOf(s, t);
      if p.Connects? then Returns(s.(c := s.c.(useGrpc := false)), t, p.goal, ch)
      else if p.FallsBack? then Attempts(s.(c := s.c.(useGrpc := false)), t, ch)
      else Quietly(s)
    case Wake(t, ch) => if PhaseOf(s, t).Sleeps? then Wakes(s, t, ch) else Quietly(s)
  }

  function Step(s: System, l: Label): System {
    Do(s, l).s
  }

  function RunFrom(s: System, run: seq<Label>): System {
    if run == [] then s else Step(RunFrom(s, run[..|run| - 1]), run[|run| - 1])
  }

  function Run(run: seq<Label>): System {
    RunFrom(START, run)
  }

  lemma ThenFrom(s: System, run: seq<Label>, l: Label)
    ensures RunFrom(s, run + [l]) == Step(RunFrom(s, run), l)
  {
    assert (run + [l])[..|run|] == run;
  }

  lemma Then(run: seq<Label>, l: Label)
    ensures Run(run + [l]) == Step(Run(run), l)
  {
    ThenFrom(START, run, l);
  }

  // ---------------------------------------------------------------- the lock

  predicate Holds(p: Phase) {
    p.LoginPosts? || p.RefreshPosts? || p.Disconnects? || p.Connects? || p.WaitsForItself?
  }

  // The lock is held by exactly the one task whose phase says so.
  ghost predicate OneHolder(s: System) {
    && (s.c.locked <==> s.holder.Some?)
    && forall t: nat :: Holds(PhaseOf(s, t)) <==> s.holder == Some(t)
  }

  // The task moves, if it does, and the lock with it.
  predicate HandsOver(s: System, t: nat, u: System) {
    var p := PhaseOf(u, t);
    && (u.tasks == s.tasks || u.tasks == s.tasks[t := p])
    && (u.c.locked <==> u.holder.Some?)
    && if Holds(p) then (s.holder.None? || s.holder == Some(t)) && u.holder == Some(t)
       else u.holder == if Holds(PhaseOf(s, t)) then None else s.holder
  }

  lemma HandedOver(s: System, t: nat, u: System)
    requires OneHolder(s) && HandsOver(s, t, u)
    ensures OneHolder(u)
  {
    forall v: nat ensures Holds(PhaseOf(u, v)) <==> u.holder == Some(v) {
      assert v != t ==> PhaseOf(u, v) == PhaseOf(s, v);
      assert Holds(PhaseOf(s, v)) <==> s.holder == Some(v);
      assert Holds(PhaseOf(s, t)) <==> s.holder == Some(t);
    }
  }

  lemma StepKeepsOneHolder(s: System, l: Label)
    requires OneHolder(s)
    ensures OneHolder(Step(s, l))
  {
    if l.Tick? {
      assert forall t: nat :: PhaseOf(Step(s, l), t) == PhaseOf(s, t);
    } else {
      assert Holds(PhaseOf(s, l.t)) <==> s.holder == Some(l.t);
      StepHandsOver(s, l);
      HandedOver(s, l.t, Step(s, l));
    }
  }

  // What a step may assume of its task and the lock.
  predicate Agrees(s: System, t: nat) {
    (s.c.locked <==> s.holder.Some?) && (Holds(PhaseOf(s, t)) <==> s.holder == Some(t))
  }

  lemma FreeTaskHandsOver(s: System, t: nat, ch: Choice)
    requires Agrees(s, t) && !Holds(PhaseOf(s, t))
    ensures HandsOver(s, t, Attempts(s, t, ch).s)
    ensures HandsOver(s, t, EntersLogin(s, t, Stop)) && HandsOver(s, t, EntersRefresh(s, t, Stop))
  {
    hide Submit, Expired;
  }

  lemma HolderHandsOver(s: System, t: nat, goal: Goal, ch: Choice)
    requires Agrees(s, t) && Holds(PhaseOf(s, t))
    ensures HandsOver(s, t, Throws(s, t).s) && HandsOver(s, t, Returns(s, t, goal, ch).s)
    ensures s.c.token.Some? ==> HandsOver(s, t, Creates(s, t, goal, ch).s)
  {
    hide Submit, Expired;
  }

  lemma InitializesHandsOver(s: System, t: nat, goal: Goal, ch: Choice)
    requires Agrees(s, t) && Holds(PhaseOf(s, t)) && s.c.token.Some?
    ensures HandsOver(s, t, Initializes(s, t, goal, ch).s)
  {
    var down := s.(c := s.c.(grpc := Disconnected(s.c.grpc), rest := Closed(s.c.rest)));
    HolderHandsOver(down, t, goal, ch);
    hide Creates, Throws, Returns, Disconnected, Closed;
  }

  lemma LoginHandsOver(s: System, t: nat, goal: Goal, login: LoginReply, ch: Choice)
    requires Agrees(s, t) && Holds(PhaseOf(s, t))
    ensures HandsOver(s, t, AfterLogin(s, t, goal, login, ch).s)
  {
    hide Initializes, Returns, Creates, Holds;
    if login.LoggedIn? {
      var token := Token(login.access, login.refresh, s.now + login.expiresIn);
      InitializesHandsOver(s.(c := s.c.(token := Some(token), authenticated := true)), t, goal, ch);
    } else {
      HolderHandsOver(s, t, goal, ch);
    }
  }

  lemma RefreshHandsOver(s: System, t: nat, goal: Goal, refresh: RefreshReply, ch: Choice)
    requires Agrees(s, t) && Holds(PhaseOf(s, t)) && s.c.token.Some?
    ensures HandsOver(s, t, AfterRefresh(s, t, goal, refresh, ch).s)
  {
    hide Initializes, Returns, Creates;
    var token := s.c.token.value;
    match refresh
    case RefreshGranted(access, expiresIn) =>
      var renewed := token.(access := access, expires := s.now + expiresIn);
      InitializesHandsOver(s.(c := s.c.(token := Some(renewed))), t, goal, ch);
    case RefreshBadExpiry(access) =>
      HolderHandsOver(s.(c := s.c.(token := Some(token.(access := access)))), t, goal, ch);
    case RefreshRefused =>
    case _ => HolderHandsOver(s, t, goal, ch);
  }

  lemma AnswersHandOver(s: System, l: Label)
    requires (l.LoginAnswer? || l.RefreshAnswer?) && Agrees(s, l.t)
    ensures HandsOver(s, l.t, Step(s, l))
  {
    hide AfterLogin, AfterRefresh;
    var p := PhaseOf(s, l.t);
    if l.LoginAnswer? && p.LoginPosts? {
      LoginHandsOver(s, l.t, p.goal, l.login, l.ch);
    } else if l.RefreshAnswer? && p.RefreshPosts? && s.c.token.Some? {
      RefreshHandsOver(s, l.t, p.goal, l.refresh, l.ch);
    }
  }

  lemma DoneHandsOver(s: System, l: Label)
    requires (l.DisconnectDone? || l.ConnectDone?) && Agrees(s, l.t)
    ensures HandsOver(s, l.t, Step(s, l))
  {
    var p := PhaseOf(s, l.t);
    var b := s.(c := s.c.(useGrpc := false));
    hide Returns, Creates, Throws, Attempts, EntersLogin, EntersRefresh;
    if l.DisconnectDone? && p.Disconnects? {
      HolderHandsOver(s, l.t, p.goal, l.ch);
    } else if l.ConnectDone? && p.Connects? {
      HolderHandsOver(b, l.t, p.goal, l.ch);
    } else if l.ConnectDone? && p.FallsBack? {
      FreeTaskHandsOver(b, l.t, l.ch);
    }
  }

  lemma StepHandsOver(s: System, l: Label)
    requires !l.Tick? && Agrees(s, l.t)
    ensures HandsOver(s, l.t, Step(s, l))
  {
    if l.LoginAnswer? || l.RefreshAnswer? {
      AnswersHandOver(s, l);
    } else if l.DisconnectDone? || l.ConnectDone? {
      DoneHandsOver(s, l);
    } else if !Holds(PhaseOf(s, l.t)) && !l.Acquire? {
      FreeTaskHandsOver(s, l.t, l.ch);
      hide Attempts, EntersLogin, EntersRefresh;
    }
  }

  lemma {:induction false} LockHasOneHolder(run: seq<Label>)
    ensures OneHolder(Run(run))
  {
    if run != [] {
      LockHasOneHolder(run[..|run| - 1]);
      StepKeepsOneHolder(Run(run[..|run| - 1]), run[|run| - 1]);
    }
  }

  // A task waits for a lock that it holds itself.
  ghost predicate Deadlocked(s: System) {
    exists t: nat :: PhaseOf(s, t).WaitsForItself? && s.holder == Some(t)
  }

  // The step brings a task that is waiting for the answer to a refresh a refusal.
  predicate Refuses(s: System, l: Label) {
    l.RefreshAnswer? && l.refresh.RefreshRefused? && PhaseOf(s, l.t).RefreshPosts? && s.c.token.Some?
  }

  lemma StepDeadlocks(s: System, l: Label)
    requires OneHolder(s)
    ensures Deadlocked(Step(s, l)) <==> Deadlocked(s) || Refuses(s, l)
  {
    var u := Step(s, l);
    if Deadlocked(s) {
      var t: nat :| PhaseOf(s, t).WaitsForItself? && s.holder == Some(t);
      assert forall v: nat :: v != t ==> !Holds(PhaseOf(s, v));
      assert PhaseOf(u, t).WaitsForItself? && u.holder == Some(t);
    }
    if Refuses(s, l) {
      assert Holds(PhaseOf(s, l.t));
      assert PhaseOf(u, l.t).WaitsForItself? && u.holder == Some(l.t);
    }
    if Deadlocked(u) && !Refuses(s, l) {
      var t: nat :| PhaseOf(u, t).WaitsForItself? && u.holder == Some(t);
      assert PhaseOf(s, t).WaitsForItself? && Holds(PhaseOf(s, t));
    }
  }

  ghost predicate RefusedAt(run: seq<Label>, k: nat)
    requires k < |run|
  {
    Refuses(Run(run[..k]), run[k])
  }

  // Over all runs: some task waits for itself exactly when some refresh of the run was refused, and then for ever.
  lemma {:induction false} DeadlockIffRefused(run: seq<Label>)
    ensures Deadlocked(Run(run)) <==> exists k: nat :: k < |run| && RefusedAt(run, k)
  {
    if run != [] {
      var n := |run| - 1;
      DeadlockIffRefused(run[..n]);
      LockHasOneHolder(run[..n]);
      StepDeadlocks(Run(run[..n]), run[n]);
      hide Step, Refuses, Deadlocked, OneHolder;
      forall k: nat | k < n ensures RefusedAt(run[..n], k) <==> RefusedAt(run, k) {
        assert run[..n][..k] == run[..k];
      }
      assert RefusedAt(run, n) <==> Refuses(Run(run[..n]), run[n]);
    }
  }

  // ---------------------------------------------------------------- which errors other tasks can cause

  // The client objects that exist. No task's run ever takes one away.
  predicate Equipped(c: Client) {
    (c.authenticated ==> c.grpc.Some? || c.rest.Some?) && (!c.useGrpc ==> c.rest.Some?)
  }

  predicate PhaseEquipped(c: Client, p: Phase) {
    match p
    case RefreshPosts(_) => c.token.Some?
    case RefreshWaits(_) => c.token.Some?
    case Disconnects(_) => c.token.Some?
    case Connects(_) => c.grpc.Some? && c.rest.Some?
    case FallsBack => c.rest.Some?
    case _ => true
  }

  // Nothing that a phase needs is taken away.
  predicate Keeps(c: Client, d: Client) {
    (c.token.Some? ==> d.token.Some?) && (c.grpc.Some? ==> d.grpc.Some?) && (c.rest.Some? ==> d.rest.Some?)
  }

  ghost predicate AllEquipped(s: System) {
    Equipped(s.c) && forall t: nat :: PhaseEquipped(s.c, PhaseOf(s, t))
  }

  lemma SubmitFindsSome(c: Client, accepted: bool)
    requires (c.grpc.Some? || c.rest.Some?) && (!c.useGrpc ==> c.rest.Some?)
    ensures Submit(c, accepted) != Threw(NoActiveClient)
  {
  }

  // What is to be shown of one step of task t.
  predicate Equips(s: System, t: nat, r: Stepped) {
    && Keeps(s.c, r.s.c) && Equipped(r.s.c) && PhaseEquipped(r.s.c, PhaseOf(r.s, t))
    && (r.s.tasks == s.tasks || r.s.tasks == s.tasks[t := PhaseOf(r.s, t)])
    && r.submitted != Some(Threw(NoActiveClient))
  }

  lemma FreeTaskEquips(s: System, t: nat, ch: Choice)
    requires Equipped(s.c)
    ensures Equips(s, t, Attempts(s, t, ch))
    ensures Equips(s, t, Quietly(EntersLogin(s, t, Stop)))
    ensures s.c.token.Some? ==> Equips(s, t, Quietly(EntersRefresh(s, t, Stop)))
  {
    if s.c.authenticated {
      SubmitFindsSome(s.c, ch.accepted);
    }
    hide Submit, Expired;
  }

  predicate Selected(c: Client) {
    !c.useGrpc ==> c.rest.Some?
  }

  lemma ReturnsEquips(s: System, t: nat, goal: Goal, ch: Choice)
    requires Selected(s.c) && s.c.grpc.Some?
    ensures Equips(s, t, Returns(s, t, goal, ch))
  {
    SubmitFindsSome(Unlocked(s).c, ch.accepted);
    hide Submit;
  }

  lemma CreatesEquips(s: System, t: nat, goal: Goal, ch: Choice)
    requires Selected(s.c) && s.c.token.Some?
    ensures Equips(s, t, Creates(s, t, goal, ch))
  {
    if ch.grpcUp {
      var b := s.(c := s.c.(grpc := Some(Grpc(s.c.token.value.access, true)), useGrpc := true));
      ReturnsEquips(b, t, goal, ch);
      SameTasks(b, s, t, Returns(b, t, goal, ch));
      hide Returns, Equips;
    }
  }

  lemma HolderEquips(s: System, t: nat, goal: Goal, ch: Choice)
    requires Selected(s.c)
    ensures Equipped(s.c) ==> Equips(s, t, Throws(s, t))
    ensures s.c.grpc.Some? ==> Equips(s, t, Returns(s, t, goal, ch))
    ensures s.c.token.Some? ==> Equips(s, t, Creates(s, t, goal, ch))
  {
    if s.c.grpc.Some? {
      ReturnsEquips(s, t, goal, ch);
    }
    if s.c.token.Some? {
      CreatesEquips(s, t, goal, ch);
    }
    hide Returns, Creates;
  }

  // A step from b is one from s when b differs from s in things that s does not take away.
  lemma SameTasks(b: System, s: System, t: nat, r: Stepped)
    requires b.tasks == s.tasks && Keeps(s.c, b.c) && Equips(b, t, r)
    ensures Equips(s, t, r)
  {
  }

  lemma InitializesEquips(s: System, t: nat, goal: Goal, ch: Choice)
    requires Selected(s.c) && s.c.token.Some?
    ensures Equips(s, t, Initializes(s, t, goal, ch))
  {
    var down := s.(c := s.c.(grpc := Disconnected(s.c.grpc), rest := Closed(s.c.rest)));
    HolderEquips(down, t, goal, ch);
    hide Creates, Throws, Returns;
  }

  lemma LoginEquips(s: System, t: nat, goal: Goal, login: LoginReply, ch: Choice)
    requires Equipped(s.c)
    ensures Equips(s, t, AfterLogin(s, t, goal, login, ch))
  {
    hide Initializes, Throws;
    if login.LoggedIn? {
      var token := Token(login.access, login.refresh, s.now + login.expiresIn);
      var b := s.(c := s.c.(token := Some(token), authenticated := true));
      InitializesEquips(b, t, goal, ch);
      SameTasks(b, s, t, Initializes(b, t, goal, ch));
    } else {
      HolderEquips(s, t, goal, ch);
    }
  }

  lemma RefreshEquips(s: System, t: nat, goal: Goal, refresh: RefreshReply, ch: Choice)
    requires Equipped(s.c) && s.c.token.Some?
    ensures Equips(s, t, AfterRefresh(s, t, goal, refresh, ch))
  {
    hide Initializes, Throws;
    var token := s.c.token.value;
    match refresh
    case RefreshGranted(access, expiresIn) =>
      var b := s.(c := s.c.(token := Some(token.(access := access, expires := s.now + expiresIn))));
      InitializesEquips(b, t, goal, ch);
      SameTasks(b, s, t, Initializes(b, t, goal, ch));
    case RefreshBadExpiry(access) =>
      var b := s.(c := s.c.(token := Some(token.(access := access))));
      HolderEquips(b, t, goal, ch);
      SameTasks(b, s, t, Throws(b, t));
    case RefreshRefused =>
    case _ => HolderEquips(s, t, goal, ch);
  }

  lemma DoneEquips(s: System, l: Label)
    requires (l.DisconnectDone? || l.ConnectDone?) && Equipped(s.c) && PhaseEquipped(s.c, PhaseOf(s, l.t))
    ensures Equips(s, l.t, Do(s, l))
  {
    var p := PhaseOf(s, l.t);
    var b := s.(c := s.c.(useGrpc := false));
    hide Returns, Creates, Throws, Attempts;
    if l.DisconnectDone? && p.Disconnects? {
      HolderEquips(s, l.t, p.goal, l.ch);
    } else if l.ConnectDone? && p.Connects? {
      HolderEquips(b, l.t, p.goal, l.ch);
      SameTasks(b, s, l.t, Returns(b, l.t, p.goal, l.ch));
    } else if l.ConnectDone? && p.FallsBack? {
      FreeTaskEquips(b, l.t, l.ch);
      SameTasks(b, s, l.t, Attempts(b, l.t, l.ch));
    }
  }

  lemma StepEquips(s: System, l: Label)
    requires !l.Tick? && Equipped(s.c) && PhaseEquipped(s.c, PhaseOf(s, l.t))
    ensures Equips(s, l.t, Do(s, l))
  {
    hide Attempts, AfterLogin, AfterRefresh, EntersLogin, EntersRefresh, Starts, Wakes;
    var p := PhaseOf(s, l.t);
    if l.DisconnectDone? || l.ConnectDone? {
      DoneEquips(s, l);
    } else if l.LoginAnswer? && p.LoginPosts? {
      LoginEquips(s, l.t, p.goal, l.login, l.ch);
    } else if l.RefreshAnswer? && p.RefreshPosts? {
      RefreshEquips(s, l.t, p.goal, l.refresh, l.ch);
    } else if l.Wake? && p.Sleeps? {
      WakesEquips(s, l.t, l.ch);
    } else if l.Start? && p.Idle? {
      StartsEquips(s, l.t, l.call, l.ch);
    }
  }

  lemma WakesEquips(s: System, t: nat, ch: Choice)
    requires Equipped(s.c)
    ensures Equips(s, t, Wakes(s, t, ch))
  {
    FreeTaskEquips(s, t, ch);
    hide Attempts;
  }

  lemma StartsEquips(s: System, t: nat, call: Call, ch: Choice)
    requires Equipped(s.c) && PhaseOf(s, t).Idle?
    ensures Equips(s, t, Starts(s, t, call, ch))
  {
    FreeTaskEquips(s, t, ch);
    EntersCloseEquips(s, t);
    hide Attempts, EntersLogin, EntersRefresh, EntersClose;
  }

  lemma EntersCloseEquips(s: System, t: nat)
    requires Equipped(s.c) && PhaseOf(s, t).Idle?
    ensures Equips(s, t, Quietly(EntersClose(s, t)))
  {
  }

  lemma StepKeepsEquipped(s: System, l: Label)
    requires AllEquipped(s)
    ensures AllEquipped(Step(s, l)) && Do(s, l).submitted != Some(Threw(NoActiveClient))
  {
    var u := Step(s, l);
    if l.Tick? {
      assert forall t: nat :: PhaseOf(u, t) == PhaseOf(s, t);
    } else {
      StepEquips(s, l);
      forall t: nat ensures PhaseEquipped(u.c, PhaseOf(u, t)) {
        assert PhaseEquipped(s.c, PhaseOf(s, t));
        assert t != l.t ==> PhaseOf(u, t) == PhaseOf(s, t);
      }
    }
  }

  lemma {:induction false} RunKeepsEquipped(run: seq<Label>)
    ensures AllEquipped(Run(run))
  {
    if run != [] {
      RunKeepsEquipped(run[..|run| - 1]);
      StepKeepsEquipped(Run(run[..|run| - 1]), run[|run| - 1]);
    }
  }

  // However many tasks share the client, no submission of any run ends in "No active protocol client".
  lemma SomeClientIsActive(run: seq<Label>, l: Label)
    ensures Do(Run(run), l).submitted != Some(Threw(NoActiveClient))
  {
    RunKeepsEquipped(run);
    StepKeepsEquipped(Run(run), l);
  }

  // ---------------------------------------------------------------- the lock can be released

  // Answers that end whatever a holder is doing.
  function Ending(t: nat): seq<Label> {
    var ch := Choice(true, true, true, true, true);
    [] + [LoginAnswer(t, LoginRefused, ch)] + [RefreshAnswer(t, RefreshUnreachable, ch)] + [DisconnectDone(t, ch)]
    + [ConnectDone(t, ch)]
  }

  lemma {:induction false} RunSplits(run: seq<Label>, later: seq<Label>)
    ensures Run(run + later) == RunFrom(Run(run), later)
  {
    hide Step;
    if later == [] {
      assert run + later == run;
    } else {
      var all := run + later;
      assert all[..|all| - 1] == run + later[..|later| - 1] && all[|all| - 1] == later[|later| - 1];
      RunSplits(run, later[..|later| - 1]);
    }
  }

  // The lock can still be released exactly when no task waits for itself.
  lemma ReleasableUnlessDeadlocked(run: seq<Label>)
    ensures (exists later :: Run(run + later).holder.None?) <==> !Deadlocked(Run(run))
  {
    LockHasOneHolder(run);
    if Deadlocked(Run(run)) {
      forall later ensures Run(run + later).holder.Some? {
        DeadlockLasts(run, later);
      }
    } else if Run(run).holder.Some? {
      var t := Run(run).holder.value;
      assert Holds(PhaseOf(Run(run), t));
      RunKeepsEquipped(run);
      assert PhaseEquipped(Run(run).c, PhaseOf(Run(run), t));
      RunSplits(run, Ending(t));
      EndingReleases(Run(run), t);
      assert Run(run + Ending(t)).holder.None?;
    } else {
      assert Run(run + []) == Run(run) by { assert run + [] == run; }
    }
  }

  // Whoever waits for a free lock gets it and goes on to its request.
  lemma FreeLockIsTaken(s: System, t: nat)
    requires s.holder.None? && (PhaseOf(s, t).LoginWaits? || PhaseOf(s, t).RefreshWaits?)
    ensures var u, p := Step(s, Acquire(t)), PhaseOf(s, t);
      && u.holder == Some(t) && u.c.locked
      && PhaseOf(u, t) == if p.LoginWaits? then LoginPosts(p.goal) else RefreshPosts(p.goal)
  {
  }

  lemma DeadlockLasts(run: seq<Label>, later: seq<Label>)
    requires Deadlocked(Run(run))
    ensures Deadlocked(Run(run + later))
  {
    DeadlockIffRefused(run);
    var k: nat :| k < |run| && RefusedAt(run, k);
    assert (run + later)[..k] == run[..k];
    assert RefusedAt(run + later, k);
    DeadlockIffRefused(run + later);
  }

  lemma EndingReleases(s: System, t: nat)
    requires s.holder == Some(t) && Holds(PhaseOf(s, t)) && !PhaseOf(s, t).WaitsForItself?
      && PhaseEquipped(s.c, PhaseOf(s, t))
    ensures RunFrom(s, Ending(t)).holder.None?
  {
    var ch := Choice(true, true, true, true, true);
    var a, b := LoginAnswer(t, LoginRefused, ch), RefreshAnswer(t, RefreshUnreachable, ch);
    ThenFrom(s, [], a);
    ThenFrom(s, [] + [a], b);
    ThenFrom(s, [] + [a] + [b], DisconnectDone(t, ch));
    ThenFrom(s, [] + [a] + [b] + [DisconnectDone(t, ch)], ConnectDone(t, ch));
    assert RunFrom(s, []) == s;
    hide RunFrom, Submit;
  }
}
