// Which tasks can meet an unusable client, and when: a gRPC client that is not connected or a REST client that is
// closed.
module ReceiverUsable {
  import opened Wrappers
  import opened ReceiverState
  import opened ReceiverTasks

  // ---------------------------------------------------------------- usable clients

  // The task is replacing the protocol clients.
  predicate InSetup(p: Phase) {
    p.Disconnects? || p.Connects?
  }

  ghost predicate SettingUp(s: System) {
    exists t: nat :: InSetup(PhaseOf(s, t))
  }

  // A fallback after a sleep does not hold the lock, so it can run into a set-up.
  ghost predicate Overlaps(s: System) {
    SettingUp(s) && exists t: nat :: PhaseOf(s, t).FallsBack?
  }

  predicate Mild(l: Label) {
    !(l.Start? && l.call.CallClose?) && (l.DisconnectDone? ==> !l.ch.disconnectFails)
  }

  // Nobody closes the client, no disconnect fails, and no fallback runs into a set-up.
  ghost predicate Calm(run: seq<Label>) {
    (forall l :: l in run ==> Mild(l)) && forall k: nat :: k <= |run| ==> !Overlaps(Run(run[..k]))
  }

  predicate RestOpen(c: Client) {
    c.rest.Some? && !c.rest.value.closed
  }

  predicate Usable(c: Client) {
    if c.useGrpc then c.grpc.Some? && c.grpc.value.connected else RestOpen(c)
  }

  predicate NeedsOpenRest(p: Phase) {
    p.Connects? || p.FallsBack?
  }

  ghost predicate Settled(s: System) {
    && (s.c.authenticated && !SettingUp(s) ==> Usable(s.c))
    && forall t: nat :: NeedsOpenRest(PhaseOf(s, t)) ==> RestOpen(s.c)
  }

  predicate Unusable(o: Option<Outcome>) {
    o == Some(Threw(GrpcNotConnected)) || o == Some(Threw(RestClosed)) || o == Some(Threw(NoActiveClient))
  }

  predicate NoWorse(c: Client, d: Client) {
    (Usable(c) ==> Usable(d)) && (d.authenticated ==> c.authenticated)
  }

  // What is to be shown of one step of task t: it is in a set-up, or leaves the clients usable, or
  // no worse than it found them.
  predicate Settles(s: System, t: nat, r: Stepped) {
    var p := PhaseOf(r.s, t);
    && (InSetup(p) || Usable(r.s.c) || (NoWorse(s.c, r.s.c) && !InSetup(PhaseOf(s, t))))
    && (NeedsOpenRest(p) ==> RestOpen(r.s.c))
    && (RestOpen(s.c) ==> RestOpen(r.s.c) || InSetup(p))
    && (r.s.tasks == s.tasks || r.s.tasks == s.tasks[t := p])
    && (Unusable(r.submitted) ==> r.s.c.authenticated && !Usable(r.s.c))
    && Submits(t, r) && !p.Closes?
  }

  // A submission uses the clients that the step leaves, and its task is not in a set-up.
  predicate Submits(t: nat, r: Stepped) {
    r.submitted.Some? ==>
      && r.submitted.value in {Submit(r.s.c, true), Submit(r.s.c, false)}
      && !InSetup(PhaseOf(r.s, t))
  }

  lemma UsableIsAccepted(c: Client, accepted: bool)
    requires Usable(c)
    ensures !Unusable(Some(Submit(c, accepted)))
  {
  }

  lemma FreeTaskSettles(s: System, t: nat, ch: Choice)
    requires !Holds(PhaseOf(s, t))
    ensures Settles(s, t, Attempts(s, t, ch))
    ensures Settles(s, t, Quietly(EntersLogin(s, t, Stop))) && Settles(s, t, Quietly(EntersRefresh(s, t, Stop)))
  {
    if Usable(s.c) {
      UsableIsAccepted(s.c, ch.accepted);
    }
    hide Submit, Expired;
  }

  lemma ReturnsSettles(s: System, t: nat, goal: Goal, ch: Choice)
    requires Usable(s.c)
    ensures Settles(s, t, Returns(s, t, goal, ch)) && Usable(Returns(s, t, goal, ch).s.c)
  {
    UsableIsAccepted(Unlocked(s).c, ch.accepted);
    hide Submit;
  }

  lemma CreatesSettles(s: System, t: nat, goal: Goal, ch: Choice)
    requires s.c.token.Some?
    ensures Settles(s, t, Creates(s, t, goal, ch))
    ensures var u := Creates(s, t, goal, ch).s; InSetup(PhaseOf(u, t)) || Usable(u.c)
  {
    if ch.grpcUp {
      var b := s.(c := s.c.(grpc := Some(Grpc(s.c.token.value.access, true)), useGrpc := true));
      ReturnsSettles(b, t, goal, ch);
      hide Returns;
    }
  }

  lemma HolderSettles(s: System, t: nat, goal: Goal, ch: Choice)
    ensures !InSetup(PhaseOf(s, t)) ==> Settles(s, t, Throws(s, t))
    ensures Usable(s.c) ==> Settles(s, t, Returns(s, t, goal, ch))
    ensures s.c.token.Some? ==> Settles(s, t, Creates(s, t, goal, ch))
  {
    if Usable(s.c) {
      ReturnsSettles(s, t, goal, ch);
    }
    if s.c.token.Some? {
      CreatesSettles(s, t, goal, ch);
    }
    hide Returns, Creates;
  }

  lemma InitializesSettles(s: System, t: nat, goal: Goal, ch: Choice)
    requires s.c.token.Some? && !InSetup(PhaseOf(s, t))
    ensures Settles(s, t, Initializes(s, t, goal, ch))
    ensures InSetup(PhaseOf(Initializes(s, t, goal, ch).s, t)) || Usable(Initializes(s, t, goal, ch).s.c)
  {
    var down := s.(c := s.c.(grpc := Disconnected(s.c.grpc), rest := Closed(s.c.rest)));
    HolderSettles(down, t, goal, ch);
    CreatesSettles(down, t, goal, ch);
    hide Creates, Throws, Returns, Usable;
  }

  // A step from b is one from s when b is no worse than s, or the step leaves nothing to be wished for.
  lemma SettlesFrom(b: System, s: System, t: nat, r: Stepped)
    requires b.tasks == s.tasks && b.c.rest == s.c.rest && Settles(b, t, r)
    requires NoWorse(s.c, b.c) || InSetup(PhaseOf(r.s, t)) || Usable(r.s.c)
    ensures Settles(s, t, r)
  {
  }

  lemma LoginSettles(s: System, t: nat, goal: Goal, login: LoginReply, ch: Choice)
    requires !InSetup(PhaseOf(s, t))
    ensures Settles(s, t, AfterLogin(s, t, goal, login, ch))
  {
    hide Initializes, Throws, Settles, Usable, NoWorse;
    if login.LoggedIn? {
      var token := Token(login.access, login.refresh, s.now + login.expiresIn);
      var b := s.(c := s.c.(token := Some(token), authenticated := true));
      InitializesSettles(b, t, goal, ch);
      SettlesFrom(b, s, t, Initializes(b, t, goal, ch));
    } else {
      HolderSettles(s, t, goal, ch);
    }
  }

  lemma SameButToken(c: Client, token: Token)
    ensures NoWorse(c, c.(token := Some(token)))
  {
  }

  lemma RefreshSettles(s: System, t: nat, goal: Goal, refresh: RefreshReply, ch: Choice)
    requires !InSetup(PhaseOf(s, t)) && s.c.token.Some?
    ensures Settles(s, t, AfterRefresh(s, t, goal, refresh, ch))
  {
    hide Initializes, Throws, Settles, Usable, NoWorse;
    var token := s.c.token.value;
    match refresh
    case RefreshGranted(access, expiresIn) =>
      var renewed := token.(access := access, expires := s.now + expiresIn);
      var b := s.(c := s.c.(token := Some(renewed)));
      SameButToken(s.c, renewed);
      InitializesSettles(b, t, goal, ch);
      SettlesFrom(b, s, t, Initializes(b, t, goal, ch));
    case RefreshBadExpiry(access) =>
      var b := s.(c := s.c.(token := Some(token.(access := access))));
      SameButToken(s.c, token.(access := access));
      HolderSettles(b, t, goal, ch);
      SettlesFrom(b, s, t, Throws(b, t));
    case RefreshRefused => RefusalSettles(s, t, goal);
    case _ => HolderSettles(s, t, goal, ch);
  }

  lemma RefusalSettles(s: System, t: nat, goal: Goal)
    requires !InSetup(PhaseOf(s, t))
    ensures Settles(s, t, Quietly(Moved(s, t, WaitsForItself(goal))))
  {
  }

  lemma DoneSettles(s: System, l: Label)
    requires (l.DisconnectDone? || l.ConnectDone?) && Mild(l)
    requires PhaseEquipped(s.c, PhaseOf(s, l.t)) && !PhaseOf(s, l.t).Closes?
    requires NeedsOpenRest(PhaseOf(s, l.t)) ==> RestOpen(s.c)
    ensures Settles(s, l.t, Do(s, l))
  {
    var p := PhaseOf(s, l.t);
    var b := s.(c := s.c.(useGrpc := false));
    hide Returns, Creates, Throws, Attempts;
    if l.DisconnectDone? && p.Disconnects? {
      HolderSettles(s, l.t, p.goal, l.ch);
    } else if l.ConnectDone? && p.Connects? {
      HolderSettles(b, l.t, p.goal, l.ch);
      ReturnsSettles(b, l.t, p.goal, l.ch);
      SettlesFrom(b, s, l.t, Returns(b, l.t, p.goal, l.ch));
    } else if l.ConnectDone? && p.FallsBack? {
      FreeTaskSettles(b, l.t, l.ch);
    }
  }

  lemma WakesSettles(s: System, t: nat, ch: Choice)
    requires PhaseOf(s, t).Sleeps?
    ensures Settles(s, t, Wakes(s, t, ch))
  {
    FreeTaskSettles(s, t, ch);
    hide Attempts;
  }

  // A step that is not part of a close settles.
  lemma StepSettles(s: System, l: Label)
    requires !l.Tick? && Mild(l) && PhaseEquipped(s.c, PhaseOf(s, l.t)) && !PhaseOf(s, l.t).Closes?
    requires NeedsOpenRest(PhaseOf(s, l.t)) ==> RestOpen(s.c)
    ensures Settles(s, l.t, Do(s, l))
  {
    var p := PhaseOf(s, l.t);
    if l.DisconnectDone? || l.ConnectDone? {
      DoneSettles(s, l);
    } else {
      hide Attempts, AfterLogin, AfterRefresh, EntersLogin, EntersRefresh, Wakes;
      if l.LoginAnswer? && p.LoginPosts? {
        LoginSettles(s, l.t, p.goal, l.login, l.ch);
      } else if l.RefreshAnswer? && p.RefreshPosts? && s.c.token.Some? {
        RefreshSettles(s, l.t, p.goal, l.refresh, l.ch);
      } else if l.Start? && p.Idle? {
        FreeTaskSettles(s, l.t, l.ch);
      } else if l.Wake? && p.Sleeps? {
        WakesSettles(s, l.t, l.ch);
      }
    }
  }

  // Calm runs have no task that closes the client.
  ghost predicate NobodyCloses(s: System) {
    forall t: nat :: !PhaseOf(s, t).Closes?
  }

  lemma StepKeepsSettled(s: System, l: Label)
    requires OneHolder(s) && AllEquipped(s) && NobodyCloses(s) && Settled(s) && Mild(l) && !Overlaps(Step(s, l))
    ensures Settled(Step(s, l)) && NobodyCloses(Step(s, l))
    ensures Unusable(Do(s, l).submitted) ==> SettingUp(Step(s, l))
  {
    var u := Step(s, l);
    if l.Tick? {
      assert forall t: nat :: PhaseOf(u, t) == PhaseOf(s, t);
    } else {
      assert PhaseEquipped(s.c, PhaseOf(s, l.t)) && !PhaseOf(s, l.t).Closes?;
      assert NeedsOpenRest(PhaseOf(s, l.t)) ==> RestOpen(s.c);
      StepSettles(s, l);
      StepKeepsOneHolder(s, l);
      hide Do;
      assert forall v: nat :: v != l.t ==> PhaseOf(u, v) == PhaseOf(s, v);
      OthersStayInSetup(s, l.t, u);
      PhasesStaySettled(s, l.t, Do(s, l));
    }
  }

  lemma OthersStayInSetup(s: System, t: nat, u: System)
    requires u.tasks == s.tasks || u.tasks == s.tasks[t := PhaseOf(u, t)]
    ensures SettingUp(s) && !InSetup(PhaseOf(s, t)) ==> SettingUp(u)
  {
    if SettingUp(s) && !InSetup(PhaseOf(s, t)) {
      var v: nat :| InSetup(PhaseOf(s, v));
      assert InSetup(PhaseOf(u, v));
    }
  }

  lemma AloneInSetup(u: System, t: nat, v: nat)
    requires OneHolder(u) && !Overlaps(u) && v != t && NeedsOpenRest(PhaseOf(u, v))
    ensures !InSetup(PhaseOf(u, t))
  {
    assert Holds(PhaseOf(u, t)) <==> u.holder == Some(t);
    assert Holds(PhaseOf(u, v)) <==> u.holder == Some(v);
    assert InSetup(PhaseOf(u, t)) ==> SettingUp(u);
    assert PhaseOf(u, v).FallsBack? ==> SettingUp(u) ==> Overlaps(u);
  }

  lemma PhasesStaySettled(s: System, t: nat, r: Stepped)
    requires OneHolder(r.s) && Settled(s) && Settles(s, t, r) && !Overlaps(r.s)
    ensures forall v: nat :: NeedsOpenRest(PhaseOf(r.s, v)) ==> RestOpen(r.s.c)
  {
    forall v: nat | NeedsOpenRest(PhaseOf(r.s, v)) ensures RestOpen(r.s.c) {
      if v != t {
        assert PhaseOf(r.s, v) == PhaseOf(s, v);
        AloneInSetup(r.s, t, v);
      }
    }
  }

  lemma CalmPrefix(run: seq<Label>)
    requires run != [] && Calm(run)
    ensures Calm(run[..|run| - 1]) && Mild(run[|run| - 1]) && !Overlaps(Run(run))
  {
    var n := |run| - 1;
    assert run[..|run|] == run;
    forall k: nat | k <= n ensures !Overlaps(Run(run[..n][..k])) {
      assert run[..n][..k] == run[..k];
    }
  }

  lemma {:induction false} RunKeepsSettled(run: seq<Label>)
    requires Calm(run)
    ensures Settled(Run(run)) && NobodyCloses(Run(run))
  {
    if run != [] {
      var before := run[..|run| - 1];
      CalmPrefix(run);
      RunKeepsSettled(before);
      LockHasOneHolder(before);
      RunKeepsEquipped(before);
      StepKeepsSettled(Run(before), run[|run| - 1]);
    }
  }

  // ---------------------------------------------------------------- at one submission

  // What a set-up has done to the clients.
  predicate Torn(c: Client, p: Phase) {
    match p
    case Disconnects(_) =>
      && (c.grpc.Some? ==> !c.grpc.value.connected)
      && c.rest.Some? && c.rest.value.ready && c.rest.value.closed
    case Connects(_) => c.grpc.Some? && !c.grpc.value.connected
    case _ => true
  }

  ghost predicate AllTorn(s: System) {
    forall t: nat :: Torn(s.c, PhaseOf(s, t))
  }

  lemma InitializesTorn(s: System, t: nat, goal: Goal, ch: Choice)
    requires s.c.token.Some?
    ensures var u := Initializes(s, t, goal, ch).s; Torn(u.c, PhaseOf(u, t))
  {
    hide Submit;
  }

  lemma LoginTears(s: System, t: nat, goal: Goal, login: LoginReply, ch: Choice)
    ensures var u := AfterLogin(s, t, goal, login, ch).s; Torn(u.c, PhaseOf(u, t))
  {
    hide Initializes;
    if login.LoggedIn? {
      var token := Token(login.access, login.refresh, s.now + login.expiresIn);
      InitializesTorn(s.(c := s.c.(token := Some(token), authenticated := true)), t, goal, ch);
    }
  }

  lemma RefreshTears(s: System, t: nat, goal: Goal, refresh: RefreshReply, ch: Choice)
    requires s.c.token.Some?
    ensures var u := AfterRefresh(s, t, goal, refresh, ch).s; Torn(u.c, PhaseOf(u, t))
  {
    hide Initializes;
    if refresh.RefreshGranted? {
      var token := s.c.token.value.(access := refresh.access, expires := s.now + refresh.expiresIn);
      InitializesTorn(s.(c := s.c.(token := Some(token))), t, goal, ch);
    }
  }

  lemma AnswerTears(s: System, l: Label)
    requires (l.LoginAnswer? || l.RefreshAnswer?) && Torn(s.c, PhaseOf(s, l.t))
    ensures Torn(Step(s, l).c, PhaseOf(Step(s, l), l.t))
  {
    hide AfterLogin, AfterRefresh, Torn;
    var p := PhaseOf(s, l.t);
    if l.LoginAnswer? && p.LoginPosts? {
      LoginTears(s, l.t, p.goal, l.login, l.ch);
    } else if l.RefreshAnswer? && p.RefreshPosts? && s.c.token.Some? {
      RefreshTears(s, l.t, p.goal, l.refresh, l.ch);
    }
  }

  lemma OwnStepTears(s: System, l: Label)
    requires !l.Tick? && Torn(s.c, PhaseOf(s, l.t))
    ensures Torn(Step(s, l).c, PhaseOf(Step(s, l), l.t))
  {
    if l.LoginAnswer? || l.RefreshAnswer? {
      AnswerTears(s, l);
    } else if l.DisconnectDone? {
      DisconnectTears(s, l);
    } else if l.ConnectDone? {
      ConnectTears(s, l);
    } else {
      hide Submit, Expired;
    }
  }

  lemma ConnectTears(s: System, l: Label)
    requires l.ConnectDone? && Torn(s.c, PhaseOf(s, l.t))
    ensures Torn(Step(s, l).c, PhaseOf(Step(s, l), l.t))
  {
    hide Submit, Expired;
  }

  lemma DisconnectTears(s: System, l: Label)
    requires l.DisconnectDone? && Torn(s.c, PhaseOf(s, l.t))
    ensures Torn(Step(s, l).c, PhaseOf(Step(s, l), l.t))
  {
    hide Submit;
  }

  // While one task is in a set-up, the others leave the clients alone.
  lemma OthersLeaveClients(s: System, l: Label, v: nat)
    requires OneHolder(s) && InSetup(PhaseOf(s, v)) && !l.Tick? && l.t != v && Mild(l) && !PhaseOf(s, l.t).Closes?
    requires !Overlaps(s) && !Overlaps(Step(s, l))
    ensures Step(s, l).c.grpc == s.c.grpc && Step(s, l).c.rest == s.c.rest
  {
    var u := Step(s, l);
    assert Holds(PhaseOf(s, v)) ==> s.holder == Some(v);
    assert Holds(PhaseOf(s, l.t)) <==> s.holder == Some(l.t);
    assert !PhaseOf(s, l.t).FallsBack?;
    hide Submit, Expired, AfterLogin, AfterRefresh, Creates, Returns;
    assert PhaseOf(u, v) == PhaseOf(s, v);
    assert !PhaseOf(u, l.t).FallsBack?;
  }

  lemma StepKeepsTorn(s: System, l: Label)
    requires OneHolder(s) && NobodyCloses(s) && AllTorn(s) && Mild(l) && !Overlaps(s) && !Overlaps(Step(s, l))
    requires !l.Tick? ==> Step(s, l).tasks == s.tasks || Step(s, l).tasks == s.tasks[l.t := PhaseOf(Step(s, l), l.t)]
    ensures AllTorn(Step(s, l))
  {
    var u := Step(s, l);
    forall v: nat ensures Torn(u.c, PhaseOf(u, v)) {
      assert Torn(s.c, PhaseOf(s, v));
      if l.Tick? {
        assert PhaseOf(u, v) == PhaseOf(s, v) && u.c == s.c;
      } else if v == l.t {
        OwnStepTears(s, l);
      } else if InSetup(PhaseOf(s, v)) {
        assert !PhaseOf(s, l.t).Closes?;
        OthersLeaveClients(s, l, v);
      }
    }
  }

  lemma {:induction false} RunKeepsTorn(run: seq<Label>)
    requires Calm(run)
    ensures AllTorn(Run(run))
  {
    if run != [] {
      var before := run[..|run| - 1];
      CalmPrefix(run);
      RunKeepsTorn(before);
      RunKeepsSettled(before);
      LockHasOneHolder(before);
      RunKeepsEquipped(before);
      CalmNow(before);
      OneTaskMoves(Run(before), run[|run| - 1]);
      StepKeepsTorn(Run(before), run[|run| - 1]);
    }
  }

  lemma CalmNow(run: seq<Label>)
    requires Calm(run)
    ensures !Overlaps(Run(run))
  {
    assert run[..|run|] == run;
  }

  lemma OneTaskMoves(s: System, l: Label)
    requires !l.Tick? ==> (s.c.locked <==> s.holder.Some?) && (Holds(PhaseOf(s, l.t)) <==> s.holder == Some(l.t))
    ensures !l.Tick? ==> Step(s, l).tasks == s.tasks || Step(s, l).tasks == s.tasks[l.t := PhaseOf(Step(s, l), l.t)]
  {
    if !l.Tick? {
      StepHandsOver(s, l);
    }
    hide Step;
  }

  // Some task is replacing the clients and the one it leaves selected cannot be used.
  ghost predicate Replacing(s: System) {
    exists t: nat :: PhaseOf(s, t).Disconnects? || (PhaseOf(s, t).Connects? && s.c.useGrpc)
  }

  lemma TornIsRefused(c: Client, p: Phase, accepted: bool)
    requires Torn(c, p) && (p.Disconnects? || (p.Connects? && c.useGrpc))
    ensures !Usable(c) && Unusable(Some(Submit(c, accepted)))
  {
  }

  lemma UnusableIsTorn(s: System)
    requires Settled(s) && s.c.authenticated && !Usable(s.c)
    ensures Replacing(s)
  {
    var t: nat :| InSetup(PhaseOf(s, t));
    assert PhaseOf(s, t).Connects? ==> RestOpen(s.c);
  }

  // In a calm run an authenticated client is usable exactly when no task is replacing it in one of these two phases.
  lemma UsableUnlessReplacing(run: seq<Label>)
    requires Calm(run) && Run(run).c.authenticated
    ensures Usable(Run(run).c) <==> !Replacing(Run(run))
  {
    RunKeepsSettled(run);
    RunKeepsTorn(run);
    var s := Run(run);
    hide Run;
    if !Usable(s.c) {
      UnusableIsTorn(s);
    }
    if t: nat :| PhaseOf(s, t).Disconnects? || (PhaseOf(s, t).Connects? && s.c.useGrpc) {
      TornIsRefused(s.c, PhaseOf(s, t), true);
    }
  }

  // In a calm run a submission fails for want of a usable client exactly when some task is replacing the clients in one
  // of these two phases.
  lemma SubmissionCondition(run: seq<Label>, l: Label)
    requires Calm(run + [l]) && Do(Run(run), l).submitted.Some?
    ensures Unusable(Do(Run(run), l).submitted) <==> Replacing(Run(run + [l]))
  {
    assert (run + [l])[..|run|] == run;
    CalmPrefix(run + [l]);
    RunKeepsSettled(run);
    LockHasOneHolder(run);
    RunKeepsEquipped(run);
    RunKeepsSettled(run + [l]);
    RunKeepsTorn(run + [l]);
    Then(run, l);
    assert PhaseEquipped(Run(run).c, PhaseOf(Run(run), l.t)) && !PhaseOf(Run(run), l.t).Closes?;
    StepSettles(Run(run), l);
    var r := Do(Run(run), l);
    hide Run, Do;
    if Unusable(r.submitted) {
      UnusableIsTorn(r.s);
    }
    if t: nat :| PhaseOf(r.s, t).Disconnects? || (PhaseOf(r.s, t).Connects? && r.s.c.useGrpc) {
      TornIsRefused(r.s.c, PhaseOf(r.s, t), true);
      TornIsRefused(r.s.c, PhaseOf(r.s, t), false);
    }
  }

  // ---------------------------------------------------------------- over all runs

  // A run of these tasks, in which disconnects may fail or not.
  ghost predicate RunOf(tasks: set<nat>, disconnectsFail: bool, run: seq<Label>) {
    forall l :: l in run ==>
      && (l.Tick? || l.t in tasks)
      && (l.DisconnectDone? && l.ch.disconnectFails ==> disconnectsFail)
  }

  // The law: a submission always finds a usable client.
  ghost predicate AlwaysUsable(tasks: set<nat>, disconnectsFail: bool) {
    forall run, l :: RunOf(tasks, disconnectsFail, run + [l]) ==> !Unusable(Do(Run(run), l).submitted)
  }

  ghost predicate Alone(s: System, t: nat) {
    forall v: nat :: v != t ==> PhaseOf(s, v).Idle?
  }

  // A task that has the client for itself finds it usable whenever it is authenticated and not about to change that.
  predicate AloneUsable(s: System, t: nat) {
    var p := PhaseOf(s, t);
    && (s.c.authenticated && !InSetup(p) && !p.Closes? ==> Usable(s.c))
    && (NeedsOpenRest(p) ==> RestOpen(s.c))
  }

  lemma CloseKeepsAlone(s: System, l: Label)
    requires !l.Tick? && AloneUsable(s, l.t) && (l.DisconnectDone? ==> !l.ch.disconnectFails)
    requires (l.Start? && l.call.CallClose?) || PhaseOf(s, l.t).Closes?
    ensures AloneUsable(Step(s, l), l.t) && Do(s, l).submitted.None?
    ensures Step(s, l).tasks == s.tasks || Step(s, l).tasks == s.tasks[l.t := PhaseOf(Step(s, l), l.t)]
  {
    hide Submit, Expired;
  }

  lemma SettlesAlone(s: System, t: nat, r: Stepped)
    requires AloneUsable(s, t) && !PhaseOf(s, t).Closes? && Settles(s, t, r)
    ensures AloneUsable(r.s, t) && !Unusable(r.submitted)
  {
  }

  lemma StepKeepsAlone(s: System, t: nat, l: Label)
    requires Alone(s, t) && AloneUsable(s, t) && AllEquipped(s)
    requires (l.Tick? || l.t == t) && (l.DisconnectDone? ==> !l.ch.disconnectFails)
    ensures Alone(Step(s, l), t) && AloneUsable(Step(s, l), t) && !Unusable(Do(s, l).submitted)
  {
    var u := Step(s, l);
    if l.Tick? {
      assert forall v: nat :: PhaseOf(u, v) == PhaseOf(s, v);
    } else {
      if (l.Start? && l.call.CallClose?) || PhaseOf(s, t).Closes? {
        CloseKeepsAlone(s, l);
      } else {
        assert PhaseEquipped(s.c, PhaseOf(s, t));
        StepSettles(s, l);
        SettlesAlone(s, t, Do(s, l));
      }
      hide Do;
      assert forall v: nat :: v != t ==> PhaseOf(u, v) == PhaseOf(s, v);
    }
  }

  lemma {:induction false} AloneRun(t: nat, run: seq<Label>)
    requires RunOf({t}, false, run)
    ensures Alone(Run(run), t) && AloneUsable(Run(run), t)
  {
    if run != [] {
      var before, last := run[..|run| - 1], run[|run| - 1];
      assert last in run && forall l :: l in before ==> l in run;
      AloneRun(t, before);
      RunKeepsEquipped(before);
      StepKeepsAlone(Run(before), t, last);
    }
  }

  lemma AloneIsUsable(t: nat, run: seq<Label>, l: Label)
    requires RunOf({t}, false, run + [l])
    ensures !Unusable(Do(Run(run), l).submitted)
  {
    assert l in run + [l] && forall k :: k in run ==> k in run + [l];
    AloneRun(t, run);
    RunKeepsEquipped(run);
    StepKeepsAlone(Run(run), t, l);
  }

  // ---------------------------------------------------------------- runs that meet an unusable client

  const UP := Choice(true, true, false, true, true)
  const DOWN := Choice(false, true, false, true, true)
  const FAILING := Choice(false, true, true, true, true)
  const REFUSED := Choice(false, true, false, false, false)

  // A task submits while another, authenticated already, waits for the REST client it falls back to.
  function DuringFallback(t: nat): seq<Label> {
    [] + [Start(t, CallSubmit, DOWN)] + [LoginAnswer(t, LoggedIn("a", "r", 3600), DOWN)]
  }

  lemma GrpcErrorIsReachable(t: nat, other: nat)
    requires t != other
    ensures Do(Run(DuringFallback(t)), Start(other, CallSubmit, DOWN)).submitted == Some(Threw(GrpcNotConnected))
  {
    Then([], Start(t, CallSubmit, DOWN));
    Then([] + [Start(t, CallSubmit, DOWN)], LoginAnswer(t, LoggedIn("a", "r", 3600), DOWN));
  }

  // A task has logged in, and REST is selected.
  function LoginOverRest(t: nat): seq<Label> {
    [] + [Start(t, CallAuthenticate, DOWN)] + [LoginAnswer(t, LoggedIn("a", "r", 3600), DOWN)] + [ConnectDone(t, DOWN)]
  }

  predicate OnRest(s: System, tasks: map<nat, Phase>) {
    && s.c.token == Some(Token("a", "r", 3600)) && s.c.authenticated && !s.c.locked
    && !s.c.useGrpc && s.c.grpc == Some(Grpc("a", false)) && s.c.rest == Some(Rest("a", true, false))
    && s.holder == None && s.now == 0 && s.tasks == tasks
  }

  lemma LogsInOverRest(t: nat)
    ensures OnRest(Run(LoginOverRest(t)), map[t := Idle])
  {
    var a, b := Start(t, CallAuthenticate, DOWN), LoginAnswer(t, LoggedIn("a", "r", 3600), DOWN);
    Then([], a);
    Then([] + [a], b);
    Then([] + [a] + [b], ConnectDone(t, DOWN));
  }

  // It refreshes, and waits for the old REST client to close.
  function DuringRefresh(t: nat): seq<Label> {
    LoginOverRest(t) + [Start(t, CallRefresh, DOWN)] + [RefreshAnswer(t, RefreshGranted("b", 3600), DOWN)]
  }

  predicate Closing(s: System, t: nat) {
    && s.c.token == Some(Token("b", "r", 3600)) && s.c.authenticated && s.c.locked
    && !s.c.useGrpc && s.c.grpc == Some(Grpc("a", false)) && s.c.rest == Some(Rest("a", true, true))
    && s.holder == Some(t) && s.now == 0 && s.tasks == map[t := Disconnects(Stop)]
  }

  lemma RefreshCloses(t: nat)
    ensures Closing(Run(DuringRefresh(t)), t)
  {
    LogsInOverRest(t);
    hide Run, LoginOverRest;
    Then(LoginOverRest(t), Start(t, CallRefresh, DOWN));
    Then(LoginOverRest(t) + [Start(t, CallRefresh, DOWN)], RefreshAnswer(t, RefreshGranted("b", 3600), DOWN));
  }

  // Meanwhile another task submits.
  lemma RestErrorIsReachable(t: nat, other: nat)
    requires t != other
    ensures Do(Run(DuringRefresh(t)), Start(other, CallSubmit, DOWN)).submitted == Some(Threw(RestClosed))
  {
    RefreshCloses(t);
    hide Run;
  }

  // Or closing it fails, and later the task itself submits.
  function AfterFailedDisconnect(t: nat): seq<Label> {
    DuringRefresh(t) + [DisconnectDone(t, FAILING)]
  }

  lemma FailedDisconnectLeavesClosed(t: nat)
    ensures Do(Run(AfterFailedDisconnect(t)), Start(t, CallSubmit, DOWN)).submitted == Some(Threw(RestClosed))
  {
    RefreshCloses(t);
    hide Run, DuringRefresh;
    Then(DuringRefresh(t), DisconnectDone(t, FAILING));
  }

  // Over all runs of some tasks every submission finds a usable client exactly when there is at most one task, and no
  // disconnect of its fails.
  lemma UsableCondition(tasks: set<nat>, disconnectsFail: bool)
    ensures AlwaysUsable(tasks, disconnectsFail) <==> tasks == {} || (|tasks| == 1 && !disconnectsFail)
  {
    if tasks == {} {
      forall run, l | RunOf(tasks, disconnectsFail, run + [l]) ensures !Unusable(Do(Run(run), l).submitted) {
        assert l in run + [l];
      }
    } else {
      var t :| t in tasks;
      if |tasks| == 1 && !disconnectsFail {
        OneTask(tasks, t);
        forall run, l | RunOf(tasks, false, run + [l]) ensures !Unusable(Do(Run(run), l).submitted) {
          AloneIsUsable(t, run, l);
        }
      } else if |tasks| == 1 {
        FailedDisconnectLeavesClosed(t);
        assert RunOf(tasks, true, AfterFailedDisconnect(t) + [Start(t, CallSubmit, DOWN)]);
      } else {
        assert |tasks - {t}| == |tasks| - 1;
        var other :| other in tasks - {t};
        GrpcErrorIsReachable(t, other);
        assert RunOf(tasks, disconnectsFail, DuringFallback(t) + [Start(other, CallSubmit, DOWN)]);
      }
    }
  }

  lemma OneTask(tasks: set<nat>, t: nat)
    requires t in tasks && |tasks| == 1
    ensures tasks == {t}
  {
    assert |tasks - {t}| == 0;
  }

  // ---------------------------------------------------------------- a fallback that is overtaken

  // A fallback is on its way while gRPC is selected.
  predicate Falling(s: System) {
    && s.c.token == Some(Token("b", "r", 3600)) && s.c.authenticated && !s.c.locked
    && s.c.useGrpc && s.c.grpc == Some(Grpc("b", true)) && s.c.rest == Some(Rest("b", true, false))
    && s.holder == None && s.now == 0 && s.tasks == map[0 := FallsBack, 1 := Idle]
  }

  // A task's REST submission is refused and it sleeps; another refreshes, and gRPC is up again.
  function Overtaken(): seq<Label> {
    LoginOverRest(0) + [Start(0, CallSubmit, REFUSED)] + [Start(1, CallRefresh, UP)]
    + [RefreshAnswer(1, RefreshGranted("b", 3600), UP)]
  }

  function FallingRun(): seq<Label> {
    Overtaken() + [DisconnectDone(1, UP)] + [Wake(0, UP)]
  }

  predicate Refreshing(s: System) {
    && s.c.token == Some(Token("b", "r", 3600)) && s.c.authenticated && s.c.locked
    && !s.c.useGrpc && s.c.grpc == Some(Grpc("a", false)) && s.c.rest == Some(Rest("a", true, true))
    && s.holder == Some(1) && s.now == 0 && s.tasks == map[0 := Sleeps, 1 := Disconnects(Stop)]
  }

  lemma OvertakenRefreshes()
    ensures Refreshing(Run(Overtaken()))
  {
    var run := LoginOverRest(0);
    LogsInOverRest(0);
    hide Run, LoginOverRest;
    Then(run, Start(0, CallSubmit, REFUSED));
    Then(run + [Start(0, CallSubmit, REFUSED)], Start(1, CallRefresh, UP));
    var refused := run + [Start(0, CallSubmit, REFUSED)];
    Then(refused + [Start(1, CallRefresh, UP)], RefreshAnswer(1, RefreshGranted("b", 3600), UP));
  }

  lemma FallingIsReachable()
    ensures Falling(Run(FallingRun()))
  {
    OvertakenRefreshes();
    hide Run, Overtaken;
    Then(Overtaken(), DisconnectDone(1, UP));
    Then(Overtaken() + [DisconnectDone(1, UP)], Wake(0, UP));
  }

  // Then the other refreshes again.
  function OvertakenRun(): seq<Label> {
    FallingRun() + [Start(1, CallRefresh, UP)] + [RefreshAnswer(1, RefreshGranted("c", 3600), UP)]
      + [DisconnectDone(1, UP)]
  }

  // Calm matters: the fallback that the set-up overtook ends on a REST client that the set-up has closed, and no
  // task is left to replace it.
  lemma OvertakenFallback()
    ensures var r := Do(Run(OvertakenRun()), ConnectDone(0, UP));
      r.submitted == Some(Threw(RestClosed)) && r.s.tasks == map[0 := Idle, 1 := Idle]
  {
    var run, f := FallingRun(), RefreshAnswer(1, RefreshGranted("c", 3600), UP);
    FallingIsReachable();
    SetupOvertakes(Run(run));
    hide Run, FallingRun, Do, Step;
    Then(run, Start(1, CallRefresh, UP));
    Then(run + [Start(1, CallRefresh, UP)], f);
    Then(run + [Start(1, CallRefresh, UP)] + [f], DisconnectDone(1, UP));
  }

  lemma SetupOvertakes(s: System)
    requires Falling(s)
    ensures var f := RefreshAnswer(1, RefreshGranted("c", 3600), UP);
      var r := Do(Step(Step(Step(s, Start(1, CallRefresh, UP)), f), DisconnectDone(1, UP)), ConnectDone(0, UP));
      r.submitted == Some(Threw(RestClosed)) && r.s.tasks == map[0 := Idle, 1 := Idle]
  {
  }

  // ---------------------------------------------------------------- REST clients that exist

  // Every REST client that is made gets its HTTP client.
  predicate MakesRest(l: Label) {
    !l.Tick? && !l.Acquire? ==> l.ch.restReady
  }

  predicate Makes(r: Stepped) {
    RestMade(r.s.c) && r.submitted != Some(Threw(RestNotInitialized))
  }

  lemma FreeTaskMakesRest(s: System, t: nat, goal: Goal, ch: Choice)
    requires RestMade(s.c)
    ensures Makes(Attempts(s, t, ch)) && Makes(Returns(s, t, goal, ch))
  {
    hide Expired;
  }

  lemma InitializesMakesRest(s: System, t: nat, goal: Goal, ch: Choice)
    requires RestMade(s.c) && ch.restReady && s.c.token.Some?
    ensures Makes(Creates(s, t, goal, ch)) && Makes(Initializes(s, t, goal, ch))
  {
    var access := s.c.token.value.access;
    var down := s.(c := s.c.(grpc := Disconnected(s.c.grpc), rest := Closed(s.c.rest)));
    FreeTaskMakesRest(s.(c := s.c.(grpc := Some(Grpc(access, true)), useGrpc := true)), t, goal, ch);
    FreeTaskMakesRest(down.(c := down.c.(grpc := Some(Grpc(access, true)), useGrpc := true)), t, goal, ch);
    hide Returns;
  }

  lemma AnswersMakeRest(s: System, l: Label)
    requires RestMade(s.c) && MakesRest(l) && (l.LoginAnswer? || l.RefreshAnswer?)
    ensures Makes(Do(s, l))
  {
    hide Initializes;
    var goal := if PhaseOf(s, l.t).LoginPosts? || PhaseOf(s, l.t).RefreshPosts? then PhaseOf(s, l.t).goal else Stop;
    if l.LoginAnswer? && l.login.LoggedIn? {
      var token := Token(l.login.access, l.login.refresh, s.now + l.login.expiresIn);
      InitializesMakesRest(s.(c := s.c.(token := Some(token), authenticated := true)), l.t, goal, l.ch);
    } else if l.RefreshAnswer? && l.refresh.RefreshGranted? && s.c.token.Some? {
      var token := s.c.token.value.(access := l.refresh.access, expires := s.now + l.refresh.expiresIn);
      InitializesMakesRest(s.(c := s.c.(token := Some(token))), l.t, goal, l.ch);
    }
  }

  lemma StepMakesRest(s: System, l: Label)
    requires RestMade(s.c) && MakesRest(l)
    ensures Makes(Do(s, l))
  {
    if l.LoginAnswer? || l.RefreshAnswer? {
      AnswersMakeRest(s, l);
    } else if l.DisconnectDone? || l.ConnectDone? {
      DoneMakesRest(s, l);
    } else if l.Start? || l.Wake? {
      FreeTaskMakesRest(s, l.t, Stop, l.ch);
      hide Attempts;
    }
  }

  lemma DoneMakesRest(s: System, l: Label)
    requires RestMade(s.c) && MakesRest(l) && (l.DisconnectDone? || l.ConnectDone?)
    ensures Makes(Do(s, l))
  {
    var p := PhaseOf(s, l.t);
    var goal := if p.Disconnects? || p.Connects? then p.goal else Stop;
    FreeTaskMakesRest(s.(c := s.c.(useGrpc := false)), l.t, goal, l.ch);
    if s.c.token.Some? {
      InitializesMakesRest(s, l.t, goal, l.ch);
    }
    hide Attempts, Returns, Creates;
  }

  lemma {:induction false} RestIsMade(run: seq<Label>)
    requires forall l :: l in run ==> MakesRest(l)
    ensures RestMade(Run(run).c)
  {
    if run != [] {
      assert run[|run| - 1] in run;
      RestIsMade(run[..|run| - 1]);
      StepMakesRest(Run(run[..|run| - 1]), run[|run| - 1]);
    }
  }

  // Then, whatever the tasks do, no submission ends in "REST client not initialized".
  lemma RestIsInitialized(run: seq<Label>, l: Label)
    requires (forall k :: k in run ==> MakesRest(k)) && MakesRest(l)
    ensures Do(Run(run), l).submitted != Some(Threw(RestNotInitialized))
  {
    RestIsMade(run);
    StepMakesRest(Run(run), l);
  }
}
