// The WebSocket channel registry: who is subscribed to what, and broadcasts that hold the lock while they send.
module ChannelRegistry {
  import opened Wrappers

  type Client = nat
  type Channel = string

  const CHANNELS: set<Channel> := {"dashboard", "logs", "metrics", "sensors", "alerts"}

  // The lock is free, or a broadcast holds it: whom it has still to send to, and how the sends so far went.
  // (Every other holder lets go of it before it waits for anything.)
  datatype Lock = Free | Sending(channel: Channel, todo: set<Client>, sent: nat, dead: set<Client>)

  // subscribed has an entry for every connection whose handler is running.
  datatype Registry = Registry(clients: map<Channel, set<Client>>, subscribed: map<Client, set<Channel>>, lock: Lock)

  const START := Registry(map ch | ch in CHANNELS :: {}, map[], Free)

  datatype Event = Connect(client: Client)
                 | Subscribe(client: Client, channel: Channel)
                 | Unsubscribe(client: Client, channel: Channel)
                 | Disconnect(client: Client)
                 | Begin(channel: Channel)
                 | Send(client: Client, ok: bool)
                 | End
                 | Cancel

  function AfterSubscribe(r: Registry, client: Client, channel: Channel): Registry {
    if client in r.subscribed && channel in r.clients then
      r.(clients := r.clients[channel := r.clients[channel] + {client}],
         subscribed := r.subscribed[client := r.subscribed[client] + {channel}])
    else r
  }

  function AfterUnsubscribe(r: Registry, client: Client, channel: Channel): Registry {
    if client in r.subscribed && channel in r.clients then
      r.(clients := r.clients[channel := r.clients[channel] - {client}],
         subscribed := r.subscribed[client := r.subscribed[client] - {channel}])
    else r
  }

  // The finally clause: leave the channels in the handler's own set, and only those.
  function AfterDisconnect(r: Registry, client: Client): Registry {
    if client in r.subscribed then
      r.(clients := Without(r.clients, r.subscribed[client], client), subscribed := r.subscribed - {client})
    else r
  }

  function Without(clients: map<Channel, set<Client>>, channels: set<Channel>, client: Client): map<Channel,
      set<Client>> {
    map ch | ch in clients :: if ch in channels then clients[ch] - {client} else clients[ch]
  }

  // One send, which works or finds the client dead.
  function Sent(lock: Lock, c: Client, ok: bool): Lock
    requires lock.Sending?
  {
    if ok then lock.(todo := lock.todo - {c}, sent := lock.sent + 1)
    else lock.(todo := lock.todo - {c}, dead := lock.dead + {c})
  }

  // An event that needs the lock and does not get it has to wait: it does nothing now.
  function Step(r: Registry, e: Event): Registry {
    match e
    case Connect(client) => if client in r.subscribed then r else r.(subscribed := r.subscribed[client := {}])
    case Subscribe(client, channel) => if r.lock.Free? then AfterSubscribe(r, client, channel) else r
    case Unsubscribe(client, channel) => if r.lock.Free? then AfterUnsubscribe(r, client, channel) else r
    case Disconnect(client) => if r.lock.Free? then AfterDisconnect(r, client) else r
    case Begin(channel) =>
      if r.lock.Free? && channel in r.clients then r.(lock := Sending(channel, r.clients[channel], 0, {})) else r
    case Send(client, ok) =>
      if r.lock.Sending? && client in r.lock.todo then
        r.(lock := Sent(r.lock, client, ok))
      else r
    case End =>
      if r.lock.Sending? && r.lock.todo == {} && r.lock.channel in r.clients then
        r.(clients := r.clients[r.lock.channel := r.clients[r.lock.channel] - r.lock.dead], lock := Free)
      else r
    case Cancel => r.(lock := Free)
  }

  function Run(r: Registry, events: seq<Event>): Registry {
    if events == [] then r else Step(Run(r, events[..|events| - 1]), events[|events| - 1])
  }

  lemma Then(r: Registry, events: seq<Event>, e: Event)
    ensures Run(r, events + [e]) == Step(Run(r, events), e)
  {
    assert (events + [e])[..|events|] == events;
  }

  lemma {:induction false} RunConcat(r: Registry, first: seq<Event>, second: seq<Event>)
    ensures Run(r, first + second) == Run(Run(r, first), second)
  {
    hide Step;
    if second == [] {
      assert first + second == first;
    } else {
      var all := first + second;
      assert all[..|all| - 1] == first + second[..|second| - 1] && all[|all| - 1] == second[|second| - 1];
      RunConcat(r, first, second[..|second| - 1]);
    }
  }

  // ---------------------------------------------------------------- what every run keeps

  predicate In(r: Registry, client: Client, channel: Channel) {
    channel in r.clients && client in r.clients[channel]
  }

  // The channels that hold a client are in its handler's own set, and that set names known channels.
  ghost predicate Tracked(r: Registry) {
    && (forall client, channel :: In(r, client, channel) ==> client in r.subscribed && channel in r.subscribed[client])
    && forall client :: client in r.subscribed ==> r.subscribed[client] <= r.clients.Keys
  }

  // What a broadcast has sent, found dead and has still to send to is its channel as it was at the start.
  ghost predicate Accounted(r: Registry) {
    r.lock.Sending? ==>
      && r.lock.channel in r.clients
      && r.lock.todo <= r.clients[r.lock.channel] && r.lock.dead <= r.clients[r.lock.channel]
         && r.lock.dead !! r.lock.todo
      && r.lock.sent + |r.lock.dead| + |r.lock.todo| == |r.clients[r.lock.channel]|
  }

  ghost predicate Inv(r: Registry) {
    r.clients.Keys == CHANNELS && Tracked(r) && Accounted(r)
  }

  lemma StepKeepsTracked(r: Registry, e: Event)
    requires Tracked(r)
    ensures Tracked(Step(r, e)) && Step(r, e).clients.Keys == r.clients.Keys
  {
    var s := Step(r, e);
    forall client, channel | In(s, client, channel)
      ensures client in s.subscribed && channel in s.subscribed[client]
    {
      assert In(r, client, channel) || e == Subscribe(client, channel);
    }
  }

  lemma StepKeepsAccounted(r: Registry, e: Event)
    requires Accounted(r)
    ensures Accounted(Step(r, e))
  {
    if e.Send? && r.lock.Sending? && e.client in r.lock.todo {
      assert |r.lock.todo - {e.client}| == |r.lock.todo| - 1;
      assert |r.lock.dead + {e.client}| == |r.lock.dead| + 1;
    }
  }

  lemma {:induction false} RunKeepsInv(events: seq<Event>)
    ensures Inv(Run(START, events))
  {
    if events != [] {
      RunKeepsInv(events[..|events| - 1]);
      StepKeepsTracked(Run(START, events[..|events| - 1]), events[|events| - 1]);
      StepKeepsAccounted(Run(START, events[..|events| - 1]), events[|events| - 1]);
    }
  }

  // Once its handler has cleaned up, a client is in no channel, whatever else happens, unless it connects again.
  lemma {:induction false} GoneIsGone(before: seq<Event>, later: seq<Event>, client: Client, channel: Channel)
    requires Run(START, before).lock.Free? && Connect(client) !in later
    ensures !In(Run(START, before + [Disconnect(client)] + later), client, channel)
  {
    StaysAway(before, later, client);
    RunKeepsInv(before + [Disconnect(client)] + later);
  }

  lemma {:induction false} StaysAway(before: seq<Event>, later: seq<Event>, client: Client)
    requires Run(START, before).lock.Free? && Connect(client) !in later
    ensures client !in Run(START, before + [Disconnect(client)] + later).subscribed
  {
    var gone := before + [Disconnect(client)];
    if later == [] {
      assert gone + later == gone;
      Then(START, before, Disconnect(client));
    } else {
      var init, last := later[..|later| - 1], later[|later| - 1];
      assert last in later && gone + later == (gone + init) + [last];
      StaysAway(before, init, client);
      Then(START, gone + init, last);
    }
  }

  // ---------------------------------------------------------------- membership is the last event about it

  // The event makes the client a member of the channel.
  ghost predicate Joins(r: Registry, e: Event, client: Client, channel: Channel) {
    e == Subscribe(client, channel) && r.lock.Free? && client in r.subscribed
    && channel in {"dashboard", "logs", "metrics", "sensors", "alerts"}
  }

  // The event ends the membership: unsubscription, the end of the handler, or a broadcast that could not send.
  ghost predicate Leaves(r: Registry, e: Event, client: Client, channel: Channel) {
    || (r.lock.Free? && (e == Unsubscribe(client, channel) || e == Disconnect(client)) && client in r.subscribed)
    || (e == End && r.lock.Sending? && r.lock.todo == {} && r.lock.channel == channel && client in r.lock.dead)
  }

  ghost predicate JoinedLast(events: seq<Event>, client: Client, channel: Channel, i: nat) {
    && i < |events| && Joins(Run(START, events[..i]), events[i], client, channel)
    && forall j :: i < j < |events| ==> !Leaves(Run(START, events[..j]), events[j], client, channel)
  }

  lemma JoinedLastExtends(events: seq<Event>, e: Event, client: Client, channel: Channel, i: nat)
    requires i < |events|
    ensures JoinedLast(events + [e], client, channel, i)
      <==> JoinedLast(events, client, channel, i) && !Leaves(Run(START, events), e, client, channel)
  {
    var all := events + [e];
    assert forall j :: 0 <= j < |events| ==> all[..j] == events[..j] && all[j] == events[j];
    assert all[..|events|] == events;
  }

  lemma MembershipSteps(r: Registry, e: Event, client: Client, channel: Channel)
    requires Inv(r)
    ensures In(Step(r, e), client, channel)
      <==> Joins(r, e, client, channel) || (In(r, client, channel) && !Leaves(r, e, client, channel))
  {
  }

  // A client is in a channel exactly when it subscribed to it and nothing since then ended the membership.
  lemma {:induction false} MembershipIsHistory(events: seq<Event>, client: Client, channel: Channel)
    ensures In(Run(START, events), client, channel) <==> exists i :: JoinedLast(events, client, channel, i)
  {
    if events != [] {
      var n := |events| - 1;
      var init, last := events[..n], events[n];
      assert events == init + [last];
      RunKeepsInv(init);
      MembershipIsHistory(init, client, channel);
      MembershipSteps(Run(START, init), last, client, channel);
      forall i: nat | i < n
        ensures JoinedLast(events, client, channel, i)
          <==> JoinedLast(init, client, channel, i) && !Leaves(Run(START, init), last, client, channel)
      {
        JoinedLastExtends(init, last, client, channel, i);
      }
      assert JoinedLast(events, client, channel, n) <==> Joins(Run(START, init), last, client, channel);
    }
  }

  // The handler of a client is running exactly when the client has connected and its handler has not cleaned up since,
  // which takes the lock.
  ghost predicate ConnectedBy(events: seq<Event>, client: Client, i: nat) {
    && i < |events| && events[i] == Connect(client)
    && forall j :: i < j < |events| ==> events[j] != Disconnect(client) || !Run(START, events[..j]).lock.Free?
  }

  lemma ConnectedByExtends(events: seq<Event>, e: Event, client: Client, i: nat)
    requires i < |events|
    ensures ConnectedBy(events + [e], client, i)
      <==> ConnectedBy(events, client, i) && (e != Disconnect(client) || !Run(START, events).lock.Free?)
  {
    var all := events + [e];
    assert forall j :: 0 <= j < |events| ==> all[..j] == events[..j] && all[j] == events[j];
    assert all[..|events|] == events;
  }

  lemma ConnectionSteps(r: Registry, e: Event, client: Client)
    ensures client in Step(r, e).subscribed
      <==> e == Connect(client) || (client in r.subscribed && (e != Disconnect(client) || !r.lock.Free?))
  {
  }

  lemma {:induction false} ConnectionIsHistory(events: seq<Event>, client: Client)
    ensures client in Run(START, events).subscribed <==> exists i :: ConnectedBy(events, client, i)
  {
    if events != [] {
      var n := |events| - 1;
      var init, last := events[..n], events[n];
      assert events == init + [last];
      ConnectionIsHistory(init, client);
      ConnectionSteps(Run(START, init), last, client);
      forall i: nat | i < n
        ensures ConnectedBy(events, client, i)
          <==> ConnectedBy(init, client, i) && (last != Disconnect(client) || !Run(START, init).lock.Free?)
      {
        ConnectedByExtends(init, last, client, i);
      }
      assert ConnectedBy(events, client, n) <==> last == Connect(client);
    }
  }

  // ---------------------------------------------------------------- broadcasts

  // How many sends to the client the events hold.
  function Attempts(r: Registry, events: seq<Event>, client: Client): nat {
    if events == [] then 0
    else
      var s, last := Run(r, events[..|events| - 1]), events[|events| - 1];
      Attempts(r, events[..|events| - 1], client)
      + if last.Send? && last.client == client && s.lock.Sending? && client in s.lock.todo then 1 else 0
  }

  // While a broadcast is under way nobody changes the registry, whatever is tried,
  // and each member is either still to do or has been sent to once.
  lemma {:induction false} BroadcastIsIsolated(r: Registry, channel: Channel, events: seq<Event>)
    requires r.lock.Free? && channel in r.clients && End !in events && Cancel !in events
    ensures var s := Run(Step(r, Begin(channel)), events);
      && s.clients == r.clients && s.lock.Sending? && s.lock.channel == channel
      && forall client :: Attempts(Step(r, Begin(channel)), events, client) + (if client in s.lock.todo then 1 else 0)
                          == if client in r.clients[channel] then 1 else 0
  {
    if events != [] {
      assert events[|events| - 1] in events;
      BroadcastIsIsolated(r, channel, events[..|events| - 1]);
    }
  }

  // A broadcast that is given up frees the lock and leaves every channel as it was.
  lemma CancelledChangesNothing(r: Registry, channel: Channel, events: seq<Event>)
    requires r.lock.Free? && channel in r.clients && End !in events && Cancel !in events
    ensures var s := Run(r, [Begin(channel)] + events + [Cancel]); s.clients == r.clients && s.lock.Free?
  {
    BroadcastIsIsolated(r, channel, events);
    Then(r, [], Begin(channel));
    assert [] + [Begin(channel)] == [Begin(channel)];
    RunConcat(r, [Begin(channel)], events);
    Then(r, [Begin(channel)] + events, Cancel);
    hide Run;
  }

  predicate SentToAll(lock: Lock) {
    lock.Sending? && lock.todo == {}
  }

  // A broadcast that runs to its end has sent to every member of the channel at its start exactly once;
  // its count and the dead clients add up to that membership, and only the dead clients are removed.
  lemma BroadcastAccounts(before: seq<Event>, channel: Channel, events: seq<Event>)
    requires Run(START, before).lock.Free? && channel in CHANNELS && End !in events && Cancel !in events
    requires SentToAll(Run(START, before + [Begin(channel)] + events).lock)
    ensures var r, s := Run(START, before), Run(START, before + [Begin(channel)] + events);
      && channel in r.clients && s.lock.Sending?
      && s.lock.sent + |s.lock.dead| == |r.clients[channel]| && s.lock.dead <= r.clients[channel]
      && Step(s, End).clients == r.clients[channel := r.clients[channel] - s.lock.dead] && Step(s, End).lock.Free?
      && forall client ::
           Attempts(Step(r, Begin(channel)), events, client) == if client in r.clients[channel] then 1 else 0
  {
    var r := Run(START, before);
    RunKeepsInv(before);
    RunKeepsInv(before + [Begin(channel)] + events);
    BroadcastIsIsolated(r, channel, events);
    Then(START, before, Begin(channel));
    RunConcat(START, before + [Begin(channel)], events);
  }

  // ---------------------------------------------------------------- the methods

  function AfterBroadcast(r: Registry, channel: Channel, alive: set<Client>): Registry {
    if channel in r.clients then r.(clients := r.clients[channel := r.clients[channel] * alive]) else r
  }

  // The broadcast's lock when it has sent to some of the members.
  function Halfway(channel: Channel, members: set<Client>, done: set<Client>, alive: set<Client>): Lock {
    Sending(channel, members - done, |done * alive|, done - alive)
  }

  lemma HalfwayStarts(channel: Channel, members: set<Client>, alive: set<Client>)
    ensures Halfway(channel, members, {}, alive) == Sending(channel, members, 0, {})
  {
    assert members - {} == members && {} - alive == {} && {} * alive == {};
  }

  lemma HalfwayAdvances(channel: Channel, members: set<Client>, done: set<Client>, alive: set<Client>, c: Client)
    requires c in members && c !in done
    ensures Halfway(channel, members, done + {c}, alive) == Sent(Halfway(channel, members, done, alive), c, c in alive)
  {
    assert members - (done + {c}) == (members - done) - {c};
    if c in alive {
      assert (done + {c}) * alive == done * alive + {c};
      assert (done + {c}) - alive == done - alive;
    } else {
      assert (done + {c}) * alive == done * alive;
      assert (done + {c}) - alive == (done - alive) + {c};
    }
  }

  lemma OneMore(clients: map<Channel, set<Client>>, mine: set<Channel>, todo: set<Channel>, channel: Channel,
      client: Client)
    requires channel in todo && todo <= mine <= clients.Keys
    ensures Without(clients, mine - (todo - {channel}), client)
      == Without(clients, mine - todo, client)[channel := clients[channel] - {client}]
    ensures Without(clients, mine - todo, client)[channel] == clients[channel]
  {
    var now := Without(clients, mine - (todo - {channel}), client);
    var was := Without(clients, mine - todo, client);
    forall ch | ch in clients ensures now[ch] == was[channel := clients[channel] - {client}][ch] {
    }
  }

  lemma NothingLeft(r: Registry, client: Client)
    requires client in r.subscribed && Tracked(r)
    ensures forall channel :: !In(AfterDisconnect(r, client), client, channel)
  {
    forall channel ensures !In(AfterDisconnect(r, client), client, channel) {
      assert In(r, client, channel) ==> channel in r.subscribed[client];
    }
  }

  class Registrar {
    var clients: map<Channel, set<Client>>
    var subscribed: map<Client, set<Channel>>

    constructor ()
      ensures View() == START
    {
      clients := map ch | ch in CHANNELS :: {};
      subscribed := map[];
    }

    ghost function View(): Registry
      reads this
    {
      Registry(clients, subscribed, Free)
    }

    method Join(client: Client, channel: Channel) returns (known: bool)
      requires client in subscribed
      modifies this
      ensures View() == AfterSubscribe(old(View()), client, channel)
      ensures known <==> channel in old(clients)
    {
      if channel !in clients {
        return false;
      }
      clients := clients[channel := clients[channel] + {client}];
      subscribed := subscribed[client := subscribed[client] + {channel}];
      return true;
    }

    method Leave(client: Client, channel: Channel) returns (known: bool)
      requires client in subscribed
      modifies this
      ensures View() == AfterUnsubscribe(old(View()), client, channel)
      ensures known <==> channel in old(clients)
    {
      if channel !in clients {
        return false;
      }
      clients := clients[channel := clients[channel] - {client}];
      subscribed := subscribed[client := subscribed[client] - {channel}];
      return true;
    }

    // The cleanup loop over the handler's own set.
    method CleanUp(client: Client)
      requires client in subscribed && Inv(View())
      modifies this
      ensures View() == AfterDisconnect(old(View()), client)
      ensures forall channel :: !In(View(), client, channel)
    {
      var mine, todo := subscribed[client], subscribed[client];
      ghost var before := clients;
      NothingLeft(View(), client);
      while todo != {}
        invariant todo <= mine <= before.Keys && subscribed == old(subscribed) && clients.Keys == before.Keys
        invariant clients == Without(before, mine - todo, client)
        decreases |todo|
      {
        var channel :| channel in todo;
        OneMore(before, mine, todo, channel, client);
        clients := clients[channel := clients[channel] - {client}];
        todo := todo - {channel};
      }
      assert mine - {} == mine;
      subscribed := subscribed - {client};
    }

    // broadcast: send to every member, in whatever order the set yields, then remove those that could not be reached.
    method Broadcast(channel: Channel, alive: set<Client>) returns (sent: nat)
      modifies this`clients
      ensures View() == AfterBroadcast(old(View()), channel, alive)
      ensures sent == if channel in old(clients) then |old(clients)[channel] * alive| else 0
    {
      if channel !in clients {
        return 0;
      }
      var members := clients[channel];
      var todo, dead := members, {};
      sent := 0;
      HalfwayStarts(channel, members, alive);
      ghost var done := {};
      while todo != {}
        invariant Sending(channel, todo, sent, dead) == Halfway(channel, members, done, alive)
        invariant done <= members && clients == old(clients)
        decreases |todo|
      {
        var client :| client in todo;
        HalfwayAdvances(channel, members, done, alive, client);
        if client in alive {
          sent := sent + 1;
        } else {
          dead := dead + {client};
        }
        todo, done := todo - {client}, done + {client};
      }
      assert done == members;
      assert members - dead == members * alive;
      clients := clients[channel := clients[channel] - dead];
    }
  }

  // The send events of a broadcast that goes through the clients in this order.
  function Sends(order: seq<Client>, alive: set<Client>): seq<Event> {
    if order == [] then []
    else
      var last := order[|order| - 1];
      Sends(order[..|order| - 1], alive) + [Send(last, last in alive)]
  }

  function Elements(order: seq<Client>): set<Client> {
    set c | c in order
  }

  lemma {:induction false} SendsRun(b: Registry, channel: Channel, members: set<Client>, order: seq<Client>,
      alive: set<Client>)
    requires b.lock == Sending(channel, members, 0, {}) && Elements(order) <= members
    requires Distinct(order)
    ensures Run(b, Sends(order, alive)) == b.(lock := Halfway(channel, members, Elements(order), alive))
  {
    if order == [] {
      HalfwayStarts(channel, members, alive);
      assert Elements(order) == {};
    } else {
      var init, last := order[..|order| - 1], order[|order| - 1];
      LastElement(order);
      hide Elements, Distinct, Step, Run;
      SendsRun(b, channel, members, init, alive);
      Then(b, Sends(init, alive), Send(last, last in alive));
      SendStep(b, channel, members, Elements(init), alive, last);
    }
  }

  lemma SendStep(b: Registry, channel: Channel, members: set<Client>, done: set<Client>, alive: set<Client>, c: Client)
    requires c in members && c !in done
    ensures Step(b.(lock := Halfway(channel, members, done, alive)), Send(c, c in alive))
      == b.(lock := Halfway(channel, members, done + {c}, alive))
  {
    HalfwayAdvances(channel, members, done, alive, c);
  }

  lemma LastElement(order: seq<Client>)
    requires order != [] && Distinct(order)
    ensures var init, last := order[..|order| - 1], order[|order| - 1];
      Distinct(init) && Elements(order) == Elements(init) + {last} && last !in Elements(init)
  {
    assert order == order[..|order| - 1] + [order[|order| - 1]];
  }

  lemma HalfwayEnds(r: Registry, channel: Channel, alive: set<Client>)
    requires channel in r.clients
    ensures var s := r.(lock := Halfway(channel, r.clients[channel], r.clients[channel], alive));
      Step(s, End) == AfterBroadcast(r.(lock := Free), channel, alive)
  {
    var members := r.clients[channel];
    assert members - members == {};
    assert members - (members - alive) == members * alive;
  }

  // The method's result is that of a run that sends in any order of the members and then ends.
  lemma BroadcastIsRun(r: Registry, channel: Channel, order: seq<Client>, alive: set<Client>)
    requires r.lock.Free? && channel in r.clients && Elements(order) == r.clients[channel]
    requires Distinct(order)
    ensures var s := Run(Step(r, Begin(channel)), Sends(order, alive));
      && Step(s, End) == AfterBroadcast(r, channel, alive) && s.lock.Sending?
         && s.lock.sent == |r.clients[channel] * alive|
  {
    SendsRun(Step(r, Begin(channel)), channel, r.clients[channel], order, alive);
    hide Run;
    HalfwayEnds(r, channel, alive);
  }
}
