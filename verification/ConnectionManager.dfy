/** The session hand-over: one transport serves one game connection after another.

    A game connection is its session here. It is disconnected exactly when its session has stopped, because
    `Disconnect` ends with stopping the session; what its behaviours do in a tick is a list of calls. */
module ConnectionManager {
  import opened Bags
  import opened Bytes
  import opened FrameWriting
  import opened TransportRules
  import opened TcpLuaTransport
  import opened GameSession

  datatype Active = Active(id: nat, game: GameSession)

  /** The turn of a connection whose poll used `ran` results and ended in `p`. A session that then finds its transport gone
      stops; one that still runs makes its calls. */
  ghost predicate IsTurn(s: Session, b: Books, t: Transport, v: AppVersion, net: Network, calls: Calls, after: Snapshot,
                         poll: PollTrace, ran: nat, p: Snapshot) {
    var handed := poll.after.results;
    && PollEffect(t, net, poll, v) && p.link == poll.after.state
    && ArePending(s.pending, handed) && Handles(s, b, handed, |handed|, ran, p.session, p.books)
    && if p.session.stopped then after == p
       else if p.link != Connected then after.session.stopped && Does(p, after, Done)
       else Does(p, after, calls) && (Stops(calls) ==> after.session.stopped)
  }

  /** `GameConnection::Update` leads to `after`. */
  ghost predicate TakesTurn(s: Session, b: Books, t: Transport, v: AppVersion, net: Network, calls: Calls, after: Snapshot) {
    exists poll, ran: nat, p :: IsTurn(s, b, t, v, net, calls, after, poll, ran, p)
  }

  class GameConnectionManager {
    var transport: TcpLuaTransport
    var listening: bool
    var accepting: Option<GameSession>
    var active: seq<Active>
    var nextConnectionId: nat
    var bridgePort: nat
    const usesPortableBridge: bool

    ghost function Games(): set<object>
      reads this
    {
      if active == [] then {} else {active[0].game}
    }

    /** A connection owns all that its transport owes. */
    ghost predicate Owns(game: GameSession)
      reads this, game, game.transport
    {
      game.transport == transport && game.Valid(multiset{}) && game.Linked(multiset{})
    }

    /** At most one connection, which owns what the transport owes; while the manager listens, nothing is pending. */
    ghost predicate Valid()
      reads this, transport, Games(), if active == [] then {} else {active[0].game.transport}
    {
      && transport.Valid() && accepting == None && |active| <= 1
      && (active != [] ==> Owns(active[0].game) && active[0].id < nextConnectionId)
      && (listening ==> active == [] && transport.pending == map[])
    }

    constructor (version: AppVersion, bridgePort: nat, usesPortableBridge: bool)
      ensures Valid() && listening && fresh(transport)
      ensures this.bridgePort == bridgePort && this.usesPortableBridge == usesPortableBridge
    {
      transport := new TcpLuaTransport(version);
      listening, accepting, active, nextConnectionId := true, None, [], 1;
      this.bridgePort, this.usesPortableBridge := bridgePort, usesPortableBridge;
    }

    /** The part of `UpdateConnections` that runs while there is no connection. */
    method AwaitConnection(net: Network) returns (ghost poll: PollTrace)
      requires Valid() && active == []
      modifies this`listening, transport
      ensures Valid() && active == []
      ensures PollEffect(old(transport.State()), net, poll, transport.version)
      ensures transport.State() == poll.after.(results := [])
      ensures listening <==> old(listening) || poll.after.state == Listening
    {
      poll := Drain(transport, net);
      if transport.state != Connected && transport.state != Stopped {
        listening := true;
      }
    }

    /** A new connection starts while the transport owes nothing and holds no result, so that no answer to an older
        session can reach it although its request IDs start at 1 again. */
    method AcceptConnection()
      requires Valid() && listening && transport.state == Connected && transport.results == []
      modifies this
      ensures Valid() && !listening && |active| == 1 && transport == old(transport)
      ensures fresh(active[0].game) && active[0].game.State() == NEW_SESSION && active[0].game.books == NEW_BOOKS
      ensures active[0].id == old(nextConnectionId) && nextConnectionId == old(nextConnectionId) + 1
      ensures transport.pending == map[] && transport.results == [] && transport.ledger.owed == multiset{}
    {
      var game := new GameSession(transport);
      accepting := Some(game);
      listening := false;
      active := active + [Active(nextConnectionId, accepting.value)];
      accepting := None;
      nextConnectionId := nextConnectionId + 1;
    }

    /** `GameConnection::Update`: poll, notice a lost transport, then let the behaviours make their calls. */
    method UpdateGame(game: GameSession, net: Network, calls: Calls)
      requires Owns(game) && !listening
      modifies game, game.transport
      ensures Owns(game)
      ensures if old(game.stopped) then game.stopped
              else TakesTurn(old(game.State()), old(game.books), old(transport.State()), transport.version, net, calls,
                             game.Now())
    {
      var handed, consumed;
      ghost var poll, tickets, ran;
      handed, consumed, poll, tickets, ran := game.Poll(net);
      ghost var polled := game.Now();
      if !game.stopped && transport.state != Connected {
        game.Stop(multiset{}, multiset{});
      } else if !game.stopped {
        game.RunCalls(calls, multiset{}, multiset{});
      }
      assert !old(game.stopped) ==>
        IsTurn(old(game.State()), old(game.books), old(transport.State()), transport.version, net, calls, game.Now(),
               poll, ran, polled);
    }

    /** `UpdateConnections`: without a connection, one poll, and a new session if that connects; then the turn of the
        connection, if there is one, which is removed if it has stopped. */
    method UpdateConnections(waiting: Network, net: Network, calls: Calls)
      returns (ghost poll: PollTrace, ghost began: bool, ghost after: Snapshot)
      requires Valid()
      modifies this, transport, Games()
      ensures Valid() && transport == old(transport)
      ensures old(active == []) ==>
                && PollEffect(old(transport.State()), waiting, poll, transport.version)
                && (began <==> old(listening) && poll.after.state == Connected)
      ensures old(active == []) && !began ==> active == [] && transport.State() == poll.after.(results := [])
      ensures old(active == []) && began ==>
                TakesTurn(NEW_SESSION, NEW_BOOKS, poll.after.(results := []), transport.version, net, calls, after)
      ensures old(active != [] && !active[0].game.stopped) ==>
                TakesTurn(old(active[0].game.State()), old(active[0].game.books), old(transport.State()),
                          transport.version, net, calls, after)
      ensures old(active != []) || began ==>
                if after.session.stopped then active == [] else |active| == 1 && active[0].game.Now() == after
    {
      began, poll := false, NothingDone(transport.State());
      after := Snapshot(NEW_SESSION, NEW_BOOKS, transport.state, multiset{}, []);
      if active == [] && accepting.None? {
        poll := BeginConnection(waiting);
        began := active != [];
      }
      if active != [] {
        after := UpdateActive(net, calls);
      }
    }

    /** While there is no connection: poll, and start one when the transport has connected. */
    method BeginConnection(waiting: Network) returns (ghost poll: PollTrace)
      requires Valid() && active == []
      modifies this, transport
      ensures Valid() && transport == old(transport) && fresh(Games())
      ensures PollEffect(old(transport.State()), waiting, poll, transport.version)
      ensures transport.State() == poll.after.(results := [])
      ensures active != [] <==> old(listening) && poll.after.state == Connected
      ensures active != [] ==> && active[0].game.State() == NEW_SESSION && active[0].game.books == NEW_BOOKS
                               && transport.results == [] && transport.pending == map[]
                               && transport.ledger.owed == multiset{}
    {
      poll := AwaitConnection(waiting);
      if listening && transport.state == Connected {
        AcceptConnection();
      }
    }

    /** The rest of `UpdateConnections`: the connection gets its turn, and is removed once it has disconnected. */
    method UpdateActive(net: Network, calls: Calls) returns (ghost after: Snapshot)
      requires Valid() && active != []
      modifies this, transport, Games()
      ensures Valid() && transport == old(transport)
      ensures !old(active[0].game.stopped) ==>
                TakesTurn(old(active[0].game.State()), old(active[0].game.books), old(transport.State()),
                          transport.version, net, calls, after)
      ensures if after.session.stopped then active == [] && (listening <==> transport.state == Listening)
              else active == old(active) && active[0].game.Now() == after && !listening
    {
      UpdateGame(active[0].game, net, calls);
      after := active[0].game.Now();
      RemoveStopped();
    }

    method RemoveStopped()
      requires Valid() && active != []
      modifies this`active, this`listening
      ensures Valid()
      ensures if old(active[0].game.stopped) then active == [] && (listening <==> transport.state == Listening)
              else active == old(active) && !listening
    {
      if active[0].game.stopped {
        active := [];
        if transport.state != Connected && transport.state != Stopped {
          listening := true;
        }
      }
    }

    /** `DisconnectConnections`. */
    method DisconnectConnections()
      requires Valid()
      modifies this`accepting, this`active, transport, Games()
      ensures Valid() && active == [] && transport.state == old(transport.state)
      ensures old(active) != [] ==> old(active)[0].game.stopped
    {
      if active != [] {
        StopGame(active[0].game);
      }
      active := [];
    }

    method StopGame(game: GameSession)
      requires Valid() && Owns(game)
      modifies game, game.transport
      ensures transport.Valid() && game.stopped
      ensures transport.state == old(transport.state) && transport.pending == old(transport.pending)
    {
      game.Stop(multiset{}, multiset{});
    }

    /** A port that the user may choose; `port` is what the text says, if it is a number. */
    predicate IsPort(port: Option<nat>) {
      port.Some? && 1 <= port.value <= 65535
    }

    /** `ChangeBridgePort`: for another port that can be opened, the old transport and its connections are stopped, and a
        new transport with nothing pending takes over; otherwise nothing changes. */
    method ChangeBridgePort(port: Option<nat>, canListen: bool, turns: seq<seq<SendOutcome>>)
      requires Valid()
      modifies this, transport, Games()
      ensures Valid()
      ensures if old(usesPortableBridge && IsPort(port) && port.value != bridgePort) && canListen
              then fresh(transport) && listening && active == [] && Some(bridgePort) == port
              else transport == old(transport) && active == old(active) && listening == old(listening)
                   && bridgePort == old(bridgePort)
    {
      if !usesPortableBridge || !IsPort(port) {
        return;
      }
      if port.value != bridgePort {
        if !canListen {
          return;
        }
        Rebind(port.value, turns);
      }
    }

    method Rebind(port: nat, turns: seq<seq<SendOutcome>>)
      requires Valid()
      modifies this, transport, Games()
      ensures Valid() && fresh(transport) && listening && active == [] && bridgePort == port
      ensures old(active) != [] ==> old(active)[0].game.stopped
    {
      var replacement := new TcpLuaTransport(transport.version);
      Stop(turns);
      transport := replacement;
      bridgePort := port;
      listening := true;
    }

    method StopTransport(turns: seq<seq<SendOutcome>>)
      requires Valid()
      modifies transport, this`listening
      ensures Valid() && transport.state == Stopped && !listening
    {
      ghost var order;
      var sent;
      sent, order := transport.Stop(turns);
      listening := false;
    }

    method Stop(turns: seq<seq<SendOutcome>>)
      requires Valid()
      modifies this, transport, Games()
      ensures Valid() && !listening && active == [] && transport.state == Stopped
      ensures old(active) != [] ==> old(active)[0].game.stopped
    {
      StopTransport(turns);
      DisconnectConnections();
    }
  }

  /** A poll whose results are thrown away cannot leave anything pending that was not pending before. */
  method Drain(transport: TcpLuaTransport, net: Network) returns (ghost poll: PollTrace)
    requires transport.Valid()
    modifies transport
    ensures transport.Valid() && transport.State() == poll.after.(results := [])
    ensures PollEffect(old(transport.State()), net, poll, transport.version)
    ensures old(transport.pending) == map[] ==> transport.pending == map[]
  {
    ghost var before := transport.ledger;
    var handed, consumed;
    ghost var tickets;
    handed, consumed, poll, tickets := transport.PollResults(net);
    NothingLeft(old(transport.pending), before.answers, transport.pending, tickets);
  }

  lemma NothingLeft(before: map<u32, PendingRequest>, answers: seq<Ticket>, after: map<u32, PendingRequest>,
                    tickets: seq<Ticket>)
    requires Bag(before) + multiset(answers) == Bag(after) + multiset(tickets) && |answers| <= |tickets|
    ensures before == map[] ==> after == map[]
  {
    assert |Bag(before) + multiset(answers)| == |Bag(before)| + |answers|;
    assert |Bag(after) + multiset(tickets)| == |Bag(after)| + |tickets|;
    assert before == map[] ==> |Bag(before)| == 0;
    assert after.Items == {} ==> after == map[];
  }
}
