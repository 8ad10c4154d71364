/** Where the player IDs and the bytes in the ROM come from: what the ROM has answered, and what the peers have sent. */
module MultiplayerHistory {
  import opened Bytes
  import opened MultiplayerRules

  // ----- IDs on a host

  predicate IsConnectedAs(s: Multiplayer, p: nat, id: nat) {
    p in s.peers && s.peers[p].romConnected && s.peers[p].playerId == id
  }

  /** A host's write; a player's state comes from a peer that was connected, under its ID. */
  predicate FromConnected(s: Multiplayer, w: RomWrite) {
    w.byHost && (w.cause.PlayerStateFrom? ==> IsConnectedAs(s, w.cause.sender.number, w.cause.sender.peer.playerId))
  }

  /** Nobody is given an ID on the way from `s` to `t`. */
  ghost predicate KeepsIds(s: Multiplayer, t: Multiplayer) {
    && s.isHost && t.isHost && s.writes <= t.writes
    && (forall p :: p in t.peers && t.peers[p].romConnected ==> IsConnectedAs(s, p, t.peers[p].playerId))
    && (forall i :: |s.writes| <= i < |t.writes| ==> FromConnected(s, t.writes[i]))
  }

  lemma KeepsBoth(s: Multiplayer, t: Multiplayer, u: Multiplayer)
    requires KeepsIds(s, t) && KeepsIds(t, u)
    ensures KeepsIds(s, u)
  {
    forall i | |s.writes| <= i < |u.writes| ensures FromConnected(s, u.writes[i]) {
      assert i < |t.writes| ==> u.writes[i] == t.writes[i];
      assert i >= |t.writes| ==> FromConnected(t, u.writes[i]);
    }
  }

  lemma HandshakeKeepsIds(s: Multiplayer, l: Layout, p: nat, data: seq<byte>, taken: bool)
    requires s.isHost
    ensures KeepsIds(s, HandshakeArrives(s, l, p, data, taken))
  {
  }

  lemma HelloKeepsIds(s: Multiplayer, l: Layout, p: nat, compatible: bool, taken: bool)
    requires ValidMultiplayer(s, l) && s.isHost
    ensures KeepsIds(s, HelloArrives(s, l, p, compatible, taken))
  {
    if p in s.peers && !s.peers[p].helloReceived && compatible {
      var t := HelloNoted(s, p);
      assert KeepsIds(s, t);
      HandshakeKeepsIds(t, l, p, s.peers[p].early, taken);
      KeepsBoth(s, t, HandshakeArrives(t, l, p, s.peers[p].early, taken));
    }
  }

  lemma MessageKeepsIds(s: Multiplayer, l: Layout, p: nat, packet: Packet)
    requires ValidMultiplayer(s, l) && s.isHost
    ensures KeepsIds(s, MessageArrives(s, l, p, packet))
  {
    if packet.channel == Control {
      HelloKeepsIds(s, l, p, packet.compatible, IsTaken(packet, 0));
    } else if packet.channel == HandshakeChannel {
      HandshakeKeepsIds(s, l, p, packet.data, IsTaken(packet, 0));
    }
  }

  lemma EventKeepsIds(s: Multiplayer, l: Layout, e: NetEvent)
    requires ValidMultiplayer(s, l) && s.isHost
    ensures KeepsIds(s, EventHappens(s, l, e))
  {
    if e.Receives? {
      MessageKeepsIds(s, l, e.peer, e.packet);
    }
  }

  lemma {:induction false} EventsKeepIds(s: Multiplayer, l: Layout, es: seq<NetEvent>)
    requires ValidMultiplayer(s, l) && s.isHost && ArePossible(s, l, es)
    ensures KeepsIds(s, EventsHappen(s, l, es))
    decreases |es|
  {
    if es != [] {
      var t := EventHappens(s, l, es[0]);
      EventKeepsIds(s, l, es[0]);
      EventIsValid(s, l, es[0]);
      EventsKeepIds(t, l, es[1..]);
      KeepsBoth(s, t, EventsHappen(t, l, es[1..]));
    }
  }

  lemma {:induction false} ExpireKeepsIds(s: Multiplayer, expired: seq<nat>)
    requires s.isHost
    ensures KeepsIds(s, Expire(s, expired))
    decreases |expired|
  {
    if expired != [] {
      var t := Rejected(s, expired[0]);
      ExpireKeepsIds(t, expired[1..]);
      KeepsBoth(s, t, Expire(t, expired[1..]));
    }
  }

  lemma PollKeepsIds(s: Multiplayer, l: Layout, look: Look)
    requires ValidMultiplayer(s, l) && s.isHost && ArePossible(Retried(s, l, look), l, look.events)
    ensures ValidMultiplayer(AfterPoll(s, l, look), l) && KeepsIds(s, AfterPoll(s, l, look))
    ensures Retried(s, l, look).pending == s.pending
  {
    var t := Retried(s, l, look);
    var u := EventsHappen(t, l, look.events);
    RetriedIsValid(s, l, look);
    assert KeepsIds(s, t);
    EventsAreValid(t, l, look.events);
    EventsKeepIds(t, l, look.events);
    ExpireIsValid(u, l, look.expired);
    ExpireKeepsIds(u, look.expired);
    KeepsBoth(s, t, u);
    KeepsBoth(s, u, Expire(u, look.expired));
  }

  /** The ROM shows that it gives `id` to peer `p`, whose handshake it had before this look, and `p` can be told. */
  predicate AssignsNow(s: Multiplayer, look: Look, p: nat, id: nat) {
    && s.pending == Some(p) && s.pendingData == [] && !look.requestChanged
    && look.handshakeState == SEND_TO_CLIENT && look.handshakePlayerId == id && look.sent
  }

  /** The handshake of `p` is still the pending one after the poll. */
  predicate StaysPending(s: Multiplayer, l: Layout, look: Look, p: nat) {
    AfterPoll(s, l, look).pending == Some(p) && AfterPoll(s, l, look).pendingData == []
  }

  /** A peer has an ID after an update exactly when it was connected with that ID and still is after the poll, or when it
      stays pending through the poll and the ROM gives it that ID. */
  lemma IdIsAssigned(s: Multiplayer, l: Layout, look: Look, p: nat, id: nat)
    requires ValidMultiplayer(s, l) && s.isHost && ArePossible(Retried(s, l, look), l, look.events)
    requires !look.requestChanged
    ensures IsConnectedAs(Updated(s, l, look), p, id)
       <==> || IsConnectedAs(AfterPoll(s, l, look), p, id)
            || (AssignsNow(s, look, p, id) && StaysPending(s, l, look, p) && IsClientId(l, id))
  {
    PollKeepsIds(s, l, look);
  }

  lemma ProceedsKeepsIds(s: Multiplayer, l: Layout, look: Look)
    requires s.isHost
    ensures KeepsIds(s, Proceeds(s, l, look))
  {
  }

  lemma AnswerAssigns(s: Multiplayer, l: Layout, look: Look)
    requires s.isHost && s.pending.Some?
    ensures var t := AnswerPending(s, l, look);
            && t.isHost && t.writes == s.writes
            && forall p :: p in t.peers && t.peers[p].romConnected ==>
                 || IsConnectedAs(s, p, t.peers[p].playerId)
                 || (s.pending == Some(p) && t.peers[p].playerId == look.handshakePlayerId && look.sent)
  {
  }

  /** An update gives IDs as the ROM does. */
  ghost predicate GivesIds(s: Multiplayer, look: Look, t: Multiplayer) {
    && t.isHost && s.writes <= t.writes
    && (forall p :: p in t.peers && t.peers[p].romConnected ==>
          IsConnectedAs(s, p, t.peers[p].playerId) || AssignsNow(s, look, p, t.peers[p].playerId))
    && (forall i :: |s.writes| <= i < |t.writes| ==> FromConnected(s, t.writes[i]))
  }

  lemma UpdateGivesIds(s: Multiplayer, l: Layout, look: Look)
    requires ValidMultiplayer(s, l) && s.isHost && ArePossible(Retried(s, l, look), l, look.events)
    ensures GivesIds(s, look, Updated(s, l, look))
  {
    PollKeepsIds(s, l, look);
    var u := AfterPoll(s, l, look);
    ProceedsKeepsIds(u, l, look);
    KeepsBoth(s, u, Proceeds(u, l, look));
    if u.pending.Some? {
      AnswerAssigns(u, l, look);
    }
  }

  // ----- Runs of a host

  /** At some look of the run the ROM gives `id` to peer `p`. */
  predicate Assigns(s: Multiplayer, l: Layout, looks: seq<Look>, p: nat, id: nat)
    decreases |looks|
  {
    looks != [] && (AssignsNow(s, looks[0], p, id) || Assigns(Updated(s, l, looks[0]), l, looks[1..], p, id))
  }

  predicate HasId(s: Multiplayer, l: Layout, looks: seq<Look>, p: nat, id: nat) {
    IsConnectedAs(s, p, id) || Assigns(s, l, looks, p, id)
  }

  predicate FromAssigned(s: Multiplayer, l: Layout, looks: seq<Look>, w: RomWrite) {
    && w.byHost
    && (w.cause.PlayerStateFrom? ==> HasId(s, l, looks, w.cause.sender.number, w.cause.sender.peer.playerId))
  }

  /** Whoever is connected at the end of a run has the ID that the ROM gave it, and so had the sender of every player state
      that was written. */
  lemma {:induction false} RunAssigns(s: Multiplayer, l: Layout, looks: seq<Look>)
    requires ValidMultiplayer(s, l) && s.isHost && RunIsPossible(s, l, looks)
    ensures var t := Run(s, l, looks);
            && s.writes <= t.writes
            && (forall p :: p in t.peers && t.peers[p].romConnected ==> HasId(s, l, looks, p, t.peers[p].playerId))
            && (forall i :: |s.writes| <= i < |t.writes| ==> FromAssigned(s, l, looks, t.writes[i]))
    decreases |looks|
  {
    if looks != [] {
      var t := Updated(s, l, looks[0]);
      UpdatedIsValid(s, l, looks[0]);
      UpdateGivesIds(s, l, looks[0]);
      RunAssigns(t, l, looks[1..]);
      var u := Run(t, l, looks[1..]);
      forall p, id | HasId(t, l, looks[1..], p, id) ensures HasId(s, l, looks, p, id) {
      }
      forall i | |s.writes| <= i < |u.writes| ensures FromAssigned(s, l, looks, u.writes[i]) {
        if i < |t.writes| {
          assert u.writes[i] == t.writes[i] && FromConnected(s, t.writes[i]);
        } else {
          assert FromAssigned(t, l, looks[1..], u.writes[i]);
        }
      }
    }
  }

  // ----- What the peers have sent

  type Delivery = (nat, Channel, seq<byte>)

  function Deliveries(es: seq<NetEvent>): set<Delivery>
    decreases |es|
  {
    if es == [] then {}
    else Deliveries(es[1..]) + if es[0].Receives? then {(es[0].peer, es[0].packet.channel, es[0].packet.data)} else {}
  }

  function AllDeliveries(looks: seq<Look>): set<Delivery>
    decreases |looks|
  {
    if looks == [] then {} else Deliveries(looks[0].events) + AllDeliveries(looks[1..])
  }

  /** What is written into the ROM was sent by the peer that it is put down to, on the channel for it. */
  predicate IsSourced(w: RomWrite, h: set<Delivery>) {
    match w.cause
    case HandshakeFrom(f) => (f.number, HandshakeChannel, w.data) in h
    case ProfilesFrom(f) => (f.number, PlayerProfiles, w.data) in h
    case GameStateFrom(f) => (f.number, GameState, w.data) in h
    case PlayerStateFrom(f, sent) => (f.number, PlayerState, sent) in h
    case Confirmation => true
  }

  ghost predicate Sourced(s: Multiplayer, h: set<Delivery>) {
    && (forall p :: p in s.peers && s.peers[p].early != [] ==> (p, HandshakeChannel, s.peers[p].early) in h)
    && (s.pending.Some? && s.pendingData != [] ==> (s.pending.value, HandshakeChannel, s.pendingData) in h)
    && (s.netPeer.Some? && s.clientData != [] ==> (s.netPeer.value, HandshakeChannel, s.clientData) in h)
    && (s.clientProfiles != [] ==> (s.profilesFrom.number, PlayerProfiles, s.clientProfiles) in h)
    && (forall i :: 0 <= i < |s.writes| ==> IsSourced(s.writes[i], h))
  }

  lemma SourcedMore(s: Multiplayer, h: set<Delivery>, g: set<Delivery>)
    requires Sourced(s, h) && h <= g
    ensures Sourced(s, g)
  {
  }

  lemma WriteSourced(s: Multiplayer, offset: nat, data: seq<byte>, cause: Cause, h: set<Delivery>)
    requires Sourced(s, h) && IsSourced(RomWrite(offset, data, s.isHost, s.playerId, cause), h)
    ensures Sourced(Write(s, offset, data, cause), h)
  {
  }

  lemma SubmittedSourced(s: Multiplayer, l: Layout, taken: bool, h: set<Delivery>)
    requires Sourced(s, h)
    ensures Sourced(TrySubmitHost(s, l, taken), h)
  {
  }

  lemma AnswerSourced(s: Multiplayer, l: Layout, taken: bool, h: set<Delivery>)
    requires Sourced(s, h)
    ensures Sourced(TrySubmitClient(s, l, taken), h)
  {
  }

  lemma ProfilesSourced(s: Multiplayer, l: Layout, taken: bool, h: set<Delivery>)
    requires Sourced(s, h)
    ensures Sourced(TrySubmitProfiles(s, l, taken), h)
  {
  }

  lemma RejectedSourced(s: Multiplayer, p: nat, h: set<Delivery>)
    requires Sourced(s, h)
    ensures Sourced(Rejected(s, p), h) && Sourced(Disconnects(s, p), h)
  {
  }

  lemma HandshakeSourced(s: Multiplayer, l: Layout, p: nat, data: seq<byte>, taken: bool, h: set<Delivery>)
    requires Sourced(s, h) && (p, HandshakeChannel, data) in h
    ensures Sourced(HandshakeArrives(s, l, p, data, taken), h)
  {
    var t := HandshakeArrives(s, l, p, data, taken);
    RejectedSourced(s, p, h);
    if t != Rejected(s, p) {
      if s.isHost {
        SubmittedSourced(s.(pending := Some(p), pendingData := data), l, taken, h);
      } else {
        AnswerSourced(s.(clientData := data), l, taken, h);
      }
    }
  }

  lemma HelloSourced(s: Multiplayer, l: Layout, p: nat, compatible: bool, taken: bool, h: set<Delivery>)
    requires Sourced(s, h)
    ensures Sourced(HelloArrives(s, l, p, compatible, taken), h)
  {
    RejectedSourced(s, p, h);
    if p in s.peers && !s.peers[p].helloReceived && compatible {
      NotedSourced(s, p, h);
      if s.peers[p].early != [] {
        HandshakeSourced(HelloNoted(s, p), l, p, s.peers[p].early, taken, h);
      }
    }
  }

  lemma NotedSourced(s: Multiplayer, p: nat, h: set<Delivery>)
    requires Sourced(s, h) && p in s.peers
    ensures Sourced(HelloNoted(s, p), h)
  {
  }

  lemma {:induction false} StatesSourced(s: Multiplayer, l: Layout, p: Sender, packet: Packet, n: nat, h: set<Delivery>)
    requires |packet.data| == l.stateSize * l.playerCount && n <= l.playerCount
    requires Sourced(s, h) && (p.number, PlayerState, packet.data) in h
    ensures Sourced(TakeStates(s, l, p, packet, n), h)
  {
    if n > 0 {
      StatesSourced(s, l, p, packet, n - 1, h);
    }
  }

  lemma ProfilesArriveSourced(s: Multiplayer, l: Layout, p: nat, packet: Packet, h: set<Delivery>)
    requires Sourced(s, h) && p in s.peers
    ensures (p, PlayerProfiles, packet.data) in h ==> Sourced(ProfilesArrive(s, l, p, packet), h)
  {
    RejectedSourced(s, p, h);
    if (p, PlayerProfiles, packet.data) in h {
      ProfilesSourced(s.(clientProfiles := packet.data, profilesFrom := Sender(p, s.peers[p])), l, IsTaken(packet, 0), h);
    }
  }

  lemma GameStateSourced(s: Multiplayer, l: Layout, p: nat, packet: Packet, h: set<Delivery>)
    requires Sourced(s, h) && p in s.peers
    ensures (p, GameState, packet.data) in h ==> Sourced(GameStateArrives(s, l, p, packet), h)
  {
    RejectedSourced(s, p, h);
  }

  lemma PlayerStateSourced(s: Multiplayer, l: Layout, p: nat, packet: Packet, h: set<Delivery>)
    requires Sourced(s, h) && p in s.peers
    ensures (p, PlayerState, packet.data) in h ==> Sourced(PlayerStateArrives(s, l, p, packet), h)
  {
    RejectedSourced(s, p, h);
    if (p, PlayerState, packet.data) in h {
      if s.isHost {
        var q := Sender(p, s.peers[p]);
        WriteSourced(s, StateSlot(l, q.peer.playerId), packet.data, PlayerStateFrom(q, packet.data), h);
      } else if |packet.data| == l.stateSize * l.playerCount {
        StatesSourced(s, l, Sender(p, s.peers[p]), packet, l.playerCount, h);
      }
    }
  }

  lemma MessageSourced(s: Multiplayer, l: Layout, p: nat, packet: Packet, h: set<Delivery>)
    requires Sourced(s, h) && (p, packet.channel, packet.data) in h
    ensures Sourced(MessageArrives(s, l, p, packet), h)
  {
    RejectedSourced(s, p, h);
    if packet.channel == Control {
      HelloSourced(s, l, p, packet.compatible, IsTaken(packet, 0), h);
    } else if p in s.peers {
      if !s.peers[p].compatible {
        EarlySourced(s, p, packet.data, h);
      } else {
        HandshakeSourcedIf(s, l, p, packet, h);
        ProfilesArriveSourced(s, l, p, packet, h);
        GameStateSourced(s, l, p, packet, h);
        PlayerStateSourced(s, l, p, packet, h);
      }
    }
  }

  lemma EarlySourced(s: Multiplayer, p: nat, data: seq<byte>, h: set<Delivery>)
    requires Sourced(s, h) && p in s.peers
    ensures (p, HandshakeChannel, data) in h ==> Sourced(s.(peers := s.peers[p := s.peers[p].(early := data)]), h)
  {
  }

  lemma HandshakeSourcedIf(s: Multiplayer, l: Layout, p: nat, packet: Packet, h: set<Delivery>)
    requires Sourced(s, h) && (p, packet.channel, packet.data) in h
    ensures packet.channel == HandshakeChannel ==> Sourced(HandshakeArrives(s, l, p, packet.data, IsTaken(packet, 0)), h)
  {
    if packet.channel == HandshakeChannel {
      HandshakeSourced(s, l, p, packet.data, IsTaken(packet, 0), h);
    }
  }

  // ----- A client's ID

  /** `p` has sent a handshake with that ID in it. */
  ghost predicate IsGiven(h: set<Delivery>, l: Layout, p: nat, id: nat) {
    exists data :: && (p, HandshakeChannel, data) in h && l.handshakePlayerIdOffset < |data| == l.handshakeSize
                   && id == data[l.handshakePlayerIdOffset]
  }

  /** What a client knows it has from its host. */
  ghost predicate FollowsHost(s: Multiplayer, l: Layout, h: set<Delivery>, host: nat) {
    && !s.isHost && s.netPeer == Some(host) && Sourced(s, h) && l.handshakePlayerIdOffset < l.handshakeSize
    && (Rank(s.connection) >= Rank(ConnectionConfirmed) ==> IsGiven(h, l, host, s.playerId))
    && (forall p :: p in s.peers && s.peers[p].romConnected ==> p == host && IsGiven(h, l, host, s.peers[p].playerId))
  }

  lemma GivenMore(h: set<Delivery>, g: set<Delivery>, l: Layout, p: nat, id: nat)
    requires h <= g && IsGiven(h, l, p, id)
    ensures IsGiven(g, l, p, id)
  {
    var data :| && (p, HandshakeChannel, data) in h && l.handshakePlayerIdOffset < |data| == l.handshakeSize
                && id == data[l.handshakePlayerIdOffset];
    assert (p, HandshakeChannel, data) in g;
  }

  lemma FollowsMore(s: Multiplayer, l: Layout, h: set<Delivery>, g: set<Delivery>, host: nat)
    requires FollowsHost(s, l, h, host) && h <= g
    ensures FollowsHost(s, l, g, host)
  {
    SourcedMore(s, h, g);
    if Rank(s.connection) >= Rank(ConnectionConfirmed) {
      GivenMore(h, g, l, host, s.playerId);
    }
    forall p | p in s.peers && s.peers[p].romConnected ensures p == host && IsGiven(g, l, host, s.peers[p].playerId) {
      GivenMore(h, g, l, host, s.peers[p].playerId);
    }
  }

  lemma AnswerFollows(s: Multiplayer, l: Layout, taken: bool, h: set<Delivery>, host: nat)
    requires FollowsHost(s, l, h, host) && (s.clientData != [] ==> |s.clientData| == l.handshakeSize)
    ensures FollowsHost(TrySubmitClient(s, l, taken), l, h, host)
  {
    AnswerSourced(s, l, taken, h);
    if s.clientData != [] {
      assert IsGiven(h, l, host, PlayerIdIn(l, s.clientData));
    }
  }

  lemma HandshakeFollows(s: Multiplayer, l: Layout, p: nat, data: seq<byte>, taken: bool, h: set<Delivery>, host: nat)
    requires FollowsHost(s, l, h, host) && (p, HandshakeChannel, data) in h
    ensures FollowsHost(HandshakeArrives(s, l, p, data, taken), l, h, host)
  {
    HandshakeSourced(s, l, p, data, taken, h);
    if HandshakeArrives(s, l, p, data, taken) != Rejected(s, p) {
      AnswerFollows(s.(clientData := data), l, taken, h, host);
    }
  }

  lemma HelloFollows(s: Multiplayer, l: Layout, p: nat, compatible: bool, taken: bool, h: set<Delivery>, host: nat)
    requires FollowsHost(s, l, h, host)
    ensures FollowsHost(HelloArrives(s, l, p, compatible, taken), l, h, host)
  {
    HelloSourced(s, l, p, compatible, taken, h);
    if p in s.peers && !s.peers[p].helloReceived && compatible {
      NotedSourced(s, p, h);
      assert FollowsHost(HelloNoted(s, p), l, h, host);
      if s.peers[p].early != [] {
        HandshakeFollows(HelloNoted(s, p), l, p, s.peers[p].early, taken, h, host);
      }
    }
  }

  lemma {:induction false} StatesFollow(s: Multiplayer, l: Layout, p: Sender, packet: Packet, n: nat)
    requires |packet.data| == l.stateSize * l.playerCount && n <= l.playerCount
    ensures TakeStates(s, l, p, packet, n) == s.(writes := TakeStates(s, l, p, packet, n).writes)
  {
    if n > 0 {
      StatesFollow(s, l, p, packet, n - 1);
    }
  }

  /** Profiles and states change neither the peers nor the connection. */
  lemma PayloadFollows(s: Multiplayer, l: Layout, t: Multiplayer, h: set<Delivery>, host: nat)
    requires FollowsHost(s, l, h, host) && Sourced(t, h)
    requires t == s.(writes := t.writes, clientProfiles := t.clientProfiles, profilesFrom := t.profilesFrom)
    ensures FollowsHost(t, l, h, host)
  {
  }

  lemma RejectedFollows(s: Multiplayer, l: Layout, p: nat, h: set<Delivery>, host: nat)
    requires FollowsHost(s, l, h, host)
    ensures FollowsHost(Rejected(s, p), l, h, host)
  {
    RejectedSourced(s, p, h);
  }

  lemma EarlyFollows(s: Multiplayer, l: Layout, p: nat, data: seq<byte>, h: set<Delivery>, host: nat)
    requires FollowsHost(s, l, h, host) && p in s.peers && (p, HandshakeChannel, data) in h
    ensures FollowsHost(s.(peers := s.peers[p := s.peers[p].(early := data)]), l, h, host)
  {
    EarlySourced(s, p, data, h);
  }

  lemma MessageFollows(s: Multiplayer, l: Layout, p: nat, packet: Packet, h: set<Delivery>, host: nat)
    requires FollowsHost(s, l, h, host) && (p, packet.channel, packet.data) in h
    ensures FollowsHost(MessageArrives(s, l, p, packet), l, h, host)
  {
    var t := MessageArrives(s, l, p, packet);
    RejectedFollows(s, l, p, h, host);
    if packet.channel == Control {
      HelloFollows(s, l, p, packet.compatible, IsTaken(packet, 0), h, host);
    } else if t == Rejected(s, p) {
    } else if !s.peers[p].compatible {
      EarlyFollows(s, l, p, packet.data, h, host);
    } else if packet.channel == HandshakeChannel {
      HandshakeFollows(s, l, p, packet.data, IsTaken(packet, 0), h, host);
    } else {
      MessageSourced(s, l, p, packet, h);
      PayloadOnly(s, l, p, packet);
      PayloadFollows(s, l, t, h, host);
    }
  }

  lemma PayloadOnly(s: Multiplayer, l: Layout, p: nat, packet: Packet)
    requires !s.isHost && packet.channel != Control && packet.channel != HandshakeChannel && p in s.peers
    requires s.peers[p].compatible && MessageArrives(s, l, p, packet) != Rejected(s, p)
    ensures var t := MessageArrives(s, l, p, packet);
            t == s.(writes := t.writes, clientProfiles := t.clientProfiles, profilesFrom := t.profilesFrom)
  {
    if packet.channel == PlayerState {
      StatesFollow(s, l, Sender(p, s.peers[p]), packet, l.playerCount);
    }
  }

  /** The answer of its host connects a client that waits for it, under the ID in the answer. */
  lemma AnswerConnects(s: Multiplayer, l: Layout, host: nat, data: seq<byte>)
    requires ValidMultiplayer(s, l) && !s.isHost && s.netPeer == Some(host) && host in s.peers && s.peers[host].compatible
    requires s.connection == AwaitingResponse && s.clientData == []
    requires |data| == l.handshakeSize && IsClientId(l, data[l.handshakePlayerIdOffset])
    ensures var t, id := HandshakeArrives(s, l, host, data, true), data[l.handshakePlayerIdOffset];
            && t.playerId == id && IsConnectedAs(t, host, id) && t.connection == ConnectionConfirmed
            && t.writes == s.writes + [RomWrite(l.handshakeOffset, data, false, s.playerId,
                                                HandshakeFrom(Sender(host, s.peers[host])))]
  {
  }

  /** A handshake that waits on a host is written at the next update at which the session takes it. */
  lemma WaitingIsWritten(s: Multiplayer, l: Layout, look: Look)
    requires ValidMultiplayer(s, l) && ArePossible(Retried(s, l, look), l, look.events) && !look.requestChanged
    requires s.pending.Some? && s.pendingData != [] && look.handshakeTaken
    ensures var w := RomWrite(l.handshakeOffset, s.pendingData, true, s.playerId,
                              HandshakeFrom(SenderOf(s, s.pending.value)));
            s.writes + [w] <= Updated(s, l, look).writes
  {
    RetriedStays(s, l, look);
  }

  /** So are the player profiles that wait on a client. */
  lemma ProfilesAreWritten(s: Multiplayer, l: Layout, look: Look)
    requires ValidMultiplayer(s, l) && ArePossible(Retried(s, l, look), l, look.events) && !look.requestChanged
    requires s.clientProfiles != [] && s.clientData == [] && look.profilesTaken
    ensures var w := RomWrite(l.profileOffset, s.clientProfiles, false, s.playerId, ProfilesFrom(s.profilesFrom));
            s.writes + [w] <= Updated(s, l, look).writes
  {
    RetriedStays(s, l, look);
  }

  /** What is written before the poll stays written. */
  lemma RetriedStays(s: Multiplayer, l: Layout, look: Look)
    requires ValidMultiplayer(s, l) && ArePossible(Retried(s, l, look), l, look.events) && !look.requestChanged
    ensures Retried(s, l, look).writes <= Updated(s, l, look).writes
  {
    var t := Retried(s, l, look);
    RetriedIsValid(s, l, look);
    EventsAreValid(t, l, look.events);
    ExpireIsValid(EventsHappen(t, l, look.events), l, look.expired);
    ProceedsIsValid(AfterPoll(s, l, look), l, look);
    if AfterPoll(s, l, look).pending.Some? && AfterPoll(s, l, look).pendingData == [] {
      AnswerPendingIsValid(AfterPoll(s, l, look), l, look);
    }
  }

  // ----- What is sent is written

  /** A host writes a connected peer's state into the slot of that peer's ID. */
  lemma StateIsWritten(s: Multiplayer, l: Layout, p: nat, data: seq<byte>)
    requires ValidMultiplayer(s, l) && s.isHost && p in s.peers && s.peers[p].romConnected && |data| == l.stateSize
    ensures var t := MessageArrives(s, l, p, Packet(PlayerState, data, true, [true]));
            t.writes == s.writes + [RomWrite(l.stateOffset + l.stateSize * s.peers[p].playerId, data, true, s.playerId,
                                             PlayerStateFrom(Sender(p, s.peers[p]), data))]
  {
  }

  /** A write of one player's part of what the host has sent. */
  predicate IsPieceAt(w: RomWrite, l: Layout, p: Sender, id: nat, sent: seq<byte>, ownId: nat) {
    w == RomWrite(l.stateOffset + l.stateSize * id, Piece(sent, id, l), false, ownId, PlayerStateFrom(p, sent))
  }

  /** Among the writes from `n` on is that one. */
  predicate HasPiece(writes: seq<RomWrite>, n: nat, l: Layout, p: Sender, id: nat, sent: seq<byte>, ownId: nat) {
    exists i :: n <= i < |writes| && IsPieceAt(writes[i], l, p, id, sent, ownId)
  }

  lemma {:induction false} PiecesAreWritten(s: Multiplayer, l: Layout, p: Sender, packet: Packet, n: nat, id: nat)
    requires !s.isHost && |packet.data| == l.stateSize * l.playerCount && id < n <= l.playerCount
    requires id != s.playerId && IsTaken(packet, id)
    ensures var t := TakeStates(s, l, p, packet, n);
            && s.writes <= t.writes && t == s.(writes := t.writes)
            && HasPiece(t.writes, |s.writes|, l, p, id, packet.data, s.playerId)
  {
    StatesFollow(s, l, p, packet, n);
    StatesFollow(s, l, p, packet, n - 1);
    StatesAdd(s, l, p, packet, n - 1);
    var before, after := TakeStates(s, l, p, packet, n - 1), TakeStates(s, l, p, packet, n);
    PieceFits(l.stateSize, id, l.playerCount);
    if id == n - 1 {
      assert IsPieceAt(after.writes[|before.writes|], l, p, id, packet.data, s.playerId);
    } else {
      PiecesAreWritten(s, l, p, packet, n - 1, id);
      var i :| |s.writes| <= i < |before.writes| && IsPieceAt(before.writes[i], l, p, id, packet.data, s.playerId);
      assert after.writes[i] == before.writes[i];
    }
  }

  lemma {:induction false} StatesAdd(s: Multiplayer, l: Layout, p: Sender, packet: Packet, n: nat)
    requires |packet.data| == l.stateSize * l.playerCount && n <= l.playerCount
    ensures s.writes <= TakeStates(s, l, p, packet, n).writes
  {
    if n > 0 {
      StatesAdd(s, l, p, packet, n - 1);
    }
  }

  lemma StatesAreTaken(s: Multiplayer, l: Layout, p: nat, packet: Packet)
    requires !s.isHost && p in s.peers && s.peers[p].compatible && s.peers[p].romConnected
    requires packet.channel == PlayerState && |packet.data| == l.stateSize * l.playerCount
    ensures MessageArrives(s, l, p, packet) == TakeStates(s, l, Sender(p, s.peers[p]), packet, l.playerCount)
  {
  }

  /** A client writes each other player's part of what its host has sent into that player's slot. */
  lemma StatesAreWritten(s: Multiplayer, l: Layout, p: nat, packet: Packet, id: nat)
    requires ValidMultiplayer(s, l) && !s.isHost && p in s.peers && s.peers[p].romConnected
    requires packet.channel == PlayerState && |packet.data| == l.stateSize * l.playerCount
    requires id < l.playerCount && id != s.playerId && IsTaken(packet, id)
    ensures var t := MessageArrives(s, l, p, packet);
            HasPiece(t.writes, |s.writes|, l, Sender(p, s.peers[p]), id, packet.data, s.playerId)
  {
    StatesAreTaken(s, l, p, packet);
    PiecesAreWritten(s, l, Sender(p, s.peers[p]), packet, l.playerCount, id);
  }

  /** So is the game state that its host has sent. */
  lemma GameStateIsWritten(s: Multiplayer, l: Layout, p: nat, data: seq<byte>)
    requires ValidMultiplayer(s, l) && !s.isHost && p in s.peers && s.peers[p].romConnected && |data| == l.gameStateSize
    ensures MessageArrives(s, l, p, Packet(GameState, data, true, [true])).writes
         == s.writes + [RomWrite(l.gameStateOffset, data, false, s.playerId, GameStateFrom(Sender(p, s.peers[p])))]
  {
  }

  /** So are the profiles of all players. */
  lemma ProfilesAreTaken(s: Multiplayer, l: Layout, p: nat, data: seq<byte>)
    requires ValidMultiplayer(s, l) && !s.isHost && p in s.peers && s.peers[p].romConnected
    requires |data| == l.profileSize * l.playerCount && data != []
    ensures MessageArrives(s, l, p, Packet(PlayerProfiles, data, true, [true])).writes
         == s.writes + [RomWrite(l.profileOffset, data, false, s.playerId, ProfilesFrom(Sender(p, s.peers[p])))]
  {
  }

  // ----- Whole runs

  /** What holds of a host or client that has received `h`. */
  ghost predicate Accounts(s: Multiplayer, l: Layout, h: set<Delivery>, host: Option<nat>) {
    Sourced(s, h) && (if host.None? then s.isHost else FollowsHost(s, l, h, host.value))
  }

  lemma AccountsMore(s: Multiplayer, l: Layout, h: set<Delivery>, g: set<Delivery>, host: Option<nat>)
    requires Accounts(s, l, h, host) && h <= g
    ensures Accounts(s, l, g, host)
  {
    SourcedMore(s, h, g);
    if host.Some? {
      FollowsMore(s, l, h, g, host.value);
    }
  }

  lemma RejectedAccounts(s: Multiplayer, l: Layout, p: nat, h: set<Delivery>, host: Option<nat>)
    requires Accounts(s, l, h, host)
    ensures Accounts(Rejected(s, p), l, h, host) && Accounts(Disconnects(s, p), l, h, host)
  {
    RejectedSourced(s, p, h);
  }

  lemma ConnectAccounts(s: Multiplayer, l: Layout, p: nat, sent: bool, h: set<Delivery>, host: Option<nat>)
    requires Accounts(s, l, h, host)
    ensures Accounts(PeerConnects(s, p, sent), l, h, host)
  {
    var t := s.(peers := s.peers[p := NEW_PEER],
                connection := if !s.isHost && s.connection == Connecting then AwaitingCompatibility else s.connection);
    assert Sourced(t, h);
    assert Accounts(t, l, h, host);
    RejectedAccounts(t, l, p, h, host);
  }

  lemma EventAccounts(s: Multiplayer, l: Layout, e: NetEvent, h: set<Delivery>, host: Option<nat>)
    requires Accounts(s, l, h, host) && (e.Receives? ==> (e.peer, e.packet.channel, e.packet.data) in h)
    ensures Accounts(EventHappens(s, l, e), l, h, host)
  {
    match e
    case Connects(p, sent) => ConnectAccounts(s, l, p, sent, h, host);
    case Receives(p, packet) =>
      MessageSourced(s, l, p, packet, h);
      if host.Some? {
        MessageFollows(s, l, p, packet, h, host.value);
      } else {
        MessageStaysHost(s, l, p, packet);
      }
    case Leaves(p) => RejectedAccounts(s, l, p, h, host);
  }

  lemma MessageStaysHost(s: Multiplayer, l: Layout, p: nat, packet: Packet)
    requires s.isHost
    ensures MessageArrives(s, l, p, packet).isHost
  {
  }

  lemma {:induction false} EventsAccount(s: Multiplayer, l: Layout, es: seq<NetEvent>, h: set<Delivery>, host: Option<nat>)
    requires Accounts(s, l, h, host) && Deliveries(es) <= h
    ensures Accounts(EventsHappen(s, l, es), l, h, host)
    decreases |es|
  {
    if es != [] {
      EventAccounts(s, l, es[0], h, host);
      EventsAccount(EventHappens(s, l, es[0]), l, es[1..], h, host);
    }
  }

  lemma {:induction false} ExpireAccounts(s: Multiplayer, l: Layout, expired: seq<nat>, h: set<Delivery>, host: Option<nat>)
    requires Accounts(s, l, h, host)
    ensures Accounts(Expire(s, expired), l, h, host)
    decreases |expired|
  {
    if expired != [] {
      RejectedAccounts(s, l, expired[0], h, host);
      ExpireAccounts(Rejected(s, expired[0]), l, expired[1..], h, host);
    }
  }

  lemma RetriedAccounts(s: Multiplayer, l: Layout, look: Look, h: set<Delivery>, host: Option<nat>)
    requires ValidMultiplayer(s, l) && Accounts(s, l, h, host)
    ensures Accounts(Retried(s, l, look), l, h, host)
  {
    var t := TrySubmitClient(s, l, look.handshakeTaken);
    var u := TrySubmitProfiles(t, l, look.profilesTaken);
    AnswerSourced(s, l, look.handshakeTaken, h);
    if host.Some? {
      AnswerFollows(s, l, look.handshakeTaken, h, host.value);
    }
    ProfilesSourced(t, l, look.profilesTaken, h);
    SubmittedSourced(u, l, look.handshakeTaken, h);
  }

  lemma AnswerAccounts(s: Multiplayer, l: Layout, look: Look, h: set<Delivery>, host: Option<nat>)
    requires ValidMultiplayer(s, l) && s.pending.Some? && s.pendingData == [] && Accounts(s, l, h, host)
    ensures Accounts(AnswerPending(s, l, look), l, h, host)
  {
  }

  lemma ProceedsAccounts(s: Multiplayer, l: Layout, look: Look, h: set<Delivery>, host: Option<nat>)
    requires Accounts(s, l, h, host)
    ensures Accounts(Proceeds(s, l, look), l, h, host)
  {
    if s.connection == ConnectionConfirmed && look.confirmationTaken {
      ConfirmationAccounts(s, l, look.requestFlags, h, host);
    }
  }

  lemma ConfirmationAccounts(s: Multiplayer, l: Layout, flags: byte, h: set<Delivery>, host: Option<nat>)
    requires Accounts(s, l, h, host) && s.connection == ConnectionConfirmed
    ensures Accounts(Write(s, l.currentStateOffset, [flags], Confirmation).(connection := Connected), l, h, host)
  {
    WriteSourced(s, l.currentStateOffset, [flags], Confirmation, h);
    assert Sourced(Write(s, l.currentStateOffset, [flags], Confirmation).(connection := Connected), h);
  }

  lemma UpdateAccounts(s: Multiplayer, l: Layout, look: Look, h: set<Delivery>, host: Option<nat>)
    requires ValidMultiplayer(s, l) && ArePossible(Retried(s, l, look), l, look.events)
    requires Accounts(s, l, h, host) && Deliveries(look.events) <= h
    ensures Accounts(Updated(s, l, look), l, h, host)
  {
    var t, u := Retried(s, l, look), AfterPoll(s, l, look);
    RetriedIsValid(s, l, look);
    EventsAreValid(t, l, look.events);
    ExpireIsValid(EventsHappen(t, l, look.events), l, look.expired);
    RetriedAccounts(s, l, look, h, host);
    EventsAccount(t, l, look.events, h, host);
    ExpireAccounts(EventsHappen(t, l, look.events), l, look.expired, h, host);
    ProceedsAccounts(u, l, look, h, host);
    if u.pending.Some? && u.pendingData == [] {
      AnswerAccounts(u, l, look, h, host);
    }
  }

  lemma {:induction false} RunAccounts(s: Multiplayer, l: Layout, looks: seq<Look>, h: set<Delivery>, host: Option<nat>)
    requires ValidMultiplayer(s, l) && RunIsPossible(s, l, looks) && Accounts(s, l, h, host)
    requires AllDeliveries(looks) <= h
    ensures Accounts(Run(s, l, looks), l, h, host)
    decreases |looks|
  {
    if looks != [] {
      UpdatedIsValid(s, l, looks[0]);
      UpdateAccounts(s, l, looks[0], h, host);
      RunAccounts(Updated(s, l, looks[0]), l, looks[1..], h, host);
    }
  }

  /** A host's run: the ROM gave every ID, and every player state is in the slot of the peer that sent it; and a client's:
      its ID is the one in a handshake of its host. In both, the peers have sent everything that is written. */
  ghost predicate IsAccounted(l: Layout, looks: seq<Look>, peer: nat, isHost: bool, t: Multiplayer) {
    var h := AllDeliveries(looks);
    && (forall i :: 0 <= i < |t.writes| ==> IsSourced(t.writes[i], h))
    && (forall p :: p in t.peers && t.peers[p].romConnected ==>
          if isHost then Assigns(HostOpened(), l, looks, p, t.peers[p].playerId)
          else p == peer && IsGiven(h, l, peer, t.peers[p].playerId))
    && (forall i :: 0 <= i < |t.writes| && t.writes[i].cause.PlayerStateFrom? && isHost ==> InOwnSlot(l, looks, t.writes[i]))
    && (!isHost && Rank(t.connection) >= Rank(ConnectionConfirmed) ==> IsGiven(h, l, peer, t.playerId))
  }

  predicate InOwnSlot(l: Layout, looks: seq<Look>, w: RomWrite)
    requires w.cause.PlayerStateFrom?
  {
    var id := w.cause.sender.peer.playerId;
    Assigns(HostOpened(), l, looks, w.cause.sender.number, id) && w.offset == StateSlot(l, id) && w.data == w.cause.sent
  }

  lemma HostIsAccounted(l: Layout, looks: seq<Look>, peer: nat)
    requires ValidLayout(l) && RunIsPossible(HostOpened(), l, looks)
    ensures IsAccounted(l, looks, peer, true, Run(HostOpened(), l, looks))
  {
    var start, t := HostOpened(), Run(HostOpened(), l, looks);
    RunAccounts(start, l, looks, AllDeliveries(looks), None);
    RunAssigns(start, l, looks);
    RunIsValid(start, l, looks);
    forall i | 0 <= i < |t.writes| && t.writes[i].cause.PlayerStateFrom? ensures InOwnSlot(l, looks, t.writes[i]) {
      assert t.writes[i] in t.writes && IsLegal(t.writes[i], l) && FromAssigned(start, l, looks, t.writes[i]);
    }
  }

  lemma ClientIsAccounted(l: Layout, looks: seq<Look>, peer: nat)
    requires ValidLayout(l) && RunIsPossible(ClientOpened(peer), l, looks)
    ensures IsAccounted(l, looks, peer, false, Run(ClientOpened(peer), l, looks))
  {
    RunAccounts(ClientOpened(peer), l, looks, AllDeliveries(looks), Some(peer));
  }

  // ----- Connecting is possible

  const HELLO: Packet := Packet(Control, [], true, [])

  /** A look at a ROM in a given state, with given events, at which every call works. */
  function QuietLook(handshakeState: byte, id: byte, events: seq<NetEvent>): Look {
    Look(false, handshakeState, id, 0, events, [], false, true, true, true, true)
  }

  lemma TwoEvents(s: Multiplayer, l: Layout, d: NetEvent, e: NetEvent)
    ensures EventsHappen(s, l, [d, e]) == EventHappens(EventHappens(s, l, d), l, e)
  {
    assert [d, e][1..] == [e];
    OneEvent(EventHappens(s, l, d), l, e);
  }

  lemma OneEvent(s: Multiplayer, l: Layout, e: NetEvent)
    ensures EventsHappen(s, l, [e]) == EventHappens(s, l, e)
  {
    assert [e][1..] == [] && EventsHappen(EventHappens(s, l, e), l, []) == EventHappens(s, l, e);
  }

  const GREETED: Peer := Peer(true, true, false, 0, [])

  function GreetingLook(p: nat): Look {
    QuietLook(0, 0, [Connects(p, true), Receives(p, HELLO)])
  }

  function HandshakeLook(p: nat, data: seq<byte>): Look {
    QuietLook(0, 0, [Receives(p, Packet(HandshakeChannel, data, true, [true]))])
  }

  lemma ClientIsGreeted(l: Layout, host: nat)
    ensures Updated(ClientOpened(host), l, GreetingLook(host))
         == ClientOpened(host).(peers := map[host := GREETED], connection := AwaitingHandshake)
  {
    TwoEvents(ClientOpened(host), l, Connects(host, true), Receives(host, HELLO));
  }

  lemma ClientAsks(l: Layout, host: nat)
    ensures var s := ClientOpened(host).(peers := map[host := GREETED], connection := AwaitingHandshake);
            Updated(s, l, QuietLook(SEND_TO_HOST, 0, [])) == s.(connection := AwaitingResponse)
  {
  }

  lemma ClientIsAnswered(l: Layout, host: nat, answer: seq<byte>)
    requires ValidLayout(l) && |answer| == l.handshakeSize && IsClientId(l, answer[l.handshakePlayerIdOffset])
    ensures var s := ClientOpened(host).(peers := map[host := GREETED], connection := AwaitingResponse);
            var t, id := Updated(s, l, HandshakeLook(host, answer)), answer[l.handshakePlayerIdOffset];
            t.connection == Connected && t.playerId == id && IsConnectedAs(t, host, id)
  {
    var s := ClientOpened(host).(peers := map[host := GREETED], connection := AwaitingResponse);
    OneEvent(s, l, Receives(host, Packet(HandshakeChannel, answer, true, [true])));
    AnswerConnects(s, l, host, answer);
  }

  /** A client that is greeted, sends its handshake, and gets an answer with an ID, connects with that ID. */
  lemma ClientCanConnect(l: Layout, host: nat, answer: seq<byte>)
    requires ValidLayout(l) && |answer| == l.handshakeSize && IsClientId(l, answer[l.handshakePlayerIdOffset])
    ensures var looks := [GreetingLook(host), QuietLook(SEND_TO_HOST, 0, []), HandshakeLook(host, answer)];
            var t, id := Run(ClientOpened(host), l, looks), answer[l.handshakePlayerIdOffset];
            t.connection == Connected && t.playerId == id && IsConnectedAs(t, host, id)
  {
    ClientIsGreeted(l, host);
    ClientAsks(l, host);
    ClientIsAnswered(l, host, answer);
    ThreeLooks(ClientOpened(host), l, GreetingLook(host), QuietLook(SEND_TO_HOST, 0, []), HandshakeLook(host, answer));
  }

  lemma ThreeLooks(s: Multiplayer, l: Layout, a: Look, b: Look, c: Look)
    ensures Run(s, l, [a, b, c]) == Updated(Updated(Updated(s, l, a), l, b), l, c)
  {
    var t := Updated(s, l, a);
    var u := Updated(t, l, b);
    assert [a, b, c][1..] == [b, c] && [b, c][1..] == [c] && [c][1..] == [];
    assert Run(u, l, [c]) == Run(Updated(u, l, c), l, []);
    assert Run(t, l, [b, c]) == Run(u, l, [c]);
  }

  /** A host that confirmed its request, with one greeted peer. */
  function HostWith(l: Layout, p: nat): Multiplayer {
    HostOpened().(peers := map[p := GREETED], connection := Connected,
                  writes := [RomWrite(l.currentStateOffset, [0], true, 0, Confirmation)])
  }

  lemma HostGreets(l: Layout, p: nat)
    ensures Updated(HostOpened(), l, GreetingLook(p)) == HostWith(l, p)
  {
    TwoEvents(HostOpened(), l, Connects(p, true), Receives(p, HELLO));
  }

  lemma HostIsAsked(l: Layout, p: nat, request: seq<byte>)
    requires ValidLayout(l) && |request| == l.handshakeSize
    ensures var t := Updated(HostWith(l, p), l, HandshakeLook(p, request));
            t == HostWith(l, p).(pending := Some(p), writes := t.writes)
  {
    OneEvent(HostWith(l, p), l, Receives(p, Packet(HandshakeChannel, request, true, [true])));
  }

  lemma HostAnswers(s: Multiplayer, l: Layout, p: nat, id: byte)
    requires s == HostWith(l, p).(pending := Some(p), writes := s.writes) && IsClientId(l, id)
    ensures IsConnectedAs(Updated(s, l, QuietLook(SEND_TO_CLIENT, id, [])), p, id)
  {
  }

  /** On a host, a peer that is greeted and sends its handshake connects with the ID that the ROM answers. */
  lemma HostCanConnect(l: Layout, p: nat, request: seq<byte>, id: byte)
    requires ValidLayout(l) && |request| == l.handshakeSize && IsClientId(l, id)
    ensures var looks := [GreetingLook(p), HandshakeLook(p, request), QuietLook(SEND_TO_CLIENT, id, [])];
            IsConnectedAs(Run(HostOpened(), l, looks), p, id)
  {
    HostGreets(l, p);
    HostIsAsked(l, p, request);
    HostAnswers(Updated(HostWith(l, p), l, HandshakeLook(p, request)), l, p, id);
    ThreeLooks(HostOpened(), l, GreetingLook(p), HandshakeLook(p, request), QuietLook(SEND_TO_CLIENT, id, []));
  }
}
