/** The multiplayer behaviour's fields and handlers, against the rules for values in MultiplayerRules. */
module MultiplayerBehaviour {
  import opened Bytes
  import opened MultiplayerRules
  import opened MultiplayerHistory

  class MultiplayerBehaviour {
    const layout: Layout
    var isHost: bool
    var netPeer: Option<nat>
    var connection: ConnectionState
    var playerId: nat
    var peers: map<nat, Peer>
    var pending: Option<nat>
    var pendingData: seq<byte>
    var clientData: seq<byte>
    var clientProfiles: seq<byte>
    var profilesFrom: Sender
    var removed: bool
    var writes: seq<RomWrite>

    function State(): Multiplayer
      reads this
    {
      Multiplayer(isHost, netPeer, connection, playerId, peers, pending, pendingData, clientData, clientProfiles,
                  profilesFrom, removed, writes)
    }

    ghost predicate Valid()
      reads this
    {
      ValidMultiplayer(State(), layout)
    }

    /** `OnAttach`. */
    constructor (layout: Layout)
      ensures this.layout == layout && State() == ATTACHED && (ValidLayout(layout) ==> Valid())
    {
      this.layout := layout;
      isHost, netPeer, connection, playerId, peers := false, None, Connecting, 0, map[];
      pending, pendingData, clientData, clientProfiles, profilesFrom := None, [], [], [], NOBODY;
      removed, writes := false, [];
    }

    method OpenHostConnection()
      requires State() == ATTACHED && Valid()
      modifies this
      ensures State() == HostOpened() && Valid()
    {
      isHost, connection := true, ConnectionConfirmed;
    }

    method OpenClientConnection(peer: nat)
      requires State() == ATTACHED && Valid()
      modifies this
      ensures State() == ClientOpened(peer) && Valid()
    {
      netPeer, connection := Some(peer), Connecting;
    }

    /** A write that the session has taken. */
    method WriteRequest(offset: nat, data: seq<byte>, cause: Cause)
      modifies this`writes
      ensures State() == Write(old(State()), offset, data, cause)
    {
      writes := writes + [RomWrite(offset, data, isHost, playerId, cause)];
    }

    /** The peer is forgotten, and with it the handshake that it may have pending; the others stay as they are. */
    method RejectPeer(peer: nat)
      modifies this
      ensures State() == Rejected(old(State()), peer) && writes == old(writes)
      ensures old(Valid()) ==> Valid() && Advances(old(State()), State())
      ensures peers == old(peers) - {peer} && pending != Some(peer) && (!isHost ==> removed)
    {
      if ValidMultiplayer(State(), layout) {
        RejectedIsValid(State(), layout, peer);
      }
      if pending == Some(peer) {
        pending, pendingData := None, [];
      }
      peers := peers - {peer};
      if !isHost {
        removed := true;
      }
    }

    /** A client that loses a known peer gives up; a host goes on with the others. */
    method HandlePeerDisconnect(peer: nat)
      requires Valid()
      modifies this
      ensures State() == Disconnects(old(State()), peer) && writes == old(writes)
      ensures Valid() && Advances(old(State()), State())
      ensures peers == old(peers) - {peer} && pending != Some(peer)
      ensures removed <==> old(removed) || (!isHost && peer in old(peers))
    {
      RejectedIsValid(State(), layout, peer);
      var known := peer in peers;
      peers := peers - {peer};
      if pending == Some(peer) {
        pending, pendingData := None, [];
      }
      if known && !isHost {
        removed := true;
      }
    }

    /** A stored handshake stays stored until the session takes it, and is then written once; its sender stays pending,
        and is a known peer that is compatible and not yet connected. */
    method TrySubmitHostHandshake(taken: bool)
      requires Valid()
      modifies this`writes, this`pendingData
      ensures State() == TrySubmitHost(old(State()), layout, taken)
      ensures Valid() && Advances(old(State()), State())
      ensures writes == old(writes) <==> pendingData == old(pendingData)
      ensures writes != old(writes) ==> && pendingData == [] && pending.Some? && pending.value in peers
                                        && |writes| == |old(writes)| + 1 && IsLegal(writes[|old(writes)|], layout)
    {
      TrySubmitHostIsValid(State(), layout, taken);
      if pending.None? || pendingData == [] || !taken {
        return;
      }
      WriteRequest(layout.handshakeOffset, pendingData, HandshakeFrom(SenderOf(State(), pending.value)));
      pendingData := [];
    }

    /** A client is connected, under an ID that the layout allows, exactly when the session takes the stored answer. */
    method TrySubmitClientHandshake(taken: bool)
      requires Valid()
      modifies this
      ensures State() == TrySubmitClient(old(State()), layout, taken)
      ensures Valid() && Advances(old(State()), State())
      ensures writes == old(writes) <==> clientData == old(clientData)
      ensures writes != old(writes) ==> && |writes| == |old(writes)| + 1 && IsLegal(writes[|old(writes)|], layout)
                                        && connection == ConnectionConfirmed && IsClientId(layout, playerId)
    {
      TrySubmitClientIsValid(State(), layout, taken);
      if netPeer.None? || clientData == [] {
        return;
      }
      if netPeer.value !in peers || !peers[netPeer.value].compatible || !taken {
        return;
      }
      var peer := peers[netPeer.value];
      WriteRequest(layout.handshakeOffset, clientData, HandshakeFrom(Sender(netPeer.value, peer)));
      playerId := PlayerIdIn(layout, clientData);
      clientData := [];
      peers := peers[netPeer.value := peer.(playerId := playerId, romConnected := true)];
      connection := ConnectionConfirmed;
    }

    /** Profiles stay stored until the session takes them, and come from a connected peer. */
    method TrySubmitClientPlayerProfiles(taken: bool)
      requires Valid()
      modifies this`writes, this`clientProfiles
      ensures State() == TrySubmitProfiles(old(State()), layout, taken)
      ensures Valid() && Advances(old(State()), State())
      ensures writes == old(writes) <==> clientProfiles == old(clientProfiles)
      ensures writes != old(writes) ==> && |writes| == |old(writes)| + 1 && IsLegal(writes[|old(writes)|], layout)
                                        && writes[|old(writes)|].data == old(clientProfiles) && profilesFrom.peer.romConnected
    {
      TrySubmitProfilesIsValid(State(), layout, taken);
      if clientProfiles == [] || !taken {
        return;
      }
      WriteRequest(layout.profileOffset, clientProfiles, ProfilesFrom(profilesFrom));
      clientProfiles := [];
    }

    method HandleRomHandshake(peer: nat, data: seq<byte>, taken: bool)
      requires Valid()
      modifies this
      ensures State() == HandshakeArrives(old(State()), layout, peer, data, taken)
      ensures Valid() && Advances(old(State()), State())
    {
      HandshakeArrivesIsValid(State(), layout, peer, data, taken);
      if |data| != layout.handshakeSize || peer !in peers || !peers[peer].compatible {
        RejectPeer(peer);
        return;
      }
      if isHost {
        if peers[peer].romConnected || pending.Some? {
          RejectPeer(peer);
          return;
        }
        pending, pendingData := Some(peer), data;
        TrySubmitHostHandshake(taken);
        return;
      }
      if netPeer != Some(peer) || connection != AwaitingResponse || clientData != []
         || !IsClientId(layout, PlayerIdIn(layout, data)) {
        RejectPeer(peer);
        return;
      }
      clientData := data;
      TrySubmitClientHandshake(taken);
    }

    method HandleCompatibilityHello(peer: nat, compatible: bool, taken: bool)
      requires Valid()
      modifies this
      ensures State() == HelloArrives(old(State()), layout, peer, compatible, taken)
      ensures Valid() && Advances(old(State()), State())
    {
      HelloArrivesIsValid(State(), layout, peer, compatible, taken);
      if peer !in peers || peers[peer].helloReceived || !compatible {
        RejectPeer(peer);
        return;
      }
      var early := peers[peer].early;
      NoteHello(peer);
      if early != [] {
        HandleRomHandshake(peer, early, taken);
      }
    }

    method NoteHello(peer: nat)
      requires Valid() && peer in peers && !peers[peer].helloReceived
      modifies this`peers, this`connection
      ensures State() == HelloNoted(old(State()), peer) && Valid() && Advances(old(State()), State())
    {
      HelloNotedIsValid(State(), layout, peer);
      peers := peers[peer := peers[peer].(helloReceived := true, compatible := true, early := [])];
      if !isHost && netPeer == Some(peer) && connection == AwaitingCompatibility {
        connection := AwaitingHandshake;
      }
    }

    method HandlePlayerState(peer: nat, packet: Packet)
      requires Valid() && peer in peers && peers[peer].romConnected
      modifies this
      ensures State() == PlayerStateArrives(old(State()), layout, peer, packet)
      ensures Valid() && Advances(old(State()), State())
    {
      PlayerStateArrivesIsValid(State(), layout, peer, packet);
      if isHost {
        var id := peers[peer].playerId;
        if |packet.data| != layout.stateSize || !IsClientId(layout, id) {
          RejectPeer(peer);
        } else if IsTaken(packet, 0) {
          WriteRequest(layout.stateOffset + layout.stateSize * id, packet.data, PlayerStateFrom(Sender(peer, peers[peer]), packet.data));
        }
      } else if |packet.data| != layout.stateSize * layout.playerCount {
        RejectPeer(peer);
      } else {
        TakePlayerStates(Sender(peer, peers[peer]), packet);
      }
    }

    /** A client passes on the states of the other players. */
    method TakePlayerStates(sender: Sender, packet: Packet)
      requires |packet.data| == layout.stateSize * layout.playerCount
      modifies this`writes
      ensures State() == TakeStates(old(State()), layout, sender, packet, layout.playerCount)
    {
      for id := 0 to layout.playerCount
        invariant State() == TakeStates(old(State()), layout, sender, packet, id)
      {
        if id != playerId && IsTaken(packet, id) {
          PieceFits(layout.stateSize, id, layout.playerCount);
          var playerOffset := layout.stateSize * id;
          WriteRequest(layout.stateOffset + playerOffset, packet.data[playerOffset..playerOffset + layout.stateSize],
                       PlayerStateFrom(sender, packet.data));
        }
      }
    }

    method HandlePayload(peer: nat, packet: Packet)
      requires peer in peers && peers[peer].compatible && (packet.channel == HandshakeChannel || peers[peer].romConnected)
      requires packet.channel != Control
      requires Valid()
      modifies this
      ensures State() == MessageArrives(old(State()), layout, peer, packet)
      ensures Valid() && Advances(old(State()), State())
    {
      MessageArrivesIsValid(State(), layout, peer, packet);
      match packet.channel
      case HandshakeChannel => HandleRomHandshake(peer, packet.data, IsTaken(packet, 0));
      case PlayerProfiles =>
        if isHost || |packet.data| != layout.profileSize * layout.playerCount {
          RejectPeer(peer);
        } else {
          clientProfiles, profilesFrom := packet.data, Sender(peer, peers[peer]);
          TrySubmitClientPlayerProfiles(IsTaken(packet, 0));
        }
      case GameState =>
        if isHost || |packet.data| != layout.gameStateSize {
          RejectPeer(peer);
        } else if IsTaken(packet, 0) {
          WriteRequest(layout.gameStateOffset, packet.data, GameStateFrom(Sender(peer, peers[peer])));
        }
      case PlayerState => HandlePlayerState(peer, packet);
      case UnknownChannel => RejectPeer(peer);
    }

    method HandleIncomingMessage(peer: nat, packet: Packet)
      requires Valid()
      modifies this
      ensures State() == MessageArrives(old(State()), layout, peer, packet)
      ensures Valid() && Advances(old(State()), State())
    {
      MessageArrivesIsValid(State(), layout, peer, packet);
      if packet.channel == Control {
        HandleCompatibilityHello(peer, packet.compatible, IsTaken(packet, 0));
        return;
      }
      if peer !in peers {
        RejectPeer(peer);
        return;
      }
      if !peers[peer].compatible {
        if packet.channel == HandshakeChannel && peers[peer].early == [] && |packet.data| == layout.handshakeSize {
          peers := peers[peer := peers[peer].(early := packet.data)];
          return;
        }
        RejectPeer(peer);
        return;
      }
      if packet.channel != HandshakeChannel && !peers[peer].romConnected {
        RejectPeer(peer);
        return;
      }
      HandlePayload(peer, packet);
    }

    method HandleEvent(event: NetEvent)
      requires Valid() && IsPossible(State(), event)
      modifies this
      ensures State() == EventHappens(old(State()), layout, event)
      ensures Valid() && Advances(old(State()), State())
    {
      EventIsValid(State(), layout, event);
      match event
      case Connects(peer, sent) =>
        peers := peers[peer := NEW_PEER];
        if !isHost && connection == Connecting {
          connection := AwaitingCompatibility;
        }
        if !sent {
          RejectPeer(peer);
        }
      case Receives(peer, packet) => HandleIncomingMessage(peer, packet);
      case Leaves(peer) => HandlePeerDisconnect(peer);
    }

    /** `PollConnection`. */
    method PollConnection(events: seq<NetEvent>, expired: seq<nat>)
      requires Valid() && ArePossible(State(), layout, events)
      modifies this
      ensures State() == Expire(EventsHappen(old(State()), layout, events), expired)
      ensures Valid() && Advances(old(State()), State())
    {
      var index := 0;
      while index < |events|
        invariant index <= |events|
        invariant Valid() && Advances(old(State()), State()) && ArePossible(State(), layout, events[index..])
        invariant EventsHappen(old(State()), layout, events) == EventsHappen(State(), layout, events[index..])
      {
        assert events[index..][1..] == events[index + 1..];
        HandleEvent(events[index]);
        index := index + 1;
      }
      ExpirePeers(expired);
    }

    method ExpirePeers(expired: seq<nat>)
      requires Valid()
      modifies this
      ensures State() == Expire(old(State()), expired)
      ensures Valid() && Advances(old(State()), State())
    {
      var index := 0;
      assert expired[0..] == expired;
      while index < |expired|
        invariant index <= |expired|
        invariant Valid() && Advances(old(State()), State())
        invariant Expire(old(State()), expired) == Expire(State(), expired[index..])
      {
        assert expired[index..][1..] == expired[index + 1..];
        RejectPeer(expired[index]);
        index := index + 1;
      }
    }

    method AnswerPendingHandshake(look: Look)
      requires pending.Some?
      requires Valid() && pendingData == []
      modifies this
      ensures State() == AnswerPending(old(State()), layout, look)
      ensures Valid() && Advances(old(State()), State())
    {
      AnswerPendingIsValid(State(), layout, look);
      var peer := pending.value;
      pending := None;
      if !IsClientId(layout, look.handshakePlayerId) {
        RejectPeer(peer);
        return;
      }
      if peer !in peers || !peers[peer].compatible {
        return;
      }
      peers := peers[peer := peers[peer].(playerId := look.handshakePlayerId, romConnected := true)];
      if !look.sent {
        RejectPeer(peer);
      }
    }

    method AdvanceConnection(look: Look)
      requires Valid()
      modifies this
      ensures State() == Proceeds(old(State()), layout, look)
      ensures Valid() && Advances(old(State()), State())
    {
      ProceedsIsValid(State(), layout, look);
      match connection
      case Connecting =>
        removed := removed || look.timedOut;
      case AwaitingCompatibility =>
        removed := removed || look.timedOut;
      case AwaitingHandshake =>
        if look.handshakeState == SEND_TO_HOST {
          if look.sent {
            connection := AwaitingResponse;
          } else {
            removed := true;
          }
        }
      case AwaitingResponse =>
      case ConnectionConfirmed =>
        if look.confirmationTaken {
          ConfirmToGame(look.requestFlags);
        }
      case Connected =>
    }

    method ConfirmToGame(requestFlags: byte)
      modifies this`writes, this`connection
      ensures State() == Write(old(State()), layout.currentStateOffset, [requestFlags], Confirmation)
                           .(connection := Connected)
    {
      WriteRequest(layout.currentStateOffset, [requestFlags], Confirmation);
      connection := Connected;
    }

    /** `OnUpdate` once a connection was attempted. */
    method OnUpdate(look: Look)
      requires Valid() && ArePossible(Retried(State(), layout, look), layout, look.events)
      modifies this
      ensures State() == Updated(old(State()), layout, look)
      ensures Valid() && Advances(old(State()), State())
      ensures old(isHost) ==> GivesIds(old(State()), look, State())
    {
      UpdatedIsValid(State(), layout, look);
      if isHost {
        UpdateGivesIds(State(), layout, look);
      }
      if look.requestChanged {
        removed := true;
        return;
      }
      TrySubmitClientHandshake(look.handshakeTaken);
      TrySubmitClientPlayerProfiles(look.profilesTaken);
      var hadPendingData := pendingData != [];
      TrySubmitHostHandshake(look.handshakeTaken);
      var before := pending;
      PollConnection(look.events, look.expired);
      if !hadPendingData && before.Some? && pending == before && pendingData == []
         && look.handshakeState == SEND_TO_CLIENT {
        AnswerPendingHandshake(look);
        return;
      }
      AdvanceConnection(look);
    }

    /** One attachment: a connection is opened, and then any number of updates follow. */
    method Play(host: bool, peer: nat, looks: seq<Look>)
      requires State() == ATTACHED && Valid()
      requires RunIsPossible(if host then HostOpened() else ClientOpened(peer), layout, looks)
      modifies this
      ensures State() == Run(if host then HostOpened() else ClientOpened(peer), layout, looks)
      ensures Valid() && IsSafe(State(), layout)
      ensures Advances(if host then HostOpened() else ClientOpened(peer), State())
      ensures IsAccounted(layout, looks, peer, host, State())
    {
      if host {
        OpenHostConnection();
      } else {
        OpenClientConnection(peer);
      }
      ghost var start := State();
      var index := 0;
      while index < |looks|
        invariant index <= |looks|
        invariant Valid() && Advances(start, State()) && RunIsPossible(State(), layout, looks[index..])
        invariant Run(start, layout, looks) == Run(State(), layout, looks[index..])
      {
        assert looks[index..][1..] == looks[index + 1..];
        OnUpdate(looks[index]);
        index := index + 1;
      }
      ValidIsSafe(State(), layout);
      if host {
        HostIsAccounted(layout, looks, peer);
      } else {
        ClientIsAccounted(layout, looks, peer);
      }
    }
  }
}
