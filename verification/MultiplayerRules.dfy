/** What the multiplayer behaviour does with peers, messages and updates, on values.

    Peers are numbers. Whether a hello is compatible, whether a packet can be sent and whether the session takes a
    write are decided by the environment; the ROM's layout does not change while the behaviour is attached. */
module MultiplayerRules {
  import opened Bytes

  // ----- The layout that the ROM announces

  const SUPPORTED_API: u32 := 3
  const MAX_ROM_PAYLOAD: nat := 1024 * 1024 - 8

  datatype Layout = Layout(
    api: u32, edition: byte, playerCount: nat, blobSize: nat, requestStateOffset: nat, currentStateOffset: nat,
    handshakeOffset: nat, handshakeSize: nat, handshakeStateOffset: nat, handshakePlayerIdOffset: nat,
    gameStateOffset: nat, gameStateSize: nat, profileOffset: nat, profileSize: nat, stateOffset: nat, stateSize: nat)

  predicate SpanFits(offset: nat, size: nat, l: Layout) {
    offset <= l.blobSize && size <= l.blobSize - offset
  }

  /** `ValidateMultiplayerLayout`. */
  predicate ValidLayout(l: Layout) {
    && l.api == SUPPORTED_API && (l.edition == 0 || l.edition == 1)
    && 0 < l.playerCount <= 255
    && 0 < l.handshakeSize && 0 < l.gameStateSize && 0 < l.profileSize && 0 < l.stateSize
    && 0 < l.blobSize <= MAX_ROM_PAYLOAD
    && SpanFits(l.requestStateOffset, 1, l) && SpanFits(l.currentStateOffset, 1, l)
    && SpanFits(l.handshakeOffset, l.handshakeSize, l) && SpanFits(l.gameStateOffset, l.gameStateSize, l)
    && SpanFits(l.profileOffset, l.profileSize * l.playerCount, l)
    && SpanFits(l.stateOffset, l.stateSize * l.playerCount, l)
    && l.handshakeStateOffset < l.handshakeSize && l.handshakePlayerIdOffset < l.handshakeSize
  }

  predicate IsClientId(l: Layout, id: nat) {
    0 < id < l.playerCount
  }

  // ----- States

  datatype ConnectionState =
    Connecting | AwaitingCompatibility | AwaitingHandshake | AwaitingResponse | ConnectionConfirmed | Connected

  function Rank(c: ConnectionState): nat {
    match c
    case Connecting => 0
    case AwaitingCompatibility => 1
    case AwaitingHandshake => 2
    case AwaitingResponse => 3
    case ConnectionConfirmed => 4
    case Connected => 5
  }

  datatype Peer = Peer(helloReceived: bool, compatible: bool, romConnected: bool, playerId: nat, early: seq<byte>)

  const NEW_PEER: Peer := Peer(false, false, false, 0, [])

  /** A peer as it was when it sent something. */
  datatype Sender = Sender(number: nat, peer: Peer)

  /** A write into the ROM's multiplayer state, and what caused it. */
  datatype Cause =
    | HandshakeFrom(sender: Sender)
    | ProfilesFrom(sender: Sender)
    | GameStateFrom(sender: Sender)
    | PlayerStateFrom(sender: Sender, sent: seq<byte>)
    | Confirmation
  datatype RomWrite = RomWrite(offset: nat, data: seq<byte>, byHost: bool, ownId: nat, cause: Cause)

  datatype Multiplayer = Multiplayer(
    isHost: bool, netPeer: Option<nat>, connection: ConnectionState, playerId: nat, peers: map<nat, Peer>,
    pending: Option<nat>, pendingData: seq<byte>, clientData: seq<byte>, clientProfiles: seq<byte>,
    profilesFrom: Sender, removed: bool, writes: seq<RomWrite>)

  const NOBODY: Sender := Sender(0, NEW_PEER)
  const ATTACHED: Multiplayer :=
    Multiplayer(false, None, Connecting, 0, map[], None, [], [], [], NOBODY, false, [])

  function Write(s: Multiplayer, offset: nat, data: seq<byte>, cause: Cause): Multiplayer {
    s.(writes := s.writes + [RomWrite(offset, data, s.isHost, s.playerId, cause)])
  }

  // ----- Rejections and disconnects

  function WithoutPending(s: Multiplayer, p: nat): Multiplayer {
    if s.pending == Some(p) then s.(pending := None, pendingData := []) else s
  }

  /** `RejectPeer`; a client gives up as a whole. */
  function Rejected(s: Multiplayer, p: nat): Multiplayer {
    WithoutPending(s, p).(peers := s.peers - {p}, removed := s.removed || !s.isHost)
  }

  /** `HandlePeerDisconnect`. */
  function Disconnects(s: Multiplayer, p: nat): Multiplayer {
    WithoutPending(s, p).(peers := s.peers - {p}, removed := s.removed || (p in s.peers && !s.isHost))
  }

  // ----- Handshakes

  function SenderOf(s: Multiplayer, p: nat): Sender {
    Sender(p, if p in s.peers then s.peers[p] else NEW_PEER)
  }

  /** The player ID in a handshake, which the layout puts inside it. */
  function PlayerIdIn(l: Layout, data: seq<byte>): nat {
    if l.handshakePlayerIdOffset < |data| then data[l.handshakePlayerIdOffset] else 0
  }

  function TrySubmitHost(s: Multiplayer, l: Layout, taken: bool): Multiplayer {
    if s.pending.None? || s.pendingData == [] || !taken then s
    else Write(s.(pendingData := []), l.handshakeOffset, s.pendingData, HandshakeFrom(SenderOf(s, s.pending.value)))
  }

  function TrySubmitClient(s: Multiplayer, l: Layout, taken: bool): Multiplayer {
    if s.netPeer.None? || s.clientData == [] then s
    else if s.netPeer.value !in s.peers || !s.peers[s.netPeer.value].compatible then s
    else if !taken then s
    else
      var p, id := s.peers[s.netPeer.value], PlayerIdIn(l, s.clientData);
      Write(s, l.handshakeOffset, s.clientData, HandshakeFrom(Sender(s.netPeer.value, p)))
        .(clientData := [], playerId := id, connection := ConnectionConfirmed,
          peers := s.peers[s.netPeer.value := p.(playerId := id, romConnected := true)])
  }

  function TrySubmitProfiles(s: Multiplayer, l: Layout, taken: bool): Multiplayer {
    if s.clientProfiles == [] || !taken then s
    else Write(s.(clientProfiles := []), l.profileOffset, s.clientProfiles, ProfilesFrom(s.profilesFrom))
  }

  /** `HandleRomHandshake`. */
  function HandshakeArrives(s: Multiplayer, l: Layout, p: nat, data: seq<byte>, taken: bool): Multiplayer {
    if |data| != l.handshakeSize || p !in s.peers || !s.peers[p].compatible then Rejected(s, p)
    else if s.isHost then
      if s.peers[p].romConnected || s.pending.Some? then Rejected(s, p)
      else TrySubmitHost(s.(pending := Some(p), pendingData := data), l, taken)
    else if s.netPeer != Some(p) || s.connection != AwaitingResponse || s.clientData != [] then Rejected(s, p)
    else if !IsClientId(l, PlayerIdIn(l, data)) then Rejected(s, p)
    else TrySubmitClient(s.(clientData := data), l, taken)
  }

  /** A first compatible hello of a known peer. */
  function HelloNoted(s: Multiplayer, p: nat): Multiplayer
    requires p in s.peers
  {
    s.(peers := s.peers[p := s.peers[p].(helloReceived := true, compatible := true, early := [])],
       connection := if !s.isHost && s.netPeer == Some(p) && s.connection == AwaitingCompatibility then AwaitingHandshake
                     else s.connection)
  }

  /** `HandleCompatibilityHello`. */
  function HelloArrives(s: Multiplayer, l: Layout, p: nat, compatible: bool, taken: bool): Multiplayer {
    if p !in s.peers || s.peers[p].helloReceived || !compatible then Rejected(s, p)
    else
      var early := s.peers[p].early;
      if early != [] then HandshakeArrives(HelloNoted(s, p), l, p, early, taken) else HelloNoted(s, p)
  }

  // ----- Messages

  datatype Channel = Control | HandshakeChannel | PlayerProfiles | GameState | PlayerState | UnknownChannel

  /** `compatible` is the verdict on a hello; `taken` says which writes the session takes, by player for player states. */
  datatype Packet = Packet(channel: Channel, data: seq<byte>, compatible: bool, taken: seq<bool>)

  function IsTaken(packet: Packet, i: nat): bool {
    i < |packet.taken| && packet.taken[i]
  }

  function StateSlot(l: Layout, id: nat): nat {
    l.stateOffset + l.stateSize * id
  }

  /** A client takes the states of the other players, one write for each. */
  function TakeStates(s: Multiplayer, l: Layout, p: Sender, packet: Packet, n: nat): Multiplayer
    requires |packet.data| == l.stateSize * l.playerCount && n <= l.playerCount
  {
    if n == 0 then s
    else
      var t, id := TakeStates(s, l, p, packet, n - 1), n - 1;
      if id == s.playerId || !IsTaken(packet, id) then t
      else
        PieceFits(l.stateSize, id, l.playerCount);
        Write(t, StateSlot(l, id), packet.data[l.stateSize * id..l.stateSize * id + l.stateSize],
              PlayerStateFrom(p, packet.data))
  }

  lemma Distribute(a: nat, b: nat, c: nat)
    ensures a * (b + c) == a * b + a * c && a * c >= 0
  {
  }

  lemma PieceFits(size: nat, id: nat, count: nat)
    requires id < count
    ensures size * id + size <= size * count
  {
    Distribute(size, id, count - id);
    Distribute(size, 1, count - id - 1);
  }

  function PlayerStateArrives(s: Multiplayer, l: Layout, p: nat, packet: Packet): Multiplayer
    requires p in s.peers
  {
    var q := s.peers[p];
    if s.isHost then
      if |packet.data| != l.stateSize || !IsClientId(l, q.playerId) then Rejected(s, p)
      else if !IsTaken(packet, 0) then s
      else Write(s, StateSlot(l, q.playerId), packet.data, PlayerStateFrom(Sender(p, q), packet.data))
    else if |packet.data| != l.stateSize * l.playerCount then Rejected(s, p)
    else TakeStates(s, l, Sender(p, q), packet, l.playerCount)
  }

  function ProfilesArrive(s: Multiplayer, l: Layout, p: nat, packet: Packet): Multiplayer
    requires p in s.peers
  {
    if s.isHost || |packet.data| != l.profileSize * l.playerCount then Rejected(s, p)
    else TrySubmitProfiles(s.(clientProfiles := packet.data, profilesFrom := Sender(p, s.peers[p])), l, IsTaken(packet, 0))
  }

  function GameStateArrives(s: Multiplayer, l: Layout, p: nat, packet: Packet): Multiplayer
    requires p in s.peers
  {
    if s.isHost || |packet.data| != l.gameStateSize then Rejected(s, p)
    else if !IsTaken(packet, 0) then s
    else Write(s, l.gameStateOffset, packet.data, GameStateFrom(Sender(p, s.peers[p])))
  }

  /** `HandleIncomingMessage`. */
  function MessageArrives(s: Multiplayer, l: Layout, p: nat, packet: Packet): Multiplayer {
    if packet.channel == Control then HelloArrives(s, l, p, packet.compatible, IsTaken(packet, 0))
    else if p !in s.peers then Rejected(s, p)
    else if !s.peers[p].compatible then
      if packet.channel == HandshakeChannel && s.peers[p].early == [] && |packet.data| == l.handshakeSize then
        s.(peers := s.peers[p := s.peers[p].(early := packet.data)])
      else Rejected(s, p)
    else if packet.channel != HandshakeChannel && !s.peers[p].romConnected then Rejected(s, p)
    else
      match packet.channel
      case HandshakeChannel => HandshakeArrives(s, l, p, packet.data, IsTaken(packet, 0))
      case PlayerProfiles => ProfilesArrive(s, l, p, packet)
      case GameState => GameStateArrives(s, l, p, packet)
      case PlayerState => PlayerStateArrives(s, l, p, packet)
      case _ => Rejected(s, p)
  }

  // ----- What always holds

  predicate ValidPeer(p: Peer, l: Layout) {
    && (p.compatible ==> p.helloReceived && p.early == [])
    && (p.romConnected ==> p.compatible && IsClientId(l, p.playerId))
    && (p.early == [] || |p.early| == l.handshakeSize)
  }

  /** A write that the ROM may see: of the right size, at the right place, and caused by a peer that may cause it. */
  predicate IsLegal(w: RomWrite, l: Layout) {
    match w.cause
    case HandshakeFrom(f) => f.peer.compatible && !f.peer.romConnected && w.offset == l.handshakeOffset && |w.data| == l.handshakeSize
    case ProfilesFrom(f) =>
      !w.byHost && f.peer.romConnected && w.offset == l.profileOffset && |w.data| == l.profileSize * l.playerCount
    case GameStateFrom(f) => !w.byHost && f.peer.romConnected && w.offset == l.gameStateOffset && |w.data| == l.gameStateSize
    case PlayerStateFrom(f, sent) => f.peer.romConnected && |w.data| == l.stateSize && IsSlotOf(w, f.peer, sent, l)
    case Confirmation => w.offset == l.currentStateOffset && |w.data| == 1
  }

  /** What the host sends about one player, among all of them. */
  function Piece(sent: seq<byte>, id: nat, l: Layout): seq<byte> {
    if l.stateSize * id + l.stateSize <= |sent| then sent[l.stateSize * id..l.stateSize * id + l.stateSize] else []
  }

  /** A host writes what a client has sent into that client's slot; a client writes what the host has sent about another
      player into that player's slot, and nothing into its own. */
  predicate IsSlotOf(w: RomWrite, p: Peer, sent: seq<byte>, l: Layout) {
    if w.byHost then IsClientId(l, p.playerId) && w.offset == StateSlot(l, p.playerId) && w.data == sent
    else
      && IsClientId(l, w.ownId) && |sent| == l.stateSize * l.playerCount
      && exists id :: 0 <= id < l.playerCount && id != w.ownId && w.offset == StateSlot(l, id) && w.data == Piece(sent, id, l)
  }

  predicate ValidMultiplayer(s: Multiplayer, l: Layout) {
    && ValidLayout(l)
    && (forall p :: p in s.peers ==> ValidPeer(s.peers[p], l))
    && (s.pending.Some? ==> s.isHost && s.pending.value in s.peers && s.peers[s.pending.value].compatible
                            && !s.peers[s.pending.value].romConnected)
    && (s.pending.None? ==> s.pendingData == [])
    && (s.pendingData != [] ==> |s.pendingData| == l.handshakeSize)
    && (s.clientData != [] ==> && !s.isHost && s.connection == AwaitingResponse && |s.clientData| == l.handshakeSize
                               && IsClientId(l, PlayerIdIn(l, s.clientData)))
    && (s.clientProfiles != [] ==> !s.isHost && s.profilesFrom.peer.romConnected
                                   && |s.clientProfiles| == l.profileSize * l.playerCount)
    && (forall p :: p in s.peers && s.peers[p].romConnected && !s.isHost ==>
          IsClientId(l, s.playerId) && Rank(s.connection) >= Rank(ConnectionConfirmed))
    && (forall w :: w in s.writes ==> IsLegal(w, l))
  }

  /** The connection only moves forward, and nothing that was written is taken back. */
  predicate Advances(s: Multiplayer, t: Multiplayer) {
    Rank(s.connection) <= Rank(t.connection) && s.writes <= t.writes && t.isHost == s.isHost && (s.removed ==> t.removed)
  }

  lemma RejectedIsValid(s: Multiplayer, l: Layout, p: nat)
    requires ValidMultiplayer(s, l)
    ensures ValidMultiplayer(Rejected(s, p), l) && Advances(s, Rejected(s, p))
    ensures ValidMultiplayer(Disconnects(s, p), l) && Advances(s, Disconnects(s, p))
  {
  }

  lemma TrySubmitHostIsValid(s: Multiplayer, l: Layout, taken: bool)
    requires ValidMultiplayer(s, l)
    ensures ValidMultiplayer(TrySubmitHost(s, l, taken), l) && Advances(s, TrySubmitHost(s, l, taken))
  {
  }

  lemma TrySubmitClientIsValid(s: Multiplayer, l: Layout, taken: bool)
    requires ValidMultiplayer(s, l)
    ensures ValidMultiplayer(TrySubmitClient(s, l, taken), l) && Advances(s, TrySubmitClient(s, l, taken))
  {
  }

  lemma TrySubmitProfilesIsValid(s: Multiplayer, l: Layout, taken: bool)
    requires ValidMultiplayer(s, l)
    ensures ValidMultiplayer(TrySubmitProfiles(s, l, taken), l) && Advances(s, TrySubmitProfiles(s, l, taken))
  {
  }

  lemma HandshakeArrivesIsValid(s: Multiplayer, l: Layout, p: nat, data: seq<byte>, taken: bool)
    requires ValidMultiplayer(s, l)
    ensures ValidMultiplayer(HandshakeArrives(s, l, p, data, taken), l)
    ensures Advances(s, HandshakeArrives(s, l, p, data, taken))
  {
    RejectedIsValid(s, l, p);
    if p in s.peers && s.peers[p].compatible && |data| == l.handshakeSize {
      if s.isHost && !s.peers[p].romConnected && s.pending.None? {
        TrySubmitHostIsValid(s.(pending := Some(p), pendingData := data), l, taken);
      }
      if !s.isHost && s.connection == AwaitingResponse && IsClientId(l, PlayerIdIn(l, data)) {
        TrySubmitClientIsValid(s.(clientData := data), l, taken);
      }
    }
  }

  lemma HelloNotedIsValid(s: Multiplayer, l: Layout, p: nat)
    requires ValidMultiplayer(s, l) && p in s.peers && !s.peers[p].helloReceived
    ensures ValidMultiplayer(HelloNoted(s, p), l) && Advances(s, HelloNoted(s, p))
  {
  }

  lemma HelloArrivesIsValid(s: Multiplayer, l: Layout, p: nat, compatible: bool, taken: bool)
    requires ValidMultiplayer(s, l)
    ensures ValidMultiplayer(HelloArrives(s, l, p, compatible, taken), l)
    ensures Advances(s, HelloArrives(s, l, p, compatible, taken))
  {
    RejectedIsValid(s, l, p);
    if p in s.peers && !s.peers[p].helloReceived && compatible {
      HelloNotedIsValid(s, l, p);
      HandshakeArrivesIsValid(HelloNoted(s, p), l, p, s.peers[p].early, taken);
    }
  }

  lemma WriteIsValid(s: Multiplayer, l: Layout, offset: nat, data: seq<byte>, cause: Cause)
    requires ValidMultiplayer(s, l) && IsLegal(RomWrite(offset, data, s.isHost, s.playerId, cause), l)
    ensures ValidMultiplayer(Write(s, offset, data, cause), l) && Advances(s, Write(s, offset, data, cause))
  {
  }

  lemma PieceIsLegal(l: Layout, p: Sender, ownId: nat, id: nat, sent: seq<byte>)
    requires p.peer.romConnected && IsClientId(l, ownId) && id < l.playerCount && id != ownId
    requires |sent| == l.stateSize * l.playerCount
    ensures |Piece(sent, id, l)| == l.stateSize
    ensures IsLegal(RomWrite(StateSlot(l, id), Piece(sent, id, l), false, ownId, PlayerStateFrom(p, sent)), l)
  {
    PieceFits(l.stateSize, id, l.playerCount);
  }

  lemma {:induction false} TakeStatesIsValid(s: Multiplayer, l: Layout, p: Sender, packet: Packet, n: nat)
    requires ValidMultiplayer(s, l) && !s.isHost && p.peer.romConnected && IsClientId(l, s.playerId)
    requires |packet.data| == l.stateSize * l.playerCount && n <= l.playerCount
    ensures var t := TakeStates(s, l, p, packet, n);
            ValidMultiplayer(t, l) && Advances(s, t) && t == s.(writes := t.writes)
  {
    if n > 0 {
      var t, id := TakeStates(s, l, p, packet, n - 1), n - 1;
      TakeStatesIsValid(s, l, p, packet, n - 1);
      if id != s.playerId && IsTaken(packet, id) {
        PieceFits(l.stateSize, id, l.playerCount);
        PieceIsLegal(l, p, s.playerId, id, packet.data);
        WriteIsValid(t, l, StateSlot(l, id), Piece(packet.data, id, l), PlayerStateFrom(p, packet.data));
      }
    }
  }

  lemma ProfilesArriveIsValid(s: Multiplayer, l: Layout, p: nat, packet: Packet)
    requires ValidMultiplayer(s, l) && p in s.peers && s.peers[p].romConnected
    ensures ValidMultiplayer(ProfilesArrive(s, l, p, packet), l) && Advances(s, ProfilesArrive(s, l, p, packet))
  {
    RejectedIsValid(s, l, p);
    if !s.isHost && |packet.data| == l.profileSize * l.playerCount {
      TrySubmitProfilesIsValid(s.(clientProfiles := packet.data, profilesFrom := Sender(p, s.peers[p])), l, IsTaken(packet, 0));
    }
  }

  lemma PlayerStateArrivesIsValid(s: Multiplayer, l: Layout, p: nat, packet: Packet)
    requires ValidMultiplayer(s, l) && p in s.peers && s.peers[p].romConnected
    ensures ValidMultiplayer(PlayerStateArrives(s, l, p, packet), l) && Advances(s, PlayerStateArrives(s, l, p, packet))
  {
    RejectedIsValid(s, l, p);
    if !s.isHost && |packet.data| == l.stateSize * l.playerCount {
      TakeStatesIsValid(s, l, Sender(p, s.peers[p]), packet, l.playerCount);
    }
  }

  lemma GameStateArrivesIsValid(s: Multiplayer, l: Layout, p: nat, packet: Packet)
    requires ValidMultiplayer(s, l) && p in s.peers && s.peers[p].romConnected
    ensures ValidMultiplayer(GameStateArrives(s, l, p, packet), l) && Advances(s, GameStateArrives(s, l, p, packet))
  {
    RejectedIsValid(s, l, p);
  }

  lemma EarlyIsValid(s: Multiplayer, l: Layout, p: nat, packet: Packet)
    requires ValidMultiplayer(s, l) && packet.channel != Control && p in s.peers && !s.peers[p].compatible
    ensures ValidMultiplayer(MessageArrives(s, l, p, packet), l) && Advances(s, MessageArrives(s, l, p, packet))
  {
    RejectedIsValid(s, l, p);
  }

  lemma GameplayIsValid(s: Multiplayer, l: Layout, p: nat, packet: Packet)
    requires ValidMultiplayer(s, l) && packet.channel != Control && packet.channel != HandshakeChannel
    requires p in s.peers && s.peers[p].compatible
    ensures ValidMultiplayer(MessageArrives(s, l, p, packet), l) && Advances(s, MessageArrives(s, l, p, packet))
  {
    RejectedIsValid(s, l, p);
    if s.peers[p].romConnected {
      match packet.channel
      case PlayerProfiles => ProfilesArriveIsValid(s, l, p, packet);
      case GameState => GameStateArrivesIsValid(s, l, p, packet);
      case PlayerState => PlayerStateArrivesIsValid(s, l, p, packet);
      case _ =>
    }
  }

  lemma MessageArrivesIsValid(s: Multiplayer, l: Layout, p: nat, packet: Packet)
    requires ValidMultiplayer(s, l)
    ensures ValidMultiplayer(MessageArrives(s, l, p, packet), l) && Advances(s, MessageArrives(s, l, p, packet))
  {
    if packet.channel == Control {
      HelloArrivesIsValid(s, l, p, packet.compatible, IsTaken(packet, 0));
    } else if p !in s.peers {
      RejectedIsValid(s, l, p);
    } else if !s.peers[p].compatible {
      EarlyIsValid(s, l, p, packet);
    } else if packet.channel == HandshakeChannel {
      HandshakeArrivesIsValid(s, l, p, packet.data, IsTaken(packet, 0));
    } else {
      GameplayIsValid(s, l, p, packet);
    }
  }

  // ----- Hello and handshake in either order

  /** A known peer's compatible hello and its handshake lead to the same state in either order, on a host, on a host
      that is busy with another handshake, and on a client. */
  lemma EitherOrder(s: Multiplayer, l: Layout, p: nat, hello: Packet, handshake: Packet)
    requires p in s.peers && !s.peers[p].helloReceived && !s.peers[p].compatible && s.peers[p].early == []
    requires hello.channel == Control && hello.compatible
    requires handshake.channel == HandshakeChannel && |handshake.data| == l.handshakeSize > 0
    requires IsTaken(hello, 0) == IsTaken(handshake, 0)
    ensures MessageArrives(MessageArrives(s, l, p, hello), l, p, handshake)
         == MessageArrives(MessageArrives(s, l, p, handshake), l, p, hello)
  {
    var early := MessageArrives(s, l, p, handshake);
    assert early == s.(peers := s.peers[p := s.peers[p].(early := handshake.data)]);
    var q := s.peers[p].(helloReceived := true, compatible := true, early := []);
    assert early.peers[p := q] == s.peers[p := q];
  }

  // ----- Events and updates

  /** What ENet reports. `sent` says whether the greeting of a new peer can be sent. */
  datatype NetEvent =
    | Connects(peer: nat, sent: bool)
    | Receives(peer: nat, packet: Packet)
    | Leaves(peer: nat)

  function PeerConnects(s: Multiplayer, p: nat, sent: bool): Multiplayer {
    var t := s.(peers := s.peers[p := NEW_PEER],
                connection := if !s.isHost && s.connection == Connecting then AwaitingCompatibility else s.connection);
    if sent then t else Rejected(t, p)
  }

  function EventHappens(s: Multiplayer, l: Layout, e: NetEvent): Multiplayer {
    match e
    case Connects(p, sent) => PeerConnects(s, p, sent)
    case Receives(p, packet) => MessageArrives(s, l, p, packet)
    case Leaves(p) => Disconnects(s, p)
  }

  /** A peer whose handshake is pending does not connect once more. */
  predicate IsPossible(s: Multiplayer, e: NetEvent) {
    !(e.Connects? && e.sent && s.pending == Some(e.peer))
  }

  lemma ConnectIsValid(s: Multiplayer, l: Layout, p: nat, sent: bool)
    requires ValidMultiplayer(s, l) && (sent ==> s.pending != Some(p))
    ensures ValidMultiplayer(PeerConnects(s, p, sent), l)
  {
    var t := s.(peers := s.peers[p := NEW_PEER],
                connection := if !s.isHost && s.connection == Connecting then AwaitingCompatibility else s.connection);
    if s.pending != Some(p) {
      assert ValidMultiplayer(t, l);
      RejectedIsValid(t, l, p);
    }
  }

  /** If it did, its handshake would belong to a peer that is not compatible. */
  lemma ReconnectBreaksPending(s: Multiplayer, l: Layout, p: nat)
    requires ValidMultiplayer(s, l) && s.pending == Some(p)
    ensures !ValidMultiplayer(EventHappens(s, l, Connects(p, true)), l)
  {
    var t := EventHappens(s, l, Connects(p, true));
    assert t.peers[p] == NEW_PEER;
  }

  /** Exactly the possible events keep the invariant. */
  lemma EventIsValid(s: Multiplayer, l: Layout, e: NetEvent)
    requires ValidMultiplayer(s, l)
    ensures ValidMultiplayer(EventHappens(s, l, e), l) <==> IsPossible(s, e)
    ensures Advances(s, EventHappens(s, l, e))
  {
    match e
    case Connects(p, sent) =>
      if IsPossible(s, e) {
        ConnectIsValid(s, l, p, sent);
      } else {
        ReconnectBreaksPending(s, l, p);
      }
    case Receives(p, packet) => MessageArrivesIsValid(s, l, p, packet);
    case Leaves(p) => RejectedIsValid(s, l, p);
  }

  ghost predicate ArePossible(s: Multiplayer, l: Layout, es: seq<NetEvent>)
    decreases |es|
  {
    es == [] || (IsPossible(s, es[0]) && ArePossible(EventHappens(s, l, es[0]), l, es[1..]))
  }

  function EventsHappen(s: Multiplayer, l: Layout, es: seq<NetEvent>): Multiplayer
    decreases |es|
  {
    if es == [] then s else EventsHappen(EventHappens(s, l, es[0]), l, es[1..])
  }

  lemma {:induction false} EventsAreValid(s: Multiplayer, l: Layout, es: seq<NetEvent>)
    requires ValidMultiplayer(s, l) && ArePossible(s, l, es)
    ensures ValidMultiplayer(EventsHappen(s, l, es), l) && Advances(s, EventsHappen(s, l, es))
    decreases |es|
  {
    if es != [] {
      EventIsValid(s, l, es[0]);
      EventsAreValid(EventHappens(s, l, es[0]), l, es[1..]);
    }
  }

  /** The peers whose time for a hello has run out; only those that are not compatible are listed. */
  function Expire(s: Multiplayer, expired: seq<nat>): Multiplayer
    decreases |expired|
  {
    if expired == [] then s else Expire(Rejected(s, expired[0]), expired[1..])
  }

  lemma {:induction false} ExpireIsValid(s: Multiplayer, l: Layout, expired: seq<nat>)
    requires ValidMultiplayer(s, l)
    ensures ValidMultiplayer(Expire(s, expired), l) && Advances(s, Expire(s, expired))
    decreases |expired|
  {
    if expired != [] {
      RejectedIsValid(s, l, expired[0]);
      ExpireIsValid(Rejected(s, expired[0]), l, expired[1..]);
    }
  }

  const SEND_TO_HOST: byte := 1
  const SEND_TO_CLIENT: byte := 2

  /** What one update sees of the ROM's state, what the network reports, and which calls work. */
  datatype Look = Look(
    requestChanged: bool, handshakeState: byte, handshakePlayerId: byte, requestFlags: byte, events: seq<NetEvent>, expired: seq<nat>,
    timedOut: bool, sent: bool, handshakeTaken: bool, profilesTaken: bool, confirmationTaken: bool)

  /** The host passes the ROM's answer on to the peer whose handshake the ROM has processed. */
  function AnswerPending(s: Multiplayer, l: Layout, look: Look): Multiplayer
    requires s.pending.Some?
  {
    var p, t := s.pending.value, s.(pending := None);
    if !IsClientId(l, look.handshakePlayerId) then Rejected(t, p)
    else if p !in t.peers || !t.peers[p].compatible then t
    else
      var u := t.(peers := t.peers[p := t.peers[p].(playerId := look.handshakePlayerId, romConnected := true)]);
      if look.sent then u else Rejected(u, p)
  }

  lemma AnswerPendingIsValid(s: Multiplayer, l: Layout, look: Look)
    requires ValidMultiplayer(s, l) && s.pending.Some? && s.pendingData == []
    ensures ValidMultiplayer(AnswerPending(s, l, look), l) && Advances(s, AnswerPending(s, l, look))
  {
    var p, t := s.pending.value, s.(pending := None);
    RejectedIsValid(t, l, p);
    if IsClientId(l, look.handshakePlayerId) {
      var u := t.(peers := t.peers[p := t.peers[p].(playerId := look.handshakePlayerId, romConnected := true)]);
      assert ValidMultiplayer(u, l);
      RejectedIsValid(u, l, p);
    }
  }

  /** The connection's own progress. */
  function Proceeds(s: Multiplayer, l: Layout, look: Look): Multiplayer {
    match s.connection
    case Connecting => s.(removed := s.removed || look.timedOut)
    case AwaitingCompatibility => s.(removed := s.removed || look.timedOut)
    case AwaitingHandshake =>
      if look.handshakeState != SEND_TO_HOST then s
      else if look.sent then s.(connection := AwaitingResponse)
      else s.(removed := true)
    case AwaitingResponse => s
    case ConnectionConfirmed =>
      if look.confirmationTaken then
        Write(s, l.currentStateOffset, [look.requestFlags], Confirmation).(connection := Connected)
      else s
    case Connected => s
  }

  /** What waits is offered to the session again, before the network is polled. */
  function Retried(s: Multiplayer, l: Layout, look: Look): Multiplayer {
    TrySubmitHost(TrySubmitProfiles(TrySubmitClient(s, l, look.handshakeTaken), l, look.profilesTaken), l,
                  look.handshakeTaken)
  }

  function AfterPoll(s: Multiplayer, l: Layout, look: Look): Multiplayer {
    Expire(EventsHappen(Retried(s, l, look), l, look.events), look.expired)
  }

  /** `OnUpdate` once a connection was attempted. */
  function Updated(s: Multiplayer, l: Layout, look: Look): Multiplayer {
    var before, t := Retried(s, l, look).pending, AfterPoll(s, l, look);
    if look.requestChanged then s.(removed := true)
    else if s.pendingData == [] && before.Some? && t.pending == before && t.pendingData == []
       && look.handshakeState == SEND_TO_CLIENT
    then AnswerPending(t, l, look)
    else Proceeds(t, l, look)
  }

  lemma ProceedsIsValid(s: Multiplayer, l: Layout, look: Look)
    requires ValidMultiplayer(s, l)
    ensures ValidMultiplayer(Proceeds(s, l, look), l) && Advances(s, Proceeds(s, l, look))
  {
    if s.connection == ConnectionConfirmed && look.confirmationTaken {
      WriteIsValid(s, l, l.currentStateOffset, [look.requestFlags], Confirmation);
    }
  }

  lemma RetriedIsValid(s: Multiplayer, l: Layout, look: Look)
    requires ValidMultiplayer(s, l)
    ensures ValidMultiplayer(Retried(s, l, look), l) && Advances(s, Retried(s, l, look))
  {
    var t := TrySubmitClient(s, l, look.handshakeTaken);
    TrySubmitClientIsValid(s, l, look.handshakeTaken);
    TrySubmitProfilesIsValid(t, l, look.profilesTaken);
    TrySubmitHostIsValid(TrySubmitProfiles(t, l, look.profilesTaken), l, look.handshakeTaken);
  }

  /** Every update, whatever the ROM shows and the network reports. */
  lemma UpdatedIsValid(s: Multiplayer, l: Layout, look: Look)
    requires ValidMultiplayer(s, l) && ArePossible(Retried(s, l, look), l, look.events)
    ensures ValidMultiplayer(Updated(s, l, look), l) && Advances(s, Updated(s, l, look))
  {
    RetriedIsValid(s, l, look);
    var t := Retried(s, l, look);
    EventsAreValid(t, l, look.events);
    ExpireIsValid(EventsHappen(t, l, look.events), l, look.expired);
    var u := AfterPoll(s, l, look);
    ProceedsIsValid(u, l, look);
    if u.pending.Some? && u.pendingData == [] {
      AnswerPendingIsValid(u, l, look);
    }
  }

  // ----- Whole runs

  function HostOpened(): Multiplayer {
    ATTACHED.(isHost := true, connection := ConnectionConfirmed)
  }

  function ClientOpened(peer: nat): Multiplayer {
    ATTACHED.(netPeer := Some(peer))
  }

  ghost predicate RunIsPossible(s: Multiplayer, l: Layout, looks: seq<Look>)
    decreases |looks|
  {
    looks == [] || (&& ArePossible(Retried(s, l, looks[0]), l, looks[0].events)
                    && RunIsPossible(Updated(s, l, looks[0]), l, looks[1..]))
  }

  function Run(s: Multiplayer, l: Layout, looks: seq<Look>): Multiplayer
    decreases |looks|
  {
    if looks == [] then s else Run(Updated(s, l, looks[0]), l, looks[1..])
  }

  lemma {:induction false} RunIsValid(s: Multiplayer, l: Layout, looks: seq<Look>)
    requires ValidMultiplayer(s, l) && RunIsPossible(s, l, looks)
    ensures ValidMultiplayer(Run(s, l, looks), l) && Advances(s, Run(s, l, looks))
    decreases |looks|
  {
    if looks != [] {
      UpdatedIsValid(s, l, looks[0]);
      RunIsValid(Updated(s, l, looks[0]), l, looks[1..]);
    }
  }

  lemma SlotFits(l: Layout, id: nat)
    requires ValidLayout(l) && id < l.playerCount
    ensures StateSlot(l, id) + l.stateSize <= l.blobSize
  {
    PieceFits(l.stateSize, id, l.playerCount);
  }

  /** Writes of a legal kind stay inside the ROM's multiplayer state. */
  lemma LegalWritesFit(w: RomWrite, l: Layout)
    requires ValidLayout(l) && IsLegal(w, l)
    ensures w.offset + |w.data| <= l.blobSize
  {
    match w.cause
    case PlayerStateFrom(f, _) =>
      if w.byHost {
        SlotFits(l, f.peer.playerId);
      } else {
        var id: nat :| id < l.playerCount && w.offset == StateSlot(l, id);
        SlotFits(l, id);
      }
    case _ =>
  }

  /** Slots of different players do not overlap, so a client's state cannot reach another player's slot. */
  lemma SlotsAreDisjoint(l: Layout, i: nat, j: nat)
    requires i < j
    ensures StateSlot(l, i) + l.stateSize <= StateSlot(l, j)
  {
    PieceFits(l.stateSize, i, j);
  }

  /** What callers and peers can rely on. */
  ghost predicate IsSafe(s: Multiplayer, l: Layout) {
    && (s.pending.Some? ==> && s.isHost && s.pending.value in s.peers && s.peers[s.pending.value].compatible
                            && !s.peers[s.pending.value].romConnected)
    && (forall p :: p in s.peers && s.peers[p].romConnected ==>
          s.peers[p].compatible && IsClientId(l, s.peers[p].playerId))
    && (forall w :: w in s.writes ==> IsLegal(w, l) && w.offset + |w.data| <= l.blobSize)
  }

  lemma ValidIsSafe(s: Multiplayer, l: Layout)
    requires ValidMultiplayer(s, l)
    ensures IsSafe(s, l)
  {
    forall w | w in s.writes ensures w.offset + |w.data| <= l.blobSize {
      LegalWritesFit(w, l);
    }
  }

  /** The main result, for a host and for a client, from the opening of the connection on. */
  lemma MultiplayerIsSafe(l: Layout, looks: seq<Look>, peer: nat, isHost: bool)
    requires ValidLayout(l)
    requires RunIsPossible(if isHost then HostOpened() else ClientOpened(peer), l, looks)
    ensures var start := if isHost then HostOpened() else ClientOpened(peer);
            IsSafe(Run(start, l, looks), l) && Advances(start, Run(start, l, looks))
  {
    var start := if isHost then HostOpened() else ClientOpened(peer);
    RunIsValid(start, l, looks);
    ValidIsSafe(Run(start, l, looks), l);
  }
}
