/** The Home Box behaviour of the app, with the game and the disk that it works on.

    The game changes nothing but its order table by itself: slots change only by the app's writes, which it
    acknowledges after performing them. What the game shows, and what becomes of requests and file operations, are
    arguments of the methods. */
module HomeBoxBehaviour {
  import opened Bytes
  import opened Permutations
  import opened HomeBoxFile
  import opened HomeBoxDisk
  import opened HomeBoxTransfer

  datatype Phase = OpenOfflineFile | InitialiseBoxData | WaitingForBoxData | SendGameDataInit | WaitForInit | Update

  /** What one look at the game's memory shows. */
  datatype Observation = Observation(
    stateValid: bool, layoutValid: bool, order: seq<byte>, trainerId: u32, metadata: seq<seq<byte>>, storageReady: bool)

  /** What becomes of a request to the session: a refusal may disconnect, which detaches the behaviour. */
  datatype Answer = Taken | RefusedOnly | RefusedAndDetached

  /** The outcomes of the calls that one update can make. */
  datatype Outcomes = Outcomes(
    answer: Answer, orderAnswer: Answer, saveIsDue: bool, save: SaveFaults, load: LoadFaults, detachSave: SaveFaults)

  /** A save as it was attempted. */
  datatype Attempt = Attempt(transfer: Transfer, data: HomeBox, io: SaveFaults)

  function SavesOf(attempts: seq<Attempt>): (saves: seq<Save>)
    ensures |saves| == |attempts|
  {
    seq(|attempts|, i requires 0 <= i < |attempts| => Save(attempts[i].data, attempts[i].io))
  }

  /** The game's storage of local boxes, the write that is on its way there, and the files. */
  class Game {
    const shape: Shape
    const api: u32
    const edition: byte
    var storage: seq<byte>
    var flight: Option<Flight>
    var disk: Disk
    ghost var startStorage: seq<byte>
    ghost var startDisk: Disk
    ghost var attempts: seq<Attempt>

    constructor (shape: Shape, api: u32, edition: byte, storage: seq<byte>, disk: Disk)
      requires IsStorage(storage, shape)
      ensures this.shape == shape && this.storage == startStorage == storage && this.disk == startDisk == disk
      ensures flight == None && attempts == []
    {
      this.shape, this.api, this.edition := shape, api, edition;
      this.storage, startStorage := storage, storage;
      this.disk, startDisk := disk, disk;
      flight, attempts := None, [];
    }
  }

  /** What every attempt to save had at hand: a finished transfer of the boxes that were loaded, and its records. */
  ghost predicate IsFaithful(a: Attempt, s: Shape) {
    && InTransfer(a.transfer, s) && a.transfer.queue == [] && a.transfer.flight == None && s.totalCount < U32_LIMIT
    && a.data.records == RecordsFor(a.transfer.boxes, a.transfer.order, s)
  }

  /** Every attempt was faithful to the same boxes, and the files are what the attempts left. */
  ghost predicate Booked(attempts: seq<Attempt>, start: Disk, disk: Disk, boxes: seq<Box>, d: Dimensions, s: Shape) {
    && (forall a :: a in attempts ==> IsFaithful(a, s) && a.transfer.boxes == boxes && a.data.dimensions == d)
    && disk == AfterSaves(start, SavesOf(attempts))
  }

  lemma BookedMore(attempts: seq<Attempt>, start: Disk, disk: Disk, boxes: seq<Box>, d: Dimensions, s: Shape, a: Attempt)
    requires Booked(attempts, start, disk, boxes, d, s)
    requires IsFaithful(a, s) && a.transfer.boxes == boxes && a.data.dimensions == d
    ensures Booked(attempts + [a], start, AfterSave(disk, a.data, a.io), boxes, d, s)
  {
    assert SavesOf(attempts + [a])[..|attempts|] == SavesOf(attempts);
  }

  /** At any time, what can be loaded is the data of the last attempt that took effect, or what there was at first. */
  lemma FilesFollowAttempts(attempts: seq<Attempt>, start: Disk, disk: Disk, boxes: seq<Box>, d: Dimensions, s: Shape)
    requires Booked(attempts, start, disk, boxes, d, s)
    ensures Loaded(disk, d) == LastEffective(start, d, SavesOf(attempts))
  {
    forall save | save in SavesOf(attempts) ensures save.data.dimensions == d {
      var i :| 0 <= i < |attempts| && SavesOf(attempts)[i] == save;
      assert attempts[i] in attempts;
    }
    SavesAreAtomic(start, SavesOf(attempts), d);
  }

  predicate IsUsable(s: Shape) {
    0 < s.totalCount <= 255 && s.localCount <= s.totalCount && 0 < s.monSize < U32_LIMIT && 0 < s.metadataSize < U32_LIMIT
  }

  /** The boxes that the behaviour starts with: the slots of the game with the metadata that it showed for them, and
      behind them the stored ones. */
  ghost predicate StartsWith(boxes: seq<Box>, stored: seq<Box>, storage: seq<byte>, metadata: seq<seq<byte>>, s: Shape)
    requires IsStorage(storage, s)
  {
    && AreBoxes(boxes, s) && s.localCount <= s.totalCount && boxes[s.localCount..] == stored
    && |metadata| == s.localCount
    && forall i :: 0 <= i < s.localCount ==> boxes[i] == Box(metadata[i], Slot(storage, s, i))
  }

  function Identity(n: nat): (s: seq<int>)
    ensures IsPermutation(s, n) && forall i :: 0 <= i < n ==> s[i] == i
  {
    seq(n, i requires 0 <= i < n => i)
  }

  lemma TransferBegins(boxes: seq<Box>, stored: seq<Box>, storage: seq<byte>, metadata: seq<seq<byte>>, s: Shape)
    requires IsStorage(storage, s) && StartsWith(boxes, stored, storage, metadata, s)
    ensures InTransfer(Transfer(boxes, Identity(s.totalCount), [], storage, None), s)
  {
  }

  /** The loop over the stored boxes. */
  method RecordsOf(boxes: seq<Box>, order: seq<int>, s: Shape) returns (records: seq<Record>)
    requires AreBoxes(boxes, s) && IsPermutation(order, s.totalCount) && s.localCount <= s.totalCount < U32_LIMIT
    ensures records == RecordsFor(boxes, order, s)
  {
    records := [];
    for remoteIndex := 0 to s.totalCount - s.localCount
      invariant records == RecordsFor(boxes, order, s)[..remoteIndex]
    {
      var box := boxes[order[s.localCount + remoteIndex]];
      records := records + [Record(remoteIndex, box.metadata, box.pokemon)];
    }
  }

  /** How far the behaviour has got before transfers start. */
  datatype Stage = Stage(phase: Phase, boxes: nat, sent: nat, observed: seq<seq<byte>>, reopens: bool, detached: bool)

  /** The game has filled the last place of its order. */
  predicate IsInitialised(obs: Observation)
    requires obs.order != []
  {
    obs.order[|obs.order| - 1] != 255
  }

  /** One update before transfers start: each phase leads to the next once its request is taken or the game is ready. */
  predicate Moves(b: Stage, obs: Observation, outcomes: Outcomes, permitted: bool, s: Shape, a: Stage)
    requires |obs.order| == s.totalCount > 0 && |obs.metadata| == s.localCount
  {
    match b.phase
    case OpenOfflineFile =>
      if IsInitialised(obs) then a == b.(reopens := true)
      else (!a.detached <==> permitted) && (permitted ==> a.phase == InitialiseBoxData && a.boxes == 0) && a.observed == b.observed
    case InitialiseBoxData =>
      if b.boxes >= s.localCount then a == b.(phase := SendGameDataInit, boxes := s.totalCount)
      else (match outcomes.answer
            case Taken => a == b.(phase := WaitingForBoxData, boxes := b.boxes + 1)
            case RefusedOnly => a == b
            case RefusedAndDetached => a.detached && a.observed == b.observed)
    case WaitingForBoxData =>
      if !obs.storageReady then a == b
      else |b.observed| < s.localCount
           && a == b.(phase := InitialiseBoxData, observed := b.observed + [obs.metadata[|b.observed|]])
    case SendGameDataInit =>
      var more := b.sent < s.totalCount;
      var answer := if more then outcomes.answer else Taken;
      var sent := if more && answer == Taken then b.sent + 1 else b.sent;
      var ordered := answer == Taken && sent >= s.totalCount;
      if answer == RefusedAndDetached || (ordered && outcomes.orderAnswer == RefusedAndDetached) then
        a.detached && a.observed == b.observed
      else a == b.(sent := sent, phase := if ordered && outcomes.orderAnswer == Taken then WaitForInit else SendGameDataInit)
    case WaitForInit => a == if IsInitialised(obs) then b.(phase := Update) else b
    case Update => a.observed == b.observed
  }

  class HomeBoxBehaviour {
    const game: Game
    var phase: Phase
    var dimensions: Dimensions
    var localOrder: seq<int>
    var active: seq<Box>
    var stored: seq<Box>
    var queue: seq<BoxWrite>
    var waiting: bool
    var initialiseIndex: nat
    var hasPath: bool
    var pendingSave: bool
    var requiresReopen: bool
    var detached: bool
    /** The chunks that were sent for the first queued slot, and those of the slots that are done. */
    ghost var chunks: seq<Chunk>
    ghost var rewritten: seq<seq<Chunk>>
    ghost var loadFaults: LoadFaults
    /** The metadata that the game showed for each local box when that box was read. */
    ghost var observed: seq<seq<byte>>

    function State(): Transfer
      reads this, game
    {
      Transfer(active, localOrder, queue, game.storage, game.flight)
    }

    ghost function CurrentStage(): Stage
      reads this
    {
      Stage(phase, |active|, initialiseIndex, observed, requiresReopen, detached)
    }

    /** Every attempt to save was faithful to the boxes that were loaded, and the files are what the attempts left. */
    ghost predicate Books()
      reads this, game
    {
      && IsUsable(game.shape) && IsStorage(game.startStorage, game.shape)
      && Booked(game.attempts, game.startDisk, game.disk, active, dimensions, game.shape)
      && (game.attempts != [] ==> StartsWith(active, stored, game.startStorage, observed, game.shape) && StoredIsLoaded())
    }

    /** The stored boxes are those of the file that was loaded, or empty ones when there was no file; and a save may replace
        the primary. */
    ghost predicate StoredIsLoaded()
      reads this, game
    {
      && game.shape.localCount <= game.shape.totalCount && FitsShape(dimensions, game.shape)
      && ValidDimensions(dimensions) && CanReplace(game.startDisk, dimensions)
      && stored == StoredBoxes(Load(game.startDisk, dimensions, loadFaults).data, game.shape)
    }

    /** What was sent covers each finished slot, and the first queued one as far as it has got. */
    ghost predicate Coverage()
      reads this, game
    {
      && (forall c :: c in rewritten ==> Covers(c, game.shape.monSize))
      && (!detached ==> Covers(chunks, if queue == [] then 0 else queue[0].offset))
    }

    ghost predicate Loading()
      reads this, game
    {
      && game.storage == game.startStorage && game.flight == None && game.attempts == []
      && queue == [] && !waiting && localOrder == [] && !pendingSave
    }

    ghost predicate StoredFits()
      reads this, game
    {
      && |stored| == game.shape.totalCount - game.shape.localCount
      && (forall i :: 0 <= i < |stored| ==>
            |stored[i].pokemon| == game.shape.monSize && |stored[i].metadata| == game.shape.metadataSize)
      && StoredIsLoaded() && hasPath
    }

    /** `n` local boxes have been read. */
    ghost predicate HasRead(n: nat)
      reads this, game
    {
      && n == |observed| <= |active| && n <= game.shape.localCount && IsStorage(game.startStorage, game.shape)
      && forall i :: 0 <= i < n ==> && active[i] == Box(observed[i], Slot(game.startStorage, game.shape, i))
                                    && |observed[i]| == game.shape.metadataSize
    }

    ghost predicate Transferring()
      reads this, game
    {
      && StoredFits() && InTransfer(State(), game.shape)
      && IsStorage(game.startStorage, game.shape) && StartsWith(active, stored, game.startStorage, observed, game.shape)
      && (game.flight.Some? ==> waiting) && (waiting ==> queue != [])
    }

    ghost predicate Valid()
      reads this, game
    {
      && Books() && Coverage()
      && (!detached ==>
            match phase
            case OpenOfflineFile => Loading() && active == [] && observed == []
            case InitialiseBoxData => Loading() && StoredFits() && HasRead(|active|)
            case WaitingForBoxData => Loading() && StoredFits() && active != [] && |active| <= game.shape.localCount
                                      && HasRead(|active| - 1)
            case SendGameDataInit =>
              if localOrder == [] then Loading() && StoredFits() && StartsWith(active, stored, game.startStorage, observed, game.shape)
              else Transferring() && queue == [] && game.attempts == [] && !pendingSave && game.storage == game.startStorage
            case WaitForInit => Transferring() && queue == [] && game.attempts == [] && !pendingSave
            case Update => Transferring())
    }

    /** `OnAttach`. */
    constructor (game: Game)
      requires IsUsable(game.shape) && IsStorage(game.storage, game.shape)
      requires game.startStorage == game.storage && game.startDisk == game.disk && game.attempts == [] && game.flight == None
      ensures Valid() && this.game == game && phase == OpenOfflineFile && !detached
    {
      this.game := game;
      phase, localOrder, active, stored, queue, waiting, initialiseIndex := OpenOfflineFile, [], [], [], [], false, 0;
      dimensions := Dimensions(0, 0, 0, 0, 0, 0);
      hasPath, pendingSave, requiresReopen, detached := false, false, false, false;
      chunks, rewritten, observed := [], [], [];
    }

    // ----- Saving

    /** The records that the current order puts into the file. */
    method CollectRecords() returns (records: seq<Record>)
      requires Transferring() && IsUsable(game.shape)
      ensures records == RecordsFor(active, localOrder, game.shape)
    {
      records := RecordsOf(active, localOrder, game.shape);
    }

    /** What a save writes. */
    ghost function ToSave(): HomeBox
      requires Transferring() && IsUsable(game.shape)
      reads this, game
    {
      HomeBox(dimensions, RecordsFor(active, localOrder, game.shape))
    }

    /** `HandlePendingFileWrite`: saves only while no slot is left to rewrite. */
    method HandlePendingFileWrite(due: bool, io: SaveFaults)
      requires Valid() && (phase == Update || !pendingSave) && !detached
      modifies this`pendingSave, this`detached, game`disk, game`attempts
      ensures Valid() && (old(pendingSave) ==> phase == Update)
      ensures !old(pendingSave) || old(queue) != [] || !due ==>
                game.disk == old(game.disk) && game.attempts == old(game.attempts) && !detached
      ensures old(pendingSave) && old(queue) == [] && due ==>
                game.attempts == old(game.attempts) + [Attempt(old(State()), ToSave(), io)]
      ensures detached ==> game.attempts != old(game.attempts)
      ensures !pendingSave && old(pendingSave) ==> game.attempts != old(game.attempts)
      ensures old(game.attempts) <= game.attempts && game.flight == old(game.flight)
    {
      if !pendingSave || !hasPath || active == [] || localOrder == [] || queue != [] || !due {
        return;
      }
      SaveNow(io);
    }

    method SaveNow(io: SaveFaults)
      requires Valid() && phase == Update && !detached && queue == []
      modifies this`pendingSave, this`detached, game`disk, game`attempts
      ensures Valid() && game.attempts == old(game.attempts) + [Attempt(old(State()), ToSave(), io)]
    {
      var records := CollectRecords();
      var outcome := SaveFile(HomeBox(dimensions, records), io);
      NoteOutcome(outcome);
    }

    method NoteOutcome(outcome: Outcome)
      requires Valid() && phase == Update && !detached
      modifies this`pendingSave, this`detached
      ensures Valid() && pendingSave == (old(pendingSave) && outcome != Saved) && detached == (outcome == Stopped)
    {
      pendingSave := pendingSave && outcome != Saved;
      detached := outcome == Stopped;
    }

    method SaveFile(data: HomeBox, io: SaveFaults) returns (outcome: Outcome)
      requires Valid() && phase == Update && !detached && queue == []
      requires data.records == RecordsFor(active, localOrder, game.shape) && data.dimensions == dimensions
      modifies game`disk, game`attempts
      ensures Valid() && game.attempts == old(game.attempts) + [Attempt(old(State()), data, io)]
      ensures game.disk == AfterSave(old(game.disk), data, io) && outcome == SaveOutcome(old(game.disk), data, io)
    {
      assert InTransfer(State(), game.shape) && game.flight == None;
      BookedMore(game.attempts, game.startDisk, game.disk, active, dimensions, game.shape, Attempt(State(), data, io));
      outcome := SaveOutcome(game.disk, data, io);
      game.disk := AfterSave(game.disk, data, io);
      game.attempts := game.attempts + [Attempt(State(), data, io)];
    }

    /** There is a write that was not acknowledged, or data that was not sent. */
    predicate IsUnfinished()
      reads this
    {
      queue != [] && (waiting || queue[0].remaining != 0 || |queue| > 1)
    }

    /** `OnDetach`: an unfinished transfer leaves the files as they are. */
    method OnDetach(io: SaveFaults)
      requires Valid()
      modifies this, game
      ensures Valid() && detached
      ensures old(IsUnfinished()) || !old(pendingSave) || old(detached) ==>
                game.disk == old(game.disk) && game.attempts == old(game.attempts)
      ensures !old(IsUnfinished()) && old(pendingSave) && !old(detached) ==>
                |game.attempts| == |old(game.attempts)| + 1
      ensures old(game.attempts) <= game.attempts
      ensures game.storage == old(game.storage) && observed == old(observed)
    {
      if detached {
        return;
      }
      PopAllFinished();
      SaveAtEnd(io);
      MarkDetached();
    }

    method SaveAtEnd(io: SaveFaults)
      requires Valid() && !detached
      modifies this`pendingSave, this`detached, game`disk, game`attempts
      ensures Valid() && old(game.attempts) <= game.attempts
      ensures if queue != [] || !old(pendingSave) then game.disk == old(game.disk) && game.attempts == old(game.attempts)
              else |game.attempts| == |old(game.attempts)| + 1
    {
      if queue == [] {
        HandlePendingFileWrite(true, io);
      }
    }

    method MarkDetached()
      requires Valid()
      modifies this`detached, this`queue, this`pendingSave
      ensures Valid() && detached
    {
      detached := true;
      queue, pendingSave := [], false;
    }

    method PopAllFinished()
      requires Valid() && !detached
      modifies this`queue, this`chunks, this`rewritten
      ensures Valid() && (old(IsUnfinished()) <==> queue != [])
    {
      while !waiting && queue != [] && queue[0].remaining == 0
        invariant Valid() && (old(IsUnfinished()) <==> IsUnfinished())
        decreases |queue|
      {
        PopFinished();
      }
    }

    method PopFinished()
      requires Valid() && !detached && !waiting && queue != [] && queue[0].remaining == 0
      modifies this`queue, this`chunks, this`rewritten
      ensures Valid() && queue == old(queue)[1..] && rewritten == old(rewritten) + [old(chunks)]
    {
      assert phase == Update;
      PopFirst();
    }

    method PopFirst()
      requires InTransfer(State(), game.shape) && game.flight == None && Coverage() && !detached
      requires queue != [] && queue[0].remaining == 0
      modifies this`queue, this`chunks, this`rewritten
      ensures InTransfer(State(), game.shape) && Coverage()
      ensures queue == old(queue)[1..] && rewritten == old(rewritten) + [old(chunks)]
    {
      assert queue[0].offset == game.shape.monSize;
      PoppedKeeps(State(), game.shape);
      queue := queue[1..];
      rewritten, chunks := rewritten + [chunks], [];
    }

    // ----- Rewriting slots

    /** `PumpWriteMonBox`: sends the next chunk of the first slot, unless one is on its way. */
    method PumpWriteMonBox(answer: Answer, io: SaveFaults) returns (busy: bool)
      requires Valid() && phase == Update && !detached
      modifies this, game
      ensures Valid()
      ensures busy <==> old(queue) != []
      ensures !busy ==> State() == old(State()) && !waiting && !detached && phase == Update && pendingSave == old(pendingSave)
      ensures old(waiting) ==> State() == old(State())
      ensures busy && !old(waiting) ==>
                if old(queue)[0].remaining == 0 then queue == old(queue)[1..]
                else && (answer == Taken ==> State() == Launched(old(State()), game.shape))
                     && (answer == RefusedAndDetached ==> detached)
                     && (answer == RefusedOnly ==> State() == old(State()) && !detached)
      ensures game.disk == old(game.disk) && game.attempts == old(game.attempts) && observed == old(observed)
    {
      if queue == [] {
        return false;
      }
      if waiting {
        return true;
      }
      if queue[0].remaining == 0 {
        PopFinished();
        return true;
      }
      SendChunk(answer, io);
      return true;
    }

    method SendChunk(answer: Answer, io: SaveFaults)
      requires Valid() && phase == Update && !detached && queue != [] && !waiting && queue[0].remaining > 0
      modifies this, game
      ensures Valid()
      ensures answer == Taken ==> State() == Launched(old(State()), game.shape)
      ensures answer == RefusedAndDetached ==> detached
      ensures answer == RefusedOnly ==> State() == old(State()) && !waiting && !detached
      ensures game.disk == old(game.disk) && game.attempts == old(game.attempts) && observed == old(observed)
    {
      if answer == Taken {
        Launch();
        return;
      }
      RefuseChunk(answer, io);
    }

    method RefuseChunk(answer: Answer, io: SaveFaults)
      requires Valid() && phase == Update && !detached && queue != [] && !waiting && queue[0].remaining > 0
      requires answer != Taken
      modifies this, game
      ensures Valid() && game.disk == old(game.disk) && game.attempts == old(game.attempts) && observed == old(observed)
      ensures if answer == RefusedAndDetached then detached else State() == old(State()) && !waiting && !detached
    {
      waiting := true;
      if answer == RefusedAndDetached {
        OnDetach(io);
      }
      waiting := false;
    }

    method Launch()
      requires InTransfer(State(), game.shape) && Coverage() && !detached
      requires queue != [] && queue[0].remaining > 0 && game.flight == None
      modifies this`waiting, this`queue, this`chunks, game`flight
      ensures InTransfer(State(), game.shape) && Coverage() && waiting && queue != []
      ensures State() == Launched(old(State()), game.shape)
    {
      waiting := true;
      LaunchFirst();
    }

    method LaunchFirst()
      requires InTransfer(State(), game.shape) && queue != [] && queue[0].remaining > 0 && game.flight == None
      requires Coverage() && !detached
      modifies this`queue, this`chunks, game`flight
      ensures InTransfer(State(), game.shape) && State() == Launched(old(State()), game.shape)
      ensures Coverage() && queue != []
    {
      LaunchedKeeps(State(), game.shape);
      NoteChunk(queue[0].offset, Advanced(queue[0]).offset);
      WriteChunk();
    }

    ghost method NoteChunk(from: nat, to: nat)
      requires from < to <= from + CHUNK && Covers(chunks, from)
      modifies this`chunks
      ensures Covers(chunks, to)
    {
      CoversMore(chunks, from, to);
      chunks := chunks + [Chunk(from, to)];
    }

    method WriteChunk()
      requires InTransfer(State(), game.shape) && queue != [] && game.flight == None
      modifies this`queue, game`flight
      ensures State() == Launched(old(State()), game.shape)
    {
      var request := queue[0];
      var writeSize := if request.remaining < 1024 then request.remaining else 1024;
      SlotStartIsLinear(game.shape.monSize, request.slot);
      var at := game.shape.monSize * request.slot + request.offset;
      game.flight := Some(Flight(at, request.offset, request.data[request.offset..request.offset + writeSize], false));
      queue := [request.(offset := request.offset + writeSize, remaining := request.remaining - writeSize)] + queue[1..];
    }

    // ----- The game's side

    /** The game performs the write that is on its way. */
    method Perform()
      requires Valid() && !detached && game.flight.Some? && !game.flight.value.applied
      modifies game`storage, game`flight
      ensures Valid() && State() == Applied(old(State()), game.shape)
    {
      assert phase == Update;
      AppliedKeeps(State(), game.shape);
      SlotFits(game.shape, queue[0].slot);
      var f := game.flight.value;
      game.storage := Patch(game.storage, f.at, f.data);
      game.flight := Some(f.(applied := true));
    }

    /** The acknowledgement of a performed write arrives, and the next chunk may be sent. */
    method Acknowledge()
      requires Valid() && !detached && game.flight.Some? && game.flight.value.applied
      modifies this`waiting, game`flight
      ensures Valid() && !waiting && game.flight == None
    {
      assert phase == Update;
      AcknowledgedKeeps(State(), game.shape);
      game.flight := None;
      waiting := false;
    }

    /** `ValidateIndexOrder`. */
    method ValidateIndexOrder(indices: seq<byte>) returns (ok: bool)
      requires FitsShape(dimensions, game.shape) && game.shape.localCount <= game.shape.totalCount
      ensures ok <==> IsPermutation(indices, game.shape.totalCount)
    {
      if |indices| != dimensions.count + game.shape.localCount {
        return false;
      }
      var seen := new bool[|indices|](_ => false);
      for k := 0 to |indices|
        invariant forall i :: 0 <= i < k ==> indices[i] < |indices|
        invariant Distinct(indices[..k])
        invariant forall x :: 0 <= x < |indices| ==> (seen[x] <==> x in indices[..k])
      {
        assert indices[..k + 1] == indices[..k] + [indices[k]];
        if indices[k] >= seen.Length || seen[indices[k]] {
          assert seen.Length > indices[k] ==> indices[k] in indices[..k];
          return false;
        }
        seen[indices[k]] := true;
      }
      assert indices[..|indices|] == indices;
      return true;
    }

    // ----- Opening the file

    method TakeRecords(h: HomeBox) returns (boxes: seq<Box>)
      requires game.shape.localCount <= game.shape.totalCount
      requires |h.records| == game.shape.totalCount - game.shape.localCount
      ensures boxes == StoredBoxes(Some(h), game.shape)
    {
      boxes := [];
      for k := 0 to |h.records|
        invariant boxes == StoredBoxes(Some(h), game.shape)[..k]
      {
        boxes := boxes + [Box(h.records[k].metadata, h.records[k].pokemon)];
      }
    }

    /** `LoadOfflineData`: a damaged or unreadable file ends the session before anything is transferred. */
    method LoadOfflineData(trainerId: u32, io: LoadFaults, detachSave: SaveFaults)
      requires Valid() && phase == OpenOfflineFile && !detached
      modifies this, game
      ensures Valid() && game.disk == old(game.disk) && game.attempts == old(game.attempts) && observed == old(observed)
      ensures !detached <==> Permits(Load(game.disk, DimensionsFor(trainerId), io))
      ensures !detached ==> phase == InitialiseBoxData && active == [] && dimensions == DimensionsFor(trainerId)
      ensures !detached ==> CanReplace(game.disk, dimensions)
    {
      var ok := OpenFile(trainerId, io);
      if !ok {
        OnDetach(detachSave);
        return;
      }
      StartReading();
    }

    method StartReading()
      requires Valid() && phase == OpenOfflineFile && !detached && StoredFits()
      modifies this`active, this`initialiseIndex, this`phase
      ensures Valid() && phase == InitialiseBoxData && active == [] && CanReplace(game.disk, dimensions)
    {
      active, initialiseIndex, phase := [], game.shape.localCount, InitialiseBoxData;
    }

    function DimensionsFor(trainerId: u32): Dimensions
      reads this
      requires IsUsable(game.shape)
    {
      Dimensions(game.api, game.edition, trainerId, game.shape.totalCount - game.shape.localCount,
                 game.shape.metadataSize, game.shape.monSize)
    }

    method OpenFile(trainerId: u32, io: LoadFaults) returns (ok: bool)
      requires Valid() && phase == OpenOfflineFile && !detached
      modifies this`dimensions, this`hasPath, this`loadFaults, this`stored
      ensures Valid() && hasPath
      ensures dimensions == DimensionsFor(trainerId) && (ok <==> Permits(Load(game.disk, dimensions, io)))
      ensures ok ==> StoredFits()
    {
      var s := game.shape;
      dimensions := DimensionsFor(trainerId);
      hasPath, loadFaults := true, io;
      var loaded := Load(game.disk, dimensions, io);
      LoadedFits(game.disk, dimensions, io, s);
      PermitsWhen(game.disk, dimensions, io);
      assert game.disk == game.startDisk;
      if loaded.data.Some? {
        stored := TakeRecords(loaded.data.value);
        return !(loaded.source == Backup && loaded.primaryInvalid);
      }
      stored := StoredBoxes(None, s);
      return loaded.primaryMissing && !loaded.failed;
    }

    // ----- Setting up

    /** A request that may be refused, or refused with a disconnect. */
    method Ask(answer: Answer, detachSave: SaveFaults) returns (ok: bool)
      requires Valid() && !detached && !pendingSave
      modifies this, game
      ensures Valid() && (ok <==> answer == Taken)
      ensures answer != RefusedAndDetached ==> unchanged(this) && unchanged(game)
      ensures answer == RefusedAndDetached ==> detached
      ensures game.disk == old(game.disk) && game.attempts == old(game.attempts) && observed == old(observed)
    {
      if answer == RefusedAndDetached {
        OnDetach(detachSave);
      }
      ok := answer == Taken;
    }

    predicate IsObservation(obs: Observation)
      reads this
    {
      && |obs.order| == game.shape.totalCount && |obs.metadata| == game.shape.localCount
      && forall i :: 0 <= i < |obs.metadata| ==> |obs.metadata[i]| == game.shape.metadataSize
    }

    /** Reads the local boxes one by one, and then adds the stored ones. */
    method InitialiseBoxes(obs: Observation, outcomes: Outcomes)
      requires Valid() && !detached && phase == InitialiseBoxData && IsObservation(obs)
      modifies this, game
      ensures Valid() && game.disk == old(game.disk) && game.attempts == old(game.attempts) && observed == old(observed)
      ensures Moves(old(CurrentStage()), obs, outcomes, true, game.shape, CurrentStage())
    {
      if |active| < game.shape.localCount {
        var ok := Ask(outcomes.answer, outcomes.detachSave);
        if ok {
          active := active + [Box([], [])];
          phase := WaitingForBoxData;
        }
        return;
      }
      AddStored();
    }

    method AddStored()
      requires Valid() && !detached && phase == InitialiseBoxData && |active| == game.shape.localCount
      modifies this`active, this`phase
      ensures Valid() && phase == SendGameDataInit && |active| == game.shape.totalCount
    {
      var all := active + stored;
      assert forall i :: 0 <= i < |stored| ==> all[|active| + i] == stored[i];
      assert all[game.shape.localCount..] == stored;
      active := all;
      phase := SendGameDataInit;
    }

    method ReadLocalBox(obs: Observation)
      requires Valid() && !detached && phase == WaitingForBoxData && IsObservation(obs)
      modifies this`active, this`phase, this`observed
      ensures Valid() && phase == InitialiseBoxData && !detached && |old(observed)| < game.shape.localCount
      ensures var boxId := |old(active)| - 1;
              && active == old(active)[boxId := Box(obs.metadata[boxId], Slot(game.storage, game.shape, boxId))]
              && boxId == |old(observed)| && observed == old(observed) + [obs.metadata[boxId]]
    {
      var boxId := |active| - 1;
      active := active[boxId := Box(obs.metadata[boxId], Slot(game.storage, game.shape, boxId))];
      phase := InitialiseBoxData;
      observed := observed + [obs.metadata[boxId]];
    }

    /** Sends the stored boxes' metadata and then the order, in which every box is where it is. */
    method SendInitialData(obs: Observation, outcomes: Outcomes)
      requires Valid() && !detached && phase == SendGameDataInit && IsObservation(obs)
      modifies this, game
      ensures Valid() && game.disk == old(game.disk) && game.attempts == old(game.attempts)
      ensures Moves(old(CurrentStage()), obs, outcomes, true, game.shape, CurrentStage())
    {
      if initialiseIndex < game.shape.totalCount {
        var ok := SendMetadata(outcomes);
        if !ok || initialiseIndex < game.shape.totalCount {
          return;
        }
      }
      SendOrder(outcomes);
    }

    method SendMetadata(outcomes: Outcomes) returns (ok: bool)
      requires Valid() && !detached && phase == SendGameDataInit && initialiseIndex < game.shape.totalCount
      modifies this, game
      ensures Valid() && game.disk == old(game.disk) && game.attempts == old(game.attempts)
      ensures ok <==> outcomes.answer == Taken
      ensures if outcomes.answer == RefusedAndDetached then detached && observed == old(observed)
              else CurrentStage() == old(CurrentStage()).(sent := if ok then old(initialiseIndex) + 1 else old(initialiseIndex))
    {
      ok := Ask(outcomes.answer, outcomes.detachSave);
      if ok {
        initialiseIndex := initialiseIndex + 1;
      }
    }

    method SendOrder(outcomes: Outcomes)
      requires Valid() && !detached && phase == SendGameDataInit
      modifies this, game
      ensures Valid() && game.disk == old(game.disk) && game.attempts == old(game.attempts)
      ensures if outcomes.orderAnswer == RefusedAndDetached then detached && observed == old(observed)
              else CurrentStage() == old(CurrentStage())
                                     .(phase := if outcomes.orderAnswer == Taken then WaitForInit else SendGameDataInit)
    {
      SetInitialOrder();
      var ok := Ask(outcomes.orderAnswer, outcomes.detachSave);
      if ok {
        phase := WaitForInit;
      }
    }

    method SetInitialOrder()
      requires Valid() && !detached && phase == SendGameDataInit
      modifies this`localOrder
      ensures Valid() && localOrder == Identity(game.shape.totalCount) && phase == SendGameDataInit && !detached
    {
      TransferBegins(active, stored, game.storage, observed, game.shape);
      localOrder := Identity(game.shape.totalCount);
    }

    // ----- Following the game's order

    /** Takes over the order that the game shows, slot by slot. */
    method TakeOrder(order: seq<byte>)
      requires Valid() && !detached && phase == Update && queue == [] && IsPermutation(order, game.shape.totalCount)
      modifies this`localOrder, this`queue, this`pendingSave
      ensures Valid() && localOrder == order && (old(localOrder) != order ==> pendingSave)
      ensures queue == RequestsFor(active, old(localOrder), order, game.shape, game.shape.localCount)
    {
      ReorderedKeeps(State(), game.shape, order);
      RequestsAre(active, localOrder, order, game.shape, game.shape.localCount);
      CompareOrder(order);
    }

    method CompareOrder(order: seq<byte>)
      requires AreBoxes(active, game.shape) && game.shape.localCount <= game.shape.totalCount && queue == []
      requires IsPermutation(localOrder, game.shape.totalCount) && IsPermutation(order, game.shape.totalCount)
      modifies this`localOrder, this`queue, this`pendingSave
      ensures localOrder == order && (old(localOrder) != order ==> pendingSave)
      ensures queue == RequestsFor(active, old(localOrder), order, game.shape, game.shape.localCount)
    {
      ghost var before := localOrder;
      for index := 0 to game.shape.totalCount
        invariant |localOrder| == |order| == |before|
        invariant forall i :: 0 <= i < |order| ==> localOrder[i] == if i < index then order[i] else before[i]
        invariant queue == RequestsFor(active, before, order, game.shape, AtMost(index, game.shape.localCount))
        invariant pendingSave || forall i :: 0 <= i < index ==> order[i] == before[i]
      {
        CompareSlot(index, order, before);
      }
      assert localOrder == order;
    }

    function AtMost(i: nat, n: nat): (m: nat)
      ensures m <= n
    {
      if i < n then i else n
    }

    method CompareSlot(index: nat, order: seq<byte>, ghost before: seq<int>)
      requires forall i :: 0 <= i < |order| ==> order[i] < |active|
      requires index < |order| == |before| == |localOrder| && localOrder[index] == before[index]
      requires game.shape.localCount <= |order|
      requires queue == RequestsFor(active, before, order, game.shape, AtMost(index, game.shape.localCount))
      modifies this`localOrder, this`queue, this`pendingSave
      ensures localOrder == old(localOrder)[index := order[index]]
      ensures queue == RequestsFor(active, before, order, game.shape, AtMost(index + 1, game.shape.localCount))
      ensures pendingSave == (old(pendingSave) || order[index] != before[index])
    {
      if order[index] != localOrder[index] {
        if index < game.shape.localCount {
          queue := queue + [BoxWrite(index, active[order[index]].pokemon, 0, game.shape.monSize)];
        }
        localOrder := localOrder[index := order[index]];
        pendingSave := true;
      }
    }

    /** The order that the game shows was taken over, and the slots that it changes are to be rewritten. */
    ghost predicate TookOrder(before: Transfer, order: seq<byte>)
      reads this, game
    {
      && InTransfer(before, game.shape) && IsPermutation(order, game.shape.totalCount)
      && State() == before.(order := order,
                            queue := RequestsFor(before.boxes, before.order, order, game.shape, game.shape.localCount))
    }

    method FollowOrder(obs: Observation, outcomes: Outcomes)
      requires Valid() && !detached && phase == Update && IsObservation(obs)
      modifies this, game
      ensures Valid() && observed == old(observed) && old(game.attempts) <= game.attempts
      ensures old(queue) == [] ==> (detached <==> !IsPermutation(obs.order, game.shape.totalCount))
      ensures old(queue) == [] && !detached ==> TookOrder(old(State()), obs.order)
      ensures old(queue) == [] && !detached && old(localOrder) != obs.order ==> pendingSave
    {
      var busy := PumpWriteMonBox(outcomes.answer, outcomes.detachSave);
      if busy {
        return;
      }
      var ok := ValidateIndexOrder(obs.order);
      if !ok {
        OnDetach(outcomes.detachSave);
        return;
      }
      TakeOrder(obs.order);
    }

    /** The behaviour acts on what the game shows. */
    predicate Acts(obs: Observation)
      reads this
    {
      obs.stateValid && obs.layoutValid && !requiresReopen
    }

    /** `OnUpdate`: saves if that is due, and goes on with the phase; while transfers run, with nothing left to rewrite, the
        order that the game shows is taken over, or ends the session if it is invalid. */
    method OnUpdate(obs: Observation, outcomes: Outcomes)
      requires Valid() && !detached && IsObservation(obs)
      modifies this, game
      ensures Valid() && Looked(old(observed), obs)
      ensures obs.stateValid && !obs.layoutValid ==> detached
      ensures !obs.stateValid || (obs.layoutValid && old(requiresReopen)) ==> unchanged(this) && unchanged(game)
      ensures old(Acts(obs)) && old(phase) != Update ==>
                Moves(old(CurrentStage()), obs, outcomes,
                      Permits(Load(old(game.disk), DimensionsFor(obs.trainerId), outcomes.load)), game.shape, CurrentStage())
      ensures old(Acts(obs)) && old(pendingSave) && old(queue) == [] && outcomes.saveIsDue ==>
                old(game.attempts) + [Attempt(old(State()), old(ToSave()), outcomes.save)] <= game.attempts
      ensures old(Acts(obs)) && old(phase) == Update && old(queue) == [] ==>
                if detached then !IsPermutation(obs.order, game.shape.totalCount) || game.attempts != old(game.attempts)
                else TookOrder(old(State()), obs.order)
    {
      if !obs.stateValid {
        return;
      }
      if !obs.layoutValid {
        OnDetach(outcomes.detachSave);
        return;
      }
      if requiresReopen {
        return;
      }
      Act(obs, outcomes);
    }

    method Act(obs: Observation, outcomes: Outcomes)
      requires Valid() && !detached && IsObservation(obs)
      modifies this, game
      ensures Valid() && Looked(old(observed), obs)
      ensures old(phase) != Update ==>
                Moves(old(CurrentStage()), obs, outcomes,
                      Permits(Load(old(game.disk), DimensionsFor(obs.trainerId), outcomes.load)), game.shape, CurrentStage())
      ensures old(pendingSave) && old(queue) == [] && outcomes.saveIsDue ==>
                old(game.attempts) + [Attempt(old(State()), old(ToSave()), outcomes.save)] <= game.attempts
      ensures old(phase) == Update && old(queue) == [] ==>
                if detached then !IsPermutation(obs.order, game.shape.totalCount) || game.attempts != old(game.attempts)
                else TookOrder(old(State()), obs.order)
    {
      if phase == Update {
        ActInTransfer(obs, outcomes);
      } else {
        HandlePendingFileWrite(outcomes.saveIsDue, outcomes.save);
        SetUp(obs, outcomes);
      }
    }

    method ActInTransfer(obs: Observation, outcomes: Outcomes)
      requires Valid() && !detached && IsObservation(obs) && phase == Update
      modifies this, game
      ensures Valid() && observed == old(observed)
      ensures old(pendingSave) && old(queue) == [] && outcomes.saveIsDue ==>
                old(game.attempts) + [Attempt(old(State()), old(ToSave()), outcomes.save)] <= game.attempts
      ensures old(queue) == [] ==>
                if detached then !IsPermutation(obs.order, game.shape.totalCount) || game.attempts != old(game.attempts)
                else TookOrder(old(State()), obs.order)
    {
      HandlePendingFileWrite(outcomes.saveIsDue, outcomes.save);
      if !detached {
        FollowOrder(obs, outcomes);
      }
    }

    /** At most one more box was read, with the metadata that the game shows for it. */
    ghost predicate Looked(before: seq<seq<byte>>, obs: Observation)
      reads this
    {
      observed == before || (|before| < |obs.metadata| && observed == before + [obs.metadata[|before|]])
    }

    method SetUp(obs: Observation, outcomes: Outcomes)
      requires Valid() && !detached && IsObservation(obs) && phase != Update
      modifies this, game
      ensures Valid() && Looked(old(observed), obs)
      ensures Moves(old(CurrentStage()), obs, outcomes,
                    Permits(Load(old(game.disk), DimensionsFor(obs.trainerId), outcomes.load)), game.shape, CurrentStage())
      ensures game.attempts == old(game.attempts)
    {
      match phase
      case OpenOfflineFile => FirstLook(obs, outcomes);
      case InitialiseBoxData => InitialiseBoxes(obs, outcomes);
      case WaitingForBoxData =>
        if obs.storageReady {
          ReadLocalBox(obs);
        }
      case SendGameDataInit => SendInitialData(obs, outcomes);
      case WaitForInit =>
        if obs.order[game.shape.totalCount - 1] != 255 {
          StartTransfers();
        }
    }

    method StartTransfers()
      requires Valid() && !detached && phase == WaitForInit
      modifies this`phase
      ensures Valid() && phase == Update
    {
      phase := Update;
    }

    method FirstLook(obs: Observation, outcomes: Outcomes)
      requires Valid() && !detached && IsObservation(obs) && phase == OpenOfflineFile
      modifies this, game
      ensures Valid() && observed == old(observed) && game.attempts == old(game.attempts)
      ensures Moves(old(CurrentStage()), obs, outcomes,
                    Permits(Load(old(game.disk), DimensionsFor(obs.trainerId), outcomes.load)), game.shape, CurrentStage())
    {
      if obs.order[game.shape.totalCount - 1] != 255 {
        requiresReopen := true;
      } else {
        LoadOfflineData(obs.trainerId, outcomes.load, outcomes.detachSave);
      }
    }

    // ----- Runs

    /** Anything that can happen; an event that is impossible in the present state is passed over. */
    method Play(events: seq<Event>)
      requires Valid()
      modifies this, game
      ensures Valid() && AreShown(old(observed), observed, events)
      ensures forall a :: a in game.attempts ==>
                IsFaithful(a, game.shape) && Conserves(a, stored, game.startStorage, observed, game.shape)
      ensures forall i :: 0 <= i < |game.attempts| && AllWorks(game.attempts[i].io) ==>
                TakesEffect(AfterSaves(game.startDisk, SavesOf(game.attempts)[..i]), game.attempts[i].data, game.attempts[i].io)
      ensures Loaded(game.disk, dimensions) == LastEffective(game.startDisk, dimensions, SavesOf(game.attempts))
    {
      for index := 0 to |events|
        invariant Valid() && AreShown(old(observed), observed, events[..index])
      {
        ghost var before := observed;
        Happen(events[index]);
        ShownMore(old(observed), before, observed, events[..index], events[index]);
        assert events[..index + 1] == events[..index] + [events[index]];
      }
      assert events[..|events|] == events;
      FilesFollowAttempts(game.attempts, game.startDisk, game.disk, active, dimensions, game.shape);
      forall a | a in game.attempts ensures Conserves(a, stored, game.startStorage, observed, game.shape) {
        FaithfulConserves(a, stored, game.startStorage, observed, game.shape);
      }
      forall i | 0 <= i < |game.attempts| && AllWorks(game.attempts[i].io)
        ensures TakesEffect(AfterSaves(game.startDisk, SavesOf(game.attempts)[..i]), game.attempts[i].data, game.attempts[i].io)
      {
        AttemptsTakeEffect(game.attempts, game.startDisk, game.disk, active, dimensions, game.shape, i);
      }
    }

    method Happen(event: Event)
      requires Valid()
      modifies this, game
      ensures Valid()
      ensures observed == old(observed)
              || (|observed| == |old(observed)| + 1 && old(observed) <= observed
                  && Shows(event, |old(observed)|, observed[|old(observed)|]))
    {
      if detached {
        return;
      }
      match event
      case Looks(obs, outcomes) =>
        if IsObservation(obs) {
          OnUpdate(obs, outcomes);
        }
      case Performs =>
        if game.flight.Some? && !game.flight.value.applied {
          Perform();
        }
      case Acknowledges =>
        if game.flight.Some? && game.flight.value.applied {
          Acknowledge();
        }
      case Ends(io) => OnDetach(io);
    }
  }

  /** An update, the game's two steps of a write, or a detach for any reason: a failed write, a lost connection, the
      player leaving the screen. */
  datatype Event = Looks(obs: Observation, outcomes: Outcomes) | Performs | Acknowledges | Ends(io: SaveFaults)

  /** The event is a look at the game, and shows this metadata for local box `i`. */
  predicate Shows(e: Event, i: nat, metadata: seq<byte>) {
    e.Looks? && i < |e.obs.metadata| && e.obs.metadata[i] == metadata
  }

  /** What was noted for further boxes is what the game showed for each. */
  ghost predicate AreShown(before: seq<seq<byte>>, after: seq<seq<byte>>, events: seq<Event>) {
    && before <= after
    && forall i :: |before| <= i < |after| ==> IsShown(events, i, after[i])
  }

  predicate IsShown(events: seq<Event>, i: nat, metadata: seq<byte>) {
    exists k :: 0 <= k < |events| && Shows(events[k], i, metadata)
  }

  lemma ShownMore(start: seq<seq<byte>>, before: seq<seq<byte>>, after: seq<seq<byte>>, events: seq<Event>, e: Event)
    requires AreShown(start, before, events)
    requires after == before
             || (|after| == |before| + 1 && before <= after && Shows(e, |before|, after[|before|]))
    ensures AreShown(start, after, events + [e])
  {
    var all := events + [e];
    assert all[|events|] == e;
    forall i | |start| <= i < |after| ensures IsShown(all, i, after[i]) {
      if i < |before| {
        assert IsShown(events, i, before[i]) && after[i] == before[i];
        var k :| 0 <= k < |events| && Shows(events[k], i, before[i]);
        assert Shows(all[k], i, after[i]);
      }
    }
  }

  /** The local boxes at the start, each with the metadata that the game showed for it. */
  function LocalBoxes(storage: seq<byte>, metadata: seq<seq<byte>>, s: Shape): seq<Box>
    requires IsStorage(storage, s) && |metadata| == s.localCount
  {
    seq(s.localCount, i requires 0 <= i < s.localCount => Box(metadata[i], Slot(storage, s, i)))
  }

  /** `slots` are the boxes that the game's slots hold. */
  ghost predicate HoldsBoxes(storage: seq<byte>, slots: seq<Box>, s: Shape) {
    && IsStorage(storage, s) && |slots| == s.localCount
    && forall i :: 0 <= i < s.localCount ==> Slot(storage, s, i) == slots[i].pokemon
  }

  /** Game slots and records at the time of a save are a permutation of the boxes there were at the start, metadata and
      contents together. */
  ghost predicate Conserves(a: Attempt, stored: seq<Box>, startStorage: seq<byte>, metadata: seq<seq<byte>>, s: Shape) {
    && IsStorage(startStorage, s) && |metadata| == s.localCount
    && exists slots :: && HoldsBoxes(a.transfer.storage, slots, s)
                       && multiset(slots) + multiset(RecordBoxes(a.data.records))
                          == multiset(LocalBoxes(startStorage, metadata, s)) + multiset(stored)
  }

  /** The main result: no box is lost, duplicated or given another's metadata between game memory and disk. */
  lemma FaithfulConserves(a: Attempt, stored: seq<Box>, startStorage: seq<byte>, metadata: seq<seq<byte>>, s: Shape)
    requires IsFaithful(a, s) && IsStorage(startStorage, s)
    requires StartsWith(a.transfer.boxes, stored, startStorage, metadata, s)
    ensures Conserves(a, stored, startStorage, metadata, s)
    ensures forall i :: 0 <= i < s.localCount ==>
              Slot(a.transfer.storage, s, i) == a.transfer.boxes[a.transfer.order[i]].pokemon
  {
    NothingIsLost(a.transfer, s);
    var all := a.transfer.boxes;
    assert all == all[..s.localCount] + all[s.localCount..];
    assert all[..s.localCount] == LocalBoxes(startStorage, metadata, s);
    assert HoldsBoxes(a.transfer.storage, BoxesInSlots(a.transfer, s), s);
  }

  /** The records of a transfer are valid data for a save. */
  lemma RecordsAreValid(boxes: seq<Box>, order: seq<int>, d: Dimensions, s: Shape)
    requires AreBoxes(boxes, s) && IsPermutation(order, s.totalCount) && s.localCount <= s.totalCount < U32_LIMIT
    requires ValidDimensions(d) && FitsShape(d, s)
    ensures ValidHomeBox(HomeBox(d, RecordsFor(boxes, order, s)))
  {
  }

  /** Every attempt to save takes effect, unless a call into the file system fails or is stopped. */
  lemma AttemptsTakeEffect(attempts: seq<Attempt>, start: Disk, disk: Disk, boxes: seq<Box>, d: Dimensions, s: Shape, i: nat)
    requires Booked(attempts, start, disk, boxes, d, s) && ValidDimensions(d) && FitsShape(d, s) && CanReplace(start, d)
    requires i < |attempts| && AllWorks(attempts[i].io)
    ensures TakesEffect(AfterSaves(start, SavesOf(attempts)[..i]), attempts[i].data, attempts[i].io)
  {
    var a, saves := attempts[i], SavesOf(attempts);
    assert a in attempts && IsFaithful(a, s) && a.data == HomeBox(d, a.data.records);
    RecordsAreValid(a.transfer.boxes, a.transfer.order, d, s);
    forall save | save in saves ensures save.data.dimensions == d {
      var j :| 0 <= j < |attempts| && saves[j] == save;
      assert attempts[j] in attempts;
    }
    SavesTakeEffect(start, saves, d, i);
  }

  /** A loaded file has a record of the right size for each stored box, in order. */
  lemma LoadedFits(disk: Disk, d: Dimensions, io: LoadFaults, s: Shape)
    requires FitsShape(d, s)
    ensures var data := Load(disk, d, io).data;
            && s.localCount <= s.totalCount
            && |StoredBoxes(data, s)| == s.totalCount - s.localCount
            && (data.Some? ==> |data.value.records| == s.totalCount - s.localCount && data.value.dimensions == d)
            && forall i :: 0 <= i < |StoredBoxes(data, s)| ==>
                 && |StoredBoxes(data, s)[i].pokemon| == s.monSize
                 && |StoredBoxes(data, s)[i].metadata| == s.metadataSize
  {
    if Candidate(disk.primary, io.readPrimary, d).Some? {
      DecodedFits(disk.primary.value, d);
    }
    if Candidate(disk.backup, io.readBackup, d).Some? {
      DecodedFits(disk.backup.value, d);
    }
  }

  lemma DecodedFits(bytes: seq<byte>, d: Dimensions)
    requires Accepts(bytes, d)
    ensures forall i :: 0 <= i < d.count ==> Sized(RecordsIn(bytes, d, d.count)[i], d)
  {
    forall i | 0 <= i < d.count ensures Sized(RecordsIn(bytes, d, d.count)[i], d) {
      RecordIsSized(bytes, d, i);
      RecordsInAt(bytes, d, d.count, i);
    }
  }

  /** The boxes of a loaded file, or empty ones. */
  function StoredBoxes(data: Option<HomeBox>, s: Shape): (boxes: seq<Box>)
    requires s.localCount <= s.totalCount
  {
    var n := s.totalCount - s.localCount;
    if data.Some? && |data.value.records| == n then
      seq(n, j requires 0 <= j < n => Box(data.value.records[j].metadata, data.value.records[j].pokemon))
    else seq(n, j => Box(Zeros(s.metadataSize), Zeros(s.monSize)))
  }

  function Zeros(n: nat): (s: seq<byte>)
    ensures |s| == n
  {
    seq(n, i => 0)
  }

  predicate FitsShape(d: Dimensions, s: Shape) {
    d.count + s.localCount == s.totalCount && d.metadataSize == s.metadataSize && d.pokemonSize == s.monSize
  }
}
