/** Loading and saving a Home Box over a primary file and a backup.

    Replacing a file is atomic: it happens or it does not. Every call into the file system may fail, and a save may
    be stopped before or after any of its effects. */
module HomeBoxDisk {
  import opened Bytes
  import opened HomeBoxFile
  import opened HomeBoxCodec

  datatype Disk = Disk(primary: Option<seq<byte>>, backup: Option<seq<byte>>)

  // ----- Loading

  datatype Source = NoSource | Primary | Backup
  datatype LoadResult = LoadResult(
    data: Option<HomeBox>, source: Source, primaryMissing: bool, primaryInvalid: bool, failed: bool)

  /** Which of the calls into the file system work. */
  datatype LoadFaults = LoadFaults(inspectPrimary: bool, readPrimary: bool, inspectBackup: bool, readBackup: bool)

  const ALL_WORKS: LoadFaults := LoadFaults(true, true, true, true)

  /** `ReadCandidate`. */
  function Candidate(file: Option<seq<byte>>, readable: bool, d: Dimensions): Option<HomeBox> {
    if file.Some? && readable && |file.value| <= MAX_FILE_SIZE then TryDecode(file.value, d) else None
  }

  function Load(disk: Disk, d: Dimensions, io: LoadFaults): LoadResult {
    if !ValidDimensions(d) || !io.inspectPrimary then LoadResult(None, NoSource, false, false, true)
    else
      var primary, missing := Candidate(disk.primary, io.readPrimary, d), disk.primary.None?;
      var invalid := !missing && primary.None?;
      if primary.Some? then LoadResult(primary, Primary, missing, invalid, false)
      else if !io.inspectBackup then LoadResult(None, NoSource, missing, invalid, true)
      else
        var backup := Candidate(disk.backup, io.readBackup, d);
        if backup.Some? then LoadResult(backup, Backup, missing, invalid, false)
        else LoadResult(None, NoSource, missing, invalid, invalid || disk.backup.Some?)
  }

  /** A file that is there, can be read, and is one that the decoder accepts. */
  predicate IsGood(file: Option<seq<byte>>, readable: bool, d: Dimensions) {
    file.Some? && readable && Accepts(file.value, d)
  }

  predicate Inspects(d: Dimensions, io: LoadFaults) {
    ValidDimensions(d) && io.inspectPrimary
  }

  /** There was nothing to load. */
  predicate NothingThere(disk: Disk, d: Dimensions, io: LoadFaults) {
    Inspects(d, io) && io.inspectBackup && disk == Disk(None, None)
  }

  /** What the result of a load says of the two files. */
  predicate Tells(r: LoadResult, disk: Disk, d: Dimensions, io: LoadFaults) {
    && (r.primaryMissing <==> Inspects(d, io) && disk.primary.None?)
    && (r.primaryInvalid <==> Inspects(d, io) && disk.primary.Some? && !IsGood(disk.primary, io.readPrimary, d))
    && (r.source == Primary <==> Inspects(d, io) && IsGood(disk.primary, io.readPrimary, d))
    && (r.source == Backup <==> && Inspects(d, io) && !IsGood(disk.primary, io.readPrimary, d)
                                && io.inspectBackup && IsGood(disk.backup, io.readBackup, d))
    && (r.source == NoSource ==> r.data == None)
    && (r.source == Primary ==> disk.primary.Some? && r.data == TryDecode(disk.primary.value, d))
    && (r.source == Backup ==> disk.backup.Some? && r.data == TryDecode(disk.backup.value, d))
    && (r.failed <==> r.data == None && !NothingThere(disk, d, io))
  }

  /** The result of a load says exactly that. */
  lemma LoadTells(disk: Disk, d: Dimensions, io: LoadFaults, r: LoadResult)
    ensures Tells(r, disk, d, io) <==> r == Load(disk, d, io)
  {
  }

  /** Transfers may start: something was loaded or there was nothing, and no damaged primary is in the way. */
  predicate Permits(r: LoadResult) {
    (r.data.Some? || (r.primaryMissing && !r.failed)) && !(r.source == Backup && r.primaryInvalid)
  }

  /** A primary that a save may replace, or none. */
  predicate CanReplace(disk: Disk, d: Dimensions) {
    disk.primary.Some? ==> Accepts(disk.primary.value, d)
  }

  /** When a load permits transfers. */
  lemma PermitsWhen(disk: Disk, d: Dimensions, io: LoadFaults)
    ensures Permits(Load(disk, d, io))
       <==> && Inspects(d, io)
            && if disk.primary.Some? then IsGood(disk.primary, io.readPrimary, d)
               else io.inspectBackup && (disk.backup.Some? ==> IsGood(disk.backup, io.readBackup, d))
    ensures Permits(Load(disk, d, io)) ==> ValidDimensions(d) && CanReplace(disk, d)
  {
  }

  // ----- Saving

  /** A replacement of a file works, fails, or is stopped with or without its effect. */
  datatype Write = Works | Fails | StopsBefore | StopsAfter

  function Written(file: Option<seq<byte>>, bytes: seq<byte>, w: Write): Option<seq<byte>> {
    if w.Works? || w.StopsAfter? then Some(bytes) else file
  }

  datatype SaveFaults = SaveFaults(inspect: bool, readPrimary: bool, writeBackup: Write, writePrimary: Write)
  datatype Outcome = Saved | Refused | Stopped

  function OutcomeOf(w: Write): Outcome {
    if w.Works? then Saved else if w.Fails? then Refused else Stopped
  }

  class HomeBoxStore {
    var primary: Option<seq<byte>>
    var backup: Option<seq<byte>>

    function State(): Disk
      reads this
    {
      Disk(primary, backup)
    }

    method ReadCandidate(file: Option<seq<byte>>, readable: bool, d: Dimensions) returns (h: Option<HomeBox>)
      ensures h == Candidate(file, readable, d)
    {
      if file.None? || !readable || |file.value| > MAX_FILE_SIZE {
        return None;
      }
      h := DecodeHomeBox(file.value, d);
    }

    method LoadHomeBoxFile(d: Dimensions, io: LoadFaults) returns (r: LoadResult)
      ensures r == Load(State(), d, io) && Tells(r, State(), d, io)
    {
      LoadTells(State(), d, io, Load(State(), d, io));
      r := LoadResult(None, NoSource, false, false, false);
      if !ValidDimensions(d) || !io.inspectPrimary {
        return r.(failed := true);
      }
      r := r.(primaryMissing := primary.None?);
      if primary.Some? {
        var loaded := ReadCandidate(primary, io.readPrimary, d);
        if loaded.Some? {
          return r.(data := loaded, source := Primary);
        }
        r := r.(primaryInvalid := true);
      }
      if !io.inspectBackup {
        return r.(failed := true);
      }
      if backup.Some? {
        var loaded := ReadCandidate(backup, io.readBackup, d);
        if loaded.Some? {
          return r.(data := loaded, source := Backup);
        }
        return r.(failed := true);
      }
      return r.(failed := r.primaryInvalid);
    }

    /** `SaveHomeBoxFile`: the backup takes over the old primary, and then the primary is replaced. */
    method SaveHomeBoxFile(h: HomeBox, io: SaveFaults) returns (outcome: Outcome)
      modifies this
      ensures State() == AfterSave(old(State()), h, io)
      ensures outcome == SaveOutcome(old(State()), h, io)
    {
      var replacement := EncodeHomeBox(h);
      if replacement.None? || !io.inspect {
        return Refused;
      }
      if primary.Some? {
        var previous := ReadCandidate(primary, io.readPrimary, h.dimensions);
        if previous.None? {
          return Refused;
        }
        backup := Written(backup, primary.value, io.writeBackup);
        if !io.writeBackup.Works? {
          return OutcomeOf(io.writeBackup);
        }
      }
      primary := Written(primary, replacement.value, io.writePrimary);
      return OutcomeOf(io.writePrimary);
    }
  }

  // ----- What a save does

  /** The save gets past its checks. */
  predicate Begins(disk: Disk, h: HomeBox, io: SaveFaults) {
    && ValidHomeBox(h) && io.inspect
    && (disk.primary.Some? ==> Candidate(disk.primary, io.readPrimary, h.dimensions).Some?)
  }

  predicate ReachesPrimary(disk: Disk, h: HomeBox, io: SaveFaults) {
    Begins(disk, h, io) && (disk.primary.Some? ==> io.writeBackup.Works?)
  }

  function AfterSave(disk: Disk, h: HomeBox, io: SaveFaults): Disk {
    if !Begins(disk, h, io) then disk
    else
      Disk(if ReachesPrimary(disk, h, io) then Written(disk.primary, TryEncode(h).value, io.writePrimary) else disk.primary,
           if disk.primary.Some? then Written(disk.backup, disk.primary.value, io.writeBackup) else disk.backup)
  }

  function SaveOutcome(disk: Disk, h: HomeBox, io: SaveFaults): Outcome {
    if !Begins(disk, h, io) then Refused
    else if ReachesPrimary(disk, h, io) then OutcomeOf(io.writePrimary)
    else OutcomeOf(io.writeBackup)
  }

  /** Over a primary that may be replaced, a save of valid data begins unless the file system fails, and afterwards there
      is one that may be replaced again. */
  lemma SaveCanReplace(disk: Disk, h: HomeBox, io: SaveFaults)
    requires CanReplace(disk, h.dimensions)
    ensures ValidHomeBox(h) && io.inspect && io.readPrimary ==> Begins(disk, h, io)
    ensures CanReplace(AfterSave(disk, h, io), h.dimensions)
  {
    if ValidHomeBox(h) {
      RoundTrip(h);
    }
  }

  /** Every call of the save into the file system works. */
  predicate AllWorks(io: SaveFaults) {
    io.inspect && io.readPrimary && io.writeBackup.Works? && io.writePrimary.Works?
  }

  // ----- Crash consistency

  function Loaded(disk: Disk, d: Dimensions): Option<HomeBox> {
    Load(disk, d, ALL_WORKS).data
  }

  /** The save has replaced the primary, whether or not it went on to report that. */
  predicate TakesEffect(disk: Disk, h: HomeBox, io: SaveFaults) {
    ReachesPrimary(disk, h, io) && (io.writePrimary.Works? || io.writePrimary.StopsAfter?)
  }

  /** The records of `h` in index order. */
  function Ordered(h: HomeBox): HomeBox
    requires ValidHomeBox(h)
  {
    HomeBox(h.dimensions, ByIndex(h))
  }

  lemma EncodedSize(h: HomeBox)
    requires ValidHomeBox(h)
    ensures |TryEncode(h).value| <= MAX_FILE_SIZE
  {
    RoundTrip(h);
  }

  /** Wherever a save fails or is stopped, loading gives what it gave before, or exactly when the primary was replaced the
      new data; before a first save there may have been nothing. */
  lemma SaveIsAtomic(disk: Disk, h: HomeBox, io: SaveFaults)
    ensures Loaded(AfterSave(disk, h, io), h.dimensions)
         == if TakesEffect(disk, h, io) then Some(Ordered(h)) else Loaded(disk, h.dimensions)
  {
    if ValidHomeBox(h) {
      RoundTrip(h);
      EncodedSize(h);
    }
  }

  /** A save that reports success over a valid primary leaves the backup byte-equal to it. */
  lemma SavedKeepsPrevious(disk: Disk, h: HomeBox, io: SaveFaults)
    requires SaveOutcome(disk, h, io) == Saved
    ensures AfterSave(disk, h, io).primary == TryEncode(h) && TryEncode(h).Some?
    ensures disk.primary.Some? ==>
              AfterSave(disk, h, io).backup == disk.primary && Accepts(disk.primary.value, h.dimensions)
    ensures disk.primary.None? ==> AfterSave(disk, h, io).backup == disk.backup
  {
  }

  /** An invalid primary is never changed, nor is the backup beside it. */
  lemma InvalidPrimaryIsKept(disk: Disk, h: HomeBox, io: SaveFaults)
    requires disk.primary.Some? && !Accepts(disk.primary.value, h.dimensions)
    ensures AfterSave(disk, h, io) == disk && SaveOutcome(disk, h, io) == Refused
  {
  }

  /** If the primary is damaged after a save, the data from before that save can still be loaded. */
  lemma DamageIsRecoverable(disk: Disk, old_: HomeBox, h: HomeBox, io: SaveFaults, damaged: Option<seq<byte>>)
    requires disk.primary.Some? && Candidate(disk.primary, true, h.dimensions) == Some(old_)
    requires SaveOutcome(disk, h, io) == Saved
    requires damaged.Some? ==> !Accepts(damaged.value, h.dimensions)
    ensures Loaded(AfterSave(disk, h, io).(primary := damaged), h.dimensions) == Some(old_)
  {
  }

  // ----- Any number of saves

  datatype Save = Save(data: HomeBox, io: SaveFaults)

  function AfterSaves(disk: Disk, saves: seq<Save>): Disk {
    if saves == [] then disk
    else var last := saves[|saves| - 1]; AfterSave(AfterSaves(disk, saves[..|saves| - 1]), last.data, last.io)
  }

  /** What the last save that took effect has written, or what there was at first. */
  function LastEffective(disk: Disk, d: Dimensions, saves: seq<Save>): Option<HomeBox> {
    if saves == [] then Loaded(disk, d)
    else
      var before, last := saves[..|saves| - 1], saves[|saves| - 1];
      if TakesEffect(AfterSaves(disk, before), last.data, last.io) then Some(Ordered(last.data))
      else LastEffective(disk, d, before)
  }

  lemma {:induction false} SavesCanReplace(disk: Disk, saves: seq<Save>, d: Dimensions)
    requires CanReplace(disk, d) && forall s :: s in saves ==> s.data.dimensions == d
    ensures CanReplace(AfterSaves(disk, saves), d)
  {
    if saves != [] {
      var before, last := saves[..|saves| - 1], saves[|saves| - 1];
      SavesCanReplace(disk, before, d);
      assert last in saves;
      SaveCanReplace(AfterSaves(disk, before), last.data, last.io);
    }
  }

  /** After a load that permits transfers, each save of valid data takes effect, unless a call fails or is stopped. */
  lemma SavesTakeEffect(disk: Disk, saves: seq<Save>, d: Dimensions, i: nat)
    requires CanReplace(disk, d) && forall s :: s in saves ==> s.data.dimensions == d
    requires i < |saves| && ValidHomeBox(saves[i].data) && AllWorks(saves[i].io)
    ensures TakesEffect(AfterSaves(disk, saves[..i]), saves[i].data, saves[i].io)
    ensures SaveOutcome(AfterSaves(disk, saves[..i]), saves[i].data, saves[i].io) == Saved
  {
    assert forall s :: s in saves[..i] ==> s in saves;
    assert saves[i] in saves;
    SavesCanReplace(disk, saves[..i], d);
    SaveCanReplace(AfterSaves(disk, saves[..i]), saves[i].data, saves[i].io);
  }

  lemma {:induction false} SavesAreAtomic(disk: Disk, saves: seq<Save>, d: Dimensions)
    requires forall s :: s in saves ==> s.data.dimensions == d
    ensures Loaded(AfterSaves(disk, saves), d) == LastEffective(disk, d, saves)
  {
    if saves != [] {
      var before, last := saves[..|saves| - 1], saves[|saves| - 1];
      SavesAreAtomic(disk, before, d);
      assert last in saves;
      SaveIsAtomic(AfterSaves(disk, before), last.data, last.io);
    }
  }
}
