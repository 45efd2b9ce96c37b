/** The update worker: every order in which it saves, writes, restores and gives
    up, with a failure possible at every call and a crash between any two
    durable actions. Source: editor/src-tauri/src/usb_update.rs and
    editor/src-tauri/src/factory_install.rs. */
module FirmwareUpdater {
  import opened FlashImage
  import opened UpdateJournal
  import RecordNames

  datatype Task = DoUpdate | DoInstall | DoRestore

  /** How a step ends; after Crash nothing else of this process happens. */
  datatype Outcome = Ok | Err | Crash

  /** The record number is in use, by a record or by a leftover temporary file. */
  predicate Taken(d: Disk, r: Revision) { r in d.journal || r in d.temps }

  /** No unused number lies between rev and a record. */
  ghost predicate Contiguous(d: Disk, rev: Revision) {
    forall k, r | k in d.journal && rev < r <= k :: Taken(d, r)
  }

  /** v differs from w in journal records and temporary files only. */
  predicate OnlyJournal(w: World, v: World) {
    && v.device == w.device && v.truth == w.truth
    && v.disk.backup == w.disk.backup && v.disk.loader == w.disk.loader
  }

  /** A job's claims do not depend on its record number. */
  lemma GoodRenumbered(p: Package, w: World, j: Job, r: Revision)
    requires GoodRecord(p, w, j)
    ensures GoodRecord(p, w, j.(revision := r))
  {
    hide Installed;
  }

  /** Not offering recovery. */
  predicate Calm(current: Option<Job>) {
    current.None? || current.value.phase != RecoveryRequired
  }

  /** The same job, except for its progress. */
  predicate SameJob(a: Job, b: Job) {
    a.mode == b.mode && a.loaderSha == b.loaderSha && a.model == b.model
  }

  /** The pedal was left alone, or its complete contents were read back: the
      original flash, or the new firmware over it. */
  ghost predicate Finished(p: Package, w: World) {
    || w.truth.touched == {}
    || w.truth.lastRead == Some(w.truth.original)
    || exists mode :: Installed(p, mode, w.truth.original).Some?
                      && w.truth.lastRead == Installed(p, mode, w.truth.original)
  }

  lemma TerminalFinished(p: Package, w: World, j: Job)
    requires Safe(p, w) && GoodRecord(p, w, j) && j.Terminal()
    ensures Finished(p, w)
  {
    hide Installed;
    if w.truth.touched != {} && j.phase == Done {
      assert Installed(p, j.mode, w.truth.original).Some?;
    }
  }

  lemma ContiguousFrame(c: Disk, d: Disk, rev: Revision)
    requires Contiguous(c, rev) && c.journal == d.journal && c.temps == d.temps
    ensures Contiguous(d, rev)
  {
    forall k, r | k in d.journal && rev < r <= k ensures Taken(d, r) {
      assert Taken(c, r);
    }
  }

  function Put(flash: Bytes, at: nat, sector: Bytes): (after: Bytes)
    requires at + |sector| <= |flash|
    ensures |after| == |flash|
  {
    flash[..at] + sector + flash[at + |sector|..]
  }

  lemma PutOverlay(before: Bytes, image: Bytes, at: nat)
    requires |image| <= |before| && at + SECTOR <= |image|
    ensures Put(Overlay(before, image[..at]), at, image[at..at + SECTOR]) == Overlay(before, image[..at + SECTOR])
  {
    assert image[..at + SECTOR] == image[..at] + image[at..at + SECTOR];
  }

  /** Skipping a sector that already has its bytes is the same as writing it. */
  lemma SkipOverlay(before: Bytes, image: Bytes, at: nat)
    requires |image| <= |before| && at + SECTOR <= |image|
    requires Overlay(before, image[..at])[at..at + SECTOR] == image[at..at + SECTOR]
    ensures Overlay(before, image[..at]) == Overlay(before, image[..at + SECTOR])
  {
    PutOverlay(before, image, at);
    var flash := Overlay(before, image[..at]);
    assert flash == flash[..at] + flash[at..at + SECTOR] + flash[at + SECTOR..];
  }

  lemma OverlayNothing(before: Bytes, image: Bytes)
    ensures Overlay(before, image[..0]) == before
  {
  }

  lemma OverlayAll(image: Bytes)
    ensures image[..|image|] == image
  {
  }

  class Updater {
    const package: Package
    /** The disk and the pedal: what the methods below act on. */
    var world: World
    /** The worker's own copy of the job. */
    var job: Job
    /** The copy the user interface sees, BUSY and PENDING. */
    var current: Option<Job>
    var busy: bool
    var pending: bool
    /** Every state the disk and the pedal have been in. */
    ghost var trace: seq<World>

    ghost predicate Recorded()
      reads this`world, this`trace
    {
      && |trace| > 0 && trace[|trace| - 1] == world
      && forall i | 0 <= i < |trace| :: Safe(package, trace[i])
    }

    ghost predicate Live()
      reads this`world, this`trace, this`job
    {
      Recorded() && GoodRecord(package, world, job) && Contiguous(world.disk, job.revision)
    }

    constructor (package: Package, device: Device)
      requires |device.flash| == FLASH_BYTES
      ensures Recorded() && world.disk.journal == map[] && trace == [world]
      ensures this.package == package
    {
      this.package := package;
      world := World(Disk(map[], {}, {}, None, None), device, Truth({}, [], None));
      job := Job(Update, "", "", Preflight, "", "", false, 0);
      current, busy, pending := None, false, false;
      trace := [World(Disk(map[], {}, {}, None, None), device, Truth({}, [], None))];
    }

    /** One indivisible change of disk, pedal or knowledge. */
    method Step(next: World)
      requires Recorded() && Safe(package, next)
      modifies this`world, this`trace
      ensures Recorded() && world == next && trace == old(trace) + [next]
    {
      hide Safe;
      world := next;
      trace := trace + [next];
    }

    // ----- save_job

    method NextRevision() returns (o: Outcome)
      requires Contiguous(world.disk, job.revision)
      modifies this`job
      ensures o != Crash
      ensures job == old(job).(revision := job.revision) && old(job.revision) <= job.revision
      ensures forall r | old(job.revision) < r < job.revision :: Taken(world.disk, r)
      ensures o.Ok? ==> old(job.revision) < job.revision && !Taken(world.disk, job.revision)
      ensures o.Err? ==> Taken(world.disk, job.revision) || job.revision == old(job.revision)
    {
      ghost var first := job.revision;
      o := Err;
      while o.Err?
        invariant o != Crash
        invariant job == old(job).(revision := job.revision) && first <= job.revision
        invariant forall r | first < r < job.revision :: Taken(world.disk, r)
        invariant o.Ok? ==> first < job.revision && !Taken(world.disk, job.revision)
        invariant o.Err? ==> Taken(world.disk, job.revision) || job.revision == first
        decreases REVISIONS - job.revision, if o.Err? then 1 else 0
      {
        // Past the last u64 the increment panics, which run() treats as an error.
        if job.revision + 1 == REVISIONS { return; }
        job := job.(revision := job.revision + 1);
        if !Taken(world.disk, job.revision) { o := Ok; }
      }
    }

    lemma AboveAllRecords(first: Revision)
      requires Contiguous(world.disk, first) && first < job.revision && !Taken(world.disk, job.revision)
      ensures forall k | k in world.disk.journal :: k < job.revision
    {
      forall k | k in world.disk.journal ensures k < job.revision {
        assert first < job.revision <= k ==> Taken(world.disk, job.revision);
      }
    }

    /** The durable_file of the temporary record; it may be left behind. */
    method WriteTemporary() returns (o: Outcome)
      requires Live() && !Taken(world.disk, job.revision)
      requires forall k | k in world.disk.journal :: k < job.revision
      modifies this`world, this`trace
      ensures Live() && OnlyJournal(old(world), world)
      ensures world.disk.journal == old(world.disk.journal) && world.disk.durable == old(world.disk.durable)
      ensures old(world.disk.temps) <= world.disk.temps <= old(world.disk.temps) + {job.revision}
      ensures o.Ok? ==> job.revision in world.disk.temps
    {
      hide Safe, GoodRecord;
      if * { return Err; }
      TemporarySafe(package, world, job.revision, job);
      Step(Temporary(world, job.revision));
      if * { return Err; } else if * { return Crash; } else { return Ok; }
    }

    /** durable_rename and the directory's sync_all. */
    method PublishTemporary() returns (o: Outcome)
      requires Live()
      requires forall k | k in world.disk.journal :: k < job.revision
      modifies this`world, this`trace
      ensures Live() && OnlyJournal(old(world), world)
      ensures world.disk.journal == old(world.disk.journal) || world.disk.journal == old(world.disk.journal)[job.revision := job]
      ensures world.disk.temps == if job.revision in world.disk.journal then old(world.disk.temps) - {job.revision}
                                  else old(world.disk.temps)
      ensures o.Ok? ==> Settled(world.disk, job)
    {
      hide Safe, GoodRecord;
      if * { return Err; } else if * { return Crash; }
      AddRecordSafe(package, world, job);
      Step(AddRecord(world, job));
      if * { return Err; } else if * { return Crash; }
      SyncSafe(package, world, job);
      Step(SyncDirectory(world));
      return Ok;
    }

    /** Every number up to the record keeps being in use. */
    lemma StillContiguous(first: Revision, before: Disk, middle: Disk)
      requires Contiguous(before, first) && first < job.revision
      requires forall k | k in before.journal :: k < job.revision
      requires forall r | first < r < job.revision :: Taken(before, r)
      requires middle.journal == before.journal
      requires before.temps <= middle.temps <= before.temps + {job.revision}
      requires world.disk.journal == middle.journal || world.disk.journal == middle.journal[job.revision := job]
      requires world.disk.temps == if job.revision in world.disk.journal then middle.temps - {job.revision}
                                   else middle.temps
      ensures Contiguous(world.disk, first)
    {
      forall k, r | k in world.disk.journal && first < r <= k ensures Taken(world.disk, r) {
        if r < job.revision { assert Taken(before, r); }
      }
    }

    /** save_job. Whatever fails, the new record number is above every record. */
    method SaveJob() returns (o: Outcome)
      requires Live()
      modifies this`job, this`world, this`trace
      ensures Live() && OnlyJournal(old(world), world)
      ensures job == old(job).(revision := job.revision) && old(job.revision) <= job.revision
      ensures Contiguous(world.disk, old(job.revision))
      ensures o.Ok? ==> Settled(world.disk, job)
    {
      hide Safe, GoodRecord, Settled, Contiguous;
      ghost var first, before := job.revision, world.disk;
      if * { return Err; }
      o := NextRevision();
      GoodRenumbered(package, world, old(job), job.revision);
      Renumbered(first);
      if o.Err? { return; }
      AboveAllRecords(first);
      o := WriteTemporary();
      ghost var middle := world.disk;
      StillContiguous(first, before, middle);
      if !o.Ok? { return; }
      o := PublishTemporary();
      StillContiguous(first, before, middle);
    }

    lemma Renumbered(first: Revision)
      requires Contiguous(world.disk, first) && first <= job.revision
      ensures Contiguous(world.disk, job.revision)
    {
    }

    /** Worker::publish. The phase in memory changes even when saving fails. */
    method Publish(phase: Phase) returns (o: Outcome)
      requires Recorded() && Contiguous(world.disk, job.revision)
      requires GoodRecord(package, world, job.(phase := phase))
      modifies this`job, this`world, this`trace, this`current
      ensures Live() && OnlyJournal(old(world), world)
      ensures job == old(job).(phase := phase, revision := job.revision)
      ensures Contiguous(world.disk, old(job.revision))
      ensures o.Ok? ==> Settled(world.disk, job) && current == Some(job)
      ensures !o.Ok? ==> current == old(current)
    {
      hide Recorded, Safe, GoodRecord, Contiguous, OnlyJournal, Settled;
      job := job.(phase := phase);
      o := SaveJob();
      if o.Ok? { current := Some(job); }
    }

    // ----- the pedal

    /** What a pedal out of our hands may do: run its firmware, which writes its
        own settings, restart, or be swapped for another one. */
    method PedalRuns()
      requires Live()
      modifies this`world, this`trace
      ensures Live() && world.disk == old(world.disk) && world.truth == old(world.truth)
      ensures world.device.uid != "" || world.device == old(world.device)
    {
      hide Safe, GoodRecord;
      var device: Device := *;
      if |device.flash| != FLASH_BYTES || device.uid == "" { return; }
      DeviceSafe(package, world, device, job);
      Step(world.(device := device));
    }

    /** Picoboot::wait_for with its identity check, and Helper::wait with its own:
        a first installation may not know the pedal's identity yet. */
    method Connect(helper: bool) returns (o: Outcome)
      requires Live()
      modifies this`world, this`trace
      ensures Live() && world.disk == old(world.disk) && world.truth == old(world.truth)
      ensures o.Ok? ==> world.device.uid != "" && (world.device.uid == job.serial || (helper && job.serial == ""))
    {
      hide *;
      PedalRuns();
      if * { return Err; } else if * { return Crash; }
      if world.device.uid == "" { return Err; }
      if helper && job.serial == "" { return Ok; }
      return if world.device.uid == job.serial then Ok else Err;
    }

    method Reboot() returns (o: Outcome)
      requires Live()
      modifies this`world, this`trace
      ensures Live() && world.disk == old(world.disk) && world.truth == old(world.truth)
    {
      hide *;
      PedalRuns();
      if * { return Err; } else if * { return Crash; } else { return Ok; }
    }

    /** Reading all of the flash. */
    method ReadFlash() returns (o: Outcome, data: Bytes)
      requires Live() && Open(world.disk) && !job.Terminal()
      modifies this`world, this`trace
      ensures Live() && world.disk == old(world.disk) && world.device == old(world.device)
      ensures world.truth == old(world.truth).(lastRead := world.truth.lastRead)
      ensures o.Ok? ==> data == world.device.flash && world.truth.lastRead == Some(data)
    {
      hide Safe, GoodRecord, Open;
      data := world.device.flash;
      if * { return Err, data; } else if * { return Crash, data; }
      SeeFlashSafe(package, world, job);
      Step(SeeFlash(world));
      o := Ok;
    }

    /** Erase and program one sector. It may stop half way with anything in the
        sector, or report success over cells that did not take the data. */
    method ProgramSector(at: nat, sector: Bytes) returns (o: Outcome, ghost exact: bool)
      requires Live() && MayWrite(world, job)
      requires |sector| == SECTOR && at + SECTOR <= FLASH_BYTES && |world.device.flash| == FLASH_BYTES
      modifies this`world, this`trace
      ensures Live() && MayWrite(world, job) && world.disk == old(world.disk)
      ensures world.device.uid == old(world.device.uid) && |world.device.flash| == FLASH_BYTES
      ensures world.truth.original == old(world.truth.original)
      ensures exact ==> o.Ok? && world.device.flash == Put(old(world.device.flash), at, sector)
      ensures forall k | 0 <= k < FLASH_BYTES && !(at <= k < at + SECTOR) ::
                world.device.flash[k] == old(world.device.flash)[k]
    {
      hide Safe, GoodRecord, MayWrite;
      exact := false;
      if * { return Err, false; } else if * { return Crash, false; }
      var junk: Bytes := *;
      if |junk| != SECTOR { junk := sector; }
      var before := world.device.flash;
      var erased := Put(before, at, junk);
      TouchSafe(package, world, erased, job);
      Step(Touch(world, erased));
      if * { return Err, false; } else if * { return Crash, false; } else if * { return Ok, false; }
      var written := Put(before, at, sector);
      TouchSafe(package, world, written, job);
      Step(Touch(world, written));
      return Ok, true;
    }

    /** Picoboot::write_flash when skip is false; Helper::write, which leaves a
        sector alone that already reads back as wanted, when it is true. */
    method WriteFlash(image: Bytes, skip: bool) returns (o: Outcome, ghost exact: bool)
      requires Live() && MayWrite(world, job) && |world.device.flash| == FLASH_BYTES
      modifies this`world, this`trace
      ensures Live() && MayWrite(world, job) && world.disk == old(world.disk)
      ensures world.device.uid == old(world.device.uid) && |world.device.flash| == FLASH_BYTES
      ensures world.truth.original == old(world.truth.original)
      ensures |image| <= FLASH_BYTES ==> world.device.flash[|image|..] == old(world.device.flash)[|image|..]
      ensures exact && o.Ok? ==>
                |image| <= FLASH_BYTES && world.device.flash == Overlay(old(world.device.flash), image)
    {
      hide Safe, GoodRecord, MayWrite, Live, Put, Overlay;
      exact := true;
      if if skip then |image| != FLASH_BYTES else image == [] || |image| > FLASH_BYTES || |image| % SECTOR != 0 {
        return Err, false;
      }
      if * { return Err, false; }
      ghost var before := world.device.flash;
      var at := 0;
      OverlayNothing(before, image);
      while at < |image|
        invariant at % SECTOR == 0 && at <= |image| <= FLASH_BYTES && |image| % SECTOR == 0
        invariant Live() && MayWrite(world, job) && world.disk == old(world.disk)
        invariant world.device.uid == old(world.device.uid) && |world.device.flash| == FLASH_BYTES
        invariant world.truth.original == old(world.truth.original)
        invariant world.device.flash[|image|..] == before[|image|..]
        invariant exact ==> world.device.flash == Overlay(before, image[..at])
      {
        ghost var stuck := true;
        assert at + SECTOR <= |image|;
        if skip && world.device.flash[at..at + SECTOR] == image[at..at + SECTOR] {
          if exact { SkipOverlay(before, image, at); }
        } else {
          if exact { PutOverlay(before, image, at); }
          o, stuck := ProgramSector(at, image[at..at + SECTOR]);
          if !o.Ok? { return o, false; }
        }
        exact := exact && stuck;
        at := at + SECTOR;
      }
      OverlayAll(image);
      return Ok, exact;
    }

    /** install_image: firmware over the flash as it is, then a full readback. */
    method InstallImage(before: Bytes, image: Bytes) returns (o: Outcome)
      requires Live() && MayWrite(world, job) && Open(world.disk) && !job.Terminal()
      requires world.device.flash == before && |before| == FLASH_BYTES
      modifies this`world, this`trace
      ensures Live() && world.disk == old(world.disk)
      ensures world.truth.original == old(world.truth.original)
      ensures o.Ok? ==> WithinFirmware(image) && world.truth.lastRead == Some(Overlay(before, image))
    {
      hide Safe, GoodRecord, MayWrite, Live, Put, Overlay, Open;
      if |before| != FLASH_BYTES || !WithinFirmware(image) { return Err; }
      var expected := Overlay(before, image);
      ghost var exact;
      o, exact := WriteFlash(image, false);
      if !o.Ok? { return; }
      var seen;
      o, seen := ReadFlash();
      if !o.Ok? { return; }
      if seen != expected { return Err; }
    }

    /** restore_image: a whole flash image, then a full readback. */
    method RestoreImage(image: Bytes, helper: bool) returns (o: Outcome)
      requires Live() && MayWrite(world, job) && Open(world.disk) && !job.Terminal()
      requires |world.device.flash| == FLASH_BYTES
      modifies this`world, this`trace
      ensures Live() && world.disk == old(world.disk)
      ensures world.truth.original == old(world.truth.original)
      ensures o.Ok? ==> world.truth.lastRead == Some(image)
    {
      hide Safe, GoodRecord, MayWrite, Live, Put, Overlay, Open;
      if |image| != FLASH_BYTES { return Err; }
      ghost var exact;
      o, exact := WriteFlash(image, helper);
      if !o.Ok? { return; }
      var seen;
      o, seen := ReadFlash();
      if !o.Ok? { return; }
      if seen != image { return Err; }
    }

    // ----- the saved files

    /** durable_file of flash-before.bin, which must not exist yet. */
    method SaveBackup(bytes: Bytes) returns (o: Outcome)
      requires Live() && Idle(world.disk) && !job.Terminal() && !job.writeStarted
      modifies this`world, this`trace
      ensures Live() && Idle(world.disk) && world.device == old(world.device) && world.truth == old(world.truth)
      ensures world.disk == old(world.disk).(backup := world.disk.backup)
      ensures o.Ok? ==> world.disk.backup == Some(bytes)
      ensures old(world).disk.backup.Some? ==> o.Err? && world == old(world)
    {
      hide Safe, GoodRecord, Idle, Contiguous;
      if world.disk.backup.Some? { return Err; }
      if * { return Err; } else if * { return Crash; }
      var torn: Option<Bytes> := *;
      SaveFilesSafe(package, world, torn, world.disk.loader, job);
      ContiguousFrame(world.disk, SaveFiles(world, torn, world.disk.loader).disk, job.revision);
      Step(SaveFiles(world, torn, world.disk.loader));
      if * { return Err; } else if * { return Crash; }
      SaveFilesSafe(package, world, Some(bytes), world.disk.loader, job);
      ContiguousFrame(world.disk, SaveFiles(world, Some(bytes), world.disk.loader).disk, job.revision);
      Step(SaveFiles(world, Some(bytes), world.disk.loader));
      return Ok;
    }

    /** durable_file of loader.uf2. */
    method SaveLoader(bytes: Bytes) returns (o: Outcome)
      requires Live() && Idle(world.disk) && !job.Terminal() && !job.writeStarted
      modifies this`world, this`trace
      ensures Live() && Idle(world.disk) && world.device == old(world.device) && world.truth == old(world.truth)
      ensures world.disk == old(world.disk).(loader := world.disk.loader)
      ensures o.Ok? ==> world.disk.loader == Some(bytes)
      ensures old(world).disk.loader.Some? ==> o.Err? && world == old(world)
    {
      hide Safe, GoodRecord, Idle, Contiguous;
      if world.disk.loader.Some? { return Err; }
      if * { return Err; } else if * { return Crash; }
      var torn: Option<Bytes> := *;
      SaveFilesSafe(package, world, world.disk.backup, torn, job);
      ContiguousFrame(world.disk, SaveFiles(world, world.disk.backup, torn).disk, job.revision);
      Step(SaveFiles(world, world.disk.backup, torn));
      if * { return Err; } else if * { return Crash; }
      SaveFilesSafe(package, world, world.disk.backup, Some(bytes), job);
      ContiguousFrame(world.disk, SaveFiles(world, world.disk.backup, Some(bytes)).disk, job.revision);
      Step(SaveFiles(world, world.disk.backup, Some(bytes)));
      return Ok;
    }

    /** Worker::backup: the saved flash, if it is complete and has the job's hash. */
    method Backup() returns (backup: Option<Bytes>)
      ensures backup.Some? ==>
                && backup == world.disk.backup && |backup.value| == FLASH_BYTES
                && package.sha(backup.value) == job.backupSha
    {
      if * { return None; }
      if world.disk.backup.None? { return None; }
      var bytes := world.disk.backup.value;
      if |bytes| != FLASH_BYTES || |job.backupSha| != 64 || package.sha(bytes) != job.backupSha { return None; }
      return Some(bytes);
    }

    // ----- install

    lemma SettledIdle()
      requires Settled(world.disk, job) && !job.Terminal()
      ensures Open(world.disk)
      ensures !job.writeStarted ==> Idle(world.disk)
    {
    }

    lemma IdleOpen()
      requires Idle(world.disk)
      ensures Open(world.disk)
    {
    }

    /** Moving between working phases claims nothing new. */
    lemma WorkingPhase(phase: Phase)
      requires GoodRecord(package, world, job)
      requires phase != Failed && phase != Restored && phase != Done
      ensures GoodRecord(package, world, job.(phase := phase))
    {
      hide Installed;
    }

    ghost predicate HasLoader()
      reads this`world, this`job
    {
      job.mode.FirstInstall? ==>
        world.disk.loader.Some? && package.sha(world.disk.loader.value) == job.loaderSha
    }

    /** Read the flash, save it, hash it, and check file and flash once more. */
    method TakeBackup() returns (o: Outcome, before: Bytes)
      requires Live() && !job.Terminal() && !job.writeStarted
      modifies this`job, this`world, this`trace, this`current
      ensures Live() && !job.Terminal() && !job.writeStarted
      ensures job == old(job).(backupSha := job.backupSha, phase := job.phase, revision := job.revision)
      ensures world.device == old(world.device) && world.disk.loader == old(world.disk.loader)
      ensures current == old(current) || (current.Some? && current.value.phase == Saving)
      ensures o.Ok? ==>
                && before == world.device.flash && |before| == FLASH_BYTES && Idle(world.disk)
                && world.disk.backup == Some(before) && package.sha(before) == job.backupSha
    {
      hide Safe, GoodRecord, Idle, Open, Settled, Contiguous;
      before := [];
      o := PublishSaving();
      if !o.Ok? { return; }
      IdleOpen();
      o, before := ReadFlash();
      if !o.Ok? { return; }
      o := SaveBackup(before);
      if !o.Ok? { return; }
      Hashed(package.sha(before));
      job := job.(backupSha := package.sha(before));
      if job.mode.FirstInstall? {
        o := PublishSaving();
        if !o.Ok? { return; }
      }
      var saved := Backup();
      if saved != Some(before) { return Err, before; }
      var again;
      IdleOpen();
      o, again := ReadFlash();
      if !o.Ok? { return; }
      if again != before { return Err, before; }
    }

    method PublishSaving() returns (o: Outcome)
      requires Live() && !job.Terminal() && !job.writeStarted
      modifies this`job, this`world, this`trace, this`current
      ensures Live() && OnlyJournal(old(world), world)
      ensures job == old(job).(phase := Saving, revision := job.revision)
      ensures o.Ok? ==> Idle(world.disk)
      ensures current == old(current) || (current.Some? && current.value.phase == Saving)
    {
      hide Safe, GoodRecord, Idle, Open, Settled, Contiguous;
      WorkingPhase(Saving);
      o := Publish(Saving);
      if o.Ok? { SettledIdle(); }
    }

    /** Without write intent a record's hash claims nothing. */
    lemma Hashed(sha: string)
      requires GoodRecord(package, world, job) && !job.writeStarted && !job.Terminal()
      ensures GoodRecord(package, world, job.(backupSha := sha))
    {
      hide Installed;
    }

    /** The write intent, durable before the first erase. */
    method AnnounceWrite() returns (o: Outcome)
      requires Live() && Idle(world.disk) && !job.Terminal() && !job.writeStarted
      requires world.disk.backup == Some(world.device.flash) && package.sha(world.device.flash) == job.backupSha
      requires job.serial != "" && job.serial == world.device.uid && HasLoader()
      modifies this`job, this`world, this`trace, this`current
      ensures Live() && job.writeStarted && job.phase == Writing
      ensures SameJob(old(job), job) && job.serial == old(job.serial)
      ensures world.device == old(world.device) && world.disk.backup == old(world.disk.backup)
      ensures Calm(old(current)) ==> Calm(current)
      ensures o.Ok? ==> MayWrite(world, job) && Open(world.disk)
    {
      hide Safe, GoodRecord, Idle, Open, Settled, Contiguous;
      RaiseIntentSafe(package, world, job);
      Step(RaiseIntent(world));
      job := job.(writeStarted := true);
      WorkingPhase(Writing);
      o := Publish(Writing);
      if o.Ok? { SettledIdle(); }
    }

    /** Publishing a working phase. */
    method Working(phase: Phase) returns (o: Outcome)
      requires Live() && phase != Failed && phase != Restored && phase != Done && phase != RecoveryRequired
      modifies this`job, this`world, this`trace, this`current
      ensures Live() && OnlyJournal(old(world), world)
      ensures job == old(job).(phase := phase, revision := job.revision)
      ensures Calm(old(current)) ==> Calm(current)
      ensures o.Ok? ==> Settled(world.disk, job) && current == Some(job)
    {
      hide Safe, GoodRecord, Settled, Contiguous;
      WorkingPhase(phase);
      o := Publish(phase);
    }

    /** The pedal has the complete new contents, by a full readback. */
    ghost predicate Complete()
      reads this`world, this`job
    {
      && world.disk.backup.Some? && world.truth.lastRead.Some?
      && world.truth.lastRead == Installed(package, job.mode, world.disk.backup.value)
    }

    lemma DoneIsTrue()
      requires GoodRecord(package, world, job) && Complete()
      ensures GoodRecord(package, world, job.(phase := Done))
    {
    }

    /** install, between finding the bootloader and leaving it. */
    method UpdateInBootloader() returns (o: Outcome)
      requires Live() && !job.Terminal() && !job.writeStarted && job.mode.Update?
      requires job.serial != "" && job.serial == world.device.uid
      modifies this`job, this`world, this`trace, this`current
      ensures Live() && !job.Terminal() && SameJob(old(job), job)
      ensures Calm(old(current)) ==> Calm(current)
      ensures o.Ok? ==> Complete()
    {
      hide Safe, GoodRecord, Idle, Open, Settled, Contiguous, MayWrite, Live;
      var before;
      o, before := TakeBackup();
      if !o.Ok? { return; }
      o := AnnounceWrite();
      if !o.Ok? { return; }
      o := InstallImage(before, package.image);
      if !o.Ok? { return; }
      o := Working(Rebooting);
      if !o.Ok? { return; }
      o := Reboot();
    }

    /** install_factory, between meeting the helper and leaving it. */
    method InstallWithHelper() returns (o: Outcome)
      requires Live() && !job.Terminal() && !job.writeStarted && job.mode.FirstInstall?
      requires job.serial != "" && job.serial == world.device.uid && HasLoader()
      modifies this`job, this`world, this`trace, this`current
      ensures Live() && !job.Terminal() && SameJob(old(job), job)
      ensures Calm(old(current)) ==> Calm(current)
      ensures o.Ok? ==> Complete()
      ensures job.writeStarted ==> world.disk.backup.Some? && !package.isBosun(world.disk.backup.value)
    {
      hide Safe, GoodRecord, Idle, Open, Settled, Contiguous, MayWrite, Live;
      var before;
      o, before := TakeBackup();
      if !o.Ok? { return; }
      if package.isBosun(before) { return Err; }
      var image := FactoryImage(before, package.image, package.storage);
      if image.None? { return Err; }
      o := AnnounceWrite();
      if !o.Ok? { return; }
      o := RestoreImage(image.value, true);
      if !o.Ok? { return; }
      o := Working(Rebooting);
      if !o.Ok? { return; }
      o := Reboot();
    }

    /** Leave the bootloader after an error, unless a restore is due. */
    method Leave(result: Outcome)
      requires Live()
      modifies this`world, this`trace
      ensures Live() && world.disk == old(world.disk) && world.truth == old(world.truth)
    {
      hide *;
      if result.Err? && !job.writeStarted { var ignored := Reboot(); }
    }

    /** The last publish of a finished installation. */
    method Finish() returns (o: Outcome)
      requires Live() && Complete()
      modifies this`job, this`world, this`trace, this`current
      ensures Live() && job.phase == Done && OnlyJournal(old(world), world)
      ensures Calm(old(current)) ==> Calm(current)
    {
      hide Safe, GoodRecord, Settled, Contiguous;
      DoneIsTrue();
      o := Publish(Done);
    }

    /** Worker::install. */
    method Install() returns (o: Outcome)
      requires Live() && !job.Terminal() && !job.writeStarted && job.mode.Update? && job.serial != ""
      modifies this`job, this`world, this`trace, this`current
      ensures Live() && (!job.Terminal() || job.phase == Done) && (o.Ok? ==> job.phase == Done)
      ensures Calm(old(current)) ==> Calm(current)
    {
      hide Safe, GoodRecord, Idle, Open, Settled, Contiguous, MayWrite, Live, Installed;
      o := Working(Preflight);
      if !o.Ok? { return; }
      if * { return Err; }                    // the running firmware cannot be updated, or has unsaved edits
      o := Working(Bootloader);
      if !o.Ok? { return; }
      if * { return Err; }                    // the reboot request failed
      o := Connect(false);
      if !o.Ok? { return; }
      o := UpdateInBootloader();
      Leave(o);
      if !o.Ok? { return; }
      if * { return Err; }                    // verify_runtime
      o := Finish();
    }

    /** Worker::install_factory. */
    method InstallFactory() returns (o: Outcome)
      requires Live() && !job.Terminal() && !job.writeStarted && job.mode.FirstInstall? && HasLoader()
      modifies this`job, this`world, this`trace, this`current
      ensures Live() && (!job.Terminal() || job.phase == Done) && (o.Ok? ==> job.phase == Done)
      ensures Calm(old(current)) ==> Calm(current)
    {
      hide Safe, GoodRecord, Idle, Open, Settled, Contiguous, MayWrite, Live, Installed;
      o := Working(Preflight);
      if !o.Ok? { return; }
      if * { return Err; }                    // the identity changed, or Bosun already runs
      o := Working(Bootloader);
      if !o.Ok? { return; }
      o := Connect(true);
      if !o.Ok? { return; }
      Identify();
      o := InstallWithHelper();
      Leave(o);
      if !o.Ok? { return; }
      if * { return Err; }                    // verify_runtime
      var stored: bool := *;                  // apply_hardware
      o := StoreModel(stored);
    }

    /** The installation stands, whether or not the model is stored: nothing but the
        journal is written any more. */
    method StoreModel(stored: bool) returns (o: Outcome)
      requires Live() && !job.Terminal() && Complete()
      modifies this`job, this`world, this`trace, this`current
      ensures Live() && (!job.Terminal() || job.phase == Done) && (o.Ok? ==> job.phase == Done)
      ensures OnlyJournal(old(world), world)
      ensures Calm(old(current)) ==> Calm(current)
    {
      hide Safe, GoodRecord, Idle, Open, Settled, Contiguous, MayWrite, Live, Installed;
      if job.model != "" {
        o := Working(StoringModel);
        if !o.Ok? { return; }
        if !stored {
          o := Finish();
          return;
        }
      }
      o := Finish();
    }

    /** Before any write the job may learn which pedal it is about. */
    method Identify()
      requires Live() && !job.writeStarted && !job.Terminal()
      modifies this`job
      ensures Live() && job == old(job).(serial := world.device.uid)
    {
      hide Installed, Safe, Contiguous;
      job := job.(serial := world.device.uid);
    }

    // ----- restore

    lemma RestoredIsTrue()
      requires GoodRecord(package, world, job)
      requires world.disk.backup.Some? && world.truth.lastRead == world.disk.backup
      ensures GoodRecord(package, world, job.(phase := Restored))
    {
      hide Installed;
    }

    /** restore and restore_factory, with the pedal back in its bootloader. */
    method RestoreInBootloader(backup: Bytes, helper: bool) returns (o: Outcome)
      requires Live() && job.phase == Restoring && job.writeStarted && Settled(world.disk, job)
      requires world.disk.backup == Some(backup) && job.serial != ""
      modifies this`world, this`trace
      ensures Live() && world.disk == old(world.disk)
      ensures o.Ok? ==> world.truth.lastRead == Some(backup)
    {
      hide Safe, GoodRecord, Idle, Open, Settled, Contiguous, Live;
      o := Connect(helper);
      if !o.Ok? { return; }
      SettledIdle();
      FlashSize();
      o := RestoreImage(backup, helper);
      if !o.Ok? { return; }
      o := Reboot();
    }

    lemma FlashSize()
      requires Live()
      ensures |world.device.flash| == FLASH_BYTES
    {
    }

    /** Write intent in memory comes with a backup and a named pedal. */
    lemma IntentArmed()
      requires Live() && job.writeStarted
      ensures job.serial != "" && world.disk.backup == Some(world.truth.original)
    {
    }

    method LoadHelper() returns (o: Outcome)
      ensures o != Crash
    {
      if * { return Err; }
      if world.disk.loader.None? || package.sha(world.disk.loader.value) != job.loaderSha { return Err; }
      return Ok;
    }

    /** Worker::restore and Worker::restore_factory. */
    method Restore() returns (o: Outcome)
      requires Live() && job.writeStarted
      modifies this`job, this`world, this`trace, this`current
      ensures Live() && SameJob(old(job), job) && job.writeStarted
      ensures job.phase == old(job.phase) || job.phase == Restoring || job.phase == Restored
      ensures Calm(old(current)) ==> Calm(current)
      ensures o.Ok? ==> job.phase == Restored
    {
      hide Safe, GoodRecord, Idle, Open, Settled, Contiguous, Live;
      IntentArmed();
      var backup := Backup();
      if backup.None? { return Err; }
      if job.mode.FirstInstall? {
        o := LoadHelper();
        if !o.Ok? { return; }
      }
      o := Working(Restoring);
      if !o.Ok? { return; }
      if job.mode.Update? {
        if * { return Err; }                  // asking the running firmware for its bootloader
      }
      o := RestoreInBootloader(backup.value, job.mode.FirstInstall?);
      if !o.Ok? { return; }
      if job.mode.Update? {
        if * { return Err; }                  // verify_runtime
      }
      o := ConfirmRestored();
    }

    method ConfirmRestored() returns (o: Outcome)
      requires Live() && world.disk.backup.Some? && world.truth.lastRead == world.disk.backup
      modifies this`job, this`world, this`trace, this`current
      ensures Live() && job == old(job).(phase := Restored, revision := job.revision)
      ensures Calm(old(current)) ==> Calm(current)
    {
      hide Safe, GoodRecord, Settled, Contiguous;
      RestoredIsTrue();
      o := Publish(Restored);
    }

    // ----- run

    /** What the three kinds of work need to start. */
    ghost predicate Ready(task: Task)
      reads this`world, this`trace, this`job
    {
      Live() &&
      match task
      case DoUpdate => !job.Terminal() && !job.writeStarted && job.mode.Update? && job.serial != ""
      case DoInstall => !job.Terminal() && !job.writeStarted && job.mode.FirstInstall? && HasLoader()
      case DoRestore => !job.Terminal() && job.writeStarted
    }

    method Work(task: Task) returns (o: Outcome)
      requires Ready(task)
      modifies this`job, this`world, this`trace, this`current
      ensures Live() && (o.Ok? ==> !job.Terminal() || job.phase == Done || job.phase == Restored)
      ensures Calm(old(current)) ==> Calm(current)
    {
      hide Safe, GoodRecord, Contiguous, Recorded;
      match task
      case DoUpdate => o := Install();
      case DoInstall => o := InstallFactory();
      case DoRestore => o := Restore();
    }

    /** After an error: put the original flash back if any may have been touched,
        and record where that leaves the pedal. */
    method GiveUp() returns (o: Outcome)
      requires Live() && Calm(current)
      modifies this`job, this`world, this`trace, this`current
      ensures Live() && (o.Ok? ==> Calm(current) || (current == Some(job) && !job.Terminal()))
      ensures o != Err
      ensures o.Ok? ==> job.phase == Restored || job.phase == if old(job).writeStarted then RecoveryRequired else Failed
      ensures o.Ok? && job.phase == Restored ==> world.disk.backup.Some? && world.truth.lastRead == world.disk.backup
      ensures o.Ok? && job.phase == Failed ==> world.truth.touched == {}
    {
      hide Safe, GoodRecord, Contiguous, Recorded;
      if job.writeStarted {
        o := Restore();
        if o.Crash? { return; }
      }
      if job.phase == Restored {
        WhatItSays();
        return Ok;
      }
      FailedIsTrue();
      o := Publish(if job.writeStarted then RecoveryRequired else Failed);
      if o.Err? { current := Some(job); }
      WhatItSays();
      if !o.Crash? { o := Ok; }
    }

    lemma WhatItSays()
      requires Live()
      ensures job.phase == Restored ==> world.disk.backup.Some? && world.truth.lastRead == world.disk.backup
      ensures job.phase == Failed ==> world.truth.touched == {}
    {
      hide Installed;
    }

    lemma FailedIsTrue()
      requires Live()
      ensures GoodRecord(package, world, job.(phase := RecoveryRequired))
      ensures !job.writeStarted ==> GoodRecord(package, world, job.(phase := Failed))
    {
      hide Installed;
    }

    /** Between operations: PENDING is lowered only over a pedal in a known state,
        and a job on offer for recovery is the one on disk. */
    ghost predicate Between()
      reads this
    {
      && Recorded() && !busy
      && (!pending ==> Finished(package, world) && Calm(current))
      && (!Calm(current) ==> GoodRecord(package, world, current.value)
                             && Contiguous(world.disk, current.value.revision))
    }

    /** Worker::run. */
    method Run(task: Task) returns (o: Outcome)
      requires Ready(task) && Calm(current)
      modifies this
      ensures Recorded() && (o.Ok? ==> Between())
      ensures o != Err
    {
      hide Safe, GoodRecord, Contiguous, Recorded, Finished;
      busy := true;
      o := Work(task);
      if o.Crash? { return; }
      if o.Err? {
        o := GiveUp();
        if o.Crash? { return; }
      }
      pending := !job.Terminal();
      busy := false;
      if !pending { Conclude(); }
    }

    lemma Conclude()
      requires Live() && job.Terminal()
      ensures Finished(package, world)
    {
      TerminalFinished(package, world, job);
    }

    // ----- the commands of the user interface

    /** normal_operation: the guard every other use of the pedal goes through. */
    predicate NormalOperation()
      reads this`busy, this`pending
    {
      !busy && !pending
    }

    lemma NewJobIsGood(j: Job)
      requires Recorded() && world.disk.journal == map[]
      requires j.phase == Preflight && !j.writeStarted
      ensures GoodRecord(package, world, j) && Contiguous(world.disk, j.revision)
    {
      hide Installed;
      assert world.disk.durable == {};
    }

    /** usb_update_start and factory_install_start, in a directory of their own. */
    method Start(mode: Mode, serial: string, model: string, loader: Bytes) returns (o: Outcome)
      requires Between() && world.disk.journal == map[] && (mode.Update? ==> serial != "")
      modifies this
      ensures Recorded() && (!o.Crash? ==> Between())
      ensures !old(NormalOperation()) ==> o.Err? && world == old(world) && job == old(job) && current == old(current)
    {
      hide Safe, GoodRecord, Contiguous, Recorded, Finished, Settled, Idle;
      if !NormalOperation() { return Err; }
      job := Job(mode, if mode.FirstInstall? then package.sha(loader) else "", model, Preflight, serial, "", false, 0);
      NewJobIsGood(job);
      o := SaveFirst(loader);
      if !o.Ok? { return; }
      if * { return Err; }                    // detach
      busy, pending, current := true, true, Some(job);
      o := Run(if mode.Update? then DoUpdate else DoInstall);
    }

    /** The first record, and the RAM helper a first installation will need. */
    method SaveFirst(loader: Bytes) returns (o: Outcome)
      requires Live() && job.phase == Preflight && !job.writeStarted
      requires job.mode.FirstInstall? ==> job.loaderSha == package.sha(loader)
      modifies this`job, this`world, this`trace
      ensures Live() && job == old(job).(revision := job.revision) && Finished(package, world)
      ensures o.Ok? && job.mode.FirstInstall? ==> HasLoader()
    {
      hide Safe, GoodRecord, Contiguous, Recorded, Settled, Idle, Finished;
      o := SaveJob();
      if o.Ok? && job.mode.FirstInstall? {
        SettledIdle();
        o := SaveLoader(loader);
      }
      Untouched();
    }

    lemma Untouched()
      requires Live() && !job.writeStarted
      ensures Finished(package, world)
    {
      hide Installed;
    }

    /** Recovery is on offer for a job that announced a write. */
    predicate Announced(current: Option<Job>) {
      current.Some? && current.value.phase == RecoveryRequired && current.value.writeStarted
    }

    /** The complete flash with the job's hash. */
    predicate Intact(backup: Option<Bytes>, current: Option<Job>) {
      backup.Some? && current.Some? && |backup.value| == FLASH_BYTES && package.sha(backup.value) == current.value.backupSha
    }

    /** usb_update_recover. */
    method Recover() returns (o: Outcome)
      requires Between()
      modifies this
      ensures Recorded() && (!o.Crash? ==> Between())
      ensures old(busy) || !Announced(old(current)) || !Intact(old(world).disk.backup, old(current)) ==>
                o.Err? && world == old(world) && current == old(current)
    {
      hide Safe, GoodRecord, Contiguous, Recorded, Finished, Settled, OnlyJournal;
      if busy { return Err; }
      if current.None? || current.value.phase != RecoveryRequired || !current.value.writeStarted { return Err; }
      job := current.value;
      var backup := Backup();
      if backup.None? { return Err; }
      if * { return Err; }                    // detach
      ghost var before := world;
      WorkingPhase(Restoring);
      o := Publish(Restoring);
      if o.Crash? { return; }
      OfferStands(before);
      if !o.Ok? { return; }
      o := Run(DoRestore);
    }

    lemma OfferStands(before: World)
      requires OnlyJournal(before, world)
      ensures current.Some? && GoodRecord(package, before, current.value) ==> GoodRecord(package, world, current.value)
      ensures Finished(package, before) ==> Finished(package, world)
    {
      hide Installed;
    }

    // ----- the life of the process

    /** What an interrupted job comes to. */
    function Interrupted(j: Job): Phase {
      if j.writeStarted then RecoveryRequired else Failed
    }

    lemma OneNewest(d: Disk, r: Revision)
      requires Newest(d, r)
      ensures forall k | Newest(d, k) :: k == r
    {
    }

    /** initialize: take up the newest record. */
    method Initialize() returns (o: Outcome)
      requires Recorded()
      modifies this
      ensures Recorded() && (o.Ok? ==> Between())
      ensures o.Ok? && old(world).disk.journal.Keys == {} ==> current.None?
      ensures forall r | o.Ok? && Newest(old(world).disk, r) ::
                && current.Some? && var was := old(world).disk.journal[r];
                current.value == if was.Terminal() then was else was.(phase := Interrupted(was), revision := current.value.revision)
    {
      hide Safe, GoodRecord, Contiguous, Recorded, Finished, Settled, Newest;
      current, busy, pending := None, false, false;
      if * { return Err; }                    // reading the directory
      var newest := RecordNames.LoadJob(world.disk);
      if newest.None? {
        NothingYet();
        return Ok;
      }
      NewestIsGood(newest.value);
      OneNewest(world.disk, newest.value);
      if * { return Err; }                    // reading or parsing the record
      job := world.disk.journal[newest.value];
      if !job.Terminal() {
        FailedIsTrue();
        job := job.(phase := Interrupted(job));
        o := SaveJob();
        if !o.Ok? { return; }
      }
      current := Some(job);
      pending := !job.Terminal();
      if !pending { Conclude(); }
      o := Ok;
    }

    lemma NothingYet()
      requires Recorded() && world.disk.journal.Keys == {}
      ensures Finished(package, world) && forall r :: !Newest(world.disk, r)
    {
    }

    lemma NewestIsGood(r: Revision)
      requires Recorded() && Newest(world.disk, r)
      ensures r in world.disk.journal && world.disk.journal[r].revision == r
      ensures GoodRecord(package, world, world.disk.journal[r]) && Contiguous(world.disk, r)
    {
      hide Installed, GoodRecord;
      assert CanBeNewest(world.disk, r);
    }

    /** The process ends or the computer loses power: memory is gone, and of the
        directory at least what was made durable is left. */
    method Halt()
      requires Recorded()
      modifies this
      ensures Recorded()
    {
      hide Safe;
      current, busy, pending := None, false, false;
      var left: Disk := *;
      if !Survives(world.disk, left) { return; }
      SurvivalSafe(package, world, left);
      Step(world.(disk := left));
    }

    /** One life of the process: it initializes, and then the user starts the job
        or asks for recovery, any number of times, until it exits or crashes. */
    method Life(actions: nat, mode: Mode, serial: string, model: string, loader: Bytes)
      requires Recorded() && (mode.Update? ==> serial != "")
      modifies this
      ensures Recorded()
    {
      hide Recorded, GoodRecord, Contiguous, Finished;
      var o := Initialize();
      for k := 0 to actions
        invariant Recorded() && (o.Ok? ==> Between())
      {
        if o.Ok? {
          var starts: bool := *;
          if starts && world.disk.journal == map[] { o := Start(mode, serial, model, loader); } else { o := Recover(); }
          if o.Err? { o := Ok; }              // the command failed; the process goes on
        }
      }
      Halt();
    }

    /** Whatever a crash leaves of any of the recorded states. */
    lemma EveryCrashLeavesRecovery()
      requires Recorded()
      ensures forall i, d | 0 <= i < |trace| && Survives(trace[i].disk, d) :: Recoverable(package, trace[i], d)
    {
      hide Recoverable, Survives, Safe;
      forall i, d | 0 <= i < |trace| && Survives(trace[i].disk, d) ensures Recoverable(package, trace[i], d) {
        CrashKeepsRecovery(package, trace[i], d);
      }
    }

    /** Any number of lives, each cut short at any point: every state the disk and
        the pedal ever pass through is safe, so a crash there leaves a recovery. */
    method Lives(lives: seq<nat>, mode: Mode, serial: string, model: string, loader: Bytes)
      requires Recorded() && (mode.Update? ==> serial != "")
      modifies this
      ensures trace != [] && trace[|trace| - 1] == world
      ensures forall i | 0 <= i < |trace| :: Safe(package, trace[i])
      ensures forall i, d | 0 <= i < |trace| && Survives(trace[i].disk, d) :: Recoverable(package, trace[i], d)
    {
      hide GoodRecord, Contiguous, Finished, Safe, Recoverable, Survives;
      for k := 0 to |lives|
        invariant Recorded()
      {
        Life(lives[k], mode, serial, model, loader);
      }
      EveryCrashLeavesRecovery();
    }
  }
}
