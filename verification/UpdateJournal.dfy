/** What the updater may leave behind: the job's journal of immutable records,
    its saved files and the pedal, at every moment a crash can strike.
    Source: editor/src-tauri/src/usb_update.rs. */
module UpdateJournal {
  import opened FlashImage

  /** Record numbers are u64. */
  const REVISIONS: nat := 0x1_0000_0000_0000_0000
  type Revision = r: nat | r < REVISIONS

  datatype Mode = Update | FirstInstall

  datatype Phase = Preflight | Bootloader | Saving | Writing | Rebooting | StoringModel
                 | Restoring | RecoveryRequired | Failed | Restored | Done

  datatype Job = Job(mode: Mode, loaderSha: string, model: string, phase: Phase, serial: string,
                     backupSha: string, writeStarted: bool, revision: Revision)
  {
    predicate Terminal() { phase == Done || phase == Restored || phase == Failed }
  }

  /** The job's directory. journal holds the visible NNN.json records; those in
      durable survive any crash, the others may vanish. temps holds NNN.tmp. */
  datatype Disk = Disk(journal: map<Revision, Job>, durable: set<Revision>, temps: set<Revision>,
                       backup: Option<Bytes>, loader: Option<Bytes>)

  /** The pedal on the selected USB port. */
  datatype Device = Device(uid: string, flash: Bytes)

  /** What really happened: the pedals whose flash this job erased or wrote, the
      flash when the job made up its mind to write, and the last full readback. */
  datatype Truth = Truth(touched: set<string>, original: Bytes, lastRead: Option<Bytes>)

  datatype World = World(disk: Disk, device: Device, truth: Truth)

  /** The bundled firmware, the hash function, and the search for Bosun's own marker. */
  datatype Package = Package(sha: Bytes -> string, image: Bytes, storage: Bytes, isBosun: Bytes -> bool)

  /** The flash a finished installation shows over the original flash. */
  function Installed(p: Package, mode: Mode, before: Bytes): Option<Bytes> {
    match mode
    case Update =>
      if |before| == FLASH_BYTES && WithinFirmware(p.image) then Some(Overlay(before, p.image)) else None
    case FirstInstall => FactoryImage(before, p.image, p.storage)
  }

  // ----- crashes

  predicate WellFormed(d: Disk) {
    && d.durable <= d.journal.Keys
    && forall r | r in d.journal :: d.journal[r].revision == r
  }

  /** A crash now could leave r as the newest record. */
  predicate CanBeNewest(d: Disk, r: Revision) {
    r in d.journal && forall k | k in d.durable :: k <= r
  }

  /** Whatever a crash now leaves, j is the newest record. */
  ghost predicate Settled(d: Disk, j: Job) {
    && d.durable != {}
    && forall r | CanBeNewest(d, r) :: d.journal[r] == j
  }

  /** d is a directory a crash or an exit can leave of c. Where the rename of a
      record is lost, its temporary file is back. */
  predicate Survives(c: Disk, d: Disk) {
    && c.durable <= d.durable <= d.journal.Keys <= c.journal.Keys
    && (forall r | r in d.journal :: d.journal[r] == c.journal[r])
    && d.temps <= c.temps + (c.journal.Keys - d.journal.Keys)
    && d.backup == c.backup && d.loader == c.loader
  }

  // ----- safety

  /** The record names a complete backup on disk, and what restoring needs. */
  predicate Armed(p: Package, w: World, j: Job) {
    && w.disk.backup == Some(w.truth.original) && |w.truth.original| == FLASH_BYTES
    && p.sha(w.truth.original) == j.backupSha
    && j.serial != ""
    && (j.mode.FirstInstall? ==> w.disk.loader.Some? && p.sha(w.disk.loader.value) == j.loaderSha)
  }

  predicate GoodRecord(p: Package, w: World, j: Job) {
    && (j.writeStarted ==> Armed(p, w, j))
    && (w.truth.touched != {} ==> j.writeStarted && w.truth.touched == {j.serial})
    && (j.phase == Failed ==> w.truth.touched == {})
    && (j.phase == Restored ==> w.disk.backup.Some? && w.truth.lastRead == w.disk.backup)
    && (j.phase == Done ==> w.disk.backup.Some? && w.truth.lastRead.Some?
                            && w.truth.lastRead == Installed(p, j.mode, w.disk.backup.value))
  }

  /** The claim, about one moment: every record that may turn out to be the
      newest tells the truth, and the original flash can be restored from it. */
  ghost predicate Safe(p: Package, w: World) {
    && WellFormed(w.disk)
    && |w.device.flash| == FLASH_BYTES
    && (w.truth.touched != {} ==> w.disk.durable != {} && w.disk.backup == Some(w.truth.original))
    && forall r | CanBeNewest(w.disk, r) :: GoodRecord(p, w, w.disk.journal[r])
  }

  // ----- each kind of step keeps it

  function AddRecord(w: World, j: Job): World {
    w.(disk := w.disk.(journal := w.disk.journal[j.revision := j], temps := w.disk.temps - {j.revision}))
  }

  function SyncDirectory(w: World): World {
    w.(disk := w.disk.(durable := w.disk.journal.Keys))
  }

  lemma AddRecordSafe(p: Package, w: World, j: Job)
    requires Safe(p, w) && GoodRecord(p, w, j)
    requires forall k | k in w.disk.journal :: k < j.revision
    ensures Safe(p, AddRecord(w, j)) && GoodRecord(p, AddRecord(w, j), j)
  {
    hide Installed;
    var v := AddRecord(w, j);
    forall r | CanBeNewest(v.disk, r) ensures GoodRecord(p, v, v.disk.journal[r]) {
      if r != j.revision { assert CanBeNewest(w.disk, r); }
    }
  }

  lemma SyncSafe(p: Package, w: World, j: Job)
    requires Safe(p, w) && GoodRecord(p, w, j)
    requires j.revision in w.disk.journal && w.disk.journal[j.revision] == j
    requires forall k | k in w.disk.journal :: k <= j.revision
    ensures Safe(p, SyncDirectory(w)) && GoodRecord(p, SyncDirectory(w), j)
    ensures Settled(SyncDirectory(w).disk, j)
  {
    hide Installed;
    var v := SyncDirectory(w);
    forall r | CanBeNewest(v.disk, r) ensures v.disk.journal[r] == j {
      assert j.revision in v.disk.durable;
    }
  }

  function Temporary(w: World, r: Revision): World {
    w.(disk := w.disk.(temps := w.disk.temps + {r}))
  }

  lemma TemporarySafe(p: Package, w: World, r: Revision, j: Job)
    requires Safe(p, w) && GoodRecord(p, w, j)
    ensures Safe(p, Temporary(w, r)) && GoodRecord(p, Temporary(w, r), j)
  {
    hide Installed;
    var v := Temporary(w, r);
    forall k | CanBeNewest(v.disk, k) ensures GoodRecord(p, v, v.disk.journal[k]) {
      assert CanBeNewest(w.disk, k);
    }
  }

  /** A pedal that reboots, is unplugged or runs its own firmware changes no claim. */
  lemma DeviceSafe(p: Package, w: World, device: Device, j: Job)
    requires Safe(p, w) && GoodRecord(p, w, j) && |device.flash| == FLASH_BYTES
    ensures Safe(p, w.(device := device)) && GoodRecord(p, w.(device := device), j)
  {
    hide Installed;
    var v := w.(device := device);
    forall k | CanBeNewest(v.disk, k) ensures GoodRecord(p, v, v.disk.journal[k]) {
      assert CanBeNewest(w.disk, k);
    }
  }

  /** The step from a verified backup to write_started. */
  function RaiseIntent(w: World): World {
    w.(truth := w.truth.(original := w.device.flash))
  }

  /** No record that may turn out newest has finished the job, or announced a write. */
  ghost predicate Idle(d: Disk) {
    forall r | CanBeNewest(d, r) :: !d.journal[r].Terminal() && !d.journal[r].writeStarted
  }

  lemma RaiseIntentSafe(p: Package, w: World, j: Job)
    requires Safe(p, w) && GoodRecord(p, w, j) && Idle(w.disk) && !j.Terminal() && !j.writeStarted
    requires w.disk.backup == Some(w.device.flash) && p.sha(w.device.flash) == j.backupSha && j.serial != ""
    requires j.mode.FirstInstall? ==> w.disk.loader.Some? && p.sha(w.disk.loader.value) == j.loaderSha
    ensures Safe(p, RaiseIntent(w)) && GoodRecord(p, RaiseIntent(w), j.(writeStarted := true))
  {
    hide Installed;
    var v := RaiseIntent(w);
    forall k | CanBeNewest(v.disk, k) ensures GoodRecord(p, v, v.disk.journal[k]) {
      assert CanBeNewest(w.disk, k);
    }
  }

  /** Erasing or programming any part of the flash. */
  function Touch(w: World, flash: Bytes): World {
    w.(device := w.device.(flash := flash), truth := w.truth.(touched := w.truth.touched + {w.device.uid}))
  }

  /** The flash may be written only when a settled record announces it. */
  ghost predicate MayWrite(w: World, j: Job) {
    && Settled(w.disk, j) && j.writeStarted && j.serial == w.device.uid
    && (j.phase == Writing || j.phase == Restoring)
  }

  lemma TouchSafe(p: Package, w: World, flash: Bytes, j: Job)
    requires Safe(p, w) && GoodRecord(p, w, j) && MayWrite(w, j) && |flash| == FLASH_BYTES
    ensures Safe(p, Touch(w, flash)) && GoodRecord(p, Touch(w, flash), j) && MayWrite(Touch(w, flash), j)
  {
    hide Installed;
    var v := Touch(w, flash);
    assert v.truth.touched == {j.serial};
    assert GoodRecord(p, v, j);
    forall k | CanBeNewest(v.disk, k) ensures GoodRecord(p, v, v.disk.journal[k]) {
      assert CanBeNewest(w.disk, k);
    }
  }

  function SeeFlash(w: World): World {
    w.(truth := w.truth.(lastRead := Some(w.device.flash)))
  }

  ghost predicate Open(d: Disk) {
    forall r | CanBeNewest(d, r) :: !d.journal[r].Terminal()
  }

  lemma SeeFlashSafe(p: Package, w: World, j: Job)
    requires Safe(p, w) && GoodRecord(p, w, j) && Open(w.disk) && !j.Terminal()
    ensures Safe(p, SeeFlash(w)) && GoodRecord(p, SeeFlash(w), j)
  {
    hide Installed;
    var v := SeeFlash(w);
    forall k | CanBeNewest(v.disk, k) ensures GoodRecord(p, v, v.disk.journal[k]) {
      assert CanBeNewest(w.disk, k);
    }
  }

  /** Before any write intent, the saved files may be in any state. */
  function SaveFiles(w: World, backup: Option<Bytes>, loader: Option<Bytes>): World {
    w.(disk := w.disk.(backup := backup, loader := loader))
  }

  lemma SaveFilesSafe(p: Package, w: World, backup: Option<Bytes>, loader: Option<Bytes>, j: Job)
    requires Safe(p, w) && GoodRecord(p, w, j) && Idle(w.disk) && !j.Terminal() && !j.writeStarted
    ensures Safe(p, SaveFiles(w, backup, loader)) && GoodRecord(p, SaveFiles(w, backup, loader), j)
    ensures Idle(SaveFiles(w, backup, loader).disk)
  {
    hide Installed;
    var v := SaveFiles(w, backup, loader);
    forall k | CanBeNewest(v.disk, k)
      ensures GoodRecord(p, v, v.disk.journal[k])
      ensures !v.disk.journal[k].Terminal() && !v.disk.journal[k].writeStarted
    {
      assert CanBeNewest(w.disk, k);
    }
    assert w.truth.touched == {};
  }

  lemma SurvivalSafe(p: Package, w: World, d: Disk)
    requires Safe(p, w) && Survives(w.disk, d)
    ensures Safe(p, w.(disk := d))
  {
    hide Installed;
    var v := w.(disk := d);
    forall k | CanBeNewest(d, k) ensures GoodRecord(p, v, d.journal[k]) {
      assert CanBeNewest(w.disk, k);
    }
  }

  // ----- what safety buys

  /** The newest record of a directory. */
  predicate Newest(d: Disk, r: Revision) {
    r in d.journal && forall k | k in d.journal :: k <= r
  }

  /** The claim, read off what a crash leaves. If any flash was touched there is a
      newest record, it announces the write and names the pedal, and its hash is
      that of the complete original flash, still on disk. A newest record that has
      failed stands over an untouched flash; behind restored and done is a full
      readback of the original, or of the new contents over it. */
  ghost predicate Recoverable(p: Package, w: World, d: Disk) {
    && (w.truth.touched != {} ==> d.journal.Keys != {})
    && forall r | Newest(d, r) ::
         && (w.truth.touched != {} ==>
               && d.journal[r].writeStarted
               && w.truth.touched == {d.journal[r].serial}
               && d.backup == Some(w.truth.original)
               && |w.truth.original| == FLASH_BYTES
               && d.journal[r].backupSha == p.sha(w.truth.original)
               && d.journal[r].phase != Failed
               && (d.journal[r].phase == Restored ==> w.truth.lastRead == Some(w.truth.original))
               && (d.journal[r].phase == Done ==>
                     w.truth.lastRead.Some? && w.truth.lastRead == Installed(p, d.journal[r].mode, w.truth.original)))
  }

  lemma CrashKeepsRecovery(p: Package, w: World, d: Disk)
    requires Safe(p, w) && Survives(w.disk, d)
    ensures Recoverable(p, w, d)
  {
    SurvivalSafe(p, w, d);
    hide Installed;
    forall r | Newest(d, r) ensures CanBeNewest(d, r) { }
  }

  /** The readback behind a finished update or first installation, byte by byte. */
  lemma DoneMeansInstalled(p: Package, w: World, d: Disk, r: Revision)
    requires Safe(p, w) && Survives(w.disk, d) && Newest(d, r)
    requires d.journal[r].phase == Done && w.truth.touched != {}
    ensures w.truth.lastRead.Some? && |w.truth.lastRead.value| == FLASH_BYTES
    ensures |p.image| <= STORAGE_OFFSET && w.truth.lastRead.value[..|p.image|] == p.image
    ensures |w.truth.original| == FLASH_BYTES
    ensures d.journal[r].mode.Update? ==>
              w.truth.lastRead.value[|p.image|..] == w.truth.original[|p.image|..]
    ensures d.journal[r].mode.FirstInstall? ==>
              && w.truth.lastRead.value[|p.image|..STORAGE_OFFSET] == w.truth.original[|p.image|..STORAGE_OFFSET]
              && w.truth.lastRead.value[STORAGE_OFFSET..] == p.storage
  {
    CrashKeepsRecovery(p, w, d);
    hide Safe, CanBeNewest, Survives;
    var j := d.journal[r];
    if j.mode.Update? { OverlayKeepsSettings(w.truth.original, p.image); }
  }
}
