# Bosun: a verified model of the firmware engine and the desktop updater

Bosun is a MIDI foot controller for Kemper amplifiers. This project models the parts
of it that have to be right over whole runs, in Dafny, and proves what they promise.
`dafny verify dfyconfig.toml` checks everything. There are six connected pieces.

1. **Crash-safe updater** (`FlashImage`, `UpdateJournal`, `RecordNames`,
   `FirmwareUpdater`). The worker of the desktop application is a class whose methods
   are the functions of `usb_update.rs`, in their order. Every call to the disk or to
   the pedal may fail, and the process may crash between any two durable actions and in
   the middle of a file or a sector. `trace` collects every state the disk and the
   pedal pass through, over any number of lives of the process. The claim, `Safe`, is
   about each of them: whatever record a crash leaves as the newest one tells the truth,
   and once any flash was touched it names the pedal, announces the write and carries
   the hash of the complete original flash, which is still on disk.
2. **Kemper synchronisation** (`KemperTiming`, `KemperEngine`). Replies on the link
   carry no tags. In the model each state query carries the number of the rig change it
   was sent under, which the engine never looks at. A reply that comes within 1200 ms
   and answers a query of an earlier rig changes nothing; what is shown was reported
   under the rig that is shown; a superseded selection is never sent; transitions end.
   Times are true milliseconds; a lemma relates them to the wrapped 32-bit comparisons.
3. **JSON** (`JsonGrammar` to `JsonRoundTrip`). `JsonGrammar` is the grammar of RFC 8259
   with the UTF-8 table of RFC 3629, section 4, as syntax trees and their texts. The
   in-place tokenizer is proved to accept exactly its texts within depth, count and
   length limits, and its flat token array to encode the tree; readers agree with the
   tree, and writer and reader undo each other.
4. **Profile store** (`ConfigFiles`, `ConfigStore`, `ConfigRuns`, `ConfigPointer`,
   `PatchBinding`, `PatchRewrite`, `PatchCatalog`). Files are a map, writes are atomic
   and may fail. Drafts hide saved patches, which gives one visible map of patches. The
   class keeps the C buffers, including the scratch memory that activation reuses for
   its rollback.
5. **Queues and streams** (`Rings`, `RuntimeQueue`, `MidiParser`, `MidiOutput`,
   `EventRing`, `ProtocolFraming`). Ring buffers with all-or-nothing admission, the
   resynchronising MIDI parser, and line framing that does not depend on how the input
   is cut.
6. **Small machines and the catalog reader** (`SwitchFsm`, `ExpressionPresence`,
   `CatalogReader`). The editor's reader is run against the profile store itself, with
   any operations between its requests.

What the code does not keep is stated as such, with the exact condition where there is
one:

- A polled press on the very poll that first sees the double-tap window over gives up
  the pending first tap (`SwitchFsm.LostTap`); the lost taps are counted, and there are
  none in runs of `bosun_switch_tap` alone.
- A binding put into a patch with several entries for its switch replaces the first
  one, but the runtime runs the last one: it finds the new binding iff there was at most
  one entry (`PatchBinding.ScanFindsBinding`, `PatchBinding.ScanMissesBinding`).
- Pages of the inventory carry a revision by which a reader tells that it changed. For
  the active profile it always does. For an explicitly named profile the saved patches
  move under an equal revision exactly when an operation was a save that wrote the saved
  patch and could not remove a draft that differs, or a removal that deleted an existing
  saved patch and could not remove the draft (`ConfigFiles.SavedMoves`, with
  `ConfigFiles.TornSaveExample` and `ConfigFiles.TornRemovalExample`).
- A patch written with the active profile named bypasses the patch in memory; exactly
  when it then is no longer the visible one is in `ConfigStore.Config.PutSaved`, and
  `ConfigRuns.OvertakenExample` is such a write.
- The first in-time echo of our own Program Change starts no new generation, except
  when an external selection put off for it comes due at that moment: then two
  generations start, and our rig is shown again (`KemperEngine.Kemper.ReceivePc`,
  `KemperEngine.LateEcho`).
- After a receive timeout the rest of the line is answered once more, with
  `request_too_large` (`ProtocolFraming.Ending`).

## Model

| member | source | states |
|---|---|---|
| FlashImage.FactoryImage | editor/src-tauri/src/usb_update.rs:544-559 | defined exactly for whole flashes, sector-sized firmware below the storage region and full storage; firmware, untouched gap and fresh storage lie where they belong |
| FlashImage.OverlayKeepsSettings | editor/src-tauri/src/usb_update.rs:585-605 | an update leaves every byte from the end of the firmware on, settings included |
| FlashImage.Collect | editor/src-tauri/src/firmware_package.rs:33-52 | the loop over UF2 blocks succeeds iff every block has the right header for its place, and then yields all payloads in order |
| FlashImage.Pad | editor/src-tauri/src/firmware_package.rs:67-67 | whole sectors, the image first, 0xFF behind it |
| FlashImage.FirmwareImage | editor/src-tauri/src/firmware_package.rs:29-72 | accepts exactly the complete contiguous UF2 images with a valid vector table; what it returns stays below the settings region |
| FlashImage.Uf2RoundTrip | editor/src-tauri/src/firmware_package.rs:29-72 | every image laid out as UF2 comes back unchanged, and is accepted iff its vector table is good |
| UpdateJournal.SurvivalSafe | editor/src-tauri/src/usb_update.rs:106-130 | a crash keeps at least the durable records, and where a rename is lost its temporary file is back; any such directory is still safe |
| UpdateJournal.TouchSafe | editor/src-tauri/src/usb_update.rs:289-298 | erasing or programming keeps safety only under a settled record that announces the write and names this pedal |
| UpdateJournal.RaiseIntentSafe | editor/src-tauri/src/usb_update.rs:284-295 | write_started may be raised once file, flash and hash agree and no finished or announced record can turn out newest |
| UpdateJournal.CrashKeepsRecovery | editor/src-tauri/src/usb_update.rs:109-152 | after a crash at a safe moment, if any flash was touched, the newest record has write_started, the pedal's identity and the hash of the complete original flash, which is on disk; a failed one stands over untouched flash, restored over a readback equal to the original, done over a readback equal to the installed image |
| UpdateJournal.DoneMeansInstalled | editor/src-tauri/src/usb_update.rs:240-318 | behind done, byte by byte: the firmware, and settings kept for an update or fresh storage for a first installation |
| RecordNames.NamesSortNumerically | editor/src-tauri/src/usb_update.rs:112-118 | twenty-digit names sort as the u64 numbers they spell, and are distinct for distinct numbers |
| RecordNames.LoadJob | editor/src-tauri/src/usb_update.rs:131-152 | the record taken up is the one with the highest number, whatever the directory order; temporary files never win |
| FirmwareUpdater.Updater.NextRevision | editor/src-tauri/src/usb_update.rs:112-118 | the new number is unused, and every number skipped is in use |
| FirmwareUpdater.Updater.WriteTemporary | editor/src-tauri/src/usb_update.rs:72-87 | a temporary file may be left behind, and no record changes |
| FirmwareUpdater.Updater.PublishTemporary | editor/src-tauri/src/usb_update.rs:88-105 | the record appears whole or not at all; on success it is the newest whatever a crash leaves |
| FirmwareUpdater.Updater.SaveJob | editor/src-tauri/src/usb_update.rs:109-130 | the job saved is settled as the newest record on success; failures keep every earlier record and the numbering without gaps |
| FirmwareUpdater.Updater.Publish | editor/src-tauri/src/usb_update.rs:206-213 | phase in memory always, record and visible job only on success |
| FirmwareUpdater.Updater.Connect | editor/src-tauri/src/factory_install.rs:316-396 | only the pedal with the job's identity is accepted; a first installation without one accepts any |
| FirmwareUpdater.Updater.ProgramSector | editor/src-tauri/src/factory_install.rs:413-432 | touches one sector only, even when it stops half way or reports success over wrong data |
| FirmwareUpdater.Updater.WriteFlash | editor/src-tauri/src/factory_install.rs:413-432 | writing, or skipping equal sectors, gives the same flash when every sector took; bytes behind the image never change |
| FirmwareUpdater.Updater.InstallImage | editor/src-tauri/src/usb_update.rs:585-605 | success means a full readback equal to the image over the flash as it was |
| FirmwareUpdater.Updater.RestoreImage | editor/src-tauri/src/usb_update.rs:606-620 | success means a full readback equal to the image |
| FirmwareUpdater.Updater.SaveBackup | editor/src-tauri/src/usb_update.rs:281-283 | an existing backup is refused and untouched; a torn one is possible and harmless before the write intent |
| FirmwareUpdater.Updater.Backup | editor/src-tauri/src/usb_update.rs:222-239 | returns the saved flash only when it is complete and has the job's hash |
| FirmwareUpdater.Updater.TakeBackup | editor/src-tauri/src/usb_update.rs:276-288 | success means file, flash and hash agree, and no announced or finished record can turn out newest |
| FirmwareUpdater.Updater.AnnounceWrite | editor/src-tauri/src/usb_update.rs:289-295 | the write intent is durable before the first erase is permitted |
| FirmwareUpdater.Updater.UpdateInBootloader | editor/src-tauri/src/usb_update.rs:275-306 | success means the readback is the complete new contents over the verified backup |
| FirmwareUpdater.Updater.InstallWithHelper | editor/src-tauri/src/usb_update.rs:441-483 | success means the readback is the complete new contents over the verified backup; no write is ever announced over a backup that holds Bosun |
| FirmwareUpdater.Updater.Install | editor/src-tauri/src/usb_update.rs:240-318 | ends done only over a readback equal to the overlay, and safe at every step |
| FirmwareUpdater.Updater.InstallFactory | editor/src-tauri/src/usb_update.rs:410-503 | ends done only over a readback equal to the installed image, and safe at every step; success is phase done |
| FirmwareUpdater.Updater.StoreModel | editor/src-tauri/src/usb_update.rs:490-502 | whether or not the model is stored, nothing but the journal is written any more, and success is phase done |
| FirmwareUpdater.Updater.Restore | editor/src-tauri/src/usb_update.rs:319-354 | success means phase restored over a readback equal to the backup |
| FirmwareUpdater.Updater.GiveUp | editor/src-tauri/src/usb_update.rs:381-398 | after an error the job ends restored over a readback equal to the backup, in recovery if it had announced a write, or failed, which stands over untouched flash |
| FirmwareUpdater.Updater.Run | editor/src-tauri/src/usb_update.rs:355-408 | PENDING is lowered only over an untouched pedal or one whose contents were read back whole |
| FirmwareUpdater.Updater.Start | editor/src-tauri/src/usb_update.rs:790-849 | outside normal operation it is refused and nothing changes; otherwise a new job runs and every state stays safe |
| FirmwareUpdater.Updater.Recover | editor/src-tauri/src/usb_update.rs:850-890 | without an announced job on offer, with one running, or without the complete backup of its hash it is refused and nothing changes; a failed attempt leaves the offer standing |
| FirmwareUpdater.Updater.Initialize | editor/src-tauri/src/usb_update.rs:153-198 | the newest record of the job directory is taken up, an interrupted one as recovery or failed by its write intent |
| FirmwareUpdater.Updater.Lives | editor/src-tauri/src/usb_update.rs:109-528 | over any number of lives, commands and crashes every state of disk and pedal is safe, and whatever a crash leaves of it can be recovered from |
| KemperTiming.WrappedComparisons | firmware/src/kemper.c:32-38 | due and later on wrapped clocks are the comparison and maximum of true times less than 2^31 apart |
| KemperTiming.QuarantineGuards | firmware/src/kemper.c:199-206 | after quarantine every query that may still be answered has its block quarantined long enough |
| KemperTiming.AskingGuards | firmware/src/kemper.c:623-630 | sending and remembering queries keeps every answer expected |
| KemperTiming.RetireGuards | firmware/src/kemper.c:647-650 | queries are forgotten only when no answer can come in time |
| KemperTiming.StaleIsQuarantined | firmware/src/kemper.c:534-541 | a reply within 1200 ms to a query of an earlier rig finds its block quarantined |
| KemperTiming.TickShortens | firmware/src/kemper.c:632-670 | a tick never puts the end of a transition off |
| KemperTiming.DeferredShortens | firmware/src/kemper.c:238-253 | nor does the deferred selection's single re-arm, which is counted in advance |
| KemperEngine.SelectionDecodes | firmware/src/kemper.c:307-321 | bank LSB and program sent for a legal rig decode back to that rig |
| KemperEngine.Kemper.ExpireOrphans | firmware/src/kemper.c:175-184 | exactly what is overdue goes: quarantine, echo tokens and the name query |
| KemperEngine.Kemper.RetirePc | firmware/src/kemper.c:186-197 | our last echo, if still due, joins the list of at most eight superseded ones, the oldest making room |
| KemperEngine.Kemper.Quarantine | firmware/src/kemper.c:199-206 | every query still answerable is quarantined |
| KemperEngine.Kemper.ResetReconcile | firmware/src/kemper.c:208-214 | settling starts over; allowed only when all queries are quarantined |
| KemperEngine.Kemper.Arm | firmware/src/kemper.c:216-236 | a new generation shows the new rig, knows no effect, holds no scheduled program and settles 500 ms |
| KemperEngine.Kemper.ExpireBankSnapshot | firmware/src/kemper.c:238-253 | an overdue window closes; a selection put off is made once |
| KemperEngine.Kemper.BeginRig | firmware/src/kemper.c:255-259 | accepted exactly for legal rigs |
| KemperEngine.Kemper.ScheduleProgram | firmware/src/kemper.c:298-305 | the program scheduled is the rig shown, due 5 ms later |
| KemperEngine.Kemper.SelectRig | firmware/src/kemper.c:307-315 | accepted exactly for legal banks, slots and channels outside browse mode when the link takes the bank select; then the rig is armed and scheduled, else neither rig nor schedule changes |
| KemperEngine.Kemper.SelectProgram | firmware/src/kemper.c:317-321 | accepted exactly in browse mode on legal channels and programs |
| KemperEngine.Kemper.RequestRigName | firmware/src/kemper.c:323-336 | asked exactly with a known identity, outside transitions, with no name pending and no query out; the query is remembered for 1200 ms |
| KemperEngine.Kemper.CommitName | firmware/src/kemper.c:366-376 | a name held back is shown exactly when the transition is over, it is 150 ms old, of this generation and no mere repetition for another rig; a repetition is dropped |
| KemperEngine.Kemper.ReceiveName | firmware/src/kemper.c:378-421 | never changes rig or effects; a first or other name while idle restarts the transition once; the last or first one is shown at once, any other is held back |
| KemperEngine.Kemper.ReceiveLiveBlock | firmware/src/kemper.c:430-446 | a broadcast is current: cached, shown unless settling, no longer awaited, and guarded against a reply under way |
| KemperEngine.Kemper.ReceiveBankHeader | firmware/src/kemper.c:481-493 | opens the window exactly once per selection and only while our own echo is due, outside browse mode |
| KemperEngine.Kemper.ReceiveState | firmware/src/kemper.c:531-557 | a reply to a query of an earlier rig, less than 1200 ms old, changes nothing stored or shown; otherwise exactly the unquarantined, unguarded reply is stored, and shown when awaited |
| KemperEngine.Kemper.ReceiveType | firmware/src/kemper.c:145-163 | a wah in a slot whose state is unknown, of the current rig after its transition, is asked for exactly then, and the query is remembered like a reconcile query |
| KemperEngine.Kemper.TakeEcho | firmware/src/kemper.c:579-592 | after our echo the rig stands; timers move as the source's three cases say |
| KemperEngine.Kemper.TakeSelection | firmware/src/kemper.c:593-610 | a superseded echo is absorbed, a step of our own bank change is put off, and exactly anything else arms the rig heard |
| KemperEngine.Kemper.ReceivePc | firmware/src/kemper.c:573-611 | an illegal program changes nothing; the in-time echo of our own selection starts no generation, or two when a selection put off comes due, and our rig is shown either way; another rig of the bank heard in the window is put off |
| KemperEngine.Kemper.ReconcileRound | firmware/src/kemper.c:623-630 | queries go only to blocks awaited, with no quarantine and no window open |
| KemperEngine.Kemper.SendProgram | firmware/src/kemper.c:636-644 | when due and taken by the link, the program of the rig shown now goes out and its echo is expected for 10 s |
| KemperEngine.Kemper.PublishMissing | firmware/src/kemper.c:661-668 | unanswered blocks show their cached state exactly if it is of this generation |
| KemperEngine.Kemper.Tick | firmware/src/kemper.c:632-691 | the timers after a tick, at most one program sent, and only for the latest selection |
| KemperEngine.Kemper.QuietRun | firmware/src/kemper.c:83-85 | with ticks at most d apart and no further selection, program change, name or bank header, a transition is over within 3800 + 4d ms |
| KemperEngine.Kemper.OwnEcho | firmware/src/kemper.c:573-592 | hearing back what was sent leaves rig and generation, unless a deferred selection comes due |
| KemperEngine.LateEcho | firmware/src/kemper.c:573-611 | a run in which the first echo of rig 6, well in time, starts two new generations, as the selection of rig 7 put off for it comes due |
| KemperEngine.Kemper.Happen | firmware/src/kemper.c:613-621 | any single event; a stale in-time reply changes nothing cached or shown |
| KemperEngine.Kemper.Run | firmware/src/kemper.c:216-691 | over any run: known effects are of the current generation and were reported under the rig shown, every program sent was the latest selection, at most two query rounds per settling |
| JsonTheorems.ParseSound | firmware/src/json.c:79-135 | every accepted text has a syntax tree within the limits, and the tokens are its flat encoding |
| JsonTheorems.ParseComplete | firmware/src/json.c:79-135 | every grammatical text parses to its encoding, or to LIMIT when it exceeds depth or capacity |
| JsonTheorems.ParserAcceptsExactly | firmware/src/json.c:79-135 | OK exactly on the JSON texts within the limits |
| JsonTheorems.GrammaticalIsNeverInvalid | firmware/src/json.c:126-135 | a JSON text is never reported malformed, and LIMIT means a limit |
| JsonParserProofs.UnitComplete | firmware/src/json.c:20-57 | every string character of the grammar, multi-byte ones included, is scanned whole |
| JsonParserProofs.StringSound | firmware/src/json.c:37-57 | what the string scan accepts is a string body of the grammar |
| JsonParserProofs.NumberSound | firmware/src/json.c:59-78 | what the number scan accepts is a number of the grammar |
| JsonParserProofs.NumberComplete | firmware/src/json.c:59-78 | a number followed by what may follow one is scanned to its end |
| JsonTokenizer.Tokenizer.Utf8 | firmware/src/json.c:20-36 | decoding by value accepts what the specification accepts |
| JsonTokenizer.Tokenizer.StringToken | firmware/src/json.c:37-57 | the cursor ends behind the closing quote, or the scan fails, as specified |
| JsonTokenizer.Tokenizer.NumberToken | firmware/src/json.c:59-78 | the cursor ends behind the number, or the scan fails, as specified |
| JsonTokenizer.Tokenizer.Value | firmware/src/json.c:79-125 | the recursive parser fills the array with the specified tokens and tells INVALID from LIMIT |
| JsonTokenizer.ParseText | firmware/src/json.c:126-135 | the in-place parser computes the specified result and tokens |
| JsonReader.RootEncodes | firmware/src/json.c:126-135 | the first token of a successful parse encodes the document's value |
| JsonReader.HeadToken | firmware/src/json.c:79-125 | a token's span is its value's text, and its next index lands behind all its children |
| JsonReader.Raw | firmware/src/json.c:139-144 | the raw text of a token is its value's text |
| JsonReader.EscapeCode | firmware/src/json.c:150-185 | an escape or a surrogate pair gives its code point; unpaired halves and NUL fail |
| JsonReader.Equal | firmware/src/json.c:189-191 | true exactly when the string decodes to the text compared |
| JsonReader.String | firmware/src/json.c:186-188 | succeeds exactly when the string decodes and fits, and returns it |
| JsonReader.Get | firmware/src/json.c:192-201 | the last member whose decoded key matches, or none; it ends on every document |
| JsonReader.ElementAt | firmware/src/json.c:202-207 | the element at the index, or none |
| JsonReader.Integer | firmware/src/json.c:208-221 | succeeds exactly on plain integers in int32 range, returns their value; no unsigned step overflows |
| JsonWriter.Writer.Write | firmware/src/json.c:232-235 | appends all or nothing; failure is sticky |
| JsonWriter.Writer.Quote | firmware/src/json.c:237-251 | appends the quoted and escaped text, or fails |
| JsonWriter.Writer.WriteInteger | firmware/src/json.c:252-255 | appends the decimal form, or nothing |
| JsonRoundTrip.QuoteRoundTrip | firmware/src/json.c:150-251 | quote, parse and read returns every NUL-free UTF-8 text, given room |
| JsonRoundTrip.DecodedIsUtf8 | firmware/src/json.c:150-185 | every string the reader returns is NUL-free UTF-8 |
| JsonRoundTrip.IntegerRoundTrip | firmware/src/json.c:208-255 | write, parse and read returns every int32 |
| PatchBinding.RewrittenLookup | firmware/src/config.c:286-303 | every other member keeps its last-wins value; bindings is the new array |
| PatchBinding.ReplaceValues | firmware/src/config.c:290-302 | the new array is the old one with the first entry for the switch replaced, or the binding appended |
| PatchBinding.OnePerSwitchKept | firmware/src/config.c:290-302 | a patch with one entry per switch stays one |
| PatchBinding.ScanFindsBinding | firmware/src/runtime.c:318-322 | the runtime's scan finds the new binding iff the old patch had at most one entry for its switch |
| PatchBinding.ScanMissesBinding | firmware/src/runtime.c:318-322 | a patch with two entries for a switch: the first is replaced, the second is the one the runtime finds |
| PatchRewrite.RewritePatch | firmware/src/config.c:282-305 | the text written is the text of the rewritten tree; it is refused exactly for bindings that are no array of objects, or no room |
| PatchRewrite.RewrittenParses | firmware/src/config.c:282-305 | the rewritten tree is a JSON text, so it parses again within the limits |
| ConfigFiles.StagingShows | firmware/src/config.c:245-256 | a staged patch is what is shown at its place, nothing else moves, and the dirty list matches the draft files |
| ConfigFiles.ErasingShows | firmware/src/config.c:351-354 | without its draft a place shows the saved patch, nothing else moves |
| ConfigFiles.SavingHidden | firmware/src/config.c:345-350 | writing the saved patch under a draft changes nothing shown |
| ConfigFiles.SaveShows | firmware/src/config.c:311-367 | whatever exit a save takes, every place shows what it did; a discard shows the saved patch exactly where the draft went |
| ConfigFiles.SavedMoves | firmware/src/config.c:345-374 | over any operation without a new revision the saved patches of a profile stay iff it was no save of that profile torn at a draft that differs and no removal torn after deleting an existing saved patch |
| ConfigFiles.ToldAnnounces | firmware/src/config.c:345-374 | what the active profile lists does not move even then |
| ConfigFiles.SavedTells | firmware/src/config.c:345-374 | equal revisions mean equal saved patches of a named profile, if no such operation moved them in between |
| ConfigFiles.TornSaveExample | firmware/src/config.c:345-354 | a save that writes the saved patch, cannot remove the draft and leaves the revision |
| ConfigFiles.TornRemovalExample | firmware/src/config.c:368-374 | a removal that deletes the saved patch, cannot remove the draft and leaves the revision; no save does the same |
| ConfigFiles.RevisionTells | firmware/src/config.c:245-245 | in a history where listings move only with the revision, equal revisions mean equal listings |
| ConfigStore.ReadString | firmware/src/config.c:425-429 | the string read is that of the last member with this key |
| ConfigStore.Config.Read | firmware/src/config.c:189-200 | a file's text, or an error, never a part |
| ConfigStore.Config.Catalog | firmware/src/config.c:400-424 | each coordinate with a file in legal range, once; more than fit are refused |
| ConfigStore.Config.Rollback | firmware/src/config.c:474-479 | both documents, their lengths and their parsed tokens are the old ones again, from the reused scratch memory |
| ConfigStore.Config.WritePointer | firmware/src/config.c:460-466 | the pointer file names the profile, or is unchanged |
| ConfigStore.Config.Switch | firmware/src/config.c:433-479 | on failure both documents are as before; on success they are the profile's |
| ConfigStore.Config.Activate | firmware/src/config.c:425-480 | all or nothing: on any failure nothing a caller or the store can see changes; on success the profile is shown whole and, if asked, the file names it |
| ConfigStore.Config.ReadPatch | firmware/src/config.c:189-200 | the patch shown, or the saved one of a named profile |
| ConfigStore.Config.SelectChecked | firmware/src/config.c:201-212 | the patch in memory becomes the shown one at the place, or nothing changes |
| ConfigStore.Config.MayPut | firmware/src/config.c:232-243 | what is accepted fits, is a JSON object, is in range and finds room in the dirty list |
| ConfigStore.Config.PutDraft | firmware/src/config.c:232-257 | the patch is shown at its place, in memory too if current, no other moves; a failure changes nothing |
| ConfigStore.Config.PutSaved | firmware/src/config.c:232-257 | a named profile's saved patch is written, or nothing changes; the patch in memory stays the shown one iff it is not overtaken at the current place |
| ConfigStore.Config.SaveOne | firmware/src/config.c:325-365 | one draft saved or discarded, or stopped before or after the saved patch was written |
| ConfigStore.Config.Save | firmware/src/config.c:311-367 | on success no matching draft is left; on a stop the exact progress; without a new revision the files differ by at most the one saved patch of a torn save |
| ConfigStore.Config.SaveShown | firmware/src/config.c:311-367 | a save changes no patch shown at any exit; a discard shows the saved patch where the draft went; without a new revision only a torn save's saved patch differs |
| ConfigStore.Config.RemovePatch | firmware/src/config.c:368-381 | afterwards nothing is shown and no saved patch is left at the place; on failure nothing shown changed, and the saved patch is gone exactly if the removal was torn |
| ConfigStore.Config.Tick | firmware/src/config.c:382-391 | autosave changes no patch shown, saves only drafts old enough by the 32-bit clock, and without a new revision moves at most the saved patch of a torn save |
| ConfigStore.Config.Resume | firmware/src/config.c:481-492 | the profile activated at start is the one the pointer file names |
| ConfigStore.Config.PutBinding | firmware/src/config.c:263-306 | the patch shown becomes its rewriting with the binding; nothing else moves, a failure changes nothing |
| ConfigStore.Config.CoordinatesList | firmware/src/config.c:533-552 | saved patches and drafts, each once, in order |
| ConfigStore.Config.PatchesPage | firmware/src/config.c:587-618 | a page is cut from the complete ordered catalog, and the total is its size |
| ConfigPointer.SaysOnce | firmware/src/config.c:481-490 | a text says one value for a key, whatever tree one finds for it |
| ConfigPointer.PointerNames | firmware/src/config.c:460-466 | the pointer text written for a profile, parsed and read, names that profile |
| ConfigRuns.Step | firmware/src/config.c:201-480 | every operation, writes naming the active profile included and its store calls failing anywhere: the revision tells of every change but the two flaws, and only a write naming the active profile may leave the patch in memory behind |
| ConfigRuns.SameInventory | firmware/src/config.c:587-618 | moments with the same listing have the same complete catalog |
| ConfigRuns.SendPage | firmware/src/protocol.c:440-455 | a page of the active or a named profile is cut from the complete ordered catalog of its moment |
| ConfigRuns.Run | firmware/src/config.c:189-618 | over any run of operations and pages each page is cut from the complete catalog of its moment, and without writes naming the active profile the patch in memory is the one shown |
| ConfigRuns.CatalogsAgree | firmware/src/config.c:587-618 | moments of equal revision have the same catalog: the active profile's always, a named one's if no flaw moved it in between |
| ConfigRuns.PagesAgree | firmware/src/protocol.c:440-455 | so pages of one run with equal revision are parts of the same catalog |
| ConfigRuns.PagesAgreeExactly | firmware/src/protocol.c:440-455 | across one operation without a new revision a named profile's catalog stays iff the operation's flaw did not move it |
| ConfigRuns.OvertakenExample | firmware/src/config.c:232-257 | a write naming the active profile after which, if no store call failed, the patch in memory is not the visible one |
| PatchCatalog.SortKeys | firmware/src/config.c:524-532 | the array becomes a sorted permutation of itself |
| PatchCatalog.SortedStrictly | firmware/src/config.c:524-532 | distinct legal keys sorted by rank are strictly ordered by bank and slot |
| PatchCatalog.OneListing | firmware/src/config.c:533-552 | there is one ordered listing of given coordinates |
| CatalogReader.Take | editor/src/lib/patch-catalog.ts:29-38 | a page's items are taken iff the list stays legal and free of duplicates |
| CatalogReader.Turn | editor/src/lib/patch-catalog.ts:27-45 | a page ends the list exactly when it is complete, goes on when it must, or fails |
| CatalogReader.Try | editor/src/lib/patch-catalog.ts:10-47 | one attempt returns the catalog of one moment of the store, or notices a change; it ends |
| CatalogReader.Link.Request | firmware/src/protocol.c:440-455 | a reply of an honest link is the page of the pedal's store at that moment, after any other operations |
| CatalogReader.Link.SameCatalog | firmware/src/protocol.c:440-455 | two replies of equal revision come from the same catalog of distinct legal coordinates |
| CatalogReader.Collect | editor/src/lib/patch-catalog.ts:6-50 | what it completes is the whole catalog of the pedal's store at one moment while it read, though any operations changed the store between pages: the active profile's always, a named one's unless a flaw moved it; an undisturbed pedal is read at once; it ends, and lists each legal coordinate once |
| RuntimeQueue.Runtime.Collect | firmware/src/runtime.c:161-171 | succeeds iff the whole macro decodes and fits, and yields it behind what was collected |
| RuntimeQueue.Runtime.Enqueue | firmware/src/runtime.c:173-183 | all commands, in order, in front or behind, or none, across the wrap |
| RuntimeQueue.Runtime.Act | firmware/src/runtime.c:190-196 | the whole action is queued iff it decodes and fits |
| RuntimeQueue.Runtime.SwitchPatch | firmware/src/runtime.c:441-465 | the patch with on_exit then on_enter ahead of the queue and every gesture reset, or nothing; the queue never refuses after publishing |
| RuntimeQueue.Runtime.Drain | firmware/src/runtime.c:586-597 | at most 32 commands, first in first out; a queue of immediate ones is executed whole |
| RuntimeQueue.Runtime.CollectInput | firmware/src/runtime.c:619-635 | the trigger's commands, a preset slot first, iff they decode and fit |
| RuntimeQueue.Runtime.CheckDoubleTap | firmware/src/runtime.c:671-681 | passes iff both outcomes of a first tap decode and fit and one does something |
| RuntimeQueue.Runtime.ConfigChanged | firmware/src/runtime.c:355-364 | bindings are read anew; a change of the profile ends the queue, any wait and every gesture |
| RuntimeQueue.Runtime.Gesturing | firmware/src/runtime.c:657-717 | anything else going on refuses it; accepted: the switch is tapped as SwitchFsm says and the gesture's commands are queued whole, a momentary one has executed press and release on return; refused: nothing changed |
| RuntimeQueue.Runtime.ActivateSwitch | firmware/src/runtime.c:646-717 | a missing switch or another patch changes nothing; a pending reload of the configuration comes first, then the gesture, whole or not at all |
| RuntimeQueue.MomentaryGesture | firmware/src/runtime.c:692-699 | a momentary gesture's commands are its press followed by its release |
| MidiParser.StripKeeps | firmware/src/midi.c:9-20 | real-time bytes change nothing, wherever they stand |
| MidiParser.ParserInvertsWire | firmware/src/midi.c:9-63 | from every reachable state, messages sent with full or running status and real-time bytes anywhere arrive exactly, except over-long System Exclusive ones |
| MidiParser.DeliversAll | firmware/src/midi.c:9-63 | with bounded System Exclusive messages nothing is missing |
| MidiParser.Parser.FeedByte | firmware/src/midi.c:9-56 | the in-place parser steps as specified and stays in a reachable state |
| MidiParser.Parser.FeedAll | firmware/src/midi.c:58-63 | a buffer is its bytes in turn |
| MidiParser.Encode | firmware/src/midi.c:65-75 | nothing exactly for what is no voice message or has no room, else its wire form |
| MidiOutput.Port.Observe | firmware/src/application.c:44-57 | a change of the connection abandons the queue and starts a new stream |
| MidiOutput.Port.Append | firmware/src/application.c:70-80 | a packet stands behind the queue, across the wrap |
| MidiOutput.Port.Flush | firmware/src/application.c:86-98 | what the board takes is the front of the queue, no more |
| MidiOutput.Outputs.Send | firmware/src/application.c:59-84 | accepted by every connected port, or by none |
| MidiOutput.Run | firmware/src/application.c:44-98 | for each port, delivered and queued bytes are the accepted packets in order since the last change of its connection |
| EventRing.FirstRecord | firmware/src/protocol.c:103-110 | the bytes in the ring read back as the record put in first |
| EventRing.Events.Monitor | firmware/src/protocol.c:88-102 | a record is kept whole or dropped whole |
| EventRing.Events.Take | firmware/src/protocol.c:103-131 | records come out first in first out, whole, across the wrap |
| EventRing.Events.Emit | firmware/src/protocol.c:103-131 | the oldest record, or all thrown away when the monitor is off |
| ProtocolFraming.LineByLine | firmware/src/protocol.c:638-656 | input without a stall asks for one item per non-empty line, in order, too large exactly beyond the buffer |
| ProtocolFraming.Protocol.Session | firmware/src/protocol.c:624-637 | a change of the connection starts over, no change keeps everything |
| ProtocolFraming.Protocol.Feed | firmware/src/protocol.c:638-656 | nothing is taken while a reply is under way, no more after an answered line, and at least one byte otherwise |
| ProtocolFraming.Protocol.ConsumeOutput | firmware/src/protocol.c:660-664 | the transport gets the next bytes of the unit under way |
| ProtocolFraming.Protocol.Stall | firmware/src/protocol.c:669-672 | a stalled line is answered once and the rest of it skipped |
| ProtocolFraming.Protocol.EmitMidi | firmware/src/protocol.c:103-131 | monitored messages are sent in the order they were admitted |
| ProtocolFraming.Protocol.Tick | firmware/src/protocol.c:665-684 | nothing is put inside a reply, and only the timeout while a line is under way |
| ProtocolFraming.Run | firmware/src/protocol.c:638-684 | however input is cut, output drained and ticks interleaved, each item is answered once, in order, and what was sent is a prefix of whole units |
| ProtocolFraming.Serve | firmware/src/protocol.c:638-684 | once all is exchanged and no line stalled, every non-empty line had exactly one answer, in order, and everything sent is whole answers and events |
| SwitchFsm.PollEdges | firmware/src/switch_fsm.c:62-76 | an edge is found exactly when the contact has differed for 5 ms |
| SwitchFsm.PollPlain | firmware/src/switch_fsm.c:24-60 | tap and momentary switches fire on their edges alone |
| SwitchFsm.PollLatched | firmware/src/switch_fsm.c:24-60 | a latch flips on each press, and back on a release exactly after a long hold, firing what it then is |
| SwitchFsm.PollLongPress | firmware/src/switch_fsm.c:49-81 | a short press fires on its release, a long one while held, never both at once |
| SwitchFsm.PollDoubleTap | firmware/src/switch_fsm.c:36-85 | a press in the window of the tap before is a double tap, a tap left alone fires when its window is over |
| SwitchFsm.TapMeans | firmware/src/switch_fsm.c:94-103 | poll, press and release of an idle switch make the one gesture of its mode, an expired first tap fired before it |
| SwitchFsm.PollRecords | firmware/src/switch_fsm.c:62-86 | a poll keeps the accounts of edges, toggles, long presses and taps, its record growing by exactly its triggers |
| SwitchFsm.TapRecords | firmware/src/switch_fsm.c:94-103 | so does a tap, and it gives no first tap up |
| SwitchFsm.Switch.DoPress | firmware/src/switch_fsm.c:24-47 | the in-place press makes the specified state and triggers |
| SwitchFsm.Switch.DoRelease | firmware/src/switch_fsm.c:49-60 | the in-place release makes the specified state and triggers |
| SwitchFsm.Switch.Poll | firmware/src/switch_fsm.c:62-86 | the in-place poll makes the specified state, edge and triggers, and is recorded as returned |
| SwitchFsm.Switch.DoTap | firmware/src/switch_fsm.c:94-103 | exactly an idle switch is tapped, with the gesture's state and triggers, recorded as returned |
| SwitchFsm.Run | firmware/src/switch_fsm.c:24-103 | over any run edges and toggles alternate and match the latch and a press gives at most one PRESS or LONG_PRESS; counted from what was returned, PRESS plus twice DOUBLE_TAP plus pending plus lost taps is the number of presses, none lost by taps alone |
| SwitchFsm.LostTap | firmware/src/switch_fsm.c:78-83 | two polled presses of which one is lost |
| ExpressionPresence.StreakMeans | firmware/src/expression_presence.c:87-93 | the streak is the run of bad probes at the end |
| ExpressionPresence.PresenceMeans | firmware/src/expression_presence.c:87-93 | present means a good probe with fewer than three bad ones since |
| ExpressionPresence.Detector.Tick | firmware/src/expression_presence.c:37-103 | at most the probed jack may be driven and none outside the driving phases; a jack turns absent only disabled or on the last of a full bad streak |
| ExpressionPresence.Run | firmware/src/expression_presence.c:25-103 | the same over any run with the backend failing at any call |

## Left out

- USB, serial, TCP and PICOBOOT transport, port discovery, sleeps: a port is a pedal that may change whenever it is out of our hands.
- SHA-256, ZIP and CRC: the hash is any function, and the verified backup file stays as it was written.
- Progress percentages, messages, version strings and configuration snapshots of an update job: verify_runtime is a call that may fail.
- FirmwareUpdater.Updater.Initialize: one job directory; several unfinished jobs, which the source refuses, are not modelled.
- FirmwareUpdater.Updater.Start: likewise for a directory without records only.
- FirmwareUpdater.Updater.NextRevision: running out of u64 record numbers is an error, as in a build with overflow checks; a release build would wrap.
- The Windows write-through rename is treated like a rename followed by a directory sync.
- The RAM helper and its range checks; its flash access is the sector write of the updater.
- KemperEngine.Kemper.ReceiveName: the trimming of the name to printable text; the method gets the result.
- KemperEngine.Kemper.ReceiveType: the slot types kept for the expression display (VOL, WAH), and late replies to slot type queries, which are gated by generation and settling only.
- KemperEngine.Kemper.ReceiveState: replies later than 1200 ms after their query.
- KemperEngine.Kemper.Run: beyond 2^30 - 1 rig changes the generation number starts over, and a known effect is then only known to carry the current number.
- Morph, tuner, tempo, identity and the connection beacon of the Kemper engine.
- bosun_json_boolean, and character values above 255: a text is a sequence of bytes.
- Creating, renaming and deleting profiles, put_device, and the listing of profiles.
- The JSON text of a page's lines: a page is the list of coordinates, texts and draft flags; the name and linked_to shown are functions of the text.
- ConfigStore.Config.SelectChecked: the runtime's validator may accept or refuse any patch.
- CatalogReader.Collect: deletion of profiles and power loss of the pedal are not among the changes while it reads.
- Directory creation, path length limits and the entry limit of a directory listing.
- ConfigStore.Config.Catalog: a path is a profile and a coordinate, so files named 1.json beside 01.json, which the source lists twice, cannot occur.
- Decoding of a macro's messages: any function from a message to a command.
- RuntimeQueue.Runtime.Drain: which patch a navigation command goes to is arbitrary, and the board may fail to send a command, which only sets an error.
- RuntimeQueue.Runtime.ConfigChanged: the reading of bindings and device settings; the patch and its bindings are handed in as decoded.
- The expression pedal curve, setlists, previews and display of the runtime.
- ProtocolFraming.Protocol.Feed: what a request does is an arbitrary outcome handed in: a reply of bounded length, a reboot request and the monitor's state.
- ProtocolFraming.Protocol.Tick: which editor event or report is due is handed in; its coalescing is not modelled.
- EventRing.Events.Monitor: the rendering of a record as JSON text is any function.
- SwitchFsm.Switch.Poll: the mode is fixed for the life of an object and times do not wrap; resets end a run.
- ExpressionPresence.Detector.Tick: times do not wrap; smoothing and calibration of the pedal.
- CAD, the Stage and Svelte user interfaces, LED colours, packaging.
