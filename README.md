# DarkArchiveWorkflow in Dafny

A model of the core of DarkArchiveWorkflow, a set of Python scripts that
accession files into a dark archive and describe them in a MongoDB
collection of PREMIS-style metadata records. The model covers the following:

- **Accession** (`bin/accession.py`, `accession.py`, `cpmasters.py`). Each
  file of a source directory is copied to a destination and renamed to
  `<uuid>.<ext>`. Its MD5 checksum is compared with the source's. Then a
  record is inserted: the object entity, the arrangement entity with a serial
  number, and six PREMIS events.
- **The CSV batch drivers** around accession. They cover the header check,
  the "arrange:" and "ead:" columns, rejected rows and the error report.
- **The record builders.** These are the `create*Event` builders,
  `initMetadataRecord`, the admin entity (`initAdminMetadataEntity`,
  `updateSerialNumber`) and the metadata utilities (format name, header
  check, EDTF timestamp).
- **The database helpers.** These are insert, delete, `$set` update, the
  highest serial number and the series/sub-series query.
- **Enrichment scripts** that run over the records of a series:
  - `technical.py` parses the output of `identify -verbose` into the
    technical profile;
  - `derivatives.py` converts files with ImageMagick and records a
    migration event;
  - `compliance.py` fills the compliance profile;
  - `admin.py` merges arrangement information into a record.

The world a script sees is passed in and returned by value:

- the file system is a map from paths to bytes;
- the database is a map from `_id` to record;
- uuids, the clock, MD5, the bytes a copy lands and the order of query
  results are oracle functions.

Each script's `main` is a method. It is proved equal to a specification
function of its inputs. The properties the scripts promise are proved as
lemmas about those functions.

Two behaviours of the code are parameters, `Build = AsWritten | Intended`,
wherever the code evidently departs from what its authors meant (see
"## Findings"). `AsWritten` is the code as it stands. Every finding has a
lemma about each build.

The code, not the prose description, is followed where the two differ:

- `createFileCopyEvent` always records a replication, whatever event type it
  is given. `createMsgDigestCalcEvent` always records MD5.
- Move mode removes the destination copy, not the source.
- The package's `getHighestSerialNo` answers 0 for an unknown directory. The
  older scripts answer 1.

`accession.py` at the top level and `bin/accession.py` have the same `main`;
only the form of their exit codes differs. The two `transferFiles` versions
are one engine with `Variant = Current | Legacy`:

- `Legacy` has the inline event helpers and the identifier-assignment event
  made inside `initMetadataRecord`;
- `Legacy` records a digest detail on the fixity event;
- `Legacy` starts from 1 for an unknown directory.

## Model

| member | source | states |
|---|---|---|
| Files.Copy | bin/accession.py:305 | shutil.copy: the destination holds the landed bytes; every other path is unchanged |
| Files.Rename | bin/accession.py:316 | os.rename: the bytes move from the old path to the new one, the old path is gone, every other path is unchanged |
| Files.Remove | bin/accession.py:332 | os.remove: only the path is gone |
| Files.RenameRoundTrip | bin/accession.py:316 | renaming a file there and back restores the file system |
| Files.CopyThenRename | bin/accession.py:305-316 | copy then rename leaves the landed bytes at the unique path and nothing at the preliminary path |
| Files.GlobDetermined | bin/accession.py:242 | sorted(glob(src/*.ext)) is determined by the file system: two strictly increasing listings of the names directly in `src`, not starting with '.' and ending in '.' + ext, are equal |
| Files.CopyThenRemove | bin/accession.py:305-336 | removing a copy that was just created restores the file system |
| RecordStore.InsertRecord | metadatautilspkg/dbfunctions.py:95-112 | insert_one returns the new `_id` and adds the record; a duplicate `_id` returns the error code and changes nothing; no record is overwritten and keying by `_id` is kept |
| RecordStore.DeleteRecord | metadatautilspkg/dbfunctions.py:134-148 | the delete succeeds exactly when the `_id` is stored, and then removes only that record; otherwise the process exits |
| RecordStore.InsertThenDelete | metadatautilspkg/dbfunctions.py:95-148 | deleting what was just inserted restores the store |
| RecordStore.DeleteAbsentExits | metadatautilspkg/dbfunctions.py:144-148 | deleting an `_id` that is not stored ends the process |
| RecordStore.UpdateRecord | metadatautilspkg/dbfunctions.py:114-132 | `$set` of top-level fields on the record with that `_id`: the given fields take the given values, every other field and record is unchanged, and the answer is "None" |
| RecordStore.UpdateIdempotent | metadatautilspkg/dbfunctions.py:114-132 | applying the same `$set` twice has the effect of applying it once |
| RecordStore.Fetch | technical.py:267-268 | a query's documents, in the driver's order, are at most as many as the ids it selects |
| RecordStore.FetchNonEmpty | technical.py:267-278 | a query that selects a stored record fetches at least one document |
| RecordStore.SerialValue | metadatautilspkg/dbfunctions.py:172 | int() of a stored serial number: an integer is itself, a digit string its value, anything else raises |
| RecordStore.Matching | metadatautilspkg/dbfunctions.py:162-165 | the records whose originalName the directory name matches as a `$regex` |
| RecordStore.Max | metadatautilspkg/dbfunctions.py:173 | max() of a non-empty collection is an element no other element exceeds |
| RecordStore.HighestSerialNoMeaning | metadatautilspkg/dbfunctions.py:151-173 | getHighestSerialNo: the empty answer when nothing matches; a crash exactly when some match has no integer serial; otherwise a serial of some match that no other match exceeds |
| RecordStore.HighestSerialVariants | dbfunctions.py:78-88 | the older helper answers 1 where the package answers 0 (no match), and both agree whenever something matches |
| RecordStore.FindBySeries | technical.py:267 | find() with series and sub-series conditions selects exactly the stored records whose arrangement holds the given values |
| RecordStore.SelectionRule | technical.py:264-276 | the last query that applies wins: an empty sub-series selects by series alone, an empty series by sub-series alone, otherwise both must match |
| Premis.ProgLang | metadatautilspkg/globalvars.py:81 | PYTHON_VER_STR is "Python " followed by the interpreter version |
| Premis.AgentIdValue | metadatautilspkg/globalvars.py:82 | LNK_AGNT_ID_VAL is PYTHON_VER_STR, "; ", then the script path |
| Premis.IdAssignmentEvent | metadatautilspkg/premis.py:111-140 | an identifier-assignment event carrying its id, time and agent, with one detail recording the assigned `_id`, the UUID v4 algorithm and method |
| Premis.MsgDigestCalcEvent | metadatautilspkg/premis.py:142-168 | a message-digest event whose one detail records the checksum and always MD5, whatever algorithm is passed |
| Premis.FileCopyEvent | metadatautilspkg/premis.py:170-195 | a replication event, whatever event type is passed, whose detail holds source and destination |
| Premis.FilenameChangeEvent | metadatautilspkg/premis.py:197-222 | a filename-change event from the preliminary to the unique path |
| Premis.FixityCheckEvent | metadatautilspkg/premis.py:224-241 | a fixity-check event with no detail; status and checksum arguments are ignored |
| Premis.LegacyFixityCheckEvent | accession.py:523-548 | the older fixity-check event, whose detail records the digest computed at the destination |
| Premis.AccessionEvent | metadatautilspkg/premis.py:243-259 | an accession event with no detail |
| Premis.MetadataExtractionEvent | metadatautilspkg/premis.py:261-285 | a metadata-extraction event recording the method and the extracted metadata |
| Premis.MetadataModificationEvent | metadatautilspkg/premis.py:287-311 | a metadata-modification event recording the metadata before and after |
| Premis.IgnoredArguments | metadatautilspkg/premis.py:142-241 | the arguments the builders ignore (event type, digest algorithm, fixity status and checksum) change nothing in the event |
| Premis.Skeleton | metadatautilspkg/premis.py:63-108 | the skeletal record: the given `_id`, a fresh object entity (UUID identifier, category, empty fixity, size, format name, original name), the arrangement entity of the kept fields, no events |
| Premis.InitMetadataRecord | metadatautilspkg/premis.py:63-108 | initMetadataRecord: the caller's dictionary loses its ""-valued entries and the record is the skeleton built from what remains |
| Premis.InitMetadataRecordWithIdEvent | accession.py:353-427 | the older initMetadataRecord: the same skeleton, whose event list starts with the identifier-assignment event for the new `_id` |
| Premis.WithEvent | bin/accession.py:277 | appending an event adds it at the end of the event list and changes nothing else |
| Premis.AddMsgDigestCalcEvent | accession.py:430-462 | appends the digest event and sets the object's fixity to MD5 and the checksum, changing nothing else |
| MetadataUtils.FileFormatName | metadatautilspkg/metadatautils.py:110-112 | the format name has no '.' and no lower-case letter, and is no longer than the file name |
| MetadataUtils.FormatNameWithoutDot | metadatautilspkg/metadatautils.py:110-112 | a name without a '.' is its own format name, upper-cased |
| MetadataUtils.FormatNameOfUniqueName | metadatautilspkg/metadatautils.py:110-112 | the format name of `<uuid>.<ext>` is the upper-cased extension |
| MetadataUtils.FileFormatVersion | metadatautilspkg/metadatautils.py:115-117 | getFileFormatVersion is a stand-in that answers "" |
| MetadataUtils.IsHeaderValid | metadatautilspkg/metadatautils.py:120-124 | true exactly when the first two columns are "source" and "destination"; raises exactly for an empty header or a lone "source" column |
| MetadataUtils.EdtfTimestamp | metadatautilspkg/metadatautils.py:49-53 | the result starts with the clock time cut at its first '.', and is one character longer than that plus the offset |
| MetadataUtils.EdtfTimestampRoundTrip | metadatautilspkg/metadatautils.py:49-53 | taking the spliced ':' back out gives the whole-second time followed by the offset as strftime produced it |
| MetadataUtils.EdtfTimestampIsIso | metadatautilspkg/metadatautils.py:49-53 | for well-formed clock readings the result is an ISO 8601 date-time with an extended-format UTC offset |
| AdminMeta.NonEmptyFieldsMeaning | lib/adminmetadatautils.py:55-62 | the kept fields are exactly the entries whose value is not "", with their values, and keeping is idempotent |
| AdminMeta.InitAdminMetadataEntity | lib/adminmetadatautils.py:40-69 | the caller's dictionary loses exactly its ""-valued entries; the arrangement entity is the remaining entries plus the serial-number field set to "" |
| AdminMeta.UpdateSerialNumber | lib/adminmetadatautils.py:72-84 | the serial-number field holds the given number; every other field of the record is unchanged |
| Accession.BuildRecord | bin/accession.py:264-318 | the loop body's record up to the filename-change event; the arrangement dictionary loses its ""-valued entries (contents in AccessionProperties.InsertedRecord) |
| Accession.SettleFile | bin/accession.py:320-372 | the checksum comparison and what follows, equal to the step's specification |
| Accession.DiscardFile | bin/accession.py:327-343 | removal of a mismatched copy and of the record, equal to the discard specification |
| Accession.CommitFile | bin/accession.py:344-372 | insert, then move-mode removal, equal to the commit specification |
| Accession.TransferFile | bin/accession.py:259-374 | one iteration of the file loop, equal to the step function; the caller's dictionary keeps only its non-empty entries |
| Accession.CheckedTransfer | bin/accession.py:259-383 | a file that exists: the copy onto itself raises and is caught, any other file is transferred |
| Accession.CopyAndCheck | bin/accession.py:260-374 | record building, copy, rename and check for a file that is not its own destination |
| Accession.TransferFiles | bin/accession.py:192-388 | transferFiles equals its specification: resume point, empty-list report, then the loop |
| Accession.ResumePoint | bin/accession.py:220-237 | a missing destination is created with resume point 0; an existing one resumes from getHighestSerialNo |
| Accession.TransferRemaining | bin/accession.py:257-374 | the loop from the resume point, numbering from `prev + 1`, stopping at the first failure |
| Accession.LoopAdvance | bin/accession.py:259-374 | one turn of the loop: a stopping step ends the loop with its outcome, any other step leads to the loop over the rest |
| Accession.StepDependsOnKeptFields | bin/accession.py:269-271 | a file's step reads the arrangement dictionary only through its non-empty entries, so the popping of "" entries does not change later files |
| AccessionProperties.AccessionEventsStamped | metadatautilspkg/premis.py:111-259 | all six events of a file's record carry the program as linking agent |
| AccessionProperties.AccessionEventsDrawn | bin/accession.py:271-351 | each event has its own uuid and clock reading, in the order the loop draws them |
| AccessionProperties.AccessionEventsOrder | bin/accession.py:276-351 | the event types are identifier assignment, message digest, replication, filename change, fixity check and accession, in that order |
| AccessionProperties.AccessionEventsDetails | bin/accession.py:276-318 | the first event records the `_id`, the second the source checksum, the third and fourth the two legs of the transfer |
| AccessionProperties.InsertedRecord | bin/accession.py:264-353 | the inserted record: `_id` from the uuid, object entity with checksum, size, format name and path, arrangement with the kept fields and the serial number, and the six events |
| AccessionProperties.CommitNextIff | bin/accession.py:353-359 | the insert succeeds, and the loop carries on, exactly when the `_id` is new to the store |
| AccessionProperties.SettleNextIff | bin/accession.py:327-359 | after the rename the loop carries on exactly when the checksums match and the `_id` is new |
| AccessionProperties.TransferNextIff | bin/accession.py:305-359 | for a file that exists the loop carries on exactly when the landed bytes have the source's checksum and the `_id` is new |
| AccessionProperties.StepCommitsIff | bin/accession.py:259-374 | a file's step carries on exactly when the file exists, is not its own destination, the checksums match and the `_id` is new; the record is inserted only after the fixity check |
| AccessionProperties.LandedMeaning | bin/accession.py:305-316 | after copy and rename the preliminary path is gone and the unique path holds the landed bytes; nothing else moves |
| AccessionProperties.LandedAtUnique | bin/accession.py:305-316 | the copy sits at the unique path |
| AccessionProperties.StepSettles | bin/accession.py:260-327 | a file that exists and is not its own destination reaches the checksum comparison with its record and the landed copy |
| AccessionProperties.StepNextRecord | bin/accession.py:344-372 | after a verified copy the store gains exactly the file's record under its fresh `_id`; seven uuids, six clock readings and one copy are drawn |
| AccessionProperties.StepNextFiles | bin/accession.py:344-368 | after a verified copy the file system is the landed one, less the file move mode removes |
| AccessionProperties.SourceRemoved | bin/accession.py:297-301 | removing the source after its copy landed leaves the copy and removes the source and the preliminary path |
| AccessionProperties.DiscardedCopy | bin/accession.py:330-336 | after a mismatch the copy is removed and both destination paths are empty again |
| AccessionProperties.CopyModeKeepsSource | bin/accession.py:305-372 | copy mode: the unique path holds bytes with the source's checksum and the source is untouched |
| AccessionProperties.MoveAsWrittenDropsCopy | bin/accession.py:361-368 | move mode as written: the verified copy is removed and the source stays, while the store records the file at its unique path |
| AccessionProperties.MoveIntendedMovesSource | bin/accession.py:297-301 | move mode as intended: the verified copy stays at its unique path and the source is removed |
| AccessionProperties.SettleMismatch | bin/accession.py:327-343 | a copy whose checksum differs from the source's is discarded |
| AccessionProperties.DiscardWithoutRecord | bin/accession.py:330-343 | a discarded copy when no record has the `_id`: as written the process exits, as intended the mismatch is reported; the store is unchanged |
| AccessionProperties.MismatchAsWrittenExits | bin/accession.py:338-339 | a checksum mismatch as written: the copy is removed and deleteRecordFromDB ends the process, since no record was inserted |
| AccessionProperties.MismatchIntendedReports | bin/accession.py:341-343 | a checksum mismatch as intended: the copy is removed, the store is unchanged, and the run stops with False and the mismatch comment |
| AccessionProperties.SettleMatch | bin/accession.py:344-353 | a copy whose checksum matches goes on to the insert of the completed record |
| AccessionProperties.CommitDuplicate | bin/accession.py:353-359 | an insert under an `_id` already stored stops the run and changes nothing in the store |
| AccessionProperties.InsertFailureStops | bin/accession.py:353-359 | a failed insert stops the run with "DB Insert operation not successful." and leaves the verified copy at its unique path, in move mode too |
| AccessionProperties.SettleStopFails | bin/accession.py:327-359 | neither a discarded copy nor a failed insert reports success |
| AccessionProperties.StepStopFails | bin/accession.py:327-383 | a step that stops the loop never reports success |
| AccessionProperties.AccessionRecordNames | bin/accession.py:348 | the record's `_id` is the uuid drawn, its originalName is the file and its serial number is the one given |
| AccessionProperties.RunSuccess | bin/accession.py:257-388 | for any step that stops only with a failure and records every file it passes: a successful run's comment counts every file, the k-th recorded with serial `serial + k`, and earlier records are kept |
| AccessionProperties.StepOfStopsFailing | bin/accession.py:327-383 | the engine's step stops only with a failure |
| AccessionProperties.StepRecorded | bin/accession.py:344-372 | a step that carries on records its file |
| AccessionProperties.StepOfRecords | bin/accession.py:344-372 | every step of the engine that carries on records its file |
| AccessionProperties.LoopSuccess | bin/accession.py:257-388 | a loop that reports success transferred every file: "Success. N out of M files transferred", the k-th file recorded with serial `serial + k`, earlier records kept |
| AccessionProperties.NoFilesFound | bin/accession.py:247-255 | an empty file list ends with False and "No files found with extension '<ext>'!", copying and inserting nothing |
| AccessionProperties.FreshDestination | bin/accession.py:222-232 | a destination that does not exist is created and every file is transferred, numbered from 1 |
| AccessionProperties.ExistingDestination | bin/accession.py:234-259 | an existing destination resumes after the highest recorded serial: the files before that place in the list are skipped and numbering carries on |
| AccessionProperties.ResumeSkipsFirstNames | bin/accession.py:234-259 | over glob's sorted listing, the files skipped on a resume are the first names: each of them sorts before every file transferred |
| AccessionProperties.RecordedDirectoryIsSkipped | bin/accession.py:257-259 | a directory whose files are all recorded transfers nothing and reports "Success. 0 out of M files transferred" |
| AccessionProperties.CurrentEmptyDirectoryStartsAtOne | metadatautilspkg/dbfunctions.py:167-170 | the package version with no record of the source directory transfers every file, numbered from 1 |
| AccessionProperties.LegacyEmptyDirectorySkipsFirst | dbfunctions.py:84-85 | the older version with no record of the source directory skips the first file and numbers from 2 |
| AccessionProperties.ResumeCrashes | bin/accession.py:222-235 | the run crashes before any file when the destination cannot be created (the handler names an undefined `row`) or a matching record's serial is not an integer |
| Columns.Marked | bin/accession.py:94-96 | the marked columns are header columns that start with the marker, never more than the header |
| Columns.MarkedComplete | bin/accession.py:94-96 | no header column starting with the marker is missed |
| Columns.TagsOf | bin/accession.py:94-97 | one tag per arrange: column, numbered in header order, the k-th tag computed from the k-th marked column |
| Columns.TaggedKeys | bin/accession.py:146-149 | the arrangement dictionary of a row has exactly the tags as keys |
| Columns.TaggedLastWins | bin/accession.py:148-149 | when two columns share a tag, the dictionary keeps the value of the last one |
| Columns.RejectedRow | bin/accession.py:112-115 | the error entry of a short row is the row itself, padded, ending in "Not a valid input" |
| Columns.RejectedCommentMisaligned | bin/accession.py:114 | as written the pad is one short: the comment lands in column minNumCols - 1, not under "Comments" |
| Columns.RejectedCommentAligned | bin/accession.py:114 | with the pad minNumCols - len(row) the comment lands under "Comments" |
| Columns.Long | bin/accession.py:111-117 | the rows kept for transfer are rows of the file with at least minNumCols columns |
| Columns.Rejections | bin/accession.py:111-118 | every row of the file is either kept or rejected, never both, never neither |
| Columns.SplitRows | bin/accession.py:110-118 | the row-reading loop puts exactly the long rows, in order, in the transfer list and exactly the short rows' entries in the error list |
| Columns.NameOrLabelTagOf | admin.py:89-92 | the tag of "arrange:X" is X when the column mentions "name", X + "Label" otherwise |
| Columns.NameOrLabelTags | admin.py:84-93 | the header loop of the admin and technical runs yields the tags of the arrange: columns in order |
| Columns.ArrangementInfo | admin.py:134-137 | the dictionary loop yields the tag-to-column dictionary, or fails (IndexError) when the row is shorter than the tags |
| Batch.CheckHeader | bin/accession.py:83-88 | the run goes on exactly when there is a first row whose first two columns are the source and destination names; it raises when isHeaderValid returns nothing |
| Batch.ArrangementTags | bin/accession.py:91-97 | the header loop numbers the arrange: columns and tags each X + "Label" |
| Batch.ArrangementInfo | bin/accession.py:146-149 | the dictionary of a row maps each tag to the column after source and destination |
| Batch.ProcessTransfers | bin/accession.py:142-170 | the transfer loop equals the row-by-row specification: missing source reported, failed transfer reported with its comment, a crash ends the run |
| Batch.RunBatch | bin/accession.py:68-189 | batch mode equals its specification: bad header exits, header + "Comments" starts the error list, short rows rejected, the rest transferred |
| BatchProperties.SourceMissingReported | bin/accession.py:154-160 | a row whose source directory does not exist is reported "Source does not exist" and changes nothing |
| BatchProperties.RecordedRowAddsNothing | bin/accession.py:162-170 | re-running a row whose files are all recorded adds nothing to the error list and changes nothing |
| BatchProperties.EmptySourceReported | bin/accession.py:162-170 | a source directory without files of the extension is reported with the "No files found" comment |
| BatchProperties.RowsErrorList | bin/accession.py:142-170 | the transfer loop keeps the error list it was given and adds at most one entry per row |
| BatchProperties.FinishedErrorList | bin/accession.py:100-118 | a finished batch's error list starts with the header + "Comments", then the short rows' entries, with at most one entry per row |
| BatchProperties.BatchFinished | bin/accession.py:100-170 | a finished batch's error list is the header, the rejected rows, then at most one entry per transferred row |
| BatchProperties.ShortRowWritesReport | bin/accession.py:173 | a batch with a short row always writes the error report (the list holds more than the header) |
| CpMasters.EventType | cpmasters.py:312-315 | the event type is "migration" exactly for a move, "replication" for a copy |
| CpMasters.TransferFiles | cpmasters.py:243-332 | transfer_files equals its specification: no files fails with "No files found", each file copied or moved to a fresh ObjectId path, a mismatch stops the run, success says "N out of N" |
| CpMasters.TransferFile | cpmasters.py:262-318 | one turn of the loop equals the step specification for that file |
| CpMasters.CheckHeader | cpmasters.py:391-404 | the header is accepted exactly when there is a first row and every column is "Source", "Destination" or starts with "ead:" |
| CpMasters.EadTags | cpmasters.py:412-417 | the header loop numbers the ead: columns, tagging each with the text after its last ':' |
| CpMasters.EadData | cpmasters.py:475-478 | the EAD dictionary of a row maps each tag to the column after source and destination |
| CpMasters.ProcessRows | cpmasters.py:420-518 | the batch run equals its specification: the error list starts with the header + "Comments" and every row is handled in order |
| CpMastersProperties.NoFilesReported | cpmasters.py:251-259 | an empty file list fails with "No files found with extension ..." and changes nothing |
| CpMastersProperties.StepNextIff | cpmasters.py:262-318 | a file is committed exactly when it exists, is not copied onto itself, the bytes that landed have the source's MD5 and its ObjectId is new |
| CpMastersProperties.StepNextState | cpmasters.py:195-223 | a committed file adds exactly one record under its ObjectId, with source, unique destination, source checksum, "MD5" and the EAD info; a move removes the source and a copy leaves it |
| CpMastersProperties.MismatchLeavesCopy | cpmasters.py:299-304 | a checksum mismatch stops with "Error: Checksum mismatch!", leaves the landed file and records nothing |
| CpMastersProperties.StopNeverSucceeds | cpmasters.py:299-327 | a step that stops never reports success |
| CpMastersProperties.RunSuccess | cpmasters.py:262-332 | for any step that fails when it stops and records what it commits, a successful run has committed every file in order under the drawn ObjectIds and kept every earlier record |
| CpMastersProperties.StepOfMeetsPremises | cpmasters.py:262-318 | the transfer step fails when it stops and records every file it commits |
| CpMastersProperties.TransferSuccess | cpmasters.py:246-332 | a successful transfer had a non-empty file list and committed every file of it, the k-th under the k-th ObjectId drawn, with "N out of N" |
| CpMastersProperties.HeldByName | cpmasters.py:262-332 | every file of a fully committed list is held under the ObjectId of its place in the list |
| CpMastersProperties.GlobHeld | cpmasters.py:246-332 | over glob's listing, every file of the directory with the extension is held under the ObjectId of its place in name order |
| CpMastersProperties.GlobTransferSuccess | cpmasters.py:246-332 | over glob's sorted listing, a successful transfer holds every file of the source directory with the extension, under the ObjectId of its place in name order |
| CpMastersProperties.ShortRowRejected | cpmasters.py:467-489 | a row shorter than 2 + the ead: columns goes to the error list unchanged and nothing happens |
| CpMastersProperties.UnusableDirectoryRejected | cpmasters.py:492-508 | a row whose source is missing, or whose destination cannot be created, goes to the error list unchanged |
| CpMastersProperties.FailedTransferReported | cpmasters.py:510-518 | a failed transfer reports its row with the comment appended; a crash ends the run; success adds nothing |
| CpMastersProperties.RowsErrorList | cpmasters.py:467-518 | the error list keeps what it held and grows by at most one entry per row |
| CpMastersProperties.ShortRowWritesReport | cpmasters.py:522 | a batch with a too-short row always writes the error report |
| TechnicalProfile.ImageShellShape | metadatautilspkg/technical.py:144-164 | the image entity holds the ten fixed keys always and each optional key exactly when its flag is set, every value an empty object |
| TechnicalProfile.ScannerShellShape | metadatautilspkg/technical.py:169-175 | the scanner entity holds make, model and software exactly when each is flagged |
| TechnicalProfile.TechShellShape | metadatautilspkg/technical.py:141-186 | the technical entity holds the image entity and scan date-time always, the scanner entity iff any scanner flag is set, and rows-per-strip, endian and orientation iff flagged, and nothing else |
| TechnicalProfile.CreateTechnicalProfile | metadatautilspkg/technical.py:129-186 | the profile is a single technical entity shaped by the flags |
| TechnicalProfile.ShellDeterminesFlags | metadatautilspkg/technical.py:129-186 | the flags can be read back off the shell: different flags give different shells |
| TechnicalProfile.IsFileHeaderValid | metadatautilspkg/technical.py:89-96 | the header is valid exactly when it is non-empty and its first column is the configured column name |
| TechnicalParse.StripSpaces | technical.py:79-80 | strip(" ") leaves a text that neither starts nor ends with a space |
| TechnicalParse.StripSpacesIdempotent | technical.py:79-80 | stripping twice is stripping once |
| TechnicalParse.NonBlank | technical.py:63-64 | the lines kept are exactly the non-empty ones |
| TechnicalParse.RemoveBlanks | technical.py:63-64 | the loop removing '' until none is left keeps exactly the non-empty lines, in order |
| TechnicalParse.KeyValueOf | technical.py:78-80 | a line "k: v" with no other ": " unpacks into k and v stripped of spaces |
| TechnicalParse.KeyValueShape | technical.py:78-80 | conversely a line that unpacks is two parts without ": " joined by ": " |
| TechnicalParse.DictSome | technical.py:76-81 | the dictionary is built exactly when every line unpacks; otherwise the unpacking raises |
| TechnicalParse.DictLastWins | technical.py:76-81 | a key holds the value of its last line |
| TechnicalParse.DictLastEntry | technical.py:76-81 | every key of the dictionary comes from a line and holds the value of the last line with that key |
| TechnicalParse.ToDict | technical.py:76-81 | the loop builds that dictionary, or raises at the first line that does not unpack |
| TechnicalParse.Unpack | technical.py:78-80 | one unpacking is the model's unpacked form of that line |
| TechnicalParse.CheckImageMagick | technical.py:59-94 | the version check equals its specification: blank lines dropped, a line without ": " exits, the dictionary built, "Version" must mention ImageMagick |
| TechnicalParse.VersionInstalled | technical.py:76-94 | the check accepts exactly the last "Version" value when it mentions ImageMagick, and raises exactly when every line has ": " but one does not unpack |
| TechnicalParse.WithSeparator | technical.py:301-304 | the lines kept are exactly those holding ": " |
| TechnicalParse.SeparatorLines | technical.py:301-304 | the loop keeps exactly those lines, in order |
| TechnicalParse.ReadProperties | technical.py:298-314 | the parse of identify -verbose equals its specification: keep the ": " lines, squeeze ":  ", unpack into a dictionary |
| TechnicalParse.PropertiesSome | technical.py:306-314 | the properties exist exactly when every squeezed line unpacks |
| TechnicalParse.TwoSpaceLineAsWrittenRaises | technical.py:306 | as written a line "key:  value" loses its ": " when squeezed, and the unpacking raises |
| TechnicalParse.TwoSpaceLineIntendedParses | technical.py:306 | squeezing to ": " the same line yields the property key -> value |
| TechnicalFields.SplitChars | technical.py:326 | re.split on a character class yields at least one part |
| TechnicalFields.FirstIn | technical.py:326 | the first separator position: nothing before it is a separator |
| TechnicalFields.SplitCharsHead | technical.py:326-328 | the first part is the text before the first separator; a second part exists exactly when a separator does |
| TechnicalFields.PairMeaning | technical.py:325-331 | width and length (or x and y resolution) are the texts around the first separator; without the property both are ''; without a separator the indexing raises |
| TechnicalFields.FileNames | technical.py:317-323 | without 'filename' both names are '' |
| TechnicalFields.FileNamesMeaning | technical.py:317-320 | with 'filename' the name is the text after the last '/' and the stem that name up to its first '.' |
| TechnicalFields.DepthOf | technical.py:333-342 | a depth mentioning 8 is GrayScale, one mentioning 24 but not 8 is 24-bit color, any other '' |
| TechnicalFields.CompressionOf | technical.py:344-349 | a compression is kept exactly when it mentions None (or already reads CCITT group 4), otherwise it becomes CCITT group 4 |
| TechnicalFields.PhotometricAsWrittenRaises | technical.py:357-361 | as written a photometric interpretation with neither RGB nor black makes '4' - 3 raise |
| TechnicalFields.PhotometricIntended | technical.py:351-369 | computed on numbers the samples per pixel are 1, 3 or 4 and the extra samples are those beyond 3 |
| TechnicalFields.LeadingSpaces | technical.py:441 | the whitespace run `\s+` takes: every character before it is whitespace and the one after it is not |
| TechnicalFields.FirstSpace | technical.py:441 | the first whitespace position: nothing before it is whitespace |
| TechnicalFields.SplitTimestamp | technical.py:441 | the cut of a timestamp into the six directives' texts and the whitespace run, which reassemble into the text |
| TechnicalFields.ParseTimestamp | technical.py:441 | strptime with '%Y:%m:%d %H:%M:%S' yields only dates and times the datetime constructor accepts |
| TechnicalFields.JoinSplits | technical.py:441 | texts the directives' patterns accept, joined by ':' and a whitespace run, are cut back into the same texts |
| TechnicalFields.SplitDateJoin | technical.py:441 | once the year is cut off, accepted month, day and time texts are cut back at the next ':' into the same texts |
| TechnicalFields.SplitDayJoin | technical.py:441 | once year and month are cut off, an accepted day text, whitespace run and time texts are cut back into the same texts |
| TechnicalFields.ParseMeaning | technical.py:441 | strptime converts a text exactly when it is made of texts each directive accepts (%Y four digits, the others one or two, the day also ' ' and a digit), joined by ':' and any whitespace run, and they denote a real date and time (year 1-9999, day within its month, second at most 59); it yields their values |
| TechnicalFields.Pad2 | technical.py:442 | strftime's two-digit fields are two digits that denote the number |
| TechnicalFields.Pad4 | technical.py:442 | strftime's %Y is four digits that denote the year |
| TechnicalFields.EdtfTimestamp | technical.py:439-446 | the EDTF timestamp is the 19-character date and time followed by the clock's offset written +hh:mm |
| TechnicalFields.EdtfRoundTrip | technical.py:439-446 | the conversion loses nothing: the date is separated by '-', the time by 'T', and read back as a TIFF timestamp strptime yields the same date and time |
| TechnicalFields.NumberTexts | technical.py:441 | a number written in two digits or without leading zeros is accepted by the pattern of every directive whose range holds it, and denotes the number |
| TechnicalFields.ParseFull | technical.py:441 | strptime reads back every valid date and time written in full, with any whitespace run between date and time |
| TechnicalFields.ParseUnpadded | technical.py:441 | strptime reads back every valid date and time written without leading zeros |
| TechnicalFields.ScanSameInstant | technical.py:439-446 | "2020:1:5 3:4:5" and a full timestamp with any whitespace run are converted to the same EDTF text as the plain full form |
| TechnicalFields.ExtractRaises | technical.py:317-469 | extraction raises exactly when geometry or resolution has no separator, the photometric raises as written, or strptime refuses the timestamp |
| TechnicalFields.ExtractFlagged | technical.py:389-483 | an optional field is set only when its property exists, so its flag puts a key for it in the shell |
| TechnicalFields.SetSlotAt | technical.py:488-536 | one assignment puts its value at its place and leaves every other place as it was |
| TechnicalFields.FillAt | technical.py:488-536 | after the assignments every place holds its non-empty field, and a place with only empty fields is as the shell had it |
| TechnicalFields.FillKeys | technical.py:488-536 | assignments to places the shell has add no key |
| TechnicalFields.TechDocFields | technical.py:486-536 | each non-empty field sits at its place in the record, an empty one leaves the shell's value |
| TechnicalFields.EntriesInShell | technical.py:472-483 | with the flags built from the properties, every field that is set has its place in the shell |
| TechnicalFields.TechDocFlags | technical.py:472-536 | the record keeps the shell's keys, so the flags read back off it are those it was built from |
| Technical.DocStepStopsOnTechnical | technical.py:280-284 | a document that already has a technical entity ends the run with the store unchanged |
| Technical.DocStepSkips | technical.py:286 | a document whose fourth event is not a filename change is passed over and nothing changes |
| Technical.TechnicalOfFlags | technical.py:472-486 | the technical entity built records the flags of the image's properties |
| Technical.StoreExtraction | technical.py:541-545 | the two updates set the technical entity on the document's record and write the document back with the extraction event last; no other record changes |
| Technical.DocStepStores | technical.py:286-545 | a file whose stem is the document's id gets its technical entity and exactly one extraction event carrying it; nothing else changes |
| Technical.RerunStops | technical.py:280-284 | visiting a document again after its extraction ends the run: the workflow never extracts twice |
| Technical.DocStepKeys | technical.py:278-545 | a visit never adds or removes a record and counts at most one extraction |
| Technical.DocsKeys | technical.py:279-545 | the loop over the records never adds or removes a record |
| Technical.VisitDocs | technical.py:279-545 | the loop over the selected records equals its specification |
| Technical.VisitDoc | technical.py:280-545 | one visit equals the visit specification |
| Technical.RowNotFound | technical.py:264-278 | a row ends the run with the cannot-find-document exit exactly when its series and sub-series select no record, and then only the error list and its report change |
| Technical.ProcessRow | technical.py:173-186 | one turn of the row loop equals the row specification |
| Technical.ProcessRows | technical.py:173-186 | the row loop equals its specification, stopping at the first row that ends the run |
| Technical.ReadRowsKept | technical.py:143-151 | the rows kept are exactly the long rows, in order; reading touches no record |
| Technical.ReadCsvRows | technical.py:143-151 | the reading loop equals its specification |
| Technical.Run | technical.py:56-186 | main equals its specification: version check, arguments, CSV, header, rows |
| Technical.ReadCsv | technical.py:112-186 | main once the CSV is open equals its specification |
| Technical.FailKeepsPrefix | technical.py:188-206 | every error report written is the error list at that moment |
| Technical.RowStepFacts | technical.py:173-186 | one row keeps the records and keeps every report a prefix of the error list |
| Technical.RowsFacts | technical.py:173-186 | over all rows no record is added or removed and the error list only grows |
| Technical.ReadRowsFacts | technical.py:143-151 | reading the rows only grows the error list and keeps every report a prefix of it |
| Technical.CsvFacts | technical.py:116-186 | after the header no record is added or removed and every report is a prefix of the list |
| Technical.RunFacts | technical.py:56-206 | a run never adds or removes a record, and every error report written is a prefix of the final error list |
| Technical.ShortRowAsWrittenUnreported | technical.py:145-148 | as written a short row goes to the admin error list, so the report errorCSV writes holds only the header |
| Technical.ShortRowIntendedReported | technical.py:145-148 | appending to the technical error list, the report holds the row with "Not a valid input" |
| Technical.NotInstalledExits | technical.py:83-94 | ImageMagick missing: one report with the message and exit e19, nothing else changes (with the error list defined; see "## Left out") |
| Compliance.ComplianceTags | compliance.py:84-90 | the header loop numbers the compliance columns and tags each with the text after its last ':' plus the suffix |
| Compliance.ComplianceInfo | compliance.py:133-136 | the dictionary of a row maps each tag to the column after series and sub-series |
| Compliance.RowProfileLeaves | compliance.py:239-258 | with every key present, the built profile is the compliance entity holding the row's value at each of its leaves |
| Compliance.DuplicateRows | compliance.py:231-234 | one error row per selected record that already had a profile, each the "already updated" message |
| Compliance.VisitOne | compliance.py:230-260 | one turn: a record with a profile adds an error row and sets the flag; one without gets the profile, unless the row lacks a key, which raises before the update |
| Compliance.VisitLoop | compliance.py:229-260 | the loop over the selected records leaves every pending record with the profile and every other record unchanged, in any order |
| Compliance.VisitAll | compliance.py:229-279 | the visit: a missing key crashes with the store unchanged; otherwise the pending records get the profile, one error row per other record, and as written the run raises unless some record already had a profile |
| Compliance.ProcessRecord | compliance.py:195-293 | processRecord equals its specification on the selected records |
| Compliance.NoMatchNotCompleted | compliance.py:269-274 | a row whose series and sub-series match no record reports "Process is not completed" and changes nothing |
| Compliance.OnlyPendingChange | compliance.py:229-260 | a record that already has a profile, or that the row does not select, is never changed |
| Compliance.PendingFilled | compliance.py:236-260 | a selected record without a profile gains the profile and keeps everything else it had |
| Compliance.FilledLeaves | compliance.py:239-260 | each leaf of the stored profile is the row's value for it |
| Compliance.MissingKeyCrashes | compliance.py:239-258 | a row that selects a record without a profile but lacks a compliance key ends the run before any update |
| Compliance.FillKeepsSelection | compliance.py:214-260 | storing profiles changes no arrangement, hence not which records a row selects |
| Compliance.ProcessTwice | compliance.py:229-260 | processing the same row twice leaves the store as the first time made it and reports one error row per selected record |
| Compliance.UnsetFlagCrashes | compliance.py:276 | as written a row whose selected records all lack a profile stores them and then raises on the unassigned errorFlag |
| Compliance.FlagDefaultSucceeds | compliance.py:276-293 | with the flag initialised, a row selecting records succeeds with one error row per record that had a profile |
| Compliance.RowsKeepProfiles | compliance.py:129-148 | over any run of rows a record that has a compliance profile keeps it unchanged |
| Compliance.RowsExtendErrors | compliance.py:129-148 | the error list only grows, every earlier entry kept in place, also when a row ends the run |
| Compliance.ProcessRow | compliance.py:129-148 | one turn of the row loop equals the row specification |
| Compliance.ProcessRows | compliance.py:129-148 | the row loop equals its specification |
| Compliance.Run | compliance.py:59-148 | main in batch mode equals its specification: no or empty header ends the run, short rows rejected, the rest processed |
| Compliance.RunRows | compliance.py:84-148 | past a non-empty header the run equals its specification |
| ComplianceProfile.EntityLeaf | metadatautilspkg/compliancemetadatautils.py:142-168 | the k-th leaf path of the entity leads to the k-th leaf value |
| ComplianceProfile.EntityShape | metadatautilspkg/compliancemetadatautils.py:142-168 | the entity's inner objects and their keys are fixed: record type, retention schedule, disposition and access, each with its authority, url and date fields |
| ComplianceProfile.CreateComplianceProfile | metadatautilspkg/compliancemetadatautils.py:133-170 | the shell is the single compliance entity with {} at every leaf |
| ComplianceProfile.IsFileHeaderValid | metadatautilspkg/compliancemetadatautils.py:96-100 | the header is valid exactly when its first two columns are the expected names; a row too short to index raises |
| Derivatives.ParseSpec | derivatives.py:194-233 | parsed options need a CSV file and a source type; the destination type defaults to the source type and the resize value to the global's; they are never both empty |
| Derivatives.ParseRefusals | derivatives.py:197-233 | the refusals in check order: no arguments (no report), no -f, no -s, and an empty destination type with an empty resize value, and no others |
| Derivatives.ParseCommandLineArgs | derivatives.py:194-233 | the argument handling equals its specification |
| Derivatives.DerivedNameParts | derivatives.py:263-265 | the derivative's stem is the source stem, '_' and the resize value, its extension the destination type, and its stem never the source's |
| Derivatives.GeometryKeepsLesser | derivatives.py:282-285 | of two different resolutions the lesser is kept on its axis and the resize value takes the other; equal ones keep y |
| Derivatives.DeriveFiles | derivatives.py:261-296 | the loop over the files of one listing equals its specification |
| Derivatives.DerivativeRecord | derivatives.py:248-296 | the walk of the directory, listing by listing, equals its specification |
| Derivatives.ProcessRows | derivatives.py:151-162 | the loop over the CSV rows equals its specification |
| Derivatives.RunDerivatives | derivatives.py:55-162 | main equals its specification: ImageMagick check, arguments, CSV header, rows |
| Derivatives.ExistingDerivativeEnds | derivatives.py:267-271 | a derivative already listed beside the file ends the run with its message reported and nothing converted or written |
| Derivatives.DeriveAppendsMigration | derivatives.py:273-296 | a derivation appends one migration event, built from the type, geometry, size and derivative name, to the record named by the stem, changes nothing else, and issues one convert command |
| Derivatives.FileStepAdvances | derivatives.py:261-296 | one file only appends events, commands and reports, and a file that does not end the run writes no report |
| Derivatives.FilesAdvance | derivatives.py:261-296 | the same over the files of a listing |
| Derivatives.WalkAdvances | derivatives.py:260-296 | the same over the walk |
| Derivatives.RowStepAdvances | derivatives.py:151-162 | the same for one CSV row |
| Derivatives.RowsAdvance | derivatives.py:151-162 | the same over all rows |
| Derivatives.RunAppendsOnly | derivatives.py:55-296 | over the whole run every record keeps every field but its events, which only gain; one migration event per convert command; a run reaching the end of the CSV writes no report |
| Derivatives.MissingDirectoryRow | derivatives.py:156-160 | a row naming a missing directory exits with the missing-directory code; as written the message goes to the technical error list; repaired the report holds it |
| Derivatives.RunReachesRows | derivatives.py:55-151 | with ImageMagick installed, arguments parsed and a non-empty header, the run is the loop over the rows from an empty state |
| Derivatives.MissingDirectoryAsWrittenUnreported | derivatives.py:156-160 | as written a missing first directory exits with its code and no report is written at all |
| Derivatives.MissingDirectoryIntendedReported | derivatives.py:156-160 | repaired, the report holding the message is written before the exit |
| Derivatives.SubdirectoryAsWrittenConvertsMissing | derivatives.py:287-296 | as written a file found only in a subdirectory is converted from a path under the top directory, a name the top directory does not hold, so no derivative is produced; its record still gains a migration event naming the derivative |
| Derivatives.TopFilePassedOver | derivatives.py:273-275 | a listed derivative, whose stem names no record, is passed over |
| Derivatives.SubFileConverted | derivatives.py:287-296 | as written the subdirectory's file is converted from and to paths under the top directory, and its record gains the migration event |
| Derivatives.DerivativeBesideSource | derivatives.py:267-291 | repaired, the command names the listed file and writes the derivative beside it, under a name found free in that listing |
| Derivatives.SourceTypeUnused | derivatives.py:260-296 | the source file type plays no part in the walk: files of every type are converted |
| Admin.ReadRule | admin.py:103-111 | with an even number of columns every row is kept and nothing reported; with an odd number none is kept and each row is added to the error list with its comment, one report per row |
| Admin.ReadRows | admin.py:103-111 | the reading loop equals its specification |
| Admin.SelectIgnoresNames | admin.py:197-203 | a column whose tag has no "Label" plays no part in selecting the document |
| Admin.BuildQuery | admin.py:197-200 | the query has one condition per key containing "Label", and no other |
| Admin.MergeCompletes | admin.py:206-217 | a merged document holds every entry of the dictionary, keeps its other arrangement entries and every other field, and a second visit finds it already updated |
| Admin.HasMissingKey | admin.py:209-213 | the flag says exactly whether some key is missing from the document's arrangement |
| Admin.AdminRecord | admin.py:190-229 | adminRecord equals its specification |
| Admin.AdminRecordEnds | admin.py:190-229 | adminRecord never returns: every call ends the run |
| Admin.AdminNotFound | admin.py:197-229 | with the database listing the query's records, a query that selects nothing ends the run with ERROR_CANNOT_FIND_DOCUMENT, reported; one that selects a record visits one of the selected records |
| Admin.AdminRecordChanges | admin.py:205-217 | with the database listing the query's records, at most one record changes, one the query selects, and in it only the arrangement, into which every entry of the dictionary is merged |
| Admin.FirstRowOnly | admin.py:132-142 | only the first kept row is processed: it ends the run |
| Admin.ProcessRows | admin.py:132-142 | the row loop equals its specification |
| Admin.InfoKeys | admin.py:136-137 | the keys of a row's arrangement dictionary are its tags |
| Admin.RunAdmin | admin.py:52-142 | main equals its specification |
| Admin.RunChangesOneRecord | admin.py:52-229 | over the whole run at most one record changes, one the first kept row's query selects, and only in its arrangement |

## Left out

- Reading the CSV file, writing the error reports and logging are not modelled as I/O. The rows are given as values. Quiet mode and message text only printed are left out.
- Compliance.Run: compliance.py rewrites its report from the whole error list after each append (compliance.py:94, 105, 148). The model keeps that error list, at the end of the run and when a row ends it, not each write. `technical.py`, `derivatives.py` and `admin.py` keep every written report as a value in the state. The accession scripts and `cpmasters.py` write one report after their loop, and the model returns the final error list.
- The command-line parsing of the accession scripts (`-e`, `-m`, `-f`) is not modelled; the model starts from the settings it yields. Without `-f`, the parsing in `lib/metadatautils.py` and `utilfunctions.py` reads a `srcDstPair` argument whose definition is commented out, so only batch mode is modelled.
- The label dictionary and the controlled vocabulary are read from JSON files. The model uses fixed label names and leaves out the loading errors.
- The database connection (`init_db`, authentication) is left out. The collection is a map from `_id` to record, always reachable.
- MongoDB query semantics are reduced to the queries the scripts issue: regex on the source path, arrangement equality, `_id` lookup and `$set`. The order of query results is an oracle.
- The clock, uuid and ObjectId generation, MD5, the bytes a copy lands and the subprocess outputs (`identify`, `convert`) are oracle parameters. The output of `convert` is ignored, as the code ignores it.
- Derivatives.DeriveAppendsMigration: derivatives.py:293 calls `createMigrationEvent`, which none of the modules star-imported at derivatives.py:49-53 defines (metadatautilspkg/premis.py among them). As written, the first derivation therefore raises NameError after its convert command. The model takes the event from an oracle of the derivative's fields, as if the function were defined.
- Files written by `convert` do not change the directory listing the walk is already reading.
- Some names the scripts use are defined neither in metadatautilspkg/globalvars.py nor in metadatautilspkg/errorcodes.py. The model takes them as parameters:
  - `ERROR_ADMIN_UPDATED` (admin.py:220) is an option, where `None` ends the run as the AttributeError would;
  - `COMPLIANCE_INFO_MARKER` and `COMPLIANCE_INFO_LABEL_SUFFIX` (compliance.py:88-90);
  - `CSV_TECH_COL_1_NAME` (metadatautilspkg/technical.py:91);
  - `CSV_COM_COL_1_NAME` and `CSV_COM_COL_2_NAME` (metadatautilspkg/compliancemetadatautils.py:97);
  - for the derivatives: the default `resize` (derivatives.py:229), `ERROR_SOURCETYPE` (derivatives.py:216-219), `ERROR_DESTTYPE_RESIZE` (derivatives.py:230-233) and `ERROR_FILE_EXISTS` (derivatives.py:268-271).
- Technical.Run, Admin.RunAdmin, Compliance.Run, Derivatives.RunDerivatives: metadatautilspkg/globalvars.py does not define the per-script lists `technicalErrorList`, `technicalList`, `adminerrorList`, `adminList`, `complianceErrorList`, `complianceList`, `derivativeErrorList` and `derivativeList`. As written, the first `append` to one of them raises AttributeError, before any record is touched: technical.py:71 and :139, admin.py:98, compliance.py:93, derivatives.py:129. The model starts each list empty, as the scripts evidently expect. Every statement about these four scripts, Technical.NotInstalledExits included, describes the run with the lists defined.
- Accession.TransferFiles: `os.path.abspath` (bin/accession.py:214-215, accession.py:662-663) is not applied, and the source and destination directories are used as given. The recorded paths, and the directory name getHighestSerialNo matches, are the code's only when the given paths are absolute.
- Files.GlobDetermined: the file list is a parameter of the transfer. The lemmas that depend on its order or completeness (AccessionProperties.ResumeSkipsFirstNames, CpMastersProperties.GlobTransferSuccess) take as a premise that it is glob's sorted listing. glob's matching is reduced to `*.ext` on names directly in the directory, and sorting compares code points, as Python's `sorted` does on `str`.
- TechnicalFields.ParseTimestamp: `\d` in Python's patterns also matches non-ASCII decimal digits, while the model accepts ASCII digits only.
- TechnicalFields.EdtfTimestamp: the year is written in four digits. For years below 1000 the C library's strftime may write fewer.
- MetadataUtils.FileFormatName: `str.upper()` is modelled on ASCII letters. Python also upper-cases other letters and can lengthen a text (`'ß'` becomes `'SS'`), so the length bound is stated for the model's upper-casing only.
- RecordStore.SerialValue: int() of a text is modelled for non-empty strings of ASCII digits. int() also accepts surrounding whitespace, a sign, underscores between digits and non-ASCII decimal digits; the model treats those texts as raising.
- A document without an `admin` key makes `admin.py` raise KeyError. This is not modelled: every record in the model carries an arrangement.
- Concurrent runs are not modelled: the serial high-water mark is read without a lock, and each run is modelled alone.
- Every record in the model has an `_id`, so the branch of `processRecord` for a record without one (compliance.py:262-267) cannot be taken.
- Python exceptions that the code does not catch (IndexError, KeyError, TypeError, NameError) are one outcome: the run ends. The exception's message is not modelled.
- Permission and disk errors of `shutil` and `os` are modelled only where the model can name their cause: a missing source file, a copy onto itself, a destination directory that cannot be created, a duplicate `_id`. Other I/O failures of a copy are not modelled.
- Exit codes are named values, not numbers. The top-level `accession.py` passes whole error dictionaries to `exit()` where `bin/accession.py` passes their `code` fields; the model does not tell the two apart.
- TechnicalFields.FileNames: its own contract states only the case without the property; the case with it is stated by TechnicalFields.FileNamesMeaning.

## Findings

| source | as written | input that shows it | evidently intended | confidence | as-written member | corrected member |
|---|---|---|---|---|---|---|
| bin/accession.py:361-368 | move mode removes the verified destination copy | any file transferred with `-m` | remove the source file, keeping the copy | not executed | AccessionProperties.MoveAsWrittenDropsCopy | AccessionProperties.MoveIntendedMovesSource |
| bin/accession.py:338-339 | on a checksum mismatch `deleteRecordFromDB` is called for a record never inserted, and it exits | a file whose landed bytes differ from the source | skip the delete and report the mismatch for the row | not executed | AccessionProperties.MismatchAsWrittenExits | AccessionProperties.MismatchIntendedReports |
| dbfunctions.py:84-85 | the highest serial number of a directory with no record is 1 | a first transfer of any directory with the older scripts | 0, so the first file is transferred and numbered 1 | not executed | AccessionProperties.LegacyEmptyDirectorySkipsFirst | AccessionProperties.CurrentEmptyDirectoryStartsAtOne |
| bin/accession.py:114 | short-row padding `minNumCols - len(row) - 1` puts the comment one column left of "Comments" | header `Source,Destination` and the row `a` | pad to `minNumCols - len(row)` | not executed | Columns.RejectedCommentMisaligned | Columns.RejectedCommentAligned |
| compliance.py:276 | `errorFlag` is read when no selected record had a profile, and it was never assigned | a row whose selected records all lack a compliance profile | initialise the flag to False | not executed | Compliance.UnsetFlagCrashes | Compliance.FlagDefaultSucceeds |
| technical.py:306 | `replace(':  ', ':')` removes the separator, and the following split raises | a verbose line `Key:  value` | squeeze to `': '` | not executed | TechnicalParse.TwoSpaceLineAsWrittenRaises | TechnicalParse.TwoSpaceLineIntendedParses |
| technical.py:359-360 | `samplesPerPixel - 3` subtracts an integer from a string | `tiff:photometric: separated` (neither RGB nor black) | compute on the integer value | not executed | TechnicalFields.PhotometricAsWrittenRaises | TechnicalFields.PhotometricIntended |
| technical.py:145-148 | a short row goes to `adminerrorList`, and the technical report never shows it | a CSV row `x` | append to `technicalErrorList` | not executed | Technical.ShortRowAsWrittenUnreported | Technical.ShortRowIntendedReported |
| derivatives.py:156-160 | a missing directory's message goes to `technicalErrorList`, so the report written before the exit does not hold it | a row naming a directory that does not exist | append to `derivativeErrorList` | not executed | Derivatives.MissingDirectoryAsWrittenUnreported | Derivatives.MissingDirectoryIntendedReported |
| derivatives.py:287-288 | the convert paths join the walked top directory with the file name, not the subdirectory the file is in, so convert reads a file that is not there while the record gets a migration event | `top/a_100.png` and `top/sub/a.tif` | join with the walk's current `path` | not executed | Derivatives.SubdirectoryAsWrittenConvertsMissing | Derivatives.DerivativeBesideSource |
