# Custody protocols, bounded paging and recognisers of Beryl

A Dafny model of the parts of Beryl whose correctness is a statement about every run or every input. Beryl is a desktop
shell around conversation runtimes; behind its windows are small protocols that hold on to things whose outcome may stay
unknown, algorithms that answer large questions in small buffers, and recognisers fed in arbitrary fragments.

Each module models one component. Code that changes fields under a lock is a class whose methods are proved equal to a
step function on values; each protocol is then a state machine over those step functions (one step for each critical
section or drop), and its theorems quantify over every run from the initial state. Shared-pointer identity is a natural
number that is never reused, and the stores, clocks, threads and file system answer nondeterministically. For each
protocol the lemmas named `...Answer` then say, in terms of the calls made so far, exactly when a call succeeds and what
it answers otherwise.

| file | component |
|---|---|
| `RootOrder.dfy`, `SetupCatalog.dfy`, `RootPaging.dfy` | runtime and root pages of the setup catalog |
| `ProcessGate.dfy` | the epoch-fenced process admission gate |
| `WindowRegistry.dfy`, `WindowAcquisition.dfy` | window flights, reservations, leases and the repair loop |
| `SelectionGate.dfy` | the gate and the registry together |
| `MarkerSeal.dfy`, `MarkerSealService.dfy` | draft-marker seal flights |
| `Enrollment.dfy` | runtime-activity enrollments of unknown outcome |
| `AdmissionLifetime.dfy` | lifetime of the runtime-admission service |
| `OwnerTransfer.dfy` | transfer of sealed asset sets between owners |
| `LaunchCleanup.dfy` | shutdown of a managed backend launch |
| `ResponseWork.dfy`, `AttentionPool.dfy`, `Autosave.dfy` | revision and notification trackers |
| `Utf8.dfy`, `DiagnosticFrames.dfy` | UTF-8 and bounded line frames |
| `ArgumentBuilders.dfy`, `StringSinks.dfy` | streaming recognisers of tool arguments |
| `MediaRing.dfy` | the media event ring and its polling reader |

`dafny verify dfyconfig.toml` checks the whole project.

## Results that differ from what one might expect

- A sealed asset set does not always have exactly one owner. A historical selection gives a draft the set of a turn item
  that keeps it (`OwnerTransfer.TwoOwners`), and a publication that clears a draft leaves its set without owner
  (`OwnerTransfer.NoOwner`). `OwnerTransfer.OwnersBalance` gives the exact number over every run: transfers never change
  it, and one owner remains one if and only if the drafts that gained the set and the drafts that lost it balance.
- An enrollment attempt can be reported settled twice: two settlements that both pass the identity check before either
  takes the attempt's lock both succeed, because reconciling a resolved handle answers again. `Enrollment.SettledTwice`
  is such a run. The entry itself is removed once; `Enrollment.FirstReportIffFiled` says exactly which settlement is the
  first, `Enrollment.ReportedOnceIff` when an attempt is reported once, and `Enrollment.SettledOnce` that settlements
  which do not overlap do so.
- The six reads of an acceptance are safe because a draft is accepted once. If the other domain admitted a draft twice,
  they could report a state that never was (`OwnerTransfer.FirstStatusTorn`).
- The owner heads alone would admit an acceptance again after its set was selected back into the same draft
  (`OwnerTransfer.AppliedTwice`); only the record of the other domain refuses it then.
- A media reader stops receiving once sequence numbers saturate (`MediaRing.LastSeenIffBelowSaturation`).

Trimming a diagnostic frame gives the payload back only if the payload does not end in a line end itself
(`DiagnosticFrames.TrimmedFrame`). The payloads that are framed are serialised JSON, which never ends in one.

## Model

| member | source | states |
|---|---|---|
| `SetupCatalog.Fetch` | crates/beryl-app/src/runtime_setup_catalog.rs:54-71 | a cursor page is a prefix, of any length up to 32, of the records strictly after the cursor, and `hasMore` holds exactly while records remain |
| `SetupCatalog.Turn` | crates/beryl-app/src/runtime_setup_catalog.rs:54-83 | one turn of a cursor loop delivers the next records and resumes exactly behind them; a page that stalls is an error |
| `SetupCatalog.ForEach` | crates/beryl-app/src/runtime_setup_catalog.rs:85-115 | however the store cuts its pages, the visitor sees every record once, in cursor order, up to its first error |
| `SetupCatalog.FoldAppend` | crates/beryl-app/src/runtime_setup_catalog.rs:54-83 | visiting two stretches of records one after the other is visiting them as one |
| `SetupCatalog.VisitRuntime` | crates/beryl-app/src/runtime_setup_catalog.rs:132-146 | one visited runtime adds one to the total and, inside the page, a row with its exact number of roots; counter overflow is an error |
| `SetupCatalog.RuntimePage` | crates/beryl-app/src/runtime_setup_catalog.rs:117-152 | the page is exactly runtimes `start..start+count` with their root counts and the exact total; every bound, overflow and failure case is told apart |
| `SetupCatalog.RuntimeRowsExact` | crates/beryl-app/src/runtime_setup_catalog.rs:117-152 | the rows of a runtime page are positions `start..end` of the runtimes, each with its own number of roots |
| `RootOrder.SortedIsOrdered` | crates/beryl-app/src/runtime_setup_catalog.rs:265-270 | the reference order is strictly sorted when root ids are distinct; what the order is, is said by `RootPaging.PageOrder` |
| `RootOrder.SortedIsPermutation` | crates/beryl-app/src/runtime_setup_catalog.rs:265-270 | sorting keeps exactly the same rows |
| `RootOrder.OrderedUnique` | crates/beryl-app/src/runtime_setup_catalog.rs:265-270 | two sorted row lists with the same members are the same list |
| `RootOrder.ResumeAfter` | crates/beryl-app/src/runtime_setup_catalog.rs:187-220 | the rows after the key of the last skipped row, sorted, are the sorted rows without the skipped prefix |
| `RootOrder.InsertCut` | crates/beryl-app/src/runtime_setup_catalog.rs:190-196 | inserting into the best `limit` rows and cutting again gives the best `limit` rows of all |
| `RootPaging.VisitRoot` | crates/beryl-app/src/runtime_setup_catalog.rs:181-198 | the selection buffer never holds more than `batch` rows after a visit |
| `RootPaging.OfferKeepsBest` | crates/beryl-app/src/runtime_setup_catalog.rs:186-197 | the in-place insertion keeps the buffer equal to the first `batch` sorted matches after the resume key |
| `RootPaging.VisitRootStep` | crates/beryl-app/src/runtime_setup_catalog.rs:181-198 | one visit turns "filter, sort, cut" of the rows so far into the same of one row more, errors included |
| `RootPaging.VisitAllRuntimes` | crates/beryl-app/src/runtime_setup_catalog.rs:175-199 | one whole pass over runtimes and roots equals "filter, sort, cut" of all rows in scope |
| `RootPaging.Pass` | crates/beryl-app/src/runtime_setup_catalog.rs:175-199 | the nested cursor scan computes that pass, whatever the page cuts |
| `RootPaging.ThreadCount` | crates/beryl-app/src/runtime_setup_catalog.rs:224-254 | the exact number of threads of a root, over any paging of the threads |
| `RootPaging.CountRows` | crates/beryl-app/src/runtime_setup_catalog.rs:200-216 | the selected rows with their thread counts, in order, up to the first failure |
| `RootPaging.PassBatch` | crates/beryl-app/src/runtime_setup_catalog.rs:168-199 | a pass resumed after `skipped` rows selects exactly the next `batch` rows of the sorted matches |
| `RootPaging.LastPass` | crates/beryl-app/src/runtime_setup_catalog.rs:168-216 | the pass that ends the loop holds the requested slice, also when the start lies past the end |
| `RootPaging.RootPage` | crates/beryl-app/src/runtime_setup_catalog.rs:154-222 | for every start and every count from 1 to 32 row i of the page is the found row with exactly start + i found rows ahead of it, with its number of threads; rows descend by activity and then by id, what is left out before precedes the first row and what is left out after follows the last; the passes equal filter, sort, slice and count, terminate, and succeed whenever nothing fails to be read, matched or counted |
| `RootPaging.PageOrder` | crates/beryl-app/src/runtime_setup_catalog.rs:154-222 | on every page of the found rows activity falls, or is equal with a rising id, no activity counting as zero; every found row off the page is ahead of its first row or behind its last |
| `RootPaging.MatchesIff` | crates/beryl-app/src/runtime_setup_catalog.rs:272-294 | a row matches if and only if the query is empty or contained in the normalised environment label, executable or path, searched in that order |
| `RootPaging.RootPageByPasses` | crates/beryl-app/src/runtime_setup_catalog.rs:154-222 | the loop of bounded passes equals filter, sort, slice and count |
| `ProcessGate.ProcessAdmissionGate.ExecutionPermit` | crates/beryl-app/src/process_admission.rs:175-185 | a permit carries the current epoch, or none while fenced |
| `ProcessGate.ProcessAdmissionGate.FenceOff` | crates/beryl-app/src/process_admission.rs:198-215 | fencing an open gate takes the next epoch, a fenced one returns a fence of its current epoch, and an exhausted counter is refused |
| `ProcessGate.ProcessAdmissionGate.CloseSettled` | crates/beryl-app/src/process_admission.rs:217-239 | closing fences the gate only at zero admissions |
| `ProcessGate.ProcessAdmissionGate.ReserveFor` | crates/beryl-app/src/process_admission.rs:261-275 | a valid permit adds one admission, with counter overflow refused |
| `ProcessGate.ProcessAdmissionGate.CommitUnder` | crates/beryl-app/src/process_admission.rs:251-259 | a commit is the commit step of the gate; when it passes is said by `ProcessGate.CommitAnswer` |
| `ProcessGate.ProcessAdmissionGate.TryReserveWith` | crates/beryl-app/src/process_admission.rs:124-151 | a reservation is counted only when its own action succeeds |
| `ProcessGate.ProcessAdmissionGate.WithSettledFor` | crates/beryl-app/src/process_admission.rs:310-330 | a publication needs, of the fence's own gate, the current epoch and zero admissions |
| `ProcessGate.ProcessAdmissionGate.ReopenAfter` | crates/beryl-app/src/process_admission.rs:332-345 | reopening needs the same and ends the fence |
| `ProcessGate.ProcessAdmissionGate.DropReservation` | crates/beryl-app/src/process_admission.rs:358-367 | dropping a reservation takes back one admission |
| `ProcessGate.RunInv` | crates/beryl-app/src/process_admission.rs:124-367 | every reachable state of the gate keeps its invariant |
| `ProcessGate.AdmissionsCountReservations` | crates/beryl-app/src/process_admission.rs:261-367 | in every run `admissions` is the number of live reservations, so a drop never underflows |
| `ProcessGate.EpochsGrow` | crates/beryl-app/src/process_admission.rs:198-239 | epochs never fall, and rise over every fence between two states |
| `ProcessGate.PermitLifetime` | crates/beryl-app/src/process_admission.rs:175-285 | a permit validates if and only if the gate was open at every moment since it was issued, over any number of fences and reopenings |
| `ProcessGate.FencedPublication` | crates/beryl-app/src/process_admission.rs:287-345 | every publication and reopening that succeeds happens at zero live reservations, fenced, in its own fence's epoch |
| `ProcessGate.ReopenedOnce` | crates/beryl-app/src/process_admission.rs:287-345 | two successful reopenings have rising epochs, so an epoch is reopened once however its fence was cloned |
| `ProcessGate.FenceDrains` | crates/beryl-app/src/process_admission.rs:198-275 | while fenced no reservation is added |
| `ProcessGate.EpochCountsClosings` | crates/beryl-app/src/process_admission.rs:198-239 | the epoch is one more than the number of times the gate went from open to fenced |
| `ProcessGate.CommitAnswer` | crates/beryl-app/src/process_admission.rs:251-259 | over every run a commit passes if and only if the gate was open at every moment since its permit was issued, and says whether it is fenced or stale otherwise |
| `ProcessGate.ReserveAnswer` | crates/beryl-app/src/process_admission.rs:261-275 | a reservation is granted if and only if the same holds and the counter has room |
| `ProcessGate.PlainAnswer` | crates/beryl-app/src/process_admission.rs:124-239 | the exact answer of entry, reservation under a decision, fencing and settled closing, from `fenced`, the live reservations and the number of closings so far |
| `ProcessGate.FenceAnswer` | crates/beryl-app/src/process_admission.rs:310-345 | a publication and a reopening pass if and only if the gate was fenced at every moment since their fence was raised and no reservation is live |
| `ProcessGate.FencedMoves` | crates/beryl-app/src/process_admission.rs:198-345 | the gate is fenced exactly by a call that raises a fence and opened exactly by a reopening that passes |
| `DiagnosticFrames.ReadBoundedLine` | crates/beryl-app/src/diagnostic_child_protocol.rs:324-363 | for every buffering of the stream one call consumes all up to the first byte 10 or the end, and returns it, or its first `limit` bytes when it is longer |
| `DiagnosticFrames.ReadAll` | crates/beryl-app/src/diagnostic_child_supervisor.rs:692-716 | reading to the end gives exactly the bounded lines of the stream, whatever the chunks |
| `DiagnosticFrames.SplitIsExact` | crates/beryl-app/src/diagnostic_child_protocol.rs:324-363 | the lines put together are the stream, and a newline ends each line but perhaps the last and occurs nowhere else |
| `DiagnosticFrames.FramesReadBack` | crates/beryl-app/src/diagnostic_child_protocol.rs:365-377 | frames written one after the other are read back one by one, each whole |
| `DiagnosticFrames.FrameAnswer` | crates/beryl-app/src/diagnostic_child_protocol.rs:365-377 | a frame is its payload and byte 10, at most 262,144 bytes together |
| `DiagnosticFrames.TrimLineEnd` | crates/beryl-app/src/diagnostic_child_protocol.rs:383-391 | the longest prefix that does not end in byte 13 or 10 |
| `DiagnosticFrames.TrimmedFrame` | crates/beryl-app/src/diagnostic_child_protocol.rs:365-391 | trimming a written frame gives back its payload if and only if the payload does not itself end in a line end |
| `DiagnosticFrames.FramesRoundTrip` | crates/beryl-app/src/diagnostic_child_protocol.rs:324-391 | write, read, trim: each payload comes back as a whole line that trims to it under exactly that condition |
| `DiagnosticFrames.TruncateMessage` | crates/beryl-app/src/diagnostic_child_protocol.rs:393-404 | the longest prefix of whole scalars within 512 bytes |
| `Utf8.FitIsLongest` | crates/beryl-app/src/diagnostic_child_protocol.rs:393-404 | a prefix of scalars fits the limit if and only if it is no longer than the cut |
| `Utf8.BoundaryIsPrefix` | crates/beryl-app/src/diagnostic_child_protocol.rs:393-404 | every character boundary is the end of a whole number of scalars |
| `Utf8.PrefixIsBoundary` | crates/beryl-app/src/diagnostic_child_protocol.rs:393-404 | and every whole number of scalars ends at one |
| `Utf8.DecodeEncode` | crates/beryl-app/src/branch_discussion_dynamic_tools.rs:130-158 | decoding an encoding gives the scalars back (section 3 of RFC 3629) |
| `Utf8.EncodeDecode` | crates/beryl-app/src/branch_discussion_dynamic_tools.rs:130-158 | encoding a decoding gives the bytes back |
| `Utf8.EncodedLength` | crates/beryl-app/src/branch_discussion_dynamic_tools.rs:130-158 | n scalars take between n and 4n bytes |
| `Utf8.EncodeExamples` | crates/beryl-app/src/branch_discussion_dynamic_tools.rs:130-158 | the examples of section 7 of RFC 3629, one for each length |
| `ArgumentBuilders.Recognises` | crates/beryl-app/src/conversation_tools/arguments.rs:55-209 | the one-field object builder accepts an event stream with a result if and only if the stream renders the field, in any fragments, with a value its sink finishes with that result |
| `ArgumentBuilders.AcceptedRenders` | crates/beryl-app/src/conversation_tools/arguments.rs:55-209 | from an accepted stream, the fragments of its name and value |
| `ArgumentBuilders.RenderedAccepts` | crates/beryl-app/src/conversation_tools/arguments.rs:55-209 | every rendering is accepted |
| `ArgumentBuilders.RejectedForGood` | crates/beryl-app/src/conversation_tools/arguments.rs:55-209 | a rejection is never replaced, whatever follows |
| `ArgumentBuilders.WrongRoot` | crates/beryl-app/src/conversation_tools/arguments.rs:55-124 | anything but an object is refused as root, and an empty object for its missing field |
| `ArgumentBuilders.WrongField` | crates/beryl-app/src/conversation_tools/arguments.rs:55-194 | another name is unknown, and a value that is not a string has the wrong shape |
| `ArgumentBuilders.WrongText` | crates/beryl-app/src/conversation_tools/arguments.rs:55-124 | a value that its sink refuses is refused with the reason of the sink |
| `ArgumentBuilders.SecondField` | crates/beryl-app/src/conversation_tools/arguments.rs:161-194 | a second field is a duplicate under the same name and unknown under any other |
| `ArgumentBuilders.WrongOffset` | crates/beryl-app/src/conversation_tools/arguments.rs:126-194 | a fragment that does not go on where the one before ended is refused |
| `ArgumentBuilders.Unclosed` | crates/beryl-app/src/conversation_tools/arguments.rs:55-159 | an object that is not closed misses its field, and nothing may follow one that is |
| `StringSinks.LifecycleOutcomeBuilder.Fragment` | crates/beryl-app/src/lifecycle_dynamic_tools.rs:183-201 | after any fragments bit i of the mask is set if and only if the bytes so far are a prefix of name i |
| `StringSinks.LifecycleOutcomeBuilder.Finish` | crates/beryl-app/src/lifecycle_dynamic_tools.rs:203-217 | finishing yields an outcome if and only if the bytes are exactly its name |
| `StringSinks.LifecycleReads` | crates/beryl-app/src/lifecycle_dynamic_tools.rs:183-201 | the text that the value sink has read is the concatenation of its fragments; `Fragment` ties the mask to that text |
| `StringSinks.LifecycleAccepts` | crates/beryl-app/src/lifecycle_dynamic_tools.rs:129-219 | the whole tool argument is accepted as an outcome if and only if it is the field `outcome` with exactly that name, in any fragments |
| `StringSinks.NameBytes` | crates/beryl-app/src/lifecycle_dynamic_tools.rs:91-99 | the names of two outcomes, byte by byte |
| `StringSinks.MoreNameBytes` | crates/beryl-app/src/lifecycle_dynamic_tools.rs:91-99 | and of the other two |
| `StringSinks.ArgumentNameBytes` | crates/beryl-app/src/lifecycle_dynamic_tools.rs:129-140 | the names of the two arguments, byte by byte |
| `StringSinks.BranchResolutionValueBuilder.Fragment` | crates/beryl-app/src/branch_discussion_dynamic_tools.rs:130-158 | fragments of valid UTF-8 append their text and count its scalars; the byte bound never rejects what the scalar bound admits |
| `StringSinks.BranchResolutionValueBuilder.Finish` | crates/beryl-app/src/branch_discussion_dynamic_tools.rs:160-169 | the text is yielded unless it is empty |
| `StringSinks.ResolutionReads` | crates/beryl-app/src/branch_discussion_dynamic_tools.rs:130-158 | fragments are read if and only if each is valid UTF-8 and the total is at most 65,536 scalars |
| `StringSinks.ChunksDecodeIff` | crates/beryl-app/src/branch_discussion_dynamic_tools.rs:130-158 | fragments are each valid UTF-8 if and only if the whole is and no cut splits a character, and then they read as the whole |
| `StringSinks.SinkRefusals` | crates/beryl-app/src/branch_discussion_dynamic_tools.rs:130-169 | why each value is refused: no such name, a malformed fragment, more than 65,536 scalars, or none |
| `StringSinks.DecodedText` | crates/beryl-app/src/branch_discussion_dynamic_tools.rs:130-158 | the scalars read are exactly the concatenated bytes |
| `StringSinks.ResolutionAccepts` | crates/beryl-app/src/branch_discussion_dynamic_tools.rs:72-169 | the whole tool argument is accepted with a text if and only if it is the field `resolution` with 1 to 65,536 scalars in valid fragments, and the text is their concatenation |
| `MarkerSealService.DraftMarkerSealService.Begin` | crates/beryl-app/src/composer_marker_seal.rs:190-237 | the first critical section of a drive, on the flight vectors, is the begin step of the model; a store that is lost retires the service, and a refused access leaves it alone |
| `MarkerSealService.DraftMarkerSealService.ValidateAccess` | crates/beryl-app/src/composer_marker_seal/access.rs:16-36 | an access to a healthy store is refused exactly outside its lifecycle, or to a candidate while an orphan collides |
| `MarkerSealService.DraftMarkerSealService.FinishDrive` | crates/beryl-app/src/composer_marker_seal.rs:280-336 | the last critical section is the finish step, and a flight that is gone is reported and changes nothing; what the step leaves of the flight is said by `MarkerSeal.FlightIsItsStory` |
| `MarkerSealService.DraftMarkerSealService.MakeOrphan` | crates/beryl-app/src/composer_marker_seal.rs:280-336 | swap-removing a flight and pushing it on the orphans moves exactly that flight |
| `MarkerSealService.DraftMarkerSealService.RetireAll` | crates/beryl-app/src/composer_marker_seal/durability.rs:98-112 | the retirement sweep moves every flight that is not driven, and no other, to the orphans |
| `MarkerSealService.DraftMarkerSealService.EndDisposal` | crates/beryl-app/src/composer_marker_seal/terminal.rs:347-355 | disposal ends exactly when nothing is left |
| `MarkerSeal.PlacesKept` | crates/beryl-app/src/composer_marker_seal.rs:190-336 | one step moves a flight between places and never in or out of all of them |
| `MarkerSeal.RunInv` | crates/beryl-app/src/composer_marker_seal.rs:174-337 | every reachable state of service, calls and captured flights keeps the invariant |
| `MarkerSeal.ExactlyOnePlace` | crates/beryl-app/src/composer_marker_seal.rs:174-337 | in every run of drives, releases, retirement, disposal, capture and rebinding an admitted handle is in exactly one of flights, orphans, captured and completed, and the limit holds |
| `MarkerSeal.CallHoldsFlight` | crates/beryl-app/src/composer_marker_seal.rs:280-336 | a call at work always finds its own flight, marked as driven, so the early return of the last section is never taken |
| `MarkerSeal.OneDriver` | crates/beryl-app/src/composer_marker_seal.rs:190-237 | two calls at work never hold the same flight |
| `MarkerSeal.FinishOrphans` | crates/beryl-app/src/composer_marker_seal.rs:280-336 | a flight that finishes after retirement or with a collision becomes an orphan, flagged exactly when it collided |
| `MarkerSeal.EndedNeverDriven` | crates/beryl-app/src/composer_marker_seal.rs:190-237 | once a flight has a terminal intent no drive of it starts again, also after retirement, capture and rebinding |
| `MarkerSeal.FlightIsItsStory` | crates/beryl-app/src/composer_marker_seal.rs:190-336 | over every run a flight, live, orphaned or captured, has exactly the request it was admitted with and the phase, intent and collision that the calls gave it, through release, retirement, capture and rebinding |
| `MarkerSeal.PhaseIsLastKeep` | crates/beryl-app/src/composer_marker_seal.rs:280-336 | the phase of a flight is that of the last drive that kept it outside retirement, and the first phase if none did |
| `MarkerSeal.FirstIntentWins` | crates/beryl-app/src/composer_marker_seal/terminal.rs:30-171 | the first intent of a flight is its last |
| `MarkerSeal.FailedDriveEnds` | crates/beryl-app/src/composer_marker_seal.rs:280-336 | a failed drive leaves the flight live, resting and in its phase, and exactly an ordinary drive on a healthy store leaves `OperationalFailure` where no intent was |
| `MarkerSeal.OneFlightPerRequest` | crates/beryl-app/src/composer_marker_seal/admission.rs:27-105 | at every moment no two flights in custody, captured ones included, share an operation or a staging area |
| `MarkerSeal.AdmitAnswer` | crates/beryl-app/src/composer_marker_seal/admission.rs:27-105 | a request opens a flight if and only if the service admits, no flight in custody shares its operation or staging area, and there is room; the other answers exactly |
| `MarkerSeal.CoalescedAnswer` | crates/beryl-app/src/composer_marker_seal/admission.rs:27-105 | a request in custody is coalesced with its own flight, and one that only shares is refused |
| `MarkerSeal.DriveAnswer` | crates/beryl-app/src/composer_marker_seal.rs:190-237 | a drive starts if and only if the service serves the call and the flight is live, resting and without intent; the other answers exactly |
| `MarkerSeal.ReleaseAnswer` | crates/beryl-app/src/composer_marker_seal/terminal.rs:30-171 | a release begins under the same access, waits exactly for a drive and conflicts exactly with another intent |
| `MarkerSeal.FinishAnswer` | crates/beryl-app/src/composer_marker_seal.rs:280-336 | what a finish answers is where the flight then is |
| `MarkerSeal.TransferAnswer` | crates/beryl-app/src/composer_marker_seal/recovery.rs:49-204 | where retirement, capture, rebinding and giving back put each flight: rebinding makes all but the collided ones live again |
| `MarkerSeal.LifecycleAnswer` | crates/beryl-app/src/composer_marker_seal/terminal.rs:173-232 | the lifecycle after each call: disposal is over exactly when nothing is left |
| `MarkerSeal.AdmitPlaces` | crates/beryl-app/src/composer_marker_seal/admission.rs:27-105 | admission adds at most one flight, under a fresh serial |
| `MarkerSeal.BindSize` | crates/beryl-app/src/composer_marker_seal/recovery.rs:149-204 | rebinding captured flights creates none |
| `Enrollment.RuntimeActivityEnrollmentOperations.ReserveFor` | crates/beryl-app/src/runtime_activity_enrollment.rs:171-207 | a reservation is the reserve step; when it is granted and what it files is said by `Enrollment.ReserveAnswer` and `Enrollment.AttemptOnRecord` |
| `Enrollment.RuntimeActivityEnrollmentOperations.ReleaseEntry` | crates/beryl-app/src/runtime_activity_enrollment.rs:265-273 | only the entry's own identity removes it |
| `Enrollment.RuntimeActivityEnrollmentOperations.Execute` | crates/beryl-app/src/runtime_activity_enrollment.rs:284-303 | an unknown outcome keeps the entry with its reconciliation, any other releases it |
| `Enrollment.RuntimeActivityEnrollmentOperations.SettleAttempt` | crates/beryl-app/src/runtime_activity_enrollment.rs:87-134 | settling is the check and the settle step; what it reports and removes is said by `Enrollment.SettleAnswer` and `Enrollment.CheckedSettles` |
| `Enrollment.RuntimeActivityEnrollmentOperations.SettleRetiredCandidate` | crates/beryl-app/src/runtime_activity_enrollment.rs:209-263 | whichever entry each turn picks: settled and remaining entries split the original set, success means none remains and the count is the original size, and the loop terminates |
| `Enrollment.RunInv` | crates/beryl-app/src/runtime_activity_enrollment.rs:87-312 | every reachable state keeps the custody invariant |
| `Enrollment.CustodyExact` | crates/beryl-app/src/runtime_activity_enrollment.rs:171-312 | in every run the map stays within capacity, and a runtime's entry is an attempt if and only if that attempt is unexecuted, executing or of unknown outcome |
| `Enrollment.RemovedByItsOwner` | crates/beryl-app/src/runtime_activity_enrollment.rs:265-312 | an entry leaves the map if and only if the step ends the very attempt that filed it |
| `Enrollment.OverForever` | crates/beryl-app/src/runtime_activity_enrollment.rs:87-312 | an attempt that is over stays over |
| `Enrollment.NeverFiledAgain` | crates/beryl-app/src/runtime_activity_enrollment.rs:87-312 | and its entry never returns |
| `Enrollment.FirstReportIffFiled` | crates/beryl-app/src/runtime_activity_enrollment.rs:87-134 | a settlement is the first to report its attempt if and only if the attempt is still filed when its lock is taken, which is exactly when it removes the entry |
| `Enrollment.SettledTwice` | crates/beryl-app/src/runtime_activity_enrollment.rs:87-134 | a run in which two overlapping settlements of one attempt both report success |
| `Enrollment.SettledOnce` | crates/beryl-app/src/runtime_activity_enrollment.rs:87-134 | settlements that do not overlap report each attempt at most once |
| `Enrollment.ReportedOnceIff` | crates/beryl-app/src/runtime_activity_enrollment.rs:87-134 | over a whole run an attempt is reported at most once if and only if every settlement that reported it found it still filed |
| `Enrollment.ReserveAnswer` | crates/beryl-app/src/runtime_activity_enrollment.rs:171-207 | over every run a reservation is granted if and only if it names the home and a generation, no attempt of its runtime is under way and there is room; the refusals exactly, which change nothing |
| `Enrollment.AttemptOnRecord` | crates/beryl-app/src/runtime_activity_enrollment.rs:171-303 | on record of an attempt are the runtime and the generation of its reservation, and a reconciliation if and only if its command ended with an unknown outcome |
| `Enrollment.SettleAnswer` | crates/beryl-app/src/runtime_activity_enrollment.rs:87-134 | a settlement reports if and only if the outcome had stayed unknown and both sources agree, and what it reports is the side they agree on; the refusals exactly, which change nothing |
| `Enrollment.CheckAnswer` | crates/beryl-app/src/runtime_activity_enrollment.rs:87-104 | a check goes on if and only if it names the home and the generation of the reservation and the attempt is not over |
| `Enrollment.PickAnswer` | crates/beryl-app/src/runtime_activity_enrollment.rs:209-263 | a candidate goes on with an entry if and only if it is of the home and of another generation |
| `Enrollment.CheckedSettles` | crates/beryl-app/src/runtime_activity_enrollment.rs:87-134 | a check at that home and generation of a filed attempt of unknown outcome, followed by an agreeing settlement, reports the agreed side and removes the attempt |
| `AdmissionLifetime.Lifetime.EnterWorker` | crates/beryl-app/src/runtime_admission.rs:363-385 | entry is refused by an unsettled cleanup, retirement, an active worker or cancellation; a settled cleanup is forgotten either way |
| `AdmissionLifetime.Lifetime.FinishValidation` | crates/beryl-app/src/runtime_admission.rs:387-410 | a validation error with custody puts its lease under a fresh cleanup on record |
| `AdmissionLifetime.Lifetime.DisposeCleanup` | crates/beryl-app/src/runtime_admission.rs:87-92 | disposal gives up the lease only when it succeeds |
| `AdmissionLifetime.Lifetime.Retire` | crates/beryl-app/src/runtime_admission.rs:196-219 | retirement waits out the worker, and success means no cleanup holds a lease |
| `AdmissionLifetime.RunInv` | crates/beryl-app/src/runtime_admission.rs:87-410 | every reachable state keeps the invariant |
| `AdmissionLifetime.OneWorker` | crates/beryl-app/src/runtime_admission.rs:363-385 | there is at most one live worker and it is the active one |
| `AdmissionLifetime.NoneEntersRetired` | crates/beryl-app/src/runtime_admission.rs:196-219 | after retirement starts no worker enters |
| `AdmissionLifetime.UnsettledStays` | crates/beryl-app/src/runtime_admission.rs:363-410 | an unsettled cleanup stays on record, alone, and nobody enters until it is disposed of |
| `AdmissionLifetime.RetiredForGood` | crates/beryl-app/src/runtime_admission.rs:196-219 | once a retirement returned success there is no worker and no held lease, for good |
| `AdmissionLifetime.EnterAnswer` | crates/beryl-app/src/runtime_admission.rs:363-385 | over every run a worker enters if and only if nobody contends or cancels, no retirement was called, no worker is there and no cleanup holds a lease |
| `AdmissionLifetime.HeldAnswer` | crates/beryl-app/src/runtime_admission.rs:87-410 | which cleanups hold a lease after each call |
| `AdmissionLifetime.RetireAnswer` | crates/beryl-app/src/runtime_admission.rs:196-219 | a retirement wakes with no worker there and returns success if and only if nothing was left to dispose of or its disposal succeeds |
| `ResponseWork.ResponseWorkTracker.BindSession` | crates/beryl-backend/src/response_work.rs:237-253 | a bind that succeeds changes the generation and the revision |
| `ResponseWork.ResponseWorkTracker.RecordResponse` | crates/beryl-backend/src/response_work.rs:255-274 | the revision changes only with the value, and a completed state takes the waker |
| `ResponseWork.ResponseWorkTracker.ReleaseCapability` | crates/beryl-backend/src/response_work.rs:276-296 | one capability less, or the revision lost on underflow; then the waker is taken if complete |
| `ResponseWork.ResponseWorkTracker.RegisterCompletionWaker` | crates/beryl-backend/src/response_work.rs:135-154 | the first registration stores its waker, or takes it at once when already complete; later ones are refused |
| `ResponseWork.EqualRevisionsEqualFacts` | crates/beryl-backend/src/response_work.rs:177-189 | two snapshots of one tracker with equal revisions are equal, through toggles, overflow and underflow |
| `ResponseWork.ValidIffUnchanged` | crates/beryl-backend/src/response_work.rs:191-207 | a revision validates if and only if every snapshot since has been the same |
| `ResponseWork.WokenOnceIffComplete` | crates/beryl-backend/src/response_work.rs:88-154 | only the first waker registered is ever woken, at most once, and it is taken to be woken if and only if some state since its registration was complete |
| `ResponseWork.FactsExact` | crates/beryl-backend/src/response_work.rs:237-296 | the facts are the last response recorded, the last generation bound and the capabilities not yet released; one release too many costs the revision |
| `ResponseWork.RevisionsRise` | crates/beryl-backend/src/response_work.rs:96-98 | revisions never fall and a lost one never comes back |
| `ResponseWork.RegisterAnswer` | crates/beryl-backend/src/response_work.rs:135-154 | a waker is accepted if and only if none was registered before, and handed back at once exactly when the work is complete |
| `ResponseWork.RevisionExact` | crates/beryl-backend/src/response_work.rs:96-98 | the revision is the number of changes, lost exactly by one release too many or by more changes than it can count |
| `ResponseWork.ValidateAnswer` | crates/beryl-backend/src/response_work.rs:191-207 | which revisions validate, and why each other one does not |
| `OwnerTransfer.FirstAcceptance` | crates/beryl-app/src/input_admission.rs:176-194 | an acceptance goes from its draft to the accepted input of the same identity, or idle to its turn item |
| `OwnerTransfer.Promotion` | crates/beryl-app/src/input_admission.rs:222-235 | a promotion goes from an accepted input to a turn item |
| `OwnerTransfer.OldAndNewApart` | crates/beryl-app/src/input_admission.rs:106-150 | heads alone can pass for both the old and the new state if and only if there is nothing to transfer and both are absent |
| `OwnerTransfer.TransferLands` | crates/beryl-app/src/input_admission.rs:65-94 | a command built while commits go on (when it is built is said by `OwnerTransfer.AcceptanceBuilt` and `OwnerTransfer.CommandAnswer`), and then committed, moves exactly its proof from source to destination; before it the state was exactly old, after it exactly new, and building it again says already accepted |
| `OwnerTransfer.BuiltIsProper` | crates/beryl-app/src/input_admission.rs:286-353 | a built command expects the source head of its own proof |
| `OwnerTransfer.StatusIff` | crates/beryl-app/src/input_admission.rs:106-150 | a transfer is old, or new, in a state if and only if the record and the two heads say so |
| `OwnerTransfer.AcceptanceBuilt` | crates/beryl-app/src/input_admission.rs:65-94 | with every read seeing one state a first acceptance builds a command if and only if it is on no record, the source owns its proof under its own name and the destination has no head, or without proof both have none, and that command commits there; the other answers exactly |
| `OwnerTransfer.CommandAnswer` | crates/beryl-app/src/input_admission.rs:286-353 | whatever its three reads see, the command of a transfer is built exactly where its proof was with the source and its destination was free, and refused for the first of these that failed |
| `OwnerTransfer.PromotionBuilt` | crates/beryl-app/src/input_admission.rs:237-284 | with every read seeing one state a promotion is prior or exact as the record and the heads say, and its command is built and commits if and only if it is prior |
| `OwnerTransfer.CommitAnswer` | crates/beryl-state/src/asset/mutation/owner_heads.rs:185-298 | a command commits if and only if the home is at its revision, its transfer is on no record and the two heads are as it expects |
| `OwnerTransfer.ReadsDisagree` | crates/beryl-app/src/input_admission.rs:106-174 | reads that disagree are reported, exactly then |
| `OwnerTransfer.HeadRevisions` | crates/beryl-state/src/asset/mutation/owner_heads.rs:185-298 | a head changes only by a publication of its draft, to another set at the next revision, and a new one has the first |
| `OwnerTransfer.CommitLands` | crates/beryl-state/src/asset/mutation/owner_heads.rs:185-298 | a commit changes the two heads it names and no other |
| `OwnerTransfer.RunInv` | crates/beryl-state/src/asset/mutation/owner_heads.rs:215-262 | over every run of transfers, publications and historical selections each head is filed under its own owner |
| `OwnerTransfer.CommitOwners` | crates/beryl-app/src/input_admission.rs:286-327 | a transfer changes the number of owners of no proof |
| `OwnerTransfer.OwnersBalance` | crates/beryl-app/src/composer_host/publication/execution.rs:424-466 | over every run of transfers, publications and historical selections the number of owners of a proof changes by exactly the drafts that gained it less the drafts that lost it; a proof with one owner has one again if and only if these balance |
| `OwnerTransfer.TwoOwners` | crates/beryl-state/src/asset/historical_input_selection.rs:87-109 | a run after which a turn item and a draft own the same proof |
| `OwnerTransfer.NoOwner` | crates/beryl-app/src/composer_host/publication.rs:445-451 | a run in which a publication leaves a proof without owner |
| `OwnerTransfer.OwnerForward` | crates/beryl-app/src/input_admission.rs:286-353 | a proof that an owner has stays with it or is moved on, only forward, unless that draft itself is cleared or sealed anew; past the draft nothing takes it away |
| `OwnerTransfer.RunHeads` | crates/beryl-state/src/asset/mutation/owner_heads.rs:215-262 | the heads of every run are a run of the asset domain alone |
| `OwnerTransfer.AppliedOnce` | crates/beryl-app/src/input_admission.rs:286-353 | whatever the other domain admits, the heads alone refuse a transfer of a proof that was applied before, unless its destination is an accepted input and its own draft was given the proof again |
| `OwnerTransfer.AppliedTwice` | crates/beryl-app/src/input_admission.rs:286-353 | a run in which the heads alone admit an acceptance twice: accepted, promoted, and selected back into the same draft |
| `OwnerTransfer.ApplicableIff` | crates/beryl-app/src/input_admission.rs:286-353 | some command of a transfer can be applied if and only if its source has the proof and its destination is free |
| `OwnerTransfer.FirstStatusReal` | crates/beryl-app/src/input_admission.rs:106-174 | whatever is committed between the six reads, an acceptance reported old or new was just that when its source was first read |
| `OwnerTransfer.StatusForward` | crates/syndic-storage/src/mutation/admission/accepted.rs:32-37 | over every run an acceptance that is old was old before, and one that is new stays new until it collides |
| `OwnerTransfer.AcceptedAfterDraft` | crates/syndic-storage/src/mutation/admission/accepted.rs:32-37 | an accepted input has a head only once the draft of its identity was accepted |
| `OwnerTransfer.FirstStatusLoose` | crates/beryl-app/src/input_admission.rs:106-174 | for the heads alone, even if the other domain admitted a draft again and again: a report about an idle acceptance, or about one whose accepted input is not promoted between the reads, was true at the first or second read of its source |
| `OwnerTransfer.PromotionStatusLoose` | crates/beryl-app/src/input_admission.rs:237-284 | for the heads alone: a promotion reported prior was prior when the reads began and one reported exact is exact since the source was read again, whatever the other domain admits |
| `OwnerTransfer.FirstStatusTorn` | crates/beryl-app/src/input_admission.rs:106-174 | a run of the heads alone, with a draft accepted twice and promoted twice between the reads, in which an acceptance is reported old though it never was |
| `OwnerTransfer.PromotionStatusReal` | crates/beryl-app/src/input_admission.rs:237-284 | whatever is committed between the five reads, a promotion reported prior was prior when they began, and one reported exact was exact when its status was read |
| `AttentionPool.ProcessLifecycleAttentionPool.ReportAttempt` | crates/beryl-app/src/lifecycle_attention.rs:241-287 | a report is rejected, ignored, counted, refused as repeated, omitted at capacity or admitted, with the diagnostics and revision of each case |
| `AttentionPool.ProcessLifecycleAttentionPool.AcknowledgeToken` | crates/beryl-app/src/lifecycle_attention.rs:215-231 | acknowledging removes the token's record and changes the revision |
| `AttentionPool.ProcessLifecycleAttentionPool.CloseAll` | crates/beryl-app/src/lifecycle_attention.rs:233-239 | closing empties the pool and changes the revision once |
| `AttentionPool.RecordsExact` | crates/beryl-app/src/lifecycle_attention.rs:241-287 | in every run at most 16 records, of distinct attempts of this owner, each of the kind its outcome calls for and counting its reports since admission up to saturation |
| `AttentionPool.DiagnosticsExact` | crates/beryl-app/src/lifecycle_attention.rs:241-287 | the diagnostics count the omitted, repeated and rejected reports up to saturation |
| `AttentionPool.AdmittedOnce` | crates/beryl-app/src/lifecycle_attention.rs:241-287 | no attempt is admitted twice |
| `AttentionPool.DismissedForGood` | crates/beryl-app/src/lifecycle_attention.rs:215-287 | an attempt that was omitted, acknowledged or closed out never has a record again |
| `AttentionPool.NeverReappears` | crates/beryl-app/src/lifecycle_attention.rs:215-287 | an offered attempt without a record stays without one |
| `AttentionPool.ClosedForGood` | crates/beryl-app/src/lifecycle_attention.rs:233-239 | a closed pool stays closed, empty and at its revision |
| `AttentionPool.EqualRevisionsEqualRecords` | crates/beryl-app/src/lifecycle_attention.rs:127-131 | equal available revisions mean equal record lists |
| `AttentionPool.ReportAnswer` | crates/beryl-app/src/lifecycle_attention.rs:241-287 | over every run the first report of an own attempt to an open pool is admitted if and only if there are fewer than 16 records; the other answers exactly |
| `AttentionPool.ReportedRecords` | crates/beryl-app/src/lifecycle_attention.rs:241-287 | a report adds a record only when admitted, and changes no record but the count of its own |
| `AttentionPool.AdmittedRecord` | crates/beryl-app/src/lifecycle_attention.rs:241-287 | an admitted record goes to the end, with the kind of its outcome and one report |
| `AttentionPool.KindTable` | crates/beryl-app/src/lifecycle_attention.rs:173-197 | the kind of record for each outcome and kind of report |
| `AttentionPool.AcknowledgeAnswer` | crates/beryl-app/src/lifecycle_attention.rs:215-231 | an acknowledgement succeeds if and only if its attempt is listed, and takes out that record alone |
| `AttentionPool.TrackAnswer` | crates/beryl-app/src/lifecycle_attention.rs:152-171 | an attempt is taken on exactly while the pool is open |
| `AttentionPool.RevisionExact` | crates/beryl-app/src/lifecycle_attention.rs:127-131 | the revision is the number of changes, and lost exactly when there are more than it can count |
| `WindowAcquisition.RuntimeBackedWindowProcessRegistry.AcquireFlight` | crates/beryl-app/src/window_acquisition.rs:957-979 | a flight is taken unless a lease excludes it, its window is active or 256 are |
| `WindowAcquisition.RuntimeBackedWindowProcessRegistry.ReserveMainWindow` | crates/beryl-app/src/window_acquisition.rs:462-499 | a reservation adds a member under a fresh membership identity, or is refused for the reason found first |
| `WindowAcquisition.RuntimeBackedWindowProcessRegistry.DropMainWindow` | crates/beryl-app/src/window_acquisition.rs:531-543 | dropping one removes the member under a fresh identity |
| `WindowAcquisition.RuntimeBackedWindowProcessRegistry.AdmitSelection` | crates/beryl-app/src/window_acquisition/selection_admission.rs:58-102 | a selection is admitted only over exactly the present members, with no flight and no other lease |
| `WindowAcquisition.RuntimeBackedWindowProcessRegistry.AdmitCloseOf` | crates/beryl-app/src/window_acquisition/close_admission.rs:147-175 | a close is admitted only at the membership of its snapshot and with no other lease |
| `WindowAcquisition.RuntimeBackedWindowProcessRegistry.AcquireInFlight` | crates/beryl-app/src/window_acquisition.rs:628-752 | one repair for each turn before the one that ends the loop, never more than the budget; the end after the loop is not reachable, and only an unknown outcome keeps the flight |
| `WindowAcquisition.RuntimeBackedWindowProcessRegistry.Acquire` | crates/beryl-app/src/window_acquisition.rs:592-608 | an acquisition is refused exactly as its flight is, ends as one of its turns does, and leaves the window active if and only if the outcome is unknown |
| `WindowAcquisition.RuntimeBackedWindowProcessRegistry.Reconcile` | crates/beryl-app/src/window_acquisition.rs:319-346 | a pending reconciliation keeps the flight, any resolution ends it |
| `WindowAcquisition.EndsSays` | crates/beryl-app/src/window_acquisition.rs:628-752 | which outcome a last turn has, for each of its answers |
| `WindowRegistry.RunInv` | crates/beryl-app/src/window_acquisition.rs:934-989 | every reachable state of registry and flights keeps the invariant |
| `WindowRegistry.ActiveIsFlights` | crates/beryl-app/src/window_acquisition.rs:934-989 | the active windows are exactly the windows of live flights, one flight each, never more than 256 |
| `WindowRegistry.LiveFlightBlocks` | crates/beryl-app/src/window_acquisition.rs:319-408 | while a flight lives, through any pending reconciliations, its window cannot take off again |
| `WindowRegistry.MembershipIdentifies` | crates/beryl-app/src/window_acquisition.rs:462-543 | equal membership identities mean equal members |
| `WindowRegistry.SelectionExcludes` | crates/beryl-app/src/window_acquisition/selection_admission.rs:58-166 | a selection lease that validates saw no flight, no close and no change of its windows at any moment since its admission |
| `WindowRegistry.CloseExact` | crates/beryl-app/src/window_acquisition/close_admission.rs:112-194 | a close lease that validates closes exactly the windows of its snapshot |
| `WindowRegistry.TakeOffAnswer` | crates/beryl-app/src/window_acquisition.rs:957-979 | over every run a flight takes off if and only if no lease is held, no flight of its window lives and fewer than 256 do |
| `WindowRegistry.ReserveAnswer` | crates/beryl-app/src/window_acquisition.rs:462-543 | a window is reserved if and only if it is admitted and new, no lease is held and there are fewer than 256; reserving and dropping change just that member |
| `WindowRegistry.SelectIff` | crates/beryl-app/src/window_acquisition/selection_admission.rs:58-102 | a selection is admitted if and only if the residents are the members, each once, the invoking one among them, and nothing else is under way |
| `WindowRegistry.CloseAnswer` | crates/beryl-app/src/window_acquisition/close_admission.rs:112-175 | a close takes its snapshot if and only if the residents are the members, and is admitted if and only if these have not changed and no lease is held |
| `WindowRegistry.SelectionValidIff` | crates/beryl-app/src/window_acquisition/selection_admission.rs:105-166 | a selection lease goes on validating if and only if it is not dropped and no window leaves |
| `WindowRegistry.CloseValidIff` | crates/beryl-app/src/window_acquisition/close_admission.rs:112-194 | and so does a close lease |
| `SelectionGate.RunInv` | crates/beryl-app/src/window_acquisition/selection_admission.rs:58-102 | every reachable state of gate, registry and leases keeps the invariants of both and the hold of each lease on both |
| `SelectionGate.LeaseBars` | crates/beryl-app/src/window_acquisition/selection_admission.rs:58-102 | while an unretired selection lease lives no closing, settled publication or reopening of the process passes, no flight and no close lease exists, and there is no second lease |
| `SelectionGate.LeaseStays` | crates/beryl-app/src/window_acquisition/selection_admission.rs:105-216 | a lease ends only with its own drop or retirement |
| `SelectionGate.AdmittedBars` | crates/beryl-app/src/window_acquisition/selection_admission.rs:58-216 | from its admission until its own drop or retirement a selection lease bars every closing, settled publication and reopening, whatever else happens |
| `SelectionGate.SelectAnswer` | crates/beryl-app/src/window_acquisition/selection_admission.rs:58-102 | a selection takes its lease and its reservation if and only if the gate is open with room and the registry admits it, and otherwise changes neither |
| `SelectionGate.FencedShrinks` | crates/beryl-app/src/window_acquisition.rs:462-543 | while the gate is fenced windows only leave and no lease of either kind is admitted |
| `SelectionGate.ClosedOver` | crates/beryl-app/src/window_acquisition/close_admission.rs:112-194 | a closing published while a close lease validates fences the gate over exactly the windows of its snapshot, and until the gate is reopened none joins and no selection or other close is admitted |
| `LaunchCleanup.ManagedBackendLaunchCleanup.AttemptShutdown` | crates/beryl-backend/src/launch_cleanup.rs:71-111 | process, token file and reader in that order, each at most as far as it succeeds |
| `LaunchCleanup.ManagedBackendLaunchCleanup.CleanUpAuth` | crates/beryl-backend/src/auth.rs:125-149 | the token is wiped, and the file removed once |
| `LaunchCleanup.ManagedBackendLaunchCleanup.DropLaunch` | crates/beryl-backend/src/launch_cleanup.rs:117-128 | a last attempt, the file preserved if the process was not proven closed, then the drops of the process owner, which tries once more, and of the authentication material |
| `LaunchCleanup.LifeOrdered` | crates/beryl-backend/src/launch_cleanup.rs:71-128 | over any shutdown attempts and the drops, the process owner's included, the token file is touched only after the process was proven closed, a proven close is never repeated and the reader is joined at most once |
| `LaunchCleanup.FilePreservedIffOpen` | crates/beryl-backend/src/launch_cleanup.rs:117-128 | the drop leaves the token file alone if and only if no shutdown attempt proved the process closed, even when its owner's own drop then closes it; the token bytes are wiped either way |
| `LaunchCleanup.CompleteForGood` | crates/beryl-backend/src/launch_cleanup.rs:71-111 | completion is permanent and means that every part of the launch is done |
| `LaunchCleanup.PanicForGood` | crates/beryl-backend/src/launch_cleanup.rs:86-105 | after a panicked reader no attempt ever succeeds |
| `LaunchCleanup.GoodAttempt` | crates/beryl-backend/src/launch_cleanup.rs:71-111 | an attempt that meets no failure succeeds if and only if no reader panicked before, and success is completion |
| `LaunchCleanup.AttemptAnswer` | crates/beryl-backend/src/launch_cleanup.rs:71-111 | after any attempts the next one makes exactly the outside calls that have not succeeded yet, in order and up to the first failure, and answers accordingly |
| `MediaRing.MediaDiagnosticLog.Record` | crates/beryl-app/src/diagnostic_dynamic_tools.rs:692-701 | after any history the ring holds its last `capacity` events, numbered by their place in the history up to saturation |
| `MediaRing.MediaEventsResult` | crates/beryl-app/src/diagnostic_dynamic_tools.rs:1276-1292 | the events after the cursor, cut at the limit, and whether any were cut |
| `MediaRing.TailConsecutive` | crates/beryl-app/src/diagnostic_dynamic_tools.rs:692-711 | below saturation the numbers are consecutive |
| `MediaRing.PollDelivers` | crates/beryl-app/src/diagnostic_dynamic_tools.rs:1276-1292 | a poll delivers the events right after the cursor that are still in the ring |
| `MediaRing.ReaderKeepsUp` | crates/beryl-app/src/diagnostic_dynamic_tools.rs:692-711 | a reader that keeps polling gets events in order, without repeats, and misses only evicted ones |
| `MediaRing.EmptyPollIsCurrent` | crates/beryl-app/src/diagnostic_dynamic_tools.rs:1276-1292 | a poll with a positive limit is empty if and only if nothing new was recorded |
| `MediaRing.LastSeenIffBelowSaturation` | crates/beryl-app/src/diagnostic_dynamic_tools.rs:692-701 | a reader that has seen all but the last event is given it if and only if the numbers are not saturated |
| `Autosave.SettingsAutosave.PublishApplied` | crates/beryl-app/src/settings_autosave.rs:34-91 | publishes, keeps or refuses a projection as the specification decides, and changes it only when it publishes |
| `Autosave.PublicationsRise` | crates/beryl-app/src/settings_autosave.rs:34-91 | over any readers the home stays, numbers rise strictly with every change, (home generation, service generation, source publication) never falls, and a triple that does not rise is the same source |
| `Autosave.PublishedSays` | crates/beryl-app/src/settings_autosave.rs:37-56 | a call that does not fail leaves the snapshot's own source published, with an interval exactly when the snapshot has one, in whole seconds from 5 to 300 |
| `Autosave.NumberCounts` | crates/beryl-app/src/settings_autosave.rs:72-89 | the number of a publication is the number of calls that published |
| `Autosave.UnusableAnswer` | crates/beryl-app/src/settings_autosave.rs:37-56 | a call fails for its snapshot exactly when the reader cannot be read and was not the last, or its interval is not a whole number of seconds from 5 to 300 |
| `Autosave.PublishAnswer` | crates/beryl-app/src/settings_autosave.rs:57-91 | the exact answer for a usable snapshot: the same reader follows within its generations, another one only outranks them |
| `Autosave.FailedAnswer` | crates/beryl-app/src/settings_autosave.rs:37-91 | a reader that can no longer be read publishes its last source without an interval, once |

## Left out

- User interface, process spawning, sockets, file contents, audio, JSON parsing and serialisation: foreign calls, kept only as outcomes where a modelled component makes them.
- Lock poisoning, memory orderings, condition-variable fairness and wall-clock time: locks are atomic steps and a timeout is a nondeterministic failure.
- Fault injection for tests: not modelled.
- The home store: a command is NotCommitted, Committed or Indeterminate, and commits atomically at the home revision it expects; its own storage is not modelled.
- ProcessGate: the action that runs under the gate's lock is only a success or a failure.
- The other domain of a transfer is reduced to two facts that are taken, not proved: an identity that was accepted or promoted is refused a second time (`crates/syndic-storage/src/mutation/admission/accepted.rs:33-37`, `admission/idle.rs:29-34`, `promotion/records/validation.rs:21-47`), and its verdict old, new or colliding only moves forward.
- Owner heads are written by transfers, publications and historical selections; whether a set is sealed at all is not modelled, so a draft may be sealed with any set it does not have.
- RootPaging.RootPage: takes root ids to be unique across runtimes, as the state store's root index enforces.
- ArgumentBuilders.Recognises: the object builder is modelled on values, not as an object updated in place, and the failure of an allocation is not modelled.
- MarkerSeal.ExactlyOnePlace: release, disposal, capture and rebinding are modelled on values; only drive and retirement are also given in place.
- The unlocked work of a seal drive (streaming, sealing, supersession checks) is one reported update.
- The mutation observer of the response tracker and the routing of attention records: they change no modelled fact.
- Truncation of the strings inside a media event, and the frame-metric and scroll-input logs beside the media ring: the same ring without a new property.
- The preparation and projection of a window acquisition: their answers drive the loop, their contents are not modelled.
