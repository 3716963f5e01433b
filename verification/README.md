# Certification registry: verification model

A Dafny 4.11 model of the certification platform's services, with proofs over whole runs of them.

The platform takes a terroir product's certification from a draft request to a decision, writes every decision to an
append-only ledger, numbers what it grants, issues QR codes, answers scans from a five-minute cache, renews and revokes.
Around that core sit inspections, export documents, lab results, settings, notification templates and three CSV exports.

## How it is built

`Registry` holds the certification database, the verification cache and the clock as one value (`World`), and every
service call as a function on it. `Services` holds the services themselves as classes that update tables row by row; each
method is proved to do exactly what its function in `Registry` says, and `Services.System.HandleAll` ties any sequence of
calls on a fresh system to a `Trace`. The theorems are about traces: arbitrary sequences of calls by all services, clock
ticks and cache losses, starting from an empty database.

Where calls overlap, `SplitCalls` splits them at their awaits, with any number of them in flight and whole calls of every
service in between: a transition (grants, denials, revocations, renewals, lab deliveries and the seven plain steps) reads
and checks, draws a number if it grants, commits the entity as it was read, and then issues a code, or evicts and
deactivates, or evicts and adds the renewal's draft; a scan reads and later stores. One model carries the theorems on
numbers and the ledger (`GrantRaces`), on what can still verify (`Silence`, `Revival`, `LateAnswers`, `Revocation`), on
renewal links (`Renewals`) and on lab rows (`LabEvents`).

`LabTests`, `Settings` and `Templates` are self-contained services in the same style: a class, functions its methods are
proved against, and theorems about runs or about the functions.

| file | content |
|---|---|
| `Text`, `CertificateNumber` | numerals, separators; the certificate number's printer and reader |
| `Lifecycle`, `Registry`, `Changes` | statuses and events; state, calls, runs; what one call can change |
| `Services` | the services as classes |
| `Ledger`, `Decisions`, `Renewals`, `LabEvents` | ledger replay and growth, decision fields, renewal chains, redelivery |
| `QrActivity`, `Staleness`, `ScanCounts` | active codes, bounded staleness, scan counters |
| `Answers`, `Provenance` | what a scan answers in each case and every call replies; that stored rows say what their calls said |
| `Evidence`, `Numbering` | certifications rebuilt from the ledger, what a valid scan proves; what a number says |
| `SplitCalls`, `GrantRaces` | calls split at their awaits, staleness; numbers, ledger and fields while they overlap |
| `Silence`, `Revival`, `LateAnswers`, `Revocation` | what keeps a certification from verifying, and exactly what can bring it back and how late |
| `Scenarios` | concrete runs where a guarantee stops |
| `Inspections`, `ExportDates`, `ExportDocuments` | inspections and reports; six-month arithmetic; export documents |
| `Csv`, `Exports`, `ExportColumns` | CSV printing and an RFC 4180 reader; the three exporters; their columns read back |
| `LabTests`, `Settings`, `Templates` | parameter validation, grouped settings, template resolution |

## What the proofs say about the code

* Promises that hold of every run of atomic calls, inspections and regeneration included: bounded staleness of verification, one active
  QR code per certification, legal ledger rows, decision columns that can be rebuilt from the ledger, active codes that
  expire with the last grant, at most one lab row per event, scan-count conservation, dense and never reused certificate
  numbers (these under any interleaving), backed export documents.
* Promises that hold only while `InspectionService` stays out: ledger replay and growth, field/status agreement, codes
  that follow grants, renewal links. Its status writes have no guard and no ledger row. Each has the exact condition under
  which one call does no harm, and replay, fields and links a run in which it does: replay (`Ledger.SchedulingKeepsReplayIff`,
  `CompletingKeepsReplayIff`, `InspectionBreaksReplay`) and ledger length (`OverwriteKeepsTotalIff`) need the written
  status to be the present one; fields need a certification not yet decided (`Decisions.SchedulingKeepsFieldsIff`,
  `CompletingKeepsFieldsIff`, `Scenarios.InspectionBreaksFields`); codes one that is neither GRANTED nor RENEWED
  (`QrActivity.OverwriteKeepsCodesIff`); links one that is not RENEWED (`Renewals.SchedulingKeepsLinksIff`,
  `CompletingKeepsLinksIff`, `Scenarios.InspectionBreaksLinks`).
* Revocation is immediate in CertificationService runs without direct regeneration in which at most revocations overlap
  with other calls (`Revocation.DeadFromEviction`). Regenerating a code leaves the older code's cached answer in place;
  `Revocation.StaleAfterRevokeIff` says exactly which signatures still verify, and
  `Scenarios.RegenerationOutlivesRevocation` is such a run. In runs of atomic CertificationService calls it ends within
  300 000 ms (`Staleness.RevokedWithinTtl`).
* When calls of every kind overlap, `Revival.VerifiesAgainIff` says of any reachable state exactly which certifications
  some continuation of CertificationService steps lets verify: those with a valid scan in flight, with a live valid
  answer cached, on their way to a grant (by status or by a transition that has read but not committed), or GRANTED or
  about to be while a code or a validity lasts. For a REVOKED certification past its eviction that leaves three ways, each with its run:
  a scan in flight (`Scenarios.ScanOutrunsRevocation`), the cached answer of a code that another grant or a regeneration
  replaced (`ReplacedCodeOutlivesRevocation`), and a transition that read it earlier (`LateGrantRevives`).
  `DeadFromEvictionIff` is the same at the evict step of a revocation. Only the last way can come later than 300 000 ms
  plus the longest scan (`LateAnswers.VerifiesLateIff`, `RevokedWithinTtlAndDelay`).
* The status check of a transition runs outside its transaction. A commit keeps the ledger's chain exactly when the row
  still has the status it was read with (`GrantRaces.CommitKeepsReplayIff`), and the renewal links exactly when it writes
  RENEWED or nothing renews the row (`Renewals.CommitKeepsLinksIff`, `DraftKeepsLinksIff`). Overlapping grants both succeed
  and break the chain (`GrantRaces.TwoGrantsOverlap`), but never the uniqueness of numbers, nor the agreement of fields
  and status (`FieldsAgreeUnderOverlap`).
* The duplicate check of a lab delivery runs outside its transaction too: `LabEvents.DeliveryKeepsDistinctIff` gives the
  condition, `TwoDeliveriesOverlap` the two rows, `OneLabRowPerEventIfOneAtATime` what suffices.
* Renaming a template evicts the new key instead of the old one; `Templates.RenameAgreesIff` says when a send is affected,
  and `SendIsRecent` that it is so for at most 600 000 ms.
* A settings key reads back from its row exactly when it has no underscore before its last character
  (`Settings.SnakeIsInvertibleIff`).
* Every stored row says what the call that wrote it said (`Provenance`, `Changes.ChangeOf`): inspections, reports, export
  documents, scan rows and ledger rows carry the values of their calls and nothing else, over whole runs; a lab batch
  stands where the last call about it put it (`LabTests.BatchTold`). Every message and reply is given exactly in its case
  (`Answers`). The calendar is anchored at 1 January 1970 and moves day by day (`ExportDates.EpochDay`, `DayLater`).
* A CSV export reads back exactly when its unquoted columns are plain; codes and regions are free text and not quoted,
  while the printed numbers spoil nothing that their regions do not.

Where code and comments disagree the model follows the code: sequence numbers are padded to three digits (the entity's
comment shows six); no status is called expired or pending; the correlation id is an idempotency key for lab events only.

## Model

| member | source | states |
|---|---|---|
| CertificateNumber.RoundTrip | src/modules/certification/services/certification.service.ts:606-641 | every printed number reads back to its type, region, year and sequence, even when the region contains dashes or the sequence passes 999 |
| CertificateNumber.Injective | src/modules/certification/services/certification.service.ts:640 | two numbers with the same text are the same number |
| CertificateNumber.FitsColumn | src/database/migrations/1700000000003-CreateCertificationSchema.ts:18-33 | region of at most 50 characters, 4-digit year and 32-bit sequence print in at most 80 characters |
| CertificateNumber.PrintedText | src/modules/certification/services/certification.service.ts:640 | the text is TERROIR, the type's short name, region, year and sequence between dashes, the sequence padded to three digits and no further |
| Lifecycle.HistoryIsUnique | src/modules/certification/entities/certification-event.entity.ts:4-53 | a sequence of legal rows replays from DRAFT to a status if and only if it is that status's one history |
| Lifecycle.HistoryOfGranted | src/modules/certification/services/certification.service.ts:136-483 | the only history that ends in GRANTED is the nine-event chain in order |
| Changes.ChangeOf | src/modules/certification/services/certification.service.ts:560-598 | the whole relation between a call and its effect on certifications and ledger: a row appears if and only if the guard holds, carries the call's actor and, step by step, the call's own values, and writes exactly the columns it records; a draft appears exactly for accepted requests and renewals; a status is overwritten exactly by the inspection calls that should |
| Changes.TermsStay | src/modules/certification/services/certification.service.ts:57-78 | no call ever edits what a certification is about, who requested it when, or what it renews |
| Services.CertificationService.RequestCertification | src/modules/certification/services/certification.service.ts:57-78 | appends exactly one draft with the request's terms, or fails on a column width and changes nothing |
| Services.CertificationService.AssertStatus | src/modules/certification/services/certification.service.ts:560-567 | reports a missing certification or a wrong status, both named |
| Services.CertificationService.ApplyTransition | src/modules/certification/services/certification.service.ts:574-598 | one ledger row from the entity's status to the event's status and the saved entity, nothing else |
| Services.CertificationService.Move | src/modules/certification/services/certification.service.ts:236-375 | the check-log-move methods (steps 1 to 6, and step 8 at lines 464-483): new state and reply as specified, or the error and no change |
| Services.CertificationService.GenerateCertificationNumber | src/modules/certification/services/certification.service.ts:606-641 | creates the counter row if missing, increments only that counter and prints the new value |
| Services.CertificationService.GrantCertification | src/modules/certification/services/certification.service.ts:136-170 | numbering, decision, ledger row and first QR code; a refused QR row leaves the grant in place |
| Services.CertificationService.DenyCertification | src/modules/certification/services/certification.service.ts:172-198 | denial fields and the DENIED transition from UNDER_REVIEW only |
| Services.CertificationService.RevokeCertification | src/modules/certification/services/certification.service.ts:200-228 | revocation fields, REVOKED transition, eviction of the active code's answer, then deactivation |
| Services.CertificationService.RenewCertification | src/modules/certification/services/certification.service.ts:412-458 | RENEWED transition, eviction, and a linked draft with the same terms |
| Services.CertificationService.IsEventProcessed | src/modules/certification/services/certification.service.ts:52-55 | true exactly when some ledger row carries the correlation id |
| Services.CertificationService.ReceiveLabResults | src/modules/certification/services/certification.service.ts:382-404 | moves whichever waiting certification of the batch the database picks, or skips |
| Services.CertificationListener.HandleLabTestCompleted | src/modules/certification/listeners/certification.listener.ts:46-68 | skips an event id already in the ledger, otherwise delivers it |
| Services.QrCodeService.GenerateQrCode | src/modules/certification/services/qr-code.service.ts:65-110 | deactivates older codes, then inserts the new one, expiring with the certification; a duplicate signature fails after the deactivation |
| Services.QrCodeService.FindActiveCode | src/modules/certification/services/qr-code.service.ts:255-259 | finds the certification's active code if there is one |
| Services.QrCodeService.EvictQrCache | src/modules/certification/services/qr-code.service.ts:280-286 | removes the cached answer of the active code and nothing else |
| Services.QrCodeService.DeactivateByCertificationId | src/modules/certification/services/qr-code.service.ts:266-273 | evicts the active code's answer, then deactivates every code of the certification |
| Services.QrCodeService.FindSuccessor | src/modules/certification/services/qr-code.service.ts:163-167 | the oldest certification linked to the renewed one |
| Services.QrCodeService.VerifyQrCode | src/modules/certification/services/qr-code.service.ts:117-219 | cached answer while it lives; otherwise the tables' answer, counted, cached and logged exactly in the cases the code counts |
| Services.InspectionService.ScheduleInspection | src/modules/certification/services/inspection.service.ts:36-74 | inserts the inspection and overwrites the certification's status |
| Services.InspectionService.CompleteInspection | src/modules/certification/services/inspection.service.ts:76-126 | closes an open inspection, files its report and overwrites the certification's status; other statuses are refused |
| Services.InspectionService.AssignInspector | src/modules/certification/services/inspection.service.ts:170-195 | changes the inspector of an inspection that is not closed, and nothing else |
| Services.InspectionService.FileReport | src/modules/certification/services/inspection.service.ts:197-213 | completes the inspection with at most one non-conformity |
| Services.ExportDocumentService.RequestExportDocument | src/modules/certification/services/export-document.service.ts:25-61 | a document only for a GRANTED certification, with its cooperative |
| Services.ExportDocumentService.UpdateOnssaReference | src/modules/certification/services/export-document.service.ts:112-115 | stores the reference and approves |
| Services.ExportDocumentService.ValidateDocument | src/modules/certification/services/export-document.service.ts:126-135 | approves with the date six months on |
| Services.System.HandleAll | src/modules/certification/services/certification.service.ts:33-46 | running the services over any calls on a fresh system yields a trace of the specification |
| Ledger.RowsAlwaysLegal | src/modules/certification/services/certification.service.ts:574-598 | in every run each ledger row is a legal edge for its event type and belongs to an existing certification |
| Ledger.AppendOnly | src/modules/certification/entities/certification-event.entity.ts:4-9 | over any stretch of any run the ledger only grows at its end |
| Ledger.LedgerAlwaysReplays | src/modules/certification/services/certification.service.ts:236-483 | in CertificationService runs every certification's rows chain from DRAFT to its current status |
| Ledger.LedgerIsHistory | src/modules/certification/services/certification.service.ts:236-483 | in those runs the rows are exactly the one history of the current status |
| Ledger.TransitionClimbs | src/modules/certification/services/certification.service.ts:560-598 | each transition climbs exactly one rank |
| Ledger.EachEventAtMostOnce | src/modules/certification/services/certification.service.ts:136-483 | in CertificationService runs at most ten rows per certification and no event twice, in particular one grant |
| Ledger.LedgerBounded | src/modules/certification/services/certification.service.ts:136-483 | in CertificationService runs the ledger's length is the sum of the ranks, at most ten times the number of certifications |
| Ledger.SchedulingKeepsReplayIff | src/modules/certification/services/inspection.service.ts:62-65 | scheduling keeps the chain exactly when the certification is already INSPECTION_SCHEDULED |
| Ledger.CompletingKeepsReplayIff | src/modules/certification/services/inspection.service.ts:118-121 | completing keeps the chain exactly when the certification is already INSPECTION_COMPLETE |
| Ledger.OverwriteKeepsTotalIff | src/modules/certification/services/inspection.service.ts:62-65 | an inspection's status write keeps the ledger's length equal to the sum of the ranks if and only if it writes the present status |
| Ledger.InspectionBreaksReplay | src/modules/certification/services/inspection.service.ts:62-65 | a three-call run whose ledger no longer replays |
| Decisions.FieldsAlwaysAgree | src/modules/certification/services/certification.service.ts:136-228 | in CertificationService runs number and grant data exist exactly while GRANTED, REVOKED or RENEWED, denial data exactly when DENIED, revocation data exactly when REVOKED |
| Decisions.SchedulingKeepsFieldsIff | src/modules/certification/services/inspection.service.ts:62-65 | scheduling an inspection keeps that agreement if and only if the certification is none of GRANTED, DENIED, REVOKED, RENEWED |
| Decisions.CompletingKeepsFieldsIff | src/modules/certification/services/inspection.service.ts:118-121 | completing an inspection keeps it under the same condition |
| Decisions.GrantsAlwaysBacked | src/modules/certification/services/certification.service.ts:136-170 | in every run whatever is GRANTED has a number and a DECISION_GRANTED row |
| Decisions.RevocationIsFinal | src/modules/certification/services/certification.service.ts:200-228 | in CertificationService runs a REVOKED certification never changes again |
| QrActivity.AlwaysOneActive | src/modules/certification/services/qr-code.service.ts:65-98 | in every run a certification has at most one active code |
| QrActivity.CodesAlwaysFollowGrants | src/modules/certification/services/qr-code.service.ts:65-98 | in CertificationService runs without direct regeneration exactly the codes issued at grants exist, active exactly while GRANTED or RENEWED |
| QrActivity.ActiveCodeByStatus | src/modules/certification/services/qr-code.service.ts:266-273 | in the same runs findOne finds an active code exactly while GRANTED or RENEWED, so a REVOKED certification has none |
| QrActivity.OverwriteKeepsCodesIff | src/modules/certification/services/inspection.service.ts:62-65 | an inspection's status write keeps codes and grants together if and only if the certification is neither GRANTED nor RENEWED |
| Answers.MessageIff | src/modules/certification/services/qr-code.service.ts:125-218 | each verification message is given if and only if its case holds: code known, active and unexpired, certification present, and its status |
| Answers.AnswerSays | src/modules/certification/services/qr-code.service.ts:163-205 | valid only with its message; the certification and the code as counted; the renewal's number with a superseded answer, none with the others |
| Answers.RenewedShowsSuccessor | src/modules/certification/services/qr-code.service.ts:163-177 | in CertificationService runs an uncached scan of a renewed certification shows the number of the one certification that renews it |
| Answers.CachedFor | src/modules/certification/services/qr-code.service.ts:117-123 | a cached answer is given for 300 000 ms and not after |
| Answers.ScanWrites | src/modules/certification/services/qr-code.service.ts:163-218 | a scan writes the counter and the cache exactly for uncached good codes of GRANTED or RENEWED certifications, and a scan row only for GRANTED |
| Answers.CodeIssued | src/modules/certification/services/qr-code.service.ts:65-98 | a generated code is active, unscanned and expires with the validity; the certification's others go inactive and all else stays |
| Answers.RefusedIff | src/modules/certification/services/certification.service.ts:560-567 | a transition is refused exactly for a missing certification or a wrong status, names both statuses, and changes nothing |
| Answers.AcceptedReply | src/modules/certification/services/certification.service.ts:136-170 | an accepted transition replies its certification, a renewal its draft; a grant may fail on its code |
| Answers.OtherReplies | src/modules/certification/services/qr-code.service.ts:65-98 | what requests, codes, inspections and documents reply, and the one reason for each refusal |
| Answers.CompletionReplies | src/modules/certification/services/inspection.service.ts:76-95 | completing or filing replies the report or the inspection, or why it cannot be completed |
| Answers.EvictionOnly | src/modules/certification/services/qr-code.service.ts:280-286 | an eviction takes out the active code's answer and no other |
| Staleness.BoundedStaleness | src/modules/certification/services/qr-code.service.ts:117-219 | in every run of atomic calls each reply of verifyQrCode is what the tables alone answered for that signature at some instant of the last 300 000 ms |
| Staleness.ValidMeansRecentlyGood | src/modules/certification/services/qr-code.service.ts:182-205 | valid means GRANTED, active and unexpired at such an instant |
| Staleness.ValidLookup | src/modules/certification/services/qr-code.service.ts:125-204 | the tables answer valid if and only if the code is active and unexpired and the certification GRANTED |
| Staleness.RevokedWithinTtl | src/modules/certification/services/qr-code.service.ts:266-273 | in CertificationService runs with or without regeneration no code verifies more than 300 000 ms after its certification was revoked |
| Staleness.ValidIsBackedByTheChain | src/modules/certification/services/certification.service.ts:136-404 | in CertificationService runs a valid answer shows a numbered certification whose ledger begins with the nine-event chain |
| Evidence.ColumnsAlwaysRebuild | src/modules/certification/services/certification.service.ts:574-598 | in every run, inspections included, number, grant, denial and revocation columns are the fold of the certification's ledger rows over its draft |
| Evidence.LedgerRebuildsAll | src/modules/certification/services/certification.service.ts:574-598 | in CertificationService runs the whole certification, status included, is that fold |
| Evidence.GrantHasItsRow | src/modules/certification/services/certification.service.ts:136-163 | in every run grant data and number are those of the last DECISION_GRANTED row: same number, validity, actor and instant |
| Evidence.ActiveCodesExpireWithGrant | src/modules/certification/services/qr-code.service.ts:76-98 | in every run, repeated grants and regeneration included, an active code expires when its certification does now |
| Evidence.ValidIsWithinRecordedValidity | src/modules/certification/services/qr-code.service.ts:117-219 | in every run a valid answer shows a certification that within the last 300 000 ms was GRANTED and not past the validity of its last DECISION_GRANTED row, under that row's number |
| Numbering.NumberNamesTypeAndRegion | src/modules/certification/services/certification.service.ts:606-641 | in every run reading a certification's number back gives its own type and region |
| Numbering.GrantedNumber | src/modules/certification/services/certification.service.ts:606-641 | a grant takes the next value of the counter of its type, region and year, the first being 1, and prints exactly these four |
| Numbering.NumberCleanIff | src/modules/certification/services/certification.service.ts:640 | a printed number is plain CSV text exactly when its region is |
| Numbering.ReportReadsBackIff | src/modules/certification/services/certification.service.ts:832-850 | in every run the compliance report reads back exactly when all product codes and regions are plain |
| SplitCalls.SplitTransitionIsAtomic | src/modules/certification/services/certification.service.ts:136-483 | the steps of any transition - read, numbering, commit, follow-ups - run back to back are the atomic call, and a refused one leaves nothing in flight |
| SplitCalls.SplitScanIsAtomic | src/modules/certification/services/qr-code.service.ts:117-219 | reading and storing back to back are the atomic scan |
| SplitCalls.StalenessWithCallsInFlight | src/modules/certification/services/qr-code.service.ts:117-219 | with scans and transitions of every kind overlapping, each answer is the tables' answer at an instant at most 300 000 ms plus the longest scan ago |
| Revival.VerifiesAgainIff | src/modules/certification/services/qr-code.service.ts:117-219 | in any state that overlapping calls, inspections and regenerations lead to, some continuation of CertificationService steps lets a certification verify if and only if a valid scan of it is in flight, a live valid answer is cached, or its status, its pending transitions and their validities leave the tables a way to valid |
| Revival.DeadFromEvictionIff | src/modules/certification/services/qr-code.service.ts:266-273 | no continuation of any length lets a signature verify after the evict step of a revocation if and only if at that step no valid scan is in flight, no other code has a live valid answer and the tables have no way to valid |
| Revival.RevokedTurnsValidOnlyIf | src/modules/certification/services/certification.service.ts:560-598 | the tables can turn valid for a REVOKED certification only through a transition that read it before and has yet to commit |
| LateAnswers.VerifiesLateIff | src/modules/certification/services/qr-code.service.ts:117-219 | with scans that store within a delay, a certification can verify later than 300 000 ms plus that delay from now if and only if the tables have a way to valid from the next instant on |
| LateAnswers.RevokedWithinTtlAndDelay | src/modules/certification/services/qr-code.service.ts:266-273 | however calls overlap, a certification REVOKED now never verifies later than that unless a transition that could lead it to a grant has read it and not yet committed |
| Revocation.StaleAfterRevokeIff | src/modules/certification/services/qr-code.service.ts:266-273 | right after a revocation a signature verifies if and only if a live valid answer was cached for it while it was not the active code |
| Revocation.DeadFromEviction | src/modules/certification/services/certification.service.ts:214-226 | in CertificationService runs without direct regeneration, with revocations split at their awaits and other calls whole, nothing that follows the evict step ever lets a signature verify again |
| Revocation.ValidMeansGrantedNow | src/modules/certification/services/qr-code.service.ts:275-286 | in runs of atomic CertificationService calls without direct regeneration whatever verifies is GRANTED at that very moment, so renewal and revocation take effect at once |
| Scenarios.RegenerationOutlivesRevocation | src/modules/certification/controllers/qr-code.controller.ts:75-87 | a run in which a revoked certification's first code still verifies after a direct regeneration |
| Scenarios.ScanOutrunsRevocation | src/modules/certification/services/qr-code.service.ts:117-219 | a run without regeneration in which a scan stores a valid answer after a complete revocation |
| Scenarios.LateGrantRevives | src/modules/certification/services/certification.service.ts:136-170 | a run without regeneration in which an overlapping grant commits after the revocation and its code verifies more than 300 000 ms later |
| Scenarios.ReplacedCodeOutlivesRevocation | src/modules/certification/services/qr-code.service.ts:76-98 | a run without regeneration in which the second of two overlapping grants replaces the first code and the first one's cached answer outlives the revocation |
| Scenarios.InspectionBreaksFields | src/modules/certification/services/inspection.service.ts:62-65 | a run in which scheduling an inspection leaves a number without its status |
| Scenarios.InspectionBreaksLinks | src/modules/certification/services/inspection.service.ts:62-65 | a run in which scheduling an inspection leaves a renewal linked to a certification that is not RENEWED |
| Scenarios.DeliveriesOverlapAfterARun | src/modules/certification/listeners/certification.listener.ts:46-68 | an ordinary run after which two overlapping deliveries of one event write two lab rows |
| Scenarios.GrantsOverlapAfterARun | src/modules/certification/services/certification.service.ts:136-163 | an ordinary run after which two overlapping grants break the ledger |
| Renewals.LinksAlwaysSound | src/modules/certification/services/certification.service.ts:412-458 | in CertificationService runs renewedFromId is acyclic, injective, onto the RENEWED certifications and keeps the terms |
| Renewals.OneLiveMemberPerChain | src/modules/certification/services/certification.service.ts:412-458 | in CertificationService runs of two members of one chain the earlier is RENEWED and precedes the other, so at most one is anything else |
| Renewals.SuccessorIsUnique | src/modules/certification/services/qr-code.service.ts:163-177 | in CertificationService runs the successor lookup finds something exactly for RENEWED certifications, and what it finds is the only link |
| Renewals.SchedulingKeepsLinksIff | src/modules/certification/services/inspection.service.ts:62-65 | scheduling an inspection keeps the links if and only if the certification is not RENEWED |
| Renewals.CompletingKeepsLinksIff | src/modules/certification/services/inspection.service.ts:118-121 | completing an inspection keeps them under the same condition |
| Renewals.CommitKeepsLinksIff | src/modules/certification/services/certification.service.ts:574-598 | while requests overlap a commit keeps the links if and only if it writes RENEWED or nothing renews the certification |
| Renewals.DraftKeepsLinksIff | src/modules/certification/services/certification.service.ts:433-451 | and a renewal's draft if and only if the certification is still RENEWED and no other draft renews it |
| ScanCounts.CountsConserved | src/modules/certification/services/qr-code.service.ts:163-218 | scansCount is the number of cache misses answered valid plus those answered renewed; scan rows are the valid ones whose write succeeded |
| ScanCounts.TotalBoundedByCounters | src/modules/certification/services/qr-code.service.ts:226-253 | totalScans never exceeds the sum of the counters of the certification's codes |
| ScanCounts.TotalIsCardinality | src/modules/certification/services/qr-code.service.ts:226-253 | totalScans is the number of the certification's scan rows |
| ScanCounts.CountedScansAreSpaced | src/modules/certification/services/qr-code.service.ts:117-123 | two counted scans of a signature are more than 300 000 ms apart unless its entry was taken out in between |
| LabEvents.OneLabRowPerEvent | src/modules/certification/listeners/certification.listener.ts:46-68 | in every run of atomic calls an event id has at most one LAB_RESULTS_RECEIVED row |
| LabEvents.DeliveryKeepsDistinctIff | src/modules/certification/listeners/certification.listener.ts:46-68 | the commit of a delivery keeps lab rows distinct if and only if no lab row of its event has been written since its check |
| LabEvents.OneLabRowPerEventIfOneAtATime | src/modules/certification/listeners/certification.listener.ts:46-68 | however calls overlap, an event id has at most one lab row as long as no two deliveries of the same event overlap |
| LabEvents.TwoDeliveriesOverlap | src/modules/certification/services/certification.service.ts:382-404 | two overlapping deliveries of one event write two lab rows |
| LabEvents.DeliveryTakesEffectIff | src/modules/certification/services/certification.service.ts:382-404 | a delivery changes something if and only if its id is new and a certification of the batch waits |
| LabEvents.RedeliveryIsIdempotent | src/modules/certification/services/certification.service.ts:52-55 | delivering twice in a row equals delivering once, whatever row is picked |
| LabEvents.EventsCommute | src/modules/certification/listeners/certification.listener.ts:46-68 | events of different batches commute up to ledger order |
| GrantRaces.NumbersAreDense | src/modules/certification/services/certification.service.ts:606-641 | over every interleaving the numbers drawn in a series are exactly 1 to last_seq, each once |
| GrantRaces.NumbersAreUnique | src/database/migrations/1700000000003-CreateCertificationSchema.ts:18-33 | over every interleaving a number once carried by one certification is never carried by another, then or later |
| GrantRaces.NumbersAreUniqueInRuns | src/modules/certification/services/certification.service.ts:136-163 | the same for runs of atomic calls of all services |
| GrantRaces.NumbersFit | src/database/migrations/1700000000003-CreateCertificationSchema.ts:18-33 | every number carried fits its column while years have four digits and counters 32 bits |
| GrantRaces.FieldsAgreeUnderOverlap | src/modules/certification/services/certification.service.ts:574-598 | in CertificationService runs field and status agreement holds however requests overlap, since a commit saves the whole entity |
| GrantRaces.CommitKeepsReplayIff | src/modules/certification/services/certification.service.ts:574-598 | committing an entity keeps the ledger's chain if and only if the row still has the status the entity was read with |
| GrantRaces.TwoGrantsOverlap | src/modules/certification/services/certification.service.ts:143-163 | two overlapping grants both commit: two grant rows, no replay, and the first number is lost |
| Inspections.ReportsAlwaysMatch | src/modules/certification/services/inspection.service.ts:76-126 | in every run completed inspections and reports correspond one to one with the same verdict, and no inspection is ever in progress or cancelled |
| Provenance.InspectionTold | src/modules/certification/services/inspection.service.ts:36-60 | in every run an inspection has the certification, cooperative, date and farms of the call that scheduled it |
| Provenance.InspectorTold | src/modules/certification/services/inspection.service.ts:170-195 | its inspector is the one last assigned while it was open, or its schedule's |
| Provenance.VerdictTold | src/modules/certification/services/inspection.service.ts:97-102 | a completed inspection has verdict and time of the call that closed it, an open one neither |
| Provenance.ReportTold | src/modules/certification/services/inspection.service.ts:104-116 | in every run a report has the verdict, summary, findings, non-conformities and inspector of the call that filed it; a filed one at most one minor NC-001 |
| Provenance.DocumentTold | src/modules/certification/services/export-document.service.ts:25-61 | in every run an export document carries all that was requested, by whom, and when |
| Provenance.ReferenceTold | src/modules/certification/services/export-document.service.ts:112-115 | its reference is the one last given, absent if none was |
| Provenance.ApprovalTold | src/modules/certification/services/export-document.service.ts:126-135 | it is valid until six calendar months after its last approval, with no validity before the first |
| Provenance.StatusTold | src/modules/certification/services/export-document.service.ts:112-135 | it is approved exactly once it has a reference or a validity |
| Provenance.ScanTold | src/modules/certification/services/qr-code.service.ts:207-216 | in every run a scan row has signature, address and time of a scan that missed the cache and found a good code |
| ExportDates.YearLength | src/modules/certification/services/export-document.service.ts:126-135 | the closed day formula counts exactly the leap years |
| ExportDates.OverflowIsMakeDay | src/modules/certification/services/export-document.service.ts:128-130 | letting the day run over into the next month gives a real date and the day number setMonth computes |
| ExportDates.SameDayIff | src/modules/certification/services/export-document.service.ts:128-130 | the day of the month is kept exactly when the target month has it |
| ExportDates.ValidityWindow | src/modules/certification/services/export-document.service.ts:126-135 | for every date the document is valid for 181 to 184 days |
| ExportDates.DayNumberInjective | src/modules/certification/services/export-document.service.ts:128-130 | a day number belongs to one valid date |
| ExportDates.DateOf | src/modules/certification/services/export-document.service.ts:128-130 | an instant's UTC date is a valid date of the instant's day |
| ExportDates.EpochDay | src/modules/certification/services/export-document.service.ts:128-130 | the first 86 400 000 ms are 1 January 1970 |
| ExportDates.DayLater | src/modules/certification/services/export-document.service.ts:128-130 | 86 400 000 ms later it is the next day of the calendar, by day, month, year and the usual month lengths |
| ExportDates.SameDay | src/modules/certification/services/export-document.service.ts:128-130 | within a UTC day the date stays |
| ExportDates.SixMonthsLater | src/modules/certification/services/export-document.service.ts:128-130 | six months on is the same day of the month six on when that month has it, else as many days into the next as it lacks |
| ExportDocuments.DocumentsAlwaysBacked | src/modules/certification/services/export-document.service.ts:25-61 | in every run each document's certification had its grant row before and has the same cooperative |
| ExportDocuments.ApprovalLasts | src/modules/certification/services/export-document.service.ts:126-135 | an approval at any instant gives a valid date 181 to 184 days on |
| Csv.RoundTripIff | src/modules/certification/services/certification.service.ts:836-850 | a printed table reads back by section 2 of RFC 4180 if and only if no unquoted cell contains a comma, quote, CR or LF |
| Exports.ComplianceRoundTripIff | src/modules/certification/services/certification.service.ts:832-850 | the compliance report reads back exactly when numbers, product codes and regions are plain, whatever the cooperatives are called |
| Exports.CommaBreaksCompliance | src/modules/certification/services/certification.service.ts:836-848 | a region with a comma breaks it |
| Exports.ClearancesRoundTripIff | src/modules/certification/services/export-document.service.ts:174-189 | the same for the clearances report and its unquoted columns |
| Exports.ProductsRoundTripIff | src/modules/product/services/product.service.ts:105-118 | the same for the product registry and its unquoted columns |
| ExportColumns.ComplianceColumns | src/modules/certification/services/certification.service.ts:832-850 | read back, the compliance report has under each of its nine headers every certification's own value |
| ExportColumns.ClearanceColumns | src/modules/certification/services/export-document.service.ts:174-189 | the clearances report under each of its seven headers every clearance's own value |
| ExportColumns.ProductColumns | src/modules/product/services/product.service.ts:105-118 | the product registry under each of its six headers every product's own value |
| ExportColumns.IsoReadsBack | src/modules/certification/services/certification.service.ts:844-846 | an exported instant reads, in one way only, as its UTC date and the milliseconds since that midnight |
| ExportColumns.StatusReadsBack | src/modules/certification/entities/certification.entity.ts:12-26 | every status prints as its own name of the thirteen |
| ExportColumns.TypeReadsBack | src/modules/certification/services/certification.service.ts:842 | every certification type prints as its own name |
| LabTests.EntriesPerParameter | src/modules/product/services/lab-test.service.ts:165-202 | no entry for a conforming parameter, one or two for another, two only outside both of two crossed bounds |
| LabTests.NoFailuresIff | src/modules/product/services/lab-test.service.ts:204 | the failure list is empty if and only if every parameter is present and meets its enum or bounds |
| LabTests.FailuresInOrder | src/modules/product/services/lab-test.service.ts:163-202 | entries come in parameter order and name their parameter |
| LabTests.EntriesOfEach | src/modules/product/services/lab-test.service.ts:163-202 | each parameter has exactly its own entries, none if and only if it conforms |
| LabTests.TextsNameParameters | src/modules/product/services/lab-test.service.ts:163-202 | each failure text starts with the name of its parameter, in parameter order |
| LabTests.LabTestService.SubmitLabTest | src/modules/product/services/lab-test.service.ts:54-86 | one submitted test with the request's data and the batch's product type, the batch in lab testing, or nothing for an unknown batch |
| LabTests.LabTestService.ValidateLabTestParameters | src/modules/product/services/lab-test.service.ts:146-205 | the loop returns exactly the specified failure texts, and passed exactly when all parameters conform |
| LabTests.LabTestService.RecordResult | src/modules/product/services/lab-test.service.ts:92-140 | stored result with the failure texts of its validation, published event, and the batch LAB_PASSED if all parameters conform and LAB_FAILED otherwise, nothing else changed |
| LabTests.BatchTold | src/modules/product/services/lab-test.service.ts:54-130 | in every run a batch stands where the last call about it put it: in the laboratory, or passed or failed by whether the recorded values conform |
| LabTests.TextsSayMissing | src/modules/product/services/lab-test.service.ts:165-183 | the texts for an absent value and for one not among the options |
| LabTests.TextsSayBounds | src/modules/product/services/lab-test.service.ts:185-201 | the texts for no number and for each missed bound, with value, unit and bound |
| Settings.SnakeIsInvertibleIff | src/common/services/system-settings.service.ts:39 | the key map can be undone if and only if the key has no underscore before its last character |
| Settings.PlainKeysDiffer | src/common/services/system-settings.service.ts:39 | two such keys never share a row |
| Settings.UpdateThenRead | src/common/services/system-settings.service.ts:33-65 | a group read from the table after its update is the DTO written |
| Settings.UpdateChangesOneGroup | src/common/services/system-settings.service.ts:33-51 | an update leaves the other groups' settings as they were |
| Settings.CampaignRows | src/common/services/system-settings.service.ts:33-51 | an update of the campaign group writes exactly its three rows, with the values' texts and the user |
| Settings.CertificationRows | src/common/services/system-settings.service.ts:33-51 | an update of the certification group exactly its two |
| Settings.PlatformRows | src/common/services/system-settings.service.ts:33-51 | an update of the platform group exactly its two |
| Settings.CachedFor | src/common/services/system-settings.service.ts:54-65 | a cached group is answered for 300 000 ms and not after |
| Settings.ReadYourWrites | src/common/services/system-settings.service.ts:54-118 | after any reads, updates and waiting a get answers the DTO last written, through the cache or not |
| Settings.Defaults | src/common/services/system-settings.service.ts:58-108 | an empty table answers the defaults |
| Settings.SystemSettingsService.UpsertGroup | src/common/services/system-settings.service.ts:33-51 | one upsert per entry in order, then the group's cache entry is gone |
| Settings.SystemSettingsService.GetSettings | src/common/services/system-settings.service.ts:54-65 | answers what the table says, filling the cache on a miss |
| Settings.SystemSettingsService.UpdateSettings | src/common/services/system-settings.service.ts:68-74 | returns the DTO and changes no other group |
| Templates.KeyInjective | src/modules/notification/services/notification.service.ts:173 | different slots have different cache keys |
| Templates.SendIsUpToDate | src/modules/notification/services/notification.service.ts:173-213 | when updates keep code, channel and language, send uses a currently active row's current content, else the file, else none |
| Templates.RenameAgreesIff | src/modules/notification/services/notification-template.service.ts:86-91 | after a rename a send under the old slot uses what it should if and only if no live entry is left there, or another active row of the slot reads the same, or no active row remains and the file does |
| Templates.SendIsRecent | src/modules/notification/services/notification.service.ts:173-213 | in every run, renames included, what a send uses is what it should have used at some instant of the last 600 000 ms |
| Templates.CachedFor | src/modules/notification/services/notification.service.ts:173-190 | a cached template is used for 600 000 ms and not after |
| Templates.OnlyRowsAreCached | src/modules/notification/services/notification.service.ts:182-208 | a template found in the table is cached, one found in a file is not |
| Templates.FileTemplate | src/modules/notification/services/notification.service.ts:191-208 | the template of a file has its text as body, no subject, and is active |
| Templates.RenameLeavesStaleEntry | src/modules/notification/services/notification-template.service.ts:86-91 | a run in which a renamed row is still sent under its old code |
| Templates.SeedingIsIdempotent | src/modules/notification/services/notification-template.service.ts:37-56 | seeding twice is seeding once |
| Templates.SeededSays | src/modules/notification/services/notification-template.service.ts:37-56 | every row that seeding adds is an active template with the text of a file whose slot had no row |
| Templates.NotificationTemplateService.Create | src/modules/notification/services/notification-template.service.ts:81-84 | appends the row, touches no cache entry |
| Templates.NotificationTemplateService.Update | src/modules/notification/services/notification-template.service.ts:86-91 | stores each column given, keeps each column not given and every other row, and evicts the key of the row as saved |
| Templates.NotificationTemplateService.Deactivate | src/modules/notification/services/notification-template.service.ts:94-99 | clears isActive and evicts the row's key |
| Templates.NotificationTemplateService.SeedFromFiles | src/modules/notification/services/notification-template.service.ts:37-56 | adds exactly one active row for each file whose slot has none |
| Templates.NotificationTemplateService.SeedCounting | src/modules/notification/services/notification-template.service.ts:102-108 | reports how many rows seeding added |
| Templates.NotificationService.ResolveTemplate | src/modules/notification/services/notification.service.ts:173-213 | cache, then an active row (which is cached), then the file |

## Left out

- Services.CertificationService.Move: one method for the seven check-log-move methods, with the step as a parameter; their Kafka messages are not modelled.
- Services.QrCodeService.FindSuccessor: findOne without an order is taken to return the oldest match; in CertificationService runs there is only one.
- Staleness.BoundedStaleness: verifyQrCode runs in one step here; StalenessWithCallsInFlight splits it.
- SplitCalls.StalenessWithCallsInFlight: a scan reads cache and tables in one step and counts and stores in another; the finer awaits within each are not split.
- Revival.VerifiesAgainIff: continuations exclude InspectionService, which can reopen any certification; generateQrCode, the findOne and del of an eviction and the counter's transaction are one step each.
- GrantRaces.FieldsAgreeUnderOverlap: saving is taken to write every column of the entity that was read.
- LabEvents.OneLabRowPerEventIfOneAtATime: the check for the event and the lookup of the certification are one step.
- Staleness.RevokedWithinTtl: a cached answer is taken to come back as it was stored; its JSON round trip through Redis is not modelled.
- LabTests.LabTestService.RecordResult: Number and String conversions are parameters; publishing is taken to succeed, and the event's ids and constants are left out.
- LabTests.LabTestService.SubmitLabTest: the event it publishes is left out.
- Services.InspectionService.ScheduleInspection: the audit column createdBy is left out, here and on certifications.
- ExportDates.SixMonthsLater: getMonth and setMonth work in the server's time zone; the model's is UTC.
- Settings.ReadYourWrites: settings are natural numbers, booleans and strings of the three DTOs; what the DTO validators refuse does not arrive.
- Settings.SnakeIsInvertibleIff: lower-casing is that of ASCII letters.
- Templates.SendIsUpToDate: template files are given by code, channel and language; parsing their names is not modelled.
- Templates.NotificationTemplateService.SeedFromFiles: likewise; a missing directory is an empty one.
- Exports.ComplianceRoundTripIff: the SQL that selects and orders the rows is not modelled; values read back as texts, an absent value as the empty text.
- HMAC-SHA256 is a free constructor of certification id and issue time, so distinct inputs have distinct signatures; two codes of one certification in one millisecond hit the unique column.
- Row ids are insertion positions instead of UUIDs; dates of the validity columns are instants; the year of a number is a parameter of the grant.
- Kafka, schema registry, MinIO, mail, SMS, PDF and QR image rendering: foreign calls; producers swallow their errors, so publishing changes nothing here. Which of several subscribers receives `lab.test.completed` is left to the run.
- Controllers, guards, validators, statistics and dashboards, Handlebars rendering, cooperative, harvest, batch and lab registries: single-branch or inside the database.
- Notification preferences and delivery status: only template resolution is modelled.
