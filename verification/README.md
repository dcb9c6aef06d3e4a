# ITFest 2025 stage progression, in Dafny

This project models the registration and competition back end of the ITFest 2025 site. The original is written in Go with GORM over MariaDB.

The heart of the model is how a team moves through a competition's stages. The stage catalog holds stages with an ID, a competition, an order and a deadline. The progress store holds one record per submission, with status "diproses", "lolos" or "tidak lolos". On top of these, the model covers:

- the current-stage query and the submission guard, which is a first-match chain of typed denials (`SubmissionService`);
- the progress page, which splices a synthetic "Pembayaran" (payment) stage into the catalog and resolves the current and next stage by three ordered rules (`TeamService`);
- the admin's status change and the error-to-HTTP-code mapping (`SubmissionHandler`);
- the account, OTP and team-upsert guards (`UserService`, `OtpService`, `TeamService.UpsertTeam`);
- the row layout of the three Excel exports (`ExcelService`).

The whole database is one immutable `World` value (`Domain`). Every service call is a pure function from a world to a `Result`. An error result leaves the world unchanged, which stands in for the rolled-back transaction. Each store is a sequence in insertion order, so GORM's `First` is "the first match in the sequence". Times are integer seconds, and Go's `After`/`Before` are strict comparisons. A UUID is a string; the zero UUID is `""`, and on a query it means "no condition", as GORM drops zero-valued fields of a struct condition.

Whatever the code cannot decide itself arrives as a parameter:

- the clock (`now`);
- bcrypt's verdict (`matches`) and a generated hash or JWT (`Option` values, `None` when generation fails);
- the upload URL (`None` when the upload fails);
- whether an e-mail was delivered (`delivered`);
- the `EXPIRED_OTP` setting;
- whether gin could bind the request (`bound`);
- the UUID a creation uses.

The model keeps the code's quirks as written:

- `GetCurrentStage` looks up the status with a stage filter that is still 0. So it reads the team's earliest record in store order, whichever stage that is (`Progression.EarlierRecordHoldsBack`).
- `CreateSubmission` gates on the stage whose ID is `IDCurrentStage + 1`, not on the next stage by order (`SubmissionService.Submit`).
- `GetTeamByID` falls back to the stage with ID 1, not the competition's first stage (`TeamService.AdminStageNowWithoutRecords`).
- `ResendToken` uses a one-minute window although its message says five (`OtpService.ResendTokenAfterAMinute`).
- The admin lookup `GetTeamByID` preloads two associations the `Team` entity does not declare, so as written it finds no team. The model records this under "## Findings" and uses the lookup that was evidently intended.

Modules, one per file: `Wrappers`, `Seqs` (first-match and filter), `Text` (ASCII lower-casing, substring test, decimal text), `Domain`, `Repositories`, `SubmissionRepository`, `SubmissionService`, `SubmissionHandler`, `TeamService`, `UserService`, `OtpService`, `ExcelService`, and `Progression`. `Progression` holds lemmas that relate several operations.

## Model

| member | source | states |
|---|---|---|
| SubmissionRepository.Select | internal/repository/submission.go:32-46 | every returned record meets each filter that is set (non-empty status, non-zero stage, non-empty team), and every record meeting them all is returned |
| SubmissionRepository.SelectAppend | internal/repository/submission.go:32-46 | appending a record to the store appends it to a query's answer exactly when it matches, keeping the earlier answer as a prefix |
| SubmissionRepository.StageById | internal/repository/submission.go:93-101 | the stage found has the requested ID; with none found, no stage has it |
| SubmissionRepository.StageByIdFinds | internal/repository/submission.go:93-101 | with distinct stage IDs, looking a stage up by its own ID returns that stage |
| SubmissionRepository.Insert | internal/repository/submission.go:50-52 | inserting into an ascending list keeps it ascending and adds exactly the one stage to the multiset of stages |
| SubmissionRepository.Sort | internal/repository/submission.go:50-52 | the sort behind `Order("stage_order ASC")` with the stage ID as tie-break: ascending, and a permutation of its input (same multiset) |
| SubmissionRepository.CompetitionStages | internal/repository/submission.go:110-111 | exactly the competition's stages, in ascending (order, ID) |
| SubmissionRepository.CompetitionStagesCount | internal/repository/submission.go:110-111 | each stage of the competition appears as often as in the catalog, and no other stage appears |
| SubmissionRepository.FirstStage | internal/repository/submission.go:48-54 | a stage of the competition that precedes all its others; NotFound exactly when the competition has no stage |
| SubmissionRepository.FirstStageExactly | internal/repository/submission.go:48-54 | with distinct IDs, GetFirstStage returns `st` if and only if `st` is the competition's minimum-order stage (ties to the lowest ID) |
| SubmissionRepository.NextStage | internal/repository/submission.go:56-68 | NotFound for an unknown stage ID; otherwise the first competition stage of strictly greater order, and NotFound only when none is greater |
| SubmissionRepository.NextStageExactly | internal/repository/submission.go:56-68 | with distinct IDs, GetNextStage returns `st` if and only if `st` is the least competition stage ordered strictly after the current one |
| SubmissionRepository.PrecedesAntisymmetric | internal/repository/submission.go:50-52 | with distinct IDs the (order, ID) ordering is a strict order: two stages preceding each other are the same stage |
| SubmissionRepository.CurrentRecord | internal/repository/submission.go:70-82 | the team's record, among those whose stage exists, with the highest stage order, the earliest in store order on ties; none exactly when the team has no such record |
| SubmissionRepository.CurrentInIgnoresStatus | internal/repository/submission.go:70-82 | which record is current depends only on teams and stage IDs, never on statuses |
| SubmissionRepository.RecordsAt | internal/repository/submission.go:106-108 | the LEFT JOIN condition: exactly the team's records at the stage |
| SubmissionRepository.StageRows | internal/repository/submission.go:103-119 | one row per matching record, or one empty row when there is none, each carrying the stage's ID, name and deadline |
| SubmissionRepository.RowsFor | internal/repository/submission.go:103-119 | the left join: at least one row per catalog stage; a recorded row copies a real record of the team, and an empty row means the team has no record at that stage |
| SubmissionRepository.RowsForConcat | internal/repository/submission.go:103-119 | the rows of two catalogs laid end to end are the rows of the first followed by those of the second |
| SubmissionRepository.RowsForSplit | internal/repository/submission.go:103-119 | every catalog stage owns a block of rows, its own records' rows, after the blocks of the stages before it and before those after it |
| SubmissionRepository.AllStageView | internal/repository/submission.go:103-119 | the joined rows of the competition's stages; no row is a payment row |
| SubmissionRepository.RowsForOnePerStage | internal/repository/submission.go:103-119 | with at most one record per stage, the view has exactly one row per catalog stage, in catalog order, carrying the stage's ID, name and deadline |
| SubmissionRepository.AllStageViewOnePerStage | internal/repository/submission.go:103-119 | in a table with one record per team and stage, the page's view has exactly one row per competition stage, in ascending order |
| SubmissionRepository.UpdateStatus | internal/repository/submission.go:121-125 | only records whose team and stage text match get the new status; everything else about every record is unchanged |
| SubmissionRepository.UpdateStatusKeepsCurrent | internal/repository/submission.go:121-125 | a status update never changes which record is the team's current one |
| SubmissionRepository.TargetsExactlyOneStage | internal/repository/submission.go:121-125 | the stage path parameter written in decimal targets exactly the records of that team at that stage |
| SubmissionService.GetCurrentStage | internal/service/submission.go:40-94 | every failure is NotFound, and a user without a team fails |
| SubmissionService.GetCurrentStageMeaning | internal/service/submission.go:50-91 | with no record: the first stage's order, ID and deadline, failing only when the competition has no stage; with a record: the current stage's ID, zero next values when the team's earliest record is not "lolos" or no later stage exists, else the catalog successor's order, ID and deadline |
| SubmissionService.GetCurrentStageFrom | internal/service/submission.go:67-91 | given the looked-up records: zeros unless the first is "lolos", else the successor's values |
| SubmissionService.EarliestRecord | internal/repository/submission.go:32-46 | the team's first record in store order, none exactly when the team has no record |
| SubmissionService.TeamLookupHead | internal/service/submission.go:67-72 | the status filter with stage 0 returns the team's records, the first being its earliest record |
| SubmissionService.Gate | internal/service/submission.go:138-160 | the track rule: competition 2 needs a verified team; competition 3 admits a verified team only past order 1 and an unverified one only at order 1; any other competition needs a verified team at order 1 |
| SubmissionService.Submit | internal/service/submission.go:111-174 | the denial chain in order: "tidak lolos" then "diproses" on the current stage, then the strict deadline, then "ditolak", then the gating stage fetched by ID current+1 (NotFound when missing) and the track rule; on success exactly one "diproses" record for the next stage ID with the given link is appended and nothing else changes |
| SubmissionService.CreateSubmission | internal/service/submission.go:96-175 | a GetCurrentStage failure is passed through unchanged; otherwise the user has a team and the answer is the denial chain for that team |
| SubmissionService.UpdateStatusSubmission | internal/service/submission.go:177-179 | the service only forwards to the store's status update; nothing else changes |
| SubmissionHandler.ErrorStatus | internal/handler/rest/submission.go:53-68 | the four denials get 403, 422, 409 and 410 and every other error gets 500 |
| SubmissionHandler.DenialOf | internal/handler/rest/submission.go:53-68 | reading a code back gives a denial or nothing, never another error |
| SubmissionHandler.ErrorStatusInjective | internal/handler/rest/submission.go:53-68 | the code determines the denial: decoding a denial's code gives that denial back, and 500 decodes to none |
| SubmissionHandler.CreateSubmissionEndpoint | internal/handler/rest/submission.go:42-72 | 400 on a binding failure; 201 exactly when the service succeeds; otherwise the mapped code with the world unchanged |
| SubmissionHandler.ParseVerdict | internal/handler/rest/submission.go:94-97 | only "lolos" and "tidak lolos" parse, to the status of the same text |
| SubmissionHandler.UpdateStatusEndpoint | internal/handler/rest/submission.go:74-106 | the checks in order: empty team ID, stage ID "" or "0", binding, then the status text; once all pass, exactly the store update |
| SubmissionHandler.UpdateStatusReply | internal/handler/rest/submission.go:74-106 | 200 exactly when the update passes the checks, otherwise 400 with the world unchanged |
| SubmissionHandler.ZeroStageRefused | internal/handler/rest/submission.go:83-86 | stage 0 can never be updated through the endpoint |
| SubmissionHandler.GetSubmissionEndpoint | internal/handler/rest/submission.go:13-28 | the bound filter is forwarded unchanged and answered with 201 |
| SubmissionHandler.GetCurrentStageEndpoint | internal/handler/rest/submission.go:30-40 | 500 exactly when the service fails, else 201 with its answer |
| TeamService.PaymentRow | internal/service/team.go:393-410 | the payment row has stage ID 0, the team status as status and the payment proof as link; its deadline is row 0's (ui/ux) or row 1's (business) when that row exists, and zero otherwise |
| TeamService.WithPayment | internal/service/team.go:400-416 | with no placement the list is unchanged; otherwise the payment row sits at its index, with everything before and after it in place |
| TeamService.PaymentRowRemovable | internal/service/team.go:400-416 | removing the inserted payment row gives back the original list |
| TeamService.WithPaymentKeepsRows | internal/service/team.go:400-416 | every row other than the inserted one comes from the original list |
| TeamService.SplicedShape | internal/service/team.go:400-416 | splicing the payment row into rows without one makes it the only payment row, at its placement's index, and removing it gives the rows back |
| TeamService.ProgressRowsShape | internal/service/team.go:382-416 | the page's list is the joined catalog rows, plus exactly one payment row when the name selects a placement; that row is the only payment row, and removing it gives back the catalog rows |
| TeamService.PlacementOf | internal/service/team.go:401-415 | the payment row goes first exactly when the lower-cased competition name contains "ui" or "ux"; no payment row exactly when it contains none of "ui", "ux", "bp" and "business"; otherwise second |
| TeamService.PlacementIgnoresCase | internal/service/team.go:401 | a name and its lower-cased form select the same placement |
| TeamService.ProgressRows | internal/service/team.go:382-416 | the list is the joined catalog rows when the name selects no placement, and one row longer otherwise; ProgressRowsShape states the full shape |
| TeamService.BlockingStatuses | internal/service/team.go:420-421 | the lower-cased text test matches exactly a "diproses" or "tidak lolos" record, or a team status of "diproses" |
| TeamService.PaymentNameLowered | internal/service/team.go:439-443 | the synthetic stage's name lower-cases to the "pembayaran" the resolver looks for |
| TeamService.PaymentEntryFrom | internal/service/team.go:442-447 | the first "pembayaran" row from a position that has a successor, or none |
| TeamService.PaymentSuccessor | internal/service/team.go:437-456 | the name after the first "pembayaran" row that has a successor, or "" when there is none |
| TeamService.ResolvePosition | internal/service/team.go:419-527 | the resolver fails only when it falls through to the catalog walk and the walk fails, with the walk's error |
| TeamService.ResolvePositionMeaning | internal/service/team.go:419-527 | rule one: the first row that holds the team is current, with the following row's name as next; rule two: otherwise an unverified team sits at the payment stage with ID 0; rule three: otherwise the catalog walk decides |
| TeamService.CatalogWalk | internal/service/team.go:459-527 | every failure of the walk is NotFound |
| TeamService.CatalogWalkMeaning | internal/service/team.go:459-527 | with no record: the competition's first stage and its successor's name; past a "lolos" current record: the catalog successor; on the current stage when there is no successor (next "") or the record did not pass |
| TeamService.ProgressTeam | internal/service/team.go:356-359 | an admin looks the team up by team ID, anyone else by owner ID |
| TeamService.Owner | internal/service/team.go:368-375 | the team's user, or the empty user when there is none |
| TeamService.GetProgress | internal/service/team.go:352-391 | the empty page exactly when the team is unknown; NotFound when its competition is unknown; no other failure |
| TeamService.PageOf | internal/service/team.go:361-381 | the empty page exactly when the lookup found no team; every failure is NotFound |
| TeamService.TeamProgress | internal/service/team.go:382-537 | a team with a known competition gets a page (never the empty one), or NotFound when the catalog walk fails |
| TeamService.GetProgressView | internal/service/team.go:382-537 | a page carries the team status, the competition's name, the spliced rows and the position the three rules resolve on them |
| TeamService.AdminStageNowNotice | internal/service/team.go:255-320 | with no record and a stageless competition the block is empty; otherwise its status is the "belum terverifikasi" notice exactly when the team is not verified |
| TeamService.AdminStageNow | internal/service/team.go:255-320 | with no current record and no stage in the competition the block is empty (no stage, no status, zero deadline); AdminStageNowNotice, AdminStageNowShowsCurrent and AdminStageNowWithoutRecords state the other cases |
| TeamService.AdminStageNowShowsCurrent | internal/service/team.go:282-316 | a verified team is shown its current record's stage and the status of its first record there in store order |
| TeamService.AdminStageNowWithoutRecords | internal/service/team.go:275-313 | a verified team without records is shown "diproses" at the stage with ID 1, or at no stage when there is none |
| TeamService.GetTeamById | internal/service/team.go:211-342 | with the lookup by ID as evidently intended: nothing exactly when the team is unknown; otherwise its name, status, owner's name, exactly its members and the stage block |
| TeamService.AdminViewOf | internal/service/team.go:222-341 | the view carries the found team's name and payment status |
| TeamService.GetTeamByIdAsWritten | internal/service/team.go:211-219 | as written, a view is returned only when the preloading lookup returns a team |
| TeamService.GetProgressAsWritten | internal/service/team.go:352-365 | as written, the participant's page is the same as the model's |
| TeamService.AdminLookupAlwaysEmpty | internal/repository/team.go:73-80 | as written, both admin screens answer with the empty response for every team ID, even one whose team exists, where the intended lookup finds the team |
| TeamService.NewMembers | internal/service/team.go:91-102 | one member row per requested member, of the given team |
| TeamService.UpsertTeam | internal/service/team.go:44-114 | more than two members refused first; a taken name refused only on creation; a creation appends one "belum terverifikasi" team in competition 1 and keeps every other team as it was; an update renames the user's team in place and keeps every other team; no other store changes |
| TeamService.UpsertReplacesMembers | internal/service/team.go:78-102 | afterwards the team's members are exactly the requested ones and every other team keeps its members |
| UserService.Register | internal/service/user.go:65-246 | a taken e-mail is refused before mismatched passwords; on success one inactive participant (role 2), one unnamed "belum terverifikasi" team in competition 1 and one OTP are added, and the token returned |
| UserService.RegisterTwiceRefused | internal/service/user.go:71-77 | once registered, the same e-mail is always refused |
| UserService.Login | internal/service/user.go:248-287 | an unknown e-mail and a wrong password give the same error; success carries the token, and the admin flag is set exactly for role 1 |
| UserService.RegisteredUserIsParticipant | internal/service/user.go:93-99 | a fresh registration logs in with its password, and not as an admin |
| UserService.UploadPayment | internal/service/user.go:289-323 | files above 1,048,576 bytes are refused before any lookup; then an unknown user; then a failed upload; success stores the URL as the payment proof and returns it |
| UserService.UploadedProofIsStored | internal/service/user.go:305-312 | after a successful upload the user's payment proof is the returned URL |
| UserService.UploadKtm | internal/service/user.go:325-360 | the same size limit first; success stores the URL as the student-card link |
| UserService.UploadedCardIsStored | internal/service/user.go:341-348 | after a successful upload the user's student-card link is the uploaded URL |
| UserService.VerifyUser | internal/service/user.go:362-411 | a wrong code is reported before expiry; an OTP is expired when updated strictly before now minus the configured minutes; success activates the account and deletes the OTP |
| UserService.VerifyOnce | internal/service/user.go:400-403 | a used OTP cannot verify again |
| UserService.ChangePasswordAfterVerify | internal/service/user.go:701-739 | an unknown user, then "password mismatch", then a failed hash, then "same as old password"; success stores the new hash |
| UserService.ChangedPasswordIsStored | internal/service/user.go:715-733 | after a change the stored hash is the new one, and asking again for the same password is refused as unchanged |
| UserService.GetTotalParticipant | internal/service/user.go:811-840 | the two counts are the numbers of users in competition 2 and in competition 3, and together at most the number of users |
| UserService.TrackCountStep | internal/service/user.go:811-840 | one more user adds one to a track's count exactly when their team is in that track |
| OtpService.Reissue | internal/service/otp.go:57-71 | refused while the OTP was updated strictly inside the window; refused with the OTP unchanged when the mail is not delivered; else the code is replaced and the time stamped |
| OtpService.ResendOtp | internal/service/otp.go:35-79 | unknown user, then an already active account, then a missing OTP, then the five-minute reissue |
| OtpService.ResendToken | internal/service/otp.go:81-122 | unknown user, then a missing OTP, then the one-minute reissue; the account state is not checked |
| OtpService.ReissueKeepsLookup | internal/service/otp.go:61-71 | a reissue keeps the user's OTP in place and stamps it with the current time |
| OtpService.ResendOtpRateLimited | internal/service/otp.go:57-59 | a second ResendOtp within five minutes of a successful one is refused |
| OtpService.ResendTokenAfterAMinute | internal/service/otp.go:99-101 | a second ResendToken exactly one minute later is accepted when the mail goes out |
| OtpService.VerifiedAccountRefusesResend | internal/service/otp.go:46-48 | after VerifyUser succeeds, ResendOtp always refuses the account as already active |
| ExcelService.PaymentSheet | internal/service/excel.go:117-135 | one row per user, numbered 1..n in input order; styles on sheet rows 2..n+1 exactly, alternating from the even style |
| ExcelService.BlockLines | internal/service/excel.go:226-240 | a team with k members gives k lines: the first carries number, leader, team and competition, the others only a member name |
| ExcelService.Block | internal/service/excel.go:226-240 | one line per team member, line i naming member i; BlockLines adds that only the first carries number, leader, team and competition |
| ExcelService.DistinctTeams | internal/service/excel.go:200-212 | at most one entry per user |
| ExcelService.DistinctTeamsUnique | internal/service/excel.go:209-212 | no team ID appears twice among the exported teams |
| ExcelService.DistinctTeamsComplete | internal/service/excel.go:203-212 | every exported team is the team of one of the users, and every user's team is exported |
| ExcelService.DistinctTeamsPrefix | internal/service/excel.go:203-212 | walking more users only appends teams |
| ExcelService.Sheet | internal/service/excel.go:200-242 | the only failure of the team export is NotFound |
| ExcelService.SheetFails | internal/service/excel.go:220-224 | the team export fails exactly when some exported team's competition is missing |
| ExcelService.SheetSnoc | internal/service/excel.go:226-241 | one more team appends its block numbered after all earlier teams, including those without members |
| ExcelService.RowStyleMap | internal/service/excel.go:248-251 | the style map has exactly the keys 2..n+1, all with the row style |
| ExcelService.TeamRows | internal/service/excel.go:200-242 | the loop over users computes the team export sheet |
| ExcelService.Visit | internal/service/excel.go:203-241 | one user of the loop: either the export stops and the whole sheet is the not-found error, or the loop state for the first i+1 users is reached (teams seen, next number, lines so far) |
| ExcelService.TeamSheet | internal/service/excel.go:147-273 | the team export's lines, with a row-style key for each line's sheet row and none on failure |
| ExcelService.CompetitionSheet | internal/service/excel.go:275-386 | NotFound for an unknown competition, or exactly when one of its teams has no user |
| ExcelService.CompetitionSheetSnoc | internal/service/excel.go:330-355 | a team of the competition stored after the others, with an owner, adds its own block at the end, numbered after the earlier teams, and leaves every earlier line as it was |
| ExcelService.CompetitionLines | internal/service/excel.go:330-355 | fails exactly when a team's user is missing; otherwise one line per member of the teams |
| ExcelService.CompetitionLinesSnoc | internal/service/excel.go:330-355 | a listed team with an owner adds its block, numbered after the teams before it, at the end of the lines |
| ExcelService.Lines | internal/service/excel.go:330-355 | the loop's only failure is NotFound |
| ExcelService.LinesFail | internal/service/excel.go:331-337 | the loop fails exactly when some listed team has no owner |
| ExcelService.LinesLength | internal/service/excel.go:339-354 | a finished loop wrote one line per member of the listed teams |
| Progression.CurrentAfterAppend | internal/repository/submission.go:70-82 | a record at a stage ordered above the current one becomes the new current record |
| Progression.OfferedStageIsSuccessor | internal/service/submission.go:81-91 | a non-zero offered next stage is the catalog successor of the current record's stage |
| Progression.NextStageIsNewest | internal/service/submission.go:50-91 | the offered next stage is ordered strictly above every stage the team already has a record at |
| Progression.OfferedStageExists | internal/service/submission.go:50-91 | a next stage whose deadline is not the zero time is a stage of the catalog |
| Progression.SubmittedStageExists | internal/service/submission.go:96-175 | a submission filed after the zero time lies on a stage of the catalog |
| Progression.AppendKeepsOneRecordPerStage | internal/service/submission.go:162-170 | a record on a stage where its team has none keeps one record per team and stage |
| Progression.CreateSubmissionKeepsOneRecordPerStage | internal/service/submission.go:96-175 | filing a submission keeps every team at one record per catalog stage |
| Progression.ReviewKeepsOneRecordPerStage | internal/repository/submission.go:121-125 | a review keeps every team at one record per catalog stage |
| Progression.ResubmissionWaitsForReview | internal/service/submission.go:116-123 | after a successful submission, the next one is refused as "diproses" until an admin reviews it |
| Progression.FailedReviewBlocksSubmission | internal/service/submission.go:116-119 | once the admin marks the current stage "tidak lolos", the team's submissions are refused as not passed |
| Progression.UpdateKeepsEarliest | internal/repository/submission.go:121-125 | a status update keeps which record is the team's earliest |
| Progression.PassedReviewOpensNextStage | internal/service/submission.go:67-91 | when the earliest record is at the current stage, marking it "lolos" makes GetCurrentStage offer the catalog successor |
| Progression.PassedEarliestOffersSuccessor | internal/service/submission.go:67-91 | with the earliest record "lolos", the successor of the current stage is offered |
| Progression.EarlierRecordHoldsBack | internal/service/submission.go:67-79 | when the earliest record is at another stage and not "lolos", marking the current stage "lolos" still offers no next stage |
| Repositories.UserById | internal/repository/user.go:37-45 | the user found has the ID, or any user for the zero UUID; none exactly when no user has it |
| Repositories.UserByEmail | internal/repository/user.go:37-45 | the user found has the e-mail, or any user for an empty one; none exactly when no user has it |
| Repositories.TeamByUser | internal/repository/team.go:91-99 | the team found belongs to the user; none only when no team does |
| Repositories.TeamById | internal/repository/team.go:73-80 | the team found has the ID; none only when no team has it |
| Repositories.TeamNameExists | internal/repository/team.go:42-49 | the first-match lookup by name succeeds exactly when some team carries the name |
| Repositories.PreloadingTeamById | internal/repository/team.go:73-80 | a preload naming an undeclared association finds nothing; declared preloads only give the lookup by ID |
| Repositories.CompetitionById | internal/repository/competition.go:24-33 | the competition found has the ID; none only when no competition has it |
| Repositories.OtpIndex | internal/repository/otp.go:27-35 | the code found belongs to the user, or is any code for the zero UUID; none exactly when no code matches |
| Repositories.MembersOf | internal/repository/team.go:119-127 | exactly the members of the team |
| Repositories.Assign | internal/repository/user.go:47-54 | `Updates` writes a non-empty value and keeps the column for an empty one |
| Text.Lower | internal/service/team.go:401-402 | lower-casing keeps the length and maps each character |
| Text.LowerIdempotent | internal/service/team.go:401-402 | lower-casing twice is lower-casing once |
| Text.IntTextInjective | internal/repository/submission.go:123 | distinct stage IDs have distinct decimal texts |
| Text.IntTextZero | internal/handler/rest/submission.go:83 | "0" is the text of stage 0 and of no other number |
| Seqs.FirstIndex | internal/repository/submission.go:52 | the index of the first element satisfying the condition, with none before it, or none at all |
| Seqs.Filter | internal/repository/submission.go:44 | every element kept satisfies the predicate and comes from the input, and every satisfying input element is kept; FilterConcat, FilterSnoc and FilterMultiset add that input order and multiplicities are kept |
| Seqs.FilterConcat | internal/repository/submission.go:44 | filtering distributes over concatenation |
| Seqs.FilterHead | internal/repository/submission.go:44 | the first filtered element is the first satisfying element |

## Left out

- SQL, GORM and transactions: stores are sequences, and each call is atomic. An error leaves the world unchanged.
- Store errors other than "record not found" (connection and commit failures): the model has no way to produce them.
- The check-then-write race in `CreateSubmission`: it is a concurrency concern.
- gin routing, middleware and JSON binding: binding success is the `bound` parameter; the authenticated user is an argument.
- bcrypt, JWT, e-mail sending, Supabase upload and UUID generation: each is a parameter carrying success or failure, or the value it would produce.
- The HTML of the e-mails and the random code generators: the code is an argument.
- Writing the workbook with excelize: the model stops at the rows and the row-style map. Style IDs are opaque integers.
- The export file name and header row: they are constant text with no logic.
- `GetMembersByUserID`, `GetMyTeamProfile`, `GetAllTeam`, `GetUserPaymentStatus`, `UpdateProfile`, `GetUserProfile`, `ChangePassword`, `VerifyOtpChangePassword`, `CompetitionRegistration`, `UpdateTeamStatus`: field copying or CRUD outside the progression core.
- Wall clock and time zones: `now` and deadlines are integer seconds.
- Unicode lower-casing: `strings.ToLower` is modelled on ASCII letters only.
- MySQL's text-to-number coercion of the stage path parameter: a stage matches when the parameter is its canonical decimal text, so "01" matches nothing.
- A panic in `GetCurrentStage` when the status lookup is empty: it cannot happen in the model, because the team has a record whenever a current record exists.
- The `GetTeamByID` and `getProgress` empty responses: an unknown team gives `None` or `NoTeam` rather than a zero-valued struct.
- The zero UUID: modelled as `""`, which a GORM struct condition treats as "no condition".
- Progression.ResubmissionWaitsForReview: assumes the clock is past the zero time. At or before it, a team with no next stage could file a record at stage 0, which no catalog stage joins.
- Progression.PassedReviewOpensNextStage: covers only the case where the team's earliest record is at the current stage. The other case is stated by EarlierRecordHoldsBack.
- ExcelService.DistinctTeams: its own contract only bounds the length. Uniqueness and coverage are stated by DistinctTeamsUnique and DistinctTeamsComplete.
- Row order of UUID-keyed tables (users, teams, members): modelled as insertion order. Without an ORDER BY, MariaDB typically returns them in primary-key (UUID) order, so the real order affects which member comes first in the exports and the order of users in the sheets.
- Repositories.UserByEmail and Repositories.TeamNameExists: compare text exactly. MariaDB's default collation is case-insensitive (and ignores trailing spaces), so "Alpha" and "alpha" would clash in the database.
- SubmissionRepository.AllStageView: `GetSubmissionAllStage` orders by `stage_order` only, so the order of equal-order stages and of several records at one stage is the database's choice. The model breaks ties by stage ID and by store order. RowsForOnePerStage and the Progression invariant lemmas show that a team never has two records at one stage, as long as the table starts that way.
- SubmissionRepository.RowsFor: in general it states at least one row per stage; the exact shape comes from RowsForSplit, and one row per stage from RowsForOnePerStage.

## Findings

| source | as written | input that shows it | evidently intended | confidence | as-written member | corrected member |
|---|---|---|---|---|---|---|
| internal/repository/team.go:73-80 | `GetTeamByID` preloads "Competition" and "TeamMember". `Team` (entity/team.go:5-14) declares only `TeamMembers` and `TeamProgresses`, and GORM fails a query that preloads an undeclared association. The service then answers the empty response (internal/service/team.go:216-218 and 361-363). | any world with a team T: the admin's `GetTeamByID(T.id)` and `GetDetailTeam(T.id)` answer empty | the admin screens show the team with that ID | medium; not executed | TeamService.AdminLookupAlwaysEmpty | TeamService.GetTeamById |
