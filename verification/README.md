# Cinder, proved

A Dafny model of the parts of Cinder (a classroom suite: a Teacher app, a Student app and a
Host on the school network) whose behaviour is hard to see from one function: recovering a
paper from a cut-off answer, laying out and wrapping its text, keeping a gradebook sheet in
step with the roster, interleaved sessions, secrets that survive a crash, certificates that
are trusted once, spaced repetition, and data that moves between versions. `dafny verify
dfyconfig.toml` checks all of it.

One module stands for one component. Where the program changes things step by step, the
module has a class or a method with the program's own loops and fields, proved equal to a
specification function; what the program promises is then proved about that function, over
all inputs and all runs. Where a promise turns out not to hold everywhere, the code is kept
as it is, and a lemma gives exactly the condition under which it holds (names ending in
`Iff`) or a case where it does not.

| modules | component |
|---|---|
| `WhiteSpace`, `JsonText`, `JsonRepair`, `JsonMending`, `PaperRecovery` | reading a generated paper back from damaged JSON |
| `Sorting`, `Decimals`, `PageRanges` | page sets such as `pp. 1-3, 7` |
| `LineWrap`, `PaperLayout`, `PdfDocument`, `LayoutGuarantees`, `PaperContents` | the worksheet PDF |
| `SessionQueue`, `StudentSession`, `SessionInvariant`, `SessionGuarantees`, `SessionEffects`, `MatchboxSession` | the student's session |
| `SecretStore`, `HostIdentity` | secrets on disk and the Host's TLS identity |
| `HostPins` | trust on first use |
| `Scheduler` | spaced repetition |
| `RateLimiter` | sign-in limits |
| `LegacyMerge`, `NoteText`, `NoteMigration` | data of earlier versions |
| `CellAddress`, `GradebookHeadings`, `GradebookSheet`, `GradebookSync` | the gradebook |

## What was found

- **Repairing JSON.** Of a damaged value the repair mends the strings and drops just the
  commas too many after last entries (`RepairMendsValueIff`). The character loop returns
  every valid JSON text unchanged, but the comma expression after it looks inside strings
  too: `",]"` loses its comma (`RepairDamagesCommaInString`). A raw line break after a
  backslash passes through, so the loop is not idempotent on such texts
  (`RepairTwiceDiffers`).
- **Session.** Accounts are never mixed up in any interleaving. Hosts are not mixed up
  either, unless a sign-in starts while a change to another Host is waiting to finish. That
  takes two overlapping Host changes (the dialog can be closed and opened again while one is
  under way); the first to finish shows the login form too early
  (`OverlappingHostChangesMixHosts`).
- **Secrets.** A replacement is crash-safe unless the only copy at its start is the backup.
  The recovery inside `load_or_create_key` is just such a replacement
  (`InterruptedRecoveryLosesKey`).
- **Gradebook.** Rebuilding twice changes nothing exactly when each heading written is read
  back as some assignment. For text functions that find no title in `""  -/10`, the heading
  of a blank title, such a column is copied as if it were the teacher's own
  (`BlankTitleIsLost`). So is the saved column of an assignment that is gone by the next
  rebuild (`OldAssignmentIsKept`). An assignment called Student is looked for in the first
  column (`TitleStudentGoesAstray`). What is typed below the roster in an assignment's column
  outlives a synchronisation, where a rebuild would drop it (`StrayTypingStays`).
- **Addresses.** `2B` or `$B$2` is a cell to the assistant's reader but not to the sheet's,
  so such an edit is not highlighted in its preview (`AssistantOnlyAddresses`).
- **Layout.** The height a question is compared with leaves out the header that each new
  page repeats, so a question that "fits on a page" can still be split: 39 working lines
  below a header of two lines (`HeaderSplitsQuestion`).
- **Limiter.** The 32-bit counter comes round after 2^32 requests in one window when
  overflow is not checked, and then allows more (`CounterWrapBreaksTheLimit`).
- **Pins.** If a pin is written but the pinned client cannot be built, the old unpinned
  client stays cached beside the stored pin (`PinSavedClientNotBuilt`).
- **Scheduler.** A comment speaks of whole minutes; the code rounds to whole seconds. The
  model follows the code.
- **Notes.** A stored date that cannot be read compares with nothing; then the order after a
  migration is the engine's, though no note is lost or doubled.

## Model

| member | source | states |
|---|---|---|
| JsonRepair.RepairCommonJsonIssues | apps/teacher/src/paperLogic.ts:374-409 | the loop over characters and the comma expression compute the repair specified by `Repair` |
| JsonRepair.RepairMendsTokens | apps/teacher/src/paperLogic.ts:378-406 | the repaired text is read as the mended tokens of the original, one for one and in order |
| JsonRepair.RepairKeepsBoundaries | apps/teacher/src/paperLogic.ts:378-407 | on any text, strings begin and end where they did, text between them is kept, and a backslash in a string starts an escape allowed by section 7 of RFC 8259 |
| JsonRepair.RepairUnchangedIff | apps/teacher/src/paperLogic.ts:378-407 | the loop changes nothing exactly when no string needs mending |
| JsonRepair.RepairIdempotentIff | apps/teacher/src/paperLogic.ts:384-405 | a second pass changes nothing exactly when no raw break or tab follows a backslash in a string |
| JsonRepair.RepairTwiceDiffers | apps/teacher/src/paperLogic.ts:384-388 | a string of a backslash and a raw line break is changed again by a second pass |
| JsonRepair.TrailingCommaGoes | apps/teacher/src/paperLogic.ts:408 | in any text, of a comma, white space and a closing bracket just the bracket is left, and the text before and after is worked on as it stands |
| JsonRepair.StripJoin | apps/teacher/src/paperLogic.ts:408 | the comma expression works on two texts separately unless a match lies across the joint |
| JsonMending.RepairMendsValueIff | apps/teacher/src/paperLogic.ts:374-409 | a JSON value with damaged strings and commas after last entries becomes the same value with the strings mended and those commas gone, exactly when no mended string holds a match |
| JsonMending.MendedIsValidIff | apps/teacher/src/paperLogic.ts:384-405 | the result is valid JSON exactly when its strings hold no control characters but breaks and tabs and no unfinished `\u` |
| JsonMending.RepairKeepsValidJson | apps/teacher/src/paperLogic.ts:374-407 | every valid JSON text passes the loop unchanged |
| JsonMending.ValidMatchesIff | apps/teacher/src/paperLogic.ts:408 | in valid JSON the comma expression matches only inside keys and strings, never at a comma of the structure |
| JsonMending.RepairKeepsValidJsonIff | apps/teacher/src/paperLogic.ts:374-409 | the whole repair keeps a valid text exactly when no key and no string in it holds a match |
| JsonMending.RepairDamagesCommaInString | apps/teacher/src/paperLogic.ts:408 | a valid text that the comma expression damages |
| PaperRecovery.RecoverCompleteQuestions | apps/teacher/src/paperLogic.ts:411-459 | the scanner with its `depth`, `inString` and `escaped` computes `Recovered`, for any parser |
| PaperRecovery.ScanCharacter | apps/teacher/src/paperLogic.ts:423-456 | one turn of the scanner's loop, both parse attempts included |
| PaperRecovery.PassesValue | apps/teacher/src/paperLogic.ts:424-455 | nothing inside a value, valid or damaged (braces, brackets, quotes, backslashes), misleads the scanner |
| PaperRecovery.CompleteMeaning | apps/teacher/src/paperLogic.ts:439-443 | an object counts as complete exactly when its closing brace lies before the cut |
| PaperRecovery.CutList | apps/teacher/src/paperLogic.ts:422-457 | a list of objects, valid or damaged, cut anywhere yields the objects closed before the cut, and stops at its own bracket |
| PaperRecovery.FirstMarkerIs | apps/teacher/src/paperLogic.ts:412-420 | the list starts where the leftmost text of the form `"questions": [` ends, with any case, either quote and any white space, spelled out character by character; and nowhere if there is none |
| PaperRecovery.SpelledLead | apps/teacher/src/paperLogic.ts:412-413 | text ending in `"questions"`, white space, a colon, white space and `[` is such a start |
| PaperRecovery.FirstMarkerCut | apps/teacher/src/paperLogic.ts:412-413 | cutting the text after the first `"questions": [` keeps that match, and cutting before it loses it |
| PaperRecovery.TruncationIsExact | apps/teacher/src/paperLogic.ts:411-460 | for every list of objects after the first `"questions": [`, valid or damaged, cut at any character: exactly what the objects closed before the cut mean comes back, in order, an object read as it stands or else mended; of the parser only the listed objects are assumed to be read |
| PaperRecovery.CompleteAnswer | apps/teacher/src/paperLogic.ts:411-460 | an answer that is not cut gives every question back that can be read |
| PageRanges.CompactPageRanges | apps/teacher/src/paperLogic.ts:136-153 | the loop over sorted pages prints the text of the maximal ranges |
| PageRanges.RangesDenotePages | apps/teacher/src/paperLogic.ts:137-151 | the ranges denote exactly the pages given, increase, and leave a gap between neighbours |
| PageRanges.FewestRanges | apps/teacher/src/paperLogic.ts:142-151 | no list of ranges for the same pages is shorter |
| PageRanges.ReadBack | apps/teacher/src/paperLogic.ts:136-153 | the printed text reads back to the sorted set of pages |
| LineWrap.WrapLine | apps/teacher/src/paperExport.ts:58-93 | the nested loops compute `Wrapped` |
| LineWrap.PlaceWord | apps/teacher/src/paperExport.ts:67-90 | one word is placed on the open line, on a new one, or split letter by letter |
| LineWrap.WrappingKeepsText | apps/teacher/src/paperExport.ts:58-93 | no character but blanks is lost, added or moved, whatever the font |
| LineWrap.EveryLineFits | apps/teacher/src/paperExport.ts:58-93 | each line fits the width or is a single character |
| LineWrap.NoLineEndsEarly | apps/teacher/src/paperExport.ts:67-90 | no line ends while the next letter of a cut word, or a blank and the next whole word, would still fit |
| LineWrap.LinesReadBack | apps/teacher/src/paperExport.ts:58-93 | when each word fits on its own, the lines hold the words of the text, parted and in order |
| LineWrap.FewestLines | apps/teacher/src/paperExport.ts:58-93 | when each word fits on its own, no breaking of the words into fitting lines has fewer lines |
| LineWrap.KernedSumsAreMonotone | apps/teacher/src/paperExport.ts:69-70 | fonts that add up glyph widths, with pairs kerned by no more than either glyph's width, meet the assumption of `FewestLines` |
| PdfDocument.PdfPages.NewPage | apps/teacher/src/paperExport.ts:145-149 | a page is added, the cursor returns to the top, and the header is repeated if asked |
| PdfDocument.PdfPages.EnsureSpace | apps/teacher/src/paperExport.ts:151-153 | a new page starts exactly when the height does not fit above the bottom margin |
| PdfDocument.PdfPages.DrawWrapped | apps/teacher/src/paperExport.ts:155-185 | the wrapped lines are drawn one below the other after space was made for all of them |
| PdfDocument.PdfPages.DrawQuestion | apps/teacher/src/paperExport.ts:297-467 | the page and cursor after a question, with diagram, answer, parts, working lines and source, are those of `PaperLayout.DrawQuestion` |
| PdfDocument.PdfPages.DrawPart | apps/teacher/src/paperExport.ts:404-443 | likewise for one part, its working lines and its scheme |
| PdfDocument.PdfPages.DrawPaper | apps/teacher/src/paperExport.ts:469-471 | likewise for all questions in order |
| LayoutGuarantees.DrawnWrapped | apps/teacher/src/paperExport.ts:155-204 | a block that fits on a fresh page lands whole on one page and moves the cursor by its measured height |
| LayoutGuarantees.DrawnHead | apps/teacher/src/paperExport.ts:346-362 | number, mark and whole prompt of a question land on one page |
| LayoutGuarantees.DrawnPart | apps/teacher/src/paperExport.ts:404-443 | label, mark and text of a part land on one page, and the part drops by its measured height |
| LayoutGuarantees.NothingIsSeparated | apps/teacher/src/paperExport.ts:297-471 | both hold for every question and part of every paper whose blocks fit on a fresh page, and nothing in a question is drawn below the bottom margin |
| LayoutGuarantees.MeasuredIsDrawn | apps/teacher/src/paperExport.ts:297-467 | any question, with a diagram or without, stays on its page exactly when its measured height and the room asked for its picture fit, and then moves the cursor by that height |
| LayoutGuarantees.EstimateCovers | apps/teacher/src/paperExport.ts:298-345 | the estimate is exactly what a question without a diagram takes up, and enough for one with its diagram as expected |
| LayoutGuarantees.EstimateIsEnough | apps/teacher/src/paperExport.ts:304-351 | where the estimate fits, such a question stays and moves the cursor no further |
| LayoutGuarantees.WholeOnNewPageIff | apps/teacher/src/paperExport.ts:346-351 | a question moved to a new page is whole there exactly when it fits below the repeated header |
| LayoutGuarantees.HeaderSplitsQuestion | apps/teacher/src/paperExport.ts:145-149 | a question with an estimate within the page's capacity that is split below a header of two lines |
| PaperContents.PartIsSaid | apps/teacher/src/paperExport.ts:404-443 | for any fonts and page breaks, a part draws its label, mark and own prompt and exactly its working lines for the students, and its own answer, or that there is none, and its scheme for the teacher |
| PaperContents.QuestionIsSaid | apps/teacher/src/paperExport.ts:297-467 | likewise a question: number, mark, prompt, picture and caption or what stands in for it, answer, scheme, parts, working lines and source note, each where it belongs and in this order |
| PaperContents.PaperIsSaid | apps/teacher/src/paperExport.ts:469-471 | likewise all questions of a paper, and every mark stands below the one before it or on a later page |
| PaperContents.HeaderIsRepeated | apps/teacher/src/paperExport.ts:134-149 | a new page starts with the header's text, if it is to be repeated, and with nothing else |
| SessionQueue.Queue.Enqueue | packages/ui/src/session.ts:5-12 | an operation is chained behind the last one and becomes the new tail |
| SessionQueue.Queue.OnlyTheOldestMayRun | packages/ui/src/session.ts:3-13 | the chain of tails lets only the oldest unfinished operation run |
| SessionQueue.Queue.Run | packages/ui/src/session.ts:65-97 | an operation ends, well or badly, in its turn; a failed save leaves storage alone, a clear empties it |
| SessionQueue.CouldAppend | packages/ui/src/session.ts:65-97 | what may end up stored after one more operation: only what it saves, or what could be stored already, and nothing after a clear |
| MatchboxSession.Gate.Refresh | apps/forge/src/matchboxSession.tsx:94-102 | the start of a refresh is the machine's step: one flight a generation, and nothing when signed out |
| MatchboxSession.Gate.MeAnswered | apps/forge/src/matchboxSession.tsx:104-120 | the step after the Host answered: stale answers are dropped, a changed identity is saved first |
| MatchboxSession.Gate.MeFailed | apps/forge/src/matchboxSession.tsx:131-149 | the step after a failure: stale ones are dropped, offline keeps the session, anything else signs out |
| MatchboxSession.Gate.Login | apps/forge/src/matchboxSession.tsx:227-233 | the start of a sign-in bumps the generation and keeps the connection it uses |
| MatchboxSession.Gate.LoginAnswered | apps/forge/src/matchboxSession.tsx:233-247 | a current answer is queued for saving, with the address the sign-in started from |
| MatchboxSession.Gate.LoginSaved | apps/forge/src/matchboxSession.tsx:248-261 | the token and account are taken over only if still current and really saved |
| MatchboxSession.Gate.SwitchAccount | apps/forge/src/matchboxSession.tsx:267-277 | bumps the generation, drops token and account, and queues the clearing |
| MatchboxSession.Gate.HostAnswered | apps/forge/src/matchboxSession.tsx:286-306 | the same address only marks the app online; another one signs out and shows the waiting screen |
| MatchboxSession.Gate.HostCleared | apps/forge/src/matchboxSession.tsx:308-314 | then the new address and a new connection are put in place, and waiting ends |
| MatchboxSession.Gate.PasswordAnswered | apps/forge/src/matchboxSession.tsx:347-360 | a stale answer is dropped; otherwise the account is saved again under the token held at the start |
| MatchboxSession.Gate.RefreshSaved | apps/forge/src/matchboxSession.tsx:119-129 | a changed identity is shown once saved, if still current |
| MatchboxSession.Gate.SaveConnection | apps/forge/src/matchboxSession.tsx:281-286 | a Host change remembers the connection and address it started from |
| MatchboxSession.Gate.PasswordSaved | apps/forge/src/matchboxSession.tsx:360-363 | the updated account is shown once saved, if still current |
| MatchboxSession.Gate.RunStorage | packages/ui/src/session.ts:15 | whichever operation the queue lets run is the machine's next storage step |
| MatchboxSession.Gate.Handle | apps/forge/src/matchboxSession.tsx:94-364 | any event that can happen is one step of the machine, carried out on the fields, and keeps the invariant |
| SessionInvariant.StepKeepsInv | apps/forge/src/matchboxSession.tsx:94-364 | every step, in any order, keeps the invariant relating tasks, generation, token, account and what may be stored |
| SessionGuarantees.AccountsNeverMix | apps/forge/src/matchboxSession.tsx:94-364 | in every interleaving a token shown was issued to the account shown, and both come and go together |
| SessionGuarantees.HostsNeverMix | apps/forge/src/matchboxSession.tsx:227-316 | in every interleaving whose sign-ins start with no change to another Host waiting, a token shown was issued by the Host in use |
| SessionGuarantees.SignInIsSafeIff | apps/forge/src/matchboxSession.tsx:227-316 | in any reachable state with the login form, starting a sign-in is safe for all continuations exactly when every waiting Host change leads to the Host in use |
| SessionGuarantees.OverlappingHostChangesMixHosts | apps/forge/src/matchboxSession.tsx:281-316 | two overlapping Host changes lead to a run that shows one Host's token at another |
| SessionGuarantees.StorageSettles | apps/forge/src/matchboxSession.tsx:94-364 | once the queue has drained, storage is empty or holds a session of the current generation, which is the token and account shown, if any |
| SessionGuarantees.StoredHostFits | apps/forge/src/matchboxSession.tsx:94-364 | after a run with careful sign-ins the stored session, and its token, are of the Host in use |
| SessionGuarantees.SignedOutIsForgotten | apps/forge/src/matchboxSession.tsx:94-364 | signed out and drained, with no sign-in of the current generation being saved, storage is empty |
| SessionGuarantees.OneRefreshAGeneration | apps/forge/src/matchboxSession.tsx:94-157 | at most one refresh of a generation is under way |
| SessionEffects.WhenSessionChanges | apps/forge/src/matchboxSession.tsx:94-364 | from any state of the invariant, token and account are taken away, and the clearing queued, by exactly a switch, a change to another Host, and a refusal of the current refresh; taken over by exactly a current sign-in that was saved; renewed by a current refresh or password change that was saved; and otherwise left alone |
| SessionEffects.SignedOutIff | apps/forge/src/matchboxSession.tsx:138-148 | a signed-in student is signed out by exactly those three events |
| SessionEffects.SignedInIff | apps/forge/src/matchboxSession.tsx:248-261 | a signed-out one is signed in by exactly that one |
| SessionEffects.AwayKeepsSession | apps/forge/src/matchboxSession.tsx:138-141 | only a current refresh that finds no network marks the app offline, and it leaves account, token, connections and storage as they were |
| SessionEffects.SignInWorks | apps/forge/src/matchboxSession.tsx:227-261 | an undisturbed sign-in shows and stores account and token if the save succeeds, and neither if not |
| SessionEffects.RefreshWorks | apps/forge/src/matchboxSession.tsx:94-130 | an undisturbed refresh shows and stores what the Host says of the account now, under the same token |
| SessionEffects.RefreshWithoutNews | apps/forge/src/matchboxSession.tsx:112-130 | if that is nothing new, nothing is saved |
| SessionEffects.PasswordChangeWorks | apps/forge/src/matchboxSession.tsx:347-364 | likewise for a change of password, which is shown even if it cannot be saved |
| SessionEffects.SwitchWorks | apps/forge/src/matchboxSession.tsx:267-277 | leaving takes the account off the screen, the connection and the storage |
| SessionEffects.HostChangeWorks | apps/forge/src/matchboxSession.tsx:280-316 | an undisturbed move to another Host ends at its address, signed out, with a connection of its own and nothing stored |
| SecretStore.SecretFile.WritePrivateAtomic | crates/core/src/secure_store.rs:297-323 | the file operations, each of which by itself may be refused or be where power is lost, leave the paths as `Write` says |
| SecretStore.SecretFile.ReadWithBackup | crates/core/src/secure_store.rs:287-295 | the primary file is read, or else the backup |
| SecretStore.SecretFile.LoadOrCreate | crates/core/src/secure_store.rs:80-135 | the key found is returned and put back at its path; a missing one is created; one of another length is refused |
| SecretStore.DoneOrUndone | crates/core/src/secure_store.rs:297-323 | an undisturbed replacement leaves just the new value; one that is refused leaves the old value readable |
| SecretStore.WrongLengthIsRefused | crates/core/src/secure_store.rs:84-121 | exactly a stored key of the wrong length is refused, and left as it is |
| SecretStore.ReplaceIsAtomicIff | crates/core/src/secure_store.rs:297-323 | whatever becomes of each operation, the next read gives the whole old or whole new value, exactly when the primary was present or there was no backup |
| SecretStore.NextStartRestores | crates/core/src/secure_store.rs:80-120 | after any interrupted replacement of a present key, the next undisturbed load restores the old or new key at its path |
| SecretStore.KeyIsNeverTorn | crates/core/src/secure_store.rs:80-120 | over any number of interrupted replacements and restarts, the key is always one that was stored |
| SecretStore.InterruptedRecoveryLosesKey | crates/core/src/secure_store.rs:111-114 | a crash in the recovery write loses the only copy, and the next start makes a new key |
| HostIdentity.HostDirectory.LoadSecret | crates/core/src/secure_store.rs:49-61 | loading and opening a protected value, which may write the master key |
| HostIdentity.HostDirectory.StoreSecret | crates/core/src/secure_store.rs:38-46 | sealing under the master key and replacing the file |
| HostIdentity.HostDirectory.LoadOrCreateIdentity | crates/host/src/tls.rs:61-84 | both files present are used; otherwise a new pair is made, the key stored before the certificate |
| HostIdentity.StartKeepsSound | crates/host/src/tls.rs:61-84 | a start stopped anywhere keeps every certificate on disk with its own readable key |
| HostIdentity.OneFingerprint | crates/host/src/tls.rs:61-87 | over any number of starts, each stopped or refused at any file operation, all that return an identity return the same fingerprint |
| HostIdentity.CertificateHasItsKey | crates/host/src/tls.rs:75-79 | a certificate on disk has its own key on disk, and the next undisturbed start returns an identity |
| HostIdentity.DamagedSecretStopsStart | crates/host/src/tls.rs:61-84 | a secret that is too long, not one of ours or does not open stops the start, and is neither replaced nor passed over |
| HostPins.HexRoundTrip | crates/core/src/host_client.rs:246-248 | a pin written as hexadecimal text reads back as the digest |
| HostPins.HostClient.ClientOf | crates/core/src/host_client.rs:256-265 | the cached client, or a new one that expects the stored pin, is returned and cached |
| HostPins.HostClient.SendRequest | crates/core/src/host_client.rs:323-399 | a request with all its outcomes: mismatch, failure, first contact, pin not saved, client not built |
| HostPins.HostClient.ForgetHost | crates/core/src/host_client.rs:269-282 | the client and the pin of that address are dropped |
| HostPins.OtherPinsUntouched | crates/core/src/host_client.rs:267-399 | a send or forget for one address changes no other address's pin |
| HostPins.SameCertificateUntilForgotten | crates/core/src/host_client.rs:143-399 | once a response came under a certificate, all later ones from that address do, through restarts, until it is forgotten |
| HostPins.StrangerIsRefused | crates/core/src/host_client.rs:364-371 | another certificate is refused and the pin stays |
| HostPins.WhatIsAnswered | crates/core/src/host_client.rs:323-399 | exactly when a request ends in an identity error, and exactly when in a response, and under which certificate |
| HostPins.TrustedAnewWhenForgotten | crates/core/src/host_client.rs:269-282 | after a Host is forgotten the next certificate it answers under is trusted |
| HostPins.UnpinnedHaveNoPinIff | crates/core/src/host_client.rs:384-398 | a send leaves an unpinned client beside a stored pin exactly when the pin was saved but the new client was not built |
| HostPins.PinSavedClientNotBuilt | crates/core/src/host_client.rs:393-397 | on first contact that failure leaves an unpinned client beside a stored pin |
| HostPins.UnpinnedHaveNoPinInRuns | crates/core/src/host_client.rs:256-282 | otherwise, over whole runs, a cached unpinned client implies no stored pin |
| Scheduler.ApplyKeepsReachable | crates/core/src/scheduler.rs:62-103 | a grade keeps the ease floor, the cap, and the fixed first and second intervals |
| Scheduler.HistoryKeepsReachable | crates/core/src/scheduler.rs:39-103 | so does any history |
| Scheduler.WhenDue | crates/core/src/scheduler.rs:62-103 | a failed card is due in ten minutes; a passed one after its interval, to the nearest second and no sooner than a day, and which interval that is |
| Scheduler.EaseAfterEqualAnswers | crates/core/src/scheduler.rs:73-80 | the ease after any number of equal answers, in closed form |
| Scheduler.BetterAnswersNeverShorten | crates/core/src/scheduler.rs:62-103 | answers at least as good at the same times end with ease, repetitions, interval and due time no smaller |
| Scheduler.SevenGoodReviewsReachTheCap | crates/core/src/scheduler.rs:82-96 | a card always graded Good stands at the 365-day cap exactly from its seventh review on |
| RateLimiter.AuthLimiter.Allow | crates/host/src/rate_limit.rs:32-43 | sweep, restart of a window, wrapping count and answer are those of `AllowStep` |
| RateLimiter.SweepingIsInvisible | crates/host/src/rate_limit.rs:32-43 | over every run in time order the answers are those of a limiter that never sweeps |
| RateLimiter.AddressesAreIndependent | crates/host/src/rate_limit.rs:32-43 | each address's answers depend on its own requests only |
| RateLimiter.AtMostSixtyAMinute | crates/host/src/rate_limit.rs:19-43 | no address is allowed more than 60 requests in any 60 seconds, as long as it never makes 2^32 within 60 seconds |
| RateLimiter.SparingAreLetIn | crates/host/src/rate_limit.rs:32-43 | a request is allowed if its address has made no more than 30 in the last 60 seconds, whoever else asks |
| RateLimiter.OneWindowKeepsLimitIff | crates/host/src/rate_limit.rs:37-42 | of any requests within one window no more than 30 are allowed exactly when there are fewer than 2^32 |
| RateLimiter.CounterWrapBreaksTheLimit | crates/host/src/rate_limit.rs:41-42 | 2^32 + 30 requests at once are allowed at least 61 times |
| LegacyMerge.MoveMissingEntries | crates/core/src/lib.rs:95-116 | in any listing order and stopped after any rename or removal, the two trees still lead to the same end; when not stopped they have reached it |
| LegacyMerge.AppData.MigrateLegacyAppData | crates/core/src/lib.rs:74-93 | likewise for the whole migration; once finished, each legacy file has been carried over unless something current blocks its path, current files stand as they were, a missing current directory is the old legacy one, and no empty legacy directory is left |
| LegacyMerge.AppData.MigrateUntilDone | crates/core/src/lib.rs:74-93 | run again after every interruption, it reaches the same final pair, which is finished in that sense |
| LegacyMerge.EveryFileEndsOnce | crates/core/src/lib.rs:74-116 | every file of both trees ends in exactly one of them, and the destination's stay |
| LegacyMerge.SameEndSameFiles | crates/core/src/lib.rs:95-116 | no file is lost or doubled between interruptions |
| LegacyMerge.EndIsFinished | crates/core/src/lib.rs:74-93 | unless one is a file, the two directories end so that a legacy file stays behind exactly when its path is blocked in the current tree |
| LegacyMerge.StaysBehindIff | crates/core/src/lib.rs:104-113 | a file stays behind in a merge exactly when its path is taken in the destination |
| NoteText.ReplacementsEscape | apps/forge/src/forgeData.ts:97 | three replacements in turn escape each character once |
| NoteText.TextSurvives | apps/forge/src/forgeData.ts:96-99 | undoing paragraphs and entities gives the text with its line endings normalised |
| NoteText.NoTagFromTheNote | apps/forge/src/forgeData.ts:93-99 | the output is one paragraph for each line, with contents that hold no angle bracket, so every `<` belongs to a generated tag, and their number is known |
| NoteMigration.MigrateNotes | apps/forge/src/forgeData.ts:105-123 | the filter with its growing set, the conversion and the engine's sort compute `Migrated` |
| NoteMigration.MigrationAddsEachOnce | apps/forge/src/forgeData.ts:105-123 | whatever the dates, all stored documents are kept and each missing identifier is added once |
| NoteMigration.MigrationIsNewestFirst | apps/forge/src/forgeData.ts:121-122 | if every date can be read, newest first, ties in the given order |
| NoteMigration.MigrationAddsNothingTwice | apps/forge/src/forgeData.ts:101-112 | whatever the dates, migrating again adds nothing |
| NoteMigration.FirstNoteWins | apps/forge/src/forgeData.ts:108-112 | of several legacy notes with one identifier the first is converted |
| NoteMigration.NoNoteIsLost | apps/forge/src/forgeData.ts:105-122 | after the migration each legacy note is found under its identifier: the document stored before, or one whose text reads back as the note's, with its title, topic and date |
| NoteMigration.MigrationIsIdempotent | apps/forge/src/forgeData.ts:101-123 | if every date can be read, migrating again changes nothing at all |
| CellAddress.ColumnName | apps/teacher/src/gradebookIntent.ts:65-74 | the loop builds the letters of a column |
| CellAddress.ColumnValue | apps/teacher/src/gradebookIntent.ts:58-62 | the loop reads letters as a number |
| CellAddress.ValueOfLabel | apps/teacher/src/gradebookIntent.ts:54-74 | number to letters and back, for every number |
| CellAddress.LabelOfValue | apps/teacher/src/gradebookIntent.ts:54-74 | letters to number and back, for every word of capitals |
| CellAddress.LabelLength | apps/teacher/src/gradebookIntent.ts:65-74 | which columns have one, two or three letters |
| CellAddress.AddressReadsBackIff | apps/teacher/src/gradebookIntent.ts:46-63 | a written address reads back as its cell exactly within three letters and four digits |
| CellAddress.ReversedAddress | apps/teacher/src/gradebookIntent.ts:50-51 | written row first, the address means the same cell |
| CellAddress.SheetReadsPlainAddresses | apps/teacher/src/UniverGradebook.tsx:225-233 | the sheet's own reader agrees with `parseCellAddress` exactly on addresses written letters first without `$` or blanks inside, and reads no others |
| CellAddress.AssistantOnlyAddresses | apps/teacher/src/UniverGradebook.tsx:225-227 | `2B` and `$B$2` are the cell B2 to the assistant and no cell to the sheet |
| GradebookHeadings.HeadingMatchesOwn | apps/teacher/src/gradebookIntent.ts:89-109 | with distinct headings, a written heading is matched to its own assignment |
| GradebookHeadings.FoundWhereItStands | apps/teacher/src/gradebookIntent.ts:111-122 | on a rebuilt sheet an assignment is found in its own column, even past the columns shown |
| GradebookHeadings.HeaderCellLeadsBackIff | apps/teacher/src/gradebookIntent.ts:111-187 | the address issued for an assignment's heading resolves to that assignment exactly when it is within three letters and neither fixed heading is read as that assignment |
| GradebookHeadings.GradeCellLeadsBack | apps/teacher/src/gradebookIntent.ts:124-168 | a cell below an assignment's heading is that assignment's grade for the student whose username stands in its row, wherever the row has been moved; for nobody's, the student who would be there |
| GradebookHeadings.TitleStudentGoesAstray | apps/teacher/src/gradebookIntent.ts:116-120 | the address issued for an assignment called Student does not lead back to it |
| GradebookSheet.CustomColumns | apps/teacher/src/UniverGradebook.tsx:153-176 | collecting, filtering and sorting yields the teacher's own columns, left to right |
| GradebookSheet.Rebuild | apps/teacher/src/UniverGradebook.tsx:153-222 | copying those columns and writing headings, names and scores gives `RebuiltAt` at every place |
| GradebookSheet.RebuiltRowShows | apps/teacher/src/UniverGradebook.tsx:207-222 | each student's row shows name, username and scores in order: a number where the text is one, a dash while nothing is handed in, nothing while it is not marked |
| GradebookSheet.RebuildsKeepColumns | apps/teacher/src/UniverGradebook.tsx:166-187 | over any number of rebuilds with changing rosters and assignments, the saved columns whose headings no assignment ever matches keep all their cells and their order, right of the assignments |
| GradebookSheet.OldAssignmentIsKept | apps/teacher/src/UniverGradebook.tsx:166-187 | the column of an assignment that is gone by the next rebuild is kept as if it were the teacher's own |
| GradebookSheet.RebuiltHeadingRow | apps/teacher/src/UniverGradebook.tsx:187-206 | the first row of a rebuilt sheet is the two fixed headings, the assignments', and headings that match no assignment |
| GradebookSheet.HeaderCellOnSheetIff | apps/teacher/src/gradebookIntent.ts:111-187 | on any rebuilt sheet, shown up to any column, exactly when an issued heading address leads back |
| GradebookSheet.CustomAfterRebuild | apps/teacher/src/UniverGradebook.tsx:166-206 | which columns of a rebuilt sheet count as the teacher's own |
| GradebookSheet.RebuildAgainIff | apps/teacher/src/UniverGradebook.tsx:153-222 | rebuilding again changes nothing exactly when no written heading goes unmatched |
| GradebookSheet.BlankTitleIsLost | apps/teacher/src/gradebookIntent.ts:80-98 | text functions for which the heading of a blank title is lost |
| GradebookSheet.ReadBackIsNeverLost | apps/teacher/src/gradebookIntent.ts:80-109 | a heading that reads as its own title and maximum is always matched |
| GradebookSync.OpenSheet.MakeRoom | apps/teacher/src/UniverGradebook.tsx:396-415 | columns are inserted after or deleted from the assignments, and all rows rendered before or now are cleared |
| GradebookSync.OpenSheet.Sync | apps/teacher/src/UniverGradebook.tsx:387-461 | clearing, headings and roster rows leave `SyncedCell` at every place |
| GradebookSync.SyncedRowShows | apps/teacher/src/UniverGradebook.tsx:432-459 | so does each row after a synchronisation |
| GradebookSync.SyncAgreesIff | apps/teacher/src/UniverGradebook.tsx:408-459 | after a synchronisation a cell of the application shows what a rebuild would write exactly when its row was rendered before or now, or nothing stood there |
| GradebookSync.SyncAgreesWithRebuild | apps/teacher/src/UniverGradebook.tsx:408-459 | with nothing below the roster before, all of them do |
| GradebookSync.StrayTypingStays | apps/teacher/src/UniverGradebook.tsx:408-415 | what is typed below both rosters stays, and a rebuild would not have it |
| GradebookSync.TeacherCellsSurvive | apps/teacher/src/UniverGradebook.tsx:387-461 | over any run of changes and typing, cells right of the assignments hold what was typed there last, only shifted |
| GradebookSync.RunAgreesWithRebuild | apps/teacher/src/UniverGradebook.tsx:387-461 | from a rebuilt sheet, after any run ending in a synchronisation, whole columns agree with a rebuild, however far down |

## Left out

Contracts that say less than one might wish, and why:

- PaperRecovery.TruncationIsExact: the JSON parser is a parameter, and each object of the list is read by it as it stands, or in the form `JsonMending` gives for it, or not at all; an object read only after the comma expression has changed one of its strings is not covered. What `normalizeGeneratedPaper` then makes of the questions is not modelled. Characters are whole characters, not UTF-16 units, of which a cut could split one.
- LineWrap.FewestLines: assumes that a longer run of words is never narrower, which `KernedSumsAreMonotone` gives for fonts that kern no pair by more than either glyph's width.
- RateLimiter.AtMostSixtyAMinute: false once an address makes 2^32 + 30 requests within 60 seconds, as `CounterWrapBreaksTheLimit` shows, with overflow unchecked as in a release build.
- SecretStore.NextStartRestores: starts from a present primary file; otherwise it is false, as `InterruptedRecoveryLosesKey` shows.
- HostIdentity.OneFingerprint: the certificate file is written all or nothing; a torn certificate is not modelled, nor a read that fails once and works later.
- HostPins.SameCertificateUntilForgotten: requests do not overlap, and the pin file is readable whenever it exists.
- GradebookHeadings.HeaderCellLeadsBackIff: the regular expression and the Unicode cleaning behind a heading are open functions; a written heading is assumed to read back as its title and maximum.
- GradebookSync.RunAgreesWithRebuild: assumes nothing typed below the roster in the application's own columns, which `StrayTypingStays` shows it must; `SyncAgreesIff` says cell by cell what holds otherwise.
- GradebookSheet.RebuildAgainIff: `null` and `undefined` cell values are one blank value, as every reader of the sheet treats them.
- NoteMigration.MigrationIsIdempotent: with a date that cannot be read the order is the engine's, so only `MigrationAddsNothingTwice` is left.
- SessionGuarantees.HostsNeverMix: needs sign-ins to start carefully; `SignInIsSafeIff` shows the condition is exact. Clearing storage always succeeds here, saving may fail.

Not modelled at all:

- Starting up (`readStoredSession`, the boot effect) and the migration inside `loadSessionValue`: the session machine begins where they end.
- React itself: rendering, and closures that lag behind a render; each session action reads the state as it is when it starts. The logout requests sent to the Host, the remembered account names and the temporary password change no modelled state.
- Address parsing and allow-lists in `matchboxConnection.ts` and `host_client.rs`, request headers and response bodies.
- TLS handshakes, AES-GCM, DPAPI, SHA-256, file permissions: encryption is an inverse pair, digests and certificates are values. The Windows variants of the secret store are not modelled.
- Floating point: ease, intervals and page coordinates are reals; repetition counts are unbounded.
- The paper's own heading block, horizontal placement, page numbers, and `pdfSafeText`: text reaches `LineWrap` already safe.
- Symbolic links and I/O errors other than interruption in the legacy merge; `decodeWorkspace`.
- Inside the spreadsheet component: adjusting formulas when columns move, reading a text that starts with `=` as a formula, looks taken over by inserted columns, grade saves racing a synchronisation.
- Letters outside ASCII when an address is put in capitals.
