# Verified models of the uploader, the console and the theme code

This project models the parts of the repository in which many steps, parties or edits meet, and proves
what they keep. `dafny verify dfyconfig.toml` checks all of it.

- **Resumable uploads** (`PartTiling`, `Upload*`). The upload command against the instance's real routes,
  over any number of runs. A run may be disturbed or killed at any request and any write of the saved id;
  between requests the instance may lose parts, damage them with or without its records telling, forget its
  running digests, let uploads expire and serve others. The saved id always names an upload of exactly these
  bytes, and requests and waits stay bounded. How a run ends is proved exactly, from what the instance and the
  disk held when it began, for runs whose tries are at most wasted in time and for any change just before the
  upload is finished.
- **Tool policy** (`JsText`, `JsonStrings`, `GroupText`, `TextControl`, `PolicyRules`, `Overlay*`,
  `PolicyEditor`). The form's warnings against what members get, its edits, its text syntax and text controls,
  and its serializer against the server's normaliser.
- **Partner rules** (`PartnerPolicy`, `PartnerScopes`, `PartnerOrder`, `StrictestRule`, `PartnerAccess`). The
  server's comparison by strictness: which rule decides, exactly when the order of a member's groups or of the
  overlay matters, and what a partner may finally choose.
- **Tables and CSV** (`TableSort`, `TableView`, `DataTable`, `CsvExport`). Search, sort and pages after any
  sequence of actions, and an RFC 4180 reader for the export.
- **Markdown** (`Markdown*`, `DocPaths`). The block reader with its inner loops and the inline reader with its
  recursion tile their input; links resolve like file paths.
- **Asynchronous views** (`ConfirmButton`, `AgentPolling`, `LatestWins`). Every order of clicks, timers,
  frames, replies and disposal.
- **Themes** (`TokenSets`, `AliasChains`, `AliasResolution`, `ThemeMaps`, `Accent`). Nested token sets made
  flat, in-place alias resolution with memos and cycles against plain chain following, separate maps for the
  two modes, and the contrast of the text on an accent.
- **Source setup** (`SetupLog`, `ProviderSetup`, `OAuthServer`, `OAuthSetup`). The two setup forms over every
  sequence of edits, clicks and answers; the second against the server's revision check.
- **Image headers** (`ImageHeader`). The JPEG and PNG size reader.

What the source updates step by step is a class or a method with loops, split where it waits for an answer;
each is proved against functions on values, about which the lemmas speak.

## Where the code does not do what one may expect

- An upload key is not unique for a base address that holds a line starting with `project:`; exactly then
  (`UploadKeys.KeyClashesExactly`). The upload command is modelled for other bases.
- An undisturbed upload fails exactly if the source is empty, the part sizes differ, a begin is needed and
  refused (over the size cap, no room, or 16 unfinished uploads), or the upload it resumes is damaged under
  unchanged records and the check reads the bytes (`UploadOutcome.Succeeds`, `UploadDamage.DamageSeen`).
- It reports success without the bytes exactly if such damage meets a check that goes by records alone
  (`server/src/uploads/parts.ts:171-173`), or if the upload was finished in an earlier run and any part was lost
  or damaged since (`server/src/uploads/routes.ts:154-155`): `UploadOutcome.UndisturbedUpload`,
  `UploadDamage.DamageUnseen`, `UploadDamage.FinishedThenLost`.
- A part that is damaged, and not absent, just before the first finalize ends the run with 422 and a forgotten id,
  where an absent one is sent again (`UploadOutcome.SurvivesLoss`).
- The agent view draws the failure of a request for a period that is no longer chosen
  (`AgentPolling.AgentView.Reply`, `AgentPolling.StaleError`).
- A rule that the policy form flags as dead can still decide for partners, because their rules are not matched
  in order (`PartnerPolicy.FlaggedOnServer`).
- Equally strict rules are not always told apart by the overlay's order, which
  `server/src/policy/overlay.ts:114-116` promises: neither among companies of one programme
  (`PartnerPolicy.GroupOrderDecides`) nor across programmes (`PartnerOrder.TwoProgrammes`). The exact conditions
  are `PartnerOrder.OverlayOrderHolds`, `PartnerOrder.OverlayOrderHoldsAlways` and
  `PartnerOrder.GroupOrderMatters`; the level never depends on an order (`PartnerOrder.LevelIgnoresOrder`).
- Choices with nothing in common may be narrowed by the order of comparison (`StrictestRule.NothingInCommon`).
- Saving an untouched overlay changes a name or reason that was cut right after a space, and a name or shown
  visibility with a line break; exactly then (`OverlayRoundTrip.UntouchedSave`, `OverlayRoundTrip.CutLeavesSpace`,
  `OverlayRoundTrip.BreaksAreLost`).
- A CSV export of one column whose last cell is blank loses that record when read (`CsvExport.ExportReadsBack`).
- A column of numbers and words has an order exactly if no word stands between two numbers that are the other way
  round (`TableSort.MixedIsRanked`, `TableSort.MixedColumnsCanCycle`).
- A call of onConfirm that disarms and goes on, as the bulk actions on invitations do (`console/app.js:4525-4527`),
  can run beside a second one; exactly then (`ConfirmButton.OneCallExactly`, `ConfirmButton.TwoAtOnce`). A prompt
  answered before its frame is drawn stays in the live region (`ConfirmButton.ConfirmButton.ClickToConfirm`).
- The credential form can leave a second source behind: exactly if the answer to a granted create was lost and one
  under another id was granted later (`SetupLog.OneSourceExactly`, `ProviderSetup.SecondSource`).

## Model

| member | source | states |
|---|---|---|
| PartTiling.Tiling | cli/upload-client.ts:65-75 | For every size and part size the parts have the ceiling count, all but the last are full, their sizes add up to the source and their slices joined are the source |
| PartTiling.SliceWindow | cli/upload-client.ts:145 | The window read again at `n * partBytes` is exactly the slice that was hashed for part `n` |
| PartTiling.CountIsCeiling | cli/upload-client.ts:69-73 | The number of parts is the size divided by the part size, rounded up |
| PartTiling.OffsetInRange | cli/upload-client.ts:69 | A part number is in range exactly if its first byte lies in the source |
| UploadSource.Read | cli/upload-client.ts:188-197 | Fills exactly `length` bytes through any pattern of short reads, with the bytes at that offset; fails exactly if the file does not reach that far |
| UploadSource.DescribeSource | cli/upload-client.ts:66-75 | One pass gives the digest and the manifest of the bytes the file had when opened, or fails exactly if it got shorter |
| UploadServer.OwnManifestIsValid | server/src/uploads/parts.ts:43-58 | The instance takes the manifest a client computes exactly if the source is not empty and not over the limits |
| UploadServer.IntactIsSlice | server/src/uploads/parts.ts:68-74 | A part whose bytes are those declared is that slice of the source |
| UploadServer.VerifyMeans | server/src/uploads/parts.ts:159-189 | The final check passes exactly if every part is recorded as declared and, unless it goes by records alone, every part's bytes are too; it says incomplete exactly if the first bad record is an absent one |
| UploadServer.AcceptedIsDeclared | server/src/uploads/parts.ts:122-147 | The running digest of all accepted parts, and the digest of an only part, is the declared one |
| UploadServer.IntactIsSource | server/src/uploads/parts.ts:197-210 | With every part intact, what is held is what was declared |
| UploadServer.ReadsBackSource | server/src/uploads/parts.ts:197-220 | Whatever storage lost or damaged, a verified read gives the source whole, exactly if every part is intact, or nothing |
| UploadServer.HandleDrifts | server/src/uploads/routes.ts:83-199 | No route changes what an upload declared, reuses an id, revives a dead upload or takes back a finished one |
| UploadServer.DriftsTransitive | server/src/uploads/routes.ts:83-199 | Any number of such changes is one of them, so runs of any length stay within what is assumed of an instance |
| UploadKeys.KeyIsUnique | cli/upload-client.ts:78-81 | Equal keys mean the same base, target, digest and size, for bases without a line that starts with `project:` |
| UploadKeys.KeyClashesExactly | cli/upload-client.ts:78-81 | A base shares keys with some shorter base exactly if it holds such a line |
| UploadKeys.ClashingUpload | cli/upload-client.ts:78-81 | For every such base, the upload at a shorter base that has the same key |
| UploadKeys.WhereInjective | cli/upload-client.ts:79 | Project and scope targets never share their line of the key |
| UploadWorld.DriftKeepsStore | cli/upload-client.ts:133-134 | Whatever an instance goes through, each saved entry still names an upload begun with exactly the bytes, base and target of its key |
| UploadWorld.SavingKeepsStore | cli/upload-client.ts:133-134 | Saving a true entry spoils no other entry |
| UploadWorld.World.Request | cli/upload-client.ts:92-101 | One request, which may be lost before or after the instance acted, delayed past other changes, or cut by a crash; what is saved stays true |
| UploadWorld.World.Save | cli/upload-client.ts:134 | A write of the saved id may never start, cut the file short, be done and yet fail, or be cut by a crash; what is saved stays true |
| UploadWorld.World.Forget | cli/upload-client.ts:122 | The same for a deletion |
| UploadClient.TryOnce | cli/upload-client.ts:146-154 | One PUT of one part: done, refused for good, or, exactly if nothing is settled and tries are left, a wait of `retryDelayMs * (attempt + 1)` |
| UploadClient.TryPart | cli/upload-client.ts:146-155 | At most `retries + 1` PUTs, all of the same part with its own bytes, and exactly the waits between them; a part of an open upload whose first tries are lost or busy and whose next one is delivered is stored exactly if no more than `retries` are, by the try after those |
| UploadTurns.WastedFirst | cli/upload-client.ts:106 | The wasted tries are those before the first turn of another kind |
| UploadTurns.CalmIsGentle | cli/upload-client.ts:146-155 | A stretch in which nothing goes wrong is one in which every part comes through in time |
| UploadClient.TriangleClosed | cli/upload-client.ts:153 | The closed form of the total wait |
| UploadClient.PutAccepts | server/src/uploads/routes.ts:161-181 | An open upload accepts each of its parts, and sending one again after a lost answer changes nothing more |
| UploadClient.SentParts | server/src/uploads/parts.ts:68-74 | After a pass, a part is recorded, and intact, exactly if it was sent or was so before |
| UploadClient.SendMissing | cli/upload-client.ts:140-159 | Only the parts reported missing are sent, each at most `retries + 1` times; the reported bytes never go down and end at the source size; if each part comes through in time, the pass succeeds and leaves exactly the upload with those parts |
| UploadClient.PassStep | cli/upload-client.ts:144-158 | One part more, whatever happens to its tries: what every moment of a pass keeps |
| UploadClient.PendingBytes | cli/upload-client.ts:141-142 | Sending a part takes exactly its bytes out of what is pending |
| UploadClient.NextReport | cli/upload-client.ts:156-157 | Each report is at least the one before and never over the source size |
| UploadRun.CarryOn | cli/upload-client.ts:111-124 | At most one request; a place to go on from is the saved upload with distinct parts of it, and none means the entry is gone; undisturbed, exactly the saved upload that can still be finished, with the parts the instance lacks |
| UploadRun.BeginOnce | cli/upload-client.ts:126-132 | Asks with the exact manifest; an accepted begin gives a new empty upload of these bytes, undisturbed exactly if the part sizes agree and there is room |
| UploadRun.SaveId | cli/upload-client.ts:133-134 | The id that is written is true of the upload, and other entries stay |
| UploadRun.BeginAnew | cli/upload-client.ts:125-136 | Begins and saves the id before any part is sent; undisturbed, it succeeds exactly if the part sizes agree and there is room |
| UploadRun.AskAnswers | server/src/uploads/routes.ts:148-159 | An answer about an upload that can only be this one lists distinct parts of it; undisturbed, it is exactly what the instance lacks |
| UploadRun.BeginAnswers | server/src/uploads/routes.ts:83-136 | An accepted begin gives a new, empty, open upload of exactly these bytes; undisturbed, it is accepted exactly if there is room |
| UploadRun.FinalizeAnswers | server/src/uploads/routes.ts:183-199 | A finalize that succeeds on an unfinished upload means it passed the check; on a finished one nothing is checked and nothing changed; one that is delivered ends with 200, 409, 422 or 500 as the upload says, and changes nothing unless it succeeds |
| UploadRun.FinishedHolds | server/src/uploads/routes.ts:183-199 | A success means that the source is held exactly if every part the finalize met was intact, which is so if the upload was unfinished and its bytes were read |
| UploadRun.PassWithinLimits | cli/upload-client.ts:140-160 | A pass issues at most `N * (retries + 1)` requests, all PUTs to the saved upload |
| UploadRun.DistinctAreFew | server/src/uploads/parts.ts:107-113 | A list of distinct part numbers is no longer than the manifest |
| UploadRecovery.SendAndFinalize | cli/upload-client.ts:160-161 | One pass and a finalize: when all that is missing comes through, the finalize meets the upload with it and ends as that upload says |
| UploadEnd.RefilledMeans | server/src/uploads/parts.ts:98-106 | Once what the records miss is sent, every record is good; the bytes are good exactly if no damage was hidden, and the check passes exactly then or if it does not read them |
| UploadEnd.EndsWell | cli/upload-client.ts:161-169 | With the one recovery a run ends well exactly if the check passes at once, or the first bad part is absent and no damage is left hidden or none is looked for |
| UploadEnd.UnreadExactly | server/src/uploads/parts.ts:171-173 | From what is there before a run: the check after it goes by records alone exactly if they all say a digest, and there is one part or the running digest is whole or lacks only missing parts |
| UploadEnd.HashedOn | server/src/uploads/parts.ts:128-138 | The running digest goes on exactly as far as the parts sent follow on it |
| UploadRecovery.RecoverOnce | cli/upload-client.ts:162-169 | After a 409: ask, send what the records miss, finalize once more; if no more than tries are lost, the second finalize ends as the upload so mended says |
| UploadRecovery.Conclude | cli/upload-client.ts:160-169 | From a known upload to its last answer: the parts sent, the upload the last finalize met and how it ended, after at most one recovery |
| UploadCommand.FindPlace | cli/upload-client.ts:111-136 | Resumed exactly if the saved entry names an upload that can still be finished; otherwise a new one, with every part to send |
| UploadCommand.Settle | cli/upload-client.ts:170-179 | The saved id goes exactly on success and on 404, 410 and 422; an answer about other bytes keeps it |
| UploadCommand.Deliver | cli/upload-client.ts:160-179 | How the rest of a run from a known upload ends, and whether the disk forgets it |
| UploadCommand.ResumableUpload | cli/upload-client.ts:84-180 | At most `5 + 2 * N * (retries + 1)` requests; success means the upload under the returned id is finished and, if it was met unfinished, passed the check, and the entry is gone; how a run ends whose tries are at most wasted in time is said for everything that may happen before its first finalize |
| UploadOutcome.UndisturbedUpload | cli/upload-client.ts:84-180 | A run with at most tries wasted in time succeeds exactly if `Succeeds` says so of its start, sending what the instance lacks; the source is then read back exactly unless the upload was spoiled under its records; a run that finds damage forgets the upload on 422 and keeps it on 500 |
| UploadOutcome.CalmEnds | cli/upload-client.ts:160-179 | The same from the end of such a run alone |
| UploadOutcome.SurvivesLoss | cli/upload-client.ts:162-169 | Whatever happens to an upload between its last part and its first finalize, if it is still open the run succeeds exactly if the check passes or the first bad part is absent and the rest is mended; a damaged first bad part ends in 422 and a forgotten id; after any mere loss of parts the source is read back |
| UploadOutcome.LossIsMended | server/src/uploads/parts.ts:92-106 | After a mere loss of intact parts the first bad part is absent and no damage is hidden |
| UploadOutcome.NoScriptIsFair | cli/upload-client.ts:84-180 | A run without any disturbance is one of those runs |
| UploadDamage.FinishedThenLost | server/src/uploads/routes.ts:154-155 | For every source: an upload that is finished and has lost its blobs is reported as complete, and the command succeeds and forgets it with nothing to read |
| UploadDamage.DamageUnseen | server/src/uploads/parts.ts:163-173 | For every source: an unfinished upload with a part damaged under an unchanged record and a whole running digest ends in success with nothing sent and nothing to read |
| UploadDamage.DamageSeen | server/src/uploads/parts.ts:174-186 | The same damage without a running digest, of more than one part: the run fails |
| UploadHistory.RunAll | cli/upload-client.ts:84-180 | Over any number of runs crashed anywhere: every part ever sent went with its own bytes to its own instance, to the upload the disk named for that very source at that moment, and every saved entry is true |
| UploadHistory.RunAgain | cli/upload-client.ts:108-179 | Recovery: after any such history, one undisturbed run succeeds exactly if `Succeeds`, and what is then read back is exactly the source unless the upload was spoiled under its records |
| GroupText.ShowThenRead | console/tool-policy-editor.js:5-6 | Reading what is shown gives the names trimmed, without empty ones and repeats, for every list of names, commas and leading brackets included |
| GroupText.ReadShowRead | console/tool-policy-editor.js:30-42 | Reading, showing and reading again gives the same names |
| GroupText.CleanIsClean | console/tool-policy-editor.js:41 | A cleaned list has no blank, untrimmed or repeated name, and cleaning it again changes nothing |
| GroupText.DistinctKeepsOrder | console/tool-policy-editor.js:41 | Names keep the order in which they first appear |
| GroupText.CommaFormIsNotJson | console/tool-policy-editor.js:32 | The comma form of names that do not need JSON is never taken for JSON |
| JsonStrings.ParseStringify | console/tool-policy-editor.js:34 | Parsing gives back every array of strings that was printed, lone surrogates included (RFC 8259, section 7) |
| JsText.TrimTwice | console/tool-policy-editor.js:41 | Trimmed text has no white space at either end, and trimming it again changes nothing |
| PolicyRules.FirstMatch | server/src/policy/overlay.ts:126 | The first rule that matches: it does, and none before it does |
| PolicyRules.FlaggedMeansDead | console/tool-policy-editor.js:55-65 | A rule that names a group is flagged "never applies" or "All groups" exactly if no set of groups resolves to it |
| PolicyRules.UnflaggedReaches | console/tool-policy-editor.js:58-62 | A member who gets a rule that is not flagged |
| PolicyRules.DeletingFlaggedIsSafe | console/tool-policy-editor.js:176 | Deleting a flagged rule keeps what every member gets |
| PolicyRules.RemoveAffectsOnlyItsMembers | console/tool-policy-editor.js:176 | Deleting any rule changes nothing for a member whose first match it is not |
| PolicyRules.AddedRuleReaches | console/tool-policy-editor.js:179-186 | A rule at the add position reaches exactly the members that match it and no rule above; no catch-all shadows it |
| PolicyRules.AddingBlankIsSafe | console/tool-policy-editor.js:179-186 | Adding a rule without groups changes nothing for anyone |
| PolicyRules.SwapAffectsOnlyBoth | console/tool-policy-editor.js:159-163 | Moving a rule past its neighbour matters only to members who match both |
| PolicyRules.ResolveConcat | server/src/policy/overlay.ts:126 | What is found in two rule lists one after the other |
| PolicyEditor.Editor.Edit | console/tool-policy-editor.js:145-157 | Editing one rule leaves every other rule of every input as it is |
| PolicyEditor.Editor.SetGroups | console/tool-policy-editor.js:145-146 | Setting a rule's groups changes what a member gets only if the member matches the rule before or after and no rule above |
| PolicyEditor.Editor.SwapDown | console/tool-policy-editor.js:159-163 | The two rules change places, and only members who match both are affected |
| PolicyEditor.Editor.RemoveRule | console/tool-policy-editor.js:176 | The rule is gone; a flagged one is missed by nobody |
| PolicyEditor.Editor.AddRule | console/tool-policy-editor.js:179-186 | The rule is added above the first catch-all and changes nothing for anyone; the first rule of an input is for everyone |
| PolicyEditor.Editor.EntriesOf | console/tool-policy-editor.js:97-119 | The rules of one input as they are sent, or nothing exactly if one of them is refused |
| PolicyEditor.Editor.TypeName | console/tool-policy-editor.js:16 | The name control keeps one line of what is typed or pasted |
| PolicyEditor.Editor.TypeVisibility | console/tool-policy-editor.js:18 | So does the visibility control |
| PolicyEditor.Editor.Body | console/tool-policy-editor.js:85-132 | The body that is sent, or nothing exactly if the form cannot be saved; a name that is sent is one line |
| PolicyEditor.ChangedRuleReaches | console/tool-policy-editor.js:145-157 | A changed rule matters only where no rule above matches |
| PolicyEditor.SaveUntouched | console/tool-policy-editor.js:85-132 | Opening a stored overlay and saving it untouched is always accepted, and stores the same exactly if its name and reasons are trimmed and its name and shown visibility are one line |
| OverlayRoundTrip.UntouchedRule | console/tool-policy-editor.js:97-119 | An untouched rule goes out with its own typed values, and is stored as it is sent |
| TextControl.KeptWhole | console/tool-policy-editor.js:16 | A text input keeps its initial text exactly if that is one line (HTML, section 4.10.5.1.2) |
| TextControl.ShownReadsBack | console/tool-policy-editor.js:17-18 | What the visibility control holds is read as the names without their line breaks, or as the names themselves where they are shown as JSON |
| TextControl.ShownWhole | console/tool-policy-editor.js:93 | The shown groups come back unchanged exactly if they are shown on one line |
| OverlayRoundTrip.UntouchedName | console/tool-policy-editor.js:121 | A stored name goes out without line breaks and trimmed, and is stored so |
| OverlayRoundTrip.UntouchedVisibility | console/tool-policy-editor.js:122 | A stored visibility goes out as its control shows it, and is stored so |
| OverlayRoundTrip.UntouchedBody | console/tool-policy-editor.js:85-132 | The body of an untouched form is the stored overlay with name and visibility as text controls keep them and the name and the reasons trimmed |
| OverlayRoundTrip.UntouchedSave | server/src/policy/overlay.ts:357-437 | Saving an untouched overlay is always accepted and stores the same overlay exactly if its name and reasons are trimmed and its name and shown visibility are one line |
| OverlayRoundTrip.BreaksAreLost | console/tool-policy-editor.js:16-18 | A stored name and group of two lines, which an untouched save joins into one |
| OverlayRoundTrip.CutLeavesSpace | server/src/policy/overlay.ts:364-368 | A stored text is not trimmed exactly if it was cut right after a space, which is when a save changes it |
| OverlayRoundTrip.NormalizedIsStored | server/src/policy/overlay.ts:357-437 | What the server stores: clean groups, texts within their limits, values and choices only where the level has them |
| OverlayRoundTrip.EnforceTwice | server/src/policy/overlay.ts:410-429 | Enforcement that is stored is stored again unchanged |
| PartnerPolicy.DecidesByOrderOrLead | server/src/policy/overlay.ts:118-140 | The rule a member gets is the first match, or leads in one of the member's own partner groups |
| PartnerPolicy.OneGroupDecides | server/src/policy/overlay.ts:154-192 | A member with one partner group gets the rule that leads in it |
| PartnerPolicy.FlaggedOnServer | server/src/policy/overlay.ts:118-192 | Whatever companies an instance knows: a rule the form flags as dead decides for somebody there exactly if it leads in a partner group |
| PartnerPolicy.StrictestLeads | server/src/policy/overlay.ts:199-206 | The strictest rule that names a group, the first of equals, leads in it |
| PartnerScopes.PicksAreOfScopes | server/src/policy/overlay.ts:160-182 | The answers compared are those of the member's scopes: each programme with the groups that speak for it, each company of no programme of theirs |
| PartnerScopes.VoicesAnswer | server/src/policy/overlay.ts:167 | Of several companies, the first that a rule of the rank names gives the answer |
| PartnerScopes.SortFindsBest | server/src/policy/overlay.ts:184 | The stable sort puts in front the pick with the earliest first rule, the first of those in the list |
| PartnerOrder.SpeakerDecides | server/src/policy/overlay.ts:154-192 | In any order of the groups, the rule that decides is the first rule of the top rank naming one group that can speak |
| PartnerOrder.SpeakerCanDecide | server/src/policy/overlay.ts:154-192 | Every group that can speak decides in some order of the same groups |
| PartnerOrder.GroupOrderMatters | server/src/policy/overlay.ts:114-116 | The order of a member's groups does not matter exactly if all groups that can speak have the same first rule among the strictest |
| PartnerOrder.OverlayOrderHolds | server/src/policy/overlay.ts:114-116 | The first of the strictest rules in the overlay's order decides exactly if it names the group that speaks at the top rank |
| PartnerOrder.OverlayOrderHoldsAlways | server/src/policy/overlay.ts:114-116 | It decides in every order of the groups exactly if it names every group that can speak |
| PartnerOrder.LevelIgnoresOrder | server/src/policy/overlay.ts:114-116 | The level a partner gets never depends on the order of the rules or of the groups |
| PartnerOrder.NothingCounts | server/src/policy/overlay.ts:126-128 | Without a partner rule that counts, the first match decides in any order |
| PartnerOrder.TwoProgrammes | server/src/policy/overlay.ts:184 | Two programmes without companies, where the third rule decides before an equally strict second one, in every order of the groups |
| PartnerPolicy.GroupOrderDecides | server/src/policy/overlay.ts:165-170 | Equally strict rules of two companies of one programme, told apart by the order of the member's groups |
| StrictestRule.StrictestBounds | server/src/policy/overlay.ts:199-206 | The result is as strict as the strictest rule, offers only what the first of those allows, and offers something if that rule does |
| StrictestRule.SharedIsKept | server/src/policy/overlay.ts:199-206 | Choice rules that share something offer exactly what they share |
| StrictestRule.TwiceIsOnce | server/src/policy/overlay.ts:164-192 | Comparing inside each scope and then across scopes is comparing all the rules at once, unless choices decide and have nothing in common |
| StrictestRule.NothingInCommon | server/src/policy/overlay.ts:199-206 | Choices with nothing in common: comparing twice is comparing once exactly if neither the leading scope nor the comparison across scopes cuts some choices and not all |
| StrictestRule.NarrowedByOrder | server/src/policy/overlay.ts:205 | Three choice rules for which the two differ |
| PartnerAccess.StrictestAgrees | server/src/policy/overlay.ts:199-206 | The rule picked and the entry narrowed are the same rule |
| PartnerAccess.SortedAlike | server/src/policy/overlay.ts:184 | The scopes' rules in the order in which their picks are sorted |
| PartnerAccess.AccessBounds | server/src/policy/overlay.ts:118-192 | A partner gets the level of the rule that decides, only choices of that rule, and some choice if that rule has one |
| PartnerAccess.SharedIsOffered | server/src/policy/overlay.ts:154-206 | Where the strictest rules that count are choices and share something, a partner is offered exactly what all of them offer, in any order |
| TableSort.NumbersAreRanked | console/table-sort.js:33-36 | On a column of numbers the comparison is the order of their values |
| TableSort.DatesAreRanked | console/table-sort.js:37-40 | On a column of dates the comparison is the order of their times |
| TableSort.TextsAreRanked | console/table-sort.js:41 | On a column of texts the comparison is the platform's order |
| TableSort.RankedIfSteady | console/table-sort.js:27-42 | A column has an order exactly if its comparison never goes round; then counting the cells before a cell ranks it |
| TableSort.ReadingOf | console/table-sort.js:33-40 | Which columns compare by one reading and else as texts; an automatic one needs words that are no dates |
| TableSort.MixedIsRanked | console/table-sort.js:33-41 | A column of numbers and words has an order exactly if no word stands, among the texts, between two numbers that are the other way round by value |
| TableSort.MixedColumnsCanCycle | console/table-sort.js:27-42 | The cells "-10", "-2" and "-5x" go round in a circle wherever numeric collation orders the digits after one sign by value |
| TableView.SortKeeps | console/app.js:258-272 | Sorting loses and repeats no row, whatever the comparison does |
| TableView.OrderMeans | console/app.js:260-271 | On a column with ranks: blanks last in both directions, then ranks in the chosen direction, ties in the original order |
| TableView.SortInOrder | console/app.js:258-272 | The sorted list is in that order |
| TableView.OrderIsUnique | console/app.js:258-272 | Any correct sort gives this very list |
| TableView.PagesTile | console/app.js:288-293 | All pages, one after the other, are the list |
| TableView.PagesHaveRows | console/app.js:289-292 | No page that exists is empty unless nothing matches |
| DataTable.DataTable.constructor | console/app.js:248-253 | The table opens on page 1 in its original order, with the page size asked for or 25 |
| DataTable.DataTable.Apply | console/app.js:276-309 | Back to the last page if there are fewer now; the page shown is that page of the view |
| DataTable.DataTable.SearchFor | console/app.js:345-348 | A search starts again at page 1 of the matching rows |
| DataTable.DataTable.SortBy | console/app.js:310-316 | Ascending, descending, original order and round again |
| DataTable.DataTable.PickOrder | console/app.js:355-357 | The sort menu sets column and direction, or the original order |
| DataTable.DataTable.PrevPage | console/app.js:377 | One page back, and nothing on the first page |
| DataTable.DataTable.NextPage | console/app.js:378 | One page on, and nothing once the last row is shown |
| DataTable.DataTable.SetSize | console/app.js:383 | A new page size starts again at page 1 |
| DataTable.DataTable.Play | console/app.js:238-391 | After any sequence of actions the page exists and is shown as it is |
| DataTable.DataTable.ClickThrice | console/app.js:310-316 | Three clicks on a header restore the original order |
| DataTable.DataTable.ViewIsFaithful | console/app.js:256-309 | The pages together are exactly the matching rows, each once, in the order promised |
| DataTable.LastPageEnds | console/app.js:306 | The next button is off exactly on the last page |
| CsvExport.FieldReadsBack | console/app.js:362 | One cell, quoted where needed, is read back |
| CsvExport.ReadsBack | console/app.js:364-365 | An RFC 4180 reader gets every record back, except a last one that is a single empty cell |
| CsvExport.ExportReadsBack | console/app.js:361-367 | The text after the byte-order mark reads back as the headings and cells of the current view, exactly unless one column is exported and its last cell is blank |
| MarkdownInline.MatchHere | console/app.js:6689 | A match covers text that is there and captures something |
| MarkdownInline.NextMatchIsFirst | console/app.js:6691 | No match starts in a gap |
| MarkdownInline.InlineTiles | console/app.js:6687-6701 | The nodes tile the text: their sources, one after the other, are the text, the labels of links included |
| MarkdownInline.ReadInline | console/app.js:6687-6701 | The scan makes those nodes, whatever the pattern, and ends |
| MarkdownInline.ReadNode | console/app.js:6676-6683 | A label is read by a call on a text that is shorter than its link |
| MarkdownInline.MdInline | console/app.js:6687-6701 | The same for the console's own pattern |
| MarkdownBlocks.RunEndIsFirst | console/app.js:6828 | An inner loop stops at the first line that does not belong, and takes every line before it |
| MarkdownBlocks.ListHasItem | console/app.js:6843-6850 | A list always has an item for an indented line to continue |
| MarkdownBlocks.PieceAt | console/app.js:6799-6885 | Every block takes at least one line and none past the end |
| MarkdownBlocks.PiecesTile | console/app.js:6799-6885 | The pieces are contiguous, disjoint, in order and cover every line |
| MarkdownBlocks.LineInOnePiece | console/app.js:6799-6885 | Each line is in exactly one piece |
| MarkdownReader.ReadRun | console/app.js:6804 | The body of a fence and the rows of a table: the lines up to the first that does not belong |
| MarkdownReader.ReadWhile | console/app.js:6844-6850 | The items of a list and the text of a quote, gathered from exactly the lines that belong |
| MarkdownReader.ReadLines | console/app.js:6801-6862 | A block of several lines and the line after it |
| MarkdownReader.ReadBlock | console/app.js:6801-6883 | One block, the line after it, and whether the title is still to be dropped |
| MarkdownReader.ParaIsOnePiece | console/app.js:6795-6798 | The lines kept aside for a paragraph are exactly one piece |
| MarkdownReader.MdToNodes | console/app.js:6790-6888 | The loop with its inner loops and its open paragraph makes exactly the blocks of the pieces that tile the lines, and ends |
| DocPaths.ResolveDocPath | console/app.js:6662-6670 | The path is where the walk along the parts ends |
| DocPaths.ResolvedIsPlain | console/app.js:6662-6670 | A resolved path has no empty, "." or ".." part, and resolving it again changes nothing |
| DocPaths.DetoursDoNotMatter | console/app.js:6662-6670 | A link means the same whether its page's directory is written plainly or with detours |
| DocPaths.WalkOn | console/app.js:6664-6668 | Walking on is walking from where the first walk ended; up never leaves the root |
| ConfirmButton.ConfirmButton.constructor | console/app.js:441-492 | The button starts idle, showing its idle label |
| ConfirmButton.ConfirmButton.Show | console/app.js:453-460 | Label, armed mark and busy mark always say the same state |
| ConfirmButton.ConfirmButton.DisarmNow | console/app.js:461 | Disarming stops the timer and says nothing |
| ConfirmButton.ConfirmButton.LapseNow | console/app.js:462-467 | Only an armed button lapses; on the page it says that nothing changed |
| ConfirmButton.ConfirmButton.Click | console/app.js:470-483 | Busy ignores it, idle arms, armed confirms |
| ConfirmButton.ConfirmButton.ClickToArm | console/app.js:472-477 | One timer is started and the prompt announced |
| ConfirmButton.ConfirmButton.ClickToConfirm | console/app.js:478-481 | The timer is stopped; the prompt leaves the live region exactly if its frame was drawn before the click |
| ConfirmButton.ConfirmButton.Disarm | console/app.js:461 | disarm() at any time, even after its call ended |
| ConfirmButton.ConfirmButton.EndRun | console/app.js:482 | A button still busy goes back to idle |
| ConfirmButton.ConfirmButton.FailRun | console/app.js:481-482 | A call that disarms as its last act leaves the button idle with no call running |
| ConfirmButton.ConfirmButton.Fire | console/app.js:475 | A timer that goes off is the one of the arm that stands |
| ConfirmButton.ConfirmButton.Escape | console/app.js:485-490 | Escape is taken exactly while armed |
| ConfirmButton.ConfirmButton.Take | console/app.js:441-492 | A prompt outlives its arm only after an answer before the frame that shows it, on a removed button, or by a late disarm |
| ConfirmButton.OneCallExactly | console/app.js:441-492 | Over all events: after each of them the button is busy exactly while a call runs, one at a time, exactly if no disarm() takes effect while a call is running |
| ConfirmButton.OneCallStep | console/app.js:481-482 | One event breaks that exactly if it is such a disarm() |
| ConfirmButton.Run | console/app.js:441-492 | Over all events: onConfirm starts only right after an arming click with nothing in between, a timer is pending exactly while armed, and the button is where the events lead |
| ConfirmButton.TwoAtOnce | console/app.js:4525-4527 | The bulk actions disarm and then wait for the list: a second call runs beside the first, whose end makes the button idle |
| AgentPolling.AgentView.constructor | console/app.js:1358-1424 | The view starts with one request for 30 days |
| AgentPolling.AgentView.Load | console/app.js:1400-1402 | Nothing is asked while a request runs, after disposal or off the page |
| AgentPolling.AgentView.Choose | console/app.js:1422 | A new period is asked for at once, or when the running request ends |
| AgentPolling.AgentView.Tick | console/app.js:1421 | The timer asks again, or waits for the next one on a hidden page |
| AgentPolling.AgentView.Reply | console/app.js:1404-1419 | Data is drawn only for the period still chosen; the answer for a superseded period reaches the screen exactly if its request failed, the view was not disposed and the last period chosen while it ran is another; a period changed meanwhile is asked for next; being refused ends the view |
| AgentPolling.StaleError | console/app.js:1411-1412 | The failure of a superseded period on the screen while the chosen one is being asked for |
| AgentPolling.AgentView.AfterReply | console/app.js:1414-1419 | After a request there is one timer, or the next request |
| AgentPolling.AgentView.Dispose | console/app.js:1366 | No timer is left |
| AgentPolling.AgentView.Run | console/app.js:1358-1424 | Over all events at most one request and one timer; a view that is polling has asked for the period chosen and will ask again |
| LatestWins.Directory.Answer | console/app.js:5037-5046 | A result is shown only for the newest request, and never goes back to an older one |
| LatestWins.Directory.Run | console/app.js:5037-5046 | However the answers are ordered, once the newest is answered its result is shown |
| LatestWins.Panel.Select | console/app.js:1451-1471 | An editor with unsaved changes or at work holds a selection back; otherwise the panel says at once which tab is loading |
| LatestWins.Panel.Discard | console/app.js:1453-1454 | Giving up the changes carries out the selection that was asked for |
| LatestWins.Panel.Rendered | console/app.js:1476-1486 | What an older selection rendered is dropped |
| LatestWins.Panel.Run | console/app.js:1451-1487 | The panel never shows another tab than the active one, and unsaved changes stay on the screen until they are saved or given up |
| TokenSets.Flatten | console/brand-theme.js:31-43 | The recursion puts every token it meets under its dotted name, later ones over earlier ones, with its own type or the nearest above |
| TokenSets.PutTakesLast | console/brand-theme.js:35 | A name is in the flat map exactly if some token has it, with the last such token |
| TokenSets.MetIsFound | console/brand-theme.js:31-43 | The tokens met are exactly those that paths lead to, past no token and into no metadata |
| TokenSets.DottedApart | console/brand-theme.js:35 | Paths of names without dots keep apart when they are dotted |
| TokenSets.FlatIsNested | console/brand-theme.js:31-43 | Without dots in names, the flat map holds exactly the token each path leads to |
| AliasResolution.ResolveAliases | console/brand-theme.js:46-58 | In whatever order the keys are visited, every token ends up resolved to the right value |
| AliasResolution.Resolve | console/brand-theme.js:47-56 | One visit, whatever is being visited already: its memo is right, settled memos stay, and it ends on every map |
| AliasResolution.OneValueAlongCycle | console/brand-theme.js:46-58 | All tokens on or leading into one cycle get one shared value |
| AliasResolution.KeepsSettled | console/brand-theme.js:54-55 | Filling in one memo leaves every settled one settled |
| AliasChains.PlainIsLast | console/brand-theme.js:53-54 | Without nulls, a chain that ends gives the raw value of its last defined token |
| AliasChains.LoopValueIsAlias | console/brand-theme.js:52 | The value of a cycle is the alias text of one of its members |
| AliasChains.StepIsRight | console/brand-theme.js:54 | The right value of the next token gives this one's |
| AliasChains.ClosedLoops | console/brand-theme.js:46-58 | From a set of tokens that are all aliases of each other no chain ends |
| ThemeMaps.BuildThemeMaps | console/brand-theme.js:65-88 | Each mode resolves its own tokens; with a theme, no entry of the flattened sets is resolved or handed out |
| ThemeMaps.BuildFrom | console/brand-theme.js:72-87 | From entry objects shared by all themes: with a theme none of them is touched and two modes share none of their own, even if both select the same sets; without one, the sets' own entries are resolved |
| ThemeMaps.CopyEntries | console/brand-theme.js:72 | A new entry for every token, with everything the old one had |
| ThemeMaps.MergedIsSeparate | console/brand-theme.js:73-77 | Merging passes on the sets' own entries, no entry under two names |
| ThemeMaps.MergedTakesLast | console/brand-theme.js:73-77 | A token is there exactly if some selected set gives it, as the last such set's own entry |
| ThemeMaps.Merge | console/brand-theme.js:73-77 | The sets are laid over one another in order |
| ThemeMaps.SharedAliasFollowsItsMode | console/brand-theme.js:65-88 | An alias both modes share takes each mode's own value |
| Accent.ContrastInRange | console/brand-theme.js:21-24 | Contrast is symmetric and between 1 and 21 |
| Accent.BlackTimesWhite | console/brand-theme.js:17-24 | The contrasts against black and white multiply to exactly 21 |
| Accent.TextIsLegible | console/brand-theme.js:217-222 | The text colour picked has a contrast of at least the square root of 21, over 4.58, so it passes 4.5 to 1 (WCAG 2.1, section 1.4.3) |
| Accent.PickAccent | console/brand-theme.js:104-116 | The first of the best candidates, or none exactly if there is no candidate |
| Accent.UseIn | console/brand-theme.js:211-232 | An accent is used in a mode exactly if it has a contrast of 3 against the plane, with legible text |
| Accent.Apply | console/brand-theme.js:204-232 | Both modes, each with its own accent or else the other's |
| SetupLog.SecretSaysAll | console/provider-setup.js:72-79 | The secret sent tells the kind of credential and what was typed |
| SetupLog.EnabledStoredCreated | console/provider-setup.js:142-167 | Enabled only after stored, stored only after created |
| SetupLog.OneSourceExactly | console/provider-setup.js:147-157 | At most one source is created on the server exactly if no create whose answer was lost is followed by a granted one under another id |
| SetupLog.SourcesCounted | server/src/api/app.ts:9029-9038 | While nobody removes sources, those created are the ones the page was not told of and the one it was told of, so a form that ends with a source has made one exactly if no answer to a create was lost |
| SetupLog.ToldIsLast | console/provider-setup.js:94-95 | After a create whose answer came through no other one is sent |
| SetupLog.MadeMeans | server/src/api/app.ts:9013-9041 | The sources are those of the creates the server granted, told or not |
| ProviderSetup.SecondSource | console/provider-setup.js:147-157 | The form's own run: a granted create whose answer is lost, another id, and a second source, for any two settings |
| SetupLog.TestedPassed | console/provider-setup.js:132-141 | What counts as tested was sent as a test and passed, with nothing edited since |
| SetupLog.CreatedWasTested | console/provider-setup.js:102-106 | Whatever is created passed a test with the same settings, with nothing edited in between |
| SetupLog.StoredWasTested | console/provider-setup.js:142-152 | The secret stored right after the creation is the one the passing test used, for the source created |
| ProviderSetup.ProviderSetup.constructor | console/provider-setup.js:57-99 | The form starts with nothing created and no password |
| ProviderSetup.ProviderSetup.Update | console/provider-setup.js:93-101 | Which controls can be used |
| ProviderSetup.ProviderSetup.Changed | console/provider-setup.js:102-106 | An edit before the creation drops the receipt, and the buttons follow |
| ProviderSetup.ProviderSetup.EditSettings | console/provider-setup.js:200 | Settings can be edited only before the creation and while nothing runs |
| ProviderSetup.ProviderSetup.EditCredential | console/provider-setup.js:201-205 | Credentials can be edited only until they are stored and while nothing runs |
| ProviderSetup.ProviderSetup.ClickTest | console/provider-setup.js:132-136 | A test is sent with the settings and the secret of the form, exactly if the form is complete and free |
| ProviderSetup.ProviderSetup.ClickSave | console/provider-setup.js:147-150 | A source is created exactly if the receipt is eligible and the form complete |
| ProviderSetup.ProviderSetup.ClickRetry | console/provider-setup.js:158 | A retry stores a credential for the source that was created |
| ProviderSetup.ProviderSetup.ClickEnable | console/provider-setup.js:159-160 | Enabling starts with a full sync |
| ProviderSetup.ProviderSetup.AfterTest | console/provider-setup.js:137-140 | A reply counts only for the form it was sent with |
| ProviderSetup.ProviderSetup.AfterCreate | console/provider-setup.js:150-156 | After an answered creation the secret of the form is stored, or the password cleared; a refusal and a lost answer leave the form as it was |
| ProviderSetup.ProviderSetup.StoreCredential | console/provider-setup.js:142-146 | One request with the secret of the form, or the action ends |
| ProviderSetup.ProviderSetup.AfterStore | console/provider-setup.js:144 | Stored, and the password cleared |
| ProviderSetup.ProviderSetup.AfterSync | console/provider-setup.js:161-162 | The source is enabled only if the sync found files |
| ProviderSetup.ProviderSetup.AfterEnable | console/provider-setup.js:163 | Enabled |
| ProviderSetup.ProviderSetup.Discard | console/provider-setup.js:174 | The password is cleared and nothing is left to lose, even while a request runs |
| ProviderSetup.ProviderSetup.Dispose | console/provider-setup.js:212 | No password and no receipt outlive the form |
| ProviderSetup.ProviderSetup.Run | console/provider-setup.js:57-213 | Every event keeps the invariant: the requests so far are lawful |
| ProviderSetup.ProviderSetup.ValidMeans | console/provider-setup.js:90-101 | The flags say what the requests say; enabled implies stored implies created; the exact condition for one source; a form that closes without asking holds no password |
| OAuthServer.EnabledIsNamed | server/src/api/app.ts:9260-9287 | What is enabled is exactly the record the revision names, whatever others wrote during the health check |
| OAuthServer.ServeIsPlausible | server/src/api/app.ts:9260-9287 | Only a save changes settings, only a test reports, only an enable request enables |
| OAuthSetup.OAuthSetup.constructor | console/provider-oauth-setup.js:5-17 | Opened on a saved source, or on none |
| OAuthSetup.OAuthSetup.Update | console/provider-oauth-setup.js:27-36 | Which controls can be used |
| OAuthSetup.OAuthSetup.EditTyped | console/provider-oauth-setup.js:121-126 | Typing drops the receipt and brings the buttons up to date |
| OAuthSetup.OAuthSetup.EditChosen | console/provider-oauth-setup.js:121-122 | A list choice would do neither; no descriptor with consent has a list |
| OAuthSetup.OAuthSetup.ClickSave | console/provider-oauth-setup.js:51-53 | A save sends the settings on the screen |
| OAuthSetup.OAuthSetup.ClickTest | console/provider-oauth-setup.js:69-72 | A test drops the receipt and tests what is saved |
| OAuthSetup.OAuthSetup.ClickEnable | console/provider-oauth-setup.js:87-89 | Enabling needs an eligible receipt and starts with a full sync |
| OAuthSetup.OAuthSetup.Handle | console/provider-oauth-setup.js:87-95 | An enabled source is a record that a test passed on since the last answered save; unless someone else wrote, its settings are those on the screen exactly if the form is not dirty, which a form without list choices never is |
| OAuthSetup.OAuthSetup.TakeIn | server/src/catalog/providers/setup-oauth.ts:22-25 | The same, for any server that keeps to `Plausible` |
| OAuthSetup.OAuthSetup.Fail | console/provider-oauth-setup.js:42-49 | An error drops the receipt exactly if the source changed |
| OAuthSetup.OAuthSetup.AfterSave | console/provider-oauth-setup.js:54-57 | A save that is answered drops the receipt |
| OAuthSetup.OAuthSetup.AfterSync | console/provider-oauth-setup.js:89-91 | The enable request carries the revision of the eligible receipt held at that moment; none is sent after disposal |
| OAuthSetup.OAuthSetup.Arrive | console/provider-oauth-setup.js:51-95 | Answers, or their loss, for every request |
| OAuthSetup.OAuthSetup.Leave | console/provider-oauth-setup.js:102 | Leaving gives up what was typed and drops the receipt |
| OAuthSetup.Run | console/provider-oauth-setup.js:5-135 | Over all events, lost answers and other writers: what this form got enabled is a record that a test passed on, and for a form without lists, unless something had gone astray since its last save, exactly what was on its screen |
| OAuthSetup.ChoiceAfterTest | console/provider-oauth-setup.js:121-122 | Latent: were a list among the fields, a choice made after the test would leave the enable button usable, and what is enabled would not be what is on the screen |
| ImageHeader.ImageFacts | cli/render-api.ts:387-400 | Every byte string is read within its bounds and to an end; the size is that of the one frame header the segments lead to, and nothing is found exactly if they lead to none |
| ImageHeader.LeadsToOne | cli/render-api.ts:392-397 | The segments lead to at most one frame header |
| ImageHeader.JpegReadBack | cli/render-api.ts:391-397 | Start of image, any segments, a frame header and one more byte: its width and height are read (ITU-T T.81, section B.2.2) |
| ImageHeader.PngReadBack | cli/render-api.ts:388-390 | The size fields after the signature are read, as 32-bit numbers |

## Left out

- SHA-256 is taken as collision-free: a digest carries what it was made from. The same holds for a source's revision.
- Upload ids are numbers that were never handed out before; one process works on a state directory at a time, and the bytes of a source do not change during a run (that a file got shorter is modelled).
- Byte budgets of an instance are one number, what they still admit; owners, permissions, rate limits and the approval-artifact scope, which the command cannot choose, are not part of this model.
- Which uploads have a running digest while 256 others do: whether there is room for another one is part of the instance's state and may change at any time, like whether storage records a SHA-256. An accepted part whose upload expires at that very moment is not taken back.
- UploadClient.TryPart: times are sums of the delays asked for; how long a request takes is not modelled.
- UploadHistory.RunAgain: assumes that no base address holds a line starting with `project:`, because keys clash otherwise.
- PartnerPolicy.DecidesByOrderOrLead: says which rule decides; what a partner may then choose is said in PartnerAccess.
- PartnerPolicy.FlaggedOnServer: a flagged choice rule that does not decide may still narrow what an equally strict one offers.
- PartnerAccess.SharedIsOffered: choices are taken as texts, their JSON forms; the value and the reason that ride along are those of the rule that decides.
- PolicyEditor.Editor.Body: the platform's JSON reader is a parameter for typed values and choices; the lists of groups use a full model of it.
- Own names of Object.prototype among token keys; the order in which a platform lists the members of an object is taken as given.
- TableSort.MixedIsRanked: localeCompare, lower case and the reading of numbers and dates are parameters; the first is assumed to put the cells of a column at places in one order.
- CsvExport.ExportReadsBack: the reader takes a carriage return or a quote inside an unquoted field as part of it. Section 2 of RFC 4180 allows neither; the export quotes a cell only for a quote, a comma or a line feed, so a bare carriage return goes out unquoted.
- Row heads, tooltips and what is drawn of a table; CSV download.
- MarkdownReader.MdToNodes: blocks carry their lines; splitting table rows into cells, the choice of a link's target and the drawing of nodes are not part of this model.
- Accent.TextIsLegible: the transfer of a channel is any function into 0 to 1 that is 0 at 0 and 1 at 255, and the rounding of the colour to two hexadecimal digits a channel is not modelled.
- CSS colour resolution and the score of a token's name are parameters of the accent choice; surface tints and fonts are not part of this model.
- ConfirmButton.Run: the idle label is fixed; a label computed from a count is not modelled. A frame writes what was announced last.
- AgentPolling.AgentView.Run: what a reply draws, and whether it replaces a table somebody is using, are not part of this model.
- SetupLog.SourcesCounted: assumes that nobody removes a source while the form is open; OneSourceExactly does not.
- OAuthSetup.OAuthSetup.EditChosen: the one form of this kind, for Google Drive, has no list among its fields; the event stands for a future one.
- LatestWins.Panel.Run: closing an editor from inside it, and the other ways to leave the page, are not part of this model.
- ProviderSetup.ProviderSetup.Run: the typed fields of a form are one value, and whether it is complete is a parameter. Disabled controls are not edited, as the browser sees to it.
- The consent redirect, after which the page is left, and the sealing of a grant.
- Vendor calls, inventories and slugs of the render command; command dispatch, other views of the console, charts, announcements other than the confirm prompt.
