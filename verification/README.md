# SiLang practice core in Dafny

This project models the client-side practice logic of SiLang, a web app for
practising a sign-language finger alphabet. The app has six lessons.
Modules mod-1 to mod-5 each cover a range of letters. Module mod-6 covers verbs,
and each verb is signed by its first letter. A camera classifier reports a
letter on every frame. Holding the same letter for two seconds confirms it.
Confirmed targets advance the lesson, and progress is kept in browser storage.

The modules follow the program's files:

| module | file | models |
|---|---|---|
| `Common` | — | optional values, `startsWith`, ASCII `toUpperCase`, decimal rendering and parsing |
| `Records` | src/lib/progress.js | the sparse progress record, object spread (`Overlay`), the stored document |
| `ProgressStore` | src/lib/progress.js | `read` with migration and write-back, `getModuleProgress`, `setModuleProgress`, `resetModuleProgress`, `ensureWordsForModule`; the as-written sharing of `DEFAULT_PROGRESS` |
| `PracticeProgress` | src/lib/practiceProgress.js | the second reader, `writeProgress`, `resetProgress`, `getPercentFor` |
| `PracticeData` | src/lib/practiceData.js | the lesson table, `getModuleById`, `pickRandomVerbs` |
| `Features` | src/components/practice/PracticeCamera.jsx | `normalizeLandmarks` and the 126-value feature vector; the same encoder as `toFeatures` in src/components/PracticeSession.js |
| `Camera` | src/components/practice/PracticeCamera.jsx | arg-max, the 0.8 threshold, the hold tracker, one frame end to end |
| `Session` | src/components/practice/PracticeSession.jsx | the load effect, `handlePrediction`, the done tiles |
| `LegacySession` | src/components/PracticeSession.js | the stand-alone recognizer's label and confidence |
| `ModuleCard` | src/components/practice/PracticeModuleCard.jsx | status style, call to action, bar width, `handleReset` |
| `CompletionModal` | src/components/practice/ModuleCompletionModal.jsx | title, last module, the "Next" and "Exit" routes |
| `Navigation` | src/components/Navbar.jsx, src/components/dashboard/DashboardSidebar.jsx, src/components/dashboard/DashboardTopMenu.jsx | which item is highlighted |

Environment inputs are parameters:

- Storage is a value `Option<StoreDoc>`. Each operation takes the stored document and returns the document it leaves behind. `None` means the key is absent or empty, its text does not parse, or it parses to `null`. A number or boolean is `StoreDoc(None, map[])`. A string or array is a `StoreDoc(None, top)` whose `top` holds its index keys. Neither has a `modules` member, so `read` takes the old-layout branch.
- `Date.now()` is a parameter `now`.
- `Math.random()` is an oracle sequence of draws in [0, 1).
- The classifier is a function from features to class probabilities. `None` means the model did not load.
- Hand landmarks are sequences of points with exact real coordinates.

Some behaviour of the code that the model keeps as written:

- Once 2000 ms have passed, a held letter is reported as holding on every frame, so one continuous hold can confirm several targets.
- In mod-6, one confirmed first letter consumes the whole word.
- The stored index is used as loaded, with no bound against the number of targets.
- The hold duration is the constant 2000 ms.

## Model

| member | source | states |
|---|---|---|
| Common.Upper | src/components/practice/PracticeSession.jsx:39 | upper-casing keeps the length and maps each character on its own (ASCII letters only) |
| Common.DigitsValueOfNatToString | src/components/practice/ModuleCompletionModal.jsx:26-27 | reading back the decimal text of a number, as `parseInt` does for `${n}`, gives that number |
| Records.Overlay | src/lib/progress.js:65-69 | object spread: each field present in the later record wins, every other field is kept from the earlier one |
| ProgressStore.DefaultModules | src/lib/progress.js:4-13 | the six default ids, each at index 0 and not completed, mod-6 also at wordIdx 0 |
| ProgressStore.Migrate | src/lib/progress.js:30-40 | the old layout keeps exactly the defaults plus the `mod-` members, each spread over its default (or over `{}`) |
| ProgressStore.Read | src/lib/progress.js:15-48 | the defaults are always present; a stored record replaces its default whole; an old-layout document reads as its migration over the defaults; only the old layout is written back, in the new layout, without the extra members |
| ProgressStore.GetModuleProgress | src/lib/progress.js:55-58 | a stored record is returned as stored; an id with neither stored nor default record reads as `{index: 0, completed: false}` |
| ProgressStore.SetModuleProgress | src/lib/progress.js:60-71 | the module's stored record becomes what it read as, with the patch and an `updatedAt` stamp spread over it; the defaults are written out with it |
| ProgressStore.ResetModuleProgress | src/lib/progress.js:79-83 | the module's stored record becomes a copy of its default (`{}` for an unknown id), and every other module is stored as it was read |
| ProgressStore.EnsureWordsForModule | src/lib/progress.js:86-92 | a stored non-empty list is returned with no write; otherwise the generated list is returned and stored with wordIdx 0, letterIdx 0 and completed false, while the module's `index` is kept and `updatedAt` is stamped |
| ProgressStore.ReadMissing | src/lib/progress.js:15-19 | nothing stored reads as exactly the six defaults and writes nothing |
| ProgressStore.ReadOldLayout | src/lib/progress.js:29-45 | migration keeps only the `mod-` members, field-merged over their defaults, and drops every other member |
| ProgressStore.ReadTwice | src/lib/progress.js:15-48 | reading what a read left in storage finds the same modules and writes nothing more |
| ProgressStore.ReadNested | src/lib/progress.js:23-28 | a nested document holding every default id reads back unchanged |
| ProgressStore.SetThenGet | src/lib/progress.js:60-71 | after a patch the module reads as old ⊕ patch ⊕ updatedAt, and every other module reads as before |
| ProgressStore.SetKeepsUnpatchedFields | src/lib/progress.js:65-69 | fields a patch leaves out keep their values, and `updatedAt` becomes the clock reading |
| ProgressStore.ResetThenGet | src/lib/progress.js:79-83 | a reset puts that module back to its default (`{}` for an unknown id) and leaves all others alone |
| ProgressStore.ResetKnownModule | src/lib/progress.js:79-83 | a known module resets to index 0, not completed |
| ProgressStore.EnsureWordsKeepsStored | src/lib/progress.js:87-88 | a stored non-empty word list comes back unchanged and the store is untouched |
| ProgressStore.EnsureWordsStoresGenerated | src/lib/progress.js:89-91 | a generated list is stored with wordIdx 0, letterIdx 0 and completed false; the module's index is kept, `updatedAt` is the clock reading, and every other module reads as before |
| ProgressStore.EnsureWordsTwice | src/lib/progress.js:86-92 | a second call returns the first list when it was non-empty, and regenerates when it was empty |
| ProgressStore.AliasedSetModuleProgress | src/lib/progress.js:60-71 | as written: the stored record for the id is the current record (read against the possibly drifted default table) spread with the patch and the stamp; with nothing stored, exactly that record also lands in the shared default table, and with a document stored the table is untouched |
| ProgressStore.AliasedResetModuleProgress | src/lib/progress.js:79-83 | as written: the stored record for the id becomes the current (possibly drifted) default record, or `{}` for an unknown id; existing default entries are never lost |
| ProgressStore.AliasedRead | src/lib/progress.js:15-48 | as written: with nothing stored, the read hands out the shared default table itself; a new-layout document is not written back, an old-layout one is, and keeps the current default of every id it does not migrate |
| ProgressStore.AliasedResetKeepsProgress | src/lib/progress.js:60-83 | as written: on a fresh page, setting mod-1 to index 3 and then resetting it leaves index 3 |
| ProgressStore.ResetAfterSetRestoresDefault | src/lib/progress.js:79-83 | with an immutable default table, a reset after any patch restores the default |
| ProgressStore.AliasedAgreesWhenStored | src/lib/progress.js:60-71 | the as-written and the immutable update agree once storage holds a document |
| ProgressStore.AliasedReadFresh | src/lib/progress.js:15-48 | with an undrifted table the as-written read is the immutable read |
| PracticeProgress.ModuleItems | src/lib/practiceProgress.js:7-14 | the item lists are keyed by the same six ids as the store's defaults |
| PracticeProgress.DefaultModules | src/lib/practiceProgress.js:16-20 | one `{index: 0, completed: false}` per item-list key, mod-6 included |
| PracticeProgress.ReadProgress | src/lib/practiceProgress.js:22-36 | defaults when nothing is stored; otherwise stored records win, missing defaults are filled in, other top-level members are kept; no migration |
| PracticeProgress.WriteProgress | src/lib/practiceProgress.js:38-40 | the stored document holds the given modules and every other top-level member |
| PracticeProgress.ResetProgress | src/lib/practiceProgress.js:42-44 | the key is removed, so nothing is stored |
| PracticeProgress.Total | src/lib/practiceProgress.js:47 | the item count, and 1 for an unknown id |
| PracticeProgress.RoundPercent | src/lib/practiceProgress.js:49 | the result is `Math.round(100 * idx / total)`: the nearest integer, halves rounded up |
| PracticeProgress.GetPercentFor | src/lib/practiceProgress.js:46-51 | the percentage is in [0, 100]: 0 for a missing or non-positive index, 100 once the index reaches the item count, and in between the rounded share `Math.round(100 * idx / total)` |
| PracticeProgress.ReadMissing | src/lib/practiceProgress.js:22-25 | nothing stored reads as the six base records |
| PracticeProgress.ResetThenRead | src/lib/practiceProgress.js:42-44 | after `resetProgress` the reader returns the defaults and nothing else |
| PracticeProgress.WriteThenRead | src/lib/practiceProgress.js:38-40 | reading what was written gives it back, once it contains the defaults |
| PracticeProgress.PercentMonotone | src/lib/practiceProgress.js:46-51 | the percentage never decreases as the stored index grows |
| PracticeProgress.UnknownModuleIsAllOrNothing | src/lib/practiceProgress.js:47 | an unknown module counts one item: 100 for any positive index, 0 otherwise |
| PracticeProgress.ReadersAgreeOnNestedDocs | src/lib/practiceProgress.js:28-32 | on a new-layout document both readers give the same records (except a missing mod-6) |
| PracticeProgress.ReadersDisagreeOnFlatDocs | src/lib/practiceProgress.js:31 | on an old-layout document this reader ignores the flat record that the other reader migrates |
| PracticeData.Find | src/lib/practiceData.js:13 | the first module with the id, or none when no module has it |
| PracticeData.GetModuleById | src/lib/practiceData.js:12-14 | a found module has that id and is in the table; none exactly when no module has the id |
| PracticeData.Index | src/lib/practiceData.js:30 | the drawn position lies inside the pool |
| PracticeData.Draw | src/lib/practiceData.js:26-34 | the loop takes min(max(count, 0), pool size) words |
| PracticeData.DrawFromPool | src/lib/practiceData.js:29-31 | every drawn word comes from the pool, and none repeats when the pool has no repeats |
| PracticeData.PickRandomVerbs | src/lib/practiceData.js:26-34 | exactly min(count, 30) distinct words, all from `VERBS` |
| PracticeData.PickFrom | src/lib/practiceData.js:27-33 | the splice loop computes the unrolled draw, shrinking the pool by one per turn |
| PracticeData.DrawStep | src/lib/practiceData.js:29-31 | one turn moves the drawn word from the pool to the output |
| PracticeData.PickStep | src/lib/practiceData.js:29-31 | a turn of the splice loop, consuming one draw, keeps the words the loop will end with |
| PracticeData.RemoveAt | src/lib/practiceData.js:31 | `pool.splice(i, 1)` leaves only pool words, and in a pool without repeats neither a repeat nor the removed word |
| PracticeData.VerbsDistinct | src/lib/practiceData.js:17-23 | thirty verbs, no repeats |
| PracticeData.RangesSpellLetters | src/lib/practiceData.js:1-10 | the five letter ranges in order spell `LETTERS` |
| PracticeData.RangesDisjoint | src/lib/practiceData.js:3-10 | no letter is in two modules |
| PracticeData.IdsDistinct | src/lib/practiceData.js:3-10 | module ids are distinct |
| PracticeData.LookupTable | src/lib/practiceData.js:3-14 | each module is found by its own id, and mod-6 is the only one without a range |
| Features.Relative | src/components/practice/PracticeCamera.jsx:31-33 | three values per landmark, each coordinate minus the wrist's |
| Features.Normalize | src/components/practice/PracticeCamera.jsx:55 | a hand relative to its own wrist: value 3i, 3i+1 and 3i+2 are landmark i's x, y and z minus the wrist's, so the wrist's three values are zero |
| Features.Fit | src/components/practice/PracticeCamera.jsx:65 | 126 values kept as they are, any other length replaced by 126 zeros |
| Features.Order | src/components/practice/PracticeCamera.jsx:58 | the two hands by ascending wrist x, the same two hands, input order kept on a tie |
| Features.Encode | src/components/practice/PracticeCamera.jsx:52-65 | always 126 values, except that two hands with an empty one make the comparator raise |
| Features.OtherInputsAreZero | src/components/practice/PracticeCamera.jsx:65 | a frame that is not one hand of 21, or two hands of 42 landmarks in all, gives 126 zeros |
| Features.NoHandsIsZero | src/components/PracticeSession.js:47-61 | a frame with no hands gives 126 zeros |
| Features.OneHand | src/components/practice/PracticeCamera.jsx:52-56 | one hand: 63 zeros, then the hand relative to its wrist |
| Features.TwoHands | src/components/practice/PracticeCamera.jsx:57-62 | two hands: the smaller wrist x fills 0..62 and the other 63..125, both wrists at zero |
| Features.TwoHandsOrderIndependent | src/components/practice/PracticeCamera.jsx:58 | swapping two hands with different wrist x does not change the vector |
| Features.MismatchedHandsPassLengthCheck | src/components/practice/PracticeCamera.jsx:57-65 | any two non-empty hands of 42 landmarks in all pass the length check and are encoded as they are, the second wrist landing at 3 times the first hand's length |
| Camera.LabelAt | src/components/practice/PracticeCamera.jsx:77 | `LABELS[k]` is a letter exactly for k < 26 |
| Camera.ArgMax | src/components/practice/PracticeCamera.jsx:72-73 | the first index holding the largest probability |
| Camera.Observe | src/components/practice/PracticeCamera.jsx:81-92 | a new letter restarts the hold at `now` and is not holding; the same letter is holding once 2000 ms have passed since the hold began |
| Camera.Classify | src/components/practice/PracticeCamera.jsx:72-107 | a maximum not above 0.8 resets the tracker and reports "-"; otherwise the arg-max letter is observed |
| Camera.OnFrame | src/components/practice/PracticeCamera.jsx:36-115 | no hands or no model resets and reports "-"; a raising comparator changes nothing; otherwise the features are classified |
| Camera.Run | src/components/practice/PracticeCamera.jsx:81-92 | one holding flag per frame of a run of the same accepted letter |
| Camera.AcceptedIsFirstArgMax | src/components/practice/PracticeCamera.jsx:72-77 | an accepted frame has its maximum above 0.8 and reports the label of its first arg-max |
| Camera.HoldingPersists | src/components/practice/PracticeCamera.jsx:84-86 | once holding, every later frame of the same letter is holding too |
| Camera.RunFromFreshStart | src/components/practice/PracticeCamera.jsx:81-92 | a fresh run of one letter is holding exactly on the frames at least 2000 ms after its first |
| Camera.RunContinues | src/components/practice/PracticeCamera.jsx:84-86 | a run continuing a hold is holding exactly when 2000 ms have passed since the hold began |
| Camera.SwitchRestartsHold | src/components/practice/PracticeCamera.jsx:88-91 | after a run of one letter, a run of another is timed from its own first frame |
| Camera.RunTracker | src/components/practice/PracticeCamera.jsx:84-91 | after a non-empty run the tracker's last letter is the run's letter; an empty run leaves the tracker alone |
| Camera.ZeroStartRestarts | src/components/practice/PracticeCamera.jsx:85 | a hold that began at time 0 is restarted, not continued |
| Session.Load | src/components/practice/PracticeSession.jsx:19-32 | an unknown module loads nothing, at index 0, with no write; a found module is loaded by LoadWith with `module.range || []` as the word generator |
| Session.LoadWith | src/components/practice/PracticeSession.jsx:21-31 | a letter module loads its range at the stored `index` (0 if missing); mod-6 loads a stored non-empty word list at its stored `wordIdx` (0 if missing), otherwise the generated list at 0 |
| Session.LoadWithVerbs | src/components/practice/PracticeSession.jsx:23 | corrected load: an unknown module still loads nothing; a found module is loaded by LoadWith with six drawn verbs for mod-6 and nothing for the others |
| Session.AdvancePatch | src/components/practice/PracticeSession.jsx:48-58 | mod-6 writes `wordIdx`, the others write `index`; completed is whether the targets ran out |
| Session.HandlePrediction | src/components/practice/PracticeSession.jsx:34-60 | no hold, no target or a mismatch changes nothing; a match advances by one and persists the new position |
| Session.Matches | src/components/practice/PracticeSession.jsx:39-42 | mod-6 matches on the upper-cased first letter only; a letter module never matches a target longer than one character; `undefined` never matches |
| Session.DoneMarks | src/components/practice/PracticeSession.jsx:102-103 | tile i is done exactly when i is below the current index |
| Session.StepKeepsIndexInRange | src/components/practice/PracticeSession.jsx:44-46 | an index in [0, \|targets\|] stays there and moves by at most one |
| Session.LetterModuleMatch | src/components/practice/PracticeSession.jsx:39-42 | in a letter module a one-letter target is matched by its upper-case letter and by nothing else |
| Session.WordConsumedByFirstLetter | src/components/practice/PracticeSession.jsx:40-41 | in mod-6 the first letter of the word consumes the whole word |
| Session.OneHoldConsumesSharedInitials | src/components/practice/PracticeSession.jsx:34-46 | in mod-6 one continuous hold consumes the current word and the next one whenever both have the same initial |
| Session.MatchIsPersisted | src/components/practice/PracticeSession.jsx:48-58 | after a match the stored record holds the new position and completion |
| Session.ResumeAfterStep | src/components/practice/PracticeSession.jsx:27-58 | reopening a letter module resumes at the index the last step left, with the same targets |
| Session.WordResumeAfterStep | src/components/practice/PracticeSession.jsx:21-52 | reopening mod-6 after a prediction gives the same word list and resumes at the word the step left |
| Session.WordLoadStored | src/components/practice/PracticeSession.jsx:21-26 | after mod-6's load, its stored record holds the loaded word position and the loaded non-empty list |
| Session.MatchMarksOneMoreDone | src/components/practice/PracticeSession.jsx:102-103 | a match marks exactly one more tile as done |
| Session.WordModuleHasNoTargets | src/components/practice/PracticeSession.jsx:21-26 | as written, mod-6 on a fresh store has no targets and no prediction advances it |
| Session.WordModuleWithVerbs | src/components/practice/PracticeSession.jsx:23 | corrected, mod-6 on a fresh store gets six distinct verbs, starting at word 0 |
| LegacySession.LabelOrDash | src/components/PracticeSession.js:147 | the label is the letter for an index below 26 and "-" beyond |
| LegacySession.OnResults | src/components/PracticeSession.js:141-160 | no hands or no model shows "-"; a raising encoder leaves the display as it was; otherwise the arg-max label and its confidence, with no threshold |
| LegacySession.AgreesWithCameraWhenAccepted | src/components/PracticeSession.js:141-148 | where the practice camera accepts a frame, this page shows the same letter |
| LegacySession.FlatOutputIsShown | src/components/PracticeSession.js:127 | the unused threshold: an output flat at any level up to 0.8 is shown as "A" with that confidence here and dropped by the practice camera |
| LegacySession.ToFeaturesShape | src/components/PracticeSession.js:47-61 | 126 values; one hand after 63 zeros; two hands by wrist x; anything else all zeros |
| ModuleCard.StyleFor | src/components/practice/PracticeModuleCard.jsx:24 | a known status gets its own style, an unknown one the "Tersedia" style |
| ModuleCard.BadgeShowsStatus | src/components/practice/PracticeModuleCard.jsx:9-24 | the three statuses have pairwise different badges, and an unknown status looks like "Tersedia" |
| ModuleCard.Cta | src/components/practice/PracticeModuleCard.jsx:27-28 | "Ulangi" exactly when completed, "Mulai" exactly at or below 0, "Lanjutkan" in between |
| ModuleCard.BarWidth | src/components/practice/PracticeModuleCard.jsx:87 | the progress clamped to [0, 100] |
| ModuleCard.RoundedProgress | src/components/practice/PracticeModuleCard.jsx:95 | the nearest integer to the progress, halves rounded up |
| ModuleCard.ResetPatch | src/components/practice/PracticeModuleCard.jsx:35-46 | index 0 and not completed, plus wordIdx 0 for mod-6 only |
| ModuleCard.HandleReset | src/components/practice/PracticeModuleCard.jsx:30-46 | after the card's reset the module reads at index 0, not completed, stamped, with its word list unchanged |
| ModuleCard.ResetButtonMeansRepeat | src/components/practice/PracticeModuleCard.jsx:100-112 | the reset button is shown exactly when the label is "Ulangi" |
| ModuleCard.ResetRewindsOnlyPosition | src/components/practice/PracticeModuleCard.jsx:30-46 | reset rewinds index and completion (and mod-6's wordIdx), keeps words and letterIdx, and leaves other modules alone |
| ModuleCard.CardResetKeepsWords | src/components/practice/PracticeModuleCard.jsx:35-40 | the card's reset keeps mod-6's stored words, which the store's own reset drops |
| ModuleCard.ResetThenLoadStartsOver | src/components/practice/PracticeModuleCard.jsx:41-46 | reopening a letter module after its reset starts at the first target |
| ModuleCard.ResetThenLoadKeepsWordList | src/components/practice/PracticeModuleCard.jsx:35-40 | reopening mod-6 after its reset starts at word 0 of the same list |
| CompletionModal.Title | src/components/practice/ModuleCompletionModal.jsx:19 | a known id's title, otherwise "Modul" |
| CompletionModal.UpToDash | src/components/practice/ModuleCompletionModal.jsx:26 | the longest dash-free prefix |
| CompletionModal.AfterDash | src/components/practice/ModuleCompletionModal.jsx:26 | the text after the first dash, none exactly when there is no dash |
| CompletionModal.SecondField | src/components/practice/ModuleCompletionModal.jsx:26 | `split('-')[1]`: dash-free, and `undefined` exactly when there is no dash |
| CompletionModal.ParseInt | src/components/practice/ModuleCompletionModal.jsx:26 | NaN for `undefined` and for a field that does not start with a digit |
| CompletionModal.NextRoute | src/components/practice/ModuleCompletionModal.jsx:22-29 | no navigation exactly for mod-6; otherwise a route under `/dashboard/practice/` |
| CompletionModal.Press | src/components/practice/ModuleCompletionModal.jsx:22-33 | Exit goes to `/dashboard/practice`; Next goes where `handleNext` sends it |
| CompletionModal.RoutesStayInPractice | src/components/practice/ModuleCompletionModal.jsx:22-33 | every route the dialog pushes is under `/dashboard/practice`, and only mod-6's Next pushes none |
| CompletionModal.AfterDashPrefix | src/components/practice/ModuleCompletionModal.jsx:26 | after a dash-free name and a dash comes the rest |
| CompletionModal.UpToDashConcat | src/components/practice/ModuleCompletionModal.jsx:26 | a dash-free prefix is kept whole by the field cut |
| CompletionModal.SecondFieldOfNumbered | src/components/practice/ModuleCompletionModal.jsx:26 | the second field of `<name>-<digits><rest>` is the digits and the rest up to its dash |
| CompletionModal.ParseIntOfDigits | src/components/practice/ModuleCompletionModal.jsx:26 | `parseInt` reads the leading digits and stops at the first non-digit |
| CompletionModal.NextOfNumbered | src/components/practice/ModuleCompletionModal.jsx:26-28 | `<name>-<k><rest>` leads to `/dashboard/practice/mod-<k+1>` |
| CompletionModal.NextFollowsTable | src/components/practice/ModuleCompletionModal.jsx:26-28 | Next from module i is module i + 1 of the lesson table, a known id; mod-6 has none |
| CompletionModal.NoNumberGivesNaN | src/components/practice/ModuleCompletionModal.jsx:26-28 | an id with no number after its dash leads to `mod-NaN` |
| CompletionModal.TitlesMatchTable | src/components/practice/ModuleCompletionModal.jsx:7-14 | the dialog's titles are the lesson table's titles |
| Navigation.NavbarActive | src/components/Navbar.jsx:19-28 | Home exactly on "/"; About exactly on "/about" and anything under "/about/"; never both |
| Navigation.ItemActive | src/components/dashboard/DashboardTopMenu.jsx:11-13 | an exact match is active, an active href is a prefix of the path, any extension activates an item other than Learn, and Learn needs the exact path |
| Navigation.AboutNeedsSeparator | src/components/Navbar.jsx:26 | a path continuing "/about" with anything but "/", such as "/aboutus", highlights no navbar item |
| Navigation.DashboardActive | src/components/dashboard/DashboardSidebar.jsx:38-40 | Learn is highlighted only on its exact path; Practice on any path that begins with its href |
| Navigation.DashboardExclusive | src/components/dashboard/DashboardSidebar.jsx:10-13 | Learn and Practice are never both highlighted |
| Navigation.NestedPages | src/components/dashboard/DashboardSidebar.jsx:38-40 | every page below Practice highlights Practice; every page below Learn highlights nothing |
| Navigation.PracticePrefixWithoutSeparator | src/components/dashboard/DashboardTopMenu.jsx:13 | whatever follows the Practice href, Practice is highlighted |

## Left out

- Server rendering (`typeof window === "undefined"`): every operation is modelled as running in the browser.
- JSON text: the store holds the parsed document. Top-level members that are not objects are kept, but they contribute no fields. `JSON.stringify` is assumed to round-trip the document.
- Unparseable text and `null` both read as `None`. The source handles both in the same way: it takes the `catch` branch or returns the defaults.
- Members of `modules` that are not objects (`null`, numbers, strings) cannot be represented, and neither can a truthy `modules` that is not an object. A stored module record is always an object here. So the fall-through of `getModuleProgress` past a `null` entry to the default is not modelled.
- Floating point: probabilities, coordinates and the card's progress are exact reals.
- `Math.round` in `getPercentFor` is computed on the exact quotient. The half-way cases cannot arise with totals of 1, 5 and 6.
- Confidence text formatting (`toFixed(1)`) is left out. The model keeps the value times 100.
- `parseInt`: leading whitespace, a `+` sign, hexadecimal prefixes and loss of precision on very long digit strings are left out, because module ids never contain them.
- `toUpperCase` is modelled for ASCII only. The targets are ASCII.
- Script loading, camera and model start-up, drawing, tensors and their disposal are I/O and are left out.
- A classifier that raises is left out: the classifier is a total function.
- The page reload after the card's reset is left out, and so are the timers and the React rendering.
- React state: `onPrediction` is taken to be the current `handlePrediction`. The step is a function of explicit state. The stale-closure behaviour of the camera's callback, which is registered once, is not modelled.
- `pickRandomVerbs` is modelled for an integer `count` only.
- Default arguments are not modelled: `count = 6` of `pickRandomVerbs` and `moduleId = "mod-1"` of the practice session. Every caller passes both explicitly, so no behaviour is lost.
- `STATUS_STYLE` lookups of inherited property names such as `toString` are left out.
- `LegacySession.OnResults`: the `"-Infinity"` confidence for an empty output is kept as a distinct value. It is not formatted as text.
- `PracticeData.Draw`: the oracle draws must lie in [0, 1) and there must be one per word taken, as `Math.random()` guarantees.

## Findings

| source | as written | input that shows it | evidently intended | confidence | as-written member | corrected member |
|---|---|---|---|---|---|---|
| src/lib/progress.js:16-19 | with nothing stored, `read()` returns the shared `DEFAULT_PROGRESS` object itself. `setModuleProgress` then writes into its `modules` table, so later resets copy the drifted record | fresh page, empty storage: set mod-1 to index 3, then reset mod-1. It stays at index 3 | reset restores `{index: 0, completed: false}` | not executed; follows from JavaScript object aliasing | ProgressStore.AliasedResetKeepsProgress | ProgressStore.ResetAfterSetRestoresDefault |
| src/components/practice/PracticeSession.jsx:23 | the word generator is `() => module.range \|\| []`, and mod-6 has `range: null`, so mod-6 stores and loads an empty word list | open mod-6 with empty storage: no targets, and no prediction can advance it | generate words with `pickRandomVerbs` | not executed; follows from the lesson table | Session.WordModuleHasNoTargets | Session.WordModuleWithVerbs |
