# ftp-meme: the charge, release and leaderboard core

The page is one React component (`src/App.tsx`). The user holds a button to
charge a meter. Releasing it starts a simulated upload. When the upload ends,
`executeFart` adds a reward to the running pump power and the fart count. It
also records a new entry on a ten-place leaderboard that is ranked by power,
and it saves all three to local storage.

This project models that core as pure functions over one explicit state
record. Random draws and clock reads become parameters, and each timer firing
becomes one function call.

- `options.dfy` (`Options`): the `Option` type.
- `leaderboard.dfy` (`Leaderboard`): entries and the board update `[...board, e].sort((a, b) => b.power - a.power).slice(0, 10)`.
  - The sort is modelled as a stable insertion sort. ECMAScript 2019 and later require `Array.prototype.sort` to be stable, so an entry of equal power lands after the ones already there.
  - Lemmas cover sortedness, length, contents, eviction, rank, tie order, and the whole history: the board is the top ten of everything ever recorded.
- `session.dfy` (`Session`): the state cells, and these operations:
  - the 50 ms charge tick;
  - `handleMouseDown`, and `handleMouseUp` with its reward;
  - `executeFart`, and the end of the upload;
  - `saveStats` and the loading effect;
  - a full press–hold–release–finish cycle.
- `address.dfy` (`Address`): `generateDegeneAddress`, both as a loop and as a function of the eight random digits, with a parser that inverts it.
- `age.dfy` (`Age`): `formatTime`, with the current time as a parameter. It includes the decimal text that a template literal writes for an integer, and a parser that reads the text back.
- `stale_closure.dfy` (`StaleClosure`): how the end of an upload actually reads state (see Findings).

How the source's quantities appear in the model:
- `Math.floor(Math.random() * 20)` is a `RandomIndex` in 0..19.
- `Math.floor(Math.random() * 16)` is a `Nibble` in 0..15.
- The two `Date.now()` reads in `executeFart` are two parameters, `idTime` and `stampTime`. They may differ.
- Integer division by a positive constant is Dafny's `/`, which rounds down like `Math.floor`, negative values included.

## Model

| member | source | states |
|---|---|---|
| Leaderboard.RecordShape | src/App.tsx:97-99 | the new board is sorted by non-increasing power, has `min(old length + 1, 10)` entries, and holds only entries of the old board plus the new one (as a multiset) |
| Leaderboard.RecordKeepsHighest | src/App.tsx:97-99 | every entry the update keeps has at least the power of every entry it drops |
| Leaderboard.RecordRank | src/App.tsx:97-99 | when fewer than ten earlier entries have at least its power, the new entry sits at exactly that rank, and everything above it is the sorted old board's top in the same order |
| Leaderboard.RecordEvicts | src/App.tsx:97-99 | when ten or more earlier entries have at least its power, the new entry is dropped and the board is the top ten of the old one |
| Leaderboard.RecordKeepsNew | src/App.tsx:97-99 | the new entry is on the board when the old board had fewer than ten entries, or held at most ten and one of them has lower power |
| Leaderboard.RecordStable | src/App.tsx:98 | among entries of equal power, the board keeps a prefix of their arrival order; the new entry comes after older equal-power entries |
| Leaderboard.SortStable | src/App.tsx:98 | sorting keeps the relative order of entries with equal power |
| Leaderboard.SortIsSorted | src/App.tsx:98 | the comparator `b.power - a.power` orders by non-increasing power |
| Leaderboard.SortPermutes | src/App.tsx:98 | sorting only reorders: same multiset of entries |
| Leaderboard.InsertAtRank | src/App.tsx:98 | on a sorted board, the new entry is spliced in at the position equal to the number of entries with at least its power, the rest keeping their order |
| Leaderboard.RecordAllFromEmpty | src/App.tsx:97-99 | starting from an empty board, the board after any history is the first ten of the stable sort of the whole history; cutting to ten at each step loses nothing |
| Leaderboard.RecordAllIsTopTen | src/App.tsx:97-99 | recording further entries into the top ten of a history gives the top ten of the extended history |
| Leaderboard.AscendingHistory | src/App.tsx:97-99 | rewards that keep rising leave the last ten of them on the board, newest first |
| Leaderboard.ElevenRising | src/App.tsx:97-99 | rewards 1, 2, ..., 11 in order leave powers 11 down to 2 |
| Leaderboard.RecordAllAnyBoard | src/App.tsx:97-99 | from any starting board, unsorted or longer than ten included, one or more updates leave the first ten of the stable sort of the old board followed by the new entries: sorted, with `min(old + new, 10)` entries |
| Leaderboard.RecordOfTwo | src/App.tsx:97-99 | two entries recorded into an empty board stand higher power first, and on equal power in arrival order |
| Leaderboard.BoardOfFour | src/App.tsx:97-99 | rewards 5, 50, 1, 99 recorded in order give the board 99, 50, 5, 1 |
| Session.Tick | src/App.tsx:107-115 | a tick changes nothing unless charging; it keeps the charge in 0..1000 and never lowers it; below 1000 it raises it; no other cell changes |
| Session.TicksFromEmpty | src/App.tsx:111 | holding for `n` ticks from an empty meter shows `min(5n, 1000)` |
| Session.Press | src/App.tsx:42-45 | pressing sets charging and the connecting banner, leaves the level and the records alone, and is idempotent |
| Session.Release | src/App.tsx:47-69 | releasing while not charging changes nothing and starts no upload; otherwise charging stops, the level resets to 0, the banner says sending, and the reward lies in `floor(L/10)+1 .. floor(L/10)+20`; counters and board are untouched |
| Session.Reward | src/App.tsx:53 | the reward is in `floor(L/10)+1 .. floor(L/10)+20`, hence in 1..120 for a level in 0..1000 |
| Session.RewardWindow | src/App.tsx:53 | every value of that window comes from exactly one random draw |
| Session.Finalize | src/App.tsx:81-105 | power grows by the reward, the count by one, and the board is sorted, of length `min(old + 1, 10)` and drawn from the old board plus the new entry; the charge cells are unchanged |
| Session.CompleteUpload | src/App.tsx:60-64 | the end of the upload finalizes against the current state and sets the banner back to disconnected, keeping the charge invariant |
| Session.FinalizeAllAccounting | src/App.tsx:82-83 | over `n` finalizes the count grows by `n`, the power by the sum of the rewards, and the board is the update applied to each entry in turn |
| Session.FinalizeAllFromEmpty | src/App.tsx:81-105 | from an empty board, after any sequence of finalizes the board is the top ten of all entries, ties in arrival order |
| Session.FinalizeAllFromAnyBoard | src/App.tsx:81-105 | from any board, a loaded one included, after one or more finalizes the board is the sorted top ten of the old board and all new entries |
| Session.EntriesAt | src/App.tsx:90-95 | the `i`-th finalize builds the `i`-th entry from its own reward, clock reads and digits |
| Session.ScenarioFour | src/App.tsx:81-105 | rewards 5, 50, 1, 99 onto an empty board give board powers 99, 50, 5, 1, four more farts and 155 more power |
| Session.CycleFromRest | src/App.tsx:42-69 | a full press, hold, release and finish from rest adds one fart, adds the reward fixed by the hold time and the draw, records its entry, and returns to rest with the banner disconnected |
| Session.Load | src/App.tsx:24-32 | with no saved snapshot the state is unchanged; otherwise each field is taken from the snapshot, and a missing or falsy one becomes 0 or the empty list; charge cells are untouched |
| Session.SaveLoadRoundTrip | src/App.tsx:34-40 | loading what was saved restores power, count and board |
| Address.Render | src/App.tsx:135-142 | a label is 13 characters: `0x`, eight characters of `0123456789abcdef`, then `...` |
| Address.Generate | src/App.tsx:135-142 | the loop of the source builds exactly the label of the eight drawn digits |
| Address.RenderParse | src/App.tsx:135-142 | a label determines its digits, and a string parses to the digits exactly when it is their label |
| Address.HexValue | src/App.tsx:136 | a character has a digit value exactly when it is in the alphabet, and indexing the alphabet with that value gives it back |
| Age.AgeOfSeconds | src/App.tsx:145-148 | under 60 s the age is in seconds, under 3600 s in whole minutes, otherwise in whole hours, each count bracketing the elapsed time |
| Age.FormatTime | src/App.tsx:144-149 | the text is `<s>s ago`, `<floor(s/60)>m ago` or `<floor(s/3600)>h ago` for `s = floor((now - ts)/1000)` |
| Age.FormatTimeReadsBack | src/App.tsx:144-149 | the displayed text reads back as its bucket and count, so distinct ages never show alike |
| Age.ParseDecimalRoundTrip | src/App.tsx:146-148 | the decimal text of an integer, minus sign included, reads back as that integer |
| StaleClosure.CompleteUploadAsWritten | src/App.tsx:81-105 | the end of an upload as the page runs it: counters and board come from the state seen at release, and the other cells from the current state |
| StaleClosure.AsWrittenAgreesWithoutOverlap | src/App.tsx:56-66 | when nothing was finalized between release and completion, the as-written completion equals the intended one |
| StaleClosure.AsWrittenLosesCount | src/App.tsx:82-83 | once another upload has finished since the release, the as-written completion does not raise the count |
| StaleClosure.OverlappingUploadsAsWritten | src/App.tsx:47-69 | two uploads that overlap end with the count one higher, not two, and with only the second reward |
| StaleClosure.OverlapDropsFirstEntry | src/App.tsx:97-99 | from an empty board, two overlapping uploads with distinct entries leave the first entry off the board as written and on it when completed against the current state |
| StaleClosure.OverlappingUploadsCorrected | src/App.tsx:81-105 | with completion against the current state, both overlapping uploads count, both rewards add up, and both entries are recorded |

## Left out

- The JSX markup, CSS classes, the explosion flag and the Dexscreener iframe (`src/App.tsx:151-282`): presentation only.
- `playFartSound`: Web Audio calls with floating-point ramps.
- `copyCA` and `copiedCA`: the asynchronous clipboard API.
- Local storage and JSON (`src/App.tsx:25-39`): `Save` records the snapshot and `Load` takes the parsed snapshot as an `Option`. `JSON.parse` of malformed text throws, and the effect does not catch it, so a corrupt snapshot is an uncaught error on mount, not a fallback to defaults. That path is not modelled.
- Session.Load: a field that is present but truthy and not a number or array (a string, say) is passed through by `||` unchanged. `Stored` has no room for it, so the model does not cover it.
- Timers: `setInterval`, `setTimeout` and effect cleanup. A charge tick is one call of `Tick`. The upload is one call of `CompleteUpload` at its end.
- The upload progress counter (`progress += Math.random() * 30`, `uploadProgress`): a float whose reaching 100 the code does not guarantee. The model assumes the upload ends, and then the progress shown is 0 again.
- Number limits: JavaScript numbers are doubles, so counters and times are exact only up to 2^53. The model uses unbounded integers.
- A board loaded from storage may be unsorted or longer than ten. The page shows it as stored until the next finalize. `Leaderboard.RecordAllAnyBoard` and `Session.FinalizeAllFromAnyBoard` cover such a board from its first finalize on: from then on it is the sorted top ten of the loaded entries and the new ones. Before that finalize nothing is promised about its order or length.
- Session.CompleteUpload: finalizes against the state current when the upload ends. The page reads the state seen at release instead (see Findings). `StaleClosure.AsWrittenAgreesWithoutOverlap` proves the two agree whenever no other upload finished in between. With overlapping uploads, only the as-written `StaleClosure.CompleteUploadAsWritten` models the page.
- Leaderboard.RecordKeepsNew: covers boards of at most ten entries, which every finalize produces. A loaded board longer than ten is not covered.

## Findings

| source | as written | input that shows it | evidently intended | confidence | as-written member | corrected member |
|---|---|---|---|---|---|---|
| src/App.tsx:81-105 | The interval created by `handleMouseUp` calls the `executeFart` of that render. That call reads `pumpPower`, `totalFarts` and `leaderboard` as they were at release and writes results computed from them. | From counts 0, release (upload A starts), press and release again before A's at least four 100 ms progress steps end (upload B starts, its closure also sees count 0), then A ends and B ends. The count shows 1, the power holds only B's reward, and A's entry is gone from the board. | Each finished upload adds one fart, its reward and its entry to the current state. | medium; not executed | StaleClosure.OverlappingUploadsAsWritten | StaleClosure.OverlappingUploadsCorrected |

Nothing on the page stops a second press while an upload is running. The
press handler ignores the banner, and release only checks `isCharging`. The
rest of the model uses the corrected completion, `Session.CompleteUpload`.
