# Workout timer: category and session bookkeeping in Dafny

This project models the state logic of a small workout-timer web application.
Users create **categories**, time exercise **sessions** inside them, attach a
note to each session, and later browse every session in one searchable list.
Three parts of the application hold all of that logic, and each is modelled
in its own form:

- **The `categories` Redux slice** (`src/reducers/categoryReducer.ts`). It has
  ten reducer cases that edit the category list. For eight of them, module
  `CategoryReducer` gives the case as a pure next-state function `After…`,
  whose contract states what the case changes and what it leaves alone. The
  other two, `setCategories` and `addCategory`, are a plain replacement and a
  plain `push`, so their methods state the new list directly. Class `CategorySlice` then
  performs the same case in place, the way the reducer edits its Immer draft:
  `push`, assignment at the index `findIndex` found, `filter`, and the
  `forEach` loop of `deleteSession`. Each of the eight methods with an
  `After…` function is proved equal to it; `SetCategories` ensures the list
  is the payload, and `AddCategory` ensures it is the old list plus the new
  category.
- **The session list page** (`src/components/SessionList.tsx`). Module
  `SessionList` has pure functions for the list computations:
  - the `map` in `handleAddToCategory`, which adds a session only if absent;
  - the `allSessions` projection, which keeps one session per note (the first
    one seen);
  - the case-insensitive `filteredSessions` search.

  Class `SessionListPage` holds the component state and its handlers.
- **The timer page** (`src/components/TimeButton.tsx`). Class
  `TimerButtonPage` is the state machine over `timerData` (time, isActive,
  status), `note`, `showNoteInput`, `currentCategory` and `categories`. It has
  one method per handler. The one-second interval is the explicit `Tick`
  step. Its invariant `Valid()` says two things: time is never negative, and
  the current category is always one of the stored categories.

Shared pieces:

- `Entities` holds the records: `Category`, `TimerSession`, `RepSet`.
- `JsArray` models the JavaScript array operations the code uses: `findIndex`
  (and `find`), `filter`, `map`, and "change the element `find` returned".
- `JsString` models `trim`, `toLowerCase` and `includes`.

Decisions:

- **One identifier type.** Category ids and session ids are both `int` (type
  `Entities.Id`). The declared types disagree: `Category.id` is a number,
  `TimerSession.id` a string, and the reducer's payload `sessionId` a number.
  At run time the ids are numbers, because both components mint them with
  `Date.now()` and TypeScript's types are erased. The single integer `Id`
  models those run-time values.
- **What the code does.** The model follows the code as written:
  - the reducer's `addSessionToCategory` does not reject a duplicate session
    id (only the session list page's `handleAddToCategory` does);
  - stopping the timer sets status `"Complete"`;
  - `removeSessionFromCategory` and `deleteSession` remove every session
    with the id;
  - categories are not required to have unique ids, and the lookups use the
    first match (`find`/`findIndex`) or every match (`map`), as the code does.
- **Non-deterministic inputs become parameters.** `Date.now()` ids are passed
  in as `freshId`. The `localStorage`-backed `categories` are plain state,
  given to the constructors as `stored`.

## Model

| member | source | states |
|---|---|---|
| `JsString.SpaceRunEnd` | src/components/SessionList.tsx:17 | scanning from an index, the run of white space ends at the first non-space character or at the end of the string, and everything skipped is white space |
| `JsString.SpaceRunStart` | src/components/SessionList.tsx:17 | scanning back from an index, the run of trailing white space starts right after a non-space character or at the lower bound, and everything skipped is white space |
| `JsString.Trim` | src/components/SessionList.tsx:17 | `trim()` never lengthens its input, and its result is empty or neither starts nor ends with white space; `TrimIsCore` places it in the input and `TrimIdempotent` shows a second trim changes nothing |
| `JsString.TrimIsCore` | src/components/SessionList.tsx:20 | `trim()` returns a slice of the input that has only white space before and after it |
| `JsString.IsBlank` | src/components/TimeButton.tsx:20 | the `trim() !== ""` guard; `BlankIffAllSpace` states that it fails exactly on all-white-space input |
| `JsString.BlankIffAllSpace` | src/components/TimeButton.tsx:72 | `s.trim() === ""` holds exactly when every character of `s` is white space (both directions) |
| `JsString.TrimIdempotent` | src/components/TimeButton.tsx:23 | trimming a trimmed name changes nothing, so a stored category name is never blank |
| `JsString.LowerChar` | src/components/SessionList.tsx:50 | ASCII capitals map to the matching lower-case letter 32 code points up, and every other character is unchanged |
| `JsString.Lower` | src/components/SessionList.tsx:50 | `toLowerCase` keeps the length and lower-cases each character in place |
| `JsString.LowerIdempotent` | src/components/SessionList.tsx:50 | lower-casing twice is lower-casing once |
| `JsString.Includes` | src/components/SessionList.tsx:50 | `includes` holds for the empty term and never for a term longer than the note; `IncludesIffWindow` states exactly when it holds |
| `JsString.IncludesHasWindow` | src/components/SessionList.tsx:50 | when `includes` holds, some window of the note equals the term |
| `JsString.WindowIncludes` | src/components/SessionList.tsx:50 | a window of the note equal to the term makes `includes` hold |
| `JsString.IncludesIffWindow` | src/components/SessionList.tsx:50 | `includes` holds exactly when some window of the note equals the term (both directions) |
| `JsArray.FindIndex` | src/reducers/categoryReducer.ts:24 | `findIndex` returns -1 exactly when nothing matches; otherwise it returns the unique first matching index |
| `JsArray.Filter` | src/reducers/categoryReducer.ts:30 | `filter` keeps exactly the elements that pass, every copy of each: a passing element occurs as often as in the input, a failing one not at all; the list never lengthens |
| `JsArray.Map` | src/components/SessionList.tsx:29 | `map` keeps the length and applies the callback at every index |
| `JsArray.FindIndexIsFirst` | src/reducers/categoryReducer.ts:24 | the index `findIndex` returns is the one index that is a first match, and no index is when it returns -1 |
| `JsArray.UpdateFirst` | src/reducers/categoryReducer.ts:36-39 | changing the object `find` returned changes only the first match, leaves every other index alone, and is a no-op when nothing matches |
| `JsArray.UpdateFirstAtFoundIndex` | src/reducers/categoryReducer.ts:24-27 | changing the found object is an assignment at the index `findIndex` returns, or nothing when it returns -1 |
| `JsArray.UpdateFirstIdempotent` | src/reducers/categoryReducer.ts:80-83 | repeating a first-match update that keeps the element matching and is idempotent changes nothing |
| `JsArray.FilterIsSubsequence` | src/reducers/categoryReducer.ts:30 | `filter` output is an order-preserving subsequence of its input |
| `JsArray.FilterKeepsAll` | src/components/SessionList.tsx:49-51 | a filter that every element passes returns its input unchanged |
| `JsArray.FilterIdempotent` | src/reducers/categoryReducer.ts:88 | filtering twice with the same test equals filtering once |
| `JsArray.FilterCongruent` | src/components/SessionList.tsx:49-51 | two tests that agree on every element give the same filter result |
| `JsArray.SubsequenceTransitive` | src/components/SessionList.tsx:43-51 | a subsequence of a subsequence is a subsequence |
| `CategoryReducer.DropSessionSpec` | src/reducers/categoryReducer.ts:59 | filtering a session id out of a category keeps its id and name, leaves no session with the id, and keeps every copy of every other session, in order |
| `CategoryReducer.AfterUpdateCategory` | src/reducers/categoryReducer.ts:23-28 | the first category with the payload's id becomes the payload; every other index is unchanged; the length is preserved; no match means no change |
| `CategoryReducer.AfterRemoveCategory` | src/reducers/categoryReducer.ts:29-31 | no category with the id remains; every other category stays with all its copies, in its original relative order; only input categories remain, so the removed ones take their sessions with them |
| `CategoryReducer.AfterAddSession` | src/reducers/categoryReducer.ts:32-40 | the session is appended to the first category with the id, even if that category already has a session with the same id; other categories are unchanged; no match means no change |
| `CategoryReducer.AfterUpdateSession` | src/reducers/categoryReducer.ts:41-52 | only the first session with the id inside the first category with the id is replaced; the session count and the category's id and name are kept; it is a no-op when the category or the session is absent |
| `CategoryReducer.AfterRemoveSession` | src/reducers/categoryReducer.ts:53-61 | only the first category with the id changes: it loses every session with the session id and keeps every copy of the rest, in order; no match means no change |
| `CategoryReducer.AfterUpdateSets` | src/reducers/categoryReducer.ts:62-73 | only the `sets` field of the first matching session in the first matching category changes; everything else stays; it is a no-op when either is absent |
| `CategoryReducer.AfterMarkComplete` | src/reducers/categoryReducer.ts:74-85 | only the `status` of the first matching session in the first matching category changes, to "Completed"; it is a no-op when either is absent |
| `CategoryReducer.AfterDeleteSession` | src/reducers/categoryReducer.ts:86-90 | every category loses every session with the id and keeps every copy of the others, in order; the count, ids and names of categories are preserved |
| `CategoryReducer.DeleteSessionIdempotent` | src/reducers/categoryReducer.ts:86-90 | deleting a session id twice equals deleting it once |
| `CategoryReducer.MarkCompleteIdempotent` | src/reducers/categoryReducer.ts:74-85 | marking a session complete twice equals marking it once |
| `CategoryReducer.CategorySlice.constructor` | src/reducers/categoryReducer.ts:9-11 | the initial state holds no categories |
| `CategoryReducer.CategorySlice.SetCategories` | src/reducers/categoryReducer.ts:17-19 | the payload replaces the category list |
| `CategoryReducer.CategorySlice.AddCategory` | src/reducers/categoryReducer.ts:20-22 | the payload is pushed without an id check: the length grows by one and the old list is an unchanged prefix |
| `CategoryReducer.CategorySlice.UpdateCategory` | src/reducers/categoryReducer.ts:23-28 | the `findIndex`-then-assign update produces `AfterUpdateCategory` of the old list |
| `CategoryReducer.CategorySlice.RemoveCategory` | src/reducers/categoryReducer.ts:29-31 | the list becomes `AfterRemoveCategory` of the old list |
| `CategoryReducer.CategorySlice.AddSessionToCategory` | src/reducers/categoryReducer.ts:32-40 | the `find`-then-`push` update produces `AfterAddSession` of the old list |
| `CategoryReducer.CategorySlice.UpdateSessionInCategory` | src/reducers/categoryReducer.ts:41-52 | the nested `find`/`findIndex` update produces `AfterUpdateSession` of the old list |
| `CategoryReducer.CategorySlice.RemoveSessionFromCategory` | src/reducers/categoryReducer.ts:53-61 | the `find`-then-`filter` update produces `AfterRemoveSession` of the old list |
| `CategoryReducer.CategorySlice.UpdateSetsInSession` | src/reducers/categoryReducer.ts:62-73 | the nested `find` and field assignment produce `AfterUpdateSets` of the old list |
| `CategoryReducer.CategorySlice.MarkSessionComplete` | src/reducers/categoryReducer.ts:74-85 | the nested `find` and status assignment produce `AfterMarkComplete` of the old list |
| `CategoryReducer.CategorySlice.DeleteSession` | src/reducers/categoryReducer.ts:86-90 | the `forEach` loop reassigning each category's sessions produces `AfterDeleteSession` of the old list |
| `SessionList.AddIfAbsent` | src/components/SessionList.tsx:29-39 | the `map` callback of `handleAddToCategory`; its effect on the list is stated by `AddToCategory` |
| `SessionList.AddToCategory` | src/components/SessionList.tsx:28-41 | the length is kept; categories with other ids are unchanged; each category with the id keeps its id and name, ends up holding the session's id, and gains the session at its end exactly when it did not hold that id before |
| `SessionList.AddToCategoryIdempotent` | src/components/SessionList.tsx:31-37 | adding the same session to the same category twice equals adding it once |
| `SessionList.AddToCategoryTwiceKeepsOneCopy` | src/components/SessionList.tsx:31-37 | after two adds to a category that lacked the id, exactly one session with that id is present, at the end |
| `SessionList.Flatten` | src/components/SessionList.tsx:43-44 | every session of every category is in the flattening, and every flattened session comes from some category |
| `SessionList.KeepFirstByNote` | src/components/SessionList.tsx:45-47 | the index filter from `i` on; `KeptAreFirst`, `KeptHaveDistinctNotes`, `FirstsAreKept` and `KeptIsSubsequence` state which entries it keeps |
| `SessionList.AllSessions` | src/components/SessionList.tsx:43-47 | `allSessions`; its properties are stated by `AllSessionsOnePerNote` and `AllSessionsKeepsFirstInOrder` |
| `SessionList.FirstWithNoteFrom` | src/components/SessionList.tsx:46 | scanning from an index, the result is the first later position whose note matches, or -1 exactly when none does |
| `SessionList.FirstWithNoteIsFindIndex` | src/components/SessionList.tsx:46 | the note scan returns what `findIndex(s => s.note === note)` returns |
| `SessionList.KeptAreFirst` | src/components/SessionList.tsx:45-47 | every kept entry sits at the index `findIndex` gives for its note |
| `SessionList.KeptFirstIsNewNote` | src/components/SessionList.tsx:45-47 | a kept session shares its note with no entry kept after it |
| `SessionList.DistinctNotesCons` | src/components/SessionList.tsx:45-47 | adding a session with a new note in front of a list with distinct notes keeps the notes distinct |
| `SessionList.KeptHaveDistinctNotes` | src/components/SessionList.tsx:45-47 | the index filter keeps at most one session per note |
| `SessionList.FirstsAreKept` | src/components/SessionList.tsx:45-47 | the first session carrying each note is kept, and the returned index says where |
| `SessionList.FirstSeenOrderCons` | src/components/SessionList.tsx:45-47 | a session whose note first occurs before every note of a list in first-seen order can be put in front of it |
| `SessionList.KeptInFirstSeenOrder` | src/components/SessionList.tsx:45-47 | the index filter keeps its entries in the order their notes are first seen, even when a session value occurs twice in the flattening |
| `SessionList.KeptIsSubsequence` | src/components/SessionList.tsx:45-47 | the index filter's output is a subsequence of the flattening from `i` on, by value; `KeptInFirstSeenOrder` fixes the order of its entries |
| `SessionList.AllSessionsOnePerNote` | src/components/SessionList.tsx:43-47 | `allSessions` has no two entries with the same note, and each note found in any category appears at exactly one position |
| `SessionList.AllSessionsKeepsFirstInOrder` | src/components/SessionList.tsx:43-47 | `allSessions` is a subsequence of the flattening; its entries come in the order their notes first occur in the flattening; and each entry is the first flattened session with its note |
| `SessionList.MatchesSearch` | src/components/SessionList.tsx:49-51 | the search callback; `FilteredSessionsMatch` and `SearchIgnoresTermCase` state what it selects |
| `SessionList.FilteredSessions` | src/components/SessionList.tsx:49-51 | `filteredSessions`; `FilteredSessionsMatch` and `EmptySearchKeepsAll` state its contents |
| `SessionList.FilteredSessionsMatch` | src/components/SessionList.tsx:49-51 | every filtered session's lower-cased note includes the lower-cased term; every matching session is kept; the result is a subsequence of `allSessions` |
| `SessionList.EmptySearchKeepsAll` | src/components/SessionList.tsx:49-51 | an empty search term returns all of `allSessions` |
| `SessionList.SearchIgnoresTermCase` | src/components/SessionList.tsx:49-51 | lower-casing the search term does not change the filtered list |
| `SessionList.SessionListPage.constructor` | src/components/SessionList.tsx:8-10 | the page starts with the stored categories and empty search and name inputs |
| `SessionList.SessionListPage.HandleSearchChange` | src/components/SessionList.tsx:12-14 | only the search term changes, to the typed value |
| `SessionList.SessionListPage.SetNewCategoryName` | src/components/SessionList.tsx:86 | only the name input changes, to the typed value |
| `SessionList.SessionListPage.HandleCreateCategory` | src/components/SessionList.tsx:16-26 | a blank name changes nothing; otherwise one category is appended, with the fresh id, the trimmed (non-blank) name and no sessions, and the input is cleared |
| `SessionList.SessionListPage.HandleAddToCategory` | src/components/SessionList.tsx:28-41 | the categories become `AddToCategory` of the old list; the inputs are unchanged |
| `SessionList.SessionListPage.VisibleSessions` | src/components/SessionList.tsx:49-51 | the rendered list is a subsequence of `allSessions` and of the flattening; it holds exactly the sessions of `allSessions` whose note includes the term case-insensitively; an empty term lists all of `allSessions` |
| `TimerButton.NewSession` | src/components/TimeButton.tsx:73-78 | the session `addSessionToCurrentCategory` builds; `AddSessionToCurrentCategory` states where it goes |
| `TimerButton.ReplaceById` | src/components/TimeButton.tsx:85-87 | every category with the id becomes the updated category and every other is unchanged; the length is kept; with no match the list is unchanged, and with a match the updated category is in the list |
| `TimerButton.TimerButtonPage.constructor` | src/components/TimeButton.tsx:8-17 | the page starts with the stored categories, no current category, timer at 0, inactive, status "Start", empty note and hidden note input |
| `TimerButton.TimerButtonPage.SetNewCategoryName` | src/components/TimeButton.tsx:108 | only the name input changes |
| `TimerButton.TimerButtonPage.HandleNoteChange` | src/components/TimeButton.tsx:95-97 | only the note changes |
| `TimerButton.TimerButtonPage.HandleCreateCategory` | src/components/TimeButton.tsx:19-30 | a blank name changes nothing; otherwise a category with the trimmed name and no sessions is appended and becomes current, and the input is cleared; the timer is untouched |
| `TimerButton.TimerButtonPage.Tick` | src/components/TimeButton.tsx:32-50 | while active, time grows by exactly 1 and status becomes "Running"; while inactive nothing changes; time never decreases and stays non-negative |
| `TimerButton.TimerButtonPage.HandleStartStop` | src/components/TimeButton.tsx:52-69 | stop keeps the time, clears isActive, sets "Complete" and shows the note input; start resets time to 0, sets isActive and "Running", clears the note and hides the input |
| `TimerButton.TimerButtonPage.AddSessionToCurrentCategory` | src/components/TimeButton.tsx:71-93 | no current category or a blank note changes nothing; otherwise the new session (current time and status, untrimmed note) is appended to the current category, only categories with its id are replaced, the length is kept, the updated category becomes current, and the note input is hidden |

## Left out

- `src/reducerConfig/storeConfig.ts` is not part of this model. Its `localStorage` middleware and JSON preload are browser storage and serialisation.
- `server.js`, `src/main.tsx` and `src/App.tsx` are not part of this model. They are a generic HTTP record server, React root rendering and routing, with no bookkeeping logic.
- The `useLocalStorage` hook is not part of this model. The categories it provides are plain component state, initialised from the constructor's `stored` parameter.
- JSX rendering is not modelled.
- React state batching and stale closures are not modelled: handlers run one at a time, each seeing the state the previous one left.
- `useEffect`/`setInterval`/`clearInterval` scheduling is not modelled. Wall-clock timing is replaced by explicit calls to `Tick`.
- `Date.now()` is not modelled. Fresh ids are method parameters.
- `JsString.LowerChar`: folds only the ASCII letters A–Z. Full Unicode `toLowerCase` (including special casings that change length) is not modelled.
- `JsString.Lower`: folds only ASCII letters, as `JsString.LowerChar` does.
- `JsString.IncludesIffWindow`: Dafny strings hold Unicode scalar values, so JavaScript strings containing lone surrogates are outside the model. On well-formed strings, `includes` over UTF-16 code units and over scalar values agree.
- The `categoryIds` field of `TimerSession` is left out. No modelled code reads or writes it.
- The `count` field in the `updateSetsInSession` payload's sets is not in the `TimerSession` interface, so `RepSet` carries only `repetitions`.
- `TimerButton.NewSession`: the session `addSessionToCurrentCategory` builds has no `sets` field in the source. The model gives it the empty sequence.
- The modelled files have none of the following, so the model has none of it either:
  - pause/resume;
  - rest-interval countdowns and repetition sequencing;
  - a completed-session-ids set;
  - remote fetch-then-patch persistence and its error reporting;
  - a uniqueness invariant on category ids.
