# Quest editor: a verified model of the editing and playback core

This project models the logic of the quest editor, an Android app for building text
quests. A quest ("project") is an ordered list of screens. Each screen has a title, an
expected answer and two media slots. Each slot holds an optional media type (text or
image) and an optional content string. The model is split into these modules:

- `QuestModel` (`quest_model.dfy`) holds the data model: `QuestScreen` with its defaults,
  `Project`, `MediaType`, `Slot` and `ProjectInfo`. Slots are kept as the flattened
  (type, content) pairs of the persisted record. `SlotType`, `SlotContent` and
  `WithSlot` view them per slot.
- `Text` (`text.dfy`) models the Kotlin string operations the logic relies on:
  `trim()`, `isBlank()` (behind `ifBlank`) and `equals(ignoreCase = true)`. `TrimStart`
  and `TrimEnd` are the two halves the model's `Trim` is built from; the source itself
  calls only `trim()`. The module also defines the answer test of the playback screen.
- `Lists` (`lists.dfy`) models the positional list edits `add(index, element)` and
  `removeAt(index)`.
- `Editor` (`editor.dfy`) models the screen editor as a class `EditorSession`. Its
  fields are the view model's screen list and cursor. Its methods are the editor's
  handlers:
  - load with a non-empty fallback;
  - previous;
  - next-or-append;
  - insert right and insert left;
  - delete, which resets the last screen instead of removing it;
  - the three slot actions;
  - the commit of typed edits into the current screen;
  - save and exit.
- `Playback` (`playback.dfy`) models the play-through screen as a class
  `PlaybackSession`. Every load resets the cursor to 0. A submitted answer advances
  the cursor by exactly one when it matches and changes nothing otherwise. The pure
  function `Play` folds a sequence of answers. Its lemmas state:
  - with exactly one answer per remaining screen, the quest completes iff each answer
    is right for its screen, in order;
  - wrong answers leave the cursor in place, and batches of answers compose;
  - in general, a run leaves a screen exactly at its first right answer to that screen,
    after any number of wrong ones, and the rest of the run continues from the next
    screen (`WrongThenRight`, `FirstRightAnswer`).
- `Menu` (`menu.dfy`) models the project list. The class `ProjectList` holds the
  catalog, and new entries are prepended. The module also builds the one-screen new
  project and its file name `project_<millis>.json`, and it falls back to an empty
  catalog when the catalog file is missing or unreadable.
- `ProjectMenu` (`project_menu.dfy`) models deleting a project, which prunes every
  catalog entry naming the deleted file. It also models the first-screen preview.
- `NewProjectDialog` (`new_project_dialog.dfy`) models the title normalisation: a blank
  title becomes "Без названия".

The Android widgets are not modelled. What the user typed reaches the editor as a
`TypedEdits` value: title, answer, and for each slot the text field and image view that
currently exist. File contents reach the model as `ProjectSource` and `CatalogSource`
values. Clock readings are parameters (`createMillis`, `entryMillis`). A file write is
returned as a value (`FileWrite`, the `saved` catalog).

`ProjectViewModel`, the Android view model that holds the screen list and cursor, is not
part of this model. Both sessions treat it as a screen list plus an integer cursor that
start as `[]` and `0`. This is what the constructors state.

The editor's cursor rules are encoded exactly as the code does them:
- delete steps the cursor back whenever it is above 0, so the cursor lands on the
  previous screen even when the deleted screen was not the last one (`EditorFragment.kt:151`);
- insert right inserts at `idx + 1` and then advances the cursor;
- insert left inserts at `idx` and leaves the cursor alone.

So after either insert the cursor shows the new default screen.

Clicking a slot's container commits the typed edits before the slot dialog opens
(`EditorFragment.kt:98-106`). So each of `SetTextSlot`, `SetImageSlot` and `ClearSlot`
runs in the source right after a `Commit` of the current screen; the model keeps the two
steps as separate methods, as the dialog action is chosen later.

Loading in the editor runs on whatever list the view model already holds:
- a decoded file replaces the list;
- a missing file, or no file name at all, appends one default screen;
- only an empty list gets the extra default screen of lines 92-94.

A fresh view model therefore always ends with exactly one default screen when nothing
can be decoded.

`setImageToSlot` stores `uri.toString()` into the slot. On a null `Uri?` Kotlin
resolves this to the nullable `toString()` extension, which returns the text "null". The
model stores "null" rather than treating a null URI as a crash (`Editor.UriString`).

## Model

| member | source | states |
|---|---|---|
| QuestModel.Other | app/src/main/java/com/chizh/questeditor/QuestScreen.kt:20 | there are exactly two slots; the other slot differs from the given one, and PRIMARY and SECONDARY are each other's other |
| QuestModel.WithSlot | app/src/main/java/com/chizh/questeditor/QuestScreen.kt:12-15 | replacing one slot's type and content leaves the other slot, the title and the answer unchanged |
| QuestModel.ScreenWithText | app/src/main/java/com/chizh/questeditor/QuestScreen.kt:9-15 | `QuestScreen(text)` has the given title, an empty answer and both slots absent (type and content null) |
| QuestModel.DefaultScreen | app/src/main/java/com/chizh/questeditor/QuestScreen.kt:10-15 | the default screen has empty title and answer and both slots absent |
| QuestModel.ScreenDeterminedBySlots | app/src/main/java/com/chizh/questeditor/QuestScreen.kt:9-15 | a screen is determined by its title, answer and the type and content of its two slots |
| Text.IsWhitespace | app/src/main/java/com/chizh/questeditor/RunFragment.kt:68 | Kotlin's `Char.isWhitespace` on the JVM, defined as the exact set of code points it accepts (tabs to carriage return, the file/group/record/unit separators, space, no-break space, and the Unicode space, line and paragraph separators) |
| Text.IsBlank | app/src/main/java/com/chizh/questeditor/NewProjectDialog.kt:21 | `isBlank()`, defined as: every character is whitespace (so the empty string is blank) |
| Text.Trim | app/src/main/java/com/chizh/questeditor/RunFragment.kt:68 | `trim()`, defined as TrimEnd after TrimStart; never longer than its input, and TrimShape with TrimUnique pin its result down as the unique middle piece between a blank prefix and a blank suffix |
| Text.EqualsIgnoreCase | app/src/main/java/com/chizh/questeditor/RunFragment.kt:68 | `equals(other, ignoreCase = true)`, defined recursively over folded characters; equal strings have equal length, EqualsIgnoreCaseIndexwise gives the position-by-position reading and EqualsIgnoreCaseEquivalence makes it an equivalence |
| Text.AnswerMatches | app/src/main/java/com/chizh/questeditor/RunFragment.kt:68 | the whole answer test: the trimmed input equals the trimmed expected answer ignoring case; a match implies the trimmed forms have the same length, and MatchIgnoresPadding / MatchIgnoresCase / MatchesOwnAnswer characterise it |
| Text.TrimStart | app/src/main/java/com/chizh/questeditor/RunFragment.kt:68 | the result is no longer than the input and does not start with whitespace |
| Text.TrimEnd | app/src/main/java/com/chizh/questeditor/RunFragment.kt:68 | the result is no longer than the input and does not end with whitespace |
| Text.TrimStartSplit | app/src/main/java/com/chizh/questeditor/RunFragment.kt:68 | trimming the start removes a blank prefix and keeps the rest unchanged |
| Text.TrimEndSplit | app/src/main/java/com/chizh/questeditor/RunFragment.kt:68 | trimming the end removes a blank suffix and keeps the rest unchanged |
| Text.TrimShape | app/src/main/java/com/chizh/questeditor/RunFragment.kt:68 | the input is a blank prefix, the trimmed string and a blank suffix, and neither end of the trimmed string is whitespace |
| Text.TrimStartUnique | app/src/main/java/com/chizh/questeditor/RunFragment.kt:68 | a blank prefix before a string not starting with whitespace is exactly what trimStart removes |
| Text.TrimEndUnique | app/src/main/java/com/chizh/questeditor/RunFragment.kt:68 | a blank suffix after a string not ending with whitespace is exactly what trimEnd removes |
| Text.TrimUnique | app/src/main/java/com/chizh/questeditor/RunFragment.kt:68 | trimming blank + trimmed middle + blank gives the middle, so the shape determines trim's result |
| Text.TrimIdempotent | app/src/main/java/com/chizh/questeditor/RunFragment.kt:68 | trimming twice is trimming once |
| Text.TrimIgnoresPadding | app/src/main/java/com/chizh/questeditor/RunFragment.kt:68 | whitespace added at either end does not change the trimmed string |
| Text.Fold | app/src/main/java/com/chizh/questeditor/RunFragment.kt:68 | case folding never turns whitespace into non-whitespace or back |
| Text.EqualsIgnoreCaseIndexwise | app/src/main/java/com/chizh/questeditor/RunFragment.kt:68 | case-insensitive equality holds iff both strings have the same length and equal folded characters at every position |
| Text.EqualsIgnoreCaseEquivalence | app/src/main/java/com/chizh/questeditor/RunFragment.kt:68 | case-insensitive equality is reflexive, symmetric and transitive |
| Text.CaseKeepsShape | app/src/main/java/com/chizh/questeditor/RunFragment.kt:68 | strings equal up to case are blank together and trimmed together |
| Text.TrimRespectsCase | app/src/main/java/com/chizh/questeditor/RunFragment.kt:68 | strings equal up to case have trimmed forms equal up to case |
| Text.MatchIgnoresPadding | app/src/main/java/com/chizh/questeditor/RunFragment.kt:68 | surrounding whitespace on the input or the expected answer never changes whether the answer matches |
| Text.MatchIgnoresCase | app/src/main/java/com/chizh/questeditor/RunFragment.kt:68 | letter case on the input or the expected answer never changes whether the answer matches |
| Text.MatchesOwnAnswer | app/src/main/java/com/chizh/questeditor/RunFragment.kt:68 | the expected answer typed exactly always matches |
| Lists.InsertAt | app/src/main/java/com/chizh/questeditor/EditorFragment.kt:133-138 | `add(i, x)`: one longer, `x` at `i`, elements before `i` unchanged, elements from `i` shifted up one in order |
| Lists.RemoveAt | app/src/main/java/com/chizh/questeditor/EditorFragment.kt:150 | `removeAt(i)`: one shorter, elements before `i` unchanged, elements after `i` shifted down one in order |
| Lists.RemoveInserted | app/src/main/java/com/chizh/questeditor/EditorFragment.kt:133-150 | removing what was just inserted gives the old list back |
| Lists.InsertRemoved | app/src/main/java/com/chizh/questeditor/EditorFragment.kt:133-150 | putting back what was removed gives the old list back |
| Editor.LoadedScreens | app/src/main/java/com/chizh/questeditor/EditorFragment.kt:75-94 | the loaded list is never empty: decoded screens replace the list, an empty decoded list gives exactly one default screen, and a missing or unnamed file appends one default screen |
| Editor.UriString | app/src/main/java/com/chizh/questeditor/EditorFragment.kt:359-363 | `uri.toString()` on a nullable URI: the URI text when there is one, the text "null" when there is none |
| Editor.CommitSlot | app/src/main/java/com/chizh/questeditor/EditorFragment.kt:184-204 | a slot's content is rewritten from the text field only for a TEXT slot with a text field, and from the image tag only for an IMAGE slot with an image view; otherwise it is kept; the slot type, the other slot, the title and the answer never change |
| Editor.CommitScreen | app/src/main/java/com/chizh/questeditor/EditorFragment.kt:178-205 | title and answer take the typed values, slot types never change, and each slot's content is that slot's commit |
| Editor.EditorSession.constructor | app/src/main/java/com/chizh/questeditor/EditorFragment.kt:42 | a fresh view model has no screens and cursor 0 |
| Editor.EditorSession.Load | app/src/main/java/com/chizh/questeditor/EditorFragment.kt:75-94 | the list becomes the loaded list, the cursor is untouched, and a fresh session ends valid |
| Editor.EditorSession.Commit | app/src/main/java/com/chizh/questeditor/EditorFragment.kt:178-205 | only the current screen is replaced, by its commit; the cursor stays and the session stays valid |
| Editor.EditorSession.Previous | app/src/main/java/com/chizh/questeditor/EditorFragment.kt:110-116 | at index 0 nothing changes and `moved` is false; otherwise the cursor decreases by exactly one; the list never changes |
| Editor.EditorSession.Next | app/src/main/java/com/chizh/questeditor/EditorFragment.kt:121-125 | one default screen is appended only when the cursor is on the last screen; the cursor increases by one and stays in bounds |
| Editor.EditorSession.InsertRight | app/src/main/java/com/chizh/questeditor/EditorFragment.kt:132-136 | a default screen is inserted after the cursor and the cursor moves onto it |
| Editor.EditorSession.InsertLeft | app/src/main/java/com/chizh/questeditor/EditorFragment.kt:137-140 | a default screen is inserted at the cursor, which keeps its value and so shows the new screen |
| Editor.EditorSession.Delete | app/src/main/java/com/chizh/questeditor/EditorFragment.kt:144-166 | with more than one screen exactly the current one is removed and the cursor becomes max(idx - 1, 0); with one screen the list becomes exactly one default screen and the cursor 0 |
| Editor.EditorSession.SetTextSlot | app/src/main/java/com/chizh/questeditor/EditorFragment.kt:332-345 | the slot of the current screen becomes (TEXT, null); nothing else changes |
| Editor.EditorSession.SetImageSlot | app/src/main/java/com/chizh/questeditor/EditorFragment.kt:353-367 | with no remembered slot nothing changes; otherwise the slot becomes (IMAGE, the URI's text) and nothing else changes |
| Editor.EditorSession.ClearSlot | app/src/main/java/com/chizh/questeditor/EditorFragment.kt:369-388 | the slot of the current screen becomes (null, null); nothing else changes |
| Editor.EditorSession.OnPrevious | app/src/main/java/com/chizh/questeditor/EditorFragment.kt:108-117 | commit the current screen, then go back as Previous does |
| Editor.EditorSession.OnNext | app/src/main/java/com/chizh/questeditor/EditorFragment.kt:119-126 | commit the current screen, then go forward as Next does |
| Editor.EditorSession.OnAdd | app/src/main/java/com/chizh/questeditor/EditorFragment.kt:128-142 | commit the current screen, then insert right, insert left or do nothing, as the dialog choice says |
| Editor.EditorSession.SaveAndExit | app/src/main/java/com/chizh/questeditor/EditorFragment.kt:394-402 | commit, then request a write of the whole screen list exactly when a project file is named; the written project is never empty |
| Editor.CommitTouchesOnlyCurrent | app/src/main/java/com/chizh/questeditor/EditorFragment.kt:178-205 | a commit leaves all other screens and all slot types unchanged, and changes a slot's content only when its type and widget agree |
| Playback.Step | app/src/main/java/com/chizh/questeditor/RunFragment.kt:68-69 | one submit on screen `cursor`: the cursor stays or advances by exactly one; that it advances iff AnswerMatches holds is Step's definition, and PlaybackSession.Submit's ensures state the iff for the method; Play folds it |
| Playback.Play | app/src/main/java/com/chizh/questeditor/RunFragment.kt:67-85 | after any answers the cursor has not moved back, never passes the number of screens, and moved at most one screen per answer |
| Playback.PlayAppend | app/src/main/java/com/chizh/questeditor/RunFragment.kt:67-85 | playing two batches of answers one after another is playing them together |
| Playback.WrongAnswersChangeNothing | app/src/main/java/com/chizh/questeditor/RunFragment.kt:82-84 | wrong answers to the current screen leave the cursor where it is |
| Playback.AllFromIndexwise | app/src/main/java/com/chizh/questeditor/RunFragment.kt:67-85 | the recursive "each answer is right for its position" agrees with the position-by-position statement |
| Playback.CompletesIffAllRight | app/src/main/java/com/chizh/questeditor/RunFragment.kt:67-85 | with one answer per remaining screen, the quest completes iff each answer is the right one for its screen, recursively stated |
| Playback.CompletesIffAllCorrectInOrder | app/src/main/java/com/chizh/questeditor/RunFragment.kt:67-85 | with one answer per remaining screen, the quest completes iff answer k matches the expected answer of screen cursor + k for every k |
| Playback.WrongThenRight | app/src/main/java/com/chizh/questeditor/RunFragment.kt:67-85 | any number of wrong answers to the current screen followed by its right answer move the quest to the next screen, whatever answers follow |
| Playback.FirstRightAnswer | app/src/main/java/com/chizh/questeditor/RunFragment.kt:67-85 | a run that leaves the current screen has a first right answer to it at position n; all answers before n are wrong, and the run's result is the rest played from the next screen |
| Playback.WrongAnswerInBetween | app/src/main/java/com/chizh/questeditor/RunFragment.kt:67-85 | screens expecting "cat" then "dog" are completed by the answers "dog", "CAT ", "dog" |
| Playback.NeedsOneAnswerPerScreen | app/src/main/java/com/chizh/questeditor/RunFragment.kt:67-85 | fewer answers than screens never complete the quest from the start |
| Playback.PlaybackSession.constructor | app/src/main/java/com/chizh/questeditor/RunFragment.kt:33 | a fresh view model has no screens and cursor 0 |
| Playback.PlaybackSession.Load | app/src/main/java/com/chizh/questeditor/RunFragment.kt:48-64 | decoded screens replace the list; otherwise the list is kept and the failure is reported; the cursor becomes 0 either way |
| Playback.PlaybackSession.Submit | app/src/main/java/com/chizh/questeditor/RunFragment.kt:67-85 | a wrong answer changes nothing; a right one advances the cursor by exactly one; completion is reported exactly when the cursor reaches the number of screens; the list never changes |
| Playback.PaddedCapitalsMatch | app/src/main/java/com/chizh/questeditor/RunFragment.kt:68 | "CAT " is accepted for the expected answer "cat" |
| Playback.DogAnswers | app/src/main/java/com/chizh/questeditor/RunFragment.kt:68 | "dog" is accepted for "dog" and refused for "cat" |
| NewProjectDialog.NormaliseTitle | app/src/main/java/com/chizh/questeditor/NewProjectDialog.kt:21 | a blank title gives "Без названия", any other title is returned unchanged (not trimmed), and the result is never blank |
| NewProjectDialog.NormaliseIdempotent | app/src/main/java/com/chizh/questeditor/NewProjectDialog.kt:21 | normalising a normalised title changes nothing |
| Menu.Decimal | app/src/main/java/com/chizh/questeditor/MenuFragment.kt:95 | the printed time is at least one decimal digit with no leading zero, and a single digit exactly for values below 10 |
| Menu.DecimalValue | app/src/main/java/com/chizh/questeditor/MenuFragment.kt:95 | the printed digits, read back as a decimal number, are the time itself |
| Menu.DecimalInjective | app/src/main/java/com/chizh/questeditor/MenuFragment.kt:95 | different times print differently |
| Menu.ProjectFileName | app/src/main/java/com/chizh/questeditor/MenuFragment.kt:95 | the file name is "project_", then the time in decimal, then ".json" |
| Menu.DistinctTimesDistinctFiles | app/src/main/java/com/chizh/questeditor/MenuFragment.kt:95 | projects created at different times get different file names |
| Menu.CreateProject | app/src/main/java/com/chizh/questeditor/MenuFragment.kt:93-99 | the new project has exactly one screen, titled "Новый проект" with every other field default, and is written to the file named after the time |
| Menu.LoadCatalog | app/src/main/java/com/chizh/questeditor/MenuFragment.kt:76-91 | the decoded catalog, or an empty catalog when the file is missing or cannot be read |
| Menu.ProjectList.constructor | app/src/main/java/com/chizh/questeditor/MenuFragment.kt:60 | the catalog starts as the loaded catalog |
| Menu.ProjectList.AddNewProject | app/src/main/java/com/chizh/questeditor/MenuFragment.kt:44-50 | the entry is titled by the dialog value or "Без названия", names the created file, and goes first; the old entries follow in their order; the whole catalog is written back |
| ProjectMenu.Prune | app/src/main/java/com/chizh/questeditor/ProjectMenuFragment.kt:197 | pruning never makes the catalog longer |
| ProjectMenu.PruneMembers | app/src/main/java/com/chizh/questeditor/ProjectMenuFragment.kt:197 | an entry survives pruning iff it was in the catalog and names another file |
| ProjectMenu.PruneAppend | app/src/main/java/com/chizh/questeditor/ProjectMenuFragment.kt:197 | pruning works piece by piece, so survivors keep their relative order |
| ProjectMenu.PruneWithoutMatch | app/src/main/java/com/chizh/questeditor/ProjectMenuFragment.kt:197 | a catalog with no entry naming the file is left unchanged |
| ProjectMenu.PruneIdempotent | app/src/main/java/com/chizh/questeditor/ProjectMenuFragment.kt:197 | pruning twice by the same file is pruning once |
| ProjectMenu.CatalogAfterDelete | app/src/main/java/com/chizh/questeditor/ProjectMenuFragment.kt:195-201 | the catalog written after deleting is the pruned catalog, or empty when there was no catalog file |
| ProjectMenu.DeletedFileGone | app/src/main/java/com/chizh/questeditor/ProjectMenuFragment.kt:195-201 | no entry of the written catalog names the deleted file, and every old entry naming another file is still there |
| ProjectMenu.PreviewScreen | app/src/main/java/com/chizh/questeditor/ProjectMenuFragment.kt:57-62 | the preview is the project's first screen, which needs a non-empty project |
| ProjectMenu.DeleteUndoesAdd | app/src/main/java/com/chizh/questeditor/ProjectMenuFragment.kt:195-201 | deleting a just-added project gives back the earlier catalog when no older entry named its file |
| ProjectMenu.NewProjectPreview | app/src/main/java/com/chizh/questeditor/ProjectMenuFragment.kt:61 | a newly created project can be previewed, and its preview is its "Новый проект" screen |

## Left out

- Android UI: views, dialogs, toasts, fragment transactions, the back stack and the back-press callbacks. Only their effects on the session state are modelled, as the handler methods.
- `updateUI` and the rendering of screens and previews (`setPreview`, `createTextMediaSlot`) are presentation only.
- Image loading: Glide, the layout listener, the "Нет изображения" placeholder and the image view's tag. The tag reaches the commit as an input (`SlotWidget.imageTag`).
- Image picking through the system picker is left out. It is an external activity; its result arrives as the arguments of `SetImageSlot`.
- File I/O and JSON: reading, writing and deleting files, and the kotlinx serialisation of projects and catalogs. These are an unseen library. Reads are modelled as `ProjectSource`/`CatalogSource` inputs and writes as returned values. No encoder or decoder is modelled, so no save-then-load round trip is proved; the model only states that loading a decoded list yields that list (`Editor.LoadedScreens`, `Menu.LoadCatalog`).
- The clock: `System.currentTimeMillis()` is a parameter. The two readings in the new-project handler are separate parameters. `DateFormat` display formatting is not modelled.
- Text.Fold: case folding covers ASCII and the basic Cyrillic block (U+0400 to U+042F, with U+0400 to U+040F mapped to U+0450 to U+045F). Other characters compare exactly. Kotlin folds all of Unicode.
- Text.IsWhitespace: the JVM whitespace set is listed by code point. Characters outside the Basic Multilingual Plane are single `char`s here, not surrogate pairs.
- Playback.PlaybackSession.Submit: requires the cursor on a screen. This excludes two calls on which the source crashes by indexing past the list: a submit after completion, once the end dialog (`RunFragment.kt:70-77`, which the source does not make non-cancellable and which leaves the screen only through "Выйти" at line 75) is dismissed with back and `currentIndex` equals the size (the index at line 68); and any submit after a load that leaves the list empty, whether the file was missing or unnamed (`RunFragment.kt:57-63`) or it decoded to no screens, where `updateUI` (line 99, called at line 65) already indexes the empty list.
- ProjectMenu.PreviewScreen: requires a non-empty project. The source crashes when the decoded project has no screens (`screens[0]`). It also crashes when the project file is missing and the preview reads an uninitialised screen.
- A decode failure (malformed JSON) throws uncaught in four places, none of which is modelled: the editor's load (`EditorFragment.kt:80`), the playback load (`RunFragment.kt:53`), the project preview (`ProjectMenuFragment.kt:60`) and the catalog read of `deleteProject` (`ProjectMenuFragment.kt:197`). `ProjectSource` has no malformed case, and `ProjectMenu.CatalogAfterDelete` takes an `Option` (file present or not), so it cannot express a malformed catalog. Only the catalog load of the project list catches the failure (`MenuFragment.kt:87-90`, `CatalogUnreadable`).
- Integer widths: the cursor and list sizes are unbounded integers. No 32-bit `Int` or 64-bit `Long` overflow is modelled.
- Menu.Decimal: only non-negative times are printed (DecimalValue shows the digits read back give the time). A negative `Long` clock reading, which Kotlin would print with a leading "-", is outside the model.
- `ProjectViewModel` is not part of this model. Its lifetime and state retention across fragment recreation are left out. Each session starts from the constructor's empty state or from whatever state its fields hold.
- Menu.ProjectList.AddNewProject: the navigation to the new project's screen after creation is not modelled.
- Playback.Play: completion is terminal: answers given once the cursor has reached the number of screens are not played. In the source such a submit, possible after the end dialog is dismissed, crashes at `RunFragment.kt:68` (see the Submit line), so there is no behaviour to model.
