# Flashcard study sets: the form, dashboard and settings logic in Dafny

This project models the decision and list logic inside three components of a
flashcard web application (Next.js front end over a hosted table store):

- **New study set form** (`app/sets/new/page.tsx`, module `NewStudySet`). The
  form holds an editable list of flashcards. The list starts with two blank
  cards, and the handlers can append a card, remove the cards with an id, or
  set the term or definition of the cards with an id. Removal is refused with
  "Minimum 2 flashcards required" while the list has two cards or fewer.
  Submitting runs a guard chain in a fixed order: signed-in user, non-blank
  title, at least 2 cards, at least 2 complete cards. It then builds the
  StudySet row and one Term row per complete card: trimmed text, rank
  `index + 1`, not ephemeral. The list is the `FlashcardForm` class. Its
  methods are specified by pure step functions (`AddStep`, `RemoveStep`,
  `UpdateStep`), because each handler replaces the list with a new array.
  The submit path is a set of pure functions. `HandleSubmit` takes the
  outcomes of the two inserts as inputs.
- **Dashboard list** (`components/study-sets-list.tsx`, module
  `StudySetsList`). The tally loop counts Term rows per `studySetId` into a
  map. It is an imperative method proved against a counting function. The
  render decision (loading, then error, then empty, then list) is a function
  of the flags, and `RenderStudySetsList` builds the grid with each set's
  count.
- **Settings** (`app/settings/page.tsx`, module `Settings`). Covers the
  language cycle `en → es → fr → en`, where an unknown language goes to `en`.
  The theme, notification and language handlers write to localStorage. Only
  the theme handler also sets the `dark` class. The effect restores saved
  preferences, and the profile update refuses to run without a user. The
  page is the `SettingsPage` class.
  localStorage is a `map<string, string>` field, the `dark` class on the
  document element is a `bool` field, and the `prefers-color-scheme: dark`
  query is a method parameter.

`JsText` models ECMAScript's `String.prototype.trim` over that standard's
WhiteSpace and LineTerminator characters. `Wrappers` holds `Option` and
`Result`.

On the new-set page a card has only `id`, `term` and `definition`. Every
complete card is inserted as a new Term row, and nothing is updated or
deleted. The image-URL packing of definitions, the bulk-import parser and
the reconciliation of an edited set live in `app/sets/[id]/edit/page.tsx`
(the packing at lines 42 and 47, `parseImportLine` at line 186, and the
Term deletes of the reconciliation at lines 298-316) and are not part of
this model.

A further point comes from the proofs rather than from the source.
`removeFlashcard` filters out every card with the given id. So the "never
fewer than two cards" property holds only because ids are distinct, which
the fresh UUIDs ensure. `DuplicateIdsBreakMinimum` shows that three cards
with a repeated id would go down to one.

## Model

| member | source | states |
|---|---|---|
| `JsText.Trim` | app/sets/new/page.tsx:59 | the trimmed string is no longer than the input and neither starts nor ends with whitespace |
| `JsText.TrimIsInfix` | app/sets/new/page.tsx:69-71 | trim keeps exactly the infix of the input after its leading whitespace, and every character it drops before or after that infix is whitespace |
| `JsText.TrimEmptyIff` | app/sets/new/page.tsx:59 | a trimmed string is empty (falsy) exactly when the input is all whitespace |
| `JsText.TrimIdempotent` | app/sets/new/page.tsx:110-111 | trimming an already trimmed string changes nothing |
| `NewStudySet.InitialFlashcards` | app/sets/new/page.tsx:26-29 | the initial list has exactly two cards, both with empty term and definition, and it is well formed exactly when the two ids differ |
| `NewStudySet.AddStep` | app/sets/new/page.tsx:32-34 | adding keeps every existing card at its position and puts one blank card at the end; a fresh id keeps the list well formed |
| `NewStudySet.WithoutIdMembers` | app/sets/new/page.tsx:41 | the filter keeps exactly the cards whose id differs, and an absent id leaves the list unchanged |
| `NewStudySet.WithoutIdConcat` | app/sets/new/page.tsx:41 | the filter distributes over concatenation, so kept cards stay in their original order |
| `NewStudySet.WithoutIdUnique` | app/sets/new/page.tsx:36-42 | with distinct ids, removing card k's id gives exactly the list without position k |
| `NewStudySet.WithoutIdDistinct` | app/sets/new/page.tsx:41 | filtering keeps ids distinct |
| `NewStudySet.RemoveStep` | app/sets/new/page.tsx:36-42 | removal is refused with "Minimum 2 flashcards required" exactly when the list has at most two cards; otherwise the list is filtered by id |
| `NewStudySet.RemoveStepKeepsWellFormed` | app/sets/new/page.tsx:36-42 | an accepted removal on a well-formed list drops at most one card and leaves it well formed |
| `NewStudySet.UpdateStep` | app/sets/new/page.tsx:44-48 | update keeps length, order and ids; it sets the named field of the matching cards, and every other field and card is unchanged; well-formedness is kept |
| `NewStudySet.RunKeepsWellFormed` | app/sets/new/page.tsx:26-48 | any sequence of add, remove and update calls with fresh added ids keeps the list well formed |
| `NewStudySet.NeverBelowTwo` | app/sets/new/page.tsx:26-48 | from the initial state the list never has fewer than two cards |
| `NewStudySet.DuplicateIdsBreakMinimum` | app/sets/new/page.tsx:41 | with a repeated id, one accepted removal takes three cards down to one |
| `NewStudySet.FlashcardForm.constructor` | app/sets/new/page.tsx:24-29 | the form starts with empty title and description and the two initial cards, well formed |
| `NewStudySet.FlashcardForm.AddFlashcard` | app/sets/new/page.tsx:32-34 | the list becomes the old list plus one blank card, and stays well formed |
| `NewStudySet.FlashcardForm.RemoveFlashcard` | app/sets/new/page.tsx:36-42 | at two cards or fewer it returns the error message and leaves the list unchanged; otherwise it filters the id and reports no error; the list stays well formed |
| `NewStudySet.FlashcardForm.UpdateFlashcard` | app/sets/new/page.tsx:44-48 | the list becomes the updated copy and stays well formed |
| `NewStudySet.CompleteCardsMembers` | app/sets/new/page.tsx:69-71 | the complete cards are exactly the cards of the list whose trimmed term and definition are both non-empty |
| `NewStudySet.CompleteCardsConcat` | app/sets/new/page.tsx:69-71 | the complete-card filter distributes over concatenation, so order is preserved |
| `NewStudySet.Validate` | app/sets/new/page.tsx:53-76 | each error is reported exactly when every earlier rule passed and its own rule fails, in the order no user, blank title, fewer than 2 cards, fewer than 2 complete cards; success yields the complete cards, at least two |
| `NewStudySet.WellFormedPassesCardCount` | app/sets/new/page.tsx:64-67 | the card-count rule never fires for a list the form keeps well formed |
| `NewStudySet.TermRows` | app/sets/new/page.tsx:107-114 | one row per complete card in order, with trimmed word and definition, rank index+1, not ephemeral, the new set's id and a fresh row id |
| `NewStudySet.PositionalRanksDense` | app/sets/new/page.tsx:112 | rows ranked by position carry exactly the ranks 1..N, strictly increasing |
| `NewStudySet.TermRowsRanksDense` | app/sets/new/page.tsx:107-114 | the inserted ranks are exactly 1..N with no gaps and no repeats |
| `NewStudySet.TermRowsTextTrimmed` | app/sets/new/page.tsx:107-114 | rows built from complete cards have non-empty word and definition with no surrounding whitespace |
| `NewStudySet.StudySetRowFor` | app/sets/new/page.tsx:87-99 | the set row stores the trimmed title; its description is null exactly when the description is blank, else the trimmed text; plus the fixed defaults of a new set |
| `NewStudySet.PlanSubmit` | app/sets/new/page.tsx:53-114 | nothing is planned exactly when validation fails, with the same error; otherwise the plan is exactly the set row for the user (trimmed title, null description when blank) and row i built from complete card i, at least two rows ranked 1..N with non-empty text |
| `NewStudySet.InsertErrorText` | app/sets/new/page.tsx:126-130 | a failed insert shows the error's message, and "Failed to create study set" exactly when that message is empty |
| `NewStudySet.HandleSubmit` | app/sets/new/page.tsx:50-131 | a validation failure sends no insert and shows that rule's message; after validation the StudySet row is sent, and the Term rows of the complete cards are sent exactly when that insert succeeded; a failed insert shows its error text; the page navigates to /sets/<id> exactly when both inserts succeed, and only then stays submitting |
| `NewStudySet.SubmitSucceeds` | app/sets/new/page.tsx:50-124 | a submit that passes validation and whose two inserts succeed sends the set row and the rows of the complete cards, shows the success message and redirects to the new set |
| `NewStudySet.TwoCardSubmit` | app/sets/new/page.tsx:50-124 | two cards typed without surrounding whitespace and an empty description give one StudySet row with a null description, two Term rows ranked 1 and 2 holding the texts as typed, and a redirect to the new set |
| `StudySetsList.Occurrences` | components/study-sets-list.tsx:69-72 | the count of a set is at most the number of terms |
| `StudySetsList.OccurrencesPositive` | components/study-sets-list.tsx:69-72 | a set's count is non-zero exactly when some term belongs to it |
| `StudySetsList.TallyTermCounts` | components/study-sets-list.tsx:69-72 | after the loop every set's count (0 when absent) is the number of its terms, the map has entries exactly for sets with terms, and null terms give an empty map |
| `StudySetsList.TallySumsToLength` | components/study-sets-list.tsx:70-71 | the counts of a completed tally add up to the number of terms |
| `StudySetsList.OccurrencesPermutation` | components/study-sets-list.tsx:69-72 | a set's count is the same for any reordering of the terms |
| `StudySetsList.TallyOrderIndependent` | components/study-sets-list.tsx:69-72 | tallies of two orderings of the same terms are the same map |
| `StudySetsList.SelectBranch` | components/study-sets-list.tsx:45-67 | any loading flag gives the spinner even when there is an error; otherwise an error gives the error; otherwise a null or empty list gives the empty state; otherwise the non-empty list |
| `StudySetsList.DescriptionShown` | components/study-sets-list.tsx:82 | a null or empty description shows "No description", any other description is shown as is |
| `StudySetsList.RenderStudySetsList` | components/study-sets-list.tsx:45-101 | the view follows the branch priority with the source's texts; in the grid each set keeps its position and shows its title, its description, its `createdAt` as stored and the number of fetched terms that belong to it |
| `StudySetsList.NullTermsShowZero` | components/study-sets-list.tsx:69-89 | with null terms every set shows a count of 0 |
| `Settings.IndexOf` | app/settings/page.tsx:78 | the result is the first position holding the value, or -1 exactly when the value is absent |
| `Settings.NextLanguage` | app/settings/page.tsx:76-81 | the next language is always one of the three options |
| `Settings.NextLanguageCycle` | app/settings/page.tsx:76-81 | en goes to es, es to fr, fr to en, and any language not among the options goes to en |
| `Settings.CycleThriceIsIdentity` | app/settings/page.tsx:76-81 | three switches from en, es or fr return to the starting language |
| `Settings.NotificationsRoundTrip` | app/settings/page.tsx:36-66 | the stored "true"/"false" string of a flag reads back as the same flag |
| `Settings.DarkClassFor` | app/settings/page.tsx:48-59 | the dark class is present for "dark", absent for "light", and equal to the system preference for "system" |
| `Settings.RestoredPreferences` | app/settings/page.tsx:33-40 | a saved theme or language applies only when present and non-empty; saved notifications apply whenever present and are on exactly for "true"; otherwise the current values stay |
| `Settings.PreferencesRoundTrip` | app/settings/page.tsx:33-74 | what the three handlers store under "theme", "notifications" and "language" restores to the same preferences, whatever the page held before |
| `Settings.EmptyStorageKeepsDefaults` | app/settings/page.tsx:22-24 | with nothing saved the defaults "system", true and "en" stay |
| `Settings.OrEmpty` | app/settings/page.tsx:28-31 | a missing profile value reads as the empty string, a present one as itself |
| `Settings.ProfileUpdateRequest` | app/settings/page.tsx:86-100 | with no user the update reports the login error and sends nothing; otherwise it sends the form's name and phone |
| `Settings.ProfileUpdateToast` | app/settings/page.tsx:102-107 | success shows the success message; a thrown Error shows its message, and a thrown value that is not an Error shows "Failed to update profile" |
| `Settings.SettingsPage.constructor` | app/settings/page.tsx:17-24 | the page starts with theme "system", notifications on, language "en" and empty profile fields |
| `Settings.SettingsPage.Restore` | app/settings/page.tsx:26-42 | with a user, the profile fields are copied and the preferences restored from storage; without one nothing changes; storage and the dark class are untouched |
| `Settings.SettingsPage.HandleThemeChange` | app/settings/page.tsx:44-62 | the theme is recorded and stored under "theme", and the dark class follows the theme and, for "system", the media query |
| `Settings.SettingsPage.ToggleTheme` | app/settings/page.tsx:155 | the header button switches to "light" from "dark" and to "dark" from anything else, stores the theme, sets the dark class and shows "Theme updated" |
| `Settings.SettingsPage.HandleNotificationsChange` | app/settings/page.tsx:64-68 | the flag is recorded and stored as "true" or "false" under "notifications" |
| `Settings.SettingsPage.HandleLanguageChange` | app/settings/page.tsx:70-74 | the language is recorded and stored under "language" |
| `Settings.SettingsPage.CycleLanguage` | app/settings/page.tsx:76-81 | the language becomes the next option, is stored under "language", and "Language preference updated" is shown |

## Left out

- The calls to the table store (`insert` into StudySet and Term, `auth.updateUser`) and the `useClientFetch` hook are not modelled. What is modelled is what would be sent. Each insert's outcome is an input, either success or an error message.
- The user filter that `components/study-sets-list.tsx` passes to the fetch hook is not modelled. The hook takes positional `cache` and `filters` arguments, but the component passes one options object, so the filter is never applied. `RenderStudySetsList` therefore lists every fetched set.
- `crypto.randomUUID` is replaced by ids the caller supplies. Their freshness is a precondition: `FlashcardForm.AddFlashcard` requires the new id to be absent, and `FreshAdds` states the same for a sequence of calls.
- Timestamps are one opaque `now` string. The source calls `new Date()` separately for `createdAt` and `savedAt`, so the two may differ by the time between the calls.
- `toLocaleDateString` is not modelled. The grid card carries `createdAt` as stored.
- JSX rendering, `toast`, and `router.push` are modelled only as returned values: a message, a view, or a redirect path. The buttons' `disabled` state is not modelled. The remove button is also disabled at two cards, but the handler's own guard is what the model covers.
- React scheduling is not modelled. Each handler works on the state of the last render, and two handler calls inside one render (stale closures) are not captured.
- localStorage exceptions, and the live media query, are not modelled. The `prefers-color-scheme` result is a parameter.
- `setTitle`, `setDescription` and the profile input setters are plain field assignments, with nothing to prove.
- JavaScript strings are UTF-16 code units, while Dafny's `string` is a sequence of Unicode scalar values. Every character that `trim` removes is a single code unit, so trimming is unaffected.
- The image-URL packing of definitions, the bulk-import parser and the edit-page reconciliation (`app/sets/[id]/edit/page.tsx`) are not part of this model. They belong to the edit page, not to the three modelled files.
