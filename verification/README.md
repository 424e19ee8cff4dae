# Recipe app core in Dafny

A model of the logic inside a small client-side recipe app. The app keeps a
list of recipes. Each recipe has ingredients that can be checked off, tags, an
image URL and a creation date. The app also has a kitchen timer dialog. The
model covers four parts:

- **Kitchen timer** (`KitchenTimer`, `TimerDisplay`, `Decimal`).
  - The timer dialog is a state machine over the configured minutes and
    seconds, the remaining total in seconds, and an active flag.
  - The one-second interval becomes a discrete `Tick`.
  - The effect that watches the state becomes `React`: an active timer at
    zero is switched off and sounds the alarm.
  - Each user event is applied and then followed by the effect (`Step`).
    `RunEvents` folds a sequence of events and counts the alarms.
  - The `MM:SS` rendering of the remaining time is modelled with JavaScript's
    `String(n)` and `padStart`, together with the inverse reading of a digit
    string.
- **Recipe list** (`RecipeList`, `Seqs`, `Text`).
  - The home page's list operations: add (prepend), update by id (map),
    delete by id (filter), and the setter handed to each card.
  - The search filter: a case-insensitive substring match on the name or any
    tag.
- **Recipe card** (`RecipeCard`): checking off an ingredient, and the
  placeholder image used when a recipe has none.
- **Recipe form** (`RecipeForm`).
  - The validation schema, as a predicate and as the list of broken rules.
  - The values the form opens with.
  - The mapping of submitted values back into a recipe.

The records (`Recipes`) follow `src/lib/types.ts`.

Three behaviours of the code are easy to miss, and the model keeps them:

- Editing the minutes or seconds does not change the remaining total. Only
  Reset, or Start from zero, loads the inputs. So the remaining time can
  exceed the configured duration (`RemainingMayExceedConfigured`).
- Start with a zero configuration and a zero total is not a no-op. The timer
  becomes active at zero, and the effect expires it at once with an alarm
  (`StartAtZeroExpiresImmediately`).
- Closing the dialog only pauses. The dialog's state is not discarded, so
  reopening it shows the paused run.

Parameters and abstractions:

- Ids (`Date.now()`, `Math.random()`) and creation dates (`new Date()`) are
  parameters.
- The URL check of the schema is a caller-supplied predicate `isUrl`.
- Lower-casing is restricted to the ASCII letters.
- String lengths in the schema are counted as JavaScript counts them, in
  UTF-16 code units (`Text.Utf16Length`).

## Model

| member | source | states |
|---|---|---|
| Recipes.WithIdentity | src/app/page.tsx:60-64 | The new recipe carries exactly the supplied id and date, and its editable fields are exactly the ones given |
| RecipeList.Add | src/app/page.tsx:59-66 | The list grows by one. The new recipe, with the supplied id and date, comes first, and the old list follows unchanged |
| RecipeList.Update | src/app/page.tsx:68-74 | Length and the id at every position are kept. Every recipe with the updated id becomes the updated recipe, and every other recipe is untouched |
| RecipeList.Delete | src/app/page.tsx:76-78 | The result is an order-preserving subsequence. It holds exactly the recipes whose id differs, each as often as in the list, and no survivor has the deleted id |
| RecipeList.SetRecipe | src/app/page.tsx:80-86 | A recipe value behaves exactly like Update. An updater function leaves the list unchanged |
| RecipeList.Search | src/app/page.tsx:88-96 | The result is an order-preserving subsequence. A recipe is kept exactly when the lower-cased term occurs in its lower-cased name or in one of its lower-cased tags, as often as it appears in the list |
| RecipeList.Matches | src/app/page.tsx:90-94 | The `filter` callback: the lower-cased term is included in the lower-cased name, or in some lower-cased tag |
| RecipeList.MatchesMeetsSpec | src/app/page.tsx:89-95 | The computed match test (`includes` on the name, `some` over the tags) agrees in both directions with substring occurrence |
| RecipeList.DeleteUndoesAdd | src/app/page.tsx:59-78 | If the id is new, deleting the recipe that was just added gives back the old list |
| RecipeList.UpdateAbsentIsIdentity | src/app/page.tsx:68-74 | Updating with an id that is not in the list changes nothing |
| RecipeList.UpdateIdempotent | src/app/page.tsx:68-74 | Applying the same update twice equals applying it once |
| RecipeList.DeleteAfterUpdate | src/app/page.tsx:68-78 | Deleting an id after updating that id equals just deleting it |
| RecipeList.DeleteIdempotent | src/app/page.tsx:76-78 | Deleting the same id twice equals deleting it once |
| RecipeList.EmptySearchKeepsAll | src/app/page.tsx:88-96 | An empty search term keeps every recipe, in order |
| RecipeList.SearchIgnoresTermCase | src/app/page.tsx:88-96 | Searching for the lower-cased term gives the same result as the term itself |
| Seqs.Filter | src/app/page.tsx:77 | `filter` keeps an order-preserving subsequence. It holds exactly the kept elements, each as often as in the input |
| Seqs.FilterKeepsAll | src/app/page.tsx:77 | Nothing is dropped when every element is kept |
| Seqs.FilterIdempotent | src/app/page.tsx:77 | Filtering twice with the same predicate equals filtering once |
| Seqs.FilterCongruent | src/app/page.tsx:89-95 | Two predicates that agree on every element filter the same |
| Text.Lower | src/app/page.tsx:91 | `toLowerCase` on ASCII: the length is kept and each letter is mapped to its lower-case form |
| Text.Utf16Length | src/components/RecipeForm.tsx:15 | A string's JavaScript `length` is its number of characters plus one for each character outside the Basic Multilingual Plane (a surrogate pair); so it lies between the character count and twice that, and equals the character count when no such character occurs |
| Text.Utf16LengthExamples | src/components/RecipeForm.tsx:15 | "abc" is 3 code units long, and two characters outside the Basic Multilingual Plane are 4 |
| Text.Includes | src/app/page.tsx:91 | `includes` is true exactly when the needle occurs in the haystack at some position |
| Text.LowerIdempotent | src/app/page.tsx:91 | Lower-casing twice equals lower-casing once |
| Text.EmptyIsSubstring | src/app/page.tsx:91 | Every string includes the empty string |
| Text.LowerKeepsOccurrence | src/app/page.tsx:91-93 | An occurrence of the term survives lower-casing both the term and the text |
| RecipeCard.Toggle | src/components/RecipeCard.tsx:29-31 | Length, order, ids and names are kept. `checked` flips on every ingredient with the id, and every other ingredient is identical |
| RecipeCard.ToggleInRecipe | src/components/RecipeCard.tsx:28-33 | The recipe sent for update differs from the card's recipe only in its toggled ingredients |
| RecipeCard.ImageSource | src/components/RecipeCard.tsx:44 | The image is the placeholder URL when the recipe's URL is empty, and the recipe's URL otherwise. It is never empty |
| RecipeCard.ToggleTwice | src/components/RecipeCard.tsx:29-31 | Toggling the same id twice restores the ingredient list |
| RecipeCard.ToggleAbsent | src/components/RecipeCard.tsx:29-31 | Toggling an id that no ingredient carries changes nothing |
| RecipeCard.ToggleCommutes | src/components/RecipeCard.tsx:29-31 | Toggles of two ids commute |
| RecipeCard.CardToggleChangesOneRecipe | src/components/RecipeCard.tsx:28-33 | With unique recipe ids, checking off an ingredient on one card changes only that recipe in the list, and only its ingredients |
| RecipeForm.Valid | src/components/RecipeForm.tsx:14-27 | The schema: a name at least 3 UTF-16 code units long, an image URL that is empty or passes the URL check, at least one ingredient, every ingredient name non-empty and every tag non-empty; zero tags are allowed |
| RecipeForm.IngredientErrors | src/components/RecipeForm.tsx:17-21 | Exactly the ingredient rows with an empty name are reported, by index |
| RecipeForm.TagErrors | src/components/RecipeForm.tsx:22-26 | Exactly the tag rows with an empty value are reported, by index |
| RecipeForm.NoIngredientErrors | src/components/RecipeForm.tsx:19 | No ingredient row is reported exactly when every ingredient name is non-empty |
| RecipeForm.NoTagErrors | src/components/RecipeForm.tsx:24 | No tag row is reported exactly when every tag is non-empty |
| RecipeForm.FieldErrors | src/components/RecipeForm.tsx:15-21 | Each rule on the name length (in UTF-16 code units), the image URL and the ingredient count is reported exactly when it is broken |
| RecipeForm.Validate | src/components/RecipeForm.tsx:14-27 | Each rule of the schema is reported exactly when broken. The error list is empty exactly when the values are valid |
| RecipeForm.AstralNameIsLongEnough | src/components/RecipeForm.tsx:15 | A name of two characters outside the Basic Multilingual Plane is 4 code units long and passes the length rule |
| RecipeForm.Defaults | src/components/RecipeForm.tsx:40-45 | A blank form is an empty name and URL, one empty ingredient row and no tags. An existing recipe's name, URL, ingredient names and tags are copied in order, with an empty ingredient list kept as it is |
| RecipeForm.ToIngredients | src/components/RecipeForm.tsx:63-67 | Each row becomes an unchecked ingredient with the same name and its supplied fresh id, in order |
| RecipeForm.ToTags | src/components/RecipeForm.tsx:62 | The tag rows become their string values, in order |
| RecipeForm.Submit | src/components/RecipeForm.tsx:58-68 | An edit keeps the recipe's id and date. The form's name, URL, tags and ingredients override the recipe's. Without an existing recipe, a new recipe's fields are produced |
| RecipeForm.HandleSubmit | src/components/RecipeForm.tsx:58-79 | Save is rejected exactly when the values are invalid, with a non-empty list of the broken rules. Otherwise the submission is produced |
| RecipeForm.BlankFormIsInvalid | src/components/RecipeForm.tsx:40-45 | The blank form never validates: its name is too short and its ingredient row is empty |
| RecipeForm.DefaultsValidIff | src/components/RecipeForm.tsx:14-45 | The form opened on a recipe validates exactly when the recipe itself meets the schema |
| RecipeForm.SubmitDefaultsRoundTrip | src/components/RecipeForm.tsx:40-68 | Saving the form of a valid recipe unchanged gives back its id, date, name, URL and tags. It keeps the ingredient names in order, each with a fresh id and unchecked |
| RecipeForm.SubmitDefaultsIdentity | src/components/RecipeForm.tsx:40-68 | If the recipe's own ingredient ids are supplied and nothing is checked off, saving the unchanged form reproduces the recipe exactly |
| KitchenTimer.Configured | src/components/TimerDialog.tsx:45 | The duration the inputs describe, minutes*60+seconds, is at most 999:59, and its whole minutes and remaining seconds are the inputs themselves |
| KitchenTimer.Initial | src/components/TimerDialog.tsx:12-16 | The timer starts at 10 minutes, 0 seconds, a total of 600 and inactive |
| KitchenTimer.Tick | src/components/TimerDialog.tsx:27-30 | The interval fires only while active with time left, and then takes off exactly one second. Otherwise nothing changes. The inputs and the active flag are never touched |
| KitchenTimer.React | src/components/TimerDialog.tsx:33-39 | The alarm sounds exactly when the timer is active at zero. The timer is then switched off, and otherwise nothing changes |
| KitchenTimer.Start | src/components/TimerDialog.tsx:44-50 | Start always activates. A zero total is reloaded from the inputs, and any other total is kept |
| KitchenTimer.Pause | src/components/TimerDialog.tsx:90 | Pause deactivates and keeps the total and the inputs |
| KitchenTimer.Reset | src/components/TimerDialog.tsx:52-55 | Reset deactivates and loads the configured duration |
| KitchenTimer.SetMinutes | src/components/TimerDialog.tsx:82 | Editing the minutes changes only the minutes, never the total |
| KitchenTimer.SetSeconds | src/components/TimerDialog.tsx:86 | Editing the seconds changes only the seconds, never the total |
| KitchenTimer.Apply | src/components/TimerDialog.tsx:64-90 | The button dispatches on the active flag, and closing the dialog pauses. Edits are ignored while the inputs are disabled. Otherwise an edit sets its own field, keeps the other field, and keeps the total |
| KitchenTimer.Step | src/components/TimerDialog.tsx:25-42 | After the effect, no active timer sits at zero, and the total stays within the inputs' range. An alarm leaves the timer off at zero, and comes only from a running timer or a Start press |
| KitchenTimer.RunEvents | src/components/TimerDialog.tsx:25-42 | Over an event sequence there are at most as many alarms as events, and the range and settledness of the state are preserved |
| KitchenTimer.CountdownExpiresOnce | src/components/TimerDialog.tsx:27-39 | A running timer with n seconds left reaches zero after n ticks, switches off, and sounds the alarm exactly once |
| KitchenTimer.TicksWhileRunning | src/components/TimerDialog.tsx:27-30 | Fewer ticks than the remaining total keep the timer running with that many seconds taken off, and no alarm |
| KitchenTimer.NoAlarmWithoutStart | src/components/TimerDialog.tsx:33-39 | Once the timer is off, no events without a Start press switch it on or sound the alarm |
| KitchenTimer.StartAtZeroExpiresImmediately | src/components/TimerDialog.tsx:44-50 | Start with nothing configured and nothing left activates the timer at zero. The effect then expires it at once, with an alarm |
| KitchenTimer.PauseThenStartResumes | src/components/TimerDialog.tsx:44-50 | Pause, any edits, then Start resume the same remaining total, without an alarm |
| KitchenTimer.EditsKeepTotal | src/components/TimerDialog.tsx:82-86 | Any sequence of edits keeps the remaining total and the active flag, and sounds no alarm |
| KitchenTimer.ResetLoadsConfiguration | src/components/TimerDialog.tsx:52-55 | Reset from any state yields an inactive timer holding the configured duration, and no alarm |
| KitchenTimer.RemainingMayExceedConfigured | src/components/TimerDialog.tsx:82 | Setting the minutes to 0 on the initial timer leaves 600 seconds remaining against a configured duration of 0 |
| KitchenTimer.EditWithoutResetKeepsOldTotal | src/components/TimerDialog.tsx:44-50 | Editing to 0:05 and pressing Start without Reset resumes the old 600 seconds |
| KitchenTimer.FiveSecondScenario | src/components/TimerDialog.tsx:25-55 | 0:05, Reset, Start and five ticks end with the timer off at zero and exactly one alarm |
| KitchenTimer.PausedScenario | src/components/TimerDialog.tsx:44-90 | 1:30, Reset, Start, ten ticks and Pause leave 80 seconds, paused, with no alarm |
| KitchenTimer.RunAppend | src/components/TimerDialog.tsx:25-42 | Running two event sequences one after the other equals running their concatenation, and the alarms add up |
| Decimal.ToDecimal | src/components/TimerDialog.tsx:60 | `String(n)` is a digit string with no leading zero (0 itself is "0"), one character long exactly when n is below 10 |
| Decimal.PadStart | src/components/TimerDialog.tsx:60 | `padStart` reaches at least the width and never truncates. Every character in front of the original string is the fill character |
| Decimal.PadStartKeepsSuffix | src/components/TimerDialog.tsx:60 | The padded string ends with the original string, unchanged |
| Decimal.ValueOfDecimal | src/components/TimerDialog.tsx:60 | `String(n)` reads back as n |
| Decimal.ValueOfZeroPadded | src/components/TimerDialog.tsx:60 | Padding a numeral with '0' keeps its value |
| TimerDisplay.Field | src/components/TimerDialog.tsx:60 | A padded field is at least two characters long |
| TimerDisplay.Display | src/components/TimerDialog.tsx:57-61 | The rendered time is at least five characters long |
| TimerDisplay.FieldValue | src/components/TimerDialog.tsx:60 | A padded field reads back as the number it renders |
| TimerDisplay.FieldWidth | src/components/TimerDialog.tsx:60 | A field is exactly two characters long exactly when its number is below 100 |
| TimerDisplay.DisplayReadsBack | src/components/TimerDialog.tsx:57-61 | The rendered time splits at a colon before the last two characters. Before it is a numeral for the whole minutes, and after it a two-digit numeral for the seconds within the minute, so minutes*60+seconds is the total |
| TimerDisplay.DisplayWidth | src/components/TimerDialog.tsx:58-60 | The minutes are padded but never truncated: the display is exactly five characters long when fewer than 100 minutes remain |
| TimerDisplay.DisplayExamples | src/components/TimerDialog.tsx:57-61 | 80 seconds render as "01:20", 0 as "00:00", 600 as "10:00", and 999 minutes 59 seconds as "999:59" |

## Left out

- Markup and widgets are not modelled: dialogs, cards, the accordion, badges, images, inputs and buttons.
- React scheduling and real time are not modelled. `useState`, `useEffect`, `setInterval` and `clearInterval` with the 1000 ms period become the discrete `Tick` and `React` steps. No timing or concurrency is modelled.
- The effect's branch that clears an interval which was never set is a no-op and has no counterpart.
- The alarm's toast and audio playback are foreign calls. The alarm is a flag on `Reaction` and a count on `Run`.
- `Date.now()`, `new Date()` and `Math.random()` are nondeterministic. Ids and dates are parameters, and a date is an opaque `Instant`.
- The sample recipes the page starts with are data, not logic.
- The schema's URL check is library behaviour and stays the abstract predicate `isUrl`.
- The field-array mechanics of the form library (appending and removing rows) are out.
- The schema's error message strings are out. Errors are datatype values.
- The form's success toast is UI.
- The date shown on a card uses locale formatting and is out.
- `toLowerCase` is modelled on the ASCII letters only. Unicode case mapping is out.
- The timer inputs' `Number(...)` parsing could yield NaN, negative or fractional values. Minutes and seconds are assumed to be integers in 0..999 and 0..59, the ranges the inputs declare.
- Theme preferences, the settings sheet, the header wiring and the icon are out. They are I/O or static markup.
- Which component calls the form's submit callback (the header's add, or a card's edit) is wiring. `Submission` stands for the two cases.
- TimerDisplay.Display: its own contract states only the minimum length. That the text reads back as the total is proved separately in `DisplayReadsBack` and `DisplayWidth`, which keeps sequence facts about the result out of every caller's context.
- TimerDisplay.Field: its own contract states only the minimum length. The value it reads back as is proved in `FieldValue`, and its exact width in `FieldWidth`.
- Decimal.PadStart: its own contract does not say that the original string follows the fill. `PadStartKeepsSuffix` proves that separately, for the same reason as for `Display`.
