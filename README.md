# Nonsense Generator, modelled in Dafny

A model of the logic of the Nonsense Generator single-page application
(`src/App.tsx`): the word scrambler that joins randomly drawn entries of a
fixed 40-entry pool, the "wrong calculator" that answers any non-empty
expression with an entry of a fixed answer pool and an entry of a fixed
explanation pool, the mood translator with its six fixed text transforms,
and the collection of saved phrases (save prepends, delete filters by id).

Modules, one per concern of the component:

- `Text` (text.dfy): the string primitives the handlers use — ASCII
  `toUpperCase`/`toLowerCase`, `split('')`, `join(sep)`, a one-character
  `replace(/ /g, …)`, occurrence counts, and `toString` of a non-negative
  integer (how a clock reading becomes an id).
- `Moods` (moods.dfy): the catalog (names, emoji markers, transforms) and
  the translation of `translateMood`.
- `Nonsense` (nonsense.dfy): the four word lists, their flattening, the
  drawing loop of `generateNonsense` and the shape of a generated phrase.
- `Calculator` (calculator.dfy): the two pools and the verdict of
  `calculateWrong`.
- `Collection` (collection.dfy): the `NonsenseItem` record and the save and
  delete updaters of the collection.
- `App` (app.dfy): class `NonsenseApp`, holding the component's state
  fields (`savedNonsense`, `currentNonsense`, `generateCount`, `wordCount`,
  `calculation`, `calcResult`, `calcExplanation`, `moodText`,
  `selectedMood`, `translatedText`), with one method per handler.
- `Wrappers` (wrappers.dfy): `Option`, for handlers that may do nothing.

Inputs that the program takes from its environment are parameters:
`Math.random()` becomes a sequence of pool indices (`draws`, each below 40),
two indices for the calculator, and one coin per character for the Chaotic
mood (true meaning `Math.random() > 0.5`, i.e. upper-case); each
`Date.now()` becomes a clock reading (`idClock` for the id, `stampClock`
for the timestamp, which the source reads separately; both are `nat`,
which assumes the system clock is after 1 January 1970, when `Date.now()` is
non-negative); the value the
key-value store holds for `'nonsense-collection'` is given to the
constructor (absent means the default empty list).

Points where the code behaves otherwise than one might expect:

- One might expect a phrase of `wordCount` space-separated tokens, but seven
  of the ten circumstance entries hold spaces of their own ("in zero
  gravity", "during breakfast", …, "in morse code", App.tsx:27). The model
  states the phrase as the single-space join of exactly `wordCount` pool
  entries (`Nonsense.IsPhrase`); `Nonsense.AllWordsLayout` proves that
  exactly pool entries 30 to 36 hold a space, and
  `Nonsense.PhraseTokensExact` that a phrase has exactly `wordCount` tokens
  if and only if no drawn entry holds a space.
- One might expect unique ids, but an id is the millisecond clock reading
  rendered in decimal. The model proves that two records share an id exactly
  when their clock readings agree (`Collection.NewItemIds`), that two saves
  in the same millisecond therefore collide and one delete removes both
  (`Collection.SameMillisecondSaves`), and states delete's effect in terms
  of every record carrying the id (`Collection.DeleteLength`).
- The Mysterious transform on empty text is `"~~"`, not a lone tilde; the
  translator never applies it there because of its empty-input guard.

## Model

| member | source | states |
|---|---|---|
| Text.Upper | src/App.tsx:31 | toUpperCase, as the ASCII case map applied to each character |
| Text.Lower | src/App.tsx:32 | toLowerCase, as the ASCII case map applied to each character |
| Text.Chars | src/App.tsx:33 | split(''): one single-character string per character, in order |
| Text.Join | src/App.tsx:59 | join(sep): the empty string for no parts, the part itself for one, parts separated by sep otherwise |
| Text.ReplaceAll | src/App.tsx:35 | replace(/ /g, '_') for a one-character pattern: each occurrence replaced, every other character kept |
| Text.UpperProperties | src/App.tsx:31 | upper-casing keeps the length and every non-letter, leaves no lower-case letter, is idempotent, and lower-casing afterwards equals lower-casing the original |
| Text.LowerProperties | src/App.tsx:32 | the same for lower-casing, with the roles of the cases swapped |
| Text.JoinChars | src/App.tsx:33 | joining the characters of a non-empty string with a one-character separator gives 2n-1 characters, the string's character k/2 at each even position k and the separator at each odd one |
| Text.JoinCount | src/App.tsx:59 | a join of n > 0 parts contains the parts' occurrences of x plus n-1 times the separator's |
| Text.NatToString | src/App.tsx:74 | the decimal rendering of a clock reading is non-empty, all digits, has no leading zero unless it is "0", and has one digit exactly for readings below 10 |
| Text.NatToStringRoundTrip | src/App.tsx:74 | reading the decimal rendering back yields the clock reading |
| Text.NatToStringInjective | src/App.tsx:74 | two readings render to the same id string if and only if they are equal |
| Moods.Name | src/App.tsx:31-36 | the name field of each mood: "Ecstatic", "Devastated", "Mysterious", "Chaotic", "Robotic", "Fancy" |
| Moods.Emoji | src/App.tsx:31-36 | the marker of each mood, as the source's code points, U+FE0F included where the source has it |
| Moods.CatalogNames | src/App.tsx:30-37 | the catalog holds each of the six moods once and their names are pairwise distinct, so the buttons' name comparison identifies the mood |
| Moods.EcstaticText | src/App.tsx:31 | the Ecstatic transform: the upper-cased text followed by eight '!' |
| Moods.DevastatedText | src/App.tsx:32 | the Devastated transform: the lower-cased text followed by eleven '.' |
| Moods.MysteriousText | src/App.tsx:33 | the Mysterious transform: '~', the characters joined with '~', then '~' |
| Moods.ChaoticText | src/App.tsx:34 | the Chaotic transform: each character upper- or lower-cased as its coin says, joined back with '' |
| Moods.RoboticText | src/App.tsx:35 | the Robotic transform: "[BEEP] ", the upper-cased text with spaces turned into '_', then " [BOOP]" |
| Moods.FancyText | src/App.tsx:36 | the Fancy transform: "Indeed, ", the text, then ", quite." |
| Moods.Transform | src/App.tsx:113 | the transform of the selected mood |
| Moods.EcstaticShape | src/App.tsx:31 | Ecstatic output is the input's length plus 8, position i holds the upper-case form of input character i, and the last 8 characters are '!' |
| Moods.DevastatedShape | src/App.tsx:32 | Devastated output is the input's length plus 11, position i holds the lower-case form of input character i, and the last 11 characters are '.' |
| Moods.MysteriousShape | src/App.tsx:33 | for non-empty text of length n the Mysterious output has length 2n+1, '~' at every even position and text[i] at position 2i+1 |
| Moods.MysteriousOfEmpty | src/App.tsx:33 | the Mysterious transform of the empty text is "~~" |
| Moods.JoinSingletons | src/App.tsx:34 | joining one-character strings with the empty separator gives back those characters in order |
| Moods.ChaoticShape | src/App.tsx:34 | Chaotic keeps the length, position i is the upper-case form of input character i when coin i is true and the lower-case form otherwise, and case-folding output and input gives the same string |
| Moods.ChaoticExtremes | src/App.tsx:34 | all-true coins give the upper-cased text and all-false coins the lower-cased text |
| Moods.RoboticShape | src/App.tsx:35 | Robotic output is the input's length plus 14, begins with "[BEEP] " and ends with " [BOOP]"; the middle holds '_' where the input has a space and the upper-case form elsewhere, so it has no space and no lower-case letter |
| Moods.FancyShape | src/App.tsx:36 | Fancy output is "Indeed, " then the text with its case unchanged then ", quite.", the input's length plus 16 |
| Moods.Translate | src/App.tsx:111-115 | translation yields nothing exactly when the text is empty |
| Moods.TranslateShape | src/App.tsx:111-115 | a translation of non-empty text is the marker, a space, the selected mood's transform, a space and the marker, and its length is twice the marker's plus two plus the transform's |
| Moods.TranslateEcstaticExample | src/App.tsx:111-115 | "hello world" in the Ecstatic mood is the marker, " HELLO WORLD!!!!!!!! " and the marker |
| Moods.TranslateFancyExample | src/App.tsx:111-115 | "hi" in the Fancy mood is the marker, " Indeed, hi, quite. " and the marker |
| Nonsense.Flatten | src/App.tsx:52 | flat(): the lists' entries concatenated in order |
| Nonsense.FlattenMembership | src/App.tsx:52 | a value is in the flattened pool if and only if it is in one of the four lists |
| Nonsense.AllWordsLayout | src/App.tsx:23-28 | the pool has 40 entries, the four categories in order, entry 30 is "in zero gravity", and an entry holds a space exactly when it is one of entries 30 to 36 |
| Nonsense.DrawWords | src/App.tsx:53-57 | the loop yields exactly wordCount entries, entry i being the pool entry at draw i, each a member of the pool |
| Nonsense.Picked | src/App.tsx:56 | the pool entries at the draws, in draw order |
| Nonsense.PickedIsPhrase | src/App.tsx:51-59 | the phrase built from valid draws is the single-space join of exactly as many pool entries as there are draws |
| Nonsense.PhraseSpaces | src/App.tsx:59 | a phrase of n > 0 entries holds n-1 separator spaces plus the spaces inside its entries |
| Nonsense.PhraseTokensExact | src/App.tsx:59 | a phrase of n > 0 entries has exactly n-1 spaces if and only if none of its entries holds a space |
| Calculator.CalculateWrong | src/App.tsx:89-105 | the verdict is absent exactly when the expression is empty; otherwise the result is a member of the wrong-answer pool and the explanation a member of the explanation pool |
| Calculator.PoolSizes | src/App.tsx:92-102 | the wrong-answer pool has 10 entries and the explanation pool 8 |
| Calculator.VerdictIgnoresExpression | src/App.tsx:104-105 | any two non-empty expressions get the same verdict from the same draws |
| Calculator.EveryVerdictReachable | src/App.tsx:104-105 | every pair of a pool answer and a pool explanation is produced by some pair of draws |
| Collection.NewItem | src/App.tsx:73-78 | the new record: the decimal clock reading as id, the text, the timestamp reading and the tag "generated" |
| Collection.NewItemIds | src/App.tsx:73-78 | two new records have the same id if and only if their id clock readings are equal |
| Collection.Save | src/App.tsx:70-80 | with empty text the list is unchanged; otherwise it grows by one, the head has the text, the tag "generated", the rendered id and the timestamp, and the old list is the tail |
| Collection.Delete | src/App.tsx:84-85 | a record is in the result if and only if it is in the list and its id differs from the given one; the result is no longer |
| Collection.DeleteAbsent | src/App.tsx:85 | deleting an id that no record carries leaves the list unchanged |
| Collection.DeleteIdempotent | src/App.tsx:85 | deleting the same id twice equals deleting it once |
| Collection.DeleteLength | src/App.tsx:85 | the length drops by the number of records carrying the id |
| Collection.DeleteConcat | src/App.tsx:85 | deleting from a concatenation is the concatenation of the deletions, so kept records keep their relative order |
| Collection.SaveThenDelete | src/App.tsx:70-85 | when the new id is fresh, deleting it right after the save restores the old list and the length drops by exactly one |
| Collection.SameMillisecondSaves | src/App.tsx:74 | two saves onto any collection with the same id clock reading (timestamps free) add two records with one id, and deleting that id removes both, giving the same list as deleting it from the collection before the saves |
| App.NoticeOnce | src/App.tsx:61-67 | over the first n generations the break notice is raised once if n >= 100 and never otherwise |
| App.NonsenseApp.constructor | src/App.tsx:40-49 | the initial state: the stored collection or the empty list, empty texts, counter 0, word count 5, the first mood of the catalog selected |
| App.NonsenseApp.SetWordCount | src/App.tsx:168-174 | the slider sets the word count to a value in [5, 10] |
| App.NonsenseApp.SetCalculation | src/App.tsx:289 | the expression field takes the typed text |
| App.NonsenseApp.SetMoodText | src/App.tsx:346 | the mood text field takes the typed text |
| App.NonsenseApp.SelectMood | src/App.tsx:355 | the chosen mood becomes the selected one |
| App.NonsenseApp.GenerateNonsense | src/App.tsx:51-68 | the current phrase becomes the join of one pool entry per draw (exactly wordCount pool entries), the counter grows by exactly one, the notice flag is raised exactly when the counter read 99, and at most one notice is ever raised |
| App.NonsenseApp.SaveNonsense | src/App.tsx:70-82 | the collection becomes Save of the old collection and the current phrase, so nothing changes for an empty phrase |
| App.NonsenseApp.DeleteNonsense | src/App.tsx:84-87 | the collection becomes Delete of the old collection and the id |
| App.NonsenseApp.CalculateWrong | src/App.tsx:89-109 | with an empty expression result and explanation are unchanged; otherwise they are the verdict of the drawn indices, members of the two pools |
| App.NonsenseApp.TranslateMood | src/App.tsx:111-115 | with empty text the translated text is unchanged; otherwise it is the selected mood's translation of the text |

## Left out

- Rendering, layout, tabs and animation (src/App.tsx:117-405): presentation only.
- Toast messages and the clipboard write: fire-and-forget calls into libraries; the hundredth-generation toast is modelled as the flag `GenerateNonsense` returns.
- Persistence through `useKV` across sessions: only the in-memory list is modelled; the stored value is a constructor parameter, and the `current || []` fallback of the updaters is taken once, when the state is built.
- `Math.random()` and `Date.now()`: replaced by the parameters described above; uniformity of the draws is not modelled.
- Full Unicode case mapping and UTF-16 code units: `toUpperCase`/`toLowerCase` are modelled on ASCII letters only (the real ones can change length, as 'ß' to "SS"), and `split('')` splits into Unicode scalar values where JavaScript splits astral characters into surrogate halves.
- Id uniqueness: not guaranteed by the code and not claimed; see `Collection.SameMillisecondSaves`.
- React's asynchronous state updates (batched setters, stale closures between renders): each handler is modelled as one atomic update of the fields.
