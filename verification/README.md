# Pokédex search and blog feed: a Dafny model

This project models the two screens of the Multitask mobile app that hold
logic, not only layout.

- **The Pokédex screen** (`app/pokemon.tsx`). Its search controller checks
  the typed name, resets the screen state and builds the PokéAPI URL. It
  then settles into either the Pokémon that was found or one fixed
  "not found" message. The screen also has pure display helpers: name
  capitalisation, the type-chip colour table, the zero-padded id, stat
  labels, the three colour bands of the stat bars and ability labels.
- **The blog feed screen** (`app/wordpress.tsx`). `stripHtml` turns a post's
  HTML into plain text and `truncateText` cuts it to an excerpt. The
  fetch/refresh controller sets and clears `loading`, `error` and
  `refreshing`, and replaces the posts when a fetch succeeds.

Modules:

- `Network`: the `Option` and `Outcome` values. An `Outcome` is how a fetch
  settled: a parsed payload, or a failure.
- `JsString`: the JavaScript string built-ins the screens use. These are
  `trim`, `toLowerCase`/`toUpperCase`, and `replace` with a one-character
  string pattern. `IndexOf` is the search step of that `replace`, which
  finds the first occurrence; the screens do not call `indexOf` themselves.
- `PokemonDisplay`: the Pokédex display helpers.
- `PokemonSearch`: the search controller, as class `PokedexScreen`.
- `HtmlText`: `stripHtml`, `truncateText` and the excerpt.
- `BlogFeed`: the feed controller, as class `BlogScreen`.

Each screen's React state becomes the fields of a class. An `async` handler
is split at its `await`:

- The first method runs up to the fetch. It returns the URL it would
  request, or `None` when it requests nothing.
- `Settle(outcome)` runs the code after the fetch, including the `finally`
  block.

The network result is a parameter to `Settle`; nothing is fetched. No call
checks that a settling response belongs to the latest request, because the
code has no such check. Two methods drive a fresh screen through a whole
user session, and their contracts state the end-to-end behaviour:
`SearchOnce` and `MountThenRefresh`.

The regular-expression replacements of `stripHtml` are modelled as the
left-to-right scan a global `replace` performs. `/<[^>]*>/g` removes a `<`
together with everything up to the first `>` after it; a `<` with no later
`>` is kept. `/&[^;]+;/g` replaces a `&`, at least one character other than
`;`, and the first `;` after them with one space. The proved results follow:

- After the tag pass no `<` is followed by a `>`.
- After the entity pass no match of the entity pattern remains.
- The entity pass keeps the tag property.
- Each pass leaves text with no match unchanged.
- So `stripHtml` gives trimmed text with neither pattern in it, and
  applying it twice is the same as applying it once.

Some behaviour of the code is easy to miss, and the model keeps it:

- The search path segment is not percent-encoded. It is the name
  lower-cased and then trimmed (`app/pokemon.tsx:63`).
- A blank search sets the error and keeps the Pokémon already on display
  (`app/pokemon.tsx:53-56`). `BlankSearchKeepsResult` shows this.
- A successful settle stores the Pokémon without clearing the error
  (`app/pokemon.tsx:70`).
- A failed settle sets the error without clearing the Pokémon
  (`app/pokemon.tsx:72`).
- The stat bar width is not clamped at 100% (`app/pokemon.tsx:308, 320`);
  see `WidthNotClamped`.
- There is no per-request token: any `Settle` applies to the current state,
  whichever request it answers.

## Model

| member | source | states |
|---|---|---|
| `JsString.Trim` | app/pokemon.tsx:53 | The result is the substring between the leading and the trailing whitespace. It is empty exactly when the input is all whitespace, and neither of its ends is whitespace. |
| `JsString.SpaceEnd` | app/wordpress.tsx:84 | Where a run of whitespace starting at a position ends: every character up to there is whitespace and the next one is not. |
| `JsString.SpaceStart` | app/wordpress.tsx:84 | Where a run of whitespace ending at a position starts: every character from there on is whitespace and the one before is not. |
| `JsString.TrimOfTrimmed` | app/wordpress.tsx:84 | A string with no whitespace at either end is its own trim. |
| `JsString.TrimIdempotent` | app/wordpress.tsx:84 | Trimming twice is the same as trimming once. |
| `JsString.TrimEmptyIffBlank` | app/pokemon.tsx:53 | `!name.trim()` holds exactly when every character of the name is whitespace. |
| `JsString.LowerChar` | app/pokemon.tsx:63 | An upper-case ASCII letter becomes its lower-case letter. Every other character is unchanged, and no result is an upper-case ASCII letter. |
| `JsString.UpperChar` | app/pokemon.tsx:135 | A lower-case ASCII letter becomes its upper-case letter. Every other character is unchanged, and no result is a lower-case ASCII letter. |
| `JsString.Lower` | app/pokemon.tsx:63 | Same length, and each character is lower-cased. |
| `JsString.LowerTrimCommute` | app/pokemon.tsx:63 | Lower-casing and then trimming gives the same string as trimming and then lower-casing. |
| `JsString.IndexOf` | app/pokemon.tsx:286 | -1 exactly when the character is absent. Otherwise it is the first position holding the character. |
| `JsString.ReplaceFirst` | app/pokemon.tsx:286 | Same length. Unchanged when the pattern is absent. Otherwise only the character at `indexOf` is replaced. |
| `JsString.ReplaceFirstCount` | app/pokemon.tsx:286 | Replacing removes exactly one occurrence of the pattern character. |
| `PokemonDisplay.CapitalizeFirst` | app/pokemon.tsx:134-136 | Same length. The first character is upper-cased and the rest is unchanged, and the empty string stays empty. |
| `PokemonDisplay.CapitalizeFirstIdempotent` | app/pokemon.tsx:134-136 | Capitalising an already capitalised string changes nothing. |
| `PokemonDisplay.TypeColor` | app/pokemon.tsx:110-132 | Each of the 18 known type names gets its table colour. Every other name gets `#68A090`. |
| `PokemonDisplay.DefaultMeansUnknownType` | app/pokemon.tsx:131 | The colour is `#68A090` exactly when the type name is not in the table. |
| `PokemonDisplay.TypeColorsDistinct` | app/pokemon.tsx:111-130 | A fact about the table data, not a promise of the code: no two known types share a colour, so a chip colour identifies its type. |
| `PokemonDisplay.DigitChar` | app/pokemon.tsx:221 | The character of a decimal digit. |
| `PokemonDisplay.NatToString` | app/pokemon.tsx:221 | A non-empty string of digits. It has no leading zero and has 3 or more digits exactly when the number is at least 100. |
| `PokemonDisplay.NatToStringRoundTrip` | app/pokemon.tsx:221 | Reading the decimal spelling back gives the number. |
| `PokemonDisplay.IntToString` | app/pokemon.tsx:221 | The decimal spelling, with a `-` in front of a negative number. |
| `PokemonDisplay.Repeat` | app/pokemon.tsx:221 | `n` copies of one character. |
| `PokemonDisplay.PadStart` | app/pokemon.tsx:221 | The result has the width or the input's length, whichever is larger. It ends with the input and is filled with the pad character in front. |
| `PokemonDisplay.PaddedId` | app/pokemon.tsx:221 | At least 3 characters. Ids of 100 or more are shown unchanged, and smaller non-negative ids take exactly 3 characters. |
| `PokemonDisplay.LeadingZeros` | app/pokemon.tsx:221 | Zeros in front of a digit string do not change its value. |
| `PokemonDisplay.PaddedIdRoundTrip` | app/pokemon.tsx:221 | The padded id of a non-negative id is all digits and reads back as the id, so distinct ids are displayed differently. |
| `PokemonDisplay.StatLabel` | app/pokemon.tsx:299-313 | A known stat gets its Spanish label. Any other name is capitalised. The label is empty only for the empty name and never starts with a lower-case ASCII letter. |
| `PokemonDisplay.StatBarColor` | app/pokemon.tsx:321 | The bar colour is one of green, orange and red. |
| `PokemonDisplay.StatBands` | app/pokemon.tsx:308-321 | For whole-number stats: green exactly for 192 and up, orange exactly for 128 to 191, red exactly for 127 and below. |
| `PokemonDisplay.StatBandsMonotone` | app/pokemon.tsx:321 | A larger stat never gets a lower band. |
| `PokemonDisplay.Percentage` | app/pokemon.tsx:308 | `(base_stat / 255) * 100` in exact arithmetic: non-negative exactly for non-negative stats, and at most 100 exactly for stats up to 255. |
| `PokemonDisplay.WidthNotClamped` | app/pokemon.tsx:308-320 | The percentage exceeds 100 exactly for stats above 255. |
| `PokemonDisplay.AbilityLabel` | app/pokemon.tsx:286 | Same length. Without a hyphen the name is only capitalised. With one, the label is the capitalised name with its first hyphen turned into a space: the part before it is kept (its first letter upper-cased), and every later character, later hyphens included, is kept. |
| `PokemonSearch.IsBlank` | app/pokemon.tsx:53 | `!pokemonName.trim()`: the leading whitespace run covers the whole name; `TrimEmptyIffBlank` gives the all-whitespace form. |
| `PokemonSearch.SearchUrl` | app/pokemon.tsx:63 | The URL starts with the fixed PokéAPI prefix. |
| `PokemonSearch.SearchUrlSegment` | app/pokemon.tsx:53-63 | The segment after the prefix is `name.toLowerCase().trim()`. It has no upper-case ASCII letter and no whitespace at its ends, and it is empty exactly for a name the blank check rejects. |
| `PokemonSearch.PokedexScreen.constructor` | app/pokemon.tsx:45-48 | Empty name, no Pokémon, not loading, no error. |
| `PokemonSearch.PokedexScreen.SetName` | app/pokemon.tsx:167 | The typed name replaces the stored one. |
| `PokemonSearch.PokedexScreen.Search` | app/pokemon.tsx:52-63 | A request is made exactly when the name is not blank. A blank name sets the empty-name message and leaves `loading` and the Pokémon unchanged. Otherwise `loading` is set, the error and the Pokémon are cleared, and `SearchUrl(name)` is requested. |
| `PokemonSearch.PokedexScreen.Settle` | app/pokemon.tsx:65-75 | Success stores the payload and leaves the error as it was. Failure sets the not-found message and leaves the Pokémon as it was. Loading ends either way, and no Pokémon is shown while loading. |
| `PokemonSearch.SearchOnce` | app/pokemon.tsx:52-76 | On a fresh screen, a blank name requests nothing and shows the empty-name message. Otherwise the prefix plus the lower-cased trimmed name is requested. Then success shows the payload with no error, and failure shows no Pokémon and the not-found message. Loading ends either way. |
| `PokemonSearch.BlankSearchKeepsResult` | app/pokemon.tsx:53-56 | After a successful search, a blank search leaves the Pokémon on display and adds the empty-name message. |
| `HtmlText.TagAt` | app/wordpress.tsx:84 | `/<[^>]*>/` matches at the start of the text: a `<` with a `>` somewhere after it. |
| `HtmlText.TagMatch` | app/wordpress.tsx:84 | Where the tag pattern matches, the match runs from the `<` to the first `>` after it, with no `>` in between. |
| `HtmlText.StripTags` | app/wordpress.tsx:84 | No longer than the input and uses only its characters. No `<` is followed later by a `>`. What happens to each match is stated by `TagDecomp`. |
| `HtmlText.TagDecomp` | app/wordpress.tsx:84 | After text with no `<`, a tag match (a `<`, no `>`, then a `>`) is deleted: the text before it is kept and the pass continues on the text after it. |
| `HtmlText.StripTagsNoop` | app/wordpress.tsx:84 | Text with no tag match goes through the tag pass unchanged. |
| `HtmlText.EntityAt` | app/wordpress.tsx:84 | `/&[^;]+;/` matches at the start of the text: a `&`, a character other than `;`, and a `;` somewhere after them. |
| `HtmlText.EntityMatch` | app/wordpress.tsx:84 | Where the entity pattern matches, the match runs from the `&` to the first `;` after it, with at least one character and no `;` in between. |
| `HtmlText.ReplaceEntities` | app/wordpress.tsx:84 | No longer than the input, and uses only its characters and spaces. A first character that is not `&` is kept. No entity match remains. What happens to each match is stated by `EntityDecomp`. |
| `HtmlText.EntityDecomp` | app/wordpress.tsx:84 | An entity match (a `&`, at least one character and no `;`, then a `;`) becomes exactly one space. This holds after any text that starts no match, that is, text in which every `&` is followed by a `;`: that text is kept, and the pass carries on after the match. |
| `HtmlText.AmpersandsClosedTail` | app/wordpress.tsx:84 | Text in which every `&` is followed by a `;` keeps that property after its first character is dropped. This is the step the entity pass takes past a kept character. |
| `HtmlText.ReplaceEntitiesNoop` | app/wordpress.tsx:84 | Text with no entity match goes through the entity pass unchanged. |
| `HtmlText.ReplaceEntitiesKeepsNoTag` | app/wordpress.tsx:84 | The entity pass creates no tag match. |
| `HtmlText.StripHtml` | app/wordpress.tsx:83-85 | The plain text has no whitespace at either end and no match of the tag or the entity pattern. |
| `HtmlText.StripHtmlIdempotent` | app/wordpress.tsx:83-85 | Stripping stripped text changes nothing. |
| `HtmlText.PlainTextOnlyTrimmed` | app/wordpress.tsx:84 | Text with no `<` and no `&` is only trimmed. |
| `HtmlText.TruncateText` | app/wordpress.tsx:98-101 | Text of at most `maxLength` characters is returned unchanged. Longer text becomes exactly its first `maxLength` characters followed by `...`. The result is never longer than `maxLength + 3`. |
| `HtmlText.Excerpt` | app/wordpress.tsx:171 | The cut is made after stripping, so the excerpt is at most 153 characters. It starts with the stripped text and contains no tag match. |
| `BlogFeed.PostText` | app/wordpress.tsx:155-172 | A card shows the stripped title and the excerpt: both are free of tags and the excerpt is at most 153 characters. |
| `BlogFeed.BlogScreen.constructor` | app/wordpress.tsx:31-34 | No posts, not loading, no error, not refreshing. |
| `BlogFeed.BlogScreen.ShowsLoadingScreen` | app/wordpress.tsx:103 | `loading && posts.length === 0`: the whole screen is the loading indicator. `Fetch` and `MountThenRefresh` state when it holds. |
| `BlogFeed.BlogScreen.Fetch` | app/wordpress.tsx:39-44 | The posts URL is requested. `loading` is set and the error cleared, while the posts and `refreshing` are kept. The full-screen loader shows exactly when there are no posts yet. |
| `BlogFeed.BlogScreen.OnRefresh` | app/wordpress.tsx:65-68 | `refreshing` is set, then a fetch starts. The posts are kept. |
| `BlogFeed.BlogScreen.Settle` | app/wordpress.tsx:46-58 | Success replaces the posts wholesale and leaves the error as it was. Failure sets the fixed load-error message and keeps the posts. Both indicators are cleared either way. `refreshing` implies `loading` throughout. |
| `BlogFeed.MountThenRefresh` | app/wordpress.tsx:39-68 | Mounting covers the screen with the loader. A refresh does so only when no posts arrived before. A failed refresh keeps the earlier posts and shows the error; a successful one shows the new posts. |

## Left out

- The network: `fetch`, `response.ok`, `response.json()` and any check of the JSON's shape. How a request settles is a parameter to `Settle`; a non-ok status, a transport error and unparsable JSON are all `Fail`.
- React's state setters. They are modelled as immediate field writes, and renders between them are not modelled. Overlapping requests are modelled only in that `Settle` may be called in any state.
- Audio: `playPokemonCry` and the effect that unloads the sound (`app/pokemon.tsx:78-108, 143-149`). They drive the `expo-av` sound resource.
- `formatDate` (`app/wordpress.tsx:87-96`), which depends on `Date` and locale formatting.
- `openLink` (`app/wordpress.tsx:70-81`), which calls `Linking`. The `console.error` log on a failed fetch is left out too.
- The height and weight shown divided by 10 (`app/pokemon.tsx:267, 272`). That is floating-point division.
- Percentage: floating-point rounding is not modelled; the percentage is exact real arithmetic. No whole-number stat lies within rounding distance of 50% or 75%, so the colour bands are unaffected.
- Lower: JavaScript's `toLowerCase` maps all of Unicode. Only ASCII letters are mapped here.
- CapitalizeFirst: upper-cases ASCII letters only. JavaScript's `toUpperCase` can also change a string's length (`ß` becomes `SS`).
- TypeColor: the lookup is in a plain JavaScript object. A key inherited from `Object.prototype`, such as `constructor`, would return a function, not the default colour; only the own keys are modelled. The same holds for `StatLabel`.
- TruncateText: lengths count characters, not UTF-16 code units. A character outside the Basic Multilingual Plane counts as one, and a cut never splits it. Only non-negative whole-number lengths are modelled.
- SearchUrl: its own contract states only the prefix; what follows the prefix is stated by `SearchUrlSegment`. The function computes the segment as trimmed-then-lowered, which that lemma proves equal to the source's lowered-then-trimmed.
- PaddedId: only whole-number ids below 10^21 in magnitude are modelled. JavaScript would print a fractional id with a decimal point, and an id of 10^21 or more in exponent form (`1e+21`). Ids above 2^53 also do not survive `response.json()` exactly.
- IntToString: spells out every digit; JavaScript's `toString` does so only below 10^21 in magnitude and prints larger numbers in exponent form, such as `1e+21`.
- The other screens and their layout: `app/about.tsx`, `app/_layout.tsx` and `app/(tabs)/`. All styles, images and the featured-image and author conditions of a post card are left out too.
