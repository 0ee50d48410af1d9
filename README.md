# ICU string translator: verified model of the translation pipeline

This project models the logic of a browser tool that translates ICU Message Format strings with a generative-AI service. Dafny proves properties of that model. There are four parts.

- **App** (`app.dfy`). The page controller. The translate action splits the input on line feeds and keeps every line whose trimmed form is non-empty. It rejects an input with no such line before any request. Otherwise it sets the loading flag, clears the error and the results, and awaits the translation. It then stores the results or reports the error as `Translation failed: <message>`, and loading ends either way. The page state is a class (`App.Page`). The action is split at its `await` into `BeginTranslate` and `FinishTranslate`. `HandleTranslate` runs both, with the translation service as a function of the selected lines.
- **Translation service** (`gemini_service.dfy`).
  - It builds the structured-output schema. The `translations` object gets one string property per requested language code, built by a left fold in which a repeated code overwrites itself. The code `__proto__` adds no property, because assigning to it on a plain object replaces the prototype instead.
  - It builds the comma-separated language list and the request.
  - It processes the reply: trim it, reject an empty one, parse it, reject a non-array, and default each item's `original` to `''` and `translations` to `{}` with JavaScript `||`.
  - It rewrites every failure inside the `try` block into one of two messages: the parse-failure message for a `SyntaxError`, the generic fetch message otherwise. A missing API key fails first, with its own message, before any request.
  - The model call and `JSON.parse` are function parameters.
- **Result display** (`result_display.dfy`). The three clipboard exports of the results table ("Copy IDs", "Copy Translations", "Copy All"). Each is tab-separated cells in line-feed-separated rows. The ID column is present only for ARB and JS input. Translation cells have tabs and line feeds replaced by spaces.
- **Constants** (`constants.dfy`). The two target-language lists.

Helper modules model the JavaScript built-ins the code relies on:
- `JsStrings`: `trim` with the ECMAScript whitespace set, `split` on one character, `join`, and the tab/line-feed `replace`.
- `JsValues`: parsed JSON values, truthiness and `||`, property reads, thrown values.
- `Sequences`: distinctness and subsequences.
- `Wrappers`: `Option` (for `undefined`) and `Result` (for throwing).

Where the code departs from the tool's documented intent, the model follows the code:
- Selected lines are sent untrimmed. Leading and trailing spaces and a trailing carriage return stay in the request (`App.KeptLinesAreNotTrimmed`).
- An empty reply, a non-array reply and a reply without text do not get distinct messages. All of them become the generic fetch message (`GeminiService.UnusableReplyIsFetchFailure`).
- A `null` item in the reply array aborts the whole batch. Reading `.original` of `null` throws, and the `catch` turns that into the generic fetch message (`GeminiService.ArrayReplyIsNormalized`).

## Model

| member | source | states |
|---|---|---|
| JsStrings.TrimStartSpec | App.tsx:18 | the leading part `trim` removes is all whitespace, and what remains is a suffix that does not start with whitespace |
| JsStrings.TrimEndSpec | App.tsx:18 | the trailing part `trim` removes is all whitespace, and what remains is a prefix that does not end with whitespace |
| JsStrings.TrimEnds | services/geminiService.ts:77 | a trimmed non-empty string neither starts nor ends with whitespace |
| JsStrings.TrimEmptyIffBlank | App.tsx:18 | `s.trim()` is empty exactly when every character of `s` is whitespace |
| JsStrings.Split | App.tsx:18 | `split('\n')` gives one more piece than there are line feeds, and no piece contains a line feed |
| JsStrings.JoinSplit | App.tsx:18 | joining the split pieces with the separator restores the input, so no character is lost or reordered |
| JsStrings.SplitJoinChar | components/ResultDisplay.tsx:57 | splitting a non-empty join on its one-character separator gives back the parts, provided none holds the separator |
| JsStrings.SplitJoin | services/geminiService.ts:47 | splitting a join on the first character of the separator gives the first part, then each later part behind the rest of the separator |
| JsStrings.ReplaceTabsAndNewlines | components/ResultDisplay.tsx:63 | `replace(/\t\|\n/g, ' ')` keeps the length, turns each tab or line feed into one space, changes nothing else, and leaves neither character behind |
| JsStrings.JoinCount | components/ResultDisplay.tsx:64 | joining k parts that are free of the separator puts exactly k - 1 separators in the result |
| JsStrings.JoinFree | components/ResultDisplay.tsx:66 | rows free of line feeds, joined with tabs, give a line free of line feeds |
| Constants.TextInputLanguagesWellFormed | constants.ts:2-23 | the text-input list has 19 codes, no repeats and no `en` |
| Constants.CodeInputLanguagesWellFormed | constants.ts:26-29 | the code-input list is `en` followed by the text-input list in its order: 20 codes, `en` first, no repeats |
| ResultDisplay.ShowIdColumn | components/ResultDisplay.tsx:50 | the ID column is shown exactly for ARB and JS input, never for text |
| ResultDisplay.Cell | components/ResultDisplay.tsx:63 | a language missing from `translations` gives an empty cell; otherwise the translation with tabs and line feeds turned into spaces, same length, no tab or line feed |
| ResultDisplay.CopyIdsReadBack | components/ResultDisplay.tsx:56-59 | splitting the "Copy IDs" text on line feeds gives exactly one entry per result, in order: entry i is result i's id, or `''` when it has none, provided no id holds a line feed |
| ResultDisplay.CopyTranslationsReadBack | components/ResultDisplay.tsx:61-67 | the "Copy Translations" text splits into exactly one line per result; with no languages each line is empty, otherwise line i splits on tabs into one cell per language, cell j being `Cell(results[i], languages[j])`, with `\|languages\| - 1` tabs |
| ResultDisplay.CopyAllReadBack | components/ResultDisplay.tsx:69-79 | an empty result list copies as `''`; otherwise, when no shown id and no original holds a line feed, "Copy All" splits into exactly one line per result, in order |
| ResultDisplay.FieldsFree | components/ResultDisplay.tsx:71-76 | a tab or line feed absent from the shown id and the original is absent from every field of a "Copy All" row, the translation cells being sanitised |
| ResultDisplay.CopyAllRowReadBack | components/ResultDisplay.tsx:70-76 | when the shown id and the original hold no tab (line feeds do not matter), a "Copy All" row splits on tabs into the id or `''` (only for ARB and JS input), the original, then cell j = `Cell(result, languages[j])` for each language, with `(ID column ? 1 : 0) + \|languages\|` tabs |
| GeminiService.AddLanguageProperties | services/geminiService.ts:17-23 | the fold adds exactly the requested codes other than `__proto__` to the accumulator's keys; a requested code maps to its property, a later occurrence overwriting an earlier one, and other keys keep their value |
| GeminiService.TranslationProperties | services/geminiService.ts:17-23 | the key set is exactly the requested codes except `__proto__` (whose assignment sets the prototype instead); each key maps to a STRING property described as `The translation in <lang>.` |
| GeminiService.TranslationPropertiesCount | services/geminiService.ts:17-23 | repeated codes collapse: there are at most as many properties as codes, and exactly as many iff no code repeats and none is `__proto__` |
| GeminiService.LanguageListReadBack | services/geminiService.ts:47 | splitting `languages.join(', ')` on commas gives the first code, then every other code behind one space |
| GeminiService.RequestCarriesInputs | services/geminiService.ts:17-75 | the request names `gemini-2.5-flash`, asks for `application/json`, carries the strings and the language list, and its schema is an ARRAY of OBJECTs requiring `["original", "translations"]`, with exactly those two properties: `original` a STRING, `translations` an OBJECT whose keys are the requested codes (less `__proto__`), each a STRING described as `The translation in <lang>.`; all descriptions are the source's |
| GeminiService.NormalizeItems | services/geminiService.ts:89-92 | the mapping fails exactly when some item is `null`; otherwise it has one result per item, in order, each the normalised item |
| GeminiService.TranslateIcuStrings | services/geminiService.ts:11-101 | a missing or empty API key fails with the key message, whatever the call would do; with a key, every failure is the parse-failure or the generic fetch error |
| GeminiService.UnusableReplyIsFetchFailure | services/geminiService.ts:77-99 | a blank reply, a reply without text, and a parsed non-array all end as the generic fetch error, their own messages swallowed |
| GeminiService.UnparsableReplyIsParseFailure | services/geminiService.ts:82-97 | a reply that `JSON.parse` rejects ends as the parse-failure error, never as an empty result |
| GeminiService.ThrownCallIsClassified | services/geminiService.ts:67-99 | a value thrown by the model call becomes the parse-failure error when it is a `SyntaxError` and the generic fetch error otherwise (an `Error` of another class, or a non-`Error` value) |
| GeminiService.ArrayReplyIsNormalized | services/geminiService.ts:84-92 | a parsed array without `null` gives one result per item, in order; result i's `original` is the item's `original` field when the item is an object with that field truthy, else `''`, and likewise `translations` with default `{}`; an empty array gives an empty result; a `null` item fails the batch with the fetch error |
| App.NonBlankLines | App.tsx:18 | every kept line has a non-empty `trim()`, and no more lines are kept than given |
| App.NonBlankLinesSpec | App.tsx:18 | the kept lines are a subsequence of the split (same order, untrimmed), and each non-blank line is kept as often as it occurs |
| App.KeptLinesAreNotTrimmed | App.tsx:18 | from `" a \r\n \t\nb"` the lines sent are `" a \r"` and `"b"`: spaces and the carriage return survive, and the blank line is dropped |
| App.NothingSelectedIffBlank | App.tsx:18-22 | no line is selected exactly when the whole input is whitespace |
| App.ServiceFailureIsReported | App.tsx:31-36 | every failure of the translation service is an `Error`, so it is shown as `Translation failed: ` + the key, parse-failure or fetch message, never as the unknown-error text |
| App.Page.constructor | App.tsx:12-15 | the page starts with the sample input, no results, not loading, no error |
| App.Page.EditInput | App.tsx:48 | the text area's change handler replaces the input |
| App.Page.BeginTranslate | App.tsx:18-26 | with no line selected, the error is the empty-input message, nothing is requested, and loading and results are unchanged; otherwise loading is set, error and results are cleared, and exactly the selected lines are requested |
| App.Page.FinishTranslate | App.tsx:28-39 | loading ends on success and on failure; success stores the returned list, and failure stores the formatted message |
| App.Page.HandleTranslate | App.tsx:17-40 | the whole action: blank input leaves loading and results unchanged and sets the empty-input error; otherwise the selected lines go to the service, loading ends, and the results or the formatted error are stored |

## Left out

- The generative-AI client and its network call (services/geminiService.ts:9, 69-75) are modelled as a function from the request to the reply text or a thrown value. Logging with `console.error` (services/geminiService.ts:95) is left out.
- The prompt's wording and `JSON.stringify` of the strings (services/geminiService.ts:49-65) are left out. The request keeps only the language list, the strings, the model name, the MIME type and the schema. `JSON.parse` is a function parameter that gives a value or a `SyntaxError`.
- `process.env.API_KEY` is an `Option<string>` parameter.
- The clipboard write, the 2.5-second "copied" indicator and all rendering (components/ResultDisplay.tsx:20-47, 52-54, 82-122) are left out. The model gives the text each copy button writes.
- components/Header.tsx, components/IcuInput.tsx and components/TranslateButton.tsx are presentational and not modelled. The only logic there is that the button is disabled while loading.
- The await in `handleTranslate` is modelled as two sequential steps. The page's calls to its children are not modelled, because they do not match those children's signatures: the service is called without a language list, `ResultDisplay` gets no `languages` or `inputType`, and `IcuInput` gets no `onPaste`, `label` or `placeholder`. Each function is modelled against its own signature.
- ResultDisplay.Cell: a language code that is not an own key of `translations` but names an inherited member (`constructor`, `toString`, `__proto__`) is treated as absent, giving an empty cell. In JavaScript `translations[lang]` reads that member, which has no `replace` method, so the call throws a `TypeError` and the copy handler stops without writing to the clipboard.
- GeminiService.NormalizeItems: the reply's values stay JSON values, as the code does not check their types. The table's records (`ResultDisplay.TranslationResult`) use strings, as its props declare.
- JsValues.Thrown: the code tests only `instanceof SyntaxError` (services/geminiService.ts:96) and `instanceof Error` (App.tsx:32). The model keeps a thrown `Error`'s class as `SyntaxError`, `TypeError` or any other. `TypeError` is the model's own label for what a property read on `null` or `undefined` throws; the code treats it like any other non-`SyntaxError` `Error`. The messages of errors the code swallows are placeholders.
- GeminiService.TranslationProperties: for the code `__proto__`, the fold models only that no property is added. The prototype that `acc['__proto__'] = {...}` installs on the accumulator is not modelled, because the schema's properties are its own keys.
- Strings are sequences of Unicode scalar values, not UTF-16 code units. The whitespace set of `trim` is written out explicitly.
- JSON numbers are reals, so NaN does not arise.
