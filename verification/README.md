# Savart EFG analysis form — verified model of its core logic

The application is a multi-section financial questionnaire. The browser collects answers section by section (personal profile, financial profile, investment profile, goals, asset analysis, ikigai). It keeps them in one answer object and, at the end, posts that object to an API route. The route flattens the object into one spreadsheet row of `"dotted.path: value"` cells and appends it to a sheet.

This project models that logic in Dafny and proves properties of it:

- `ascii.dfy` holds the ASCII case mapping shared by the section keys and the patterns' `i` flag.
- `json.dfy` holds:
  - the JSON values the app handles;
  - the two JavaScript object operations it relies on: `{...o, [k]: v}` (`Put`) and `{...a, ...b}` (`Merge`);
  - `JSON.stringify`, needed for array cells.
- `submit_route.dfy` holds:
  - the `POST` handler of `api/submit/route.ts`;
  - `flattenObject`, with a reference view of the tree's leaves;
  - the choice between the success and the failure reply.
- `submit_example.dfy` works the flattening out on a concrete answer object.
- `home_page.dfy` models the live controller in `page.tsx` as class `Home`. This includes the section-key derivation (`toLowerCase().replace(" ", "")`) and a whole six-section run.
- `multi_step_form.dfy` models the draft-saving controller in `form.tsx` as class `Form`. Its draft slot stands for local storage.
- `pattern.dfy` holds an anchored character-class regular-expression matcher. It proves each of the four validation patterns of the personal profile section equal to a plain description of the strings it accepts.
- `personal_profile.dfy` holds the personal profile section's field rules, its completeness test and its Next-button rule.
- `asset_analysis.dfy` holds:
  - the asset analysis section's default answers;
  - its new real-estate row;
  - the in-place `""` → `null` clean-up its `onSubmitForm` performs, as a method over an array.

Four points about the code that the model keeps:

- Only the asset analysis section turns empty strings into `null`, and only one level deep. Other sections' empty strings reach the flattener, which writes them as `NA`.
- The live controller (`page.tsx`) stores answers under the section key and does not persist anything. Persisting a draft is done only by the alternative controller (`form.tsx`).
- `form.tsx` spreads a section's answers over the top level of the answer object, not under a section key.
- On the last section the live controller keeps its step index and submits.

## Model

| member | source | states |
|---|---|---|
| Json.Lookup | src/app/page.tsx:89 | `o[k]`: `None` (undefined) exactly when the key is absent, otherwise a value stored under it |
| Json.Put | src/app/page.tsx:44-47 | object spread with a computed key: the key list is unchanged when the key exists, otherwise the key is appended at the end |
| Json.Merge | src/app/form.tsx:103 | `{...a, ...b}` keeps every key of `a` in place and adds at most one key per entry of `b`; its lookups, key order and key set are stated by `MergeLookup`, `MergeKeepsOrder` and `MergeKeySet` |
| Json.PutLookup | src/app/page.tsx:44-47 | after a put the key holds the new value and every other key's lookup is unchanged |
| Json.PutKeepsUnique | src/app/page.tsx:44-47 | a put never duplicates a key |
| Json.PutExisting | src/app/page.tsx:44-47 | putting the value a key already holds leaves the object equal |
| Json.PutIdempotent | src/app/page.tsx:44-47 | putting the same key and value twice equals putting it once |
| Json.MergeLookup | src/app/form.tsx:103 | `{...a, ...b}`: keys of `b` take `b`'s value, all other keys keep `a`'s |
| Json.MergeKeepsOrder | src/app/form.tsx:103 | the merged object begins with `a`'s keys in `a`'s order |
| Json.MergeKeySet | src/app/form.tsx:103 | a key is in the merge exactly when it is in `a` or in `b` |
| Json.MergeKeepsUnique | src/app/form.tsx:103 | merging never duplicates a key |
| Json.NatText | src/app/api/submit/route.ts:31 | decimal text of a natural number: non-empty, digits only, no leading zero |
| Json.NatTextRoundTrip | src/app/api/submit/route.ts:31 | reading the digits of `NatText(n)` back gives `n` |
| Json.IntText | src/app/api/submit/route.ts:31 | an integer's text starts with `-` exactly when it is negative, followed by the digits of its magnitude |
| Json.EscapeChar | src/app/api/submit/route.ts:26 | `JSON.stringify` escapes a character (leading backslash) exactly when it is `"`, `\` or a control character, and writes every other character as itself |
| Json.EscapePlain | src/app/api/submit/route.ts:26 | a string without quotes, backslashes or control characters is written verbatim |
| Json.Quote | src/app/api/submit/route.ts:26 | a string literal starts and ends with `"` |
| Json.Stringify | src/app/api/submit/route.ts:26 | the JSON text of an array is bracketed by `[` `]`, of an object by `{` `}` |
| Json.ElementTexts | src/app/api/submit/route.ts:26 | one text per array element, in order: the `i`-th is the JSON text of the `i`-th element |
| Json.MemberTexts | src/app/api/submit/route.ts:26 | one text per object member, in order: the `i`-th is the quoted key, `:`, then the JSON text of the value |
| SubmitRoute.PathOf | src/app/api/submit/route.ts:23 | the path is the key itself under the empty prefix, otherwise `prefix + "." + key` |
| SubmitRoute.FlattenObject | src/app/api/submit/route.ts:20-33 | `flattenObject`: its cells are stated by `FlattenIsRenderedLeaves` (the rendered depth-first non-object leaves) and counted by `FlattenCount` |
| SubmitRoute.FlattenEntry | src/app/api/submit/route.ts:21-32 | the `flatMap` callback for one entry: stated by `EntryIsRenderedLeaves`, `ScalarCells`, `ArrayCell` and `NestedObjectCells` |
| SubmitRoute.CellText | src/app/api/submit/route.ts:29-31 | `null` and `""` are written `NA`; a non-empty string as itself, a number as its digits, a boolean as `true`/`false` |
| SubmitRoute.FlattenAppend | src/app/api/submit/route.ts:22 | cells follow entry order: the cells of `a + b` are `a`'s cells then `b`'s |
| SubmitRoute.FlattenSingle | src/app/api/submit/route.ts:22 | a one-entry object yields exactly that entry's cells; an empty object yields none |
| SubmitRoute.ScalarCells | src/app/api/submit/route.ts:30-32 | `null` and `""` give `path: NA`; other strings, numbers (including `0`) and booleans (including `false`) give `path: ` plus their text |
| SubmitRoute.ArrayCell | src/app/api/submit/route.ts:24-27 | an array is exactly one cell, `path: ` plus its JSON text, whatever its elements are |
| SubmitRoute.NestedObjectCells | src/app/api/submit/route.ts:28 | a nested object contributes exactly its own flattening under the extended path; an empty one contributes nothing |
| SubmitRoute.FlattenIsRenderedLeaves | src/app/api/submit/route.ts:21-34 | the cells are exactly the non-object leaves of the tree, in depth-first key order, each rendered with its full path |
| SubmitRoute.EntryIsRenderedLeaves | src/app/api/submit/route.ts:22-33 | the same, for a single entry |
| SubmitRoute.LeafPathsExtendPrefix | src/app/api/submit/route.ts:23-28 | below a non-empty prefix every leaf path starts with `prefix.` |
| SubmitRoute.EntryLeafPathsExtendPrefix | src/app/api/submit/route.ts:23-28 | the same, for a single entry |
| SubmitRoute.FlattenCount | src/app/api/submit/route.ts:22-33 | the number of cells equals the number of scalar leaves plus the number of array-valued fields |
| SubmitRoute.EntryCount | src/app/api/submit/route.ts:22-33 | the same, for a single entry |
| SubmitRoute.Entries | src/app/api/submit/route.ts:22 | `Object.entries` of the body: fails exactly for `null`; an object gives its entries; numbers and booleans give none; an array gives entry `i` as its `i`-th element under the key `i`, a string its `i`-th character likewise |
| SubmitRoute.FailureReply | src/app/api/submit/route.ts:53-62 | status 500, error "Failed to submit form data", details the error's message or "An unknown error occurred" for a non-`Error` |
| SubmitRoute.Post | src/app/api/submit/route.ts:9-63 | status 200 with the success message exactly when the body parses, the client is built, the body is not `null` and the append completes; otherwise 500 carrying the first thrown error's details; when reached, the append receives exactly `[flattenObject(body)]` |
| SubmitRoute.OneRowPerSubmission | src/app/api/submit/route.ts:37 | a non-null body is always sent as exactly one row |
| SubmitExample.WorkedExample | src/app/api/submit/route.ts:21-34 | `{personal: {name: "A", age: null}, goals: {list: [{name: "x", amount: 5}]}}` flattens to `personal.name: A`, `personal.age: NA`, `goals.list: [{"name":"x","amount":5}]` |
| Ascii.AsciiLower | src/app/page.tsx:46 | upper-case ASCII letters move to lower case; every other character is unchanged |
| HomePage.ToLowerSpec | src/app/page.tsx:46 | lower-casing keeps the length, maps each character by `AsciiLower` and leaves no upper-case letter |
| HomePage.RemoveFirstSpaceSpec | src/app/page.tsx:46 | `replace(" ", "")` removes only the first space and leaves a string without spaces unchanged |
| HomePage.SectionKey | src/app/page.tsx:46 | `toLowerCase().replace(" ", "")`: a two-word name gives its lower-cased words run together (`TwoWordKey`), and the six section names give the six listed keys (`StepKeys`) |
| HomePage.TwoWordKey | src/app/page.tsx:46 | a two-word name gives its two lower-cased words run together |
| HomePage.StepKeys | src/app/page.tsx:16-46 | the six step names give the keys personalprofile, financialprofile, investmentprofile, goals, assetanalysis, ikigai |
| HomePage.AssetAnalysisKey | src/app/page.tsx:46 | "Asset Analysis" gives "assetanalysis" |
| HomePage.SectionKeysDistinct | src/app/page.tsx:28-35 | no two sections share a key |
| HomePage.Home.constructor | src/app/page.tsx:38-41 | starts at step 0 with no answers, not loading and not submitted |
| HomePage.Home.CurrentKey | src/app/page.tsx:82-84 | the key of the step on screen |
| HomePage.Home.HandleNext | src/app/page.tsx:43-74 | stores the answers under the current key; before the last step advances by one and sends nothing; on the last step keeps the step, starts loading and posts the whole answer object; the step stays in range |
| HomePage.Home.SubmissionSettled | src/app/page.tsx:52-71 | only an OK response sets `isSubmitted`; loading ends on every path; the answers are kept for a retry |
| HomePage.Home.HandlePrevious | src/app/page.tsx:77-79 | step becomes `max(step - 1, 0)`; answers unchanged |
| HomePage.Home.InitialData | src/app/page.tsx:81-90 | the section on screen receives only the entry under its own key, or nothing when there is none |
| HomePage.RetreatThenAdvance | src/app/page.tsx:44-48 | going back and completing a section again with the answers it shows leaves the answer object equal |
| HomePage.ResubmitIdempotent | src/app/page.tsx:44-48 | completing a section twice with the same answers equals completing it once |
| HomePage.OnlyOwnSectionChanges | src/app/page.tsx:44-47 | completing a section sets its own entry and no other section's |
| HomePage.CompleteRun | src/app/page.tsx:43-75 | six sections completed in order post an object whose keys are the six section keys in order, each holding that section's answers; once the request settles, the submitted flag is set exactly when the response was OK, and the answers stay in place |
| MultiStepForm.Form.constructor | src/app/form.tsx:72-82 | on mount the saved draft, if any, becomes the answers, otherwise `{}`; step 0, not loading |
| MultiStepForm.Form.HandleNext | src/app/form.tsx:91-93 | step becomes `min(step + 1, 6)` |
| MultiStepForm.Form.HandlePrevious | src/app/form.tsx:95-97 | step becomes `max(step - 1, 0)` |
| MultiStepForm.Form.HandleSubmit | src/app/form.tsx:99-119 | answers become `{...answers, ...data}`; a successful save stores exactly that object in the draft slot and advances (clamped); a failed save keeps the merged answers in memory, leaves the draft and step unchanged and shows the error toast; loading ends on both paths |
| MultiStepForm.Form.LogSubmission | src/app/form.tsx:156-158 | the last section's Submit only hands the answers to the log and changes nothing |
| MultiStepForm.SavingKeepsAnswers | src/app/form.tsx:103-104 | after a save, keys in the section's data take its values, all other keys keep theirs, and no key is lost or reordered |
| MultiStepForm.MergeExisting | src/app/form.tsx:103 | spreading an object whose entries are all already present changes nothing |
| MultiStepForm.ResaveIdempotent | src/app/form.tsx:103-108 | saving the same section data twice equals saving it once, so retrying after a failed save is harmless |
| Pattern.Test | src/app/personal-profile.tsx:99-102 | `RegExp.prototype.test` for an anchored pattern: stated atom by atom by `MatchOne`, `MatchFixed` and `MatchSplit`, and for the four patterns by `MobileIff`, `PinIff`, `PanIff` and `EmailIff` |
| Pattern.MatchOne | src/app/personal-profile.tsx:100 | an anchored single-atom pattern matches exactly the runs of its class of allowed length |
| Pattern.MatchFixed | src/app/personal-profile.tsx:224 | an atom of fixed length `n` consumes exactly the first `n` characters |
| Pattern.MatchSplit | src/app/personal-profile.tsx:120 | an atom followed by others matches some run, then the rest |
| Pattern.DigitClass | src/app/personal-profile.tsx:100 | `[0-9]` matches exactly the ASCII digits |
| Pattern.LetterClass | src/app/personal-profile.tsx:224 | `[A-Za-z]` matches exactly the ASCII letters |
| Pattern.LocalClassIff | src/app/personal-profile.tsx:120 | `[A-Z0-9._%+-]` with the `i` flag matches letters of either case, digits and `._%+-` |
| Pattern.DomainClassIff | src/app/personal-profile.tsx:120 | `[A-Z0-9.-]` with the `i` flag matches letters of either case, digits, `.` and `-` |
| Pattern.AtClassIff | src/app/personal-profile.tsx:120 | `@` with the `i` flag matches only `@` |
| Pattern.DotClassIff | src/app/personal-profile.tsx:120 | `\.` with the `i` flag matches only `.` |
| Pattern.UpperClassIff | src/app/personal-profile.tsx:120 | `[A-Z]` with the `i` flag matches letters of either case |
| Pattern.MobileIff | src/app/personal-profile.tsx:97-103 | the mobile pattern accepts exactly strings of ten ASCII digits |
| Pattern.PinIff | src/app/personal-profile.tsx:183-189 | the PIN pattern accepts exactly strings of six ASCII digits |
| Pattern.PanIff | src/app/personal-profile.tsx:221-227 | the PAN pattern accepts exactly five letters (either case), four digits, one letter |
| Pattern.TopLevelIff | src/app/personal-profile.tsx:120 | `\.[A-Z]{2,}$` (i) matches exactly a dot followed by at least two letters |
| Pattern.DomainMatchShape | src/app/personal-profile.tsx:120 | what follows the `@` in a match is a domain: domain characters only, with a dot that has something before it and only letters, at least two, after it |
| Pattern.DomainShapeMatch | src/app/personal-profile.tsx:120 | every such domain matches |
| Pattern.AtDomainIff | src/app/personal-profile.tsx:120 | `@` then a domain, in both directions |
| Pattern.SingleAt | src/app/personal-profile.tsx:120 | local characters before the `@` and a domain after it admit no second `@` |
| Pattern.EmailMatchValid | src/app/personal-profile.tsx:117-123 | an accepted e-mail has a non-empty local part of `[A-Za-z0-9._%+-]`, exactly one `@`, and a domain as above |
| Pattern.EmailValidMatch | src/app/personal-profile.tsx:117-123 | every such address is accepted |
| Pattern.EmailIff | src/app/personal-profile.tsx:117-123 | both directions together |
| PersonalProfile.NextDisabled | src/app/personal-profile.tsx:347-349 | Next is disabled exactly when loading or some watched value is undefined or `""`; with sixteen values that every field rule accepts and no request in flight, Next is enabled |
| PersonalProfile.IsFormComplete | src/app/personal-profile.tsx:80-83 | every watched value is defined and not `""`; tied to the field rules by `AcceptedIsComplete` |
| PersonalProfile.Accepts | src/app/personal-profile.tsx:97-240 | what the registered rules let through for one field; per field by `MobileField`, `EmailField`, `PinField` and `PanField` |
| PersonalProfile.RuleTable | src/app/personal-profile.tsx:25-50 | there are 16 fields, all required; the selects offer 5 (age), 3 (gender), 7 (occupation), 7 (language) and 3 (marital status) options |
| PersonalProfile.MobileField | src/app/personal-profile.tsx:97-103 | the mobile field accepts a value exactly when it is ten ASCII digits |
| PersonalProfile.EmailField | src/app/personal-profile.tsx:117-123 | the registered `required` and `pattern` rules of the e-mail field accept a value exactly when it has the e-mail shape |
| PersonalProfile.PinField | src/app/personal-profile.tsx:183-189 | the PIN field accepts a value exactly when it is six ASCII digits |
| PersonalProfile.PanField | src/app/personal-profile.tsx:221-227 | the PAN field accepts a value exactly when it has the PAN shape |
| PersonalProfile.AcceptedIsComplete | src/app/personal-profile.tsx:80-83 | answers every rule accepts make the form complete; the form is complete exactly when no field fails its `required` rule |
| AssetAnalysis.NullIfEmpty | src/app/asset-analysis.tsx:116-118 | a member that is `""` becomes `null` and any other member is kept, so no `""` remains |
| AssetAnalysis.NormalizedValue | src/app/asset-analysis.tsx:114-117 | the clean-up keeps the kind of a value, the keys of an object and the length of an array |
| AssetAnalysis.Normalized | src/app/asset-analysis.tsx:111-121 | the clean-up keeps the top-level keys in order |
| AssetAnalysis.NullEmptyMembers | src/app/asset-analysis.tsx:115-119 | the inner loop produces the cleaned value |
| AssetAnalysis.OnSubmitForm | src/app/asset-analysis.tsx:111-123 | the outer loop rewrites the answer array in place into the cleaned answers and passes on that same array |
| AssetAnalysis.ObjectMembers | src/app/asset-analysis.tsx:112-117 | in a top-level object, a `""` member becomes `null`; every other member (`null`, `0`, non-empty strings, nested values) is unchanged; keys stay |
| AssetAnalysis.ArrayElements | src/app/asset-analysis.tsx:112-117 | in a top-level array, a `""` element becomes `null`; every other element is unchanged |
| AssetAnalysis.ScalarsUntouched | src/app/asset-analysis.tsx:112-114 | top-level values that are not objects are untouched |
| AssetAnalysis.NoEmptyMembers | src/app/asset-analysis.tsx:115-117 | after the clean-up no direct member of a top-level value is `""` |
| AssetAnalysis.NormalizedValueIdempotent | src/app/asset-analysis.tsx:114-119 | cleaning a value twice equals cleaning it once |
| AssetAnalysis.NormalizeIdempotent | src/app/asset-analysis.tsx:111-121 | cleaning the answers twice equals cleaning them once |
| AssetAnalysis.HoldingNulls | src/app/asset-analysis.tsx:84-102 | a default holding has only `null` members |
| AssetAnalysis.DefaultAnswersShape | src/app/asset-analysis.tsx:82-103 | default answers: `realEstate` is empty, `chitFunds.tenure` is `""`, every other field is `null` |
| AssetAnalysis.DefaultAnswersCleaned | src/app/asset-analysis.tsx:82-121 | cleaning the defaults nulls `chitFunds.tenure` and changes nothing else |
| AssetAnalysis.HoldingUnchanged | src/app/asset-analysis.tsx:114-117 | a value with only `null` members, or an empty array, passes through unchanged |
| AssetAnalysis.RealEstateRowsKept | src/app/asset-analysis.tsx:25-31 | only one level is cleaned: real-estate rows, which are objects, keep their `""` fields (the form itself refuses a row whose `nature` or `location` is empty before the clean-up runs, asset-analysis.tsx:147 and :182-184) |
| AssetAnalysis.NewRowSurvives | src/app/asset-analysis.tsx:262-268 | a newly added real-estate row has `location: ""` and survives the clean-up unchanged; left empty, it is refused by the `required` rules before the clean-up is reached |

## Left out

- Google Sheets: authentication, client construction and the append call (`route.ts:13-18,40-47`) are a foreign library reached over the network. Whether each of them throws is a parameter of `SubmitRoute.Post`; the spreadsheet itself is not modelled.
- The `req.method` check and its 405 branch (`route.ts:8,64-66`) are framework plumbing; the model starts inside the `POST` branch.
- `fetch` in `page.tsx:53-59` is its outcome only (`FetchResult`: a response with its `ok` flag, or a throw). `HomePage.Home.HandleNext` and `HomePage.Home.SubmissionSettled` are the two halves of the handler on either side of the `await`. The request body is `JSON.stringify(updatedFormData)`, which the route reads back with `req.json()`; that round trip is taken to return the same object, so `HandleNext` posts the object itself.
- Browser storage: `localStorage` is the `draft` field of `MultiStepForm.Form`. A `JSON.stringify`/`JSON.parse` round trip of a draft is taken to return the same object; a corrupt stored draft, which would make the mount effect throw, is not modelled. A write that throws (quota or security errors) is the `stored == false` path.
- MultiStepForm.Form.constructor: requires a stored draft to have unique keys, which every object read back from `JSON.parse` has.
- UI: JSX, widgets, animation, the progress bar, the console logging, and the toast's 3000 ms timer (`form.tsx:84-89`). `MultiStepForm.Form` keeps only the toast message and kind.
- Numbers are integers. Fractional values, `parseFloat`/`Number`/`valueAsNumber` conversions, and the JSON text of non-integral numbers are not modelled.
- Json.IntText: gives the decimal digits of any integer, which is what JavaScript writes only for magnitudes up to 2^53. A JSON integer beyond that is rounded to the nearest double by `JSON.parse`, and is then written with its shortest round-tripping digits padded with zeros (`String(2**64)` is `18446744073709552000`), or in exponent form from 10^21 up. Cell and array texts (`SubmitRoute.CellText`, `SubmitRoute.ScalarCells`, `Json.Stringify`) therefore match the source only for integers of magnitude at most 2^53.
- PersonalProfile.EmailField: states what the registered `required` and `pattern` rules accept. The input is also declared `type="email"` (`personal-profile.tsx:116`), so the browser's own e-mail syntax check can refuse addresses the pattern accepts (for example `a@b..cd`); that browser check is not modelled.
- react-hook-form: its validation engine, `isValid`/`isDirty`/`trigger`, and `useFieldArray` append/remove are a library. `PersonalProfile.Accepts` states what the declared rules demand, not how the library runs them. Which values a select can hold is enforced by the widget and modelled only as the option lists.
- Strings are sequences of characters, not UTF-16 code units. Lower-casing (`HomePage.ToLower`) and the `i` flag (`Pattern.CharMatches`) cover ASCII only. Every section name is ASCII, and no non-ASCII character becomes an ASCII one under `i` in these patterns.
- `Object.entries` lists integer-like keys first in ascending order. The model keeps insertion order throughout, which is the order for every key the app itself creates.
- AssetAnalysis.OnSubmitForm: the top-level answer object is an array updated in place. Each nested object or array is rebuilt by `NullEmptyMembers` rather than mutated, so aliasing of nested values is not modelled.
- `src/app/financial-profile.tsx`, `investment-profile.tsx`, `goals.tsx`, `ikigai.tsx` and `submit-screen.tsx` hold option lists, library `required`/`min` rules and static presentation only. They are not part of this model, and neither is `savart-one`, imported by `form.tsx:19`.
