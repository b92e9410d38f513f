# backend-build-server, modelled in Dafny

This project models backend-build-server. The server takes an app configuration: name, package name, web URL, Adjust tokens, Firebase file and icon. It writes that configuration into a template Android WebView project and builds an APK from the result. It can build in two ways:

- **Locally** (`services/builder.js`). It copies the template into a job directory, edits `strings.xml` and `app/build.gradle`, copies the Firebase file and the icons, then runs the build and signing scripts.
- **Remotely** (`services/ghaBuilder.js`). It dispatches a GitHub Actions workflow, polls for the run and its completion, and downloads the artifact.

Build records are kept one JSON file per id (`services/buildStore.js`). Two stand-alone scripts edit a checked-out Android project directly: `packger.js` and `tools/prepare-build.js`. The Android app itself is modelled too:

- the app's link handling (`MainActivity.java`): own-domain links stay in the WebView; other links open as an app scheme first and in the browser as a fallback;
- its JavaScript bridge (`JsInterface.java`): web events become Adjust events.

One Dafny module stands for each source file:

- `StringsEditor`, `GradleEditor`, `IconReplacer` and `BuildStore` stand for the four helper services;
- `LocalBuilder` and `RemoteBuilder` stand for the two builders;
- `Packager`, `PrepareBuild`, `MainActivity` and `JsInterface` stand for the scripts and the Android classes.

Three shared modules support them:

- `Text`: character classes, searching, Java's `trim`, and the replacement-template expansion of JavaScript's `String.prototype.replace`;
- `Files`: a file system as a map from path to contents, with the `fs` calls the code makes as methods of a `FileSystem` class;
- `Wrappers`: `Option` and `Result`.

Stateful code becomes classes whose methods state the whole new state against a specification function. This covers the job tables of both builders, the build directory, the file system and the string list being edited. Pure code becomes functions and lemmas.

Effects outside the process become parameters:

- the clock, `uuid`, HTTP responses, the outcome of `exec`, directory listings and JSON parsing;
- the polling loops, which take the finite sequence of poll results and clock readings that a complete run of the loop sees.

The operations model the code as written. Where the code is evidently wrong (see "## Findings"), a corrected definition sits beside the as-written one, and the properties the code was meant to have are proved about the corrected one. Where the code and the design description disagree, the model follows the code:

- **Run discovery.** Remote run discovery takes the first run of the first non-empty listing seen within 120 s (`services/ghaBuilder.js:113-121`). It does not look for a run created within some window after the dispatch.
- **Terminal jobs.** No status update checks whether a job has already finished. A late update overwrites a terminal status, just as the code's `jobs[jobId].status = …` does.
- **`completed` status.** The remote builder never writes a `completed` job status. Its terminal statuses are `done` and `error`.

## Model

| member | source | states |
|---|---|---|
| Files.Join | services/builder.js:41 | `path.join(dir, name)` is `dir`, a slash, then `name`, and can be split back into both |
| Files.Rebased | services/builder.js:138-146 | every file under the source directory has a copy at the same relative path under the destination; every entry of the result lies under the destination and is the copy of such a file |
| Files.FileSystem.Copy | services/builder.js:71 | `copyFileSync` succeeds exactly when the source exists, and then the destination holds the source's contents; otherwise nothing changes |
| Files.FileSystem.Write | tools/prepare-build.js:133 | `writeFileSync` sets one path and leaves every other path alone |
| Files.FileSystem.CopyTree | services/builder.js:45 | the recursive template copy adds the rebased copies over the existing files |
| Files.FileSystem.WriteAll | services/builder.js:89 | the files the build script produces are laid over the workspace |
| Files.FileSystem.Rename | tools/prepare-build.js:74-77 | `renameSync` moves the contents from the old path to the new one, and fails without effect when the source is missing |
| Text.IndexOf | services/buildStore.js:18 | `indexOf` is -1 exactly when the pattern does not occur; otherwise it is the first occurrence |
| Text.LastIndexOf | MyWebviewApp_Fixed3/MyWebviewApp_Fixed3/app/src/main/java/com/go606/br33/MainActivity.java:200 | `lastIndexOf` is -1 exactly when the character is absent; otherwise no later position holds it |
| Text.TrimStart | MyWebviewApp_Fixed3/MyWebviewApp_Fixed3/app/src/main/java/com/go606/br33/MainActivity.java:84 | only a prefix of characters at or below U+0020 is removed, and the result does not start with one |
| Text.TrimEnd | MyWebviewApp_Fixed3/MyWebviewApp_Fixed3/app/src/main/java/com/go606/br33/MainActivity.java:84 | only a suffix of characters at or below U+0020 is removed, and the result does not end with one |
| Text.TrimKeepsContains | MyWebviewApp_Fixed3/MyWebviewApp_Fixed3/app/src/main/java/com/go606/br33/MainActivity.java:84-87 | trimming never changes whether a pattern without blanks occurs in the URL |
| Text.SkipSpacesSpec | services/gradleEditor.js:14 | `\s+` / `\s*` consume exactly the maximal run of JavaScript whitespace |
| Text.LineEndSpec | services/gradleEditor.js:14 | `.*` stops at the first JavaScript line terminator or at the end of the text |
| Text.ExpandWithoutDollar | services/gradleEditor.js:8 | a replacement string without `$` is inserted as written |
| Text.ExpandMatched | services/gradleEditor.js:8 | `$&` in a replacement string stands for the matched text |
| Text.ReplaceSpanAsWritten | packger.js:10-11 | replacing a match with a `$`-free string splices it in literally |
| Text.ReplaceSpanMatched | packger.js:10-11 | a replacement `t1$&t2` wraps the match in `t1` and `t2` instead of replacing it |
| Text.DelimitedSpan | packger.js:10 | a non-global `open…close` match starts at the first `open` and ends at the first `close` after it, or is absent exactly when either is missing |
| Text.DecimalDigits | services/builder.js:23 | `Date.now().toString()` consists of decimal digits only |
| Text.DecimalRoundTrip | services/builder.js:23 | the decimal text of a time stamp reads back as the same number |
| StringsEditor.FirstNamed | services/stringsEditor.js:17 | `findIndex` gives the first entry with that `name` attribute, or -1 when there is none |
| StringsEditor.FindIndex | services/stringsEditor.js:17 | the scanning loop computes exactly `FirstNamed` |
| StringsEditor.Upserted | services/stringsEditor.js:15-20 | an absent value changes nothing; for a present value, the first entry of that name gets the new text and keeps its attributes, or a new entry is appended; all other entries stay |
| StringsEditor.StringList.Put | services/stringsEditor.js:15-20 | `put` leaves the list as `Upserted` describes |
| StringsEditor.UpdatedDoc | services/stringsEditor.js:10-11 | the document gets a `resources` element and a string list, keeps its other children, and its list becomes the four puts applied in order |
| StringsEditor.UpdateStrings | services/stringsEditor.js:4-30 | succeeds exactly when the file parses as a strings document; then the file is replaced by the updated document, otherwise nothing changes |
| StringsEditor.UpsertKeepsOtherName | services/stringsEditor.js:15-20 | a put for one name leaves the first entry of every other name where and as it was |
| StringsEditor.UpdateHoldsValues | services/stringsEditor.js:22-25 | after the update, each given value is the text of the first entry of its key; each key not given is untouched |
| StringsEditor.UpsertSameValue | services/stringsEditor.js:15-20 | a put whose value is already there changes nothing |
| StringsEditor.UpdateIdempotent | services/stringsEditor.js:22-25 | applying the four puts twice gives the same list as applying them once |
| StringsEditor.UpdatedDocIdempotent | services/stringsEditor.js:4-30 | updating an updated document again changes nothing |
| StringsEditor.OthersUpsert | services/stringsEditor.js:15-20 | a put for a backend key leaves all entries with other names, in order, untouched |
| StringsEditor.UpdateKeepsOthers | services/stringsEditor.js:22-25 | the update leaves every non-backend string entry untouched |
| StringsEditor.MissingListIsEmpty | services/stringsEditor.js:10-11 | a document without `resources` or without strings is treated as an empty list, so the app name becomes its first entry |
| GradleEditor.EscapeRoundTrip | services/gradleEditor.js:34-36 | unescaping an escaped Gradle string gives it back, so escaping is injective |
| GradleEditor.EscapeIsCharwise | services/gradleEditor.js:34-36 | the two global replaces amount to escaping each backslash and each quote where it stands |
| GradleEditor.EscapeKeepsOtherChars | services/gradleEditor.js:34-36 | escaping introduces no character other than a backslash |
| GradleEditor.EscapeNoLineTerminator | services/gradleEditor.js:34-36 | escaping a single-line value keeps it on one line |
| GradleEditor.FirstAppIdMatches | services/gradleEditor.js:8 | the span found is a match of `applicationId\s+"[^"]+"` |
| GradleEditor.NoAppIdBefore | services/gradleEditor.js:8 | no match of the `applicationId` pattern starts before the one found |
| GradleEditor.AppIdReplacedAsWritten | services/gradleEditor.js:7-9 | a falsy package name or a file without a match is left unchanged |
| GradleEditor.AppIdReplaced | services/gradleEditor.js:7-9 | the same, for the literal replacement |
| GradleEditor.AppIdReplacesFirstOnly | services/gradleEditor.js:7-9 | only the first match is replaced; the text before and after is kept; the new line is itself a match carrying the package name |
| GradleEditor.AppIdAsWrittenExpandsDollar | services/gradleEditor.js:8 | a package name `$&` wraps the old match inside a new `applicationId "…"`, which differs from the literal replacement |
| GradleEditor.FirstResUnique | services/gradleEditor.js:14 | the `resValue` match found for a key is the leftmost one |
| GradleEditor.NoResBefore | services/gradleEditor.js:14 | no `resValue` match for the key starts before the one found |
| GradleEditor.FirstHeaderSpec | services/gradleEditor.js:20 | the `defaultConfig\s*{` found is the leftmost one, or there is none |
| GradleEditor.FirstCloseSpec | services/gradleEditor.js:20 | the closing `\n\s*}` found is the first one at or after the search point, or there is none |
| GradleEditor.InsertionPointSpec | services/gradleEditor.js:20-22 | the insertion point is the first `\n\s*}` after the first `defaultConfig {`; no point means no such brace follows any header |
| GradleEditor.Inserted | services/gradleEditor.js:20-22 | the new line, wrapped in newlines, is inserted at the insertion point and nothing else changes; with no insertion point the text is unchanged |
| GradleEditor.SetRes | services/gradleEditor.js:12-24 | the corrected `setRes`, which replaces the whole line including its indentation and inserts the value literally: a falsy value leaves the text alone; a key without a line is inserted into `defaultConfig` |
| GradleEditor.SetResReadsBack | services/gradleEditor.js:12-24 | after the corrected `setRes`, the key's `resValue` line holds exactly the value given |
| GradleEditor.SetResOnPlaced | services/gradleEditor.js:15-17 | a file already holding the canonical line for the value is left unchanged |
| GradleEditor.SetResIdempotent | services/gradleEditor.js:12-24 | with the whole line replaced, including its indentation, a second `setRes` with the same value changes nothing |
| GradleEditor.SetResAsWrittenPlacesLine | services/gradleEditor.js:15-17 | as written, `setRes` still leaves a `resValue` line for the key holding the value |
| GradleEditor.SetResAsWrittenReadsBack | services/gradleEditor.js:12-24 | after the code's `setRes` with a value free of `$`, the first `resValue` line of the key reads back as exactly the value given |
| GradleEditor.SetResAsWrittenGrows | services/gradleEditor.js:15-17 | as written, every further `setRes` with the same value makes the file 8 characters longer |
| GradleEditor.ReplaceResValues | services/gradleEditor.js:3-32 | succeeds exactly when the file is readable text; then it holds the code's rewrite (`ResValuesReplacedAsWritten`): the `applicationId` replacement and the four `setRes` edits as written, with `$` patterns expanded and the old indentation kept; otherwise nothing changes |
| GradleEditor.BackendKeysValid | services/gradleEditor.js:26-29 | the four keys contain no character that would change the meaning of the pattern built from them |
| IconReplacer.TargetsOf | services/iconReplacer.js:9-19 | two targets per density, the launcher icon and the foreground icon, in density order |
| IconReplacer.ReplacedFiles | services/iconReplacer.js:9-20 | every existing target gets the icon's contents; nothing is created; non-targets are unchanged |
| IconReplacer.CopyIfExists | services/iconReplacer.js:11-13 | an existing destination is overwritten by the icon; a missing one is skipped; a missing icon with an existing destination makes `copyFileSync` throw, with nothing changed |
| IconReplacer.ReplaceDensity | services/iconReplacer.js:10-19 | one density's two copies extend the replacement by that density's targets, or stop at the first throw |
| IconReplacer.ReplaceIcon | services/iconReplacer.js:5-21 | completes exactly when the icon exists or no target does, and then every existing target holds the icon; a throw happens before any change |
| IconReplacer.ReplaceIdempotent | services/iconReplacer.js:5-21 | replacing the icons twice is the same as replacing them once |
| BuildStore.FileNameInjective | services/buildStore.js:7 | different ids are saved under different file names |
| BuildStore.ListedAsWritten | services/buildStore.js:18 | `replace(".json", "")` removes the first occurrence of `.json`: the result is the text before it followed by the text after it, five characters shorter; a name without `.json` is returned unchanged |
| BuildStore.ListedAsWrittenPlainId | services/buildStore.js:18 | an id without `.json` in it is listed as itself |
| BuildStore.ListedAsWrittenMangles | services/buildStore.js:18 | the id `a.jsonb` is listed as `ab.json` |
| BuildStore.ListedRoundTrip | services/buildStore.js:17-19 | the corrected listing, stripping the `.json` suffix, gives every saved id back |
| BuildStore.Loaded | services/buildStore.js:11-15 | `loadBuild` gives a value exactly when `<id>.json` exists, and `null` otherwise |
| BuildStore.ListedIds | services/buildStore.js:17-19 | `listBuilds` lists every file name of the directory with its first `.json` removed, and nothing else |
| BuildStore.LoadAfterSave | services/buildStore.js:6-15 | loading after saving gives the saved value back |
| BuildStore.SaveIsolated | services/buildStore.js:6-15 | saving one id leaves every other id's load unchanged |
| BuildStore.ListAfterSave | services/buildStore.js:6-19 | after a save, the listing is the earlier listing plus what the new file's name is listed as |
| BuildStore.ListAfterSavePlainId | services/buildStore.js:6-19 | after a save of an id without `.json` in it, the listing is the earlier listing plus that id |
| BuildStore.Store.SaveBuild | services/buildStore.js:6-9 | writes `<id>.json`; the id then loads as the data and no other id's load changes |
| BuildStore.Store.LoadBuild | services/buildStore.js:11-15 | gives the contents of `<id>.json` when present, `null` otherwise |
| BuildStore.Store.ListBuilds | services/buildStore.js:17-19 | the names of all the files in the directory, each with its first `.json` removed |
| LocalBuilder.DashAfterDigits | services/builder.js:23 | the first `-` of a job id ends the time stamp |
| LocalBuilder.JobIdInjective | services/builder.js:23 | a job id determines both its time stamp and its uuid |
| LocalBuilder.ErrorText | services/builder.js:116 | the error recorded for a thrown `Error` is never empty |
| LocalBuilder.OrUnknown | services/builder.js:29 | `(err && err.toString()) \|\| 'unknown'` is never empty |
| LocalBuilder.WithFirebase | services/builder.js:68-75 | the Firebase step adds at most `app/google-services.json` to the workspace |
| LocalBuilder.WithIcon | services/builder.js:78-85 | the icon step creates no file |
| LocalBuilder.PrepareWorkspace | services/builder.js:45-85 | the copying and editing steps end in the prepared workspace, with `build.gradle` rewritten as the code does it, or fail on the first step that throws |
| LocalBuilder.RunFromBuilt | services/builder.js:88-89 | once the workspace is prepared, the job goes to `building` and continues with the build |
| LocalBuilder.RunTraces | services/builder.js:39-121 | the statuses a job passes through after `running` are `error`, or `building` then `error`, or `building`, `signing` then `error` or `done`; a result exists exactly when the job ends `done`; an error text is never empty |
| LocalBuilder.RunEnds | services/builder.js:22-121 | every job moves forward from `queued` through `running` and ends in `done` or `error` |
| LocalBuilder.RunSucceeds | services/builder.js:88-112 | a job succeeds exactly when the copy, the editing, the build and the signing succeed and both the unsigned APK and the keystore exist; its APK URL is then `/downloads/<package or app>-<jobId>.apk` |
| LocalBuilder.MissingInputsStopBeforeSigning | services/builder.js:92-105 | a missing unsigned APK, checked first, or a missing keystore fails the job with the code's message before `signing` |
| LocalBuilder.MissingMessages | services/builder.js:93 | the two missing-file errors read `Error: ` followed by the code's message texts |
| LocalBuilder.RunFromPackageOnly | services/builder.js:95 | after preparation only the package name affects the job |
| LocalBuilder.EditedKeys | services/builder.js:49-65 | editing `strings.xml` and `build.gradle` neither creates nor deletes files |
| LocalBuilder.FirebaseDestUnder | services/builder.js:71 | the Firebase copy lands inside the job directory |
| LocalBuilder.OutsideStaysMissing | services/builder.js:45-75 | a source file outside the job directory that does not exist is not created by the preparation |
| LocalBuilder.EditedIgnoresSources | services/builder.js:49-65 | the file edits do not depend on the Firebase or icon paths |
| LocalBuilder.PreparedWithoutFirebase | services/builder.js:70-74 | a Firebase path that does not exist is skipped, as if none had been given |
| LocalBuilder.PreparedWithoutIcon | services/builder.js:80-84 | an icon path that does not exist is skipped, as if none had been given |
| LocalBuilder.MissingFirebaseSkipped | services/builder.js:70-74 | the whole job runs as if no Firebase path had been given when the file does not exist |
| LocalBuilder.MissingIconSkipped | services/builder.js:80-84 | the whole job runs as if no icon path had been given when the file does not exist |
| LocalBuilder.LocalBuilder.constructor | services/builder.js:17 | the job table starts empty |
| LocalBuilder.LocalBuilder.GetJobStatus | services/builder.js:35-37 | the job's record, or `undefined` for an unknown id |
| LocalBuilder.LocalBuilder.SetStatus | services/builder.js:40 | only that job's status changes, and the status is appended to its history |
| LocalBuilder.LocalBuilder.Fail | services/builder.js:113-116 | the job becomes `error` with the message; nothing else changes |
| LocalBuilder.LocalBuilder.Complete | services/builder.js:110-112 | the job becomes `done` with its APK URL and finish time |
| LocalBuilder.LocalBuilder.StartBuild | services/builder.js:22-33 | returns `<now>-<uuid>`; the job is recorded, and because `runJob` runs synchronously until its first `await`, it is already `running` |
| LocalBuilder.LocalBuilder.RunJobRest | services/builder.js:41-121 | the workspace and the job's record and history end as `RunOutcome` describes, with `build.gradle` rewritten by the code's `replaceResValues` (`$` patterns expanded) |
| LocalBuilder.LocalBuilder.AfterPrepare | services/builder.js:47-121 | the same, from a workspace whose preparation succeeded or threw |
| LocalBuilder.LocalBuilder.Build | services/builder.js:88-112 | the same, from the `building` step |
| LocalBuilder.LocalBuilder.CheckAndSign | services/builder.js:92-112 | the same, from the unsigned-APK check |
| LocalBuilder.LocalBuilder.Sign | services/builder.js:107-112 | the same, from the `signing` step |
| RemoteBuilder.InputsFromConfig | services/ghaBuilder.js:29-35 | each workflow input is the configured value when truthy and the code's default otherwise, so no input is empty |
| RemoteBuilder.DiscoveryEnd | services/ghaBuilder.js:113-123 | the discovery loop stops at the first poll that is past 120 s, fails, or lists a run |
| RemoteBuilder.DiscoveredFirstListed | services/ghaBuilder.js:117-121 | when the first non-empty listing arrives within 120 s, its first run is the one taken |
| RemoteBuilder.FindNewestRunId | services/ghaBuilder.js:109-125 | the polling loop yields exactly the discovered run id, a request error, or the not-found error |
| RemoteBuilder.CompletionEnd | services/ghaBuilder.js:131-139 | the completion loop stops at the first poll that fails, is `completed`, or is past 20 minutes |
| RemoteBuilder.Completed | services/ghaBuilder.js:136-137 | a run is returned only when `completed`; otherwise the result is the request error or the timeout |
| RemoteBuilder.CompletionTimesOut | services/ghaBuilder.js:137 | a run that never completes ends in the timeout error, more than 20 minutes after the start |
| RemoteBuilder.WaitForRunCompletion | services/ghaBuilder.js:128-140 | the polling loop yields exactly `Completed` |
| RemoteBuilder.Collected | services/ghaBuilder.js:66-99 | after the run the job ends `done` or `error`; an error has a message; a zip is saved only for `done` |
| RemoteBuilder.Watched | services/ghaBuilder.js:58-103 | the same, from run discovery on |
| RemoteBuilder.TriggeredTraces | services/ghaBuilder.js:39-103 | after `triggering` the job goes `error`, or `dispatched`, `running` then `error` or `done` |
| RemoteBuilder.BuildEnds | services/ghaBuilder.js:22-106 | every remote job moves forward from `queued` and ends `done` or `error` |
| RemoteBuilder.UnsuccessfulConclusion | services/ghaBuilder.js:66-70 | a conclusion other than `success` fails the job with `workflow finished with conclusion: …` and downloads nothing |
| RemoteBuilder.SuccessfulConclusion | services/ghaBuilder.js:73-99 | a success without artifacts is `done` with `no artifact found`; a zip is saved exactly when the first artifact downloads, and is then served at `/downloads/<jobId>-artifact.zip` |
| RemoteBuilder.JobIdCollides | services/ghaBuilder.js:25 | remote job ids are equal exactly when the milliseconds are, so two builds in one millisecond share a record |
| RemoteBuilder.RemoteBuilder.constructor | services/ghaBuilder.js:16 | no jobs and no dispatches |
| RemoteBuilder.RemoteBuilder.GetJobStatus | services/ghaBuilder.js:142-144 | the job's record, or `undefined` |
| RemoteBuilder.RemoteBuilder.Record | services/ghaBuilder.js:54-103 | one job's record is replaced and its statuses are appended to its history |
| RemoteBuilder.RemoteBuilder.TriggerBuild | services/ghaBuilder.js:22-106 | without a token it throws with nothing changed; otherwise it returns `Date.now()` as the id, the job ends as `Triggered` describes, the inputs are dispatched once and the zip is written |
| RemoteBuilder.RemoteBuilder.Register | services/ghaBuilder.js:25-39 | the job is recorded as `queued` then `triggering` |
| RemoteBuilder.RemoteBuilder.Dispatch | services/ghaBuilder.js:41-103 | the dispatch and what follows yield `Triggered`, and the artifact zip is saved when there is one |
| RemoteBuilder.RemoteBuilder.Watch | services/ghaBuilder.js:58-103 | the same from discovery on |
| RemoteBuilder.RemoteBuilder.Collect | services/ghaBuilder.js:66-99 | the same from the conclusion on |
| Packager.ReplaceDelimitedAsWritten | packger.js:10-11 | without a match the text is unchanged; a `$`-free replacement is spliced literally |
| Packager.ReplaceDelimited | packger.js:10-11 | without a match the text is unchanged |
| Packager.ReplaceDelimitedSets | packger.js:10-11 | the first delimited span is replaced by the new value, the text around it is kept, and a second replacement changes nothing |
| Packager.LabelAsWrittenExpandsDollar | packger.js:10-11 | an app name `$&` nests the old label inside the new one instead of setting it |
| Packager.LabelSet | packger.js:6-14 | the corrected update: `android:label` is set to the app name, and setting it again changes nothing |
| Packager.LabelReplacedAsWritten | packger.js:10-11 | the code's label update writes a name without `$` as given, like the corrected one |
| Packager.LabelSetAsWritten | packger.js:6-14 | the code's update, for a name free of `"` and `$`: `android:label` is set to the name and setting it again changes nothing |
| Packager.DelimitedNests | packger.js:10-11 | a replacement `t1$&t2` puts the matched span itself between `t1` and `t2`, where the literal one writes `$&` |
| Packager.BareNests | packger.js:10-11 | on a text that is one bare span, a replacement `t1$&t2` wraps the text in `t1` and `t2` |
| Packager.PackageSet | packger.js:16-24 | the corrected update: `package` is set to the package name, and setting it again changes nothing |
| Packager.PackageReplacedAsWritten | packger.js:20-21 | the code's package update writes a name without `$` as given, like the corrected one |
| Packager.PackageSetAsWritten | packger.js:16-24 | the code's update, for a name free of `"` and `$`: `package` is set to the name and setting it again changes nothing |
| Packager.PackageAsWrittenExpandsDollar | packger.js:20-21 | a package name `$&` nests the old attribute inside the new one, where the corrected update writes `$&` |
| Packager.UpdateAppName | packger.js:6-14 | succeeds exactly when the manifest is readable, and then rewrites only the manifest, with the code's `replace` (`$` patterns in the name expanded) |
| Packager.UpdatePackageName | packger.js:16-24 | the same, for the package attribute |
| Packager.ArgsWithoutParen | packger.js:30-32 | the new `AdjustConfig(...)` arguments contain no `)` when the token does not |
| Packager.AdjustSet | packger.js:30-32 | the corrected rewrite: the `AdjustConfig(` arguments become the token's, and a second run changes nothing |
| Packager.AdjustReplacedAsWritten | packger.js:30-32 | the code's rewrite of the call writes a token without `$` as given, like the corrected one |
| Packager.AdjustSetAsWritten | packger.js:30-32 | the code's rewrite, for a token free of `)` and `$`: the production call is set and a second run changes nothing |
| Packager.AdjustAsWrittenExpandsDollar | packger.js:30-31 | a token `$&` nests the old call inside the string argument of the new one, where the corrected rewrite writes `$&` |
| Packager.EventSnippetsConcat | packger.js:34-40 | the event code of two lists of events is the concatenation of their codes |
| Packager.EventSnippetAt | packger.js:34-40 | each event's snippet stands in the generated code, after the snippets of the events before it |
| Packager.EventCode | packger.js:34-40 | the accumulation loop builds exactly the snippets of the events, in order |
| Packager.BodyWithoutSlash | packger.js:42-47 | the events block introduces no `/` beyond the event code's own |
| Packager.EventsBlockSet | packger.js:42-47 | the corrected rewrite: the code between the event markers is replaced, and a second run changes nothing |
| Packager.EventsReplacedAsWritten | packger.js:42-47 | the code's rewrite of the block inserts generated code without `$` as given, like the corrected one |
| Packager.EventsBlockSetAsWritten | packger.js:42-47 | the code's rewrite, for generated code free of `/` and `$`: the block is set and a second run changes nothing |
| Packager.EventsAsWrittenExpandsDollar | packger.js:42-47 | an event token `$&` nests the old markers inside the new `AdjustEvent` argument, where the corrected rewrite writes `$&` |
| Packager.OneEvent | packger.js:34-40 | one event generates exactly its own snippet |
| Packager.EventSnippetsNoDollar | packger.js:34-40 | keys and tokens without `$` generate code without `$` |
| Packager.EventSnippetsNoSlash | packger.js:34-40 | events without `/` generate code without `/` |
| Packager.HitsConcat | packger.js:56-66 | the hits of a listing are the hits of its parts, in order |
| Packager.HitsAreMainActivities | packger.js:56-66 | every hit lies under the searched directory and ends in `MainActivity.java` |
| Packager.Search | packger.js:56-66 | the recursive search returns the last hit in traversal order, or the previous result when there is none |
| Packager.FindMainActivity | packger.js:52-70 | `""` exactly when no `MainActivity.java` exists under the Java root; otherwise the last one found |
| Packager.UpdateAdjust | packger.js:26-50 | succeeds exactly when the found file is readable, and then rewrites that file as the code does (`AdjustedCodeAsWritten`), which is the intended production call and events block whenever no token or key holds `$` |
| Packager.AdjustedCodeAsWritten | packger.js:26-50 | with no `$` in the token, the keys or the event tokens, the code's rewrite is the intended one |
| PrepareBuild.LastStartIn | tools/prepare-build.js:15 | the last occurrence of the pattern's tail within a line, which is where the greedy `.*` stops |
| PrepareBuild.MatchAtSpec | tools/prepare-build.js:15 | a match at a position starts with the head, ends with the last tail on that line, and has no line break inside |
| PrepareBuild.PatternMatcher | tools/prepare-build.js:15 | the `new RegExp(search)` for a `head.*tail` pattern |
| PrepareBuild.MatchSpans | tools/prepare-build.js:15 | the global matches are ordered and do not overlap |
| PrepareBuild.SpansAreMatches | tools/prepare-build.js:15 | every span the global replace finds is a match |
| PrepareBuild.EveryMatchReplaced | tools/prepare-build.js:15 | every position where a match starts lies inside a replaced span |
| PrepareBuild.NoMatchUnchanged | tools/prepare-build.js:13-17 | a file without a match is written back unchanged |
| PrepareBuild.WholeMatch | tools/prepare-build.js:15 | a text that is one match is replaced as a whole |
| PrepareBuild.SingleLineMatch | tools/prepare-build.js:15 | head, value and tail on one line form one match |
| PrepareBuild.WholeLineReplaced | tools/prepare-build.js:53-57 | a one-line assignment is replaced by the new one |
| PrepareBuild.SpliceWithoutDollar | tools/prepare-build.js:15 | without `$`, the expanded and the literal splice agree |
| PrepareBuild.AsWrittenAgreesWithoutDollar | tools/prepare-build.js:13-17 | without `$` in the value, the code's replace is the literal one |
| PrepareBuild.AppNameAsWrittenExpandsDollar | tools/prepare-build.js:53-57 | an app name `$&` nests the old line inside the new one |
| PrepareBuild.Slashed | tools/prepare-build.js:68 | `replace(/\./g, "/")` turns each dot into a slash and changes nothing else |
| PrepareBuild.JoinInDir | tools/prepare-build.js:75-76 | `path.join(dir, file)` lies directly in `dir` under the name `file` |
| PrepareBuild.InDirUnique | tools/prepare-build.js:75-76 | a path lies directly in one directory only |
| PrepareBuild.Listing | tools/prepare-build.js:73 | `readdirSync` lists exactly the names of the files directly in the directory |
| PrepareBuild.MovedSpec | tools/prepare-build.js:73-78 | each listed file is moved to the new package directory with its contents; the old paths are gone; everything else is kept |
| PrepareBuild.MovedInPlace | tools/prepare-build.js:73-78 | moving a package onto itself changes nothing |
| PrepareBuild.MovedAt | tools/prepare-build.js:73-78 | what each path holds after the move |
| PrepareBuild.MovedStep | tools/prepare-build.js:74-77 | one more rename extends the move by one file |
| PrepareBuild.MoveOne | tools/prepare-build.js:74-77 | one rename, including one onto itself |
| PrepareBuild.MovedNone | tools/prepare-build.js:73 | an empty listing moves nothing |
| PrepareBuild.RenamingsMoved | tools/prepare-build.js:73-78 | renaming the files in any order gives the same result |
| PrepareBuild.MovePackage | tools/prepare-build.js:73-78 | the `forEach` of renames leaves exactly the moved file system |
| PrepareBuild.ReplacedIn | tools/prepare-build.js:13-17 | a readable file is rewritten with the code's global `replace` (`$` patterns expanded), which is the literal replacement when the value has no `$`; nothing else changes; an unreadable one makes `readFileSync` throw |
| PrepareBuild.ReplaceInFile | tools/prepare-build.js:13-17 | the method's outcome is `ReplacedIn`: the code's global `replace`, with `$` patterns in the value expanded |
| PrepareBuild.Shown | tools/prepare-build.js:91 | a present value is inserted as its own text |
| PrepareBuild.EventsApplied | tools/prepare-build.js:118-124 | every event key's assignment is replaced in turn with the code's `replace`; the run crashes only on a missing `JsInterface.java`, and no other file changes |
| PrepareBuild.EventLineSet | tools/prepare-build.js:116-124 | on a `JsInterface.java` that is the one line `KEY = "…";`, the event `KEY` with a `$`-free token completes and leaves the line holding that token |
| PrepareBuild.ApplyEvents | tools/prepare-build.js:118-124 | the loop's outcome is `EventsApplied`, one `replaceInFile` per event key in order |
| PrepareBuild.IconsWritten | tools/prepare-build.js:153-158 | each existing launcher icon is overwritten; nothing is created |
| PrepareBuild.IconsWrittenStep | tools/prepare-build.js:154-157 | one more folder overwrites its icon when that icon exists |
| PrepareBuild.WriteIcons | tools/prepare-build.js:145-158 | the loop leaves exactly `IconsWritten` over the five mipmap folders |
| PrepareBuild.MovedBounds | tools/prepare-build.js:73-78 | the move creates paths only in the new directory and removes them only from the old one |
| PrepareBuild.AssetsWritten | tools/prepare-build.js:131-158 | the Firebase file is written when given; existing launcher icons are replaced when an icon is given |
| PrepareBuild.SourcesEdited | tools/prepare-build.js:91-158 | the run completes only with a package name and events; each edit is the code's `replaceInFile`; it adds only the Firebase file and leaves the assets as stated |
| PrepareBuild.PackageRenamed | tools/prepare-build.js:64-158 | the same, from the package step on, with the `applicationId` edit also the code's `replaceInFile` |
| PrepareBuild.PrepareRun | tools/prepare-build.js:26-164 | a missing config exits with nothing changed; an unreadable `strings.xml` crashes with nothing changed; a config without `packageName` crashes at line 91 after rewriting only `strings.xml`; completion needs a package name and events, and leaves the Firebase file and icons as stated |
| PrepareBuild.FirebaseNotLauncher | tools/prepare-build.js:132-154 | the Firebase file is never a launcher icon |
| PrepareBuild.LauncherNotInPackage | tools/prepare-build.js:67-154 | no launcher icon lies directly in a package directory |
| PrepareBuild.IconsNeverCreated | tools/prepare-build.js:155 | the script never creates a launcher icon that did not exist |
| PrepareBuild.WriteAssets | tools/prepare-build.js:131-158 | the method's outcome is `AssetsWritten` |
| PrepareBuild.EditSources | tools/prepare-build.js:91-158 | the method's outcome is `SourcesEdited` |
| PrepareBuild.RenamePackage | tools/prepare-build.js:64-158 | the method's outcome is `PackageRenamed` |
| PrepareBuild.Prepare | tools/prepare-build.js:26-164 | the method's outcome is `PrepareRun` |
| MainActivity.OwnDomainIsGo606 | MyWebviewApp_Fixed3/MyWebviewApp_Fixed3/app/src/main/java/com/go606/br33/MainActivity.java:87 | the three-domain test holds exactly when the URL contains `go606.com` |
| MainActivity.HandleUrl | MyWebviewApp_Fixed3/MyWebviewApp_Fixed3/app/src/main/java/com/go606/br33/MainActivity.java:82-95 | `null` is not overridden; an own-domain link is left to the WebView; any other link is taken over and its trimmed URL opened externally, unless `buildAppLink` throws on it, which ends the callback with the exception |
| MainActivity.Opened | MyWebviewApp_Fixed3/MyWebviewApp_Fixed3/app/src/main/java/com/go606/br33/MainActivity.java:170-175 | calling `openExternal` from a callback throws exactly when `openExternal` throws; otherwise the link is taken over and opened externally |
| MainActivity.ExtensionBeforeQuery | MyWebviewApp_Fixed3/MyWebviewApp_Fixed3/app/src/main/java/com/go606/br33/MainActivity.java:133 | some `?` after the search point is preceded by an image extension |
| MainActivity.IsImageUrl | MyWebviewApp_Fixed3/MyWebviewApp_Fixed3/app/src/main/java/com/go606/br33/MainActivity.java:133 | the decision procedure agrees with the pattern `.*\.(png\|jpg\|jpeg)(\?.*)?$` |
| MainActivity.HandleNewWebViewUrl | MyWebviewApp_Fixed3/MyWebviewApp_Fixed3/app/src/main/java/com/go606/br33/MainActivity.java:129-150 | `null` is ignored; own-domain links that are not images load in the main WebView; images and other links are taken over and opened externally, unless `buildAppLink` throws on them, which ends the callback with the exception |
| MainActivity.FirstDelimiter | MyWebviewApp_Fixed3/MyWebviewApp_Fixed3/app/src/main/java/com/go606/br33/MainActivity.java:212 | the first position holding a delimiter |
| MainActivity.FirstField | MyWebviewApp_Fixed3/MyWebviewApp_Fixed3/app/src/main/java/com/go606/br33/MainActivity.java:212 | the longest delimiter-free prefix |
| MainActivity.PiecesSpec | MyWebviewApp_Fixed3/MyWebviewApp_Fixed3/app/src/main/java/com/go606/br33/MainActivity.java:212 | the first piece of the split is the first field; all pieces are empty exactly when the text is made of delimiters only |
| MainActivity.DropTrailingEmpty | MyWebviewApp_Fixed3/MyWebviewApp_Fixed3/app/src/main/java/com/go606/br33/MainActivity.java:212 | `split` drops trailing empty strings, giving an empty array exactly when all pieces are empty |
| MainActivity.SplitFirstAsWrittenSpec | MyWebviewApp_Fixed3/MyWebviewApp_Fixed3/app/src/main/java/com/go606/br33/MainActivity.java:212 | `split(..)[0]` throws exactly on a non-empty text of delimiters only; otherwise it is the first field |
| MainActivity.AfterLastSlash | MyWebviewApp_Fixed3/MyWebviewApp_Fixed3/app/src/main/java/com/go606/br33/MainActivity.java:200 | the slash-free suffix after the last `/` |
| MainActivity.AfterFirstCom | MyWebviewApp_Fixed3/MyWebviewApp_Fixed3/app/src/main/java/com/go606/br33/MainActivity.java:212 | the text after the first `.com/` |
| MainActivity.RulePatterns | MyWebviewApp_Fixed3/MyWebviewApp_Fixed3/app/src/main/java/com/go606/br33/MainActivity.java:199-225 | the rule chosen guarantees the substring that the rule's `indexOf` or `lastIndexOf` relies on |
| MainActivity.BuildAppLink | MyWebviewApp_Fixed3/MyWebviewApp_Fixed3/app/src/main/java/com/go606/br33/MainActivity.java:194-228 | the corrected `buildAppLink`, which never throws: Telegram, Facebook, Instagram and X links become their app schemes with the user name the text before the first delimiter, empty when the segment holds only delimiters; WhatsApp channels and other links stay as they are |
| MainActivity.BuildAppLinkAgrees | MyWebviewApp_Fixed3/MyWebviewApp_Fixed3/app/src/main/java/com/go606/br33/MainActivity.java:194-228 | whenever the code's `buildAppLink` (`BuildAppLinkAsWritten`) does not throw, it gives the corrected link |
| MainActivity.XQueryOnly | MyWebviewApp_Fixed3/MyWebviewApp_Fixed3/app/src/main/java/com/go606/br33/MainActivity.java:222-223 | `https://x.com/?` takes the X rule, and its last segment is `?` |
| MainActivity.BuildAppLinkAsWrittenThrows | MyWebviewApp_Fixed3/MyWebviewApp_Fixed3/app/src/main/java/com/go606/br33/MainActivity.java:223 | the code throws on `https://x.com/?`, where the corrected link is `twitter://user?screen_name=` |
| MainActivity.TelegramLink | MyWebviewApp_Fixed3/MyWebviewApp_Fixed3/app/src/main/java/com/go606/br33/MainActivity.java:199-202 | `https://t.me/<user>` becomes `tg://resolve?domain=<user>` |
| MainActivity.ExternalAttempts | MyWebviewApp_Fixed3/MyWebviewApp_Fixed3/app/src/main/java/com/go606/br33/MainActivity.java:170-191 | nothing is opened for `null` or empty; it throws exactly when the code's `buildAppLink` throws; otherwise the app link is tried first and then the URL in the browser |
| MainActivity.PlainLinkTriedTwice | MyWebviewApp_Fixed3/MyWebviewApp_Fixed3/app/src/main/java/com/go606/br33/MainActivity.java:175-190 | a link without an app scheme is tried twice as the same URL |
| MainActivity.BlankUrlOpensNothing | MyWebviewApp_Fixed3/MyWebviewApp_Fixed3/app/src/main/java/com/go606/br33/MainActivity.java:84-93 | a blank URL is taken over and then opens nothing |
| MainActivity.XQueryUrlThrows | MyWebviewApp_Fixed3/MyWebviewApp_Fixed3/app/src/main/java/com/go606/br33/MainActivity.java:174-175 | `https://x.com/?`, reached from either WebView, makes the callback throw, since `buildAppLink` is called outside any `try` |
| MainActivity.WithoutGNoImage | MyWebviewApp_Fixed3/MyWebviewApp_Fixed3/app/src/main/java/com/go606/br33/MainActivity.java:133 | every image extension ends in `g`, so a URL without `g` is no image |
| JsInterface.OptString | MyWebviewApp_Fixed3/MyWebviewApp_Fixed3/app/src/main/java/com/go606/br33/JsInterface.java:129 | the fallback for a missing key; the string itself for a string value |
| JsInterface.OptDouble | MyWebviewApp_Fixed3/MyWebviewApp_Fixed3/app/src/main/java/com/go606/br33/JsInterface.java:128 | the fallback for a missing key; the number itself for a number value |
| JsInterface.CallbackParameters | MyWebviewApp_Fixed3/MyWebviewApp_Fixed3/app/src/main/java/com/go606/br33/JsInterface.java:114-118 | exactly the `uid` and `cid` present in the data, `uid` first, each with its text |
| JsInterface.PlainEvent | MyWebviewApp_Fixed3/MyWebviewApp_Fixed3/app/src/main/java/com/go606/br33/JsInterface.java:111-121 | the token and the callback parameters, without revenue |
| JsInterface.RevenueEvent | MyWebviewApp_Fixed3/MyWebviewApp_Fixed3/app/src/main/java/com/go606/br33/JsInterface.java:127-143 | revenue is set exactly when the amount is positive, in the data's currency or `USD` |
| JsInterface.HandlerTable | MyWebviewApp_Fixed3/MyWebviewApp_Fixed3/app/src/main/java/com/go606/br33/JsInterface.java:62-100 | the switch handles exactly the ten names; revenue goes with the three deposit names only; only the two first-deposit names share a token |
| JsInterface.DataObject | MyWebviewApp_Fixed3/MyWebviewApp_Fixed3/app/src/main/java/com/go606/br33/JsInterface.java:58-60 | `null` or empty data is an empty object; anything else is parsed |
| JsInterface.HandleEvent | MyWebviewApp_Fixed3/MyWebviewApp_Fixed3/app/src/main/java/com/go606/br33/JsInterface.java:56-105 | a `null` name or unparsable data does nothing; otherwise a name with a plain token is tracked as that token with the data, a deposit name as that token with the data's revenue, `openWindow` opens the data's `url` when it is non-empty and does nothing otherwise, and unknown names do nothing |
| JsInterface.FirstDepositAliases | MyWebviewApp_Fixed3/MyWebviewApp_Fixed3/app/src/main/java/com/go606/br33/JsInterface.java:88-91 | `firstrecharge` and `firstDepositArrival` have the same effect |
| JsInterface.EmptyDataIsNull | MyWebviewApp_Fixed3/MyWebviewApp_Fixed3/app/src/main/java/com/go606/br33/JsInterface.java:58-60 | empty data and `null` data are handled alike |
| JsInterface.DepositRevenue | MyWebviewApp_Fixed3/MyWebviewApp_Fixed3/app/src/main/java/com/go606/br33/JsInterface.java:127-143 | a deposit with a positive amount and no currency is tracked with that amount in `USD` |

## Left out

- Directory creation (`mkdirSync`, `ensureDir`): directories are not modelled, because a file system here is a map from file path to contents.
- The build and signing scripts are not modelled: `exec`, the shell commands, their quoting, `KEYSTORE_PASS`, `KEY_ALIAS` and the 20-minute exec timeout. Their outcome is a parameter: the files the build writes, or an error.
- `packger.js` `buildAPK` is not modelled: it only runs Gradle through `exec`.
- A template copy that fails partway: `ncp` failing is modelled as failing before any file changes.
- The JSON round trip of `buildStore.js`: `JSON.parse(JSON.stringify(x))` is taken to give back `x`. The directory listing is a set, so `readdirSync` order is not kept.
- Path normalisation (`path.join` collapsing `..` or `//`) is not modelled: a path join is a plain concatenation with a slash.
- The `for..in` order over events and the `Object.keys` order are taken as the order of a given sequence.
- Regular-expression metacharacters inside event keys are not modelled (`tools/prepare-build.js:121`): a key is matched literally.
- Subdirectories of the old package directory are not modelled: `readdirSync` lists only the files directly in it. A missing directory is an empty listing rather than a throw.
- JSON parsing is a parameter that returns an object or nothing. Non-string configuration values are not modelled.
- A file that is present but is not text, read as text, is modelled as a throw.
- Floating point is not modelled: doubles are reals, without NaN or infinities. `Double.valueOf` on a string is part of the parsed value.
- Whether `startActivity` succeeds is not modelled: `MainActivity.ExternalAttempts` lists the intents tried in order instead.
- Not modelled: the Adjust SDK itself, logging and console output, `MyApp.java`, the WebView settings, and loading on the UI thread.
- `index.js`, `test.js` and `config.js` are outside this model.
- Concurrency is not modelled. Jobs run one at a time, and a build is not interleaved with status queries.
- xml2js parsing and building are not modelled: `strings.xml` is held as a parsed document.
- The clock, `uuid` and `Date.now()` are parameters.
- GradleEditor.ReplaceResValues: no read-back is stated for the whole rewrite. Per edit, `GradleEditor.SetResAsWrittenReadsBack` gives it for values without `$`, and `GradleEditor.SetResAsWrittenGrows` shows that the code's edit is not idempotent.
- GradleEditor.SetRes: models the corrected `setRes`, the intended half of the `gradleEditor.js:15-17` finding; the code's `setRes` is `GradleEditor.SetResAsWritten`, which `ReplaceResValues` uses.
- GradleEditor.SetResReadsBack: holds for the corrected `setRes`. For the code's, `GradleEditor.SetResAsWrittenReadsBack` proves it only for values without `$`, because `replace` expands `$` patterns.
- Packager.LabelSetAsWritten: proved only for values without `$`. With `$` the code's rewrite nests the old text, as the `packger.js` findings show.
- Packager.PackageSetAsWritten: proved only for values without `$`. With `$` the code's rewrite nests the old text, as the `packger.js` findings show.
- Packager.AdjustSetAsWritten: proved only for values without `$`. With `$` the code's rewrite nests the old text, as the `packger.js` findings show.
- Packager.EventsBlockSetAsWritten: proved only for values without `$`. With `$` the code's rewrite nests the old text, as the `packger.js` findings show.
- Packager.LabelSet: states the corrected rewrite, the intended half of its `packger.js` finding; the methods use the code's rewrite.
- Packager.PackageSet: states the corrected rewrite, the intended half of its `packger.js` finding; the methods use the code's rewrite.
- Packager.AdjustSet: states the corrected rewrite, the intended half of its `packger.js` finding; the methods use the code's rewrite.
- Packager.EventsBlockSet: states the corrected rewrite, the intended half of its `packger.js` finding; the methods use the code's rewrite.
- PrepareBuild.EventsApplied: that each key's line ends holding its token is proved for a one-line file and one event (`PrepareBuild.EventLineSet`). It is not proved for several keys in a whole file, where `.*` is greedy within a line and a later key can match inside an earlier key's new line.
- PrepareBuild.SourcesEdited: its edits are the code's `replaceInFile`, but the resulting file contents are not stated.
- PrepareBuild.PackageRenamed: its edits are the code's `replaceInFile`, but the resulting file contents are not stated.
- PrepareBuild.PrepareRun: after a completed run, the contents of the edited files are not stated; only which files exist, the Firebase file and the icons are. The single edits are described by `PrepareBuild.ReplacedIn` and `PrepareBuild.EventLineSet`.
- BuildStore.ListedRoundTrip: states the corrected listing, the intended half of the `buildStore.js:18` finding; the store lists with the code's `replace`.

## Findings

| source | as written | input that shows it | evidently intended | confidence | as-written member | corrected member |
|---|---|---|---|---|---|---|
| services/gradleEditor.js:8 | the package name is passed to `replace` as a replacement string, so `$&`, `$$`, `` $` `` and `$'` in it are expanded | package name `$&`, on a file holding `applicationId "x"` | the package name written literally | not executed | GradleEditor.AppIdAsWrittenExpandsDollar | GradleEditor.AppIdReplacesFirstOnly |
| packger.js:10-11 | the app name is passed to `replace` as a replacement string, so `$&` is expanded | app name `$&`, on `android:label="A"` | the app name written literally | not executed | Packager.LabelAsWrittenExpandsDollar | Packager.LabelSet |
| tools/prepare-build.js:15 | `replaceInFile` passes the value as a replacement string, so `$&` is expanded | app name `$&`, on `<string name="app_name">A</string>` | the app name written literally | not executed | PrepareBuild.AppNameAsWrittenExpandsDollar | PrepareBuild.WholeLineReplaced |
| services/gradleEditor.js:15-17 | the match starts at `resValue`, after the old indentation, and the new line brings its own 8 spaces | any `build.gradle` that already has the key's `resValue` line: every run makes the file 8 characters longer | re-running leaves the file unchanged | not executed | GradleEditor.SetResAsWrittenGrows | GradleEditor.SetResIdempotent |
| MyWebviewApp_Fixed3/MyWebviewApp_Fixed3/app/src/main/java/com/go606/br33/MainActivity.java:223 | `split("\\?")[0]` on a segment made only of `?` gives an empty array, so the index throws | `https://x.com/?` | an empty user name, giving `twitter://user?screen_name=` | not executed | MainActivity.BuildAppLinkAsWrittenThrows | MainActivity.BuildAppLink |
| packger.js:20-21 | the package name is passed to `replace` as a replacement string, so `$&` is expanded | package name `$&`, on `package=""` | the package name written literally | not executed | Packager.PackageAsWrittenExpandsDollar | Packager.PackageSet |
| packger.js:30-31 | the Adjust token is passed to `replace` inside a replacement string, so `$&` is expanded | token `$&`, on `new AdjustConfig();` | the token written literally | not executed | Packager.AdjustAsWrittenExpandsDollar | Packager.AdjustSet |
| packger.js:42-47 | the event tokens are passed to `replace` inside a replacement string, so `$&` is expanded | one event `k` with token `$&`, on a file holding just the two markers | the token written literally | not executed | Packager.EventsAsWrittenExpandsDollar | Packager.EventsBlockSet |
| services/buildStore.js:18 | `replace(".json", "")` removes the first `.json` anywhere in the file name | an id `a.jsonb`, saved as `a.jsonb.json`, is listed as `ab.json` | stripping the `.json` suffix | not executed | BuildStore.ListedAsWrittenMangles | BuildStore.ListedRoundTrip |
