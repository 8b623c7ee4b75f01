# bolt-ts playground: file and compile bookkeeping

This project models the bookkeeping behind the bolt-ts web playground and proves
properties of that model in Dafny. It covers:

- the document store (`state/document.ts`): an ordered list of
  `{id, path, content, language}` records. A record's id is its path at
  creation. Append, update, delete and rename match on id.
- the default files (`defaultCase.ts`).
- the `useCompile` hook (`useCompile.tsx`): it compiles nothing until the
  WebAssembly compiler is ready, then recompiles whenever the files or the
  working directory change.
- the two playground pages (`playground/index.tsx` and the older
  `PlaygroundPage.tsx`), with their handlers:
  - add a file as `/file{n+1}.ts`;
  - delete a file, never dropping below one file, and re-select the active
    file for the JavaScript view;
  - rename a file: blank names are refused, and `.ts` or `.json` is added when
    the name has no dot;
  - run: build the `path -> content` request with `/lib.es5.d.ts` laid over it,
    then show the diagnostics as `[file:line:col]: code` lines or a success
    message.

The compiler is an uninterpreted function value. Its result is either emitted
JavaScript or a list of diagnostics; as the pages call it, with no readiness
check in front, it may also throw. The editor is reduced to a ghost set of
the `file:` URIs that hold a live model. The texts read by `require`
(`example.txt`, `index.ts.txt`, `es5.txt`) and the clock reading `Date.now()`
are parameters.

Modules:
- `Wrappers`: `Option`.
- `Text`: JavaScript's `trim`, `indexOf`, decimal integer text, `join`/`split`.
- `Lists`: `findIndex`/`filter` by a key.
- `Documents`: the store.
- `DefaultCase`: the default files.
- `Compile`: the compiler boundary and the `useCompile` hook.
- `Handlers`: the logic both pages write out identically.
- `Playground`: `index.tsx`.
- `PlaygroundPage`: `PlaygroundPage.tsx`.

The code validates and sequences nothing, and the model keeps it that way:
- in the store and in `index.tsx` a file's id is its path at creation; in
  `PlaygroundPage.tsx` ids are `file1`, `file2` and `file{Date.now()}`; no id
  is ever checked for uniqueness;
- there is no request sequencing or stale-result discarding;
- deleting a file does not dispose its editor model;
- a user file at `/lib.es5.d.ts` is silently replaced by the library.

## Model

| member | source | states |
|---|---|---|
| Documents.D | src/pages/playground/state/document.ts:19-24 | the record's id and path both equal the given path; content and language are kept as given |
| Documents.DefaultDocuments | src/pages/playground/state/document.ts:26-35 | exactly two documents, `/index.ts` (TypeScript) then `/tsconfig.json` (JSON), with the given index text and the fixed tsconfig text, and distinct ids |
| Documents.WithContent | src/pages/playground/state/document.ts:45-48 | same length; every document whose id matches gets the new content; ids, paths, languages and every other document are unchanged |
| Documents.WithPath | src/pages/playground/state/document.ts:53-56 | same length; every document whose id matches gets the new path; ids, contents and languages are unchanged |
| Documents.WithoutDocument | src/pages/playground/state/document.ts:49-52 | no survivor has the id; every survivor comes from the list; every document with another id survives |
| Documents.RenameThenUpdate | src/pages/playground/state/document.ts:45-56 | update and rename of one id commute, and an update after a rename still reaches the renamed document, because the id stays the same |
| Documents.RenameBreaksIdEqualsPath | src/pages/playground/state/document.ts:53-56 | after renaming a document created with id == path, its id is the old path and differs from its new path |
| Documents.NewDocumentAllowsDuplicateIds | src/pages/playground/state/document.ts:39-43 | appending at a path already in use gives two documents with one id |
| Documents.DeleteUndoesNew | src/pages/playground/state/document.ts:39-52 | deleting a document just appended at a fresh path restores the earlier list |
| Documents.UpdateIdempotent | src/pages/playground/state/document.ts:45-48 | repeating an update with the same content changes nothing more |
| Documents.DeleteCanEmptyStore | src/pages/playground/state/document.ts:49-52 | the store has no minimum-count guard: deleting the only document empties it |
| Documents.Store.constructor | src/pages/playground/state/document.ts:37-38 | the store starts with the default documents |
| Documents.Store.NewDocument | src/pages/playground/state/document.ts:39-44 | appends exactly one document `(path, path, content, language)` at the end and returns it; earlier documents are unchanged; content defaults to "" and language to TypeScript |
| Documents.Store.SetDocuments | src/pages/playground/state/document.ts:57 | the list becomes the given one |
| Documents.Store.UpdateDocument | src/pages/playground/state/document.ts:45-48 | the list becomes WithContent of the old list, matching on the argument's id only |
| Documents.Store.DeleteDocument | src/pages/playground/state/document.ts:49-52 | the list becomes WithoutDocument of the old list, even when that is empty |
| Documents.Store.RenameDocument | src/pages/playground/state/document.ts:53-56 | the list becomes WithPath of the old list, matching on the argument's id only |
| Lists.FindIndex | src/pages/playground/index.tsx:138 | -1 exactly when no element has the key; otherwise the first index that has it |
| Lists.WithoutKey | src/pages/playground/index.tsx:133 | the `filter` by id: no survivor has the key, survivors come from the input, elements with other keys survive, and a list without the key is returned unchanged |
| Lists.WithoutKeyAppend | src/pages/playground/state/document.ts:50 | filtering distributes over concatenation, so survivors keep their relative order |
| Lists.WithoutKeyIdempotent | src/pages/playground/state/document.ts:50 | filtering twice by one key is filtering once |
| Lists.WithoutKeyMultiset | src/pages/playground/state/document.ts:50 | every element with another key survives as many times as it occurs; none with the key survives |
| Text.Trim | src/pages/playground/index.tsx:143 | `trim()` is empty exactly when the name consists of JavaScript whitespace; otherwise it starts and ends with a non-whitespace character |
| Text.IntToStringRoundTrip | src/pages/playground/useCompile.tsx:19 | the decimal text a template literal gives an integer reads back as that integer |
| Text.IntToString | src/pages/playground/useCompile.tsx:19 | the text of an integer in a template literal: digits, with a '-' only in front |
| Text.Join | src/pages/playground/index.tsx:224 | `join('\n')` of a single line is that line; joining separator-free parts gives at least one character per separator |
| Text.SplitJoin | src/pages/playground/index.tsx:224 | splitting a `join` on its separator gives the parts back when no part contains the separator |
| DefaultCase.NewFile | src/pages/playground/defaultCase.ts:19-25 | id == path, with path, content and language copied unchanged |
| DefaultCase.DefaultFiles | src/pages/playground/defaultCase.ts:8-17 | two files, `/index.ts` then `/tsconfig.json`, each with id == path, and distinct ids |
| DefaultCase.NewFileIsD | src/pages/playground/defaultCase.ts:19-25 | `newFile` and the store's `d` build the same record |
| Compile.ErrorOutputFromCompileError | src/pages/playground/useCompile.tsx:16-20 | a formatted diagnostic is non-empty and starts with '[' |
| Compile.ErrorOutputRoundTrip | src/pages/playground/useCompile.tsx:16-20 | the line `[file:line:col]: code` reads back as exactly the file, start line, start column and code, when the file name has no ':' |
| Compile.ErrorOutputIgnoresEnd | src/pages/playground/useCompile.tsx:16-20 | the end position does not affect the text |
| Compile.ErrorOutputSingleLine | src/pages/playground/useCompile.tsx:19 | no line break enters the text unless the file name or the code has one |
| Compile.UseCompile.constructor | src/pages/playground/useCompile.tsx:22-26 | mounted: not initialized, no output, nothing compiled |
| Compile.UseCompile.RunEffect | src/pages/playground/useCompile.tsx:34-38 | once initialized, one compile with the current cwd, the fixed library directory and the current files, and its result becomes the output |
| Compile.UseCompile.InitResolved | src/pages/playground/useCompile.tsx:28-32 | the flag becomes true and never goes back; the first resolution compiles once, a repeated one compiles nothing; afterwards output is the result for the current props |
| Compile.UseCompile.PropsChanged | src/pages/playground/useCompile.tsx:34-38 | before readiness nothing is compiled and output stays undefined; after it, changed props compile once more, unchanged ones compile nothing |
| Compile.UseCompile.Result | src/pages/playground/useCompile.tsx:40 | the hook returns undefined exactly while not initialized, and otherwise the result for the latest `(cwd, files)` |
| Handlers.FromEntries | src/pages/playground/index.tsx:211 | `Object.fromEntries`: every entry's key is present and no other key is |
| Handlers.FromEntriesLastWins | src/pages/playground/index.tsx:211 | a later duplicate path overwrites an earlier one: a key's value is its last entry's |
| Handlers.CompileRequest | src/pages/playground/index.tsx:211-212 | the entries' map with `/lib.es5.d.ts` assigned over it: the library has the es5 text, and every other key keeps its entry's value |
| Handlers.LibraryWins | src/pages/playground/index.tsx:212 | a user file at `/lib.es5.d.ts` never reaches the compiler: the library text wins |
| Handlers.RequestHoldsEveryPath | src/pages/playground/index.tsx:211-212 | every other path reaches the compiler with the content of its last entry |
| Handlers.ErrorLines | src/pages/playground/index.tsx:216-223 | one formatted line per diagnostic, in the compiler's order |
| Handlers.ErrorsMessage | src/pages/playground/index.tsx:216-224 | `output.map(format).join('\n')` is "" exactly for an empty diagnostic list, and otherwise starts with the '[' of the first line |
| Handlers.ErrorsMessageLines | src/pages/playground/index.tsx:216-224 | the message has one line per diagnostic, in input order, and each line reads back as that diagnostic's file, start position and code |
| Handlers.AddedFilePath | src/pages/playground/index.tsx:115 | `/file{n+1}.ts` starts with '/' and has an extension |
| Handlers.AddedFilePathCount | src/pages/playground/index.tsx:115 | the digits between `/file` and `.ts` read back as the file count plus one |
| Handlers.AddedFilePathInjective | src/pages/playground/index.tsx:115 | two counts propose the same path only when they are equal, so a path comes back only when the count does |
| Handlers.NormalizedName | src/pages/playground/index.tsx:146-151 | a name with a dot is kept; otherwise `.json` is added for JSON files and `.ts` for the rest |
| Handlers.RenamePath | src/pages/playground/index.tsx:143-154 | no path exactly when the name trims to nothing; otherwise '/' plus the untrimmed, extended name |
| Handlers.ModelUri | src/pages/playground/index.tsx:166 | the URI is `file:` followed by the path |
| Handlers.ModelUriInjective | src/pages/playground/index.tsx:166 | distinct paths have distinct URIs |
| Handlers.ModelsAfterRename | src/pages/playground/index.tsx:164-177 | if the old URI had a model, it is disposed and one exists at the new URI; if not, nothing changes; every other live model stays, and no other model appears |
| Handlers.DeleteAsWritten | src/pages/playground/index.tsx:120-134 | the handler as written: unchanged exactly when at most one file; the new list is the filtered list; the new active id is the first remaining file's when the active file was deleted, and the old one otherwise; it throws exactly when the active file is deleted and nothing remains |
| Handlers.DeleteAsWrittenEmptiesList | src/pages/playground/index.tsx:120-134 | in isolation, two files that share an id other than the active one are both filtered out; no page state has such an active id (DeleteAsWrittenFromPageState) |
| Handlers.DeleteAsWrittenFromPageState | src/pages/playground/index.tsx:120-134 | while the active id names a file, the written handler never empties the list, and the new active id names a file: when nothing would remain it throws |
| Handlers.DeleteAsWrittenThrows | src/pages/playground/index.tsx:127-130 | two files that share the active id: the written handler reads `remainingFiles[0]` of an empty list |
| Handlers.DeleteFile | src/pages/playground/index.tsx:120-134 | the corrected handler: a non-empty list stays non-empty; with more than one file and something left after filtering, the list is the filtered one and the active id becomes the first remaining file's when the active file was deleted, and stays otherwise; in every other case nothing changes; an active id that named a file still names one |
| Handlers.DeleteFileAgreesWithWritten | src/pages/playground/index.tsx:120-134 | on every input where the written handler neither empties the list nor throws, the two agree |
| Playground.PathEntries | src/pages/playground/index.tsx:211 | `files.map(f => [f.path, f.content])`, pointwise |
| Playground.Request | src/pages/playground/index.tsx:211-212 | the request holds exactly the files' paths and the library; the library has the es5 text; a path held by one file only (or by several, the last one) maps to that file's content |
| Playground.RunOutput | src/pages/playground/index.tsx:215-229 | diagnostics give their joined lines; emitted output gives "no errors found" |
| Playground.RunOutputTellsShapesApart | src/pages/playground/index.tsx:215-229 | the pane says "no errors found" exactly when the compiler returned emitted output, even when the diagnostic list is empty |
| Playground.WithNewFile | src/pages/playground/index.tsx:114-117 | one file appended with id == path == `/file{n+1}.ts`, the placeholder content and TypeScript; earlier files unchanged |
| Playground.RenamedFiles | src/pages/playground/index.tsx:137-161 | unchanged for an unknown id or a blank name; otherwise only the first file with the id changes, and only its path, to '/' plus the extended name |
| Playground.Page.constructor | src/pages/playground/index.tsx:22-27 | the default files, empty panes, not loading, the first file active; at least one file, the active one among them |
| Playground.Page.SyncModels | src/pages/playground/index.tsx:46-64 | every file's URI has a live model afterwards; no model is removed |
| Playground.Page.AddNewFile | src/pages/playground/index.tsx:114-117 | the list becomes WithNewFile of the old one, with no collision check; the active file stays in the list |
| Playground.Page.DeleteFile | src/pages/playground/index.tsx:120-134 | list and active id become the corrected DeleteFile of the old ones; at least one file remains, the active one among them |
| Playground.Page.UpdateFileName | src/pages/playground/index.tsx:137-197 | the list becomes RenamedFiles; the live models change as ModelsAfterRename from the old path to the new one, only when the rename happens; the active file stays in the list |
| Playground.Page.RunCode | src/pages/playground/index.tsx:208-230 | when the compile returns, the output pane shows RunOutput of compiling the current files' request and the loading flag ends false; when it throws, the flag stays set and the pane keeps its text |
| Playground.DuplicateIdsReachable | src/pages/playground/index.tsx:114-134 | from the default files with `/index.ts` active, the written handlers add, delete `/index.ts`, add, delete `/tsconfig.json`, step by step, leaving two files with the active id `/file3.ts`; the written delete of it then throws, and the corrected one changes nothing |
| PlaygroundPage.InitialFiles | src/pages/PlaygroundPage.tsx:26-51 | two files with ids `file1` and `file2`, which differ from each other and from their paths |
| PlaygroundPage.WithNewFile | src/pages/PlaygroundPage.tsx:228-239 | one file appended with id `file{now}`, name `file{n+1}.ts` and path `/` + name; earlier files unchanged |
| PlaygroundPage.NewIdsDistinct | src/pages/PlaygroundPage.tsx:229 | distinct clock readings give distinct ids |
| PlaygroundPage.RenamedFiles | src/pages/PlaygroundPage.tsx:259-284 | unchanged for an unknown id or a blank name; otherwise only the first file with the id changes: name becomes the extended name and path '/' plus it; id, content and language stay |
| PlaygroundPage.InitialEntries | src/pages/PlaygroundPage.tsx:334 | the entries are the two initial files' paths and contents |
| PlaygroundPage.RequestIsFixed | src/pages/PlaygroundPage.tsx:334-335 | the request is always the two initial files plus the library, whatever the current files are |
| PlaygroundPage.Page.constructor | src/pages/PlaygroundPage.tsx:56-61 | the initial files, empty panes, not loading, `file1` active; at least one file, the active one among them |
| PlaygroundPage.Page.SyncModels | src/pages/PlaygroundPage.tsx:80-98 | every file's URI has a live model afterwards; no model is removed |
| PlaygroundPage.Page.AddNewFile | src/pages/PlaygroundPage.tsx:228-239 | the list becomes WithNewFile of the old one at the given clock reading; the active file stays in the list |
| PlaygroundPage.Page.DeleteFile | src/pages/PlaygroundPage.tsx:242-256 | list and active id become the corrected DeleteFile of the old ones; at least one file remains, the active one among them |
| PlaygroundPage.Page.UpdateFileName | src/pages/PlaygroundPage.tsx:259-320 | the list becomes RenamedFiles; the live models become ModelsAfterRenaming, which moves the renamed file's model from its old path to its new one only when the rename happens (RenameStep); the active file stays in the list |
| PlaygroundPage.Page.RunCode | src/pages/PlaygroundPage.tsx:331-353 | on diagnostics the output pane shows their lines; on emitted output only the JavaScript pane changes, to "hello world"; the loading flag then ends false; when the compile throws, the flag stays set and both panes keep their text |

## Left out

- The WebAssembly compiler (`boltts`, `compile`) is a foreign call. It is a function value here, so no type checking is modelled.
- The hook's test expectations (`const a: number = 42` gives JavaScript, `const a: string = 42` gives diagnostics) depend on that compiler, so they are not stated.
- Monaco is reduced to the set of live model URIs. Left out:
  - model text, `setValue`, `setModel`, `addExtraLib`, and the editor map `editorsRef`;
  - the throw `createModel` gives at a URI already in use;
  - `generateJsOutput`'s worker call and its regular-expression fallback;
  - `selectFileForJsOutput`, which sets the active id to the id of a rendered file card, and so to a file in the list, then calls `generateJsOutput`.
- The texts of `example.txt`, `index.ts.txt` and `es5.txt` are unknown, so they are parameters. `Date.now()` is a parameter too.
- The unused `compilerOptions` state, tab switching, scrolling and resizing, all JSX, `codeCard.tsx` and `EditorCard.tsx` are not part of this model.
- Internationalisation, routing, the static pages and the build configuration are not part of this model.
- Compile.UseCompile.PropsChanged: React compares the dependency list by reference. Here it is compared by value, so a new but equal `files` object does not recompile.
- The diagnostic code is text, as `useCompile.tsx` types it. In the pages' own annotation it is a number, but both print the same way in a template literal.
- Text.Trim: strings are sequences of Unicode scalar values, not UTF-16 code units. This makes no difference to `trim`, `includes` or `indexOf` on the characters used here.
- Playground.Page.DeleteFile: uses the corrected guard shown under Findings. The page as written throws on the duplicate-id delete; `Handlers.DeleteAsWritten` models that behaviour.
- PlaygroundPage.Page.DeleteFile: uses the same corrected guard. Its ids come from the clock, so duplicates need two additions in one millisecond.
- Request sequencing and stale-result discarding do not exist in the code, so they are not modelled.
- Compile.UseCompile.Result: the hook is observed only after its effects have run. In React the render right after `setIsInitialized(true)` still returns the old, undefined output, and a render with new props returns the previous output, until the effect's `setOutput` lands.
- Playground.Page.RunCode and PlaygroundPage.Page.RunCode: whether a compile throws is up to the compiler parameter. The pages call `compile` without waiting for `boltts()`, and nothing here says when loading has finished.
- Line and column are JavaScript numbers printed by the template literal. The model uses integers, so fractional, exponent, `NaN` and infinite forms are not covered.
- The request is a string-keyed object whose insertion order the compiler may iterate in. A Dafny `map` has no order, so that order is not modelled.

## Findings

| source | as written | input that shows it | evidently intended | confidence | as-written member | corrected member |
|---|---|---|---|---|---|---|
| src/pages/playground/index.tsx:120-134 | the guard `files.length <= 1` looks only at the count before filtering, and the active file is reselected as `remainingFiles[0].id` | from the default files: add (`/file3.ts`), delete `/index.ts`, add (`/file3.ts` again, since the count is back to 2), delete `/tsconfig.json`; two files now share the id `/file3.ts`, and deleting it, the active file, makes `remainingFiles[0].id` read a property of `undefined` and throw | "Don't allow deleting the last file": a delete that would leave nothing is refused, and no delete throws | not executed | Handlers.DeleteAsWritten (trace: Playground.DuplicateIdsReachable) | Handlers.DeleteFile |
