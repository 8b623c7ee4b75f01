/**
  The playground page (src/pages/playground/index.tsx): its file list, the
  output pane's text, the loading flag and the file selected for the
  JavaScript view, and the handlers that change them.

  The editor library is reduced to the set of `file:` URIs that have a live
  model, kept as ghost state so that a rename's dispose-then-create can be
  stated. The compiler is a function value given at construction, as is the
  text of the bundled `es5.txt`.
 */
module Playground {

  import opened Wrappers
  import opened Text
  import Lists
  import opened Documents
  import opened DefaultCase
  import opened Compile
  import opened Handlers

  /** `files.map(f => [f.path, f.content])`. */
  function PathEntries(files: seq<FileData>): (entries: seq<(string, string)>)
    ensures |entries| == |files|
    ensures forall i :: 0 <= i < |files| ==> entries[i] == (files[i].path, files[i].content)
  {
    seq(|files|, i requires 0 <= i < |files| => (files[i].path, files[i].content))
  }

  /** The request `runCode` sends: every file's path, the last file at a path
      winning, then the ES5 library over it. */
  function Request(files: seq<FileData>, es5: string): (m: map<string, string>)
    ensures LIB_ES5_PATH in m && m[LIB_ES5_PATH] == es5
    ensures forall k :: k in m <==> k == LIB_ES5_PATH || exists i :: 0 <= i < |files| && files[i].path == k
    ensures forall i :: 0 <= i < |files| && files[i].path != LIB_ES5_PATH
                         && (forall j :: i < j < |files| ==> files[j].path != files[i].path) ==>
      m[files[i].path] == files[i].content
  {
    var entries := PathEntries(files);
    assert forall k :: k in FromEntries(entries) <==> exists i :: 0 <= i < |files| && files[i].path == k by {
      forall k ensures k in FromEntries(entries) <==> exists i :: 0 <= i < |files| && files[i].path == k {
        if k in FromEntries(entries) {
          var i :| 0 <= i < |entries| && entries[i].0 == k;
          assert files[i].path == k;
        }
      }
    }
    forall i | 0 <= i < |files| && (forall j :: i < j < |files| ==> files[j].path != files[i].path)
      ensures FromEntries(entries)[entries[i].0] == entries[i].1
    {
      FromEntriesLastWins(entries, i);
    }
    CompileRequest(entries, es5)
  }

  /** The text the output pane shows after a compile. */
  function RunOutput(result: CompileOutput): (text: string)
    ensures result.CompileErrors? ==> text == ErrorsMessage(result.errors)
    ensures result.JsOutput? ==> text == "no errors found"
  {
    match result
    case CompileErrors(errors) => ErrorsMessage(errors)
    case JsOutput(_) => "no errors found"
  }

  /** The pane says "no errors found" exactly when the compiler returned output
      rather than a diagnostic array, even an empty one. */
  lemma RunOutputTellsShapesApart(result: CompileOutput)
    ensures RunOutput(result) == "no errors found" <==> result.JsOutput?
  {
  }

  /** The list after "Add new file": one file appended, earlier ones untouched. */
  function WithNewFile(files: seq<FileData>): (r: seq<FileData>)
    ensures |r| == |files| + 1 && r[..|files|] == files
    ensures r[|files|].id == r[|files|].path == AddedFilePath(|files|)
    ensures r[|files|].content == ADDED_FILE_CONTENT && r[|files|].language == TypeScript
  {
    files + [NewFile(AddedFilePath(|files|), ADDED_FILE_CONTENT, TypeScript)]
  }

  /** The list after `updateFileName`: only the path of the first file with
      `fileId` changes, and only when such a file exists and the name is not blank. */
  function RenamedFiles(files: seq<FileData>, fileId: string, newName: string): (r: seq<FileData>)
    ensures |r| == |files|
    ensures forall k :: 0 <= k < |files| ==>
      r[k].id == files[k].id && r[k].content == files[k].content && r[k].language == files[k].language
    ensures (forall k :: 0 <= k < |files| ==> files[k].id != fileId) || IsBlank(newName) ==> r == files
    ensures forall k :: 0 <= k < |files| && r[k] != files[k] ==> Lists.IsFirstIndex(files, IdOf, fileId, k)
    ensures forall k :: Lists.IsFirstIndex(files, IdOf, fileId, k) && !IsBlank(newName) ==>
      r[k].path == "/" + NormalizedName(newName, files[k].language == Json)
  {
    var fileIndex := Lists.FindIndex(files, IdOf, fileId);
    if fileIndex == -1 then files
    else
      match RenamePath(newName, files[fileIndex].language == Json)
      case None => files
      case Some(newPath) =>
        assert forall k :: Lists.IsFirstIndex(files, IdOf, fileId, k) ==> k == fileIndex by {
          forall k | Lists.IsFirstIndex(files, IdOf, fileId, k) ensures k == fileIndex {
            Lists.FirstIndexUnique(files, IdOf, fileId, k, fileIndex);
          }
        }
        files[fileIndex := files[fileIndex].(path := newPath)]
  }

  /** A rename keeps every id, so the file selected for the JavaScript view stays in the list. */
  lemma RenamePreservesActive(files: seq<FileData>, fileId: string, newName: string, active: string)
    requires ActivePresent(files, IdOf, active)
    ensures ActivePresent(RenamedFiles(files, fileId, newName), IdOf, active)
  {
    var i :| 0 <= i < |files| && IdOf(files[i]) == active;
    assert IdOf(RenamedFiles(files, fileId, newName)[i]) == active;
  }

  /** A rename that happens replaces exactly the first file with `fileId`. */
  lemma RenamedFilesAt(files: seq<FileData>, fileId: string, newName: string)
    requires Lists.FindIndex(files, IdOf, fileId) != -1 && !IsBlank(newName)
    ensures var i := Lists.FindIndex(files, IdOf, fileId);
      RenamedFiles(files, fileId, newName)
        == files[i := files[i].(path := "/" + NormalizedName(newName, files[i].language == Json))]
  {
  }

  /**
    The page's state. `Valid` is the guarantee the delete handler exists to
    give, that there is always at least one file, and that the file selected
    for the JavaScript view is one of them.
   */
  class Page {
    const compile: PageCompiler
    const es5: string
    var files: seq<FileData>
    var output: string
    var jsOutput: string
    var isLoading: bool
    var activeFileForJs: string
    /** URIs of the editor models that are alive. */
    ghost var liveModels: set<string>

    ghost predicate Valid()
      reads this
    {
      |files| >= 1 && ActivePresent(files, IdOf, activeFileForJs)
    }

    /** The initial state; `exampleSource` is the bundled `example.txt`. */
    constructor (compile: PageCompiler, es5: string, exampleSource: string)
      ensures Valid()
      ensures this.compile == compile && this.es5 == es5
      ensures files == DefaultFiles(exampleSource)
      ensures output == "" && jsOutput == "" && !isLoading
      ensures activeFileForJs == files[0].id == "/index.ts"
      ensures liveModels == {}
    {
      this.compile := compile;
      this.es5 := es5;
      files := DefaultFiles(exampleSource);
      output := "";
      jsOutput := "";
      isLoading := false;
      activeFileForJs := DefaultFiles(exampleSource)[0].id;
      liveModels := {};
    }

    /** The effect that gives every file a model once the editor is loaded. */
    ghost method SyncModels()
      modifies this`liveModels
      ensures liveModels == old(liveModels) + set i | 0 <= i < |files| :: ModelUri(files[i].path)
    {
      liveModels := liveModels + set i | 0 <= i < |files| :: ModelUri(files[i].path);
    }

    /** `addNewFile`: appends `/file{n+1}.ts` without looking for a file already at that path. */
    method AddNewFile()
      requires Valid()
      modifies this`files
      ensures Valid()
      ensures files == WithNewFile(old(files))
    {
      var next := NewFile(AddedFilePath(|files|), ADDED_FILE_CONTENT, TypeScript);
      var i :| 0 <= i < |files| && IdOf(files[i]) == activeFileForJs;
      files := files + [next];
      assert IdOf(files[i]) == activeFileForJs;
    }

    /** `deleteFile`, with the list never emptied; the editor model of the
        deleted file stays alive, as in the source. */
    method DeleteFile(fileId: string)
      requires Valid()
      modifies this`files, this`activeFileForJs
      ensures Valid()
      ensures (files, activeFileForJs) == Handlers.DeleteFile(old(files), IdOf, old(activeFileForJs), fileId)
    {
      var r := Handlers.DeleteFile(files, IdOf, activeFileForJs, fileId);
      files, activeFileForJs := r.0, r.1;
    }

    /** `updateFileName`: the list as RenamedFiles gives it; the old model, if
        alive, is disposed before one is created at the new path. */
    method UpdateFileName(fileId: string, newName: string)
      requires Valid()
      modifies this`files, this`liveModels
      ensures Valid()
      ensures files == RenamedFiles(old(files), fileId, newName)
      ensures var i := Lists.FindIndex(old(files), IdOf, fileId);
        liveModels == if i == -1 || IsBlank(newName) then old(liveModels)
                      else ModelsAfterRename(old(liveModels), old(files)[i].path, files[i].path)
    {
      var fileIndex := Lists.FindIndex(files, IdOf, fileId);
      if fileIndex != -1 {
        var updatedFiles := files;
        if Trim(newName) == "" {
          return;
        }
        var newPath := "/" + NormalizedName(newName, updatedFiles[fileIndex].language == Json);
        var oldPath := updatedFiles[fileIndex].path;
        RenamedFilesAt(files, fileId, newName);
        RenamePreservesActive(files, fileId, newName, activeFileForJs);
        updatedFiles := updatedFiles[fileIndex := updatedFiles[fileIndex].(path := newPath)];
        liveModels := ModelsAfterRename(liveModels, oldPath, newPath);
        files := updatedFiles;
      }
    }

    /** `runCode`: compiles the current files with the library and shows the
        diagnostics or "no errors found", then clears the loading flag. A
        compile that throws leaves the flag set and the output pane as it was. */
    method RunCode()
      modifies this`output, this`isLoading
      ensures var result := compile("/", Request(files, es5));
        && (result.None? ==> isLoading && output == old(output))
        && (result.Some? ==> !isLoading && output == RunOutput(result.value))
    {
      isLoading := true;
      var compileFiles := FromEntries(PathEntries(files));
      compileFiles := compileFiles[LIB_ES5_PATH := es5];
      var thrown := compile("/", compileFiles);
      if thrown.None? {
        return;
      }
      var result := thrown.value;
      if result.CompileErrors? {
        output := ErrorsMessage(result.errors);
      } else {
        output := "no errors found";
      }
      isLoading := false;
    }
  }

  /**
    From the default files, with `/index.ts` active, the handlers as written
    reach two files that share one id: add (`/file3.ts`), delete `/index.ts`,
    add (`/file3.ts` again, the count being back to two), delete
    `/tsconfig.json`. Deleting `/file3.ts`, the active file, then throws; the
    corrected handler leaves the state as it is.
   */
  lemma {:induction false} DuplicateIdsReachable(exampleSource: string)
    ensures
      var s0 := DefaultFiles(exampleSource);
      var f3 := NewFile("/file3.ts", ADDED_FILE_CONTENT, TypeScript);
      && WithNewFile(s0) == [s0[0], s0[1], f3]
      && DeleteAsWritten(WithNewFile(s0), IdOf, "/index.ts", "/index.ts") == Removed([s0[1], f3], "/tsconfig.json")
      && WithNewFile([s0[1], f3]) == [s0[1], f3, f3]
      && DeleteAsWritten([s0[1], f3, f3], IdOf, "/tsconfig.json", "/tsconfig.json") == Removed([f3, f3], "/file3.ts")
      && DeleteAsWritten([f3, f3], IdOf, "/file3.ts", "/file3.ts") == Threw
      && Handlers.DeleteFile([f3, f3], IdOf, "/file3.ts", "/file3.ts") == ([f3, f3], "/file3.ts")
  {
    var s0 := DefaultFiles(exampleSource);
    assert NatToString(3) == "3";
    assert AddedFilePath(2) == "/file3.ts";
    var f3 := NewFile("/file3.ts", ADDED_FILE_CONTENT, TypeScript);
    var s1 := WithNewFile(s0);
    assert s1 == [s0[0], s0[1], f3];
    assert Lists.WithoutKey(s1, IdOf, "/index.ts") == [s0[1], f3] by {
      assert s1[1..] == [s0[1], f3] && s1[1..][1..] == [f3] && s1[1..][1..][1..] == [];
    }
    var s3 := WithNewFile([s0[1], f3]);
    assert s3 == [s0[1], f3, f3];
    assert Lists.WithoutKey(s3, IdOf, "/tsconfig.json") == [f3, f3] by {
      assert s3[1..] == [f3, f3] && s3[1..][1..] == [f3] && s3[1..][1..][1..] == [];
    }
    DeleteAsWrittenThrows(f3, f3, IdOf);
    assert [f3, f3][1..] == [f3] && [f3][1..] == [];
  }
}
