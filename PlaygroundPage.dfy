/**
  The older playground page (src/pages/PlaygroundPage.tsx). Its records carry
  a `name` beside the `path` and ids that are not paths (`file1`, `file2`,
  then `file{timestamp}`), and its `runCode` compiles the initial files rather
  than the current ones. The clock reading `Date.now()` is a parameter.
 */
module PlaygroundPage {

  import opened Wrappers
  import opened Text
  import Lists
  import opened Compile
  import opened Handlers
  import Documents

  /** `FileData` of this page; `language` is free text. */
  datatype PageFile = PageFile(id: string, name: string, path: string, content: string, language: string)

  function IdOf(f: PageFile): string {
    f.id
  }

  const INDEX_SOURCE: string :=
    "function greeting(name: string): string {\n  return `Hello, ${name}!`;\n}\ngreeting(42);\n"

  /** `initialFiles`. */
  function InitialFiles(): (files: seq<PageFile>)
    ensures |files| == 2
    ensures files[0].id == "file1" && files[0].path == "/index.ts" && files[0].name == "index.ts"
    ensures files[1].id == "file2" && files[1].path == "/tsconfig.json" && files[1].name == "tsconfig.json"
    ensures files[0].language == "typescript" && files[1].language == "json"
    ensures files[0].id != files[1].id
    ensures forall i :: 0 <= i < |files| ==> files[i].id != files[i].path
  {
    [ PageFile("file1", "index.ts", "/index.ts", INDEX_SOURCE, "typescript"),
      PageFile("file2", "tsconfig.json", "/tsconfig.json", Documents.TSCONFIG_SOURCE, "json") ]
  }

  /** The list after "Add new file" at clock reading `now`. */
  function WithNewFile(files: seq<PageFile>, now: nat): (r: seq<PageFile>)
    ensures |r| == |files| + 1 && r[..|files|] == files
    ensures r[|files|].id == "file" + NatToString(now)
    ensures r[|files|].path == AddedFilePath(|files|) && r[|files|].path == "/" + r[|files|].name
    ensures r[|files|].content == ADDED_FILE_CONTENT && r[|files|].language == "typescript"
  {
    var name := "file" + NatToString(|files| + 1) + ".ts";
    assert AddedFilePath(|files|) == "/" + name;
    files + [PageFile("file" + NatToString(now), name, "/" + name, ADDED_FILE_CONTENT, "typescript")]
  }

  /** Distinct clock readings give distinct ids. */
  lemma NewIdsDistinct(a: nat, b: nat)
    requires a != b
    ensures "file" + NatToString(a) != "file" + NatToString(b)
  {
    if "file" + NatToString(a) == "file" + NatToString(b) {
      assert NatToString(a) == ("file" + NatToString(a))[4..];
      IntToStringInjective(a, b);
    }
  }

  /** The list after `updateFileName`: only the first file with `fileId`
      changes, and in it only `name` and `path`. */
  function RenamedFiles(files: seq<PageFile>, fileId: string, newName: string): (r: seq<PageFile>)
    ensures |r| == |files|
    ensures forall k :: 0 <= k < |files| ==>
      r[k].id == files[k].id && r[k].content == files[k].content && r[k].language == files[k].language
    ensures (forall k :: 0 <= k < |files| ==> files[k].id != fileId) || IsBlank(newName) ==> r == files
    ensures forall k :: 0 <= k < |files| && r[k] != files[k] ==> Lists.IsFirstIndex(files, IdOf, fileId, k)
    ensures forall k :: Lists.IsFirstIndex(files, IdOf, fileId, k) && !IsBlank(newName) ==>
      && r[k].name == NormalizedName(newName, files[k].language == "json")
      && r[k].path == "/" + r[k].name
  {
    var fileIndex := Lists.FindIndex(files, IdOf, fileId);
    if fileIndex == -1 then files
    else
      match RenamePath(newName, files[fileIndex].language == "json")
      case None => files
      case Some(newPath) =>
        var name := NormalizedName(newName, files[fileIndex].language == "json");
        assert forall k :: Lists.IsFirstIndex(files, IdOf, fileId, k) ==> k == fileIndex by {
          forall k | Lists.IsFirstIndex(files, IdOf, fileId, k) ensures k == fileIndex {
            Lists.FirstIndexUnique(files, IdOf, fileId, k, fileIndex);
          }
        }
        files[fileIndex := files[fileIndex].(name := name, path := newPath)]
  }

  /** The live models after `updateFileName`: unchanged when no rename
      happens, otherwise the model at the renamed file's old path moves to its new one. */
  ghost function ModelsAfterRenaming(models: set<string>, files: seq<PageFile>, fileId: string, newName: string)
    : set<string>
  {
    var i := Lists.FindIndex(files, IdOf, fileId);
    if i == -1 || IsBlank(newName) then models
    else ModelsAfterRename(models, files[i].path, RenamedFiles(files, fileId, newName)[i].path)
  }

  /** A rename keeps every id, so the file selected for the JavaScript view stays in the list. */
  lemma RenamePreservesActive(files: seq<PageFile>, fileId: string, newName: string, active: string)
    requires ActivePresent(files, IdOf, active)
    ensures ActivePresent(RenamedFiles(files, fileId, newName), IdOf, active)
  {
    var i :| 0 <= i < |files| && IdOf(files[i]) == active;
    assert IdOf(RenamedFiles(files, fileId, newName)[i]) == active;
  }

  /** One call of `updateFileName` on a listed id: a blank name changes
      nothing; otherwise exactly the first file with `fileId` is replaced,
      and its model moves from the old path to the new one. */
  lemma RenameStep(files: seq<PageFile>, fileId: string, newName: string, models: set<string>)
    requires Lists.FindIndex(files, IdOf, fileId) != -1
    ensures IsBlank(newName) ==>
      RenamedFiles(files, fileId, newName) == files && ModelsAfterRenaming(models, files, fileId, newName) == models
    ensures !IsBlank(newName) ==>
      var i := Lists.FindIndex(files, IdOf, fileId);
      var name := NormalizedName(newName, files[i].language == "json");
      && RenamedFiles(files, fileId, newName) == files[i := files[i].(name := name, path := "/" + name)]
      && ModelsAfterRenaming(models, files, fileId, newName) == ModelsAfterRename(models, files[i].path, "/" + name)
  {
  }

  /** `initialFiles.map(f => [f.path, f.content])`. */
  function InitialEntries(): (entries: seq<(string, string)>)
    ensures entries == [("/index.ts", INDEX_SOURCE), ("/tsconfig.json", Documents.TSCONFIG_SOURCE)]
  {
    var files := InitialFiles();
    seq(|files|, i requires 0 <= i < |files| => (files[i].path, files[i].content))
  }

  /** The request `runCode` sends: the two initial files and the library,
      whatever the current files are. */
  lemma RequestIsFixed(es5: string)
    ensures CompileRequest(InitialEntries(), es5)
         == map["/index.ts" := INDEX_SOURCE, "/tsconfig.json" := Documents.TSCONFIG_SOURCE, LIB_ES5_PATH := es5]
  {
    var m := CompileRequest(InitialEntries(), es5);
    var entries := InitialEntries();
    assert entries[..1] == [("/index.ts", INDEX_SOURCE)] && entries[..1][..0] == [];
    assert FromEntries(entries) == map["/index.ts" := INDEX_SOURCE, "/tsconfig.json" := Documents.TSCONFIG_SOURCE];
  }

  /** The page's state; at least one file at all times, one of them selected
      for the JavaScript view. */
  class Page {
    const compile: PageCompiler
    const es5: string
    var files: seq<PageFile>
    var output: string
    var jsOutput: string
    var isLoading: bool
    var activeFileForJs: string
    /** URIs of the editor models that are alive. */
    ghost var liveModels: set<string>

    ghost predicate Valid()
      reads this
    {
      |files| >= 1 && ActivePresent(files, IdOf, activeFileForJs)
    }

    constructor (compile: PageCompiler, es5: string)
      ensures Valid()
      ensures this.compile == compile && this.es5 == es5
      ensures files == InitialFiles()
      ensures output == "" && jsOutput == "" && !isLoading
      ensures activeFileForJs == "file1"
      ensures liveModels == {}
    {
      this.compile := compile;
      this.es5 := es5;
      files := InitialFiles();
      output := "";
      jsOutput := "";
      isLoading := false;
      activeFileForJs := InitialFiles()[0].id;
      liveModels := {};
    }

    /** The effect that gives every file a model once the editor is loaded. */
    ghost method SyncModels()
      modifies this`liveModels
      ensures liveModels == old(liveModels) + set i | 0 <= i < |files| :: ModelUri(files[i].path)
    {
      liveModels := liveModels + set i | 0 <= i < |files| :: ModelUri(files[i].path);
    }

    /** `addNewFile` at clock reading `now`. */
    method AddNewFile(now: nat)
      requires Valid()
      modifies this`files
      ensures Valid()
      ensures files == WithNewFile(old(files), now)
    {
      var newId := "file" + NatToString(now);
      var name := "file" + NatToString(|files| + 1) + ".ts";
      var newFile := PageFile(newId, name, "/" + name, ADDED_FILE_CONTENT, "typescript");
      var i :| 0 <= i < |files| && IdOf(files[i]) == activeFileForJs;
      files := files + [newFile];
      assert IdOf(files[i]) == activeFileForJs;
    }

    /** `deleteFile`, with the list never emptied. */
    method DeleteFile(fileId: string)
      requires Valid()
      modifies this`files, this`activeFileForJs
      ensures Valid()
      ensures (files, activeFileForJs) == Handlers.DeleteFile(old(files), IdOf, old(activeFileForJs), fileId)
    {
      var r := Handlers.DeleteFile(files, IdOf, activeFileForJs, fileId);
      files, activeFileForJs := r.0, r.1;
    }

    /** `updateFileName`: sets `name` and `path` of the first file with
        `fileId`; the old model, if alive, is disposed before one is created at
        the new path. */
    method UpdateFileName(fileId: string, newName: string)
      requires Valid()
      modifies this`files, this`liveModels
      ensures Valid()
      ensures files == RenamedFiles(old(files), fileId, newName)
      ensures liveModels == ModelsAfterRenaming(old(liveModels), old(files), fileId, newName)
    {
      var fileIndex := Lists.FindIndex(files, IdOf, fileId);
      if fileIndex != -1 {
        var updatedFiles := files;
        if Trim(newName) == "" {
          RenameStep(files, fileId, newName, liveModels);
          return;
        }
        var name := NormalizedName(newName, updatedFiles[fileIndex].language == "json");
        var newPath := "/" + name;
        var oldPath := updatedFiles[fileIndex].path;
        RenameStep(files, fileId, newName, liveModels);
        RenamePreservesActive(files, fileId, newName, activeFileForJs);
        updatedFiles := updatedFiles[fileIndex := updatedFiles[fileIndex].(name := name, path := newPath)];
        liveModels := ModelsAfterRename(liveModels, oldPath, newPath);
        files := updatedFiles;
      }
    }

    /** `runCode`: compiles the initial files with the library. On diagnostics
        the output pane gets their lines; otherwise only the JavaScript pane
        changes, to "hello world", and the output pane keeps its old text. The
        loading flag is then cleared, unless the compile throws: then the flag
        stays set and both panes keep their text. */
    method RunCode()
      modifies this`output, this`jsOutput, this`isLoading
      ensures var thrown := compile("/", CompileRequest(InitialEntries(), es5));
        && (thrown.None? ==> isLoading && output == old(output) && jsOutput == old(jsOutput))
        && (thrown.Some? ==> !isLoading)
        && (thrown.Some? && thrown.value.CompileErrors? ==>
              output == ErrorsMessage(thrown.value.errors) && jsOutput == old(jsOutput))
        && (thrown.Some? && thrown.value.JsOutput? ==> output == old(output) && jsOutput == "hello world")
    {
      isLoading := true;
      var request := FromEntries(InitialEntries());
      request := request[LIB_ES5_PATH := es5];
      var thrown := compile("/", request);
      if thrown.None? {
        return;
      }
      var result := thrown.value;
      if result.CompileErrors? {
        output := ErrorsMessage(result.errors);
      } else {
        jsOutput := "hello world";
      }
      isLoading := false;
    }
  }
}
