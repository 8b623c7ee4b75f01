/**
  The logic that src/pages/playground/index.tsx and its older routed copy
  src/pages/PlaygroundPage.tsx each write out in the same words: building the
  compile request, formatting diagnostics, normalising a new file name, and
  deleting a file while keeping one selected for the JavaScript view.
 */
module Handlers {

  import opened Wrappers
  import opened Text
  import Lists
  import opened Compile

  /** The key under which the bundled ES5 declarations join every request. */
  const LIB_ES5_PATH: string := "/lib.es5.d.ts"

  /** The content of a file made by "Add new file". */
  const ADDED_FILE_CONTENT: string := "// Add your code here"

  /** `compile('/', files)` as the pages call it, with no readiness gate in
      front: `None` stands for a call that throws, for instance before the
      WebAssembly module has loaded. */
  type PageCompiler = (string, map<string, string>) -> Option<CompileOutput>

  // ---------------------------------------------------------------------------
  // The compile request

  /** `Object.fromEntries(entries)`: keys are inserted left to right, so a later
      entry with the same key overwrites an earlier one (FromEntriesLastWins). */
  function FromEntries(entries: seq<(string, string)>): (m: map<string, string>)
    ensures forall i :: 0 <= i < |entries| ==> entries[i].0 in m
    ensures forall k :: k in m ==> exists i :: 0 <= i < |entries| && entries[i].0 == k
  {
    if |entries| == 0 then map[]
    else
      var init := entries[..|entries| - 1];
      var last := entries[|entries| - 1];
      var r := FromEntries(init)[last.0 := last.1];
      assert forall i :: 0 <= i < |init| ==> init[i] == entries[i];
      assert forall k :: k in r ==> exists i :: 0 <= i < |entries| && entries[i].0 == k by {
        forall k | k in r ensures exists i :: 0 <= i < |entries| && entries[i].0 == k {
          if k == last.0 {
            assert entries[|entries| - 1].0 == k;
          } else {
            var i :| 0 <= i < |init| && init[i].0 == k;
            assert entries[i].0 == k;
          }
        }
      }
      r
  }

  /** A key's value is the one of its last entry. */
  lemma {:induction false} FromEntriesLastWins(entries: seq<(string, string)>, i: nat)
    requires i < |entries|
    requires forall j :: i < j < |entries| ==> entries[j].0 != entries[i].0
    ensures FromEntries(entries)[entries[i].0] == entries[i].1
  {
    if i < |entries| - 1 {
      var init := entries[..|entries| - 1];
      assert init[i] == entries[i];
      assert forall j :: i < j < |init| ==> init[j] == entries[j];
      FromEntriesLastWins(init, i);
    }
  }

  /** The request map: the entries, then the ES5 library assigned over them. */
  function CompileRequest(entries: seq<(string, string)>, es5: string): (m: map<string, string>)
    ensures LIB_ES5_PATH in m && m[LIB_ES5_PATH] == es5
    ensures forall k :: k in m <==> k == LIB_ES5_PATH || k in FromEntries(entries)
    ensures forall k :: k in FromEntries(entries) && k != LIB_ES5_PATH ==> m[k] == FromEntries(entries)[k]
  {
    var files := FromEntries(entries);
    files[LIB_ES5_PATH := es5]
  }

  /** A user file at the library path never reaches the compiler: the library wins. */
  lemma LibraryWins(entries: seq<(string, string)>, es5: string, i: nat)
    requires i < |entries| && entries[i].0 == LIB_ES5_PATH
    ensures CompileRequest(entries, es5)[entries[i].0] == es5
    ensures entries[i].1 != es5 ==> CompileRequest(entries, es5)[entries[i].0] != entries[i].1
  {
  }

  /** Every user path reaches the compiler with the content of its last entry. */
  lemma RequestHoldsEveryPath(entries: seq<(string, string)>, es5: string, i: nat)
    requires i < |entries| && entries[i].0 != LIB_ES5_PATH
    requires forall j :: i < j < |entries| ==> entries[j].0 != entries[i].0
    ensures entries[i].0 in CompileRequest(entries, es5)
    ensures CompileRequest(entries, es5)[entries[i].0] == entries[i].1
  {
    FromEntriesLastWins(entries, i);
  }

  // ---------------------------------------------------------------------------
  // Diagnostics

  /** Each diagnostic formatted, in the compiler's order. */
  function ErrorLines(errors: seq<CompileError>): (lines: seq<string>)
    ensures |lines| == |errors|
    ensures forall i :: 0 <= i < |errors| ==> lines[i] == ErrorOutputFromCompileError(errors[i])
  {
    seq(|errors|, i requires 0 <= i < |errors| => ErrorOutputFromCompileError(errors[i]))
  }

  /** `output.map(format).join('\n')`: "" for no diagnostics, otherwise text
      starting with the '[' of the first line. */
  function ErrorsMessage(errors: seq<CompileError>): (s: string)
    ensures errors == [] <==> s == ""
    ensures errors != [] ==> s[0] == '['
  {
    if errors == [] then ""
    else
      JoinStartsWithFirst(ErrorLines(errors), '\n');
      Join(ErrorLines(errors), '\n')
  }

  lemma JoinStartsWithFirst(parts: seq<string>, sep: char)
    requires |parts| > 0 && |parts[0]| > 0
    ensures |Join(parts, sep)| > 0 && Join(parts, sep)[0] == parts[0][0]
  {
  }

  /** The message has one line per diagnostic, in input order, each reading back
      as that diagnostic's file, start position and code, as long as no file
      name or code holds a line break and no file name holds ':'. */
  lemma ErrorsMessageLines(errors: seq<CompileError>)
    requires |errors| > 0
    requires forall i :: 0 <= i < |errors| ==> '\n' !in errors[i].filename && '\n' !in errors[i].code
    ensures Split(ErrorsMessage(errors), '\n') == ErrorLines(errors)
    ensures forall i :: 0 <= i < |errors| && ':' !in errors[i].filename ==>
      ParseErrorOutput(Split(ErrorsMessage(errors), '\n')[i])
        == Some(Location(errors[i].filename, errors[i].start.line, errors[i].start.column, errors[i].code))
  {
    var lines := ErrorLines(errors);
    forall i | 0 <= i < |errors| ensures '\n' !in lines[i] {
      ErrorOutputSingleLine(errors[i]);
    }
    SplitJoin(lines, '\n');
    forall i | 0 <= i < |errors| && ':' !in errors[i].filename
      ensures ParseErrorOutput(lines[i])
        == Some(Location(errors[i].filename, errors[i].start.line, errors[i].start.column, errors[i].code))
    {
      ErrorOutputRoundTrip(errors[i]);
    }
  }

  // ---------------------------------------------------------------------------
  // File names

  /** The path "Add new file" proposes when the list holds `count` files. */
  function AddedFilePath(count: nat): (path: string)
    ensures |path| > 0 && path[0] == '/' && '.' in path
  {
    var path := "/file" + NatToString(count + 1) + ".ts";
    assert path[|path| - 3] == '.';
    path
  }

  /** The digits of the proposed path read back as the count plus one. */
  lemma AddedFilePathCount(count: nat)
    ensures var path := AddedFilePath(count);
      5 <= |path| - 3 && ParseInt(path[5..|path| - 3]) == Some(count + 1)
  {
    var path := AddedFilePath(count);
    assert path[5..|path| - 3] == NatToString(count + 1);
    IntToStringRoundTrip(count + 1);
  }

  /** Different counts propose different paths, so a proposed path is reused
      only when the count comes back to an earlier value. */
  lemma AddedFilePathInjective(a: nat, b: nat)
    requires AddedFilePath(a) == AddedFilePath(b)
    ensures a == b
  {
    AddedFilePathCount(a);
    AddedFilePathCount(b);
  }

  /** The name after the extension step: unchanged when it has a '.', else
      `.json` or `.ts` appended according to the file's language. */
  function NormalizedName(newName: string, isJson: bool): (name: string)
    ensures '.' in name
    ensures '.' in newName ==> name == newName
    ensures '.' !in newName ==> name == newName + (if isJson then ".json" else ".ts")
  {
    if '.' in newName then newName
    else
      var name := newName + (if isJson then ".json" else ".ts");
      assert name[|newName|] == '.';
      name
  }

  /** The path a rename to `newName` gives: none when the name trims to nothing,
      otherwise '/' followed by the untrimmed, extended name. */
  function RenamePath(newName: string, isJson: bool): (path: Option<string>)
    ensures path == None <==> IsBlank(newName)
    ensures path.Some? ==> path.value == "/" + NormalizedName(newName, isJson)
    ensures path.Some? ==> path.value[0] == '/' && '.' in path.value
  {
    if Trim(newName) == "" then None else Some("/" + NormalizedName(newName, isJson))
  }

  // ---------------------------------------------------------------------------
  // Editor models

  /** The URI the editor keeps a file's model under: `file:` then the path. */
  function ModelUri(path: string): (uri: string)
    ensures |uri| == |path| + 5 && uri[5..] == path
  {
    "file:" + path
  }

  /** Distinct paths have distinct URIs. */
  lemma ModelUriInjective(p: string, q: string)
    requires p != q
    ensures ModelUri(p) != ModelUri(q)
  {
    assert ModelUri(p)[5..] == p && ModelUri(q)[5..] == q;
  }

  /** The live models after a rename from `oldPath` to `newPath`: the old one
      disposed and a new one created, only if there was an old one. */
  ghost function ModelsAfterRename(models: set<string>, oldPath: string, newPath: string): (r: set<string>)
    ensures ModelUri(oldPath) !in models ==> r == models
    ensures ModelUri(oldPath) in models ==> ModelUri(newPath) in r
    ensures ModelUri(oldPath) in models && ModelUri(newPath) != ModelUri(oldPath) ==> ModelUri(oldPath) !in r
    ensures forall u :: u in r && u != ModelUri(newPath) ==> u in models
    ensures forall u :: u in models && u != ModelUri(oldPath) ==> u in r
  {
    if ModelUri(oldPath) in models then models - {ModelUri(oldPath)} + {ModelUri(newPath)} else models
  }

  // ---------------------------------------------------------------------------
  // Deleting a file

  /** What the delete handler as written does. */
  datatype DeleteOutcome<T> =
    | Unchanged                                  // the guard returned early
    | Removed(files: seq<T>, active: string)     // new list and active id
    | Threw                                      // `remainingFiles[0].id` on an empty list

  /** `deleteFile` as the pages write it: the guard looks only at the current
      count, so a list whose files all carry `fileId` is emptied, or the
      handler throws when the active file is among them. */
  function DeleteAsWritten<T(==)>(files: seq<T>, idOf: T -> string, active: string, fileId: string)
    : (r: DeleteOutcome<T>)
    ensures |files| <= 1 <==> r == Unchanged
    ensures r.Removed? ==> r.files == Lists.WithoutKey(files, idOf, fileId)
    ensures r.Threw? <==> |files| > 1 && fileId == active && Lists.WithoutKey(files, idOf, fileId) == []
    ensures r.Removed? ==> r.active == if fileId == active then idOf(r.files[0]) else active
  {
    if |files| <= 1 then Unchanged
    else
      var remaining := Lists.WithoutKey(files, idOf, fileId);
      if fileId == active then
        if |remaining| == 0 then Threw else Removed(remaining, idOf(remaining[0]))
      else
        Removed(remaining, active)
  }

  /** All files share one id: deleting that id empties the list. */
  lemma DeleteAsWrittenEmptiesList<T>(x: T, y: T, idOf: T -> string, active: string)
    requires idOf(x) == idOf(y) != active
    ensures DeleteAsWritten([x, y], idOf, active, idOf(x)) == Removed([], active)
  {
    assert [x, y][1..] == [y] && [y][1..] == [];
    assert Lists.WithoutKey([y], idOf, idOf(x)) == [];
  }

  /** All files share the active id: the reselection reads past the end. */
  lemma DeleteAsWrittenThrows<T>(x: T, y: T, idOf: T -> string)
    requires idOf(x) == idOf(y)
    ensures DeleteAsWritten([x, y], idOf, idOf(x), idOf(x)) == Threw
  {
    assert [x, y][1..] == [y];
  }

  /** Some file of `files` carries the id `active`. */
  predicate ActivePresent<T>(files: seq<T>, idOf: T -> string, active: string) {
    exists i :: 0 <= i < |files| && idOf(files[i]) == active
  }

  /** While the active id names a file, as the pages keep it, the written
      handler never empties the list: when nothing would remain it throws. */
  lemma DeleteAsWrittenFromPageState<T>(files: seq<T>, idOf: T -> string, active: string, fileId: string)
    requires ActivePresent(files, idOf, active)
    ensures var r := DeleteAsWritten(files, idOf, active, fileId);
      r.Removed? ==> r.files != [] && ActivePresent(r.files, idOf, r.active)
  {
    var r := DeleteAsWritten(files, idOf, active, fileId);
    if r.Removed? && fileId != active {
      var i :| 0 <= i < |files| && idOf(files[i]) == active;
      assert files[i] in r.files;
      var j :| 0 <= j < |r.files| && r.files[j] == files[i];
    }
  }

  /** `deleteFile` with the guard the comment "Don't allow deleting the last
      file" intends: nothing happens when the list would end up empty. The
      result is the new list and the new active id. */
  function DeleteFile<T(==)>(files: seq<T>, idOf: T -> string, active: string, fileId: string)
    : (r: (seq<T>, string))
    ensures |files| >= 1 ==> |r.0| >= 1
    ensures r.0 == files || r.0 == Lists.WithoutKey(files, idOf, fileId)
    ensures |files| <= 1 || Lists.WithoutKey(files, idOf, fileId) == [] ==> r == (files, active)
    ensures fileId != active ==> r.1 == active
    ensures |files| > 1 && Lists.WithoutKey(files, idOf, fileId) != [] ==>
      r.0 == Lists.WithoutKey(files, idOf, fileId) && r.1 == (if fileId == active then idOf(r.0[0]) else active)
    ensures ActivePresent(files, idOf, active) && |r.0| > 0 ==> ActivePresent(r.0, idOf, r.1)
  {
    var remaining := Lists.WithoutKey(files, idOf, fileId);
    if |files| <= 1 || |remaining| == 0 then (files, active)
    else
      var r := (remaining, if fileId == active then idOf(remaining[0]) else active);
      assert ActivePresent(files, idOf, active) ==> ActivePresent(r.0, idOf, r.1) by {
        if fileId == active {
          assert idOf(r.0[0]) == r.1;
        } else if ActivePresent(files, idOf, active) {
          var i :| 0 <= i < |files| && idOf(files[i]) == active;
          assert files[i] in remaining;
          var j :| 0 <= j < |remaining| && remaining[j] == files[i];
        }
      }
      r
  }

  /** The corrected handler does what the written one does on every input the
      written one handles without emptying the list or throwing. */
  lemma DeleteFileAgreesWithWritten<T>(files: seq<T>, idOf: T -> string, active: string, fileId: string)
    requires |files| <= 1 || Lists.WithoutKey(files, idOf, fileId) != []
    ensures var r := DeleteFile(files, idOf, active, fileId);
      DeleteAsWritten(files, idOf, active, fileId)
        == if |files| <= 1 then Unchanged else Removed(r.0, r.1)
  {
  }
}
