/**
  The compiler boundary and the `useCompile` hook (src/pages/playground/useCompile.tsx).

  The WebAssembly compiler is not modelled: it is a function value supplied
  from outside, from the working directory, the library directory and the
  `path -> content` file map to a `CompileOutput`. That output is either the
  emitted JavaScript as a map, or an array of diagnostics; callers tell the
  two apart by shape (`Array.isArray`), which the datatype's two constructors
  stand for.
 */
module Compile {

  import opened Wrappers
  import opened Text

  /** A `[line, column]` pair. */
  datatype Position = Position(line: int, column: int)

  /** `CompileError`: `[filename, [startLine, startColumn], [endLine, endColumn], code]`. */
  datatype CompileError = CompileError(filename: string, start: Position, end: Position, code: string)

  /** `CompileOutput = JsOutput | CompileErrors`. */
  datatype CompileOutput = JsOutput(emitted: map<string, string>) | CompileErrors(errors: seq<CompileError>)

  /** `compile(cwd, libDir, files)` as the hook calls it. */
  type Compiler = (string, string, map<string, string>) -> CompileOutput

  const DEFAULT_LIB_DIR: string := "/node_modules/typescript/lib"

  /** `errorOutputFromCompileError`: `[filename:startLine:startColumn]: code`. */
  function ErrorOutputFromCompileError(error: CompileError): (s: string)
    ensures |s| > 0 && s[0] == '['
  {
    "[" + error.filename + ":" + IntToString(error.start.line) + ":"
    + IntToString(error.start.column) + "]: " + error.code
  }

  /** What a formatted diagnostic line says: file, start line, start column and code. */
  datatype Location = Location(filename: string, line: int, column: int, code: string)

  /** Reads a line written by ErrorOutputFromCompileError back into its parts. */
  function ParseErrorOutput(s: string): Option<Location> {
    if |s| == 0 || s[0] != '[' then None
    else
      var i := IndexOf(s[1..], ':');
      if i < 0 then None
      else
        match ParseLineOnward(s[1..][i + 1..])
        case Some((line, column, code)) => Some(Location(s[1..][..i], line, column, code))
        case None => None
  }

  /** Reads `line:column]: code`. */
  function ParseLineOnward(s: string): Option<(int, int, string)> {
    var j := IndexOf(s, ':');
    if j < 0 then None
    else
      match (ParseInt(s[..j]), ParseColumnOnward(s[j + 1..]))
      case (Some(line), Some((column, code))) => Some((line, column, code))
      case _ => None
  }

  /** Reads `column]: code`. */
  function ParseColumnOnward(s: string): Option<(int, string)> {
    var k := IndexOf(s, ']');
    if k < 0 || |s| < k + 3 || s[k..k + 3] != "]: " then None
    else
      match ParseInt(s[..k])
      case Some(column) => Some((column, s[k + 3..]))
      case None => None
  }

  lemma NoSeparatorInInt(i: int, c: char)
    requires c == ':' || c == ']' || c == '\n'
    ensures c !in IntToString(i)
  {
  }

  lemma ParseColumnOnwardOf(column: int, code: string)
    ensures ParseColumnOnward(IntToString(column) + "]: " + code) == Some((column, code))
  {
    var c := IntToString(column);
    var s := c + "]: " + code;
    NoSeparatorInInt(column, ']');
    assert s == c + [']'] + (": " + code);
    IndexOfAfter(c, ']', ": " + code);
    assert s[..|c|] == c && s[|c|..|c| + 3] == "]: " && s[|c| + 3..] == code;
    IntToStringRoundTrip(column);
  }

  lemma ParseLineOnwardOf(line: int, column: int, code: string)
    ensures ParseLineOnward(IntToString(line) + ":" + IntToString(column) + "]: " + code)
         == Some((line, column, code))
  {
    var l := IntToString(line);
    var rest := IntToString(column) + "]: " + code;
    var s := l + ":" + IntToString(column) + "]: " + code;
    NoSeparatorInInt(line, ':');
    assert s == l + [':'] + rest;
    IndexOfAfter(l, ':', rest);
    assert s[..|l|] == l && s[|l| + 1..] == rest;
    IntToStringRoundTrip(line);
    ParseColumnOnwardOf(column, code);
  }

  /** The formatted line records the file, the start position and the code, and
      nothing of the end position: a file name without ':' reads back exactly. */
  lemma ErrorOutputRoundTrip(error: CompileError)
    requires ':' !in error.filename
    ensures ParseErrorOutput(ErrorOutputFromCompileError(error))
         == Some(Location(error.filename, error.start.line, error.start.column, error.code))
  {
    var f := error.filename;
    var afterFile := IntToString(error.start.line) + ":" + IntToString(error.start.column) + "]: " + error.code;
    var s := ErrorOutputFromCompileError(error);
    assert s[1..] == f + [':'] + afterFile;
    IndexOfAfter(f, ':', afterFile);
    assert s[1..][..|f|] == f && s[1..][|f| + 1..] == afterFile;
    ParseLineOnwardOf(error.start.line, error.start.column, error.code);
  }

  /** Two diagnostics that differ only in their end position format the same. */
  lemma ErrorOutputIgnoresEnd(error: CompileError, end: Position)
    ensures ErrorOutputFromCompileError(error.(end := end)) == ErrorOutputFromCompileError(error)
  {
  }

  /** No line break gets into a formatted line unless the file name or the code has one. */
  lemma ErrorOutputSingleLine(error: CompileError)
    requires '\n' !in error.filename && '\n' !in error.code
    ensures '\n' !in ErrorOutputFromCompileError(error)
  {
    NoSeparatorInInt(error.start.line, '\n');
    NoSeparatorInInt(error.start.column, '\n');
  }

  /** One compile invocation, as the hook issued it. */
  datatype CompileCall = CompileCall(cwd: string, libDir: string, files: map<string, string>)

  /**
    The `useCompile` hook of one mounted component. `InitResolved` is the
    completion of the initialisation promise; `PropsChanged` is a re-render
    with new props. The dependency list `[files, cwd, isInitialized]` is
    compared by value here.
   */
  class UseCompile {
    const compile: Compiler
    var files: map<string, string>
    var cwd: string
    var isInitialized: bool
    var output: Option<CompileOutput>
    /** Every compile the hook has issued, oldest first. */
    ghost var calls: seq<CompileCall>

    /** Nothing is compiled before readiness; afterwards `output` is the result
        for the current props, and every call used the fixed library directory. */
    ghost predicate Valid()
      reads this
    {
      && (!isInitialized ==> output == None && calls == [])
      && (isInitialized ==>
            && |calls| > 0
            && calls[|calls| - 1] == CompileCall(cwd, DEFAULT_LIB_DIR, files)
            && output == Some(compile(cwd, DEFAULT_LIB_DIR, files)))
      && (forall i :: 0 <= i < |calls| ==> calls[i].libDir == DEFAULT_LIB_DIR)
    }

    /** Mounting: the first run of the compile effect returns early. */
    constructor (compile: Compiler, files: map<string, string>, cwd: string)
      ensures Valid()
      ensures this.compile == compile && this.files == files && this.cwd == cwd
      ensures !isInitialized && output == None && calls == []
    {
      this.compile := compile;
      this.files := files;
      this.cwd := cwd;
      isInitialized := false;
      output := None;
      calls := [];
    }

    /** The compile effect body. */
    method RunEffect()
      requires isInitialized
      requires forall i :: 0 <= i < |calls| ==> calls[i].libDir == DEFAULT_LIB_DIR
      modifies this`output, this`calls
      ensures Valid()
      ensures output == Some(compile(cwd, DEFAULT_LIB_DIR, files))
      ensures calls == old(calls) + [CompileCall(cwd, DEFAULT_LIB_DIR, files)]
    {
      var result := compile(cwd, DEFAULT_LIB_DIR, files);
      calls := calls + [CompileCall(cwd, DEFAULT_LIB_DIR, files)];
      output := Some(result);
    }

    /** `boltts().then(() => setIsInitialized(true))`: the flag goes to true and
        stays there; the change re-runs the effect, a repeated true does not. */
    method InitResolved()
      requires Valid()
      modifies this`isInitialized, this`output, this`calls
      ensures Valid() && isInitialized
      ensures old(isInitialized) ==> output == old(output) && calls == old(calls)
      ensures !old(isInitialized) ==> calls == [CompileCall(cwd, DEFAULT_LIB_DIR, files)]
      ensures output == Some(compile(cwd, DEFAULT_LIB_DIR, files))
    {
      if !isInitialized {
        isInitialized := true;
        RunEffect();
      }
    }

    /** A re-render with `files` and `cwd`: the effect re-runs when either
        changed, and returns early while not initialized. */
    method PropsChanged(files: map<string, string>, cwd: string)
      requires Valid()
      modifies this`files, this`cwd, this`output, this`calls
      ensures Valid()
      ensures this.files == files && this.cwd == cwd
      ensures !isInitialized ==> output == None && calls == []
      ensures isInitialized && (files != old(this.files) || cwd != old(this.cwd)) ==>
        calls == old(calls) + [CompileCall(cwd, DEFAULT_LIB_DIR, files)]
      ensures isInitialized && files == old(this.files) && cwd == old(this.cwd) ==>
        calls == old(calls) && output == old(output)
    {
      var changed := files != this.files || cwd != this.cwd;
      this.files := files;
      this.cwd := cwd;
      if changed && isInitialized {
        RunEffect();
      }
    }

    /** The hook's return value. */
    function Result(): (o: Option<CompileOutput>)
      reads this
      requires Valid()
      ensures o == None <==> !isInitialized
      ensures isInitialized ==> o == Some(compile(cwd, DEFAULT_LIB_DIR, files))
    {
      output
    }
  }
}
