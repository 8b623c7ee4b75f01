/**
  The playground's starting files (src/pages/playground/defaultCase.ts).
  `FileData` has exactly the fields of the store's `Document`, and TypeScript
  compares object types by their fields, so the two are one type here.
 */
module DefaultCase {

  import opened Documents

  type FileData = Document

  /** `newFile`: a record whose id is its path, the other fields copied unchanged. */
  function NewFile(path: string, content: string, language: Language): (f: FileData)
    ensures f.id == f.path == path
    ensures f.content == content && f.language == language
  {
    Document(path, path, content, language)
  }

  /** `defaultFiles`; `exampleSource` is the text of the bundled `example.txt`. */
  function DefaultFiles(exampleSource: string): (files: seq<FileData>)
    ensures |files| == 2
    ensures files[0].path == "/index.ts" && files[0].language == TypeScript && files[0].content == exampleSource
    ensures files[1].path == "/tsconfig.json" && files[1].language == Json && files[1].content == TSCONFIG_SOURCE
    ensures forall i :: 0 <= i < |files| ==> files[i].id == files[i].path
    ensures files[0].id != files[1].id
  {
    [NewFile("/index.ts", exampleSource, TypeScript), NewFile("/tsconfig.json", TSCONFIG_SOURCE, Json)]
  }

  /** `newFile` and the store's `d` build the same record. */
  lemma NewFileIsD(path: string, content: string, language: Language)
    ensures NewFile(path, content, language) == D(path, content, language)
  {
  }
}
