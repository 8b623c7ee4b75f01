/**
  The document store of the playground (src/pages/playground/state/document.ts):
  an ordered list of `{id, path, content, language}` records held in a store
  object whose actions replace the whole list with one computed by `map` or
  `filter`.

  The store validates nothing: a document's `id` is its `path` at creation,
  empty and duplicate paths are accepted, a rename changes `path` but not `id`,
  and a delete may leave the store empty.
 */
module Documents {

  import Lists

  datatype Language = TypeScript | Json

  datatype Document = Document(id: string, path: string, content: string, language: Language)

  /** The key the store's actions match documents on. */
  function IdOf(d: Document): string {
    d.id
  }

  /** `d`: a document whose id is its path. */
  function D(path: string, content: string, language: Language): (doc: Document)
    ensures doc.id == doc.path == path
    ensures doc.content == content && doc.language == language
  {
    Document(path, path, content, language)
  }

  /** The text of the default `/tsconfig.json`. */
  const TSCONFIG_SOURCE: string :=
    "{\n  \"compilerOptions\": {\n    \"strict\": true\n  },\n  \"include\": [\"./index.ts\"],\n  \"exclude\": [\"node_modules\"]\n}"

  /** `defaultDocuments`; `indexSource` is the text of the bundled `index.ts.txt`. */
  function DefaultDocuments(indexSource: string): (docs: seq<Document>)
    ensures |docs| == 2
    ensures docs[0] == Document("/index.ts", "/index.ts", indexSource, TypeScript)
    ensures docs[1] == Document("/tsconfig.json", "/tsconfig.json", TSCONFIG_SOURCE, Json)
    ensures docs[0].id != docs[1].id
  {
    [D("/index.ts", indexSource, TypeScript), D("/tsconfig.json", TSCONFIG_SOURCE, Json)]
  }

  /** The list `updateDocument` computes: every document with id `id` gets `content`; nothing else changes. */
  function WithContent(docs: seq<Document>, id: string, content: string): (r: seq<Document>)
    ensures |r| == |docs|
    ensures forall i :: 0 <= i < |docs| ==>
      r[i].id == docs[i].id && r[i].path == docs[i].path && r[i].language == docs[i].language
    ensures forall i :: 0 <= i < |docs| ==>
      r[i].content == if docs[i].id == id then content else docs[i].content
  {
    if |docs| == 0 then []
    else
      var d := docs[0];
      [if d.id == id then d.(content := content) else d] + WithContent(docs[1..], id, content)
  }

  /** The list `renameDocument` computes: every document with id `id` gets `path`; ids stay as they were. */
  function WithPath(docs: seq<Document>, id: string, path: string): (r: seq<Document>)
    ensures |r| == |docs|
    ensures forall i :: 0 <= i < |docs| ==>
      r[i].id == docs[i].id && r[i].content == docs[i].content && r[i].language == docs[i].language
    ensures forall i :: 0 <= i < |docs| ==>
      r[i].path == if docs[i].id == id then path else docs[i].path
  {
    if |docs| == 0 then []
    else
      var d := docs[0];
      [if d.id == id then d.(path := path) else d] + WithPath(docs[1..], id, path)
  }

  /** The list `deleteDocument` computes. */
  function WithoutDocument(docs: seq<Document>, id: string): (r: seq<Document>)
    ensures |r| <= |docs|
    ensures forall i :: 0 <= i < |r| ==> r[i].id != id && r[i] in docs
    ensures forall i :: 0 <= i < |docs| && docs[i].id != id ==> docs[i] in r
  {
    Lists.WithoutKey(docs, IdOf, id)
  }

  /** Because a rename keeps the id, a later content update still reaches the
      renamed document: updating and renaming the same id commute. */
  lemma RenameThenUpdate(docs: seq<Document>, id: string, path: string, content: string)
    ensures WithContent(WithPath(docs, id, path), id, content)
         == WithPath(WithContent(docs, id, content), id, path)
    ensures forall i :: 0 <= i < |docs| && docs[i].id == id ==>
      WithContent(WithPath(docs, id, path), id, content)[i] == docs[i].(path := path, content := content)
  {
    var a := WithContent(WithPath(docs, id, path), id, content);
    var b := WithPath(WithContent(docs, id, content), id, path);
    assert forall i :: 0 <= i < |docs| ==> a[i] == b[i];
  }

  /** After renaming a document created by `d`, its id still names the old path. */
  lemma RenameBreaksIdEqualsPath(docs: seq<Document>, i: nat, path: string)
    requires i < |docs| && docs[i].id == docs[i].path && path != docs[i].path
    ensures WithPath(docs, docs[i].id, path)[i].id == docs[i].path
    ensures WithPath(docs, docs[i].id, path)[i].id != WithPath(docs, docs[i].id, path)[i].path
  {
  }

  /** Appending a document at a path already in use gives two documents with one id. */
  lemma NewDocumentAllowsDuplicateIds(docs: seq<Document>, i: nat, content: string, language: Language)
    requires i < |docs| && docs[i].id == docs[i].path
    ensures var r := docs + [D(docs[i].path, content, language)];
      i != |docs| && r[i].id == r[|docs|].id
  {
  }

  /** Deleting a document just created at a path no document had as id
      restores the list it was appended to. */
  lemma DeleteUndoesNew(docs: seq<Document>, path: string, content: string, language: Language)
    requires forall i :: 0 <= i < |docs| ==> docs[i].id != path
    ensures WithoutDocument(docs + [D(path, content, language)], path) == docs
  {
    Lists.WithoutKeyAppend(docs, [D(path, content, language)], IdOf, path);
    assert [D(path, content, language)][1..] == [];
  }

  /** Updating a document to the content it was just given changes nothing. */
  lemma {:induction false} UpdateIdempotent(docs: seq<Document>, id: string, content: string)
    ensures WithContent(WithContent(docs, id, content), id, content) == WithContent(docs, id, content)
  {
    var once := WithContent(docs, id, content);
    var twice := WithContent(once, id, content);
    assert forall i :: 0 <= i < |docs| ==> twice[i] == once[i];
  }

  /** Deleting the only document leaves the store empty: the store has no minimum-count guard. */
  lemma DeleteCanEmptyStore(d: Document)
    ensures WithoutDocument([d], d.id) == []
  {
  }

  /** The store (`useDocumentStore`). */
  class Store {
    var documents: seq<Document>

    /** The store starts with `defaultDocuments`. */
    constructor (indexSource: string)
      ensures documents == DefaultDocuments(indexSource)
    {
      documents := DefaultDocuments(indexSource);
    }

    /** `newDocument`: appends and returns `d(path, content, language)`, with no check on `path`. */
    method NewDocument(path: string, content: string := "", language: Language := TypeScript)
      returns (document: Document)
      modifies this
      ensures document == Document(path, path, content, language)
      ensures documents == old(documents) + [document]
    {
      var id := path;
      document := D(id, content, language);
      documents := documents + [document];
    }

    /** `setDocuments`. */
    method SetDocuments(documents: seq<Document>)
      modifies this
      ensures this.documents == documents
    {
      this.documents := documents;
    }

    /** `updateDocument`: matches on `document.id` only. */
    method UpdateDocument(document: Document, content: string)
      modifies this
      ensures documents == WithContent(old(documents), document.id, content)
    {
      documents := WithContent(documents, document.id, content);
    }

    /** `deleteDocument`: removes every document with `document.id`, even the last one. */
    method DeleteDocument(document: Document)
      modifies this
      ensures documents == WithoutDocument(old(documents), document.id)
    {
      documents := WithoutDocument(documents, document.id);
    }

    /** `renameDocument`: matches on `document.id` only. */
    method RenameDocument(document: Document, path: string)
      modifies this
      ensures documents == WithPath(old(documents), document.id, path)
    {
      documents := WithPath(documents, document.id, path);
    }
  }
}
