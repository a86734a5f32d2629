/**
 * The document store of server/src/state.rs: the full text and version of
 * every open document, keyed by URI, and a separate cache of the diagnostics
 * last published per URI, which outlives closing the document.
 */
module DocumentState {
  import opened Wrappers
  import opened Json
  import opened Lsp

  datatype Document = Document(text: string, version: i32)

  class DocumentStore {
    var documents: map<string, Document>
    var diagnostics: map<string, seq<Diagnostic>>

    /** `DocumentStore::default()`: nothing open, nothing cached. */
    constructor ()
      ensures documents == map[] && diagnostics == map[]
    {
      documents := map[];
      diagnostics := map[];
    }

    /** `open`: stores the document, replacing any earlier one under the same URI. */
    method Open(uri: string, text: string, version: i32)
      modifies this`documents
      ensures documents == old(documents)[uri := Document(text, version)]
    {
      documents := documents[uri := Document(text, version)];
    }

    /** `change`: replaces text and version of an open document; a closed URI is not inserted. */
    method Change(uri: string, text: string, version: i32) returns (changed: bool)
      modifies this`documents
      ensures changed <==> uri in old(documents)
      ensures documents == if changed then old(documents)[uri := Document(text, version)] else old(documents)
    {
      if uri in documents {
        documents := documents[uri := Document(text, version)];
        changed := true;
      } else {
        changed := false;
      }
    }

    /** `close`: removes the document and reports whether it was open; diagnostics stay. */
    method Close(uri: string) returns (closed: bool)
      modifies this`documents
      ensures closed <==> uri in old(documents)
      ensures documents == old(documents) - {uri}
    {
      closed := uri in documents;
      documents := documents - {uri};
    }

    /** `get`. */
    method Get(uri: string) returns (doc: Option<Document>)
      ensures doc.Some? <==> uri in documents
      ensures doc.Some? ==> doc.value == documents[uri]
    {
      doc := if uri in documents then Some(documents[uri]) else None;
    }

    /** `is_open`. */
    method IsOpen(uri: string) returns (open: bool)
      ensures open <==> uri in documents
    {
      open := uri in documents;
    }

    /**
     * `all`: every open document with its URI, each URI once, in some order
     * (the order of a `HashMap` is unspecified).
     */
    method All() returns (entries: seq<(string, Document)>)
      ensures |entries| == |documents|
      ensures forall i :: 0 <= i < |entries| ==> entries[i].0 in documents && documents[entries[i].0] == entries[i].1
      ensures forall i, j :: 0 <= i < j < |entries| ==> entries[i].0 != entries[j].0
      ensures forall uri :: uri in documents ==> exists i :: 0 <= i < |entries| && entries[i].0 == uri
    {
      entries := [];
      var rest := documents.Keys;
      while rest != {}
        invariant rest <= documents.Keys
        invariant |entries| + |rest| == |documents|
        invariant forall i :: 0 <= i < |entries| ==> entries[i].0 in documents.Keys - rest && documents[entries[i].0] == entries[i].1
        invariant forall i, j :: 0 <= i < j < |entries| ==> entries[i].0 != entries[j].0
        invariant forall uri :: uri in documents && uri !in rest ==> exists i :: 0 <= i < |entries| && entries[i].0 == uri
        decreases |rest|
      {
        var uri :| uri in rest;
        ghost var before := entries;
        entries := entries + [(uri, documents[uri])];
        rest := rest - {uri};
        forall u | u in documents && u !in rest
          ensures exists i :: 0 <= i < |entries| && entries[i].0 == u
        {
          if u == uri {
            assert entries[|before|].0 == u;
          } else {
            var i :| 0 <= i < |before| && before[i].0 == u;
            assert entries[i].0 == u;
          }
        }
      }
    }

    /**
     * `all_documents`: one document per open URI; `uris` names, for each
     * entry, the URI it was listed under.
     */
    method AllDocuments() returns (docs: seq<Document>, ghost uris: seq<string>)
      ensures |docs| == |documents| && |uris| == |docs|
      ensures forall i :: 0 <= i < |docs| ==> uris[i] in documents && docs[i] == documents[uris[i]]
      ensures forall i, j :: 0 <= i < j < |uris| ==> uris[i] != uris[j]
      ensures forall uri :: uri in documents ==> uri in uris
      ensures forall i :: 0 <= i < |docs| ==> docs[i] in documents.Values
      ensures forall uri :: uri in documents ==> documents[uri] in docs
    {
      var entries := All();
      docs := seq(|entries|, i requires 0 <= i < |entries| => entries[i].1);
      uris := seq(|entries|, i requires 0 <= i < |entries| => entries[i].0);
      forall i | 0 <= i < |docs|
        ensures uris[i] in documents && docs[i] == documents[uris[i]] && docs[i] in documents.Values
      {
        assert uris[i] == entries[i].0 && docs[i] == entries[i].1;
      }
      forall i, j | 0 <= i < j < |uris|
        ensures uris[i] != uris[j]
      {
        assert uris[i] == entries[i].0 && uris[j] == entries[j].0;
      }
      forall uri | uri in documents
        ensures uri in uris && documents[uri] in docs
      {
        var i :| 0 <= i < |entries| && entries[i].0 == uri;
        assert uris[i] == uri && docs[i] == documents[uri];
      }
    }

    /** `set_diagnostics`: replaces the cached list of one URI; documents are not touched. */
    method SetDiagnostics(uri: string, diags: seq<Diagnostic>)
      modifies this`diagnostics
      ensures diagnostics == old(diagnostics)[uri := diags]
    {
      diagnostics := diagnostics[uri := diags];
    }

    /** `get_diagnostics`. */
    method GetDiagnostics(uri: string) returns (diags: Option<seq<Diagnostic>>)
      ensures diags.Some? <==> uri in diagnostics
      ensures diags.Some? ==> diags.value == diagnostics[uri]
    {
      diags := if uri in diagnostics then Some(diagnostics[uri]) else None;
    }
  }

  // The behaviours the store's unit tests exercise, for arbitrary URIs and contents.

  /** Opening and then getting returns what was opened. */
  method OpenAndRetrieve(uri: string, text: string, version: i32) returns (doc: Option<Document>)
    ensures doc == Some(Document(text, version))
  {
    var store := new DocumentStore();
    store.Open(uri, text, version);
    doc := store.Get(uri);
  }

  /** Re-opening a URI replaces the earlier document. */
  method ReopenOverwrites(uri: string, text1: string, text2: string, v1: i32, v2: i32) returns (doc: Option<Document>)
    ensures doc == Some(Document(text2, v2))
  {
    var store := new DocumentStore();
    store.Open(uri, text1, v1);
    store.Open(uri, text2, v2);
    doc := store.Get(uri);
  }

  /** Changing a URI that was never opened fails and leaves it closed. */
  method ChangeNonexistent(uri: string, text: string, version: i32) returns (changed: bool, open: bool)
    ensures !changed && !open
  {
    var store := new DocumentStore();
    changed := store.Change(uri, text, version);
    open := store.IsOpen(uri);
  }

  /** Successive changes keep only the last text and version. */
  method MultipleChanges(uri: string, t1: string, t2: string, t3: string, v1: i32, v2: i32, v3: i32)
    returns (ok2: bool, ok3: bool, doc: Option<Document>)
    ensures ok2 && ok3 && doc == Some(Document(t3, v3))
  {
    var store := new DocumentStore();
    store.Open(uri, t1, v1);
    ok2 := store.Change(uri, t2, v2);
    ok3 := store.Change(uri, t3, v3);
    doc := store.Get(uri);
  }

  /** `is_open` follows open and close; a second close reports that nothing was open. */
  method IsOpenTracksState(uri: string, text: string) returns (before: bool, during: bool, closed: bool, after: bool, again: bool)
    ensures !before && during && closed && !after && !again
  {
    var store := new DocumentStore();
    before := store.IsOpen(uri);
    store.Open(uri, text, 1);
    during := store.IsOpen(uri);
    closed := store.Close(uri);
    after := store.IsOpen(uri);
    again := store.Close(uri);
  }

  /** Three distinct URIs give three documents. */
  method AllDocumentsCount(a: string, b: string, c: string) returns (count: nat)
    requires a != b && b != c && a != c
    ensures count == 3
  {
    var store := new DocumentStore();
    store.Open(a, "a", 1);
    store.Open(b, "b", 1);
    store.Open(c, "c", 1);
    assert store.documents.Keys == {a, b, c};
    assert |store.documents| == |{a, b, c}| == 3;
    var docs, _ := store.AllDocuments();
    count := |docs|;
  }

  /** Operations on one URI leave another URI's document as it was. */
  method OtherUriUntouched(uri: string, other: string, text: string, t: string) returns (doc: Option<Document>)
    requires uri != other
    ensures doc == Some(Document(t, 7))
  {
    var store := new DocumentStore();
    store.Open(other, t, 7);
    store.Open(uri, text, 1);
    var _ := store.Change(uri, text + text, 2);
    var _ := store.Close(uri);
    doc := store.Get(other);
  }

  /** Diagnostics cached for a URI survive closing and reopening its document. */
  method DiagnosticsSurviveClose(uri: string, text: string, diags: seq<Diagnostic>) returns (cached: Option<seq<Diagnostic>>)
    ensures cached == Some(diags)
  {
    var store := new DocumentStore();
    store.Open(uri, text, 1);
    store.SetDiagnostics(uri, diags);
    var _ := store.Close(uri);
    store.Open(uri, text, 2);
    cached := store.GetDiagnostics(uri);
  }
}
