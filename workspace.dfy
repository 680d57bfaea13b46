/**
 * The state the App component keeps — its `documents` list and its
 * `activeDocId` selection — and the transition each App handler makes from it.
 * The clock (`Date.now()`) and the id of a new document are parameters.
 */
module Workspace {
  import opened Wrappers
  import opened Documents

  datatype AppState = AppState(documents: seq<Document>, activeDocId: Option<string>)

  /** The selection names no document, or one that is in the list. */
  ghost predicate SelectionValid(s: AppState) {
    s.activeDocId.None? || s.activeDocId.value in Ids(s.documents)
  }

  /** The document the editor pane shows, if any. */
  function ActiveDoc(s: AppState): Option<Document> {
    FindDoc(s.documents, s.activeDocId)
  }

  /** The loaded documents, with the first one's id selected. */
  function Initial(docs: seq<Document>): (r: AppState)
    ensures r.documents == docs && SelectionValid(r)
    ensures NonEmptyIds(docs) ==> (r.activeDocId.None? <==> docs == [])
    ensures docs != [] && docs[0].id != "" ==> ActiveDoc(r) == Some(docs[0])
  {
    AppState(docs, FirstId(docs))
  }

  /** A blank document stamped at `now`. */
  function NewDocument(id: string, now: Timestamp): Document {
    Document(id, "", "", now)
  }

  /** `handleCreateNew`: the new document goes in front and becomes the selection. */
  function CreateNew(s: AppState, id: string, now: Timestamp): (r: AppState)
    ensures |r.documents| == |s.documents| + 1
    ensures r.documents[0] == Document(id, "", "", now) && r.documents[1..] == s.documents
    ensures r.activeDocId == Some(id) && SelectionValid(r)
    ensures ActiveDoc(r) == Some(Document(id, "", "", now))
  {
    AppState([NewDocument(id, now)] + s.documents, Some(id))
  }

  /** `handleUpdateContent` with the id it targets made explicit. */
  function UpdateContent(s: AppState, target: string, newContent: string, now: Timestamp): AppState {
    s.(documents := UpdateWhere(s.documents, target, Content(newContent), now))
  }

  /** `handleUpdateTitle` with the id it targets made explicit. */
  function UpdateTitle(s: AppState, target: string, newTitle: string, now: Timestamp): AppState {
    s.(documents := UpdateWhere(s.documents, target, Title(newTitle), now))
  }

  /**
   * `handleDeleteDoc`: the documents with that id go; if the selection was
   * that id it falls back to the first remaining document's id.
   */
  function DeleteDoc(s: AppState, id: string): AppState {
    var filtered := Remove(s.documents, id);
    AppState(filtered, if s.activeDocId == Some(id) then FirstId(filtered) else s.activeDocId)
  }

  /** `setActiveDocId` as the sidebar calls it: no check that the id exists. */
  function SelectDoc(s: AppState, id: string): AppState {
    s.(activeDocId := Some(id))
  }

  // ---------------------------------------------------------------------------
  // Properties of the transitions

  /** With nothing stored, the app opens on the seeded welcome document, selected. */
  lemma StartupSeeds(saved: Option<string>, decode: string -> Option<seq<Document>>, seededAt: Timestamp)
    requires saved == None || saved == Some("")
    ensures Load(saved, decode, seededAt).Loaded?
    ensures var s := Initial(Load(saved, decode, seededAt).docs);
            && s.documents == [Document("1", SeedTitle, SeedContent, seededAt)]
            && s.activeDocId == Some("1")
            && ActiveDoc(s) == Some(s.documents[0])
  {
  }

  /** A stored empty list is kept empty: nothing is seeded and nothing is selected. */
  lemma StoredEmptyListStaysEmpty(raw: string, decode: string -> Option<seq<Document>>, seededAt: Timestamp)
    requires raw != "" && decode(raw) == Some([])
    ensures Load(Some(raw), decode, seededAt) == Loaded([])
    ensures Initial([]).activeDocId == None && ActiveDoc(Initial([])) == None
  {
  }

  /** Editing changes no id and not the selection, so it keeps both invariants. */
  lemma UpdateKeepsInvariants(s: AppState, target: string, e: Edit, now: Timestamp)
    ensures var r := s.(documents := UpdateWhere(s.documents, target, e, now));
            && r.activeDocId == s.activeDocId
            && Ids(r.documents) == Ids(s.documents)
            && (UniqueIds(s.documents) ==> UniqueIds(r.documents))
            && (SelectionValid(s) ==> SelectionValid(r))
  {
  }

  /** Editing the shown document: the editor then shows the edited document. */
  lemma UpdateActiveIsShown(s: AppState, newContent: string, now: Timestamp)
    requires ActiveDoc(s).Some?
    ensures var d := ActiveDoc(s).value;
            ActiveDoc(UpdateContent(s, d.id, newContent, now)) == Some(d.(content := newContent, lastEdited := now))
  {
    var d := ActiveDoc(s).value;
    var k := FirstIndex(s.documents, s.activeDocId);
    var r := UpdateWhere(s.documents, d.id, Content(newContent), now);
    UpdatePreservesIds(s.documents, d.id, Content(newContent), now);
    assert r[k] == d.(content := newContent, lastEdited := now);
    FindDocFirst(r, s.activeDocId, k);
  }

  /** Deleting the selected document: the selection falls back to a document still in the list, or to none. */
  lemma DeleteActiveFallsBack(s: AppState, id: string)
    requires s.activeDocId == Some(id)
    ensures var r := DeleteDoc(s, id);
            && id !in Ids(r.documents)
            && SelectionValid(r)
            && (r.activeDocId.Some? ==> r.activeDocId == Some(r.documents[0].id))
            && (NonEmptyIds(s.documents) ==> (r.activeDocId.None? <==> r.documents == []))
  {
    var filtered := Remove(s.documents, id);
    RemoveIds(s.documents, id);
    RemoveMembers(s.documents, id);
    if filtered != [] {
      assert filtered[0] in filtered;
    }
  }

  /** Deleting another document leaves the selection as it was, and still valid if it was. */
  lemma DeleteOtherKeepsSelection(s: AppState, id: string)
    requires s.activeDocId != Some(id)
    ensures DeleteDoc(s, id).activeDocId == s.activeDocId
    ensures SelectionValid(s) ==> SelectionValid(DeleteDoc(s, id))
  {
    RemoveIds(s.documents, id);
  }

  /** Deleting keeps ids distinct and non-empty. */
  lemma DeleteKeepsIds(s: AppState, id: string)
    ensures Ids(DeleteDoc(s, id).documents) == Ids(s.documents) - {id}
    ensures UniqueIds(s.documents) ==> UniqueIds(DeleteDoc(s, id).documents)
    ensures NonEmptyIds(s.documents) ==> NonEmptyIds(DeleteDoc(s, id).documents)
  {
    RemoveIds(s.documents, id);
    RemoveMembers(s.documents, id);
    if UniqueIds(s.documents) {
      RemoveKeepsUnique(s.documents, id);
    }
  }

  /** Creating with an unused id keeps ids distinct. */
  lemma CreateKeepsUnique(s: AppState, id: string, now: Timestamp)
    requires UniqueIds(s.documents) && id !in Ids(s.documents)
    ensures UniqueIds(CreateNew(s, id, now).documents)
  {
  }

  /** Selecting an id no document has is accepted, and then no editor is shown. */
  lemma SelectMissingShowsNothing(s: AppState, id: string)
    requires id !in Ids(s.documents)
    ensures SelectDoc(s, id).activeDocId == Some(id)
    ensures ActiveDoc(SelectDoc(s, id)) == None
  {
  }

  /** The shown document is present exactly when the selection is valid and set. */
  lemma ActiveDocIffSelected(s: AppState)
    ensures ActiveDoc(s).Some? <==> s.activeDocId.Some? && s.activeDocId.value in Ids(s.documents)
  {
  }
}
