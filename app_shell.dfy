/**
 * The App component as an object: its two state fields and the handlers that
 * reassign them. Each handler assigns the fields the result of the Workspace
 * transition it stands for.
 */
module AppShell {
  import opened Wrappers
  import opened Documents
  import opened Workspace

  class App {
    var documents: seq<Document>
    var activeDocId: Option<string>

    /** The fields as one value. */
    function Snapshot(): AppState
      reads this
    {
      AppState(documents, activeDocId)
    }

    /** Mounting with the loaded documents selects the first one. */
    constructor (loaded: seq<Document>)
      ensures Snapshot() == Initial(loaded)
      ensures SelectionValid(Snapshot())
    {
      documents := loaded;
      activeDocId := FirstId(loaded);
    }

    /** `activeDoc`: the document the editor pane is given, if any. */
    function ActiveDoc(): (r: Option<Document>)
      reads this
      ensures r.Some? ==> r.value in documents && activeDocId == Some(r.value.id)
      ensures r.None? <==> activeDocId.None? || activeDocId.value !in Ids(documents)
    {
      ActiveDocIffSelected(Snapshot());
      Workspace.ActiveDoc(Snapshot())
    }

    method HandleCreateNew(id: string, now: Timestamp)
      modifies this
      ensures Snapshot() == CreateNew(old(Snapshot()), id, now)
      ensures documents == [Document(id, "", "", now)] + old(documents)
      ensures ActiveDoc() == Some(Document(id, "", "", now))
      ensures old(UniqueIds(documents)) && id !in old(Ids(documents)) ==> UniqueIds(documents)
    {
      if UniqueIds(documents) && id !in Ids(documents) {
        CreateKeepsUnique(Snapshot(), id, now);
      }
      var next := CreateNew(Snapshot(), id, now);
      documents, activeDocId := next.documents, next.activeDocId;
    }

    method HandleUpdateContent(target: string, newContent: string, now: Timestamp)
      modifies this
      ensures Snapshot() == UpdateContent(old(Snapshot()), target, newContent, now)
      ensures activeDocId == old(activeDocId) && Ids(documents) == old(Ids(documents))
      ensures |documents| == old(|documents|)
      ensures forall i :: 0 <= i < |documents| && old(documents[i].id) != target ==> documents[i] == old(documents[i])
      ensures forall i :: 0 <= i < |documents| && old(documents[i].id) == target ==>
                documents[i] == old(documents[i]).(content := newContent, lastEdited := now)
    {
      UpdatePreservesIds(documents, target, Content(newContent), now);
      documents := UpdateWhere(documents, target, Content(newContent), now);
    }

    method HandleUpdateTitle(target: string, newTitle: string, now: Timestamp)
      modifies this
      ensures Snapshot() == UpdateTitle(old(Snapshot()), target, newTitle, now)
      ensures activeDocId == old(activeDocId) && Ids(documents) == old(Ids(documents))
      ensures |documents| == old(|documents|)
      ensures forall i :: 0 <= i < |documents| && old(documents[i].id) != target ==> documents[i] == old(documents[i])
      ensures forall i :: 0 <= i < |documents| && old(documents[i].id) == target ==>
                documents[i] == old(documents[i]).(title := newTitle, lastEdited := now)
    {
      UpdatePreservesIds(documents, target, Title(newTitle), now);
      documents := UpdateWhere(documents, target, Title(newTitle), now);
    }

    method HandleDeleteDoc(id: string)
      modifies this
      ensures Snapshot() == DeleteDoc(old(Snapshot()), id)
      ensures documents == Remove(old(documents), id) && id !in Ids(documents)
      ensures old(activeDocId) == Some(id) ==> SelectionValid(Snapshot())
      ensures old(activeDocId) != Some(id) ==> activeDocId == old(activeDocId)
    {
      DeleteKeepsIds(Snapshot(), id);
      if activeDocId == Some(id) {
        DeleteActiveFallsBack(Snapshot(), id);
      }
      var next := DeleteDoc(Snapshot(), id);
      documents, activeDocId := next.documents, next.activeDocId;
    }

    /** `setActiveDocId` as the sidebar's select callback. */
    method SelectDoc(id: string)
      modifies this
      ensures Snapshot() == Workspace.SelectDoc(old(Snapshot()), id)
      ensures activeDocId == Some(id) && documents == old(documents)
    {
      activeDocId := Some(id);
    }
  }
}
