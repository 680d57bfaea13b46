/**
 * Runs of App handlers one after another, as the UI issues them, and the
 * invariants that hold along every run: distinct ids, and a selection that
 * shows an editor exactly when there are documents.
 */
module Sessions {
  import opened Wrappers
  import opened Documents
  import opened Workspace

  /** One handler call: create, one of the two edits, delete, or select. */
  datatype Action =
    | Create(id: string, now: Timestamp)
    | EditContent(target: string, newContent: string, now: Timestamp)
    | EditTitle(target: string, newTitle: string, now: Timestamp)
    | Delete(id: string)
    | Select(id: string)

  function Apply(s: AppState, a: Action): AppState {
    match a
    case Create(id, now) => CreateNew(s, id, now)
    case EditContent(target, c, now) => UpdateContent(s, target, c, now)
    case EditTitle(target, t, now) => UpdateTitle(s, target, t, now)
    case Delete(id) => DeleteDoc(s, id)
    case Select(id) => SelectDoc(s, id)
  }

  /** The state after the actions, applied first to last. */
  function Replay(s: AppState, acts: seq<Action>): AppState
    decreases |acts|
  {
    if acts == [] then s else Apply(Replay(s, acts[..|acts| - 1]), acts[|acts| - 1])
  }

  /** Every create in the run uses an id not in the list at that moment. */
  ghost predicate FreshCreates(s: AppState, acts: seq<Action>) {
    forall k :: 0 <= k < |acts| && acts[k].Create? ==> acts[k].id !in Ids(Replay(s, acts[..k]).documents)
  }

  /** Ids stay distinct along any run whose creates use unused ids. */
  lemma {:induction false} ReplayKeepsIdsUnique(s: AppState, acts: seq<Action>)
    requires UniqueIds(s.documents) && FreshCreates(s, acts)
    ensures UniqueIds(Replay(s, acts).documents)
  {
    if acts != [] {
      var n := |acts| - 1;
      var prefix := acts[..n];
      assert FreshCreates(s, prefix) by {
        forall k | 0 <= k < |prefix| && prefix[k].Create?
          ensures prefix[k].id !in Ids(Replay(s, prefix[..k]).documents)
        {
          assert prefix[..k] == acts[..k];
        }
      }
      ReplayKeepsIdsUnique(s, prefix);
      var p := Replay(s, prefix);
      assert acts[..n] == prefix;
      match acts[n]
      case Create(id, now) => CreateKeepsUnique(p, id, now);
      case EditContent(target, c, now) => UpdateKeepsInvariants(p, target, Content(c), now);
      case EditTitle(target, t, now) => UpdateKeepsInvariants(p, target, Title(t), now);
      case Delete(id) => DeleteKeepsIds(p, id);
      case Select(id) =>
    }
  }

  /**
   * What the UI supplies: a created id is unused and non-empty (it is a
   * decimal clock reading), and a selected id is one the sidebar lists.
   */
  ghost predicate Allowed(s: AppState, a: Action) {
    match a
    case Create(id, _) => id != "" && id !in Ids(s.documents)
    case Select(id) => id in Ids(s.documents)
    case _ => true
  }

  /** Distinct, non-empty ids, and a valid selection that is none only for an empty list. */
  ghost predicate Coherent(s: AppState) {
    && UniqueIds(s.documents)
    && NonEmptyIds(s.documents)
    && SelectionValid(s)
    && (s.activeDocId.None? <==> s.documents == [])
  }

  /** In a coherent state an editor is shown exactly when there is a document. */
  lemma CoherentShowsEditor(s: AppState)
    requires Coherent(s)
    ensures ActiveDoc(s).Some? <==> s.documents != []
  {
  }

  /** Start-up from distinct, non-empty ids is coherent (the seeded list among them). */
  lemma InitialCoherent(docs: seq<Document>)
    requires UniqueIds(docs) && NonEmptyIds(docs)
    ensures Coherent(Initial(docs))
  {
  }

  /** Every allowed handler call keeps the state coherent. */
  lemma StepKeepsCoherent(s: AppState, a: Action)
    requires Coherent(s) && Allowed(s, a)
    ensures Coherent(Apply(s, a))
  {
    match a
    case Create(id, now) =>
      CreateKeepsUnique(s, id, now);
      assert Ids(CreateNew(s, id, now).documents) == {id} + Ids(s.documents) by {
        var r := CreateNew(s, id, now).documents;
        assert r == [NewDocument(id, now)] + s.documents;
        assert forall d :: d in r <==> d == NewDocument(id, now) || d in s.documents;
      }
    case EditContent(target, c, now) => UpdateKeepsInvariants(s, target, Content(c), now);
    case EditTitle(target, t, now) => UpdateKeepsInvariants(s, target, Title(t), now);
    case Delete(id) =>
      DeleteKeepsIds(s, id);
      if s.activeDocId == Some(id) {
        DeleteActiveFallsBack(s, id);
      } else {
        DeleteOtherKeepsSelection(s, id);
        if s.activeDocId.None? {
          assert s.documents == [];
        } else {
          var r := DeleteDoc(s, id);
          assert s.activeDocId.value in Ids(r.documents);
        }
      }
    case Select(id) =>
  }

  /** Along every run of allowed calls from a coherent state, the state stays coherent. */
  lemma {:induction false} ReplayKeepsCoherent(s: AppState, acts: seq<Action>)
    requires Coherent(s)
    requires forall k :: 0 <= k < |acts| ==> Allowed(Replay(s, acts[..k]), acts[k])
    ensures Coherent(Replay(s, acts))
  {
    if acts != [] {
      var n := |acts| - 1;
      var prefix := acts[..n];
      forall k | 0 <= k < |prefix| ensures Allowed(Replay(s, prefix[..k]), prefix[k]) {
        assert prefix[..k] == acts[..k];
      }
      ReplayKeepsCoherent(s, prefix);
      assert Allowed(Replay(s, prefix), acts[n]) by {
        assert acts[..n] == prefix;
      }
      StepKeepsCoherent(Replay(s, prefix), acts[n]);
    }
  }

  // ---------------------------------------------------------------------------
  // Worked scenarios

  /** Creating in an empty workspace gives one blank document, selected. */
  lemma CreateInEmptyWorkspace(id: string, now: Timestamp)
    ensures Apply(AppState([], None), Create(id, now)) == AppState([Document(id, "", "", now)], Some(id))
  {
  }

  /** With documents "1" and "2" and "1" selected, deleting "1" leaves "2", selected. */
  lemma DeleteSelectedOfTwo(d1: Document, d2: Document)
    requires d1.id == "1" && d2.id == "2"
    ensures Apply(AppState([d1, d2], Some("1")), Delete("1")) == AppState([d2], Some("2"))
  {
    var s := AppState([d1, d2], Some("1"));
    assert [d1, d2][1..] == [d2];
    assert [d2][1..] == [];
    assert Remove([d2], "1") == [d2];
    assert Remove([d1, d2], "1") == [d2];
    assert FirstId([d2]) == Some("2");
  }
}
