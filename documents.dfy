/**
 * The documents of InkSync and the list transforms the App component applies
 * to its `documents` state: the seeded start-up list, the first-id lookup used
 * for initial and fallback selection, the `find` of the active document, the
 * `map` that edits the targeted documents and the `filter` that deletes one.
 */
module Documents {
  import opened Wrappers

  /** Milliseconds since the epoch, as `Date.now()` returns them. */
  type Timestamp = int

  datatype Document = Document(id: string, title: string, content: string, lastEdited: Timestamp)

  /** The two edits the editor pane sends: a new body text or a new title. */
  datatype Edit = Content(newContent: string) | Title(newTitle: string)

  /** The ids in use. */
  function Ids(docs: seq<Document>): set<string> {
    set d | d in docs :: d.id
  }

  /** The collection's invariant: no id occurs twice. */
  ghost predicate UniqueIds(docs: seq<Document>) {
    forall i, j :: 0 <= i < j < |docs| ==> docs[i].id != docs[j].id
  }

  /** Every id is non-empty (ids are decimal strings or the seeded "1"). */
  ghost predicate NonEmptyIds(docs: seq<Document>) {
    "" !in Ids(docs)
  }

  // ---------------------------------------------------------------------------
  // Start-up

  const SeedId := "1"
  const SeedTitle := "Welcome \U{2728}"
  const SeedContent := "This is your creative space. Type here to begin your story, or use the AI tool below to get inspired!"

  /** The single document a fresh installation starts with, stamped when the app loads. */
  function InitialDocs(seededAt: Timestamp): seq<Document> {
    [Document(SeedId, SeedTitle, SeedContent, seededAt)]
  }

  /** What reading the stored collection yields: a list, or the exception `JSON.parse` throws. */
  datatype Loaded = Loaded(docs: seq<Document>) | ParseError(raw: string)

  /**
   * The lazy initial value of `documents`: a stored value that is absent or the
   * empty string (both falsy) gives the seeded list; any other stored text is
   * decoded, and a text that does not decode is an error that is not recovered.
   * `decode` stands for `JSON.parse` followed by reading the result as a list
   * of documents: `None` is a text that does not parse, and also one that parses
   * to something else (`null`, an object, a number), which the app fails on
   * later, at `documents[0]` or `documents.find`.
   */
  function Load(saved: Option<string>, decode: string -> Option<seq<Document>>, seededAt: Timestamp): (r: Loaded)
    ensures saved == None || saved == Some("") ==> r == Loaded(InitialDocs(seededAt))
    ensures saved.Some? && saved.value != "" ==>
              match decode(saved.value)
              case Some(docs) => r == Loaded(docs)
              case None => r == ParseError(saved.value)
  {
    match saved
    case Some(raw) =>
      if raw == "" then Loaded(InitialDocs(seededAt))
      else (match decode(raw)
            case Some(docs) => Loaded(docs)
            case None => ParseError(raw))
    case None => Loaded(InitialDocs(seededAt))
  }

  /**
   * `docs[0]?.id || null`: the first document's id; none when the list is
   * empty, and also none when that id is the (falsy) empty string.
   */
  function FirstId(docs: seq<Document>): (r: Option<string>)
    ensures r.Some? ==> |docs| > 0 && r.value == docs[0].id && r.value in Ids(docs)
    ensures r.None? <==> docs == [] || docs[0].id == ""
  {
    if |docs| > 0 && docs[0].id != "" then Some(docs[0].id) else None
  }

  // ---------------------------------------------------------------------------
  // Lookup

  /**
   * `docs.find(d => d.id === active)`: the first document whose id is the
   * active id; none when no document has it, or when there is no active id.
   */
  function FindDoc(docs: seq<Document>, active: Option<string>): (r: Option<Document>)
    ensures r.Some? ==> r.value in docs && active == Some(r.value.id)
    ensures r.None? <==> forall d :: d in docs ==> Some(d.id) != active
  {
    if docs == [] then None
    else if Some(docs[0].id) == active then Some(docs[0])
    else
      assert forall d :: d in docs ==> d == docs[0] || d in docs[1..];
      FindDoc(docs[1..], active)
  }

  /** The document found is the first one carrying the active id. */
  lemma {:induction false} FindDocFirst(docs: seq<Document>, active: Option<string>, k: nat)
    requires k < |docs| && active == Some(docs[k].id)
    requires forall j :: 0 <= j < k ==> Some(docs[j].id) != active
    ensures FindDoc(docs, active) == Some(docs[k])
  {
    if k > 0 {
      assert forall j :: 0 <= j < k - 1 ==> docs[1..][j] == docs[j + 1];
      FindDocFirst(docs[1..], active, k - 1);
    }
  }

  /** With distinct ids, the document found is the one document with the active id. */
  lemma FindDocUnique(docs: seq<Document>, k: nat)
    requires k < |docs| && UniqueIds(docs)
    ensures FindDoc(docs, Some(docs[k].id)) == Some(docs[k])
  {
  }

  /** The position of the document found: the first one with the active id. */
  lemma {:induction false} FirstIndex(docs: seq<Document>, active: Option<string>) returns (k: nat)
    requires FindDoc(docs, active).Some?
    ensures k < |docs| && docs[k] == FindDoc(docs, active).value
    ensures forall j :: 0 <= j < k ==> Some(docs[j].id) != active
  {
    if Some(docs[0].id) == active {
      k := 0;
    } else {
      var k' := FirstIndex(docs[1..], active);
      k := k' + 1;
      assert forall j :: 0 < j < k ==> docs[j] == docs[1..][j - 1];
    }
  }

  // ---------------------------------------------------------------------------
  // Editing

  /** How one targeted document looks after an edit stamped at `now`. */
  ghost predicate Revised(before: Document, after: Document, e: Edit, now: Timestamp) {
    && after.id == before.id
    && after.lastEdited == now
    && match e
       case Content(c) => after.content == c && after.title == before.title
       case Title(t) => after.title == t && after.content == before.content
  }

  /** `{ ...doc, content: c, lastEdited: now }` and its title counterpart. */
  function Revise(d: Document, e: Edit, now: Timestamp): (r: Document)
    ensures Revised(d, r, e, now)
  {
    match e
    case Content(c) => d.(content := c, lastEdited := now)
    case Title(t) => d.(title := t, lastEdited := now)
  }

  /**
   * `docs.map(doc => doc.id === target ? revised : doc)`: every document whose
   * id is the target is revised, every other one is kept, in place.
   */
  function UpdateWhere(docs: seq<Document>, target: string, e: Edit, now: Timestamp): (r: seq<Document>)
    ensures |r| == |docs|
    ensures forall i :: 0 <= i < |docs| && docs[i].id == target ==> Revised(docs[i], r[i], e, now)
    ensures forall i :: 0 <= i < |docs| && docs[i].id != target ==> r[i] == docs[i]
  {
    if docs == [] then []
    else [if docs[0].id == target then Revise(docs[0], e, now) else docs[0]]
         + UpdateWhere(docs[1..], target, e, now)
  }

  // ---------------------------------------------------------------------------
  // Deleting

  /** `docs.filter(doc => doc.id !== id)`. */
  function Remove(docs: seq<Document>, id: string): (r: seq<Document>)
    ensures |r| <= |docs|
  {
    if docs == [] then []
    else (if docs[0].id == id then [] else [docs[0]]) + Remove(docs[1..], id)
  }

  /** The survivors of a delete are exactly the documents with another id. */
  lemma {:induction false} RemoveMembers(docs: seq<Document>, id: string)
    ensures forall d :: d in Remove(docs, id) <==> d in docs && d.id != id
  {
    if docs != [] {
      RemoveMembers(docs[1..], id);
      assert forall d :: d in docs <==> d == docs[0] || d in docs[1..];
    }
  }

  /** Deleting an id no document has leaves the list as it was. */
  lemma {:induction false} RemoveAbsent(docs: seq<Document>, id: string)
    requires id !in Ids(docs)
    ensures Remove(docs, id) == docs
  {
    if docs != [] {
      assert docs[0] in docs;
      assert id !in Ids(docs[1..]) by {
        forall d | d in docs[1..] ensures d.id != id {
          assert d in docs;
        }
      }
      RemoveAbsent(docs[1..], id);
    }
  }

  // ---------------------------------------------------------------------------
  // Properties of the transforms

  /** Editing never changes which ids exist, nor where they are. */
  lemma UpdatePreservesIds(docs: seq<Document>, target: string, e: Edit, now: Timestamp)
    ensures forall i :: 0 <= i < |docs| ==> UpdateWhere(docs, target, e, now)[i].id == docs[i].id
    ensures Ids(UpdateWhere(docs, target, e, now)) == Ids(docs)
    ensures UniqueIds(docs) ==> UniqueIds(UpdateWhere(docs, target, e, now))
  {
  }

  /** A target that no document has leaves the list as it was. */
  lemma UpdateUnknownTarget(docs: seq<Document>, target: string, e: Edit, now: Timestamp)
    requires target !in Ids(docs)
    ensures UpdateWhere(docs, target, e, now) == docs
  {
  }

  /** Two edits of the same field of the same target: the later one wins, value and stamp. */
  lemma UpdateLastWriteWins(docs: seq<Document>, target: string, first: string, second: string, t1: Timestamp, t2: Timestamp)
    ensures UpdateWhere(UpdateWhere(docs, target, Content(first), t1), target, Content(second), t2)
         == UpdateWhere(docs, target, Content(second), t2)
  {
  }

  /** Writing a target's current content back changes only its stamp. */
  lemma SameContentOnlyRestamps(docs: seq<Document>, target: string, c: string, now: Timestamp)
    requires forall d :: d in docs && d.id == target ==> d.content == c
    ensures forall i :: 0 <= i < |docs| ==>
              UpdateWhere(docs, target, Content(c), now)[i]
              == if docs[i].id == target then docs[i].(lastEdited := now) else docs[i]
  {
  }

  /** Deleting distributes over concatenation, so the survivors keep their relative order. */
  lemma {:induction false} RemoveConcat(a: seq<Document>, b: seq<Document>, id: string)
    ensures Remove(a + b, id) == Remove(a, id) + Remove(b, id)
  {
    if a == [] {
      assert a + b == b;
    } else {
      assert (a + b)[1..] == a[1..] + b;
      RemoveConcat(a[1..], b, id);
    }
  }

  /** Dropping the head of a list with distinct ids leaves distinct ids. */
  lemma UniqueTail(docs: seq<Document>)
    requires docs != [] && UniqueIds(docs)
    ensures UniqueIds(docs[1..])
    ensures docs[0].id !in Ids(docs[1..])
  {
  }

  /** When no later document shares the first one's id, that id is absent from the rest. */
  lemma HeadIdNotInTail(docs: seq<Document>)
    requires docs != []
    requires forall j :: 0 < j < |docs| ==> docs[j].id != docs[0].id
    ensures docs[0].id !in Ids(docs[1..])
  {
  }

  /** When no other document shares the id found at `k`, deleting that id removes exactly that document. */
  lemma {:induction false} RemoveOnlyAt(docs: seq<Document>, k: nat)
    requires k < |docs|
    requires forall j :: 0 <= j < |docs| && j != k ==> docs[j].id != docs[k].id
    ensures Remove(docs, docs[k].id) == docs[..k] + docs[k + 1..]
  {
    var id := docs[k].id;
    var tail := docs[1..];
    if k == 0 {
      HeadIdNotInTail(docs);
      RemoveAbsent(tail, id);
    } else {
      assert tail[k - 1] == docs[k];
      assert forall j :: 0 <= j < |tail| && j != k - 1 ==> tail[j].id != tail[k - 1].id by {
        forall j | 0 <= j < |tail| && j != k - 1 ensures tail[j].id != tail[k - 1].id {
          assert tail[j] == docs[j + 1];
        }
      }
      RemoveOnlyAt(tail, k - 1);
      assert docs[0].id != id;
      calc {
        Remove(docs, id);
        [docs[0]] + Remove(tail, id);
        [docs[0]] + (tail[..k - 1] + tail[k..]);
        ([docs[0]] + tail[..k - 1]) + tail[k..];
        { assert [docs[0]] + tail[..k - 1] == docs[..k]; assert tail[k..] == docs[k + 1..]; }
        docs[..k] + docs[k + 1..];
      }
    }
  }

  /** With distinct ids, deleting the id found at `k` removes exactly that document. */
  lemma RemoveUniqueAt(docs: seq<Document>, k: nat)
    requires k < |docs| && UniqueIds(docs)
    ensures Remove(docs, docs[k].id) == docs[..k] + docs[k + 1..]
  {
    RemoveOnlyAt(docs, k);
  }

  /** Deleting keeps the ids distinct. */
  lemma {:induction false} RemoveKeepsUnique(docs: seq<Document>, id: string)
    requires UniqueIds(docs)
    ensures UniqueIds(Remove(docs, id))
  {
    if docs != [] {
      var tail := docs[1..];
      UniqueTail(docs);
      RemoveKeepsUnique(tail, id);
      var rest := Remove(tail, id);
      RemoveMembers(tail, id);
      if docs[0].id != id {
        assert Remove(docs, id) == [docs[0]] + rest;
        PrependUnique(docs[0], rest);
      } else {
        assert Remove(docs, id) == rest;
      }
    }
  }

  /** Prepending a document whose id is not in use keeps the ids distinct. */
  lemma PrependUnique(d: Document, docs: seq<Document>)
    requires UniqueIds(docs) && d.id !in Ids(docs)
    ensures UniqueIds([d] + docs)
  {
  }

  /** The ids left after deleting are the old ones less the deleted one. */
  lemma RemoveIds(docs: seq<Document>, id: string)
    ensures Ids(Remove(docs, id)) == Ids(docs) - {id}
  {
    var r := Remove(docs, id);
    RemoveMembers(docs, id);
    forall x | x in Ids(docs) - {id} ensures x in Ids(r) {
      var d :| d in docs && d.id == x;
      assert d in r;
    }
  }
}
