/**
 * getHistory: every saved quest, newest first, projected to its id and
 * question and written as one JSON array.
 */
module History {
  import opened Wrappers
  import opened Json
  import opened Store

  /**
   * The HashMap built for one quest. Its two keys land in hash buckets 4
   * ("question") and 11 ("id"), so Jackson writes "question" first.
   */
  function Entry(q: Quest): (e: Json)
    ensures e.JObj? && |e.fields| == 2
    ensures forall f :: f in e.fields ==> f.key == "id" || f.key == "question"
    ensures Get(e, "id") == Some(JNum(q.id))
    ensures Get(e, "question") == Some(JStr(q.question))
  {
    var fields := [Field("question", JStr(q.question)), Field("id", JNum(q.id))];
    assert fields[..1] == [fields[0]] && fields[..1][..0] == [];
    JObj(fields)
  }

  function Entries(quests: seq<Quest>): (es: seq<Json>)
    ensures |es| == |quests|
    ensures forall k :: 0 <= k < |es| ==> es[k] == Entry(quests[k])
  {
    seq(|quests|, k requires 0 <= k < |quests| => Entry(quests[k]))
  }

  /**
   * The text getHistory returns for the quests the repository lists. It
   * reads back as one entry per listed quest, in the same order.
   */
  function HistoryJson(quests: seq<Quest>): (r: string)
    ensures ReadTree(r) == Some(JArr(Entries(quests)))
  {
    ReadTreeWrite(JArr(Entries(quests)));
    Write(JArr(Entries(quests)))
  }

  /** The id an entry carries. */
  function EntryId(e: Json): int
    requires Get(e, "id").Some? && Get(e, "id").value.JNum?
  {
    Get(e, "id").value.n
  }

  /** Every history entry is the projection of a stored quest. */
  lemma HistoryHoldsStoredQuests(rows: map<int, Quest>, nextId: int)
    requires WellKeyed(rows, nextId)
    ensures forall k :: 0 <= k < |Entries(Listing(rows, nextId))| ==>
              EntryId(Entries(Listing(rows, nextId))[k]) in rows
              && Entries(Listing(rows, nextId))[k] == Entry(rows[EntryId(Entries(Listing(rows, nextId))[k])])
  {
    var qs := Listing(rows, nextId);
    ListingIsDescendingAndComplete(rows, nextId, nextId);
    assert forall k :: 0 <= k < |qs| ==> EntryId(Entries(qs)[k]) == qs[k].id;
  }

  /** The history is ordered newest first: ids strictly descend. */
  lemma HistoryIsNewestFirst(rows: map<int, Quest>, nextId: int)
    requires WellKeyed(rows, nextId)
    ensures forall k, l :: 0 <= k < l < |Entries(Listing(rows, nextId))| ==>
              EntryId(Entries(Listing(rows, nextId))[k]) > EntryId(Entries(Listing(rows, nextId))[l])
  {
    var qs := Listing(rows, nextId);
    ListingIsDescendingAndComplete(rows, nextId, nextId);
    assert forall k :: 0 <= k < |qs| ==> EntryId(Entries(qs)[k]) == qs[k].id;
  }

  /** No stored quest is missing from the history. */
  lemma HistoryIsComplete(rows: map<int, Quest>, nextId: int)
    requires WellKeyed(rows, nextId)
    ensures forall id :: id in rows ==> Entry(rows[id]) in Entries(Listing(rows, nextId))
  {
    var qs := Listing(rows, nextId);
    var es := Entries(qs);
    ListingIsDescendingAndComplete(rows, nextId, nextId);
    forall id | id in rows
      ensures Entry(rows[id]) in es
    {
      var k :| 0 <= k < |qs| && qs[k] == rows[id];
      assert es[k] == Entry(rows[id]);
    }
  }
}
