/**
 * The quest table behind QuestRepository: saved quests keyed by an id the
 * store generates, one higher for every save.
 */
module Store {

  /** One saved quest: the question and the two halves of its graph as JSON text. */
  datatype Quest = Quest(id: int, question: string, nodesJson: string, edgesJson: string)

  /** Every row sits under its own id, and every id is below the next one to hand out. */
  ghost predicate WellKeyed(rows: map<int, Quest>, nextId: int) {
    nextId >= 1 && forall id :: id in rows ==> 1 <= id < nextId && rows[id].id == id
  }

  /** The rows with ids below n, highest id first. */
  function Listing(rows: map<int, Quest>, n: int): (r: seq<Quest>)
    ensures forall k :: 0 <= k < |r| ==> r[k] in rows.Values
    decreases n
  {
    if n <= 1 then []
    else (if n - 1 in rows then [rows[n - 1]] else []) + Listing(rows, n - 1)
  }

  /**
   * The listing is ordered by strictly descending id and holds exactly the
   * rows with ids below n.
   */
  lemma {:induction false} ListingIsDescendingAndComplete(rows: map<int, Quest>, nextId: int, n: int)
    requires WellKeyed(rows, nextId)
    ensures forall k :: 0 <= k < |Listing(rows, n)| ==>
              Listing(rows, n)[k].id in rows && rows[Listing(rows, n)[k].id] == Listing(rows, n)[k]
              && Listing(rows, n)[k].id < n
    ensures forall k, l :: 0 <= k < l < |Listing(rows, n)| ==> Listing(rows, n)[k].id > Listing(rows, n)[l].id
    ensures forall id :: id in rows && id < n ==> rows[id] in Listing(rows, n)
    decreases n
  {
    if n > 1 {
      ListingIsDescendingAndComplete(rows, nextId, n - 1);
    }
  }

  class QuestStore {
    var rows: map<int, Quest>
    var nextId: int

    ghost predicate Valid()
      reads this
    {
      WellKeyed(rows, nextId)
    }

    constructor ()
      ensures Valid()
      ensures rows == map[] && nextId == 1
    {
      rows := map[];
      nextId := 1;
    }

    /** QuestRepository.save of a new quest: it gets the next id and nothing else changes. */
    method Save(question: string, nodesJson: string, edgesJson: string) returns (saved: Quest)
      requires Valid()
      modifies this
      ensures Valid()
      ensures saved == Quest(old(nextId), question, nodesJson, edgesJson)
      ensures saved.id !in old(rows)
      ensures rows == old(rows)[saved.id := saved]
      ensures nextId == old(nextId) + 1
    {
      saved := Quest(nextId, question, nodesJson, edgesJson);
      rows := rows[nextId := saved];
      nextId := nextId + 1;
    }

    /** QuestRepository.findAllByOrderByIdDesc: every quest, newest first. */
    function FindAllByOrderByIdDesc(): (qs: seq<Quest>)
      requires Valid()
      reads this
      ensures forall k :: 0 <= k < |qs| ==> qs[k].id in rows && rows[qs[k].id] == qs[k]
      ensures forall k, l :: 0 <= k < l < |qs| ==> qs[k].id > qs[l].id
      ensures forall id :: id in rows ==> rows[id] in qs
    {
      ListingIsDescendingAndComplete(rows, nextId, nextId);
      Listing(rows, nextId)
    }
  }
}
