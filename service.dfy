/**
 * AiService: the quest endpoints. getQuest validates the question, has the
 * model generate a quest graph, stores it split into nodes and edges and
 * returns the reply; getQuestById puts a stored graph back together;
 * getHistory lists the stored questions; getQuestDetails is in module Details.
 */
module Service {
  import opened Wrappers
  import opened Json
  import opened ModelClient
  import opened Validation
  import opened Graph
  import opened Store
  import opened History

  /** The message of the IllegalArgumentException for a rejected question. */
  const InvalidQuestionMessage: string := "意味のある質問ではありません。"

  /** What getQuest throws: the rejection, or the fatal error of a failed model call. */
  datatype QuestError = InvalidQuestion(message: string) | ModelFailure(cause: Fatal)

  /** The ClassCastException getQuestById lets escape when a stored blob is valid JSON but not an array. */
  datatype LookupError = NotAnArray

  /**
   * The record getQuest saves under id for a reply that parsed to root: the
   * question, and the node list and the edge list each written as an array
   * that reads back as that list.
   */
  function StoredRecord(id: int, question: string, root: Json): (q: Quest)
    ensures q.id == id && q.question == question
    ensures ReadTree(q.nodesJson) == Some(JArr(OfKind(Elements(root), false)))
    ensures ReadTree(q.edgesJson) == Some(JArr(OfKind(Elements(root), true)))
  {
    ReadTreeWrite(JArr(OfKind(Elements(root), false)));
    ReadTreeWrite(JArr(OfKind(Elements(root), true)));
    Quest(id, question,
          Write(JArr(OfKind(Elements(root), false))),
          Write(JArr(OfKind(Elements(root), true))))
  }

  /** Text that reads back as a JSON array. */
  predicate IsArrayText(s: string) {
    ReadTree(s).Some? && ReadTree(s).value.JArr?
  }

  /** Both blobs of every stored quest read back as arrays. */
  predicate BlobsAreArrays(rows: map<int, Quest>) {
    forall id :: id in rows ==> IsArrayText(rows[id].nodesJson) && IsArrayText(rows[id].edgesJson)
  }

  /**
   * getQuestById over the stored rows: "[]" for an unknown id or a blob that
   * does not parse, otherwise the node array with the edge array appended,
   * and the cast failure when a blob parses to something other than an array.
   */
  function QuestById(rows: map<int, Quest>, id: int): (r: Result<string, LookupError>)
    ensures id !in rows ==> r == Success("[]")
    ensures r.Failure? ==> ReadTree(rows[id].nodesJson).Some? && ReadTree(rows[id].edgesJson).Some?
  {
    if id !in rows then Success("[]")
    else
      match ReadTree(rows[id].nodesJson)
      case None => Success("[]")
      case Some(nodes) =>
        match ReadTree(rows[id].edgesJson)
        case None => Success("[]")
        case Some(edges) =>
          if nodes.JArr? && edges.JArr? then Success(Write(JArr(nodes.items + edges.items)))
          else Failure(NotAnArray)
  }

  /** Over blobs written by getQuest the lookup never throws. */
  lemma LookupNeverFails(rows: map<int, Quest>, id: int)
    requires BlobsAreArrays(rows)
    ensures QuestById(rows, id).Success?
  {
  }

  /** A blob that does not parse turns the lookup into "[]". */
  lemma UnparseableBlobGivesEmpty(rows: map<int, Quest>, id: int)
    requires id in rows
    requires ReadTree(rows[id].nodesJson).None? || ReadTree(rows[id].edgesJson).None?
    ensures QuestById(rows, id) == Success("[]")
  {
  }

  /** Looking up a saved graph gives its nodes followed by its edges. */
  lemma LookupOfStoredRecord(rows: map<int, Quest>, id: int, question: string, root: Json)
    requires id in rows && rows[id] == StoredRecord(id, question, root)
    ensures QuestById(rows, id)
            == Success(Write(JArr(OfKind(Elements(root), false) + OfKind(Elements(root), true))))
  {
    ReadTreeWrite(JArr(OfKind(Elements(root), false)));
    ReadTreeWrite(JArr(OfKind(Elements(root), true)));
  }

  /**
   * A saved graph comes back as the very array the model sent exactly when
   * that array was a list with no node after an edge.
   */
  lemma LookupIsIdentityIff(rows: map<int, Quest>, id: int, question: string, items: seq<Json>)
    requires id in rows && rows[id] == StoredRecord(id, question, JArr(items))
    ensures QuestById(rows, id) == Success(Write(JArr(items))) <==> NodesBeforeEdges(items)
  {
    LookupOfStoredRecord(rows, id, question, JArr(items));
    ReassemblyIsIdentityIff(items);
    if QuestById(rows, id) == Success(Write(JArr(items))) {
      WriteInjective(JArr(OfKind(items, false) + OfKind(items, true)), JArr(items));
    }
  }

  /** A saved graph always comes back as a reordering of its elements. */
  lemma LookupIsPermutation(rows: map<int, Quest>, id: int, question: string, root: Json)
    requires id in rows && rows[id] == StoredRecord(id, question, root)
    ensures QuestById(rows, id).Success?
    ensures var back := ReadTree(QuestById(rows, id).value);
            back.Some? && back.value.JArr? && multiset(back.value.items) == multiset(Elements(root))
  {
    var xs := Elements(root);
    LookupOfStoredRecord(rows, id, question, root);
    ReadTreeWrite(JArr(OfKind(xs, false) + OfKind(xs, true)));
    SplitIsPermutation(xs);
  }

  /**
   * The fenced reply with a line break after its closing fence: the content
   * keeps a backtick, the backtick is never read, and the array is saved as
   * one node and no edges.
   */
  lemma TrailingNewlineReplyIsSaved(id: int, question: string)
    ensures CallOpenAI(Content("```json\n[1]\n```\n"), true) == Success("[1]\n`")
    ensures ReadTree("[1]\n`") == Some(JArr([JNum(1)]))
    ensures StoredRecord(id, question, JArr([JNum(1)])) == Quest(id, question, "[1]", "[]")
  {
    TrailingNewlineKeepsBacktick();
    var one := JArr([JNum(1)]);
    assert Write(one) == "[1]" by {
      assert WriteItems([JNum(1)]) == Write(JNum(1)) == "1";
    }
    TrailingTextIgnored(one, "\n`");
    assert "[1]" + "\n`" == "[1]\n`";
    assert !IsEdge(JNum(1));
    assert OfKind([JNum(1)], false) == [JNum(1)] && OfKind([JNum(1)], true) == [];
    assert Write(JArr([])) == "[]";
  }

  /** An empty graph is stored and looked up as "[]". */
  lemma EmptyGraphRoundTrips(rows: map<int, Quest>, id: int, question: string)
    requires id in rows && rows[id] == StoredRecord(id, question, JArr([]))
    ensures QuestById(rows, id) == Success("[]")
  {
    LookupOfStoredRecord(rows, id, question, JArr([]));
    assert Elements(JArr([])) == [];
    assert OfKind([], false) + OfKind([], true) == [];
    assert Write(JArr([])) == "[" + WriteItems([]) + "]" == "[]";
  }

  class AiService {
    const store: QuestStore

    ghost predicate Valid()
      reads this, store
    {
      store.Valid() && BlobsAreArrays(store.rows)
    }

    constructor ()
      ensures Valid() && fresh(store)
      ensures store.rows == map[] && store.nextId == 1
    {
      store := new QuestStore();
    }

    /**
     * getQuest. A failed or negative validation ends the call before the
     * generation request and leaves the store alone. Otherwise the generation
     * reply (after fence stripping) is returned as it is; when it parses, one
     * record with its split graph is saved under the next id, and when it
     * does not, nothing is saved.
     */
    method GetQuest(question: string, validationReply: Reply, generationReply: Reply)
      returns (r: Result<string, QuestError>, sent: seq<Prompt>)
      requires Valid()
      modifies store
      ensures Valid()
      ensures IsValidQuestion(validationReply).Failure? ==>
                r == Failure(ModelFailure(ModelInvocationFailure)) && sent == [ValidationPrompt(question)]
                && store.rows == old(store.rows) && store.nextId == old(store.nextId)
      ensures IsValidQuestion(validationReply) == Success(false) ==>
                r == Failure(InvalidQuestion(InvalidQuestionMessage)) && sent == [ValidationPrompt(question)]
                && store.rows == old(store.rows) && store.nextId == old(store.nextId)
      ensures IsValidQuestion(validationReply) == Success(true) ==>
                sent == [ValidationPrompt(question), GenerationPrompt(question)]
      ensures IsValidQuestion(validationReply) == Success(true) && CallOpenAI(generationReply, true).Failure? ==>
                r == Failure(ModelFailure(ModelInvocationFailure))
                && store.rows == old(store.rows) && store.nextId == old(store.nextId)
      ensures IsValidQuestion(validationReply) == Success(true) && CallOpenAI(generationReply, true).Success? ==>
                r == Success(CallOpenAI(generationReply, true).value)
      ensures r.Success? && ReadTree(r.value).Some? ==>
                store.rows == old(store.rows)[old(store.nextId) := StoredRecord(old(store.nextId), question, ReadTree(r.value).value)]
                && store.nextId == old(store.nextId) + 1
      ensures r.Success? && ReadTree(r.value).None? ==>
                store.rows == old(store.rows) && store.nextId == old(store.nextId)
    {
      sent := [ValidationPrompt(question)];
      var valid := IsValidQuestion(validationReply);
      if valid.Failure? {
        r := Failure(ModelFailure(valid.error));
        return;
      }
      if !valid.value {
        r := Failure(InvalidQuestion(InvalidQuestionMessage));
        return;
      }
      sent := sent + [GenerationPrompt(question)];
      var content := CallOpenAI(generationReply, true);
      if content.Failure? {
        r := Failure(ModelFailure(content.error));
        return;
      }
      var root := ReadTree(content.value);
      if root.Some? {
        var nodes, edges := Split(root.value);
        var saved := store.Save(question, Write(JArr(nodes)), Write(JArr(edges)));
        assert saved == StoredRecord(saved.id, question, root.value);
      }
      r := Success(content.value);
    }

    /**
     * getQuestById: parse both blobs, append the edges to the node array and
     * write it out. Over the blobs getQuest stores it never throws. The steps
     * follow the Java method one by one, and QuestById states their outcome;
     * addAll, which grows the parsed node array in place, is an append to
     * the sequence of its items, since that array is never seen elsewhere.
     */
    method GetQuestById(id: int) returns (r: Result<string, LookupError>)
      requires Valid()
      ensures r == QuestById(store.rows, id)
      ensures r.Success?
    {
      if id !in store.rows {
        return Success("[]");
      }
      var quest := store.rows[id];
      var nodes := ReadTree(quest.nodesJson);
      if nodes.None? {
        return Success("[]");
      }
      var edges := ReadTree(quest.edgesJson);
      if edges.None? {
        return Success("[]");
      }
      if !nodes.value.JArr? || !edges.value.JArr? {
        return Failure(NotAnArray);
      }
      var all := nodes.value.items;
      all := all + edges.value.items;
      r := Success(Write(JArr(all)));
    }

    /** getHistory: the stored quests, newest first, each as its id and question. */
    method GetHistory() returns (r: string)
      requires Valid()
      ensures r == HistoryJson(Listing(store.rows, store.nextId))
    {
      var quests := store.FindAllByOrderByIdDesc();
      r := HistoryJson(quests);
    }
  }
}
