/**
 * The document-store todo service: a collection of documents keyed by
 * id, each owned by one user. Lookups hide other users' documents, edits
 * and deletes refuse them, and the live listing shows exactly the
 * caller's documents, newest first.
 */
module TodoServiceModel {
  import opened Wrappers
  import opened Text
  import opened TodoTypes
  import Ordering

  /** The fields of a stored document: text, completion, owner and server timestamp. */
  datatype TodoDoc = TodoDoc(todo: string, completed: bool, userId: string, createdAt: nat)

  /** A document together with its id: `{ id: docSnap.id, ...docSnap.data() }`. */
  datatype DocTodo = DocTodo(id: string, todo: string, completed: bool, userId: string, createdAt: nat)

  function WithId(id: string, d: TodoDoc): DocTodo {
    DocTodo(id, d.todo, d.completed, d.userId, d.createdAt)
  }

  function DocCreatedAt(t: DocTodo): nat {
    t.createdAt
  }

  const NotFoundError := "Todo not found or unauthorized"

  /** The document `id` exists and belongs to `userId`. */
  predicate Owns(docs: map<string, TodoDoc>, id: string, userId: string) {
    id in docs && docs[id].userId == userId
  }

  /** What `updateDoc` writes: the text if supplied, the completion if supplied, nothing else. */
  function ApplyEdit(d: TodoDoc, f: TodoFormData): (r: TodoDoc)
    ensures r.userId == d.userId && r.createdAt == d.createdAt
    ensures r.todo == (if f.todo.Some? then f.todo.value else d.todo)
    ensures r.completed == (if f.completed.Some? then f.completed.value else d.completed)
  {
    var r := if f.todo.Some? then d.(todo := f.todo.value) else d;
    if f.completed.Some? then r.(completed := f.completed.value) else r
  }

  /** The store after `editTodo(id, userId, f)`, or `None` when it throws. */
  function EditedStore(docs: map<string, TodoDoc>, id: string, userId: string, f: TodoFormData): (r: Option<map<string, TodoDoc>>)
    ensures r.Some? <==> Owns(docs, id, userId)
    ensures r.Some? ==> r.value.Keys == docs.Keys && r.value[id] == ApplyEdit(docs[id], f)
    ensures r.Some? ==> forall k :: k in docs && k != id ==> r.value[k] == docs[k]
  {
    if Owns(docs, id, userId) then Some(docs[id := ApplyEdit(docs[id], f)]) else None
  }

  /** The store after `deleteTodo(id, userId)`, or `None` when it throws. */
  function DeletedStore(docs: map<string, TodoDoc>, id: string, userId: string): (r: Option<map<string, TodoDoc>>)
    ensures r.Some? <==> Owns(docs, id, userId)
    ensures r.Some? ==> r.value.Keys == docs.Keys - {id}
    ensures r.Some? ==> forall k :: k in r.value ==> r.value[k] == docs[k]
  {
    if Owns(docs, id, userId) then Some(docs - {id}) else None
  }

  /** Editing twice with the same fields leaves the store as editing once did. */
  lemma EditIdempotent(docs: map<string, TodoDoc>, id: string, userId: string, f: TodoFormData)
    requires Owns(docs, id, userId)
    ensures EditedStore(docs, id, userId, f).Some?
    ensures var once := EditedStore(docs, id, userId, f).value;
      EditedStore(once, id, userId, f) == Some(once)
  {
    var once := EditedStore(docs, id, userId, f).value;
    assert once[id := ApplyEdit(once[id], f)] == once;
  }

  /** An edit that supplies no field leaves the store as it was. */
  lemma EmptyEditIsNoOp(docs: map<string, TodoDoc>, id: string, userId: string)
    requires Owns(docs, id, userId)
    ensures EditedStore(docs, id, userId, TodoFormData(None, None)) == Some(docs)
  {
    assert docs[id := docs[id]] == docs;
  }

  /** Once a document is deleted, a second delete of it fails for every user. */
  lemma SecondDeleteFails(docs: map<string, TodoDoc>, id: string, userId: string, anyone: string)
    requires Owns(docs, id, userId)
    ensures DeletedStore(docs, id, userId).Some?
    ensures DeletedStore(DeletedStore(docs, id, userId).value, id, anyone).None?
  {
  }

  /** The ids of the documents `userId` owns. */
  ghost function Owned(docs: map<string, TodoDoc>, userId: string): (ids: set<string>)
    ensures forall id :: id in ids <==> Owns(docs, id, userId)
  {
    set id | id in docs && docs[id].userId == userId
  }

  /** Deleting one of the caller's documents takes exactly its id out of the caller's set. */
  lemma OwnedAfterDelete(docs: map<string, TodoDoc>, id: string, userId: string)
    requires Owns(docs, id, userId)
    ensures Owned(DeletedStore(docs, id, userId).value, userId) == Owned(docs, userId) - {id}
  {
  }

  /** A delete by another user leaves the caller's set as it was. */
  lemma OwnedAfterOthersDelete(docs: map<string, TodoDoc>, id: string, other: string, userId: string)
    requires Owns(docs, id, other) && other != userId
    ensures Owned(DeletedStore(docs, id, other).value, userId) == Owned(docs, userId)
  {
  }

  /** An edit, by whoever owns the document, changes no one's set. */
  lemma OwnedAfterEdit(docs: map<string, TodoDoc>, id: string, owner: string, f: TodoFormData, userId: string)
    requires Owns(docs, id, owner)
    ensures Owned(EditedStore(docs, id, owner, f).value, userId) == Owned(docs, userId)
  {
  }

  /**
   * A document added under an unused id (as `AddTodo` does) joins the
   * set of its owner and leaves every other user's set as it was.
   */
  lemma OwnedAfterAdd(docs: map<string, TodoDoc>, id: string, d: TodoDoc, userId: string)
    requires id !in docs
    ensures Owned(docs[id := d], userId) == if d.userId == userId then Owned(docs, userId) + {id} else Owned(docs, userId)
  {
  }

  /** The documents named by `ids`, each once, in no particular order. */
  ghost function Listing(docs: map<string, TodoDoc>, ids: set<string>): (r: seq<DocTodo>)
    requires ids <= docs.Keys
    ensures |r| == |ids|
    ensures forall t :: t in r <==> t.id in ids && t == WithId(t.id, docs[t.id])
    decreases ids
  {
    if ids == {} then []
    else
      var id :| id in ids;
      [WithId(id, docs[id])] + Listing(docs, ids - {id})
  }

  /**
   * The `subscribeTodos` query (`where('userId', '==', userId)`,
   * `orderBy('createdAt', 'desc')`): exactly the caller's documents, each
   * once, newest first.
   */
  ghost function SubscriptionQuery(docs: map<string, TodoDoc>, userId: string): (r: seq<DocTodo>)
    ensures forall t :: t in r <==> Owns(docs, t.id, userId) && t == WithId(t.id, docs[t.id])
    ensures |r| == |Owned(docs, userId)|
    ensures Ordering.NewestFirst(r, DocCreatedAt)
  {
    var unordered := Listing(docs, Owned(docs, userId));
    var r := Ordering.SortNewestFirst(unordered, DocCreatedAt);
    assert forall t :: t in r <==> t in unordered by {
      forall t ensures t in r <==> t in unordered {
        assert t in r <==> t in multiset(r);
        assert t in unordered <==> t in multiset(unordered);
      }
    }
    assert |multiset(r)| == |multiset(unordered)|;
    r
  }

  /**
   * The service over one document collection. The server assigns each new
   * document an id not yet in use (here the numeral of a counter) and a
   * timestamp later than every earlier one (a clock).
   */
  class TodoService {
    var docs: map<string, TodoDoc>
    var clock: nat
    var issued: nat

    /** Every id is the numeral of a number already issued; every document was stamped before `clock`. */
    ghost predicate Valid()
      reads this
    {
      forall id :: id in docs ==>
        && ParseInt(id).Some? && 0 <= ParseInt(id).value < issued
        && docs[id].createdAt < clock
    }

    constructor ()
      ensures Valid() && docs == map[]
    {
      docs := map[];
      clock := 0;
      issued := 0;
    }

    /** `getTodoById`: the document with its id when the caller owns it; `null` when it is missing or someone else's. */
    function GetTodoById(id: string, userId: string): (r: Option<DocTodo>)
      reads this
      ensures r.Some? <==> Owns(docs, id, userId)
      ensures r.Some? ==> r.value == WithId(id, docs[id])
    {
      if id !in docs then None
      else if docs[id].userId != userId then None
      else Some(WithId(id, docs[id]))
    }

    /**
     * `addTodo`: inserts one document under a fresh id with the supplied
     * text as given (not trimmed), not completed, owned by `userId`, newer
     * than every other; every other document is unchanged. Without text
     * the write is refused (a document field may not be undefined) and
     * nothing changes.
     */
    method AddTodo(userId: string, formData: TodoFormData) returns (r: Option<string>)
      requires Valid()
      modifies this
      ensures Valid()
      ensures r.None? <==> formData.todo.None?
      ensures r.None? ==> docs == old(docs)
      ensures r.Some? ==>
        && r.value !in old(docs)
        && docs == old(docs)[r.value := TodoDoc(formData.todo.value, false, userId, old(clock))]
      ensures r.Some? ==> forall id :: id in old(docs) ==> old(docs)[id].createdAt < docs[r.value].createdAt
    {
      if formData.todo.None? {
        return None;
      }
      var id := IntToString(issued);
      ParseIntOfIntToString(issued);
      docs := docs[id := TodoDoc(formData.todo.value, false, userId, clock)];
      issued := issued + 1;
      clock := clock + 1;
      r := Some(id);
    }

    /**
     * `editTodo`: throws and changes nothing when the document is missing
     * or someone else's; otherwise writes only the supplied fields of that
     * one document.
     */
    method EditTodo(id: string, userId: string, formData: TodoFormData) returns (r: Outcome)
      requires Valid()
      modifies this
      ensures Valid() && clock == old(clock) && issued == old(issued)
      ensures r == if Owns(old(docs), id, userId) then Pass else Fail(NotFoundError)
      ensures docs == if r.Pass? then EditedStore(old(docs), id, userId, formData).value else old(docs)
    {
      if id !in docs || docs[id].userId != userId {
        return Fail(NotFoundError);
      }
      docs := docs[id := ApplyEdit(docs[id], formData)];
      r := Pass;
    }

    /**
     * `deleteTodo`: throws and changes nothing when the document is missing
     * or someone else's; otherwise removes exactly that document.
     */
    method DeleteTodo(id: string, userId: string) returns (r: Outcome)
      requires Valid()
      modifies this
      ensures Valid() && clock == old(clock) && issued == old(issued)
      ensures r == if Owns(old(docs), id, userId) then Pass else Fail(NotFoundError)
      ensures docs == if r.Pass? then DeletedStore(old(docs), id, userId).value else old(docs)
    {
      if id !in docs || docs[id].userId != userId {
        return Fail(NotFoundError);
      }
      docs := docs - {id};
      r := Pass;
    }
  }

  /**
   * One user creates a todo; another cannot see it; its owner marks it
   * completed, which keeps its text, then deletes it, after which it is
   * gone and a second delete fails.
   */
  method OwnershipScenario(svc: TodoService, owner: string, other: string)
    returns (seenByOther: Option<DocTodo>, afterToggle: Option<DocTodo>, afterDelete: Option<DocTodo>, secondDelete: Outcome)
    requires svc.Valid() && owner != other
    modifies svc
    ensures svc.Valid()
    ensures seenByOther.None?
    ensures afterToggle.Some? && afterToggle.value.completed && afterToggle.value.todo == "task1"
    ensures afterDelete.None? && secondDelete.Fail?
  {
    var id := svc.AddTodo(owner, TodoFormData(Some("task1"), None));
    seenByOther := svc.GetTodoById(id.value, other);
    var toggled := svc.EditTodo(id.value, owner, TodoFormData(None, Some(true)));
    afterToggle := svc.GetTodoById(id.value, owner);
    var deleted := svc.DeleteTodo(id.value, owner);
    afterDelete := svc.GetTodoById(id.value, owner);
    secondDelete := svc.DeleteTodo(id.value, owner);
  }
}
