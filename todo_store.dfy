/**
 * The to-do store: its snapshot value, the seven edits, the reconciliation rule
 * applied to a fetched remote snapshot, the start-up restore from the local
 * cache, and the provider object that holds the live store.
 */
module TodoStore {
  import opened Wrappers
  import opened Sequences

  /** A deadline is an opaque instant; the store only stores it. */
  datatype Date = Date(epochMillis: int)

  datatype TodoList = TodoList(id: string, name: string)

  datatype Todo = Todo(id: string, description: string, listId: string, done: bool, deadline: Option<Date>)

  /** The whole store; also the unit that is cached, pushed and fetched. */
  datatype Snapshot = Snapshot(todoLists: seq<TodoList>, todoItems: seq<Todo>, lastUpdate: int)

  const InitialListName: string := "My Todo List"

  /** `new Todo(listId, description)`, with the id that `uuidv4` would have produced. */
  function NewTodo(id: string, listId: string, description: string): Todo
  {
    Todo(id, description, listId, false, None)
  }

  /** `initialStore`, with the id that `uuidv4` gave its one list. */
  function InitialStore(listId: string): Snapshot
  {
    Snapshot([TodoList(listId, InitialListName)], [], 0)
  }

  /** The guard in front of every push: the untouched initial data is never sent. */
  predicate ShouldPush(s: Snapshot)
  {
    s.lastUpdate != 0
  }

  predicate HasItem(items: seq<Todo>, id: string)
  {
    exists t :: t in items && t.id == id
  }

  /** Index of the first item with the given id (`find` / `findIndex`), or None. */
  function FirstIndex(items: seq<Todo>, id: string): (r: Option<nat>)
    ensures r.Some? ==> r.value < |items| && items[r.value].id == id
    ensures r.Some? ==> forall j :: 0 <= j < r.value ==> items[j].id != id
    ensures r.None? <==> !HasItem(items, id)
    decreases |items|
  {
    if |items| == 0 then None
    else if items[0].id == id then Some(0)
    else
      match FirstIndex(items[1..], id)
      case None =>
        assert forall t :: t in items ==> t == items[0] || t in items[1..];
        None
      case Some(k) => Some(k + 1)
  }

  /** The store operations; ids and timestamps come from outside. */
  datatype Op =
    | AddItem(newId: string, listId: string, description: string)
    | CreateList(newId: string, name: string)
    | Toggle(todoId: string)
    | EditDescription(todoId: string, description: string)
    | Remove(todoId: string)
    | Move(todoId: string, listId: string)
    | SetDeadline(todoId: string, deadline: Date)
  {
    predicate TargetsItem() { !AddItem? && !CreateList? }

    /** The four operations that rewrite one field of the found item. */
    predicate RewritesField() { Toggle? || EditDescription? || Move? || SetDeadline? }
  }

  /** The one field that a field-rewriting operation changes on the item it found. */
  function Rewritten(t: Todo, op: Op): (t': Todo)
    requires op.RewritesField()
  {
    match op
    case Toggle(_) => t.(done := !t.done)
    case EditDescription(_, d) => t.(description := d)
    case Move(_, l) => t.(listId := l)
    case SetDeadline(_, dl) => t.(deadline := Some(dl))
  }

  /**
   * The store after `op` at time `now`, or None when an item-targeted operation
   * finds no item with its id (the alert case, where nothing changes).
   */
  function Step(s: Snapshot, op: Op, now: int): (r: Option<Snapshot>)
    ensures r.None? <==> op.TargetsItem() && !HasItem(s.todoItems, op.todoId)
    ensures r.Some? ==> r.value.lastUpdate == now
    ensures r.Some? && !op.CreateList? ==> r.value.todoLists == s.todoLists
    ensures r.Some? && op.CreateList? ==> r.value.todoItems == s.todoItems
  {
    match op
    case AddItem(id, l, d) =>
      Some(s.(todoItems := s.todoItems + [NewTodo(id, l, d)], lastUpdate := now))
    case CreateList(id, n) =>
      Some(s.(todoLists := s.todoLists + [TodoList(id, n)], lastUpdate := now))
    case Remove(todoId) =>
      (match FirstIndex(s.todoItems, todoId)
       case None => None
       case Some(i) => Some(s.(todoItems := s.todoItems[..i] + s.todoItems[i + 1..], lastUpdate := now)))
    case _ =>
      match FirstIndex(s.todoItems, op.todoId)
      case None => None
      case Some(i) => Some(s.(todoItems := s.todoItems[i := Rewritten(s.todoItems[i], op)], lastUpdate := now))
  }

  /**
   * The push guard holds back the untouched initial store and nothing else that
   * the store operations produce, as long as their timestamp is not 0.
   */
  lemma EditsArePushed(listId: string, s: Snapshot, op: Op, now: int)
    requires now != 0
    ensures !ShouldPush(InitialStore(listId))
    ensures Step(s, op, now).Some? ==> ShouldPush(Step(s, op, now).value)
  {
  }

  /** Adding an item appends exactly one fresh, unfinished item without deadline, whatever `listId` is. */
  lemma AddItemAppendsOne(s: Snapshot, id: string, listId: string, description: string, now: int)
    ensures Step(s, AddItem(id, listId, description), now).Some?
    ensures var s' := Step(s, AddItem(id, listId, description), now).value;
      && |s'.todoItems| == |s.todoItems| + 1
      && s'.todoItems[..|s.todoItems|] == s.todoItems
      && s'.todoItems[|s.todoItems|] == Todo(id, description, listId, false, None)
      && s'.todoLists == s.todoLists
      && s'.lastUpdate == now
  {
  }

  /** Creating a list appends exactly one list and leaves the items alone. */
  lemma CreateListAppendsOne(s: Snapshot, id: string, name: string, now: int)
    ensures Step(s, CreateList(id, name), now).Some?
    ensures var s' := Step(s, CreateList(id, name), now).value;
      && s'.todoLists == s.todoLists + [TodoList(id, name)]
      && s'.todoItems == s.todoItems
      && s'.lastUpdate == now
  {
  }

  /**
   * Toggle, edit, move and set-deadline change the one field of the first item
   * with the id and nothing else: the other items, their order, every id and the
   * lists stay as they were.
   */
  lemma RewriteChangesOnlyFirstMatch(s: Snapshot, op: Op, now: int)
    requires op.RewritesField() && HasItem(s.todoItems, op.todoId)
    ensures Step(s, op, now).Some?
    ensures var s' := Step(s, op, now).value;
      var i := FirstIndex(s.todoItems, op.todoId).value;
      && |s'.todoItems| == |s.todoItems|
      && s'.todoItems[i] == Rewritten(s.todoItems[i], op)
      && s'.todoItems[i].id == op.todoId
      && (forall j :: 0 <= j < |s.todoItems| && j != i ==> s'.todoItems[j] == s.todoItems[j])
      && (forall j :: 0 <= j < |s.todoItems| ==> s'.todoItems[j].id == s.todoItems[j].id)
      && FirstIndex(s'.todoItems, op.todoId) == Some(i)
      && s'.todoLists == s.todoLists
  {
  }

  /** Toggling the same item twice restores every item; only the timestamp moves. */
  lemma {:induction false} ToggleTwiceRestores(s: Snapshot, todoId: string, t1: int, t2: int)
    requires HasItem(s.todoItems, todoId)
    ensures Step(s, Toggle(todoId), t1).Some?
    ensures Step(Step(s, Toggle(todoId), t1).value, Toggle(todoId), t2) == Some(s.(lastUpdate := t2))
  {
    var s1 := Step(s, Toggle(todoId), t1).value;
    RewriteChangesOnlyFirstMatch(s, Toggle(todoId), t1);
    var i := FirstIndex(s.todoItems, todoId).value;
    assert s1.todoItems[i := Rewritten(s1.todoItems[i], Toggle(todoId))] == s.todoItems;
  }

  /** Splicing out position `i` keeps the other elements, in order, and loses only that one. */
  lemma SpliceFacts(items: seq<Todo>, i: nat)
    requires i < |items|
    ensures var rest := items[..i] + items[i + 1..];
      && |rest| == |items| - 1
      && (forall j :: 0 <= j < i ==> rest[j] == items[j])
      && (forall j :: i <= j < |rest| ==> rest[j] == items[j + 1])
      && multiset(rest) + multiset{items[i]} == multiset(items)
      && IsSubsequence(rest, items)
  {
    var rest := items[..i] + items[i + 1..];
    assert items[i..] == [items[i]] + items[i + 1..];
    assert items == items[..i] + items[i..];
    assert multiset(items) == multiset(items[..i]) + multiset(items[i..]);
    assert multiset(rest) == multiset(items[..i]) + multiset(items[i + 1..]);
    SubsequenceDeleteAt(items, i);
  }

  /**
   * Removing deletes exactly the first item with the id: one item fewer, the
   * items before and after it in the same order, nothing else lost.
   */
  lemma {:induction false} RemoveDeletesFirstMatch(s: Snapshot, todoId: string, now: int)
    requires HasItem(s.todoItems, todoId)
    ensures Step(s, Remove(todoId), now).Some?
    ensures var s' := Step(s, Remove(todoId), now).value;
      var i := FirstIndex(s.todoItems, todoId).value;
      && |s'.todoItems| == |s.todoItems| - 1
      && (forall j :: 0 <= j < i ==> s'.todoItems[j] == s.todoItems[j])
      && (forall j :: i <= j < |s'.todoItems| ==> s'.todoItems[j] == s.todoItems[j + 1])
      && multiset(s'.todoItems) + multiset{s.todoItems[i]} == multiset(s.todoItems)
      && IsSubsequence(s'.todoItems, s.todoItems)
      && s'.todoLists == s.todoLists
  {
    var i := FirstIndex(s.todoItems, todoId).value;
    assert Step(s, Remove(todoId), now).value.todoItems == s.todoItems[..i] + s.todoItems[i + 1..];
    SpliceFacts(s.todoItems, i);
  }

  /** A second removal with the same id finds nothing exactly when no other item carried that id. */
  lemma RemoveTwice(s: Snapshot, todoId: string, t1: int, t2: int)
    requires HasItem(s.todoItems, todoId)
    ensures Step(s, Remove(todoId), t1).Some?
    ensures var i := FirstIndex(s.todoItems, todoId).value;
      Step(Step(s, Remove(todoId), t1).value, Remove(todoId), t2).None?
      <==> forall j :: 0 <= j < |s.todoItems| && j != i ==> s.todoItems[j].id != todoId
  {
  }

  /** Every item-targeted operation with an unknown id is a not-found and changes nothing. */
  lemma UnknownIdIsNotFound(s: Snapshot, op: Op, now: int)
    requires op.TargetsItem() && forall j :: 0 <= j < |s.todoItems| ==> s.todoItems[j].id != op.todoId
    ensures Step(s, op, now) == None
  {
  }

  /** A JSON object as decoded by `JSON.parse`: each of the three fields may be missing or null. */
  datatype Payload = Payload(todoLists: Option<seq<TodoList>>, todoItems: Option<seq<Todo>>, lastUpdate: Option<int>)

  /**
   * `JSON.parse` on a string: None when it throws or yields null; any other value,
   * a number say, reads as a payload whose fields are all missing.
   */
  type Parser = string -> Option<Payload>

  /** What `retrieveSyncData` resolves to: each field may be missing. */
  datatype SyncResponse = SyncResponse(data: Option<string>, isNewer: Option<bool>)

  /** A fetch either fails (it rejects) or resolves to a possibly null result. */
  datatype Fetch = FetchFailed | Fetched(result: Option<SyncResponse>)

  datatype SyncOutcome =
    | Replaced(snapshot: Snapshot)   // the whole store is overwritten
    | NothingNewer                   // empty data or not newer: silent no-op
    | Corrupt                        // parsed, but a field is missing: warned, no-op
    | Failed                         // fetch or parse threw: warned, no-op

  predicate Complete(p: Payload)
  {
    p.todoLists.Some? && p.todoItems.Some? && p.lastUpdate.Some?
  }

  function FromPayload(p: Payload): (s: Snapshot)
    requires Complete(p)
  {
    Snapshot(p.todoLists.value, p.todoItems.value, p.lastUpdate.value)
  }

  /**
   * The reconciliation rule of `synchronizeData`: replace the whole store with the
   * fetched snapshot when its data is non-empty, `isNewer` is exactly true and all
   * three fields are present; otherwise leave the store as it is.
   */
  function Reconcile(fetch: Fetch, parse: Parser): (r: SyncOutcome)
    ensures r.Replaced? ==>
      && fetch.Fetched? && fetch.result.Some?
      && fetch.result.value.isNewer == Some(true)
      && fetch.result.value.data.Some? && fetch.result.value.data.value != ""
      && parse(fetch.result.value.data.value) ==
           Some(Payload(Some(r.snapshot.todoLists), Some(r.snapshot.todoItems), Some(r.snapshot.lastUpdate)))
    ensures r.Corrupt? ==>
      && fetch.Fetched? && fetch.result.Some? && fetch.result.value.data.Some?
      && parse(fetch.result.value.data.value).Some? && !Complete(parse(fetch.result.value.data.value).value)
    ensures fetch.FetchFailed? ==> r == Failed
    ensures fetch.Fetched? && fetch.result.Some? && fetch.result.value.isNewer == Some(true)
            && fetch.result.value.data.Some? && fetch.result.value.data.value != "" ==>
      match parse(fetch.result.value.data.value)
      case None => r == Failed
      case Some(p) => r == (if Complete(p) then Replaced(FromPayload(p)) else Corrupt)
  {
    match fetch
    case FetchFailed => Failed
    case Fetched(result) =>
      var data := if result.Some? then result.value.data.GetOr("") else "";
      var isNewer := if result.Some? then result.value.isNewer.GetOr(false) else false;
      if data != "" && isNewer == true then
        match parse(data)
        case None => Failed
        case Some(p) => if Complete(p) then Replaced(FromPayload(p)) else Corrupt
      else NothingNewer
  }

  /** A well-formed, newer, non-empty snapshot is always taken over exactly, whatever the local state. */
  lemma ReconcileAdoptsNewer(data: string, parse: Parser, snapshot: Snapshot)
    requires data != ""
    requires parse(data) == Some(Payload(Some(snapshot.todoLists), Some(snapshot.todoItems), Some(snapshot.lastUpdate)))
    ensures Reconcile(Fetched(Some(SyncResponse(Some(data), Some(true)))), parse) == Replaced(snapshot)
  {
  }

  /** A response that is not marked newer, or carries no data, never changes the store. */
  lemma ReconcileIgnoresNotNewer(result: Option<SyncResponse>, parse: Parser)
    requires result.Some? ==> result.value.isNewer != Some(true) || result.value.data.GetOr("") == ""
    ensures Reconcile(Fetched(result), parse) == NothingNewer
  {
  }

  datatype RestoreOutcome =
    | Restored(snapshot: Snapshot)   // the cached blob replaces the store
    | NothingSaved                   // no cached blob
    | Rejected                       // a field is missing or falsy: silently ignored
    | Unreadable                     // the blob does not parse: warned

  /**
   * The start-up restore: the cached blob is applied only when `todoLists`,
   * `todoItems` and `lastUpdate` are all truthy, so a cached `lastUpdate` of 0 is refused.
   */
  function RestoreDecision(saved: Option<string>, parse: Parser): (r: RestoreOutcome)
    ensures r.Restored? ==>
      && saved.Some? && r.snapshot.lastUpdate != 0
      && parse(saved.value) ==
           Some(Payload(Some(r.snapshot.todoLists), Some(r.snapshot.todoItems), Some(r.snapshot.lastUpdate)))
    ensures r.NothingSaved? <==> saved.None?
    ensures r == Unreadable <==> saved.Some? && parse(saved.value).None?
    ensures saved.Some? && parse(saved.value).Some? && Complete(parse(saved.value).value)
            && parse(saved.value).value.lastUpdate.value != 0 ==>
      r == Restored(FromPayload(parse(saved.value).value))
  {
    match saved
    case None => NothingSaved
    case Some(blob) =>
      match parse(blob)
      case None => Unreadable
      case Some(p) =>
        if Complete(p) && p.lastUpdate.value != 0 then Restored(FromPayload(p)) else Rejected
  }

  /**
   * The restore check is strictly stronger than the sync check: whatever it accepts
   * the sync check accepts too, and a complete snapshot with `lastUpdate` 0 passes
   * the sync check but not the restore check.
   */
  lemma RestoreStricterThanReconcile(blob: string, parse: Parser)
    requires blob != ""
    ensures RestoreDecision(Some(blob), parse).Restored? ==>
      Reconcile(Fetched(Some(SyncResponse(Some(blob), Some(true)))), parse)
        == Replaced(RestoreDecision(Some(blob), parse).snapshot)
    ensures parse(blob).Some? && Complete(parse(blob).value) && parse(blob).value.lastUpdate == Some(0) ==>
      && RestoreDecision(Some(blob), parse) == Rejected
      && Reconcile(Fetched(Some(SyncResponse(Some(blob), Some(true)))), parse).Replaced?
  {
  }

  datatype Outcome = Ok | NotFound

  /**
   * The provider's live store. `setStore` is assignment to the three fields;
   * the effect that follows every store change records the snapshot in
   * `pushed` unless its `lastUpdate` is 0.
   */
  class TodoListProvider {
    var todoLists: seq<TodoList>
    var todoItems: seq<Todo>
    var lastUpdate: int
    /** Snapshots handed to `pushSyncData`, oldest first. */
    var pushed: seq<Snapshot>

    function Value(): Snapshot
      reads this
    {
      Snapshot(todoLists, todoItems, lastUpdate)
    }

    /** No snapshot with `lastUpdate` 0 has ever been pushed. */
    predicate Valid()
      reads this
    {
      forall p :: p in pushed ==> ShouldPush(p)
    }

    constructor (listId: string)
      ensures Value() == InitialStore(listId)
      ensures todoLists == [TodoList(listId, "My Todo List")] && todoItems == [] && lastUpdate == 0
      ensures pushed == [] && Valid()
    {
      todoLists := [TodoList(listId, InitialListName)];
      todoItems := [];
      lastUpdate := 0;
      pushed := [];
    }

    /** `setStore(s)` followed by the effect that pushes every non-initial store. */
    method SetStore(s: Snapshot)
      requires Valid()
      modifies this
      ensures Valid()
      ensures Value() == s
      ensures pushed == old(pushed) + (if ShouldPush(s) then [s] else [])
    {
      todoLists, todoItems, lastUpdate := s.todoLists, s.todoItems, s.lastUpdate;
      if s.lastUpdate != 0 {
        pushed := pushed + [s];
      }
    }

    method AddItemToList(newId: string, listId: string, description: string, now: int)
      requires Valid()
      modifies this
      ensures Valid()
      ensures Value() == Step(old(Value()), AddItem(newId, listId, description), now).value
      ensures pushed == old(pushed) + (if ShouldPush(Value()) then [Value()] else [])
    {
      var newTodo := NewTodo(newId, listId, description);
      SetStore(Snapshot(todoLists, todoItems + [newTodo], now));
    }

    method CreateNewList(newId: string, name: string, now: int)
      requires Valid()
      modifies this
      ensures Valid()
      ensures Value() == Step(old(Value()), CreateList(newId, name), now).value
      ensures pushed == old(pushed) + (if ShouldPush(Value()) then [Value()] else [])
    {
      var newList := TodoList(newId, name);
      SetStore(Snapshot(todoLists + [newList], todoItems, now));
    }

    /** Shared by the four operations that rewrite one field of the first item with `todoId`. */
    method RewriteFirst(op: Op, now: int) returns (r: Outcome)
      requires Valid() && op.RewritesField()
      modifies this
      ensures Valid()
      ensures r == Ok <==> Step(old(Value()), op, now).Some?
      ensures Value() == Step(old(Value()), op, now).GetOr(old(Value()))
      ensures pushed == old(pushed) + (if r == Ok && ShouldPush(Value()) then [Value()] else [])
    {
      var found := FirstIndex(todoItems, op.todoId);
      if found.Some? {
        var i := found.value;
        var todo := todoItems[i];
        SetStore(Snapshot(todoLists, todoItems[i := Rewritten(todo, op)], now));
        r := Ok;
      } else {
        r := NotFound;
      }
    }

    method ToggleItemFinished(todoId: string, now: int) returns (r: Outcome)
      requires Valid()
      modifies this
      ensures Valid()
      ensures r == Ok <==> Step(old(Value()), Toggle(todoId), now).Some?
      ensures Value() == Step(old(Value()), Toggle(todoId), now).GetOr(old(Value()))
      ensures pushed == old(pushed) + (if r == Ok && ShouldPush(Value()) then [Value()] else [])
    {
      r := RewriteFirst(Toggle(todoId), now);
    }

    method EditItemDescription(todoId: string, description: string, now: int) returns (r: Outcome)
      requires Valid()
      modifies this
      ensures Valid()
      ensures r == Ok <==> Step(old(Value()), EditDescription(todoId, description), now).Some?
      ensures Value() == Step(old(Value()), EditDescription(todoId, description), now).GetOr(old(Value()))
      ensures pushed == old(pushed) + (if r == Ok && ShouldPush(Value()) then [Value()] else [])
    {
      r := RewriteFirst(EditDescription(todoId, description), now);
    }

    method MoveItemToList(todoId: string, listId: string, now: int) returns (r: Outcome)
      requires Valid()
      modifies this
      ensures Valid()
      ensures r == Ok <==> Step(old(Value()), Move(todoId, listId), now).Some?
      ensures Value() == Step(old(Value()), Move(todoId, listId), now).GetOr(old(Value()))
      ensures pushed == old(pushed) + (if r == Ok && ShouldPush(Value()) then [Value()] else [])
    {
      r := RewriteFirst(Move(todoId, listId), now);
    }

    method SetItemDeadline(todoId: string, deadline: Date, now: int) returns (r: Outcome)
      requires Valid()
      modifies this
      ensures Valid()
      ensures r == Ok <==> Step(old(Value()), SetDeadline(todoId, deadline), now).Some?
      ensures Value() == Step(old(Value()), SetDeadline(todoId, deadline), now).GetOr(old(Value()))
      ensures pushed == old(pushed) + (if r == Ok && ShouldPush(Value()) then [Value()] else [])
    {
      r := RewriteFirst(SetDeadline(todoId, deadline), now);
    }

    method RemoveItem(todoId: string, now: int) returns (r: Outcome)
      requires Valid()
      modifies this
      ensures Valid()
      ensures r == Ok <==> Step(old(Value()), Remove(todoId), now).Some?
      ensures Value() == Step(old(Value()), Remove(todoId), now).GetOr(old(Value()))
      ensures pushed == old(pushed) + (if r == Ok && ShouldPush(Value()) then [Value()] else [])
    {
      var found := FirstIndex(todoItems, todoId);
      if found.Some? {
        var i := found.value;
        SetStore(Snapshot(todoLists, todoItems[..i] + todoItems[i + 1..], now));
        r := Ok;
      } else {
        r := NotFound;
      }
    }

    /** Applies an already fetched result: a whole-store overwrite or nothing. */
    method ApplySync(fetch: Fetch, parse: Parser) returns (r: SyncOutcome)
      requires Valid()
      modifies this
      ensures Valid()
      ensures r == Reconcile(fetch, parse)
      ensures Value() == (if r.Replaced? then r.snapshot else old(Value()))
      ensures pushed == old(pushed) + (if r.Replaced? && ShouldPush(r.snapshot) then [r.snapshot] else [])
    {
      r := Reconcile(fetch, parse);
      if r.Replaced? {
        SetStore(r.snapshot);
      }
    }

    /**
     * `synchronizeData`: asks for anything newer than the current `lastUpdate`
     * and overwrites the store when the rule says so; the local `lastUpdate`
     * plays no further part.
     */
    method SynchronizeData(retrieve: int -> Fetch, parse: Parser) returns (r: SyncOutcome)
      requires Valid()
      modifies this
      ensures Valid()
      ensures r == Reconcile(retrieve(old(lastUpdate)), parse)
      ensures Value() == (if r.Replaced? then r.snapshot else old(Value()))
      ensures pushed == old(pushed) + (if r.Replaced? && ShouldPush(r.snapshot) then [r.snapshot] else [])
    {
      var fetch := retrieve(lastUpdate);
      r := ApplySync(fetch, parse);
    }

    /**
     * The mount effect: restore from the local cache, then synchronize. The
     * `synchronizeData` it calls was captured on the first render, so it asks
     * with the initial store's `lastUpdate`, 0, not with the restored one.
     */
    method Startup(saved: Option<string>, parse: Parser, retrieve: int -> Fetch)
      returns (restored: RestoreOutcome, synced: SyncOutcome)
      requires Valid()
      modifies this
      ensures Valid()
      ensures restored == RestoreDecision(saved, parse)
      ensures synced == Reconcile(retrieve(0), parse)
      ensures pushed == old(pushed)
        + (if restored.Restored? then [restored.snapshot] else [])
        + (if synced.Replaced? && ShouldPush(synced.snapshot) then [synced.snapshot] else [])
      ensures Value() ==
        if synced.Replaced? then synced.snapshot
        else if restored.Restored? then restored.snapshot
        else old(Value())
    {
      restored := RestoreDecision(saved, parse);
      if restored.Restored? {
        SetStore(restored.snapshot);
      }
      synced := ApplySync(retrieve(0), parse);
    }
  }
}
