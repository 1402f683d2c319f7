/** The items a list screen shows: `todoItems.filter(item => item.listId === selectedList)`. */
module TodoView {
  import opened Sequences
  import opened TodoStore

  function VisibleItems(items: seq<Todo>, selectedList: string): (r: seq<Todo>)
    ensures forall t :: t in r <==> t in items && t.listId == selectedList
    ensures IsSubsequence(r, items)
    ensures |r| <= |items|
    ensures forall t :: multiset(r)[t] == if t.listId == selectedList then multiset(items)[t] else 0
    decreases |items|
  {
    if items == [] then []
    else
      var rest := VisibleItems(items[1..], selectedList);
      assert [items[0]] + items[1..] == items;
      assert multiset(items) == multiset{items[0]} + multiset(items[1..]);
      assert forall t :: t in items ==> t == items[0] || t in items[1..];
      if items[0].listId == selectedList then
        assert ([items[0]] + rest)[1..] == rest;
        [items[0]] + rest
      else
        SubsequenceCons(rest, items[0], items[1..]);
        rest
  }

  /** An item whose `listId` names no existing list is hidden from every real list's view. */
  lemma DanglingItemIsHidden(lists: seq<TodoList>, items: seq<Todo>, selectedList: string, t: Todo)
    requires exists l :: l in lists && l.id == selectedList
    requires forall l :: l in lists ==> l.id != t.listId
    ensures t !in VisibleItems(items, selectedList)
  {
  }

  /** Moving an item to a list id that does not exist succeeds and hides it from every real list. */
  lemma MoveToMissingListHides(s: Snapshot, todoId: string, target: string, now: int, selectedList: string)
    requires HasItem(s.todoItems, todoId)
    requires forall l :: l in s.todoLists ==> l.id != target
    requires exists l :: l in s.todoLists && l.id == selectedList
    ensures Step(s, Move(todoId, target), now).Some?
    ensures var s' := Step(s, Move(todoId, target), now).value;
      var i := FirstIndex(s.todoItems, todoId).value;
      s'.todoItems[i] !in VisibleItems(s'.todoItems, selectedList)
  {
  }
}
