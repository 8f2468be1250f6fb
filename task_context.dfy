/**
 * The in-memory task store of TaskMaster: four collections (tasks, categories,
 * tags, notes) and the selection state that filters the task list.
 *
 * Each state field of the React provider is a field of `Store`; each operation
 * that replaces a field through its setter is a method. The getters are pure
 * functions of the collections they read, as the provider recomputes them on
 * every call.
 */
module TaskContext {
  import opened Wrappers
  import opened Seqs
  import opened Ordering

  // ---------------------------------------------------------------------------
  // Entities
  // ---------------------------------------------------------------------------

  datatype Priority = Low | Medium | High

  /**
   * A task. `dueDate` and `reminder` are the date strings the UI stores;
   * `note` is the legacy inline note that the Note entity superseded.
   */
  datatype Task = Task(
    id: int,
    title: string,
    completed: bool,
    priority: Priority,
    dueDate: Option<string>,
    categoryId: Option<int>,
    tags: seq<int>,
    reminder: Option<string>,
    note: Option<string>)

  datatype Category = Category(id: int, name: string, color: string)

  datatype Tag = Tag(id: int, name: string, color: string)

  /** A note; `taskId` absent means a standalone note. */
  datatype Note = Note(id: int, content: string, createdAt: string, taskId: Option<int>)

  /**
   * The argument of `importTasks` once the document is parsed: a field is
   * `None` when the document lacks it or it is not an array.
   */
  datatype ImportData = ImportData(
    tasks: Option<seq<Task>>,
    categories: Option<seq<Category>>,
    tags: Option<seq<Tag>>,
    notes: Option<seq<Note>>)

  // ---------------------------------------------------------------------------
  // Id assignment
  // ---------------------------------------------------------------------------

  /** `Math.max(0, ...ids) + 1`: one more than the largest id, or 1 for none. */
  function NextId(ids: seq<int>): (r: int)
    ensures r >= 1
    ensures forall i :: 0 <= i < |ids| ==> ids[i] < r
    ensures ids == [] ==> r == 1
    ensures r == 1 || r - 1 in ids
  {
    if ids == [] then 1
    else
      var rest := NextId(ids[1..]);
      assert forall x :: x in ids[1..] ==> x in ids;
      if ids[0] + 1 > rest then ids[0] + 1 else rest
  }

  function CategoryIds(cs: seq<Category>): seq<int> {
    seq(|cs|, i requires 0 <= i < |cs| => cs[i].id)
  }

  function TagIds(ts: seq<Tag>): seq<int> {
    seq(|ts|, i requires 0 <= i < |ts| => ts[i].id)
  }

  function NoteIds(ns: seq<Note>): seq<int> {
    seq(|ns|, i requires 0 <= i < |ns| => ns[i].id)
  }

  predicate UniqueIds(ids: seq<int>) {
    forall i, j :: 0 <= i < j < |ids| ==> ids[i] != ids[j]
  }

  /** Appending the next id keeps the ids of a collection distinct. */
  lemma NextIdKeepsIdsUnique(ids: seq<int>)
    requires UniqueIds(ids)
    ensures UniqueIds(ids + [NextId(ids)])
  {
    var all := ids + [NextId(ids)];
    forall i, j | 0 <= i < j < |all|
      ensures all[i] != all[j]
    {
      if j == |ids| {
        assert all[i] == ids[i];
      }
    }
  }

  // ---------------------------------------------------------------------------
  // Element-wise updates (the `map` calls of the mutation operations)
  // ---------------------------------------------------------------------------

  /** `toggleTask`'s map: flips `completed` of the tasks whose id is `id`. */
  function WithToggled(ts: seq<Task>, id: int): (r: seq<Task>)
    ensures |r| == |ts|
    ensures forall i :: 0 <= i < |ts| ==> r[i].completed == (ts[i].completed != (ts[i].id == id))
    ensures forall i :: 0 <= i < |ts| ==> r[i].(completed := ts[i].completed) == ts[i]
  {
    seq(|ts|, i requires 0 <= i < |ts| =>
      if ts[i].id == id then ts[i].(completed := !ts[i].completed) else ts[i])
  }

  /** Toggling the same id twice restores the task list. */
  lemma ToggleTwiceIsIdentity(ts: seq<Task>, id: int)
    ensures WithToggled(WithToggled(ts, id), id) == ts
  {
    var r := WithToggled(WithToggled(ts, id), id);
    assert forall i :: 0 <= i < |ts| ==> r[i] == r[i].(completed := ts[i].completed);
  }

  /** Toggling an id that no task has changes nothing. */
  lemma ToggleAbsentIsNoop(ts: seq<Task>, id: int)
    requires forall i :: 0 <= i < |ts| ==> ts[i].id != id
    ensures WithToggled(ts, id) == ts
  {
    var r := WithToggled(ts, id);
    assert forall i :: 0 <= i < |ts| ==> r[i] == r[i].(completed := ts[i].completed);
  }

  /** `setTaskReminder`'s map: replaces `reminder` of the tasks whose id is `id`. */
  function WithReminder(ts: seq<Task>, id: int, reminder: Option<string>): (r: seq<Task>)
    ensures |r| == |ts|
    ensures forall i :: 0 <= i < |ts| ==> r[i].reminder == if ts[i].id == id then reminder else ts[i].reminder
    ensures forall i :: 0 <= i < |ts| ==> r[i].(reminder := ts[i].reminder) == ts[i]
  {
    seq(|ts|, i requires 0 <= i < |ts| =>
      if ts[i].id == id then ts[i].(reminder := reminder) else ts[i])
  }

  /** `removeTag`'s map over the tasks: removes `tagId` from every task's tags. */
  function WithoutTagLinks(ts: seq<Task>, tagId: int): (r: seq<Task>)
    ensures |r| == |ts|
    ensures forall i :: 0 <= i < |ts| ==> r[i].(tags := ts[i].tags) == ts[i]
    ensures forall i :: 0 <= i < |ts| ==> IsSubseq(r[i].tags, ts[i].tags)
    ensures forall i, x :: 0 <= i < |ts| ==>
      multiset(r[i].tags)[x] == if x == tagId then 0 else multiset(ts[i].tags)[x]
    ensures forall i :: 0 <= i < |ts| ==> tagId !in r[i].tags
  {
    seq(|ts|, i requires 0 <= i < |ts| => ts[i].(tags := Filter(ts[i].tags, IsNot(tagId))))
  }

  /** `updateNote`'s map: replaces `content` of the notes whose id is `id`. */
  function WithNoteContent(ns: seq<Note>, id: int, content: string): (r: seq<Note>)
    ensures |r| == |ns|
    ensures forall i :: 0 <= i < |ns| ==> r[i].content == if ns[i].id == id then content else ns[i].content
    ensures forall i :: 0 <= i < |ns| ==> r[i].(content := ns[i].content) == ns[i]
  {
    seq(|ns|, i requires 0 <= i < |ns| =>
      if ns[i].id == id then ns[i].(content := content) else ns[i])
  }

  /** Of two reminder updates of the same id, the later one is what remains. */
  lemma ReminderLastWriteWins(ts: seq<Task>, id: int, first: Option<string>, second: Option<string>)
    ensures WithReminder(WithReminder(ts, id, first), id, second) == WithReminder(ts, id, second)
  {
    var r, q := WithReminder(WithReminder(ts, id, first), id, second), WithReminder(ts, id, second);
    forall i | 0 <= i < |ts|
      ensures r[i] == q[i]
    {
      assert r[i] == r[i].(reminder := ts[i].reminder).(reminder := r[i].reminder);
    }
  }

  /** Of two content updates of the same note id, the later one is what remains. */
  lemma NoteContentLastWriteWins(ns: seq<Note>, id: int, first: string, second: string)
    ensures WithNoteContent(WithNoteContent(ns, id, first), id, second) == WithNoteContent(ns, id, second)
  {
    var r, q := WithNoteContent(WithNoteContent(ns, id, first), id, second), WithNoteContent(ns, id, second);
    forall i | 0 <= i < |ns|
      ensures r[i] == q[i]
    {
      assert r[i] == r[i].(content := ns[i].content).(content := r[i].content);
    }
  }

  /**
   * `toggleSelectedTag`'s update: drops every occurrence of `tagId` when it is
   * selected, appends it otherwise.
   */
  function ToggledTag(selected: seq<int>, tagId: int): (r: seq<int>)
    ensures tagId in r <==> tagId !in selected
    ensures forall x :: x != tagId ==> multiset(r)[x] == multiset(selected)[x]
    ensures tagId in selected ==> IsSubseq(r, selected)
    ensures tagId !in selected ==> r == selected + [tagId]
  {
    if tagId in selected then Filter(selected, IsNot(tagId)) else selected + [tagId]
  }

  function IsNot(v: int): int -> bool {
    (x: int) => x != v
  }

  /** Toggling a tag twice restores which tags are selected, and the list itself when it was unselected. */
  lemma ToggleTagTwice(selected: seq<int>, tagId: int)
    ensures forall x :: x in ToggledTag(ToggledTag(selected, tagId), tagId) <==> x in selected
    ensures tagId !in selected ==> ToggledTag(ToggledTag(selected, tagId), tagId) == selected
  {
    var once := ToggledTag(selected, tagId);
    var twice := ToggledTag(once, tagId);
    forall x
      ensures x in twice <==> x in selected
    {
      assert x in twice <==> x in multiset(twice);
      assert x in once <==> x in multiset(once);
      assert x in selected <==> x in multiset(selected);
    }
    if tagId !in selected {
      FilterAppendRejected(selected, tagId, IsNot(tagId));
      FilterAll(selected, IsNot(tagId));
    }
  }

  // ---------------------------------------------------------------------------
  // Referential integrity between the collections
  // ---------------------------------------------------------------------------

  /** Every category a task names exists; a falsy `categoryId` (absent or 0) names none. */
  predicate CategoriesKnown(ts: seq<Task>, cs: seq<Category>) {
    forall t :: t in ts && Truthy(t.categoryId) ==> exists c :: c in cs && c.id == t.categoryId.value
  }

  /** Every tag a task carries exists. */
  predicate TagsKnown(ts: seq<Task>, gs: seq<Tag>) {
    forall t, x :: t in ts && x in t.tags ==> exists g :: g in gs && g.id == x
  }

  /** Every task a note is attached to exists; a note with a falsy `taskId` (absent or 0) is standalone. */
  predicate NoteTasksKnown(ns: seq<Note>, ts: seq<Task>) {
    forall n :: n in ns && Truthy(n.taskId) ==> exists t :: t in ts && t.id == n.taskId.value
  }

  // ---------------------------------------------------------------------------
  // The filters of the removal operations, and removal undoing addition
  // ---------------------------------------------------------------------------

  function TaskIdIsNot(id: int): Task -> bool {
    (t: Task) => t.id != id
  }

  function NoteNotOfTask(taskId: int): Note -> bool {
    (n: Note) => n.taskId != Some(taskId)
  }

  function CategoryIdIsNot(id: int): Category -> bool {
    (c: Category) => c.id != id
  }

  function TaskNotInCategory(categoryId: int): Task -> bool {
    (t: Task) => t.categoryId != Some(categoryId)
  }

  function TagIdIsNot(id: int): Tag -> bool {
    (g: Tag) => g.id != id
  }

  function NoteIdIsNot(id: int): Note -> bool {
    (n: Note) => n.id != id
  }

  /**
   * Deleting a task just added under an unused id restores the task list. As
   * long as every note's task exists it also removes no note, unless the id
   * is 0: `deleteTask(0)` also drops the standalone notes whose `taskId` is 0.
   */
  lemma DeleteUndoesAddTask(ts: seq<Task>, ns: seq<Note>, task: Task)
    requires forall i :: 0 <= i < |ts| ==> ts[i].id != task.id
    ensures Filter(ts + [task], TaskIdIsNot(task.id)) == ts
    ensures task.id != 0 && NoteTasksKnown(ns, ts) ==> Filter(ns, NoteNotOfTask(task.id)) == ns
  {
    FilterAppendRejected(ts, task, TaskIdIsNot(task.id));
    FilterAll(ts, TaskIdIsNot(task.id));
    if task.id != 0 && NoteTasksKnown(ns, ts) {
      forall i | 0 <= i < |ns|
        ensures NoteNotOfTask(task.id)(ns[i])
      {
        assert ns[i] in ns;
      }
      FilterAll(ns, NoteNotOfTask(task.id));
    }
  }

  /** Deleting the note `addNote` just created restores the notes. */
  lemma DeleteUndoesAddNote(ns: seq<Note>, content: string, createdAt: string, taskId: Option<int>)
    ensures var id := NextId(NoteIds(ns));
      Filter(ns + [Note(id, content, createdAt, taskId)], NoteIdIsNot(id)) == ns
  {
    var id := NextId(NoteIds(ns));
    FilterAppendRejected(ns, Note(id, content, createdAt, taskId), NoteIdIsNot(id));
    forall i | 0 <= i < |ns|
      ensures NoteIdIsNot(id)(ns[i])
    {
      assert NoteIds(ns)[i] == ns[i].id;
    }
    FilterAll(ns, NoteIdIsNot(id));
  }

  /**
   * Removing the category `addCategory` just created restores the categories
   * and, as long as every task's category exists, drops no task.
   */
  lemma RemoveUndoesAddCategory(cs: seq<Category>, ts: seq<Task>, name: string, color: string)
    ensures var id := NextId(CategoryIds(cs));
      Filter(cs + [Category(id, name, color)], CategoryIdIsNot(id)) == cs
    ensures var id := NextId(CategoryIds(cs));
      CategoriesKnown(ts, cs) ==> Filter(ts, TaskNotInCategory(id)) == ts
  {
    var id := NextId(CategoryIds(cs));
    FilterAppendRejected(cs, Category(id, name, color), CategoryIdIsNot(id));
    forall i | 0 <= i < |cs|
      ensures CategoryIdIsNot(id)(cs[i])
    {
      assert CategoryIds(cs)[i] == cs[i].id;
    }
    FilterAll(cs, CategoryIdIsNot(id));
    if CategoriesKnown(ts, cs) {
      assert forall c :: c in cs ==> c.id != id;
      forall i | 0 <= i < |ts|
        ensures TaskNotInCategory(id)(ts[i])
      {
        assert ts[i] in ts;
      }
      FilterAll(ts, TaskNotInCategory(id));
    }
  }

  /**
   * Removing the tag `addTag` just created restores the tags and, as long as
   * every tag a task carries exists, leaves every task as it was.
   */
  lemma RemoveUndoesAddTag(gs: seq<Tag>, ts: seq<Task>, name: string, color: string)
    ensures var id := NextId(TagIds(gs));
      Filter(gs + [Tag(id, name, color)], TagIdIsNot(id)) == gs
    ensures var id := NextId(TagIds(gs));
      TagsKnown(ts, gs) ==> WithoutTagLinks(ts, id) == ts
  {
    var id := NextId(TagIds(gs));
    FilterAppendRejected(gs, Tag(id, name, color), TagIdIsNot(id));
    forall i | 0 <= i < |gs|
      ensures TagIdIsNot(id)(gs[i])
    {
      assert TagIds(gs)[i] == gs[i].id;
    }
    FilterAll(gs, TagIdIsNot(id));
    if TagsKnown(ts, gs) {
      var r := WithoutTagLinks(ts, id);
      forall i | 0 <= i < |ts|
        ensures r[i] == ts[i]
      {
        forall k | 0 <= k < |ts[i].tags|
          ensures IsNot(id)(ts[i].tags[k])
        {
          assert ts[i] in ts && ts[i].tags[k] in ts[i].tags;
        }
        FilterAll(ts[i].tags, IsNot(id));
      }
    }
  }

  // ---------------------------------------------------------------------------
  // Queries
  // ---------------------------------------------------------------------------

  /**
   * `getFilteredTasks`' filter: no category selected (a falsy selection) or the
   * task's category is the selected one; and every selected tag is on the task.
   */
  predicate MatchesSelection(t: Task, selectedCategory: Option<int>, selectedTags: seq<int>)
    ensures !Truthy(selectedCategory) && selectedTags == [] ==> MatchesSelection(t, selectedCategory, selectedTags)
    ensures MatchesSelection(t, selectedCategory, selectedTags) && Truthy(selectedCategory) ==>
      t.categoryId == selectedCategory
    ensures MatchesSelection(t, selectedCategory, selectedTags) ==> forall x :: x in selectedTags ==> x in t.tags
  {
    (!Truthy(selectedCategory) || t.categoryId == selectedCategory) &&
    (|selectedTags| == 0 || forall i :: 0 <= i < |selectedTags| ==> selectedTags[i] in t.tags)
  }

  /** A falsy selected category (absent or 0) filters exactly as no selection at all. */
  lemma FalsyCategoryIsNoSelection(t: Task, selectedCategory: Option<int>, selectedTags: seq<int>)
    requires !Truthy(selectedCategory)
    ensures MatchesSelection(t, selectedCategory, selectedTags) <==> MatchesSelection(t, None, selectedTags)
  {
  }

  function Selection(selectedCategory: Option<int>, selectedTags: seq<int>): Task -> bool {
    t => MatchesSelection(t, selectedCategory, selectedTags)
  }

  /** The weights of `priorityOrder`. */
  function PriorityRank(p: Priority): (r: int)
    ensures 1 <= r <= 3
  {
    match p
    case High => 3
    case Medium => 2
    case Low => 1
  }

  /** Distinct priorities have distinct weights, ordered low, medium, high. */
  lemma PriorityRankOrder(p: Priority, q: Priority)
    ensures PriorityRank(p) == PriorityRank(q) <==> p == q
    ensures PriorityRank(p) < PriorityRank(q) <==> (p == Low && q != Low) || (p == Medium && q == High)
  {
  }

  /** The comparator `getFilteredTasks` passes to `sort`. */
  function CompareTasks(a: Task, b: Task): (r: int)
    ensures r == 0 <==> a.completed == b.completed && a.priority == b.priority && a.id == b.id
    ensures a.completed != b.completed ==> (r < 0 <==> b.completed)
    ensures a.completed == b.completed && a.priority != b.priority ==>
      (r < 0 <==> PriorityRank(a.priority) > PriorityRank(b.priority))
    ensures a.completed == b.completed && a.priority == b.priority ==> (r < 0 <==> a.id > b.id)
  {
    if a.completed != b.completed then (if a.completed then 1 else -1)
    else if a.priority != b.priority then PriorityRank(b.priority) - PriorityRank(a.priority)
    else b.id - a.id
  }

  /** The sort key of the task list: incomplete first, then higher priority, then larger id. */
  function StatusKey(t: Task): seq<int> {
    [if t.completed then 1 else 0, -PriorityRank(t.priority), -t.id]
  }

  /** The comparator's sign is the order of the keys, so sorting by key is the sort `getFilteredTasks` performs. */
  lemma CompareTasksFollowsKey(a: Task, b: Task)
    ensures CompareTasks(a, b) < 0 <==> LexLess(StatusKey(a), StatusKey(b))
    ensures CompareTasks(a, b) > 0 <==> LexLess(StatusKey(b), StatusKey(a))
    ensures CompareTasks(a, b) == 0 <==> StatusKey(a) == StatusKey(b)
  {
    var ca, cb := if a.completed then 1 else 0, if b.completed then 1 else 0;
    LexLessOfTriples(ca, -PriorityRank(a.priority), -a.id, cb, -PriorityRank(b.priority), -b.id);
    LexLessOfTriples(cb, -PriorityRank(b.priority), -b.id, ca, -PriorityRank(a.priority), -a.id);
  }

  lemma LexLessOfTriples(x0: int, x1: int, x2: int, y0: int, y1: int, y2: int)
    ensures LexLess([x0, x1, x2], [y0, y1, y2]) <==>
            x0 < y0 || (x0 == y0 && (x1 < y1 || (x1 == y1 && x2 < y2)))
  {
    var x, y := [x0, x1, x2], [y0, y1, y2];
    assert x[1..] == [x1, x2] && y[1..] == [y1, y2];
    assert x[1..][1..] == [x2] && y[1..][1..] == [y2];
    assert x[1..][1..][1..] == [] && y[1..][1..][1..] == [];
    assert LexLess([x2], [y2]) <==> x2 < y2;
    assert LexLess([x1, x2], [y1, y2]) <==> x1 < y1 || (x1 == y1 && LexLess([x2], [y2]));
    assert LexLess(x, y) <==> x0 < y0 || (x0 == y0 && LexLess([x1, x2], [y1, y2]));
  }

  /** `getFilteredTasks`: the selected tasks, in the list order. */
  function FilteredTasks(tasks: seq<Task>, selectedCategory: Option<int>, selectedTags: seq<int>): (r: seq<Task>)
    ensures forall t :: multiset(r)[t] ==
                        (if MatchesSelection(t, selectedCategory, selectedTags) then multiset(tasks)[t] else 0)
    ensures forall t :: t in r <==> t in tasks && MatchesSelection(t, selectedCategory, selectedTags)
    ensures SortedBy(r, StatusKey)
  {
    var selected := Filter(tasks, Selection(selectedCategory, selectedTags));
    var r := SortBy(selected, StatusKey);
    assert forall t :: t in r <==> t in multiset(r);
    r
  }

  /** The list order spelled out: incomplete before completed, then priority high to low, then id descending. */
  lemma FilteredTasksOrdered(tasks: seq<Task>, selectedCategory: Option<int>, selectedTags: seq<int>)
    ensures var r := FilteredTasks(tasks, selectedCategory, selectedTags);
      forall i, j :: 0 <= i < j < |r| ==>
        (r[i].completed ==> r[j].completed) &&
        (r[i].completed == r[j].completed ==> PriorityRank(r[i].priority) >= PriorityRank(r[j].priority)) &&
        (r[i].completed == r[j].completed && r[i].priority == r[j].priority ==> r[i].id >= r[j].id)
  {
    var r := FilteredTasks(tasks, selectedCategory, selectedTags);
    forall i, j | 0 <= i < j < |r|
      ensures (r[i].completed ==> r[j].completed) &&
        (r[i].completed == r[j].completed ==> PriorityRank(r[i].priority) >= PriorityRank(r[j].priority)) &&
        (r[i].completed == r[j].completed && r[i].priority == r[j].priority ==> r[i].id >= r[j].id)
    {
      assert !LexLess(StatusKey(r[j]), StatusKey(r[i]));
      CompareTasksFollowsKey(r[j], r[i]);
    }
  }

  /** Tasks the comparator ranks equal keep their relative order (the sort is stable). */
  lemma FilteredTasksStable(tasks: seq<Task>, selectedCategory: Option<int>, selectedTags: seq<int>, k: seq<int>)
    ensures Filter(FilteredTasks(tasks, selectedCategory, selectedTags), HasKey(StatusKey, k)) ==
            Filter(Filter(tasks, Selection(selectedCategory, selectedTags)), HasKey(StatusKey, k))
  {
    SortByStable(Filter(tasks, Selection(selectedCategory, selectedTags)), StatusKey, k);
  }

  /**
   * A completed high-priority task 1, an open low-priority task 2 and an open
   * high-priority task 3 are listed as 3, 2, 1.
   */
  lemma FilteredTasksExample()
    ensures var t1 := Task(1, "a", true, High, None, None, [], None, None);
      var t2 := Task(2, "b", false, Low, None, None, [], None, None);
      var t3 := Task(3, "c", false, High, None, None, [], None, None);
      FilteredTasks([t1, t2, t3], None, []) == [t3, t2, t1]
  {
    var t1 := Task(1, "a", true, High, None, None, [], None, None);
    var t2 := Task(2, "b", false, Low, None, None, [], None, None);
    var t3 := Task(3, "c", false, High, None, None, [], None, None);
    FilterAll([t1, t2, t3], Selection(None, []));
    SortExample(t1, t2, t3);
  }

  lemma SortExample(t1: Task, t2: Task, t3: Task)
    requires StatusKey(t1) == [1, -3, -1] && StatusKey(t2) == [0, -1, -2] && StatusKey(t3) == [0, -3, -3]
    ensures SortBy([t1, t2, t3], StatusKey) == [t3, t2, t1]
  {
    assert [t1, t2, t3][1..] == [t2, t3] && [t2, t3][1..] == [t3];
    assert SortBy([t3], StatusKey) == [t3];
    LexLessOfTriples(0, -3, -3, 0, -1, -2);
    InsertExample(t2, [t3], [t3, t2]);
    LexLessOfTriples(0, -1, -2, 1, -3, -1);
    InsertExample(t1, [t2], [t2, t1]);
    LexLessOfTriples(0, -3, -3, 1, -3, -1);
    InsertExample(t1, [t3, t2], [t3, t2, t1]);
  }

  /** One step of insertion: `x` goes after a head whose key is smaller. */
  lemma InsertExample(x: Task, s: seq<Task>, r: seq<Task>)
    requires s != [] && LexLess(StatusKey(s[0]), StatusKey(x))
    requires r != [] && r[0] == s[0] && Insert(x, s[1..], StatusKey) == r[1..]
    ensures Insert(x, s, StatusKey) == r
  {
    assert r == [r[0]] + r[1..];
  }

  /** `getTasksByCategory`: the tasks of one category, in insertion order. */
  function TasksByCategory(tasks: seq<Task>, categoryId: int): (r: seq<Task>)
    ensures IsSubseq(r, tasks)
    ensures forall t :: multiset(r)[t] == if t.categoryId == Some(categoryId) then multiset(tasks)[t] else 0
  {
    Filter(tasks, (t: Task) => t.categoryId == Some(categoryId))
  }

  /** `getTasksByDate`: the tasks due exactly on `date`, in insertion order. */
  function TasksByDate(tasks: seq<Task>, date: string): (r: seq<Task>)
    ensures IsSubseq(r, tasks)
    ensures forall t :: multiset(r)[t] == if t.dueDate == Some(date) then multiset(tasks)[t] else 0
  {
    Filter(tasks, (t: Task) => t.dueDate == Some(date))
  }

  function NoteOfTask(taskId: Option<int>): Note -> bool {
    (n: Note) => n.taskId == taskId
  }

  /** `getNotesByTask`: the notes attached to one task, in insertion order. */
  function NotesByTask(notes: seq<Note>, taskId: int): (r: seq<Note>)
    ensures IsSubseq(r, notes)
    ensures forall n :: multiset(r)[n] == if n.taskId == Some(taskId) then multiset(notes)[n] else 0
  {
    Filter(notes, NoteOfTask(Some(taskId)))
  }

  /** `getStandaloneNotes`: the notes with a falsy `taskId` (absent or 0), in insertion order. */
  function StandaloneNotes(notes: seq<Note>): (r: seq<Note>)
    ensures IsSubseq(r, notes)
    ensures forall n :: multiset(r)[n] == if !Truthy(n.taskId) then multiset(notes)[n] else 0
  {
    Filter(notes, (n: Note) => !Truthy(n.taskId))
  }

  /**
   * The instant `new Date(t.reminder)` denotes, as `parse` gives it; 0 when
   * the task has no reminder or it does not parse (such tasks are never sorted).
   */
  function ReminderTime(t: Task, parse: string -> Option<int>): int {
    match t.reminder
    case None => 0
    case Some(s) => match parse(s) case Some(ms) => ms case None => 0
  }

  /** `task.reminder && new Date(task.reminder) > now`. */
  predicate IsUpcoming(t: Task, now: int, parse: string -> Option<int>)
    ensures IsUpcoming(t, now, parse) ==> now < ReminderTime(t, parse)
    ensures t.reminder.None? || t.reminder == Some("") ==> !IsUpcoming(t, now, parse)
  {
    t.reminder.Some? && t.reminder.value != "" &&
    parse(t.reminder.value).Some? && parse(t.reminder.value).value > now
  }

  function Upcoming(now: int, parse: string -> Option<int>): Task -> bool {
    t => IsUpcoming(t, now, parse)
  }

  /** The comparator `getUpcomingReminders` passes to `sort`. */
  function CompareReminders(a: Task, b: Task, parse: string -> Option<int>): (r: int)
    ensures a.reminder.Some? && b.reminder.Some? && parse(a.reminder.value).Some? && parse(b.reminder.value).Some? ==>
      (r < 0 <==> parse(a.reminder.value).value < parse(b.reminder.value).value) &&
      (r == 0 <==> parse(a.reminder.value).value == parse(b.reminder.value).value)
  {
    ReminderTime(a, parse) - ReminderTime(b, parse)
  }

  function ReminderKey(parse: string -> Option<int>): Task -> seq<int> {
    t => [ReminderTime(t, parse)]
  }

  lemma CompareRemindersFollowsKey(a: Task, b: Task, parse: string -> Option<int>)
    ensures CompareReminders(a, b, parse) < 0 <==> LexLess(ReminderKey(parse)(a), ReminderKey(parse)(b))
    ensures CompareReminders(a, b, parse) == 0 <==> ReminderKey(parse)(a) == ReminderKey(parse)(b)
  {
    var ka, kb := ReminderKey(parse)(a), ReminderKey(parse)(b);
    assert ka[1..] == [] && kb[1..] == [];
  }

  /**
   * `getUpcomingReminders`: the tasks whose reminder lies after `now`, soonest
   * first. `now` and the date parser are parameters.
   */
  function UpcomingReminders(tasks: seq<Task>, now: int, parse: string -> Option<int>): (r: seq<Task>)
    ensures forall t :: multiset(r)[t] == if IsUpcoming(t, now, parse) then multiset(tasks)[t] else 0
    ensures forall i :: 0 <= i < |r| ==> IsUpcoming(r[i], now, parse)
    ensures SortedBy(r, ReminderKey(parse))
  {
    var upcoming := Filter(tasks, Upcoming(now, parse));
    var r := SortBy(upcoming, ReminderKey(parse));
    assert forall i :: 0 <= i < |r| ==> Upcoming(now, parse)(r[i]) by {
      forall i | 0 <= i < |r|
        ensures Upcoming(now, parse)(r[i])
      {
        assert r[i] in multiset(upcoming);
        var k :| 0 <= k < |upcoming| && upcoming[k] == r[i];
      }
    }
    r
  }

  /** The reminders come out soonest first, and all lie after `now`. */
  lemma UpcomingRemindersChronological(tasks: seq<Task>, now: int, parse: string -> Option<int>)
    ensures var r := UpcomingReminders(tasks, now, parse);
      forall i, j :: 0 <= i < j < |r| ==>
        now < ReminderTime(r[i], parse) <= ReminderTime(r[j], parse)
  {
    var r := UpcomingReminders(tasks, now, parse);
    forall i, j | 0 <= i < j < |r|
      ensures now < ReminderTime(r[i], parse) <= ReminderTime(r[j], parse)
    {
      assert !LexLess(ReminderKey(parse)(r[j]), ReminderKey(parse)(r[i]));
      CompareRemindersFollowsKey(r[j], r[i], parse);
    }
  }

  /** Tasks whose reminders fall on the same instant keep their relative order (the sort is stable). */
  lemma UpcomingRemindersStable(tasks: seq<Task>, now: int, parse: string -> Option<int>, k: seq<int>)
    ensures Filter(UpcomingReminders(tasks, now, parse), HasKey(ReminderKey(parse), k)) ==
            Filter(Filter(tasks, Upcoming(now, parse)), HasKey(ReminderKey(parse), k))
  {
    SortByStable(Filter(tasks, Upcoming(now, parse)), ReminderKey(parse), k);
  }

  // ---------------------------------------------------------------------------
  // The store
  // ---------------------------------------------------------------------------

  const SeedCategories: seq<Category> := [
    Category(1, "Arbeit", "#3b82f6"),
    Category(2, "Privat", "#22c55e"),
    Category(3, "Hobby", "#a855f7")]

  const SeedTags: seq<Tag> := [
    Tag(1, "Wichtig", "#ef4444"),
    Tag(2, "Routine", "#8b5cf6")]

  const SeedTasks: seq<Task> := [
    Task(1, "Beispiel Eintrag", true, High, Some("2024-11-17"), Some(0), [1],
         Some("2024-03-20T09:00"), Some("Importieren Sie Ihre JSON!"))]

  const SeedNotes: seq<Note> := [
    Note(1, "Importieren Sie Ihre JSON!", "2024-03-18T10:00:00", Some(1)),
    Note(2, "Allgemeine Notiz ohne zugeh\U{00C3}\U{00B6}rige Aufgabe", "2024-03-18T11:00:00", None)]

  /** The initial collections are consistent: every category, tag and task referred to exists. */
  lemma SeedIsConsistent()
    ensures CategoriesKnown(SeedTasks, SeedCategories)
    ensures TagsKnown(SeedTasks, SeedTags)
    ensures NoteTasksKnown(SeedNotes, SeedTasks)
  {
  }

  class Store {
    var tasks: seq<Task>
    var categories: seq<Category>
    var tags: seq<Tag>
    var notes: seq<Note>
    var selectedCategory: Option<int>
    var selectedTags: seq<int>

    /** The provider's initial state. */
    constructor ()
      ensures tasks == SeedTasks && categories == SeedCategories
      ensures tags == SeedTags && notes == SeedNotes
      ensures selectedCategory == None && selectedTags == []
    {
      tasks, categories, tags, notes := SeedTasks, SeedCategories, SeedTags, SeedNotes;
      selectedCategory, selectedTags := None, [];
    }

    /** Appends the task as given: the caller chose its id and nothing checks it. */
    method AddTask(task: Task)
      modifies this`tasks
      ensures tasks == old(tasks) + [task]
    {
      tasks := tasks + [task];
    }

    method ToggleTask(id: int)
      modifies this`tasks
      ensures tasks == WithToggled(old(tasks), id)
    {
      tasks := WithToggled(tasks, id);
    }

    /** Drops the tasks with that id and the notes attached to it; categories and tags stay. */
    method DeleteTask(id: int)
      modifies this`tasks, this`notes
      ensures tasks == Filter(old(tasks), TaskIdIsNot(id))
      ensures notes == Filter(old(notes), NoteNotOfTask(id))
      ensures IsSubseq(tasks, old(tasks))
      ensures forall t :: multiset(tasks)[t] == if t.id != id then multiset(old(tasks))[t] else 0
      ensures IsSubseq(notes, old(notes))
      ensures forall n :: multiset(notes)[n] == if n.taskId != Some(id) then multiset(old(notes))[n] else 0
      ensures NoteTasksKnown(old(notes), old(tasks)) ==> NoteTasksKnown(notes, tasks)
    {
      ghost var oldTasks, oldNotes := tasks, notes;
      tasks := Filter(tasks, TaskIdIsNot(id));
      notes := Filter(notes, NoteNotOfTask(id));
      if NoteTasksKnown(oldNotes, oldTasks) {
        forall n | n in notes && Truthy(n.taskId)
          ensures exists t :: t in tasks && t.id == n.taskId.value
        {
          assert n in multiset(notes);
          assert n in oldNotes;
          var t :| t in oldTasks && t.id == n.taskId.value;
          assert t in multiset(tasks);
        }
      }
    }

    method AddCategory(name: string, color: string)
      modifies this`categories
      ensures categories == old(categories) + [Category(NextId(CategoryIds(old(categories))), name, color)]
      ensures forall i :: 0 <= i < |old(categories)| ==> old(categories)[i].id < categories[|categories| - 1].id
      ensures UniqueIds(CategoryIds(old(categories))) ==> UniqueIds(CategoryIds(categories))
    {
      var id := NextId(CategoryIds(categories));
      assert forall i :: 0 <= i < |categories| ==> CategoryIds(categories)[i] == categories[i].id;
      if UniqueIds(CategoryIds(categories)) {
        NextIdKeepsIdsUnique(CategoryIds(categories));
        assert CategoryIds(categories) + [id] == CategoryIds(categories + [Category(id, name, color)]);
      }
      categories := categories + [Category(id, name, color)];
    }

    /** Drops the category and every task in it; the notes of those tasks stay. */
    method RemoveCategory(id: int)
      modifies this`categories, this`tasks
      ensures categories == Filter(old(categories), CategoryIdIsNot(id))
      ensures tasks == Filter(old(tasks), TaskNotInCategory(id))
      ensures IsSubseq(categories, old(categories))
      ensures forall c :: multiset(categories)[c] == if c.id != id then multiset(old(categories))[c] else 0
      ensures IsSubseq(tasks, old(tasks))
      ensures forall t :: multiset(tasks)[t] ==
                          (if t.categoryId != Some(id) then multiset(old(tasks))[t] else 0)
      ensures CategoriesKnown(old(tasks), old(categories)) ==> CategoriesKnown(tasks, categories)
    {
      ghost var oldTasks, oldCategories := tasks, categories;
      categories := Filter(categories, CategoryIdIsNot(id));
      tasks := Filter(tasks, TaskNotInCategory(id));
      if CategoriesKnown(oldTasks, oldCategories) {
        forall t | t in tasks && Truthy(t.categoryId)
          ensures exists c :: c in categories && c.id == t.categoryId.value
        {
          assert t in multiset(tasks);
          assert t in oldTasks;
          var c :| c in oldCategories && c.id == t.categoryId.value;
          assert c in multiset(categories);
        }
      }
    }

    method AddTag(name: string, color: string)
      modifies this`tags
      ensures tags == old(tags) + [Tag(NextId(TagIds(old(tags))), name, color)]
      ensures forall i :: 0 <= i < |old(tags)| ==> old(tags)[i].id < tags[|tags| - 1].id
      ensures UniqueIds(TagIds(old(tags))) ==> UniqueIds(TagIds(tags))
    {
      var id := NextId(TagIds(tags));
      assert forall i :: 0 <= i < |tags| ==> TagIds(tags)[i] == tags[i].id;
      if UniqueIds(TagIds(tags)) {
        NextIdKeepsIdsUnique(TagIds(tags));
        assert TagIds(tags) + [id] == TagIds(tags + [Tag(id, name, color)]);
      }
      tags := tags + [Tag(id, name, color)];
    }

    /** Drops the tag and unlinks it from every task; every task stays. */
    method RemoveTag(id: int)
      modifies this`tags, this`tasks
      ensures tags == Filter(old(tags), TagIdIsNot(id))
      ensures IsSubseq(tags, old(tags))
      ensures forall g :: multiset(tags)[g] == if g.id != id then multiset(old(tags))[g] else 0
      ensures tasks == WithoutTagLinks(old(tasks), id)
      ensures TagsKnown(old(tasks), old(tags)) ==> TagsKnown(tasks, tags)
    {
      ghost var oldTasks, oldTags := tasks, tags;
      tags := Filter(tags, TagIdIsNot(id));
      tasks := WithoutTagLinks(tasks, id);
      if TagsKnown(oldTasks, oldTags) {
        forall t, x | t in tasks && x in t.tags
          ensures exists g :: g in tags && g.id == x
        {
          var i :| 0 <= i < |tasks| && tasks[i] == t;
          assert x in multiset(tasks[i].tags);
          assert oldTasks[i] in oldTasks && x in oldTasks[i].tags;
          var g :| g in oldTags && g.id == x;
          assert g in multiset(tags);
        }
      }
    }

    method AddNote(content: string, createdAt: string, taskId: Option<int>)
      modifies this`notes
      ensures notes == old(notes) + [Note(NextId(NoteIds(old(notes))), content, createdAt, taskId)]
      ensures forall i :: 0 <= i < |old(notes)| ==> old(notes)[i].id < notes[|notes| - 1].id
      ensures UniqueIds(NoteIds(old(notes))) ==> UniqueIds(NoteIds(notes))
    {
      var id := NextId(NoteIds(notes));
      assert forall i :: 0 <= i < |notes| ==> NoteIds(notes)[i] == notes[i].id;
      if UniqueIds(NoteIds(notes)) {
        NextIdKeepsIdsUnique(NoteIds(notes));
        assert NoteIds(notes) + [id] == NoteIds(notes + [Note(id, content, createdAt, taskId)]);
      }
      notes := notes + [Note(id, content, createdAt, taskId)];
    }

    method UpdateNote(id: int, content: string)
      modifies this`notes
      ensures notes == WithNoteContent(old(notes), id, content)
    {
      notes := WithNoteContent(notes, id, content);
    }

    method DeleteNote(id: int)
      modifies this`notes
      ensures notes == Filter(old(notes), NoteIdIsNot(id))
      ensures IsSubseq(notes, old(notes))
      ensures forall n :: multiset(notes)[n] == if n.id != id then multiset(old(notes))[n] else 0
    {
      notes := Filter(notes, NoteIdIsNot(id));
    }

    method SetTaskReminder(id: int, reminder: Option<string>)
      modifies this`tasks
      ensures tasks == WithReminder(old(tasks), id, reminder)
    {
      tasks := WithReminder(tasks, id, reminder);
    }

    method SetSelectedCategory(categoryId: Option<int>)
      modifies this`selectedCategory
      ensures selectedCategory == categoryId
    {
      selectedCategory := categoryId;
    }

    method ToggleSelectedTag(tagId: int)
      modifies this`selectedTags
      ensures selectedTags == ToggledTag(old(selectedTags), tagId)
    {
      selectedTags := ToggledTag(selectedTags, tagId);
    }

    /** Replaces each collection the document supplies as an array; leaves the others. */
    method ImportTasks(data: ImportData)
      modifies this`tasks, this`categories, this`tags, this`notes
      ensures tasks == if data.tasks.Some? then data.tasks.value else old(tasks)
      ensures categories == if data.categories.Some? then data.categories.value else old(categories)
      ensures tags == if data.tags.Some? then data.tags.value else old(tags)
      ensures notes == if data.notes.Some? then data.notes.value else old(notes)
    {
      if data.tasks.Some? { tasks := data.tasks.value; }
      if data.categories.Some? { categories := data.categories.value; }
      if data.tags.Some? { tags := data.tags.value; }
      if data.notes.Some? { notes := data.notes.value; }
    }

    /** The four collections as `exportTasks` writes them, before serialisation. */
    function ExportData(): ImportData
      reads this
    {
      ImportData(Some(tasks), Some(categories), Some(tags), Some(notes))
    }
  }

  /**
   * `deleteTask` right after `addTask` of a task with an unused id restores the
   * tasks; as long as every note's task exists, the notes too unless the id is 0.
   */
  method AddThenDeleteTask(store: Store, task: Task)
    requires forall i :: 0 <= i < |store.tasks| ==> store.tasks[i].id != task.id
    modifies store`tasks, store`notes
    ensures store.tasks == old(store.tasks)
    ensures task.id != 0 && NoteTasksKnown(old(store.notes), old(store.tasks)) ==> store.notes == old(store.notes)
    ensures task.id == 0 ==> store.notes == Filter(old(store.notes), NoteNotOfTask(0))
  {
    ghost var ts, ns := store.tasks, store.notes;
    store.AddTask(task);
    store.DeleteTask(task.id);
    DeleteUndoesAddTask(ts, ns, task);
  }

  /** `deleteNote` of the note `addNote` just created leaves the notes as they were. */
  method AddThenDeleteNote(store: Store, content: string, createdAt: string, taskId: Option<int>)
    modifies store`notes
    ensures store.notes == old(store.notes)
  {
    ghost var ns := store.notes;
    store.AddNote(content, createdAt, taskId);
    store.DeleteNote(store.notes[|store.notes| - 1].id);
    DeleteUndoesAddNote(ns, content, createdAt, taskId);
  }

  /**
   * `removeCategory` of the category `addCategory` just created restores the
   * categories and, as long as every task's category exists, the tasks.
   */
  method AddThenRemoveCategory(store: Store, name: string, color: string)
    modifies store`categories, store`tasks
    ensures store.categories == old(store.categories)
    ensures CategoriesKnown(old(store.tasks), old(store.categories)) ==> store.tasks == old(store.tasks)
  {
    ghost var cs, ts := store.categories, store.tasks;
    store.AddCategory(name, color);
    store.RemoveCategory(store.categories[|store.categories| - 1].id);
    RemoveUndoesAddCategory(cs, ts, name, color);
  }

  /**
   * `removeTag` of the tag `addTag` just created restores the tags and, as long
   * as every tag a task carries exists, the tasks.
   */
  method AddThenRemoveTag(store: Store, name: string, color: string)
    modifies store`tags, store`tasks
    ensures store.tags == old(store.tags)
    ensures TagsKnown(old(store.tasks), old(store.tags)) ==> store.tasks == old(store.tasks)
  {
    ghost var gs, ts := store.tags, store.tasks;
    store.AddTag(name, color);
    store.RemoveTag(store.tags[|store.tags| - 1].id);
    RemoveUndoesAddTag(gs, ts, name, color);
  }

  /** Importing what was just exported leaves every collection as it was. */
  method ExportThenImport(store: Store)
    modifies store`tasks, store`categories, store`tags, store`notes
    ensures store.tasks == old(store.tasks) && store.categories == old(store.categories)
    ensures store.tags == old(store.tags) && store.notes == old(store.notes)
  {
    var d := store.ExportData();
    store.ImportTasks(d);
  }
}
