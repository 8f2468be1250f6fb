/**
 * The note editor dialog: which text it loads for a task, and how saving
 * turns that text into a new or an updated note in the store.
 */
module NoteEditor {
  import opened Wrappers
  import opened Seqs
  import opened TaskContext

  /**
   * The characters `String.prototype.trim` removes: ECMAScript's WhiteSpace
   * (tab, vertical tab, form feed, space, no-break space, byte order mark and
   * the Unicode space separators) and LineTerminator.
   */
  const Whitespace: set<char> := {
    '\t', '\U{000B}', '\U{000C}', ' ', '\U{00A0}', '\U{FEFF}', '\U{1680}',
    '\U{2000}', '\U{2001}', '\U{2002}', '\U{2003}', '\U{2004}', '\U{2005}',
    '\U{2006}', '\U{2007}', '\U{2008}', '\U{2009}', '\U{200A}',
    '\U{202F}', '\U{205F}', '\U{3000}',
    '\n', '\r', '\U{2028}', '\U{2029}'
  }

  predicate IsWhitespace(c: char) {
    c in Whitespace
  }

  /** `s` without its leading whitespace. */
  function TrimStart(s: string): (r: string)
    ensures |r| <= |s| && r == s[|s| - |r|..]
    ensures forall k :: 0 <= k < |s| - |r| ==> IsWhitespace(s[k])
    ensures r != [] ==> !IsWhitespace(r[0])
  {
    if s == [] || !IsWhitespace(s[0]) then s else TrimStart(s[1..])
  }

  /** `s` without its trailing whitespace. */
  function TrimEnd(s: string): (r: string)
    ensures |r| <= |s| && r == s[..|r|]
    ensures forall k :: |r| <= k < |s| ==> IsWhitespace(s[k])
    ensures r != [] ==> !IsWhitespace(r[|r| - 1])
  {
    if s == [] || !IsWhitespace(s[|s| - 1]) then s else TrimEnd(s[..|s| - 1])
  }

  /**
   * `s.trim()`: `s` without its leading and its trailing whitespace; empty
   * exactly when `s` is all whitespace.
   */
  function Trim(s: string): (r: string)
    ensures r == [] <==> forall k :: 0 <= k < |s| ==> IsWhitespace(s[k])
    ensures r != [] ==> !IsWhitespace(r[0]) && !IsWhitespace(r[|r| - 1])
    ensures exists a, b :: 0 <= a <= b <= |s| && r == s[a..b]
  {
    var rest := TrimStart(s);
    var r := TrimEnd(rest);
    assert r != [] ==> r[0] == rest[0];
    var a := |s| - |rest|;
    assert r == s[a..a + |r|] by {
      assert r == rest[..|r|] && rest == s[a..];
    }
    r
  }

  /**
   * `Trim` is `s.trim()` exactly: a contiguous piece of `s` outside of which
   * every character is whitespace.
   */
  lemma TrimDropsOnlyWhitespace(s: string)
    ensures exists a, b ::
      (0 <= a <= b <= |s| && Trim(s) == s[a..b] &&
       forall k :: 0 <= k < |s| && (k < a || b <= k) ==> IsWhitespace(s[k]))
  {
    var rest := TrimStart(s);
    var r := Trim(s);
    assert r == TrimEnd(rest);
    var a := |s| - |rest|;
    assert r == s[a..a + |r|] by {
      assert r == rest[..|r|] && rest == s[a..];
    }
    forall k | a + |r| <= k < |s|
      ensures IsWhitespace(s[k])
    {
      assert s[k] == rest[k - a];
    }
  }

  function TaskWithId(id: int): Task -> bool {
    (t: Task) => t.id == id
  }

  /**
   * What the editor's effect sets the content to: nothing when `taskId` is
   * falsy; otherwise the content of the task's first note when that is
   * non-empty, else the task's non-empty legacy `note`, else "".
   */
  function LoadedContent(tasks: seq<Task>, notes: seq<Note>, taskId: Option<int>): (r: Option<string>)
    ensures r.None? <==> !Truthy(taskId)
    ensures Truthy(taskId) ==>
      var first := Find(notes, NoteOfTask(taskId));
      var task := Find(tasks, TaskWithId(taskId.value));
      if first.Some? && first.value.content != "" then r == Some(first.value.content)
      else if task.Some? && task.value.note.Some? && task.value.note.value != "" then r == task.value.note
      else r == Some("")
  {
    if !Truthy(taskId) then None
    else
      var task := Find(tasks, TaskWithId(taskId.value));
      var taskNotes := Filter(notes, NoteOfTask(taskId));
      FilterHeadIsFind(notes, NoteOfTask(taskId));
      if |taskNotes| > 0 && taskNotes[0].content != "" then Some(taskNotes[0].content)
      else if task.Some? && task.value.note.Some? && task.value.note.value != "" then task.value.note
      else Some("")
  }

  /**
   * `handleSave`: blank content saves nothing; for a task that has a note,
   * the first such note's id gets the new content; otherwise one note is
   * added, attached to the task when `taskId` is truthy. `now` is the
   * creation timestamp the dialog stamps on a new note.
   */
  method HandleSave(store: Store, taskId: Option<int>, content: string, now: string)
    modifies store`notes
    ensures Trim(content) == [] ==> store.notes == old(store.notes)
    ensures Trim(content) != [] && Truthy(taskId) && Find(old(store.notes), NoteOfTask(taskId)).Some? ==>
      store.notes == WithNoteContent(old(store.notes), Find(old(store.notes), NoteOfTask(taskId)).value.id, content)
    ensures Trim(content) != [] && Truthy(taskId) && Find(old(store.notes), NoteOfTask(taskId)).None? ==>
      store.notes == old(store.notes) + [Note(NextId(NoteIds(old(store.notes))), content, now, taskId)]
    ensures Trim(content) != [] && !Truthy(taskId) ==>
      store.notes == old(store.notes) + [Note(NextId(NoteIds(old(store.notes))), content, now, None)]
  {
    if Trim(content) != [] {
      if Truthy(taskId) {
        var existing := Find(store.notes, NoteOfTask(taskId));
        if existing.Some? {
          store.UpdateNote(existing.value.id, content);
        } else {
          store.AddNote(content, now, taskId);
        }
      } else {
        store.AddNote(content, now, None);
      }
    }
  }

  /**
   * Saving into a task that already has a note keeps the number of notes and
   * gives that note the saved content, leaving its `createdAt` and `taskId`.
   */
  lemma SaveIntoExistingNote(notes: seq<Note>, taskId: Option<int>, content: string)
    requires Find(notes, NoteOfTask(taskId)).Some?
    ensures var existing := Find(notes, NoteOfTask(taskId)).value;
      var saved := WithNoteContent(notes, existing.id, content);
      |saved| == |notes| &&
      (exists i :: 0 <= i < |saved| && saved[i] == existing.(content := content))
  {
    var existing := Find(notes, NoteOfTask(taskId)).value;
    var saved := WithNoteContent(notes, existing.id, content);
    var i :| 0 <= i < |notes| && notes[i] == existing && NoteOfTask(taskId)(notes[i]);
    assert saved[i] == existing.(content := content);
  }
}
