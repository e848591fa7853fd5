/**
 * The to-do list store: an ordered list of `[text, done]` pairs kept in a
 * global list, edited in place by the add, toggle and delete callbacks and
 * loaded from a JSON document whose shape is checked but whose element types
 * are not.
 */
module ToDoList {
  import opened Wrappers

  /** A value decoded from the JSON store file. */
  datatype Json =
    | JNull
    | JBool(b: bool)
    | JNumber(n: real)
    | JString(s: string)
    | JArray(items: seq<Json>)
    | JObject(members: seq<(string, Json)>)

  /** Python truthiness of a decoded value (`if v`, `not v`). */
  predicate Truthy(v: Json) {
    match v
    case JNull => false
    case JBool(b) => b
    case JNumber(n) => n != 0.0
    case JString(s) => s != []
    case JArray(items) => items != []
    case JObject(members) => members != []
  }

  /** A list of exactly two elements: the shape every task must have. */
  predicate IsPair(t: Json) {
    t.JArray? && |t.items| == 2
  }

  /** A task whose text is a string and whose flag is a boolean, as `add` builds it. */
  predicate WellTyped(t: Json) {
    IsPair(t) && t.items[0].JString? && t.items[1].JBool?
  }

  /** Every element is a two-element list. */
  predicate AllPairs(ts: seq<Json>) {
    forall i :: 0 <= i < |ts| ==> IsPair(ts[i])
  }

  /** Every element is a well-typed task. */
  predicate AllWellTyped(ts: seq<Json>) {
    forall i :: 0 <= i < |ts| ==> WellTyped(ts[i])
  }

  /** Every element is a two-element list whose text is a string, so that it can be displayed. */
  predicate AllTextual(ts: seq<Json>) {
    forall i :: 0 <= i < |ts| ==> IsPair(ts[i]) && ts[i].items[0].JString?
  }

  /** The load-time check: a list whose every element is a two-element list. */
  predicate ShapeOk(doc: Json) {
    doc.JArray? && AllPairs(doc.items)
  }

  /** What the loader keeps of a decoded document. */
  function Validated(doc: Json): (r: seq<Json>)
    ensures AllPairs(r)
    ensures ShapeOk(doc) ==> r == doc.items
    ensures !ShapeOk(doc) ==> r == []
  {
    if ShapeOk(doc) then doc.items else []
  }

  /** The store file as the loader finds it. */
  datatype StoredFile =
    | Absent              // no file at the data path
    | Unreadable          // opening or decoding raised
    | Decoded(doc: Json)  // the decoded JSON document

  // ---------------------------------------------------------------------
  // Whitespace stripping (Python's `str.strip()` with no argument)
  // ---------------------------------------------------------------------

  /** Python's `str.isspace` on one code point. */
  predicate IsSpace(c: char) {
    || '\t' <= c <= '\r'
    || '\U{1C}' <= c <= ' '
    || c == '\U{85}' || c == '\U{A0}' || c == '\U{1680}'
    || '\U{2000}' <= c <= '\U{200A}'
    || c == '\U{2028}' || c == '\U{2029}' || c == '\U{202F}'
    || c == '\U{205F}' || c == '\U{3000}'
  }

  /** The length of the longest all-whitespace prefix. */
  function LeadingSpaces(s: string): (n: nat)
    ensures n <= |s|
    ensures forall k :: 0 <= k < n ==> IsSpace(s[k])
    ensures n < |s| ==> !IsSpace(s[n])
  {
    if s != [] && IsSpace(s[0]) then 1 + LeadingSpaces(s[1..]) else 0
  }

  /** The length of the longest all-whitespace suffix. */
  function TrailingSpaces(s: string): (n: nat)
    ensures n <= |s|
    ensures forall k :: |s| - n <= k < |s| ==> IsSpace(s[k])
    ensures n < |s| ==> !IsSpace(s[|s| - 1 - n])
  {
    if s != [] && IsSpace(s[|s| - 1]) then 1 + TrailingSpaces(s[..|s| - 1]) else 0
  }

  /**
   * `s` without its leading and trailing whitespace: the result is the
   * slice of `s` that is left once only whitespace has been cut from both
   * ends, and it neither starts nor ends with whitespace.
   */
  function Strip(s: string): (r: string)
    ensures r == [] <==> forall k :: 0 <= k < |s| ==> IsSpace(s[k])
    ensures r != [] ==> !IsSpace(r[0]) && !IsSpace(r[|r| - 1])
    ensures LeadingSpaces(s) + |r| <= |s| && r == s[LeadingSpaces(s)..LeadingSpaces(s) + |r|]
    ensures forall k :: LeadingSpaces(s) + |r| <= k < |s| ==> IsSpace(s[k])
  {
    var i := LeadingSpaces(s);
    var t := s[i..];
    t[..|t| - TrailingSpaces(t)]
  }

  /** Stripping is idempotent: an entry already stripped is kept as it is. */
  lemma StripIdempotent(s: string)
    ensures Strip(Strip(s)) == Strip(s)
  {
    var r := Strip(s);
    assert LeadingSpaces(r) == 0;
    assert TrailingSpaces(r) == 0;
  }

  // ---------------------------------------------------------------------
  // The edits, as functions on the task list
  // ---------------------------------------------------------------------

  /** The pair a successful add appends: the stripped text, not done. */
  function NewTask(text: string): (t: Json)
    ensures WellTyped(t) && !Truthy(t.items[1])
  {
    JArray([JString(text), JBool(false)])
  }

  /** The list after flipping the flag of task `i` with Python's `not`. */
  function Toggled(tasks: seq<Json>, i: nat): (r: seq<Json>)
    requires i < |tasks| && IsPair(tasks[i])
    ensures |r| == |tasks| && IsPair(r[i])
    ensures r[i].items[0] == tasks[i].items[0]
    ensures r[i].items[1] == JBool(!Truthy(tasks[i].items[1]))
    ensures forall j :: 0 <= j < |tasks| && j != i ==> r[j] == tasks[j]
  {
    tasks[i := JArray([tasks[i].items[0], JBool(!Truthy(tasks[i].items[1]))])]
  }

  /** The list after `pop(i)`. */
  function Removed(tasks: seq<Json>, i: nat): (r: seq<Json>)
    requires i < |tasks|
    ensures |r| == |tasks| - 1
    ensures forall j :: 0 <= j < i ==> r[j] == tasks[j]
    ensures forall j :: i <= j < |r| ==> r[j] == tasks[j + 1]
  {
    tasks[..i] + tasks[i + 1..]
  }

  /**
   * Toggling the same task twice gives back the original list when its flag
   * is a boolean; any other flag value comes back as the boolean of its
   * truthiness.
   */
  lemma ToggleTwice(tasks: seq<Json>, i: nat)
    requires i < |tasks| && IsPair(tasks[i])
    ensures Toggled(Toggled(tasks, i), i)[i].items[1] == JBool(Truthy(tasks[i].items[1]))
    ensures tasks[i].items[1].JBool? ==> Toggled(Toggled(tasks, i), i) == tasks
  {
    var once := Toggled(tasks, i);
    var twice := Toggled(once, i);
    if tasks[i].items[1].JBool? {
      assert twice[i].items == tasks[i].items;
      assert twice[i] == tasks[i];
    }
  }

  /** Removing task `i` keeps the relative order of the other tasks. */
  lemma RemovedKeepsOrder(tasks: seq<Json>, i: nat, j: nat, k: nat)
    requires i < |tasks| && j < k < |tasks| && j != i && k != i
    ensures var r := Removed(tasks, i);
      var j' := if j < i then j else j - 1;
      var k' := if k < i then k else k - 1;
      j' < k' < |r| && r[j'] == tasks[j] && r[k'] == tasks[k]
  {
  }

  /** A list made of well-typed tasks stays so under every edit. */
  lemma EditsKeepWellTyped(tasks: seq<Json>, text: string, i: nat)
    requires AllWellTyped(tasks)
    ensures AllWellTyped(tasks + [NewTask(text)])
    ensures i < |tasks| ==> AllWellTyped(Toggled(tasks, i))
    ensures i < |tasks| ==> AllWellTyped(Removed(tasks, i))
  {
  }

  // ---------------------------------------------------------------------
  // Rendering
  // ---------------------------------------------------------------------

  /** The listbox line of a task: a check mark if its flag is truthy, an empty box otherwise. */
  function DisplayLine(text: string, done: Json): (line: string)
    ensures Truthy(done) ==> line == "✓ " + text
    ensures !Truthy(done) ==> line == "□ " + text
  {
    (if Truthy(done) then "✓ " else "□ ") + text
  }

  /** The warning messages the store shows. */
  const EmptyInputWarning: string := "请输入内容～"
  const NoSelectionWarning: string := "请先选择一项"

  /** What an edit reports back to the window. */
  datatype Feedback = Accepted | Warning(message: string)

  /** The global task list, edited in place. */
  class TaskStore {
    var tasks: seq<Json>

    /** Every task is a two-element list: what the shape check at load time guarantees. */
    ghost predicate Loaded()
      reads this
    {
      AllPairs(tasks)
    }

    /**
     * The state of a running window: the list passed the first rendering at
     * startup, so every text is a string, and every edit keeps it so.
     */
    ghost predicate Valid()
      reads this
    {
      Loaded() && AllTextual(tasks)
    }

    /** The list starts empty before anything is loaded. */
    constructor ()
      ensures Valid() && tasks == []
    {
      tasks := [];
    }

    /**
     * Replaces the list with what the store file holds: a missing file
     * leaves the list as it was, an unreadable one empties it, and a decoded
     * document is kept only when it passes the shape check.
     */
    method Load(file: StoredFile)
      requires Loaded()
      modifies this
      ensures Loaded()
      ensures file.Absent? ==> tasks == old(tasks)
      ensures file.Unreadable? ==> tasks == []
      ensures file.Decoded? ==> tasks == Validated(file.doc)
    {
      match file
      case Absent =>
      case Unreadable =>
        tasks := [];
      case Decoded(doc) =>
        if doc.JArray? && forall i :: 0 <= i < |doc.items| ==> IsPair(doc.items[i]) {
          tasks := doc.items;
        } else {
          tasks := [];
        }
    }

    /**
     * Appends the stripped entry as a new task that is not done; blank or
     * whitespace-only entries leave the list unchanged and raise a warning.
     */
    method Add(entry: string) returns (fb: Feedback)
      requires Valid()
      modifies this
      ensures Valid()
      ensures Strip(entry) != [] ==> fb == Accepted && tasks == old(tasks) + [NewTask(Strip(entry))]
      ensures Strip(entry) == [] ==> fb == Warning(EmptyInputWarning) && tasks == old(tasks)
    {
      var text := Strip(entry);
      if text != [] {
        tasks := tasks + [NewTask(text)];
        fb := Accepted;
      } else {
        fb := Warning(EmptyInputWarning);
      }
    }

    /**
     * Flips the flag of the selected task; with nothing selected or an index
     * past the end it silently does nothing.
     */
    method ToggleComplete(selection: Option<nat>)
      requires Valid()
      modifies this
      ensures Valid()
      ensures selection.Some? && selection.value < |old(tasks)| ==>
        tasks == Toggled(old(tasks), selection.value)
      ensures !(selection.Some? && selection.value < |old(tasks)|) ==> tasks == old(tasks)
    {
      if selection.Some? && selection.value < |tasks| {
        var i := selection.value;
        tasks := Toggled(tasks, i);
      }
    }

    /**
     * Removes the selected task; with nothing selected or an index past the
     * end the list is unchanged and a warning is raised.
     */
    method Delete(selection: Option<nat>) returns (fb: Feedback)
      requires Valid()
      modifies this
      ensures Valid()
      ensures selection.Some? && selection.value < |old(tasks)| ==>
        fb == Accepted && tasks == Removed(old(tasks), selection.value)
      ensures !(selection.Some? && selection.value < |old(tasks)|) ==>
        fb == Warning(NoSelectionWarning) && tasks == old(tasks)
    {
      if selection.Some? && selection.value < |tasks| {
        tasks := Removed(tasks, selection.value);
        fb := Accepted;
      } else {
        fb := Warning(NoSelectionWarning);
      }
    }

    /**
     * The listbox lines, one per task in list order. Concatenating a prefix
     * with a text that is not a string raises, so rendering stops at the
     * first such task: `lines` holds what was inserted before it and
     * `complete` says whether every task was shown.
     */
    method Render() returns (lines: seq<string>, complete: bool)
      requires Loaded()
      ensures complete <==> AllTextual(tasks)
      ensures |lines| <= |tasks|
      ensures complete ==> |lines| == |tasks|
      ensures !complete ==> |lines| < |tasks| && !tasks[|lines|].items[0].JString?
      ensures forall i :: 0 <= i < |lines| ==>
        tasks[i].items[0].JString? && lines[i] == DisplayLine(tasks[i].items[0].s, tasks[i].items[1])
    {
      lines := [];
      var i := 0;
      while i < |tasks|
        invariant 0 <= i <= |tasks| && |lines| == i
        invariant forall j :: 0 <= j < i ==>
          tasks[j].items[0].JString? && lines[j] == DisplayLine(tasks[j].items[0].s, tasks[j].items[1])
      {
        var text, done := tasks[i].items[0], tasks[i].items[1];
        if !text.JString? {
          complete := false;
          return;
        }
        lines := lines + [DisplayLine(text.s, done)];
        i := i + 1;
      }
      complete := true;
    }

    /**
     * Startup: load the store file, then fill the listbox once. That first
     * rendering runs outside any handler, so a task whose text is not a
     * string ends the program before the window opens; `running` says
     * whether the window comes up, and then the store is in its running state.
     */
    method Start(file: StoredFile) returns (lines: seq<string>, running: bool)
      requires Loaded()
      modifies this
      ensures Loaded()
      ensures file.Absent? ==> tasks == old(tasks)
      ensures file.Unreadable? ==> tasks == []
      ensures file.Decoded? ==> tasks == Validated(file.doc)
      ensures running <==> AllTextual(tasks)
      ensures running ==> Valid() && |lines| == |tasks|
      ensures running ==> forall i :: 0 <= i < |lines| ==>
        lines[i] == DisplayLine(tasks[i].items[0].s, tasks[i].items[1])
    {
      Load(file);
      lines, running := Render();
    }
  }
}
