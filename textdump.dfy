/**
 * `TextExport`: a plain-text dump of every folder into one file,
 * `__text_tasks.txt`: the folder's name on a line of its own, then each
 * top-level task and its subtree, one line per task (two when it has a
 * note), children three spaces further in than their parent.
 *
 * `' '.join(...)` raises `TypeError` when a task has no id or no title; the
 * export then stops where it is. A write is therefore modelled by what it
 * produced, `Out(text, ok)`, `ok` false once the error was raised.
 */
module TextDump {
  import opened Options
  import opened Strings
  import opened Forest
  import Parsing
  import opened Traversal

  /** The file `export` opens. */
  const TextFile: string := "__text_tasks.txt"

  /** The indentation added per level. */
  const Step: string := "   "

  /** The marks and prefixes of a task's line. */
  const MismatchedTag: string := "@import_mismatched_folders"
  const CompletedPrefix: string := "completed="
  const RepeatPrefix: string := " repeat:"
  const NotePrefix: string := "\nNOTE:"

  /** What a run of writes produced: the text written, and `ok` unless an error stopped it. */
  datatype Out = Out(text: string, ok: bool)

  /** `x` and then, if no error was raised, `y`. */
  function Then(x: Out, y: Out): (r: Out)
    ensures r.ok <==> x.ok && y.ok
    ensures !x.ok ==> r == x
  {
    if x.ok then Out(x.text + y.text, y.ok) else x
  }

  lemma ThenAssoc(x: Out, y: Out, z: Out)
    ensures Then(Then(x, y), z) == Then(x, Then(y, z))
  {
    if x.ok && y.ok {
      assert x.text + y.text + z.text == x.text + (y.text + z.text);
    }
  }

  lemma ThenNothing(x: Out)
    ensures Then(x, Out("", true)) == x
  {
    if x.ok {
      assert x.text + "" == x.text;
    }
  }

  // ---------------------------------------------------------------- one task

  /** `' '.join((task.id, task.title, ...))` needs both to be strings. */
  predicate Named(task: Task) {
    task.id.Some? && task.title.Some?
  }

  /**
   * What `printTask` writes for the task itself (lines 76-89): id, title and
   * folder name separated by spaces (the mismatch tag, possibly empty, after
   * one more space), the completion date, the tags joined by commas, the
   * repeat rule, the note on a line of its own, and a line break.
   */
  function Line(task: Task, folderName: string, indent: string): string
    requires Named(task)
  {
    indent + task.id.value + " " + task.title.value + " ( " + folderName + " ) "
    + (if task.folderMismatch then MismatchedTag else "")
    + (if task.IsComplete() then CompletedPrefix + task.completedDate.value else "")
    + " " + Join(task.tags, ',')
    + (if task.repeat.Some? then RepeatPrefix + task.repeat.value else "")
    + (if task.note.Some? then NotePrefix + task.note.value else "")
    + "\n"
  }

  /** The line, or the `TypeError` raised before anything is written. */
  function LineOut(task: Task, folderName: string, indent: string): (r: Out)
    ensures r.ok <==> Named(task)
    ensures Named(task) ==> r.text == Line(task, folderName, indent)
    ensures !Named(task) ==> r.text == ""
  {
    if Named(task) then Out(Line(task, folderName, indent), true) else Out("", false)
  }

  // ---------------------------------------------------------------- subtrees

  /** What `printTask(indent, task)` writes: the task's line, then each child's subtree in order. */
  function SubtreeDump(a: seq<Task>, fa: seq<Folder>, t: nat, indent: string): Out
    requires Exportable(a, fa) && t < |a|
    decreases |a| - t, 1
  {
    Then(LineOut(a[t], FolderNameOf(a, fa, t), indent), ChildrenDump(a, fa, t, 0, Step + indent))
  }

  /** The subtrees of the children of `t` from the `k`-th on. */
  function ChildrenDump(a: seq<Task>, fa: seq<Folder>, t: nat, k: nat, indent: string): Out
    requires Exportable(a, fa) && t < |a| && k <= |a[t].children|
    decreases |a| - t, 0, |a[t].children| - k
  {
    if k == |a[t].children| then Out("", true)
    else Then(SubtreeDump(a, fa, a[t].children[k], indent), ChildrenDump(a, fa, t, k + 1, indent))
  }

  /** The lines of a list of tasks, each indented by three spaces per level of depth plus one. */
  function Lines(a: seq<Task>, fa: seq<Folder>, entries: seq<(nat, nat)>): Out
    requires Exportable(a, fa) && forall j :: 0 <= j < |entries| ==> entries[j].0 < |a|
  {
    if entries == [] then Out("", true)
    else
      var (t, d) := entries[0];
      Then(LineOut(a[t], FolderNameOf(a, fa, t), Repeat(Step, d + 1)), Lines(a, fa, entries[1..]))
  }

  lemma {:induction false} LinesAppend(a: seq<Task>, fa: seq<Folder>, x: seq<(nat, nat)>, y: seq<(nat, nat)>)
    requires Exportable(a, fa)
    requires forall j :: 0 <= j < |x| ==> x[j].0 < |a|
    requires forall j :: 0 <= j < |y| ==> y[j].0 < |a|
    ensures Lines(a, fa, x + y) == Then(Lines(a, fa, x), Lines(a, fa, y))
  {
    if x == [] {
      assert x + y == y;
      assert Then(Out("", true), Lines(a, fa, y)).text == "" + Lines(a, fa, y).text;
    } else {
      assert (x + y)[1..] == x[1..] + y;
      LinesAppend(a, fa, x[1..], y);
      var (t, d) := x[0];
      ThenAssoc(LineOut(a[t], FolderNameOf(a, fa, t), Repeat(Step, d + 1)), Lines(a, fa, x[1..]), Lines(a, fa, y));
    }
  }

  /**
   * The dump of a subtree is its tasks' lines in depth-first order, parents
   * before children and children in the order they were stored, each
   * indented by three spaces per level, up to the first task without an id
   * or a title.
   */
  lemma {:induction false} SubtreeLines(a: seq<Task>, fa: seq<Folder>, t: nat, d: nat)
    requires Exportable(a, fa) && t < |a|
    ensures SubtreeDump(a, fa, t, Repeat(Step, d + 1)) == Lines(a, fa, Preorder(a, t, d))
    decreases |a| - t, 1
  {
    var rest := PreorderChildren(a, t, 0, d + 1);
    ChildrenLines(a, fa, t, 0, d + 1);
    var r := Preorder(a, t, d);
    assert r[1..] == rest;
  }

  lemma {:induction false} ChildrenLines(a: seq<Task>, fa: seq<Folder>, t: nat, k: nat, d: nat)
    requires Exportable(a, fa) && t < |a| && k <= |a[t].children|
    ensures ChildrenDump(a, fa, t, k, Repeat(Step, d + 1)) == Lines(a, fa, PreorderChildren(a, t, k, d))
    decreases |a| - t, 0, |a[t].children| - k
  {
    if k < |a[t].children| {
      var c := a[t].children[k];
      SubtreeLines(a, fa, c, d);
      ChildrenLines(a, fa, t, k + 1, d);
      LinesAppend(a, fa, Preorder(a, c, d), PreorderChildren(a, t, k + 1, d));
    }
  }

  /** A list of lines is written in full exactly when every task in it has an id and a title. */
  lemma {:induction false} LinesOk(a: seq<Task>, fa: seq<Folder>, entries: seq<(nat, nat)>)
    requires Exportable(a, fa) && forall j :: 0 <= j < |entries| ==> entries[j].0 < |a|
    ensures Lines(a, fa, entries).ok <==> forall j :: 0 <= j < |entries| ==> Named(a[entries[j].0])
  {
    if entries != [] {
      LinesOk(a, fa, entries[1..]);
      assert forall j :: 1 <= j < |entries| ==> entries[j] == entries[1..][j - 1];
    }
  }

  /**
   * At the first task without an id or a title the dump stops: what was
   * written is the lines of the tasks before it.
   */
  lemma {:induction false} LinesStop(a: seq<Task>, fa: seq<Folder>, entries: seq<(nat, nat)>, j: nat)
    requires Exportable(a, fa) && forall i :: 0 <= i < |entries| ==> entries[i].0 < |a|
    requires j < |entries| && !Named(a[entries[j].0])
    requires forall i :: 0 <= i < j ==> Named(a[entries[i].0])
    ensures Lines(a, fa, entries) == Out(Lines(a, fa, entries[..j]).text, false)
  {
    if j > 0 {
      LinesStop(a, fa, entries[1..], j - 1);
      assert entries[1..][..j - 1] == entries[..j][1..];
    }
  }

  // ---------------------------------------------------------------- folders

  /** The tasks of `values` in turn: a top-level one's subtree is printed, any other skipped. */
  function ValuesDump(a: seq<Task>, fa: seq<Folder>, values: seq<nat>): Out
    requires Exportable(a, fa) && forall i :: 0 <= i < |values| ==> values[i] < |a|
    decreases |values|
  {
    if values == [] then Out("", true)
    else
      var t := values[|values| - 1];
      Then(ValuesDump(a, fa, values[..|values| - 1]), if a[t].parent.None? then SubtreeDump(a, fa, t, Step) else Out("", true))
  }

  /** The subtrees of the top-level tasks `order`, one after the other. */
  function RootsDump(a: seq<Task>, fa: seq<Folder>, order: seq<nat>): Out
    requires Exportable(a, fa) && forall i :: 0 <= i < |order| ==> order[i] < |a|
    decreases |order|
  {
    if order == [] then Out("", true)
    else Then(RootsDump(a, fa, order[..|order| - 1]), SubtreeDump(a, fa, order[|order| - 1], Step))
  }

  /** Skipping the tasks that have a parent prints the top-level ones in the order they were visited. */
  lemma {:induction false} ValuesRoots(a: seq<Task>, fa: seq<Folder>, values: seq<nat>)
    requires Exportable(a, fa) && forall i :: 0 <= i < |values| ==> values[i] < |a|
    ensures ValuesDump(a, fa, values) == RootsDump(a, fa, TopLevel(a, values))
    decreases |values|
  {
    if values != [] {
      var init, t := values[..|values| - 1], values[|values| - 1];
      ValuesRoots(a, fa, init);
      var order := TopLevel(a, init);
      if a[t].parent.None? {
        assert (order + [t])[..|order|] == order;
      } else {
        ThenNothing(ValuesDump(a, fa, init));
      }
    }
  }

  /** A folder: its name on a line of its own, then its tasks visited in the order `values`. */
  function FolderDump(a: seq<Task>, fa: seq<Folder>, g: nat, values: seq<nat>): Out
    requires Exportable(a, fa) && g < |fa| && forall i :: 0 <= i < |values| ==> values[i] < |a|
  {
    Then(Out(fa[g].name + "\n", true), ValuesDump(a, fa, values))
  }

  /** The folders `gs` in turn, folder `gs[i]` visiting its tasks in the order `visits[i]`. */
  function Dump(a: seq<Task>, fa: seq<Folder>, gs: seq<nat>, visits: seq<seq<nat>>): Out
    requires Exportable(a, fa) && Visits(a, fa, gs, visits)
    decreases |gs|
  {
    if gs == [] then Out("", true)
    else
      var last := |gs| - 1;
      VisitsInit(a, fa, gs, visits);
      Then(Dump(a, fa, gs[..last], visits[..last]), FolderDump(a, fa, gs[last], visits[last]))
  }

  lemma DumpSnoc(a: seq<Task>, fa: seq<Folder>, gs: seq<nat>, visits: seq<seq<nat>>, g: nat, values: seq<nat>)
    requires Exportable(a, fa) && Visits(a, fa, gs, visits) && g < |fa|
    requires Enumerates(values, fa[g].tasks.Values) && forall j :: 0 <= j < |values| ==> values[j] < |a|
    ensures Visits(a, fa, gs + [g], visits + [values])
    ensures Dump(a, fa, gs + [g], visits + [values]) == Then(Dump(a, fa, gs, visits), FolderDump(a, fa, g, values))
  {
    VisitsSnoc(a, fa, gs, visits, g, values);
    assert (gs + [g])[..|gs|] == gs;
    assert (visits + [values])[..|gs|] == visits;
  }

  /** Every task in the subtree of `t` has an id and a title. */
  ghost predicate SubtreeNamed(a: seq<Task>, t: nat)
    requires WellFormed(a) && t < |a|
  {
    var p := Preorder(a, t, 0);
    forall j :: 0 <= j < |p| ==> Named(a[p[j].0])
  }

  /** The subtree of a top-level task is written in full exactly when every task in it has an id and a title. */
  lemma SubtreeOk(a: seq<Task>, fa: seq<Folder>, t: nat)
    requires Exportable(a, fa) && t < |a|
    ensures SubtreeDump(a, fa, t, Step).ok <==> SubtreeNamed(a, t)
  {
    assert Repeat(Step, 1) == Step + [] == Step;
    SubtreeLines(a, fa, t, 0);
    LinesOk(a, fa, Preorder(a, t, 0));
  }

  /** Every top-level task among `values` has a subtree whose tasks all have an id and a title. */
  ghost predicate Printable(a: seq<Task>, values: seq<nat>)
    requires WellFormed(a) && forall i :: 0 <= i < |values| ==> values[i] < |a|
  {
    forall i :: 0 <= i < |values| && a[values[i]].parent.None? ==> SubtreeNamed(a, values[i])
  }

  lemma PrintableSnoc(a: seq<Task>, values: seq<nat>, t: nat)
    requires WellFormed(a) && t < |a| && forall i :: 0 <= i < |values| ==> values[i] < |a|
    ensures Printable(a, values + [t]) <==> Printable(a, values) && (a[t].parent.None? ==> SubtreeNamed(a, t))
  {
    var values' := values + [t];
    assert values'[|values|] == t;
    assert forall i :: 0 <= i < |values| ==> values'[i] == values[i];
  }

  /** A folder's tasks are written in full exactly when all its top-level subtrees are printable. */
  lemma {:induction false} ValuesOk(a: seq<Task>, fa: seq<Folder>, values: seq<nat>)
    requires Exportable(a, fa) && forall i :: 0 <= i < |values| ==> values[i] < |a|
    ensures ValuesDump(a, fa, values).ok <==> Printable(a, values)
    decreases |values|
  {
    if values != [] {
      var init, t := values[..|values| - 1], values[|values| - 1];
      ValuesOk(a, fa, init);
      SubtreeOk(a, fa, t);
      assert values == init + [t];
      PrintableSnoc(a, init, t);
    }
  }

  /** The whole dump is written in full exactly when every folder's tasks are printable. */
  lemma {:induction false} DumpOk(a: seq<Task>, fa: seq<Folder>, gs: seq<nat>, visits: seq<seq<nat>>)
    requires Exportable(a, fa) && Visits(a, fa, gs, visits)
    ensures Dump(a, fa, gs, visits).ok <==> forall i :: 0 <= i < |gs| ==> Printable(a, visits[i])
    decreases |gs|
  {
    if gs != [] {
      var last := |gs| - 1;
      VisitsInit(a, fa, gs, visits);
      DumpOk(a, fa, gs[..last], visits[..last]);
      ValuesOk(a, fa, visits[last]);
      assert forall i :: 0 <= i < last ==> visits[..last][i] == visits[i];
    }
  }

  // ---------------------------------------------------------------- the exporter

  /**
   * The exporter object over the parser's arenas: the folders it was given
   * (`toodledo.folders.values()`), the files of the working directory by
   * name, and `out`, what has been written to the open file and not yet
   * closed.
   */
  class TextExport {
    var files: map<string, string>
    var out: string
    const arena: seq<Task>
    const folderArena: seq<Folder>
    const folders: set<nat>

    ghost predicate Valid() {
      Exportable(arena, folderArena) && forall g :: g in folders ==> g < |folderArena|
    }

    /** `TextExport(toodledo)`: the parser's folders, and no file open. */
    constructor (toodledo: Parsing.Toodledo, files: map<string, string>)
      requires toodledo.Built()
      ensures Valid()
      ensures arena == toodledo.arena && folderArena == toodledo.folderArena
      ensures folders == toodledo.folders.Values
      ensures this.files == files && out == ""
    {
      ConsistentExportable(toodledo.config, toodledo.State());
      arena, folderArena := toodledo.arena, toodledo.folderArena;
      folders := toodledo.folders.Values;
      this.files, out := files, "";
    }

    /**
     * `printTask(indent, task, folder)`: writes the subtree of `t`; `ok` is
     * false when a task in it has no id or no title, and the writing
     * stopped there.
     */
    method PrintTask(indent: string, t: nat) returns (ok: bool)
      requires Valid() && t < |arena|
      modifies this`out
      ensures out == old(out) + SubtreeDump(arena, folderArena, t, indent).text
      ensures ok == SubtreeDump(arena, folderArena, t, indent).ok
      decreases |arena| - t
    {
      var task := arena[t];
      if !Named(task) {
        assert out == old(out) + "";
        return false;
      }
      var line := Line(task, folderArena[task.folder.value].name, indent);
      var inner := Step + indent;
      var children := task.children;
      ghost var done := line;
      out := out + line;
      ok := true;
      for k := 0 to |children|
        invariant ok && out == old(out) + done
        invariant Then(Out(done, true), ChildrenDump(arena, folderArena, t, k, inner)) == SubtreeDump(arena, folderArena, t, indent)
      {
        ghost var sub := SubtreeDump(arena, folderArena, children[k], inner);
        ghost var rest := ChildrenDump(arena, folderArena, t, k + 1, inner);
        ok := PrintTask(inner, children[k]);
        Associate(old(out), done, sub.text);
        if !ok {
          return;
        }
        ThenAssoc(Out(done, true), sub, rest);
        done := done + sub.text;
      }
    }

    /**
     * The task loop of `export` for one folder (lines 104-111): each task
     * visited in the order `values`, the top-level ones printed. Once an
     * error was raised (`ok0` false) nothing more is written.
     */
    method PrintValues(values: seq<nat>, ghost head: Out, ok0: bool) returns (ok: bool)
      requires Valid() && forall i :: 0 <= i < |values| ==> values[i] < |arena|
      requires head == Out(out, ok0)
      modifies this`out
      ensures Then(head, ValuesDump(arena, folderArena, values)) == Out(out, ok)
    {
      ok := ok0;
      ThenNothing(head);
      for j := 0 to |values|
        invariant Then(head, ValuesDump(arena, folderArena, values[..j])) == Out(out, ok)
      {
        var t := values[j];
        TakeSnoc(values, j);
        ghost var printed := if arena[t].parent.None? then SubtreeDump(arena, folderArena, t, Step) else Out("", true);
        ThenAssoc(head, ValuesDump(arena, folderArena, values[..j]), printed);
        if ok && arena[t].parent.None? {
          ok := PrintTask(Step, t);
        } else if ok {
          assert out + "" == out;
        }
      }
      TakeAll(values);
    }

    /**
     * One turn of `export`'s folder loop (lines 101-111): the folder's name,
     * then its tasks visited in dictionary order (`values`); nothing is
     * written once an error was raised (`ok0` false).
     */
    method PrintFolder(g: nat, ghost before: Out, ok0: bool) returns (values: seq<nat>, ok: bool)
      requires Valid() && g < |folderArena|
      requires before == Out(out, ok0)
      modifies this`out
      ensures Enumerates(values, folderArena[g].tasks.Values)
      ensures forall i :: 0 <= i < |values| ==> values[i] < |arena|
      ensures Then(before, FolderDump(arena, folderArena, g, values)) == Out(out, ok)
    {
      var heading := folderArena[g].name + "\n";
      if ok0 {
        out := out + heading;
      }
      ghost var head := Then(before, Out(heading, true));
      values := Enumerate(folderArena[g].tasks.Values);
      ValuesStored(arena, folderArena, g, values);
      ok := PrintValues(values, head, ok0);
      ThenAssoc(before, Out(heading, true), ValuesDump(arena, folderArena, values));
    }

    /**
     * `export()`: truncates the file, then for each folder in dictionary
     * order (`gs`) writes its name and prints the subtree of each of its
     * top-level tasks, in the order its tasks were visited (`visits`). The
     * file is closed at the end; if an error was raised the file is left
     * truncated and what had been written stays in `out`. The folders after
     * the error are visited without writing anything.
     */
    method Export() returns (gs: seq<nat>, visits: seq<seq<nat>>, ok: bool)
      requires Valid()
      modifies this`files, this`out
      ensures Enumerates(gs, folders) && Visits(arena, folderArena, gs, visits)
      ensures ok == Dump(arena, folderArena, gs, visits).ok
      ensures ok ==> files == old(files)[TextFile := Dump(arena, folderArena, gs, visits).text] && out == ""
      ensures !ok ==> files == old(files)[TextFile := ""] && out == Dump(arena, folderArena, gs, visits).text
    {
      files, out := files[TextFile := ""], "";
      gs := Enumerate(folders);
      assert forall k :: 0 <= k < |gs| ==> gs[k] in folders;
      visits := [];
      ok := true;
      for i := 0 to |gs|
        invariant forall k :: 0 <= k < |gs| ==> gs[k] < |folderArena|
        invariant Visits(arena, folderArena, gs[..i], visits)
        invariant Dump(arena, folderArena, gs[..i], visits) == Out(out, ok)
        invariant files == old(files)[TextFile := ""]
      {
        var values;
        ghost var before := Out(out, ok);
        values, ok := PrintFolder(gs[i], before, ok);
        DumpSnoc(arena, folderArena, gs[..i], visits, gs[i], values);
        TakeSnoc(gs, i);
        visits := visits + [values];
      }
      TakeAll(gs);
      if ok {
        files, out := files[TextFile := out], "";
      }
    }
  }
}
