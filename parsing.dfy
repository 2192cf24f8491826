/**
 * `Toodledo.parseXML` of toodledo_to_todoist.py without the XML: the
 * backup file's `<item>` elements arrive as a sequence of records, and the
 * per-record loop turns them into folders and a task forest, together with
 * the field normaliser `get` and the `Task` methods that link a task to its
 * folder and its parent.
 */
module Parsing {
  import opened Options
  import opened Strings
  import opened Forest

  /**
   * One `<item>`: for each child element, its text, or None when the
   * element is missing or holds no single string (BeautifulSoup's `.string`).
   */
  datatype Record = Record(
    id: Option<string>,
    title: Option<string>,
    folder: Option<string>,
    parent: Option<string>,
    completed: Option<string>,
    duedate: Option<string>,
    note: Option<string>,
    repeat: Option<string>,
    tag: Option<string>)

  /** The three module-level settings. */
  datatype Config = Config(folderFilter: Option<string>, taskLimit: nat, includeCompleted: bool)

  const NoFolder := "NOFOLDER"
  const EmptyDate := "0000-00-00"

  /**
   * `get(s)`: the element's text with surrounding whitespace stripped, None
   * when the element is missing or its text is blank. A present result is
   * never blank and never starts or ends with whitespace.
   */
  function Get(field: Option<string>): (r: Option<string>)
    ensures r.None? <==> field.None? || AllSpace(field.value)
    ensures r.Some? ==> r.value != [] && !IsSpace(r.value[0]) && !IsSpace(r.value[|r.value| - 1])
    ensures r.Some? ==> var s := field.value; Lead(s) + |r.value| <= |s| && r.value == s[Lead(s)..Lead(s) + |r.value|]
    ensures r.Some? ==> r.value == Strip(field.value)
  {
    if field.None? || Strip(field.value) == [] then None else Some(Strip(field.value))
  }

  /** Normalising a normalised field changes nothing. */
  lemma {:induction false} GetIdempotent(field: Option<string>)
    ensures Get(Get(field)) == Get(field)
  {
    if Get(field).Some? {
      StripIdempotent(field.value);
    }
  }

  /** The folder a record names, or `NOFOLDER` when it names none. */
  function FolderName(r: Record): (name: string)
    ensures name != []
    ensures Get(r.folder).Some? ==> name == Get(r.folder).value
    ensures Get(r.folder).None? ==> name == NoFolder
  {
    var f := Get(r.folder);
    if f.Some? then f.value else NoFolder
  }

  /** A record is completed when its completion date is present and is not `0000-00-00`. */
  predicate IsCompletedRecord(r: Record) {
    Get(r.completed).Some? && Get(r.completed).value != EmptyDate
  }

  /** The completion date the task is given: only a real one. */
  function CompletedDate(r: Record): (d: Option<string>)
    ensures d.Some? <==> IsCompletedRecord(r)
    ensures d.Some? ==> d.value != EmptyDate && d == Get(r.completed)
  {
    if IsCompletedRecord(r) then Get(r.completed) else None
  }

  /** Whether the folder filter, when one is set, lets a folder name through (`startswith`). */
  predicate PassesFilter(config: Config, name: string) {
    config.folderFilter.None? || config.folderFilter.value <= name
  }

  /**
   * Records the loop drops before creating anything: those outside the
   * folder filter, and completed ones unless completed tasks are included.
   */
  predicate Skipped(config: Config, r: Record) {
    !PassesFilter(config, FolderName(r)) || (IsCompletedRecord(r) && !config.includeCompleted)
  }

  /** The repeat text, with the literal `None` Toodledo writes for "no repeat" read as absent. */
  function RepeatText(r: Record): (rp: Option<string>)
    ensures rp.Some? ==> rp.value != "None" && rp == Get(r.repeat)
    ensures rp.None? ==> Get(r.repeat).None? || Get(r.repeat).value == "None"
  {
    var rp := Get(r.repeat);
    if rp.Some? && rp.value != "None" then rp else None
  }

  /**
   * `[x.strip() for x in stag.split(',')]`: one tag per comma-separated
   * piece, stripped, empty pieces kept; no tag holds a comma or surrounding
   * whitespace.
   */
  function SplitTags(stag: string): (tags: seq<string>)
    ensures |tags| == Occurrences(stag, ',') + 1
    ensures forall k :: 0 <= k < |tags| ==> tags[k] == Strip(Split(stag, ',')[k])
    ensures forall k :: 0 <= k < |tags| ==> ',' !in tags[k]
    ensures forall k :: 0 <= k < |tags| && tags[k] != [] ==>
      !IsSpace(tags[k][0]) && !IsSpace(tags[k][|tags[k]| - 1])
  {
    var pieces := Split(stag, ',');
    var tags := seq(|pieces|, k requires 0 <= k < |pieces| => Strip(pieces[k]));
    forall k | 0 <= k < |tags| ensures ',' !in tags[k] {
      StripKeepsOut(pieces[k], ',');
    }
    tags
  }

  /** Stripping adds no character: one absent from `s` is absent from `strip(s)`. */
  lemma StripKeepsOut(s: string, c: char)
    requires c !in s
    ensures c !in Strip(s)
  {
    var r := Strip(s);
    assert r == s[Lead(s)..Lead(s) + |r|];
  }

  /** Three comma-free pieces joined by commas give their three stripped forms. */
  lemma SplitTagsThree(p1: string, p2: string, p3: string)
    requires ',' !in p1 && ',' !in p2 && ',' !in p3
    ensures SplitTags(p1 + "," + p2 + "," + p3) == [Strip(p1), Strip(p2), Strip(p3)]
  {
    assert p1 + "," + p2 + "," + p3 == p1 + [','] + p2 + [','] + p3;
    SplitThree(p1, p2, p3, ',');
  }

  /** The tag example: `a, b ,c` gives the tags `a`, `b` and `c`. */
  lemma SplitTagsExample()
    ensures SplitTags("a" + "," + " b " + "," + "c") == ["a", "b", "c"]
  {
    SplitTagsThree("a", " b ", "c");
    assert Strip("a") == "a";
    assert Strip(" b ") == "b";
    assert Strip("c") == "c";
  }

  /** Empty pieces are kept: `a,,b` gives the tags `a`, an empty tag, and `b`. */
  lemma SplitTagsKeepsEmpty()
    ensures SplitTags("a" + "," + "" + "," + "b") == ["a", "", "b"]
  {
    SplitTagsThree("a", "", "b");
    assert Strip("a") == "a";
    assert Strip("") == "";
    assert Strip("b") == "b";
  }

  /**
   * The soup pre-filter that runs when a folder filter is set: it removes
   * every item whose folder is missing or does not start with the prefix,
   * and keeps every other item, in order.
   */
  function PreFilter(records: seq<Record>, prefix: string): (kept: seq<Record>)
    ensures |kept| <= |records|
  {
    if records == [] then []
    else
      var r := records[0];
      var rest := PreFilter(records[1..], prefix);
      if Get(r.folder).Some? && prefix <= Get(r.folder).value then [r] + rest else rest
  }

  /** The pre-filter keeps a record exactly when its folder is present and starts with the prefix. */
  lemma {:induction false} PreFilterKeeps(records: seq<Record>, prefix: string)
    ensures forall r :: r in PreFilter(records, prefix) <==>
      r in records && Get(r.folder).Some? && prefix <= Get(r.folder).value
    decreases |records|
  {
    if records != [] {
      PreFilterKeeps(records[1..], prefix);
      assert forall x :: x in records <==> x == records[0] || x in records[1..];
    }
  }

  /** The records the loop sees: the pre-filtered ones when a folder filter is set. */
  function Admissible(config: Config, records: seq<Record>): (items: seq<Record>)
    ensures config.folderFilter.None? ==> items == records
    ensures |items| <= |records|
  {
    if config.folderFilter.Some? then PreFilter(records, config.folderFilter.value) else records
  }

  /**
   * With a folder filter set, the loop's own folder test never fires: the
   * pre-filter has already removed every record it would skip, and also
   * every record without a folder, which the loop alone would keep under
   * `NOFOLDER` when that name starts with the prefix.
   */
  lemma AdmissiblePasses(config: Config, records: seq<Record>)
    requires config.folderFilter.Some?
    ensures forall r :: r in Admissible(config, records) ==>
      r in records && Get(r.folder).Some? && PassesFilter(config, FolderName(r))
  {
    PreFilterKeeps(records, config.folderFilter.value);
  }

  /** The records, in order, that the loop turns into tasks. */
  function Kept(config: Config, records: seq<Record>): (kept: seq<Record>)
    ensures |kept| <= |records|
  {
    if records == [] then []
    else
      var last := records[|records| - 1];
      Kept(config, records[..|records| - 1]) + if Skipped(config, last) then [] else [last]
  }

  /** A record is kept exactly when it is one of the records and the loop does not skip it. */
  lemma {:induction false} KeptSkips(config: Config, records: seq<Record>)
    ensures forall r :: r in Kept(config, records) <==> r in records && !Skipped(config, r)
    decreases |records|
  {
    if records != [] {
      var init := records[..|records| - 1];
      KeptSkips(config, init);
      assert records == init + [records[|records| - 1]];
    }
  }

  /**
   * Parent lookup as written at line 275: `parent_id in self.tasks`. A
   * record without a parent id looks up the key None, which is present as
   * soon as some earlier record had no id.
   */
  function ResolveParentAsWritten(tasks: map<Option<string>, nat>, parentId: Option<string>): (p: Option<nat>)
    ensures p.Some? <==> parentId in tasks
    ensures p.Some? ==> p.value == tasks[parentId]
  {
    if parentId in tasks then Some(tasks[parentId]) else None
  }

  /**
   * The discrepancy: after a record without an id was stored as task 0, a
   * record without a parent id is made a child of task 0 instead of a root.
   */
  lemma AbsentParentAsWritten()
    ensures ResolveParentAsWritten(map[None := 0], Get(None)) == Some(0)
  {
  }

  /**
   * Parent lookup as intended: only a present parent id is looked up, among
   * the tasks of earlier records in every folder; an absent or unknown id
   * leaves the task a root.
   */
  function ResolveParent(tasks: map<Option<string>, nat>, parentId: Option<string>): (p: Option<nat>)
    ensures p.Some? <==> parentId.Some? && parentId in tasks
    ensures p.Some? ==> p.value == tasks[parentId]
    ensures parentId.Some? ==> p == ResolveParentAsWritten(tasks, parentId)
  {
    if parentId.Some? && parentId in tasks then Some(tasks[parentId]) else None
  }

  /** A task with its links to other objects cleared: what a record alone determines. */
  function Unlinked(task: Task): Task {
    task.(children := [], parent := None, folder := None, folderMismatch := false)
  }

  /** A task with its child list cleared: what storing a later task never changes. */
  function Childless(task: Task): Task {
    task.(children := [])
  }

  /**
   * The task a record becomes before it is linked to its folder and parent:
   * `Task(id, title)` with each field `get` normalised, the tags split only
   * when the tag field is present.
   */
  function StoredTask(r: Record): (task: Task)
    ensures Unlinked(task) == task
    ensures task.id == Get(r.id) && task.title == Get(r.title)
    ensures task.IsComplete() <==> IsCompletedRecord(r)
    ensures Get(r.tag).None? ==> task.tags == []
    ensures Get(r.tag).Some? ==> task.tags == SplitTags(Get(r.tag).value)
    ensures task.note == Get(r.note) && task.dueDate == Get(r.duedate)
    ensures task.repeat == RepeatText(r) && task.completedDate == CompletedDate(r)
  {
    var stag := Get(r.tag);
    NewTask(Get(r.id), Get(r.title)).(
      dueDate := Get(r.duedate),
      completedDate := CompletedDate(r),
      tags := if stag.Some? then SplitTags(stag.value) else [],
      note := Get(r.note),
      repeat := RepeatText(r))
  }

  /**
   * The task arena once `task` is stored last, in folder `f`, as the last
   * child of `p` when there is one. Only the new task and `p`'s children
   * change; the flag is up exactly when `p`'s folder is another one.
   */
  function Attach(a: seq<Task>, task: Task, f: nat, p: Option<nat>): (a': seq<Task>)
    requires p.Some? ==> p.value < |a|
    ensures |a'| == |a| + 1
    ensures forall i :: 0 <= i < |a| ==> Unlinked(a'[i]) == Unlinked(a[i])
    ensures Unlinked(a'[|a|]) == Unlinked(task)
    ensures forall i :: 0 <= i < |a| ==>
      a'[i] == a[i].(children := if p == Some(i) then a[i].children + [|a|] else a[i].children)
    ensures a'[|a|] == task.(parent := p, folder := Some(f), folderMismatch := p.Some? && a[p.value].folder != Some(f))
  {
    var t := |a|;
    var linked := if p.Some? then a[p.value := a[p.value].(children := a[p.value].children + [t])] else a;
    linked + [task.(parent := p, folder := Some(f), folderMismatch := p.Some? && a[p.value].folder != Some(f))]
  }

  /** `Attach` is what `setFolder` and then `setParent` do to a task just stored last. */
  lemma AttachSteps(a: seq<Task>, task: Task, f: nat, p: Option<nat>)
    requires (p.Some? ==> p.value < |a|) && task.parent.None? && !task.folderMismatch
    ensures var t, a1 := |a|, a + [task.(folder := Some(f))];
      && (p.None? ==> a1 == Attach(a, task, f, p))
      && (p.Some? ==>
            a1[p.value := a1[p.value].(children := a1[p.value].children + [t])]
              [t := a1[t].(parent := p, folderMismatch := a1[t].folderMismatch || a1[p.value].folder != a1[t].folder)]
            == Attach(a, task, f, p))
  {
  }

  /** The folder arena once task `t` is stored under `id` in folder `f`. */
  function File(fa: seq<Folder>, f: nat, id: Option<string>, t: nat): (fa': seq<Folder>)
    requires f < |fa|
    ensures |fa'| == |fa|
    ensures fa'[f].name == fa[f].name && fa'[f].tasks == fa[f].tasks[id := t]
    ensures forall g :: 0 <= g < |fa| && g != f ==> fa'[g] == fa[g]
  {
    fa[f := fa[f].(tasks := fa[f].tasks[id := t])]
  }

  /** Every index in the parser's state points into its arena, and the forest is well formed. */
  ghost predicate InRange(a: seq<Task>, fa: seq<Folder>, fs: map<string, nat>, ts: map<Option<string>, nat>) {
    && WellFormed(a)
    && (forall t :: 0 <= t < |a| && a[t].folder.Some? ==> a[t].folder.value < |fa|)
    && (forall name :: name in fs ==> fs[name] < |fa|)
    && (forall id :: id in ts ==> ts[id] < |a|)
    && (forall f, id :: 0 <= f < |fa| && id in fa[f].tasks ==> fa[f].tasks[id] < |a|)
  }

  /** Parent and children links agree, and each child list is in storing order. */
  ghost predicate LinksAgree(a: seq<Task>)
    requires WellFormed(a)
  {
    && (forall p, k :: 0 <= p < |a| && 0 <= k < |a[p].children| ==> a[a[p].children[k]].parent == Some(p))
    && (forall t :: 0 <= t < |a| && a[t].parent.Some? ==> t in a[a[t].parent.value].children)
    && (forall p, j, k :: 0 <= p < |a| && 0 <= j < k < |a[p].children| ==> a[p].children[j] < a[p].children[k])
  }

  /** Every task's flag is what `checkFolderMismatch` tests on its links. */
  ghost predicate FlagsAgree(a: seq<Task>)
    requires WellFormed(a)
  {
    forall t :: 0 <= t < |a| ==> a[t].folderMismatch == Mismatched(a, t)
  }

  /**
   * Every task has a folder, and the three dictionaries map each key to an
   * object carrying that key: `self.tasks` by id, a folder's tasks by id,
   * `self.folders` by raw name (the folder holding its sanitised form).
   */
  ghost predicate Indexed(a: seq<Task>, fa: seq<Folder>, fs: map<string, nat>, ts: map<Option<string>, nat>)
    requires InRange(a, fa, fs, ts)
  {
    && (forall t :: 0 <= t < |a| ==> a[t].folder.Some?)
    && (forall id :: id in ts ==> a[ts[id]].id == id)
    && (forall f, id :: 0 <= f < |fa| && id in fa[f].tasks ==>
          a[fa[f].tasks[id]].id == id && a[fa[f].tasks[id]].folder == Some(f))
    && (forall name :: name in fs ==> fa[fs[name]].name == Sanitize(name))
  }

  /** The settings' filters held for everything stored. */
  ghost predicate Admitted(config: Config, a: seq<Task>, fs: map<string, nat>) {
    && (!config.includeCompleted ==> forall t :: 0 <= t < |a| ==> !a[t].IsComplete())
    && (forall name :: name in fs ==> PassesFilter(config, name))
  }

  lemma AttachInRange(a: seq<Task>, fa: seq<Folder>, fs: map<string, nat>, ts: map<Option<string>, nat>,
                      task: Task, f: nat, p: Option<nat>)
    requires InRange(a, fa, fs, ts) && f < |fa| && (p.Some? ==> p.value < |a|) && task.children == []
    ensures InRange(Attach(a, task, f, p), File(fa, f, task.id, |a|), fs, ts[task.id := |a|])
  {
  }

  lemma AttachWellFormed(a: seq<Task>, task: Task, f: nat, p: Option<nat>)
    requires WellFormed(a) && (p.Some? ==> p.value < |a|) && task.children == []
    ensures WellFormed(Attach(a, task, f, p))
  {
    var a' := Attach(a, task, f, p);
    forall t, k | 0 <= t < |a'| && 0 <= k < |a'[t].children|
      ensures t < a'[t].children[k] < |a'|
    {
      if t < |a| && k < |a[t].children| {
        assert a'[t].children[k] == a[t].children[k];
      }
    }
  }

  lemma AttachChildrenPoint(a: seq<Task>, task: Task, f: nat, p: Option<nat>)
    requires WellFormed(a) && LinksAgree(a) && (p.Some? ==> p.value < |a|) && task.children == []
    ensures var a' := Attach(a, task, f, p);
      forall q, k :: 0 <= q < |a'| && 0 <= k < |a'[q].children| ==> a'[a'[q].children[k]].parent == Some(q)
  {
    var a' := Attach(a, task, f, p);
    forall q, k | 0 <= q < |a'| && 0 <= k < |a'[q].children|
      ensures a'[a'[q].children[k]].parent == Some(q)
    {
      var c := a'[q].children[k];
      if k < |a[q].children| {
        assert c == a[q].children[k];
        assert a[c].parent == Some(q);
      } else {
        assert c == |a|;
      }
    }
  }

  lemma AttachParentListed(a: seq<Task>, task: Task, f: nat, p: Option<nat>)
    requires WellFormed(a) && LinksAgree(a) && (p.Some? ==> p.value < |a|) && task.children == []
    ensures var a' := Attach(a, task, f, p);
      forall c :: 0 <= c < |a'| && a'[c].parent.Some? ==> c in a'[a'[c].parent.value].children
  {
    var a' := Attach(a, task, f, p);
    forall c | 0 <= c < |a'| && a'[c].parent.Some?
      ensures c in a'[a'[c].parent.value].children
    {
      var q := a'[c].parent.value;
      if c < |a| {
        assert a[c].parent == Some(q);
        assert c in a[q].children;
        assert c in a'[q].children;
      } else {
        assert a'[q].children == a[q].children + [c];
      }
    }
  }

  lemma AttachChildrenSorted(a: seq<Task>, task: Task, f: nat, p: Option<nat>)
    requires WellFormed(a) && LinksAgree(a) && (p.Some? ==> p.value < |a|) && task.children == []
    ensures var a' := Attach(a, task, f, p);
      forall q, j, k :: 0 <= q < |a'| && 0 <= j < k < |a'[q].children| ==> a'[q].children[j] < a'[q].children[k]
  {
    var a' := Attach(a, task, f, p);
    forall q, j, k | 0 <= q < |a'| && 0 <= j < k < |a'[q].children|
      ensures a'[q].children[j] < a'[q].children[k]
    {
      assert a'[q].children[j] == a[q].children[j];
      if k < |a[q].children| {
        assert a'[q].children[k] == a[q].children[k];
      }
    }
  }

  lemma AttachLinksAgree(a: seq<Task>, task: Task, f: nat, p: Option<nat>)
    requires WellFormed(a) && LinksAgree(a) && (p.Some? ==> p.value < |a|) && task.children == []
    ensures WellFormed(Attach(a, task, f, p)) && LinksAgree(Attach(a, task, f, p))
  {
    AttachWellFormed(a, task, f, p);
    AttachChildrenPoint(a, task, f, p);
    AttachParentListed(a, task, f, p);
    AttachChildrenSorted(a, task, f, p);
  }

  /**
   * Storing a task keeps every flag equal to the folder-mismatch test: the
   * new task's flag is the test on its parent, and no earlier task changes
   * its parent, its folder or its flag.
   */
  lemma AttachFlagsAgree(a: seq<Task>, task: Task, f: nat, p: Option<nat>)
    requires WellFormed(a) && FlagsAgree(a) && (p.Some? ==> p.value < |a|) && task.children == []
    ensures WellFormed(Attach(a, task, f, p)) && FlagsAgree(Attach(a, task, f, p))
  {
    AttachWellFormed(a, task, f, p);
    var a' := Attach(a, task, f, p);
    forall t | 0 <= t < |a'|
      ensures a'[t].folderMismatch == Mismatched(a', t)
    {
      if t < |a| && a[t].parent.Some? {
        assert a'[a[t].parent.value].folder == a[a[t].parent.value].folder;
      }
    }
  }

  lemma AttachIndexed(a: seq<Task>, fa: seq<Folder>, fs: map<string, nat>, ts: map<Option<string>, nat>,
                      task: Task, f: nat, p: Option<nat>)
    requires InRange(a, fa, fs, ts) && Indexed(a, fa, fs, ts)
    requires f < |fa| && (p.Some? ==> p.value < |a|) && task.children == []
    ensures InRange(Attach(a, task, f, p), File(fa, f, task.id, |a|), fs, ts[task.id := |a|])
    ensures Indexed(Attach(a, task, f, p), File(fa, f, task.id, |a|), fs, ts[task.id := |a|])
  {
    AttachInRange(a, fa, fs, ts, task, f, p);
    AttachKeyed(a, fa, fs, ts, task, f, p);
    AttachFiled(a, fa, fs, ts, task, f, p);
    FileNamed(a, fa, fs, ts, task.id, f);
  }

  lemma AttachKeyed(a: seq<Task>, fa: seq<Folder>, fs: map<string, nat>, ts: map<Option<string>, nat>,
                    task: Task, f: nat, p: Option<nat>)
    requires InRange(a, fa, fs, ts) && Indexed(a, fa, fs, ts)
    requires f < |fa| && (p.Some? ==> p.value < |a|) && task.children == []
    ensures var a', ts' := Attach(a, task, f, p), ts[task.id := |a|];
      forall id :: id in ts' ==> ts'[id] < |a'| && a'[ts'[id]].id == id
  {
    var a', ts' := Attach(a, task, f, p), ts[task.id := |a|];
    forall id | id in ts' ensures ts'[id] < |a'| && a'[ts'[id]].id == id {
      if id != task.id {
        assert a'[ts[id]].id == a[ts[id]].id;
      }
    }
  }

  lemma FileNamed(a: seq<Task>, fa: seq<Folder>, fs: map<string, nat>, ts: map<Option<string>, nat>,
                  id: Option<string>, f: nat)
    requires InRange(a, fa, fs, ts) && Indexed(a, fa, fs, ts) && f < |fa|
    ensures forall name :: name in fs ==> fs[name] < |fa| && File(fa, f, id, |a|)[fs[name]].name == Sanitize(name)
  {
    forall name | name in fs ensures fs[name] < |fa| && File(fa, f, id, |a|)[fs[name]].name == Sanitize(name) {
      assert File(fa, f, id, |a|)[fs[name]].name == fa[fs[name]].name;
    }
  }

  lemma AttachFiled(a: seq<Task>, fa: seq<Folder>, fs: map<string, nat>, ts: map<Option<string>, nat>,
                    task: Task, f: nat, p: Option<nat>)
    requires InRange(a, fa, fs, ts) && Indexed(a, fa, fs, ts)
    requires f < |fa| && (p.Some? ==> p.value < |a|) && task.children == []
    ensures var a', fa' := Attach(a, task, f, p), File(fa, f, task.id, |a|);
      forall g, id :: 0 <= g < |fa'| && id in fa'[g].tasks ==>
        fa'[g].tasks[id] < |a'| && a'[fa'[g].tasks[id]].id == id && a'[fa'[g].tasks[id]].folder == Some(g)
  {
    var a', fa' := Attach(a, task, f, p), File(fa, f, task.id, |a|);
    forall g, id | 0 <= g < |fa'| && id in fa'[g].tasks
      ensures fa'[g].tasks[id] < |a'| && a'[fa'[g].tasks[id]].id == id && a'[fa'[g].tasks[id]].folder == Some(g)
    {
      if g == f && id == task.id {
        assert fa'[g].tasks[id] == |a|;
      } else {
        assert fa'[g].tasks[id] == fa[g].tasks[id];
        var t := fa[g].tasks[id];
        assert a'[t].id == a[t].id && a'[t].folder == a[t].folder;
      }
    }
  }

  lemma AttachAdmitted(config: Config, a: seq<Task>, fs: map<string, nat>, task: Task, f: nat, p: Option<nat>)
    requires Admitted(config, a, fs) && (p.Some? ==> p.value < |a|)
    requires !config.includeCompleted ==> !task.IsComplete()
    ensures Admitted(config, Attach(a, task, f, p), fs)
  {
  }

  /** The parser's state as a value: both arenas and both dictionaries. */
  datatype Parsed = Parsed(
    arena: seq<Task>,
    folderArena: seq<Folder>,
    folders: map<string, nat>,
    tasks: map<Option<string>, nat>)

  ghost predicate ParsedInRange(s: Parsed) {
    InRange(s.arena, s.folderArena, s.folders, s.tasks)
  }

  /** Everything the record loop keeps true between records. */
  ghost predicate Consistent(config: Config, s: Parsed) {
    && ParsedInRange(s)
    && LinksAgree(s.arena)
    && FlagsAgree(s.arena)
    && Indexed(s.arena, s.folderArena, s.folders, s.tasks)
    && Admitted(config, s.arena, s.folders)
  }

  /** Lines 263-268 on values: the state once a folder is stored under `name`, created on first use. */
  function WithFolder(s: Parsed, name: string): (s': Parsed)
    requires ParsedInRange(s)
    ensures ParsedInRange(s') && name in s'.folders
    ensures s'.arena == s.arena && s'.tasks == s.tasks
    ensures name in s.folders ==> s' == s
    ensures name !in s.folders ==>
      s'.folders == s.folders[name := |s.folderArena|] && s'.folderArena == s.folderArena + [NewFolder(name)]
  {
    if name in s.folders then s
    else Parsed(s.arena, s.folderArena + [NewFolder(name)], s.folders[name := |s.folderArena|], s.tasks)
  }

  /** Creating a folder whose name passes the filter keeps the state consistent. */
  lemma WithFolderConsistent(config: Config, s: Parsed, name: string)
    requires Consistent(config, s) && PassesFilter(config, name)
    ensures Consistent(config, WithFolder(s, name))
  {
  }

  /**
   * Lines 263-300 on values, once a record's task is built: the task becomes
   * number `|s.arena|`, filed in the folder stored under `name` (created on
   * first use) and in the task dictionary under its id, replacing an
   * earlier task with that id, and linked below the task `parentId` names.
   */
  function Inserted(s: Parsed, task: Task, name: string, parentId: Option<string>): (s': Parsed)
    requires ParsedInRange(s)
    ensures |s'.arena| == |s.arena| + 1
    ensures forall t :: 0 <= t < |s.arena| ==> Childless(s'.arena[t]) == Childless(s.arena[t])
    ensures Unlinked(s'.arena[|s.arena|]) == Unlinked(task)
    ensures s'.arena[|s.arena|].parent == ResolveParent(s.tasks, parentId)
    ensures name in s'.folders && s'.arena[|s.arena|].folder == Some(s'.folders[name])
    ensures s'.tasks == s.tasks[task.id := |s.arena|]
    ensures s'.arena[|s.arena|].folderMismatch <==>
      s'.arena[|s.arena|].parent.Some? && s.arena[s'.arena[|s.arena|].parent.value].folder != s'.arena[|s.arena|].folder
    ensures s'.folders == WithFolder(s, name).folders
    ensures s'.folderArena == File(WithFolder(s, name).folderArena, s'.folders[name], task.id, |s.arena|)
  {
    var s1 := WithFolder(s, name);
    var f := s1.folders[name];
    var t := |s.arena|;
    Parsed(Attach(s.arena, task, f, ResolveParent(s.tasks, parentId)),
           File(s1.folderArena, f, task.id, t), s1.folders, s.tasks[task.id := t])
  }

  /**
   * One pass of the loop in `parseXML` (lines 236-300) on values. A skipped
   * record leaves the state as it is; any other record is inserted as the
   * task it describes, in the folder it names, below the parent it names.
   */
  function Step(config: Config, s: Parsed, r: Record): (s': Parsed)
    requires ParsedInRange(s)
    ensures Skipped(config, r) ==> s' == s
    ensures !Skipped(config, r) ==>
      && |s'.arena| == |s.arena| + 1
      && (forall t :: 0 <= t < |s.arena| ==> Childless(s'.arena[t]) == Childless(s.arena[t]))
      && Unlinked(s'.arena[|s.arena|]) == StoredTask(r)
      && s'.arena[|s.arena|].parent == ResolveParent(s.tasks, Get(r.parent))
      && FolderName(r) in s'.folders
      && s'.arena[|s.arena|].folder == Some(s'.folders[FolderName(r)])
      && s'.tasks == s.tasks[Get(r.id) := |s.arena|]
    ensures !Skipped(config, r) ==> (s'.arena[|s.arena|].folderMismatch <==>
      s'.arena[|s.arena|].parent.Some? && s.arena[s'.arena[|s.arena|].parent.value].folder != s'.arena[|s.arena|].folder)
    ensures !Skipped(config, r) ==> s'.folders == WithFolder(s, FolderName(r)).folders
    ensures !Skipped(config, r) ==>
      s'.folderArena == File(WithFolder(s, FolderName(r)).folderArena, s'.folders[FolderName(r)], Get(r.id), |s.arena|)
  {
    if Skipped(config, r) then s else Inserted(s, StoredTask(r), FolderName(r), Get(r.parent))
  }

  /** Each pass of the loop keeps the state consistent. */
  lemma StepConsistent(config: Config, s: Parsed, r: Record)
    requires Consistent(config, s)
    ensures Consistent(config, Step(config, s, r))
  {
    if !Skipped(config, r) {
      var name := FolderName(r);
      WithFolderConsistent(config, s, name);
      var s1 := WithFolder(s, name);
      var f := s1.folders[name];
      var p := ResolveParent(s.tasks, Get(r.parent));
      var task := StoredTask(r);
      AttachIndexed(s1.arena, s1.folderArena, s1.folders, s1.tasks, task, f, p);
      AttachLinksAgree(s1.arena, task, f, p);
      AttachFlagsAgree(s1.arena, task, f, p);
      AttachAdmitted(config, s1.arena, s1.folders, task, f, p);
    }
  }

  /** Each pass of the loop keeps every index in range. */
  lemma StepInRange(config: Config, s: Parsed, r: Record)
    requires ParsedInRange(s)
    ensures ParsedInRange(Step(config, s, r))
  {
    if !Skipped(config, r) {
      var s1 := WithFolder(s, FolderName(r));
      AttachInRange(s1.arena, s1.folderArena, s1.folders, s1.tasks, StoredTask(r),
                    s1.folders[FolderName(r)], ResolveParent(s.tasks, Get(r.parent)));
    }
  }

  /** The loop over `records`, one `Step` per record in order. */
  function Run(config: Config, s: Parsed, records: seq<Record>): (s': Parsed)
    requires ParsedInRange(s)
    ensures ParsedInRange(s')
    decreases |records|
  {
    if records == [] then s
    else
      var s1 := Run(config, s, records[..|records| - 1]);
      StepInRange(config, s1, records[|records| - 1]);
      Step(config, s1, records[|records| - 1])
  }

  /** Running the loop over one more record is one more `Step`. */
  lemma RunSnoc(config: Config, s: Parsed, records: seq<Record>, r: Record)
    requires ParsedInRange(s)
    ensures Run(config, s, records + [r]) == Step(config, Run(config, s, records), r)
  {
    assert (records + [r])[..|records|] == records;
  }

  /** The loop over the first `i + 1` records is one more `Step` after the first `i`. */
  lemma RunPrefix(config: Config, s: Parsed, records: seq<Record>, i: nat)
    requires ParsedInRange(s) && i < |records|
    ensures Run(config, s, records[..i + 1]) == Step(config, Run(config, s, records[..i]), records[i])
  {
    assert records[..i + 1] == records[..i] + [records[i]];
    RunSnoc(config, s, records[..i], records[i]);
  }

  lemma RunAll(config: Config, s: Parsed, records: seq<Record>)
    requires ParsedInRange(s)
    ensures Run(config, s, records[..|records|]) == Run(config, s, records)
  {
    assert records[..|records|] == records;
  }

  /** The whole loop keeps the state consistent. */
  lemma {:induction false} RunConsistent(config: Config, s: Parsed, records: seq<Record>)
    requires Consistent(config, s)
    ensures Consistent(config, Run(config, s, records))
    decreases |records|
  {
    if records != [] {
      RunConsistent(config, s, records[..|records| - 1]);
      StepConsistent(config, Run(config, s, records[..|records| - 1]), records[|records| - 1]);
    }
  }

  /**
   * Arena `a` is arena `a0` with one task stored after it for each record
   * of `added`, carrying what the record says; the earlier tasks keep
   * everything but their child lists.
   */
  ghost predicate Extends(a0: seq<Task>, a: seq<Task>, added: seq<Record>) {
    && |a| == |a0| + |added|
    && (forall k :: 0 <= k < |added| ==> Unlinked(a[|a0| + k]) == StoredTask(added[k]))
    && (forall t :: 0 <= t < |a0| ==> Childless(a[t]) == Childless(a0[t]))
  }

  lemma ExtendsTrans(a0: seq<Task>, a1: seq<Task>, a2: seq<Task>, added1: seq<Record>, added2: seq<Record>)
    requires Extends(a0, a1, added1) && Extends(a1, a2, added2)
    ensures Extends(a0, a2, added1 + added2)
  {
    forall k | 0 <= k < |added1 + added2|
      ensures Unlinked(a2[|a0| + k]) == StoredTask((added1 + added2)[k])
    {
      if k < |added1| {
        assert Unlinked(a2[|a0| + k]) == Unlinked(a1[|a0| + k]);
      } else {
        assert a2[|a0| + k] == a2[|a1| + (k - |added1|)];
      }
    }
  }

  lemma StepExtends(config: Config, s: Parsed, r: Record)
    requires ParsedInRange(s) && !Skipped(config, r)
    ensures Extends(s.arena, Step(config, s, r).arena, [r])
  {
    var a := Step(config, s, r).arena;
    forall k | 0 <= k < 1
      ensures Unlinked(a[|s.arena| + k]) == StoredTask([r][k])
    {
      assert [r][k] == r;
    }
  }

  /**
   * What the loop stores: one task per record it does not skip, in order,
   * after the tasks already there, each carrying what its record says; the
   * earlier tasks keep everything but their child lists.
   */
  lemma {:induction false} RunStores(config: Config, s: Parsed, records: seq<Record>)
    requires ParsedInRange(s)
    ensures Extends(s.arena, Run(config, s, records).arena, Kept(config, records))
    decreases |records|
  {
    if records != [] {
      var init, last := records[..|records| - 1], records[|records| - 1];
      RunStores(config, s, init);
      var s1 := Run(config, s, init);
      if Skipped(config, last) {
        assert Run(config, s, records) == s1;
        assert Kept(config, records) == Kept(config, init);
      } else {
        StepExtends(config, s1, last);
        ExtendsTrans(s.arena, s1.arena, Step(config, s1, last).arena, Kept(config, init), [last]);
      }
    }
  }

  /**
   * The parser object: every task and folder object it created (the
   * arenas), `self.folders` by raw folder name and `self.tasks` by task id.
   */
  class Toodledo {
    var arena: seq<Task>
    var folderArena: seq<Folder>
    var folders: map<string, nat>
    var tasks: map<Option<string>, nat>
    const config: Config

    function State(): Parsed
      reads this
    {
      Parsed(arena, folderArena, folders, tasks)
    }

    ghost predicate Valid()
      reads this
    {
      InRange(arena, folderArena, folders, tasks)
    }

    /** What the record loop keeps true between records. */
    ghost predicate Built()
      reads this
    {
      Consistent(config, State())
    }

    /** `Toodledo()`: no folders and no tasks. */
    constructor (config: Config)
      ensures Valid() && Built()
      ensures this.config == config
      ensures State() == Parsed([], [], map[], map[])
    {
      this.config := config;
      arena, folderArena, folders, tasks := [], [], map[], map[];
    }

    /**
     * `checkFolderMismatch()`: raises the flag when the task has a parent
     * whose folder is not the task's; never lowers it; changes nothing else.
     */
    method CheckFolderMismatch(t: nat)
      requires Valid() && t < |arena|
      modifies this`arena
      ensures Valid()
      ensures arena == old(arena)[t := old(arena)[t].(folderMismatch := old(arena)[t].folderMismatch || Mismatched(old(arena), t))]
    {
      var task := arena[t];
      if task.parent.Some? && arena[task.parent.value].folder != task.folder {
        arena := arena[t := task.(folderMismatch := true)];
      }
    }

    /**
     * `setParent(parent)`: links the task to `p` and appends it to `p`'s
     * children, then checks the folders. The task must have been stored
     * after `p`.
     */
    method SetParent(t: nat, p: nat)
      requires Valid() && p < t < |arena|
      modifies this`arena
      ensures Valid()
      ensures arena == old(arena)
        [p := old(arena)[p].(children := old(arena)[p].children + [t])]
        [t := old(arena)[t].(parent := Some(p),
                             folderMismatch := old(arena)[t].folderMismatch || old(arena)[p].folder != old(arena)[t].folder)]
    {
      arena := arena[t := arena[t].(parent := Some(p))];
      arena := arena[p := arena[p].(children := arena[p].children + [t])];
      CheckFolderMismatch(t);
    }

    /**
     * `setFolder(folder)`: records the folder in the task and the task in
     * the folder's dictionary under its id (replacing any task stored under
     * that id), then checks the folders.
     */
    method SetFolder(t: nat, f: nat)
      requires Valid() && t < |arena| && f < |folderArena|
      modifies this`arena, this`folderArena
      ensures Valid()
      ensures folderArena == File(old(folderArena), f, old(arena)[t].id, t)
      ensures arena == old(arena)[t := old(arena)[t].(folder := Some(f),
        folderMismatch := old(arena)[t].folderMismatch
          || (old(arena)[t].parent.Some? && old(arena)[old(arena)[t].parent.value].folder != Some(f)))]
    {
      arena := arena[t := arena[t].(folder := Some(f))];
      folderArena := folderArena[f := folderArena[f].(tasks := folderArena[f].tasks[arena[t].id := t])];
      CheckFolderMismatch(t);
    }

    /** Lines 263-268: the folder stored under `name`, created on first use. */
    method GetOrCreateFolder(name: string) returns (f: nat)
      requires Valid()
      modifies this`folders, this`folderArena
      ensures Valid()
      ensures State() == WithFolder(old(State()), name)
      ensures f == folders[name]
    {
      if name !in folders {
        f := |folderArena|;
        folderArena := folderArena + [NewFolder(name)];
        folders := folders[name := f];
      } else {
        f := folders[name];
      }
    }

    /**
     * Lines 250-279 without the field copies: the task is stored last, filed
     * in folder `f` and, when `p` names an earlier task, made its last child.
     */
    method Store(task: Task, f: nat, p: Option<nat>) returns (t: nat)
      requires Valid() && f < |folderArena| && (p.Some? ==> p.value < |arena|)
      requires Unlinked(task) == task
      modifies this`arena, this`folderArena
      ensures Valid()
      ensures t == |old(arena)|
      ensures arena == Attach(old(arena), task, f, p)
      ensures folderArena == File(old(folderArena), f, task.id, t)
    {
      ghost var a0 := arena;
      arena := arena + [task];
      t := |arena| - 1;
      SetFolder(t, f);
      assert arena == a0 + [task.(folder := Some(f))];
      AttachSteps(a0, task, f, p);
      if p.Some? {
        SetParent(t, p.value);
      }
    }

    /** Lines 263-300 once the task is built, proved against `Inserted`. */
    method Insert(task: Task, name: string, parentId: Option<string>)
      requires Valid() && Unlinked(task) == task
      modifies this`arena, this`folderArena, this`folders, this`tasks
      ensures Valid()
      ensures State() == Inserted(old(State()), task, name, parentId)
    {
      ghost var s0 := State();
      var f := GetOrCreateFolder(name);
      ghost var s1 := State();
      var parent := ResolveParent(tasks, parentId);
      var t := Store(task, f, parent);
      tasks := tasks[task.id := t];
      assert State() == Parsed(Attach(s0.arena, task, f, parent), File(s1.folderArena, f, task.id, t), s1.folders, s0.tasks[task.id := t]);
    }

    /** One pass of the loop in `parseXML`, proved against `Step`. */
    method ProcessRecord(r: Record)
      requires Valid()
      modifies this`arena, this`folderArena, this`folders, this`tasks
      ensures Valid()
      ensures State() == Step(config, old(State()), r)
    {
      var name := FolderName(r);
      if config.folderFilter.Some? && !(config.folderFilter.value <= name) {
        return;
      }
      if IsCompletedRecord(r) && !config.includeCompleted {
        return;
      }
      Insert(StoredTask(r), name, Get(r.parent));
    }

    /** The loop of `parseXML` (lines 236-300), proved against `Run`. */
    method ProcessRecords(items: seq<Record>)
      requires Valid()
      modifies this`arena, this`folderArena, this`folders, this`tasks
      ensures Valid()
      ensures State() == Run(config, old(State()), items)
    {
      ghost var s0 := State();
      for i := 0 to |items|
        invariant Valid()
        invariant State() == Run(config, s0, items[..i])
      {
        RunPrefix(config, s0, items, i);
        ProcessRecord(items[i]);
      }
      RunAll(config, s0, items);
    }

    /**
     * `parseXML` on the records of a backup file: the pre-filter when a
     * folder filter is set, then the loop. The state stays consistent.
     */
    method ParseXML(records: seq<Record>)
      requires Valid() && Built()
      modifies this`arena, this`folderArena, this`folders, this`tasks
      ensures Valid() && Built()
      ensures State() == Run(config, old(State()), Admissible(config, records))
    {
      var items := Admissible(config, records);
      RunConsistent(config, State(), items);
      ProcessRecords(items);
    }
  }
}
