/**
 * The `Folder` and `Task` classes of toodledo_to_todoist.py as records in
 * an arena: a task refers to its parent, its children and its folder by
 * their index in the task and folder sequences that own them.
 */
module Forest {
  import opened Options
  import Strings

  /**
   * One task. `children`, `parent` and `folder` are arena indices;
   * `folderMismatch` is the flag `checkFolderMismatch` raises.
   */
  datatype Task = Task(
    id: Option<string>,
    title: Option<string>,
    children: seq<nat>,
    parent: Option<nat>,
    folder: Option<nat>,
    folderMismatch: bool,
    dueDate: Option<string>,
    completedDate: Option<string>,
    tags: seq<string>,
    note: Option<string>,
    repeat: Option<string>)
  {
    /** `isComplete()`: a task is complete when it carries a completion date. */
    predicate IsComplete() {
      completedDate.Some?
    }
  }

  /** `Task(id, title)`: no links, flag down, no dates, note, repeat text or tags. */
  function NewTask(id: Option<string>, title: Option<string>): Task {
    Task(id, title, [], None, None, false, None, None, [], None, None)
  }

  /** A folder: its sanitised name and its tasks by id. */
  datatype Folder = Folder(name: string, tasks: map<Option<string>, nat>)

  /** `Folder(name)`: the name with every `/` replaced, and no tasks yet. */
  function NewFolder(rawName: string): (f: Folder)
    ensures '/' !in f.name && |f.name| == |rawName|
    ensures forall k :: 0 <= k < |rawName| && rawName[k] != '/' ==> f.name[k] == rawName[k]
    ensures f.tasks == map[]
  {
    Folder(Strings.Sanitize(rawName), map[])
  }

  /**
   * The arena is a forest whose links only point forward in time: a child
   * was stored after its parent. This is what makes `count()` terminate.
   */
  ghost predicate WellFormed(a: seq<Task>) {
    && (forall t, k :: 0 <= t < |a| && 0 <= k < |a[t].children| ==> t < a[t].children[k] < |a|)
    && (forall t :: 0 <= t < |a| && a[t].parent.Some? ==> a[t].parent.value < t)
  }

  /** `count()`: the number of tasks in the subtree rooted at `t`. */
  function Count(a: seq<Task>, t: nat): (n: nat)
    requires WellFormed(a) && t < |a|
    ensures n >= 1 + |a[t].children|
    ensures a[t].children == [] ==> n == 1
    decreases |a| - t, 1
  {
    1 + ChildrenCount(a, t, 0)
  }

  /** `sum([c.count() for c in children[k:]])`. */
  function ChildrenCount(a: seq<Task>, t: nat, k: nat): (n: nat)
    requires WellFormed(a) && t < |a| && k <= |a[t].children|
    ensures n >= |a[t].children| - k
    decreases |a| - t, 0, |a[t].children| - k
  {
    if k == |a[t].children| then 0
    else Count(a, a[t].children[k]) + ChildrenCount(a, t, k + 1)
  }

  /**
   * The subtree of `t` listed depth first, parents before children, each
   * task with its depth below the starting depth `d`. Its length is the
   * subtree size, it starts with `t`, and every later entry is a task stored
   * after `t` one level deeper or more: `t` never lies below itself.
   */
  function Preorder(a: seq<Task>, t: nat, d: nat): (r: seq<(nat, nat)>)
    requires WellFormed(a) && t < |a|
    ensures |r| == Count(a, t)
    ensures r[0] == (t, d)
    ensures forall j :: 0 < j < |r| ==> t < r[j].0 < |a| && d < r[j].1
    decreases |a| - t, 1
  {
    [(t, d)] + PreorderChildren(a, t, 0, d + 1)
  }

  /** The subtrees of the children of `t` from the `k`-th on, one after the other. */
  function PreorderChildren(a: seq<Task>, t: nat, k: nat, d: nat): (r: seq<(nat, nat)>)
    requires WellFormed(a) && t < |a| && k <= |a[t].children|
    ensures |r| == ChildrenCount(a, t, k)
    ensures forall j :: 0 <= j < |r| ==> t < r[j].0 < |a| && d <= r[j].1
    decreases |a| - t, 0, |a[t].children| - k
  {
    if k == |a[t].children| then []
    else Preorder(a, a[t].children[k], d) + PreorderChildren(a, t, k + 1, d)
  }

  /**
   * The condition `checkFolderMismatch` tests: the task has a parent and the
   * parent's folder is not the task's folder (folders compare by identity,
   * here by arena index).
   */
  predicate Mismatched(a: seq<Task>, t: nat)
    requires WellFormed(a) && t < |a|
  {
    a[t].parent.Some? && a[a[t].parent.value].folder != a[t].folder
  }
}
