/**
 * What both exporters of toodledo_to_todoist.py share: the parser's result
 * as they read it, the folders' and tasks' dictionaries iterated in an
 * order the model leaves open, and the top-level tasks of a folder
 * (`task.parent == None`).
 */
module Traversal {
  import opened Options
  import opened Forest
  import Parsing

  /**
   * What the exporters rely on in the parser's result: the forest is well
   * formed, every task has a folder, and every folder's tasks are stored.
   */
  ghost predicate Exportable(a: seq<Task>, fa: seq<Folder>) {
    && WellFormed(a)
    && (forall t :: 0 <= t < |a| ==> a[t].folder.Some? && a[t].folder.value < |fa|)
    && (forall f, id :: 0 <= f < |fa| && id in fa[f].tasks ==> fa[f].tasks[id] < |a|)
  }

  /** Whatever the record loop keeps true is enough to export. */
  lemma ConsistentExportable(config: Parsing.Config, s: Parsing.Parsed)
    requires Parsing.Consistent(config, s)
    ensures Exportable(s.arena, s.folderArena)
  {
  }

  /** The name of the folder a task was filed in (`task.folder.name`). */
  function FolderNameOf(a: seq<Task>, fa: seq<Folder>, t: nat): string
    requires Exportable(a, fa) && t < |a|
  {
    fa[a[t].folder.value].name
  }

  /** No task is listed twice. */
  predicate Distinct(s: seq<nat>) {
    forall i, j :: 0 <= i < j < |s| ==> s[i] != s[j]
  }

  /** `xs` lists the elements of `s`, each once. */
  ghost predicate Enumerates(xs: seq<nat>, s: set<nat>) {
    (forall x :: x in xs <==> x in s) && Distinct(xs)
  }

  /** Iterating over a set (a dictionary's values) in an order the model leaves open. */
  method Enumerate(s: set<nat>) returns (xs: seq<nat>)
    ensures Enumerates(xs, s)
  {
    var rest := s;
    xs := [];
    while rest != {}
      invariant rest <= s
      invariant forall x :: x in xs <==> x in s && x !in rest
      invariant Distinct(xs)
      decreases rest
    {
      var x :| x in rest;
      xs := xs + [x];
      rest := rest - {x};
    }
  }

  lemma TakeSnoc(s: seq<nat>, i: nat)
    requires i < |s|
    ensures s[..i + 1] == s[..i] + [s[i]]
  {
  }

  lemma TakeAll(s: seq<nat>)
    ensures s[..|s|] == s
  {
  }

  /** The tasks of a folder's dictionary are stored tasks. */
  lemma ValuesStored(a: seq<Task>, fa: seq<Folder>, g: nat, values: seq<nat>)
    requires Exportable(a, fa) && g < |fa| && Enumerates(values, fa[g].tasks.Values)
    ensures forall i :: 0 <= i < |values| ==> values[i] < |a|
  {
    forall i | 0 <= i < |values|
      ensures values[i] < |a|
    {
      assert values[i] in fa[g].tasks.Values;
      var id :| id in fa[g].tasks && fa[g].tasks[id] == values[i];
    }
  }

  /** The tasks of `values` without a parent, in the same order: `if task.parent == None`. */
  function TopLevel(a: seq<Task>, values: seq<nat>): (order: seq<nat>)
    requires forall i :: 0 <= i < |values| ==> values[i] < |a|
    ensures forall i :: 0 <= i < |order| ==> order[i] < |a|
    decreases |values|
  {
    if values == [] then []
    else
      var init, t := values[..|values| - 1], values[|values| - 1];
      if a[t].parent.None? then TopLevel(a, init) + [t] else TopLevel(a, init)
  }

  /** A task is written at the top level exactly when it is among `values` and has no parent, and then once. */
  lemma {:induction false} TopLevelLists(a: seq<Task>, values: seq<nat>)
    requires forall i :: 0 <= i < |values| ==> values[i] < |a|
    requires Distinct(values)
    ensures forall t :: t in TopLevel(a, values) <==> t in values && a[t].parent.None?
    ensures Distinct(TopLevel(a, values))
    decreases |values|
  {
    if values != [] {
      var init, t := values[..|values| - 1], values[|values| - 1];
      assert values == init + [t];
      TopLevelLists(a, init);
    }
  }

  /** Folder `gs[i]` had its tasks visited in the order `visits[i]`, for each `i`. */
  ghost predicate Visits(a: seq<Task>, fa: seq<Folder>, gs: seq<nat>, visits: seq<seq<nat>>) {
    && |visits| == |gs|
    && (forall i :: 0 <= i < |gs| ==> gs[i] < |fa| && Enumerates(visits[i], fa[gs[i]].tasks.Values))
    && (forall i, j :: 0 <= i < |gs| && 0 <= j < |visits[i]| ==> visits[i][j] < |a|)
  }

  lemma VisitsSnoc(a: seq<Task>, fa: seq<Folder>, gs: seq<nat>, visits: seq<seq<nat>>, g: nat, values: seq<nat>)
    requires Visits(a, fa, gs, visits) && g < |fa|
    requires Enumerates(values, fa[g].tasks.Values) && forall j :: 0 <= j < |values| ==> values[j] < |a|
    ensures Visits(a, fa, gs + [g], visits + [values])
  {
    var gs', visits' := gs + [g], visits + [values];
    forall i, j | 0 <= i < |gs'| && 0 <= j < |visits'[i]|
      ensures visits'[i][j] < |a|
    {
      if i < |gs| {
        assert visits'[i] == visits[i];
      }
    }
  }

  lemma VisitsInit(a: seq<Task>, fa: seq<Folder>, gs: seq<nat>, visits: seq<seq<nat>>)
    requires Visits(a, fa, gs, visits) && gs != []
    ensures Visits(a, fa, gs[..|gs| - 1], visits[..|gs| - 1])
  {
    var last := |gs| - 1;
    forall i, j | 0 <= i < last && 0 <= j < |visits[..last][i]|
      ensures visits[..last][i][j] < |a|
    {
      assert visits[..last][i] == visits[i];
    }
  }
}
