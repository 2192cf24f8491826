/**
 * `TodoistExport` of toodledo_to_todoist.py: every folder becomes one or
 * more Todoist import files of indented task lines, split so that a file
 * stays within Todoist's limit of items per project.
 */
module Todoist {
  import opened Options
  import opened Strings
  import opened Forest
  import opened Chunks
  import Parsing
  import opened Traversal

  // ---------------------------------------------------------------- one task

  /** `"%s" % task.title`: a missing title prints as `None`. */
  function TitleText(title: Option<string>): string {
    if title.Some? then title.value else "None"
  }

  /** `''.join([" @" + tag for tag in task.tags])`. */
  function TagMarks(tags: seq<string>): string {
    if tags == [] then "" else " @" + tags[0] + TagMarks(tags[1..])
  }

  /** The marks and prefixes of the exported lines. */
  const MismatchTag: string := " @__import_folder_mismatch"
  const CompletedTag: string := " @__import_completed"
  const RepeatTag: string := " @__import_repeat"
  const DateOpen: string := " [[date "
  const DateClose: string := "]]"
  const NoteTag: string := "[[NOTE]]: "
  const RepeatNoteTag: string := "[[NOTE]]: repeat -- "
  const FolderNoteTag: string := "[[NOTE]]: folder -- "

  /** The task line of `exportTask` (lines 162-179) before its line break. */
  function Headline(task: Task, indent: string): string {
    indent + TitleText(task.title)
    + (if task.folderMismatch then MismatchTag else "")
    + (if task.IsComplete() then CompletedTag else "")
    + (if task.repeat.Some? then RepeatTag else "")
    + TagMarks(task.tags)
    + (if task.dueDate.Some? then DateOpen + task.dueDate.value + DateClose else "")
  }

  /** The note as one line: every run of `\r` and `\n` becomes a tab. */
  function NoteLine(note: string): string {
    NoteTag + CollapseBreaks(note)
  }

  function RepeatLine(repeat: string): string {
    RepeatNoteTag + repeat
  }

  function FolderLine(folderName: string): string {
    FolderNoteTag + folderName
  }

  /** A line written only when `present`, with its line break. */
  function OptionalText(present: bool, line: string): string {
    if present then line + "\n" else ""
  }

  function OptionalLine(present: bool, line: string): seq<string> {
    if present then [line] else []
  }

  /**
   * Everything `exportTask` writes for one task (lines 162-194): the task
   * line, then one note line each for the note, the repeat rule and a folder
   * mismatch, each ended by a line break.
   */
  function Entry(task: Task, folderName: string, indent: string): string {
    Headline(task, indent) + "\n"
    + OptionalText(task.note.Some?, NoteLine(if task.note.Some? then task.note.value else ""))
    + OptionalText(task.repeat.Some?, RepeatLine(if task.repeat.Some? then task.repeat.value else ""))
    + OptionalText(task.folderMismatch, FolderLine(folderName))
  }

  /** The lines of an entry, in order, without their line breaks. */
  function EntryLines(task: Task, folderName: string, indent: string): seq<string> {
    [Headline(task, indent)]
    + OptionalLine(task.note.Some?, NoteLine(if task.note.Some? then task.note.value else ""))
    + OptionalLine(task.repeat.Some?, RepeatLine(if task.repeat.Some? then task.repeat.value else ""))
    + OptionalLine(task.folderMismatch, FolderLine(folderName))
  }

  /** No line break in any of the task's one-line fields. */
  predicate OneLineFields(task: Task, folderName: string, indent: string) {
    && '\n' !in indent && '\n' !in TitleText(task.title) && '\n' !in TagMarks(task.tags)
    && (task.dueDate.Some? ==> '\n' !in task.dueDate.value)
    && (task.repeat.Some? ==> '\n' !in task.repeat.value)
    && '\n' !in folderName
  }

  lemma NoNewlineConcat(x: string, y: string)
    requires '\n' !in x && '\n' !in y
    ensures '\n' !in x + y
  {
    assert forall k :: 0 <= k < |x + y| ==> (x + y)[k] == (if k < |x| then x[k] else y[k - |x|]);
  }

  lemma HeadlineOneLine(task: Task, indent: string)
    requires '\n' !in indent && '\n' !in TitleText(task.title) && '\n' !in TagMarks(task.tags)
    requires task.dueDate.Some? ==> '\n' !in task.dueDate.value
    ensures '\n' !in Headline(task, indent)
  {
    var s := indent + TitleText(task.title);
    NoNewlineConcat(indent, TitleText(task.title));
    var m1 := if task.folderMismatch then MismatchTag else "";
    var m2 := if task.IsComplete() then CompletedTag else "";
    var m3 := if task.repeat.Some? then RepeatTag else "";
    var m4 := if task.dueDate.Some? then DateOpen + task.dueDate.value + DateClose else "";
    NoNewlineConcat(s, m1);
    NoNewlineConcat(s + m1, m2);
    NoNewlineConcat(s + m1 + m2, m3);
    NoNewlineConcat(s + m1 + m2 + m3, TagMarks(task.tags));
    if task.dueDate.Some? {
      NoNewlineConcat(DateOpen, task.dueDate.value);
      NoNewlineConcat(DateOpen + task.dueDate.value, DateClose);
    }
    NoNewlineConcat(s + m1 + m2 + m3 + TagMarks(task.tags), m4);
  }

  lemma NoteLineOneLine(note: string)
    ensures '\n' !in NoteLine(note)
  {
    var c := CollapseBreaks(note);
    assert forall k :: 0 <= k < |c| ==> !IsBreak(c[k]);
    NoNewlineConcat(NoteTag, c);
  }

  /** An optional line in front of text that splits into `lines`. */
  lemma OptionalLineSplits(present: bool, line: string, rest: string, lines: seq<string>)
    requires present ==> '\n' !in line
    requires Split(rest, '\n') == lines
    ensures Split(OptionalText(present, line) + rest, '\n') == OptionalLine(present, line) + lines
  {
    if present {
      SplitAfterSep(line, '\n', rest);
      assert line + ['\n'] + rest == line + "\n" + rest;
    } else {
      assert "" + rest == rest;
      assert [] + lines == lines;
    }
  }

  /** A line followed by three optional lines splits into those lines and a final empty piece. */
  lemma LinesSplit(h: string, note: bool, nl: string, rep: bool, rl: string, mm: bool, fl: string)
    requires '\n' !in h && '\n' !in nl && '\n' !in rl && '\n' !in fl
    ensures Split(h + "\n" + OptionalText(note, nl) + OptionalText(rep, rl) + OptionalText(mm, fl), '\n')
         == [h] + OptionalLine(note, nl) + OptionalLine(rep, rl) + OptionalLine(mm, fl) + [""]
  {
    var n, r, f := OptionalText(note, nl), OptionalText(rep, rl), OptionalText(mm, fl);
    var ln, lr, lf := OptionalLine(note, nl), OptionalLine(rep, rl), OptionalLine(mm, fl);
    SplitNoSep("", '\n');
    assert f + "" == f;
    OptionalLineSplits(mm, fl, "", [""]);
    OptionalLineSplits(rep, rl, f, lf + [""]);
    OptionalLineSplits(note, nl, r + f, lr + (lf + [""]));
    OptionalLineSplits(true, h, n + (r + f), ln + (lr + (lf + [""])));
    assert OptionalText(true, h) == h + "\n" && OptionalLine(true, h) == [h];
    Associate(h + "\n" + n, r, f);
    Associate(h + "\n", n, r + f);
    Associate([h] + ln + lr, lf, [""]);
    Associate([h] + ln, lr, lf + [""]);
    Associate([h], ln, lr + (lf + [""]));
  }

  /**
   * When the one-line fields hold no line break, an entry is exactly its
   * lines, each ended by a line break: a multi-line note never breaks the
   * line structure Todoist reads.
   */
  lemma EntrySplits(task: Task, folderName: string, indent: string)
    requires OneLineFields(task, folderName, indent)
    ensures Split(Entry(task, folderName, indent), '\n') == EntryLines(task, folderName, indent) + [""]
  {
    HeadlineOneLine(task, indent);
    NoteLineOneLine(if task.note.Some? then task.note.value else "");
    NoNewlineConcat(RepeatNoteTag, if task.repeat.Some? then task.repeat.value else "");
    NoNewlineConcat(FolderNoteTag, folderName);
    LinesSplit(Headline(task, indent),
      task.note.Some?, NoteLine(if task.note.Some? then task.note.value else ""),
      task.repeat.Some?, RepeatLine(if task.repeat.Some? then task.repeat.value else ""),
      task.folderMismatch, FolderLine(folderName));
  }

  // ---------------------------------------------------------------- subtrees

  /**
   * What `exportTask(f, indent, task)` writes: the task's entry, then each
   * child's subtree in order, three dots further in.
   */
  function SubtreeText(a: seq<Task>, fa: seq<Folder>, t: nat, indent: string): string
    requires Exportable(a, fa) && t < |a|
    decreases |a| - t, 1
  {
    Entry(a[t], FolderNameOf(a, fa, t), indent) + ChildrenText(a, fa, t, 0, indent + "...")
  }

  /** The subtrees of the children of `t` from the `k`-th on. */
  function ChildrenText(a: seq<Task>, fa: seq<Folder>, t: nat, k: nat, indent: string): string
    requires Exportable(a, fa) && t < |a| && k <= |a[t].children|
    decreases |a| - t, 0, |a[t].children| - k
  {
    if k == |a[t].children| then ""
    else SubtreeText(a, fa, a[t].children[k], indent) + ChildrenText(a, fa, t, k + 1, indent)
  }

  /** Writing the `k`-th child's subtree after `out` leaves the later children to write. */
  lemma ChildrenTextStep(a: seq<Task>, fa: seq<Folder>, t: nat, k: nat, indent: string, out: string)
    requires Exportable(a, fa) && t < |a| && k < |a[t].children|
    ensures out + ChildrenText(a, fa, t, k, indent)
         == out + SubtreeText(a, fa, a[t].children[k], indent) + ChildrenText(a, fa, t, k + 1, indent)
  {
    Associate(out, SubtreeText(a, fa, a[t].children[k], indent), ChildrenText(a, fa, t, k + 1, indent));
  }

  /** The entries of a list of tasks, each indented by three dots per level of depth. */
  function Listing(a: seq<Task>, fa: seq<Folder>, entries: seq<(nat, nat)>): string
    requires Exportable(a, fa) && forall j :: 0 <= j < |entries| ==> entries[j].0 < |a|
  {
    if entries == [] then ""
    else
      var (t, d) := entries[0];
      Entry(a[t], FolderNameOf(a, fa, t), Repeat("...", d)) + Listing(a, fa, entries[1..])
  }

  lemma {:induction false} ListingAppend(a: seq<Task>, fa: seq<Folder>, x: seq<(nat, nat)>, y: seq<(nat, nat)>)
    requires Exportable(a, fa)
    requires forall j :: 0 <= j < |x| ==> x[j].0 < |a|
    requires forall j :: 0 <= j < |y| ==> y[j].0 < |a|
    ensures Listing(a, fa, x + y) == Listing(a, fa, x) + Listing(a, fa, y)
  {
    if x == [] {
      assert x + y == y;
    } else {
      assert (x + y)[1..] == x[1..] + y;
      ListingAppend(a, fa, x[1..], y);
    }
  }

  /**
   * The text of a subtree is its tasks in depth-first order, parents before
   * children and children in the order they were stored, each indented by
   * three dots per level below the subtree's root.
   */
  lemma {:induction false} SubtreeListing(a: seq<Task>, fa: seq<Folder>, t: nat, d: nat)
    requires Exportable(a, fa) && t < |a|
    ensures SubtreeText(a, fa, t, Repeat("...", d)) == Listing(a, fa, Preorder(a, t, d))
    decreases |a| - t, 1
  {
    var rest := PreorderChildren(a, t, 0, d + 1);
    RepeatSnoc("...", d);
    ChildrenListing(a, fa, t, 0, d + 1);
    var r := Preorder(a, t, d);
    assert r[1..] == rest;
  }

  lemma {:induction false} ChildrenListing(a: seq<Task>, fa: seq<Folder>, t: nat, k: nat, d: nat)
    requires Exportable(a, fa) && t < |a| && k <= |a[t].children|
    ensures ChildrenText(a, fa, t, k, Repeat("...", d)) == Listing(a, fa, PreorderChildren(a, t, k, d))
    decreases |a| - t, 0, |a[t].children| - k
  {
    if k < |a[t].children| {
      var c := a[t].children[k];
      SubtreeListing(a, fa, c, d);
      ChildrenListing(a, fa, t, k + 1, d);
      ListingAppend(a, fa, Preorder(a, c, d), PreorderChildren(a, t, k + 1, d));
    }
  }

  // ---------------------------------------------------------------- files

  /**
   * The name of a folder's `j`-th part file: `__<name>[00000].txt` for the
   * first, `__<name>__part_<j>_[00000].txt` for the later ones.
   */
  function PartFileName(name: string, j: nat): string
    requires j >= 1
  {
    if j == 1 then "__" + name + "[00000].txt"
    else "__" + name + "__part_" + Decimal(j) + "_[00000].txt"
  }

  /** The part files of one folder all have different names. */
  lemma PartFileNamesDiffer(name: string, j: nat, k: nat)
    requires 1 <= j < k
    ensures PartFileName(name, j) != PartFileName(name, k)
  {
    var head := "__" + name + "__part_";
    var tail := "_[00000].txt";
    var sk := head + Decimal(k) + tail;
    if j > 1 && PartFileName(name, j) == PartFileName(name, k) {
      var sj := head + Decimal(j) + tail;
      assert |Decimal(j)| == |Decimal(k)|;
      assert sj[|head|..|head| + |Decimal(j)|] == Decimal(j);
      assert sk[|head|..|head| + |Decimal(k)|] == Decimal(k);
      DecimalRoundTrip(j);
      DecimalRoundTrip(k);
      assert false;
    }
  }

  /** The file map once part `j` (from 1) holds `texts[j - 1]`. */
  function WriteParts(files: map<string, string>, name: string, texts: seq<string>): map<string, string>
    decreases |texts|
  {
    if texts == [] then files
    else WriteParts(files, name, texts[..|texts| - 1])[PartFileName(name, |texts|) := texts[|texts| - 1]]
  }

  /** Every part file holds its own part: no part overwrites another. */
  lemma {:induction false} WritePartsHolds(files: map<string, string>, name: string, texts: seq<string>, j: nat)
    requires 1 <= j <= |texts|
    ensures PartFileName(name, j) in WriteParts(files, name, texts)
    ensures WriteParts(files, name, texts)[PartFileName(name, j)] == texts[j - 1]
    decreases |texts|
  {
    if j < |texts| {
      PartFileNamesDiffer(name, j, |texts|);
      var init := texts[..|texts| - 1];
      WritePartsHolds(files, name, init, j);
    }
  }

  /** Files other than the folder's part files keep their contents. */
  lemma {:induction false} WritePartsOthers(files: map<string, string>, name: string, texts: seq<string>, key: string)
    requires forall j :: 1 <= j <= |texts| ==> key != PartFileName(name, j)
    ensures key in WriteParts(files, name, texts) <==> key in files
    ensures key in files ==> WriteParts(files, name, texts)[key] == files[key]
    decreases |texts|
  {
    if texts != [] {
      WritePartsOthers(files, name, texts[..|texts| - 1], key);
    }
  }

  // ---------------------------------------------------------------- folders

  /** The texts of a part's items, one after the other. */
  function Joined(part: seq<(string, nat)>): string
    decreases |part|
  {
    if part == [] then "" else Joined(part[..|part| - 1]) + part[|part| - 1].0
  }

  lemma JoinedSnoc(part: seq<(string, nat)>, x: (string, nat))
    ensures Joined(part + [x]) == Joined(part) + x.0
  {
    assert (part + [x])[..|part|] == part;
  }

  /** The contents of the part files when `Chunk` splits `items`: each part's texts joined. */
  function PartTexts(items: seq<(string, nat)>, limit: nat): (texts: seq<string>)
    ensures |texts| == |Chunk(items, limit).parts| >= 1
  {
    var parts := Chunk(items, limit).parts;
    seq(|parts|, j requires 0 <= j < |parts| => Joined(parts[j]))
  }

  lemma PartTextsStart(limit: nat)
    ensures PartTexts([], limit) == [""]
  {
    var none: seq<(string, nat)> := [];
    assert Joined(none) == "";
  }

  /** An item that does not fit starts a new part file holding just its text. */
  lemma PartTextsOpen(items: seq<(string, nat)>, x: (string, nat), limit: nat)
    requires x.1 + Chunk(items, limit).n > limit
    ensures PartTexts(items + [x], limit) == PartTexts(items, limit) + [x.0]
    ensures Chunk(items + [x], limit).n == x.1
  {
    ChunkSnoc(items, x, limit);
    var none: seq<(string, nat)> := [];
    JoinedSnoc(none, x);
    assert none + [x] == [x];
    var texts, texts' := PartTexts(items, limit), PartTexts(items + [x], limit);
    assert forall j :: 0 <= j < |texts| ==> texts'[j] == texts[j];
    assert texts'[|texts|] == x.0;
  }

  /** An item that fits is added to the current part file. */
  lemma PartTextsExtend(items: seq<(string, nat)>, x: (string, nat), limit: nat)
    requires x.1 + Chunk(items, limit).n <= limit
    ensures var texts := PartTexts(items, limit);
      var last := |texts| - 1;
      PartTexts(items + [x], limit) == texts[..last] + [texts[last] + x.0]
    ensures Chunk(items + [x], limit).n == Chunk(items, limit).n + x.1
  {
    ChunkSnoc(items, x, limit);
    var parts, parts' := Chunk(items, limit).parts, Chunk(items + [x], limit).parts;
    var last := |parts| - 1;
    assert parts' == parts[..last] + [parts[last] + [x]];
    JoinedSnoc(parts[last], x);
    var texts, texts' := PartTexts(items, limit), PartTexts(items + [x], limit);
    var want := texts[..last] + [texts[last] + x.0];
    assert |texts'| == |want|;
    forall j | 0 <= j < |want|
      ensures texts'[j] == want[j]
    {
      if j < last {
        assert parts'[j] == parts[j];
      }
    }
  }

  /** All part texts one after the other. */
  function Concat(texts: seq<string>): string
    decreases |texts|
  {
    if texts == [] then "" else Concat(texts[..|texts| - 1]) + texts[|texts| - 1]
  }

  lemma ConcatSnoc(texts: seq<string>, s: string)
    ensures Concat(texts + [s]) == Concat(texts) + s
  {
    assert (texts + [s])[..|texts|] == texts;
  }

  /** Extending the last text extends the concatenation. */
  lemma ConcatExtendLast(texts: seq<string>, s: string)
    requires texts != []
    ensures Concat(texts[..|texts| - 1] + [texts[|texts| - 1] + s]) == Concat(texts) + s
  {
    var last := |texts| - 1;
    ConcatSnoc(texts[..last], texts[last] + s);
    Associate(Concat(texts[..last]), texts[last], s);
  }

  /**
   * Splitting into part files loses, adds and reorders no text: the part
   * files one after the other hold exactly the items' texts in order.
   */
  lemma {:induction false} PartTextsKeepText(items: seq<(string, nat)>, limit: nat)
    ensures Concat(PartTexts(items, limit)) == Joined(items)
    decreases |items|
  {
    if items == [] {
      PartTextsStart(limit);
      assert Concat([""]) == Concat([]) + "";
    } else {
      var init, x := items[..|items| - 1], items[|items| - 1];
      assert items == init + [x];
      PartTextsKeepText(init, limit);
      var texts := PartTexts(init, limit);
      JoinedSnoc(init, x);
      if x.1 + Chunk(init, limit).n > limit {
        PartTextsOpen(init, x, limit);
        ConcatSnoc(texts, x.0);
      } else {
        PartTextsExtend(init, x, limit);
        ConcatExtendLast(texts, x.0);
      }
    }
  }

  /** The top-level tasks of a folder in writing order: each one's text and its size (`task.count()`). */
  function Subtrees(a: seq<Task>, fa: seq<Folder>, order: seq<nat>): (items: seq<(string, nat)>)
    requires Exportable(a, fa) && forall i :: 0 <= i < |order| ==> order[i] < |a|
    ensures |items| == |order|
  {
    seq(|order|, i requires 0 <= i < |order| => (SubtreeText(a, fa, order[i], ""), Count(a, order[i])))
  }

  lemma SubtreesSnoc(a: seq<Task>, fa: seq<Folder>, order: seq<nat>, t: nat)
    requires Exportable(a, fa) && t < |a| && forall i :: 0 <= i < |order| ==> order[i] < |a|
    ensures Subtrees(a, fa, order + [t]) == Subtrees(a, fa, order) + [(SubtreeText(a, fa, t, ""), Count(a, t))]
  {
  }

  /** What `export` writes for one folder whose top-level tasks come in `order`. */
  function FolderFiles(files: map<string, string>, a: seq<Task>, fa: seq<Folder>, name: string,
                       order: seq<nat>, limit: nat): map<string, string>
    requires Exportable(a, fa) && forall i :: 0 <= i < |order| ==> order[i] < |a|
  {
    WriteParts(files, name, PartTexts(Subtrees(a, fa, order), limit))
  }

  /**
   * The files of a folder being exported, as the loop of `export` keeps
   * them: the parts before the last are in their files, the last part file
   * has been opened (truncated) and `out` is what has been written to it.
   */
  ghost predicate Written(files0: map<string, string>, name: string, texts: seq<string>,
                          fileCount: nat, filename: string, files: map<string, string>, out: string) {
    && fileCount == |texts| >= 1
    && filename == PartFileName(name, fileCount)
    && files == WriteParts(files0, name, texts[..fileCount - 1])[filename := ""]
    && out == texts[fileCount - 1]
  }

  lemma WrittenStart(files0: map<string, string>, name: string)
    ensures Written(files0, name, [""], 1, PartFileName(name, 1), files0[PartFileName(name, 1) := ""], "")
  {
    assert [""][..0] == [];
  }

  /** Closing the current part file stores everything written to it: every part is in its file. */
  lemma WrittenClose(files0: map<string, string>, name: string, texts: seq<string>,
                     fileCount: nat, filename: string, files: map<string, string>, out: string)
    requires Written(files0, name, texts, fileCount, filename, files, out)
    ensures files[filename := out] == WriteParts(files0, name, texts)
  {
    var before := WriteParts(files0, name, texts[..fileCount - 1]);
    assert before[filename := ""][filename := out] == before[filename := out];
  }

  /** Closing the current file and opening the next one, truncated, for a new part. */
  lemma WrittenOpen(files0: map<string, string>, name: string, texts: seq<string>,
                    fileCount: nat, filename: string, files: map<string, string>, out: string, text: string)
    requires Written(files0, name, texts, fileCount, filename, files, out)
    ensures var next := PartFileName(name, fileCount + 1);
      Written(files0, name, texts + [text], fileCount + 1, next, files[filename := out][next := ""], "" + text)
  {
    WrittenClose(files0, name, texts, fileCount, filename, files, out);
    assert (texts + [text])[..fileCount] == texts;
    assert "" + text == text;
  }

  /** Writing more to the open file extends the last part. */
  lemma WrittenExtend(files0: map<string, string>, name: string, texts: seq<string>,
                      fileCount: nat, filename: string, files: map<string, string>, out: string, text: string)
    requires Written(files0, name, texts, fileCount, filename, files, out)
    ensures var last := |texts| - 1;
      Written(files0, name, texts[..last] + [texts[last] + text], fileCount, filename, files, out + text)
  {
    var last := |texts| - 1;
    assert (texts[..last] + [texts[last] + text])[..last] == texts[..last];
  }

  // ---------------------------------------------------------------- the exporter

  /**
   * The exporter object: the folders it was given (`toodledo.folders.values()`)
   * and the task counter, over the parser's arenas. `files` are the files of
   * the working directory by name; `out` is what has been written to the
   * file currently open for writing and not yet closed.
   */
  class TodoistExport {
    var files: map<string, string>
    var out: string
    var count: nat
    const arena: seq<Task>
    const folderArena: seq<Folder>
    const folders: set<nat>
    const taskLimit: nat

    ghost predicate Valid() {
      Exportable(arena, folderArena) && forall g :: g in folders ==> g < |folderArena|
    }

    /** The top-level tasks filed in folder `g`. */
    ghost function Roots(g: nat): set<nat>
      requires Valid() && g < |folderArena|
    {
      set t | t in folderArena[g].tasks.Values && t < |arena| && arena[t].parent.None?
    }

    /** `order` lists the top-level tasks of folder `g`, each once. */
    ghost predicate Lists(order: seq<nat>, g: nat)
      requires Valid() && g < |folderArena|
    {
      && (forall i :: 0 <= i < |order| ==> order[i] < |arena|)
      && (forall t :: t in order <==> t in Roots(g))
      && Distinct(order)
    }

    /** The files once the folders `gs` are exported in turn. */
    ghost function Exported(files0: map<string, string>, gs: seq<nat>, visits: seq<seq<nat>>): map<string, string>
      requires Valid() && Visits(arena, folderArena, gs, visits)
      decreases |gs|
    {
      if gs == [] then files0
      else
        var last := |gs| - 1;
        VisitsInit(arena, folderArena, gs, visits);
        FolderFiles(Exported(files0, gs[..last], visits[..last]), arena, folderArena, folderArena[gs[last]].name,
                    TopLevel(arena, visits[last]), taskLimit)
    }

    lemma ExportedSnoc(files0: map<string, string>, gs: seq<nat>, visits: seq<seq<nat>>, g: nat, values: seq<nat>)
      requires Valid() && Visits(arena, folderArena, gs, visits) && Visits(arena, folderArena, gs + [g], visits + [values])
      requires g < |folderArena| && forall j :: 0 <= j < |values| ==> values[j] < |arena|
      ensures Exported(files0, gs + [g], visits + [values])
           == FolderFiles(Exported(files0, gs, visits), arena, folderArena, folderArena[g].name, TopLevel(arena, values), taskLimit)
    {
      assert (gs + [g])[..|gs|] == gs;
      assert (visits + [values])[..|gs|] == visits;
    }

    /**
     * The folder exported last keeps each of its parts in its own file,
     * whatever the folders before it wrote.
     */
    lemma LastFolderKept(files0: map<string, string>, gs: seq<nat>, visits: seq<seq<nat>>, texts: seq<string>, j: nat)
      requires Valid() && Visits(arena, folderArena, gs, visits) && gs != []
      requires texts == PartTexts(Subtrees(arena, folderArena, TopLevel(arena, visits[|gs| - 1])), taskLimit)
      requires 1 <= j <= |texts|
      ensures var key := PartFileName(folderArena[gs[|gs| - 1]].name, j);
        key in Exported(files0, gs, visits) && Exported(files0, gs, visits)[key] == texts[j - 1]
    {
      var last := |gs| - 1;
      VisitsInit(arena, folderArena, gs, visits);
      WritePartsHolds(Exported(files0, gs[..last], visits[..last]), folderArena[gs[last]].name, texts, j);
    }

    /** A file that is a part of none of the exported folders is left as it was. */
    lemma {:induction false} OthersKept(files0: map<string, string>, gs: seq<nat>, visits: seq<seq<nat>>, key: string)
      requires Valid() && Visits(arena, folderArena, gs, visits) && key in files0
      requires forall i, j :: 0 <= i < |gs| && j >= 1 ==> key != PartFileName(folderArena[gs[i]].name, j)
      ensures key in Exported(files0, gs, visits) && Exported(files0, gs, visits)[key] == files0[key]
      decreases |gs|
    {
      if gs != [] {
        var last := |gs| - 1;
        VisitsInit(arena, folderArena, gs, visits);
        OthersKept(files0, gs[..last], visits[..last], key);
        WritePartsOthers(Exported(files0, gs[..last], visits[..last]), folderArena[gs[last]].name,
                         PartTexts(Subtrees(arena, folderArena, TopLevel(arena, visits[last])), taskLimit), key);
      }
    }

    /** The top-level tasks written for a folder are exactly its top-level tasks, each once. */
    lemma VisitsLists(gs: seq<nat>, visits: seq<seq<nat>>, i: nat)
      requires Valid() && Visits(arena, folderArena, gs, visits) && i < |gs|
      ensures Lists(TopLevel(arena, visits[i]), gs[i])
    {
      TopLevelLists(arena, visits[i]);
    }

    /**
     * `TodoistExport(toodledo)`: the parser's folders, a zero count and the
     * limit setting, writing into the directory `files`.
     */
    constructor (toodledo: Parsing.Toodledo, files: map<string, string>)
      requires toodledo.Built()
      ensures Valid()
      ensures arena == toodledo.arena && folderArena == toodledo.folderArena
      ensures folders == toodledo.folders.Values && taskLimit == toodledo.config.taskLimit
      ensures this.files == files && out == "" && count == 0
    {
      ConsistentExportable(toodledo.config, toodledo.State());
      arena, folderArena := toodledo.arena, toodledo.folderArena;
      folders := toodledo.folders.Values;
      taskLimit := toodledo.config.taskLimit;
      this.files, out, count := files, "", 0;
    }

    /**
     * `exportTask(f, indent, task)`: writes the subtree of `t` to the open
     * file and counts each of its tasks once.
     */
    method ExportTask(indent: string, t: nat)
      requires Valid() && t < |arena|
      modifies this`out, this`count
      ensures out == old(out) + SubtreeText(arena, folderArena, t, indent)
      ensures count == old(count) + Count(arena, t)
      decreases |arena| - t, 2
    {
      WriteEntry(indent, t);
      ExportChildren(indent + "...", t);
    }

    /** The loop of `exportTask` over the children of `t`, each written at `indent`. */
    method ExportChildren(indent: string, t: nat)
      requires Valid() && t < |arena|
      modifies this`out, this`count
      ensures out == old(out) + ChildrenText(arena, folderArena, t, 0, indent)
      ensures count == old(count) + ChildrenCount(arena, t, 0)
      decreases |arena| - t, 1
    {
      for k := 0 to |arena[t].children|
        invariant out + ChildrenText(arena, folderArena, t, k, indent) == old(out) + ChildrenText(arena, folderArena, t, 0, indent)
        invariant count + ChildrenCount(arena, t, k) == old(count) + ChildrenCount(arena, t, 0)
      {
        ExportChild(indent, t, k);
      }
    }

    /** One pass of that loop: the `k`-th child's subtree is written and counted. */
    method ExportChild(indent: string, t: nat, k: nat)
      requires Valid() && t < |arena| && k < |arena[t].children|
      modifies this`out, this`count
      ensures out + ChildrenText(arena, folderArena, t, k + 1, indent) == old(out) + ChildrenText(arena, folderArena, t, k, indent)
      ensures count + ChildrenCount(arena, t, k + 1) == old(count) + ChildrenCount(arena, t, k)
      decreases |arena| - t, 0
    {
      ChildrenTextStep(arena, folderArena, t, k, indent, out);
      ExportTask(indent, arena[t].children[k]);
    }

    /** The first line of `exportTask`: the task's entry is written and counted. */
    method WriteEntry(indent: string, t: nat)
      requires Valid() && t < |arena|
      modifies this`out, this`count
      ensures out + ChildrenText(arena, folderArena, t, 0, indent + "...") == old(out) + SubtreeText(arena, folderArena, t, indent)
      ensures count + ChildrenCount(arena, t, 0) == old(count) + Count(arena, t)
    {
      var entry := Entry(arena[t], FolderNameOf(arena, folderArena, t), indent);
      Associate(out, entry, ChildrenText(arena, folderArena, t, 0, indent + "..."));
      out := out + entry;
      count := count + 1;
    }

    /**
     * The body of `export`'s task loop for a top-level task (lines 139-150):
     * when its subtree would take the current part file over the limit, the
     * next part file is opened; then the subtree is written and its size
     * added to `n`. The files evolve as `Chunk` places one more item.
     */
    method WriteRoot(ghost files0: map<string, string>, ghost items: seq<(string, nat)>, name: string, t: nat, n: nat, fileCount: nat, filename: string)
      returns (n': nat, fileCount': nat, filename': string)
      requires Valid() && t < |arena|
      requires n == Chunk(items, taskLimit).n
      requires Written(files0, name, PartTexts(items, taskLimit), fileCount, filename, files, out)
      modifies this`files, this`out, this`count
      ensures n' == Chunk(items + [(SubtreeText(arena, folderArena, t, ""), Count(arena, t))], taskLimit).n
      ensures Written(files0, name, PartTexts(items + [(SubtreeText(arena, folderArena, t, ""), Count(arena, t))], taskLimit),
                      fileCount', filename', files, out)
      ensures count == old(count) + Count(arena, t)
    {
      var nextCount := Count(arena, t);
      n', fileCount', filename' := MakeRoom(files0, items, name, SubtreeText(arena, folderArena, t, ""), nextCount, n, fileCount, filename);
      ExportTask("", t);
      n' := n' + nextCount;
    }

    /**
     * The test of `export`'s task loop (lines 141-148): a part file is
     * split off when an item of `nextCount` tasks would take it over the
     * limit. Writing `text` to `out` afterwards brings the files to where
     * `Chunk` places the item.
     */
    method MakeRoom(ghost files0: map<string, string>, ghost items: seq<(string, nat)>, name: string,
                    ghost text: string, nextCount: nat, n: nat, fileCount: nat, filename: string)
      returns (n': nat, fileCount': nat, filename': string)
      requires n == Chunk(items, taskLimit).n
      requires Written(files0, name, PartTexts(items, taskLimit), fileCount, filename, files, out)
      modifies this`files, this`out
      ensures n' + nextCount == Chunk(items + [(text, nextCount)], taskLimit).n
      ensures Written(files0, name, PartTexts(items + [(text, nextCount)], taskLimit), fileCount', filename', files, out + text)
    {
      ghost var texts := PartTexts(items, taskLimit);
      n', fileCount', filename' := n, fileCount, filename;
      if nextCount + n > taskLimit {
        PartTextsOpen(items, (text, nextCount), taskLimit);
        n' := 0;
        fileCount', filename' := OpenPart(files0, texts, name, fileCount, filename, text);
      } else {
        PartTextsExtend(items, (text, nextCount), taskLimit);
        WrittenExtend(files0, name, texts, fileCount, filename, files, out, text);
      }
    }

    /**
     * Splitting the file (lines 142-148): the part file being written is
     * closed and the next one opened, truncated; `text` is what will be
     * written to it.
     */
    method OpenPart(ghost files0: map<string, string>, ghost texts: seq<string>, name: string,
                    fileCount: nat, filename: string, ghost text: string)
      returns (fileCount': nat, filename': string)
      requires Written(files0, name, texts, fileCount, filename, files, out)
      modifies this`files, this`out
      ensures Written(files0, name, texts + [text], fileCount', filename', files, out + text)
    {
      WrittenOpen(files0, name, texts, fileCount, filename, files, out, text);
      files := files[filename := out];
      fileCount' := fileCount + 1;
      filename' := PartFileName(name, fileCount');
      files, out := files[filename' := ""], "";
    }

    /**
     * One turn of `export`'s folder loop (lines 128-158): the counter is
     * reset, the first part file opened, and the folder's tasks visited in
     * dictionary order (`values`); the top-level ones (`order`) are written,
     * a new part file opened whenever the next subtree would take the
     * current one over the limit, and the last file is closed at the end.
     * The files are then `Chunk`'s parts, each in its own file.
     */
    method ExportFolder(g: nat) returns (values: seq<nat>, order: seq<nat>)
      requires Valid() && g < |folderArena|
      modifies this`files, this`out, this`count
      ensures Enumerates(values, folderArena[g].tasks.Values)
      ensures (forall i :: 0 <= i < |values| ==> values[i] < |arena|) && order == TopLevel(arena, values)
      ensures files == FolderFiles(old(files), arena, folderArena, folderArena[g].name, order, taskLimit)
      ensures out == ""
      ensures count == Size(Subtrees(arena, folderArena, order))
    {
      count := 0;
      var name := folderArena[g].name;
      var filename := PartFileName(name, 1);
      files, out := files[filename := ""], "";
      var n: nat, fileCount: nat := 0, 1;
      values := Enumerate(folderArena[g].tasks.Values);
      ValuesStored(arena, folderArena, g, values);
      order := [];
      ghost var items: seq<(string, nat)> := [];
      PartTextsStart(taskLimit);
      WrittenStart(old(files), name);
      for i := 0 to |values|
        invariant order == TopLevel(arena, values[..i])
        invariant items == Subtrees(arena, folderArena, order)
        invariant n == Chunk(items, taskLimit).n
        invariant Written(old(files), name, PartTexts(items, taskLimit), fileCount, filename, files, out)
        invariant count == Size(items)
      {
        var t := values[i];
        TakeSnoc(values, i);
        if arena[t].parent.None? {
          SubtreesSnoc(arena, folderArena, order, t);
          SizeSnoc(items, (SubtreeText(arena, folderArena, t, ""), Count(arena, t)));
          n, fileCount, filename := WriteRoot(old(files), items, name, t, n, fileCount, filename);
          items := items + [(SubtreeText(arena, folderArena, t, ""), Count(arena, t))];
          order := order + [t];
        }
      }
      TakeAll(values);
      WrittenClose(old(files), name, PartTexts(items, taskLimit), fileCount, filename, files, out);
      files, out := files[filename := out], "";
    }

    /**
     * `export()`: each folder in turn, in dictionary order (`gs`), each
     * with the order its tasks were visited in (`visits`). The files are the
     * folders' part files, a later folder's file replacing an earlier one of
     * the same name; the counter is the size of the last folder.
     */
    method Export() returns (gs: seq<nat>, visits: seq<seq<nat>>)
      requires Valid()
      modifies this`files, this`out, this`count
      ensures Enumerates(gs, folders) && Visits(arena, folderArena, gs, visits)
      ensures files == Exported(old(files), gs, visits)
      ensures gs == [] ==> out == old(out) && count == old(count)
      ensures gs != [] ==> out == "" && count == Size(Subtrees(arena, folderArena, TopLevel(arena, visits[|gs| - 1])))
    {
      gs := Enumerate(folders);
      assert forall k :: 0 <= k < |gs| ==> gs[k] in folders;
      visits := [];
      for i := 0 to |gs|
        invariant forall k :: 0 <= k < |gs| ==> gs[k] < |folderArena|
        invariant Visits(arena, folderArena, gs[..i], visits)
        invariant files == Exported(old(files), gs[..i], visits)
        invariant i == 0 ==> out == old(out) && count == old(count)
        invariant i > 0 ==> out == "" && count == Size(Subtrees(arena, folderArena, TopLevel(arena, visits[i - 1])))
      {
        var values, order := ExportFolder(gs[i]);
        TakeSnoc(gs, i);
        VisitsSnoc(arena, folderArena, gs[..i], visits, gs[i], values);
        ExportedSnoc(old(files), gs[..i], visits, gs[i], values);
        visits := visits + [values];
      }
      TakeAll(gs);
    }
  }
}
