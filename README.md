# toodledo_to_todoist, modelled in Dafny

`toodledo_to_todoist.py` reads a Toodledo XML backup and builds folders and a
task forest from its `<item>` records. It then writes the forest twice:

- as a plain-text dump, `__text_tasks.txt`, by `TextExport`;
- as one or more import files per folder for Todoist, by `TodoistExport`.
  A folder's top-level tasks are split into part files of at most 120
  tasks each. A file goes over that limit only when it holds a single
  top-level task whose subtree alone is larger.

This project models that core and proves properties of it.

| file | module | what it models |
|---|---|---|
| `options.dfy` | `Options` | Python's `None` as `Option` |
| `strings.dfy` | `Strings` | the string operations:<br>`unicode.strip()` with Python 2.7's whitespace set<br>`str.split(',')` and `','.join`<br>both `re.sub` calls: `/` to `_` in folder names, and line-break runs to a tab in notes<br>indentation by repetition<br>`'%d'` |
| `forest.dfy` | `Forest` | `Task` and `Folder` as records in an arena<br>`count()` and `isComplete()`<br>the folder-mismatch test<br>the depth-first order in which both exporters write a subtree |
| `parsing.dfy` | `Parsing` | `get`<br>the per-record loop of `Toodledo.parseXML` (with the folder pre-filter)<br>`setFolder`, `setParent` and `checkFolderMismatch`, as methods of the `Toodledo` class, which owns the arenas and the two dictionaries |
| `chunks.dfy` | `Chunks` | the rule by which `TodoistExport.export` splits a folder's top-level tasks into part files |
| `todoist.dfy` | `Todoist` | `TodoistExport`: the text `exportTask` writes for one task, the part-file names, and the `export` loops as methods of a class whose fields are the files of the working directory, the open file's contents and the counter |
| `traversal.dfy` | `Traversal` | what both exporters share: the parser's result as they read it, iteration over a dictionary's values, and a folder's top-level tasks (`task.parent == None`) |
| `textdump.dfy` | `TextDump` | `TextExport`: `printTask` and `export` as methods of a class, including the `TypeError` raised for a task without an id or a title |

## How the model is built

**Objects in arenas.** Objects become records in two arenas: tasks in a
`seq<Task>`, folders in a `seq<Folder>`. A link (parent, child, folder) is an
index into an arena. Every task is stored after its parent. This fact
(`Forest.WellFormed`) is why `count()` terminates, and the parser is proved to
keep it.

**Mutation in place.** Code that mutates objects becomes a class method that
reassigns its fields. Each method is proved against a function of the old
state:

- `ProcessRecord` against `Step`;
- `ProcessRecords` against `Run`;
- `ExportFolder` against `FolderFiles`;
- `PrintTask` against `SubtreeDump`.

The properties are then proved about those functions.

**Dictionary order.** Iteration over a Python 2 dictionary has an order the
program does not choose. `Traversal.Enumerate` picks an arbitrary order. Each
exporter method returns the order it used (`gs`, `visits`), and its contract
is stated for that order.

**Files.** The working directory is a `map` from file name to contents. The
file open for writing is the `out` buffer, which is stored under its name when
the file is closed.

`export` "closes" the previous part file with `f.close`, which does not call
the method. Under CPython the file is closed anyway, because `f` is rebound
and the old file object loses its last reference. The model treats this as a
close.

**Code over description where they differ.**

- Tags keep empty pieces. `a,,b` gives three tags, one of them empty
  (`Parsing.SplitTagsKeepsEmpty`). The code strips each piece and drops none.
- When a folder filter is set, items without a folder are removed before the
  loop (`Parsing.AdmissiblePasses`). This happens even though the loop's own
  test would keep them under `NOFOLDER` when that name matches the prefix.

## Model

| member | source | states |
|---|---|---|
| Strings.Strip | toodledo_to_todoist.py:203-205 | `strip()` removes only whitespace, from both ends. The rest neither starts nor ends with whitespace, and it is empty exactly when the text is all whitespace. |
| Strings.StripIdempotent | toodledo_to_todoist.py:205 | Stripping twice gives what stripping once gives. |
| Strings.Split | toodledo_to_todoist.py:295 | `split(',')` gives one piece more than there are separators, and no piece holds the separator. |
| Strings.JoinSplit | toodledo_to_todoist.py:295 | Joining the pieces with the separator gives back the split string. |
| Strings.SplitJoin | toodledo_to_todoist.py:295 | Splitting a join of separator-free pieces gives back the pieces. |
| Strings.SplitNoSep | toodledo_to_todoist.py:295 | A string without the separator splits into itself alone. |
| Strings.SplitAfterSep | toodledo_to_todoist.py:295 | A separator-free prefix followed by the separator becomes the first piece. |
| Strings.SplitThree | toodledo_to_todoist.py:295 | Three separator-free pieces joined by the separator split back into the three. |
| Strings.Sanitize | toodledo_to_todoist.py:17 | `re.sub('[/]', '_', name)` keeps the length, replaces each `/` by `_`, changes nothing else and leaves no `/`. |
| Strings.SanitizeIdempotent | toodledo_to_todoist.py:17 | Sanitising twice gives what sanitising once gives. |
| Strings.SanitizeCollides | toodledo_to_todoist.py:17 | Two different raw folder names (`a/b`, `a_b`) get the same sanitised name. |
| Strings.CollapseBreaks | toodledo_to_todoist.py:184 | `re.sub('[\r\n]+', '\t', note)` leaves no line break and never makes the text longer. |
| Strings.CollapseNoBreaks | toodledo_to_todoist.py:184 | A note without line breaks is left as it is. |
| Strings.CollapseKeepsText | toodledo_to_todoist.py:184 | Every character that is neither a line break nor a tab survives, in order. |
| Strings.CollapseIdempotent | toodledo_to_todoist.py:184 | Collapsing twice gives what collapsing once gives. |
| Strings.CollapseRun | toodledo_to_todoist.py:184 | A maximal run of `\r`/`\n` becomes exactly one tab. |
| Strings.SkipRun | toodledo_to_todoist.py:184 | The match `[\r\n]+` consumes a whole run of line breaks and stops at the first other character. |
| Strings.CollapsePrefix | toodledo_to_todoist.py:184 | Text without line breaks in front of a note is copied unchanged. |
| Strings.CollapseJoin | toodledo_to_todoist.py:184 | Text, then a run of line breaks, then text: the run becomes one tab between the two. |
| Strings.CollapseLines | toodledo_to_todoist.py:184 | Three lines separated by `\n` and by `\r\n` come out separated by one tab each. |
| Strings.CollapseExample | toodledo_to_todoist.py:184 | `line1\nline2\r\nline3` becomes `line1\tline2\tline3`. |
| Strings.Decimal | toodledo_to_todoist.py:147 | `'%d'` gives a non-empty string of digits without a leading zero. |
| Strings.DecimalRoundTrip | toodledo_to_todoist.py:147 | Reading the digits back gives the number, so different part numbers print differently. |
| Forest.NewFolder | toodledo_to_todoist.py:12-19 | `Folder(name)` holds the sanitised name: no `/`, same length, the other characters kept. It starts with no tasks. |
| Forest.Task.IsComplete | toodledo_to_todoist.py:41-42 | `isComplete()`: a task is complete exactly when it carries a completion date. |
| Forest.Count | toodledo_to_todoist.py:35-39 | `count()` counts the task and, recursively, its children: at least one more than the number of children, and 1 for a leaf. |
| Forest.Mismatched | toodledo_to_todoist.py:44-46 | The test of `checkFolderMismatch`: the task has a parent, and the parent's folder is not the task's folder (compared by identity, here by arena index). |
| Forest.Preorder | toodledo_to_todoist.py:35-39 | A subtree listed depth first has `count()` entries. It starts with its root, and every later entry is a task stored after the root, at a greater depth. |
| Parsing.Get | toodledo_to_todoist.py:200-205 | `get` gives None exactly when the element is missing or blank. Otherwise it gives the element's text stripped of surrounding whitespace (`Strip`), a slice of that text that neither starts nor ends with whitespace. |
| Parsing.GetIdempotent | toodledo_to_todoist.py:200-205 | Applying `get` to its own result changes nothing. |
| Parsing.FolderName | toodledo_to_todoist.py:240-242 | The folder name is the record's folder, or `NOFOLDER` when it has none. It is never empty. |
| Parsing.CompletedDate | toodledo_to_todoist.py:254-256 | A task gets a completion date exactly when the record's date is present and is not `0000-00-00`, and then it gets that date. |
| Parsing.RepeatText | toodledo_to_todoist.py:288-290 | The repeat text is set only when present and not the literal `None`, and then it is the record's text. |
| Parsing.SplitTags | toodledo_to_todoist.py:293-295 | There is one tag per comma-separated piece, each the stripped piece. No tag holds a comma or surrounding whitespace. |
| Parsing.StripKeepsOut | toodledo_to_todoist.py:295 | Stripping a comma-free piece gives a comma-free tag. |
| Parsing.SplitTagsThree | toodledo_to_todoist.py:295 | Three comma-free pieces joined by commas give their three stripped forms. |
| Parsing.SplitTagsExample | toodledo_to_todoist.py:295 | `a, b ,c` gives the tags `a`, `b`, `c`. |
| Parsing.SplitTagsKeepsEmpty | toodledo_to_todoist.py:295 | `a,,b` gives the tags `a`, an empty tag, and `b`. |
| Parsing.PreFilterKeeps | toodledo_to_todoist.py:224-229 | A record survives the pre-filter exactly when its folder is present and starts with the prefix. |
| Parsing.PreFilter | toodledo_to_todoist.py:224-229 | The pre-filter drops the items whose folder is missing or does not start with the filter, keeping the rest in order. It never adds a record, and `PreFilterKeeps` states which survive. |
| Parsing.Admissible | toodledo_to_todoist.py:224-236 | Without a folder filter the loop sees every record, and with one it sees no more than were given. |
| Parsing.AdmissiblePasses | toodledo_to_todoist.py:224-247 | With a filter set, every record reaching the loop has a folder that passes the filter. The loop's own filter test therefore never fires. |
| Parsing.KeptSkips | toodledo_to_todoist.py:244-260 | A record becomes a task exactly when it is outside neither the folder filter nor, while completed tasks are excluded, the completed records. |
| Parsing.ResolveParentAsWritten | toodledo_to_todoist.py:273-276 | As written, a parent is found exactly when the parent id, None included, is a key of `self.tasks`. |
| Parsing.AbsentParentAsWritten | toodledo_to_todoist.py:273-279 | A record without a parent id is linked below an earlier record that had no id. |
| Parsing.ResolveParent | toodledo_to_todoist.py:273-279 | A parent is found exactly when a present parent id names an earlier stored task. For a present id, this agrees with the lookup as written. |
| Parsing.StoredTask | toodledo_to_todoist.py:250-295 | The task built from a record has no links yet. Its id, title, note and due date are the record's `get`-normalised fields. Its tags are the split tag field, and `[]` when that field is absent. Its repeat text and completion date are kept only when real, and it is complete exactly when the record is completed. |
| Parsing.Attach | toodledo_to_todoist.py:270-279 | Storing a task changes only the new task and its parent's child list, which gets the task appended. The flag is up exactly when the parent's folder is another one. |
| Parsing.File | toodledo_to_todoist.py:58 | `folder.tasks[self.id] = self`: only that folder's dictionary changes, gaining or replacing the entry for the id. Every other folder is unchanged. |
| Parsing.AttachSteps | toodledo_to_todoist.py:270-279 | `Attach` is what `setFolder` and then `setParent` do to a task stored last. |
| Parsing.AttachWellFormed | toodledo_to_todoist.py:49-53 | Linking a new task below an earlier one keeps the forest well formed, so `count()` still terminates. |
| Parsing.AttachChildrenPoint | toodledo_to_todoist.py:49-53 | After linking, every child's parent link points back to the task that lists it. |
| Parsing.AttachParentListed | toodledo_to_todoist.py:49-53 | After linking, every task with a parent is in that parent's child list. |
| Parsing.AttachChildrenSorted | toodledo_to_todoist.py:49-53 | Child lists stay in storing order. |
| Parsing.AttachLinksAgree | toodledo_to_todoist.py:49-53 | Parent and child links keep agreeing. |
| Parsing.AttachFlagsAgree | toodledo_to_todoist.py:44-60 | Storing a task keeps every task's flag equal to the folder-mismatch test on its parent and folder. The new task's flag is that test, and earlier tasks keep their links and flags. |
| Parsing.AttachIndexed | toodledo_to_todoist.py:270-300 | Each of the three dictionaries keeps mapping every key to an object that carries that key. |
| Parsing.AttachFiled | toodledo_to_todoist.py:56-60 | Every task in a folder's dictionary names that folder. |
| Parsing.AttachAdmitted | toodledo_to_todoist.py:252-260 | No completed task is stored while completed tasks are excluded. |
| Parsing.WithFolder | toodledo_to_todoist.py:263-268 | A folder is created on first use of its name, appended to the arena, and reused afterwards. Nothing else changes. |
| Parsing.WithFolderConsistent | toodledo_to_todoist.py:263-268 | Creating a folder keeps the parser's state consistent. |
| Parsing.Inserted | toodledo_to_todoist.py:263-300 | The new task is stored last, carrying what it was built with, and is linked below the parent its id resolves to (the intended lookup). Its flag is up exactly when it has a parent whose folder is not its own. The folder map is the one `WithFolder` gives (the named folder created on first use, no other added or dropped). The task is filed under its id in that folder's dictionary, every other folder's dictionary is unchanged, and `self.tasks` maps its id to it, replacing an earlier task with that id. Earlier tasks keep everything but their child lists. |
| Parsing.Step | toodledo_to_todoist.py:236-300 | A skipped record changes nothing. Any other record adds exactly one task carrying what the record says, linked below the parent the intended lookup resolves, with its flag up exactly when that parent's folder is not its own, and earlier tasks keep everything but their child lists (parent, folder and flag included). The folders are those `WithFolder` gives for the record's folder name, the task is filed under its id in that folder's dictionary alone, and `self.tasks` maps its id to it. |
| Parsing.StepConsistent | toodledo_to_todoist.py:236-300 | One pass keeps the invariant: links in range and agreeing, every flag equal to the folder-mismatch test, dictionaries indexed, filters respected. |
| Parsing.StepInRange | toodledo_to_todoist.py:236-300 | One pass keeps every index in range. |
| Parsing.RunSnoc | toodledo_to_todoist.py:236 | One more record is one more pass. |
| Parsing.Run | toodledo_to_todoist.py:236-300 | The loop over the records, one `Step` per record in order, keeping every index in range. |
| Parsing.RunConsistent | toodledo_to_todoist.py:236-300 | The whole loop keeps the invariant, so after parsing every task's flag is exactly the folder-mismatch test on its parent. |
| Parsing.ExtendsTrans | toodledo_to_todoist.py:236-300 | Tasks stored in two runs of the loop are the tasks of both runs, in order. |
| Parsing.StepExtends | toodledo_to_todoist.py:236-300 | A pass that does not skip its record stores exactly that record's task after the others. |
| Parsing.RunStores | toodledo_to_todoist.py:236-300 | The loop stores one task per kept record, in order, after the tasks already there. Earlier tasks keep everything but their child lists. |
| Parsing.Toodledo.constructor | toodledo_to_todoist.py:210-212 | `Toodledo()` starts with no folders and no tasks, in a consistent state. |
| Parsing.Toodledo.CheckFolderMismatch | toodledo_to_todoist.py:44-46 | The flag is raised when the parent's folder differs and is never lowered. Nothing else changes. |
| Parsing.Toodledo.SetParent | toodledo_to_todoist.py:49-53 | The parent link is set and the task appended to the parent's children. The flag is then up when the folders differ. |
| Parsing.Toodledo.SetFolder | toodledo_to_todoist.py:56-60 | The folder link is set and the task stored in the folder's dictionary under its id, replacing an earlier one. The flag is then up when the parent's folder differs. |
| Parsing.Toodledo.GetOrCreateFolder | toodledo_to_todoist.py:263-268 | The method is proved against `WithFolder`: the folder is found by name or created. |
| Parsing.Toodledo.Store | toodledo_to_todoist.py:250-279 | Storing, `setFolder` and `setParent` together are proved against `Attach` and `File`. |
| Parsing.Toodledo.Insert | toodledo_to_todoist.py:263-300 | Storing a built task leaves the parser in exactly the state `Inserted` gives for the old state: folder created on first use, task filed, parent linked, `self.tasks` updated. |
| Parsing.Toodledo.ProcessRecord | toodledo_to_todoist.py:236-300 | One pass of the loop, proved against `Step`. |
| Parsing.Toodledo.ProcessRecords | toodledo_to_todoist.py:236-300 | The loop, proved against `Run`. |
| Parsing.Toodledo.ParseXML | toodledo_to_todoist.py:215-300 | The pre-filter and then the loop, proved against `Run` on the admissible records. The state stays consistent. |
| Chunks.ChunkCounts | toodledo_to_todoist.py:133-152 | The counter `n` is always the size of the part being written. |
| Chunks.Place | toodledo_to_todoist.py:137-152 | One turn of the split loop: a subtree whose size added to `n` exceeds the limit opens a new part with `n` reset, then it joins the current part and its size is added to `n`. There is always at least one part. |
| Chunks.Chunk | toodledo_to_todoist.py:133-152 | The split of a folder's top-level subtrees into parts, starting from one empty part and `n = 0`. `ChunkFlatten`, `ChunkGreedy` and `ChunkCounts` state its properties. |
| Chunks.ChunkFlatten | toodledo_to_todoist.py:137-152 | Splitting loses, adds and reorders nothing: the parts one after the other are the items. |
| Chunks.ChunkMembers | toodledo_to_todoist.py:137-152 | Every item of every part is one of the items. |
| Chunks.ChunkGreedy | toodledo_to_todoist.py:141-150 | The first part is within the limit, and every later part is non-empty. A part is over the limit only when it is a single item that exceeds the limit alone. No part was closed early. |
| Chunks.ChunkExample | toodledo_to_todoist.py:141-150 | Subtrees of sizes 50, 60 and 30 with limit 100 go into two parts, `[50]` and `[60, 30]`. |
| Chunks.ChunkOversizedFirst | toodledo_to_todoist.py:141-148 | A first subtree larger than the limit leaves the first part file empty. |
| Todoist.HeadlineOneLine | toodledo_to_todoist.py:163-179 | The task line holds no line break when the title, tags, date and indent hold none. |
| Todoist.Headline | toodledo_to_todoist.py:163-179 | The task line before its line break: indent and title, then the mismatch, completed and repeat tags when they apply, one ` @tag` per tag, and the due date. `HeadlineOneLine` states its property. |
| Todoist.NoteLineOneLine | toodledo_to_todoist.py:182-185 | The note line never holds a line break, whatever the note holds. |
| Todoist.EntrySplits | toodledo_to_todoist.py:160-191 | With line-break-free one-line fields, the entry consists of exactly these lines, each ended by a line break: the task line, then the note, repeat and folder lines when present. |
| Todoist.Entry | toodledo_to_todoist.py:160-191 | What one `exportTask` call writes for the task itself: the task line, then the note, repeat and folder lines when they apply. `EntrySplits` states its line structure. |
| Todoist.SubtreeListing | toodledo_to_todoist.py:160-198 | `exportTask` writes the subtree's entries in depth-first order, parents first and children in storing order. Each entry is indented by three dots per level. |
| Todoist.ChildrenListing | toodledo_to_todoist.py:196-198 | The children's subtrees are written one after the other, three dots further in. |
| Todoist.PartFileNamesDiffer | toodledo_to_todoist.py:129-147 | The part files of one folder all have different names. |
| Todoist.PartFileName | toodledo_to_todoist.py:129-147 | `__<name>[00000].txt` for the first part, `__<name>__part_<j>_[00000].txt` for part `j` after it. `PartFileNamesDiffer` states that they are distinct. |
| Todoist.WritePartsHolds | toodledo_to_todoist.py:129-157 | Every part file holds its own part, and no part overwrites another. |
| Todoist.WritePartsOthers | toodledo_to_todoist.py:129-157 | Files that are not the folder's part files keep their contents. |
| Todoist.PartTextsStart | toodledo_to_todoist.py:129-134 | Before any task, there is one empty part. |
| Todoist.PartTextsOpen | toodledo_to_todoist.py:141-148 | A subtree that does not fit opens a new part file holding just its text, and `n` becomes its size. |
| Todoist.PartTextsExtend | toodledo_to_todoist.py:150-152 | A subtree that fits is appended to the current part file, and `n` grows by its size. |
| Todoist.PartTextsKeepText | toodledo_to_todoist.py:137-152 | The part files one after the other hold exactly the top-level subtrees' texts, in order. |
| Todoist.WrittenStart | toodledo_to_todoist.py:129-134 | Opening the first part file truncates it and starts the first part. |
| Todoist.WrittenClose | toodledo_to_todoist.py:155-157 | Closing the last file stores every part in its file. |
| Todoist.WrittenOpen | toodledo_to_todoist.py:142-148 | Closing a part file and opening the next, truncated, starts a new part. |
| Todoist.WrittenExtend | toodledo_to_todoist.py:150 | Writing to the open file extends the last part. |
| Traversal.Enumerate | toodledo_to_todoist.py:125 | Iterating over a dictionary's values lists each value exactly once. |
| Traversal.TopLevelLists | toodledo_to_todoist.py:137-138 | A task is written at the top level exactly when it is among the folder's tasks and has no parent, and then only once. |
| Todoist.TodoistExport.LastFolderKept | toodledo_to_todoist.py:124-158 | After `export`, every part of the folder exported last is in its own file, whatever earlier folders wrote. |
| Todoist.TodoistExport.OthersKept | toodledo_to_todoist.py:124-158 | A file that is a part file of no exported folder is left as it was. |
| Todoist.TodoistExport.VisitsLists | toodledo_to_todoist.py:137-138 | The top-level tasks written for a folder are exactly its tasks without a parent, each once. |
| Todoist.TodoistExport.constructor | toodledo_to_todoist.py:117-122 | The exporter holds the parser's folders and arenas, a zero count and the limit. |
| Todoist.TodoistExport.ExportTask | toodledo_to_todoist.py:160-198 | `exportTask` appends the subtree's text to the open file and adds `count()` to the counter. |
| Todoist.TodoistExport.WriteEntry | toodledo_to_todoist.py:163-194 | The task's own entry is written and counted once. |
| Todoist.TodoistExport.ExportChildren | toodledo_to_todoist.py:196-198 | Each child's subtree is written in order, three dots further in, and counted. |
| Todoist.TodoistExport.ExportChild | toodledo_to_todoist.py:197-198 | One pass of that loop writes the `k`-th child's subtree and adds its `count()`, leaving exactly the later children's text to write. |
| Todoist.TodoistExport.OpenPart | toodledo_to_todoist.py:142-148 | Splitting closes the current part file and opens the next, truncated. |
| Todoist.TodoistExport.MakeRoom | toodledo_to_todoist.py:140-148 | The split test keeps the files in step with `Chunk` placing one more subtree. |
| Todoist.TodoistExport.WriteRoot | toodledo_to_todoist.py:138-152 | One top-level task: split if needed, write its subtree, and add its size. The files and `n` follow `Chunk`. |
| Todoist.TodoistExport.ExportFolder | toodledo_to_todoist.py:125-158 | One folder: the files become the `Chunk` parts of its top-level subtrees, each part in its own file, and nothing else changes. The counter is the number of tasks written for the folder's top-level subtrees: the sum of their `count()`, which includes children filed in other folders and leaves out this folder's tasks whose parent is elsewhere. |
| Todoist.TodoistExport.Export | toodledo_to_todoist.py:124-158 | Every folder is visited once. The files are the folders' part files in visiting order, a later folder replacing an earlier one's file of the same name. |
| TextDump.Then | toodledo_to_todoist.py:67-92 | Output continues only while no error has been raised. |
| TextDump.Line | toodledo_to_todoist.py:76-89 | The line of a task with an id and a title: id, title and folder name, the mismatch tag, the completion date, the comma-joined tags, the repeat rule and the note, then a line break. |
| TextDump.ThenAssoc | toodledo_to_todoist.py:67-92 | Writing in sequence is associative. |
| TextDump.LineOut | toodledo_to_todoist.py:76-89 | The task's line is written exactly when the task has an id and a title, and then the text is that task's `Line`. Otherwise `TypeError` is raised and nothing is written. |
| TextDump.LinesAppend | toodledo_to_todoist.py:67-92 | Printing two lists of tasks is printing the first and then, if no error was raised, the second. |
| TextDump.SubtreeLines | toodledo_to_todoist.py:67-92 | `printTask` writes the subtree's lines in depth-first order, parents first and children in storing order. Each line is indented three spaces per level. |
| TextDump.ChildrenLines | toodledo_to_todoist.py:90-92 | The children's subtrees are printed one after the other, three spaces further in. |
| TextDump.LinesOk | toodledo_to_todoist.py:76-92 | A list of tasks is printed in full exactly when each of them has an id and a title. |
| TextDump.LinesStop | toodledo_to_todoist.py:76-92 | At the first task without an id or a title, printing stops, having written exactly the lines before it. |
| TextDump.ValuesRoots | toodledo_to_todoist.py:104-111 | Skipping the tasks that have a parent prints the top-level subtrees in visiting order. |
| TextDump.DumpSnoc | toodledo_to_todoist.py:100-111 | Dumping one more folder appends its name and its tasks. |
| TextDump.SubtreeOk | toodledo_to_todoist.py:67-92 | A top-level subtree is printed in full exactly when every task in it has an id and a title. |
| TextDump.PrintableSnoc | toodledo_to_todoist.py:104-111 | Another visited task keeps the folder printable exactly when it is not a top-level task with an unprintable subtree. |
| TextDump.ValuesOk | toodledo_to_todoist.py:104-111 | A folder's tasks are printed in full exactly when all its top-level subtrees are printable. |
| TextDump.DumpOk | toodledo_to_todoist.py:94-114 | The whole dump completes exactly when every folder's tasks are printable. |
| TextDump.TextExport.constructor | toodledo_to_todoist.py:63-65 | The exporter holds the parser's folders, and no file is open. |
| TextDump.TextExport.PrintTask | toodledo_to_todoist.py:67-92 | `printTask` appends the subtree's dump to the open file, up to the first `TypeError`, and reports whether it completed. |
| TextDump.TextExport.PrintValues | toodledo_to_todoist.py:104-111 | The task loop of one folder prints the top-level subtrees in visiting order, and writes nothing after an error. |
| TextDump.TextExport.PrintFolder | toodledo_to_todoist.py:101-111 | One folder: its name on its own line, then its tasks. |
| TextDump.TextExport.Export | toodledo_to_todoist.py:94-114 | The file is truncated, then each folder is dumped in visiting order. On success the file holds the whole dump. On a `TypeError` the file is left truncated and the text written so far stays in `out`. |

## Left out

- XML parsing (BeautifulSoup) is not modelled. The records arrive as a `seq<Record>`, one field per element's `.string`.
- Writing `_filtered_soup.xml` is not modelled.
- Console output is not modelled: the progress messages, the splitting warning, and the error printed when a folder has more tasks than the limit.
- Command-line handling and the top-level script are not modelled.
- File encodings and `codecs` are not modelled. Files are a map from name to text.
- Parsing.Toodledo.SetParent: requires `p < t` (the parent was stored earlier). The parser only ever links to an earlier task, and the arena order is what makes `count()` terminate. Python accepts any parent object.
- Parsing.Step, Parsing.Inserted and Parsing.Toodledo.Insert: the record loop links a task with the intended parent lookup (`Parsing.ResolveParent`), not the one at lines 273-276 as written. They differ only for a record without `<parent>` after a record without `<id>`, which the code links below the id-less task (see "## Findings"); `Parsing.ResolveParentAsWritten` models that lookup on its own.
- Parsing.Toodledo.ProcessRecord: copies the record's fields into the task in one step (`StoredTask`), not one assignment at a time. Nothing reads the task between those assignments.
- Todoist.TodoistExport.Export: the model does not state what the counter means beyond the last folder, because `export` resets it for each folder.
- TextDump.TextExport.Export: after a `TypeError` the file is left truncated and `out` holds what was written. Whether Python flushes that buffer to disk when the exception ends the program is not modelled.
- Dictionary iteration order is not modelled. Each exporter returns the order it used, and its contract holds for any order.
- File-name collisions between folders are not claimed as a defect. Sanitising can map two raw names to one (`Strings.SanitizeCollides`), and a name like `x__part_2_` can coincide with a part file of folder `x`. The later folder's files replace the earlier ones, and `Todoist.TodoistExport.Export` states exactly that.

## Findings

| source | as written | input that shows it | evidently intended | confidence | as-written member | corrected member |
|---|---|---|---|---|---|---|
| toodledo_to_todoist.py:273-276 | `parent_id in self.tasks` is tested even when `get` returned None for a missing `<parent>`. `self.tasks` holds the key None once some earlier record had no `<id>`. | A record without `<id>` is stored first. A later record without `<parent>` then becomes its child instead of a top-level task. | A record without a parent id is a top-level task. The record loop (`Parsing.Step`) uses this corrected lookup. | likely; not executed | Parsing.ResolveParentAsWritten, Parsing.AbsentParentAsWritten | Parsing.ResolveParent |
