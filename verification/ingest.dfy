/** `parsing_task`: a calculation directory is parsed into a staging
    directory `tasks/<uuid>` of the repository, the record is named by the
    SHA-1 of its sanitised `input` sub-document, and the staging directory
    then either becomes `tasks/<id>` or, when that entry exists already, is
    deleted. The fresh uuid, the hash, the serialiser, the clock and the
    file readers are parameters. */
module Ingest {
  import opened Results
  import opened PyDict
  import opened PyValues
  import opened Models
  import opened FileSystem
  import opened ModelUtils
  import opened Outputs
  import opened VaspTask

  /** `str(uuid4())`: 36 hexadecimal digits and dashes. */
  predicate IsUuidText(s: string) {
    |s| == 36 && forall i :: 0 <= i < |s| ==> IsHexDigit(s[i]) || s[i] == '-'
  }

  type UuidText = s: string | IsUuidText(s)
    witness "000000000000000000000000000000000000"

  /** The entry `tasks/<name>` of the repository rooted at `root`. */
  function TaskEntry(root: Path, name: string): Path {
    root + ["tasks", name]
  }

  /** What `parsing_task` leaves behind: the working directory it ends in,
      and either the tree with the returned id or the exception. */
  datatype Ingested = Ingested(cwd: Path, result: Result<(FS, Digest)>)

  // ------------------------------------------------------------ path facts

  /** A uuid or a digest is a single plain path component. */
  lemma HexNamePlain(s: string)
    requires |s| > 0 && forall i :: 0 <= i < |s| ==> IsHexDigit(s[i]) || s[i] == '-'
    ensures PlainName(s)
  {
    assert s[0] != '.';
  }

  /** `os.path.join('tasks', name)` names the entry `tasks/<name>` of the
      working directory. */
  lemma TasksJoin(root: Path, name: string)
    requires PlainName(name)
    ensures Resolve(root, Join("tasks", name)) == TaskEntry(root, name)
  {
    assert "tasks" == ['t', 'a', 's', 'k', 's'];
    JoinResolve(root, "", "tasks");
    assert Join("", "tasks") == "tasks";
    JoinResolve(root, "tasks", name);
  }

  /** The marker file is named `tag.json`, so it is never an entry of
      `tasks/` nor a `task.json`. */
  lemma TagLast(fs: FS, taskDir: string)
    ensures var t := TagPath(fs, taskDir); |t| > 0 && t[|t| - 1] == "tag.json"
  {
    assert "tag.json" == ['t', 'a', 'g', '.', 'j', 's', 'o', 'n'];
    JoinResolve(fs.cwd, taskDir, "tag.json");
  }

  // ------------------------------------------------------------- the record

  /** `jsanitize(td)`: the document as a dict keyed by its field names. */
  function Sanitized(doc: StrDict): seq<(PyVal, PyVal)> {
    Sanitize(Record(doc)).entries
  }

  /** `td['input']`, when the sanitised document has that key. */
  function Input(doc: StrDict): Option<PyVal> {
    Get(Sanitized(doc), PStr("input"))
  }

  /** `sha1encode(td['input'])` */
  function IdOf(hash: Hasher, doc: StrDict): Digest
    requires Input(doc).Some?
  {
    Sha1Encode(hash, Input(doc).value)
  }

  /** `td['task_id'] = encode`: the id replaces whatever `task_id` the
      document held, and every other key reads as before. */
  function Stored(doc: StrDict, id: Digest): (r: seq<(PyVal, PyVal)>)
    ensures Get(r, PStr("task_id")) == Some(PStr(id))
    ensures forall k :: k != PStr("task_id") ==> Get(r, k) == Get(Sanitized(doc), k)
  {
    Put(Sanitized(doc), PStr("task_id"), PStr(id))
  }

  /** The `info` dict written to `tag.json`: where the entry is and its id. */
  function EntryInfo(entry: Path, id: Digest): PyVal {
    PDict([(PStr("path"), PStr(PathText(entry))), (PStr("encode"), PStr(id))])
  }

  // -------------------------------------------------------------- staging

  /** `os.chdir(root_dir)` followed by `create_path('tasks/<uuid>')`: the
      staging directory exists afterwards, every node that existed is kept,
      and the only nodes added are the staging directory and its missing
      ancestors. */
  function Prepared(fs: FS, uuid: UuidText, rootDir: string): (r: Result<FS>)
    ensures !IsDir(fs, Resolve(fs.cwd, rootDir)) ==> r == Err(OSError("No such directory"))
    ensures r.Ok? ==>
      var root := Resolve(fs.cwd, rootDir);
      && r.value.cwd == root
      && IsDir(r.value, TaskEntry(root, uuid))
      && (forall q :: q in fs.nodes ==> Agree(fs, r.value, q))
      && (forall q :: q in r.value.nodes && q !in fs.nodes ==> q <= TaskEntry(root, uuid))
    ensures r.Ok? && Valid(fs) ==> Valid(r.value)
  {
    var root := Resolve(fs.cwd, rootDir);
    var fs1 :- Chdir(fs, root);
    HexNamePlain(uuid);
    TasksJoin(root, uuid);
    var made :- CreatePath(fs1, Join("tasks", uuid), false);
    Ok(made.0)
  }

  /** Lines 14-26 of `parsing_task`: the staging directory is prepared and
      `from_directory` parses into it under the temporary id. A `dst_dir`
      keyword clashes with the one the call passes itself. Parsing writes
      strictly below the staging directory, so the staging directory is
      still a directory afterwards and every other node that existed is
      kept. */
  function Stage(fs: FS, readers: Readers, codecs: Codecs, parsers: Parsers, uuid: UuidText,
                 taskDir: string, rootDir: string, kwargs: StrDict, now: PyVal): (r: Result<(FS, StrDict)>)
    ensures Prepared(fs, uuid, rootDir).Err? ==> r == Err(Prepared(fs, uuid, rootDir).error)
    ensures Prepared(fs, uuid, rootDir).Ok? && "dst_dir" in Keys(kwargs) ==>
      r == Err(TypeError("from_directory() got multiple values for keyword argument 'dst_dir'"))
    ensures r.Ok? ==>
      var root := Resolve(fs.cwd, rootDir);
      r.value.0.cwd == root && Staged(fs, r.value.0, TaskEntry(root, uuid))
  {
    var fs1 :- Prepared(fs, uuid, rootDir);
    if "dst_dir" in Keys(kwargs) then
      Err(TypeError("from_directory() got multiple values for keyword argument 'dst_dir'"))
    else
      var r := FromDirectory(fs1, readers, codecs, parsers, uuid, taskDir, Join("tasks", uuid), kwargs, now);
      if r.Ok? then
        FromDirectoryFrame(fs1, readers, codecs, parsers, uuid, taskDir, Join("tasks", uuid), kwargs, now);
        HexNamePlain(uuid);
        TasksJoin(fs1.cwd, uuid);
        StageFacts(fs, fs1, r.value.0, TaskEntry(fs1.cwd, uuid));
        r
      else r
  }

  /** How the tree `s` after staging relates to the tree `fs` before: the
      staging directory is a directory, every node that existed and is not
      strictly below it is kept, a new node is the staging directory, one
      of its ancestors or below it, and a well-formed tree stays so. */
  predicate Staged(fs: FS, s: FS, staging: Path) {
    && IsDir(s, staging)
    && (forall q :: q in fs.nodes && !Below(staging, q) ==> Agree(fs, s, q))
    && (forall q :: q in s.nodes && q !in fs.nodes ==> q <= staging || staging <= q)
    && (Valid(fs) ==> Valid(s))
  }

  /** Preparing keeps every node and adds only ancestors of the staging
      directory; parsing changes nothing but what lies strictly below it. */
  lemma StageFacts(fs: FS, fs1: FS, fs2: FS, staging: Path)
    requires IsDir(fs1, staging)
    requires forall q :: q in fs.nodes ==> Agree(fs, fs1, q)
    requires forall q :: q in fs1.nodes && q !in fs.nodes ==> q <= staging
    requires Valid(fs) ==> Valid(fs1)
    requires forall q :: !Below(staging, q) ==> Agree(fs1, fs2, q)
    requires Valid(fs1) ==> Valid(fs2)
    ensures Staged(fs, fs2, staging)
  {
    assert Agree(fs1, fs2, staging);
    forall q | q in fs2.nodes && q !in fs.nodes ensures q <= staging || staging <= q {
      if !Below(staging, q) {
        assert Agree(fs1, fs2, q);
      }
    }
  }

  // -------------------------------------------------------------- promote

  /** Lines 36-41 of `parsing_task`, for an id with no entry yet: the
      staging directory is moved to `tasks/<id>`, the record is dumped to
      `task.json` there, and `tag.json` in the source directory receives
      `info`. Moving empties the staging name, and what the staging
      directory held is found under the entry. */
  function Store(fs: FS, dump: Dumper, taskDir: string, uuid: UuidText, id: Digest,
                 record: PyVal, info: PyVal): (r: Result<FS>)
    requires !IsDir(fs, TaskEntry(fs.cwd, id))
    ensures r.Ok? ==> r.value.cwd == fs.cwd
    ensures r.Ok? ==> TagPath(fs, taskDir) in r.value.nodes && r.value.nodes[TagPath(fs, taskDir)] == File(dump(info))
    ensures r.Ok? ==>
      var json := TaskEntry(fs.cwd, id) + ["task.json"];
      json in r.value.nodes && r.value.nodes[json] == File(dump(record))
    ensures r.Ok? ==>
      var staging := TaskEntry(fs.cwd, uuid);
      var entry := TaskEntry(fs.cwd, id);
      && (forall x :: staging + x in fs.nodes && x != ["task.json"] && entry + x != TagPath(fs, taskDir) ==>
            entry + x in r.value.nodes && r.value.nodes[entry + x] == fs.nodes[staging + x])
      && (forall q :: !Under(staging, q) && !Under(entry, q) && q != TagPath(fs, taskDir) ==> Agree(fs, r.value, q))
    ensures r.Ok? && IsDir(fs, TaskEntry(fs.cwd, uuid)) ==> IsDir(r.value, TaskEntry(fs.cwd, id))
    ensures r.Ok? && Valid(fs) ==>
      Valid(r.value) && forall q :: Under(TaskEntry(fs.cwd, uuid), q) ==> q !in r.value.nodes
  {
    var staging := TaskEntry(fs.cwd, uuid);
    var entry := TaskEntry(fs.cwd, id);
    var json := entry + ["task.json"];
    var tag := TagPath(fs, taskDir);
    assert staging != entry by { assert staging[|staging| - 1] == uuid; }
    assert MoveTarget(fs, staging, entry) == entry;
    var fs1 :- Move(fs, staging, entry);
    var fs2 :- WriteFile(fs1, json, dump(record));
    var t :- TaskTag(fs2, dump, taskDir, "write", info);
    StoreFacts(fs, fs1, fs2, t.0, taskDir, uuid, id);
    Ok(t.0)
  }

  /** The three steps of `Store`, one fact at a time. */
  lemma StoreFacts(fs: FS, fs1: FS, fs2: FS, fs3: FS, taskDir: string, uuid: UuidText, id: Digest)
    requires fs1.cwd == fs.cwd
    requires forall q :: !Under(TaskEntry(fs.cwd, uuid), q) && !Under(TaskEntry(fs.cwd, id), q) ==> Agree(fs, fs1, q)
    requires forall x :: TaskEntry(fs.cwd, uuid) + x in fs.nodes ==>
      TaskEntry(fs.cwd, id) + x in fs1.nodes && fs1.nodes[TaskEntry(fs.cwd, id) + x] == fs.nodes[TaskEntry(fs.cwd, uuid) + x]
    requires Valid(fs) ==> Valid(fs1) && forall q :: Under(TaskEntry(fs.cwd, uuid), q) ==> q !in fs1.nodes
    requires fs2.cwd == fs1.cwd && IsFile(fs2, TaskEntry(fs.cwd, id) + ["task.json"])
    requires forall q :: q != TaskEntry(fs.cwd, id) + ["task.json"] ==> Agree(fs1, fs2, q)
    requires Valid(fs1) ==> Valid(fs2)
    requires fs3.cwd == fs2.cwd && TagPath(fs2, taskDir) in fs3.nodes
    requires var tag := TagPath(fs2, taskDir); |tag| > 0 && IsDir(fs2, Parent(tag))
    requires forall q :: q != TagPath(fs2, taskDir) ==> Agree(fs2, fs3, q)
    requires Valid(fs2) ==> Valid(fs3)
    ensures TagPath(fs, taskDir) == TagPath(fs2, taskDir)
    ensures TagPath(fs, taskDir) != TaskEntry(fs.cwd, id) + ["task.json"]
    ensures var staging := TaskEntry(fs.cwd, uuid);
      var entry := TaskEntry(fs.cwd, id);
      && (forall x :: staging + x in fs.nodes && x != ["task.json"] && entry + x != TagPath(fs, taskDir) ==>
            entry + x in fs3.nodes && fs3.nodes[entry + x] == fs.nodes[staging + x])
      && (forall q :: !Under(staging, q) && !Under(entry, q) && q != TagPath(fs, taskDir) ==> Agree(fs, fs3, q))
    ensures IsDir(fs, TaskEntry(fs.cwd, uuid)) ==> IsDir(fs3, TaskEntry(fs.cwd, id))
    ensures Valid(fs) ==> Valid(fs3) && forall q :: Under(TaskEntry(fs.cwd, uuid), q) ==> q !in fs3.nodes
  {
    var staging := TaskEntry(fs.cwd, uuid);
    var entry := TaskEntry(fs.cwd, id);
    var json := entry + ["task.json"];
    var tag := TagPath(fs, taskDir);
    TagLast(fs, taskDir);
    assert TagPath(fs2, taskDir) == tag;
    assert tag != json;
    assert tag != entry by { assert entry[|entry| - 1] == id; }
    forall x | staging + x in fs.nodes && x != ["task.json"] && entry + x != tag
      ensures entry + x in fs3.nodes && fs3.nodes[entry + x] == fs.nodes[staging + x]
    {
      assert entry + x in fs1.nodes && fs1.nodes[entry + x] == fs.nodes[staging + x];
      AppendDistinct(entry, x, ["task.json"]);
      assert Agree(fs1, fs2, entry + x) && Agree(fs2, fs3, entry + x);
    }
    forall q | !Under(staging, q) && !Under(entry, q) && q != tag ensures Agree(fs, fs3, q) {
      assert Under(entry, json);
      assert Agree(fs, fs1, q) && Agree(fs1, fs2, q) && Agree(fs2, fs3, q);
    }
    if IsDir(fs, staging) {
      assert staging + [] == staging && entry + [] == entry;
      assert entry != json;
    }
    if Valid(fs) {
      forall q | Under(staging, q) ensures q !in fs3.nodes {
        StagingNotJson(fs.cwd, uuid, id, q);
        assert q !in fs1.nodes && Agree(fs1, fs2, q);
        if q == tag {
          TagBelowStaging(staging, tag);
          StagingNotJson(fs.cwd, uuid, id, Parent(tag));
          StaysGone(fs1, fs2, staging, json, Parent(tag));
          assert false;
        }
        assert Agree(fs2, fs3, q);
      }
    }
  }

  /** A node under a removed subtree is still absent after a write
      elsewhere. */
  lemma StaysGone(fs1: FS, fs2: FS, staging: Path, json: Path, p: Path)
    requires forall q :: Under(staging, q) ==> q !in fs1.nodes
    requires forall q :: q != json ==> Agree(fs1, fs2, q)
    requires Under(staging, p) && p != json
    ensures p !in fs2.nodes
  {
    assert Agree(fs1, fs2, p);
  }

  lemma AppendDistinct(p: Path, x: Path, y: Path)
    requires x != y
    ensures p + x != p + y
  {
    assert (p + x)[|p|..] == x;
    assert (p + y)[|p|..] == y;
  }

  /** Nothing under the staging directory is the new `task.json`. */
  lemma StagingNotJson(root: Path, uuid: UuidText, id: Digest, q: Path)
    requires Under(TaskEntry(root, uuid), q)
    ensures q != TaskEntry(root, id) + ["task.json"]
  {
    assert q[|root| + 1] == uuid;
    assert (TaskEntry(root, id) + ["task.json"])[|root| + 1] == id;
  }

  /** A marker file under the staging directory sits in a directory under
      it, since its name is not the staging name. */
  lemma TagBelowStaging(staging: Path, tag: Path)
    requires |staging| > 0 && |tag| > 0 && tag[|tag| - 1] != staging[|staging| - 1]
    requires Under(staging, tag)
    ensures Under(staging, Parent(tag))
  {
    assert |staging| < |tag|;
    assert Parent(tag)[..|staging|] == tag[..|staging|];
  }

  /** Lines 27-41 of `parsing_task`, run in the repository root. The id is
      the digest of the sanitised record's `input`. When `tasks/<id>` is a
      directory already, the staging directory is deleted and nothing else
      changes; otherwise the staging directory becomes `tasks/<id>`, its
      `task.json` holds the record with `task_id` set to the id, and
      `tag.json` of the source directory records the entry and the id.
      Either way the staging name is gone afterwards. */
  function Promote(fs: FS, hash: Hasher, dump: Dumper, taskDir: string, uuid: UuidText,
                   doc: StrDict): (r: Result<(FS, Digest)>)
    ensures Input(doc).None? ==> r == Err(KeyError("input"))
    ensures r.Ok? ==> Input(doc).Some? && r.value.1 == IdOf(hash, doc) && r.value.0.cwd == fs.cwd
    ensures Input(doc).Some? && IsDir(fs, TaskEntry(fs.cwd, IdOf(hash, doc))) ==>
      (r.Ok? <==> IsDir(fs, TaskEntry(fs.cwd, uuid))) &&
      (r.Ok? ==> forall q :: !Under(TaskEntry(fs.cwd, uuid), q) ==> Agree(fs, r.value.0, q))
    ensures r.Ok? && !IsDir(fs, TaskEntry(fs.cwd, r.value.1)) ==>
      var id := r.value.1;
      var entry := TaskEntry(fs.cwd, id);
      && entry + ["task.json"] in r.value.0.nodes
      && r.value.0.nodes[entry + ["task.json"]] == File(dump(PDict(Stored(doc, id))))
      && TagPath(fs, taskDir) in r.value.0.nodes
      && r.value.0.nodes[TagPath(fs, taskDir)] == File(dump(EntryInfo(entry, id)))
    ensures r.Ok? && IsDir(fs, TaskEntry(fs.cwd, uuid)) ==> IsDir(r.value.0, TaskEntry(fs.cwd, r.value.1))
    ensures r.Ok? && Valid(fs) ==>
      Valid(r.value.0) && forall q :: Under(TaskEntry(fs.cwd, uuid), q) ==> q !in r.value.0.nodes
  {
    if Input(doc).None? then Err(KeyError("input"))
    else
      var id := IdOf(hash, doc);
      var staging := TaskEntry(fs.cwd, uuid);
      var entry := TaskEntry(fs.cwd, id);
      if IsDir(fs, entry) then
        var fs' :- RemoveTree(fs, staging);
        assert !Under(staging, entry) by { assert entry[|fs.cwd| + 1] == id; }
        Ok((fs', id))
      else
        var fs' :- Store(fs, dump, taskDir, uuid, id, PDict(Stored(doc, id)), EntryInfo(entry, id));
        Ok((fs', id))
  }

  // --------------------------------------------------------- parsing_task

  /** Lines 27-45 of `parsing_task`, after parsing gave `staged` in the
      repository root `root`: an exception leaves the working directory in
      the root; otherwise the record is promoted and the working directory
      goes back to `fs.cwd`. */
  function Finish(fs: FS, root: Path, hash: Hasher, dump: Dumper, taskDir: string, uuid: UuidText,
                  staged: Result<(FS, StrDict)>): (r: Ingested)
    ensures r.result.Err? ==> r.cwd == root
    ensures r.result.Ok? ==> r.cwd == fs.cwd && r.result.value.0.cwd == fs.cwd
    ensures staged.Err? ==> r == Ingested(root, Err(staged.error))
    ensures r.result.Ok? ==>
      staged.Ok? && Input(staged.value.1).Some? && r.result.value.1 == IdOf(hash, staged.value.1)
    ensures r.result.Ok? && staged.value.0.cwd == root ==>
      var s := staged.value.0;
      var id := r.result.value.1;
      && (IsDir(s, TaskEntry(root, uuid)) ==> IsDir(r.result.value.0, TaskEntry(root, id)))
      && (Valid(s) ==> Valid(r.result.value.0) &&
                       forall q :: Under(TaskEntry(root, uuid), q) ==> q !in r.result.value.0.nodes)
      && (IsDir(s, TaskEntry(root, id)) ==>
            forall q :: !Under(TaskEntry(root, uuid), q) ==> Agree(s, r.result.value.0, q))
  {
    match staged
    case Err(e) => Ingested(root, Err(e))
    case Ok((s, doc)) =>
      match Promote(s, hash, dump, taskDir, uuid, doc)
      case Err(e) => Ingested(root, Err(e))
      case Ok((done, id)) =>
        match Chdir(done, fs.cwd)
        case Err(e) => Ingested(root, Err(e))
        case Ok(back) => Ingested(fs.cwd, Ok((back, id)))
  }

  /** `parsing_task(task_dir, root_dir=root_dir, **kwargs)` with the working
      directory `fs.cwd`; `task_dir`, `task_id` and `root_dir` are bound to
      parameters, so the keywords never hold them, and the `task_id`
      argument is overwritten by the fresh uuid before it is read. On a
      normal return the working directory is back where it was, the id is
      the digest of the parsed record's `input`, `tasks/<id>` is a
      directory and the staging name is gone; an exception after the first
      `os.chdir` leaves the working directory in the repository root. */
  function ParsingTask(fs: FS, readers: Readers, codecs: Codecs, parsers: Parsers, uuid: UuidText,
                       taskDir: string, rootDir: string, kwargs: StrDict, now: PyVal): (r: Ingested)
    requires "task_dir" !in Keys(kwargs) && "task_id" !in Keys(kwargs) && "root_dir" !in Keys(kwargs)
    ensures !IsDir(fs, Resolve(fs.cwd, rootDir)) ==> r == Ingested(fs.cwd, Err(OSError("No such directory")))
    ensures IsDir(fs, Resolve(fs.cwd, rootDir)) && r.result.Err? ==> r.cwd == Resolve(fs.cwd, rootDir)
    ensures r.result.Ok? ==> r.cwd == fs.cwd && r.result.value.0.cwd == fs.cwd
    ensures r.result.Ok? ==>
      var staged := Stage(fs, readers, codecs, parsers, uuid, taskDir, rootDir, kwargs, now);
      staged.Ok? && Input(staged.value.1).Some? && r.result.value.1 == IdOf(codecs.hash, staged.value.1)
    ensures r.result.Ok? ==>
      IsDir(r.result.value.0, TaskEntry(Resolve(fs.cwd, rootDir), r.result.value.1))
    ensures r.result.Ok? && Valid(fs) ==>
      Valid(r.result.value.0) &&
      forall q :: Under(TaskEntry(Resolve(fs.cwd, rootDir), uuid), q) ==> q !in r.result.value.0.nodes
  {
    var root := Resolve(fs.cwd, rootDir);
    if !IsDir(fs, root) then Ingested(fs.cwd, Err(OSError("No such directory")))
    else
      var staged := Stage(fs, readers, codecs, parsers, uuid, taskDir, rootDir, kwargs, now);
      Finish(fs, root, codecs.hash, codecs.dump, taskDir, uuid, staged)
  }

  /** Ingesting a record whose `tasks/<id>` entry exists already, with a
      free staging name, returns the tree it started from: the staging
      directory and its ancestors that preparing added, and whatever parsing
      wrote below it, are all gone, and nothing else was touched. */
  lemma ReingestKeepsTree(fs: FS, readers: Readers, codecs: Codecs, parsers: Parsers, uuid: UuidText,
                          taskDir: string, rootDir: string, kwargs: StrDict, now: PyVal)
    requires "task_dir" !in Keys(kwargs) && "task_id" !in Keys(kwargs) && "root_dir" !in Keys(kwargs)
    requires ParsingTask(fs, readers, codecs, parsers, uuid, taskDir, rootDir, kwargs, now).result.Ok?
    requires Valid(fs) && TaskEntry(Resolve(fs.cwd, rootDir), uuid) !in fs.nodes
    requires IsDir(fs, TaskEntry(Resolve(fs.cwd, rootDir),
                                 ParsingTask(fs, readers, codecs, parsers, uuid, taskDir, rootDir, kwargs, now).result.value.1))
    ensures ParsingTask(fs, readers, codecs, parsers, uuid, taskDir, rootDir, kwargs, now).result.value.0.nodes == fs.nodes
  {
    var root := Resolve(fs.cwd, rootDir);
    var staged := Stage(fs, readers, codecs, parsers, uuid, taskDir, rootDir, kwargs, now);
    FinishKeepsTree(fs, root, codecs.hash, codecs.dump, taskDir, uuid, staged);
  }

  /** The same, one step in: finishing a staged parse whose id names an
      existing entry gives back the tree from before staging. */
  lemma FinishKeepsTree(fs: FS, root: Path, hash: Hasher, dump: Dumper, taskDir: string, uuid: UuidText,
                        staged: Result<(FS, StrDict)>)
    requires staged.Ok? && staged.value.0.cwd == root && Staged(fs, staged.value.0, TaskEntry(root, uuid))
    requires Valid(fs) && TaskEntry(root, uuid) !in fs.nodes
    requires Finish(fs, root, hash, dump, taskDir, uuid, staged).result.Ok?
    requires IsDir(fs, TaskEntry(root, Finish(fs, root, hash, dump, taskDir, uuid, staged).result.value.1))
    ensures Finish(fs, root, hash, dump, taskDir, uuid, staged).result.value.0.nodes == fs.nodes
  {
    var r := Finish(fs, root, hash, dump, taskDir, uuid, staged);
    var id := r.result.value.1;
    assert Agree(fs, staged.value.0, TaskEntry(root, id));
    ExistingEntryKept(fs, staged.value.0, r.result.value.0, root, uuid, id);
  }

  /** When `tasks/<id>` was already there and the staging name was free,
      preparing added only the staging directory, parsing wrote only below
      it, and deleting it removed all of that: the tree is the tree before. */
  lemma ExistingEntryKept(fs: FS, s: FS, done: FS, root: Path, uuid: UuidText, id: Digest)
    requires Valid(fs) && TaskEntry(root, uuid) !in fs.nodes && IsDir(fs, TaskEntry(root, id))
    requires Staged(fs, s, TaskEntry(root, uuid))
    requires forall q :: !Under(TaskEntry(root, uuid), q) ==> Agree(s, done, q)
    requires forall q :: Under(TaskEntry(root, uuid), q) ==> q !in done.nodes
    ensures done.nodes == fs.nodes
  {
    var staging := TaskEntry(root, uuid);
    var entry := TaskEntry(root, id);
    forall q ensures (q in fs.nodes <==> q in done.nodes) && (q in fs.nodes ==> fs.nodes[q] == done.nodes[q]) {
      if Under(staging, q) {
        if q in fs.nodes {
          DirAbove(fs, staging, q);
        }
      } else {
        if q in fs.nodes {
          assert Agree(fs, s, q);
        } else if q in s.nodes {
          assert q <= staging;
          assert q != staging;
          assert q <= entry by {
            assert q <= root + ["tasks"];
          }
          DirAbove(fs, q, entry);
        }
        assert Agree(s, done, q);
      }
    }
  }
}
