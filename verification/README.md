# matvirdkit task ingestion and classification rules, modelled in Dafny

This project models the core of matvirdkit, a toolkit that turns VASP
calculation directories into a file-based repository of JSON task documents
and derives material, stability, mechanics, structure and XRD records from
them.

The centre of the model is `parsing_task`. It works as follows:

- A calculation directory is parsed into a staging directory
  `tasks/<uuid>` of the repository.
- The record is named by the SHA-1 digest of the text of its sanitised
  `input` sub-document.
- If that entry already exists, the staging directory is deleted.
- Otherwise the staging directory becomes `tasks/<digest>`, the record is
  written as `task.json`, and a `tag.json` marker goes back into the source
  directory.

The file system is an immutable map from paths (sequences of components)
to files and directories, and every operation returns the next tree. These
are parameters rather than definitions:

- SHA-1;
- the JSON serialiser `dumpfn` and gzip;
- the fresh uuid and the clock;
- the pymatgen, ASE and VaspInput readers.

Around the centre sit small decision procedures, each a pure function over
dicts and strings:

- classification of VASP runs and tasks (`calc_types/utils.py`);
- the best-task choice of `MaterialsDoc.from_tasks`;
- stability labels;
- the `Result.json` mapping of `Mechanics2D`;
- element metadata of structures;
- XRD ids and the target/edge validator;
- the DOI pattern;
- author de-duplication;
- the builder accumulators;
- the structure-reader dispatch;
- the MongoDB URI and settings defaults.

Python dicts are modelled as insertion-ordered sequences of pairs
(`PyDict`). Python values are a datatype `PyVal` with the `str`/`repr`
rendering the digest is computed over (`PyValues`). pydantic models are
modelled by `Models.Construct`: a schema of named fields with defaults,
`**kwargs` filtering, and the first missing required field as the
validation error.

Modules, one per source file of the core, plus shared infrastructure:

| file | module | models |
|---|---|---|
| results.dfy | Results | Python exceptions as an `Error` datatype, `Result`, `Option` |
| strings.dfy | Strings | `lower`, `split`, `replace`, `endswith`, `basename`, `in` on strings |
| pydict.dfy | PyDict | insertion-ordered dicts: lookup, assignment, `update`, `pop`, comprehensions |
| pyvalues.dfy | PyValues | Python values, `str`/`repr`, truthiness, comparisons, `jsanitize` |
| sorting.dfy | Sorting | `sorted`/`min` with a key, and `set` |
| filesystem.dfy | FileSystem | `os.chdir`, `os.makedirs`, `shutil.rmtree`, `shutil.move`, copying, removal, path resolution |
| models.dfy | Models | pydantic construction from keyword arguments |
| modelutils.dfy | ModelUtils | `task_tag`, `sha1encode`, `transfer_file`, `create_path` |
| outputs.dfy | Outputs | `VaspOutputs` and `OutputData.from_directory` |
| vasptask.dfy | VaspTask | `TaskDocument.from_directory`, `RunStatistics`, the task/calc type inputs |
| ingest.dfy | Ingest | `parsing_task` |
| calctypes.dfy | CalcTypes | `run_type`, `_variant_equal`, `task_type`, `calc_type` |
| material.dfy | Material | `MaterialsDoc.from_tasks` |
| stability.dfy | Stability | the three stability `from_dict` constructors |
| mechanics.dfy | Mechanics | `Mechanics2D.from_file` |
| structure.dfy | Structure | `StructureMetadata` and `StructureMatvird.from_structure` |
| xrd.dfy | Xrd | `XRD.from_target` and the `get_target_and_edge` validator |
| common.dfy | Common | the `DOI` pattern and `JFData` |
| authors.dfy | Authors | `PropertyDoc.remove_duplicate_authors` |
| builder.dfy | BuilderBase | `Builder.set_origins`, `get_origins`, `update_properties`, `insert_customer_data` |
| readstructure.dfy | ReadStructure | `structure_from_file` |
| db.dfy | Db | `MatvirdDB.__init__` URI and `get_database` defaults |

Behaviours of the code worth noting:

- There is no cache-hit fast path. The block of `from_directory` that would
  read `tag.json` and skip re-parsing is commented out, so every ingestion
  parses again.
- The tag is written only when a new entry is created.
- When parsing raises, the staging directory is not removed, and the
  working directory is left in the repository root.
- The digest is taken over `str()` of the `input` dict, so it depends on
  the insertion order of keys.
- A relative `task_dir` is resolved against the repository root, since the
  process has changed into it by then.
- `MaterialsDoc.from_tasks` computes every field of the material but never
  returns it: its final `from_structure` call lacks the required
  `dimension` and raises `TypeError` (see Findings). The fields it computes
  are modelled as `Material.FromTasksArgs`.
- `TaskDocument.completed_at` and `last_updated` default to `None`, and
  `from_directory` sets only `last_updated`. For a group of two or more
  tasks that leave `completed_at` unset, `min(task.completed_at ...)` has to
  order `None` against `None` and raises `TypeError`. That happens before
  any structure calculation is chosen (`Material.TwoDirectoryTasksUnordered`).

## Model

| member | source | states |
|---|---|---|
| ModelUtils.Sha1EncodeRendering | matvirdkit/model/utils.py:53-54 | values with the same `str` rendering get the same digest |
| ModelUtils.Sha1EncodeOrderSensitive | matvirdkit/model/utils.py:53-54 | two dicts with the same items in a different insertion order render differently, so an injective hash gives them different digests |
| PyValues.InsertionOrderMatters | matvirdkit/model/utils.py:53-54 | the `str` of a dict follows its insertion order |
| ModelUtils.TaskTag | matvirdkit/model/utils.py:36-51 | `write` succeeds exactly when the parent is a directory and the tag path is not one; it writes the dumped info there and touches nothing else. `check` reports whether the tag file exists and changes nothing. `remove` deletes the tag if present and is a no-op otherwise. Any other status returns None with the tree unchanged |
| ModelUtils.TagWriteThenCheck | matvirdkit/model/utils.py:36-43 | after a successful write, check answers True |
| ModelUtils.TagRemoveThenCheck | matvirdkit/model/utils.py:39-49 | after remove, check answers False |
| ModelUtils.TagRemoveIdempotent | matvirdkit/model/utils.py:44-49 | a second remove changes nothing and returns None |
| ModelUtils.CompressFile | matvirdkit/model/utils.py:241-243 | the file is replaced by `<name>.<compression>` holding the packed bytes, and nothing else changes |
| ModelUtils.CopyIgnoringSame | matvirdkit/model/utils.py:237-240 | copying a file onto itself is a no-op, otherwise it is a plain copy |
| ModelUtils.StoredName | matvirdkit/model/utils.py:231-236 | the content name `<sha1(bytes)>-<basename>` is a single path component |
| ModelUtils.Transfer | matvirdkit/model/utils.py:223-265 | under either way of naming a compressed copy, a bad `path_type` fails the assertion, `rename` on a missing source raises RuntimeError, and a name is returned exactly when `rename` is set |
| ModelUtils.TransferFile | matvirdkit/model/utils.py:223-265 | a bad `path_type` fails the assertion; `rename` on a missing source raises RuntimeError; without `rename` nothing is returned; with `rename`, `compress` and `base` the return value is `<digest>-<basename>.<compression>` of the source bytes |
| ModelUtils.TransferStoresCopy | matvirdkit/model/utils.py:229-240 | an uncompressed transfer stores the source bytes under the content name in the destination |
| ModelUtils.TransferStoresPacked | matvirdkit/model/utils.py:229-243 | a compressed transfer stores the packed source bytes under `<content name>.<compression>` and leaves no uncompressed copy |
| ModelUtils.TransferCopySteps | matvirdkit/model/utils.py:229-240 | an uncompressed renaming transfer is exactly the copy to the content name |
| ModelUtils.TransferPackedSteps | matvirdkit/model/utils.py:229-243 | a compressed renaming transfer is the copy followed by the compression |
| ModelUtils.TransferFileFrame | matvirdkit/model/utils.py:223-265 | a renaming transfer changes nothing outside the destination directory; a plain copy changes only the target file; the working directory and well-formedness are kept |
| ModelUtils.TransferPlainCopy | matvirdkit/model/utils.py:261-265 | without `rename`, copying onto itself is a no-op returning None; otherwise it succeeds exactly when the copy does, and the target holds the source's content |
| ModelUtils.TransferCollapses | matvirdkit/model/utils.py:231-246 | byte-identical files with the same base name from different source directories are reported under the same name |
| ModelUtils.TransferFileAsWritten | matvirdkit/model/utils.py:241-246 | the literal `replace(dst_path,'')[1:]` return value; it fails and changes the tree exactly as the corrected transfer does |
| ModelUtils.CompressedBaseAgrees | matvirdkit/model/utils.py:243-246 | for a destination with no trailing slash, the literal slice gives the base name |
| ModelUtils.CompressedBaseDropsFirst | matvirdkit/model/utils.py:243-246 | for a destination ending in `/`, the literal slice drops the first character of the name |
| ModelUtils.TransferAsWrittenAgrees | matvirdkit/model/utils.py:241-246 | for a destination with an inner `/` and no trailing slash, the code as written and the corrected transfer agree on every input |
| ModelUtils.TransferAsWrittenDropsDigestChar | matvirdkit/model/utils.py:241-246 | for a destination ending in `/`, the code as written reports the digest without its first character, which differs from the corrected name |
| ModelUtils.TransferFlagIrrelevant | matvirdkit/model/utils.py:241-246 | where the literal slice gives the base name, both readings of the return value give the same result |
| ModelUtils.Slashed | matvirdkit/model/utils.py:204-205 | the path gets a trailing slash unless it has one |
| ModelUtils.DirNameResolve | matvirdkit/model/utils.py:207 | stripping trailing slashes names the same directory |
| ModelUtils.BackupPathInjective | matvirdkit/model/utils.py:210-215 | distinct counters give distinct `.bk%06d` backup names |
| ModelUtils.FreeCounter | matvirdkit/model/utils.py:210-215 | the counter loop stops at the smallest counter whose backup name is not a directory; it terminates because the tree is finite |
| ModelUtils.CreatePath | matvirdkit/model/utils.py:202-221 | an empty path raises IndexError; the returned path ends in `/` and names a directory that exists afterwards; a missing path is created with its ancestors, keeping every node; an existing one is returned unchanged unless `backup`, in which case its contents move to the smallest free backup name and it is recreated empty |
| ModelUtils.CreatePathIdempotent | matvirdkit/model/utils.py:202-221 | calling again without backup on the returned tree changes nothing |
| ModelUtils.CreatePathBackupSucceeds | matvirdkit/model/utils.py:206-221 | with a free backup name whose parent exists, the backup branch succeeds |
| ModelUtils.CreateMissing | matvirdkit/model/utils.py:220-221 | for a path that is not a directory, `create_path` returns the slashed path, which resolves to a directory it made, with the working directory unchanged |
| ModelUtils.BackupAndCreate | matvirdkit/model/utils.py:206-219 | with `backup`, on success the old contents of an existing directory sit under its first free `.bkNNNNNN` name, the path is an empty directory again, and the slashed path is returned |
| ModelUtils.BackupsTaken | matvirdkit/model/utils.py:210-215 | the number of taken backup names is bounded by the size of the tree, so the search loop ends |
| ModelUtils.BackupLeavesRoom | matvirdkit/model/utils.py:213-217 | moving the directory to a free backup name succeeds and leaves room to recreate it |
| Strings.Pad6 | matvirdkit/model/utils.py:212 | `%06d` gives at least six characters, all digits |
| Strings.Pad6RoundTrip | matvirdkit/model/utils.py:212 | reading the digits back gives the counter |
| Strings.Pad6Injective | matvirdkit/model/utils.py:212 | different counters give different backup suffixes |
| PyValues.SanitizeJsonLike | matvirdkit/model/utils.py:127-160 | the non-strict result is JSON-like: lists, string-keyed dicts, numbers without NaN, strings, booleans and None |
| PyValues.SanitizeKeepsJsonLike | matvirdkit/model/utils.py:127-160 | JSON-like data is returned unchanged |
| PyValues.SanitizeIdempotent | matvirdkit/model/utils.py:127-160 | sanitising twice is sanitising once |
| Outputs.OutputNames | matvirdkit/builder/vasp/outputs.py:45-52 | an empty list gives the four defaults; the first `VASPRUN` becomes `vasprun.xml`; a suffix is appended with a dot to every name |
| Outputs.OutputNamesFacts | matvirdkit/builder/vasp/outputs.py:45-52 | the defaults stand without a suffix, and a list holding `VASPRUN` at most once ends up without it |
| Outputs.OutputNamesSuffixed | matvirdkit/builder/vasp/outputs.py:52 | with a non-empty suffix every name ends in `.<suffix>` |
| Outputs.NewVaspOutputs | matvirdkit/builder/vasp/outputs.py:36-58 | the settled names are kept, and the work path names the same directory as the argument |
| Outputs.Kind | matvirdkit/builder/vasp/outputs.py:66-83 | the first marker, in the order OUTCAR, CONTCAR, OSZICAR, CHGCAR, ELFCAR, PROCAR, vasprun.xml, that the name contains; no marker gives the fall-through |
| Outputs.ReadParsed | matvirdkit/builder/vasp/outputs.py:131-196 | a missing file or a parse failure gives `{}`; a non-empty result is what the parser made of the file |
| Outputs.GetContcar | matvirdkit/builder/vasp/outputs.py:116-129 | reads the file named with `CONTCAR` replaced by `POSCAR` when `relax` is off; `{}` when missing or unparseable |
| Outputs.ContcarReadsPoscar | matvirdkit/builder/vasp/outputs.py:119-121 | with relax off, `dir/CONTCAR` is read as `dir/POSCAR` when the directory's name holds no `CONTCAR` |
| Outputs.ContcarReplacesDirectory | matvirdkit/builder/vasp/outputs.py:121 | the replacement rewrites the directory part too |
| Outputs.GetVasprun | matvirdkit/builder/vasp/outputs.py:198-213 | `{}` for a missing file, a parse error, or an unconverged run unless failures are allowed; otherwise the parsed dict |
| Outputs.GetProcar | matvirdkit/builder/vasp/outputs.py:142-160 | `{}` when missing or unparseable, otherwise an AttributeError from the missing `knpoints` |
| Outputs.VasprunOption | matvirdkit/builder/vasp/outputs.py:199 | `parse_potcar_file` defaults to True and any other keyword is a TypeError |
| Outputs.Parse | matvirdkit/builder/vasp/outputs.py:62-89 | only the PROCAR and vasprun branches can raise; a name no marker matches gives `{}` |
| Outputs.StoreRaw | matvirdkit/builder/vasp/outputs.py:92 | the stored raw file is reported as `<sha1(bytes)>-<name>.gz` |
| Outputs.StoreRawInTaskDir | matvirdkit/builder/task.py:20-26 | for the `tasks/<task_id>` destination the task builder uses, the raw name `transfer_file` computes is the one the model reports |
| Outputs.ParseOne | matvirdkit/builder/vasp/outputs.py:62-108 | each pass records a `JFData` with exactly the model's fields |
| Outputs.ParseOneSteps | matvirdkit/builder/vasp/outputs.py:90-106 | the record holds the reported raw name and the sidecar name |
| Outputs.ParseOneTree | matvirdkit/builder/vasp/outputs.py:90-103 | the tree afterwards is the raw store's, plus the sidecar when something was parsed |
| Outputs.ParseOneRawName | matvirdkit/builder/vasp/outputs.py:90-95 | the raw name is empty exactly when raw files are not wanted or nothing was parsed, and is otherwise the content name with `.gz` |
| Outputs.ParseOneSidecarName | matvirdkit/builder/vasp/outputs.py:98-106 | the sidecar name is empty exactly when nothing was parsed, and is otherwise `<sha1(str(data))>-<name>.json` |
| Outputs.ParseOneSidecar | matvirdkit/builder/vasp/outputs.py:98-101 | the sidecar file holds the dumped parsed dict |
| Outputs.ParseOneFrame | matvirdkit/builder/vasp/outputs.py:90-103 | one pass changes nothing outside the destination directory and keeps the tree well formed |
| Outputs.ParseAll | matvirdkit/builder/vasp/outputs.py:61-108 | the loop adds one key per output name, in order, and every value is a `JFData` record |
| Outputs.ParseAllFrame | matvirdkit/builder/vasp/outputs.py:61-108 | the whole loop changes nothing outside the destination directory |
| Outputs.Rekey | matvirdkit/builder/vasp/outputs.py:109-113 | `vasprun.xml` is popped and its record re-added as `VASPRUN`; every other key reads as before |
| Outputs.ParseOutput | matvirdkit/builder/vasp/outputs.py:60-113 | the result has a record for every requested output, with `vasprun.xml` keyed as `VASPRUN`, and no other key |
| Outputs.ParseOutputRecords | matvirdkit/builder/vasp/outputs.py:105-113 | every value returned is a `JFData` record |
| Outputs.RekeyRecords | matvirdkit/builder/vasp/outputs.py:109-113 | re-keying keeps every value a record |
| Outputs.OutputDataFromDirectory | matvirdkit/model/vasp/task.py:67-101 | the result has the seven `OutputData` fields in declaration order, each a `JFData` record |
| Outputs.OutputDataFrame | matvirdkit/model/vasp/task.py:76-101 | parsing the outputs changes nothing outside the destination directory |
| Outputs.OutputDataDefaultFields | matvirdkit/model/vasp/task.py:80-101 | with the default fields, VASPRUN, OSZICAR, OUTCAR and CONTCAR hold the parsed records and PROCAR, ELFCAR and LOCPOT stay empty |
| Outputs.DefaultNames | matvirdkit/model/vasp/task.py:80-95 | the default fields reach the parser as `vasprun.xml`, OSZICAR, OUTCAR and CONTCAR |
| Outputs.OutputDataRecords | matvirdkit/model/vasp/task.py:67-101 | built from records, every field is a record |
| Outputs.OutputDataFromParsed | matvirdkit/model/vasp/task.py:67-101 | with the four default outputs parsed and no PROCAR, ELFCAR or LOCPOT, the record holds the four parsed entries and empty `JFData()` for the other three |
| Ingest.Stored | matvirdkit/builder/task.py:30 | the stored record's `task_id` is the id, and every other key reads as in the sanitised record |
| Ingest.Prepared | matvirdkit/builder/task.py:14-23 | a missing root raises; otherwise the working directory is the root, `tasks/<uuid>` is a directory, every existing node is kept, and the only new nodes are the staging directory and its ancestors |
| Ingest.Stage | matvirdkit/builder/task.py:14-26 | a `dst_dir` keyword clashes with the one passed; parsing leaves the staging directory a directory, keeps every other existing node, and adds nodes only at or below it or as its ancestors |
| Ingest.Store | matvirdkit/builder/task.py:35-41 | the staging directory moves to `tasks/<id>` with its contents, `task.json` holds the record, `tag.json` holds the info, the staging name is gone, and nothing else changes |
| Ingest.Promote | matvirdkit/builder/task.py:27-41 | no `input` key raises KeyError; the id is `sha1encode` of the input; an existing entry is left alone and only the staging tree is deleted; a new entry gets `task.json` with the id and the tag with `{path, encode}`; the staging name is gone either way |
| Ingest.Finish | matvirdkit/builder/task.py:27-45 | a parse or promote failure leaves the working directory in the root; success restores it and returns the digest of the input |
| Ingest.ParsingTask | matvirdkit/builder/task.py:11-45 | on return the working directory is restored, the id is the digest of the parsed record's input, `tasks/<id>` is a directory and the staging name is gone; an exception after the first `chdir` leaves the working directory in the root |
| Ingest.ReingestKeepsTree | matvirdkit/builder/task.py:28-37 | ingesting a record whose entry already exists returns exactly the tree it started from, so a second ingestion of the same input leaves one entry |
| Ingest.FinishKeepsTree | matvirdkit/builder/task.py:28-34 | finishing a staged parse whose id names an existing entry gives back the tree from before staging |
| Ingest.ExistingEntryKept | matvirdkit/builder/task.py:31-34 | deleting a staging directory that was added to the tree restores the tree before it |
| FileSystem.Chdir | matvirdkit/builder/task.py:14-17 | changing directory succeeds exactly when the target is a directory; it moves the working directory there and changes no file |
| FileSystem.MakeDirs | matvirdkit/model/utils.py:221 | `os.makedirs` fails when the path exists or a file sits on the way; otherwise the path becomes a directory, only directories on the way to it are added, and nothing that existed changes |
| FileSystem.RemoveTree | matvirdkit/builder/task.py:32-34 | `rmtree` succeeds exactly on a directory other than the root; everything at or below it is gone and everything elsewhere is as before |
| FileSystem.WriteFile | matvirdkit/builder/task.py:40 | writing succeeds exactly when the parent is a directory and the path is not one; the file then holds the data and no other path changes |
| FileSystem.CopyFile | matvirdkit/model/utils.py:237-240 | copying a file onto itself raises `SameFileError`; otherwise it succeeds exactly when the source is a file and the destination's parent is a directory, and only the destination changes, to the source's contents |
| FileSystem.RemoveFile | matvirdkit/model/utils.py:241-242 | removing succeeds exactly on a file, deletes it and changes nothing else |
| FileSystem.Move | matvirdkit/builder/task.py:36-37 | moving a directory to a fresh name under an existing directory succeeds; every path below the source reappears below the target with the same contents, nothing else appears, nothing outside the two subtrees changes, and the source is gone |
| FileSystem.MoveEmptiesSource | matvirdkit/builder/task.py:37 | after a move nothing remains at or below the source |
| Strings.Basename | matvirdkit/builder/readstructure.py:16 | the base name contains no `/` and is a suffix of the path |
| Sorting.SortedSet | matvirdkit/model/structure.py:176 | `sorted(set(xs))` is strictly increasing and holds exactly the elements of `xs` |
| VaspTask.Labels | matvirdkit/model/vasp/task.py:303 | the labels are the second whitespace-separated word of each POTCAR symbol, and a symbol with fewer than two words raises `IndexError` |
| VaspTask.PseudoPotentialsOf | matvirdkit/model/vasp/task.py:300-304 | the pseudo-potential summary exists exactly when there is a first symbol whose first word contains `_` and every symbol has two words; the pot type and functional are the first two `_`-free pieces of the first word, which is `<type>_<functional>` or continues with another `_`; label `i` is the second word of symbol `i` |
| VaspTask.TitlesParse | matvirdkit/model/vasp/task.py:300-304 | symbols built from words, whose first word is `<type>_<functional>`, parse back to that type, that functional and each symbol's second word |
| VaspTask.IronTitle | matvirdkit/model/vasp/task.py:300-304 | `PAW_PBE Fe 06Sep2000` gives functional `PBE`, type `PAW` and label `Fe` |
| VaspTask.EmptyRunStatistics | matvirdkit/model/vasp/task.py:324 | `RunStatistics()` has the seven statistics fields, all None |
| VaspTask.Renamed | matvirdkit/model/vasp/task.py:145-153 | renaming succeeds exactly when every OUTCAR label is present; each new key then holds the value under its label, and a missing label raises `KeyError` naming it |
| VaspTask.FromVaspoutDict | matvirdkit/model/vasp/task.py:144-154 | the statistics record is built exactly when the argument is a dict holding all seven OUTCAR labels, and then has the record's fields |
| VaspTask.RunStatisticsRenames | matvirdkit/model/vasp/task.py:147-153 | each statistics field reads the value of its own OUTCAR label |
| VaspTask.RunStats | matvirdkit/model/vasp/task.py:321-324 | without an OUTCAR or without complete statistics the record is the empty one; otherwise each field carries its OUTCAR value |
| VaspTask.InputDataRecord | matvirdkit/model/vasp/task.py:56-65 | the original-inputs record has the four fields INCAR, POSCAR, POTCAR and KPOINTS, in that order |
| VaspTask.OutputSummary | matvirdkit/model/vasp/task.py:312-319 | the output summary fails with `ZeroDivisionError` for a final structure without sites and with `IndexError` when there are no ionic steps, and exists otherwise |
| VaspTask.Assemble | matvirdkit/model/vasp/task.py:332-344 | after the two `update`s each key reads the keyword argument if given, else the structure metadata, else the computed value |
| VaspTask.TaskDocument | matvirdkit/model/vasp/task.py:346 | the document has exactly the schema's fields, and every field the assembled dict supplies is taken from it |
| VaspTask.Computed | matvirdkit/model/vasp/task.py:332-342 | the computed dict has the nine keys of the literal, in order |
| VaspTask.ComputedGets | matvirdkit/model/vasp/task.py:332-342 | the state is the run's status, the task id is the staging id, and `run_stats` is `{'standard': statistics}` |
| VaspTask.DocumentPrecedence | matvirdkit/model/vasp/task.py:332-344 | in the document, keyword arguments override everything, metadata overrides computed values, and every computed key is present |
| VaspTask.Document | matvirdkit/model/vasp/task.py:332-346 | the same precedence, stated of the constructed document |
| VaspTask.FromRun | matvirdkit/model/vasp/task.py:295-346 | given a parsed run, the document is built exactly when the POTCAR symbols parse, the final structure has sites, there is an ionic step, the inputs parse, the initial structure has sites and the outputs were stored; the tree is the one the outputs step left |
| VaspTask.FromRunFields | matvirdkit/model/vasp/task.py:296-299 | the document's state is successful exactly when the run converged, its task id is the staging id, its statistics come from the OUTCAR or are empty without one, and keyword arguments win |
| VaspTask.StatusOf | matvirdkit/model/vasp/task.py:296-299 | the status is success exactly when the run converged, and failed otherwise |
| VaspTask.FromDirectory | matvirdkit/model/vasp/task.py:257-294 | an unreadable `vasprun.xml` raises `Bad vasprun.xml`; an unreadable existing CONTCAR raises `Bad CONTCAR`; otherwise the run is turned into a document with the OUTCAR, inputs and stored outputs |
| VaspTask.FromDirectoryFrame | matvirdkit/model/vasp/task.py:327 | building a task document changes nothing outside the destination directory, keeps the working directory, and keeps the tree well formed |
| VaspTask.TaskTypeOf | matvirdkit/model/vasp/task.py:206-213 | the task type is one of the eleven names; it fails exactly on a non-numeric ICHARG, an unknown k-point label count above ICHARG 10, or a non-numeric IBRION otherwise; a labelless non-empty KPOINTS with ICHARG above 10 is `NSCF Uniform` |
| VaspTask.TaskTypeIgnoresPoscarPotcar | matvirdkit/model/vasp/task.py:206-213 | the task type depends on the original inputs only through KPOINTS |
| VaspTask.CalcTypeOf | matvirdkit/model/vasp/task.py:215-222 | the calc type exists exactly when both the run type and the task type do, and is the run type, a space and the task type |
| CalcTypes.FirstMatching | matvirdkit/model/vasp/calc_types/utils.py:45-53 | the chosen candidate matches every one of its parameters and no earlier candidate matches; None means no candidate matches |
| CalcTypes.ScanClasses | matvirdkit/model/vasp/calc_types/utils.py:45-53 | with every class present the scan returns the first matching special name in class order; a missing class raises `KeyError` naming it |
| CalcTypes.WinnerAppend | matvirdkit/model/vasp/calc_types/utils.py:45-53 | the first match in a concatenation is the first match in the front part if there is one, else in the back part |
| CalcTypes.Hubbard | matvirdkit/model/vasp/calc_types/utils.py:30-33 | the suffix is `+U` exactly when LDAU is truthy, and empty otherwise |
| CalcTypes.RunType | matvirdkit/model/vasp/calc_types/utils.py:21-55 | the run type is the first matching special name across HF, VDW, METAGGA and GGA, or `LDA`, followed by the Hubbard suffix; a missing class raises `KeyError` |
| CalcTypes.MissingParameterIsNone | matvirdkit/model/vasp/calc_types/utils.py:49 | a parameter absent from the INCAR matches only a required value of None |
| CalcTypes.VariantEqualSymmetric | matvirdkit/model/vasp/calc_types/utils.py:35-42 | `_variant_equal` gives the same answer with its arguments swapped |
| CalcTypes.VariantEqualIgnoresCaseAndSpace | matvirdkit/model/vasp/calc_types/utils.py:35-42 | strings are compared after stripping and upper-casing, so ` pe\n` matches `PE` and `PE` does not match `PS` |
| CalcTypes.CountNotNone | matvirdkit/model/vasp/calc_types/utils.py:73-80 | the count is at most the length and is zero exactly when every label is None |
| CalcTypes.KptLabelCount | matvirdkit/model/vasp/calc_types/utils.py:73-80 | a failure to count the k-point labels raises the fixed exception message |
| CalcTypes.TaskType | matvirdkit/model/vasp/calc_types/utils.py:58-113 | the result is one of the eleven task names; it fails exactly when the INCAR is not a dict, ICHARG is not a number, the labels cannot be counted above ICHARG 10, or IBRION is not a number otherwise |
| CalcTypes.AbsentIsifNeverRelaxes | matvirdkit/model/vasp/calc_types/utils.py:104-108 | without ISIF the task is never a structure optimisation or a deformation |
| CalcTypes.AbsentNswNeverStatic | matvirdkit/model/vasp/calc_types/utils.py:101-102 | without NSW the task is never static |
| CalcTypes.NscfLineIff | matvirdkit/model/vasp/calc_types/utils.py:72-85 | NSCF Line holds exactly when ICHARG exceeds 10 and some k-point label is set; NSCF Uniform exactly when ICHARG exceeds 10 and none is |
| CalcTypes.DielectricIff | matvirdkit/model/vasp/calc_types/utils.py:87-90 | below ICHARG 10 the task is dielectric exactly when LEPSILON is truthy, and DFPT dielectric exactly when moreover IBRION exceeds 6 |
| CalcTypes.CalcType | matvirdkit/model/vasp/calc_types/utils.py:116-129 | the calc type exists exactly when run type and task type do, starts with the run type and a space, and ends with the task type |
| CalcTypes.CalcTypeSplits | matvirdkit/model/vasp/calc_types/utils.py:127-129 | for a run type without spaces, splitting the calc type at its first space gives back the run type and the task type |
| Material.RankLessStrictOrder | matvirdkit/model/vasp/material.py:102-109 | comparing the sort keys is irreflexive and transitive, and any two different keys compare one way |
| Material.RankOfPriorities | matvirdkit/model/vasp/material.py:91-107 | a higher quality score ranks first; on equal scores spin polarization, then `LASPH`, then the lower energy per atom decides |
| Material.BestIndex | matvirdkit/model/vasp/material.py:109 | the chosen calculation ranks no worse than any other under the (quality, spin, LASPH, energy) key, and strictly better than every earlier one, as a stable sort's head does |
| Material.ValidOfType | matvirdkit/model/vasp/material.py:76-83 | the selection holds exactly the valid tasks of the given type |
| Material.StructureCalcs | matvirdkit/model/vasp/material.py:76-89 | the structure calculations are exactly the valid structure optimisations, plus the valid statics when statics are used |
| Material.OfRunType | matvirdkit/model/vasp/material.py:139-140 | the relevant calculations are exactly the valid ones of the run type, and there is one exactly when such a calculation exists |
| Material.MinId | matvirdkit/model/vasp/material.py:63 | the minimum is one of the ids and no id is lexicographically smaller |
| Material.MaterialIdOf | matvirdkit/model/vasp/material.py:62-63 | the material id is the lexicographically smallest task id |
| Material.Extremum | matvirdkit/model/vasp/material.py:67-68 | the `min`/`max` loop raises exactly when it has at least one item to compare and `None` is among the compared items, with the `TypeError` for the unordered pair; otherwise its result is one of the items and none is preferred to it |
| Material.PyMin | matvirdkit/model/vasp/material.py:68 | `min` raises `TypeError` exactly when there are two or more items and one is `None`; otherwise it returns one of the items, no later than any set time stamp (a lone `None` comes back as it is) |
| Material.PyMax | matvirdkit/model/vasp/material.py:67 | `max` raises `TypeError` exactly when there are two or more items and one is `None`; otherwise it returns one of the items, no earlier than any set time stamp |
| Material.LastUpdatedOf | matvirdkit/model/vasp/material.py:67 | `last_updated` fails with `TypeError` exactly for two or more tasks of which one has no `last_updated`; otherwise it is some task's stamp and no set stamp is later |
| Material.CreatedAtOf | matvirdkit/model/vasp/material.py:68 | `created_at` fails with `TypeError` exactly for two or more tasks of which one has no `completed_at`; otherwise it is some task's stamp and no set stamp is earlier |
| Material.StampsCover | matvirdkit/model/vasp/material.py:67-68 | the generator over the group holds each task's stamp and nothing else |
| Material.TaskIdSet | matvirdkit/model/vasp/material.py:69 | the task ids are exactly the ids of the group |
| Material.DeprecatedSet | matvirdkit/model/vasp/material.py:71 | the deprecated ids are exactly those of invalid tasks |
| Material.EntryFor | matvirdkit/model/vasp/material.py:139-149 | the entry for a run type carries the material id, records its task id, and comes from a best-ranked valid calculation of that run type |
| Material.Entries | matvirdkit/model/vasp/material.py:136-149 | a run type has an entry exactly when some valid calculation of it exists, and each entry is as above |
| Material.FromTasks | matvirdkit/model/vasp/material.py:44-165 | `from_tasks` never returns a document. An empty group raises. In a group of two or more, a missing `last_updated` raises `max`'s `TypeError`, and otherwise a missing `completed_at` raises `min`'s. A group whose stamps can be ordered but which has no structure calculation raises `IndexError`. Any other group reaches the final `from_structure` call, which raises `TypeError` for the missing `dimension` |
| Material.FromTasksMissesDimension | matvirdkit/model/vasp/material.py:151-165 | a group of one valid structure optimisation, with `completed_at` unset as `from_directory` leaves it, has every field computed, yet `from_tasks` raises `TypeError` |
| Material.FromTasksCreatedAtError | matvirdkit/model/vasp/material.py:67-68 | when `max` over `last_updated` succeeds and `min` over `completed_at` fails, `from_tasks` raises exactly `min`'s error |
| Material.TwoDirectoryTasksUnordered | matvirdkit/model/vasp/material.py:68 | two tasks with `last_updated` set and `completed_at` unset make `from_tasks` raise the `TypeError` for `None < None` |
| Material.FromTasksArgs | matvirdkit/model/vasp/material.py:44-149 | the fields `from_tasks` computes for `from_structure`. The error cases are the same as `FromTasks` up to the final call, and a document is built exactly when the stamps can be ordered and a structure calculation exists. Its material id, time stamps, id sets, best structure, origin and entries satisfy the properties above |
| Material.ByIdGet | matvirdkit/model/vasp/material.py:72-74 | with distinct task ids, the id-keyed dict maps each task's id to that task's value |
| Material.RunTypesComplete | matvirdkit/model/vasp/material.py:137 | with distinct task ids, every task's run type is among the run types iterated over |
| Material.NeverDeprecated | matvirdkit/model/vasp/material.py:124 | with distinct task ids, a material that is built is never deprecated, because the structure calculations are all valid |
| Material.SomeCalcNotDeprecated | matvirdkit/model/vasp/material.py:124 | a non-empty selection of valid tasks with distinct ids is not all deprecated |
| Material.SharedIdDeprecates | matvirdkit/model/vasp/material.py:124 | a valid and an invalid task sharing an id make the material deprecated, since deprecation is checked by id |
| Material.FromTasksDeprecated | matvirdkit/model/vasp/material.py:124 | `deprecated` holds exactly when every structure calculation's id is deprecated |
| Material.EntriesPerRunType | matvirdkit/model/vasp/material.py:137-149 | with distinct task ids, a run type has an entry exactly when some structure calculation has that run type |
| Stability.ThermoLabel | matvirdkit/model/stability.py:39-44 | the label is low exactly when the formation energy exceeds 0.2, middle exactly when it lies strictly between `0.2 + e_abh` and 0.2, and high otherwise |
| Stability.MiddleNeedsNegativeAbh | matvirdkit/model/stability.py:41-42 | middle is only reachable with a negative energy above hull; with a non-negative one, high holds exactly up to 0.2 |
| Stability.ThresholdIsHigh | matvirdkit/model/stability.py:39-44 | a formation energy of exactly 0.2 is high |
| Stability.ThermoLowUpward | matvirdkit/model/stability.py:39-40 | raising the formation energy keeps a low label low |
| Stability.PhononLabel | matvirdkit/model/stability.py:71-74 | the phonon label is never middle and is low exactly when the maximal hessian is at most -0.01 |
| Stability.StiffnessLabel | matvirdkit/model/stability.py:101-104 | the stiffness label is never middle and is low exactly when the minimal eigenvalue is at most 0 |
| Stability.FromLabel | matvirdkit/model/stability.py:45-48 | the record is built unless `value` is both wanted and passed as a keyword; its value is the label when wanted, and description and link come from the keywords or the defaults |
| Stability.BuildLabelFacts | matvirdkit/model/stability.py:45-48 | the same, stated of the generic construction |
| Stability.LabelArgs | matvirdkit/model/stability.py:45-48 | the merged keyword arguments clash exactly on a wanted `value` passed again |
| Stability.LabelConstruct | matvirdkit/model/stability.py:45-48 | every stability field has a default, so construction never fails for missing fields |
| Stability.ThermoFromDict | matvirdkit/model/stability.py:22-48 | the thermodynamic record has three fields, and its wanted value is low or middle exactly under the thresholds above |
| Stability.PhononFromDict | matvirdkit/model/stability.py:55-78 | the phonon record's wanted value is low exactly at a maximal hessian of at most -0.01 |
| Stability.StiffnessFromDict | matvirdkit/model/stability.py:85-108 | the stiffness record's wanted value is low exactly at a minimal eigenvalue of at most 0 |
| Mechanics.MapResult | matvirdkit/model/mechanics.py:54-64 | mapping `Result.json` succeeds exactly when all nine keys are present, and otherwise raises `KeyError` for a missing one |
| Mechanics.MappedKeys | matvirdkit/model/mechanics.py:54-64 | the mapped dict has the nine model field names, each once |
| Mechanics.FieldsDistinct | matvirdkit/model/mechanics.py:38-49 | the wanted field names are distinct |
| Mechanics.NoMappedKeyDropped | matvirdkit/model/mechanics.py:38-49 | filtering by the wanted fields keeps every mapped key |
| Mechanics.ArgsLookup | matvirdkit/model/mechanics.py:66 | in the merged arguments each mapped key reads its mapped value, and `link` and `description` come from the keywords |
| Mechanics.BuildMapped | matvirdkit/model/mechanics.py:66 | construction succeeds exactly when no keyword repeats a mapped field, and then yields the header followed by the mapped fields in schema order |
| Mechanics.YesOrNo | matvirdkit/model/mechanics.py:63 | the enum member's value is `YES` exactly when the flag holds and `NO` exactly when it does not |
| Mechanics.SuppliedMapped | matvirdkit/model/mechanics.py:15-31 | every required field of `Mechanics2D` is supplied by the mapped data |
| Mechanics.ConstructedMapped | matvirdkit/model/mechanics.py:66 | the constructed record is the header followed by the mapped fields |
| Mechanics.RecordCells | matvirdkit/model/mechanics.py:54-66 | the record's cells in order, with `Y10` and `Y01` and with `V10` and `V01` trading places as the schema orders them |
| Mechanics.LookedValues | matvirdkit/model/mechanics.py:54-64 | the looked-up values are those of the nine `Result.json` keys, None when absent |
| Mechanics.FromFile | matvirdkit/model/mechanics.py:33-66 | a missing file raises `RuntimeError`; otherwise the record is built exactly when all keys are present and no keyword repeats a mapped field |
| Mechanics.FromFileFields | matvirdkit/model/mechanics.py:54-66 | `V10` holds the file's `V01` and `V01` its `V10`; `stability` is YES exactly when the file says `Stable`; the other fields copy their keys |
| Structure.Elements | matvirdkit/model/structure.py:176 | the element list is strictly sorted and holds exactly the composition's symbols |
| Structure.ElementsUnique | matvirdkit/model/structure.py:176 | any strictly sorted list of exactly those symbols is the element list |
| Structure.CompositionData | matvirdkit/model/structure.py:178-186 | the composition data has the seven composition keys in order |
| Structure.FromComposition | matvirdkit/model/structure.py:155-188 | the metadata is built exactly when no keyword repeats a wanted composition field, and has the metadata schema's fields |
| Structure.CompositionMetadata | matvirdkit/model/structure.py:176-188 | wanted `elements`, `nelements`, `chemsys` and `composition_reduced` hold the sorted elements, their number, their `-`-join and the composition |
| Structure.StructureData | matvirdkit/model/structure.py:222-236 | the structure data fails with `ZeroDivisionError` exactly for a structure without sites, and otherwise has the twelve structure keys |
| Structure.FromStructure | matvirdkit/model/structure.py:191-240 | a structure without sites raises `ZeroDivisionError`; with sites and no keywords the metadata is built, with the schema's fields |
| Structure.StructureMetadataValues | matvirdkit/model/structure.py:219-236 | every wanted field among `nsites`, `elements`, `nelements`, `chemsys`, `composition_reduced` and `density_atomic` holds the site count, the sorted distinct element symbols, their count, the symbols joined by `-`, `to_reduced_dict` and the volume per site |
| Structure.UnwantedFieldsDropped | matvirdkit/model/structure.py:188 | a field neither wanted nor passed as a keyword is None |
| Structure.IncludeStructureIgnored | matvirdkit/model/structure.py:237-240 | `include_structure` changes nothing, because `structure` is not a metadata field |
| Structure.ChosenDimension | matvirdkit/model/structure.py:275-278 | a truthy dimension argument is kept, and otherwise the structure's own dimensionality is used |
| Structure.MatvirdFromStructure | matvirdkit/model/structure.py:258-286 | a structure without sites raises `ZeroDivisionError`; with sites, default fields and no keywords the record is built and holds the chosen dimension, `structure.as_dict()` and the metadata `from_structure` makes with default arguments |
| Structure.MatvirdNeedsStructure | matvirdkit/model/structure.py:255-286 | leaving `structure` or `metadata` out of the wanted fields and keywords makes construction fail |
| Structure.MatvirdBuildNeeds | matvirdkit/model/structure.py:282-286 | the same, stated of the construction step |
| Xrd.FirstClose | matvirdkit/model/xrd.py:51-55 | the chosen source is the first whose wavelength is close, all earlier ones comparing not close; no choice means no close source is reached |
| Xrd.TargetAndEdge | matvirdkit/model/xrd.py:44-61 | values with a target or an edge pass unchanged; otherwise a change means the wavelength matched a source, whose name is split into a two-letter target and the rest as edge; other keys never change |
| Xrd.SetSource | matvirdkit/model/xrd.py:56-57 | setting a source writes its first two letters as target and the rest as edge, and nothing else |
| Xrd.TargetAndEdgeRecovers | matvirdkit/model/xrd.py:50-57 | a wavelength matching the source `<target><edge>` of a two-letter target gives back that target and edge |
| Xrd.FromTarget | matvirdkit/model/xrd.py:100-127 | an unknown source raises `ValueError`; the record is built exactly for a known source when no keyword repeats an explicit argument, with id `<material>-<target><edge>`, the table's wavelength, the pattern, and each keyword kept |
| Xrd.XrdKeywords | matvirdkit/model/xrd.py:117-127 | the call's keywords clash exactly when `spectrum` is passed again, raising `TypeError`; otherwise each field reads its argument |
| Xrd.SourceNameSplits | matvirdkit/model/xrd.py:56-57 | the source `MoKa1` splits back into target `Mo` and edge `Ka1` |
| Common.EmptyJFData | matvirdkit/model/common.py:11-20 | `JFData()` has the eight declared fields |
| Common.StoredJFData | matvirdkit/builder/vasp/outputs.py:105-106 | the stored-output record has the eight fields, its file name is the stored raw name and its JSON file name is the sidecar's base name |
| Common.DigitRun | matvirdkit/model/common.py:74 | the digit run is the longest prefix of ASCII digits |
| Common.DoiMatches | matvirdkit/model/common.py:74 | an accepted DOI is at least nine characters long and starts with `10.` |
| Common.DoiMatchesShape | matvirdkit/model/common.py:74 | the DOI test accepts exactly `10.`, four to nine digits, `/`, one or more allowed characters, and at most one final newline |
| Common.DoiPartsMatch | matvirdkit/model/common.py:74 | every string of that shape is accepted |
| Common.MakeDoi | matvirdkit/model/common.py:73-74 | a DOI record is built exactly for an accepted string, and holds it unchanged; otherwise validation fails |
| Common.DoiAccepts | matvirdkit/model/common.py:74 | `10.1234/ab` is accepted |
| Common.DoiAcceptsFinalNewline | matvirdkit/model/common.py:74 | `$` also matches before a final newline, so `10.1234/ab` followed by a newline is accepted |
| Common.DoiRejectsPrefix | matvirdkit/model/common.py:74 | the pattern is anchored at the start |
| Common.DoiRejectsTrailingSpace | matvirdkit/model/common.py:74 | a trailing space is refused |
| Common.DoiRejectsShortPrefix | matvirdkit/model/common.py:74 | three registrant digits are too few |
| Authors.NameKeys | matvirdkit/model/properties.py:91 | one lower-cased name per author |
| Authors.Keyed | matvirdkit/model/properties.py:91 | keying fails with `AttributeError` exactly when an author has no name, and otherwise pairs each author with its lower-cased name |
| Authors.RemoveDuplicateAuthors | matvirdkit/model/properties.py:89-92 | de-duplication fails exactly when a name is missing; otherwise the keys are distinct, are exactly the lower-cased names, come in order of first appearance, and each maps to the last author with that name |
| Authors.Kept | matvirdkit/model/properties.py:92 | the kept authors are the values of the pairs, in order |
| Authors.DeduplicatedStaysDeduplicated | matvirdkit/model/properties.py:89-92 | de-duplicating the kept authors again gives the same result |
| Authors.CaseInsensitiveLastWins | matvirdkit/model/properties.py:91 | `Ann` then `ann` keeps one entry, the later author |
| BuilderBase.StrField | matvirdkit/model/properties.py:27-29 | a `str` field accepts strings unchanged and renders numbers and booleans; anything else raises `str type expected` |
| BuilderBase.OptionalStrField | matvirdkit/model/properties.py:35 | the optional `link` also accepts None |
| BuilderBase.MakeOrigin | matvirdkit/model/properties.py:22-35 | an origin is built exactly when name, task id and link validate, with the clock's time stamp |
| BuilderBase.SetOrigins | matvirdkit/builder/base.py:120-124 | the new origin is appended to the key's list, or starts it; other keys, properties and customer data stay; an invalid argument raises before anything changes |
| BuilderBase.GetOrigins | matvirdkit/builder/base.py:125-132 | a falsy key gives the whole map; an unknown key gives an empty list; a known key gives exactly the list recorded under it |
| BuilderBase.SetThenGet | matvirdkit/builder/base.py:120-132 | reading a key after recording under it gives the earlier origins and then the new one |
| BuilderBase.SetOriginsElsewhere | matvirdkit/builder/base.py:120-132 | recording under one key does not change what another key reads |
| BuilderBase.SetOriginsDefaultsAsWritten | matvirdkit/builder/base.py:120 | relying on the `link=[]` default always raises `str type expected` |
| BuilderBase.SetOriginsDefaults | matvirdkit/builder/base.py:120-124 | with the default `link=None`, a valid task id is recorded with an empty name and no link |
| BuilderBase.UpdateProperties | matvirdkit/builder/base.py:84-95 | a dict is merged with its keys overwriting, in dict-update order; `DOS` and `Band` raise for the missing accumulators; other strings change nothing; anything else raises `RuntimeError`; origins and customer data stay |
| BuilderBase.UpdatePropertiesIdempotent | matvirdkit/builder/base.py:92-93 | merging the same dict twice gives the same keys and values as merging it once |
| BuilderBase.InsertCustomerData | matvirdkit/builder/base.py:381-383 | exactly one label is set, appended if new; the other labels, origins and properties stay |
| BuilderBase.InsertCustomerOverwrites | matvirdkit/builder/base.py:381-383 | a second insertion under the same label is the same as inserting only the second value |
| ReadStructure.ReaderFor | matvirdkit/builder/readstructure.py:19-34 | pymatgen reads exactly names ending in `json` or `cif` or containing `poscar` or `contcar`, ignoring case; the abinit branch takes the remaining names containing `abinit`; ASE takes the rest |
| ReadStructure.StructureFromFile | matvirdkit/builder/readstructure.py:8-37 | a missing file raises `Could not open file`; the abinit branch raises `NameError`; an ASE `ValueError` becomes `Could not convert file as POSCAR` and other outcomes pass through |
| ReadStructure.SuffixNeedsNoDot | matvirdkit/builder/readstructure.py:19 | `xjson` is read as JSON |
| ReadStructure.SuffixIgnoresCase | matvirdkit/builder/readstructure.py:21 | `a.CIF` is read as CIF |
| ReadStructure.DirectoryNameIgnored | matvirdkit/builder/readstructure.py:16 | only the base name is tested |
| ReadStructure.PoscarBeforeAbinit | matvirdkit/builder/readstructure.py:23-28 | a name containing both `poscar` and `abinit` goes to pymatgen |
| Db.Credentials | matvirdkit/creator/db.py:41-45 | the credentials are the user, then `:password` if a password is given, then `@` |
| Db.Uri | matvirdkit/creator/db.py:40-48 | the URI is `mongodb://host:port` without a user and `mongodb://<credentials>host:port/name` with one; a non-string host, user or name raises `TypeError` |
| Db.CredentialsOnlyWithUser | matvirdkit/creator/db.py:40-48 | for `@`-free host, port and name, the URI contains `@` exactly when a user is given |
| Db.SetDefault | matvirdkit/creator/db.py:163-170 | a missing key gets the default, a present one keeps its value, and other keys are untouched |
| Db.FillDefaults | matvirdkit/creator/db.py:163-170 | host, port, ssl and replicaset default to `localhost`, 27017, False and None; nothing else changes |
| Db.GetDatabase | matvirdkit/creator/db.py:156-188 | a missing name raises `KeyError`; a user without a password raises `KeyError`; a connection is made exactly otherwise when the URI builds; admin credentials select database creation |
| Db.Connect | matvirdkit/creator/db.py:16-48 | connecting succeeds exactly when the URI builds, and keeps name, ssl and replica set |
| Db.NoUserNoCredentials | matvirdkit/creator/db.py:163-173 | without a user the connection is direct, to `mongodb://<host>:<port>` with the defaults filled in |
| Models.Filter | matvirdkit/model/structure.py:188 | the comprehension keeps exactly the wanted keys, with their values |
| Models.Kwargs | matvirdkit/model/structure.py:188 | two `**` expansions clash exactly on a shared key; otherwise each key reads from whichever side has it |
| Models.Construct | matvirdkit/model/structure.py:188 | construction succeeds exactly when every required field is supplied; the fields come in schema order, each from the arguments or its default |
| Models.Build | matvirdkit/model/structure.py:188 | `cls(**filtered, **kwargs)` succeeds exactly when the expansions are disjoint and every required field is supplied |
| Models.BuildField | matvirdkit/model/structure.py:188 | each field reads the wanted data value, else the keyword, else the default |
| Models.BuildExtraKeyword | matvirdkit/model/structure.py:188 | an extra keyword that is not a field changes nothing |
| Models.BuildGetNamed | matvirdkit/model/structure.py:188 | a wanted field present in the data holds the data's value |
| Models.BuildMissingRequired | matvirdkit/model/structure.py:188 | a required field neither wanted nor passed makes construction fail |

## Left out

- Real file-system behaviour is not modelled: atomicity of `shutil.move`, permissions, symbolic links, and concurrent ingestion. The tree is a map and every operation returns the next one.
- SHA-1, `dumpfn`/`loadfn` serialisation, the gzip codec that turns a file's bytes into packed bytes, `uuid4` and the clock are function parameters, because their internals are not what the core decides. The file step of `compress_file` is modelled (`ModelUtils.CompressFile`).
- ModelUtils.CompressFile: always writes `<name>.<compression>` and removes `<name>`, for any compression string. monty's `compress_file`, which is not part of this model, differs in two ways. It leaves a file alone when its name already ends in `.<compression>`, so a raw output named `vasprun.xml.gz` becomes `<digest>-vasprun.xml.gz.gz` here but stays uncompressed there. It also raises `ValueError` for compressions other than `gz` and `bz2`.
- pymatgen, ASE and spglib are parameters whose results are opaque inputs: `Vasprun`, `Outcar`, `Poscar`, `VaspInput`, `SpacegroupAnalyzer`, `StructureMatcher`, `XRDCalculator` and the dimensionality routine.
- The `run_types.yaml` table, the `WAVELENGTHS` table and the VASP quality scores are parameters (the quality scores also appear as the constant `Material.QualityScores`).
- `np.allclose` in the XRD validator is a parameter returning true, false or an exception.
- Stability.ThermoLabel: the thresholds are compared over exact reals, so the rounding of `0.2 + e_abh` in binary floating point is not modelled.
- VaspTask.OutputSummary: the energy per atom is a real quotient, and the contract states only when the summary exists, not the floating-point values in it.
- PyValues.Repr: floats are rendered by a fixed decimal rendering, not by Python's shortest round-trip `repr`, so digests of float-bearing inputs are modelled only up to that rendering. In strings, exactly the characters below U+0100 that `str.isprintable()` refuses are escaped (`PyValues.Latin1Unprintable`). Characters from U+0100 up are written as they are, although Python escapes the unprintable ones among them, such as U+2028, format characters like U+200B, and unassigned code points. `sha1encode` of text holding such characters therefore yields a different digest here.
- Nested pydantic validation is not modelled, including coercion of sub-models, `datetime` parsing and enum coercion. A model is the list of its fields after keyword and default resolution. One consequence is that `input.structure` is hashed as given, not as the `StructureMP` record it is coerced to (task.py:39). The coerced record lists the schema's fields in schema order and drops extra keys. So its `str()`, the `sha1encode` digest, and with it the ingest id of `Ingest.Promote` and `Ingest.ParsingTask`, can differ from the source's for the same input.
- Material.LastUpdatedOf: time stamps are whole numbers. Comparing a naive with a timezone-aware `datetime`, which also raises `TypeError` in Python, is not modelled.
- Material.NeverDeprecated: stated for groups with distinct task ids. With shared ids a material can be deprecated, as `Material.SharedIdDeprecates` shows.
- Material.FromTasksArgs: the symmetrised structure, the initial-structure grouping, `structure_entry` and the `ComputedEntry` contents are left out as pymatgen work; entries record the chosen task only.
- Structure.FromStructure: success is stated for the call without keywords. With keywords, the generic `Models.Build` contract applies. The values of `formula_pretty`, `formula_anonymous`, `volume`, `density` and `symmetry` are what pymatgen reports and are passed through unstated.
- Structure.MatvirdFromStructure: the field values are stated for default fields and no keywords; other calls fall under the generic `Models.Build` contract.
- Outputs.StoreRaw: reports the base name of the stored file plus `.gz`, as the corrected `transfer_file` does. The code's own `replace(dst_path,'')[1:]` name agrees whenever the destination holds an inner `/` and does not end in `/`, as for `tasks/<task_id>` (`Outputs.StoreRawInTaskDir`). For other destinations it may differ; see Findings.
- Outputs.ParseOneRawName: the raw name is the corrected one of `Outputs.StoreRaw`, with the same agreement for `tasks/<task_id>`.
- Common.StoredJFData: the file name recorded is the corrected raw name of `Outputs.StoreRaw`.
- CalcTypes.VariantEqualIgnoresCaseAndSpace: `strip` and `upper` are modelled for ASCII only. Python also strips Unicode whitespace such as `\u00a0` and upper-cases non-ASCII letters such as `é`; the model leaves those characters unchanged.
- Common.DigitRun: `\d` is modelled as the ASCII digits `0`-`9`. Python's `re` also accepts other Unicode decimal digits such as `١`.
- Common.DoiMatchesShape: the digit run is ASCII-only, as for `Common.DigitRun`, so a DOI with non-ASCII decimal digits that Python accepts is rejected here.
- Common.DoiPartsMatch: stated for ASCII digits only, as for `Common.DigitRun`.
- Common.MakeDoi: validation accepts only ASCII digits after `10.`, as for `Common.DigitRun`.
- Authors.NameKeys: `lower` is modelled for ASCII letters only, so names differing only in the case of a non-ASCII letter (`Émile` and `ÉMILE`) get different keys here.
- Authors.Keyed: the name key is the ASCII-only lower-casing of `Authors.NameKeys`.
- Authors.RemoveDuplicateAuthors: the `EmailStr` validation of `Author.email` is not modelled, and names are lower-cased for ASCII letters only, as for `Authors.NameKeys`.
- The `f_inputs` and `f_outputs` arguments of `TaskDocument.from_directory` are not modelled: they are computed and never used.
- The `task_id` argument of `parsing_task` is not modelled: it is overwritten by a fresh uuid before use.
- The tree after an exception inside `parsing_task` is not returned, only the fact that the working directory is left in the repository root. In the code the staging directory also stays behind.
- Logging, `print` and `pprint` output is left out.
- MongoDB and GridFS operations are left out: the connection itself, `add_file`, `insert_one`, `update`, `clean` and `map_to_all`. `create_database` is represented only by which connection kind is chosen.
- `update_tasks` in the builder is left out. It is the dict-merge half of `update_properties` applied to a second accumulator.
- The builder setters that only wrap other documents (`set_thermos`, `set_xrd`, `set_emcs` and similar) are left out, because they forward to the constructors modelled here.
- `matvirdkit/model/polar.py` is left out because it is floating-point numerics (SVD and averages).
- The package does not import as given, and the model describes the function bodies as if its imports resolved. `matvirdkit/model/__init__.py:1-2` imports `MetaDoc`, `Source` and `SourceDoc` from `common.py`, which defines none of them, so importing any `matvirdkit.model` module raises `ImportError`. `matvirdkit/model/xrd.py:19` imports the undefined `MatvirdBase`. `matvirdkit/builder/base.py:8-9` imports from `mvdkit.builder.readstructure` and `matvirdkit.model.electronicstructure`, neither of which exists.
- The API and JWT layer, the CLI, the id generator, `builder/mechanics.py`, `builder/bms.py`, `builder/vasp/electronic_structure.py` and the package's import-time configuration are not part of this model. They are services, subprocess plumbing or code that does not import.

## Findings

| source | as written | input that shows it | evidently intended | confidence | as-written member | corrected member |
|---|---|---|---|---|---|---|
| matvirdkit/model/utils.py:243-246 | the compressed copy's name is `dst_fname.replace(dst_path, '')[1:]`, which deletes every occurrence of `dst_path` and then drops one character. That gives the base name only when `dst_path` has no trailing `/` and does not reappear in the base name (an inner `/` in `dst_path` guarantees this, the case `ModelUtils.TransferAsWrittenAgrees` covers) | `dst_path = "out/"`: the stored `out/<digest>-vasprun.xml` becomes `<digest>-vasprun.xml` after `replace`, and `[1:]` then drops the digest's first character | the base name of the stored copy plus the compression suffix | not executed | ModelUtils.TransferAsWrittenDropsDigestChar | ModelUtils.TransferFile |
| matvirdkit/model/vasp/material.py:151-165 | `from_tasks` ends with `cls.from_structure(structure=..., material_id=..., ...)` and passes no `dimension`, which the `CoreMaterialsDoc.from_structure` it reaches requires | a group of one valid `GGA Structure Optimization` task: every field is computed, then the call raises `TypeError` for the missing argument | the materials document built from the computed fields | not executed | Material.FromTasksMissesDimension | Material.FromTasksArgs |
| matvirdkit/builder/base.py:120 | `set_origins` defaults `link=[]`, but `PropertyOrigin.link` is a `str` field | any `set_origins(key, task_id)` call that leaves out `link` | a default of `None`, the field's own default | not executed | BuilderBase.SetOriginsDefaultsAsWritten | BuilderBase.SetOriginsDefaults |
