/** `MaterialsDoc.from_tasks`: the selection logic that turns a group of VASP
    task documents into one material. Structure symmetrisation and structure
    grouping are left to pymatgen and are not part of this model; each task
    is reduced to the fields the selection reads. */
module Material {
  import opened Results
  import opened Strings
  import opened PyDict

  /** A task document as the selection sees it: its id, validity, the
      values of its `run_type`, `task_type` and `calc_type` properties, the
      `ISPIN` and `LASPH` input parameters when set, and its energy per atom
      and time stamps. A time stamp is `None` (the field's default) or a
      point in time, counted in whole units. */
  datatype TaskDoc = TaskDoc(
    taskId: string,
    isValid: bool,
    runType: string,
    taskType: string,
    calcType: string,
    ispin: Option<int>,
    lasph: Option<bool>,
    energyPerAtom: real,
    lastUpdated: Option<int>,
    completedAt: Option<int>)

  /** `VASP_QUALITY_SCORES` */
  const QualityScores: Dict<string, int> := [("SCAN", 3), ("GGA+U", 2), ("GGA", 1)]

  /** `_structure_eval(task)`: smaller is better. */
  datatype Rank = Rank(score: int, spin: int, aspherical: int, energy: real)

  function RankOf(t: TaskDoc, scores: Dict<string, int>): Rank {
    Rank(-GetOr(scores, t.runType, 0),
         -t.ispin.GetOr(1),
         -(if t.lasph.GetOr(false) then 1 else 0),
         t.energyPerAtom)
  }

  /** Python's `<` on the key tuples is a strict total order: irreflexive,
      transitive, and any two different keys compare one way. */
  lemma RankLessStrictOrder(a: Rank, b: Rank, c: Rank)
    ensures !RankLess(a, a)
    ensures RankLess(a, b) && RankLess(b, c) ==> RankLess(a, c)
    ensures a != b ==> RankLess(a, b) != RankLess(b, a)
  {
  }

  /** A run type with a higher quality score comes first; with equal
      scores, spin polarization comes first, then `LASPH`, then the lower
      energy per atom. */
  lemma RankOfPriorities(t1: TaskDoc, t2: TaskDoc, scores: Dict<string, int>)
    ensures GetOr(scores, t1.runType, 0) > GetOr(scores, t2.runType, 0) ==>
      RankLess(RankOf(t1, scores), RankOf(t2, scores))
    ensures GetOr(scores, t1.runType, 0) == GetOr(scores, t2.runType, 0) &&
            t1.ispin.GetOr(1) > t2.ispin.GetOr(1) ==>
      RankLess(RankOf(t1, scores), RankOf(t2, scores))
    ensures GetOr(scores, t1.runType, 0) == GetOr(scores, t2.runType, 0) &&
            t1.ispin.GetOr(1) == t2.ispin.GetOr(1) &&
            t1.lasph.GetOr(false) && !t2.lasph.GetOr(false) ==>
      RankLess(RankOf(t1, scores), RankOf(t2, scores))
    ensures GetOr(scores, t1.runType, 0) == GetOr(scores, t2.runType, 0) &&
            t1.ispin.GetOr(1) == t2.ispin.GetOr(1) &&
            t1.lasph.GetOr(false) == t2.lasph.GetOr(false) ==>
      (RankLess(RankOf(t1, scores), RankOf(t2, scores)) <==> t1.energyPerAtom < t2.energyPerAtom)
  {
  }

  /** Python's `<` on the key tuples: lexicographic. */
  predicate RankLess(a: Rank, b: Rank) {
    a.score < b.score ||
    (a.score == b.score &&
     (a.spin < b.spin ||
      (a.spin == b.spin &&
       (a.aspherical < b.aspherical ||
        (a.aspherical == b.aspherical && a.energy < b.energy)))))
  }

  /** The position `sorted(calcs, key=_structure_eval)[0]` comes from: a key
      no other key is below, and, since the sort is stable, the first such
      position. */
  function BestIndex(calcs: seq<TaskDoc>, scores: Dict<string, int>): (i: nat)
    requires |calcs| > 0
    ensures i < |calcs|
    ensures forall j :: 0 <= j < |calcs| ==> !RankLess(RankOf(calcs[j], scores), RankOf(calcs[i], scores))
    ensures forall j :: 0 <= j < i ==> RankLess(RankOf(calcs[i], scores), RankOf(calcs[j], scores))
    decreases |calcs|
  {
    if |calcs| == 1 then 0
    else
      var k := BestIndex(calcs[1..], scores) + 1;
      assert forall j :: 1 <= j < |calcs| ==> calcs[j] == calcs[1..][j - 1];
      if RankLess(RankOf(calcs[k], scores), RankOf(calcs[0], scores)) then k else 0
  }

  /** The valid tasks of one task type, in input order. */
  function ValidOfType(tasks: seq<TaskDoc>, tt: string): (r: seq<TaskDoc>)
    ensures forall t :: t in r <==> t in tasks && t.isValid && t.taskType == tt
    decreases |tasks|
  {
    if |tasks| == 0 then []
    else
      var rest := ValidOfType(tasks[1..], tt);
      assert forall t :: t in tasks <==> t == tasks[0] || t in tasks[1..];
      if tasks[0].isValid && tasks[0].taskType == tt then [tasks[0]] + rest else rest
  }

  /** The structure optimizations, followed by the statics when
      `use_statics` is set; only valid tasks are drawn. */
  function StructureCalcs(tasks: seq<TaskDoc>, useStatics: bool): (r: seq<TaskDoc>)
    ensures forall t :: t in r <==>
      t in tasks && t.isValid &&
      (t.taskType == "Structure Optimization" || (useStatics && t.taskType == "Static"))
  {
    ValidOfType(tasks, "Structure Optimization") + (if useStatics then ValidOfType(tasks, "Static") else [])
  }

  /** The calcs of one run type that are valid. */
  function OfRunType(calcs: seq<TaskDoc>, rt: string): (r: seq<TaskDoc>)
    ensures forall t :: t in r <==> t in calcs && t.runType == rt && t.isValid
    ensures |r| > 0 <==> exists t :: t in calcs && t.runType == rt && t.isValid
    decreases |calcs|
  {
    if |calcs| == 0 then []
    else
      var rest := OfRunType(calcs[1..], rt);
      assert forall t :: t in calcs <==> t == calcs[0] || t in calcs[1..];
      assert |rest| > 0 ==> rest[0] in rest;
      if calcs[0].runType == rt && calcs[0].isValid then [calcs[0]] + rest else rest
  }

  /** `min(ids)` in code-point order. */
  function MinId(ids: seq<string>): (m: string)
    requires |ids| > 0
    ensures m in ids
    ensures forall x :: x in ids ==> !LexLess(x, m)
    decreases |ids|
  {
    if |ids| == 1 then
      LexIrreflexive(ids[0]);
      assert forall x :: x in ids ==> x == ids[0];
      ids[0]
    else
      var m := MinId(ids[1..]);
      assert forall x :: x in ids <==> x == ids[0] || x in ids[1..];
      if LexLess(ids[0], m) then
        assert forall x :: x in ids[1..] ==> !LexLess(x, ids[0]) by {
          forall x | x in ids[1..] ensures !LexLess(x, ids[0]) {
            if LexLess(x, ids[0]) { LexTransitive(x, ids[0], m); }
          }
        }
        LexIrreflexive(ids[0]);
        ids[0]
      else m
  }

  /** `type(x)` as Python's comparison error names it. */
  function TypeName(x: Option<int>): string {
    if x.None? then "NoneType" else "datetime.datetime"
  }

  /** The `TypeError` Python raises for `a <op> b` when the two cannot be
      ordered. */
  function Unordered(op: string, a: Option<int>, b: Option<int>): Error {
    TypeError("'" + op + "' not supported between instances of '" + TypeName(a) + "' and '" + TypeName(b) + "'")
  }

  /** `e` is the error ordering `None` against a time stamp, or against
      `None`, raises. */
  ghost predicate IsUnordered(e: Error, op: string) {
    exists a: Option<int>, b: Option<int> :: (a.None? || b.None?) && e == Unordered(op, a, b)
  }

  function Op(least: bool): string {
    if least then "<" else ">"
  }

  /** Before(a, b): `a` is strictly preferred to `b` by `min` (when `least`)
      or by `max`. */
  predicate Before(a: int, b: int, least: bool) {
    if least then a < b else a > b
  }

  /** The loop of Python's `min` (when `least`) or `max`, with `best` the item
      kept so far: each further item is compared with it by `item < best`
      (`item > best`) and replaces it when that holds. Ordering `None`
      against anything raises. */
  function Extremum(best: Option<int>, xs: seq<Option<int>>, least: bool): (r: Result<Option<int>>)
    ensures r.Err? <==> |xs| > 0 && (best.None? || exists i :: 0 <= i < |xs| && xs[i].None?)
    ensures r.Err? ==> IsUnordered(r.error, Op(least))
    ensures r.Ok? ==> r.value == best || r.value in xs
    ensures r.Ok? && best.Some? ==> r.value.Some? && !Before(best.value, r.value.value, least)
    ensures r.Ok? ==> forall i :: 0 <= i < |xs| ==>
      xs[i].Some? && r.value.Some? && !Before(xs[i].value, r.value.value, least)
    decreases |xs|
  {
    if |xs| == 0 then Ok(best)
    else if xs[0].None? || best.None? then Err(Unordered(Op(least), xs[0], best))
    else
      var r := Extremum(if Before(xs[0].value, best.value, least) then xs[0] else best, xs[1..], least);
      assert forall i :: 1 <= i < |xs| ==> xs[i] == xs[1..][i - 1];
      assert r.Err? ==> exists i :: 0 <= i < |xs[1..]| && xs[1..][i].None?;
      r
  }

  /** `min(xs)` over time stamps: `None` alone is returned as it is, but
      next to anything else it cannot be ordered. */
  function PyMin(xs: seq<Option<int>>): (r: Result<Option<int>>)
    requires |xs| > 0
    ensures r.Err? <==> |xs| >= 2 && exists i :: 0 <= i < |xs| && xs[i].None?
    ensures r.Err? ==> IsUnordered(r.error, "<")
    ensures r.Ok? ==> r.value in xs
    ensures r.Ok? ==> forall i :: 0 <= i < |xs| && xs[i].Some? ==> r.value.Some? && r.value.value <= xs[i].value
  {
    var r := Extremum(xs[0], xs[1..], true);
    assert forall i :: 1 <= i < |xs| ==> xs[i] == xs[1..][i - 1];
    assert r.Err? && xs[0].Some? ==> exists i :: 0 <= i < |xs[1..]| && xs[1..][i].None?;
    r
  }

  /** `max(xs)` over time stamps, with the same treatment of `None`. */
  function PyMax(xs: seq<Option<int>>): (r: Result<Option<int>>)
    requires |xs| > 0
    ensures r.Err? <==> |xs| >= 2 && exists i :: 0 <= i < |xs| && xs[i].None?
    ensures r.Err? ==> IsUnordered(r.error, ">")
    ensures r.Ok? ==> r.value in xs
    ensures r.Ok? ==> forall i :: 0 <= i < |xs| && xs[i].Some? ==> r.value.Some? && xs[i].value <= r.value.value
  {
    var r := Extremum(xs[0], xs[1..], false);
    assert forall i :: 1 <= i < |xs| ==> xs[i] == xs[1..][i - 1];
    assert r.Err? && xs[0].Some? ==> exists i :: 0 <= i < |xs[1..]| && xs[1..][i].None?;
    r
  }

  function Ids(tasks: seq<TaskDoc>): (r: seq<string>)
    ensures |r| == |tasks| && forall i :: 0 <= i < |tasks| ==> r[i] == tasks[i].taskId
  {
    seq(|tasks|, i requires 0 <= i < |tasks| => tasks[i].taskId)
  }

  /** `{task.task_id: f(task) for task in task_group}`: a later task with
      the same id overwrites an earlier one. */
  function ById(tasks: seq<TaskDoc>, f: TaskDoc -> string): Dict<string, string> {
    FromPairs(seq(|tasks|, i requires 0 <= i < |tasks| => (tasks[i].taskId, f(tasks[i]))))
  }

  function Values(d: Dict<string, string>): set<string> {
    set i | 0 <= i < |d| :: d[i].1
  }

  /** A computed entry: made from the best task document of its run type,
      with the entry id replaced by the material id and the task's own id
      kept under `data["task_id"]`. */
  datatype Entry = Entry(entryId: string, dataTaskId: string, doc: TaskDoc)

  datatype Origin = Origin(name: string, taskId: string, lastUpdated: Option<int>)

  datatype MaterialDoc = MaterialDoc(
    materialId: string,
    lastUpdated: Option<int>,
    createdAt: Option<int>,
    taskIds: set<string>,
    deprecatedTasks: set<string>,
    runTypes: Dict<string, string>,
    taskTypes: Dict<string, string>,
    calcTypes: Dict<string, string>,
    deprecated: bool,
    best: TaskDoc,
    origins: seq<Origin>,
    entries: map<string, Entry>)

  function BestOf(calcs: seq<TaskDoc>, scores: Dict<string, int>): TaskDoc
    requires |calcs| > 0
  {
    calcs[BestIndex(calcs, scores)]
  }

  /** The entry of run type `rt`: built from the best valid calc of that
      run type. */
  function EntryFor(calcs: seq<TaskDoc>, rt: string, scores: Dict<string, int>, materialId: string): (e: Entry)
    requires |OfRunType(calcs, rt)| > 0
    ensures e.entryId == materialId && e.dataTaskId == e.doc.taskId
    ensures e.doc in calcs && e.doc.runType == rt
    ensures forall t :: t in calcs && t.runType == rt && t.isValid ==> !RankLess(RankOf(t, scores), RankOf(e.doc, scores))
  {
    var c := OfRunType(calcs, rt);
    var i := BestIndex(c, scores);
    assert c[i] in c;
    assert forall t :: t in c ==> !RankLess(RankOf(t, scores), RankOf(c[i], scores)) by {
      forall t | t in c ensures !RankLess(RankOf(t, scores), RankOf(c[i], scores)) {
        var j :| 0 <= j < |c| && c[j] == t;
      }
    }
    Entry(materialId, c[i].taskId, c[i])
  }

  /** `min(possible_mat_ids)` */
  function MaterialIdOf(tasks: seq<TaskDoc>): (m: string)
    requires |tasks| > 0
    ensures m in Ids(tasks)
    ensures forall t :: t in tasks ==> !LexLess(t.taskId, m)
  {
    var ids := Ids(tasks);
    assert forall t :: t in tasks ==> t.taskId in ids by {
      forall t | t in tasks ensures t.taskId in ids {
        var i :| 0 <= i < |tasks| && tasks[i] == t;
        assert ids[i] == t.taskId;
      }
    }
    MinId(ids)
  }

  /** `task.completed_at` (when `completed`) or `task.last_updated`. */
  function Stamp(t: TaskDoc, completed: bool): Option<int> {
    if completed then t.completedAt else t.lastUpdated
  }

  /** The generator `(task.completed_at for task in task_group)`, or its
      `last_updated` counterpart. */
  function Stamps(tasks: seq<TaskDoc>, completed: bool): (xs: seq<Option<int>>)
    ensures |xs| == |tasks|
    ensures forall i :: 0 <= i < |tasks| ==> xs[i] == Stamp(tasks[i], completed)
  {
    seq(|tasks|, i requires 0 <= i < |tasks| => Stamp(tasks[i], completed))
  }

  /** Every task's stamp sits at some position of the generator, and every
      position holds some task's stamp. */
  lemma StampsCover(tasks: seq<TaskDoc>, completed: bool)
    ensures forall t :: t in tasks ==>
      exists i :: 0 <= i < |tasks| && Stamps(tasks, completed)[i] == Stamp(t, completed)
    ensures forall x :: x in Stamps(tasks, completed) ==> exists t :: t in tasks && Stamp(t, completed) == x
  {
    var xs := Stamps(tasks, completed);
    forall t | t in tasks ensures exists i :: 0 <= i < |tasks| && xs[i] == Stamp(t, completed) {
      var i :| 0 <= i < |tasks| && tasks[i] == t;
      assert xs[i] == Stamp(t, completed);
    }
    forall x | x in xs ensures exists t :: t in tasks && Stamp(t, completed) == x {
      var i :| 0 <= i < |xs| && xs[i] == x;
      assert tasks[i] in tasks;
    }
  }

  /** `max(task.last_updated ...)` */
  function LastUpdatedOf(tasks: seq<TaskDoc>): (r: Result<Option<int>>)
    requires |tasks| > 0
    ensures r.Err? <==> |tasks| >= 2 && exists t :: t in tasks && t.lastUpdated.None?
    ensures r.Err? ==> IsUnordered(r.error, ">")
    ensures r.Ok? ==> exists t :: t in tasks && t.lastUpdated == r.value
    ensures r.Ok? ==> forall t :: t in tasks && t.lastUpdated.Some? ==>
      r.value.Some? && t.lastUpdated.value <= r.value.value
  {
    StampsCover(tasks, false);
    PyMax(Stamps(tasks, false))
  }

  /** `min(task.completed_at ...)` */
  function CreatedAtOf(tasks: seq<TaskDoc>): (r: Result<Option<int>>)
    requires |tasks| > 0
    ensures r.Err? <==> |tasks| >= 2 && exists t :: t in tasks && t.completedAt.None?
    ensures r.Err? ==> IsUnordered(r.error, "<")
    ensures r.Ok? ==> exists t :: t in tasks && t.completedAt == r.value
    ensures r.Ok? ==> forall t :: t in tasks && t.completedAt.Some? ==>
      r.value.Some? && r.value.value <= t.completedAt.value
  {
    StampsCover(tasks, true);
    PyMin(Stamps(tasks, true))
  }

  /** `max` and `min` over the group's time stamps both succeed: a single
      task, or every task has both stamps set. */
  predicate TimesOrdered(tasks: seq<TaskDoc>) {
    |tasks| <= 1 || forall t :: t in tasks ==> t.lastUpdated.Some? && t.completedAt.Some?
  }

  /** `{task.task_id for task in task_group}` */
  function TaskIdSet(tasks: seq<TaskDoc>): (r: set<string>)
    ensures forall x :: x in r <==> exists t :: t in tasks && t.taskId == x
  {
    set t | t in tasks :: t.taskId
  }

  /** `{task.task_id for task in task_group if not task.is_valid}` */
  function DeprecatedSet(tasks: seq<TaskDoc>): (r: set<string>)
    ensures forall x :: x in r <==> exists t :: t in tasks && !t.isValid && t.taskId == x
  {
    set t | t in tasks && !t.isValid :: t.taskId
  }

  /** The loop over `set(run_types.values())`: each run type among them that
      some calc has gets the best calc of that run type. */
  function Entries(calcs: seq<TaskDoc>, rts: set<string>, scores: Dict<string, int>, materialId: string)
    : (r: map<string, Entry>)
    ensures forall rt :: rt in r <==> rt in rts && exists t :: t in calcs && t.runType == rt && t.isValid
    ensures forall rt :: rt in r ==>
      var e := r[rt];
      e.entryId == materialId && e.dataTaskId == e.doc.taskId &&
      e.doc in calcs && e.doc.runType == rt &&
      forall t :: t in calcs && t.runType == rt && t.isValid ==> !RankLess(RankOf(t, scores), RankOf(e.doc, scores))
  {
    map rt | rt in rts && |OfRunType(calcs, rt)| > 0 :: EntryFor(calcs, rt, scores, materialId)
  }

  /** `all(task.task_id in deprecated_tasks for task in structure_calcs)` */
  predicate AllDeprecated(calcs: seq<TaskDoc>, deprecatedTasks: set<string>) {
    forall i :: 0 <= i < |calcs| ==> calcs[i].taskId in deprecatedTasks
  }

  /** The document `MaterialsDoc.from_tasks(task_group, quality_scores,
      use_statics)` sets out to build: the fields it computes and hands to
      `from_structure`, with the structure calculation they are drawn
      from. */
  function FromTasksArgs(tasks: seq<TaskDoc>, scores: Dict<string, int>, useStatics: bool): (r: Result<MaterialDoc>)
    ensures |tasks| == 0 ==> r == Err(Exception("Must have more than one task in the group."))
    ensures |tasks| >= 2 && (exists t :: t in tasks && t.lastUpdated.None?) ==>
      r.Err? && IsUnordered(r.error, ">")
    ensures |tasks| >= 2 && (forall t :: t in tasks ==> t.lastUpdated.Some?) &&
            (exists t :: t in tasks && t.completedAt.None?) ==>
      r.Err? && IsUnordered(r.error, "<")
    ensures |tasks| > 0 && TimesOrdered(tasks) && |StructureCalcs(tasks, useStatics)| == 0 ==> r == Err(IndexError)
    ensures r.Ok? <==> TimesOrdered(tasks) && |StructureCalcs(tasks, useStatics)| > 0
    ensures r.Ok? ==>
      var m := r.value;
      m.materialId in Ids(tasks) && (forall t :: t in tasks ==> !LexLess(t.taskId, m.materialId)) &&
      (exists t :: t in tasks && t.lastUpdated == m.lastUpdated) &&
      (exists t :: t in tasks && t.completedAt == m.createdAt) &&
      (forall t :: t in tasks && t.lastUpdated.Some? ==> m.lastUpdated.Some? && t.lastUpdated.value <= m.lastUpdated.value) &&
      (forall t :: t in tasks && t.completedAt.Some? ==> m.createdAt.Some? && m.createdAt.value <= t.completedAt.value) &&
      (forall x :: x in m.taskIds <==> exists t :: t in tasks && t.taskId == x) &&
      (forall x :: x in m.deprecatedTasks <==> exists t :: t in tasks && !t.isValid && t.taskId == x)
    ensures r.Ok? ==>
      var m := r.value;
      m.best in StructureCalcs(tasks, useStatics) &&
      (forall t :: t in StructureCalcs(tasks, useStatics) ==> !RankLess(RankOf(t, scores), RankOf(m.best, scores))) &&
      m.origins == [Origin("structure", m.best.taskId, m.best.lastUpdated)]
    ensures r.Ok? ==>
      var m := r.value;
      forall rt :: rt in m.entries ==>
        var e := m.entries[rt];
        e.entryId == m.materialId && e.dataTaskId == e.doc.taskId &&
        e.doc in StructureCalcs(tasks, useStatics) && e.doc.runType == rt &&
        forall t :: t in StructureCalcs(tasks, useStatics) && t.runType == rt ==>
          !RankLess(RankOf(t, scores), RankOf(e.doc, scores))
  {
    if |tasks| == 0 then Err(Exception("Must have more than one task in the group."))
    else
      var materialId := MaterialIdOf(tasks);
      var lastUpdated :- LastUpdatedOf(tasks);
      var createdAt :- CreatedAtOf(tasks);
      var calcs := StructureCalcs(tasks, useStatics);
      if |calcs| == 0 then Err(IndexError)
      else
        var deprecatedTasks := DeprecatedSet(tasks);
        var runTypes := ById(tasks, (t: TaskDoc) => t.runType);
        var best := BestOf(calcs, scores);
        Ok(MaterialDoc(
          materialId, lastUpdated, createdAt,
          TaskIdSet(tasks), deprecatedTasks,
          runTypes, ById(tasks, (t: TaskDoc) => t.taskType), ById(tasks, (t: TaskDoc) => t.calcType),
          AllDeprecated(calcs, deprecatedTasks),
          best,
          [Origin("structure", best.taskId, best.lastUpdated)],
          Entries(calcs, Values(runTypes), scores, materialId)))
  }

  /** What `CoreMaterialsDoc.from_structure` raises when called without its
      required `dimension`. */
  const MissingDimension := TypeError("from_structure() missing 1 required positional argument: 'dimension'")

  /** `MaterialsDoc.from_tasks(task_group, quality_scores, use_statics)` as
      written. An empty group, time stamps `max`/`min` cannot order and a
      group without a structure calculation raise on the way; once the
      fields are computed it calls `from_structure`
      without a `dimension`. The method found first in the class order,
      `CoreMaterialsDoc.from_structure`, requires one, so no document is
      ever returned. */
  function FromTasks(tasks: seq<TaskDoc>, scores: Dict<string, int>, useStatics: bool): (r: Result<MaterialDoc>)
    ensures r.Err?
    ensures |tasks| == 0 ==> r == Err(Exception("Must have more than one task in the group."))
    ensures |tasks| >= 2 && (exists t :: t in tasks && t.lastUpdated.None?) ==>
      IsUnordered(r.error, ">")
    ensures |tasks| >= 2 && (forall t :: t in tasks ==> t.lastUpdated.Some?) &&
            (exists t :: t in tasks && t.completedAt.None?) ==>
      IsUnordered(r.error, "<")
    ensures |tasks| > 0 && TimesOrdered(tasks) && |StructureCalcs(tasks, useStatics)| == 0 ==> r == Err(IndexError)
    ensures TimesOrdered(tasks) && |StructureCalcs(tasks, useStatics)| > 0 ==> r == Err(MissingDimension)
  {
    var doc :- FromTasksArgs(tasks, scores, useStatics);
    Err(MissingDimension)
  }

  /** A group holding one valid structure optimization has every field
      computed, yet `from_tasks` raises `TypeError` for it. */
  lemma FromTasksMissesDimension()
    ensures var t := TaskDoc("t-1", true, "GGA", "Structure Optimization", "GGA Structure Optimization",
                             None, None, -1.0, Some(0), None);
            FromTasksArgs([t], QualityScores, false).Ok? &&
            FromTasks([t], QualityScores, false) == Err(MissingDimension)
  {
    var t := TaskDoc("t-1", true, "GGA", "Structure Optimization", "GGA Structure Optimization",
                     None, None, -1.0, Some(0), None);
    assert t in StructureCalcs([t], false);
  }

  /** When `max` over `last_updated` succeeds and `min` over `completed_at`
      fails, `from_tasks` raises exactly `min`'s error. */
  lemma FromTasksCreatedAtError(tasks: seq<TaskDoc>, scores: Dict<string, int>, useStatics: bool)
    requires |tasks| > 0 && LastUpdatedOf(tasks).Ok? && CreatedAtOf(tasks).Err?
    ensures FromTasks(tasks, scores, useStatics) == Err(CreatedAtOf(tasks).error)
  {
  }

  /** Task documents built from a run directory record `last_updated` but
      leave `completed_at` at `None`, so for two of them `min` fails on
      `None < None` before anything else is computed. */
  lemma TwoDirectoryTasksUnordered(t1: TaskDoc, t2: TaskDoc, scores: Dict<string, int>, useStatics: bool)
    requires t1.lastUpdated.Some? && t2.lastUpdated.Some?
    requires t1.completedAt.None? && t2.completedAt.None?
    ensures FromTasks([t1, t2], scores, useStatics) == Err(Unordered("<", None, None))
  {
    var tasks := [t1, t2];
    var none: Option<int> := None;
    assert Stamps(tasks, true) == [none, none];
    assert [none, none][1..] == [none];
    assert CreatedAtOf(tasks) == Err(Unordered("<", none, none));
    assert LastUpdatedOf(tasks).Ok? by {
      assert forall t :: t in tasks ==> t.lastUpdated.Some?;
    }
    FromTasksCreatedAtError(tasks, scores, useStatics);
  }

  // ---------------------------------------------------------------- lemmas

  lemma {:induction false} GetInValues(d: Dict<string, string>, k: string)
    requires Get(d, k).Some?
    ensures Get(d, k).value in Values(d)
    decreases |d|
  {
    if d[0].0 != k {
      GetInValues(d[1..], k);
      var i :| 0 <= i < |d[1..]| && d[1..][i].1 == Get(d, k).value;
      assert d[i + 1].1 == Get(d, k).value;
    }
  }

  /** With pairwise different task ids, `{task.task_id: f(task) ...}` holds
      `f(task)` under each task's id. */
  lemma ByIdGet(tasks: seq<TaskDoc>, f: TaskDoc -> string, i: nat)
    requires Distinct(Ids(tasks)) && i < |tasks|
    ensures Get(ById(tasks, f), tasks[i].taskId) == Some(f(tasks[i]))
  {
    var ps := seq(|tasks|, i requires 0 <= i < |tasks| => (tasks[i].taskId, f(tasks[i])));
    KeysLength(ps);
    assert Keys(ps) == Ids(tasks);
    LastValueLast(ps, i);
  }

  /** With pairwise different task ids, every task's run type is among the
      values of the `run_types` dict. */
  lemma RunTypesComplete(tasks: seq<TaskDoc>, t: TaskDoc)
    requires Distinct(Ids(tasks)) && t in tasks
    ensures t.runType in Values(ById(tasks, (t: TaskDoc) => t.runType))
  {
    var f := (t: TaskDoc) => t.runType;
    var i :| 0 <= i < |tasks| && tasks[i] == t;
    ByIdGet(tasks, f, i);
    GetInValues(ById(tasks, f), t.taskId);
  }

  /** Structure calcs are drawn from valid tasks, so with pairwise different
      task ids the material is never deprecated. */
  lemma NeverDeprecated(tasks: seq<TaskDoc>, scores: Dict<string, int>, useStatics: bool)
    requires Distinct(Ids(tasks))
    ensures FromTasksArgs(tasks, scores, useStatics).Ok? ==> !FromTasksArgs(tasks, scores, useStatics).value.deprecated
  {
    var calcs := StructureCalcs(tasks, useStatics);
    if |calcs| > 0 {
      SomeCalcNotDeprecated(tasks, calcs);
    }
  }

  lemma SomeCalcNotDeprecated(tasks: seq<TaskDoc>, calcs: seq<TaskDoc>)
    requires Distinct(Ids(tasks)) && |calcs| > 0
    requires forall c :: c in calcs ==> c in tasks && c.isValid
    ensures !AllDeprecated(calcs, DeprecatedSet(tasks))
  {
    var c := calcs[0];
    assert c in calcs;
    var j :| 0 <= j < |tasks| && tasks[j] == c;
    forall t | t in tasks && t.taskId == c.taskId ensures t.isValid {
      var i :| 0 <= i < |tasks| && tasks[i] == t;
      assert Ids(tasks)[i] == Ids(tasks)[j];
    }
  }

  /** A valid structure optimization that shares its id with an invalid task
      makes the material deprecated: the check goes by id. */
  lemma SharedIdDeprecates()
    ensures var good := TaskDoc("t-1", true, "GGA", "Structure Optimization", "GGA Structure Optimization",
                                None, None, -1.0, Some(0), Some(0));
            var bad := TaskDoc("t-1", false, "GGA", "Static", "GGA Static", None, None, -1.0, Some(0), Some(0));
            var r := FromTasksArgs([good, bad], QualityScores, false);
            r.Ok? && r.value.deprecated
  {
    var good := TaskDoc("t-1", true, "GGA", "Structure Optimization", "GGA Structure Optimization",
                        None, None, -1.0, Some(0), Some(0));
    var bad := TaskDoc("t-1", false, "GGA", "Static", "GGA Static", None, None, -1.0, Some(0), Some(0));
    var tasks := [good, bad];
    var calcs := StructureCalcs(tasks, false);
    assert good in calcs;
    assert AllDeprecated(calcs, DeprecatedSet(tasks)) by {
      assert bad in tasks;
      assert "t-1" in DeprecatedSet(tasks);
      forall i | 0 <= i < |calcs| ensures calcs[i].taskId in DeprecatedSet(tasks) {
        assert calcs[i] in calcs;
      }
    }
    FromTasksDeprecated(tasks, QualityScores, false);
  }

  /** The material is deprecated exactly when every structure calc is. */
  lemma FromTasksDeprecated(tasks: seq<TaskDoc>, scores: Dict<string, int>, useStatics: bool)
    requires FromTasksArgs(tasks, scores, useStatics).Ok?
    ensures FromTasksArgs(tasks, scores, useStatics).value.deprecated ==
      AllDeprecated(StructureCalcs(tasks, useStatics), DeprecatedSet(tasks))
  {
  }

  /** With pairwise different task ids, exactly the run types of the
      structure calcs get an entry. */
  lemma EntriesPerRunType(tasks: seq<TaskDoc>, scores: Dict<string, int>, useStatics: bool)
    requires Distinct(Ids(tasks))
    ensures var r := FromTasksArgs(tasks, scores, useStatics);
      r.Ok? ==> forall rt :: rt in r.value.entries <==>
        exists t :: t in StructureCalcs(tasks, useStatics) && t.runType == rt
  {
    var r := FromTasksArgs(tasks, scores, useStatics);
    if r.Ok? {
      forall rt | exists t :: t in StructureCalcs(tasks, useStatics) && t.runType == rt
        ensures rt in r.value.entries
      {
        var t :| t in StructureCalcs(tasks, useStatics) && t.runType == rt;
        RunTypesComplete(tasks, t);
      }
    }
  }
}
