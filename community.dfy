/**
 * The per-community handler of scanning/app/community.go. It reconciles
 * the shared task ledger with the tasks one scan configuration asks for,
 * and it runs one task: one scanner run per listed architecture (a repeated
 * architecture runs again and its later result replaces the earlier one),
 * one report with a section per distinct architecture, one upload.
 *
 * Reconciliation deletes the community's rows whose key is no longer
 * wanted, then saves every wanted task: an existing row keeps its id and
 * last scan time and takes the new interval and arches, a missing one is
 * inserted. The guarantee is stated for a ledger that does not fail on the
 * wanted keys, and for tasks whose five identity fields are non-empty:
 * Find treats an empty field as a wildcard (Ledgers), so a task with an
 * empty namespace or tag can update the row of another image.
 */
module CommunityHandlers {
  import opened Wrappers
  import opened Strings
  import opened Tasks
  import opened ScanConfigs
  import opened ScanResults
  import opened TaskStore
  import opened Ledgers
  import opened Platforms

  /** One scanner run (handleArch): the parsed result or the error text for one argument list. */
  type ArchScanner = seq<string> -> ArchResult

  const TrivyCacheDir := "./trivy_resource/"

  /** The scanner's arguments for one architecture of an image. */
  function ScanParams(arch: string, imagePath: string): (params: seq<string>)
    ensures |params| == 12 && params[0] == "image"
    ensures params[9] == "--platform" && params[10] == arch && params[11] == imagePath
  {
    ["image", "--quiet", "--skip-db-update", "-f", "json", "--scanners", "vuln",
     "--cache-dir", TrivyCacheDir, "--platform", arch, imagePath]
  }

  /** The elements of `s` in order of first appearance, each once. */
  function Distinct(s: seq<string>): seq<string>
    decreases |s|
  {
    if s == [] then []
    else
      var d := Distinct(s[..|s| - 1]);
      if s[|s| - 1] in d then d else d + [s[|s| - 1]]
  }

  /** Distinct keeps exactly the elements of its input and repeats none of them. */
  lemma {:induction false} DistinctSpec(s: seq<string>)
    ensures forall x :: x in Distinct(s) <==> x in s
    ensures forall i, j :: 0 <= i < j < |Distinct(s)| ==> Distinct(s)[i] != Distinct(s)[j]
    decreases |s|
  {
    if s != [] {
      var init := s[..|s| - 1];
      DistinctSpec(init);
      assert s == init + [s[|s| - 1]];
    }
  }

  /**
   * The report sections of a task: one per distinct architecture, holding
   * that architecture's scan. Go's map gives them no fixed order; the model
   * takes the order in which the architectures are first listed.
   */
  function ArchSections(t: Task, scan: ArchScanner): seq<ArchSection> {
    var arches := Distinct(t.arch);
    seq(|arches|, i requires 0 <= i < |arches| =>
      ArchSection(arches[i], scan(ScanParams(arches[i], t.ImagePath()))))
  }

  /** What handleTask returns: the upload of the built report to the task's markdown path. */
  function HandleOutcome(p: Platform, t: Task, scan: ArchScanner, upload: Uploader, stamp: string): Option<string> {
    upload(p, Content(stamp, ArchSections(t, scan)), t.MarkdownPath())
  }

  /**
   * Every architecture of the task gets exactly one section, and its scan
   * was run with `--platform <arch>` and the task's image path last.
   */
  lemma ArchSectionsCover(t: Task, scan: ArchScanner)
    ensures forall a :: a in t.arch <==> exists i :: 0 <= i < |ArchSections(t, scan)| && ArchSections(t, scan)[i].arch == a
    ensures forall i, j :: 0 <= i < j < |ArchSections(t, scan)| ==> ArchSections(t, scan)[i].arch != ArchSections(t, scan)[j].arch
    ensures forall i :: 0 <= i < |ArchSections(t, scan)| ==>
              exists ps :: ArchSections(t, scan)[i].result == scan(ps) &&
                |ps| == 12 && ps[9] == "--platform" && ps[10] == ArchSections(t, scan)[i].arch && ps[11] == t.ImagePath()
  {
    var arches := Distinct(t.arch);
    var secs := ArchSections(t, scan);
    DistinctSpec(t.arch);
    forall a ensures a in t.arch <==> exists i :: 0 <= i < |secs| && secs[i].arch == a {
      if a in t.arch {
        var i :| 0 <= i < |arches| && arches[i] == a;
        assert secs[i].arch == a;
      }
      if exists i :: 0 <= i < |secs| && secs[i].arch == a {
        var i :| 0 <= i < |secs| && secs[i].arch == a;
        assert arches[i] in arches;
      }
    }
    forall i | 0 <= i < |secs|
      ensures exists ps :: secs[i].result == scan(ps) && |ps| == 12 && ps[9] == "--platform" && ps[10] == secs[i].arch && ps[11] == t.ImagePath()
    {
      var ps := ScanParams(arches[i], t.ImagePath());
      assert secs[i].result == scan(ps);
    }
  }

  // ---------------------------------------------------------------------
  // What reconciliation does to the ledger's rows
  // ---------------------------------------------------------------------

  /** All five identity fields are set, so Find's probe pins the identity. */
  predicate FullIdentity(t: Task) {
    t.community != "" && t.registry.String() != "" && t.namespace != "" && t.image != "" && t.tag != ""
  }

  /** The rows of every other community. */
  ghost function Others(rows: Rows, name: string): Rows {
    map id | id in rows && rows[id].community != name :: rows[id]
  }

  /**
   * What generateTask leaves for the community `name` with wanted tasks
   * `wanted`, from the rows `before` to the rows `after`: when every
   * wanted task has its identity fields set and the ledger does not fail
   * on a wanted key, each wanted task is placed and its key is among the
   * community's; when FindAll and the delete do not fail either, the
   * community's keys are exactly the wanted ones.
   */
  ghost predicate HoldsWanted(before: Rows, after: Rows, f: Faults, name: string, wanted: TaskMap) {
    && (AllFullIdentity(wanted) && Reliable(f, wanted) ==>
          && (forall k :: k in wanted ==> Placed(before, after, wanted[k]))
          && wanted.Keys <= CommunityKeys(after, name))
    && (AllFullIdentity(wanted) && Reliable(f, wanted) && name !in f.findAll && !f.delete ==>
          CommunityKeys(after, name) == wanted.Keys)
  }

  /** The keys of the community's rows. */
  ghost function CommunityKeys(rows: Rows, name: string): set<string> {
    set id | id in rows && rows[id].community == name :: RowKey(rows[id])
  }

  /** The ids clearOldTasks deletes: rows FindAll returns for the community whose key is not wanted. */
  ghost function StaleIds(rows: Rows, name: string, wanted: TaskMap): set<int> {
    set id | id in rows && InCommunity(name, rows[id]) && RowKey(rows[id]) !in wanted
  }

  /** The task saveTask writes when Find does not fail: the found row updated, or the new task itself. */
  ghost function SavedTask(rows: Rows, t: Task): Task {
    match FindRow(rows, t)
    case Success(found) => found.UpdateIntervalAndArch(t.interval, t.arch)
    case Failure(_) => t
  }

  /** Every wanted task has all five identity fields set. */
  ghost predicate AllFullIdentity(wanted: TaskMap) {
    forall k :: k in wanted ==> FullIdentity(wanted[k])
  }

  /** Wanted tasks as GenerateTask makes them, each with all identity fields set. */
  ghost predicate Reconcilable(name: string, wanted: TaskMap) {
    forall k :: k in wanted ==> wanted[k].UniqueKey() == k && IsNewTaskOf(name, wanted[k]) && FullIdentity(wanted[k])
  }

  /** The ledger does not fail Find or Save on any wanted key. */
  ghost predicate Reliable(f: Faults, wanted: TaskMap) {
    forall k :: k in wanted ==> k !in f.find && k !in f.save
  }

  /** The rows matching `t` are the same, with the same contents, in `before` and `now`. */
  ghost predicate Untouched(before: Rows, now: Rows, t: Task) {
    && MatchingIds(now, t) == MatchingIds(before, t)
    && forall id :: id in MatchingIds(before, t) ==> id in now && now[id] == before[id]
  }

  /**
   * After reconciliation, the first row Find returns for `t` carries its
   * interval and arches; it is the row that was first before, with its last
   * scan time, or, when there was none, a new row with `t`'s last scan time.
   */
  ghost predicate Placed(before: Rows, after: Rows, t: Task) {
    && MatchingIds(after, t) != {}
    && var id := MinOf(MatchingIds(after, t));
       && after[id].interval == t.interval
       && after[id].arch == Join(t.arch, ArchSep)
       && if MatchingIds(before, t) != {} then
            id == MinOf(MatchingIds(before, t)) && after[id].lastScanTime == before[id].lastScanTime
          else
            id !in before && after[id].lastScanTime == t.lastScanTime
  }

  /** A row that meets a full probe has the probe's key. */
  lemma MatchedRowKey(t: Task, d: TaskDO)
    requires FullIdentity(t) && MatchesProbe(t, d)
    ensures RowKey(d) == t.UniqueKey()
  {
    assert TaskStore.ToTask(d).registry == t.registry;
  }

  /**
   * A non-empty set of keys has an element. Ledgers.HasElement is the same
   * fact for ids; a single generic lemma does not let `:|` pick an int.
   */
  lemma HasKey(s: set<string>)
    requires s != {}
    ensures exists k :: k in s
  {
    if forall k :: k !in s {
      assert false;
    }
  }

  /** Writing one row changes the matches of `t` at that id only. */
  lemma MatchingAfterWrite(rows: Rows, x: int, d: TaskDO, t: Task)
    ensures MatchingIds(rows[x := d], t) == (MatchingIds(rows, t) - {x}) + (if MatchesProbe(t, d) then {x} else {})
  {
  }

  /** Writing a row of the community over nothing or over one of its rows leaves the other communities alone. */
  lemma OthersAfterWrite(rows: Rows, x: int, d: TaskDO, name: string)
    requires d.community == name && (x in rows ==> rows[x].community == name)
    ensures Others(rows[x := d], name) == Others(rows, name)
  {
  }

  /** Writing a row of the community over nothing or over a row with its key adds exactly its key. */
  lemma KeysAfterWrite(rows: Rows, x: int, d: TaskDO, name: string)
    requires d.community == name
    requires x in rows ==> rows[x].community == name && RowKey(rows[x]) == RowKey(d)
    ensures CommunityKeys(rows[x := d], name) == CommunityKeys(rows, name) + {RowKey(d)}
  {
    var rows' := rows[x := d];
    forall k | k in CommunityKeys(rows', name) ensures k in CommunityKeys(rows, name) + {RowKey(d)} {
      var id :| id in rows' && rows'[id].community == name && RowKey(rows'[id]) == k;
      if id != x {
        assert id in rows && rows[id].community == name;
      }
    }
    forall k | k in CommunityKeys(rows, name) + {RowKey(d)} ensures k in CommunityKeys(rows', name) {
      if k == RowKey(d) {
        assert x in rows' && rows'[x].community == name;
      } else {
        var id :| id in rows && rows[id].community == name && RowKey(rows[id]) == k;
        assert id != x ==> rows'[id] == rows[id];
      }
    }
  }

  /** The write saveTask makes for a fresh task: an update in place of the first match, or an insert at the next id. */
  lemma SaveShape(rows: Rows, n: int, t: Task)
    requires Consistent(rows, n) && t.id == 0
    ensures MatchingIds(rows, t) != {} ==>
              var id := MinOf(MatchingIds(rows, t));
              && SavedTask(rows, t).UniqueKey() == RowKey(rows[id])
              && Stored(rows, n, SavedTask(rows, t)) == rows[id := rows[id].(interval := t.interval, arch := Join(t.arch, ArchSep))]
    ensures MatchingIds(rows, t) == {} ==>
              SavedTask(rows, t) == t && n !in rows && Stored(rows, n, t) == rows[n := ToTaskDO(t.(id := n))]
  {
    if MatchingIds(rows, t) != {} {
      var id := MinOf(MatchingIds(rows, t));
      RowRoundTrip(rows[id]);
    }
  }

  /** Deleting the stale rows leaves the other communities alone. */
  lemma ClearKeepsOthers(rows: Rows, name: string, wanted: TaskMap)
    requires name != ""
    ensures Others(rows - StaleIds(rows, name, wanted), name) == Others(rows, name)
  {
    var stale := StaleIds(rows, name, wanted);
    var kept := rows - stale;
    forall id | id in rows && rows[id].community != name ensures id in kept && kept[id] == rows[id] {
      assert id !in stale;
    }
    assert Others(kept, name).Keys == Others(rows, name).Keys;
  }

  /** Deleting the stale rows removes no row that a wanted task matches. */
  lemma ClearKeepsWantedRows(rows: Rows, name: string, wanted: TaskMap)
    requires name != "" && Reconcilable(name, wanted)
    ensures forall k :: k in wanted ==> Untouched(rows, rows - StaleIds(rows, name, wanted), wanted[k])
  {
    var stale := StaleIds(rows, name, wanted);
    var kept := rows - stale;
    forall k | k in wanted ensures Untouched(rows, kept, wanted[k]) {
      var t := wanted[k];
      forall id | id in MatchingIds(rows, t) ensures id in kept && kept[id] == rows[id] {
        MatchedRowKey(t, rows[id]);
      }
    }
  }

  /** The ids clearOldTasks collects from FindAll's tasks are exactly the stale ids. */
  lemma StaleTaskIds(rows: Rows, name: string, wanted: TaskMap, ts: seq<Task>, clearIds: seq<int>)
    requires forall id :: id in rows ==> rows[id].id == id
    requires ts == CommunityTasks(rows, name)
    requires forall id :: id in clearIds <==> exists j :: 0 <= j < |ts| && ts[j].id == id && ts[j].UniqueKey() !in wanted
    ensures (set id | id in clearIds) == StaleIds(rows, name, wanted)
    ensures |clearIds| == 0 <==> StaleIds(rows, name, wanted) == {}
  {
    CommunityTasksSpec(rows, name);
    var stale := StaleIds(rows, name, wanted);
    forall id | id in clearIds ensures id in stale {
      var j :| 0 <= j < |ts| && ts[j].id == id && ts[j].UniqueKey() !in wanted;
      assert ts[j] == TaskStore.ToTask(rows[id]);
    }
    forall id | id in stale ensures id in clearIds {
      assert id in CommunityIds(rows, name);
      var j :| 0 <= j < |ts| && ts[j].id == id;
      assert ts[j] == TaskStore.ToTask(rows[id]);
    }
    if |clearIds| == 0 {
      assert forall id :: id in stale <==> id in {};
    } else {
      assert clearIds[0] in stale;
    }
  }

  // ---------------------------------------------------------------------
  // The handler
  // ---------------------------------------------------------------------

  class CommunityHandler {
    const name: string
    const ledger: Ledger
    const platform: Platform

    constructor(c: Community, ledger: Ledger, p: Platform)
      ensures name == c.name && this.ledger == ledger && platform == p
    {
      name := c.name;
      this.ledger := ledger;
      platform := p;
    }

    /**
     * handleTask: scans the image once per architecture, keeping one result
     * per distinct architecture, then uploads the report built from the
     * results to the task's markdown path and returns the upload's error.
     */
    method HandleTask(task: Task, scan: ArchScanner, upload: Uploader, stamp: string) returns (err: Option<string>)
      ensures err == HandleOutcome(platform, task, scan, upload, stamp)
    {
      var imagePath := task.ImagePath();
      var ars: map<string, ArchResult> := map[];
      var order: seq<string> := [];
      for i := 0 to |task.arch|
        invariant order == Distinct(task.arch[..i])
        invariant forall a :: a in ars <==> a in order
        invariant forall a :: a in ars ==> ars[a] == scan(ScanParams(a, imagePath))
      {
        var arch := task.arch[i];
        var param := ScanParams(arch, imagePath);
        assert task.arch[..i + 1][..i] == task.arch[..i];
        if arch !in ars {
          order := order + [arch];
        }
        ars := ars[arch := scan(param)];
      }
      assert task.arch[..|task.arch|] == task.arch;
      var sections := seq(|order|, j requires 0 <= j < |order| => ArchSection(order[j], ars[order[j]]));
      assert sections == ArchSections(task, scan);
      var content := BuildContent(stamp, sections);
      err := upload(platform, content, task.MarkdownPath());
    }

    /**
     * clearOldTasks: deletes the community's rows whose key is not wanted.
     * A FindAll failure is returned before anything is deleted, and with
     * nothing stale no delete is issued at all.
     */
    method ClearOldTasks(newTasks: TaskMap) returns (err: Option<LedgerError>)
      requires ledger.Valid()
      modifies ledger
      ensures ledger.Valid() && ledger.nextId == old(ledger.nextId)
      ensures name in ledger.faults.findAll ==> err == Some(Failed) && ledger.rows == old(ledger.rows)
      ensures name !in ledger.faults.findAll && StaleIds(old(ledger.rows), name, newTasks) == {} ==>
                err == None && ledger.rows == old(ledger.rows)
      ensures name !in ledger.faults.findAll && StaleIds(old(ledger.rows), name, newTasks) != {} && ledger.faults.delete ==>
                err == Some(Failed) && ledger.rows == old(ledger.rows)
      ensures name !in ledger.faults.findAll && StaleIds(old(ledger.rows), name, newTasks) != {} && !ledger.faults.delete ==>
                err == None && ledger.rows == old(ledger.rows) - StaleIds(old(ledger.rows), name, newTasks)
    {
      var found := ledger.FindAll(name);
      if found.Failure? {
        return Some(found.error);
      }
      var oldTasks := found.value;
      ghost var rows := ledger.rows;
      var clearIds: seq<int> := [];
      for i := 0 to |oldTasks|
        invariant forall id :: id in clearIds <==>
                    exists j :: 0 <= j < i && oldTasks[j].id == id && oldTasks[j].UniqueKey() !in newTasks
      {
        if oldTasks[i].UniqueKey() !in newTasks {
          clearIds := clearIds + [oldTasks[i].id];
        }
      }
      StaleTaskIds(rows, name, newTasks, oldTasks, clearIds);
      if |clearIds| == 0 {
        return None;
      }
      err := ledger.DeleteByIds(clearIds);
    }

    /**
     * saveTask: looks the task up by identity; a found row keeps its id and
     * last scan time and takes the new interval and arches, NotFound saves
     * the task as given, and any other Find error is returned unsaved.
     */
    method SaveTask(newTask: Task) returns (err: Option<LedgerError>)
      requires ledger.Valid()
      modifies ledger
      ensures ledger.Valid()
      ensures newTask.UniqueKey() in ledger.faults.find ==> err == Some(Failed) && ledger.rows == old(ledger.rows) && ledger.nextId == old(ledger.nextId)
      ensures newTask.UniqueKey() !in ledger.faults.find && SavedTask(old(ledger.rows), newTask).UniqueKey() in ledger.faults.save ==>
                err == Some(Failed) && ledger.rows == old(ledger.rows) && ledger.nextId == old(ledger.nextId)
      ensures newTask.UniqueKey() !in ledger.faults.find && SavedTask(old(ledger.rows), newTask).UniqueKey() !in ledger.faults.save ==>
                && err == None
                && ledger.rows == Stored(old(ledger.rows), old(ledger.nextId), SavedTask(old(ledger.rows), newTask))
                && ledger.nextId == NextAfter(old(ledger.nextId), SavedTask(old(ledger.rows), newTask))
    {
      var found := ledger.Find(newTask);
      var oldTask: Task;
      match found {
        case Failure(e) =>
          if e != NotFound {
            return Some(e);
          }
          oldTask := newTask;
        case Success(t) =>
          oldTask := t.UpdateIntervalAndArch(newTask.interval, newTask.arch);
      }
      err := ledger.Save(oldTask);
    }

    /**
     * generateTask: works out the wanted tasks, then reconciles the ledger
     * with them. The guarantee holds when every wanted task has its five
     * identity fields set and the ledger does not fail on a wanted key.
     */
    method GenerateTask(cfg: ScanConfig, gc: GlobalConfig, listTags: TagLister)
      requires ledger.Valid()
      modifies ledger, gc
      ensures ledger.Valid()
      ensures gc.configs == WithDefaults(old(gc.configs), name, cfg)
      ensures name != "" ==> Others(ledger.rows, name) == Others(old(ledger.rows), name)
      ensures var wanted := DesiredTasks(old(gc.configs), name, cfg, listTags);
              AllFullIdentity(wanted) && Reliable(ledger.faults, wanted) ==>
                && (forall k :: k in wanted ==> Placed(old(ledger.rows), ledger.rows, wanted[k]))
                && wanted.Keys <= CommunityKeys(ledger.rows, name)
      ensures var wanted := DesiredTasks(old(gc.configs), name, cfg, listTags);
              AllFullIdentity(wanted) && Reliable(ledger.faults, wanted) &&
              name !in ledger.faults.findAll && !ledger.faults.delete ==>
                CommunityKeys(ledger.rows, name) == wanted.Keys
    {
      var taskSets := ScanConfigs.GenerateTask(gc, name, cfg, listTags);
      DesiredTasksWellFormed(old(gc.configs), name, cfg, listTags);
      Reconcile(taskSets);
    }

    /**
     * The body of generateTask after the wanted tasks are known: clears the
     * stale rows, then saves every wanted task, whether or not the clearing
     * failed.
     */
    method Reconcile(taskSets: TaskMap)
      requires ledger.Valid()
      requires forall k :: k in taskSets ==> IsNewTaskOf(name, taskSets[k])
      modifies ledger
      ensures ledger.Valid()
      ensures name != "" ==> Others(ledger.rows, name) == Others(old(ledger.rows), name)
      ensures Reconcilable(name, taskSets) && Reliable(ledger.faults, taskSets) ==>
                && (forall k :: k in taskSets ==> Placed(old(ledger.rows), ledger.rows, taskSets[k]))
                && taskSets.Keys <= CommunityKeys(ledger.rows, name)
      ensures Reconcilable(name, taskSets) && Reliable(ledger.faults, taskSets) &&
              name !in ledger.faults.findAll && !ledger.faults.delete ==>
                CommunityKeys(ledger.rows, name) == taskSets.Keys
    {
      ghost var rows0 := ledger.rows;
      ghost var next0 := ledger.nextId;
      ghost var good := Reconcilable(name, taskSets) && Reliable(ledger.faults, taskSets);
      var clearErr := ClearOldTasks(taskSets);
      ghost var rows1 := ledger.rows;
      ghost var cleared := name !in ledger.faults.findAll && !ledger.faults.delete;
      SavesStart(rows0, rows1, name, taskSets, good, cleared);
      var todo := taskSets.Keys;
      while todo != {}
        invariant todo <= taskSets.Keys
        invariant ledger.Valid() && ledger.nextId >= next0
        invariant name != "" ==> Others(ledger.rows, name) == Others(rows0, name)
        invariant good ==> SaveProgress(rows0, rows1, ledger.rows, name, taskSets, todo)
        decreases todo
      {
        HasKey(todo);
        var k :| k in todo;
        SaveWanted(rows0, next0, rows1, taskSets, todo, k, good);
        todo := todo - {k};
      }
      SavesDone(rows0, rows1, ledger.rows, name, taskSets, good, cleared);
    }

    /** One pass of generateTask's save loop: saveTask on the wanted task under key k. */
    method SaveWanted(ghost rows0: Rows, ghost next0: int, ghost rows1: Rows, taskSets: TaskMap,
                      ghost todo: set<string>, k: string, ghost good: bool)
      requires Consistent(rows0, next0) && ledger.Valid() && ledger.nextId >= next0
      requires k in todo && todo <= taskSets.Keys
      requires forall j :: j in taskSets ==> IsNewTaskOf(name, taskSets[j])
      requires good ==> Reconcilable(name, taskSets) && Reliable(ledger.faults, taskSets)
      requires good ==> SaveProgress(rows0, rows1, ledger.rows, name, taskSets, todo)
      modifies ledger
      ensures ledger.Valid() && ledger.nextId >= next0
      ensures name != "" ==> Others(ledger.rows, name) == Others(old(ledger.rows), name)
      ensures good ==> SaveProgress(rows0, rows1, ledger.rows, name, taskSets, todo - {k})
    {
      ghost var rows := ledger.rows;
      ghost var next := ledger.nextId;
      var _ := SaveTask(taskSets[k]);
      SaveStep(rows0, next0, rows1, rows, next, ledger.rows, ledger.faults, name, taskSets, todo, k, good);
    }
  }

  /** The save loop's invariant: saved tasks placed, the rest untouched, saved keys added. */
  ghost predicate SaveProgress(rows0: Rows, rows1: Rows, rows: Rows, name: string, wanted: TaskMap, todo: set<string>) {
    && (forall k :: k in wanted && k !in todo ==> Placed(rows0, rows, wanted[k]))
    && (forall k :: k in todo && k in wanted ==> Untouched(rows0, rows, wanted[k]))
    && CommunityKeys(rows, name) == CommunityKeys(rows1, name) + (wanted.Keys - todo)
  }

  /** What the clearing leaves for the save loop to start from. */
  lemma SavesStart(rows0: Rows, rows1: Rows, name: string, wanted: TaskMap, good: bool, cleared: bool)
    requires StaleIds(rows0, name, wanted) == {} ==> rows1 == rows0
    requires StaleIds(rows0, name, wanted) != {} ==> rows1 == rows0 || rows1 == rows0 - StaleIds(rows0, name, wanted)
    requires cleared && StaleIds(rows0, name, wanted) != {} ==> rows1 == rows0 - StaleIds(rows0, name, wanted)
    requires good ==> Reconcilable(name, wanted)
    ensures name != "" ==> Others(rows1, name) == Others(rows0, name)
    ensures good ==> SaveProgress(rows0, rows1, rows1, name, wanted, wanted.Keys)
    ensures cleared ==> CommunityKeys(rows1, name) <= wanted.Keys
  {
    if name != "" {
      ClearKeepsOthers(rows0, name, wanted);
    }
    if good && wanted != map[] {
      HasKey(wanted.Keys);
      var k :| k in wanted;
      assert name != "";
      ClearKeepsWantedRows(rows0, name, wanted);
    }
    if cleared {
      ClearedKeysWanted(rows0, rows1, name, wanted);
    }
  }

  /** Once the stale rows are gone, every key left in the community is wanted. */
  lemma ClearedKeysWanted(rows0: Rows, rows1: Rows, name: string, wanted: TaskMap)
    requires StaleIds(rows0, name, wanted) == {} ==> rows1 == rows0
    requires StaleIds(rows0, name, wanted) != {} ==> rows1 == rows0 - StaleIds(rows0, name, wanted)
    ensures CommunityKeys(rows1, name) <= wanted.Keys
  {
    var stale := StaleIds(rows0, name, wanted);
    forall key | key in CommunityKeys(rows1, name) ensures key in wanted {
      var x :| x in rows1 && rows1[x].community == name && RowKey(rows1[x]) == key;
      assert x in rows0 && x !in stale && rows1[x] == rows0[x];
    }
  }

  /** What the save loop leaves once every wanted task is saved. */
  lemma SavesDone(rows0: Rows, rows1: Rows, rows: Rows, name: string, wanted: TaskMap, good: bool, cleared: bool)
    requires good ==> SaveProgress(rows0, rows1, rows, name, wanted, {})
    requires good && cleared ==> CommunityKeys(rows1, name) <= wanted.Keys
    ensures good ==> (forall k :: k in wanted ==> Placed(rows0, rows, wanted[k])) && wanted.Keys <= CommunityKeys(rows, name)
    ensures good && cleared ==> CommunityKeys(rows, name) == wanted.Keys
  {
  }

  /**
   * One pass of the save loop keeps the loop's invariants: the other
   * communities' rows stay, the saved task is placed, the tasks still to
   * come are untouched and the saved key joins the community's keys.
   */
  lemma SaveStep(rows0: Rows, next0: int, rows1: Rows, rows: Rows, next: int, rows': Rows, f: Faults,
                 name: string, wanted: TaskMap, todo: set<string>, k: string, good: bool)
    requires Consistent(rows0, next0) && Consistent(rows, next) && next >= next0
    requires k in todo && todo <= wanted.Keys && IsNewTaskOf(name, wanted[k])
    requires var t := wanted[k];
             t.UniqueKey() in f.find || SavedTask(rows, t).UniqueKey() in f.save ==> rows' == rows
    requires var t := wanted[k];
             t.UniqueKey() !in f.find && SavedTask(rows, t).UniqueKey() !in f.save ==> rows' == Stored(rows, next, SavedTask(rows, t))
    requires good ==> Reconcilable(name, wanted) && Reliable(f, wanted) && SaveProgress(rows0, rows1, rows, name, wanted, todo)
    ensures name != "" ==> Others(rows', name) == Others(rows, name)
    ensures good ==> SaveProgress(rows0, rows1, rows', name, wanted, todo - {k})
  {
    var t := wanted[k];
    SaveShape(rows, next, t);
    if MatchingIds(rows, t) != {} {
      var id := MinOf(MatchingIds(rows, t));
      var d := rows[id].(interval := t.interval, arch := Join(t.arch, ArchSep));
      if name != "" && rows' != rows {
        OthersAfterWrite(rows, id, d, name);
      }
      if good {
        MatchedRowKey(t, rows[id]);
        UpdateStep(rows0, rows, name, wanted, k);
        KeepsProgress(rows0, rows1, rows, rows', name, wanted, todo, k);
      }
    } else {
      var d := ToTaskDO(t.(id := next));
      if name != "" && rows' != rows {
        OthersAfterWrite(rows, next, d, name);
      }
      if good {
        InsertStep(rows0, next0, rows, next, name, wanted, k);
        KeepsProgress(rows0, rows1, rows, rows', name, wanted, todo, k);
      }
    }
  }

  /** A write that places task k and leaves the other wanted tasks untouched advances the save loop. */
  lemma KeepsProgress(rows0: Rows, rows1: Rows, rows: Rows, rows': Rows, name: string, wanted: TaskMap, todo: set<string>, k: string)
    requires k in todo && todo <= wanted.Keys
    requires SaveProgress(rows0, rows1, rows, name, wanted, todo)
    requires Placed(rows0, rows', wanted[k])
    requires forall j :: j in wanted && j != k ==> Untouched(rows, rows', wanted[j])
    requires CommunityKeys(rows', name) == CommunityKeys(rows, name) + {k}
    ensures SaveProgress(rows0, rows1, rows', name, wanted, todo - {k})
  {
    forall j | j in wanted && j !in todo - {k} ensures Placed(rows0, rows', wanted[j]) {
      if j != k {
        PlacedKept(rows0, rows, rows', wanted[j]);
      }
    }
  }

  /** A placed task stays placed across a write that leaves its matches untouched. */
  lemma PlacedKept(rows0: Rows, rows: Rows, rows': Rows, t: Task)
    requires Placed(rows0, rows, t) && Untouched(rows, rows', t)
    ensures Placed(rows0, rows', t)
  {
  }

  /** A save that updates the first match of a fresh task in place. */
  lemma UpdateStep(rows0: Rows, rows: Rows, name: string, wanted: TaskMap, k: string)
    requires Reconcilable(name, wanted) && k in wanted
    requires MatchingIds(rows, wanted[k]) != {}
    requires Untouched(rows0, rows, wanted[k])
    ensures var t := wanted[k];
            var id := MinOf(MatchingIds(rows, t));
            var rows' := rows[id := rows[id].(interval := t.interval, arch := Join(t.arch, ArchSep))];
            && Placed(rows0, rows', t)
            && (forall j :: j in wanted && j != k ==> Untouched(rows, rows', wanted[j]))
            && CommunityKeys(rows', name) == CommunityKeys(rows, name) + {k}
  {
    var t := wanted[k];
    var id := MinOf(MatchingIds(rows, t));
    var d := rows[id].(interval := t.interval, arch := Join(t.arch, ArchSep));
    var rows' := rows[id := d];
    MatchedRowKey(t, rows[id]);
    MatchedRowKey(t, d);
    MatchingAfterWrite(rows, id, d, t);
    assert MatchingIds(rows', t) == MatchingIds(rows, t);
    KeysAfterWrite(rows, id, d, name);
    forall j | j in wanted && j != k ensures Untouched(rows, rows', wanted[j]) {
      MatchingAfterWrite(rows, id, d, wanted[j]);
    }
  }

  /** A save that inserts a fresh task with no match at the next id. */
  lemma InsertStep(rows0: Rows, next0: int, rows: Rows, next: int, name: string, wanted: TaskMap, k: string)
    requires Consistent(rows0, next0) && Consistent(rows, next) && next >= next0
    requires Reconcilable(name, wanted) && k in wanted
    requires MatchingIds(rows, wanted[k]) == {}
    requires Untouched(rows0, rows, wanted[k])
    ensures var t := wanted[k];
            var rows' := rows[next := ToTaskDO(t.(id := next))];
            && Placed(rows0, rows', t)
            && (forall j :: j in wanted && j != k ==> Untouched(rows, rows', wanted[j]))
            && CommunityKeys(rows', name) == CommunityKeys(rows, name) + {k}
  {
    var t := wanted[k];
    var d := ToTaskDO(t.(id := next));
    var rows' := rows[next := d];
    assert next !in rows && next !in rows0;
    TaskRoundTrip(t.(id := next));
    MatchingAfterWrite(rows, next, d, t);
    assert MatchesProbe(t, d);
    assert MatchingIds(rows', t) == {next};
    KeysAfterWrite(rows, next, d, name);
    forall j | j in wanted && j != k ensures Untouched(rows, rows', wanted[j]) {
      MatchingAfterWrite(rows, next, d, wanted[j]);
      if MatchesProbe(wanted[j], d) {
        MatchedRowKey(wanted[j], d);
        assert false;
      }
    }
  }
}
