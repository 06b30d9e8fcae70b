/**
 * The task service of scanning/app/task.go: one pass that (re)builds the
 * handler of every community whose scan configuration changed, and one
 * pass that runs every due task of every handler and stamps it.
 *
 * The package-level maps of handlers and configuration shas become fields
 * of the service object, and the domain package's global defaults are the
 * GlobalConfig object the service is built with. Handlers run one after
 * another; Go's map gives them no order, so the model picks any.
 */
module TaskServices {
  import opened Wrappers
  import opened Tasks
  import opened ScanConfigs
  import opened TaskStore
  import opened Ledgers
  import opened Platforms
  import opened CommunityHandlers

  /** getPlatform: a client for the two known hosting services, nothing for any other. */
  function GetPlatform(c: Community): (p: Option<Platform>)
    ensures p.Some? <==> c.platform == PlatformGitee || c.platform == PlatformGithub
    ensures p.Some? ==> p.value.community == c && p.value.output == Output("", "")
    ensures p.Some? ==> (p.value.kind == Gitee <==> c.platform == PlatformGitee)
  {
    if c.platform == PlatformGitee then Some(Platform(Gitee, c, Output("", "")))
    else if c.platform == PlatformGithub then Some(Platform(Github, c, Output("", "")))
    else None
  }

  // ---------------------------------------------------------------------
  // GenerateTask, as a fold over the communities
  // ---------------------------------------------------------------------

  /**
   * What a GenerateTask pass leaves: the recorded shas, the global
   * defaults, and the platform of each community it reconciled.
   */
  datatype Plan = Plan(shas: map<string, string>, configs: Globals, platforms: map<string, Platform>)

  /** The configuration a community's platform yields, if the platform is known and the download succeeds. */
  function Fetched(c: Community, download: ConfigSource): Option<(Platform, Download)> {
    match GetPlatform(c)
    case None => None
    case Some(plat) =>
      match download(plat)
      case Failure(_) => None
      case Success(d) => Some((plat, d))
  }

  /** The platform a reconciled community's handler gets: pointed at its configuration's output. */
  function HandlerPlatform(plat: Platform, d: Download): Platform {
    plat.SetOutput(d.config.scanner.global.output)
  }

  /**
   * One community of the pass: an unknown platform or a failed download is
   * skipped, a sha equal to the recorded one is recorded again and
   * skipped, and any other sha is recorded and the community reconciled.
   */
  function PlanStep(p: Plan, c: Community, download: ConfigSource): Plan {
    match Fetched(c, download)
    case None => p
    case Some((plat, d)) =>
      if c.name in p.shas && p.shas[c.name] == d.sha then p
      else Plan(p.shas[c.name := d.sha], WithDefaults(p.configs, c.name, d.config),
                p.platforms[c.name := HandlerPlatform(plat, d)])
  }

  /** The communities in order, each by PlanStep. */
  function PlanOf(shas: map<string, string>, configs: Globals, cs: seq<Community>, download: ConfigSource): Plan
    decreases |cs|
  {
    if cs == [] then Plan(shas, configs, map[])
    else PlanStep(PlanOf(shas, configs, cs[..|cs| - 1], download), cs[|cs| - 1], download)
  }

  /**
   * What one community of the pass gives to reconcile: nothing when it is
   * skipped, otherwise the tasks its downloaded configuration asks for,
   * worked out against the defaults filed so far.
   */
  ghost function WantedStep(p: Plan, w: map<string, TaskMap>, c: Community, download: ConfigSource, listTags: TagLister): map<string, TaskMap> {
    match Fetched(c, download)
    case None => w
    case Some((plat, d)) =>
      if c.name in p.shas && p.shas[c.name] == d.sha then w
      else w[c.name := DesiredTasks(p.configs, c.name, d.config, listTags)]
  }

  /** The wanted tasks of every community the pass reconciles, by WantedStep alongside PlanStep. */
  ghost function WantedOf(shas: map<string, string>, configs: Globals, cs: seq<Community>,
                          download: ConfigSource, listTags: TagLister): map<string, TaskMap>
    decreases |cs|
  {
    if cs == [] then map[]
    else
      var init := cs[..|cs| - 1];
      WantedStep(PlanOf(shas, configs, init, download), WantedOf(shas, configs, init, download, listTags),
                 cs[|cs| - 1], download, listTags)
  }

  /** The names of the communities. */
  ghost function Names(cs: seq<Community>): set<string> {
    set i | 0 <= i < |cs| :: cs[i].name
  }

  /** The pass reconciles only listed names, and has wanted tasks for exactly the names it reconciles. */
  lemma {:induction false} WantedKeys(shas: map<string, string>, configs: Globals, cs: seq<Community>,
                                      download: ConfigSource, listTags: TagLister)
    ensures WantedOf(shas, configs, cs, download, listTags).Keys == PlanOf(shas, configs, cs, download).platforms.Keys
    ensures PlanOf(shas, configs, cs, download).platforms.Keys <= Names(cs)
    decreases |cs|
  {
    if cs != [] {
      var init := cs[..|cs| - 1];
      WantedKeys(shas, configs, init, download, listTags);
      assert Names(init) <= Names(cs) by {
        forall n | n in Names(init) ensures n in Names(cs) {
          var i :| 0 <= i < |init| && init[i].name == n;
          assert cs[i] == init[i];
        }
      }
      assert cs[|cs| - 1].name in Names(cs);
    }
  }

  /** With distinct names, the next community's name is not among those before it. */
  lemma FreshName(cs: seq<Community>, i: int)
    requires DistinctNames(cs) && 0 <= i < |cs|
    ensures cs[i].name !in Names(cs[..i])
  {
  }

  predicate DistinctNames(cs: seq<Community>) {
    forall i, j :: 0 <= i < j < |cs| ==> cs[i].name != cs[j].name
  }

  /** The recorded shas already hold every fetchable community's sha. */
  predicate ShasCurrent(shas: map<string, string>, cs: seq<Community>, download: ConfigSource) {
    forall i :: 0 <= i < |cs| && Fetched(cs[i], download).Some? ==>
      cs[i].name in shas && shas[cs[i].name] == Fetched(cs[i], download).value.1.sha
  }

  /** With every sha current, a pass records nothing new and reconciles nothing. */
  lemma {:induction false} CurrentShasReconcileNothing(shas: map<string, string>, configs: Globals, cs: seq<Community>, download: ConfigSource)
    requires ShasCurrent(shas, cs, download)
    ensures PlanOf(shas, configs, cs, download) == Plan(shas, configs, map[])
    decreases |cs|
  {
    if cs != [] {
      var init := cs[..|cs| - 1];
      assert ShasCurrent(shas, init, download) by {
        forall i | 0 <= i < |init| && Fetched(init[i], download).Some?
          ensures init[i].name in shas && shas[init[i].name] == Fetched(init[i], download).value.1.sha
        {
          assert init[i] == cs[i];
        }
      }
      CurrentShasReconcileNothing(shas, configs, init, download);
    }
  }

  /** After a pass over communities with distinct names, every fetchable community's sha is recorded. */
  lemma {:induction false} PassRecordsShas(shas: map<string, string>, configs: Globals, cs: seq<Community>, download: ConfigSource)
    requires DistinctNames(cs)
    ensures ShasCurrent(PlanOf(shas, configs, cs, download).shas, cs, download)
    decreases |cs|
  {
    if cs != [] {
      var init := cs[..|cs| - 1];
      var c := cs[|cs| - 1];
      var p := PlanOf(shas, configs, init, download);
      PassRecordsShas(shas, configs, init, download);
      var s := PlanOf(shas, configs, cs, download).shas;
      forall i | 0 <= i < |cs| && Fetched(cs[i], download).Some?
        ensures cs[i].name in s && s[cs[i].name] == Fetched(cs[i], download).value.1.sha
      {
        if i < |cs| - 1 {
          assert cs[i] == init[i];
          assert cs[i].name != c.name;
        }
      }
    }
  }

  /**
   * Running GenerateTask twice with the same downloads reconciles nothing
   * the second time, as long as no two communities share a name.
   */
  lemma SecondPassReconcilesNothing(shas: map<string, string>, configs: Globals, configs': Globals,
                                    cs: seq<Community>, download: ConfigSource)
    requires DistinctNames(cs)
    ensures var first := PlanOf(shas, configs, cs, download);
            PlanOf(first.shas, configs', cs, download) == Plan(first.shas, configs', map[])
  {
    PassRecordsShas(shas, configs, cs, download);
    CurrentShasReconcileNothing(PlanOf(shas, configs, cs, download).shas, configs', cs, download);
  }

  /** Every platform in the plan is that of a listed community of that name whose configuration was fetched. */
  predicate PlatformsFetched(platforms: map<string, Platform>, cs: seq<Community>, download: ConfigSource) {
    forall n :: n in platforms ==>
      exists i :: 0 <= i < |cs| && cs[i].name == n && Fetched(cs[i], download).Some? &&
        platforms[n] == HandlerPlatform(Fetched(cs[i], download).value.0, Fetched(cs[i], download).value.1)
  }

  /**
   * A pass reconciles only communities whose platform is known and whose
   * download succeeded, each with its platform pointed at the
   * configuration's output.
   */
  lemma {:induction false} PlannedPlatforms(shas: map<string, string>, configs: Globals, cs: seq<Community>, download: ConfigSource)
    ensures PlatformsFetched(PlanOf(shas, configs, cs, download).platforms, cs, download)
    decreases |cs|
  {
    if cs != [] {
      var init := cs[..|cs| - 1];
      var c := cs[|cs| - 1];
      PlannedPlatforms(shas, configs, init, download);
      var p0 := PlanOf(shas, configs, init, download);
      var p := PlanOf(shas, configs, cs, download);
      forall n | n in p.platforms
        ensures exists i :: 0 <= i < |cs| && cs[i].name == n && Fetched(cs[i], download).Some? &&
                  p.platforms[n] == HandlerPlatform(Fetched(cs[i], download).value.0, Fetched(cs[i], download).value.1)
      {
        if n in p0.platforms && p.platforms[n] == p0.platforms[n] {
          var i :| 0 <= i < |init| && init[i].name == n && Fetched(init[i], download).Some? &&
                   p0.platforms[n] == HandlerPlatform(Fetched(init[i], download).value.0, Fetched(init[i], download).value.1);
          assert cs[i] == init[i];
        } else {
          assert cs[|cs| - 1] == c && c.name == n;
        }
      }
    }
  }

  /** A community that never yields a configuration gets no handler, and its recorded sha stays as it was. */
  lemma {:induction false} UnfetchedUntouched(shas: map<string, string>, configs: Globals, cs: seq<Community>,
                                              download: ConfigSource, n: string)
    requires forall i :: 0 <= i < |cs| && cs[i].name == n ==> Fetched(cs[i], download).None?
    ensures var p := PlanOf(shas, configs, cs, download);
            n !in p.platforms && (n in p.shas <==> n in shas) && (n in shas ==> p.shas[n] == shas[n])
    decreases |cs|
  {
    if cs != [] {
      var init := cs[..|cs| - 1];
      assert forall i :: 0 <= i < |init| && init[i].name == n ==> Fetched(init[i], download).None? by {
        forall i | 0 <= i < |init| && init[i].name == n ensures Fetched(init[i], download).None? {
          assert init[i] == cs[i];
        }
      }
      UnfetchedUntouched(shas, configs, init, download, n);
    }
  }

  /** The handlers of a pass so far: new ones on the plan's platforms, the others from `handlers0`. */
  ghost predicate HandlersTrack(hs: map<string, CommunityHandler>, handlers0: map<string, CommunityHandler>,
                                platforms: map<string, Platform>) {
    && hs.Keys == handlers0.Keys + platforms.Keys
    && (forall n :: n in platforms ==> hs[n].platform == platforms[n])
    && (forall n :: n in handlers0 && n !in platforms ==> hs[n] == handlers0[n])
  }

  /** Each handler is filed under its community's name and works on the ledger `l`. */
  ghost predicate Filed(hs: map<string, CommunityHandler>, l: Ledger) {
    forall n :: n in hs ==> hs[n].name == n && hs[n].ledger == l
  }

  /** Filing a handler of `n` on platform `p` under `n` is planning `p` for `n`. */
  lemma HandlersStep(hs: map<string, CommunityHandler>, handlers0: map<string, CommunityHandler>,
                     platforms: map<string, Platform>, n: string, h: CommunityHandler, p: Platform, l: Ledger)
    requires HandlersTrack(hs, handlers0, platforms) && h.platform == p
    requires Filed(hs, l) && h.name == n && h.ledger == l
    ensures HandlersTrack(hs[n := h], handlers0, platforms[n := p])
    ensures Filed(hs[n := h], l)
  {
  }

  // ---------------------------------------------------------------------
  // The rows a GenerateTask pass leaves
  // ---------------------------------------------------------------------

  /** The rows of one community, under their ids. */
  ghost function CommunityRows(rows: Rows, name: string): Rows {
    map id | id in rows && rows[id].community == name :: rows[id]
  }

  /** Every community's wanted tasks belong to that community. */
  ghost predicate OwnTasks(w: map<string, TaskMap>) {
    forall n, k :: n in w && k in w[n] ==> w[n][k].community == n
  }

  /**
   * The rows of a pass so far, from the rows `rows0` it started with: when
   * every name is non-empty, the communities not reconciled keep their rows
   * exactly; when the names are also distinct, each reconciled community
   * holds what generateTask promises for its wanted tasks, measured from
   * the community's own rows at the start.
   */
  ghost predicate RowsFollow(rows0: Rows, rows: Rows, f: Faults, w: map<string, TaskMap>, named: bool, distinct: bool) {
    && OwnTasks(w)
    && (named ==> forall n :: n !in w ==> CommunityRows(rows, n) == CommunityRows(rows0, n))
    && (named && distinct ==> forall n :: n in w ==> HoldsWanted(CommunityRows(rows0, n), rows, f, n, w[n]))
  }

  /** Rewriting other communities leaves this one's rows. */
  lemma OthersKeepCommunity(a: Rows, b: Rows, m: string, n: string)
    requires Others(a, m) == Others(b, m) && m != n
    ensures CommunityRows(a, n) == CommunityRows(b, n)
  {
    assert forall id :: id in CommunityRows(a, n) ==> id in Others(a, m);
    assert forall id :: id in CommunityRows(b, n) ==> id in Others(b, m);
  }

  /** A probe with a non-empty community sees only that community's rows. */
  lemma MatchingIsLocal(a: Rows, b: Rows, t: Task)
    requires t.community != "" && CommunityRows(a, t.community) == CommunityRows(b, t.community)
    ensures MatchingIds(a, t) == MatchingIds(b, t)
    ensures forall id :: id in MatchingIds(a, t) ==> a[id] == b[id]
  {
    assert forall id :: id in MatchingIds(a, t) ==> id in CommunityRows(a, t.community);
    assert forall id :: id in MatchingIds(b, t) ==> id in CommunityRows(b, t.community);
  }

  /** What generateTask leaves for a community still holds when only that community's earlier rows are compared. */
  lemma RestrictBefore(b: Rows, a: Rows, f: Faults, n: string, wanted: TaskMap)
    requires forall k :: k in wanted ==> wanted[k].community == n
    requires HoldsWanted(b, a, f, n, wanted)
    ensures HoldsWanted(CommunityRows(b, n), a, f, n, wanted)
  {
    var cb := CommunityRows(b, n);
    if AllFullIdentity(wanted) && Reliable(f, wanted) {
      assert CommunityRows(cb, n) == CommunityRows(b, n);
      forall k | k in wanted ensures Placed(cb, a, wanted[k]) {
        MatchingIsLocal(cb, b, wanted[k]);
      }
    }
  }

  /** What generateTask leaves for a community depends only on that community's later rows. */
  lemma AfterIsLocal(b: Rows, a1: Rows, a2: Rows, f: Faults, n: string, wanted: TaskMap)
    requires forall k :: k in wanted ==> wanted[k].community == n
    requires CommunityRows(a1, n) == CommunityRows(a2, n)
    requires HoldsWanted(b, a1, f, n, wanted)
    ensures HoldsWanted(b, a2, f, n, wanted)
  {
    assert CommunityKeys(a1, n) == CommunityKeys(a2, n) by {
      assert forall id :: id in a1 && a1[id].community == n ==> id in CommunityRows(a1, n);
      assert forall id :: id in a2 && a2[id].community == n ==> id in CommunityRows(a2, n);
    }
    if AllFullIdentity(wanted) && Reliable(f, wanted) {
      forall k | k in wanted ensures Placed(b, a2, wanted[k]) {
        MatchingIsLocal(a1, a2, wanted[k]);
      }
    }
  }

  /**
   * Reconciling community `n` with wanted tasks `wn` keeps RowsFollow: the
   * new handler leaves every other community's rows, and, with distinct
   * names, `n` has not been reconciled before in the pass.
   */
  lemma RowsStep(rows0: Rows, rows: Rows, rows': Rows, f: Faults, w: map<string, TaskMap>, n: string, wn: TaskMap,
                 named: bool, distinct: bool)
    requires RowsFollow(rows0, rows, f, w, named, distinct)
    requires named ==> n != ""
    requires distinct ==> n !in w
    requires forall k :: k in wn ==> wn[k].community == n
    requires n != "" ==> Others(rows', n) == Others(rows, n)
    requires HoldsWanted(rows, rows', f, n, wn)
    ensures RowsFollow(rows0, rows', f, w[n := wn], named, distinct)
  {
    var w' := w[n := wn];
    if named {
      forall m | m !in w' ensures CommunityRows(rows', m) == CommunityRows(rows0, m) {
        OthersKeepCommunity(rows', rows, n, m);
      }
      if distinct {
        forall m | m in w' ensures HoldsWanted(CommunityRows(rows0, m), rows', f, m, w'[m]) {
          if m == n {
            RestrictBefore(rows, rows', f, n, wn);
          } else {
            OthersKeepCommunity(rows', rows, n, m);
            AfterIsLocal(CommunityRows(rows0, m), rows, rows', f, m, w[m]);
          }
        }
      }
    }
  }

  // ---------------------------------------------------------------------
  // ExecTask, as a function of the rows
  // ---------------------------------------------------------------------

  /** A row after UpdateLastScanTime and Save: its last scan time is now. */
  function Stamp(d: TaskDO, now: Time): (d': TaskDO)
    ensures d'.lastScanTime == now && d'.(lastScanTime := d.lastScanTime) == d
  {
    d.(lastScanTime := now)
  }

  /** The row is left as it was or is stamped. */
  predicate Touched(d: TaskDO, d': TaskDO, now: Time) {
    d' == d || d' == Stamp(d, now)
  }

  /** A handler stamps a row of its community that is due, whose report uploads and whose save does not fail. */
  predicate StampsRow(p: Platform, f: Faults, d: TaskDO, scan: ArchScanner, upload: Uploader, now: Time, stamp: string) {
    && TaskStore.ToTask(d).IsNeedToScan(now)
    && HandleOutcome(p, TaskStore.ToTask(d), scan, upload, stamp) == None
    && RowKey(d) !in f.save
  }

  /** The row belongs to a handler among `names` whose FindAll succeeds, and that handler stamps it. */
  predicate Scanned(hs: map<string, CommunityHandler>, names: set<string>, f: Faults, d: TaskDO,
                    scan: ArchScanner, upload: Uploader, now: Time, stamp: string) {
    && d.community in names && d.community in hs
    && d.community !in f.findAll
    && StampsRow(hs[d.community].platform, f, d, scan, upload, now, stamp)
  }

  /** The rows after the handlers of `names` have run. */
  ghost function ExecRows(rows: Rows, hs: map<string, CommunityHandler>, names: set<string>, f: Faults,
                          scan: ArchScanner, upload: Uploader, now: Time, stamp: string): Rows {
    map id | id in rows :: if Scanned(hs, names, f, rows[id], scan, upload, now, stamp) then Stamp(rows[id], now) else rows[id]
  }

  /** The rows after one handler has run over the rows FindAll gives it. */
  ghost function ExecCommunityRows(rows: Rows, name: string, p: Platform, f: Faults,
                                   scan: ArchScanner, upload: Uploader, now: Time, stamp: string): Rows {
    map id | id in rows ::
      if InCommunity(name, rows[id]) && StampsRow(p, f, rows[id], scan, upload, now, stamp) then Stamp(rows[id], now) else rows[id]
  }

  /**
   * A stamped row of a task whose interval is non-negative and fits the
   * 64-bit duration is no longer due at the same instant, so a second
   * ExecTask at that instant, with the same scanner, uploader and store
   * faults, stamps nothing more. ExecKeepsStamped drops that sameness for
   * the rows the first pass stamped.
   */
  lemma ExecIsIdempotent(rows: Rows, hs: map<string, CommunityHandler>, names: set<string>, f: Faults,
                         scan: ArchScanner, upload: Uploader, now: Time, stamp: string)
    requires now != ZeroTime
    requires forall id :: id in rows ==> 0 <= rows[id].interval <= MaxIntervalSeconds
    ensures var once := ExecRows(rows, hs, names, f, scan, upload, now, stamp);
            ExecRows(once, hs, names, f, scan, upload, now, stamp) == once
  {
    var once := ExecRows(rows, hs, names, f, scan, upload, now, stamp);
    var twice := ExecRows(once, hs, names, f, scan, upload, now, stamp);
    forall id | id in once ensures twice[id] == once[id] {
      if Scanned(hs, names, f, rows[id], scan, upload, now, stamp) {
        StampedTaskNotDue(TaskStore.ToTask(rows[id]), now);
        assert TaskStore.ToTask(once[id]) == TaskStore.ToTask(rows[id]).UpdateLastScanTime(now);
      }
    }
  }

  /**
   * A later pass at the same instant leaves every row the first pass
   * stamped, whatever its handlers, scanner, uploader and store faults
   * answer, as long as the row's wrapped duration is not negative. Rows the
   * first pass skipped, say because their upload failed, may be stamped by
   * the later pass.
   */
  lemma ExecKeepsStamped(rows: Rows, hs: map<string, CommunityHandler>, names: set<string>, f: Faults,
                         scan: ArchScanner, upload: Uploader, stamp: string,
                         hs': map<string, CommunityHandler>, names': set<string>, f': Faults,
                         scan': ArchScanner, upload': Uploader, stamp': string, now: Time)
    requires now != ZeroTime
    ensures var once := ExecRows(rows, hs, names, f, scan, upload, now, stamp);
            var twice := ExecRows(once, hs', names', f', scan', upload', now, stamp');
            forall id :: id in rows && once[id] != rows[id] && IntervalDuration(rows[id].interval) >= 0 ==> twice[id] == once[id]
  {
  }

  /** Every stamped row was due, and the rows no handler of `names` stamps are exactly as they were. */
  lemma ExecStampsOnlyDueRows(rows: Rows, hs: map<string, CommunityHandler>, names: set<string>, f: Faults,
                              scan: ArchScanner, upload: Uploader, now: Time, stamp: string)
    ensures var after := ExecRows(rows, hs, names, f, scan, upload, now, stamp);
            && after.Keys == rows.Keys
            && (forall id :: id in rows && after[id] != rows[id] ==>
                  after[id] == Stamp(rows[id], now) && TaskStore.ToTask(rows[id]).IsNeedToScan(now) && rows[id].community in names)
            && (forall id :: id in rows && rows[id].community !in names ==> after[id] == rows[id])
  {
  }

  /** With no handler run yet, the rows are as they were. */
  lemma ExecNothing(rows: Rows, hs: map<string, CommunityHandler>, f: Faults,
                    scan: ArchScanner, upload: Uploader, now: Time, stamp: string)
    ensures ExecRows(rows, hs, {}, f, scan, upload, now, stamp) == rows
  {
    var after := ExecRows(rows, hs, {}, f, scan, upload, now, stamp);
    assert forall id :: id in rows ==> after[id] == rows[id];
  }

  /** Once a handler has run, its rows are as ExecRows says, given that no earlier handler touched them. */
  lemma ExecStep(rows0: Rows, rows: Rows, rows': Rows, hs: map<string, CommunityHandler>, done: set<string>, n: string, f: Faults,
                 scan: ArchScanner, upload: Uploader, now: Time, stamp: string)
    requires n != "" && n in hs && n !in done
    requires rows == ExecRows(rows0, hs, done, f, scan, upload, now, stamp)
    requires n in f.findAll ==> rows' == rows
    requires n !in f.findAll ==> rows' == ExecCommunityRows(rows, n, hs[n].platform, f, scan, upload, now, stamp)
    ensures rows' == ExecRows(rows0, hs, done + {n}, f, scan, upload, now, stamp)
  {
    var goal := ExecRows(rows0, hs, done + {n}, f, scan, upload, now, stamp);
    forall id | id in rows0 ensures rows'[id] == goal[id] {
      if rows0[id].community == n {
        assert rows[id] == rows0[id];
      }
    }
  }

  // ---------------------------------------------------------------------
  // The service
  // ---------------------------------------------------------------------

  class TaskService {
    const communities: seq<Community>
    const ledger: Ledger
    const globalConfig: GlobalConfig
    var handlers: map<string, CommunityHandler>
    var scanConfigSha: map<string, string>

    /** Each handler is filed under its community's name and works on the service's ledger. */
    ghost predicate Valid()
      reads this, ledger
    {
      && ledger.Valid()
      && Filed(handlers, ledger)
    }

    constructor(cs: seq<Community>, ledger: Ledger, gc: GlobalConfig)
      requires ledger.Valid()
      ensures Valid()
      ensures communities == cs && this.ledger == ledger && globalConfig == gc
      ensures handlers == map[] && scanConfigSha == map[]
    {
      communities := cs;
      this.ledger := ledger;
      globalConfig := gc;
      handlers := map[];
      scanConfigSha := map[];
    }

    /** shaCheckNotChange: records the new sha and tells whether it equals the one recorded before. */
    method ShaCheckNotChange(communityName: string, newSha: string) returns (same: bool)
      modifies this
      ensures scanConfigSha == old(scanConfigSha)[communityName := newSha]
      ensures same <==> communityName in old(scanConfigSha) && old(scanConfigSha)[communityName] == newSha
      ensures handlers == old(handlers)
    {
      var ok := communityName in scanConfigSha;
      var oldSha := if ok then scanConfigSha[communityName] else "";
      scanConfigSha := scanConfigSha[communityName := newSha];
      if !ok {
        return false;
      }
      return oldSha == newSha;
    }

    /**
     * The service's state agrees with a plan: the shas and defaults are the
     * plan's, the plan's communities have new handlers on the plan's
     * platforms, the other handlers are those of `handlers0`, and the rows
     * follow the wanted tasks `wanted` of the reconciled communities from
     * the rows `rows0`, as RowsFollow says.
     */
    ghost predicate Tracks(plan: Plan, wanted: map<string, TaskMap>, handlers0: map<string, CommunityHandler>, rows0: Rows,
                           named: bool, distinct: bool)
      reads this, ledger, globalConfig
    {
      && scanConfigSha == plan.shas
      && globalConfig.configs == plan.configs
      && HandlersTrack(handlers, handlers0, plan.platforms)
      && wanted.Keys == plan.platforms.Keys
      && RowsFollow(rows0, ledger.rows, ledger.faults, wanted, named, distinct)
    }

    /**
     * GenerateTask: for each community in order, fetch its configuration
     * and, when its sha changed, reconcile its tasks with a new handler and
     * file that handler under the community's name. When no name is empty,
     * the communities it does not reconcile keep their rows; when the names
     * are also distinct, each reconciled community holds what its handler's
     * generateTask promises for the tasks its downloaded configuration wants.
     */
    method GenerateTask(download: ConfigSource, listTags: TagLister)
      requires Valid()
      modifies this, ledger, globalConfig
      ensures Valid()
      ensures var plan := PlanOf(old(scanConfigSha), old(globalConfig.configs), communities, download);
              && scanConfigSha == plan.shas
              && globalConfig.configs == plan.configs
              && handlers.Keys == old(handlers).Keys + plan.platforms.Keys
              && (forall n :: n in plan.platforms ==> handlers[n].platform == plan.platforms[n])
              && (forall n :: n in old(handlers) && n !in plan.platforms ==> handlers[n] == old(handlers)[n])
      ensures (forall i :: 0 <= i < |communities| ==> communities[i].name != "") ==>
                var plan := PlanOf(old(scanConfigSha), old(globalConfig.configs), communities, download);
                forall n :: n !in plan.platforms ==> CommunityRows(ledger.rows, n) == CommunityRows(old(ledger.rows), n)
      ensures (forall i :: 0 <= i < |communities| ==> communities[i].name != "") && DistinctNames(communities) ==>
                var plan := PlanOf(old(scanConfigSha), old(globalConfig.configs), communities, download);
                var wanted := WantedOf(old(scanConfigSha), old(globalConfig.configs), communities, download, listTags);
                && wanted.Keys == plan.platforms.Keys
                && forall n :: n in plan.platforms ==>
                     HoldsWanted(CommunityRows(old(ledger.rows), n), ledger.rows, ledger.faults, n, wanted[n])
    {
      ghost var rows0 := ledger.rows;
      ghost var shas0 := scanConfigSha;
      ghost var configs0 := globalConfig.configs;
      ghost var handlers0 := handlers;
      ghost var named := forall i :: 0 <= i < |communities| ==> communities[i].name != "";
      ghost var distinct := DistinctNames(communities);
      for i := 0 to |communities|
        invariant Valid()
        invariant Tracks(PlanOf(shas0, configs0, communities[..i], download), WantedOf(shas0, configs0, communities[..i], download, listTags),
                         handlers0, rows0, named, distinct)
      {
        assert communities[..i + 1][..i] == communities[..i];
        assert communities[..i + 1][i] == communities[i];
        WantedKeys(shas0, configs0, communities[..i], download, listTags);
        if distinct {
          FreshName(communities, i);
        }
        GenerateFor(communities[i], download, listTags, PlanOf(shas0, configs0, communities[..i], download),
                    WantedOf(shas0, configs0, communities[..i], download, listTags), handlers0, rows0, named, distinct);
      }
      assert communities[..|communities|] == communities;
    }

    /** One community of GenerateTask's loop. */
    method GenerateFor(c: Community, download: ConfigSource, listTags: TagLister,
                       ghost plan: Plan, ghost wanted: map<string, TaskMap>, ghost handlers0: map<string, CommunityHandler>,
                       ghost rows0: Rows, ghost named: bool, ghost distinct: bool)
      requires Valid() && Tracks(plan, wanted, handlers0, rows0, named, distinct)
      requires named ==> c.name != ""
      requires distinct ==> c.name !in plan.platforms
      modifies this, ledger, globalConfig
      ensures Valid() && Tracks(PlanStep(plan, c, download), WantedStep(plan, wanted, c, download, listTags), handlers0, rows0, named, distinct)
    {
      var plat := GetPlatform(c);
      if plat.None? {
        return;
      }
      var fetched := download(plat.value);
      if fetched.Failure? {
        return;
      }
      var cfg := fetched.value.config;
      var same := ShaCheckNotChange(c.name, fetched.value.sha);
      if same {
        assert scanConfigSha == plan.shas;
        return;
      }
      ghost var before := plan.(shas := scanConfigSha);
      assert Tracks(before, wanted, handlers0, rows0, named, distinct);
      var p := plat.value.SetOutput(cfg.scanner.global.output);
      Reconfigure(c, p, cfg, listTags, before, wanted, handlers0, rows0, named, distinct);
    }

    /** The second half of GenerateFor: a new handler reconciles the community and is filed under its name. */
    method Reconfigure(c: Community, p: Platform, cfg: ScanConfig, listTags: TagLister,
                       ghost plan: Plan, ghost wanted: map<string, TaskMap>, ghost handlers0: map<string, CommunityHandler>,
                       ghost rows0: Rows, ghost named: bool, ghost distinct: bool)
      requires Valid() && Tracks(plan, wanted, handlers0, rows0, named, distinct)
      requires named ==> c.name != ""
      requires distinct ==> c.name !in plan.platforms
      modifies this, ledger, globalConfig
      ensures Valid()
      ensures Tracks(Plan(plan.shas, WithDefaults(plan.configs, c.name, cfg), plan.platforms[c.name := p]),
                     wanted[c.name := DesiredTasks(plan.configs, c.name, cfg, listTags)], handlers0, rows0, named, distinct)
    {
      var handler := NewHandler(c, p, cfg, listTags, plan.configs, rows0, wanted, named, distinct);
      HandlersStep(handlers, handlers0, plan.platforms, c.name, handler, p, ledger);
      handlers := handlers[c.name := handler];
    }

    /**
     * A handler for the community over the shared ledger, after it has
     * reconciled the community's tasks with those its configuration wants.
     */
    method NewHandler(c: Community, p: Platform, cfg: ScanConfig, listTags: TagLister,
                      ghost configs: Globals, ghost rows0: Rows, ghost wanted: map<string, TaskMap>, ghost named: bool, ghost distinct: bool)
      returns (handler: CommunityHandler)
      requires ledger.Valid() && globalConfig.configs == configs
      requires RowsFollow(rows0, ledger.rows, ledger.faults, wanted, named, distinct)
      requires named ==> c.name != ""
      requires distinct ==> c.name !in wanted
      modifies ledger, globalConfig
      ensures handler.name == c.name && handler.ledger == ledger && handler.platform == p
      ensures ledger.Valid()
      ensures globalConfig.configs == WithDefaults(configs, c.name, cfg)
      ensures c.name != "" ==> Others(ledger.rows, c.name) == Others(old(ledger.rows), c.name)
      ensures HoldsWanted(old(ledger.rows), ledger.rows, ledger.faults, c.name, DesiredTasks(configs, c.name, cfg, listTags))
      ensures RowsFollow(rows0, ledger.rows, ledger.faults, wanted[c.name := DesiredTasks(configs, c.name, cfg, listTags)], named, distinct)
    {
      ghost var rows := ledger.rows;
      handler := new CommunityHandler(c, ledger, p);
      handler.GenerateTask(cfg, globalConfig, listTags);
      DesiredTasksWellFormed(configs, c.name, cfg, listTags);
      RowsStep(rows0, rows, ledger.rows, ledger.faults, wanted, c.name, DesiredTasks(configs, c.name, cfg, listTags), named, distinct);
    }

    /**
     * The body of ExecTask for one handler: FindAll its community's rows,
     * and stamp and save each due task whose report uploads.
     */
    method ExecCommunity(h: CommunityHandler, scan: ArchScanner, upload: Uploader, now: Time, stamp: string)
      requires h.ledger == ledger && ledger.Valid()
      modifies ledger
      ensures ledger.Valid()
      ensures h.name in ledger.faults.findAll ==> ledger.rows == old(ledger.rows)
      ensures h.name !in ledger.faults.findAll ==>
                ledger.rows == ExecCommunityRows(old(ledger.rows), h.name, h.platform, ledger.faults, scan, upload, now, stamp)
    {
      var found := h.ledger.FindAll(h.name);
      if found.Failure? {
        return;
      }
      ghost var rows := ledger.rows;
      CommunityTasksSpec(rows, h.name);
      ExecTasks(h, found.value, scan, upload, now, stamp, rows);
      HandledAreCommunity(rows, found.value, TaskIds(found.value), h.name);
    }

    /** ExecTask's inner loop over the tasks FindAll returned, in order. */
    method ExecTasks(h: CommunityHandler, tasks: seq<Task>, scan: ArchScanner, upload: Uploader, now: Time, stamp: string,
                     ghost rows: Rows)
      requires h.ledger == ledger && ledger.Valid() && ledger.rows == rows && Listed(rows, tasks)
      modifies ledger
      ensures ledger.Valid()
      ensures ledger.rows == StampIds(rows, TaskIds(tasks), h.platform, ledger.faults, scan, upload, now, stamp)
    {
      ghost var handled: seq<int> := [];
      for i := 0 to |tasks|
        invariant ledger.Valid()
        invariant handled == TaskIds(tasks)[..i]
        invariant ledger.rows == StampIds(rows, handled, h.platform, ledger.faults, scan, upload, now, stamp)
      {
        ListedStep(rows, tasks, i);
        ExecOne(h, tasks[i], scan, upload, now, stamp, rows, handled);
        handled := handled + [tasks[i].id];
      }
      assert handled == TaskIds(tasks);
    }

    /** One task of ExecTask's inner loop: skip it unless due, handle it, stamp it and save it. */
    method ExecOne(h: CommunityHandler, task: Task, scan: ArchScanner, upload: Uploader, now: Time, stamp: string,
                   ghost rows: Rows, ghost handled: seq<int>)
      requires h.ledger == ledger && ledger.Valid()
      requires task.id in rows && task == TaskStore.ToTask(rows[task.id]) && task.id !in handled
      requires ledger.rows == StampIds(rows, handled, h.platform, ledger.faults, scan, upload, now, stamp)
      modifies ledger
      ensures ledger.Valid()
      ensures ledger.rows == StampIds(rows, handled + [task.id], h.platform, ledger.faults, scan, upload, now, stamp)
    {
      StampIdsStep(rows, handled, task.id, h.platform, ledger.faults, scan, upload, now, stamp);
      StampRoundTrip(rows[task.id], now);
      if !task.IsNeedToScan(now) {
        return;
      }
      var err := h.HandleTask(task, scan, upload, stamp);
      if err.Some? {
        return;
      }
      var scanned := task.UpdateLastScanTime(now);
      var _ := h.ledger.Save(scanned);
    }

    /**
     * ExecTask: every handler, in any order, runs its community's due tasks.
     * No row appears or disappears and each row is at most stamped; when no
     * community has the empty name, which FindAll would read as every
     * community, the result is exactly ExecRows.
     */
    method ExecTask(scan: ArchScanner, upload: Uploader, now: Time, stamp: string)
      requires Valid()
      modifies ledger
      ensures Valid()
      ensures ledger.rows.Keys == old(ledger.rows).Keys
      ensures forall id :: id in old(ledger.rows) ==> Touched(old(ledger.rows)[id], ledger.rows[id], now)
      ensures "" !in handlers ==>
                ledger.rows == ExecRows(old(ledger.rows), handlers, handlers.Keys, ledger.faults, scan, upload, now, stamp)
    {
      ghost var rows0 := ledger.rows;
      var names := handlers.Keys;
      ghost var done: set<string> := {};
      ExecNothing(rows0, handlers, ledger.faults, scan, upload, now, stamp);
      while names != {}
        invariant names <= handlers.Keys && done == handlers.Keys - names
        invariant Valid()
        invariant ledger.rows.Keys == rows0.Keys
        invariant forall id :: id in rows0 ==> Touched(rows0[id], ledger.rows[id], now)
        invariant "" !in handlers ==> ledger.rows == ExecRows(rows0, handlers, done, ledger.faults, scan, upload, now, stamp)
        decreases names
      {
        HasKey(names);
        var n :| n in names;
        var h := handlers[n];
        ghost var rows := ledger.rows;
        ExecCommunity(h, scan, upload, now, stamp);
        TouchedStep(rows0, rows, ledger.rows, n, h.platform, ledger.faults, scan, upload, now, stamp);
        if "" !in handlers {
          ExecStep(rows0, rows, ledger.rows, handlers, done, n, ledger.faults, scan, upload, now, stamp);
        }
        names := names - {n};
        done := done + {n};
      }
      assert done == handlers.Keys;
    }
  }

  /** The ids of the tasks, in order. */
  function TaskIds(tasks: seq<Task>): (ids: seq<int>)
    ensures |ids| == |tasks| && forall k :: 0 <= k < |tasks| ==> ids[k] == tasks[k].id
  {
    seq(|tasks|, k requires 0 <= k < |tasks| => tasks[k].id)
  }

  /** Each task is the reading of the row under its id, and the ids ascend: what FindAll returns. */
  ghost predicate Listed(rows: Rows, tasks: seq<Task>) {
    && (forall k :: 0 <= k < |tasks| ==> tasks[k].id in rows && tasks[k] == TaskStore.ToTask(rows[tasks[k].id]))
    && (forall j, k :: 0 <= j < k < |tasks| ==> tasks[j].id < tasks[k].id)
  }

  /** The task at position i is listed and was not handled before. */
  lemma ListedStep(rows: Rows, tasks: seq<Task>, i: int)
    requires Listed(rows, tasks) && 0 <= i < |tasks|
    ensures tasks[i].id in rows && tasks[i] == TaskStore.ToTask(rows[tasks[i].id])
    ensures tasks[i].id !in TaskIds(tasks)[..i]
    ensures TaskIds(tasks)[..i + 1] == TaskIds(tasks)[..i] + [tasks[i].id]
  {
    var ids := TaskIds(tasks);
    forall j | 0 <= j < i ensures ids[..i][j] != tasks[i].id {
      assert ids[..i][j] == tasks[j].id < tasks[i].id;
    }
    assert ids[..i + 1] == ids[..i] + [ids[i]];
  }

  /** The rows after the tasks with the given ids have been handled. */
  ghost function StampIds(rows: Rows, ids: seq<int>, p: Platform, f: Faults,
                          scan: ArchScanner, upload: Uploader, now: Time, stamp: string): Rows {
    map id | id in rows :: if id in ids && StampsRow(p, f, rows[id], scan, upload, now, stamp) then Stamp(rows[id], now) else rows[id]
  }

  /** Handling one more task stamps its row when the handler stamps it, and changes nothing else. */
  lemma StampIdsStep(rows: Rows, ids: seq<int>, id: int, p: Platform, f: Faults,
                     scan: ArchScanner, upload: Uploader, now: Time, stamp: string)
    requires id in rows && id !in ids
    ensures id in StampIds(rows, ids, p, f, scan, upload, now, stamp)
    ensures StampIds(rows, ids, p, f, scan, upload, now, stamp)[id] == rows[id]
    ensures StampIds(rows, ids + [id], p, f, scan, upload, now, stamp) ==
              if StampsRow(p, f, rows[id], scan, upload, now, stamp)
              then StampIds(rows, ids, p, f, scan, upload, now, stamp)[id := Stamp(rows[id], now)]
              else StampIds(rows, ids, p, f, scan, upload, now, stamp)
  {
  }

  /** Reading a row, stamping the task and writing it back stamps the row; the key does not change. */
  lemma StampRoundTrip(d: TaskDO, now: Time)
    ensures ToTaskDO(TaskStore.ToTask(d).UpdateLastScanTime(now)) == Stamp(d, now)
    ensures TaskStore.ToTask(d).UpdateLastScanTime(now).UniqueKey() == RowKey(d)
  {
    RowRoundTrip(d);
  }

  /** The ids of the tasks FindAll returned are the community's ids, so handling them all gives ExecCommunityRows. */
  lemma HandledAreCommunity(rows: Rows, tasks: seq<Task>, handled: seq<int>, name: string)
    requires forall k :: 0 <= k < |tasks| ==> tasks[k].id in CommunityIds(rows, name)
    requires forall id :: id in CommunityIds(rows, name) ==> exists k :: 0 <= k < |tasks| && tasks[k].id == id
    requires |handled| == |tasks| && forall j :: 0 <= j < |tasks| ==> handled[j] == tasks[j].id
    ensures forall p: Platform, f: Faults, scan: ArchScanner, upload: Uploader, now: Time, stamp: string ::
              StampIds(rows, handled, p, f, scan, upload, now, stamp) == ExecCommunityRows(rows, name, p, f, scan, upload, now, stamp)
  {
    forall id ensures id in handled <==> id in CommunityIds(rows, name) {
      if id in CommunityIds(rows, name) {
        var k :| 0 <= k < |tasks| && tasks[k].id == id;
        assert handled[k] == id;
      }
    }
  }

  /** Each handler at most stamps rows, so the rows stay as they were or stamped. */
  lemma TouchedStep(rows0: Rows, rows: Rows, rows': Rows, n: string, p: Platform, f: Faults,
                    scan: ArchScanner, upload: Uploader, now: Time, stamp: string)
    requires rows.Keys == rows0.Keys && forall id :: id in rows0 ==> Touched(rows0[id], rows[id], now)
    requires rows' == rows || rows' == ExecCommunityRows(rows, n, p, f, scan, upload, now, stamp)
    ensures rows'.Keys == rows0.Keys && forall id :: id in rows0 ==> Touched(rows0[id], rows'[id], now)
  {
  }
}
