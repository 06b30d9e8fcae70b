/**
 * Expansion of one community's scan configuration into the desired task set
 * (scanning/domain/scan_config.go, and GenerateTask of scanning/domain/task.go,
 * which lives here because it drives the expansion).
 *
 * The package-level `globalConfig` map is the GlobalConfig object; the
 * functions that read it take its value as a parameter. The registry tag
 * listing is an opaque TagLister. The caller's `tasks` map, which Go passes
 * by reference, goes in and comes back out of each expanding method.
 */
module ScanConfigs {
  import opened Wrappers
  import opened Strings
  import opened Util
  import opened Primitive
  import opened Tasks

  datatype Output = Output(repo: string, path: string)

  datatype Global = Global(defaultArches: seq<string>, defaultInterval: string, output: Output)

  datatype Scanner = Scanner(global: Global)

  /** A repo-level entry: every tag of every listed image. */
  datatype Repo = Repo(namespace: string, registry: string, images: seq<string>, arches: seq<string>, interval: string)

  /** An image-level entry: explicitly listed `registry/namespace/image:tag` strings. */
  datatype Image = Image(image: string, tags: seq<Tag>)

  datatype Tag = Tag(tag: string, interval: string, arches: seq<string>, disable: bool)

  datatype ScanConfig = ScanConfig(version: string, scanner: Scanner, repos: seq<Repo>, images: seq<Image>)

  /** The community defaults known so far, by community name. */
  type Globals = map<string, Global>

  type TaskMap = map<string, Task>

  /** Lists the tags of registry/namespace/image; None when the listing fails. */
  type TagLister = (string, string, string) -> Option<seq<string>>

  datatype GenError =
    | TagDisabled
    | BadInterval(cause: IntervalError)
    | NoInterval
    | TagFormatError
    | ImageTagFormatError
    | BadRegistry(registryCause: RegistryError)
    | TagListFailed

  /** The process-wide registry of community defaults (`globalConfig`). */
  class GlobalConfig {
    var configs: Globals

    constructor ()
      ensures configs == map[]
    {
      configs := map[];
    }

    /** initGlobalConfig: records (or replaces) the defaults of one community. */
    method InitGlobalConfig(community: string, cfg: Global)
      modifies this
      ensures configs == old(configs)[community := cfg]
    {
      configs := configs[community := cfg];
    }
  }

  /** The entry's own architectures, else the community default, else none. */
  function GetArches(g: Globals, community: string, arches: seq<string>): (r: seq<string>)
    ensures |arches| != 0 ==> r == arches
    ensures |arches| == 0 && community in g ==> r == g[community].defaultArches
    ensures |arches| == 0 && community !in g ==> r == []
  {
    if |arches| != 0 then arches
    else if community !in g then []
    else g[community].defaultArches
  }

  /** The entry's own interval if it parses, else the community default parsed, else "no interval". */
  function GetInterval(g: Globals, community: string, intervalString: string): (r: Result<int, GenError>)
    ensures StringToInterval(intervalString).Success? ==> r == Success(StringToInterval(intervalString).value)
    ensures StringToInterval(intervalString).Failure? && community !in g ==> r == Failure(NoInterval)
    ensures StringToInterval(intervalString).Failure? && community in g ==>
              var d := StringToInterval(g[community].defaultInterval);
              r == if d.Success? then Success(d.value) else Failure(BadInterval(d.error))
  {
    match StringToInterval(intervalString)
    case Success(interval) => Success(interval)
    case Failure(_) =>
      if community !in g then Failure(NoInterval)
      else
        match StringToInterval(g[community].defaultInterval)
        case Success(interval) => Success(interval)
        case Failure(e) => Failure(BadInterval(e))
  }

  /** A fresh task: id 0 and never scanned. Fails only for a registry outside the whitelist. */
  function ToTask(community: string, registry: string, namespace: string, image: string, tag: string,
                  arch: seq<string>, interval: int): (r: Result<Task, GenError>)
    ensures r.Success? <==> IsSupported(registry)
    ensures r.Failure? ==> r.error == BadRegistry(UnsupportedRegistry)
    ensures r.Success? ==> r.value == Task(0, community, Registry(registry), namespace, image, tag, arch, interval, ZeroTime)
  {
    match NewRegistry(registry)
    case Failure(e) => Failure(BadRegistry(e))
    case Success(reg) => Success(Task(0, community, reg, namespace, image, tag, arch, interval, ZeroTime))
  }

  /** What ToTask produces for a whitelisted registry. */
  predicate IsNewTaskOf(community: string, t: Task) {
    t.community == community && t.id == 0 && t.lastScanTime == ZeroTime && IsSupported(t.registry.name)
  }

  /**
   * Tag.ToTask: disabled tags fail first, then the interval; only then the
   * `registry/namespace/image:tag` shape (three "/" parts, the last of two ":" parts).
   */
  function TagToTask(g: Globals, community: string, t: Tag): (r: Result<Task, GenError>)
    ensures t.disable ==> r == Failure(TagDisabled)
    ensures !t.disable && GetInterval(g, community, t.interval).Failure? ==>
              r == Failure(GetInterval(g, community, t.interval).error)
    ensures !t.disable && GetInterval(g, community, t.interval).Success? && |Split(t.tag, '/')| != 3 ==>
              r == Failure(TagFormatError)
    ensures !t.disable && GetInterval(g, community, t.interval).Success? && |Split(t.tag, '/')| == 3 &&
            |Split(Split(t.tag, '/')[2], ':')| != 2 ==>
              r == Failure(ImageTagFormatError)
    ensures !t.disable && GetInterval(g, community, t.interval).Success? && |Split(t.tag, '/')| == 3 &&
            |Split(Split(t.tag, '/')[2], ':')| == 2 ==>
              && (r.Success? <==> IsSupported(Split(t.tag, '/')[0]))
              && (r.Failure? ==> r == Failure(BadRegistry(UnsupportedRegistry)))
    ensures r.Success? ==>
              && var parts := Split(t.tag, '/');
              && |parts| == 3 && |Split(parts[2], ':')| == 2
              && r.value == Task(0, community, Registry(parts[0]), parts[1], Split(parts[2], ':')[0],
                                 Split(parts[2], ':')[1], GetArches(g, community, t.arches),
                                 GetInterval(g, community, t.interval).value, ZeroTime)
  {
    if t.disable then Failure(TagDisabled)
    else
      var arch := GetArches(g, community, t.arches);
      match GetInterval(g, community, t.interval)
      case Failure(e) => Failure(e)
      case Success(interval) =>
        var split := Split(t.tag, '/');
        if |split| != 3 then Failure(TagFormatError)
        else
          var split2 := Split(split[2], ':');
          if |split2| != 2 then Failure(ImageTagFormatError)
          else ToTask(community, split[0], split[1], split2[0], split2[1], arch, interval)
  }

  /** Only docker.io and quay.io can be listed; any other registry is an error. */
  function AllTagsOfImage(repo: Repo, image: string, listTags: TagLister): (r: Result<seq<string>, GenError>)
    ensures repo.registry != RegistryDocker && repo.registry != RegistryQuay ==> r == Failure(TagListFailed)
    ensures repo.registry == RegistryDocker || repo.registry == RegistryQuay ==>
              (r.Success? <==> listTags(repo.registry, repo.namespace, image).Some?) &&
              (r.Success? ==> r.value == listTags(repo.registry, repo.namespace, image).value)
  {
    if repo.registry == RegistryDocker || repo.registry == RegistryQuay then
      match listTags(repo.registry, repo.namespace, image)
      case Some(tags) => Success(tags)
      case None => Failure(TagListFailed)
    else Failure(TagListFailed)
  }

  // ---------------------------------------------------------------------
  // The desired task set. Each genTask loop is the sequence of the results
  // it computes, in order; the sequence of successful tasks is written into
  // a map, each under its own key, so that later writes win.
  // ---------------------------------------------------------------------

  type Results = seq<Result<Task, GenError>>

  /** Writes each task under its UniqueKey, in order. */
  function Insert(m: TaskMap, ts: seq<Task>): TaskMap
    decreases |ts|
  {
    if |ts| == 0 then m
    else
      var last := ts[|ts| - 1];
      Insert(m, ts[..|ts| - 1])[last.UniqueKey() := last]
  }

  function OkTask(r: Result<Task, GenError>): seq<Task> {
    if r.Success? then [r.value] else []
  }

  /** The successful tasks of a sequence of results, in order; failures are skipped. */
  function Successes(rs: Results): seq<Task>
    decreases |rs|
  {
    if |rs| == 0 then [] else Successes(rs[..|rs| - 1]) + OkTask(rs[|rs| - 1])
  }

  function Flatten(tss: seq<seq<Task>>): seq<Task>
    decreases |tss|
  {
    if |tss| == 0 then [] else Flatten(tss[..|tss| - 1]) + tss[|tss| - 1]
  }

  /** ToTask for every listed tag of one repo-level image. */
  function TagListResults(community: string, repo: Repo, image: string, tags: seq<string>,
                          arch: seq<string>, interval: int): Results
  {
    seq(|tags|, i requires 0 <= i < |tags| => ToTask(community, repo.registry, repo.namespace, image, tags[i], arch, interval))
  }

  /** What one image of a repo entry contributes: nothing when its tags cannot be listed. */
  function ImageOfRepoCandidates(community: string, repo: Repo, arch: seq<string>, interval: int,
                                 listTags: TagLister, image: string): seq<Task>
  {
    match AllTagsOfImage(repo, image, listTags)
    case Failure(_) => []
    case Success(tags) => Successes(TagListResults(community, repo, image, tags, arch, interval))
  }

  function ImagesOfRepoParts(community: string, repo: Repo, arch: seq<string>, interval: int,
                             listTags: TagLister): seq<seq<Task>>
  {
    seq(|repo.images|, j requires 0 <= j < |repo.images| =>
      ImageOfRepoCandidates(community, repo, arch, interval, listTags, repo.images[j]))
  }

  /** What Repo.genTask writes: nothing at all when the interval cannot be resolved. */
  function RepoCandidates(g: Globals, community: string, repo: Repo, listTags: TagLister): seq<Task> {
    match GetInterval(g, community, repo.interval)
    case Failure(_) => []
    case Success(interval) =>
      Flatten(ImagesOfRepoParts(community, repo, GetArches(g, community, repo.arches), interval, listTags))
  }

  function ReposParts(g: Globals, community: string, repos: seq<Repo>, listTags: TagLister): seq<seq<Task>> {
    seq(|repos|, i requires 0 <= i < |repos| => RepoCandidates(g, community, repos[i], listTags))
  }

  /** Tag.ToTask for every tag entry of one image entry. */
  function TagResults(g: Globals, community: string, tags: seq<Tag>): Results {
    seq(|tags|, i requires 0 <= i < |tags| => TagToTask(g, community, tags[i]))
  }

  /** What Image.genTask writes: one task per tag entry whose Tag.ToTask succeeds. */
  function TagCandidates(g: Globals, community: string, tags: seq<Tag>): seq<Task> {
    Successes(TagResults(g, community, tags))
  }

  function ImagesParts(g: Globals, community: string, images: seq<Image>): seq<seq<Task>> {
    seq(|images|, j requires 0 <= j < |images| => TagCandidates(g, community, images[j].tags))
  }

  /** The defaults in effect while a community's configuration is expanded. */
  function WithDefaults(g: Globals, community: string, cfg: ScanConfig): Globals {
    g[community := cfg.scanner.global]
  }

  function RepoLevelCandidates(g: Globals, community: string, cfg: ScanConfig, listTags: TagLister): seq<Task> {
    Flatten(ReposParts(WithDefaults(g, community, cfg), community, cfg.repos, listTags))
  }

  function ImageLevelCandidates(g: Globals, community: string, cfg: ScanConfig): seq<Task> {
    Flatten(ImagesParts(WithDefaults(g, community, cfg), community, cfg.images))
  }

  /** The result of GenerateTask: repo-level candidates first, then image-level ones. */
  function DesiredTasks(g: Globals, community: string, cfg: ScanConfig, listTags: TagLister): TaskMap {
    Insert(Insert(map[], RepoLevelCandidates(g, community, cfg, listTags)), ImageLevelCandidates(g, community, cfg))
  }

  predicate WellKeyed(m: TaskMap) {
    forall k :: k in m ==> m[k].UniqueKey() == k
  }

  predicate AllNewTasksOf(community: string, ts: seq<Task>) {
    forall t :: t in ts ==> IsNewTaskOf(community, t)
  }

  // ---------------------------------------------------------------------
  // Lemmas about Insert
  // ---------------------------------------------------------------------

  lemma {:induction false} InsertAppend(m: TaskMap, a: seq<Task>, b: seq<Task>)
    ensures Insert(m, a + b) == Insert(Insert(m, a), b)
    decreases |b|
  {
    if |b| == 0 {
      assert a + b == a;
    } else {
      var b' := b[..|b| - 1];
      assert (a + b)[..|a + b| - 1] == a + b';
      assert (a + b)[|a + b| - 1] == b[|b| - 1];
      InsertAppend(m, a, b');
    }
  }

  /** Writing one more (possibly failed) result is one map update, or none. */
  lemma InsertOk(m: TaskMap, ts: seq<Task>, r: Result<Task, GenError>)
    ensures r.Success? ==> Insert(m, ts + OkTask(r)) == Insert(m, ts)[r.value.UniqueKey() := r.value]
    ensures r.Failure? ==> Insert(m, ts + OkTask(r)) == Insert(m, ts)
  {
    if r.Success? {
      assert (ts + [r.value])[..|ts|] == ts;
    } else {
      assert ts + [] == ts;
    }
  }

  /** Writing a sequence of tasks into m overrides m exactly on the keys the sequence writes. */
  lemma {:induction false} InsertOverrides(m: TaskMap, ts: seq<Task>)
    ensures Insert(m, ts) == m + Insert(map[], ts)
    decreases |ts|
  {
    if |ts| > 0 {
      InsertOverrides(m, ts[..|ts| - 1]);
    }
  }

  lemma {:induction false} InsertWellKeyed(m: TaskMap, ts: seq<Task>)
    requires WellKeyed(m)
    ensures WellKeyed(Insert(m, ts))
    decreases |ts|
  {
    if |ts| > 0 {
      InsertWellKeyed(m, ts[..|ts| - 1]);
    }
  }

  /** The keys of the result are those of m plus the keys of the written tasks. */
  lemma {:induction false} InsertKeys(m: TaskMap, ts: seq<Task>)
    ensures Insert(m, ts).Keys == m.Keys + set i | 0 <= i < |ts| :: ts[i].UniqueKey()
    decreases |ts|
  {
    if |ts| > 0 {
      var n := |ts| - 1;
      InsertKeys(m, ts[..n]);
      var before := set i | 0 <= i < n :: ts[..n][i].UniqueKey();
      var after := set i | 0 <= i < |ts| :: ts[i].UniqueKey();
      assert before == set i | 0 <= i < n :: ts[i].UniqueKey();
      assert after == before + {ts[n].UniqueKey()};
    }
  }

  /** Every value not inherited from m is one of the written tasks. */
  lemma {:induction false} InsertValues(m: TaskMap, ts: seq<Task>, k: string)
    requires k in Insert(m, ts)
    ensures (k in m && Insert(m, ts)[k] == m[k]) || exists i :: 0 <= i < |ts| && Insert(m, ts)[k] == ts[i]
    decreases |ts|
  {
    if |ts| > 0 {
      var n := |ts| - 1;
      if k != ts[n].UniqueKey() {
        InsertValues(m, ts[..n], k);
        if exists i :: 0 <= i < n && Insert(m, ts[..n])[k] == ts[..n][i] {
          var i :| 0 <= i < n && Insert(m, ts[..n])[k] == ts[..n][i];
          assert Insert(m, ts)[k] == ts[i];
        }
      } else {
        assert Insert(m, ts)[k] == ts[n];
      }
    }
  }

  /** The last task written under a key is the one the map holds. */
  lemma {:induction false} InsertLastWins(m: TaskMap, ts: seq<Task>, i: nat)
    requires i < |ts|
    requires forall j :: i < j < |ts| ==> ts[j].UniqueKey() != ts[i].UniqueKey()
    ensures ts[i].UniqueKey() in Insert(m, ts) && Insert(m, ts)[ts[i].UniqueKey()] == ts[i]
    decreases |ts|
  {
    if i < |ts| - 1 {
      InsertLastWins(m, ts[..|ts| - 1], i);
    }
  }

  // ---------------------------------------------------------------------
  // Lemmas about the candidates
  // ---------------------------------------------------------------------

  lemma {:induction false} SuccessesContents(rs: Results, t: Task)
    ensures t in Successes(rs) <==> Success(t) in rs
    decreases |rs|
  {
    if |rs| > 0 {
      var n := |rs| - 1;
      SuccessesContents(rs[..n], t);
      assert rs == rs[..n] + [rs[n]];
    }
  }

  lemma {:induction false} FlattenContents(tss: seq<seq<Task>>, t: Task)
    ensures t in Flatten(tss) <==> exists j :: 0 <= j < |tss| && t in tss[j]
    decreases |tss|
  {
    if |tss| > 0 {
      var n := |tss| - 1;
      FlattenContents(tss[..n], t);
      if exists j :: 0 <= j < n && t in tss[..n][j] {
        var j :| 0 <= j < n && t in tss[..n][j];
        assert tss[..n][j] == tss[j];
      }
      if exists j :: 0 <= j < |tss| && t in tss[j] {
        var j :| 0 <= j < |tss| && t in tss[j];
        if j < n {
          assert tss[..n][j] == tss[j];
        }
      }
    }
  }

  lemma FlattenAllNew(community: string, tss: seq<seq<Task>>)
    requires forall j :: 0 <= j < |tss| ==> AllNewTasksOf(community, tss[j])
    ensures AllNewTasksOf(community, Flatten(tss))
  {
    forall t | t in Flatten(tss) ensures IsNewTaskOf(community, t) {
      FlattenContents(tss, t);
    }
  }

  /** A repo-level image yields exactly the tasks of its listed tags whose ToTask succeeds. */
  lemma ImageOfRepoCandidatesContents(community: string, repo: Repo, arch: seq<string>, interval: int,
                                      listTags: TagLister, image: string, t: Task)
    ensures t in ImageOfRepoCandidates(community, repo, arch, interval, listTags, image) <==>
            && AllTagsOfImage(repo, image, listTags).Success?
            && exists i :: 0 <= i < |AllTagsOfImage(repo, image, listTags).value| &&
                 ToTask(community, repo.registry, repo.namespace, image, AllTagsOfImage(repo, image, listTags).value[i], arch, interval) == Success(t)
  {
    var tags := AllTagsOfImage(repo, image, listTags);
    if tags.Success? {
      var rs := TagListResults(community, repo, image, tags.value, arch, interval);
      SuccessesContents(rs, t);
      if Success(t) in rs {
        var i :| 0 <= i < |rs| && rs[i] == Success(t);
        assert ToTask(community, repo.registry, repo.namespace, image, tags.value[i], arch, interval) == Success(t);
      }
      if exists i :: 0 <= i < |tags.value| &&
           ToTask(community, repo.registry, repo.namespace, image, tags.value[i], arch, interval) == Success(t) {
        var i :| 0 <= i < |tags.value| &&
          ToTask(community, repo.registry, repo.namespace, image, tags.value[i], arch, interval) == Success(t);
        assert rs[i] == Success(t);
      }
    }
  }

  lemma ImageOfRepoCandidatesAreNew(community: string, repo: Repo, arch: seq<string>, interval: int,
                                    listTags: TagLister, image: string)
    ensures AllNewTasksOf(community, ImageOfRepoCandidates(community, repo, arch, interval, listTags, image))
  {
    forall t | t in ImageOfRepoCandidates(community, repo, arch, interval, listTags, image)
      ensures IsNewTaskOf(community, t)
    {
      ImageOfRepoCandidatesContents(community, repo, arch, interval, listTags, image, t);
    }
  }

  /** A repo entry yields tasks only when its interval resolves, and then exactly those of its images. */
  lemma RepoCandidatesContents(g: Globals, community: string, repo: Repo, listTags: TagLister, t: Task)
    ensures t in RepoCandidates(g, community, repo, listTags) <==>
            && GetInterval(g, community, repo.interval).Success?
            && exists j :: 0 <= j < |repo.images| &&
                 t in ImageOfRepoCandidates(community, repo, GetArches(g, community, repo.arches),
                                            GetInterval(g, community, repo.interval).value, listTags, repo.images[j])
  {
    var interval := GetInterval(g, community, repo.interval);
    if interval.Success? {
      var arch := GetArches(g, community, repo.arches);
      var parts := ImagesOfRepoParts(community, repo, arch, interval.value, listTags);
      FlattenContents(parts, t);
      assert forall j :: 0 <= j < |parts| ==>
        parts[j] == ImageOfRepoCandidates(community, repo, arch, interval.value, listTags, repo.images[j]);
    }
  }

  lemma RepoCandidatesAreNew(g: Globals, community: string, repo: Repo, listTags: TagLister)
    ensures AllNewTasksOf(community, RepoCandidates(g, community, repo, listTags))
  {
    var interval := GetInterval(g, community, repo.interval);
    if interval.Success? {
      var arch := GetArches(g, community, repo.arches);
      var parts := ImagesOfRepoParts(community, repo, arch, interval.value, listTags);
      forall j | 0 <= j < |parts| ensures AllNewTasksOf(community, parts[j]) {
        ImageOfRepoCandidatesAreNew(community, repo, arch, interval.value, listTags, repo.images[j]);
      }
      FlattenAllNew(community, parts);
    }
  }

  /** A repo entry whose registry cannot be listed contributes no task at all. */
  lemma UnlistableRegistryContributesNothing(g: Globals, community: string, repo: Repo, listTags: TagLister)
    requires repo.registry != RegistryDocker && repo.registry != RegistryQuay
    ensures RepoCandidates(g, community, repo, listTags) == []
  {
    match GetInterval(g, community, repo.interval)
    case Failure(_) =>
    case Success(interval) =>
      var parts := ImagesOfRepoParts(community, repo, GetArches(g, community, repo.arches), interval, listTags);
      FlattenEmpties(parts);
  }

  /** Flattening parts that are all empty gives nothing. */
  lemma {:induction false} FlattenEmpties(tss: seq<seq<Task>>)
    requires forall j :: 0 <= j < |tss| ==> tss[j] == []
    ensures Flatten(tss) == []
    decreases |tss|
  {
    if |tss| > 0 {
      FlattenEmpties(tss[..|tss| - 1]);
    }
  }

  /** An image entry yields exactly the tasks of its tag entries whose Tag.ToTask succeeds. */
  lemma TagCandidatesContents(g: Globals, community: string, tags: seq<Tag>, t: Task)
    ensures t in TagCandidates(g, community, tags) <==>
            exists i :: 0 <= i < |tags| && TagToTask(g, community, tags[i]) == Success(t)
  {
    var rs := TagResults(g, community, tags);
    SuccessesContents(rs, t);
    if Success(t) in rs {
      var i :| 0 <= i < |rs| && rs[i] == Success(t);
      assert TagToTask(g, community, tags[i]) == Success(t);
    }
    if exists i :: 0 <= i < |tags| && TagToTask(g, community, tags[i]) == Success(t) {
      var i :| 0 <= i < |tags| && TagToTask(g, community, tags[i]) == Success(t);
      assert rs[i] == Success(t);
    }
  }

  lemma TagCandidatesAreNew(g: Globals, community: string, tags: seq<Tag>)
    ensures AllNewTasksOf(community, TagCandidates(g, community, tags))
  {
    forall t | t in TagCandidates(g, community, tags) ensures IsNewTaskOf(community, t) {
      TagCandidatesContents(g, community, tags, t);
    }
  }

  lemma NewTasksWritten(community: string, m: TaskMap, ts: seq<Task>)
    requires forall k :: k in m ==> IsNewTaskOf(community, m[k])
    requires AllNewTasksOf(community, ts)
    ensures forall k :: k in Insert(m, ts) ==> IsNewTaskOf(community, Insert(m, ts)[k])
  {
    forall k | k in Insert(m, ts) ensures IsNewTaskOf(community, Insert(m, ts)[k]) {
      InsertValues(m, ts, k);
    }
  }

  /** Every desired task sits under its own key and is a fresh task of the community. */
  lemma DesiredTasksWellFormed(g: Globals, community: string, cfg: ScanConfig, listTags: TagLister)
    ensures WellKeyed(DesiredTasks(g, community, cfg, listTags))
    ensures forall k :: k in DesiredTasks(g, community, cfg, listTags) ==>
              IsNewTaskOf(community, DesiredTasks(g, community, cfg, listTags)[k])
  {
    var g' := WithDefaults(g, community, cfg);
    var repos := RepoLevelCandidates(g, community, cfg, listTags);
    var images := ImageLevelCandidates(g, community, cfg);
    InsertWellKeyed(map[], repos);
    InsertWellKeyed(Insert(map[], repos), images);
    var rparts := ReposParts(g', community, cfg.repos, listTags);
    forall j | 0 <= j < |rparts| ensures AllNewTasksOf(community, rparts[j]) {
      RepoCandidatesAreNew(g', community, cfg.repos[j], listTags);
    }
    FlattenAllNew(community, rparts);
    var iparts := ImagesParts(g', community, cfg.images);
    forall j | 0 <= j < |iparts| ensures AllNewTasksOf(community, iparts[j]) {
      TagCandidatesAreNew(g', community, cfg.images[j].tags);
    }
    FlattenAllNew(community, iparts);
    NewTasksWritten(community, map[], repos);
    NewTasksWritten(community, Insert(map[], repos), images);
  }

  /** Image-level entries are applied after repo-level ones and win on a shared key. */
  lemma DesiredIsRepoLevelOverriddenByImageLevel(g: Globals, community: string, cfg: ScanConfig, listTags: TagLister)
    ensures DesiredTasks(g, community, cfg, listTags) ==
              Insert(map[], RepoLevelCandidates(g, community, cfg, listTags)) + Insert(map[], ImageLevelCandidates(g, community, cfg))
  {
    InsertOverrides(Insert(map[], RepoLevelCandidates(g, community, cfg, listTags)), ImageLevelCandidates(g, community, cfg));
  }

  /** An image path with no separators inside its parts parses back, through Tag.ToTask, to the same image. */
  lemma TagToTaskParsesImagePath(g: Globals, community: string, t: Task, tag: Tag)
    requires tag.tag == t.ImagePath() && !tag.disable && GetInterval(g, community, tag.interval).Success?
    requires IsSupported(t.registry.name)
    requires '/' !in t.namespace && '/' !in t.image && '/' !in t.tag && ':' !in t.image && ':' !in t.tag
    ensures TagToTask(g, community, tag) ==
              Success(Task(0, community, t.registry, t.namespace, t.image, t.tag, GetArches(g, community, tag.arches),
                           GetInterval(g, community, tag.interval).value, ZeroTime))
    ensures TagToTask(g, community, tag).value.UniqueKey() == t.(community := community).UniqueKey()
  {
    SupportedHasNoSeparators(t.registry.name);
    ImagePathSplits(t);
  }

  // ---------------------------------------------------------------------
  // The expanding methods
  // ---------------------------------------------------------------------

  /** The inner loop of Repo.genTask: one task per listed tag of one image, skipping ToTask failures. */
  method ImageOfRepoGenTask(community: string, repo: Repo, image: string, tags: seq<string>,
                            arch: seq<string>, interval: int, tasks: TaskMap) returns (tasks': TaskMap)
    ensures tasks' == Insert(tasks, Successes(TagListResults(community, repo, image, tags, arch, interval)))
  {
    tasks' := tasks;
    ghost var rs := TagListResults(community, repo, image, tags, arch, interval);
    for i := 0 to |tags|
      invariant tasks' == Insert(tasks, Successes(rs[..i]))
    {
      var task := ToTask(community, repo.registry, repo.namespace, image, tags[i], arch, interval);
      assert task == rs[i];
      InsertNextResult(tasks, rs, i);
      if task.Success? {
        tasks' := tasks'[task.value.UniqueKey() := task.value];
      }
    }
    assert rs[..|tags|] == rs;
  }

  /** Writing the successes of the first i+1 results is writing those of the first i, then result i if it succeeded. */
  lemma InsertNextResult(m: TaskMap, rs: Results, i: int)
    requires 0 <= i < |rs|
    ensures rs[i].Success? ==> Insert(m, Successes(rs[..i + 1])) == Insert(m, Successes(rs[..i]))[rs[i].value.UniqueKey() := rs[i].value]
    ensures rs[i].Failure? ==> Insert(m, Successes(rs[..i + 1])) == Insert(m, Successes(rs[..i]))
  {
    assert rs[..i + 1][..i] == rs[..i];
    InsertOk(m, Successes(rs[..i]), rs[i]);
  }

  /** Writing the first j+1 parts is writing the first j, then part j. */
  lemma InsertNextPart(m: TaskMap, parts: seq<seq<Task>>, j: int)
    requires 0 <= j < |parts|
    ensures Insert(m, Flatten(parts[..j + 1])) == Insert(Insert(m, Flatten(parts[..j])), parts[j])
  {
    assert parts[..j + 1][..j] == parts[..j];
    InsertAppend(m, Flatten(parts[..j]), parts[j]);
  }

  /** Repo.genTask: writes every task of every listable image and every whitelisted tag into `tasks`. */
  method RepoGenTask(g: Globals, community: string, repo: Repo, listTags: TagLister, tasks: TaskMap)
    returns (tasks': TaskMap)
    ensures tasks' == Insert(tasks, RepoCandidates(g, community, repo, listTags))
  {
    var arch := GetArches(g, community, repo.arches);
    var interval := GetInterval(g, community, repo.interval);
    tasks' := tasks;
    if interval.Failure? {
      return;
    }
    var iv := interval.value;
    ghost var parts := ImagesOfRepoParts(community, repo, arch, iv, listTags);
    for j := 0 to |repo.images|
      invariant tasks' == Insert(tasks, Flatten(parts[..j]))
    {
      var image := repo.images[j];
      InsertNextPart(tasks, parts, j);
      var tags := AllTagsOfImage(repo, image, listTags);
      if tags.Success? {
        assert parts[j] == Successes(TagListResults(community, repo, image, tags.value, arch, iv));
        tasks' := ImageOfRepoGenTask(community, repo, image, tags.value, arch, iv, tasks');
      } else {
        assert parts[j] == [];
      }
    }
    assert parts[..|repo.images|] == parts;
  }

  /** Image.genTask: writes the task of every enabled, well-formed tag entry, overwriting existing entries. */
  method ImageGenTask(g: Globals, community: string, image: Image, tasks: TaskMap) returns (tasks': TaskMap)
    ensures tasks' == Insert(tasks, TagCandidates(g, community, image.tags))
  {
    tasks' := tasks;
    ghost var rs := TagResults(g, community, image.tags);
    for i := 0 to |image.tags|
      invariant tasks' == Insert(tasks, Successes(rs[..i]))
    {
      var task := TagToTask(g, community, image.tags[i]);
      assert task == rs[i];
      InsertNextResult(tasks, rs, i);
      if task.Success? {
        tasks' := tasks'[task.value.UniqueKey() := task.value];
      }
    }
    assert rs[..|image.tags|] == rs;
  }

  /** GenerateTask: registers the community's defaults, then expands repo entries, then image entries. */
  method GenerateTask(gc: GlobalConfig, community: string, cfg: ScanConfig, listTags: TagLister)
    returns (taskSets: TaskMap)
    modifies gc
    ensures gc.configs == WithDefaults(old(gc.configs), community, cfg)
    ensures taskSets == DesiredTasks(old(gc.configs), community, cfg, listTags)
  {
    gc.InitGlobalConfig(community, cfg.scanner.global);
    var g := gc.configs;
    ghost var rparts := ReposParts(g, community, cfg.repos, listTags);
    taskSets := map[];
    for i := 0 to |cfg.repos|
      invariant gc.configs == g
      invariant taskSets == Insert(map[], Flatten(rparts[..i]))
    {
      InsertNextPart(map[], rparts, i);
      taskSets := RepoGenTask(g, community, cfg.repos[i], listTags, taskSets);
    }
    assert rparts[..|cfg.repos|] == rparts;
    var repoLevel := taskSets;
    ghost var iparts := ImagesParts(g, community, cfg.images);
    for i := 0 to |cfg.images|
      invariant gc.configs == g
      invariant taskSets == Insert(repoLevel, Flatten(iparts[..i]))
    {
      InsertNextPart(repoLevel, iparts, i);
      taskSets := ImageGenTask(g, community, cfg.images[i], taskSets);
    }
    assert iparts[..|cfg.images|] == iparts;
  }
}
