/**
 * The task entity of scanning/domain/task.go: identity key, paths, the due
 * check and the two field updates. Tasks are values: the Go code copies them
 * in and out of maps and slices, so the pointer-receiver updates become
 * functions returning the updated task.
 */
module Tasks {
  import opened Strings
  import opened Primitive
  import Util

  /** An instant in nanoseconds; ZeroTime stands for Go's zero `time.Time`. */
  type Time = int

  const ZeroTime: Time := 0

  /** time.Second in nanoseconds. */
  const Second := 1_000_000_000

  /** The longest interval, in seconds, whose duration fits in 64 bits. */
  const MaxIntervalSeconds := Util.Int64Max / Second

  /** `time.Second * time.Duration(interval)`: the product in nanoseconds, wrapped to 64 bits. */
  function IntervalDuration(interval: int): (d: int)
    ensures Util.InInt64(d)
    ensures Util.InInt64(interval) && -MaxIntervalSeconds <= interval <= MaxIntervalSeconds ==> d == interval * Second
  {
    Util.WrapInt64(Second * Util.WrapInt64(interval))
  }

  const ImagesDir := "images"

  const LinuxPrefix := "linux/"

  datatype Task = Task(
    id: int,
    community: string,
    registry: Registry,
    namespace: string,
    image: string,
    tag: string,
    arch: seq<string>,
    interval: int, // seconds
    lastScanTime: Time)
  {
    /** The five identity fields joined by "-". */
    function UniqueKey(): string {
      community + "-" + registry.String() + "-" + namespace + "-" + image + "-" + tag
    }

    /** `registry/namespace/image:tag`, the reference handed to the scanner. */
    function ImagePath(): string {
      registry.String() + "/" + namespace + "/" + image + ":" + tag
    }

    /** `images/registry_namespace_image_tag_arch`, the local copy of one architecture's image. */
    function LocalImagePath(arch: string): string {
      ImagesDir + "/" + registry.String() + "_" + namespace + "_" + image + "_" + tag + "_" + arch
    }

    /** `registry/namespace/image/tag.md`, where the report is published. */
    function MarkdownPath(): string {
      registry.String() + "/" + namespace + "/" + image + "/" + tag + ".md"
    }

    /** Never scanned, or strictly past the last scan time plus the interval's duration. */
    predicate IsNeedToScan(now: Time) {
      if lastScanTime == ZeroTime then true
      else now > lastScanTime + IntervalDuration(interval)
    }

    /** Replaces the interval and the architecture list and nothing else. */
    function UpdateIntervalAndArch(interval': int, arch': seq<string>): (t: Task)
      ensures t.interval == interval' && t.arch == arch'
      ensures t.id == id && t.lastScanTime == lastScanTime && SameIdentity(t, this)
    {
      this.(interval := interval', arch := arch')
    }

    /** Stamps the task with the current time and changes nothing else. */
    function UpdateLastScanTime(now: Time): (t: Task)
      ensures t.lastScanTime == now
      ensures t.id == id && t.interval == interval && t.arch == arch && SameIdentity(t, this)
    {
      this.(lastScanTime := now)
    }

    /** Each architecture with one leading "linux/" removed, in order. */
    method FormatArch() returns (formatArch: seq<string>)
      ensures |formatArch| == |arch|
      ensures forall i :: 0 <= i < |arch| ==>
                (HasPrefix(arch[i], LinuxPrefix) ==> LinuxPrefix + formatArch[i] == arch[i]) &&
                (!HasPrefix(arch[i], LinuxPrefix) ==> formatArch[i] == arch[i])
    {
      formatArch := [];
      for i := 0 to |arch|
        invariant |formatArch| == i
        invariant forall j :: 0 <= j < i ==> formatArch[j] == TrimPrefix(arch[j], LinuxPrefix)
      {
        formatArch := formatArch + [TrimPrefix(arch[i], LinuxPrefix)];
      }
    }
  }

  /** The key is the five identity fields joined by "-". */
  lemma UniqueKeyIsJoin(t: Task)
    ensures t.UniqueKey() == Join([t.community, t.registry.String(), t.namespace, t.image, t.tag], '-')
  {
    Join5(t.community, t.registry.String(), t.namespace, t.image, t.tag, '-');
  }

  /** The image path is registry, namespace and image:tag joined by "/". */
  lemma ImagePathIsJoin(t: Task)
    ensures t.ImagePath() == Join([t.registry.String(), t.namespace, Join([t.image, t.tag], ':')], '/')
  {
    JoinCons(t.image, [t.tag], ':');
    JoinCons(t.namespace, [t.image + ":" + t.tag], '/');
    JoinCons(t.registry.String(), [t.namespace, t.image + ":" + t.tag], '/');
  }

  /** The report path is registry, namespace, image and tag.md joined by "/". */
  lemma MarkdownPathIsJoin(t: Task)
    ensures t.MarkdownPath() == Join([t.registry.String(), t.namespace, t.image, t.tag + ".md"], '/')
    ensures HasSuffix(t.MarkdownPath(), ".md")
  {
    JoinCons(t.image, [t.tag + ".md"], '/');
    JoinCons(t.namespace, [t.image, t.tag + ".md"], '/');
    JoinCons(t.registry.String(), [t.namespace, t.image, t.tag + ".md"], '/');
    var p := t.MarkdownPath();
    assert p == (t.registry.String() + "/" + t.namespace + "/" + t.image + "/" + t.tag) + ".md";
  }

  /** The local image path is the images directory, then registry, namespace, image, tag and arch joined by "_". */
  lemma LocalImagePathIsJoin(t: Task, arch: string)
    ensures t.LocalImagePath(arch) == ImagesDir + "/" + Join([t.registry.String(), t.namespace, t.image, t.tag, arch], '_')
  {
    Join5(t.registry.String(), t.namespace, t.image, t.tag, arch, '_');
  }

  /** Two tasks describe the same image of the same community. */
  predicate SameIdentity(a: Task, b: Task) {
    && a.community == b.community
    && a.registry == b.registry
    && a.namespace == b.namespace
    && a.image == b.image
    && a.tag == b.tag
  }

  /** The key depends on the identity only. */
  lemma KeyOfIdentity(a: Task, b: Task)
    requires SameIdentity(a, b)
    ensures a.UniqueKey() == b.UniqueKey()
  {
  }

  /**
   * The key is not injective: identities that differ only in where a "-"
   * falls share a key, so a key-indexed map holds at most one of them.
   */
  lemma KeyCollision()
    ensures exists a: Task, b: Task :: !SameIdentity(a, b) && a.UniqueKey() == b.UniqueKey()
  {
    var a := Task(0, "c", Registry("docker.io"), "a-b", "x", "latest", [], 0, ZeroTime);
    var b := Task(0, "c", Registry("docker.io"), "a", "b-x", "latest", [], 0, ZeroTime);
    assert a.namespace != b.namespace;
    assert a.UniqueKey() == b.UniqueKey();
  }

  /** ImagePath splits back into registry, namespace and image:tag, and the last into image and tag. */
  lemma ImagePathSplits(t: Task)
    requires '/' !in t.registry.name && '/' !in t.namespace && '/' !in t.image && '/' !in t.tag
    requires ':' !in t.image && ':' !in t.tag
    ensures Split(t.ImagePath(), '/') == [t.registry.name, t.namespace, t.image + ":" + t.tag]
    ensures Split(t.image + ":" + t.tag, ':') == [t.image, t.tag]
  {
    var it := [t.image, t.tag];
    assert Join(it, ':') == t.image + ":" + t.tag by {
      assert it[1..] == [t.tag];
    }
    assert NoSep(it, ':');
    SplitJoin(it, ':');
    var parts := [t.registry.name, t.namespace, t.image + ":" + t.tag];
    assert '/' !in t.image + ":" + t.tag;
    assert NoSep(parts, '/');
    SplitJoin(parts, '/');
    ImagePathIsJoin(t);
  }

  /** Exactly at the boundary a task is not yet due; one nanosecond later it is. */
  lemma DueBoundary(t: Task)
    requires t.lastScanTime != ZeroTime
    ensures !t.IsNeedToScan(t.lastScanTime + IntervalDuration(t.interval))
    ensures t.IsNeedToScan(t.lastScanTime + IntervalDuration(t.interval) + 1)
  {
  }

  /**
   * Right after being stamped at a non-zero `now`, a task whose interval is
   * non-negative and fits the 64-bit duration is not due, and it is due
   * once the interval's seconds have passed.
   */
  lemma StampedTaskNotDue(t: Task, now: Time)
    requires now != ZeroTime && 0 <= t.interval <= MaxIntervalSeconds
    ensures !t.UpdateLastScanTime(now).IsNeedToScan(now)
    ensures t.UpdateLastScanTime(now).IsNeedToScan(now + t.interval * Second + 1)
  {
  }

  /**
   * Whatever the interval, a task stamped at a non-zero `now` is due at
   * that same instant exactly when its wrapped duration is negative.
   */
  lemma StampedDueAtOnceIff(t: Task, now: Time)
    requires now != ZeroTime
    ensures t.UpdateLastScanTime(now).IsNeedToScan(now) <==> IntervalDuration(t.interval) < 0
  {
  }

  /**
   * The first band past the 64-bit duration, 9,223,372,037 to
   * 18,446,744,073 seconds ("20000w" among them), wraps the duration to a
   * negative value, so the task is due again at the very instant it was
   * stamped.
   */
  lemma LongIntervalDueAtOnce(t: Task, now: Time)
    requires now != ZeroTime && MaxIntervalSeconds < t.interval <= 2 * MaxIntervalSeconds + 1
    ensures IntervalDuration(t.interval) < 0
    ensures t.UpdateLastScanTime(now).IsNeedToScan(now)
  {
    assert MaxIntervalSeconds == 9_223_372_036;
    Util.WrapAbove(Second * t.interval);
  }

  /**
   * Past that band the wrap can land on either sign: "30501w" (18,447,004,800
   * seconds) wraps to about three days, and "-15251w" (-9,223,804,800
   * seconds) to about 292 years, so neither task is due when just stamped.
   */
  lemma LongIntervalsWrapPositive(t: Task, now: Time)
    requires now != ZeroTime && (t.interval == 30501 * 604800 || t.interval == -15251 * 604800)
    ensures t.interval == 18_447_004_800 ==> IntervalDuration(t.interval) == 260_726_290_448_384
    ensures t.interval == -9_223_804_800 ==> IntervalDuration(t.interval) == 9_222_939_273_709_551_616
    ensures !t.UpdateLastScanTime(now).IsNeedToScan(now)
  {
  }

  /** Once due, a task stays due as time goes on. */
  lemma DueIsMonotone(t: Task, now: Time, later: Time)
    requires now <= later && t.IsNeedToScan(now)
    ensures t.IsNeedToScan(later)
  {
  }
}
