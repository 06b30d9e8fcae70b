/**
 * The storage row of scanning/infrastructure/repositoryimpl/task_do.go and
 * the two conversions between it and the task entity. The row keeps the
 * registry as its plain name and the architecture list as one
 * comma-joined string; the creation and update timestamps that the
 * database fills in are not part of this model.
 */
module TaskStore {
  import opened Strings
  import opened Primitive
  import opened Tasks

  /** The separator of the stored architecture list. */
  const ArchSep := ','

  datatype TaskDO = TaskDO(
    id: int,
    community: string,
    registry: string,
    namespace: string,
    image: string,
    tag: string,
    arch: string,
    interval: int,
    lastScanTime: Time)
  {
    /** The table the rows live in. */
    function TableName(): string {
      "task"
    }
  }

  /** Task to row: the registry is stored by name and the arches are joined by ",". */
  function ToTaskDO(t: Task): TaskDO {
    TaskDO(t.id, t.community, t.registry.String(), t.namespace, t.image, t.tag,
           Join(t.arch, ArchSep), t.interval, t.lastScanTime)
  }

  /** Row to task: any registry name is accepted and the arches are split at ",". */
  function ToTask(d: TaskDO): Task {
    Task(d.id, d.community, CreateRegistry(d.registry), d.namespace, d.image, d.tag,
         Split(d.arch, ArchSep), d.interval, d.lastScanTime)
  }

  /** The key of the task a row reads back as. */
  function RowKey(d: TaskDO): string {
    ToTask(d).UniqueKey()
  }

  /** Writing and reading back keeps every field but the architecture list, which comes back split. */
  lemma TaskRoundTrip(t: Task)
    ensures ToTask(ToTaskDO(t)) == t.(arch := Split(Join(t.arch, ArchSep), ArchSep))
    ensures SameIdentity(ToTask(ToTaskDO(t)), t)
    ensures ToTask(ToTaskDO(t)).UniqueKey() == t.UniqueKey()
  {
    assert CreateRegistry(t.registry.String()) == t.registry;
  }

  /** A non-empty list of arches none of which holds a comma survives the round trip. */
  lemma ArchRoundTrip(t: Task)
    requires |t.arch| >= 1 && NoSep(t.arch, ArchSep)
    ensures ToTask(ToTaskDO(t)) == t
  {
    TaskRoundTrip(t);
    SplitJoin(t.arch, ArchSep);
  }

  /** An empty list of arches is stored as "" and reads back as one empty arch. */
  lemma EmptyArchReadsBackAsOneEmptyArch(t: Task)
    requires t.arch == []
    ensures ToTaskDO(t).arch == ""
    ensures ToTask(ToTaskDO(t)).arch == [""]
  {
  }

  /** An arch holding a comma comes back as two arches. */
  lemma CommaInArchSplits(t: Task)
    requires t.arch == ["a,b"]
    ensures ToTask(ToTaskDO(t)).arch == ["a", "b"]
  {
    assert Join(t.arch, ArchSep) == "a,b";
    var a, b := "a", "b";
    assert "a,b" == a + [ArchSep] + b;
    SplitAfterField(a, ArchSep, b);
    SplitNoSep(b, ArchSep);
  }

  /** Reading a row and writing the task back gives the very same row. */
  lemma RowRoundTrip(d: TaskDO)
    ensures ToTaskDO(ToTask(d)) == d
  {
    JoinSplit(d.arch, ArchSep);
  }

  /** The key of a row depends on its five identity columns only. */
  lemma RowKeyOfIdentity(d: TaskDO, e: TaskDO)
    requires d.community == e.community && d.registry == e.registry
    requires d.namespace == e.namespace && d.image == e.image && d.tag == e.tag
    ensures RowKey(d) == RowKey(e)
  {
  }
}
