/**
 * The task ledger behind the repository interface of
 * scanning/domain/repository/task.go (Save, Find, FindAll, DeleteByIds),
 * held in memory as rows keyed by id, with the query semantics of its gorm
 * implementation in scanning/infrastructure/repositoryimpl/task.go:
 *  - a filter column left at its zero value (the empty string) places no
 *    condition, both in Find's probe and in FindAll's community name;
 *  - Find returns the matching row with the lowest id, or NotFound;
 *  - FindAll returns the community's rows ordered by id;
 *  - Save of a task with id 0 inserts it under the next free id, any other
 *    id is written (inserted or replaced) under that id.
 * The database's own failures are a fixed `Faults` value given when the
 * ledger is made; a faulted call changes nothing and returns Failed.
 */
module Ledgers {
  import opened Wrappers
  import opened Tasks
  import opened TaskStore

  datatype LedgerError = NotFound | Failed

  /**
   * The calls the store fails: FindAll for these community names, Find and
   * Save for tasks with these keys, and every DeleteByIds or none.
   */
  datatype Faults = Faults(findAll: set<string>, find: set<string>, save: set<string>, delete: bool)

  const NoFaults := Faults({}, {}, {}, false)

  type Rows = map<int, TaskDO>

  /** gorm's struct conditions: an empty filter value matches every column value. */
  predicate Filter(probe: string, column: string) {
    probe == "" || column == probe
  }

  predicate InCommunity(name: string, d: TaskDO) {
    Filter(name, d.community)
  }

  /** The row meets the conditions that Find builds from the probe's identity fields. */
  predicate MatchesProbe(p: Task, d: TaskDO) {
    && Filter(p.community, d.community)
    && Filter(p.registry.String(), d.registry)
    && Filter(p.namespace, d.namespace)
    && Filter(p.image, d.image)
    && Filter(p.tag, d.tag)
  }

  ghost function MatchingIds(rows: Rows, p: Task): set<int> {
    set id | id in rows && MatchesProbe(p, rows[id])
  }

  ghost function CommunityIds(rows: Rows, name: string): set<int> {
    set id | id in rows && InCommunity(name, rows[id])
  }

  /**
   * A non-empty set of ids has an element. CommunityHandlers.HasKey is the
   * same fact for keys; a single generic lemma does not let `:|` pick an int.
   */
  lemma HasElement(s: set<int>)
    requires s != {}
    ensures exists x :: x in s
  {
    if forall x :: x !in s {
      assert false;
    }
  }

  /** The least element of a non-empty set. */
  ghost function MinOf(s: set<int>): (m: int)
    requires s != {}
    ensures m in s && forall y :: y in s ==> m <= y
    decreases |s|
  {
    HasElement(s);
    var x :| x in s;
    var rest := s - {x};
    if rest == {} then
      assert forall y :: y in s ==> y == x by {
        forall y | y in s ensures y == x {
          assert y == x || y in rest;
        }
      }
      x
    else
      var m := MinOf(rest);
      assert forall y :: y in s ==> y == x || y in rest;
      if x < m then x else m
  }

  /** The elements of `s` in ascending order. */
  ghost function SortedIds(s: set<int>): seq<int>
    decreases |s|
  {
    if s == {} then []
    else
      var m := MinOf(s);
      [m] + SortedIds(s - {m})
  }

  /** SortedIds lists each element once, in strictly ascending order. */
  lemma SortedIdsSpec(s: set<int>)
    ensures |SortedIds(s)| == |s|
    ensures forall x :: x in SortedIds(s) <==> x in s
    ensures forall i, j :: 0 <= i < j < |SortedIds(s)| ==> SortedIds(s)[i] < SortedIds(s)[j]
  {
    SortedIdsElements(s);
    SortedIdsAscending(s);
  }

  /** SortedIds holds exactly the elements of the set, each once. */
  lemma {:induction false} SortedIdsElements(s: set<int>)
    ensures |SortedIds(s)| == |s|
    ensures forall x :: x in SortedIds(s) <==> x in s
    decreases |s|
  {
    if s != {} {
      var m := MinOf(s);
      SortedIdsElements(s - {m});
      assert SortedIds(s) == [m] + SortedIds(s - {m});
    }
  }

  /** SortedIds is strictly ascending. */
  lemma {:induction false} SortedIdsAscending(s: set<int>)
    ensures forall i, j :: 0 <= i < j < |SortedIds(s)| ==> SortedIds(s)[i] < SortedIds(s)[j]
    decreases |s|
  {
    if s != {} {
      var m := MinOf(s);
      var rest := s - {m};
      SortedIdsAscending(rest);
      SortedIdsElements(rest);
      var tail := SortedIds(rest);
      assert SortedIds(s) == [m] + tail;
      forall x | x in tail ensures m < x {
        assert x in rest;
      }
      AscendingCons(m, tail);
    }
  }

  /** Putting an element below all of an ascending list in front keeps it ascending. */
  lemma AscendingCons(m: int, tail: seq<int>)
    requires forall x :: x in tail ==> m < x
    requires forall i, j :: 0 <= i < j < |tail| ==> tail[i] < tail[j]
    ensures forall i, j :: 0 <= i < j < |[m] + tail| ==> ([m] + tail)[i] < ([m] + tail)[j]
  {
    var ids := [m] + tail;
    forall i, j | 0 <= i < j < |ids| ensures ids[i] < ids[j] {
      assert ids[j] == tail[j - 1];
      if i > 0 {
        assert ids[i] == tail[i - 1];
      } else {
        assert tail[j - 1] in tail;
      }
    }
  }

  /** What Find answers for a probe on a store that does not fail. */
  ghost function FindRow(rows: Rows, p: Task): Result<Task, LedgerError> {
    var ids := MatchingIds(rows, p);
    if ids == {} then Failure(NotFound) else Success(ToTask(rows[MinOf(ids)]))
  }

  /** The ids of the community's rows, ascending. */
  ghost function CommunityOrder(rows: Rows, name: string): (ids: seq<int>)
    ensures forall i :: 0 <= i < |ids| ==> ids[i] in rows && InCommunity(name, rows[ids[i]])
  {
    var ids := SortedIds(CommunityIds(rows, name));
    SortedIdsSpec(CommunityIds(rows, name));
    assert forall i :: 0 <= i < |ids| ==> ids[i] in ids;
    ids
  }

  /** What FindAll answers for a community on a store that does not fail. */
  ghost function CommunityTasks(rows: Rows, name: string): seq<Task> {
    var ids := CommunityOrder(rows, name);
    seq(|ids|, i requires 0 <= i < |ids| => ToTask(rows[ids[i]]))
  }

  /** Every row is stored under its own id, which is non-zero and below the next free id. */
  ghost predicate Consistent(rows: Rows, nextId: int) {
    1 <= nextId && forall id :: id in rows ==> id != 0 && id < nextId && rows[id].id == id
  }

  /** The rows after a successful Save of `t`. */
  function Stored(rows: Rows, nextId: int, t: Task): Rows {
    if t.id == 0 then rows[nextId := ToTaskDO(t.(id := nextId))] else rows[t.id := ToTaskDO(t)]
  }

  /** The next free id after a successful Save of `t`. */
  function NextAfter(nextId: int, t: Task): int {
    if t.id == 0 then nextId + 1
    else if t.id >= nextId then t.id + 1
    else nextId
  }

  /** The least element of a non-empty set, found by one pass over it. */
  method MinElement(s: set<int>) returns (m: int)
    requires s != {}
    ensures m == MinOf(s)
  {
    HasElement(s);
    m :| m in s;
    var todo := s - {m};
    while todo != {}
      invariant todo <= s && m in s
      invariant forall x :: x in s && x !in todo ==> m <= x
      decreases |todo|
    {
      HasElement(todo);
      var x :| x in todo;
      if x < m {
        m := x;
      }
      todo := todo - {x};
    }
    ghost var least := MinOf(s);
    assert least <= m && m <= least;
  }

  /** The elements of a set in ascending order, by repeatedly taking out the least. */
  method SortedElements(s: set<int>) returns (ids: seq<int>)
    ensures ids == SortedIds(s)
  {
    var todo := s;
    ids := [];
    while todo != {}
      invariant SortedIds(s) == ids + SortedIds(todo)
      decreases |todo|
    {
      var m := MinElement(todo);
      assert SortedIds(todo) == [m] + SortedIds(todo - {m});
      assert ids + SortedIds(todo) == (ids + [m]) + SortedIds(todo - {m});
      ids := ids + [m];
      todo := todo - {m};
    }
  }

  class Ledger {
    var rows: Rows
    var nextId: int
    const faults: Faults

    ghost predicate Valid()
      reads this
    {
      Consistent(rows, nextId)
    }

    constructor(faults: Faults)
      ensures Valid() && rows == map[] && nextId == 1 && this.faults == faults
    {
      rows := map[];
      nextId := 1;
      this.faults := faults;
    }

    /** Insert on id 0, otherwise write the row under the task's id. */
    method Save(t: Task) returns (err: Option<LedgerError>)
      requires Valid()
      modifies this
      ensures Valid()
      ensures t.UniqueKey() in faults.save ==> err == Some(Failed) && rows == old(rows) && nextId == old(nextId)
      ensures t.UniqueKey() !in faults.save ==>
                err == None && rows == Stored(old(rows), old(nextId), t) && nextId == NextAfter(old(nextId), t)
    {
      if t.UniqueKey() in faults.save {
        return Some(Failed);
      }
      if t.id == 0 {
        rows := rows[nextId := ToTaskDO(t.(id := nextId))];
        nextId := nextId + 1;
      } else {
        rows := rows[t.id := ToTaskDO(t)];
        if t.id >= nextId {
          nextId := t.id + 1;
        }
      }
      err := None;
    }

    /** The first row, by id, that meets the probe's non-empty identity fields. */
    method Find(p: Task) returns (r: Result<Task, LedgerError>)
      ensures p.UniqueKey() in faults.find ==> r == Failure(Failed)
      ensures p.UniqueKey() !in faults.find ==> r == FindRow(rows, p)
    {
      if p.UniqueKey() in faults.find {
        return Failure(Failed);
      }
      ghost var matching := MatchingIds(rows, p);
      var todo := rows.Keys;
      var best: Option<int> := None;
      while todo != {}
        invariant todo <= rows.Keys
        invariant best.None? ==> forall id :: id in matching ==> id in todo
        invariant best.Some? ==> best.value in matching
        invariant best.Some? ==> forall id :: id in matching && id !in todo ==> best.value <= id
        decreases |todo|
      {
        HasElement(todo);
        var id :| id in todo;
        if MatchesProbe(p, rows[id]) && (best.None? || id < best.value) {
          best := Some(id);
        }
        todo := todo - {id};
      }
      if best.None? {
        assert forall id :: id in matching <==> id in {};
        r := Failure(NotFound);
      } else {
        ghost var least := MinOf(matching);
        assert least <= best.value && best.value <= least;
        r := Success(ToTask(rows[best.value]));
      }
    }

    /** The community's rows in ascending id order; the empty name selects every row. */
    method FindAll(name: string) returns (r: Result<seq<Task>, LedgerError>)
      ensures name in faults.findAll ==> r == Failure(Failed)
      ensures name !in faults.findAll ==> r == Success(CommunityTasks(rows, name))
    {
      if name in faults.findAll {
        return Failure(Failed);
      }
      var ids := SortedElements(set id | id in rows && InCommunity(name, rows[id]));
      assert ids == CommunityOrder(rows, name);
      var rs := rows;
      return Success(seq(|ids|, i requires 0 <= i < |ids| => ToTask(rs[ids[i]])));
    }

    /** Removes the rows with the given ids. */
    method DeleteByIds(ids: seq<int>) returns (err: Option<LedgerError>)
      requires Valid()
      modifies this
      ensures Valid() && nextId == old(nextId)
      ensures faults.delete ==> err == Some(Failed) && rows == old(rows)
      ensures !faults.delete ==> err == None && rows == old(rows) - (set id | id in ids)
    {
      if faults.delete {
        return Some(Failed);
      }
      rows := rows - (set id | id in ids);
      err := None;
    }
  }

  /** FindAll's answer holds each row of the community once, read back as a task, in ascending id order. */
  lemma CommunityTasksSpec(rows: Rows, name: string)
    requires forall id :: id in rows ==> rows[id].id == id
    ensures |CommunityTasks(rows, name)| == |CommunityIds(rows, name)|
    ensures forall i :: 0 <= i < |CommunityTasks(rows, name)| ==>
              var t := CommunityTasks(rows, name)[i];
              t.id in CommunityIds(rows, name) && t == ToTask(rows[t.id])
    ensures forall i, j :: 0 <= i < j < |CommunityTasks(rows, name)| ==>
              CommunityTasks(rows, name)[i].id < CommunityTasks(rows, name)[j].id
    ensures forall id :: id in CommunityIds(rows, name) ==>
              exists i :: 0 <= i < |CommunityTasks(rows, name)| && CommunityTasks(rows, name)[i].id == id
  {
    var ids := CommunityOrder(rows, name);
    var ts := CommunityTasks(rows, name);
    SortedIdsSpec(CommunityIds(rows, name));
    forall i | 0 <= i < |ts| ensures ts[i].id == ids[i] && ids[i] in CommunityIds(rows, name) {
      assert ids[i] in ids;
    }
    forall id | id in CommunityIds(rows, name) ensures exists i :: 0 <= i < |ts| && ts[i].id == id {
      assert id in ids;
      var i :| 0 <= i < |ids| && ids[i] == id;
      assert ts[i].id == id;
    }
  }

  /** Find agrees with the key: when the probe carries all five identity fields, the row found has the probe's identity. */
  lemma FindRowOfFullProbe(rows: Rows, p: Task)
    requires p.community != "" && p.registry.String() != "" && p.namespace != "" && p.image != "" && p.tag != ""
    requires FindRow(rows, p).Success?
    ensures SameIdentity(FindRow(rows, p).value, p)
    ensures FindRow(rows, p).value.UniqueKey() == p.UniqueKey()
  {
    var d := rows[MinOf(MatchingIds(rows, p))];
    assert MatchesProbe(p, d);
    assert ToTask(d).registry == p.registry;
  }

  /** A probe with an empty namespace and tag finds a row of another namespace and tag. */
  lemma EmptyProbeFieldsMatchOtherRows()
    ensures var p := Task(0, "c", Primitive.Registry("docker.io"), "", "nginx", "", [], 0, ZeroTime);
            var rows := map[1 := TaskDO(1, "c", "docker.io", "library", "nginx", "latest", "", 0, ZeroTime)];
            FindRow(rows, p).Success? && !SameIdentity(FindRow(rows, p).value, p)
  {
    var p := Task(0, "c", Primitive.Registry("docker.io"), "", "nginx", "", [], 0, ZeroTime);
    var rows := map[1 := TaskDO(1, "c", "docker.io", "library", "nginx", "latest", "", 0, ZeroTime)];
    assert MatchesProbe(p, rows[1]);
    assert MatchingIds(rows, p) == {1};
  }
}
