/** The linked lists of jobs that the configuration parser builds, copies and turns into arrays. */
module JobList {
  import opened CStrings

  class JobNode {
    var job: nat
    var next: JobNode?

    constructor (j: nat)
      ensures job == j && next == null
    {
      job, next := j, null;
    }
  }

  /** A list as the variable that points to its first node; a job is the number of an object. */
  class Jobs {
    var head: JobNode?
    ghost var nodes: seq<JobNode>
    ghost var repr: set<JobNode>
    ghost var jobs: seq<nat>

    /** The node after the i-th one. */
    ghost function After(i: nat): JobNode?
      requires i < |nodes|
      reads this
    {
      if i + 1 < |nodes| then nodes[i + 1] else null
    }

    ghost predicate Valid()
      reads this, repr
    {
      && |nodes| == |jobs| && repr == (set n | n in nodes)
      && head == (if nodes == [] then null else nodes[0])
      && (forall i, j | 0 <= i < j < |nodes| :: nodes[i] != nodes[j])
      && (forall i | 0 <= i < |nodes| :: nodes[i].job == jobs[i])
      && (forall i {:trigger After(i)} | 0 <= i < |nodes| :: nodes[i].next == After(i))
    }

    constructor ()
      ensures Valid() && jobs == [] && repr == {}
    {
      head, nodes, jobs, repr := null, [], [], {};
    }

    method Last() returns (tail: JobNode)
      requires Valid() && head != null
      ensures tail == nodes[|nodes| - 1]
    {
      tail := head;
      ghost var i := 0;
      while tail.next != null
        invariant 0 <= i < |nodes| && tail == nodes[i]
        decreases |nodes| - i
      {
        assert tail.next == After(i);
        tail := tail.next;
        i := i + 1;
      }
      assert tail.next == After(i);
    }

    /** AddJob: to the end of the list. */
    method AddJob(job: nat)
      requires Valid()
      modifies this, repr
      ensures Valid() && jobs == old(jobs) + [job] && fresh(repr - old(repr))
    {
      var node := new JobNode(job);
      if head == null {
        head := node;
      } else {
        var tail := Last();
        tail.next := node;
      }
      nodes, jobs, repr := nodes + [node], jobs + [job], repr + {node};
      forall i | 0 <= i < |nodes| ensures nodes[i].next == After(i) {
        if i < |nodes| - 1 {
          assert old(nodes[i].next) == old(After(i));
        }
      }
    }

    method AddAll(more: seq<nat>)
      requires Valid()
      modifies this, repr
      ensures Valid() && jobs == old(jobs) + more && fresh(repr - old(repr))
    {
      var k := 0;
      while k < |more|
        invariant 0 <= k <= |more| && Valid() && jobs == old(jobs) + more[..k]
        invariant fresh(repr - old(repr))
      {
        AddJob(more[k]);
        assert more[..k + 1] == more[..k] + [more[k]];
        k := k + 1;
      }
      assert more[..k] == more;
    }

    /** DeepCopyJobList: the same jobs in nodes of its own. */
    method DeepCopy() returns (copy: Jobs)
      requires Valid()
      ensures copy.Valid() && copy.jobs == jobs && fresh(copy) && fresh(copy.repr)
    {
      copy := new Jobs();
      var node := head;
      ghost var i := 0;
      while node != null
        invariant 0 <= i <= |nodes| && node == (if i < |nodes| then nodes[i] else null)
        invariant copy.Valid() && fresh(copy) && fresh(copy.repr) && copy.jobs == jobs[..i]
        decreases |nodes| - i
      {
        copy.AddJob(node.job);
        assert node.next == After(i);
        node := node.next;
        i := i + 1;
      }
    }

    method Count() returns (count: nat)
      requires Valid()
      ensures count == |jobs|
    {
      count := 0;
      var node := head;
      while node != null
        invariant count <= |nodes| && node == (if count < |nodes| then nodes[count] else null)
        decreases |nodes| - count
      {
        assert node.next == After(count);
        count := count + 1;
        node := node.next;
      }
    }

    /** GetJobList: the jobs in an array with a terminator, or nothing when there are none. */
    method GetJobList() returns (out: array?<Option<nat>>)
      requires Valid()
      ensures out == null <==> jobs == []
      ensures out != null ==> fresh(out) && out.Length == |jobs| + 1 && out[|jobs|] == None
      ensures out != null ==> forall i | 0 <= i < |jobs| :: out[i] == Some(jobs[i])
    {
      var count := Count();
      if count == 0 {
        return null;
      }
      out := new Option<nat>[count + 1](_ => None);
      var node := head;
      ghost var i := 0;
      count := 0;
      while node != null
        invariant count == i <= |nodes| && node == (if i < |nodes| then nodes[i] else null)
        invariant forall k | 0 <= k < i :: out[k] == Some(jobs[k])
        invariant forall k | i <= k < out.Length :: out[k] == None
        decreases |nodes| - i
      {
        out[count] := Some(node.job);
        count := count + 1;
        assert node.next == After(i);
        node := node.next;
        i := i + 1;
      }
    }
  }

  // ---- lists of their own ----

  /** Two lists share no node. */
  ghost predicate Apart(a: Jobs, b: Jobs)
    reads a, b
  {
    a != b && a.repr !! b.repr
  }

  /** Neither shares a node with any of the lists, nor any of these with another. */
  ghost predicate AllApart(lists: seq<Jobs>)
    reads lists
  {
    forall j, k | 0 <= j < k < |lists| :: Apart(lists[j], lists[k])
  }

  /** Adding to one of two lists leaves the other as it is. */
  method AddBeside(list: Jobs, other: Jobs, jobs: seq<nat>)
    requires list.Valid() && other.Valid() && Apart(list, other)
    modifies list, list.repr
    ensures list.Valid() && other.Valid() && Apart(list, other) && list.jobs == old(list.jobs) + jobs
    ensures other.jobs == old(other.jobs) && other.repr == old(other.repr)
  {
    list.AddAll(jobs);
  }

  /** One branch, beside the copies of the branches before it. */
  method Branch(list: Jobs, jobs: seq<nat>, ghost copies: seq<Jobs>) returns (copy: Jobs)
    requires list.Valid() && AllApart([list] + copies)
    ensures copy.Valid() && fresh(copy) && fresh(copy.repr) && copy.jobs == list.jobs + jobs
    ensures AllApart([list] + (copies + [copy]))
  {
    copy := list.DeepCopy();
    copy.AddAll(jobs);
    ghost var lists := [list] + copies;
    assert [list] + (copies + [copy]) == lists + [copy];
    forall k | 0 <= k < |lists| ensures Apart(lists[k], copy) {
      assert lists[k] == list || lists[k] in copies;
    }
  }

  /** The loops over the network sockets inside a splitter or a combiner: every branch adds its jobs to a copy of
      the list, and neither the list itself nor the copy of any other branch is altered. */
  method Branches(list: Jobs, added: seq<seq<nat>>) returns (copies: seq<Jobs>)
    requires list.Valid()
    ensures list.Valid() && list.jobs == old(list.jobs) && list.repr == old(list.repr)
    ensures |copies| == |added| && AllApart([list] + copies)
    ensures forall k | 0 <= k < |copies| :: copies[k].Valid() && copies[k].jobs == list.jobs + added[k]
  {
    copies := [];
    var k := 0;
    while k < |added|
      invariant 0 <= k <= |added| && |copies| == k && AllApart([list] + copies)
      invariant list.Valid() && list.jobs == old(list.jobs) && list.repr == old(list.repr)
      invariant forall j | 0 <= j < k :: fresh(copies[j]) && fresh(copies[j].repr)
      invariant forall j | 0 <= j < k :: copies[j].Valid() && copies[j].jobs == list.jobs + added[j]
    {
      var copy := Branch(list, added[k], copies);
      copies := copies + [copy];
      k := k + 1;
    }
  }
}
