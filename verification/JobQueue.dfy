/** The queue of a callback group: a binary heap under the dispatch order, refining the bag of waiting jobs. */
module JobQueue {
  import opened Tasks

  function Parent(i: nat): nat
    requires i > 0
  {
    (i - 1) / 2
  }

  predicate Ordered(configs: seq<TaskConfig>, heap: seq<Job>, i: nat)
    requires KnownJobs(configs, heap) && 0 < i < |heap|
  {
    !LessUrgent(configs, heap[Parent(i)], heap[i])
  }

  predicate IsHeap(configs: seq<TaskConfig>, heap: seq<Job>)
    requires KnownJobs(configs, heap)
  {
    forall i :: 0 < i < |heap| ==> Ordered(configs, heap, i)
  }

  lemma NotLessTransitive(configs: seq<TaskConfig>, a: Job, b: Job, d: Job)
    requires a.task < |configs| && b.task < |configs| && d.task < |configs|
    requires !LessUrgent(configs, a, b) && !LessUrgent(configs, b, d)
    ensures !LessUrgent(configs, a, d)
  {
  }

  lemma {:induction false} RootDominates(configs: seq<TaskConfig>, heap: seq<Job>, i: nat)
    requires KnownJobs(configs, heap) && IsHeap(configs, heap) && i < |heap|
    ensures !LessUrgent(configs, heap[0], heap[i])
    decreases i
  {
    hide LessUrgent;
    if i > 0 {
      RootDominates(configs, heap, Parent(i));
      assert Ordered(configs, heap, i);
      NotLessTransitive(configs, heap[0], heap[Parent(i)], heap[i]);
    } else {
      OrderIsTotal(configs, heap[0], heap[0], heap[0]);
    }
  }

  lemma RootIsTop(configs: seq<TaskConfig>, heap: seq<Job>)
    requires KnownJobs(configs, heap) && IsHeap(configs, heap) && heap != []
    ensures Top(configs, heap, 0)
  {
    forall i | 0 <= i < |heap|
      ensures !LessUrgent(configs, heap[0], heap[i])
    {
      RootDominates(configs, heap, i);
    }
  }

  function Swap(heap: seq<Job>, i: nat, j: nat): seq<Job>
    requires i < |heap| && j < |heap|
  {
    heap[i := heap[j]][j := heap[i]]
  }

  lemma SwapKeepsBag(heap: seq<Job>, i: nat, j: nat)
    requires i < |heap| && j < |heap|
    ensures multiset(Swap(heap, i, j)) == multiset(heap)
  {
  }

  /** A heap but for the edge above hole, whose children already respect the parent of hole. */
  predicate UpHeap(configs: seq<TaskConfig>, heap: seq<Job>, hole: nat)
    requires KnownJobs(configs, heap)
  {
    && hole < |heap|
    && (forall i :: 0 < i < |heap| && i != hole ==> Ordered(configs, heap, i))
    && (forall i :: 0 < i < |heap| && Parent(i) == hole && hole > 0 ==>
          !LessUrgent(configs, heap[Parent(hole)], heap[i]))
  }

  /** A heap but for the edges below hole, whose children already respect the parent of hole. */
  predicate DownHeap(configs: seq<TaskConfig>, heap: seq<Job>, hole: nat)
    requires KnownJobs(configs, heap)
  {
    && hole < |heap|
    && (forall i :: 0 < i < |heap| && Parent(i) != hole ==> Ordered(configs, heap, i))
    && (forall i :: 0 < i < |heap| && Parent(i) == hole && hole > 0 ==>
          !LessUrgent(configs, heap[Parent(hole)], heap[i]))
  }

  lemma UpStep(configs: seq<TaskConfig>, heap: seq<Job>, hole: nat)
    requires KnownJobs(configs, heap) && UpHeap(configs, heap, hole) && hole > 0
    requires LessUrgent(configs, heap[Parent(hole)], heap[hole])
    ensures var next := Swap(heap, hole, Parent(hole));
            KnownJobs(configs, next) && UpHeap(configs, next, Parent(hole))
  {
    hide LessUrgent;
    var p := Parent(hole);
    var next := Swap(heap, hole, p);
    OrderIsTotal(configs, heap[p], heap[hole], heap[p]);
    LessIsAsymmetric(configs, heap[p], heap[hole]);
    forall i | 0 < i < |next| && i != p
      ensures Ordered(configs, next, i)
    {
      if i != hole {
        assert Ordered(configs, heap, i);
        if Parent(i) == p {
          NotLessTransitive(configs, heap[hole], heap[p], heap[i]);
        }
      }
    }
    forall i | 0 < i < |next| && Parent(i) == p && p > 0
      ensures !LessUrgent(configs, next[Parent(p)], next[i])
    {
      assert Ordered(configs, heap, p);
      if i != hole {
        assert Ordered(configs, heap, i);
        NotLessTransitive(configs, heap[Parent(p)], heap[p], heap[i]);
      }
    }
  }

  lemma LessIsAsymmetric(configs: seq<TaskConfig>, a: Job, b: Job)
    requires a.task < |configs| && b.task < |configs| && LessUrgent(configs, a, b)
    ensures !LessUrgent(configs, b, a)
  {
  }

  /** The larger child moves up into the hole. */
  lemma DownStep(configs: seq<TaskConfig>, heap: seq<Job>, hole: nat, child: nat)
    requires KnownJobs(configs, heap) && DownHeap(configs, heap, hole)
    requires 0 < child < |heap| && Parent(child) == hole && LessUrgent(configs, heap[hole], heap[child])
    requires forall i :: 0 < i < |heap| && Parent(i) == hole ==> !LessUrgent(configs, heap[child], heap[i])
    ensures var next := Swap(heap, hole, child);
            KnownJobs(configs, next) && DownHeap(configs, next, child)
  {
    hide LessUrgent;
    var next := Swap(heap, hole, child);
    LessIsAsymmetric(configs, heap[hole], heap[child]);
    forall i | 0 < i < |next| && Parent(i) != child
      ensures Ordered(configs, next, i)
    {
      if i == hole {
        assert !LessUrgent(configs, heap[Parent(hole)], heap[child]);
      } else if i != child && Parent(i) != hole {
        assert Ordered(configs, heap, i);
      }
    }
    forall i | 0 < i < |next| && Parent(i) == child
      ensures !LessUrgent(configs, next[Parent(child)], next[i])
    {
      assert Ordered(configs, heap, i);
    }
  }

  lemma DownDone(configs: seq<TaskConfig>, heap: seq<Job>, hole: nat)
    requires KnownJobs(configs, heap) && DownHeap(configs, heap, hole)
    requires forall i :: 0 < i < |heap| && Parent(i) == hole ==> !LessUrgent(configs, heap[hole], heap[i])
    ensures IsHeap(configs, heap)
  {
    hide LessUrgent;
    forall i | 0 < i < |heap|
      ensures Ordered(configs, heap, i)
    {
    }
  }

  class GroupQueue {
    const configs: seq<TaskConfig>
    var heap: seq<Job>

    ghost predicate Valid()
      reads this
    {
      KnownJobs(configs, heap) && IsHeap(configs, heap)
    }

    constructor (configs: seq<TaskConfig>)
      ensures Valid() && heap == [] && this.configs == configs
    {
      this.configs := configs;
      heap := [];
    }

    method Push(job: Job)
      requires Valid() && job.task < |configs|
      modifies this
      ensures Valid() && multiset(heap) == old(multiset(heap)) + multiset{job}
    {
      hide LessUrgent;
      heap := heap + [job];
      ghost var bag := multiset(heap);
      var hole: nat := |heap| - 1;
      assert UpHeap(configs, heap, hole) by {
        forall i | 0 < i < |heap| && i != hole
          ensures Ordered(configs, heap, i)
        {
          assert Ordered(configs, old(heap), i);
        }
      }
      while hole > 0 && LessUrgent(configs, heap[Parent(hole)], heap[hole])
        invariant KnownJobs(configs, heap) && UpHeap(configs, heap, hole) && multiset(heap) == bag
      {
        UpStep(configs, heap, hole);
        SwapKeepsBag(heap, hole, Parent(hole));
        heap := Swap(heap, hole, Parent(hole));
        hole := Parent(hole);
      }
    }

    /** top and pop: hands out a job that no waiting job exceeds, and keeps all the others. */
    method Pop() returns (job: Job)
      requires Valid() && heap != []
      modifies this
      ensures Valid() && old(multiset(heap)) == multiset(heap) + multiset{job}
      ensures Top(configs, old(heap), 0) && job == old(heap)[0]
      ensures forall i :: 0 <= i < |heap| ==>
                var p, q := configs[job.task].priority, configs[heap[i].task].priority;
                || p > q
                || (p == q && job.release < heap[i].release)
                || (p == q && job.release == heap[i].release && job.sequence <= heap[i].sequence)
    {
      hide LessUrgent;
      RootIsTop(configs, heap);
      job := heap[0];
      var last := |heap| - 1;
      ghost var before := heap;
      assert heap == heap[..last] + [heap[last]];
      if last == 0 {
        heap := [];
        assert before == [job];
        return;
      }
      heap := heap[..last][0 := heap[last]];
      BagOfMove(before, heap);
      assert DownHeap(configs, heap, 0) by {
        forall i | 0 < i < |heap| && Parent(i) != 0
          ensures Ordered(configs, heap, i)
        {
          assert Ordered(configs, before, i);
        }
      }
      SiftDown();
      OutranksRest(configs, before, heap);
    }

    method SiftDown()
      requires KnownJobs(configs, heap) && heap != [] && DownHeap(configs, heap, 0)
      modifies this
      ensures Valid() && multiset(heap) == old(multiset(heap))
    {
      hide LessUrgent;
      var hole := 0;
      while true
        invariant KnownJobs(configs, heap) && DownHeap(configs, heap, hole) && multiset(heap) == old(multiset(heap))
        decreases |heap| - hole
      {
        var left, right := 2 * hole + 1, 2 * hole + 2;
        assert forall i :: 0 < i < |heap| && Parent(i) == hole ==> i == left || i == right;
        if left >= |heap| {
          DownDone(configs, heap, hole);
          return;
        }
        var child := left;
        OrderIsTotal(configs, heap[left], heap[left], heap[left]);
        if right < |heap| {
          OrderIsTotal(configs, heap[right], heap[right], heap[right]);
          if LessUrgent(configs, heap[left], heap[right]) {
            LessIsAsymmetric(configs, heap[left], heap[right]);
            child := right;
          }
        }
        if !LessUrgent(configs, heap[hole], heap[child]) {
          if right < |heap| {
            NotLessTransitive(configs, heap[hole], heap[child], heap[left]);
            NotLessTransitive(configs, heap[hole], heap[child], heap[right]);
          }
          DownDone(configs, heap, hole);
          return;
        }
        DownStep(configs, heap, hole, child);
        SwapKeepsBag(heap, hole, child);
        heap := Swap(heap, hole, child);
        hole := child;
      }
    }
  }

  /** In numbers: a top job comes before every other by priority, then by release, then by number. */
  lemma OutranksRest(configs: seq<TaskConfig>, before: seq<Job>, rest: seq<Job>)
    requires KnownJobs(configs, before) && KnownJobs(configs, rest) && before != [] && Top(configs, before, 0)
    requires multiset(before) == multiset(rest) + multiset{before[0]}
    ensures forall i :: 0 <= i < |rest| ==>
              var job := before[0];
              var p, q := configs[job.task].priority, configs[rest[i].task].priority;
              || p > q
              || (p == q && job.release < rest[i].release)
              || (p == q && job.release == rest[i].release && job.sequence <= rest[i].sequence)
  {
    hide LessUrgent;
    forall i | 0 <= i < |rest|
      ensures !LessUrgent(configs, before[0], rest[i])
    {
      assert rest[i] in multiset(rest);
      assert rest[i] in multiset(before);
      var j :| 0 <= j < |before| && before[j] == rest[i];
    }
    forall i | 0 <= i < |rest| {
      UrgencyInNumbers(configs, before[0], rest[i]);
    }
  }

  /** The heap stands for the group's queue as a bag of jobs: the job that Pop hands out is a top of that queue, and what
      Pop leaves is the queue without it. */
  lemma PopTakesTop(configs: seq<TaskConfig>, heap: seq<Job>, queue: seq<Job>, rest: seq<Job>) returns (k: nat)
    requires KnownJobs(configs, heap) && heap != [] && Top(configs, heap, 0) && multiset(heap) == multiset(queue)
    requires multiset(heap) == multiset(rest) + multiset{heap[0]}
    ensures KnownJobs(configs, queue) && Top(configs, queue, k) && queue[k] == heap[0]
    ensures multiset(rest) == multiset(queue[..k] + queue[k + 1..])
  {
    hide LessUrgent;
    forall i | 0 <= i < |queue|
      ensures queue[i].task < |configs| && !LessUrgent(configs, heap[0], queue[i])
    {
      var j := FindInBag(queue[i], heap, queue);
    }
    k := FindInBag(heap[0], queue, heap);
    var left := queue[..k] + queue[k + 1..];
    assert queue == queue[..k] + [queue[k]] + queue[k + 1..];
    assert multiset(queue) == multiset(left) + multiset{heap[0]};
    Cancel(multiset(rest), multiset(left), multiset{heap[0]});
  }

  lemma Cancel(a: multiset<Job>, b: multiset<Job>, d: multiset<Job>)
    requires a + d == b + d
    ensures a == b
  {
    assert a == a + d - d && b == b + d - d;
  }

  lemma FindInBag(job: Job, s: seq<Job>, t: seq<Job>) returns (j: nat)
    requires job in t && multiset(s) == multiset(t)
    ensures j < |s| && s[j] == job
  {
    assert job in multiset(t);
    assert job in multiset(s);
    j :| 0 <= j < |s| && s[j] == job;
  }

  lemma BagOfMove(before: seq<Job>, after: seq<Job>)
    requires |before| > 1 && after == before[..|before| - 1][0 := before[|before| - 1]]
    ensures multiset(before) == multiset(after) + multiset{before[0]}
  {
    var n := |before| - 1;
    assert before == [before[0]] + before[1..n] + [before[n]];
    assert after == [before[n]] + before[1..n];
  }
}
