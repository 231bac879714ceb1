/**
  The whole of it on one heap: any number of semaphores and message queues, with all their wait lists
  threaded through the one `nxt_susp` field of the tasks.
*/
module System {
  import opened Sequences
  import opened TaskTable
  import opened Sharing
  import S = Semaphore
  import SS = SemaphoreSafety
  import SO = SemaphoreObject
  import SX = SemaphoreExecution
  import Q = MessageQueue
  import QS = QueueSafety
  import QX = QueueExecution
  import QC = QueueContents
  import SlotRing
  import Slots
  import WaitLists

  // ---------------------------------------------------------------- objects that are left alone

  twostate lemma SemUntouched(x: SX.Execution)
    requires old(x.Valid()) && x.sem.tasks.Valid() && unchanged(x) && unchanged(x.sem)
    requires x.sem.tasks.lines[x.sem.susp] == old(x.sem.tasks.lines[x.sem.susp])
    ensures x.Valid() && x.Now() == old(x.Now())
  {}

  twostate lemma QueueUntouched(x: QX.Execution)
    requires old(x.Valid()) && x.queue.tasks.Valid()
    requires unchanged(x) && unchanged(x.queue) && unchanged(x.queue.ring) && unchanged(x.queue.ring.extent)
    requires x.queue.tasks.prio == old(x.queue.tasks.prio)
    requires x.queue.tasks.lines[x.queue.readers] == old(x.queue.tasks.lines[x.queue.readers])
    requires x.queue.tasks.lines[x.queue.writers] == old(x.queue.tasks.lines[x.queue.writers])
    ensures x.Valid() && x.Now() == old(x.Now()) && x.Contents() == old(x.Contents())
  {
    hide QS.Inv, QX.MessagesFit, Slots.Encodes, Tasks.Woven;
  }

  // ---------------------------------------------------------------- creation

  datatype SemSpec = SemSpec(kind: S.Kind, count: int) {
    predicate Valid() { kind.Mutex? ==> count == 1 }

    function Start(): S.Out { S.Out(S.Start(S.Created(kind, count)), []) }
  }

  datatype QueueSpec = QueueSpec(header: nat, n: nat, msgLen: nat, byPriority: bool) {
    predicate Valid() { 4 <= header && 1 <= msgLen < 0x1_0000_0000 }

    function Start(): Q.Out { Q.Out(Q.Start(Q.MsgQCreate(n, msgLen, byPriority)), []) }
  }

  datatype Specs = Specs(sems: seq<SemSpec>, queues: seq<QueueSpec>) {
    predicate Valid() {
      && (forall i :: 0 <= i < |sems| ==> sems[i].Valid())
      && (forall i :: 0 <= i < |queues| ==> queues[i].Valid())
    }

    function Start(): (w: World)
      ensures |w.sems| == |sems| && |w.queues| == |queues|
    {
      World(seq(|sems|, i requires 0 <= i < |sems| => sems[i].Start()),
            seq(|queues|, i requires 0 <= i < |queues| => queues[i].Start()))
    }
  }

  method NewHeads(k: nat) returns (heads: seq<WaitLists.Head>)
    ensures |heads| == k && Distinct(heads)
    ensures forall i :: 0 <= i < k ==> fresh(heads[i]) && heads[i].first == null
  {
    heads := [];
    for i := 0 to k
      invariant |heads| == i && Distinct(heads)
      invariant forall j :: 0 <= j < i ==> fresh(heads[j]) && heads[j].first == null
    {
      var l := new WaitLists.Head();
      heads := heads + [l];
    }
  }

  /** A semaphore just created, with its waiters on the list `l`. */
  ghost predicate NewSem(x: SX.Execution, tasks: Tasks, l: WaitLists.Head, spec: SemSpec)
    reads x, x.sem, x.sem.tasks, x.sem.tasks.heads, x.sem.tasks.all
  {
    x.Valid() && x.sem.tasks == tasks && x.sem.susp == l && x.Now() == spec.Start().s
  }

  method NewSems(tasks: Tasks, heads: seq<WaitLists.Head>, specs: seq<SemSpec>) returns (xs: seq<SX.Execution>)
    requires tasks.Valid() && |heads| == |specs|
    requires forall i :: 0 <= i < |heads| ==> heads[i] in tasks.heads && tasks.lines[heads[i]] == []
    requires forall i :: 0 <= i < |specs| ==> specs[i].Valid()
    ensures |xs| == |specs|
    ensures forall i :: 0 <= i < |xs| ==> NewSem(xs[i], tasks, heads[i], specs[i]) && fresh(xs[i]) && fresh(xs[i].sem)
    ensures forall i, j :: 0 <= i < j < |xs| ==> xs[i] != xs[j] && xs[i].sem != xs[j].sem
  {
    hide Tasks.Woven, SS.Inv;
    xs := [];
    for k := 0 to |specs|
      invariant |xs| == k && tasks.Valid()
      invariant forall i :: 0 <= i < k ==> NewSem(xs[i], tasks, heads[i], specs[i]) && fresh(xs[i]) && fresh(xs[i].sem)
      invariant forall i, j :: 0 <= i < j < k ==> xs[i] != xs[j] && xs[i].sem != xs[j].sem
    {
      var sem := new SO.Sem(tasks, heads[k], specs[k].kind, specs[k].count);
      var x := new SX.Execution(sem, specs[k].kind, specs[k].count);
      xs := xs + [x];
    }
  }

  /** A queue just created, with its lists at these heads. */
  ghost predicate NewQueue(x: QX.Execution, tasks: Tasks, l: WaitLists.Head, m: WaitLists.Head, spec: QueueSpec)
    reads x, x.queue, x.queue.ring, x.queue.ring.extent, x.queue.tasks, x.queue.tasks.heads, x.queue.tasks.all
  {
    && x.Valid() && x.queue.tasks == tasks && x.queue.readers == l && x.queue.writers == m
    && x.Now() == Q.Start(Q.MsgQCreate(spec.n, spec.msgLen, spec.byPriority)).(prio := tasks.prio)
    && x.queue.ring.g.n == spec.n && x.Contents() == QC.Replayed(spec.n, [])
  }

  /** Two queues that share nothing of their own. */
  ghost predicate Different(x: QX.Execution, y: QX.Execution) {
    && x != y && x.queue != y.queue && x.queue.ring != y.queue.ring && x.queue.ring.extent != y.queue.ring.extent
  }

  method NewOne(tasks: Tasks, l: WaitLists.Head, m: WaitLists.Head, spec: QueueSpec) returns (x: QX.Execution)
    requires tasks.Valid() && l in tasks.heads && m in tasks.heads && l != m && spec.Valid()
    requires tasks.lines[l] == [] && tasks.lines[m] == []
    ensures NewQueue(x, tasks, l, m, spec)
    ensures fresh(x) && fresh(x.queue) && fresh(x.queue.ring) && fresh(x.queue.ring.extent)
  {
    hide Tasks.Woven, QS.Inv, QX.MessagesFit, Slots.Encodes, QC.Replay;
    x := QX.OneQueue(tasks, l, m, spec.header, spec.n, spec.msgLen, spec.byPriority);
  }

  method NewQueues(tasks: Tasks, readers: seq<WaitLists.Head>, writers: seq<WaitLists.Head>, specs: seq<QueueSpec>)
    returns (xs: seq<QX.Execution>)
    requires tasks.Valid() && |readers| == |writers| == |specs|
    requires forall i :: 0 <= i < |specs| ==>
               && readers[i] in tasks.heads && writers[i] in tasks.heads && readers[i] != writers[i]
               && tasks.lines[readers[i]] == [] && tasks.lines[writers[i]] == [] && specs[i].Valid()
    ensures |xs| == |specs|
    ensures forall i :: 0 <= i < |xs| ==> NewQueue(xs[i], tasks, readers[i], writers[i], specs[i])
    ensures forall i :: 0 <= i < |xs| ==>
              fresh(xs[i]) && fresh(xs[i].queue) && fresh(xs[i].queue.ring) && fresh(xs[i].queue.ring.extent)
    ensures forall i, j :: 0 <= i < j < |xs| ==> Different(xs[i], xs[j])
  {
    hide Tasks.Woven, NewQueue, QueueSpec.Valid;
    xs := [];
    for k := 0 to |specs|
      invariant |xs| == k && tasks.Valid()
      invariant forall i :: 0 <= i < k ==> NewQueue(xs[i], tasks, readers[i], writers[i], specs[i])
      invariant forall i :: 0 <= i < k ==>
                  fresh(xs[i]) && fresh(xs[i].queue) && fresh(xs[i].queue.ring) && fresh(xs[i].queue.ring.extent)
      invariant forall i, j :: 0 <= i < j < k ==> Different(xs[i], xs[j])
    {
      var x := NewOne(tasks, readers[k], writers[k], specs[k]);
      xs := xs + [x];
    }
  }

  /** The list heads: one to a semaphore, two to a queue. */
  datatype Heads = Heads(a: seq<WaitLists.Head>, b: seq<WaitLists.Head>, c: seq<WaitLists.Head>) {
    ghost predicate For(specs: Specs) {
      |a| == |specs.sems| && |b| == |c| == |specs.queues| && Distinct(a + b + c)
    }

    ghost function All(): set<WaitLists.Head> { set l | l in a + b + c }

    lemma Different(specs: Specs)
      requires For(specs)
      ensures Distinct(a) && Distinct(b) && Distinct(c) && |a| == |specs.sems| && |b| == |c| == |specs.queues|
      ensures forall i, j :: 0 <= i < |a| && 0 <= j < |b| ==> a[i] != b[j]
      ensures forall i, j :: 0 <= i < |a| && 0 <= j < |c| ==> a[i] != c[j]
      ensures forall i, j :: 0 <= i < |b| && 0 <= j < |c| ==> b[i] != c[j]
      ensures forall l :: l in All() <==> l in a || l in b || l in c
    {
      var all := a + b + c;
      assert forall i :: 0 <= i < |a| ==> all[i] == a[i];
      assert forall i :: 0 <= i < |b| ==> all[|a| + i] == b[i];
      assert forall i :: 0 <= i < |c| ==> all[|a| + |b| + i] == c[i];
    }
  }

  /** Everything is as just created, with its lists at these heads. */
  ghost predicate AllNew(tasks: Tasks, xs: seq<SX.Execution>, ys: seq<QX.Execution>, heads: Heads, specs: Specs)
    reads *
  {
    && heads.For(specs) && tasks.heads == heads.All() && tasks.prio == map[]
    && |xs| == |specs.sems| && |ys| == |specs.queues|
    && (forall i :: 0 <= i < |xs| ==> NewSem(xs[i], tasks, heads.a[i], specs.sems[i]))
    && (forall i :: 0 <= i < |ys| ==> NewQueue(ys[i], tasks, heads.b[i], heads.c[i], specs.queues[i]))
  }

  method NewHeadsFor(specs: Specs) returns (heads: Heads)
    ensures heads.For(specs) && fresh(heads.All()) && forall l :: l in heads.All() ==> l.first == null
  {
    var m, n := |specs.sems|, |specs.queues|;
    var all := NewHeads(m + n + n);
    heads := Heads(all[..m], all[m..m + n], all[m + n..]);
    assert heads.a + heads.b + heads.c == all;
  }

  ghost function SemParts(xs: seq<SX.Execution>): set<object> {
    (set x | x in xs :: x as object) + (set x | x in xs :: x.sem as object)
  }

  ghost function QueueParts(ys: seq<QX.Execution>): set<object> {
    (set y | y in ys :: y as object) + (set y | y in ys :: y.queue as object)
    + (set y | y in ys :: y.queue.ring as object) + (set y | y in ys :: y.queue.ring.extent as object)
  }

  method NewObjects(count: nat, specs: Specs)
    returns (tasks: Tasks, xs: seq<SX.Execution>, ys: seq<QX.Execution>, ghost heads: Heads)
    requires specs.Valid()
    ensures AllNew(tasks, xs, ys, heads, specs) && tasks.Valid() && tasks.Honest() && |tasks.task| == count
    ensures |xs| == |specs.sems| && |ys| == |specs.queues|
    ensures forall i, j :: 0 <= i < j < |xs| ==> xs[i] != xs[j] && xs[i].sem != xs[j].sem
    ensures forall i, j :: 0 <= i < j < |ys| ==> Different(ys[i], ys[j])
    ensures fresh(tasks) && fresh(tasks.heads) && fresh(tasks.all)
    ensures fresh(SemParts(xs)) && fresh(QueueParts(ys))
  {
    hide Tasks.Woven, Tasks.Honest, NewSem, NewQueue, Distinct, Heads.For, Heads.All;
    var hs := NewHeadsFor(specs);
    hs.Different(specs);
    tasks := new Tasks(count, hs.All());
    xs := NewSems(tasks, hs.a, specs.sems);
    ys := NewQueues(tasks, hs.b, hs.c, specs.queues);
    heads := hs;
  }

  // ---------------------------------------------------------------- the system

  class System {
    const tasks: Tasks
    const sems: seq<SX.Execution>
    const queues: seq<QX.Execution>
    ghost var world: World

    constructor (tasks: Tasks, sems: seq<SX.Execution>, queues: seq<QX.Execution>, ghost world: World)
      ensures this.tasks == tasks && this.sems == sems && this.queues == queues && this.world == world
    {
      this.tasks, this.sems, this.queues, this.world := tasks, sems, queues, world;
    }

    lemma NewApart(heads: Heads, specs: Specs)
      requires AllNew(tasks, sems, queues, heads, specs)
      requires forall i, j :: 0 <= i < j < |sems| ==> sems[i] != sems[j] && sems[i].sem != sems[j].sem
      requires forall i, j :: 0 <= i < j < |queues| ==> Different(queues[i], queues[j])
      ensures Apart()
    {
      hide SX.Execution.Valid, QX.Execution.Valid, QC.Replayed, Heads.For, Heads.All;
      heads.Different(specs);
      forall l | l in tasks.heads
        ensures Owned(l)
      {
        if i :| 0 <= i < |sems| && l == heads.a[i] {
          assert l == sems[i].sem.susp;
        } else if i :| 0 <= i < |queues| && l == heads.b[i] {
          assert l == queues[i].queue.readers;
        } else {
          var i :| 0 <= i < |queues| && l == heads.c[i];
          assert l == queues[i].queue.writers;
        }
      }
    }

    lemma NewAsSpecified(heads: Heads, specs: Specs)
      requires AllNew(tasks, sems, queues, heads, specs) && world == specs.Start()
      ensures forall i :: 0 <= i < |sems| ==> SemIs(sems[i], world.sems[i])
      ensures forall i :: 0 <= i < |queues| ==> QueueIs(queues[i], world.queues[i])
    {
      hide SX.Execution.Valid, QX.Execution.Valid, QC.Replayed, Heads.For, Heads.All;
    }

    /** No two objects share anything but the tasks, and every list belongs to an object. */
    ghost predicate Apart() {
      && (forall i :: 0 <= i < |sems| ==> SemOf(sems[i]))
      && (forall i :: 0 <= i < |queues| ==> QueueOf(queues[i]))
      && (forall i, j :: 0 <= i < j < |sems| ==>
            sems[i] != sems[j] && sems[i].sem != sems[j].sem && sems[i].sem.susp != sems[j].sem.susp)
      && (forall i, j :: 0 <= i < |sems| && 0 <= j < |queues| ==>
            sems[i].sem.susp != queues[j].queue.readers && sems[i].sem.susp != queues[j].queue.writers)
      && (forall i, j :: 0 <= i < j < |queues| ==> QueuesApart(queues[i], queues[j]))
      && (forall l :: l in tasks.heads ==> Owned(l))
    }

    ghost predicate SemOf(x: SX.Execution) {
      x.sem.tasks == tasks && x.sem.susp in tasks.heads
    }

    ghost predicate QueueOf(x: QX.Execution) {
      x.queue.tasks == tasks && x.queue.readers in tasks.heads && x.queue.writers in tasks.heads
    }

    ghost predicate Owned(l: WaitLists.Head) {
      || (exists i :: 0 <= i < |sems| && l == sems[i].sem.susp)
      || (exists i :: 0 <= i < |queues| && (l == queues[i].queue.readers || l == queues[i].queue.writers))
    }

    static ghost predicate QueuesApart(x: QX.Execution, y: QX.Execution) {
      && Different(x, y)
      && x.queue.readers != y.queue.readers && x.queue.readers != y.queue.writers
      && x.queue.writers != y.queue.readers && x.queue.writers != y.queue.writers
    }

    ghost function Footprint(): set<object> {
      {this, tasks} + tasks.heads + tasks.all + SemParts(sems) + QueueParts(queues)
    }

    /** The object is as the world has it. */
    static ghost predicate SemIs(x: SX.Execution, o: S.Out)
      reads x, x.sem, x.sem.tasks, x.sem.tasks.heads, x.sem.tasks.all
    {
      x.Valid() && x.Now() == o.s
    }

    static ghost predicate QueueIs(x: QX.Execution, o: Q.Out)
      reads x, x.queue, x.queue.ring, x.queue.ring.extent, x.queue.tasks, x.queue.tasks.heads, x.queue.tasks.all
    {
      x.Valid() && x.Now() == o.s && x.Contents() == QC.Replayed(x.queue.ring.g.n, o.obs)
    }

    ghost predicate Valid()
      reads *
    {
      && tasks.Valid() && tasks.Honest() && Apart()
      && |sems| == |world.sems| && |queues| == |world.queues|
      && (forall i :: 0 <= i < |sems| ==> SemIs(sems[i], world.sems[i]))
      && (forall i :: 0 <= i < |queues| ==> QueueIs(queues[i], world.queues[i]))
    }

    /** Where the object says a task is, is where the world has it. */
    lemma SemInside(i: nat, t: Task)
      requires Valid() && i < |sems|
      ensures Inside(world, Sem(i), t) <==> !sems[i].PcOf(t).Idle?
    {
      hide Apart, SS.Inv, Tasks.Woven, Tasks.Honest, QueueIs;
      assert SemIs(sems[i], world.sems[i]);
    }

    lemma QueueInside(i: nat, t: Task)
      requires Valid() && i < |queues|
      ensures Inside(world, Queue(i), t) <==> !queues[i].PcOf(t).Idle?
    {
      hide Apart, QS.Inv, QX.MessagesFit, Slots.Encodes, Tasks.Woven, Tasks.Honest, SemIs;
      assert QueueIs(queues[i], world.queues[i]);
    }

    method FreeOfSems(t: Task, p: Place) returns (free: bool)
      requires Valid()
      ensures free <==> forall k :: 0 <= k < |sems| && Inside(world, Sem(k), t) ==> Sem(k) == p
    {
      hide Apart, SemIs, QueueIs, Tasks.Woven, Tasks.Honest, Inside;
      free := true;
      for i := 0 to |sems|
        invariant free <==> forall k :: 0 <= k < i && Inside(world, Sem(k), t) ==> Sem(k) == p
      {
        SemInside(i, t);
        free := free && (Sem(i) == p || sems[i].PcOf(t).Idle?);
      }
    }

    method FreeOfQueues(t: Task, p: Place) returns (free: bool)
      requires Valid()
      ensures free <==> forall k :: 0 <= k < |queues| && Inside(world, Queue(k), t) ==> Queue(k) == p
    {
      hide Apart, SemIs, QueueIs, Tasks.Woven, Tasks.Honest, Inside;
      free := true;
      for i := 0 to |queues|
        invariant free <==> forall k :: 0 <= k < i && Inside(world, Queue(k), t) ==> Queue(k) == p
      {
        QueueInside(i, t);
        free := free && (Queue(i) == p || queues[i].PcOf(t).Idle?);
      }
    }

    /** Whether the task is inside no call but, at most, one at this place. */
    method IsFree(t: Task, p: Place) returns (free: bool)
      requires Valid()
      ensures free <==> FreeFor(world, t, p)
    {
      hide Apart, SemIs, QueueIs, Tasks.Woven, Tasks.Honest;
      free := FreeOfSems(t, p);
      var free' := FreeOfQueues(t, p);
      free := free && free';
    }

    /** A task is on a list only if it is inside a call on the object that the list belongs to. */
    lemma ListedIsInside(l: WaitLists.Head, t: Task) returns (p: Place)
      requires Valid() && l in tasks.lines && t in tasks.lines[l]
      ensures Inside(world, p, t)
      ensures if p.Sem? then l == sems[p.j].sem.susp
              else l == queues[p.j].queue.readers || l == queues[p.j].queue.writers
    {
      hide SemIs, QueueIs, QueuesApart, SemOf, QueueOf, Tasks.Woven, Tasks.Honest, Inside;
      assert Owned(l);
      if i :| 0 <= i < |sems| && l == sems[i].sem.susp {
        SemListed(i, t);
        p := Sem(i);
      } else {
        var i :| 0 <= i < |queues| && (l == queues[i].queue.readers || l == queues[i].queue.writers);
        QueueListed(i, t);
        p := Queue(i);
      }
    }

    lemma SemListed(i: nat, t: Task)
      requires Valid() && i < |sems|
      ensures SemOf(sems[i])
      ensures t in tasks.lines[sems[i].sem.susp] <==> Inside(world, Sem(i), t)
    {
      hide Apart, QueueIs, Tasks.Woven, Tasks.Honest, Distinct;
      SemOfApart(i);
      assert SemIs(sems[i], world.sems[i]);
      assert t in sems[i].Now().cb.waiters <==> !S.At(sems[i].Now(), t).Idle?;
    }

    lemma QueueListed(i: nat, t: Task)
      requires Valid() && i < |queues|
      ensures QueueOf(queues[i])
      ensures t in tasks.lines[queues[i].queue.readers] || t in tasks.lines[queues[i].queue.writers] <==>
              Inside(world, Queue(i), t)
    {
      hide Apart, SemIs, Tasks.Woven, Tasks.Honest, QX.MessagesFit, Slots.Encodes, QC.Replay, QC.Replayed, Distinct;
      QueueOfApart(i);
      assert QueueIs(queues[i], world.queues[i]);
      var s := queues[i].Now();
      assert (t in s.cb.readers <==> QS.Receiving(Q.At(s, t))) && (t in s.cb.writers <==> QS.Sending(Q.At(s, t)));
    }

    /** A task that is inside no other call is on no other list. */
    lemma SemMayUse(j: nat, t: Task)
      requires Valid() && j < |sems| && t < |tasks.task| && FreeFor(world, t, Sem(j))
      ensures sems[j].sem.MayUse(t) && sems[j].Valid()
    {
      hide QueueIs, Tasks.Woven, Tasks.Honest, Inside, Owned, QueueOf, QueuesApart, SS.Inv;
      assert SemOf(sems[j]) && SemIs(sems[j], world.sems[j]);
      forall m | m in tasks.lines && t in tasks.lines[m]
        ensures m == sems[j].sem.susp
      {
        var p := ListedIsInside(m, t);
      }
    }

    lemma SemsApart(i: nat, j: nat)
      requires Apart() && i < |sems| && j < |sems| && i != j
      ensures SemOf(sems[i]) && SemOf(sems[j])
      ensures sems[i] != sems[j] && sems[i].sem != sems[j].sem && sems[i].sem.susp != sems[j].sem.susp
    {}

    lemma SemAndQueueApart(i: nat, j: nat)
      requires Apart() && i < |sems| && j < |queues|
      ensures SemOf(sems[i]) && QueueOf(queues[j])
      ensures sems[i].sem.susp != queues[j].queue.readers && sems[i].sem.susp != queues[j].queue.writers
    {}

    /** What is left alone stays as the world has it. */
    twostate lemma SemStays(i: nat)
      requires old(Valid()) && i < |sems| && tasks.Valid() && unchanged(sems[i]) && unchanged(sems[i].sem)
      requires tasks.lines[sems[i].sem.susp] == old(tasks.lines[sems[i].sem.susp])
      ensures SemIs(sems[i], old(world).sems[i])
    {
      hide SS.Inv, Tasks.Woven, Tasks.Honest, QueueIs;
      assert old(SemIs(sems[i], world.sems[i])) && SemOf(sems[i]);
      SemUntouched(sems[i]);
    }

    twostate lemma QueueStays(i: nat)
      requires old(Valid()) && i < |queues| && tasks.Valid() && tasks.prio == old(tasks.prio)
      requires var q := queues[i].queue;
               && unchanged(queues[i]) && unchanged(q) && unchanged(q.ring) && unchanged(q.ring.extent)
               && tasks.lines[q.readers] == old(tasks.lines[q.readers])
               && tasks.lines[q.writers] == old(tasks.lines[q.writers])
      ensures QueueIs(queues[i], old(world).queues[i])
    {
      hide QS.Inv, QX.MessagesFit, Slots.Encodes, Tasks.Woven, Tasks.Honest, SemIs, QC.Replay;
      assert old(QueueIs(queues[i], world.queues[i])) && QueueOf(queues[i]);
      QueueUntouched(queues[i]);
    }

    /** What an event does to its own semaphore. */
    method SemActs(j: nat, e: S.Event)
      requires Valid() && j < |sems| && e.t < |tasks.task| && FreeFor(world, e.t, Sem(j))
      modifies sems[j], sems[j].sem, tasks`lines, tasks.heads`first, tasks.all`nxtSusp, tasks.all`state
      ensures tasks.Valid() && tasks.Honest() && tasks.prio == old(tasks.prio)
      ensures forall m :: m in tasks.lines && m != sems[j].sem.susp ==> tasks.lines[m] == old(tasks.lines[m])
      ensures SemIs(sems[j], SemGoesOn(world.sems[j], e))
    {
      hide Apart, QueueIs, S.Step, Tasks.Woven, Tasks.Honest, FreeFor, Inside, SS.Inv;
      SemMayUse(j, e.t);
      SemNow(j);
      sems[j].Perform(e);
    }

    method OnSemaphore(j: nat, e: S.Event)
      requires Valid() && j < |sems| && e.t < |tasks.task| && FreeFor(world, e.t, Sem(j))
      modifies this`world, sems[j], sems[j].sem, tasks`lines, tasks.heads`first, tasks.all`nxtSusp, tasks.all`state
      ensures Valid() && world == Step(old(world), OnSem(j, e))
    {
      hide Apart, SemIs, QueueIs, SemGoesOn, Tasks.Woven, Tasks.Honest, FreeFor;
      SemActs(j, e);
      forall i | 0 <= i < |sems| && i != j
        ensures SemIs(sems[i], old(world).sems[i])
      {
        SemsApart(i, j);
        SemStays(i);
      }
      forall i | 0 <= i < |queues|
        ensures QueueIs(queues[i], old(world).queues[i])
      {
        SemAndQueueApart(j, i);
        QueueStays(i);
      }
      world := Step(world, OnSem(j, e));
    }

    lemma SemNow(j: nat)
      requires Valid() && j < |sems|
      ensures SemOf(sems[j]) && sems[j].Valid() && sems[j].Now() == world.sems[j].s
    {
      assert SemIs(sems[j], world.sems[j]);
    }

    lemma QueueMayUse(j: nat, t: Task)
      requires Valid() && j < |queues| && t < |tasks.task| && FreeFor(world, t, Queue(j))
      ensures queues[j].MayUse(t)
    {
      hide SemIs, Tasks.Woven, Tasks.Honest, Inside, Owned, SemOf, QueuesApart, QS.Inv, QX.MessagesFit;
      assert QueueOf(queues[j]) && QueueIs(queues[j], world.queues[j]);
      forall m | m in tasks.lines && t in tasks.lines[m]
        ensures m == queues[j].queue.readers || m == queues[j].queue.writers
      {
        var p := ListedIsInside(m, t);
      }
    }

    lemma QueuesAreApart(i: nat, j: nat)
      requires Apart() && i < |queues| && j < |queues| && i != j
      ensures QueueOf(queues[i]) && QueueOf(queues[j]) && QueuesApart(queues[i], queues[j])
    {
      assert QueuesApart(queues[i], queues[j]) || QueuesApart(queues[j], queues[i]);
    }

    lemma QueueNow(j: nat)
      requires Valid() && j < |queues|
      ensures QueueOf(queues[j]) && queues[j].Valid() && queues[j].Now() == world.queues[j].s
      ensures queues[j].Contents() == QC.Replayed(queues[j].queue.ring.g.n, world.queues[j].obs)
    {
      assert QueueIs(queues[j], world.queues[j]);
    }

    static lemma QueueNext(x: QX.Execution, o: Q.Out, e: Q.Event)
      requires x.Valid() && x.Now() == Q.Step(o.s, e).s
      requires x.Contents() == QC.Replay(QC.Replayed(x.queue.ring.g.n, o.obs), Q.Step(o.s, e).obs)
      ensures QueueIs(x, QueueGoesOn(o, e))
    {
      hide Q.Step, QC.Replay;
      QC.ReplayConcat(QC.Log(SlotRing.Empty(x.queue.ring.g.n), []), o.obs, Q.Step(o.s, e).obs);
    }

    /** What an event does to its own queue. */
    method QueueActs(j: nat, e: Q.Event)
      requires Valid() && j < |queues| && e.t < |tasks.task| && FreeFor(world, e.t, Queue(j)) && !e.SetPriority?
      modifies queues[j], queues[j].queue`q, queues[j].queue.ring, queues[j].queue.ring.extent
      modifies tasks`lines, tasks.heads`first, tasks.all`nxtSusp, tasks.all`state
      ensures tasks.Valid() && tasks.Honest() && tasks.prio == old(tasks.prio)
      ensures forall m :: m in tasks.lines && m != queues[j].queue.readers && m != queues[j].queue.writers ==>
                tasks.lines[m] == old(tasks.lines[m])
      ensures QueueIs(queues[j], QueueGoesOn(world.queues[j], e))
    {
      hide Apart, SemIs, QueueIs, Q.Step, QC.Replay, QC.Replayed, Tasks.Woven, Tasks.Honest, FreeFor, Inside;
      hide QS.Inv, QX.MessagesFit, Slots.Encodes, SlotRing.Ring.Valid;
      QueueMayUse(j, e.t);
      QueueNow(j);
      queues[j].Perform(e);
      QueueNext(queues[j], world.queues[j], e);
    }

    method OnMessageQueue(j: nat, e: Q.Event)
      requires Valid() && j < |queues| && e.t < |tasks.task| && FreeFor(world, e.t, Queue(j)) && !e.SetPriority?
      modifies this`world, queues[j], queues[j].queue`q, queues[j].queue.ring, queues[j].queue.ring.extent
      modifies tasks`lines, tasks.heads`first, tasks.all`nxtSusp, tasks.all`state
      ensures Valid() && world == Step(old(world), OnQueue(j, e))
    {
      hide Apart, SemIs, QueueIs, QueueGoesOn, Tasks.Woven, Tasks.Honest, FreeFor;
      QueueActs(j, e);
      forall i | 0 <= i < |sems|
        ensures SemIs(sems[i], old(world).sems[i])
      {
        SemAndQueueApart(i, j);
        SemStays(i);
      }
      forall i | 0 <= i < |queues| && i != j
        ensures QueueIs(queues[i], old(world).queues[i])
      {
        QueuesAreApart(i, j);
        QueueStays(i);
      }
      world := Step(world, OnQueue(j, e));
    }

    /** A change of priority is an event to every queue. */
    twostate lemma QueueRanks(a: Action)
      requires old(Valid()) && tasks.Valid() && a.OnQueue? && a.j < |queues| && a.qe.SetPriority?
      requires tasks.prio == old(tasks.prio)[a.qe.t := a.qe.p] && tasks.lines == old(tasks.lines)
      requires unchanged(queues[a.j]) && unchanged(queues[a.j].queue)
      requires unchanged(queues[a.j].queue.ring) && unchanged(queues[a.j].queue.ring.extent)
      ensures QueueIs(queues[a.j], QueueGoesOn(old(world).queues[a.j], a.qe))
    {
      hide QS.Inv, QX.MessagesFit, Slots.Encodes, Tasks.Woven, Tasks.Honest, SemIs, QC.Replay, QC.Replayed, Apart;
      hide Q.MsgQSend, Q.MsgQReceive, Q.Loop, Q.Repoll, Q.PostAfterWait, Q.SendTimesOut;
      QueueOfApart(a.j);
      var i, e, x := a.j, a.qe, queues[a.j];
      assert old(QueueIs(queues[i], world.queues[i])) && QueueOf(x);
      QS.StepKeepsInv(old(x.Now()), e);
      QX.StepKeepsFit(old(x.Now()), e);
      assert old(world).queues[i].obs + [] == old(world).queues[i].obs;
    }

    method PrioritySet(t: Task, p: int)
      requires Valid() && t < |tasks.task|
      modifies this`world, tasks`prio, tasks.all`priority
      ensures Valid() && world == Step(old(world), SetPriority(t, p))
    {
      hide Apart, SemIs, QueueIs, Q.Step, Tasks.Woven, Tasks.Honest;
      ghost var e := Q.SetPriority(t, p);
      tasks.SetPriority(t, p);
      forall i | 0 <= i < |sems|
        ensures SemIs(sems[i], old(world).sems[i])
      {
        SemOfApart(i);
        SemStays(i);
      }
      forall i | 0 <= i < |queues|
        ensures QueueIs(queues[i], QueueGoesOn(old(world).queues[i], e))
      {
        QueueRanks(OnQueue(i, e));
      }
      world := Step(world, SetPriority(t, p));
    }

    lemma QueueOfApart(i: nat)
      requires Apart() && i < |queues|
      ensures QueueOf(queues[i])
    {}

    lemma SemOfApart(i: nat)
      requires Apart() && i < |sems|
      ensures SemOf(sems[i])
    {}

    /** A task that is inside a call is on a list of that object. */
    lemma InsideIsListed(p: Place, t: Task) returns (l: WaitLists.Head)
      requires Valid() && Inside(world, p, t)
      ensures l in tasks.lines && t in tasks.lines[l]
    {
      hide Apart, SemIs, QueueIs, Tasks.Woven, Tasks.Honest;
      if p.Sem? {
        SemListed(p.j, t);
        l := sems[p.j].sem.susp;
      } else {
        QueueListed(p.j, t);
        var q := queues[p.j].queue;
        l := if t in tasks.lines[q.readers] then q.readers else q.writers;
      }
    }

    /** PEND is set in a task exactly while it is inside a call that may wait. */
    lemma PendIsInside(t: Task)
      requires Valid() && t < |tasks.task|
      ensures WaitLists.HasPend(tasks.task[t].state) <==> exists p :: Inside(world, p, t)
    {
      hide Apart, SemIs, QueueIs, Inside;
      tasks.PendIsListed(t);
      if l :| l in tasks.lines && t in tasks.lines[l] {
        var p := ListedIsInside(l, t);
      }
      if p :| Inside(world, p, t) {
        var l := InsideIsListed(p, t);
      }
    }

    lemma InFootprint(p: Place)
      requires Exists(world, p) && |sems| == |world.sems| && |queues| == |world.queues|
      ensures p.Sem? ==> {sems[p.j], sems[p.j].sem} <= Footprint()
      ensures p.Queue? ==>
                var y := queues[p.j]; {y, y.queue, y.queue.ring, y.queue.ring.extent} <= Footprint()
    {
      if p.Sem? {
        assert sems[p.j] in sems;
      } else {
        assert queues[p.j] in queues;
      }
    }

    /** One action. */
    method Perform(a: Action)
      requires Valid() && Actor(a) < |tasks.task|
      modifies Footprint()
      ensures Valid() && world == Step(old(world), a)
    {
      hide Apart, SemIs, QueueIs, SemGoesOn, QueueGoesOn, Ranked, Tasks.Woven, Tasks.Honest, FreeFor;
      match a
      case OnSem(j, e) =>
        var free := IsFree(e.t, Sem(j));
        if free && j < |sems| {
          InFootprint(Sem(j));
          OnSemaphore(j, e);
        }
      case OnQueue(j, e) =>
        var free := IsFree(e.t, Queue(j));
        if free && j < |queues| && !e.SetPriority? {
          InFootprint(Queue(j));
          OnMessageQueue(j, e);
        }
      case SetPriority(t, p) =>
        PrioritySet(t, p);
    }
  }

  /** A new system, among `count` new tasks. */
  method NewSystem(count: nat, specs: Specs) returns (x: System)
    requires specs.Valid()
    ensures x.Valid() && |x.tasks.task| == count && x.world == specs.Start()
    ensures fresh(x.Footprint())
  {
    hide System.Apart, System.SemIs, System.QueueIs, Tasks.Woven, Tasks.Honest, NewSem, NewQueue, Distinct;
    hide Heads.For, Heads.All, SemParts, QueueParts;
    var tasks, xs, ys, heads := NewObjects(count, specs);
    x := new System(tasks, xs, ys, specs.Start());
    x.NewApart(heads, specs);
    x.NewAsSpecified(heads, specs);
  }

  function Actor(a: Action): Task {
    match a case OnSem(_, e) => e.t case OnQueue(_, e) => e.t case SetPriority(t, _) => t
  }

  lemma StartsQuiet(specs: Specs)
    ensures Quiet(specs.Start())
  {}

  /**
    Any run of any number of semaphores and queues, carried out on the heap that they share.  Each object
    is in the state that a run of its own, on its own, ends in, and each ring holds and has delivered
    what that run says; nobody is inside two calls, and PEND is set in exactly those that are inside one.
  */
  method Execute(count: nat, specs: Specs, acts: seq<Action>) returns (x: System)
    requires specs.Valid() && forall k :: 0 <= k < |acts| ==> Actor(acts[k]) < count
    ensures x.Valid() && |x.tasks.task| == count && OneCall(x.world)
    ensures |x.sems| == |specs.sems| && |x.queues| == |specs.queues|
    ensures forall j :: 0 <= j < |x.sems| ==>
              System.SemIs(x.sems[j], S.Run(specs.sems[j].Start().s, SemEvents(specs.Start(), acts, j)))
    ensures forall j :: 0 <= j < |x.queues| ==>
              System.QueueIs(x.queues[j], Q.Run(specs.queues[j].Start().s, QueueEvents(specs.Start(), acts, j)))
    ensures forall t :: 0 <= t < count ==>
              (WaitLists.HasPend(x.tasks.task[t].state) <==> exists p :: Inside(x.world, p, t))
  {
    hide System.Apart, System.SemIs, System.QueueIs, System.Footprint, Step, Tasks.Woven, Tasks.Honest, Inside;
    x := NewSystem(count, specs);
    for k := 0 to |acts|
      invariant x.Valid() && fresh(x.Footprint()) && |x.tasks.task| == count
      invariant x.world == Run(specs.Start(), acts[..k])
    {
      assert acts[..k + 1][..k] == acts[..k];
      x.Perform(acts[k]);
    }
    assert acts[..|acts|] == acts;
    StartsQuiet(specs);
    RunKeepsOneCall(specs.Start(), acts);
    forall j | 0 <= j < |x.sems|
      ensures x.world.sems[j] == S.Run(specs.sems[j].Start().s, SemEvents(specs.Start(), acts, j))
    {
      SemAlone(specs.Start(), acts, j);
    }
    forall j | 0 <= j < |x.queues|
      ensures x.world.queues[j] == Q.Run(specs.queues[j].Start().s, QueueEvents(specs.Start(), acts, j))
    {
      QueueAlone(specs.Start(), acts, j);
    }
    forall t | 0 <= t < count
      ensures WaitLists.HasPend(x.tasks.task[t].state) <==> exists p :: Inside(x.world, p, t)
    {
      x.PendIsInside(t);
    }
  }
}
