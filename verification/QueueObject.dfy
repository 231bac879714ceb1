/**
  The message queue as the object it is: a control block over the byte ring and over two wait lists that
  are threaded through the task control blocks, changed in place by one critical section at a time.

  Each section does what its function in MessageQueue says.  The sequence `q` of that machine is a ghost
  here: the code itself only counts the messages, and takes from the ring whatever it stores.
*/
module QueueObject {
  import opened Sequences
  import opened Selection
  import opened MessageQueue
  import opened MessageRing
  import opened Slots
  import opened TaskTable
  import SlotRing
  import WaitLists

  class Queue {
    const ring: Ring
    const tasks: Tasks
    const byPriority: bool
    const readers: WaitLists.Head      // first_susp
    const writers: WaitLists.Head      // first_write_susp
    ghost var q: seq<Message>

    ghost predicate Valid()
      reads this, ring, ring.extent, tasks, tasks.heads, tasks.all
    {
      && ring.Valid() && ring.count == |q|
      && tasks.Valid() && readers in tasks.heads && writers in tasks.heads && readers != writers
    }

    ghost function View(): Block
      requires readers in tasks.lines && writers in tasks.lines
      reads this, tasks
    {
      Block(ring.g.n, ring.g.msgLen, byPriority, q, tasks.lines[readers], tasks.lines[writers])
    }

    /** The task is one of the table and, among all lists, on `l` at most. */
    ghost predicate MayUse(t: Task, l: WaitLists.Head)
      reads tasks
    {
      t < |tasks.task| && tasks.OnlyOn(l, t)
    }

    /** No list but the two of this queue has changed. */
    twostate predicate OthersKept()
      reads this, tasks
    {
      && tasks.prio == old(tasks.prio) && tasks.lines.Keys == old(tasks.lines.Keys)
      && forall m :: m in tasks.lines && m != readers && m != writers ==> tasks.lines[m] == old(tasks.lines[m])
    }

    constructor (tasks: Tasks, readers: WaitLists.Head, writers: WaitLists.Head,
                 header: nat, n: nat, msgLen: nat, byPriority: bool)
      requires 4 <= header && 1 <= msgLen < 0x1_0000_0000
      requires tasks.Valid() && readers in tasks.heads && writers in tasks.heads && readers != writers
      requires tasks.lines[readers] == [] && tasks.lines[writers] == []
      ensures Valid() && fresh(ring) && fresh(ring.extent)
      ensures this.tasks == tasks && this.readers == readers && this.writers == writers
      ensures View() == MsgQCreate(n, msgLen, byPriority) && ring.slots == SlotRing.Empty(n)
    {
      this.tasks, this.readers, this.writers := tasks, readers, writers;
      ring := new Ring(Geometry(header, msgLen, n));
      this.byPriority, q := byPriority, [];
    }

    /** send_msg_to or urgent_msg_to; neither looks for room. */
    method Put(m: Message, urgent: bool)
      requires Valid() && |m| <= ring.g.msgLen
      modifies this`q, ring, ring.extent
      ensures Valid() && View() == PostTo(old(View()), m, urgent).cb
      ensures ring.slots == if urgent then SlotRing.Prepend(old(ring.slots), m) else SlotRing.Append(old(ring.slots), m)
    {
      if urgent {
        ring.UrgentMsgTo(m);
        q := [m] + q;
      } else {
        ring.SendMsgTo(m);
        q := q + [m];
      }
    }

    /** msgQSend from taking `queue_lock` to letting go of it. */
    method Send(t: Task, m: Message, w: Wait, urgent: bool) returns (p: Pc, broadcast: bool)
      requires Valid() && MayUse(t, writers)
      modifies this`q, ring, ring.extent, tasks`lines, tasks.heads`first, tasks.all`nxtSusp, tasks.all`state
      ensures Valid() && OthersKept()
      ensures var r := MsgQSend(old(View()), t, m, w, urgent);
              && View() == r.cb && p == r.pc && broadcast == r.broadcast
              && ring.slots == (if r.obs == [Accepted(m, true)] then SlotRing.Prepend(old(ring.slots), m)
                                else if r.obs == [Accepted(m, false)] then SlotRing.Append(old(ring.slots), m)
                                else old(ring.slots))
      ensures old(tasks.Honest()) && t !in old(View()).writers ==> tasks.Honest()
    {
      hide Linked, Tasks.Woven, Tasks.Honest, Encodes;
      p, broadcast := Idle, false;
      if |m| > ring.g.msgLen {
        return;
      }
      var nobody := tasks.IsEmpty(readers);
      if ring.count > ring.g.n {
        p := WaitForSpace(t, m, w, urgent);
      } else if ring.count == ring.g.n {
        if ring.g.n == 0 && !nobody {
          Put(m, false);
          broadcast := true;
        } else if urgent {
          Put(m, true);
          broadcast := true;
        } else {
          p := WaitForSpace(t, m, w, urgent);
        }
      } else {
        Put(m, urgent);
        broadcast := true;
      }
    }

    /** The first part of waitToSend. */
    method WaitForSpace(t: Task, m: Message, w: Wait, urgent: bool) returns (p: Pc)
      requires Valid() && MayUse(t, writers)
      modifies tasks`lines, tasks.heads`first, tasks.all`nxtSusp, tasks.all`state
      ensures Valid() && OthersKept()
      ensures var r := WaitToSend(old(View()), t, m, w, urgent); View() == r.cb && p == r.pc
      ensures old(tasks.Honest()) && t !in old(View()).writers ==> tasks.Honest()
    {
      hide Linked, Tasks.Woven, Tasks.Honest, Encodes;
      if w.NoWait? {
        p := Idle;
      } else {
        tasks.LinkTask(writers, t);
        p := Blocked(m, urgent, w);
      }
    }

    /** The last part of waitToSend; it posts without testing for space again. */
    method Post(t: Task, m: Message, urgent: bool)
      requires Valid() && t < |tasks.task| && |m| <= ring.g.msgLen
      modifies this`q, ring, ring.extent, tasks`lines, tasks.heads`first, tasks.all`nxtSusp, tasks.all`state
      ensures Valid() && OthersKept() && View() == PostAfterWait(old(View()), t, m, urgent).cb
      ensures ring.slots == if urgent then SlotRing.Prepend(old(ring.slots), m) else SlotRing.Append(old(ring.slots), m)
      ensures old(tasks.Honest()) ==> tasks.Honest()
    {
      hide Without, Tasks.Woven, Tasks.Honest, Encodes;
      tasks.UnlinkTask(writers, t);
      Put(m, urgent);
    }

    /** waitToSend giving up. */
    method TimeOut(t: Task)
      requires Valid() && t < |tasks.task|
      modifies tasks`lines, tasks.heads`first, tasks.all`nxtSusp, tasks.all`state
      ensures Valid() && OthersKept() && View() == SendTimesOut(old(View()), t).cb
      ensures old(tasks.Honest()) ==> tasks.Honest()
    {
      hide Without, Tasks.Woven, Tasks.Honest, Encodes;
      tasks.UnlinkTask(writers, t);
    }

    /** The test of waiting_on_q_space; it changes nothing. */
    method HasSpaceFor(t: Task) returns (yes: bool)
      requires Valid() && t < |tasks.task|
      ensures yes <==> SpaceFor(View()) && SignalForMyTask(View().writers, byPriority, tasks.prio, t)
    {
      var nobody := tasks.IsEmpty(readers);
      var mine := tasks.SignalFor(writers, byPriority, t);
      yes := (ring.count <= ring.g.n - 1 || (ring.g.n == 0 && !nobody)) && mine;
    }

    /**
      What a receiver's section does to the ring and to the caller's buffer: if it takes a message, what
      the slot at the head stores goes into the buffer; otherwise nothing.
    */
    twostate predicate Takes(buf: array<Byte>, msglen: int)
      reads this, ring, buf
    {
      if msglen < 0 then q == old(q) && ring.slots == old(ring.slots)
      else
        && old(q) != [] && q == old(q)[1..] && old(ring.slots.Valid()) && old(ring.slots.count) > 0
        && ring.slots == SlotRing.Drop(old(ring.slots))
        && msglen <= buf.Length && buf[..msglen] == old(ring.slots.slots[ring.slots.first])
    }

    /** msgQReceive up to where it first lets go of `queue_lock`. */
    method Receive(t: Task, buf: array<Byte>, w: Wait) returns (p: Pc, msglen: int)
      requires Valid() && buf != ring.extent && MayUse(t, readers)
      modifies this`q, ring, ring.extent, buf, tasks`lines, tasks.heads`first, tasks.all`nxtSusp, tasks.all`state
      ensures Valid() && OthersKept()
      ensures var r := MsgQReceive(old(View()), tasks.prio, t, buf.Length, w); View() == r.cb && p == r.pc
      ensures Takes(buf, msglen)
      ensures old(tasks.Honest()) && t !in old(View()).readers ==> tasks.Honest()
    {
      hide Linked, Loop, Tasks.Woven, Tasks.Honest, Encodes;
      if buf.Length < ring.g.msgLen {
        return Idle, -1;
      }
      tasks.LinkTask(readers, t);
      p, msglen := Turn(t, buf, w, false);
    }

    /** waiting_on_q_msg from its loop condition, and the end of msgQReceive if it is over. */
    method Turn(t: Task, buf: array<Byte>, w: Wait, expired: bool) returns (p: Pc, msglen: int)
      requires Valid() && ring.g.msgLen <= buf.Length && buf != ring.extent && t < |tasks.task|
      modifies this`q, ring, ring.extent, buf, tasks`lines, tasks.heads`first, tasks.all`nxtSusp, tasks.all`state
      ensures Valid() && OthersKept()
      ensures var r := Loop(old(View()), tasks.prio, t, w, expired); View() == r.cb && p == r.pc
      ensures Takes(buf, msglen)
      ensures old(tasks.Honest()) ==> tasks.Honest()
    {
      hide Without, SleepOrLeave, SignalForMyTask, Tasks.Woven, Tasks.Honest, Encodes;
      msglen := -1;
      if ring.count > 0 {
        var mine := tasks.SignalFor(readers, byPriority, t);
        if mine {
          msglen := Collect(t, buf);
          p := Idle;
        } else {
          p := Polling(w, expired);
        }
      } else {
        p := GoToSleep(t, w, expired);
      }
    }

    /** The end of msgQReceive for a task that gets a message. */
    method Collect(t: Task, buf: array<Byte>) returns (msglen: nat)
      requires Valid() && ring.g.msgLen <= buf.Length && buf != ring.extent && t < |tasks.task| && q != []
      modifies this`q, ring, ring.extent, buf, tasks`lines, tasks.heads`first, tasks.all`nxtSusp, tasks.all`state
      ensures Valid() && OthersKept() && View() == Fetch(old(View()), t).cb
      ensures Takes(buf, msglen)
      ensures old(tasks.Honest()) ==> tasks.Honest()
    {
      hide Without, Tasks.Woven, Tasks.Honest, Encodes;
      tasks.UnlinkTask(readers, t);
      msglen := ring.FetchMsgFrom(buf);
      q := q[1..];
    }

    /** waiting_on_q_msg found nothing: sleep, or leave if the deadline has been reported. */
    method GoToSleep(t: Task, w: Wait, expired: bool) returns (p: Pc)
      requires Valid() && t < |tasks.task|
      modifies tasks`lines, tasks.heads`first, tasks.all`nxtSusp, tasks.all`state
      ensures Valid() && OthersKept()
      ensures var r := SleepOrLeave(old(View()), t, w, expired); View() == r.cb && p == r.pc
      ensures old(tasks.Honest()) ==> tasks.Honest()
    {
      hide Without, Tasks.Woven, Tasks.Honest, Encodes;
      if !w.Forever? && expired {
        tasks.UnlinkTask(readers, t);
        p := Idle;
      } else {
        p := Asleep(w);
      }
    }
  }
}
