/**
  The ring of a message queue as a ring of slots, with everything that lib/lmsgQLib.c does to it.  None
  of its operations looks for room.  As long as there is room the ring is a double-ended queue; without
  room a stored message is overwritten.
*/
module SlotRing {
  import opened MessageQueue
  import Counting

  /** The slot behind slot `k`, and the one ahead of it. */
  function After(k: nat, size: nat): (r: nat)
    requires k < size
    ensures r < size
  {
    if k + 1 == size then 0 else k + 1
  }

  function Ahead(k: nat, size: nat): (r: nat)
    requires k < size
    ensures r < size && After(r, size) == k
  {
    if k == 0 then size - 1 else k - 1
  }

  /** `first` and `end` are the slots that queue_head and queue_tail point at; `count` is msg_count. */
  datatype Ring = Ring(slots: seq<Message>, first: nat, end: nat, count: nat) {

    /** The tail is the head plus `count` slots, counted around. */
    predicate Valid() {
      first < |slots| && end == (first + count) % |slots|
    }

    predicate Room() { count < |slots| }

    /** Position `i` from the head. */
    function Place(i: nat): (k: nat)
      requires first < |slots| && i <= |slots|
      ensures k < |slots|
    {
      if first + i >= |slots| then first + i - |slots| else first + i
    }

    /** The messages that the slots in use hold, from the head on; no slot is counted twice. */
    function Stored(): (r: seq<Message>)
      requires Valid()
      ensures |r| == if count < |slots| then count else |slots|
    {
      seq(if count < |slots| then count else |slots|, i requires 0 <= i < |slots| => slots[Place(i)])
    }

    /** The ring holds exactly these messages. */
    predicate Holds(msgs: seq<Message>) {
      Valid() && count == |msgs| <= |slots| && Stored() == msgs
    }
  }

  function Empty(n: nat): (r: Ring)
    ensures r.Holds([])
  {
    Ring(seq(n + 1, i => []), 0, 0, 0)
  }

  /** send_msg_to. */
  function Append(r: Ring, m: Message): (r': Ring)
    requires r.Valid()
    ensures r'.Valid() && |r'.slots| == |r.slots|
  {
    Counting.CountsAround(r.first + r.count + 1, |r.slots|);
    Ring(r.slots[r.end := m], r.first, After(r.end, |r.slots|), r.count + 1)
  }

  /** urgent_msg_to. */
  function Prepend(r: Ring, m: Message): (r': Ring)
    requires r.Valid()
    ensures r'.Valid() && |r'.slots| == |r.slots|
  {
    var k := Ahead(r.first, |r.slots|);
    Counting.WholeTurn(r.count, |r.slots|);
    Ring(r.slots[k := m], k, r.end, r.count + 1)
  }

  /** fetch_msg_from: it leaves an empty message behind. */
  function Drop(r: Ring): (r': Ring)
    requires r.Valid() && r.count > 0
    ensures r'.Valid() && |r'.slots| == |r.slots|
  {
    Counting.WholeTurn(r.count - 1, |r.slots|);
    Ring(r.slots[r.first := []], After(r.first, |r.slots|), r.end, r.count - 1)
  }

  // ---------------------------------------------------------------- with room: a double-ended queue

  /** The tail is at position `count` from the head. */
  lemma EndPlace(r: Ring)
    requires r.Valid() && r.count <= |r.slots|
    ensures r.end == r.Place(r.count)
  {
    var size, n := |r.slots|, r.first + r.count;
    if n >= size {
      Counting.Remainder(n, 1, n - size, size);
    }
  }

  lemma AppendHolds(r: Ring, msgs: seq<Message>, m: Message)
    requires r.Holds(msgs) && r.Room()
    ensures Append(r, m).Holds(msgs + [m])
  {
    EndPlace(r);
    var r' := Append(r, m);
    forall i | 0 <= i <= |msgs|
      ensures r'.Stored()[i] == (msgs + [m])[i]
    {
      if i < |msgs| { assert r.Stored()[i] == msgs[i]; }
    }
  }

  lemma PrependHolds(r: Ring, msgs: seq<Message>, m: Message)
    requires r.Holds(msgs) && r.Room()
    ensures Prepend(r, m).Holds([m] + msgs)
  {
    var r' := Prepend(r, m);
    forall i | 0 <= i <= |msgs|
      ensures r'.Stored()[i] == ([m] + msgs)[i]
    {
      if i > 0 { assert r.Stored()[i - 1] == msgs[i - 1]; }
    }
  }

  lemma DropHolds(r: Ring, msgs: seq<Message>)
    requires r.Holds(msgs) && msgs != []
    ensures Drop(r).Holds(msgs[1..]) && r.slots[r.first] == msgs[0]
  {
    assert r.Stored()[0] == msgs[0];
    var r' := Drop(r);
    forall i | 0 <= i < |msgs| - 1
      ensures r'.Stored()[i] == msgs[1..][i]
    {
      assert r.Stored()[i + 1] == msgs[i + 1];
    }
  }

  // ---------------------------------------------------------------- without room: a message is lost

  /** A normal message sent to a ring without room replaces the oldest one. */
  lemma AppendOverwrites(r: Ring, msgs: seq<Message>, m: Message)
    requires r.Holds(msgs) && !r.Room()
    ensures Append(r, m).Stored() == [m] + msgs[1..] && Append(r, m).count == |msgs| + 1
  {
    EndPlace(r);
    var r' := Append(r, m);
    forall i | 0 <= i < |msgs|
      ensures r'.Stored()[i] == ([m] + msgs[1..])[i]
    {
      assert r.Stored()[i] == msgs[i];
    }
  }

  /** An urgent one replaces the newest one. */
  lemma PrependOverwrites(r: Ring, msgs: seq<Message>, m: Message)
    requires r.Holds(msgs) && !r.Room()
    ensures Prepend(r, m).Stored() == [m] + msgs[..|msgs| - 1] && Prepend(r, m).count == |msgs| + 1
  {
    var r' := Prepend(r, m);
    forall i | 0 <= i < |msgs|
      ensures r'.Stored()[i] == ([m] + msgs[..|msgs| - 1])[i]
    {
      if i > 0 { assert r.Stored()[i - 1] == msgs[i - 1]; }
    }
  }
}
