/** The extent of a message queue as a ring of slots (lib/lmsgQLib.c:437-480). */
module Slots {
  import opened MessageQueue
  import SlotRing

  /** `msglen` is an unsigned int: four bytes, least significant first. */
  function LengthBytes(k: nat): (r: seq<Byte>)
    requires k < 0x1_0000_0000
    ensures |r| == 4
  {
    [k % 256, k / 256 % 256, k / 65536 % 256, k / 16777216]
  }

  function LengthOf(b: seq<Byte>): nat
    requires |b| == 4
  {
    var b0: int, b1: int, b2: int, b3: int := b[0], b[1], b[2], b[3];
    b0 + 256 * b1 + 65536 * b2 + 16777216 * b3
  }

  lemma LengthRoundTrip(k: nat)
    requires k < 0x1_0000_0000
    ensures LengthOf(LengthBytes(k)) == k
  {
    assert k / 65536 == k / 256 / 256 && k / 16777216 == k / 65536 / 256;
  }

  /** Where slot `k` starts, for slots of `size` bytes. */
  function Offset(k: nat, size: nat): nat {
    if k == 0 then 0 else Offset(k - 1, size) + size
  }

  lemma {:induction false} OffsetIsProduct(k: nat, size: nat)
    ensures Offset(k, size) == k * size
  {
    if k > 0 {
      OffsetIsProduct(k - 1, size);
      assert k * size == (k - 1) * size + size;
    }
  }

  /** Different slots do not overlap. */
  lemma {:induction false} SlotsApart(i: nat, j: nat, size: nat)
    requires i < j
    ensures Offset(i, size) + size <= Offset(j, size)
  {
    if i < j - 1 { SlotsApart(i, j - 1, size); }
  }

  /** `header` is where msgbuf starts in a slot; a slot holds up to `msgLen` bytes; there are `n + 1`. */
  datatype Geometry = Geometry(header: nat, msgLen: nat, n: nat) {
    predicate Valid() { 4 <= header && 1 <= msgLen < 0x1_0000_0000 }

    function Size(): nat { header + msgLen }

    function At(k: nat): nat { Offset(k, Size()) }

    function Total(): nat { At(n) + Size() }

    lemma SlotFits(k: nat)
      requires k <= n
      ensures At(k) + Size() <= Total()
    {
      if k < n { SlotsApart(k, n, Size()); }
    }
  }

  /** The slot at `off` stores `m`: its length in front, its bytes after the header. */
  predicate Stores(e: seq<Byte>, off: nat, header: nat, m: Message) {
    && 4 <= header && off + header + |m| <= |e| && |m| < 0x1_0000_0000
    && e[off..off + 4] == LengthBytes(|m|)
    && e[off + header..off + header + |m|] == m
  }

  /** `e'` differs from `e` only inside the slot at `off`. */
  ghost predicate SameOutside(e: seq<Byte>, e': seq<Byte>, off: nat, size: nat) {
    |e'| == |e| && forall k :: 0 <= k < |e| && !(off <= k < off + size) ==> e'[k] == e[k]
  }

  lemma StoresFrame(e: seq<Byte>, e': seq<Byte>, off: nat, header: nat, m: Message, lo: nat, size: nat)
    requires Stores(e, off, header, m) && SameOutside(e, e', lo, size)
    requires off + header + |m| <= lo || lo + size <= off
    ensures Stores(e', off, header, m)
  {
    assert e'[off..off + 4] == e[off..off + 4];
    assert e'[off + header..off + header + |m|] == e[off + header..off + header + |m|];
  }

  /** Slot `k` of the extent stores `m`. */
  predicate HoldsAt(g: Geometry, e: seq<Byte>, k: nat, m: Message) {
    |m| <= g.msgLen && Stores(e, g.At(k), g.header, m)
  }

  lemma OtherSlotKept(g: Geometry, e: seq<Byte>, e': seq<Byte>, j: nat, k: nat, m: Message)
    requires HoldsAt(g, e, j, m) && SameOutside(e, e', g.At(k), g.Size()) && j != k
    ensures HoldsAt(g, e', j, m)
  {
    if j < k { SlotsApart(j, k, g.Size()); } else { SlotsApart(k, j, g.Size()); }
    StoresFrame(e, e', g.At(j), g.header, m, g.At(k), g.Size());
  }

  /** The slots of the extent store exactly `slots`. */
  ghost predicate Encodes(g: Geometry, e: seq<Byte>, slots: seq<Message>) {
    && g.Valid() && |e| == g.Total() && |slots| == g.n + 1
    && forall k :: 0 <= k < |slots| ==> HoldsAt(g, e, k, slots[k])
  }

  /** Writing one slot changes what that slot stores, and nothing else. */
  lemma AfterWrite(g: Geometry, e: seq<Byte>, e': seq<Byte>, k: nat, m: Message, slots: seq<Message>)
    requires Encodes(g, e, slots) && k < |slots|
    requires SameOutside(e, e', g.At(k), g.Size()) && HoldsAt(g, e', k, m)
    ensures Encodes(g, e', slots[k := m])
  {
    hide HoldsAt;
    var slots' := slots[k := m];
    forall j | 0 <= j < |slots|
      ensures HoldsAt(g, e', j, slots'[j])
    {
      if j != k { OtherSlotKept(g, e, e', j, k, slots[j]); }
    }
  }

  /** A zeroed extent stores empty messages. */
  lemma ZeroedExtent(g: Geometry, e: seq<Byte>)
    requires g.Valid() && |e| == g.Total() && forall i :: 0 <= i < |e| ==> e[i] == 0
    ensures Encodes(g, e, SlotRing.Empty(g.n).slots)
  {
    forall k | 0 <= k <= g.n
      ensures HoldsAt(g, e, k, [])
    {
      g.SlotFits(k);
      assert e[g.At(k)..g.At(k) + 4] == LengthBytes(0);
    }
  }

  lemma EncodesBounds(g: Geometry, e: seq<Byte>, slots: seq<Message>, k: nat)
    requires Encodes(g, e, slots) && k <= g.n
    ensures g.Valid() && |e| == g.Total() && |slots| == g.n + 1
    ensures |slots[k]| <= g.msgLen && Stores(e, g.At(k), g.header, slots[k]) && g.At(k) + g.Size() <= |e|
  {
    assert HoldsAt(g, e, k, slots[k]);
    g.SlotFits(k);
  }

  /** One slot forward or back, with the wrap at either end of the extent. */
  lemma Neighbours(g: Geometry, k: nat)
    requires g.Valid() && k <= g.n
    ensures (if g.At(k) + g.Size() > g.At(g.n) then 0 else g.At(k) + g.Size()) == g.At(SlotRing.After(k, g.n + 1))
    ensures (if g.At(k) < g.Size() then g.At(g.n) else g.At(k) - g.Size()) == g.At(SlotRing.Ahead(k, g.n + 1))
  {
    if k < g.n { SlotsApart(k, g.n, g.Size()); }
    if k > 0 { SlotsApart(0, k, g.Size()); }
  }
}

/** The ring buffer of lib/lmsgQLib.c over a flat extent of bytes. */
module MessageRing {
  import opened MessageQueue
  import opened Slots
  import SlotRing

  class Ring {
    const g: Geometry
    const size: nat             // vmsg_len
    const last: nat             // last_msg_in_queue; first_msg_in_queue is offset zero
    const extent: array<Byte>

    var head: nat               // queue_head and queue_tail, as offsets into the extent
    var tail: nat
    var count: nat              // msg_count

    ghost var slots: SlotRing.Ring

    /** The bytes of the extent store what the slots hold, and the offsets point at the right slots. */
    ghost predicate Valid()
      reads this, extent
    {
      && Encodes(g, extent[..], slots.slots) && slots.Valid()
      && size == g.Size() && last == g.At(g.n)
      && count == slots.count && head == g.At(slots.first) && tail == g.At(slots.end)
    }

    constructor (g: Geometry)
      requires g.Valid()
      ensures Valid() && fresh(extent) && this.g == g && slots == SlotRing.Empty(g.n)
    {
      OffsetIsProduct(g.n, g.Size());
      var vmsgLen := g.header + g.msgLen;
      this.g, size, last := g, vmsgLen, vmsgLen * g.n;
      extent := new Byte[vmsgLen * g.n + vmsgLen](_ => 0);
      head, tail, count, slots := 0, 0, 0, SlotRing.Empty(g.n);
      new;
      ZeroedExtent(g, extent[..]);
    }

    /** The copy loop and the store of `msglen`: they touch nothing outside the slot. */
    method WriteSlot(off: nat, m: Message)
      requires g.Valid() && size == g.Size() && |m| <= g.msgLen && off + size <= extent.Length
      modifies extent
      ensures Stores(extent[..], off, g.header, m)
      ensures SameOutside(old(extent[..]), extent[..], off, size)
    {
      var h := g.header;
      for i := 0 to |m|
        invariant extent[off + h..off + h + i] == m[..i]
        invariant forall k :: 0 <= k < extent.Length && !(off <= k < off + size) ==> extent[k] == old(extent[k])
      {
        extent[off + h + i] := m[i];
      }
      StoreLength(off, |m|);
      assert extent[off + h..off + h + |m|] == m[..|m|];
    }

    method StoreLength(off: nat, msglen: nat)
      requires off + 4 <= extent.Length && msglen < 0x1_0000_0000
      modifies extent
      ensures extent[off..off + 4] == LengthBytes(msglen)
      ensures forall k :: 0 <= k < extent.Length && !(off <= k < off + 4) ==> extent[k] == old(extent[k])
    {
      var len := LengthBytes(msglen);
      extent[off], extent[off + 1], extent[off + 2], extent[off + 3] := len[0], len[1], len[2], len[3];
    }

    /** send_msg_to: the message goes to the tail, whatever is stored there. */
    method SendMsgTo(m: Message)
      requires Valid() && |m| <= g.msgLen
      modifies this, extent
      ensures Valid() && slots == SlotRing.Append(old(slots), m)
    {
      hide Encodes, Stores, SameOutside, Offset;
      EncodesBounds(g, extent[..], slots.slots, 0);
      EncodesBounds(g, extent[..], slots.slots, slots.end);
      WriteSlot(tail, m);
      AfterWrite(g, old(extent[..]), extent[..], slots.end, m, slots.slots);
      Neighbours(g, slots.end);
      tail := tail + size;
      if tail > last { tail := 0; }
      count := count + 1;
      slots := SlotRing.Append(slots, m);
    }

    /** urgent_msg_to: the message goes ahead of the head, whatever is stored there. */
    method UrgentMsgTo(m: Message)
      requires Valid() && |m| <= g.msgLen
      modifies this, extent
      ensures Valid() && slots == SlotRing.Prepend(old(slots), m)
    {
      hide Encodes, Stores, SameOutside, Offset;
      EncodesBounds(g, extent[..], slots.slots, 0);
      ghost var k := SlotRing.Ahead(slots.first, |slots.slots|);
      EncodesBounds(g, extent[..], slots.slots, k);
      Neighbours(g, slots.first);
      var h: int := head - size;
      if h < 0 { h := last; }
      WriteSlot(h, m);
      AfterWrite(g, old(extent[..]), extent[..], k, m, slots.slots);
      head := h;
      count := count + 1;
      slots := SlotRing.Prepend(slots, m);
    }

    /** fetch_msg_from: the message at the head is copied out, its slot is cleared and given up. */
    method FetchMsgFrom(buf: array<Byte>) returns (msglen: nat)
      requires Valid() && count > 0 && buf.Length >= g.msgLen && buf != extent
      modifies this, extent, buf
      ensures Valid() && slots == SlotRing.Drop(old(slots))
      ensures var m := old(slots.slots[slots.first]); msglen == |m| <= buf.Length && buf[..msglen] == m
      ensures buf[msglen..] == old(buf[msglen..])
    {
      hide Encodes, Stores, SameOutside, Offset;
      EncodesBounds(g, extent[..], slots.slots, 0);
      EncodesBounds(g, extent[..], slots.slots, slots.first);
      msglen := ReadSlot(head, buf, slots.slots[slots.first]);
      ClearSlot(head);
      AfterWrite(g, old(extent[..]), extent[..], slots.first, [], slots.slots);
      Neighbours(g, slots.first);
      head := head + size;
      if head > last { head := 0; }
      count := count - 1;
      slots := SlotRing.Drop(slots);
    }

    /** Clearing writes the first data byte and `msglen`; with `msgLen >= 1` both are inside the slot. */
    method ClearSlot(off: nat)
      requires g.Valid() && size == g.Size() && off + size <= extent.Length
      modifies extent
      ensures Stores(extent[..], off, g.header, [])
      ensures SameOutside(old(extent[..]), extent[..], off, size)
    {
      extent[off + g.header] := 0;
      StoreLength(off, 0);
    }

    /** The copy loop out of a slot stays inside the caller's buffer. */
    method ReadSlot(off: nat, buf: array<Byte>, ghost m: Message) returns (msglen: nat)
      requires Stores(extent[..], off, g.header, m) && |m| <= buf.Length && buf != extent
      modifies buf
      ensures msglen == |m| && buf[..msglen] == m && buf[msglen..] == old(buf[msglen..])
    {
      var h := g.header;
      LengthRoundTrip(|m|);
      assert extent[off..off + 4] == extent[..][off..off + 4];
      msglen := LengthOf(extent[off..off + 4]);
      for i := 0 to msglen
        invariant buf[..i] == m[..i] && buf[i..] == old(buf[i..])
      {
        assert extent[..][off + h..off + h + |m|][i] == m[i];
        buf[i] := extent[off + h + i];
      }
    }

    /** queue_tail is queue_head plus `count` slots, modulo the `n + 1` slots of the extent. */
    lemma TailPosition()
      requires Valid()
      ensures var first := slots.first; head == first * size && tail == (first + count) % (g.n + 1) * size
    {
      OffsetIsProduct(slots.first, size);
      OffsetIsProduct(slots.end, size);
    }
  }
}
