/** The virtqueue as the driver updates it in place. */
module VirtqueueDriver {
  import opened Collections
  import opened Virtqueue
  import opened VirtqueueRuns

  class DriverQueue {
    const size: nat
    const desc: array<Descriptor>
    const avail: array<nat>
    const used: array<Elem>     // written by the device
    var availIndex: nat
    var usedIndex: nat          // written by the device
    var freeHead: nat
    var added: nat
    var lastUsed: nat

    ghost predicate Valid()
      reads this
    {
      SizeOk(size) && desc.Length == avail.Length == used.Length == size
    }

    ghost function View(): Queue
      reads this, desc, avail, used
    {
      Queue(size, desc[..], avail[..], availIndex, freeHead, added, lastUsed, used[..], usedIndex)
    }

    constructor (n: nat, first: nat)
      requires SizeOk(n)
      ensures Valid() && fresh(desc) && fresh(avail) && fresh(used)
      ensures View() == Start(n, first).q
    {
      size := n;
      desc := new Descriptor[n](i => Descriptor(0, 0, 0, 0));
      avail := new nat[n](_ => 0);
      used := new Elem[n](_ => Elem(0, 0));
      availIndex, usedIndex, freeHead, added, lastUsed := 0, 0, 0, 0, 0;
      new;
      assert avail[..] == Start(n, first).q.avail && used[..] == Start(n, first).q.used;
      FillDescriptors(first);
      assert desc[..] == Start(n, first).q.desc;
    }

    method FillDescriptors(first: nat)
      requires desc.Length == size
      modifies desc
      ensures forall k | 0 <= k < size :: desc[k] == FreshDescriptor(size, first, k)
    {
      var i: nat := 0;
      while i < size
        invariant i <= size
        invariant forall k | 0 <= k < i :: desc[k] == FreshDescriptor(size, first, k)
      {
        desc[i] := Descriptor(first + i * FRAME, FRAME, 0, if i + 1 != size then i + 1 else 0);
        i := i + 1;
      }
    }

    method GetNextDescriptorBuffer(len: nat) returns (addr: nat)
      requires Valid()
      modifies this, desc
      ensures (View(), addr) == HandOut(old(View()), len)
    {
      var i := freeHead % size;
      desc[i] := desc[i].(len := len);
      freeHead := (freeHead + 2) % TWO32;
      added := (added + 1) % TWO32;
      addr := desc[i].addr;
      assert desc[..] == HandOut(old(View()), len).0.desc;
    }

    /** One turn of the loop, with `left` buffers still to publish. */
    method PublishNext(left: nat)
      requires Valid() && 0 < left
      modifies this`availIndex, desc, avail
      ensures View().(added := left - 1) == PublishOne(old(View()).(added := left))
    {
      var d := Sub32(freeHead, left * 2) % size;
      avail[availIndex % size] := d;
      desc[d] := desc[d].(flags := NEXT);
      desc[d] := desc[d].(next := (d + 1) % size);
      desc[(d + 1) % size] := desc[(d + 1) % size].(flags := WRITE);
      desc[(d + 1) % size] := desc[(d + 1) % size].(len := FRAME);
      availIndex := (availIndex + 1) % TWO16;
      ghost var q := PublishOne(old(View()).(added := left));
      assert desc[..] == q.desc;
      assert avail[..] == q.avail;
    }

    method NotifyDevice()
      requires Valid()
      modifies this, desc, avail
      ensures View() == Publish(old(View()), old(added))
    {
      hide PublishOne;
      var i := 0;
      while i < added
        invariant 0 <= i <= added == old(added)
        invariant View().(added := added - i) == Publish(old(View()), i)
        modifies this`availIndex, desc, avail
      {
        PublishNext(added - i);
        i := i + 1;
      }
      added := 0;
    }

    /** Follows the chain to the first descriptor the device may write. */
    method FindResult(id: nat) returns (result: Option<nat>)
      requires Valid() && ChainOk(View(), id)
      ensures result == ChainResult(View().desc, id, 1)
    {
      var i := id;
      while true
        invariant i == id || i == id + 1
        decreases id + 1 - i
      {
        if desc[i].flags / 2 % 2 == 1 {
          return Some(desc[i].addr);
        }
        if desc[i].flags % 2 == 1 {
          i := desc[i].next;
        } else {
          return None;
        }
      }
    }

    /** The next completion; a device that follows the protocol names the head of a published chain. */
    method ReadOneBuffer() returns (answer: Answer)
      requires Valid()
      requires lastUsed != usedIndex ==> ChainOk(View(), used[lastUsed % size].id)
      modifies this`lastUsed
      ensures (View(), answer) == ReadOne(old(View()))
    {
      if lastUsed == usedIndex {
        return Nothing;
      }
      var e := used[lastUsed % size];
      lastUsed := (lastUsed + 1) % TWO32;
      if e.len == 0 || e.len > FRAME {
        return Blank;
      }
      var result := FindResult(e.id);
      return Pair(desc[e.id].addr, result);
    }
  }
}
