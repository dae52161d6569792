/**
 The split virtqueue (section 2.7 of VIRTIO 1.2) as the driver uses it: every
 request takes two neighbouring descriptors, the even one for the device to
 read and the odd one for its answer.
 */
module Virtqueue {
  import opened Collections

  const TWO16 := 0x1_0000
  const TWO32 := 0x1_0000_0000
  const FRAME := 4096
  const NEXT := 1
  const WRITE := 2

  datatype Descriptor = Descriptor(addr: nat, len: nat, flags: nat, next: nat)
  datatype Elem = Elem(id: nat, len: nat)

  /** `used` and `usedIndex` are written by the device, everything else by the driver. */
  datatype Queue = Queue(
    size: nat, desc: seq<Descriptor>,
    avail: seq<nat>, availIndex: nat,
    freeHead: nat, added: nat, lastUsed: nat,
    used: seq<Elem>, usedIndex: nat)

  /** A power of two from 2 to 2^16: an even divisor of 2^16. */
  predicate SizeOk(size: nat) { size >= 2 && size % 2 == 0 && TWO16 % size == 0 }

  predicate Shape(q: Queue) { q.size >= 2 && SizeOk(q.size) && |q.desc| == |q.avail| == |q.used| == q.size }

  function Sub32(a: int, b: int): nat { (a - b) % TWO32 }

  // ---------------------------------------------------------------- the driver

  function HandOut(q: Queue, len: nat): (Queue, nat)
    requires Shape(q)
  {
    var i := q.freeHead % q.size;
    (q.(desc := q.desc[i := q.desc[i].(len := len)], freeHead := (q.freeHead + 2) % TWO32,
        added := (q.added + 1) % TWO32),
     q.desc[i].addr)
  }

  /** One turn of notify_device's loop: the oldest buffer not yet published. */
  function PublishOne(q: Queue): (r: Queue)
    requires Shape(q) && q.added > 0
  {
    var d := Sub32(q.freeHead, q.added * 2) % q.size;
    var d' := (d + 1) % q.size;
    var head := q.desc[d].(flags := NEXT, next := d');
    var desc := q.desc[d := head];
    q.(avail := q.avail[q.availIndex % q.size := d],
       desc := desc[d' := desc[d'].(flags := WRITE, len := FRAME)],
       availIndex := (q.availIndex + 1) % TWO16,
       added := q.added - 1)
  }

  function Publish(q: Queue, n: nat): (r: Queue)
    requires Shape(q) && n <= q.added
    ensures Shape(r) && r.size == q.size && r.added == q.added - n
    ensures r.freeHead == q.freeHead && r.lastUsed == q.lastUsed && r.used == q.used && r.usedIndex == q.usedIndex
  {
    if n == 0 then q else PublishOne(Publish(q, n - 1))
  }

  datatype Answer = Nothing | Blank | Pair(request: nat, result: Option<nat>)

  /** The first device-writable descriptor of the chain from i, within `links` steps. */
  function ChainResult(desc: seq<Descriptor>, i: nat, links: nat): Option<nat>
    requires i < |desc|
    decreases links
  {
    if desc[i].flags / 2 % 2 == 1 then Some(desc[i].addr)
    else if desc[i].flags % 2 == 1 && desc[i].next < |desc| && links > 0 then ChainResult(desc, desc[i].next, links - 1)
    else None
  }

  /** read_one_buffer.  Note that a 32-bit counter is compared with the device's 16-bit one. */
  function ReadOne(q: Queue): (Queue, Answer)
    requires Shape(q)
  {
    if q.lastUsed == q.usedIndex then (q, Nothing)
    else
      var e := q.used[q.lastUsed % q.size];
      (q.(lastUsed := (q.lastUsed + 1) % TWO32),
       if e.len == 0 || e.len > FRAME || e.id >= q.size then Blank
       else Pair(q.desc[e.id].addr, ChainResult(q.desc, e.id, 1)))
  }

  // ---------------------------------------------------------------- arithmetic

  lemma ModOfMod(x: nat, m: nat, n: nat)
    requires m > 0 && n > 0 && m % n == 0
    ensures x % m % n == x % n
  {
    var a, r, k := x / m, x % m, m / n;
    assert m == n * k;
    assert x == n * (k * a) + r by { assert m * a == n * (k * a); }
    SameRemainder(n, k * a, r);
  }

  lemma SameRemainder(n: nat, q: nat, r: nat)
    requires n > 0
    ensures (n * q + r) % n == r % n
  {
    var a, b := r / n, r % n;
    assert n * q + r == (q + a) * n + b;
    DivMod(n * q + r, n, q + a, b);
  }

  lemma RemaindersEqual(h: nat, i: nat, j: nat)
    requires h > 0 && i <= j
    ensures i % h == j % h <==> (j - i) % h == 0
  {
    var a, b, x, y := i / h, i % h, (j - i) / h, (j - i) % h;
    Recompose(i, h);
    Recompose(j - i, h);
    assert j == h * a + b + (h * x + y);
    SumRemainder(h, a, b, x, y);
    SmallRemainder(b, y, h);
  }

  lemma Recompose(i: nat, h: nat)
    requires h > 0
    ensures i == h * (i / h) + i % h
  {
  }

  lemma SumRemainder(h: nat, a: nat, b: nat, x: nat, y: nat)
    requires h > 0
    ensures (h * a + b + (h * x + y)) % h == (b + y) % h
  {
    assert h * a + b + (h * x + y) == h * (a + x) + (b + y);
    SameRemainder(h, a + x, b + y);
  }

  lemma SmallRemainder(b: nat, y: nat, h: nat)
    requires b < h && y < h
    ensures (b + y) % h == b <==> y == 0
  {
    if b + y < h { DivMod(b + y, h, 0, b + y); } else { DivMod(b + y, h, 1, b + y - h); }
  }

  lemma NearbyDiffer(a: nat, b: nat, n: nat)
    requires 0 < n && a < b < a + n
    ensures a % n != b % n
  {
    RemaindersEqual(n, a, b);
    DivMod(b - a, n, 0, b - a);
  }

  lemma HalfDivides(size: nat)
    requires SizeOk(size)
    ensures size <= TWO16 && TWO32 % size == 0
  {
    var k := TWO16 / size;
    assert TWO16 == size * k;
    assert TWO32 == (k * TWO16) * size + 0 by { assert TWO16 * TWO16 == (size * k) * TWO16; }
    DivMod(TWO32, size, k * TWO16, 0);
    assert size <= TWO16 by { assert k >= 1 ==> size * k >= size; }
  }

  // ----------------------------------------------------------------- requests

  /** The first descriptor of the j-th request handed out. */
  function Head(size: nat, j: nat): nat
    requires size >= 2
  {
    j % (size / 2) * 2
  }

  /** Two requests share descriptors exactly when they are a multiple of half the queue apart. */
  lemma HeadsEqualExactly(size: nat, i: nat, j: nat)
    requires size >= 2 && i <= j
    ensures Head(size, i) == Head(size, j) <==> (j - i) % (size / 2) == 0
  {
    RemaindersEqual(size / 2, i, j);
  }

  lemma HeadFromCounter(size: nat, j: nat)
    requires SizeOk(size)
    ensures 2 * j % TWO32 % size == Head(size, j)
    ensures Head(size, j) + 1 < size
  {
    HalfDivides(size);
    ModOfMod(2 * j, TWO32, size);
    var h := size / 2;
    var a, b := j / h, j % h;
    assert 2 * j == a * size + 2 * b by { assert j == h * a + b; assert size * a == 2 * (h * a); }
    DivMod(2 * j, size, a, 2 * b);
  }
}
