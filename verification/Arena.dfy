/** The compiler's bump allocator: chunks of zeroed, aligned blocks that are all given back at once. */
module Arena {
  import opened Bits

  type byte = b: int | 0 <= b < 256

  const DEFAULT_BLOCK := 65536

  /** No C object is as large. */
  const HALF := 0x8000_0000_0000_0000

  /** Addition of sizes in 64 bits. */
  function Plus(a: nat, b: nat): nat {
    (a + b) % 0x1_0000_0000_0000_0000
  }

  /** A size rounded up to a multiple of 8. */
  function Rounded(n: nat): int {
    BitOp(BitAnd, Plus(n, 7), -8)
  }

  lemma {:induction false} RoundedIsNext(n: nat)
    requires n + 8 <= HALF
    ensures n <= Rounded(n) < n + 8 && Rounded(n) % 8 == 0
  {
    hide BitOp;
    var m: nat := n + 7;
    assert Plus(n, 7) == m;
    BitStep(BitAnd, m, -8);
    BitStep(BitAnd, m / 2, -4);
    BitStep(BitAnd, m / 4, -2);
    BitUnits(m / 8);
    assert m / 2 / 2 == m / 4 && m / 4 / 2 == m / 8;
    assert Rounded(n) == 8 * (m / 8);
  }

  class Chunk {
    const data: array<byte>
    var used: nat
    const next: Chunk?

    constructor (size: nat, next: Chunk?)
      ensures fresh(data) && data.Length == size && used == 0 && this.next == next
    {
      data := new byte[size];
      used := 0;
      this.next := next;
    }
  }

  /** A block that was given out. */
  datatype Block = Block(chunk: Chunk, start: nat, size: nat)

  /** No byte belongs to both. */
  ghost predicate Apart(a: Block, b: Block) {
    a.chunk != b.chunk || a.start + a.size <= b.start || b.start + b.size <= a.start
  }

  /** Chunk by chunk, as the links say. */
  ghost predicate Linked(head: Chunk?, cs: seq<Chunk>)
    decreases |cs|
  {
    if cs == [] then head == null else head == cs[0] && Linked(cs[0].next, cs[1..])
  }

  method Clear(c: Chunk, p: nat, size: nat)
    requires p + size <= c.data.Length
    modifies c.data
    ensures forall k :: 0 <= k < c.data.Length ==> c.data[k] == if p <= k < p + size then 0 else old(c.data[k])
  {
    for i := p to p + size
      invariant forall k :: 0 <= k < c.data.Length ==> c.data[k] == if p <= k < i then 0 else old(c.data[k])
    {
      c.data[i] := 0;
    }
  }

  class Arena {
    var head: Chunk?
    const blockSize: nat
    /** The newest chunk first, and every block in the order of its allocation. */
    ghost var chunks: seq<Chunk>
    ghost var blocks: seq<Block>

    ghost predicate Shape()
      reads this
    {
      && 0 < blockSize < HALF
      && Linked(head, chunks)
      && forall i, j :: 0 <= i < j < |chunks| ==> chunks[i] != chunks[j] && chunks[i].data != chunks[j].data
    }

    /** Every block is aligned and lies in the used part of its chunk, and no two of them share a byte. */
    ghost predicate Valid()
      reads this, chunks
    {
      && Shape()
      && (forall c :: c in chunks ==> c.used <= c.data.Length < HALF && c.used % 8 == 0)
      && (forall b :: b in blocks ==> b.chunk in chunks && b.start % 8 == 0 && b.start + b.size <= b.chunk.used)
      && forall i, j :: 0 <= i < j < |blocks| ==> Apart(blocks[i], blocks[j])
    }

    constructor (size: nat)
      requires size < HALF
      ensures Valid() && blocks == [] && |chunks| == 1 && fresh(chunks[0]) && fresh(chunks[0].data)
      ensures blockSize == if size > 0 then size else DEFAULT_BLOCK
    {
      blockSize := if size > 0 then size else DEFAULT_BLOCK;
      var c := new Chunk(if size > 0 then size else DEFAULT_BLOCK, null);
      head := c;
      chunks := [c];
      blocks := [];
    }

    /** A new chunk in front of the others. */
    method Grow(n: nat) returns (c: Chunk)
      requires Valid() && n < HALF
      modifies this
      ensures Valid() && head == c && fresh(c) && fresh(c.data) && c.used == 0 && n <= c.data.Length
      ensures chunks == [c] + old(chunks) && blocks == old(blocks)
    {
      c := new Chunk(if n > blockSize then n else blockSize, head);
      head := c;
      chunks := [c] + chunks;
      assert chunks[1..] == old(chunks);
    }

    /** The chunk that the next block goes to: a new one if there is none or the block does not fit. */
    method Room(size: nat) returns (c: Chunk)
      requires Valid() && size < HALF
      modifies this
      ensures Valid() && head == c && c.used + size <= c.data.Length && blocks == old(blocks)
      ensures
        if old(head) != null && old(head.used) + size <= old(head).data.Length
        then c == old(head) && chunks == old(chunks)
        else fresh(c) && fresh(c.data) && chunks == [c] + old(chunks)
    {
      if head == null || Plus(head.used, size) > head.data.Length {
        c := Grow(size);
      } else {
        c := head;
      }
    }

    /** A zeroed block of at least `n` bytes. No other byte changes. */
    method Alloc(n: nat) returns (c: Chunk, p: nat)
      requires Valid() && n + 8 <= HALF
      modifies this, head, if head != null then {head.data} else {}
      ensures Valid()
      ensures n <= Rounded(n) && p % 8 == 0 && p + Rounded(n) <= c.data.Length
      ensures blocks == old(blocks) + [Block(c, p, Rounded(n))] && c == head
      ensures forall k :: p <= k < p + Rounded(n) ==> c.data[k] == 0
      ensures c == old(head) || (fresh(c) && fresh(c.data))
      ensures
        forall d, k :: d in old(chunks) && 0 <= k < d.data.Length && !(d == c && p <= k < p + Rounded(n)) ==>
          d.data[k] == old(d.data[k])
    {
      hide Rounded;
      RoundedIsNext(n);
      var size := Rounded(n);
      c := Room(size);
      p := Take(c, size);
      Clear(c, p, size);
    }

    /** The next bytes of the first chunk. */
    method Take(c: Chunk, size: nat) returns (p: nat)
      requires Valid() && c == head && size % 8 == 0 && c.used + size <= c.data.Length
      modifies `blocks, c
      ensures Valid() && p == old(c.used) && c.used == p + size && blocks == old(blocks) + [Block(c, p, size)]
    {
      p := c.used;
      c.used := p + size;
      blocks := blocks + [Block(c, p, size)];
    }

    /** Every chunk is freed once. */
    method Free() returns (freed: seq<Chunk>)
      requires Valid()
      modifies this
      ensures Valid() && head == null && chunks == [] && blocks == []
      ensures freed == old(chunks)
    {
      freed := [];
      var c := head;
      ghost var left := chunks;
      while c != null
        invariant Linked(c, left) && freed + left == chunks
        decreases |left|
      {
        freed := freed + [c];
        c, left := c.next, left[1..];
      }
      head, chunks, blocks := null, [], [];
    }
  }

  /** What a block holds. */
  ghost function Content(b: Block): seq<byte>
    requires b.start + b.size <= b.chunk.data.Length
    reads b.chunk.data
  {
    b.chunk.data[b.start..b.start + b.size]
  }

  /** Writing inside one block, as its owner may, changes no other. */
  twostate lemma OthersKept(a: Arena, b: Block, i: nat)
    requires old(a.Valid()) && i < old(|a.blocks|) && b == old(a.blocks[i])
    requires
      forall c, k ::
        c in old(a.chunks) && 0 <= k < c.data.Length && !(c == b.chunk && b.start <= k < b.start + b.size) ==>
          c.data[k] == old(c.data[k])
    ensures forall j :: 0 <= j < old(|a.blocks|) && j != i ==> var d := old(a.blocks[j]); old(Content(d)) == Content(d)
  {
  }
}
