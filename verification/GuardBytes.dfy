/** The guard bytes behind a client's memory, in builds with headers in front of it. */
module GuardBytes {
  import opened WordBits
  import opened Wrappers

  type Bytes = seq<int>

  predicate IsByte(c: int) { 0 <= c < 256 }

  predicate AreBytes(b: Bytes) {
    forall i {:trigger b[i]} | 0 <= i < |b| :: IsByte(b[i])
  }

  /** The guard byte of the chunk at address `p`. */
  function MagicByte(p: int): (r: int)
    requires p >= 0
    ensures IsByte(r) && r != 1
  {
    XorInRange(p / 0x8, p / 0x800, 8);
    var magic := Xor(p / 0x8, p / 0x800, 8);
    if magic == 1 then 2 else magic
  }

  /** Bits 3 and 11 places above bit `k` differ in the address. */
  predicate Differ(p: int, k: nat) { IsSet(p / 0x8, k) != IsSet(p / 0x800, k) }

  /** The address folds to 1. */
  ghost predicate FoldsToOne(p: int) {
    forall k: nat {:trigger Differ(p, k)} | k < 8 :: Differ(p, k) <==> k == 0
  }

  lemma BitsOfOne(k: nat)
    ensures IsSet(1, k) <==> k == 0
  {
    if k > 0 { HighBitsClear(0, 0, k - 1); }
  }

  /** The bits of the guard byte are set just where two bits of the address differ; only 2 takes the place of 1. */
  lemma MagicByteFolds(p: int, k: nat)
    requires p >= 0 && k < 8
    ensures if FoldsToOne(p) then MagicByte(p) == 2 else IsSet(MagicByte(p), k) <==> Differ(p, k)
  {
    var magic := Xor(p / 0x8, p / 0x800, 8);
    forall j: nat {:trigger Differ(p, j)} | j < 8 ensures IsSet(magic, j) <==> Differ(p, j) {
      XorBits(p / 0x8, p / 0x800, 8, j);
    }
    if FoldsToOne(p) {
      forall j: nat {:trigger IsSet(magic, j)} {:trigger IsSet(1, j)} | j < 8 ensures IsSet(magic, j) == IsSet(1, j) {
        BitsOfOne(j);
        assert Differ(p, j) <==> j == 0;
      }
      XorInRange(p / 0x8, p / 0x800, 8);
      SameBits(magic, 1, 8);
    } else if magic == 1 {
      forall j: nat {:trigger Differ(p, j)} | j < 8 ensures Differ(p, j) <==> j == 0 {
        BitsOfOne(j);
      }
      assert false;
    }
  }

  /**
   * The requested size that can be read back when walking down from byte `i`: each byte is the distance
   * to the next one, until the guard byte is met. None if the bytes lead nowhere.
   */
  function SizeFrom(b: Bytes, i: int, magic: int): Option<int>
    requires AreBytes(b) && 0 <= i < |b|
    decreases i
  {
    if b[i] == magic then Some(i)
    else if b[i] == 0 || i < b[i] then None
    else SizeFrom(b, i - b[i], magic)
  }

  /** Walking down from byte `top` leads to byte `i`, over bytes none of which is the guard byte. */
  predicate Leads(b: Bytes, top: int, i: int, magic: int)
    requires AreBytes(b) && 0 <= i <= top < |b|
    decreases top
  {
    top == i || (b[top] != magic && 0 < b[top] <= top - i && Leads(b, top - b[top], i, magic))
  }

  lemma {:induction false} SizeAlong(b: Bytes, top: int, i: int, magic: int)
    requires AreBytes(b) && 0 <= i <= top < |b| && Leads(b, top, i, magic)
    ensures SizeFrom(b, top, magic) == SizeFrom(b, i, magic)
    decreases top
  {
    if top != i { SizeAlong(b, top - b[top], i, magic); }
  }

  /** One more link at the end of a walk. */
  lemma {:induction false} LeadsFurther(b: Bytes, top: int, i: int, c: int, magic: int)
    requires AreBytes(b) && 0 <= i <= top < |b| && IsByte(c) && c != magic && 0 < c <= i && Leads(b, top, i, magic)
    ensures AreBytes(b[i := c]) && Leads(b[i := c], top, i - c, magic)
    decreases top
  {
    var b' := b[i := c];
    if top == i {
      assert Leads(b', i - c, i - c, magic);
    } else {
      LeadsFurther(b, top - b[top], i, c, magic);
    }
  }

  lemma {:induction false} LeadsStays(b: Bytes, b': Bytes, top: int, i: int, magic: int)
    requires AreBytes(b) && AreBytes(b') && |b'| == |b| && 0 <= i <= top < |b| && Leads(b, top, i, magic)
    requires forall k {:trigger b'[k]} | i < k < |b| :: b'[k] == b[k]
    ensures Leads(b', top, i, magic)
    decreases top
  {
    if top != i { LeadsStays(b, b', top - b[top], i, magic); }
  }

  /** Marks the end of the requested bytes; reading from the top then finds exactly their number. */
  method Mem2MemCheck(p: int, m: array<int>, maxSz: int, reqSz: int)
    requires p >= 0 && AreBytes(m[..]) && 0 <= reqSz < maxSz <= m.Length
    modifies m
    ensures AreBytes(m[..]) && SizeFrom(m[..], maxSz - 1, MagicByte(p)) == Some(reqSz)
    ensures Leads(m[..], maxSz - 1, reqSz, MagicByte(p)) && m[reqSz] == MagicByte(p)
    ensures forall k {:trigger m[k]} | 0 <= k < reqSz || maxSz <= k < m.Length :: m[k] == old(m[k])
  {
    hide MagicByte;
    var magic := MagicByte(p);
    var i := maxSz - 1;
    while i > reqSz
      invariant reqSz <= i < maxSz && AreBytes(m[..]) && Leads(m[..], maxSz - 1, i, magic)
      invariant forall k {:trigger m[k]} | 0 <= k < reqSz || maxSz <= k < m.Length :: m[k] == old(m[k])
    {
      var blockSz := if i - reqSz < 0xFF then i - reqSz else 0xFF;
      if blockSz == magic {
        blockSz := blockSz - 1;
      }
      LeadsFurther(m[..], maxSz - 1, i, blockSz, magic);
      ghost var was := m[..];
      m[i] := blockSz;
      assert m[..] == was[i := blockSz];
      i := i - blockSz;
    }
    ghost var was := m[..];
    m[reqSz] := magic;
    assert m[..] == was[reqSz := magic];
    LeadsStays(was, m[..], maxSz - 1, reqSz, magic);
    SizeAlong(m[..], maxSz - 1, reqSz, magic);
  }

  /** Reads the requested size back. */
  method MallocCheckGetSize(p: int, m: array<int>, maxSz: int) returns (r: Option<int>)
    requires p >= 0 && AreBytes(m[..]) && 0 < maxSz <= m.Length
    ensures r == SizeFrom(m[..], maxSz - 1, MagicByte(p))
  {
    hide MagicByte;
    var magic := MagicByte(p);
    var size := maxSz - 1;
    var c := m[size];
    while c != magic
      invariant 0 <= size < maxSz && c == m[size]
      invariant SizeFrom(m[..], maxSz - 1, magic) == SizeFrom(m[..], size, magic)
      decreases size
    {
      if c <= 0 || size < c {
        return None;
      }
      size := size - c;
      c := m[size];
    }
    return Some(size);
  }

  lemma {:induction false} SizeIsBelow(b: Bytes, i: int, magic: int)
    requires AreBytes(b) && 0 <= i < |b|
    ensures SizeFrom(b, i, magic).Some? ==>
              0 <= SizeFrom(b, i, magic).value <= i && b[SizeFrom(b, i, magic).value] == magic
    decreases i
  {
    if b[i] != magic && b[i] != 0 && i >= b[i] { SizeIsBelow(b, i - b[i], magic); }
  }

  /** A walk depends only on the bytes from its start down. */
  lemma {:induction false} SizeBelow(b: Bytes, b': Bytes, n: int, i: int, magic: int)
    requires AreBytes(b) && AreBytes(b') && 0 <= i < n <= |b| == |b'|
    requires forall k {:trigger b'[k]} | 0 <= k < n :: b'[k] == b[k]
    ensures SizeFrom(b', i, magic) == SizeFrom(b, i, magic)
    decreases i
  {
    if b[i] != magic && b[i] != 0 && i >= b[i] { SizeBelow(b, b', n, i - b[i], magic); }
  }

  /**
   When the guard byte was overwritten by `c`, the walk goes on from there: corruption is reported at once exactly
   if `c` is zero or leads out of the chunk, and otherwise if and only if the bytes further down do not lead to a
   guard byte; the requested size is never read back.
   */
  lemma AfterOverrun(b: Bytes, top: int, reqSz: int, magic: int, c: int)
    requires AreBytes(b) && 0 <= reqSz <= top < |b| && Leads(b, top, reqSz, magic) && IsByte(c) && c != magic
    ensures AreBytes(b[reqSz := c])
    ensures SizeFrom(b[reqSz := c], top, magic) == if c == 0 || reqSz < c then None else SizeFrom(b, reqSz - c, magic)
    ensures SizeFrom(b[reqSz := c], top, magic) != Some(reqSz)
  {
    var b' := b[reqSz := c];
    LeadsStays(b, b', top, reqSz, magic);
    SizeAlong(b', top, reqSz, magic);
    if 0 < c <= reqSz {
      SizeBelow(b, b', reqSz, reqSz - c, magic);
      SizeIsBelow(b', reqSz - c, magic);
    }
  }
}
