/** Flash that programming can only clear, and RAM in a 32-bit address space. */
module Memory {
  import opened Base

  // ---- flash -------------------------------------------------------------

  predicate Blank(f: Bytes, lo: nat, hi: nat) {
    forall i :: lo <= i < hi && i < |f| ==> f[i] == 0xFF
  }

  /** Bytes lo to hi become 0xFF. */
  function Erased(f: Bytes, lo: nat, hi: nat): (r: Bytes)
    ensures |r| == |f|
  {
    seq(|f|, i requires 0 <= i < |f| => if lo <= i < hi then 0xFF as byte else f[i])
  }

  /** Programming clears bits and never sets them. */
  function Nor(f: Bytes, addr: nat, data: Bytes): (r: Bytes)
    ensures |r| == |f|
  {
    seq(|f|, i requires 0 <= i < |f| => if addr <= i < addr + |data| then f[i] & data[i - addr] else f[i])
  }

  predicate Holds(f: Bytes, offset: nat, data: Bytes) {
    offset + |data| <= |f| && f[offset..offset + |data|] == data
  }

  lemma NorExtend(f: Bytes, addr: nat, a: Bytes, b: Bytes)
    ensures Nor(Nor(f, addr, a), addr + |a|, b) == Nor(f, addr, a + b)
  {
    var l, r := Nor(Nor(f, addr, a), addr + |a|, b), Nor(f, addr, a + b);
    forall i | 0 <= i < |f|
      ensures l[i] == r[i]
    {
    }
  }

  lemma ErasedTakes(d: byte)
    ensures 0xFF & d == d
  {
  }

  /** Blank flash takes exactly the data. */
  lemma NorOnBlank(f: Bytes, addr: nat, data: Bytes)
    requires addr + |data| <= |f| && Blank(f, addr, addr + |data|)
    ensures Holds(Nor(f, addr, data), addr, data)
  {
    var p := Nor(f, addr, data);
    forall i | 0 <= i < |data|
      ensures p[addr..addr + |data|][i] == data[i]
    {
      assert f[addr + i] == 0xFF;
      assert p[addr + i] == f[addr + i] & data[i];
      ErasedTakes(data[i]);
    }
    assert p[addr..addr + |data|] == data;
  }

  /** Erasing the range that follows a blank one makes a longer blank one. */
  lemma BlankGrows(f: Bytes, lo: nat, mid: nat, hi: nat)
    requires lo <= mid <= hi && Blank(f, lo, mid)
    ensures Blank(Erased(f, mid, hi), lo, hi)
  {
  }

  // ---- RAM ---------------------------------------------------------------

  /** Data stored from addr on, wrapping at the top of the address space. */
  function Poke(mem: Bytes, addr: int, data: Bytes): (r: Bytes)
    requires |mem| == U32
    ensures |r| == U32
  {
    seq(U32, i requires 0 <= i < U32 => if Wrap(i - addr) < |data| then data[Wrap(i - addr)] else mem[i])
  }

  lemma ReadPoke(mem: Bytes, addr: uint32, data: Bytes)
    requires |mem| == U32 && |data| <= U32
    ensures Read(Poke(mem, addr, data), addr, |data|) == data
  {
    var l := Read(Poke(mem, addr, data), addr, |data|);
    forall i | 0 <= i < |data|
      ensures l[i] == data[i]
    {
      assert Wrap(Wrap(addr + i) - addr) == i;
    }
  }

  /** A store that does not wrap touches its own range only. */
  lemma PokeInRange(mem: Bytes, addr: nat, data: Bytes, i: nat)
    requires |mem| == U32 && addr + |data| <= U32 && i < U32
    ensures Poke(mem, addr, data)[i] == if addr <= i < addr + |data| then data[i - addr] else mem[i]
  {
    assert Wrap(i - addr) == if i < addr then i - addr + U32 else i - addr;
  }

  lemma ReadAt(mem: Bytes, addr: nat, n: nat)
    requires |mem| == U32 && addr + n <= U32
    ensures Read(mem, addr, n) == mem[addr..addr + n]
  {
    var l, r := Read(mem, addr, n), mem[addr..addr + n];
    forall i | 0 <= i < n
      ensures l[i] == r[i]
    {
      assert Wrap(addr + i) == addr + i;
    }
  }

  /** Reading a range in which two memories agree. */
  lemma ReadSame(mem: Bytes, mem': Bytes, addr: nat, n: nat)
    requires |mem| == |mem'| == U32 && addr + n <= U32
    requires forall a :: addr <= a < addr + n ==> mem[a] == mem'[a]
    ensures Read(mem, addr, n) == Read(mem', addr, n)
  {
    var l, r := Read(mem, addr, n), Read(mem', addr, n);
    forall i | 0 <= i < n
      ensures l[i] == r[i]
    {
      assert l[i] == mem[Wrap(addr + i)] == mem'[Wrap(addr + i)];
    }
  }

  /** A store elsewhere leaves a range alone. */
  lemma PokeApart(mem: Bytes, addr: nat, data: Bytes, lo: nat, n: nat)
    requires |mem| == U32 && addr + |data| <= U32 && lo + n <= U32 && (lo + n <= addr || addr + |data| <= lo)
    ensures Read(Poke(mem, addr, data), lo, n) == Read(mem, lo, n)
  {
    forall a | lo <= a < lo + n
      ensures Poke(mem, addr, data)[a] == mem[a]
    {
      PokeInRange(mem, addr, data, a);
    }
    ReadSame(Poke(mem, addr, data), mem, lo, n);
  }
}
