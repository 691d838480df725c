/** Vocabulary shared by every component: bytes, error codes and 32-bit arithmetic. */
module Base {
  type byte = bv8
  type Bytes = seq<byte>
  type Digest = Bytes
  type Files = map<string, Bytes>

  const U32: int := 0x1_0000_0000
  type uint32 = x: int | 0 <= x < U32

  datatype Option<+T> = None | Some(value: T)

  /** The esp_err_t values the modelled code returns. */
  datatype Err =
    | Ok | Fail | NoMem | InvalidArg | InvalidState | InvalidSize | NotFound
    | NotSupported | Timeout | InvalidCrc | NotFinished | NotAllowed

  /** uint32_t wrap-around. */
  function Wrap(x: int): uint32 { if 0 <= x < U32 then x else x % U32 }

  function Min(a: int, b: int): int { if a <= b then a else b }

  /** `x & ~(a - 1)` for a power of two a. */
  function AlignDown(x: nat, a: nat): nat
    requires a > 0
  {
    x - x % a
  }

  /** `(x + a - 1) & ~(a - 1)` for a power of two a, before any truncation. */
  function AlignUp(x: nat, a: nat): nat
    requires a > 0
  {
    AlignDown(x + a - 1, a)
  }

  function Fill(n: nat): (r: Bytes)
    ensures |r| == n && forall i :: 0 <= i < n ==> r[i] == 0xFF
  {
    seq(n, _ => 0xFF as byte)
  }

  function PaddedLen(n: nat): nat { AlignUp(n, 4) }

  /** A file followed by its 0xFF tail up to a multiple of four bytes. */
  function Padded(data: Bytes): (r: Bytes)
    ensures |r| == PaddedLen(|data|) && |r| % 4 == 0 && |data| <= |r| <= |data| + 3
    ensures r[..|data|] == data && forall i :: |data| <= i < |r| ==> r[i] == 0xFF
  {
    data + Fill(PaddedLen(|data|) - |data|)
  }

  /** The transfer block at cursor of a file's first total bytes, with the 0xFF tail behind the last one if wanted. */
  function FileBlock(data: Bytes, cursor: nat, total: nat, size: nat, tail: bool): Bytes
    requires cursor <= total <= |data|
  {
    var want := Min(total - cursor, size);
    data[cursor..cursor + want] + (if tail && cursor + want == total then Fill(PaddedLen(total) - total) else [])
  }

  /** n bytes of a 32-bit address space, starting at addr and wrapping at the top. */
  function Read(mem: Bytes, addr: int, n: nat): (r: Bytes)
    requires |mem| == U32
    ensures |r| == n
  {
    seq(n, i => mem[Wrap(addr + i)])
  }

  lemma ReadSplit(mem: Bytes, addr: int, n: nat, m: nat)
    requires |mem| == U32
    ensures Read(mem, addr, n + m) == Read(mem, addr, n) + Read(mem, Wrap(addr + n), m)
  {
    var whole, tail := Read(mem, addr, n + m), Read(mem, Wrap(addr + n), m);
    forall i | 0 <= i < m
      ensures whole[n..][i] == tail[i]
    {
      WrapAdd(addr + n, i);
      assert whole[n + i] == mem[Wrap(addr + n + i)];
    }
    assert whole == whole[..n] + whole[n..];
    assert whole[..n] == Read(mem, addr, n);
  }

  lemma WrapAdd(x: int, y: int)
    ensures Wrap(Wrap(x) + y) == Wrap(x + y)
  {
    assert x == U32 * (x / U32) + Wrap(x);
    assert x + y == U32 * (x / U32) + (Wrap(x) + y);
    ModShift(Wrap(x) + y, x / U32);
  }

  lemma {:induction false} ModShift(x: int, k: int)
    ensures (U32 * k + x) % U32 == x % U32
  {
    var q, q' := x / U32, (U32 * k + x) / U32;
    var r, r' := x % U32, (U32 * k + x) % U32;
    assert U32 * (k + q - q') == r' - r;
    assert -U32 < r' - r < U32;
    assert k + q - q' == 0;
  }

  lemma SubSlice<T>(s: seq<T>, a: nat, b: nat, c: nat, d: nat)
    requires a <= b <= |s| && c <= d <= b - a
    ensures s[a..b][c..d] == s[a + c..a + d]
  {
    var l, r := s[a..b][c..d], s[a + c..a + d];
    assert forall i :: 0 <= i < d - c ==> l[i] == s[a..b][c + i] == s[a + c + i] == r[i];
    assert l == r;
  }
}
