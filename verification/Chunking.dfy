/** Cutting a sequence into consecutive chunks of a fixed length, the last one possibly shorter. */
module Chunking {
  import opened Basics

  /** Where chunk i of a sequence of length n starts: min(i * len, n), see `CutIsProduct`. */
  function Cut(n: nat, len: nat, i: nat): (c: nat)
    ensures c <= n
  {
    if i == 0 then 0 else Min(Cut(n, len, i - 1) + len, n)
  }

  function Chunk<T>(s: seq<T>, len: nat, i: nat): (c: seq<T>)
    ensures |c| <= len && |c| <= |s|
  {
    s[Cut(|s|, len, i)..Cut(|s|, len, i + 1)]
  }

  function Chunks(n: nat, len: nat): nat
    requires len > 0
  {
    (n + len - 1) / len
  }

  function Pieces<T>(s: seq<T>, len: nat, k: nat): seq<seq<T>> {
    seq(k, i requires 0 <= i => Chunk(s, len, i))
  }

  /** The first k chunks, each replaced by its reduction. */
  function ChunkMap<T, R>(red: seq<T> -> R, s: seq<T>, len: nat, k: nat): seq<R> {
    seq(k, i requires 0 <= i => red(Chunk(s, len, i)))
  }

  function Concat<T>(parts: seq<seq<T>>): seq<T> {
    if parts == [] then [] else Concat(parts[..|parts| - 1]) + parts[|parts| - 1]
  }

  lemma {:induction false} CutIsProduct(n: nat, len: nat, i: nat)
    ensures Cut(n, len, i) == Min(i * len, n)
  {
    if i > 0 {
      CutIsProduct(n, len, i - 1);
      assert i * len == (i - 1) * len + len;
    }
  }

  /** The last chunk ends at n and no chunk is empty. */
  lemma LastCut(n: nat, len: nat)
    requires len > 0
    ensures Cut(n, len, Chunks(n, len)) == n
    ensures n > 0 ==> Chunks(n, len) > 0 && Cut(n, len, Chunks(n, len) - 1) < n
  {
    var k := Chunks(n, len);
    DivisionBounds(n + len - 1, len);
    CutIsProduct(n, len, k);
    if n > 0 { CutIsProduct(n, len, k - 1); }
  }

  lemma DivisionBounds(a: nat, len: nat)
    requires len > 0
    ensures (a / len) * len <= a < (a / len) * len + len
    ensures a >= len ==> a / len > 0 && (a / len - 1) * len == (a / len) * len - len
  {
  }

  lemma {:induction false} ChunksPrefix<T>(s: seq<T>, len: nat, k: nat)
    ensures Concat(Pieces(s, len, k)) == s[..Cut(|s|, len, k)]
  {
    if k > 0 {
      ChunksPrefix(s, len, k - 1);
      assert Pieces(s, len, k)[..k - 1] == Pieces(s, len, k - 1);
    }
  }

  /** Laid end to end, the chunks are the sequence: nothing is skipped or read twice. */
  lemma ChunksCover<T>(s: seq<T>, len: nat)
    requires len > 0
    ensures Concat(Pieces(s, len, Chunks(|s|, len))) == s
  {
    LastCut(|s|, len);
    ChunksPrefix(s, len, Chunks(|s|, len));
  }
}
