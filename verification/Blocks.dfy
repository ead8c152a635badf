/** Files as bytes, cut into blocks that are named by their digest. */
module Blocks {
  newtype Byte = x: int | 0 <= x < 256

  type Bytes = seq<Byte>

  const BLOCK_SIZE: nat := 1024 * 1024

  predicate Hex(s: string, n: nat) {
    |s| == n && forall i :: 0 <= i < n ==> '0' <= s[i] <= '9' || 'a' <= s[i] <= 'f'
  }

  predicate IsDigest(s: string) { Hex(s, 64) }

  predicate IsSourceId(s: string) { Hex(s, 24) }

  type Digest = s: string | IsDigest(s) witness seq(64, _ => '0')

  type SourceId = s: string | IsSourceId(s) witness seq(24, _ => '0')

  type Hash = Bytes -> Digest

  /** No two different byte strings of the universe share a digest. */
  ghost predicate CollisionFree(sha: Hash, universe: iset<Bytes>) {
    forall a, b :: a in universe && b in universe && sha(a) == sha(b) ==> a == b
  }

  /** Successive reads of at most one block until the file is exhausted. */
  function Pieces(data: Bytes): (pieces: seq<Bytes>)
    decreases |data|
  {
    if data == [] then []
    else if |data| <= BLOCK_SIZE then [data]
    else [data[..BLOCK_SIZE]] + Pieces(data[BLOCK_SIZE..])
  }

  function Joined(pieces: seq<Bytes>): Bytes {
    if pieces == [] then [] else pieces[0] + Joined(pieces[1..])
  }

  function Total(pieces: seq<Bytes>): nat {
    if pieces == [] then 0 else |pieces[0]| + Total(pieces[1..])
  }

  /** Cutting loses nothing, and every piece holds between one byte and one block. */
  lemma {:induction false} PiecesJoin(data: Bytes)
    ensures Joined(Pieces(data)) == data
    ensures Total(Pieces(data)) == |data|
    ensures forall p :: p in Pieces(data) ==> 1 <= |p| <= 1048576
    ensures forall i :: 0 <= i < |Pieces(data)| - 1 ==> |Pieces(data)[i]| == 1048576
    decreases |data|
  {
    if |data| > BLOCK_SIZE {
      PiecesJoin(data[BLOCK_SIZE..]);
      assert data == data[..BLOCK_SIZE] + data[BLOCK_SIZE..];
      assert Pieces(data)[1..] == Pieces(data[BLOCK_SIZE..]);
    } else if data != [] {
      assert Joined([data]) == data + [] == data;
    }
  }

  lemma {:induction false} TotalAppend(ps: seq<Bytes>, qs: seq<Bytes>)
    ensures Total(ps + qs) == Total(ps) + Total(qs)
    decreases |ps|
  {
    if ps == [] {
      assert ps + qs == qs;
    } else {
      assert (ps + qs)[1..] == ps[1..] + qs;
      TotalAppend(ps[1..], qs);
    }
  }

  lemma OneMoreTotal(pieces: seq<Bytes>, k: nat)
    requires k < |pieces|
    ensures Total(pieces[..k + 1]) == Total(pieces[..k]) + |pieces[k]|
  {
    assert pieces[..k + 1] == pieces[..k] + [pieces[k]];
    TotalAppend(pieces[..k], [pieces[k]]);
    assert Total([pieces[k]]) == |pieces[k]|;
  }

  // --- what a manifest records about a file -------------------------------------

  datatype PieceRef = PieceRef(sha256: string, size: int)

  datatype FileEntry = FileEntry(sha256: string, size: int, blocks: seq<PieceRef>)

  function Refs(sha: Hash, pieces: seq<Bytes>): (refs: seq<PieceRef>)
    ensures |refs| == |pieces|
    ensures forall i :: 0 <= i < |pieces| ==> refs[i] == PieceRef(sha(pieces[i]), |pieces[i]|)
  {
    seq(|pieces|, i requires 0 <= i < |pieces| => PieceRef(sha(pieces[i]), |pieces[i]|))
  }

  function Entry(sha: Hash, data: Bytes): FileEntry {
    FileEntry(sha(data), |data|, Refs(sha, Pieces(data)))
  }

  function RefTotal(refs: seq<PieceRef>): int {
    if refs == [] then 0 else refs[0].size + RefTotal(refs[1..])
  }

  lemma {:induction false} RefTotalIsTotal(sha: Hash, pieces: seq<Bytes>)
    ensures RefTotal(Refs(sha, pieces)) == Total(pieces)
    decreases |pieces|
  {
    if pieces != [] {
      RefTotalIsTotal(sha, pieces[1..]);
      assert Refs(sha, pieces)[1..] == Refs(sha, pieces[1..]);
    }
  }
}
