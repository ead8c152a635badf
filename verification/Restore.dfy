/** Materialising a snapshot from its manifest and the shared blocks. */
module Restore {
  import opened Blocks
  import opened Json
  import opened Manifests
  import opened StoreMachine
  import opened StoreSafety
  import opened Wrappers

  predicate BlockMatches(sha: Hash, blocks: map<string, Bytes>, ref: PieceRef) {
    ref.sha256 in blocks && sha(blocks[ref.sha256]) == ref.sha256 && |blocks[ref.sha256]| == ref.size
  }

  function ReadPieces(sha: Hash, blocks: map<string, Bytes>, refs: seq<PieceRef>): Option<Bytes> {
    if refs == [] then Some([])
    else if !BlockMatches(sha, blocks, refs[0]) then None
    else
      var rest := ReadPieces(sha, blocks, refs[1..]);
      if rest.None? then None else Some(blocks[refs[0].sha256] + rest.value)
  }

  function ReadFile(sha: Hash, blocks: map<string, Bytes>, e: FileEntry): Option<Bytes> {
    var data := ReadPieces(sha, blocks, e.blocks);
    if data.Some? && RefTotal(e.blocks) == e.size && sha(data.value) == e.sha256 then data else None
  }

  /** The files of a snapshot, or None when its manifest or any of its blocks is not acceptable. */
  function Materialize(sha: Hash, blocks: map<string, Bytes>, j: Json): Option<map<string, Bytes>> {
    var m := Decode(j, None);
    if m.None? then None
    else
      var files := m.value.files;
      if forall n :: n in files ==> ReadFile(sha, blocks, files[n]).Some?
      then Some(map n | n in files :: ReadFile(sha, blocks, files[n]).value)
      else None
  }

  /** The block of each reference is there, is named by its digest and has the recorded size. */
  predicate Found(sha: Hash, blocks: map<string, Bytes>, refs: seq<PieceRef>, pieces: seq<Bytes>) {
    && |pieces| == |refs|
    && forall i :: 0 <= i < |refs| ==>
         && refs[i].sha256 in blocks && blocks[refs[i].sha256] == pieces[i]
         && sha(pieces[i]) == refs[i].sha256 && |pieces[i]| == refs[i].size
  }

  lemma {:induction false} ReadPiecesFinds(sha: Hash, blocks: map<string, Bytes>, refs: seq<PieceRef>) returns (pieces: seq<Bytes>)
    ensures ReadPieces(sha, blocks, refs).Some? ==>
              Found(sha, blocks, refs, pieces) && ReadPieces(sha, blocks, refs) == Some(Joined(pieces))
    decreases |refs|
  {
    pieces := [];
    if refs != [] {
      var rest := ReadPiecesFinds(sha, blocks, refs[1..]);
      if ReadPieces(sha, blocks, refs).Some? { pieces := [blocks[refs[0].sha256]] + rest; }
    }
  }

  lemma {:induction false} FoundIsRead(sha: Hash, blocks: map<string, Bytes>, refs: seq<PieceRef>, pieces: seq<Bytes>)
    requires Found(sha, blocks, refs, pieces)
    ensures ReadPieces(sha, blocks, refs) == Some(Joined(pieces))
    decreases |refs|
  {
    if refs != [] { FoundIsRead(sha, blocks, refs[1..], pieces[1..]); }
  }

  /** A file is read back precisely as its blocks joined, when every block is found and the whole has the
      recorded size and checksum. */
  lemma ReadFileIff(sha: Hash, blocks: map<string, Bytes>, e: FileEntry, data: Bytes)
    ensures ReadFile(sha, blocks, e) == Some(data) <==>
              && (exists pieces :: Found(sha, blocks, e.blocks, pieces) && Joined(pieces) == data)
              && |data| == e.size && sha(data) == e.sha256
  {
    hide Found;
    hide Joined;
    if ReadFile(sha, blocks, e) == Some(data) {
      var pieces := ReadPiecesFinds(sha, blocks, e.blocks);
      ReadSize(sha, blocks, e.blocks);
    }
    if pieces :| Found(sha, blocks, e.blocks, pieces) && Joined(pieces) == data {
      FoundIsRead(sha, blocks, e.blocks, pieces);
      ReadSize(sha, blocks, e.blocks);
    }
  }

  lemma {:induction false} ReadSize(sha: Hash, blocks: map<string, Bytes>, refs: seq<PieceRef>)
    requires ReadPieces(sha, blocks, refs).Some?
    ensures |ReadPieces(sha, blocks, refs).value| == RefTotal(refs)
    decreases |refs|
  {
    if refs != [] { ReadSize(sha, blocks, refs[1..]); }
  }

  /** Whatever the block directory holds, materialising fails or yields bytes that match
      the recorded checksum and size of every file of the manifest. */
  lemma MaterializedBytesMatch(sha: Hash, blocks: map<string, Bytes>, j: Json)
    requires Materialize(sha, blocks, j).Some?
    ensures Decode(j, None).Some?
    ensures var files := Decode(j, None).value.files;
            var out := Materialize(sha, blocks, j).value;
            && out.Keys == files.Keys
            && forall n :: n in files ==> sha(out[n]) == files[n].sha256 && |out[n]| == files[n].size
  {
    hide Decode;
    hide ReadPieces;
    var files := Decode(j, None).value.files;
    forall n | n in files ensures |ReadFile(sha, blocks, files[n]).value| == files[n].size {
      ReadSize(sha, blocks, files[n].blocks);
    }
  }

  lemma {:induction false} ReadPresent(sha: Hash, blocks: map<string, Bytes>, pieces: seq<Bytes>)
    requires forall p :: p in pieces ==> Present(sha, blocks, p)
    ensures ReadPieces(sha, blocks, Refs(sha, pieces)) == Some(Joined(pieces))
    decreases |pieces|
  {
    if pieces != [] {
      assert Present(sha, blocks, pieces[0]);
      ReadPresent(sha, blocks, pieces[1..]);
      assert Refs(sha, pieces)[1..] == Refs(sha, pieces[1..]);
    }
  }

  lemma DecodeAnySource(j: Json, source: string)
    requires Decode(j, Some(source)).Some?
    ensures Decode(j, None) == Decode(j, Some(source))
  {
    hide DecodeFiles;
    hide LogicalBytes;
    hide Hex;
    hide Get;
  }

  lemma ReadIntact(sha: Hash, blocks: map<string, Bytes>, stage: Stage, n: string)
    requires Intact(sha, blocks, stage) && n in Files(stage)
    ensures ReadFile(sha, blocks, Entry(sha, Files(stage)[n])) == Some(Files(stage)[n])
  {
    var data := Files(stage)[n];
    forall p | p in Pieces(data) ensures Present(sha, blocks, p) {
      assert p in Plan(stage);
    }
    ReadPresent(sha, blocks, Pieces(data));
    PiecesJoin(data);
    RefTotalIsTotal(sha, Pieces(data));
  }

  /** A recognised leaf of a safe store materialises to exactly the bytes that were staged for it. */
  lemma RecognisedLeafRestores(sha: Hash, universe: iset<Bytes>, s: Store, l: Leaf)
    requires Inv(sha, universe, s) && l in s.leaves && At(s.leaves, l).Some?
    ensures l in s.saved && Materialize(sha, s.blocks, s.leaves[l].value) == Some(Files(s.saved[l]))
  {
    hide Decode;
    hide Files;
    hide ReadFile;
    hide Entry;
    hide Plan;
    assert LeafOk(sha, s, l);
    DecodeAnySource(s.leaves[l].value, l.source);
    var stage := s.saved[l];
    var files := At(s.leaves, l).value.files;
    assert files.Keys == Files(stage).Keys;
    forall n | n in files ensures ReadFile(sha, s.blocks, files[n]) == Some(Files(stage)[n]) {
      ReadIntact(sha, s.blocks, stage, n);
    }
    var out := Materialize(sha, s.blocks, s.leaves[l].value);
    assert out.Some?;
    assert out.value == Files(stage);
  }

  /** In every state any run reaches from the empty store, whoever backed up and wherever
      each backup was cut off, every recognised snapshot restores the staged bytes. */
  lemma EveryRunRestores(sha: Hash, universe: iset<Bytes>, run: seq<Action>, l: Leaf)
    requires CollisionFree(sha, universe) && EnabledRun(sha, universe, EmptyStore, run)
    requires var s := DoAll(sha, universe, EmptyStore, run);
             l in s.leaves && At(s.leaves, l).Some?
    ensures var s := DoAll(sha, universe, EmptyStore, run);
            l in s.saved && Materialize(sha, s.blocks, s.leaves[l].value) == Some(Files(s.saved[l]))
  {
    RunKeepsInv(sha, universe, EmptyStore, run);
    RecognisedLeafRestores(sha, universe, DoAll(sha, universe, EmptyStore, run), l);
  }

  /** The newest recognised snapshot of a source outlives every step. */
  ghost predicate NewestRecognised(leaves: map<Leaf, Option<Json>>, l: Leaf) {
    At(leaves, l).Some? && forall k: Leaf :: k.source == l.source && At(leaves, k).Some? ==> k.stamp <= l.stamp
  }

  lemma NewestSurvives(sha: Hash, universe: iset<Bytes>, s: Store, a: Action, l: Leaf)
    requires Inv(sha, universe, s) && Enabled(sha, s, a) && NewestRecognised(s.leaves, l)
    ensures var s' := Do(sha, s, a);
            && At(s'.leaves, l) == At(s.leaves, l)
            && (forall k: Leaf :: k != l && k.source == l.source && At(s'.leaves, k).Some? ==>
                  At(s.leaves, k).Some? || (a.PutManifest? && k == s.phase.leaf && k.stamp > l.stamp))
            && (l in s.saved ==> l in s'.saved && s'.saved[l] == s.saved[l])
  {
    hide Decode;
    hide Encode;
    hide LeafOk;
    hide Referenced;
    hide Plan;
    hide ManifestOf;
    if a.DropManifest? {
      assert s.phase.doomed[0] in s.phase.doomed;
    }
  }
}
