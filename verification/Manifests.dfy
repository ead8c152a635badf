/** Incremental manifests: the JSON that is published last, and its validator. */
module Manifests {
  import opened Blocks
  import opened Json
  import opened Wrappers

  const FORMAT := "neocortex-snapshot"
  const INCREMENTAL_FORMAT_VERSION := 2
  const DATABASE := "state.db"
  const CONFIG := "config.json"

  datatype Manifest = Manifest(application: string, userVersion: int, schema: string, source: string,
                               files: map<string, FileEntry>, logical: int, added: int, reused: int)

  const ManifestKeys := {"format", "format_version", "application_version", "sqlite_user_version",
                         "schema_sha256", "source", "files", "logical_bytes", "new_bytes", "reused_bytes"}

  function SizeOf(files: map<string, FileEntry>, name: string): int {
    if name in files then files[name].size else 0
  }

  function LogicalBytes(files: map<string, FileEntry>): int {
    SizeOf(files, DATABASE) + SizeOf(files, CONFIG)
  }

  predicate WellFormedEntry(e: FileEntry) {
    && IsDigest(e.sha256) && e.size >= 0 && RefTotal(e.blocks) == e.size
    && forall p :: p in e.blocks ==> IsDigest(p.sha256) && p.size > 0
  }

  predicate WellFormed(m: Manifest) {
    && IsDigest(m.schema) && IsSourceId(m.source)
    && m.files.Keys in {{DATABASE}, {DATABASE, CONFIG}}
    && (forall n :: n in m.files ==> WellFormedEntry(m.files[n]))
    && m.logical == LogicalBytes(m.files)
    && m.added >= 0 && m.reused >= 0 && m.added + m.reused == m.logical
  }

  // --- writing ------------------------------------------------------------------

  function EncodePiece(p: PieceRef): Json {
    Obj(map["sha256" := Str(p.sha256), "size" := Int(p.size)])
  }

  function EncodeEntry(e: FileEntry): Json {
    Obj(map["sha256" := Str(e.sha256), "size" := Int(e.size),
            "blocks" := Arr(seq(|e.blocks|, i requires 0 <= i < |e.blocks| => EncodePiece(e.blocks[i])))])
  }

  function EncodeFiles(files: map<string, FileEntry>): map<string, Json> {
    map n | n in files :: EncodeEntry(files[n])
  }

  function Encode(m: Manifest): Json {
    Obj(map["format" := Str(FORMAT), "format_version" := Int(INCREMENTAL_FORMAT_VERSION),
            "application_version" := Str(m.application), "sqlite_user_version" := Int(m.userVersion),
            "schema_sha256" := Str(m.schema), "source" := Str(m.source),
            "files" := Obj(EncodeFiles(m.files)),
            "logical_bytes" := Int(m.logical), "new_bytes" := Int(m.added), "reused_bytes" := Int(m.reused)])
  }

  // --- reading ------------------------------------------------------------------

  function DecodePiece(j: Json): Option<PieceRef> {
    if && j.Obj? && j.fields.Keys == {"sha256", "size"}
       && Get(j, "sha256").Str? && IsDigest(Get(j, "sha256").s)
       && Get(j, "size").Int? && Get(j, "size").i > 0
    then Some(PieceRef(Get(j, "sha256").s, Get(j, "size").i))
    else None
  }

  function DecodePieces(items: seq<Json>): (r: Option<seq<PieceRef>>)
    ensures r.Some? ==> |r.value| == |items| && forall i :: 0 <= i < |items| ==> Some(r.value[i]) == DecodePiece(items[i])
    ensures r.None? ==> exists i :: 0 <= i < |items| && DecodePiece(items[i]).None?
  {
    if items == [] then Some([])
    else
      var first, rest := DecodePiece(items[0]), DecodePieces(items[1..]);
      if first.Some? && rest.Some? then Some([first.value] + rest.value) else None
  }

  function DecodeEntry(j: Json): Option<FileEntry> {
    if && Get(j, "sha256").Str? && IsDigest(Get(j, "sha256").s)
       && Get(j, "size").Int? && Get(j, "size").i >= 0
       && Get(j, "blocks").Arr?
    then
      var pieces := DecodePieces(Get(j, "blocks").items);
      if pieces.Some? && RefTotal(pieces.value) == Get(j, "size").i
      then Some(FileEntry(Get(j, "sha256").s, Get(j, "size").i, pieces.value))
      else None
    else None
  }

  /** Python compares the version numerically, so 2.0 passes for 2. */
  predicate IsVersionTwo(j: Json) {
    j == Int(INCREMENTAL_FORMAT_VERSION) || j == Float(2.0)
  }

  predicate HeaderOk(j: Json, source: Option<string>) {
    && j.Obj? && j.fields.Keys == ManifestKeys
    && Get(j, "format") == Str(FORMAT) && IsVersionTwo(Get(j, "format_version"))
    && Get(j, "application_version").Str? && Get(j, "sqlite_user_version").Int?
    && Get(j, "schema_sha256").Str? && IsDigest(Get(j, "schema_sha256").s)
    && Get(j, "source").Str? && IsSourceId(Get(j, "source").s)
    && (source.Some? ==> Get(j, "source").s == source.value)
    && Get(j, "files").Obj? && Get(j, "files").fields.Keys in {{DATABASE}, {DATABASE, CONFIG}}
    && Get(j, "logical_bytes").Int? && Get(j, "new_bytes").Int? && Get(j, "reused_bytes").Int?
  }

  function DecodeFiles(entries: map<string, Json>): Option<map<string, FileEntry>> {
    if forall n :: n in entries ==> DecodeEntry(entries[n]).Some?
    then Some(map n | n in entries :: DecodeEntry(entries[n]).value)
    else None
  }

  /** The manifest a published file stands for, or None when it is not recognised. */
  function Decode(j: Json, source: Option<string>): Option<Manifest> {
    if HeaderOk(j, source) then
      var files := DecodeFiles(Get(j, "files").fields);
      if files.None? then None
      else
        var m := Manifest(Get(j, "application_version").s, Get(j, "sqlite_user_version").i, Get(j, "schema_sha256").s,
                          Get(j, "source").s, files.value,
                          Get(j, "logical_bytes").i, Get(j, "new_bytes").i, Get(j, "reused_bytes").i);
        if m.logical == LogicalBytes(m.files) && m.added >= 0 && m.reused >= 0 && m.added + m.reused == m.logical
        then Some(m)
        else None
    else None
  }

  lemma DecodeEncodeEntry(e: FileEntry)
    requires WellFormedEntry(e)
    ensures DecodeEntry(EncodeEntry(e)) == Some(e)
  {
    var items := Get(EncodeEntry(e), "blocks").items;
    forall i | 0 <= i < |items| ensures DecodePiece(items[i]) == Some(e.blocks[i]) {
      assert e.blocks[i] in e.blocks;
    }
    assert DecodePieces(items).Some?;
    assert DecodePieces(items).value == e.blocks;
  }

  lemma DecodeEncodeFiles(files: map<string, FileEntry>)
    requires forall n :: n in files ==> WellFormedEntry(files[n])
    ensures DecodeFiles(EncodeFiles(files)) == Some(files)
  {
    hide EncodeEntry;
    hide DecodeEntry;
    hide WellFormedEntry;
    var entries := EncodeFiles(files);
    forall n | n in entries ensures n in files && DecodeEntry(entries[n]) == Some(files[n]) {
      DecodeEncodeEntry(files[n]);
    }
    assert entries.Keys == files.Keys;
    assert DecodeFiles(entries).Some?;
    assert DecodeFiles(entries).value == files;
  }

  lemma EncodedHeaderOk(m: Manifest, source: Option<string>)
    requires WellFormed(m) && (source.Some? ==> source.value == m.source)
    ensures HeaderOk(Encode(m), source)
  {
    hide Hex;
    hide WellFormedEntry;
    hide EncodeEntry;
    var j := Encode(m);
    assert j.fields.Keys == ManifestKeys;
    EncodedFields(m);
    assert Get(j, "files").fields.Keys == m.files.Keys;
    assert Get(j, "format") == Str(FORMAT) && Get(j, "format_version") == Int(INCREMENTAL_FORMAT_VERSION);
    hide Encode;
    hide EncodeFiles;
    hide Get;
  }

  lemma EncodedFields(m: Manifest)
    ensures var j := Encode(m);
            && Get(j, "application_version") == Str(m.application) && Get(j, "sqlite_user_version") == Int(m.userVersion)
            && Get(j, "schema_sha256") == Str(m.schema) && Get(j, "source") == Str(m.source)
            && Get(j, "files") == Obj(EncodeFiles(m.files))
            && Get(j, "logical_bytes") == Int(m.logical) && Get(j, "new_bytes") == Int(m.added)
            && Get(j, "reused_bytes") == Int(m.reused)
  {
    hide EncodeFiles;
  }

  /** Whatever the backup publishes, the validator recognises as exactly that. */
  lemma DecodeEncode(m: Manifest, source: Option<string>)
    requires WellFormed(m) && (source.Some? ==> source.value == m.source)
    ensures Decode(Encode(m), source) == Some(m)
  {
    EncodedHeaderOk(m, source);
    DecodeEncodeFiles(m.files);
    EncodedFields(m);
    hide HeaderOk;
    hide DecodeFiles;
    hide EncodeFiles;
    hide Encode;
    hide Get;
    hide WellFormedEntry;
  }

  /** Whatever the validator recognises is well formed, names the expected source,
      and differs from what a backup writes only in ways the validator ignores. */
  lemma DecodeIsWellFormed(j: Json, source: Option<string>)
    requires Decode(j, source).Some?
    ensures var m := Decode(j, source).value;
            && WellFormed(m) && (source.Some? ==> m.source == source.value)
            && Decode(Encode(m), source) == Some(m)
  {
    var m := Decode(j, source).value;
    var entries := Get(j, "files").fields;
    assert m.files.Keys == entries.Keys;
    forall n | n in m.files ensures WellFormedEntry(m.files[n]) {
      var items := Get(entries[n], "blocks").items;
      var pieces := DecodePieces(items).value;
      forall p | p in pieces ensures IsDigest(p.sha256) && p.size > 0 {
        var i :| 0 <= i < |pieces| && pieces[i] == p;
        assert Some(pieces[i]) == DecodePiece(items[i]);
      }
    }
    DecodeEncode(m, source);
  }

  // --- what the validator recognises -------------------------------------------------

  predicate PieceSays(j: Json, p: PieceRef) {
    j == Obj(map["sha256" := Str(p.sha256), "size" := Int(p.size)])
  }

  /** An entry may say more than this. */
  predicate EntrySays(j: Json, e: FileEntry) {
    && Get(j, "sha256") == Str(e.sha256) && Get(j, "size") == Int(e.size)
    && Get(j, "blocks").Arr? && |Get(j, "blocks").items| == |e.blocks|
    && forall i :: 0 <= i < |e.blocks| ==> PieceSays(Get(j, "blocks").items[i], e.blocks[i])
  }

  predicate FilesSay(j: Json, files: map<string, FileEntry>) {
    j.Obj? && j.fields.Keys == files.Keys && forall n :: n in files ==> EntrySays(Get(j, n), files[n])
  }

  /** The manifest itself may not; only its version may be written as a floating-point number. */
  predicate Says(j: Json, m: Manifest) {
    && j.Obj?
    && j.fields.Keys == {"format", "format_version", "application_version", "sqlite_user_version", "schema_sha256", "source",
                         "files", "logical_bytes", "new_bytes", "reused_bytes"}
    && Get(j, "format") == Str("neocortex-snapshot") && Get(j, "format_version") in {Int(2), Float(2.0)}
    && Get(j, "application_version") == Str(m.application) && Get(j, "sqlite_user_version") == Int(m.userVersion)
    && Get(j, "schema_sha256") == Str(m.schema) && Get(j, "source") == Str(m.source)
    && Get(j, "logical_bytes") == Int(m.logical) && Get(j, "new_bytes") == Int(m.added) && Get(j, "reused_bytes") == Int(m.reused)
    && FilesSay(Get(j, "files"), m.files)
  }

  lemma DecodedPieceSays(j: Json, p: PieceRef)
    ensures DecodePiece(j) == Some(p) <==> PieceSays(j, p) && IsDigest(p.sha256) && p.size > 0
  {
    hide Hex;
    if DecodePiece(j) == Some(p) {
      assert j.fields == map["sha256" := Str(p.sha256), "size" := Int(p.size)];
    }
  }

  lemma DecodedEntrySays(j: Json, e: FileEntry)
    ensures DecodeEntry(j) == Some(e) <==> EntrySays(j, e) && WellFormedEntry(e)
  {
    hide Hex;
    hide PieceSays;
    var items := Get(j, "blocks");
    if items.Arr? {
      forall i | 0 <= i < |items.items| && i < |e.blocks|
        ensures DecodePiece(items.items[i]) == Some(e.blocks[i])
                <==> PieceSays(items.items[i], e.blocks[i]) && IsDigest(e.blocks[i].sha256) && e.blocks[i].size > 0
      {
        DecodedPieceSays(items.items[i], e.blocks[i]);
      }
      hide DecodePiece;
      if EntrySays(j, e) && WellFormedEntry(e) {
        forall i | 0 <= i < |e.blocks| ensures DecodePiece(items.items[i]) == Some(e.blocks[i]) { assert e.blocks[i] in e.blocks; }
        assert DecodePieces(items.items).Some?;
        assert DecodePieces(items.items).value == e.blocks;
      }
      if DecodeEntry(j) == Some(e) {
        assert DecodePieces(items.items) == Some(e.blocks);
        forall p | p in e.blocks ensures IsDigest(p.sha256) && p.size > 0 {
          var i :| 0 <= i < |e.blocks| && e.blocks[i] == p;
          assert DecodePiece(items.items[i]) == Some(e.blocks[i]);
        }
      }
    }
  }

  lemma DecodedFilesSay(j: Json, files: map<string, FileEntry>)
    requires j.Obj?
    ensures DecodeFiles(j.fields) == Some(files) <==>
              FilesSay(j, files) && forall n :: n in files ==> WellFormedEntry(files[n])
  {
    hide DecodeEntry;
    hide EntrySays;
    hide WellFormedEntry;
    forall n | n in files && n in j.fields
      ensures DecodeEntry(j.fields[n]) == Some(files[n]) <==> EntrySays(Get(j, n), files[n]) && WellFormedEntry(files[n])
    {
      DecodedEntrySays(j.fields[n], files[n]);
    }
    if FilesSay(j, files) && forall n :: n in files ==> WellFormedEntry(files[n]) {
      assert DecodeFiles(j.fields).Some?;
      assert DecodeFiles(j.fields).value == files;
    }
  }

  /** Precisely which files the validator takes for which manifest. */
  lemma RecognisedIff(j: Json, source: Option<string>, m: Manifest)
    ensures Decode(j, source) == Some(m) <==> Says(j, m) && WellFormed(m) && (source.Some? ==> m.source == source.value)
  {
    hide Hex;
    hide WellFormedEntry;
    hide DecodeFiles;
    hide FilesSay;
    if Get(j, "files").Obj? { DecodedFilesSay(Get(j, "files"), m.files); }
    if FilesSay(Get(j, "files"), m.files) { SaidKeys(j, m); }
    hide Get;
  }

  lemma SaidKeys(j: Json, m: Manifest)
    requires FilesSay(Get(j, "files"), m.files)
    ensures Get(j, "files").Obj? && Get(j, "files").fields.Keys == m.files.Keys
  {
  }

  // --- the validator as the loop it is ---------------------------------------------

  lemma {:induction false} RefTotalAppend(ps: seq<PieceRef>, p: PieceRef)
    ensures RefTotal(ps + [p]) == RefTotal(ps) + p.size
    decreases |ps|
  {
    if ps == [] {
      assert ps + [p] == [p];
      assert RefTotal([p][1..]) == 0;
    } else {
      assert (ps + [p])[1..] == ps[1..] + [p];
      RefTotalAppend(ps[1..], p);
    }
  }

  method ReadEntry(j: Json) returns (e: Option<FileEntry>)
    ensures e == DecodeEntry(j)
  {
    var checksum, size, blocks := Get(j, "sha256"), Get(j, "size"), Get(j, "blocks");
    if !checksum.Str? || !IsDigest(checksum.s) || !size.Int? || size.i < 0 || !blocks.Arr? {
      return None;
    }
    var total, pieces := 0, [];
    for k := 0 to |blocks.items|
      invariant |pieces| == k && total == RefTotal(pieces)
      invariant forall i :: 0 <= i < k ==> DecodePiece(blocks.items[i]) == Some(pieces[i])
    {
      var piece := DecodePiece(blocks.items[k]);
      if piece.None? { return None; }
      RefTotalAppend(pieces, piece.value);
      total, pieces := total + piece.value.size, pieces + [piece.value];
    }
    assert DecodePieces(blocks.items).Some? && DecodePieces(blocks.items).value == pieces;
    e := if total == size.i then Some(FileEntry(checksum.s, size.i, pieces)) else None;
  }

  method IncrementalManifest(j: Json, source: Option<string>) returns (m: Option<Manifest>)
    ensures m == Decode(j, source)
  {
    hide DecodeEntry;
    hide Hex;
    if !HeaderOk(j, source) { return None; }
    var entries := Get(j, "files").fields;
    var logical := 0;
    var files: map<string, FileEntry> := map[];
    var names := if CONFIG in entries then [DATABASE, CONFIG] else [DATABASE];
    for k := 0 to |names|
      invariant files.Keys == set i | 0 <= i < k :: names[i]
      invariant forall n :: n in files ==> n in entries && DecodeEntry(entries[n]) == Some(files[n])
      invariant logical == LogicalBytes(files)
    {
      var e := ReadEntry(entries[names[k]]);
      if e.None? { return None; }
      files := files[names[k] := e.value];
      logical := logical + e.value.size;
    }
    assert names[0] == DATABASE && (|names| == 2 ==> names[1] == CONFIG);
    assert files.Keys == entries.Keys;
    assert DecodeFiles(entries).Some? && DecodeFiles(entries).value == files;
    var added, reused := Get(j, "new_bytes").i, Get(j, "reused_bytes").i;
    if Get(j, "logical_bytes").i != logical || added < 0 || reused < 0 || added + reused != logical {
      return None;
    }
    m := Some(Manifest(Get(j, "application_version").s, Get(j, "sqlite_user_version").i, Get(j, "schema_sha256").s,
                       Get(j, "source").s, files, Get(j, "logical_bytes").i, added, reused));
  }
}
