/** The helpers of `matvirdkit/model/utils.py` the ingestion relies on: the
    `tag.json` marker, the SHA-1 naming of records and files, the
    content-addressed copy of raw files, and directory creation with
    numbered backups. SHA-1 is an uninterpreted function from text to a
    40-digit lower-case hexadecimal digest; `dumpfn` serialisation and gzip
    compression are uninterpreted functions to bytes. */
module ModelUtils {
  import opened Results
  import opened Strings
  import opened PyValues
  import opened FileSystem

  predicate IsHexDigit(c: char) {
    ('0' <= c <= '9') || ('a' <= c <= 'f')
  }

  /** What `hexdigest()` of a SHA-1 returns. */
  type Digest = s: string | |s| == 40 && forall i :: 0 <= i < |s| ==> IsHexDigit(s[i])
    witness "0000000000000000000000000000000000000000"

  /** `sha1(text.encode('utf-8')).hexdigest()`, left uninterpreted. */
  type Hasher = string -> Digest

  /** `dumpfn(value, path)` writes these bytes, left uninterpreted. */
  type Dumper = PyVal -> Bytes

  // ------------------------------------------------------------- sha1encode

  /** `sha1encode(data)`: the digest of `str(data)`. */
  function Sha1Encode(hash: Hasher, data: PyVal): (r: Digest)
  {
    hash(Str(data))
  }

  /** The digest depends on `data` only through its rendering. */
  lemma Sha1EncodeRendering(hash: Hasher, a: PyVal, b: PyVal)
    requires Str(a) == Str(b)
    ensures Sha1Encode(hash, a) == Sha1Encode(hash, b)
  {
  }

  /** Two dicts that Python considers equal, holding the same pairs in a
      different insertion order, are hashed from different texts, so with
      a collision-free hash they get different digests. */
  lemma Sha1EncodeOrderSensitive(hash: Hasher)
    ensures var d1 := PDict([(PStr("a"), PInt(1)), (PStr("b"), PInt(2))]);
            var d2 := PDict([(PStr("b"), PInt(2)), (PStr("a"), PInt(1))]);
            Str(d1) != Str(d2) &&
            ((forall s, t :: hash(s) == hash(t) ==> s == t) ==> Sha1Encode(hash, d1) != Sha1Encode(hash, d2))
  {
    InsertionOrderMatters();
  }

  /** The escape `repr` of a `bytes` object writes for one byte. */
  function ByteEscape(b: byte, q: char): string {
    var c := b as int;
    if c == '\\' as int then "\\\\"
    else if c == q as int then ['\\', q]
    else if c == 9 then "\\t"
    else if c == 10 then "\\n"
    else if c == 13 then "\\r"
    else if c < 32 || c >= 127 then HexEscape(c)
    else [c as char]
  }

  function ByteEscapes(bs: Bytes, q: char): string
    decreases |bs|
  {
    if |bs| == 0 then "" else ByteEscape(bs[0], q) + ByteEscapes(bs[1..], q)
  }

  /** `str(data)` for a `bytes` object: `b'...'`, double-quoted only when the
      data holds a single quote and no double quote. */
  function BytesRepr(bs: Bytes): string {
    var q := if (39 as byte) in bs && (34 as byte) !in bs then '"' else '\'';
    "b" + [q] + ByteEscapes(bs, q) + [q]
  }

  // --------------------------------------------------------------- task_tag

  /** The marker file of a task directory. */
  function TagPath(fs: FS, taskDir: string): Path {
    Resolve(fs.cwd, Join(taskDir, "tag.json"))
  }

  /** `task_tag(task_dir, status, info)`: the filesystem after the call and
      the value returned. `write` dumps `info` to `tag.json` and returns
      None, `check` tells whether `tag.json` is a file, `remove` deletes it
      when it is one; any other status does nothing. */
  function TaskTag(fs: FS, dump: Dumper, taskDir: string, status: string, info: PyVal): (r: Result<(FS, PyVal)>)
    ensures status == "write" ==>
      var tag := TagPath(fs, taskDir);
      (r.Ok? <==> |tag| > 0 && IsDir(fs, Parent(tag)) && !IsDir(fs, tag)) &&
      (r.Ok? ==> r.value.1 == PNone && tag in r.value.0.nodes && r.value.0.nodes[tag] == File(dump(info)) &&
                 r.value.0.cwd == fs.cwd && forall q :: q != tag ==> Agree(fs, r.value.0, q))
    ensures status == "check" ==> r.Ok? && r.value.0 == fs && r.value.1 == PBool(IsFile(fs, TagPath(fs, taskDir)))
    ensures status == "remove" ==>
      var tag := TagPath(fs, taskDir);
      r.Ok? && r.value.1 == PNone && !IsFile(r.value.0, tag) &&
      r.value.0.cwd == fs.cwd && (forall q :: q != tag ==> Agree(fs, r.value.0, q)) &&
      (!IsFile(fs, tag) ==> r.value.0 == fs)
    ensures status != "write" && status != "check" && status != "remove" ==> r == Ok((fs, PNone))
    ensures r.Ok? && Valid(fs) ==> Valid(r.value.0)
  {
    var tag := TagPath(fs, taskDir);
    if status == "write" then
      var fs' :- WriteFile(fs, tag, dump(info));
      Ok((fs', PNone))
    else if status == "check" then
      Ok((fs, PBool(IsFile(fs, tag))))
    else if status == "remove" then
      if IsFile(fs, tag) then
        Ok((RemoveFile(fs, tag).value, PNone))
      else
        Ok((fs, PNone))
    else
      Ok((fs, PNone))
  }

  /** After a successful `write`, `check` answers True. */
  lemma TagWriteThenCheck(fs: FS, dump: Dumper, taskDir: string, info: PyVal)
    requires TaskTag(fs, dump, taskDir, "write", info).Ok?
    ensures var fs' := TaskTag(fs, dump, taskDir, "write", info).value.0;
            TaskTag(fs', dump, taskDir, "check", PNone) == Ok((fs', PBool(true)))
  {
    var fs' := TaskTag(fs, dump, taskDir, "write", info).value.0;
    assert TagPath(fs', taskDir) == TagPath(fs, taskDir);
  }

  /** After `remove`, `check` answers False. */
  lemma TagRemoveThenCheck(fs: FS, dump: Dumper, taskDir: string)
    ensures var fs' := TaskTag(fs, dump, taskDir, "remove", PNone).value.0;
            TaskTag(fs', dump, taskDir, "check", PNone) == Ok((fs', PBool(false)))
  {
    var fs' := TaskTag(fs, dump, taskDir, "remove", PNone).value.0;
    assert TagPath(fs', taskDir) == TagPath(fs, taskDir);
  }

  /** Removing twice is removing once. */
  lemma TagRemoveIdempotent(fs: FS, dump: Dumper, taskDir: string)
    ensures var fs' := TaskTag(fs, dump, taskDir, "remove", PNone).value.0;
            TaskTag(fs', dump, taskDir, "remove", PNone) == Ok((fs', PNone))
  {
    var fs' := TaskTag(fs, dump, taskDir, "remove", PNone).value.0;
    assert TagPath(fs', taskDir) == TagPath(fs, taskDir);
  }

  // ---------------------------------------------------------- transfer_file

  /** gzip (or another codec) applied to a file's bytes, left uninterpreted. */
  type Packer = Bytes -> Bytes

  /** `compress_file(name, compression)`: the file is replaced by
      `<name>.<compression>` holding its packed bytes. */
  function CompressFile(fs: FS, pack: Packer, name: string, compression: string): (r: Result<FS>)
    ensures r.Ok? ==> IsFile(fs, Resolve(fs.cwd, name))
    ensures r.Ok? ==> r.value.cwd == fs.cwd && Resolve(fs.cwd, name) !in r.value.nodes
    ensures r.Ok? && Resolve(fs.cwd, name + "." + compression) != Resolve(fs.cwd, name) ==>
      var g := Resolve(fs.cwd, name + "." + compression);
      g in r.value.nodes && r.value.nodes[g] == File(pack(fs.nodes[Resolve(fs.cwd, name)].data))
    ensures r.Ok? ==> forall q :: q != Resolve(fs.cwd, name) && q != Resolve(fs.cwd, name + "." + compression) ==>
      Agree(fs, r.value, q)
    ensures r.Ok? && Valid(fs) ==> Valid(r.value)
  {
    var p := Resolve(fs.cwd, name);
    if !IsFile(fs, p) then Err(OSError("No such file or directory"))
    else
      var fs1 :- WriteFile(fs, Resolve(fs.cwd, name + "." + compression), pack(fs.nodes[p].data));
      RemoveFile(fs1, p)
  }

  /** `shutil.copyfile` with `SameFileError` caught and ignored. */
  function CopyIgnoringSame(fs: FS, src: Path, dst: Path): (r: Result<FS>)
    ensures r.Ok? && src == dst ==> r.value == fs
    ensures r.Ok? && src != dst ==> r == CopyFile(fs, src, dst)
    ensures r.Err? ==> r == CopyFile(fs, src, dst)
  {
    var c := CopyFile(fs, src, dst);
    if c == Err(SameFileError) then Ok(fs) else c
  }

  /** The name a renamed copy is stored under: the digest of the bytes' text,
      a dash, and the source's base name. */
  function StoredName(hash: Hasher, data: Bytes, src: string): (n: string)
    ensures PlainName(n)
  {
    var d := hash(BytesRepr(data));
    assert '/' !in d by {
      forall i | 0 <= i < |d| ensures d[i] != '/' { assert IsHexDigit(d[i]); }
    }
    d + "-" + Basename(src)
  }

  /** The name `transfer_file` reports, given the `path_type`. */
  function Reported(fs: FS, dstPath: string, name: string, pathType: string): string {
    if pathType == "base" then name
    else if pathType == "relative" then Join(dstPath, name)
    else PathText(Resolve(fs.cwd, Join(dstPath, name)))
  }

  /** The compressed copy's reported name as the source computes it:
      `dst_fname.replace(dst_path, '')[1:]`. */
  function CompressedBaseAsWritten(stored: string, dstPath: string): string {
    Drop(Replace(stored, dstPath, ""), 1)
  }

  /** `transfer_file(fname, src_path, dst_path, rename, path_type, compress,
      compression)`: the filesystem after the call and the value returned.
      `asWritten` chooses how the name of a compressed copy is reported:
      as the source computes it, or as the base name of the stored file. */
  function Transfer(fs: FS, hash: Hasher, pack: Packer, fname: string, srcPath: string, dstPath: string,
                    rename: bool, pathType: string, compress: bool, compression: string,
                    asWritten: bool): (r: Result<(FS, Option<string>)>)
    ensures pathType !in ["relative", "base", "abs"] ==> r == Err(AssertionError)
    ensures pathType in ["relative", "base", "abs"] && rename && !IsFile(fs, Resolve(fs.cwd, Join(srcPath, fname))) ==>
      r.Err? && r.error.RuntimeError?
    ensures r.Ok? ==> (r.value.1.Some? <==> rename)
  {
    if pathType !in ["relative", "base", "abs"] then Err(AssertionError)
    else
      var src := Join(srcPath, fname);
      var sp := Resolve(fs.cwd, src);
      if rename then
        if !IsFile(fs, sp) then Err(RuntimeError(src + " is not a file"))
        else
          var stored := Join(dstPath, StoredName(hash, fs.nodes[sp].data, src));
          var fs1 :- CopyIgnoringSame(fs, sp, Resolve(fs.cwd, stored));
          if compress then
            var fs2 :- CompressFile(fs1, pack, stored, compression);
            var base := if asWritten then CompressedBaseAsWritten(stored, dstPath) else Basename(stored);
            Ok((fs2, Some(Reported(fs, dstPath, base + "." + compression, pathType))))
          else
            Ok((fs1, Some(Reported(fs, dstPath, Drop(stored, 1), pathType))))
      else
        var fs1 :- CopyIgnoringSame(fs, sp, Resolve(fs.cwd, Join(dstPath, fname)));
        Ok((fs1, None))
  }

  /** `transfer_file` with the compressed copy reported by the base name of
      the file it stored. */
  function TransferFile(fs: FS, hash: Hasher, pack: Packer, fname: string, srcPath: string, dstPath: string,
                        rename: bool, pathType: string, compress: bool, compression: string): (r: Result<(FS, Option<string>)>)
    ensures pathType !in ["relative", "base", "abs"] ==> r == Err(AssertionError)
    ensures pathType in ["relative", "base", "abs"] && rename && !IsFile(fs, Resolve(fs.cwd, Join(srcPath, fname))) ==>
      r.Err? && r.error.RuntimeError?
    ensures r.Ok? && !rename ==> r.value.1.None?
    ensures r.Ok? && rename ==> r.value.1.Some?
    ensures r.Ok? && rename && compress && pathType == "base" ==>
      var src := Join(srcPath, fname);
      IsFile(fs, Resolve(fs.cwd, src)) &&
      r.value.1 == Some(StoredName(hash, fs.nodes[Resolve(fs.cwd, src)].data, src) + "." + compression)
  {
    var r := Transfer(fs, hash, pack, fname, srcPath, dstPath, rename, pathType, compress, compression, false);
    if r.Ok? && rename && compress then
      var src := Join(srcPath, fname);
      var n := StoredName(hash, fs.nodes[Resolve(fs.cwd, src)].data, src);
      JoinBasename(dstPath, n);
      r
    else r
  }

  /** The base name of a name joined to a directory is the name. */
  lemma JoinBasename(dir: string, n: string)
    requires PlainName(n)
    ensures Basename(Join(dir, n)) == n
  {
    assert n[0] != '/' by { assert n[0] in n; }
    if |dir| == 0 || dir[|dir| - 1] == '/' {
      BasenameAppend(dir, n);
    } else {
      assert Join(dir, n) == (dir + "/") + n;
      BasenameAppend(dir + "/", n);
    }
  }

  /** Extending a relative name extends the joined path. */
  lemma JoinExtend(dir: string, n: string, t: string)
    requires |n| > 0 && n[0] != '/'
    ensures Join(dir, n) + t == Join(dir, n + t)
  {
    assert (n + t)[0] == n[0];
    if |dir| == 0 || dir[|dir| - 1] == '/' {
      assert (dir + n) + t == dir + (n + t);
    } else {
      assert (dir + "/" + n) + t == dir + "/" + (n + t);
    }
  }

  /** `transfer_file` exactly as the source reports a compressed copy. */
  function TransferFileAsWritten(fs: FS, hash: Hasher, pack: Packer, fname: string, srcPath: string, dstPath: string,
                                 rename: bool, pathType: string, compress: bool, compression: string): (r: Result<(FS, Option<string>)>)
    ensures r.Ok? <==> TransferFile(fs, hash, pack, fname, srcPath, dstPath, rename, pathType, compress, compression).Ok?
    ensures r.Ok? ==> r.value.0 == TransferFile(fs, hash, pack, fname, srcPath, dstPath, rename, pathType, compress, compression).value.0
  {
    Transfer(fs, hash, pack, fname, srcPath, dstPath, rename, pathType, compress, compression, true)
  }

  /** A renamed, uncompressed copy lands in the destination directory under
      its stored name and holds the source's bytes. */
  lemma TransferStoresCopy(fs: FS, hash: Hasher, pack: Packer, fname: string, srcPath: string, dstPath: string,
                           pathType: string, compression: string)
    requires TransferFile(fs, hash, pack, fname, srcPath, dstPath, true, pathType, false, compression).Ok?
    ensures var src := Resolve(fs.cwd, Join(srcPath, fname));
      var r := TransferFile(fs, hash, pack, fname, srcPath, dstPath, true, pathType, false, compression).value.0;
      var at := Resolve(fs.cwd, dstPath) + [StoredName(hash, fs.nodes[src].data, Join(srcPath, fname))];
      IsFile(fs, src) && IsFile(r, at) && r.nodes[at] == fs.nodes[src]
  {
    var src := Join(srcPath, fname);
    var sp := Resolve(fs.cwd, src);
    var n := StoredName(hash, fs.nodes[sp].data, src);
    JoinResolve(fs.cwd, dstPath, n);
  }

  /** A renamed, compressed copy lands in the destination directory as
      `<stored name>.<compression>` holding the packed bytes, and the
      uncompressed copy is gone. */
  lemma TransferStoresPacked(fs: FS, hash: Hasher, pack: Packer, fname: string, srcPath: string, dstPath: string,
                             pathType: string, compression: string)
    requires '/' !in compression
    requires TransferFile(fs, hash, pack, fname, srcPath, dstPath, true, pathType, true, compression).Ok?
    ensures var src := Resolve(fs.cwd, Join(srcPath, fname));
      var r := TransferFile(fs, hash, pack, fname, srcPath, dstPath, true, pathType, true, compression).value.0;
      var n := StoredName(hash, fs.nodes[src].data, Join(srcPath, fname));
      var dir := Resolve(fs.cwd, dstPath);
      IsFile(fs, src) &&
      dir + [n + "." + compression] in r.nodes && r.nodes[dir + [n + "." + compression]] == File(pack(fs.nodes[src].data)) &&
      dir + [n] !in r.nodes
  {
    var src := Join(srcPath, fname);
    var sp := Resolve(fs.cwd, src);
    var n := StoredName(hash, fs.nodes[sp].data, src);
    var stored := Join(dstPath, n);
    var dir := Resolve(fs.cwd, dstPath);
    var g := n + "." + compression;
    PackedPaths(fs.cwd, dstPath, n, compression);
    TransferPackedSteps(fs, hash, pack, fname, srcPath, dstPath, pathType, compression);
    var fs1 := CopyIgnoringSame(fs, sp, dir + [n]).value;
    assert fs1.cwd == fs.cwd;
    assert IsFile(fs1, dir + [n]) && fs1.nodes[dir + [n]] == fs.nodes[sp];
    var fs2 := CompressFile(fs1, pack, stored, compression).value;
    assert Resolve(fs1.cwd, stored) == dir + [n];
    assert Resolve(fs1.cwd, stored + "." + compression) == dir + [g];
    assert dir + [g] in fs2.nodes && fs2.nodes[dir + [g]] == File(pack(fs.nodes[sp].data));
    assert dir + [n] !in fs2.nodes;
  }

  /** Where the stored copy and its compressed form resolve to. */
  lemma PackedPaths(cwd: Path, dstPath: string, n: string, compression: string)
    requires PlainName(n) && '/' !in compression
    ensures var dir := Resolve(cwd, dstPath);
      var g := n + "." + compression;
      Resolve(cwd, Join(dstPath, n)) == dir + [n] &&
      Resolve(cwd, Join(dstPath, n) + "." + compression) == dir + [g] &&
      dir + [g] != dir + [n]
  {
    var stored := Join(dstPath, n);
    var dir := Resolve(cwd, dstPath);
    JoinResolve(cwd, dstPath, n);
    assert n[0] != '/' by { assert n[0] in n; }
    var g := n + "." + compression;
    assert PlainName(g) by {
      assert '/' !in n;
      assert g == n + ("." + compression);
      assert g[..|n|] == n;
    }
    JoinExtend(dstPath, n, "." + compression);
    assert stored + "." + compression == stored + ("." + compression);
    assert g == n + ("." + compression);
    assert stored + "." + compression == Join(dstPath, g);
    JoinResolve(cwd, dstPath, g);
    assert |g| != |n|;
    assert (dir + [g])[|dir|] == g;
  }

  /** The one step a renamed, uncompressed transfer takes. */
  lemma TransferCopySteps(fs: FS, hash: Hasher, pack: Packer, fname: string, srcPath: string, dstPath: string,
                          pathType: string, compression: string)
    requires TransferFile(fs, hash, pack, fname, srcPath, dstPath, true, pathType, false, compression).Ok?
    ensures var src := Join(srcPath, fname);
      var sp := Resolve(fs.cwd, src);
      var stored := Join(dstPath, StoredName(hash, fs.nodes[sp].data, src));
      IsFile(fs, sp) &&
      CopyIgnoringSame(fs, sp, Resolve(fs.cwd, stored)).Ok? &&
      TransferFile(fs, hash, pack, fname, srcPath, dstPath, true, pathType, false, compression).value.0 ==
        CopyIgnoringSame(fs, sp, Resolve(fs.cwd, stored)).value
  {
  }

  /** The two steps a renamed, compressed transfer takes. */
  lemma TransferPackedSteps(fs: FS, hash: Hasher, pack: Packer, fname: string, srcPath: string, dstPath: string,
                            pathType: string, compression: string)
    requires TransferFile(fs, hash, pack, fname, srcPath, dstPath, true, pathType, true, compression).Ok?
    ensures var src := Join(srcPath, fname);
      var sp := Resolve(fs.cwd, src);
      var stored := Join(dstPath, StoredName(hash, fs.nodes[sp].data, src));
      IsFile(fs, sp) &&
      CopyIgnoringSame(fs, sp, Resolve(fs.cwd, stored)).Ok? &&
      CompressFile(CopyIgnoringSame(fs, sp, Resolve(fs.cwd, stored)).value, pack, stored, compression).Ok? &&
      TransferFile(fs, hash, pack, fname, srcPath, dstPath, true, pathType, true, compression).value.0 ==
        CompressFile(CopyIgnoringSame(fs, sp, Resolve(fs.cwd, stored)).value, pack, stored, compression).value
  {
  }

  /** `transfer_file` changes nothing outside the destination directory
      when it renames, and nothing but the one copied path when it does
      not; it keeps the tree well formed. */
  lemma TransferFileFrame(fs: FS, hash: Hasher, pack: Packer, fname: string, srcPath: string, dstPath: string,
                          rename: bool, pathType: string, compress: bool, compression: string)
    requires '/' !in compression
    requires TransferFile(fs, hash, pack, fname, srcPath, dstPath, rename, pathType, compress, compression).Ok?
    ensures var r := TransferFile(fs, hash, pack, fname, srcPath, dstPath, rename, pathType, compress, compression).value.0;
      r.cwd == fs.cwd &&
      (rename ==> forall q :: !Below(Resolve(fs.cwd, dstPath), q) ==> Agree(fs, r, q)) &&
      (!rename ==> forall q :: q != Resolve(fs.cwd, Join(dstPath, fname)) ==> Agree(fs, r, q)) &&
      (Valid(fs) ==> Valid(r))
  {
    if rename && compress {
      PackedFrame(fs, hash, pack, fname, srcPath, dstPath, pathType, compression);
    } else if rename {
      CopyFrame(fs, hash, pack, fname, srcPath, dstPath, pathType, compression);
    }
  }

  lemma PackedFrame(fs: FS, hash: Hasher, pack: Packer, fname: string, srcPath: string, dstPath: string,
                    pathType: string, compression: string)
    requires '/' !in compression
    requires TransferFile(fs, hash, pack, fname, srcPath, dstPath, true, pathType, true, compression).Ok?
    ensures var r := TransferFile(fs, hash, pack, fname, srcPath, dstPath, true, pathType, true, compression).value.0;
      r.cwd == fs.cwd && (forall q :: !Below(Resolve(fs.cwd, dstPath), q) ==> Agree(fs, r, q)) &&
      (Valid(fs) ==> Valid(r))
  {
    var src := Join(srcPath, fname);
    var sp := Resolve(fs.cwd, src);
    var n := StoredName(hash, fs.nodes[sp].data, src);
    TransferPackedSteps(fs, hash, pack, fname, srcPath, dstPath, pathType, compression);
    CopyCompressFrame(fs, sp, pack, dstPath, n, compression);
  }

  /** Copying a file into the destination directory and compressing it
      there changes nothing outside that directory. */
  lemma CopyCompressFrame(fs: FS, sp: Path, pack: Packer, dstPath: string, n: string, compression: string)
    requires PlainName(n) && '/' !in compression
    requires CopyIgnoringSame(fs, sp, Resolve(fs.cwd, Join(dstPath, n))).Ok?
    requires CompressFile(CopyIgnoringSame(fs, sp, Resolve(fs.cwd, Join(dstPath, n))).value, pack,
                          Join(dstPath, n), compression).Ok?
    ensures var fs2 := CompressFile(CopyIgnoringSame(fs, sp, Resolve(fs.cwd, Join(dstPath, n))).value, pack,
                                    Join(dstPath, n), compression).value;
      fs2.cwd == fs.cwd && (forall q :: !Below(Resolve(fs.cwd, dstPath), q) ==> Agree(fs, fs2, q)) &&
      (Valid(fs) ==> Valid(fs2))
  {
    PackedPaths(fs.cwd, dstPath, n, compression);
    var fs1 := CopyIgnoringSame(fs, sp, Resolve(fs.cwd, dstPath) + [n]).value;
    RenameFrame(fs, fs1, CompressFile(fs1, pack, Join(dstPath, n), compression).value, pack, dstPath, n, compression);
  }

  lemma CopyFrame(fs: FS, hash: Hasher, pack: Packer, fname: string, srcPath: string, dstPath: string,
                  pathType: string, compression: string)
    requires TransferFile(fs, hash, pack, fname, srcPath, dstPath, true, pathType, false, compression).Ok?
    ensures var r := TransferFile(fs, hash, pack, fname, srcPath, dstPath, true, pathType, false, compression).value.0;
      r.cwd == fs.cwd && (forall q :: !Below(Resolve(fs.cwd, dstPath), q) ==> Agree(fs, r, q)) &&
      (Valid(fs) ==> Valid(r))
  {
    var src := Join(srcPath, fname);
    var sp := Resolve(fs.cwd, src);
    var n := StoredName(hash, fs.nodes[sp].data, src);
    JoinResolve(fs.cwd, dstPath, n);
    TransferCopySteps(fs, hash, pack, fname, srcPath, dstPath, pathType, compression);
    assert Below(Resolve(fs.cwd, dstPath), Resolve(fs.cwd, dstPath) + [n]);
  }

  lemma RenameFrame(fs: FS, fs1: FS, fs2: FS, pack: Packer, dstPath: string, n: string, compression: string)
    requires PlainName(n) && '/' !in compression
    requires fs1.cwd == fs.cwd
    requires forall q :: q != Resolve(fs.cwd, dstPath) + [n] ==> Agree(fs, fs1, q)
    requires CompressFile(fs1, pack, Join(dstPath, n), compression) == Ok(fs2)
    ensures fs2.cwd == fs.cwd
    ensures forall q :: !Below(Resolve(fs.cwd, dstPath), q) ==> Agree(fs, fs2, q)
  {
    PackedPaths(fs.cwd, dstPath, n, compression);
    var dir := Resolve(fs.cwd, dstPath);
    forall q | !Below(dir, q)
      ensures Agree(fs, fs2, q)
    {
      assert Below(dir, dir + [n]) && Below(dir, dir + [n + "." + compression]);
      assert q != dir + [n] && q != dir + [n + "." + compression];
      assert Agree(fs, fs1, q);
      assert Agree(fs1, fs2, q);
    }
  }

  /** Without renaming, the file is copied under its own name, and copying
      a file onto itself is a no-op that succeeds. */
  lemma TransferPlainCopy(fs: FS, hash: Hasher, pack: Packer, fname: string, srcPath: string, dstPath: string,
                          pathType: string, compress: bool, compression: string)
    requires pathType in ["relative", "base", "abs"]
    ensures var r := TransferFile(fs, hash, pack, fname, srcPath, dstPath, false, pathType, compress, compression);
      var sp := Resolve(fs.cwd, Join(srcPath, fname));
      var dp := Resolve(fs.cwd, Join(dstPath, fname));
      (sp == dp && sp in fs.nodes ==> r == Ok((fs, None))) &&
      (sp != dp ==> (r.Ok? <==> CopyFile(fs, sp, dp).Ok?)) &&
      (r.Ok? ==> dp in r.value.0.nodes && r.value.0.nodes[dp] == fs.nodes[sp])
  {
  }

  /** Byte-identical files with the same base name are stored, and
      reported, under one name whatever directory they come from. */
  lemma TransferCollapses(fs: FS, hash: Hasher, pack: Packer, fname: string, srcA: string, srcB: string,
                          dstPath: string, compression: string)
    requires TransferFile(fs, hash, pack, fname, srcA, dstPath, true, "base", true, compression).Ok?
    requires TransferFile(fs, hash, pack, fname, srcB, dstPath, true, "base", true, compression).Ok?
    requires Basename(Join(srcA, fname)) == Basename(Join(srcB, fname))
    requires fs.nodes[Resolve(fs.cwd, Join(srcA, fname))] == fs.nodes[Resolve(fs.cwd, Join(srcB, fname))]
    ensures TransferFile(fs, hash, pack, fname, srcA, dstPath, true, "base", true, compression).value.1 ==
            TransferFile(fs, hash, pack, fname, srcB, dstPath, true, "base", true, compression).value.1
  {
  }

  /** When the destination string holds a `/` after its first character and
      does not end in one, as `tasks/<id>` does, the source's computation
      of the compressed name gives the stored file's base name. */
  lemma CompressedBaseAgrees(dstPath: string, n: string, j: nat)
    requires PlainName(n)
    requires 1 <= j < |dstPath| && dstPath[j] == '/' && dstPath[|dstPath| - 1] != '/'
    ensures CompressedBaseAsWritten(Join(dstPath, n), dstPath) == Basename(Join(dstPath, n)) == n
  {
    JoinBasename(dstPath, n);
    var t := "/" + n;
    assert Replace(Join(dstPath, n), dstPath, "") == t by {
      JoinAddsSlash(dstPath, n);
      ReplaceAllLeading(dstPath, t, "");
      assert "" + ReplaceAll(t, dstPath, "") == ReplaceAll(t, dstPath, "");
      SlashNameKept(dstPath, n, j);
    }
    assert Drop(t, 1) == n;
  }

  lemma JoinAddsSlash(dir: string, n: string)
    requires |dir| > 0 && dir[|dir| - 1] != '/' && PlainName(n)
    ensures Join(dir, n) == dir + ("/" + n)
  {
    assert n[0] != '/' by { assert n[0] in n; }
  }

  /** `/n` holds no occurrence of a pattern with a `/` after its first
      character, when `n` holds no `/`. */
  lemma SlashNameKept(pat: string, n: string, j: nat)
    requires PlainName(n)
    requires 1 <= j < |pat| && pat[j] == '/'
    ensures ReplaceAll("/" + n, pat, "") == "/" + n
  {
    var t := "/" + n;
    assert pat[j] in pat;
    ReplaceAllAbsent(n, pat, "", '/');
    if |t| >= |pat| {
      assert t[j] == n[j - 1];
      assert n[j - 1] in n;
      assert t[..|pat|] != pat by { assert t[..|pat|][j] == t[j]; }
      assert t[1..] == n;
      assert ReplaceAll(t, pat, "") == [t[0]] + ReplaceAll(t[1..], pat, "");
    }
  }

  /** When the destination string ends in `/`, the source's computation
      drops the first character of the stored name. */
  lemma CompressedBaseDropsFirst(dstPath: string, n: string)
    requires PlainName(n)
    requires |dstPath| > 0 && dstPath[|dstPath| - 1] == '/'
    ensures CompressedBaseAsWritten(Join(dstPath, n), dstPath) == n[1..]
    ensures n[1..] != n
  {
    assert n[0] != '/' by { assert n[0] in n; }
    assert Join(dstPath, n) == dstPath + n;
    ReplaceAllLeading(dstPath, n, "");
    assert dstPath[|dstPath| - 1] in dstPath;
    ReplaceAllAbsent(n, dstPath, "", '/');
    assert "" + n == n;
  }

  lemma TransferFlagIrrelevant(fs: FS, hash: Hasher, pack: Packer, fname: string, srcPath: string, dstPath: string,
                               rename: bool, pathType: string, compress: bool, compression: string)
    requires forall data: Bytes :: CompressedBaseAsWritten(Join(dstPath, StoredName(hash, data, Join(srcPath, fname))), dstPath)
                                == Basename(Join(dstPath, StoredName(hash, data, Join(srcPath, fname))))
    ensures Transfer(fs, hash, pack, fname, srcPath, dstPath, rename, pathType, compress, compression, true) ==
            Transfer(fs, hash, pack, fname, srcPath, dstPath, rename, pathType, compress, compression, false)
  {
  }

  /** Under the same condition the as-written `transfer_file` and the
      corrected one agree on every input. */
  lemma TransferAsWrittenAgrees(fs: FS, hash: Hasher, pack: Packer, fname: string, srcPath: string, dstPath: string,
                                rename: bool, pathType: string, compress: bool, compression: string, j: nat)
    requires 1 <= j < |dstPath| && dstPath[j] == '/' && dstPath[|dstPath| - 1] != '/'
    ensures TransferFileAsWritten(fs, hash, pack, fname, srcPath, dstPath, rename, pathType, compress, compression) ==
            TransferFile(fs, hash, pack, fname, srcPath, dstPath, rename, pathType, compress, compression)
  {
    forall data: Bytes
      ensures CompressedBaseAsWritten(Join(dstPath, StoredName(hash, data, Join(srcPath, fname))), dstPath)
           == Basename(Join(dstPath, StoredName(hash, data, Join(srcPath, fname))))
    {
      CompressedBaseAgrees(dstPath, StoredName(hash, data, Join(srcPath, fname)), j);
    }
    TransferFlagIrrelevant(fs, hash, pack, fname, srcPath, dstPath, rename, pathType, compress, compression);
  }

  /** With a destination string ending in `/`, the name the source reports
      for a compressed copy lacks the first digest character, so it names
      no stored file. */
  lemma TransferAsWrittenDropsDigestChar(fs: FS, hash: Hasher, pack: Packer, fname: string, srcPath: string,
                                         dstPath: string, compression: string)
    requires |dstPath| > 0 && dstPath[|dstPath| - 1] == '/'
    requires TransferFile(fs, hash, pack, fname, srcPath, dstPath, true, "base", true, compression).Ok?
    ensures var src := Join(srcPath, fname);
      var n := StoredName(hash, fs.nodes[Resolve(fs.cwd, src)].data, src);
      TransferFileAsWritten(fs, hash, pack, fname, srcPath, dstPath, true, "base", true, compression).value.1
        == Some(n[1..] + "." + compression) &&
      TransferFile(fs, hash, pack, fname, srcPath, dstPath, true, "base", true, compression).value.1
        == Some(n + "." + compression) &&
      n[1..] + "." + compression != n + "." + compression
  {
    var src := Join(srcPath, fname);
    var n := StoredName(hash, fs.nodes[Resolve(fs.cwd, src)].data, src);
    CompressedBaseDropsFirst(dstPath, n);
    assert |n[1..] + "." + compression| != |n + "." + compression|;
  }

  // ------------------------------------------------------------- create_path

  /** The path string `create_path` works with and returns: the argument
      with a `/` appended unless it already ends in one. */
  function Slashed(path: string): (p: string)
    requires |path| > 0
    ensures |p| > 0 && p[|p| - 1] == '/'
    ensures p == path || p == path + "/"
  {
    if path[|path| - 1] != '/' then path + "/" else path
  }

  /** `os.path.dirname(p)` for a string ending in `/`: the string without
      its trailing slashes, or itself when it is nothing but slashes. */
  function DirName(p: string): string {
    if RStripChar(p, '/') == "" then p else RStripChar(p, '/')
  }

  /** The directory name and its path name the same place. */
  lemma DirNameResolve(cwd: Path, p: string)
    requires |p| > 0
    ensures Resolve(cwd, DirName(p)) == Resolve(cwd, p)
  {
    if RStripChar(p, '/') != "" {
      StripSlashesResolve(cwd, p);
    }
  }

  /** `".bk%06d" % counter` */
  function BackupSuffix(counter: nat): (t: string)
    ensures '/' !in t && |t| >= 9
  {
    var t := ".bk" + Pad6(counter);
    assert forall i :: 3 <= i < |t| ==> t[i] == Pad6(counter)[i - 3];
    t
  }

  /** The path of the backup with the given counter. */
  function BackupPath(cwd: Path, dirname: string, counter: nat): Path {
    Resolve(cwd, dirname + BackupSuffix(counter))
  }

  /** Different counters name different backups. */
  lemma BackupPathInjective(cwd: Path, dirname: string, a: nat, b: nat)
    requires BackupPath(cwd, dirname, a) == BackupPath(cwd, dirname, b)
    ensures a == b
  {
    var s := SplitOn(dirname, '/');
    var last := s[|s| - 1];
    ResolveSuffix(cwd, dirname, BackupSuffix(a));
    ResolveSuffix(cwd, dirname, BackupSuffix(b));
    var pa := BackupPath(cwd, dirname, a);
    var na := last + BackupSuffix(a);
    var nb := last + BackupSuffix(b);
    assert pa[|pa| - 1] == na;
    assert na == nb;
    assert BackupSuffix(a) == na[|last|..];
    assert BackupSuffix(a) == BackupSuffix(b);
    assert Pad6(a) == BackupSuffix(a)[3..];
    assert Pad6(b) == BackupSuffix(b)[3..];
    Pad6Injective(a, b);
  }

  /** The backups numbered below `m`. */
  function BackupsBelow(cwd: Path, dirname: string, m: nat): (names: set<Path>)
    ensures forall k :: 0 <= k < m ==> BackupPath(cwd, dirname, k) in names
    ensures forall q :: q in names ==> exists k :: 0 <= k < m && q == BackupPath(cwd, dirname, k)
  {
    set k | 0 <= k < m :: BackupPath(cwd, dirname, k)
  }

  lemma {:induction false} BackupsBelowCount(cwd: Path, dirname: string, m: nat)
    ensures |BackupsBelow(cwd, dirname, m)| == m
    decreases m
  {
    if m > 0 {
      var prev := BackupsBelow(cwd, dirname, m - 1);
      var b := BackupPath(cwd, dirname, m - 1);
      BackupsBelowCount(cwd, dirname, m - 1);
      assert BackupsBelow(cwd, dirname, m) == prev + {b};
      if b in prev {
        var k :| 0 <= k < m - 1 && b == BackupPath(cwd, dirname, k);
        BackupPathInjective(cwd, dirname, k, m - 1);
      }
    }
  }

  lemma {:induction false} SubsetCount<T>(a: set<T>, b: set<T>)
    requires a <= b
    ensures |a| <= |b|
    decreases |b|
  {
    if a != {} {
      var x :| x in a;
      SubsetCount(a - {x}, b - {x});
    }
  }

  /** A tree can hold only as many backups as it has nodes: the search for
      a free counter ends. */
  lemma BackupsTaken(fs: FS, dirname: string, m: nat)
    requires forall k :: 0 <= k < m ==> IsDir(fs, BackupPath(fs.cwd, dirname, k))
    ensures m <= |fs.nodes.Keys|
  {
    BackupsBelowCount(fs.cwd, dirname, m);
    SubsetCount(BackupsBelow(fs.cwd, dirname, m), fs.nodes.Keys);
  }

  /** The counter the `while True` loop of `create_path` stops at: the
      first, counting up from `m`, whose backup is not a directory. */
  function FreeCounter(fs: FS, dirname: string, m: nat): (n: nat)
    requires forall k :: 0 <= k < m ==> IsDir(fs, BackupPath(fs.cwd, dirname, k))
    ensures m <= n && !IsDir(fs, BackupPath(fs.cwd, dirname, n))
    ensures forall k :: 0 <= k < n ==> IsDir(fs, BackupPath(fs.cwd, dirname, k))
    decreases |fs.nodes.Keys| - m
  {
    if !IsDir(fs, BackupPath(fs.cwd, dirname, m)) then m
    else
      BackupsTaken(fs, dirname, m + 1);
      FreeCounter(fs, dirname, m + 1)
  }

  /** `create_path(path, backup)`: the tree afterwards and the path string
      returned. A missing directory is created with its ancestors; an
      existing one is returned as it is, or, with `backup`, moved aside to
      the first free `<dir>.bkNNNNNN` and created anew. */
  function CreatePath(fs: FS, path: string, backup: bool): (r: Result<(FS, string)>)
    ensures r == Err(IndexError) <==> |path| == 0
    ensures r.Ok? ==>
      var p := Resolve(fs.cwd, path);
      r.value.1 == Slashed(path) && Resolve(fs.cwd, r.value.1) == p &&
      IsDir(r.value.0, p) && r.value.0.cwd == fs.cwd
    ensures r.Ok? && Valid(fs) ==> Valid(r.value.0)
    ensures |path| > 0 && !IsDir(fs, Resolve(fs.cwd, path)) ==>
      var p := Resolve(fs.cwd, path);
      (r.Ok? <==> p !in fs.nodes && forall k :: 0 <= k < |p| ==> !IsFile(fs, p[..k])) &&
      (r.Ok? ==> forall q :: q in fs.nodes ==> Agree(fs, r.value.0, q)) &&
      (r.Ok? ==> forall q :: q in r.value.0.nodes && q !in fs.nodes ==> q <= p)
    ensures |path| > 0 && IsDir(fs, Resolve(fs.cwd, path)) && !backup ==> r == Ok((fs, Slashed(path)))
    ensures |path| > 0 && IsDir(fs, Resolve(fs.cwd, path)) && backup && r.Ok? ==>
      var p := Resolve(fs.cwd, path);
      var b := BackupPath(fs.cwd, DirName(Slashed(path)), FreeCounter(fs, DirName(Slashed(path)), 0));
      (forall x :: p + x in fs.nodes ==> b + x in r.value.0.nodes && r.value.0.nodes[b + x] == fs.nodes[p + x]) &&
      (Valid(fs) ==> forall q :: Under(p, q) && q in r.value.0.nodes ==> q == p)
  {
    if |path| == 0 then Err(IndexError)
    else if IsDir(fs, Resolve(fs.cwd, path)) then
      TrailingSlash(fs.cwd, path);
      if backup then BackupAndCreate(fs, path) else Ok((fs, Slashed(path)))
    else
      CreateMissing(fs, path)
  }

  /** `os.makedirs` of a path that is not yet a directory. */
  function CreateMissing(fs: FS, path: string): (r: Result<(FS, string)>)
    requires |path| > 0 && !IsDir(fs, Resolve(fs.cwd, path))
    ensures r.Err? ==> r.error != IndexError
    ensures r.Ok? ==>
      var p := Resolve(fs.cwd, path);
      r.value.1 == Slashed(path) && Resolve(fs.cwd, r.value.1) == p &&
      IsDir(r.value.0, p) && r.value.0.cwd == fs.cwd
    ensures r.Ok? && Valid(fs) ==> Valid(r.value.0)
    ensures var p := Resolve(fs.cwd, path);
      (r.Ok? <==> p !in fs.nodes && forall k :: 0 <= k < |p| ==> !IsFile(fs, p[..k])) &&
      (r.Ok? ==> forall q :: q in fs.nodes ==> Agree(fs, r.value.0, q)) &&
      (r.Ok? ==> forall q :: q in r.value.0.nodes && q !in fs.nodes ==> q <= p)
  {
    var p := Slashed(path);
    TrailingSlash(fs.cwd, path);
    var fs1 :- MakeDirs(fs, Resolve(fs.cwd, p));
    Ok((fs1, p))
  }

  /** The existing directory moved aside to its first free backup name and
      created anew. */
  function BackupAndCreate(fs: FS, path: string): (r: Result<(FS, string)>)
    requires |path| > 0 && IsDir(fs, Resolve(fs.cwd, path))
    ensures r.Err? ==> r.error != IndexError
    ensures r.Ok? ==>
      var p := Resolve(fs.cwd, path);
      r.value.1 == Slashed(path) && Resolve(fs.cwd, r.value.1) == p &&
      IsDir(r.value.0, p) && r.value.0.cwd == fs.cwd
    ensures r.Ok? && Valid(fs) ==> Valid(r.value.0)
    ensures r.Ok? ==>
      var p := Resolve(fs.cwd, path);
      var b := BackupPath(fs.cwd, DirName(Slashed(path)), FreeCounter(fs, DirName(Slashed(path)), 0));
      (forall x :: p + x in fs.nodes ==> b + x in r.value.0.nodes && r.value.0.nodes[b + x] == fs.nodes[p + x]) &&
      (Valid(fs) ==> forall q :: Under(p, q) && q in r.value.0.nodes ==> q == p)
  {
    var p := Slashed(path);
    var target := Resolve(fs.cwd, p);
    TrailingSlash(fs.cwd, path);
    var d := DirName(p);
    var n := FreeCounter(fs, d, 0);
    DirNameResolve(fs.cwd, p);
    var fs1 :- Move(fs, Resolve(fs.cwd, d), BackupPath(fs.cwd, d, n));
    var fs2 :- MakeDirs(fs1, target);
    Ok((fs2, p))
  }

  /** Creating a path twice without backup leaves the second call nothing
      to do. */
  lemma CreatePathIdempotent(fs: FS, path: string, backup: bool)
    requires CreatePath(fs, path, backup).Ok?
    ensures var fs1 := CreatePath(fs, path, backup).value.0;
      CreatePath(fs1, path, false) == Ok((fs1, Slashed(path)))
  {
  }

  /** In a well-formed tree, backing up an existing directory other than
      the root succeeds whenever the chosen backup name is free, its parent
      is a directory, and it does not lie inside the directory itself. */
  lemma CreatePathBackupSucceeds(fs: FS, path: string)
    requires Valid(fs) && |path| > 0
    requires var p := Resolve(fs.cwd, path);
      var b := BackupPath(fs.cwd, DirName(Slashed(path)), FreeCounter(fs, DirName(Slashed(path)), 0));
      IsDir(fs, p) && |p| > 0 && b !in fs.nodes && |b| > 0 && IsDir(fs, Parent(b)) && !Under(p, b)
    ensures CreatePath(fs, path, true).Ok?
  {
    var p := Resolve(fs.cwd, path);
    var sp := Slashed(path);
    var d := DirName(sp);
    var b := BackupPath(fs.cwd, d, FreeCounter(fs, d, 0));
    TrailingSlash(fs.cwd, path);
    DirNameResolve(fs.cwd, sp);
    assert Resolve(fs.cwd, sp) == p;
    BackupLeavesRoom(fs, p, b);
  }

  /** Moving a directory to a free place leaves its own place free and its
      ancestors directories, so it can be created again. */
  lemma BackupLeavesRoom(fs: FS, p: Path, b: Path)
    requires Valid(fs) && IsDir(fs, p) && |p| > 0
    requires b !in fs.nodes && |b| > 0 && IsDir(fs, Parent(b)) && !Under(p, b)
    ensures Move(fs, p, b).Ok?
    ensures MakeDirs(Move(fs, p, b).value, p).Ok?
  {
    var fs1 := Move(fs, p, b).value;
    assert MoveTarget(fs, p, b) == b;
    forall k | 0 <= k < |p|
      ensures IsDir(fs1, p[..k])
    {
      AncestorsAreDirs(fs, p, k);
      if Under(b, p[..k]) {
        DirAbove(fs, b, p);
        assert false;
      }
      assert !Under(p, p[..k]);
      assert Agree(fs, fs1, p[..k]);
    }
    assert p !in fs1.nodes;
  }
}
