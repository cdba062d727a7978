/** `VaspOutputs`: which raw VASP output files a task keeps and how they are
    recorded. Each requested output is parsed by the parser its name picks;
    a non-empty result has its raw file stored content-addressed (and
    gzipped) in the destination directory and its parsed dict written next
    to it as a JSON sidecar named by the digest of the dict's text. The
    pymatgen parsers, gzip, `dumpfn` and SHA-1 are parameters. */
module Outputs {
  import opened Results
  import opened Strings
  import opened PyDict
  import opened PyValues
  import opened FileSystem
  import opened ModelUtils
  import opened Models
  import opened Common

  /** What a pymatgen parser makes of a file's bytes: the parsed object's
      `as_dict()`, or `None` when parsing raises. */
  type Parser = Bytes -> Option<StrDict>

  /** `Vasprun(fname, parse_potcar_file=v)`: `as_dict()` and `converged`,
      or `None` when parsing raises. */
  type VasprunParser = (Bytes, PyVal) -> Option<(StrDict, bool)>

  datatype Parsers = Parsers(
    outcar: Parser, poscar: Parser, oszicar: Parser, chgcar: Parser,
    elfcar: Parser, procar: Parser, vasprun: VasprunParser)

  /** The digest, gzip, and the bytes `dumpfn` writes for a value. */
  datatype Codecs = Codecs(hash: Hasher, pack: Packer, dump: Dumper)

  // ------------------------------------------------------------ construction

  const DefaultOutputs: seq<string> := ["CONTCAR", "OSZICAR", "OUTCAR", "vasprun.xml"]

  datatype VaspOutputs = VaspOutputs(
    foutputs: seq<string>, workPath: string, relax: bool, allowFail: bool, kargs: StrDict)

  function Suffixed(name: string, sufix: string): string {
    if sufix == "" then name else name + "." + sufix
  }

  /** The output names `__init__` settles on: the defaults for an empty
      list, the first `'VASPRUN'` spelled `'vasprun.xml'`, and `.sufix`
      appended to every name when a suffix is given. */
  function OutputNames(foutputs: seq<string>, sufix: string): (r: seq<string>)
    ensures var b := if |foutputs| == 0 then DefaultOutputs else foutputs;
      |r| == |b| &&
      forall i :: 0 <= i < |r| ==>
        r[i] == Suffixed(if "VASPRUN" in b && i == FirstIndex(b, "VASPRUN") then "vasprun.xml" else b[i], sufix)
  {
    var b := if |foutputs| == 0 then DefaultOutputs else foutputs;
    var named := if "VASPRUN" in b then b[FirstIndex(b, "VASPRUN") := "vasprun.xml"] else b;
    if sufix == "" then named
    else seq(|named|, i requires 0 <= i < |named| => named[i] + "." + sufix)
  }

  /** Without a suffix the defaults stand as they are, and a list that
      names `'VASPRUN'` once names it no more. */
  lemma OutputNamesFacts(foutputs: seq<string>)
    ensures OutputNames([], "") == DefaultOutputs
    ensures (|foutputs| > 0 && forall i, j :: 0 <= i < j < |foutputs| && foutputs[i] == "VASPRUN" ==> foutputs[j] != "VASPRUN") ==>
      "VASPRUN" !in OutputNames(foutputs, "")
  {
    assert "VASPRUN" !in DefaultOutputs;
    var r := OutputNames(foutputs, "");
    if |foutputs| > 0 && "VASPRUN" in foutputs &&
       forall i, j :: 0 <= i < j < |foutputs| && foutputs[i] == "VASPRUN" ==> foutputs[j] != "VASPRUN" {
      var f := FirstIndex(foutputs, "VASPRUN");
      forall i | 0 <= i < |r| && i != f ensures r[i] != "VASPRUN" {
        if i < f {
          assert foutputs[i] in foutputs[..f];
        }
      }
    }
  }

  /** With a suffix every name ends in it. */
  lemma OutputNamesSuffixed(foutputs: seq<string>, sufix: string)
    requires sufix != ""
    ensures forall n :: n in OutputNames(foutputs, sufix) ==> EndsWith(n, "." + sufix)
  {
    var r := OutputNames(foutputs, sufix);
    forall n | n in r
      ensures EndsWith(n, "." + sufix)
    {
      var i :| 0 <= i < |r| && r[i] == n;
      var b := if |foutputs| == 0 then DefaultOutputs else foutputs;
      var m := if "VASPRUN" in b && i == FirstIndex(b, "VASPRUN") then "vasprun.xml" else b[i];
      SuffixedEnds(m, sufix);
    }
  }

  lemma SuffixedEnds(m: string, sufix: string)
    requires sufix != ""
    ensures EndsWith(Suffixed(m, sufix), "." + sufix)
  {
    assert Suffixed(m, sufix) == m + ("." + sufix);
  }

  /** `VaspOutputs(work_path, foutputs, sufix, relax, allow_fail, **kargs)`:
      the work path is made absolute against the working directory. */
  function NewVaspOutputs(fs: FS, workPath: string, foutputs: seq<string>, sufix: string,
                          relax: bool, allowFail: bool, kargs: StrDict): (vo: VaspOutputs)
    ensures vo.foutputs == OutputNames(foutputs, sufix)
    ensures PlainPath(fs.cwd) ==> Resolve(fs.cwd, vo.workPath) == Resolve(fs.cwd, workPath)
  {
    var abs := Resolve(fs.cwd, workPath);
    var vo := VaspOutputs(OutputNames(foutputs, sufix), PathText(abs), relax, allowFail, kargs);
    if PlainPath(fs.cwd) then
      ResolvePlain(fs.cwd, workPath);
      PathTextResolve(fs.cwd, abs);
      vo
    else vo
  }

  // ----------------------------------------------------------------- parsing

  /** The substrings `parse_output` tests, in its order. */
  const Markers: seq<string> := ["OUTCAR", "CONTCAR", "OSZICAR", "CHGCAR", "ELFCAR", "PROCAR", "vasprun.xml"]

  /** The index of the first marker from `from` on that `name` contains, or
      `|Markers|` when there is none. */
  function Dispatch(name: string, from: nat): (k: nat)
    requires from <= |Markers|
    ensures from <= k <= |Markers|
    ensures k < |Markers| ==> Contains(name, Markers[k])
    ensures forall j :: from <= j < k ==> !Contains(name, Markers[j])
    decreases |Markers| - from
  {
    if from == |Markers| then from
    else if Contains(name, Markers[from]) then from
    else Dispatch(name, from + 1)
  }

  /** The parser an output name picks. */
  function Kind(name: string): (k: nat)
    ensures k <= |Markers|
    ensures k < |Markers| ==> Contains(name, Markers[k])
    ensures forall j :: 0 <= j < k ==> !Contains(name, Markers[j])
  {
    Dispatch(name, 0)
  }

  /** `os.path.exists(fname)` and then parsing: `{}` when nothing is there
      or parsing raises (a directory does not parse). */
  function ReadParsed(fs: FS, parse: Parser, fname: string): (r: StrDict)
    ensures var p := Resolve(fs.cwd, fname);
      (!IsFile(fs, p) ==> r == []) &&
      (r != [] ==> IsFile(fs, p) && parse(fs.nodes[p].data) == Some(r)) &&
      (IsFile(fs, p) && parse(fs.nodes[p].data).Some? ==> r == parse(fs.nodes[p].data).value)
  {
    var p := Resolve(fs.cwd, fname);
    if IsFile(fs, p) then parse(fs.nodes[p].data).GetOr([]) else []
  }

  /** The file `get_contcar` reads: with `relax` off, every `CONTCAR` in the
      whole path string is replaced by `POSCAR`. */
  function ContcarSource(fname: string, relax: bool): string {
    if relax then fname else Replace(fname, "CONTCAR", "POSCAR")
  }

  /** `get_contcar(fname, relax)` */
  function GetContcar(fs: FS, parse: Parser, fname: string, relax: bool): (r: StrDict)
    ensures var p := Resolve(fs.cwd, ContcarSource(fname, relax));
      (!IsFile(fs, p) ==> r == []) &&
      (r != [] ==> IsFile(fs, p) && parse(fs.nodes[p].data) == Some(r))
  {
    ReadParsed(fs, parse, ContcarSource(fname, relax))
  }

  /** No occurrence of `CONTCAR` starts inside the directory part of
      `dir/CONTCAR`. */
  predicate ContcarOnlyLast(dir: string) {
    forall i :: 0 <= i < |dir| + 1 ==> !StartsWith((dir + "/" + "CONTCAR")[i..], "CONTCAR")
  }

  /** With `relax` off the structure is read from `POSCAR` beside the
      `CONTCAR`, provided the directory's own text holds no `CONTCAR`. */
  lemma ContcarReadsPoscar(dir: string)
    requires |dir| > 0 && dir[|dir| - 1] != '/'
    requires ContcarOnlyLast(dir)
    ensures ContcarSource(Join(dir, "CONTCAR"), false) == Join(dir, "POSCAR")
  {
    assert Join(dir, "CONTCAR") == (dir + "/") + "CONTCAR";
    ReplaceAllKeepsPrefix(dir + "/", "CONTCAR", "CONTCAR", "POSCAR");
    ReplaceAllLeading("CONTCAR", "", "POSCAR");
    assert "CONTCAR" + "" == "CONTCAR";
    assert ReplaceAll("", "CONTCAR", "POSCAR") == "";
  }

  /** The replacement acts on the whole path: a directory named `CONTCAR`
      is renamed as well. */
  lemma ContcarReplacesDirectory()
    ensures ContcarSource("CONTCAR/CONTCAR", false) == "POSCAR/POSCAR"
  {
    var a, p, t := "CONTCAR", "POSCAR", "/CONTCAR";
    assert "CONTCAR/CONTCAR" == a + t;
    ReplaceAllLeading(a, t, p);
    assert ReplaceAll(a, a, p) == p by {
      ReplaceAllLeading(a, "", p);
      assert a + "" == a;
    }
    assert ReplaceAll(t, a, p) == "/" + p by {
      assert t[..|a|] != a by { assert t[..|a|][0] == '/'; }
      assert t[1..] == a;
    }
    assert p + ("/" + p) == "POSCAR/POSCAR";
  }

  /** `get_vasprun(fname, allow_fail, parse_potcar_file)`: `{}` for a
      missing file, a parse error, or, unless failures are allowed, a run
      that did not converge. */
  function GetVasprun(fs: FS, parse: VasprunParser, fname: string, allowFail: bool, parsePotcar: PyVal): (r: StrDict)
    ensures var p := Resolve(fs.cwd, fname);
      (!IsFile(fs, p) ==> r == []) &&
      (IsFile(fs, p) && parse(fs.nodes[p].data, parsePotcar).None? ==> r == []) &&
      ((IsFile(fs, p) && parse(fs.nodes[p].data, parsePotcar).Some? && !allowFail &&
        !parse(fs.nodes[p].data, parsePotcar).value.1) ==> r == []) &&
      (r != [] ==> IsFile(fs, p) && parse(fs.nodes[p].data, parsePotcar).Some? &&
                   r == parse(fs.nodes[p].data, parsePotcar).value.0 &&
                   (allowFail || parse(fs.nodes[p].data, parsePotcar).value.1))
  {
    var p := Resolve(fs.cwd, fname);
    if !IsFile(fs, p) then []
    else
      match parse(fs.nodes[p].data, parsePotcar)
      case None => []
      case Some(v) => if allowFail || v.1 then v.0 else []
  }

  /** `get_procar(fname)`: `{}` when the file is missing or does not parse;
      after a successful parse it reads the attribute `knpoints`, which the
      parsed object lacks, and raises. */
  function GetProcar(fs: FS, parse: Parser, fname: string): (r: Result<StrDict>)
    ensures r.Ok? ==> r.value == []
    ensures r.Ok? <==> !(IsFile(fs, Resolve(fs.cwd, fname)) && parse(fs.nodes[Resolve(fs.cwd, fname)].data).Some?)
    ensures r.Err? ==> r.error == AttributeError("knpoints")
  {
    var p := Resolve(fs.cwd, fname);
    if IsFile(fs, p) && parse(fs.nodes[p].data).Some? then Err(AttributeError("knpoints"))
    else Ok([])
  }

  /** Every keyword is `parse_potcar_file`. */
  predicate OnlyPotcarOption(kargs: StrDict) {
    forall k :: k in Keys(kargs) ==> k == "parse_potcar_file"
  }

  /** `get_vasprun(fname, allow_fail=..., **kargs)`: the value of
      `parse_potcar_file` (default True); any other keyword is a
      `TypeError`. */
  function VasprunOption(kargs: StrDict): (r: Result<PyVal>)
    ensures r.Ok? <==> OnlyPotcarOption(kargs)
    ensures r.Ok? ==> r.value == GetOr(kargs, "parse_potcar_file", PBool(true))
  {
    if OnlyPotcarOption(kargs) then
      Ok(GetOr(kargs, "parse_potcar_file", PBool(true)))
    else Err(TypeError("get_vasprun() got an unexpected keyword argument"))
  }

  /** The parsed dict of one output, by the parser its name picks; names no
      marker matches give `{}`. */
  function Parse(fs: FS, parsers: Parsers, vo: VaspOutputs, foutput: string): (r: Result<StrDict>)
    ensures Kind(foutput) != 5 && Kind(foutput) != 6 ==> r.Ok?
    ensures Kind(foutput) == |Markers| ==> r == Ok([])
  {
    var fname := Join(vo.workPath, foutput);
    var k := Kind(foutput);
    if k == 0 then Ok(ReadParsed(fs, parsers.outcar, fname))
    else if k == 1 then Ok(GetContcar(fs, parsers.poscar, fname, vo.relax))
    else if k == 2 then Ok(ReadParsed(fs, parsers.oszicar, fname))
    else if k == 3 then Ok(ReadParsed(fs, parsers.chgcar, fname))
    else if k == 4 then Ok(ReadParsed(fs, parsers.elfcar, fname))
    else if k == 5 then GetProcar(fs, parsers.procar, fname)
    else if k == 6 then
      var pp :- VasprunOption(vo.kargs);
      Ok(GetVasprun(fs, parsers.vasprun, fname, vo.allowFail, pp))
    else Ok([])
  }

  // ----------------------------------------------------------------- storing

  /** The sidecar's file name: the digest of the dict's text, a dash, the
      output name, and `.json`. */
  function SidecarName(hash: Hasher, data: StrDict, foutput: string): string {
    Sha1Encode(hash, DictVal(data)) + "-" + foutput + ".json"
  }

  /** The raw file stored under its content name and gzipped; the name
      `transfer_file` reports. */
  function StoreRaw(fs: FS, codecs: Codecs, vo: VaspOutputs, dst: string, foutput: string): (r: Result<(FS, string)>)
    ensures r.Ok? ==>
      var src := Join(vo.workPath, foutput);
      IsFile(fs, Resolve(fs.cwd, src)) &&
      r.value.1 == StoredName(codecs.hash, fs.nodes[Resolve(fs.cwd, src)].data, src) + ".gz"
  {
    var t :- TransferFile(fs, codecs.hash, codecs.pack, foutput, vo.workPath, dst, true, "base", true, "gz");
    Ok((t.0, t.1.value))
  }

  /** For a destination `tasks/<task_id>`, as the task builder uses, the
      name `transfer_file` computes for the raw file is the one reported
      here. */
  lemma StoreRawInTaskDir(fs: FS, codecs: Codecs, vo: VaspOutputs, taskId: string, foutput: string)
    requires |taskId| > 0 && taskId[|taskId| - 1] != '/'
    ensures var dst := "tasks/" + taskId;
      var t := TransferFileAsWritten(fs, codecs.hash, codecs.pack, foutput, vo.workPath, dst, true, "base", true, "gz");
      var r := StoreRaw(fs, codecs, vo, dst, foutput);
      (r.Ok? <==> t.Ok?) &&
      (t.Ok? ==> t.value.1.Some? && r.value == (t.value.0, t.value.1.value))
  {
    var dst := "tasks/" + taskId;
    assert dst[5] == '/' && dst[|dst| - 1] == taskId[|taskId| - 1];
    TransferAsWrittenAgrees(fs, codecs.hash, codecs.pack, foutput, vo.workPath, dst, true, "base", true, "gz", 5);
  }

  /** One pass of the loop of `parse_output`: the tree afterwards and the
      record kept for the output. */
  function ParseOne(fs: FS, codecs: Codecs, parsers: Parsers, vo: VaspOutputs, dst: string,
                    saveRaw: bool, foutput: string): (r: Result<(FS, PyVal)>)
    ensures r.Ok? ==>
      Parse(fs, parsers, vo, foutput).Ok? && r.value.1.PModel? && Keys(r.value.1.fields) == Names(JFDataSchema)
  {
    var data :- Parse(fs, parsers, vo, foutput);
    var raw :- if saveRaw && |data| > 0 then StoreRaw(fs, codecs, vo, dst, foutput) else Ok((fs, ""));
    if |data| > 0 then
      var jname := Join(dst, SidecarName(codecs.hash, data, foutput));
      var fs2 :- WriteFile(raw.0, Resolve(raw.0.cwd, jname), codecs.dump(DictVal(data)));
      Ok((fs2, StoredJFData(raw.1, SidecarField(codecs.hash, data, dst, foutput))))
    else
      Ok((raw.0, StoredJFData(raw.1, SidecarField(codecs.hash, data, dst, foutput))))
  }

  /** The name recorded for the sidecar: the base name of its path, or
      the empty string when nothing was parsed. */
  function SidecarField(hash: Hasher, data: StrDict, dst: string, foutput: string): string {
    if |data| > 0 then Basename(Join(dst, SidecarName(hash, data, foutput))) else ""
  }

  /** `ParseOne` taken apart: the raw store succeeded and the record names
      what it reported and the sidecar. */
  lemma ParseOneSteps(fs: FS, codecs: Codecs, parsers: Parsers, vo: VaspOutputs, dst: string,
                      saveRaw: bool, foutput: string)
    requires ParseOne(fs, codecs, parsers, vo, dst, saveRaw, foutput).Ok?
    ensures var data := Parse(fs, parsers, vo, foutput).value;
      var raw := if saveRaw && |data| > 0 then StoreRaw(fs, codecs, vo, dst, foutput) else Ok((fs, ""));
      raw.Ok? &&
      ParseOne(fs, codecs, parsers, vo, dst, saveRaw, foutput).value.1 ==
        StoredJFData(raw.value.1, SidecarField(codecs.hash, data, dst, foutput))
  {
    var data := Parse(fs, parsers, vo, foutput).value;
    var raw := if saveRaw && |data| > 0 then StoreRaw(fs, codecs, vo, dst, foutput) else Ok((fs, ""));
    var rec := StoredJFData(raw.value.1, SidecarField(codecs.hash, data, dst, foutput));
    if |data| > 0 {
      var jname := Join(dst, SidecarName(codecs.hash, data, foutput));
      var w := WriteFile(raw.value.0, Resolve(raw.value.0.cwd, jname), codecs.dump(DictVal(data)));
      assert ParseOne(fs, codecs, parsers, vo, dst, saveRaw, foutput) == Ok((w.value, rec));
    } else {
      assert ParseOne(fs, codecs, parsers, vo, dst, saveRaw, foutput) == Ok((raw.value.0, rec));
    }
  }

  /** The tree `ParseOne` leaves: the raw store's, with the sidecar written
      into it when something was parsed. */
  lemma ParseOneTree(fs: FS, codecs: Codecs, parsers: Parsers, vo: VaspOutputs, dst: string,
                     saveRaw: bool, foutput: string)
    requires ParseOne(fs, codecs, parsers, vo, dst, saveRaw, foutput).Ok?
    ensures var data := Parse(fs, parsers, vo, foutput).value;
      var raw := if saveRaw && |data| > 0 then StoreRaw(fs, codecs, vo, dst, foutput) else Ok((fs, ""));
      var r := ParseOne(fs, codecs, parsers, vo, dst, saveRaw, foutput).value.0;
      var w := WriteFile(raw.value.0, Resolve(raw.value.0.cwd, Join(dst, SidecarName(codecs.hash, data, foutput))),
                         codecs.dump(DictVal(data)));
      raw.Ok? && (|data| > 0 ==> w.Ok? && r == w.value) && (|data| == 0 ==> r == raw.value.0)
  {
  }

  /** A raw file is kept exactly when raw files are wanted and the output
      parsed to something; it is then named by the digest of its bytes and
      the `.gz` extension. */
  lemma ParseOneRawName(fs: FS, codecs: Codecs, parsers: Parsers, vo: VaspOutputs, dst: string,
                        saveRaw: bool, foutput: string)
    requires ParseOne(fs, codecs, parsers, vo, dst, saveRaw, foutput).Ok?
    ensures var data := Parse(fs, parsers, vo, foutput).value;
      var rec := ParseOne(fs, codecs, parsers, vo, dst, saveRaw, foutput).value.1.fields;
      var src := Join(vo.workPath, foutput);
      (Get(rec, "file_name") == Some(PStr("")) <==> !(saveRaw && |data| > 0)) &&
      (saveRaw && |data| > 0 ==>
        IsFile(fs, Resolve(fs.cwd, src)) &&
        Get(rec, "file_name") == Some(PStr(StoredName(codecs.hash, fs.nodes[Resolve(fs.cwd, src)].data, src) + ".gz")))
  {
    ParseOneSteps(fs, codecs, parsers, vo, dst, saveRaw, foutput);
  }

  /** A sidecar is named exactly when the output parsed to something, and
      then by the digest of the dict's text. */
  lemma ParseOneSidecarName(fs: FS, codecs: Codecs, parsers: Parsers, vo: VaspOutputs, dst: string,
                            saveRaw: bool, foutput: string)
    requires ParseOne(fs, codecs, parsers, vo, dst, saveRaw, foutput).Ok?
    ensures var data := Parse(fs, parsers, vo, foutput).value;
      var rec := ParseOne(fs, codecs, parsers, vo, dst, saveRaw, foutput).value.1.fields;
      (Get(rec, "json_file_name") == Some(PStr("")) <==> |data| == 0) &&
      ('/' !in foutput && |data| > 0 ==> Get(rec, "json_file_name") == Some(PStr(SidecarName(codecs.hash, data, foutput))))
  {
    ParseOneSteps(fs, codecs, parsers, vo, dst, saveRaw, foutput);
    var data := Parse(fs, parsers, vo, foutput).value;
    SidecarFieldFacts(codecs.hash, data, dst, foutput);
  }

  lemma SidecarFieldFacts(hash: Hasher, data: StrDict, dst: string, foutput: string)
    ensures SidecarField(hash, data, dst, foutput) == "" <==> |data| == 0
    ensures '/' !in foutput && |data| > 0 ==> SidecarField(hash, data, dst, foutput) == SidecarName(hash, data, foutput)
  {
    if |data| > 0 {
      var n := SidecarName(hash, data, foutput);
      var d := Sha1Encode(hash, DictVal(data));
      assert n == d + ("-" + foutput + ".json");
      assert n[0] == d[0];
      assert n[0] != '/' by { assert IsHexDigit(d[0]); }
      assert n[|n| - 1] == 'n';
      var j := Join(dst, n);
      assert j[|j| - 1] == 'n';
      BasenameNonEmpty(j);
      if '/' !in foutput {
        SidecarPlain(hash, data, foutput);
        JoinBasename(dst, n);
      }
    }
  }

  /** A sidecar name holds no `/` when the output name holds none. */
  lemma SidecarPlain(hash: Hasher, data: StrDict, foutput: string)
    requires '/' !in foutput
    ensures PlainName(SidecarName(hash, data, foutput))
  {
    var d := Sha1Encode(hash, DictVal(data));
    assert '/' !in d by {
      forall i | 0 <= i < |d| ensures d[i] != '/' { assert IsHexDigit(d[i]); }
    }
    var n := SidecarName(hash, data, foutput);
    assert |n| >= 45;
    forall i | 0 <= i < |n| ensures n[i] != '/' {
      if i < 40 { assert n[i] == d[i]; }
      else if i == 40 { assert n[i] == '-'; }
      else if i < 41 + |foutput| { assert n[i] == foutput[i - 41]; }
      else { assert n[i] == ".json"[i - 41 - |foutput|]; }
    }
  }

  /** A path ending in a character other than `/` has a non-empty base name. */
  lemma BasenameNonEmpty(p: string)
    requires |p| > 0 && p[|p| - 1] != '/'
    ensures Basename(p) != ""
  {
  }

  /** The sidecar holds what `dumpfn` writes for the parsed dict. */
  lemma ParseOneSidecar(fs: FS, codecs: Codecs, parsers: Parsers, vo: VaspOutputs, dst: string,
                        saveRaw: bool, foutput: string)
    requires ParseOne(fs, codecs, parsers, vo, dst, saveRaw, foutput).Ok?
    requires |Parse(fs, parsers, vo, foutput).value| > 0
    ensures var data := Parse(fs, parsers, vo, foutput).value;
      var r := ParseOne(fs, codecs, parsers, vo, dst, saveRaw, foutput).value.0;
      var p := Resolve(fs.cwd, Join(dst, SidecarName(codecs.hash, data, foutput)));
      p in r.nodes && r.nodes[p] == File(codecs.dump(DictVal(data)))
  {
    var data := Parse(fs, parsers, vo, foutput).value;
    if saveRaw {
      var t := TransferFile(fs, codecs.hash, codecs.pack, foutput, vo.workPath, dst, true, "base", true, "gz");
      TransferFileFrame(fs, codecs.hash, codecs.pack, foutput, vo.workPath, dst, true, "base", true, "gz");
    }
  }

  /** One pass changes nothing outside the destination directory and keeps
      the tree well formed. */
  lemma ParseOneFrame(fs: FS, codecs: Codecs, parsers: Parsers, vo: VaspOutputs, dst: string,
                      saveRaw: bool, foutput: string)
    requires '/' !in foutput
    requires ParseOne(fs, codecs, parsers, vo, dst, saveRaw, foutput).Ok?
    ensures var r := ParseOne(fs, codecs, parsers, vo, dst, saveRaw, foutput).value.0;
      r.cwd == fs.cwd &&
      (forall q :: !Below(Resolve(fs.cwd, dst), q) ==> Agree(fs, r, q)) &&
      (Valid(fs) ==> Valid(r))
  {
    var dir := Resolve(fs.cwd, dst);
    var data := Parse(fs, parsers, vo, foutput).value;
    var fs1 := fs;
    if saveRaw && |data| > 0 {
      TransferFileFrame(fs, codecs.hash, codecs.pack, foutput, vo.workPath, dst, true, "base", true, "gz");
      fs1 := StoreRaw(fs, codecs, vo, dst, foutput).value.0;
    }
    var r := ParseOne(fs, codecs, parsers, vo, dst, saveRaw, foutput).value.0;
    ParseOneTree(fs, codecs, parsers, vo, dst, saveRaw, foutput);
    if |data| > 0 {
      var n := SidecarName(codecs.hash, data, foutput);
      SidecarPlain(codecs.hash, data, foutput);
      JoinResolve(fs.cwd, dst, n);
      WrittenBelow(fs1, r, dir, n);
    }
    FrameThen(fs, fs1, r, dir);
  }

  /** Writing one file directly inside `dir` leaves everything outside
      `dir` alone. */
  lemma WrittenBelow(fs: FS, r: FS, dir: Path, n: string)
    requires forall q :: q != dir + [n] ==> Agree(fs, r, q)
    ensures forall q :: !Below(dir, q) ==> Agree(fs, r, q)
  {
    assert Below(dir, dir + [n]);
  }

  /** Two steps that each leave everything outside `dir` alone and keep
      the tree well formed leave it alone together. */
  lemma FrameThen(fs: FS, fs1: FS, fs2: FS, dir: Path)
    requires fs1.cwd == fs.cwd && fs2.cwd == fs1.cwd
    requires forall q :: !Below(dir, q) ==> Agree(fs, fs1, q)
    requires forall q :: !Below(dir, q) ==> Agree(fs1, fs2, q)
    requires Valid(fs) ==> Valid(fs1)
    requires Valid(fs1) ==> Valid(fs2)
    ensures forall q :: !Below(dir, q) ==> Agree(fs, fs2, q)
    ensures Valid(fs) ==> Valid(fs2)
  {
  }

  /** The loop of `parse_output` from the given names on, with the records
      made so far in `acc`; a later record for a repeated name replaces the
      earlier one in place. */
  function ParseAll(fs: FS, codecs: Codecs, parsers: Parsers, vo: VaspOutputs, dst: string,
                    saveRaw: bool, names: seq<string>, acc: Dict<string, PyVal>): (r: Result<(FS, Dict<string, PyVal>)>)
    ensures r.Ok? ==> Keys(r.value.1) == KeysAfter(Keys(acc), names)
    ensures r.Ok? && AllRecords(acc) ==> AllRecords(r.value.1)
    decreases |names|
  {
    if |names| == 0 then Ok((fs, acc))
    else
      var one :- ParseOne(fs, codecs, parsers, vo, dst, saveRaw, names[0]);
      ParseAll(one.0, codecs, parsers, vo, dst, saveRaw, names[1..], Put(acc, names[0], one.1))
  }

  /** Every value is a `JFData` record. */
  ghost predicate AllRecords(d: Dict<string, PyVal>) {
    forall k :: Get(d, k).Some? ==> IsJFData(Get(d, k).value)
  }

  predicate IsJFData(v: PyVal) {
    v.PModel? && Keys(v.fields) == Names(JFDataSchema)
  }

  /** `vasprun.xml` popped and its record re-added as `VASPRUN`. */
  function Rekey(d: Dict<string, PyVal>): (r: Dict<string, PyVal>)
    ensures Get(r, "vasprun.xml") == None
    ensures Get(d, "vasprun.xml").Some? ==> Get(r, "VASPRUN") == Get(d, "vasprun.xml")
    ensures Get(d, "vasprun.xml").None? ==> r == d
    ensures forall k :: k != "vasprun.xml" && k != "VASPRUN" ==> Get(r, k) == Get(d, k)
  {
    match Get(d, "vasprun.xml")
    case None => d
    case Some(v) => Put(Remove(d, "vasprun.xml"), "VASPRUN", v)
  }

  /** `parse_output(dst_path, save_raw)` */
  function ParseOutput(fs: FS, codecs: Codecs, parsers: Parsers, vo: VaspOutputs, dst: string,
                       saveRaw: bool): (r: Result<(FS, Dict<string, PyVal>)>)
    ensures r.Ok? ==> var d := r.value.1;
      Get(d, "vasprun.xml").None? &&
      (forall n :: n in vo.foutputs && n != "vasprun.xml" ==> Get(d, n).Some?) &&
      ("vasprun.xml" in vo.foutputs ==> Get(d, "VASPRUN").Some?) &&
      (forall k :: Get(d, k).Some? ==> k in vo.foutputs || k == "VASPRUN")
  {
    var all :- ParseAll(fs, codecs, parsers, vo, dst, saveRaw, vo.foutputs, []);
    ParsedKeys(all.1, vo.foutputs);
    Ok((all.0, Rekey(all.1)))
  }

  /** A dict whose keys are the distinct names in order of first appearance
      holds exactly the names. */
  lemma ParsedKeys(d: Dict<string, PyVal>, names: seq<string>)
    requires Keys(d) == KeysAfter([], names)
    ensures forall k :: Get(d, k).Some? <==> k in names
  {
    KeysAfterContents([], names);
    forall k ensures Get(d, k).Some? <==> k in names {
      GetPresent(d, k);
    }
  }

  /** Parsing changes nothing outside the destination directory and keeps
      the tree well formed, provided no output name holds a `/`. */
  lemma {:induction false} ParseAllFrame(fs: FS, codecs: Codecs, parsers: Parsers, vo: VaspOutputs, dst: string,
                                         saveRaw: bool, names: seq<string>, acc: Dict<string, PyVal>)
    requires forall k :: 0 <= k < |names| ==> '/' !in names[k]
    requires ParseAll(fs, codecs, parsers, vo, dst, saveRaw, names, acc).Ok?
    ensures var r := ParseAll(fs, codecs, parsers, vo, dst, saveRaw, names, acc).value.0;
      r.cwd == fs.cwd &&
      (forall q :: !Below(Resolve(fs.cwd, dst), q) ==> Agree(fs, r, q)) &&
      (Valid(fs) ==> Valid(r))
    decreases |names|
  {
    if |names| > 0 {
      var one := ParseOne(fs, codecs, parsers, vo, dst, saveRaw, names[0]).value;
      ParseOneFrame(fs, codecs, parsers, vo, dst, saveRaw, names[0]);
      ParseAllFrame(one.0, codecs, parsers, vo, dst, saveRaw, names[1..], Put(acc, names[0], one.1));
    }
  }

  // ------------------------------------------------------------- OutputData

  const OutputDataSchema: Schema := [
    Field("VASPRUN", Some(EmptyJFData())),
    Field("OSZICAR", Some(EmptyJFData())),
    Field("OUTCAR", Some(EmptyJFData())),
    Field("CONTCAR", Some(EmptyJFData())),
    Field("PROCAR", Some(EmptyJFData())),
    Field("ELFCAR", Some(EmptyJFData())),
    Field("LOCPOT", Some(EmptyJFData()))
  ]

  const DefaultFields: seq<string> := ["VASPRUN", "OSZICAR", "OUTCAR", "CONTCAR"]

  /** `OutputData.from_directory(task_dir, dst_dir, fields)`: the outputs
      parsed with raw files kept, as the record's fields; outputs the
      record does not declare are dropped and undeclared fields keep an
      empty `JFData`. */
  function OutputDataFromDirectory(fs: FS, codecs: Codecs, parsers: Parsers, taskDir: string, dstDir: string,
                                   fields: Option<seq<string>>): (r: Result<(FS, StrDict)>)
    ensures r.Ok? ==> Keys(r.value.1) == Names(OutputDataSchema) && |r.value.1| == 7
    ensures r.Ok? ==> forall i :: 0 <= i < |r.value.1| ==> IsJFData(r.value.1[i].1)
  {
    var vo := NewVaspOutputs(fs, taskDir, fields.GetOr(DefaultFields), "", true, false, []);
    var parsed :- ParseOutput(fs, codecs, parsers, vo, dstDir, true);
    OutputDataDefaults(Keys(parsed.1));
    ParseOutputRecords(fs, codecs, parsers, vo, dstDir, true);
    OutputDataRecords(parsed.1);
    Ok((parsed.0, Construct(OutputDataSchema, parsed.1).value))
  }

  /** `OutputData.from_directory` changes nothing outside the destination
      directory, keeps the working directory and keeps the tree well
      formed: none of the default output names holds a `/`. */
  lemma OutputDataFrame(fs: FS, codecs: Codecs, parsers: Parsers, taskDir: string, dstDir: string)
    requires OutputDataFromDirectory(fs, codecs, parsers, taskDir, dstDir, None).Ok?
    ensures var r := OutputDataFromDirectory(fs, codecs, parsers, taskDir, dstDir, None).value.0;
      r.cwd == fs.cwd &&
      (forall q :: !Below(Resolve(fs.cwd, dstDir), q) ==> Agree(fs, r, q)) &&
      (Valid(fs) ==> Valid(r))
  {
    var vo := NewVaspOutputs(fs, taskDir, DefaultFields, "", true, false, []);
    DefaultNamesPlain();
    ParseAllFrame(fs, codecs, parsers, vo, dstDir, true, vo.foutputs, []);
  }

  lemma DefaultNamesPlain()
    ensures var ns := OutputNames(DefaultFields, "");
      forall k :: 0 <= k < |ns| ==> '/' !in ns[k]
  {
    DefaultNames();
    var ns := ["vasprun.xml", "OSZICAR", "OUTCAR", "CONTCAR"];
    assert '/' !in ns[0] && '/' !in ns[1] && '/' !in ns[2] && '/' !in ns[3];
  }

  /** Built from `JFData` records, every field of `OutputData` is one. */
  lemma OutputDataRecords(parsed: Dict<string, PyVal>)
    requires AllRecords(parsed)
    ensures Construct(OutputDataSchema, parsed).Ok?
    ensures var rec := Construct(OutputDataSchema, parsed).value;
      forall i :: 0 <= i < |rec| ==> IsJFData(rec[i].1)
  {
    OutputDataDefaults(Keys(parsed));
    var rec := Construct(OutputDataSchema, parsed).value;
    var e := EmptyJFData();
    assert forall i :: 0 <= i < |OutputDataSchema| ==> OutputDataSchema[i].default == Some(e);
    forall i | 0 <= i < |rec| ensures IsJFData(rec[i].1) {
      var n := OutputDataSchema[i].name;
      if Get(parsed, n).Some? {
        assert rec[i].1 == Get(parsed, n).value;
      } else {
        assert rec[i].1 == e;
      }
    }
  }

  /** Every value `parse_output` returns is a `JFData` record. */
  lemma ParseOutputRecords(fs: FS, codecs: Codecs, parsers: Parsers, vo: VaspOutputs, dst: string, saveRaw: bool)
    requires ParseOutput(fs, codecs, parsers, vo, dst, saveRaw).Ok?
    ensures AllRecords(ParseOutput(fs, codecs, parsers, vo, dst, saveRaw).value.1)
  {
    var empty: Dict<string, PyVal> := [];
    assert AllRecords(empty);
    var all := ParseAll(fs, codecs, parsers, vo, dst, saveRaw, vo.foutputs, empty).value.1;
    RekeyRecords(all);
  }

  lemma RekeyRecords(d: Dict<string, PyVal>)
    requires AllRecords(d)
    ensures AllRecords(Rekey(d))
  {
    MovedKeepsRecords(d, Rekey(d), "vasprun.xml", "VASPRUN");
  }

  /** Moving one value from key `a` to key `b` keeps every value a record. */
  lemma MovedKeepsRecords(d: Dict<string, PyVal>, r: Dict<string, PyVal>, a: string, b: string)
    requires AllRecords(d)
    requires Get(r, a) == None
    requires Get(d, a).Some? ==> Get(r, b) == Get(d, a)
    requires Get(d, a).None? ==> r == d
    requires forall k :: k != a && k != b ==> Get(r, k) == Get(d, k)
    ensures AllRecords(r)
  {
    forall k | Get(r, k).Some? ensures IsJFData(Get(r, k).value) {
      if k == b && Get(d, a).Some? {
        assert Get(r, k) == Get(d, a);
      }
    }
  }

  /** With the default fields, `VASPRUN`, `OSZICAR`, `OUTCAR` and `CONTCAR`
      hold the records parsing made and the other fields stay empty. */
  lemma OutputDataDefaultFields(fs: FS, codecs: Codecs, parsers: Parsers, taskDir: string, dstDir: string)
    requires OutputDataFromDirectory(fs, codecs, parsers, taskDir, dstDir, None).Ok?
    ensures var vo := NewVaspOutputs(fs, taskDir, DefaultFields, "", true, false, []);
      var parsed := ParseOutput(fs, codecs, parsers, vo, dstDir, true).value.1;
      var rec := OutputDataFromDirectory(fs, codecs, parsers, taskDir, dstDir, None).value.1;
      vo.foutputs == ["vasprun.xml", "OSZICAR", "OUTCAR", "CONTCAR"] &&
      (forall i :: 0 <= i < 4 ==> Get(parsed, OutputDataSchema[i].name).Some? &&
                                  rec[i].1 == Get(parsed, OutputDataSchema[i].name).value) &&
      (forall i :: 4 <= i < 7 ==> rec[i].1 == EmptyJFData())
  {
    var vo := NewVaspOutputs(fs, taskDir, DefaultFields, "", true, false, []);
    DefaultNames();
    var parsed := ParseOutput(fs, codecs, parsers, vo, dstDir, true).value.1;
    ParsedDefaultKeys(parsed, vo.foutputs);
    OutputDataFromParsed(parsed);
    var r := OutputDataFromDirectory(fs, codecs, parsers, taskDir, dstDir, None);
    assert r.value.1 == Construct(OutputDataSchema, parsed).value;
  }

  /** Every field of `OutputData` has a default, so any keywords do. */
  lemma OutputDataDefaults(ks: seq<string>)
    ensures Supplied(OutputDataSchema, ks)
  {
    var e := EmptyJFData();
    assert OutputDataSchema == [
      Field("VASPRUN", Some(e)), Field("OSZICAR", Some(e)), Field("OUTCAR", Some(e)),
      Field("CONTCAR", Some(e)), Field("PROCAR", Some(e)), Field("ELFCAR", Some(e)), Field("LOCPOT", Some(e))];
  }

  lemma DefaultNames()
    ensures OutputNames(DefaultFields, "") == ["vasprun.xml", "OSZICAR", "OUTCAR", "CONTCAR"]
  {
    assert FirstIndex(DefaultFields, "VASPRUN") == 0;
  }

  lemma ParsedDefaultKeys(d: Dict<string, PyVal>, names: seq<string>)
    requires names == ["vasprun.xml", "OSZICAR", "OUTCAR", "CONTCAR"]
    requires forall n :: n in names && n != "vasprun.xml" ==> Get(d, n).Some?
    requires "vasprun.xml" in names ==> Get(d, "VASPRUN").Some?
    requires forall k :: Get(d, k).Some? ==> k in names || k == "VASPRUN"
    ensures Get(d, "VASPRUN").Some? && Get(d, "OSZICAR").Some? && Get(d, "OUTCAR").Some? && Get(d, "CONTCAR").Some?
    ensures Get(d, "PROCAR").None? && Get(d, "ELFCAR").None? && Get(d, "LOCPOT").None?
  {
    assert "OSZICAR" in names && "OUTCAR" in names && "CONTCAR" in names;
  }

  lemma OutputDataFromParsed(d: Dict<string, PyVal>)
    requires Get(d, "VASPRUN").Some? && Get(d, "OSZICAR").Some? && Get(d, "OUTCAR").Some? && Get(d, "CONTCAR").Some?
    requires Get(d, "PROCAR").None? && Get(d, "ELFCAR").None? && Get(d, "LOCPOT").None?
    ensures Construct(OutputDataSchema, d).Ok?
    ensures var rec := Construct(OutputDataSchema, d).value;
      |rec| == 7 &&
      (forall i :: 0 <= i < 4 ==> Get(d, OutputDataSchema[i].name).Some? &&
                                  rec[i].1 == Get(d, OutputDataSchema[i].name).value) &&
      (forall i :: 4 <= i < 7 ==> rec[i].1 == EmptyJFData())
  {
    OutputDataDefaults(Keys(d));
    var e := EmptyJFData();
    assert forall i :: 0 <= i < |OutputDataSchema| ==> OutputDataSchema[i].default == Some(e);
  }
}
