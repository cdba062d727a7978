/** `structure_from_file`: the reader a structure file is handed to is
    chosen from its base name alone. The readers themselves (pymatgen's
    `Structure.from_file` and ASE's `read`) are parameters. */
module ReadStructure {
  import opened Results
  import opened Strings
  import opened FileSystem

  datatype Reader =
    | PymatgenReader  // `Structure.from_file`
    | AbinitReader    // `AbinitInput`, whose import is commented out
    | AseReader       // `AseAtomsAdaptor().get_structure(read(filename))`

  /** The name tests in the order the code makes them, each on the
      lower-cased base name: last four characters `json`, last three `cif`,
      contains `poscar`, contains `contcar`, contains `abinit`. */
  function ReaderFor(basename: string): (r: Reader)
    ensures var low := Lower(basename);
      r.PymatgenReader? <==> EndsWith(low, "json") || EndsWith(low, "cif")
                             || Contains(low, "poscar") || Contains(low, "contcar")
    ensures var low := Lower(basename);
      r.AbinitReader? <==> !r.PymatgenReader? && Contains(low, "abinit")
  {
    SuffixTest(basename, "json");
    SuffixTest(basename, "cif");
    if Lower(Tail(basename, 4)) == "json" then PymatgenReader
    else if Lower(Tail(basename, 3)) == "cif" then PymatgenReader
    else if Contains(Lower(basename), "poscar") then PymatgenReader
    else if Contains(Lower(basename), "contcar") then PymatgenReader
    else if Contains(Lower(basename), "abinit") then AbinitReader
    else AseReader
  }

  /** `name[-n:].lower() == p` is the suffix test `name.lower().endswith(p)`
      for a lower-case `p` of length `n`. */
  lemma SuffixTest(name: string, p: string)
    requires |p| > 0
    ensures Lower(Tail(name, |p|)) == p <==> EndsWith(Lower(name), p)
  {
    var low := Lower(name);
    if |name| >= |p| {
      assert Lower(Tail(name, |p|)) == low[|low| - |p|..];
    } else {
      assert |Lower(Tail(name, |p|))| < |p|;
    }
  }

  /** `structure_from_file(filename)`: a name that is not a file is refused
      before any reader runs; the abinit branch names a class that was never
      imported; a `ValueError` from ASE is re-raised with a fixed message,
      and any other failure passes through. */
  function StructureFromFile<S>(fs: FS, filename: string,
                                fromFile: string -> Result<S>, aseRead: string -> Result<S>): (r: Result<S>)
    ensures !IsFile(fs, Resolve(fs.cwd, filename)) ==>
      r == Err(ValueError("ERROR: Could not open file '" + filename + "'"))
    ensures IsFile(fs, Resolve(fs.cwd, filename)) ==>
      match ReaderFor(Basename(filename))
      case PymatgenReader => r == fromFile(filename)
      case AbinitReader => r == Err(NameError("AbinitInput"))
      case AseReader =>
        (aseRead(filename).Ok? ==> r == aseRead(filename)) &&
        (aseRead(filename).Err? && aseRead(filename).error.ValueError? ==>
           r == Err(ValueError("Could not convert file as POSCAR"))) &&
        (aseRead(filename).Err? && !aseRead(filename).error.ValueError? ==> r == aseRead(filename))
  {
    if !IsFile(fs, Resolve(fs.cwd, filename)) then
      Err(ValueError("ERROR: Could not open file '" + filename + "'"))
    else
      match ReaderFor(Basename(filename))
      case PymatgenReader => fromFile(filename)
      case AbinitReader => Err(NameError("AbinitInput"))
      case AseReader =>
        var st := aseRead(filename);
        if st.Err? && st.error.ValueError? then Err(ValueError("Could not convert file as POSCAR"))
        else st
  }

  /** The suffix tests look for no dot: `xjson` is read as JSON. */
  lemma SuffixNeedsNoDot()
    ensures ReaderFor("xjson") == PymatgenReader
  {
    assert Tail("xjson", 4) == "json";
  }

  /** The suffix tests ignore case. */
  lemma SuffixIgnoresCase()
    ensures ReaderFor("a.CIF") == PymatgenReader
  {
    assert Tail("a.CIF", 4) == ".CIF";
    assert Tail("a.CIF", 3) == "CIF";
    assert Lower("CIF") == "cif";
  }

  /** Only the base name is tested: a directory called `POSCAR` does not
      make the files in it POSCARs. */
  lemma DirectoryNameIgnored()
    ensures Basename("POSCAR/run.xyz") == "run.xyz"
  {
    assert "POSCAR/run.xyz" == "POSCAR/" + "run.xyz";
    BasenameAppend("POSCAR/", "run.xyz");
  }

  /** An earlier test wins: a POSCAR named after abinit is still a POSCAR. */
  lemma PoscarBeforeAbinit()
    ensures ReaderFor("POSCAR.abinit") == PymatgenReader
  {
    assert Lower("POSCAR.abinit")[..6] == "poscar";
  }
}
