/** What the seals determine (`src/edge_evidence/bundle.py:369-443`). */
module BundleSeals {
  import opened Libraries
  import opened Bundles
  import C = Checksums

  /** The digests of a directory's sealed files. */
  function SealOf(lib: Library, files: Files): C.Entries
    requires Names(EXPECTED) <= files.Keys
  {
    SealedNames();
    map name | name in Names(SEALED) :: lib.sha256(files[name])
  }

  lemma ValidHasNoProblems(lib: Library, files: Files)
    ensures Valid(Verify(lib, files)) ==> files.Keys == Names(EXPECTED) && ChecksumProblems(lib, files) == {}
  {
    hide ChecksumProblems, SemanticProblems, TextProblems, ParseAll, AllRead, BundleIdOf;
    FileSetComplete(files);
  }

  lemma FirstErrorReported(errors: seq<C.ChecksumError>)
    ensures errors == [] || Checksums(errors[0]) in Reported(errors)
  {
    if errors != [] { assert errors[0] in errors; }
  }

  /** What an absence of checksum problems means. */
  ghost predicate Sealed(lib: Library, files: Files) {
    && files.Keys == Names(EXPECTED)
    && Content(files, ChecksumFile) == lib.utf8(C.Render(SealOf(lib, files)))
    && C.Parse(lib, Content(files, ChecksumFile)).entries == SealOf(lib, files)
  }

  lemma NoProblemsIsSealed(lib: Library, files: Files)
    requires lib.Lawful() && files.Keys == Names(EXPECTED)
    ensures ChecksumProblems(lib, files) == {} ==> Sealed(lib, files)
  {
    hide FileName, C.Parse, C.Render;
    SealedNames();
    var parsed, problems := C.Parse(lib, Content(files, ChecksumFile)), ChecksumProblems(lib, files);
    if problems == {} {
      FirstErrorReported(parsed.errors);
      assert parsed.errors == [];
      forall name | name in Names(SEALED)
        ensures name in parsed.entries && parsed.entries[name] == lib.sha256(files[name])
      {
        var a :| a in SEALED && FileName(a) == name;
        assert ChecksumMismatch(a) !in problems;
        assert Listed(lib, files, parsed.entries, a);
      }
      assert parsed.entries == SealOf(lib, files);
      C.ParsesIffPrinted(lib, Content(files, ChecksumFile));
    }
  }

  /** The checksum file of a valid bundle is the printed seal of its other files. */
  lemma ValidIsSealed(lib: Library, files: Files)
    requires lib.Lawful()
    ensures Valid(Verify(lib, files)) ==> Sealed(lib, files)
  {
    hide Verify, ChecksumProblems, Sealed;
    ValidHasNoProblems(lib, files);
    if files.Keys == Names(EXPECTED) {
      NoProblemsIsSealed(lib, files);
    }
  }

  /** Two valid bundles with the same sealed files are the same bundle. */
  lemma SealedFilesDetermine(lib: Library, files: Files, other: Files)
    requires lib.Lawful()
    requires forall name | name in Names(SEALED) && name in files && name in other :: files[name] == other[name]
    ensures Valid(Verify(lib, files)) && Valid(Verify(lib, other)) ==> files == other
  {
    hide Verify, Sealed;
    ValidIsSealed(lib, files);
    ValidIsSealed(lib, other);
    if Sealed(lib, files) && Sealed(lib, other) {
      SameSealedFiles(lib, files, other);
    }
  }

  lemma SameSealedFiles(lib: Library, files: Files, other: Files)
    requires Sealed(lib, files) && Sealed(lib, other)
    requires forall name | name in Names(SEALED) && name in files && name in other :: files[name] == other[name]
    ensures files == other
  {
    hide C.Parse, C.Render, FileName;
    SealedNames();
    assert SealOf(lib, files) == SealOf(lib, other);
    forall name | name in files ensures files[name] == other[name] {
      NameIsSealedOrChecksums(name);
    }
  }

  lemma NameIsSealedOrChecksums(name: string)
    requires name in Names(EXPECTED)
    ensures name in Names(SEALED) || name == FileName(ChecksumFile)
  {
    var a :| a in EXPECTED && FileName(a) == name;
    assert a in SEALED || a == ChecksumFile;
  }

  ghost function ContentsOf(files: Files, other: Files): iset<Bytes> {
    iset b | b in files.Values || b in other.Values
  }

  /** Absent hash collisions, two valid bundles with the same checksum file are the same bundle. */
  lemma ChecksumFileDetermines(lib: Library, files: Files, other: Files)
    requires lib.Lawful() && NoCollision(lib, ContentsOf(files, other))
    requires FileName(ChecksumFile) in files && FileName(ChecksumFile) in other
    requires files[FileName(ChecksumFile)] == other[FileName(ChecksumFile)]
    ensures Valid(Verify(lib, files)) && Valid(Verify(lib, other)) ==> files == other
  {
    hide Verify, Sealed;
    ValidIsSealed(lib, files);
    ValidIsSealed(lib, other);
    if Sealed(lib, files) && Sealed(lib, other) {
      SameChecksumFile(lib, files, other);
    }
  }

  lemma SameChecksumFile(lib: Library, files: Files, other: Files)
    requires Sealed(lib, files) && Sealed(lib, other) && NoCollision(lib, ContentsOf(files, other))
    requires Content(files, ChecksumFile) == Content(other, ChecksumFile)
    ensures files == other
  {
    hide C.Parse, C.Render, FileName;
    SealedNames();
    var seal, otherSeal := SealOf(lib, files), SealOf(lib, other);
    assert seal == otherSeal;
    forall name | name in Names(SEALED) ensures files[name] == other[name] {
      assert seal[name] == otherSeal[name];
      assert files[name] in files.Values && other[name] in other.Values;
    }
    SameSealedFiles(lib, files, other);
  }

  /** Two sealed directories cannot differ in one file alone. */
  lemma ChangeKeepsNothingElse(lib: Library, files: Files, name: string, content: Bytes)
    requires name in files && Sealed(lib, files) && Sealed(lib, files[name := content])
    requires NoCollision(lib, iset{content, files[name]})
    ensures content == files[name]
  {
    hide C.Parse, C.Render, FileName;
    var changed := files[name := content];
    SealedNames();
    NameIsSealedOrChecksums(name);
    ChecksumsAreNotSealed();
    var seal, changedSeal := SealOf(lib, files), SealOf(lib, changed);
    assert seal == changedSeal;
    if name in Names(SEALED) {
      assert seal[name] == changedSeal[name];
    }
  }

  /** Changing exactly one file of a valid bundle, to content of another digest, makes it invalid. */
  lemma OneChangedFileIsDetected(lib: Library, files: Files, name: string, content: Bytes)
    requires lib.Lawful() && name in files
    requires content != files[name] && NoCollision(lib, iset{content, files[name]})
    ensures Valid(Verify(lib, files)) ==> !Valid(Verify(lib, files[name := content]))
  {
    hide Verify, Sealed;
    var changed := files[name := content];
    ValidIsSealed(lib, files);
    ValidIsSealed(lib, changed);
    if Sealed(lib, files) && Sealed(lib, changed) {
      ChangeKeepsNothingElse(lib, files, name, content);
    }
  }

  lemma ChecksumsAreNotSealed()
    ensures FileName(ChecksumFile) !in Names(SEALED)
  {
    hide FileName;
    forall a | a in SEALED ensures FileName(a) != FileName(ChecksumFile) {
      FileNamesDistinct(a, ChecksumFile);
    }
  }

  /** Nor can a valid bundle gain or lose a file. */
  lemma FileSetIsFixed(lib: Library, files: Files, other: Files)
    requires other.Keys != files.Keys
    ensures Valid(Verify(lib, files)) ==> !Valid(Verify(lib, other))
  {
    hide Verify;
    ValidHasNoProblems(lib, files);
    ValidHasNoProblems(lib, other);
  }
}
