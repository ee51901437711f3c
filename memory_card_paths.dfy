/**
 * Derivation of a cartridge's memory-card path from the host's save
 * directory (GetMemoryCardPath in libretro.cpp).  Both inputs have their
 * backslashes rewritten to forward slashes; the card is named after the
 * cartridge's file name without its last extension, placed in the save
 * directory, with the extension ".memc".
 */
module MemoryCardPaths {
  import opened Wrappers

  const Slash: char := '/'
  const Backslash: char := '\\'
  const Dot: char := '.'
  const CardExtension: string := ".memc"

  function UnifiedChar(c: char): char {
    if c == Backslash then Slash else c
  }

  /** `s` with every backslash turned into a forward slash, position by position. */
  function Unified(s: string): (r: string)
    ensures |r| == |s|
    ensures forall i :: 0 <= i < |s| ==> r[i] == UnifiedChar(s[i])
  {
    if s == [] then [] else Unified(s[..|s| - 1]) + [UnifiedChar(s[|s| - 1])]
  }

  /** The separator loop of GetMemoryCardPath, run on a copy of `s`. */
  method UnifySeparators(s: string) returns (r: string)
    ensures r == Unified(s)
  {
    r := s;
    var i := 0;
    while i < |r|
      invariant |r| == |s| && 0 <= i <= |r|
      invariant forall k :: 0 <= k < i ==> r[k] == UnifiedChar(s[k])
      invariant r[i..] == s[i..]
    {
      if r[i] == Backslash {
        r := r[i := Slash];
      }
      i := i + 1;
    }
  }

  /** `std::string::rfind(c)`: the position of the last `c` in `s`, None for `npos`. */
  function LastIndexOf(s: string, c: char): (r: Option<nat>)
    ensures r.None? <==> c !in s
    ensures r.Some? ==> r.value < |s| && s[r.value] == c && c !in s[r.value + 1..]
  {
    if s == [] then None
    else if s[|s| - 1] == c then Some(|s| - 1)
    else
      assert s == s[..|s| - 1] + [s[|s| - 1]];
      LastIndexOf(s[..|s| - 1], c)
  }

  /** `std::string::substr(pos, count)`: at most `count` characters from `pos` on. */
  function Substr(s: string, pos: nat, count: nat): string
    requires pos <= |s|
  {
    s[pos..if pos + count <= |s| then pos + count else |s|]
  }

  /** The file name of a (unified) path: what follows its last slash. */
  function FileName(path: string): string {
    match LastIndexOf(path, Slash)
    case None => path
    case Some(k) => Substr(path, k + 1, |path| - 1)
  }

  /** A file name cut before its last dot, if it has one. */
  function Stem(fileName: string): string {
    match LastIndexOf(fileName, Dot)
    case None => fileName
    case Some(k) => Substr(fileName, 0, k)
  }

  /** The path GetMemoryCardPath returns, for a save directory the host supplied. */
  function MemoryCardPath(saveDirectory: string, cartridgePath: string): string {
    Unified(saveDirectory) + [Slash] + Stem(FileName(Unified(cartridgePath))) + CardExtension
  }

  /** GetMemoryCardPath with its two separator loops and its two `rfind` cuts. */
  method GetMemoryCardPath(saveDirectory: string, cartridgePath: string) returns (path: string)
    ensures path == MemoryCardPath(saveDirectory, cartridgePath)
  {
    var saveDirectoryUnified := UnifySeparators(saveDirectory);
    var cartridgePathUnified := UnifySeparators(cartridgePath);
    var fileName;
    match LastIndexOf(cartridgePathUnified, Slash) {
      case None =>
        fileName := cartridgePathUnified;
      case Some(slashPosition) =>
        fileName := Substr(cartridgePathUnified, slashPosition + 1, |cartridgePathUnified| - 1);
    }
    assert fileName == FileName(Unified(cartridgePath));
    var stem;
    match LastIndexOf(fileName, Dot) {
      case None =>
        stem := fileName;
      case Some(dotPosition) =>
        stem := Substr(fileName, 0, dotPosition);
    }
    assert stem == Stem(fileName);
    path := saveDirectoryUnified + [Slash] + stem + CardExtension;
  }

  // ---------------------------------------------------------------------------
  // Declarative descriptions of the two cuts, and the lemmas tying them to the
  // functions above.

  /** `name` is the last segment of `path`: a slash-free suffix that is either the
      whole path or preceded by a slash. */
  ghost predicate IsLastSegment(path: string, name: string) {
    |name| <= |path| && path[|path| - |name|..] == name && Slash !in name &&
    (|name| < |path| ==> path[|path| - |name| - 1] == Slash)
  }

  /** `stem` is `name` without its last extension: the whole name when it has no dot,
      otherwise the prefix that stops at a dot after which no dot follows. */
  ghost predicate IsStemOf(name: string, stem: string) {
    (stem == name && Dot !in name) ||
    (|stem| < |name| && name[..|stem|] == stem && name[|stem|] == Dot && Dot !in name[|stem| + 1..])
  }

  lemma {:induction false} FileNameIsLastSegment(path: string, name: string)
    ensures IsLastSegment(path, name) <==> name == FileName(path)
  {
    var f := FileName(path);
    match LastIndexOf(path, Slash) {
      case None =>
        assert f == path;
      case Some(k) =>
        assert f == path[k + 1..];
    }
    assert IsLastSegment(path, f);
    if IsLastSegment(path, name) {
      SegmentsAgree(path, name, f);
      SegmentsAgree(path, f, name);
    }
  }

  lemma SegmentsAgree(path: string, short: string, long: string)
    requires IsLastSegment(path, short) && IsLastSegment(path, long) && |short| <= |long|
    ensures short == long
  {
  }

  lemma {:induction false} StemIsBeforeLastDot(name: string, stem: string)
    ensures IsStemOf(name, stem) <==> stem == Stem(name)
  {
    var s := Stem(name);
    match LastIndexOf(name, Dot) {
      case None =>
        assert s == name;
      case Some(k) =>
        assert s == name[..k];
    }
    assert IsStemOf(name, s);
    if IsStemOf(name, stem) {
      StemsAgree(name, stem, s);
      StemsAgree(name, s, stem);
    }
  }

  lemma StemsAgree(name: string, short: string, long: string)
    requires IsStemOf(name, short) && IsStemOf(name, long) && |short| <= |long|
    ensures short == long
  {
  }

  /** The card path is the unified save directory, a slash, the stem of the last
      segment of the unified cartridge path, and ".memc". */
  lemma MemoryCardPathFromSegments(saveDirectory: string, cartridgePath: string, name: string, stem: string)
    requires IsLastSegment(Unified(cartridgePath), name) && IsStemOf(name, stem)
    ensures MemoryCardPath(saveDirectory, cartridgePath) == Unified(saveDirectory) + "/" + stem + ".memc"
  {
    FileNameIsLastSegment(Unified(cartridgePath), name);
    StemIsBeforeLastDot(name, stem);
  }

  lemma {:induction false} UnifiedIsIdempotent(s: string)
    ensures Unified(Unified(s)) == Unified(s)
  {
    var u := Unified(s);
    assert forall i :: 0 <= i < |u| ==> Unified(u)[i] == UnifiedChar(u[i]) == u[i];
  }

  lemma UnifiedHasNoBackslash(s: string)
    ensures Backslash !in Unified(s)
  {
    var u := Unified(s);
    forall i | 0 <= i < |u| ensures u[i] != Backslash {
      assert u[i] == UnifiedChar(s[i]);
    }
  }

  lemma StemOfFileNameKeepsOut(path: string, c: char)
    requires c !in path
    ensures c !in Stem(FileName(path))
  {
    var name := FileName(path);
    var stem := Stem(name);
    FileNameIsLastSegment(path, name);
    StemIsBeforeLastDot(name, stem);
    assert c !in name by {
      forall i | 0 <= i < |name| ensures name[i] != c {
        assert name[i] == path[|path| - |name| + i];
      }
    }
    forall i | 0 <= i < |stem| ensures stem[i] != c {
      assert stem[i] == name[i];
    }
  }

  /** The card path holds no backslash, so feeding it inputs whose backslashes were
      already rewritten changes nothing. */
  lemma MemoryCardPathIsSeparatorNeutral(saveDirectory: string, cartridgePath: string)
    ensures Backslash !in MemoryCardPath(saveDirectory, cartridgePath)
    ensures MemoryCardPath(Unified(saveDirectory), Unified(cartridgePath))
         == MemoryCardPath(saveDirectory, cartridgePath)
  {
    UnifiedIsIdempotent(saveDirectory);
    UnifiedIsIdempotent(cartridgePath);
    UnifiedHasNoBackslash(saveDirectory);
    UnifiedHasNoBackslash(cartridgePath);
    StemOfFileNameKeepsOut(Unified(cartridgePath), Backslash);
    var dir, stem := Unified(saveDirectory), Stem(FileName(Unified(cartridgePath)));
    var r := MemoryCardPath(saveDirectory, cartridgePath);
    assert r == dir + [Slash] + stem + CardExtension;
    forall i | 0 <= i < |r| ensures r[i] != Backslash {
      if i < |dir| {
        assert r[i] == dir[i];
      } else if |dir| < i < |dir| + 1 + |stem| {
        assert r[i] == stem[i - |dir| - 1];
      }
    }
  }

  lemma UnifiedKeepsForwardPaths(s: string)
    requires Backslash !in s
    ensures Unified(s) == s
  {
    assert forall i :: 0 <= i < |s| ==> Unified(s)[i] == s[i];
  }

  lemma LastSegmentAfterFolder(folder: string, name: string)
    requires folder == [] || folder[|folder| - 1] == Slash
    requires Slash !in name
    ensures IsLastSegment(folder + name, name)
  {
    var path := folder + name;
    assert path[|path| - |name|..] == name;
    if |name| < |path| {
      assert path[|path| - |name| - 1] == folder[|folder| - 1];
    }
  }

  lemma StemBeforeExtension(base: string, extension: string)
    requires Dot !in extension
    ensures IsStemOf(base + [Dot] + extension, base)
  {
    var name := base + [Dot] + extension;
    assert name[..|base|] == base;
    assert name[|base| + 1..] == extension;
  }

  /** Rewriting the separators of just one of the two inputs beforehand changes
      nothing either. */
  lemma MemoryCardPathIgnoresPriorUnify(saveDirectory: string, cartridgePath: string)
    ensures MemoryCardPath(Unified(saveDirectory), cartridgePath) == MemoryCardPath(saveDirectory, cartridgePath)
    ensures MemoryCardPath(saveDirectory, Unified(cartridgePath)) == MemoryCardPath(saveDirectory, cartridgePath)
  {
    UnifiedIsIdempotent(saveDirectory);
    UnifiedIsIdempotent(cartridgePath);
  }

  /** Where a cartridge path (forward slashes only) is a folder part that is empty or
      ends in a slash, then a base name, then a dot and an extension free of dots, the
      card is the base name, which may itself be empty or contain dots, plus ".memc"
      in the save directory.  A save directory that ends in a slash keeps it, so the
      card path then holds a double slash. */
  lemma MemoryCardPathReplacesExtension(saveDirectory: string, folder: string, base: string, extension: string)
    requires Backslash !in saveDirectory && Backslash !in folder && Backslash !in base && Backslash !in extension
    requires folder == [] || folder[|folder| - 1] == Slash
    requires Slash !in base && Slash !in extension && Dot !in extension
    ensures MemoryCardPath(saveDirectory, folder + base + [Dot] + extension)
         == saveDirectory + [Slash] + base + CardExtension
  {
    var name := base + [Dot] + extension;
    assert folder + base + [Dot] + extension == folder + name;
    assert Backslash !in folder + name;
    UnifiedKeepsForwardPaths(saveDirectory);
    UnifiedKeepsForwardPaths(folder + name);
    LastSegmentAfterFolder(folder, name);
    StemBeforeExtension(base, extension);
    MemoryCardPathFromSegments(saveDirectory, folder + name, name, base);
  }

  /** A file name without a dot is used whole. */
  lemma MemoryCardPathKeepsBareName(saveDirectory: string, folder: string, name: string)
    requires Backslash !in saveDirectory && Backslash !in folder && Backslash !in name
    requires folder == [] || folder[|folder| - 1] == Slash
    requires Slash !in name && Dot !in name
    ensures MemoryCardPath(saveDirectory, folder + name) == saveDirectory + [Slash] + name + CardExtension
  {
    assert Backslash !in folder + name;
    UnifiedKeepsForwardPaths(saveDirectory);
    UnifiedKeepsForwardPaths(folder + name);
    LastSegmentAfterFolder(folder, name);
    MemoryCardPathFromSegments(saveDirectory, folder + name, name, name);
  }
}
