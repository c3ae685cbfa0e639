/**
 Which relative directories stay inside a recording root (src/util/SubDirectoryUtil.ts, with
 the POSIX separator), and which outputs lie inside a parent directory
 (`isInsideParentDirectory` in src/model/ServiceChildTerminationCleanup.ts).
 */
module SubDirectory {
  import opened PathComponents

  const UP_PREFIX := "../"

  function StripLeadingSeparators(path: string): string {
    if path != "" && path[0] == SLASH then StripLeadingSeparators(path[1..]) else path
  }

  function Parts(r: Relative): seq<string> {
    Ups(r.ups) + r.names
  }

  function Ups(n: nat): (ups: seq<string>)
    ensures |ups| == n && forall i :: 0 <= i < n ==> ups[i] == ".."
  {
    if n == 0 then [] else [".."] + Ups(n - 1)
  }

  /** A relative path in normal form: resolved, with a trailing slash kept and `.` for nothing. */
  function Normalize(path: string): string {
    if path == "" then "."
    else
      var body := Join(Parts(Resolve(Relative(0, []), Split(path))));
      var trailing := path[|path| - 1] == SLASH;
      if body == "" then if trailing then "./" else "."
      else if trailing then body + [SLASH] else body
  }

  predicate IsSubDirectoryInsideRoot(subDirectory: string) {
    if '\0' in subDirectory then false
    else
      var stripped := StripLeadingSeparators(subDirectory);
      if stripped != "" && stripped[0] == SLASH then false
      else
        var normalized := Normalize(stripped);
        normalized != ".." && !(UP_PREFIX <= normalized)
  }

  lemma {:induction false} StrippedWalks(at: seq<string>, path: string)
    ensures Walk(at, Split(path)) == Walk(at, Split(StripLeadingSeparators(path)))
    ensures StripLeadingSeparators(path) != "" ==> StripLeadingSeparators(path)[0] != SLASH
  {
    if path != "" && path[0] == SLASH {
      StrippedWalks(at, path[1..]);
      assert Split(path)[1..] == Split(path[1..]);
    }
  }

  /** The resolved form of a path, which both the check and the join go by. */
  function Resolved(path: string): Relative {
    Resolve(Relative(0, []), Split(StripLeadingSeparators(path)))
  }

  lemma {:induction false} NoUpsWithoutSlash(parts: seq<string>)
    requires parts != [] && forall p :: p in parts ==> SLASH !in p
    ensures UP_PREFIX <= Join(parts) ==> parts[0] == ".." && |parts| > 1
    ensures parts[0] == ".." && |parts| > 1 ==> UP_PREFIX <= Join(parts)
    ensures Join(parts) == ".." ==> parts == [".."]
  {
    SplitJoin(parts);
    SplitSingle("..");
    if UP_PREFIX <= Join(parts) {
      var rest := Join(parts)[3..];
      assert Join(parts) == ".." + [SLASH] + rest;
      SplitConcat("..", rest);
    }
  }

  lemma TrailingSlash(body: string)
    ensures UP_PREFIX <= body + [SLASH] <==> UP_PREFIX <= body || body == ".."
  {
    if UP_PREFIX <= body + [SLASH] && |body| >= 3 { assert body == (body + [SLASH])[..|body|]; }
  }

  lemma PartsShowUps(r: Relative)
    requires ProperNames(r.names) && Parts(r) != []
    ensures var body := Join(Parts(r)); body != "" && (body == ".." || UP_PREFIX <= body <==> r.ups > 0)
  {
    var parts := Parts(r);
    assert forall p :: p in parts ==> SLASH !in p && p != "";
    NoUpsWithoutSlash(parts);
    SplitJoin(parts);
    assert parts[0] in parts && Split("") == [""];
    if r.ups == 0 { assert parts[0] in r.names; }
  }

  /** The text of the normal form begins with an upward step exactly if the resolved path does. */
  lemma NormalFormShowsUps(path: string)
    ensures (Normalize(path) == ".." || UP_PREFIX <= Normalize(path))
       <==> Resolve(Relative(0, []), Split(path)).ups > 0
  {
    var r := Resolve(Relative(0, []), Split(path));
    SplitHasNoSlash(path);
    ResolveHasProperNames(Relative(0, []), Split(path));
    TrailingSlash(Join(Parts(r)));
    if Parts(r) != [] { PartsShowUps(r); }
  }

  /** Going by the resolved form, joining to a base goes up and then down. */
  lemma JoinResolves(base: string, subDirectory: string)
    ensures var r := Resolved(subDirectory);
      Absolute(base + [SLASH] + subDirectory) == Up(Absolute(base), r.ups) + r.names
  {
    AbsoluteJoin(base, subDirectory);
    StrippedWalks(Absolute(base), subDirectory);
    WalkIsResolve(Absolute(base), Relative(0, []), Split(StripLeadingSeparators(subDirectory)));
    assert Up(Absolute(base), 0) + [] == Absolute(base);
  }

  lemma AcceptedByResolvedForm(subDirectory: string)
    requires '\0' !in subDirectory
    ensures IsSubDirectoryInsideRoot(subDirectory) <==> Resolved(subDirectory).ups == 0
  {
    StrippedWalks([], subDirectory);
    NormalFormShowsUps(StripLeadingSeparators(subDirectory));
  }

  /** An accepted directory joined to any absolute base lies at or under the base. */
  lemma AcceptedStaysInside(base: string, subDirectory: string)
    requires [SLASH] <= base && IsSubDirectoryInsideRoot(subDirectory)
    ensures Within(Absolute(base), Absolute(base + [SLASH] + subDirectory))
  {
    AcceptedByResolvedForm(subDirectory);
    JoinResolves(base, subDirectory);
  }

  lemma OneName(name: string)
    requires ProperNames([name])
    ensures Absolute([SLASH] + name) == [name]
  {
    var base := [SLASH] + name;
    assert name in [name];
    SplitSingle(name);
    assert base[1..] == name;
    assert Split(base) == [""] + [name];
    assert ([""] + [name])[1..] == [name] && [name][1..] == [];
    assert Enter([], name) == [name];
    assert Walk([], [name]) == Walk([name], [name][1..]);
  }

  /** A rejected directory without NUL leaves some absolute base. */
  lemma RejectedEscapes(subDirectory: string) returns (base: string)
    requires '\0' !in subDirectory && !IsSubDirectoryInsideRoot(subDirectory)
    ensures [SLASH] <= base && !Within(Absolute(base), Absolute(base + [SLASH] + subDirectory))
  {
    AcceptedByResolvedForm(subDirectory);
    var r := Resolved(subDirectory);
    var name := if r.names != [] && r.names[0] == "a" then "b" else "a";
    base := [SLASH] + name;
    OneName(name);
    JoinResolves(base, subDirectory);
    assert Up([name], r.ups) == [];
    assert Absolute(base + [SLASH] + subDirectory) == r.names;
  }

  /** The check accepts exactly the directories that stay inside every base. */
  lemma InsideRootExactly(subDirectory: string)
    requires '\0' !in subDirectory
    ensures IsSubDirectoryInsideRoot(subDirectory)
       <==> forall base :: [SLASH] <= base ==> Within(Absolute(base), Absolute(base + [SLASH] + subDirectory))
  {
    if IsSubDirectoryInsideRoot(subDirectory) {
      forall base | [SLASH] <= base ensures Within(Absolute(base), Absolute(base + [SLASH] + subDirectory)) {
        AcceptedStaysInside(base, subDirectory);
      }
    } else {
      var base := RejectedEscapes(subDirectory);
    }
  }

  function CommonLength(a: seq<string>, b: seq<string>): (n: nat)
    ensures n <= |a| && n <= |b| && a[..n] == b[..n]
    ensures n < |a| && n < |b| ==> a[n] != b[n]
  {
    if a == [] || b == [] || a[0] != b[0] then 0
    else
      var n := CommonLength(a[1..], b[1..]);
      assert a[..n + 1] == [a[0]] + a[1..][..n] && b[..n + 1] == [b[0]] + b[1..][..n];
      n + 1
  }

  /** The relative path from one directory to another, as text. */
  function RelativePath(from: seq<string>, to: seq<string>): string {
    var n := CommonLength(from, to);
    Join(Ups(|from| - n) + to[n..])
  }

  predicate IsInsideParentDirectory(parentDirPath: seq<string>, outputPath: seq<string>) {
    var relative := RelativePath(parentDirPath, outputPath);
    relative != "" && !(".." <= relative) && !([SLASH] <= relative)
  }

  /**
   An output is taken to be inside exactly if it lies strictly under the parent directory and its
   first component there does not begin with two dots.
   */
  lemma InsideParentExactly(parentDirPath: seq<string>, outputPath: seq<string>)
    requires ProperNames(parentDirPath) && ProperNames(outputPath)
    ensures IsInsideParentDirectory(parentDirPath, outputPath)
       <==> parentDirPath < outputPath && !(".." <= outputPath[|parentDirPath|])
  {
    var n := CommonLength(parentDirPath, outputPath);
    var parts := Ups(|parentDirPath| - n) + outputPath[n..];
    var relative := RelativePath(parentDirPath, outputPath);
    if parts != [] {
      assert relative == parts[0] || relative == parts[0] + [SLASH] + Join(parts[1..]);
      if n == |parentDirPath| {
        assert parts[0] == outputPath[n] && outputPath[n] in outputPath;
        assert ".." <= relative <==> ".." <= parts[0] by {
          if |parts| > 1 && |parts[0]| == 1 { assert relative[1] == SLASH; }
        }
        assert relative[0] == parts[0][0] && parts[0][0] in parts[0];
      } else {
        assert parts[0] == "..";
        assert ".." <= relative;
        assert !(parentDirPath < outputPath);
      }
    }
  }
}
