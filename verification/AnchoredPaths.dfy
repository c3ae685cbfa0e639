/**
 The path check of tools/eslint-fixture-scan.ts: which `resolve` and `join` calls are anchored in
 the working directory. `PathOf` says which path such an expression evaluates to. The check goes by
 the name of the callee alone, so what the calls of other objects return is left open: `foreign`.
 */
module AnchoredPaths {
  import opened Options
  import opened ConstantEvaluator
  import opened PathComponents
  import SubDirectory

  const BACKSLASH := '\\'

  /** The pieces between separators of either kind. */
  function Segments(s: string): (parts: seq<string>)
    ensures |parts| >= 1
  {
    if s == "" then [""]
    else
      var rest := Segments(s[1..]);
      if s[0] == SLASH || s[0] == BACKSLASH then [""] + rest else Attach(s[0], rest)
  }

  /** What `[a-z]` matches when case is ignored by the Unicode rules. */
  predicate IsDriveLetter(c: char) {
    'a' <= c <= 'z' || 'A' <= c <= 'Z' || c == '\U{17F}' || c == '\U{212A}'
  }

  predicate IsRelativePathSegment(segment: string) {
    && |segment| != 0
    && segment[0] != SLASH
    && segment[0] != BACKSLASH
    && !(|segment| >= 2 && IsDriveLetter(segment[0]) && segment[1] == ':')
    && ".." !in Segments(segment)
  }

  predicate IsProcessCwdCall(e: Expr) {
    e.Call? && e.arguments == [] && e.callee == PropertyAccess(Identifier("process"), "cwd")
  }

  function CalleeName(e: Expr): Option<string> {
    match e
    case Identifier(name) => Some(name)
    case PropertyAccess(_, name) => Some(name)
    case _ => None
  }

  predicate IsPathJoin(e: Expr) {
    e.Call? && (CalleeName(e.callee) == Some("resolve") || CalleeName(e.callee) == Some("join"))
  }

  /** The call is one of the path module: by a bare name, or qualified by `path`. */
  predicate OfPathModule(e: Expr) {
    IsPathJoin(e) && (e.callee.Identifier? || e.callee.target == Identifier("path"))
  }

  /** What any other call returns, if it returns a string. */
  type Foreign = Expr -> Option<string>

  predicate AllRelative(arguments: seq<Expr>) {
    forall i :: 0 <= i < |arguments| ==> arguments[i].StringLiteral? && IsRelativePathSegment(arguments[i].text)
  }

  predicate RepositoryAnchoredPathCall(e: Expr, t: Table, seen: set<string>)
    decreases Unvisited(t, seen), e, 0
  {
    && IsPathJoin(e)
    && |e.arguments| >= 2
    && IsRepositoryAnchoredBase(e.arguments[0], t, seen)
    && AllRelative(e.arguments[1..])
  }

  predicate IsRepositoryAnchoredBase(e: Expr, t: Table, seen: set<string>)
    decreases Unvisited(t, seen), e, 1
  {
    if IsProcessCwdCall(e) || RepositoryAnchoredPathCall(e, t, seen) then true
    else if !e.Identifier? || e.text in seen || e.text !in t.constants then false
    else FollowingUsesUp(t, seen, e.text); IsRepositoryAnchoredBase(t.constants[e.text], t, seen + {e.text})
  }

  // What an expression evaluates to, following at most `depth` names.

  function NonEmpty(paths: seq<string>): seq<string> {
    if paths == [] then [] else (if paths[0] == "" then [] else [paths[0]]) + NonEmpty(paths[1..])
  }

  /** An absolute path written out in normal form. */
  function Render(names: seq<string>): string {
    [SLASH] + Join(names)
  }

  function JoinPaths(paths: seq<string>): string {
    var joined := Join(NonEmpty(paths));
    if [SLASH] <= joined
    then
      var names := Absolute(joined);
      if names != [] && joined[|joined| - 1] == SLASH then Render(names) + [SLASH] else Render(names)
    else SubDirectory.Normalize(joined)
  }

  /** The path reached from `cwd`: the last absolute argument wins. */
  function Reached(cwd: string, paths: seq<string>): string {
    if paths == [] then cwd
    else
      var last := paths[|paths| - 1];
      if last == "" then Reached(cwd, paths[..|paths| - 1])
      else if last[0] == SLASH then last
      else Reached(cwd, paths[..|paths| - 1]) + [SLASH] + last
  }

  function ResolvePaths(cwd: string, paths: seq<string>): string {
    Render(Absolute(Reached(cwd, paths)))
  }

  ghost function PathOf(e: Expr, t: Table, cwd: string, foreign: Foreign, depth: nat): Option<string>
    decreases depth, e
  {
    match e
    case StringLiteral(text) => Some(text)
    case Identifier(name) =>
      if name !in t.constants || depth == 0 then None else PathOf(t.constants[name], t, cwd, foreign, depth - 1)
    case Call(callee, arguments) =>
      if IsProcessCwdCall(e) then Some(cwd)
      else if !OfPathModule(e) then foreign(e)
      else
        var paths := PathsOf(arguments, t, cwd, foreign, depth);
        if paths.None? then None
        else Some(if CalleeName(callee) == Some("join") then JoinPaths(paths.value) else ResolvePaths(cwd, paths.value))
    case _ => None
  }

  ghost function PathsOf(arguments: seq<Expr>, t: Table, cwd: string, foreign: Foreign, depth: nat): Option<seq<string>>
    decreases depth, arguments
  {
    if arguments == [] then Some([])
    else
      var first, rest := PathOf(arguments[0], t, cwd, foreign, depth), PathsOf(arguments[1..], t, cwd, foreign, depth);
      if first.None? || rest.None? then None else Some([first.value] + rest.value)
  }

  // Paths written out and read back.

  lemma {:induction false} WalkDown(at: seq<string>, names: seq<string>)
    requires ProperNames(names)
    ensures Walk(at, names) == at + names
    decreases names
  {
    if names == [] {
      assert at + names == at;
    } else {
      assert names[0] in names && forall n :: n in names[1..] ==> n in names;
      WalkDown(at + [names[0]], names[1..]);
      assert at + [names[0]] + names[1..] == at + names;
    }
  }

  lemma {:induction false} WalkKeepsProper(at: seq<string>, parts: seq<string>)
    requires ProperNames(at) && forall p :: p in parts ==> SLASH !in p
    ensures ProperNames(Walk(at, parts))
    decreases parts
  {
    if parts != [] {
      assert parts[0] in parts && forall p :: p in parts[1..] ==> p in parts;
      WalkKeepsProper(Enter(at, parts[0]), parts[1..]);
    }
  }

  lemma AbsoluteIsProper(path: string)
    ensures ProperNames(Absolute(path))
  {
    SplitHasNoSlash(path);
    WalkKeepsProper([], Split(path));
  }

  /** A normal form means the path it was made from, with or without a slash at its end. */
  lemma RenderedMeaning(names: seq<string>)
    requires ProperNames(names)
    ensures Absolute(Render(names)) == names && Absolute(Render(names) + [SLASH]) == names
  {
    AbsoluteJoin(Render(names), "");
    assert Render(names) + [SLASH] + "" == Render(names) + [SLASH];
    AbsoluteJoin("", Join(names));
    assert "" + [SLASH] + Join(names) == Render(names);
    if names != [] {
      SplitJoin(names);
      WalkDown([], names);
      assert [] + names == names;
    }
  }

  // Relative segments go only deeper, whichever of the two functions puts them together.

  lemma {:induction false} PiecesWithoutBackslash(s: string)
    ensures var p, q := Split(s), Segments(s);
      && (BACKSLASH !in p[0] ==> q[0] == p[0])
      && forall i :: 1 <= i < |p| && BACKSLASH !in p[i] ==> p[i] in q[1..]
  {
    if s != "" {
      PiecesWithoutBackslash(s[1..]);
      var p, q := Split(s[1..]), Segments(s[1..]);
      assert q[0] in q && forall x :: x in q[1..] ==> x in q;
      assert ([""] + q)[1..] == q && Attach(s[0], q)[1..] == q[1..];
    }
  }

  lemma RelativeGoesDown(at: seq<string>, segment: string)
    requires IsRelativePathSegment(segment)
    ensures Within(at, Walk(at, Split(segment)))
  {
    PiecesWithoutBackslash(segment);
    WalkWithoutUps(at, Split(segment));
  }

  predicate IsSeparator(c: char) { c == '/' || c == '\\' }

  /** Two dots stand at the place, between separators or the ends. */
  predicate UpAt(s: string, i: nat) {
    && i + 2 <= |s| && s[i] == '.' && s[i + 1] == '.'
    && (i == 0 || IsSeparator(s[i - 1])) && (i + 2 == |s| || IsSeparator(s[i + 2]))
  }

  lemma FirstPieceEmpty(s: string)
    ensures Segments(s)[0] == "" <==> s == "" || IsSeparator(s[0])
  {
  }

  lemma FirstPieceNext(s: string)
    requires s != "" && !IsSeparator(s[0])
    ensures Segments(s)[0] == [s[0]] + Segments(s[1..])[0]
  {
  }

  lemma FirstPiece(s: string)
    ensures Segments(s)[0] == ".." <==> UpAt(s, 0)
  {
    FirstPieceEmpty(s);
    if s != "" && !IsSeparator(s[0]) {
      FirstPieceNext(s);
      FirstPieceEmpty(s[1..]);
      if s[1..] != "" && !IsSeparator(s[1]) {
        FirstPieceNext(s[1..]);
        assert s[1..][1..] == s[2..];
        FirstPieceEmpty(s[2..]);
        var first := Segments(s)[0];
        assert first == [s[0], s[1]] + Segments(s[2..])[0];
        assert first[0] == s[0] && first[1] == s[1];
        assert |first| == 2 ==> first == [s[0], s[1]];
        assert ".."[0] == '.' && ".."[1] == '.' && |".."| == 2;
        if |first| == 2 && s[0] == '.' && s[1] == '.' { assert first == ".."; }
      } else {
        assert |Segments(s)[0]| == 1;
      }
    }
  }

  lemma {:induction false} LaterPieces(s: string)
    ensures ".." in Segments(s)[1..] <==> exists i: nat :: i > 0 && UpAt(s, i)
  {
    if s != "" {
      LaterPieces(s[1..]);
      FirstPiece(s[1..]);
      forall i: nat | i > 0 && (i > 1 || IsSeparator(s[0])) ensures UpAt(s, i) <==> UpAt(s[1..], i - 1) {}
      if i: nat :| i > 0 && UpAt(s, i) { assert UpAt(s[1..], i - 1); }
      if i: nat :| UpAt(s[1..], i) && (i > 0 || IsSeparator(s[0])) { assert UpAt(s, i + 1); }
    }
  }

  /**
   Accepted is exactly what begins with neither a separator nor a drive and nowhere has two dots alone
   between separators.
   */
  lemma SegmentExactly(segment: string)
    ensures IsRelativePathSegment(segment)
       <==> && segment != "" && segment[0] != '/' && segment[0] != '\\'
            && (|segment| >= 2 && segment[1] == ':' ==>
                  !('a' <= segment[0] <= 'z') && !('A' <= segment[0] <= 'Z') && segment[0] != '\U{17F}' && segment[0] != '\U{212A}')
            && forall i: nat :: !UpAt(segment, i)
  {
    FirstPiece(segment);
    LaterPieces(segment);
    assert Segments(segment) == [Segments(segment)[0]] + Segments(segment)[1..];
  }

  lemma {:induction false} SegmentsOfNames(names: seq<string>)
    requires names != [] && forall k :: 0 <= k < |names| ==> forall c :: c in names[k] ==> !IsSeparator(c)
    ensures Segments(Join(names)) == names
    decreases |names|, |names[0]|
  {
    var s := Join(names);
    if names[0] == "" {
      if |names| > 1 {
        assert s == [SLASH] + Join(names[1..]) && s[1..] == Join(names[1..]);
        SegmentsOfNames(names[1..]);
      }
    } else {
      var shorter := [names[0][1..]] + names[1..];
      assert shorter[1..] == names[1..];
      assert s[1..] == Join(shorter) && s[0] == names[0][0];
      SegmentsOfNames(shorter);
      assert names[0][0] in names[0] && !IsSeparator(s[0]);
      assert names == Attach(s[0], shorter) by { assert names[0] == [s[0]] + names[0][1..]; }
    }
  }

  /** Names without separators, none of them two dots, joined by slashes: accepted unless the first is empty or a drive. */
  lemma NamesAreAccepted(names: seq<string>)
    requires names != [] && forall k :: 0 <= k < |names| ==> names[k] != ".." && forall c :: c in names[k] ==> !IsSeparator(c)
    requires names[0] != "" && (|names[0]| >= 2 ==> names[0][1] != ':')
    ensures IsRelativePathSegment(Join(names))
  {
    SegmentsOfNames(names);
    var s := Join(names);
    assert names[0] <= s && names[0][0] in names[0];
    if |names[0]| == 1 && |s| >= 2 { assert s[1] == SLASH; }
  }

  ghost predicate RelativeTexts(texts: seq<string>) {
    forall i :: 0 <= i < |texts| ==> IsRelativePathSegment(texts[i])
  }

  lemma {:induction false} ReachedStays(cwd: string, base: string, texts: seq<string>)
    requires [SLASH] <= base && RelativeTexts(texts)
    ensures Within(Absolute(base), Absolute(Reached(cwd, [base] + texts)))
    decreases texts
  {
    var paths := [base] + texts;
    if texts != [] {
      var last := |texts| - 1;
      assert paths[..|paths| - 1] == [base] + texts[..last];
      ReachedStays(cwd, base, texts[..last]);
      var before := Reached(cwd, [base] + texts[..last]);
      AbsoluteJoin(before, texts[last]);
      RelativeGoesDown(Absolute(before), texts[last]);
    }
  }

  lemma {:induction false} JoinedStays(base: string, texts: seq<string>)
    requires [SLASH] <= base && RelativeTexts(texts)
    ensures var joined := Join([base] + texts); [SLASH] <= joined && Within(Absolute(base), Absolute(joined))
    decreases texts
  {
    if texts == [] {
      assert [base] + texts == [base];
    } else {
      var next := base + [SLASH] + texts[0];
      assert ([base] + texts)[1..] == texts && ([next] + texts[1..])[1..] == texts[1..];
      assert Join([base] + texts) == Join([next] + texts[1..]) by {
        if |texts| > 1 {
          assert base + [SLASH] + (texts[0] + [SLASH] + Join(texts[1..])) == next + [SLASH] + Join(texts[1..]);
        }
      }
      JoinedStays(next, texts[1..]);
      AbsoluteJoin(base, texts[0]);
      RelativeGoesDown(Absolute(base), texts[0]);
    }
  }

  lemma {:induction false} NoneAreEmpty(texts: seq<string>)
    requires RelativeTexts(texts)
    ensures NonEmpty(texts) == texts
    decreases texts
  {
    if texts != [] {
      assert forall i :: 0 <= i < |texts[1..]| ==> texts[1..][i] == texts[i + 1];
      NoneAreEmpty(texts[1..]);
    }
  }

  lemma CombinedStays(cwd: string, base: string, texts: seq<string>)
    requires [SLASH] <= base && RelativeTexts(texts)
    ensures var p := ResolvePaths(cwd, [base] + texts); [SLASH] <= p && Within(Absolute(base), Absolute(p))
    ensures var p := JoinPaths([base] + texts); [SLASH] <= p && Within(Absolute(base), Absolute(p))
  {
    var reached := Reached(cwd, [base] + texts);
    ReachedStays(cwd, base, texts);
    AbsoluteIsProper(reached);
    RenderedMeaning(Absolute(reached));
    NoneAreEmpty(texts);
    assert ([base] + texts)[1..] == texts;
    assert NonEmpty([base] + texts) == [base] + texts;
    var joined := Join([base] + texts);
    JoinedStays(base, texts);
    AbsoluteIsProper(joined);
    RenderedMeaning(Absolute(joined));
  }

  // Through any chain of names.

  function Texts(arguments: seq<Expr>): (texts: seq<string>)
    requires AllRelative(arguments)
    ensures RelativeTexts(texts)
  {
    seq(|arguments|, i requires 0 <= i < |arguments| => arguments[i].text)
  }

  lemma {:induction false} LiteralsEvaluate(arguments: seq<Expr>, t: Table, cwd: string, foreign: Foreign, depth: nat)
    requires AllRelative(arguments)
    ensures PathsOf(arguments, t, cwd, foreign, depth) == Some(Texts(arguments))
    decreases arguments
  {
    if arguments == [] {
      assert Texts(arguments) == [];
    } else {
      LiteralsEvaluate(arguments[1..], t, cwd, foreign, depth);
      assert Texts(arguments) == [arguments[0].text] + Texts(arguments[1..]);
    }
  }

  lemma BaseShape(e: Expr, t: Table, seen: set<string>)
    requires IsRepositoryAnchoredBase(e, t, seen)
    ensures e.Call? && !IsProcessCwdCall(e)
        ==> IsPathJoin(e) && |e.arguments| >= 2 && IsRepositoryAnchoredBase(e.arguments[0], t, seen) && AllRelative(e.arguments[1..])
    ensures !e.Call? ==> e.Identifier? && e.text in t.constants && e.text !in seen
                         && Unvisited(t, seen + {e.text}) == Unvisited(t, seen) - 1
                         && IsRepositoryAnchoredBase(t.constants[e.text], t, seen + {e.text})
  {
    assert RepositoryAnchoredPathCall(e, t, seen) ==> e.Call?;
    if !e.Call? { FollowingUsesUp(t, seen, e.text); }
  }

  /** The end of the chain of calls and names: the working directory, or a call that is not of the path module. */
  function Anchor(e: Expr, t: Table, seen: set<string>): Expr
    requires IsRepositoryAnchoredBase(e, t, seen)
    decreases Unvisited(t, seen), e
  {
    BaseShape(e, t, seen);
    if IsProcessCwdCall(e) || (e.Call? && !OfPathModule(e)) then e
    else if e.Call? then Anchor(e.arguments[0], t, seen)
    else Anchor(t.constants[e.text], t, seen + {e.text})
  }

  /** Every call on the chain is one of the path module. */
  predicate OnlyPathModule(e: Expr, t: Table, seen: set<string>)
    requires IsRepositoryAnchoredBase(e, t, seen)
    decreases Unvisited(t, seen), e
  {
    BaseShape(e, t, seen);
    if IsProcessCwdCall(e) then true
    else if e.Call? then OfPathModule(e) && OnlyPathModule(e.arguments[0], t, seen)
    else OnlyPathModule(t.constants[e.text], t, seen + {e.text})
  }

  lemma {:induction false} AnchorShows(e: Expr, t: Table, seen: set<string>)
    requires IsRepositoryAnchoredBase(e, t, seen)
    ensures var a := Anchor(e, t, seen); a.Call? && (IsProcessCwdCall(a) || !OfPathModule(a))
    ensures OnlyPathModule(e, t, seen) <==> IsProcessCwdCall(Anchor(e, t, seen))
    decreases Unvisited(t, seen), e
  {
    BaseShape(e, t, seen);
    if e.Call? && !IsProcessCwdCall(e) && OfPathModule(e) {
      AnchorShows(e.arguments[0], t, seen);
    } else if e.Identifier? {
      AnchorShows(t.constants[e.text], t, seen + {e.text});
    }
  }

  /** The path that the anchor stands for. */
  function RootOf(anchor: Expr, cwd: string, foreign: Foreign): Option<string> {
    if IsProcessCwdCall(anchor) then Some(cwd) else foreign(anchor)
  }

  ghost predicate EndsWithin(e: Expr, t: Table, cwd: string, foreign: Foreign, depth: nat, root: string) {
    var path := PathOf(e, t, cwd, foreign, depth);
    path.Some? && [SLASH] <= path.value && Within(Absolute(root), Absolute(path.value))
  }

  lemma CallEndsWithin(e: Expr, t: Table, cwd: string, foreign: Foreign, depth: nat, root: string)
    requires OfPathModule(e) && |e.arguments| >= 2 && AllRelative(e.arguments[1..])
    requires EndsWithin(e.arguments[0], t, cwd, foreign, depth, root)
    ensures EndsWithin(e, t, cwd, foreign, depth, root)
  {
    var rest := e.arguments[1..];
    LiteralsEvaluate(rest, t, cwd, foreign, depth);
    CombinedStays(cwd, PathOf(e.arguments[0], t, cwd, foreign, depth).value, Texts(rest));
  }

  lemma NameEndsWithin(name: string, t: Table, cwd: string, foreign: Foreign, depth: nat, root: string)
    requires name in t.constants && depth > 0 && EndsWithin(t.constants[name], t, cwd, foreign, depth - 1, root)
    ensures EndsWithin(Identifier(name), t, cwd, foreign, depth, root)
  {
  }

  /** Whatever is accepted evaluates to a path at or under the one that its anchor stands for. */
  lemma {:induction false} BaseEndsWithin(e: Expr, t: Table, seen: set<string>, cwd: string, foreign: Foreign, root: string)
    requires IsRepositoryAnchoredBase(e, t, seen) && RootOf(Anchor(e, t, seen), cwd, foreign) == Some(root) && [SLASH] <= root
    ensures EndsWithin(e, t, cwd, foreign, Unvisited(t, seen), root)
    decreases Unvisited(t, seen), e
  {
    BaseShape(e, t, seen);
    if e.Call? && !IsProcessCwdCall(e) && OfPathModule(e) {
      BaseEndsWithin(e.arguments[0], t, seen, cwd, foreign, root);
      CallEndsWithin(e, t, cwd, foreign, Unvisited(t, seen), root);
    } else if e.Identifier? {
      BaseEndsWithin(t.constants[e.text], t, seen + {e.text}, cwd, foreign, root);
      NameEndsWithin(e.text, t, cwd, foreign, Unvisited(t, seen), root);
    } else {
      AnchorEndsWithin(e, t, cwd, foreign, Unvisited(t, seen), root);
    }
  }

  lemma AnchorEndsWithin(e: Expr, t: Table, cwd: string, foreign: Foreign, depth: nat, root: string)
    requires e.Call? && (IsProcessCwdCall(e) || !OfPathModule(e)) && RootOf(e, cwd, foreign) == Some(root) && [SLASH] <= root
    ensures EndsWithin(e, t, cwd, foreign, depth, root)
  {
  }

  /** The path an expression evaluates to stays the same however many more names may be followed. */
  lemma {:induction false} PathDeeper(e: Expr, t: Table, cwd: string, foreign: Foreign, depth: nat)
    ensures PathOf(e, t, cwd, foreign, depth).Some?
        ==> PathOf(e, t, cwd, foreign, depth + 1) == PathOf(e, t, cwd, foreign, depth)
    decreases depth, e
  {
    match e
    case Identifier(name) =>
      if name in t.constants && depth > 0 { PathDeeper(t.constants[name], t, cwd, foreign, depth - 1); }
    case Call(_, arguments) => PathsDeeper(arguments, t, cwd, foreign, depth);
    case _ =>
  }

  lemma {:induction false} PathsDeeper(arguments: seq<Expr>, t: Table, cwd: string, foreign: Foreign, depth: nat)
    ensures PathsOf(arguments, t, cwd, foreign, depth).Some?
        ==> PathsOf(arguments, t, cwd, foreign, depth + 1) == PathsOf(arguments, t, cwd, foreign, depth)
    decreases depth, arguments
  {
    if arguments != [] {
      PathDeeper(arguments[0], t, cwd, foreign, depth);
      PathsDeeper(arguments[1..], t, cwd, foreign, depth);
    }
  }

  lemma {:induction false} SamePath(e: Expr, t: Table, cwd: string, foreign: Foreign, a: nat, b: nat)
    requires PathOf(e, t, cwd, foreign, a).Some? && PathOf(e, t, cwd, foreign, b).Some?
    ensures PathOf(e, t, cwd, foreign, a) == PathOf(e, t, cwd, foreign, b)
    decreases a + b - 2 * if a < b then a else b
  {
    if a < b {
      PathDeeper(e, t, cwd, foreign, a);
      SamePath(e, t, cwd, foreign, a + 1, b);
    } else if b < a {
      PathDeeper(e, t, cwd, foreign, b);
      SamePath(e, t, cwd, foreign, a, b + 1);
    }
  }

  /** The expression evaluates, and whatever it evaluates to lies at or under the working directory. */
  ghost predicate StaysInside(e: Expr, t: Table, cwd: string, foreign: Foreign) {
    && (exists depth :: PathOf(e, t, cwd, foreign, depth).Some?)
    && forall depth, path :: PathOf(e, t, cwd, foreign, depth) == Some(path) ==> Within(Absolute(cwd), Absolute(path))
  }

  lemma AnchoredStaysInside(e: Expr, t: Table, cwd: string, foreign: Foreign)
    requires [SLASH] <= cwd && RepositoryAnchoredPathCall(e, t, {}) && OnlyPathModule(e, t, {})
    ensures StaysInside(e, t, cwd, foreign)
  {
    AnchorShows(e, t, {});
    BaseEndsWithin(e, t, {}, cwd, foreign, cwd);
    var enough := Unvisited(t, {});
    assert PathOf(e, t, cwd, foreign, enough).Some?;
    forall depth, path | PathOf(e, t, cwd, foreign, depth) == Some(path) ensures Within(Absolute(cwd), Absolute(path)) {
      SamePath(e, t, cwd, foreign, depth, enough);
    }
  }

  /** A call that is not of the path module may lead out of the working directory. */
  lemma ForeignLeads(e: Expr, t: Table) returns (foreign: Foreign)
    requires RepositoryAnchoredPathCall(e, t, {}) && !OnlyPathModule(e, t, {})
    ensures !StaysInside(e, t, "/a", foreign)
  {
    foreign := _ => Some("/b");
    AnchorShows(e, t, {});
    BaseEndsWithin(e, t, {}, "/a", foreign, "/b");
    SubDirectory.OneName("a");
    SubDirectory.OneName("b");
    assert [SLASH] + "a" == "/a" && [SLASH] + "b" == "/b";
    var enough := Unvisited(t, {});
    var path := PathOf(e, t, "/a", foreign, enough).value;
    assert Absolute(path)[0] == "b" && Absolute("/a")[0] == "a";
  }

  /**
   An accepted call stays at or under every working directory, through any chain of names and
   whatever calls of other objects return, exactly if every call on its chain is one of the path module.
   */
  lemma InsideExactly(e: Expr, t: Table)
    requires RepositoryAnchoredPathCall(e, t, {})
    ensures OnlyPathModule(e, t, {}) <==> forall cwd, foreign :: [SLASH] <= cwd ==> StaysInside(e, t, cwd, foreign)
  {
    if OnlyPathModule(e, t, {}) {
      forall cwd, foreign | [SLASH] <= cwd ensures StaysInside(e, t, cwd, foreign) {
        AnchoredStaysInside(e, t, cwd, foreign);
      }
    } else {
      var foreign := ForeignLeads(e, t);
    }
  }

  const PROCESS_CWD := Call(PropertyAccess(Identifier("process"), "cwd"), [])

  /** `["/etc", "/passwd"].join(process.cwd(), "x")`, which puts the working directory between the two texts. */
  const ARRAY_JOIN := Call(PropertyAccess(ArrayLiteral([Item(StringLiteral("/etc")), Item(StringLiteral("/passwd"))]), "join"),
                           [PROCESS_CWD, StringLiteral("x")])

  lemma OneLetterIsRelative()
    ensures IsRelativePathSegment("x")
  {
    assert "x"[1..] == "";
    assert Segments("x") == Attach('x', Segments(""));
  }

  lemma ArrayJoinIsAccepted(t: Table)
    ensures RepositoryAnchoredPathCall(ARRAY_JOIN, t, {}) && !OnlyPathModule(ARRAY_JOIN, t, {})
  {
    OneLetterIsRelative();
    assert ARRAY_JOIN.arguments[1..] == [StringLiteral("x")];
    assert IsRepositoryAnchoredBase(PROCESS_CWD, t, {});
  }

  /** With the meaning that joining an array has, the accepted call leaves the working directory. */
  lemma ArrayJoinEscapes(t: Table, cwd: string, foreign: Foreign)
    requires [SLASH] <= cwd && ".." !in Split(cwd) && Absolute(cwd) != [] && Absolute(cwd)[0] != "etc"
    requires foreign(ARRAY_JOIN) == Some("/etc" + cwd + "/passwd")
    ensures RepositoryAnchoredPathCall(ARRAY_JOIN, t, {}) && !StaysInside(ARRAY_JOIN, t, cwd, foreign)
  {
    ArrayJoinIsAccepted(t);
    BetweenTexts("etc", cwd, "passwd");
    assert PathOf(ARRAY_JOIN, t, cwd, foreign, 0) == Some("/etc" + cwd + "/passwd");
    assert [SLASH] + "etc" == "/etc" && [SLASH] + "passwd" == "/passwd";
  }

  lemma BetweenTexts(first: string, cwd: string, last: string)
    requires ProperNames([first]) && [SLASH] <= cwd && ".." !in Split(cwd) && SLASH !in last && last != ".."
    ensures Within([first], Absolute(([SLASH] + first) + cwd + ([SLASH] + last)))
  {
    SplitConcat(cwd[1..], last);
    SplitSingle(last);
    BelowName(first, cwd[1..] + [SLASH] + last);
    SlashesRegroup(first, cwd[1..], last);
    assert [SLASH] + cwd[1..] == cwd;
  }

  lemma SlashesRegroup(a: string, b: string, c: string)
    ensures [SLASH] + a + [SLASH] + (b + [SLASH] + c) == ([SLASH] + a) + ([SLASH] + b) + ([SLASH] + c)
  {
  }

  lemma BelowName(name: string, rest: string)
    requires ProperNames([name]) && ".." !in Split(rest)
    ensures Within([name], Absolute([SLASH] + name + [SLASH] + rest))
  {
    SubDirectory.OneName(name);
    AbsoluteJoin([SLASH] + name, rest);
    WalkWithoutUps([name], Split(rest));
  }

  // Without the set of seen names: which expressions are anchored at all.

  /** Anchored after following at most `depth` names, with no set to cut cycles. */
  ghost predicate Anchored(e: Expr, t: Table, depth: nat)
    decreases depth, e
  {
    || IsProcessCwdCall(e)
    || (IsPathJoin(e) && |e.arguments| >= 2 && Anchored(e.arguments[0], t, depth) && AllRelative(e.arguments[1..]))
    || (e.Identifier? && e.text in t.constants && depth > 0 && Anchored(t.constants[e.text], t, depth - 1))
  }

  lemma {:induction false} AcceptedIsAnchored(e: Expr, t: Table, seen: set<string>)
    requires IsRepositoryAnchoredBase(e, t, seen)
    ensures Anchored(e, t, Unvisited(t, seen))
    decreases Unvisited(t, seen), e
  {
    if RepositoryAnchoredPathCall(e, t, seen) {
      AcceptedIsAnchored(e.arguments[0], t, seen);
    } else if !IsProcessCwdCall(e) {
      FollowingUsesUp(t, seen, e.text);
      AcceptedIsAnchored(t.constants[e.text], t, seen + {e.text});
    }
  }

  lemma {:induction false} AnchoredDeeper(e: Expr, t: Table, depth: nat)
    requires Anchored(e, t, depth)
    ensures Anchored(e, t, depth + 1)
    decreases depth, e
  {
    if e.Call? && !IsProcessCwdCall(e) {
      AnchoredDeeper(e.arguments[0], t, depth);
    } else if e.Identifier? {
      AnchoredDeeper(t.constants[e.text], t, depth - 1);
    }
  }

  ghost predicate NoneAnchoredWithin(t: Table, seen: set<string>, depth: nat) {
    forall name :: name in seen ==> !Anchored(Identifier(name), t, depth)
  }

  lemma {:induction false} AnchoredIsAccepted(e: Expr, t: Table, depth: nat, seen: set<string>)
    requires Anchored(e, t, depth) && NoneAnchoredWithin(t, seen, depth)
    ensures IsRepositoryAnchoredBase(e, t, seen)
    decreases depth, e
  {
    if e.Call? && !IsProcessCwdCall(e) {
      AnchoredIsAccepted(e.arguments[0], t, depth, seen);
    } else if e.Identifier? {
      if Anchored(e, t, depth - 1) {
        forall name | name in seen ensures !Anchored(Identifier(name), t, depth - 1) {
          if Anchored(Identifier(name), t, depth - 1) { AnchoredDeeper(Identifier(name), t, depth - 1); }
        }
        AnchoredIsAccepted(e, t, depth - 1, seen);
      } else {
        forall name | name in seen + {e.text} ensures !Anchored(Identifier(name), t, depth - 1) {
          if name in seen && Anchored(Identifier(name), t, depth - 1) { AnchoredDeeper(Identifier(name), t, depth - 1); }
        }
        AnchoredIsAccepted(t.constants[e.text], t, depth - 1, seen + {e.text});
      }
    }
  }

  /** Following names from the expression leads to the working directory. */
  ghost predicate IsAnchored(e: Expr, t: Table) {
    exists depth :: Anchored(e, t, depth)
  }

  lemma AnchoredExactly(e: Expr, t: Table)
    ensures IsRepositoryAnchoredBase(e, t, {}) <==> IsAnchored(e, t)
  {
    if IsRepositoryAnchoredBase(e, t, {}) { AcceptedIsAnchored(e, t, {}); }
    if IsAnchored(e, t) {
      var depth :| Anchored(e, t, depth);
      AnchoredIsAccepted(e, t, depth, {});
    }
  }

  /** Cutting cycles rejects nothing: a call is accepted exactly if it is a path call that is anchored. */
  lemma AcceptedExactly(e: Expr, t: Table)
    ensures RepositoryAnchoredPathCall(e, t, {}) <==> IsPathJoin(e) && IsAnchored(e, t)
  {
    AnchoredExactly(e, t);
    assert IsProcessCwdCall(e) ==> !IsPathJoin(e);
  }

  /** The last name of what is called, bare or behind a dot. */
  ghost predicate CalledBy(callee: Expr, name: string) {
    callee == Identifier(name) || exists target :: callee == PropertyAccess(target, name)
  }

  /** A path call: it resolves or joins a first argument and, at least one, relative texts. */
  ghost predicate PutsTogether(e: Expr) {
    && e.Call? && (CalledBy(e.callee, "resolve") || CalledBy(e.callee, "join")) && |e.arguments| >= 2
    && forall i :: 1 <= i < |e.arguments| ==> e.arguments[i].StringLiteral? && IsRelativePathSegment(e.arguments[i].text)
  }

  /** Anchored is the working directory, a constant that is, and a path call whose first argument is; nothing else. */
  lemma AnchoredLaws(e: Expr, t: Table)
    ensures IsAnchored(e, t)
       <==> || e == Call(PropertyAccess(Identifier("process"), "cwd"), [])
            || (e.Identifier? && e.text in t.constants && IsAnchored(t.constants[e.text], t))
            || (PutsTogether(e) && IsAnchored(e.arguments[0], t))
  {
    PathCallShows(e);
    if e.Identifier? && e.text in t.constants {
      forall depth: nat ensures Anchored(e, t, depth + 1) <==> Anchored(t.constants[e.text], t, depth) {}
      if IsAnchored(e, t) {
        var depth: nat :| Anchored(e, t, depth);
        assert Anchored(t.constants[e.text], t, depth - 1);
      }
    } else if PutsTogether(e) {
      forall depth: nat ensures Anchored(e, t, depth) <==> Anchored(e.arguments[0], t, depth) {}
    } else if IsProcessCwdCall(e) {
      assert Anchored(e, t, 0);
    }
  }

  lemma PathCallShows(e: Expr)
    ensures PutsTogether(e) <==> IsPathJoin(e) && |e.arguments| >= 2 && AllRelative(e.arguments[1..])
  {
    if e.Call? && |e.arguments| >= 2 {
      var rest := e.arguments[1..];
      assert forall i :: 1 <= i < |e.arguments| ==> e.arguments[i] == rest[i - 1];
    }
  }
}
