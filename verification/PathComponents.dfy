/**
 POSIX paths as sequences of components: splitting, joining and the resolution of `.` and
 `..`. An absolute path means the sequence of names left after walking from the root.
 */
module PathComponents {

  const SLASH := '/'

  /** The pieces between slashes; there is always at least one. */
  function Split(s: string): (parts: seq<string>)
    ensures |parts| >= 1
  {
    if s == "" then [""]
    else
      var rest := Split(s[1..]);
      if s[0] == SLASH then [""] + rest else Attach(s[0], rest)
  }

  function Attach(c: char, parts: seq<string>): seq<string>
    requires parts != []
  {
    [[c] + parts[0]] + parts[1..]
  }

  function Join(parts: seq<string>): string {
    if parts == [] then ""
    else if |parts| == 1 then parts[0]
    else parts[0] + [SLASH] + Join(parts[1..])
  }

  /** One component met on the way down from the root. */
  function Enter(at: seq<string>, part: string): seq<string> {
    if part == "" || part == "." then at
    else if part == ".." then if at == [] then [] else at[..|at| - 1]
    else at + [part]
  }

  function Walk(at: seq<string>, parts: seq<string>): seq<string>
    decreases parts
  {
    if parts == [] then at else Walk(Enter(at, parts[0]), parts[1..])
  }

  /** The meaning of an absolute path. */
  function Absolute(path: string): seq<string> {
    Walk([], Split(path))
  }

  ghost predicate Within(base: seq<string>, path: seq<string>) {
    base <= path
  }

  /** A relative path resolved: first up so many times, then down through the names. */
  datatype Relative = Relative(ups: nat, names: seq<string>)

  function Follow(r: Relative, part: string): Relative {
    if part == "" || part == "." then r
    else if part != ".." then r.(names := r.names + [part])
    else if r.names != [] then r.(names := r.names[..|r.names| - 1])
    else r.(ups := r.ups + 1)
  }

  function Resolve(r: Relative, parts: seq<string>): Relative
    decreases parts
  {
    if parts == [] then r else Resolve(Follow(r, parts[0]), parts[1..])
  }

  function Up(base: seq<string>, ups: nat): seq<string> {
    if ups >= |base| then [] else base[..|base| - ups]
  }

  lemma AttachConcat(c: char, p: seq<string>, q: seq<string>)
    requires p != []
    ensures Attach(c, p + q) == Attach(c, p) + q
  {
  }

  lemma {:induction false} SplitConcat(a: string, b: string)
    ensures Split(a + [SLASH] + b) == Split(a) + Split(b)
  {
    var s := a + [SLASH] + b;
    if a == "" {
      assert s == [SLASH] + b && s[1..] == b;
    } else {
      SplitConcat(a[1..], b);
      assert s[1..] == a[1..] + [SLASH] + b;
      if a[0] != SLASH { AttachConcat(a[0], Split(a[1..]), Split(b)); }
    }
  }

  lemma {:induction false} WalkConcat(at: seq<string>, p: seq<string>, q: seq<string>)
    ensures Walk(at, p + q) == Walk(Walk(at, p), q)
    decreases p
  {
    if p == [] {
      assert p + q == q;
    } else {
      assert (p + q)[1..] == p[1..] + q;
      WalkConcat(Enter(at, p[0]), p[1..], q);
    }
  }

  /** Joining with a slash means walking on from the first path. */
  lemma AbsoluteJoin(a: string, b: string)
    ensures Absolute(a + [SLASH] + b) == Walk(Absolute(a), Split(b))
  {
    SplitConcat(a, b);
    WalkConcat([], Split(a), Split(b));
  }

  /** Without `..` a walk only goes deeper. */
  lemma {:induction false} WalkWithoutUps(at: seq<string>, parts: seq<string>)
    requires ".." !in parts
    ensures Within(at, Walk(at, parts))
    decreases parts
  {
    if parts != [] { WalkWithoutUps(Enter(at, parts[0]), parts[1..]); }
  }

  /** Walking is resolving first and then going up and down, stopping at the root. */
  lemma {:induction false} WalkIsResolve(base: seq<string>, r: Relative, parts: seq<string>)
    ensures var q := Resolve(r, parts); Walk(Up(base, r.ups) + r.names, parts) == Up(base, q.ups) + q.names
    decreases parts
  {
    if parts != [] {
      var next := Follow(r, parts[0]);
      assert Enter(Up(base, r.ups) + r.names, parts[0]) == Up(base, next.ups) + next.names;
      WalkIsResolve(base, next, parts[1..]);
    }
  }

  ghost predicate ProperNames(names: seq<string>) {
    forall n :: n in names ==> n != "" && n != "." && n != ".." && SLASH !in n
  }

  lemma {:induction false} SplitHasNoSlash(s: string)
    ensures forall p :: p in Split(s) ==> SLASH !in p
  {
    if s != "" {
      SplitHasNoSlash(s[1..]);
      var rest := Split(s[1..]);
      assert rest[0] in rest && forall p :: p in rest[1..] ==> p in rest;
    }
  }

  lemma {:induction false} ResolveHasProperNames(r: Relative, parts: seq<string>)
    requires ProperNames(r.names) && forall p :: p in parts ==> SLASH !in p
    ensures ProperNames(Resolve(r, parts).names)
    decreases parts
  {
    if parts != [] {
      assert parts[0] in parts && forall p :: p in parts[1..] ==> p in parts;
      ResolveHasProperNames(Follow(r, parts[0]), parts[1..]);
    }
  }

  lemma {:induction false} SplitSingle(part: string)
    requires SLASH !in part
    ensures Split(part) == [part]
  {
    if part != "" {
      SplitSingle(part[1..]);
      assert [part[0]] + part[1..] == part;
    }
  }

  lemma {:induction false} SplitJoin(parts: seq<string>)
    requires parts != [] && forall p :: p in parts ==> SLASH !in p
    ensures Split(Join(parts)) == parts
  {
    if |parts| == 1 {
      SplitSingle(parts[0]);
    } else {
      assert parts[0] in parts && forall p :: p in parts[1..] ==> p in parts;
      SplitSingle(parts[0]);
      SplitJoin(parts[1..]);
      SplitConcat(parts[0], Join(parts[1..]));
    }
  }

  /** A path goes on by staying, going up by one, though not above the root, or going down into the name. */
  lemma OneMoreName(path: string, name: string)
    requires SLASH !in name
    ensures var at := Absolute(path);
      Absolute(path + "/" + name) == if name == "" || name == "." then at
                                     else if name != ".." then at + [name]
                                     else if at == [] then [] else at[..|at| - 1]
  {
    AbsoluteJoin(path, name);
    SplitSingle(name);
    assert Walk(Absolute(path), [name]) == Enter(Absolute(path), name);
  }

  lemma RootIsEmpty()
    ensures Absolute("/") == [] && Absolute("") == []
  {
    AbsoluteJoin("", "");
    assert Absolute("") == [];
  }
}
