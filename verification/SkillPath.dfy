/** `validate_skill_path`: bundle paths that stay inside the bundle. */
module SkillPath {
  import opened Wrappers
  import opened Model
  import opened Text

  /** `std::path::Component` on Unix, where there are no prefixes. */
  datatype Component = RootDir | CurDir | ParentDir | Normal(part: string)

  function ComponentOf(segment: string): Component {
    if segment == "." then CurDir else if segment == ".." then ParentDir else Normal(segment)
  }

  /** Components of the segments after the first: repeated slashes and dots vanish. */
  function LaterComponents(segments: seq<string>): seq<Component> {
    if segments == [] then []
    else
      (if segments[0] == "" || segments[0] == "." then [] else [ComponentOf(segments[0])])
      + LaterComponents(segments[1..])
  }

  /** `Path::components`: only a leading dot is reported, and a leading slash is the root. */
  function Components(path: string): seq<Component> {
    var segments := Split(path, '/');
    (if StartsWith(path, "/") then [RootDir] else if segments[0] == "." then [CurDir] else [])
    + LaterComponents(segments)
  }

  predicate HasDrivePrefix(value: string) {
    |value| >= 2 && (IsLower(value[0]) || IsUpper(value[0])) && value[1] == ':'
  }

  lemma DriveExactly(value: string)
    ensures HasDrivePrefix(value) <==> exists letter, rest: string ::
      value == [letter] + ":" + rest && (letter in LOWER_LETTERS || letter in UPPER_LETTERS)
  {
    if HasDrivePrefix(value) {
      CharacterClasses(value[0]);
      assert value == [value[0]] + ":" + value[2..];
    }
    if letter, rest: string :| value == [letter] + ":" + rest && (IsLower(letter) || IsUpper(letter)) {
      assert value[0] == letter && value[1] == ':';
    }
  }

  /** `PathBuf::push` of one plain component. */
  function Push(path: string, part: string): string {
    if path == "" then part else path + "/" + part
  }

  /** What the loop leaves in `normalized`, or nothing when it meets an unsafe component. */
  function PushAll(components: seq<Component>): Option<string> {
    if components == [] then Some("")
    else
      var n := |components| - 1;
      var path :- PushAll(components[..n]);
      match components[n]
      case Normal(part) => Some(Push(path, part))
      case CurDir => Some(path)
      case _ => None
  }

  function ValidatePath(value: string): Result<string, HubError> {
    if value == "" || '\\' in value || HasDrivePrefix(value) then Err(UnsafeSkillPath(value))
    else
      match PushAll(Components(value))
      case Some(path) => if path == "" then Err(UnsafeSkillPath(value)) else Ok(path)
      case None => Err(UnsafeSkillPath(value))
  }

  lemma {:induction false} PushAllStops(components: seq<Component>, n: nat)
    requires n <= |components| && PushAll(components[..n]).None?
    ensures PushAll(components).None?
    decreases |components|
  {
    if n < |components| {
      var front := components[..|components| - 1];
      assert front[..n] == components[..n];
      PushAllStops(front, n);
    } else {
      assert components[..n] == components;
    }
  }

  /** The validator as it runs: one component after another, stopping at the first unsafe one. */
  method ValidateSkillPath(value: string) returns (r: Result<string, HubError>)
    ensures r == ValidatePath(value)
  {
    if value == "" || '\\' in value || HasDrivePrefix(value) {
      return Err(UnsafeSkillPath(value));
    }
    var normalized := "";
    var components := Components(value);
    for i := 0 to |components|
      invariant PushAll(components[..i]) == Some(normalized)
    {
      assert components[..i + 1][..i] == components[..i];
      match components[i] {
        case Normal(part) => normalized := Push(normalized, part);
        case CurDir =>
        case _ =>
          PushAllStops(components, i + 1);
          return Err(UnsafeSkillPath(value));
      }
    }
    assert components[..|components|] == components;
    if normalized == "" {
      return Err(UnsafeSkillPath(value));
    }
    return Ok(normalized);
  }

  // ----- what an accepted path is

  predicate IsPlain(segment: string) {
    segment != "" && segment != "." && segment != ".." && '/' !in segment
  }

  predicate IsSkipped(segment: string) {
    segment == "" || segment == "."
  }

  /** The segments that name something. */
  function Named(segments: seq<string>): (parts: seq<string>)
    ensures forall p | p in parts :: p in segments && !IsSkipped(p)
  {
    if segments == [] then []
    else (if IsSkipped(segments[0]) then [] else [segments[0]]) + Named(segments[1..])
  }

  /** Where a path leads from the directory `from`: a dot stays, two dots go up, the root is the empty list. */
  function Walk(from: seq<string>, segments: seq<string>): seq<string>
    decreases |segments|
  {
    if segments == [] then from
    else if IsSkipped(segments[0]) then Walk(from, segments[1..])
    else if segments[0] == ".." then Walk(if from == [] then [] else from[..|from| - 1], segments[1..])
    else Walk(from + [segments[0]], segments[1..])
  }

  function Resolve(root: seq<string>, path: string): seq<string> {
    Walk(if StartsWith(path, "/") then [] else root, Split(path, '/'))
  }

  /** Pushing succeeds exactly on plain and current-directory components. */
  lemma {:induction false} PushAllSafe(components: seq<Component>)
    ensures PushAll(components).Some? <==> forall x | x in components :: x.Normal? || x.CurDir?
  {
    if components != [] {
      var n := |components| - 1;
      assert components == components[..n] + [components[n]];
      PushAllSafe(components[..n]);
    }
  }

  function Parts(components: seq<Component>): seq<string> {
    if components == [] then []
    else
      var n := |components| - 1;
      Parts(components[..n]) + if components[n].Normal? then [components[n].part] else []
  }

  lemma {:induction false} JoinSnoc(parts: seq<string>, part: string, sep: char)
    requires parts != []
    ensures Join(parts + [part], sep) == Join(parts, sep) + [sep] + part
  {
    if |parts| > 1 {
      assert (parts + [part])[1..] == parts[1..] + [part];
      JoinSnoc(parts[1..], part, sep);
    } else {
      assert (parts + [part])[1..] == [part];
    }
  }

  lemma {:induction false} PushAllJoins(components: seq<Component>)
    requires PushAll(components).Some?
    requires forall x | x in components && x.Normal? :: x.part != ""
    ensures PushAll(components).value == if Parts(components) == [] then "" else Join(Parts(components), '/')
    ensures Parts(components) != [] ==> PushAll(components).value != ""
  {
    if components != [] {
      var n := |components| - 1;
      var parts := Parts(components[..n]);
      PushAllJoins(components[..n]);
      if components[n].Normal? {
        if parts == [] {
          assert parts + [components[n].part] == [components[n].part];
        } else {
          JoinSnoc(parts, components[n].part, '/');
        }
      } else {
        assert parts + [] == parts;
      }
    }
  }

  lemma {:induction false} PartsConcat(a: seq<Component>, b: seq<Component>)
    ensures Parts(a + b) == Parts(a) + Parts(b)
  {
    if b == [] {
      assert a + b == a;
    } else {
      var n := |b| - 1;
      assert (a + b)[..|a + b| - 1] == a + b[..n];
      PartsConcat(a, b[..n]);
    }
  }

  lemma {:induction false} LaterParts(segments: seq<string>)
    requires ".." !in segments
    ensures Parts(LaterComponents(segments)) == Named(segments)
    ensures forall x | x in LaterComponents(segments) :: x.Normal? && x.part != ""
  {
    if segments != [] {
      var rest := LaterComponents(segments[1..]);
      LaterParts(segments[1..]);
      if IsSkipped(segments[0]) {
        assert LaterComponents(segments) == rest && Named(segments) == Named(segments[1..]);
      } else {
        var first := Normal(segments[0]);
        assert LaterComponents(segments) == [first] + rest;
        PartsConcat([first], rest);
        PartsOne(first);
      }
    }
  }

  lemma PartsOne(c: Component)
    requires c.Normal?
    ensures Parts([c]) == [c.part]
  {
  }

  lemma {:induction false} LaterParent(segments: seq<string>)
    requires ".." in segments
    ensures ParentDir in LaterComponents(segments)
  {
    if segments[0] != ".." {
      LaterParent(segments[1..]);
    }
  }

  /** The guard, said without components: relative, nothing going up, and at least one name. */
  predicate IsSafe(value: string) {
    && value != "" && '\\' !in value && !HasDrivePrefix(value)
    && value[0] != '/' && ".." !in Split(value, '/') && Named(Split(value, '/')) != []
  }

  lemma ComponentsOfSafe(value: string)
    requires value != "" && value[0] != '/' && ".." !in Split(value, '/')
    ensures Parts(Components(value)) == Named(Split(value, '/'))
    ensures forall x | x in Components(value) :: x.CurDir? || (x.Normal? && x.part != "")
  {
    var segments := Split(value, '/');
    LaterParts(segments);
    var head := if segments[0] == "." then [CurDir] else [];
    PartsConcat(head, LaterComponents(segments));
    assert Parts(head) == [] by {
      assert head != [] ==> head[..0] == [];
    }
    assert [] + Named(segments) == Named(segments);
  }

  lemma ComponentsOfUnsafe(value: string)
    requires value != "" && (value[0] == '/' || ".." in Split(value, '/'))
    ensures RootDir in Components(value) || ParentDir in Components(value)
  {
    if value[0] == '/' {
      assert Components(value)[0] == RootDir;
    } else {
      LaterParent(Split(value, '/'));
    }
  }

  /** The validator accepts exactly the safe paths, and its result joins their named segments. */
  lemma AcceptsExactlySafe(value: string)
    ensures ValidatePath(value).Ok? <==> IsSafe(value)
    ensures IsSafe(value) ==> ValidatePath(value).value == Join(Named(Split(value, '/')), '/')
    ensures !IsSafe(value) ==> ValidatePath(value) == Err(UnsafeSkillPath(value))
  {
    PushAllSafe(Components(value));
    if value != "" {
      if value[0] == '/' || ".." in Split(value, '/') {
        ComponentsOfUnsafe(value);
      } else {
        ComponentsOfSafe(value);
        PushAllJoins(Components(value));
      }
    }
  }

  lemma {:induction false} NamedPlain(parts: seq<string>)
    requires forall p | p in parts :: IsPlain(p)
    ensures Named(parts) == parts
  {
    if parts != [] {
      assert IsPlain(parts[0]) && parts == [parts[0]] + parts[1..];
      NamedPlain(parts[1..]);
    }
  }

  lemma {:induction false} WalkNamed(from: seq<string>, segments: seq<string>)
    requires ".." !in segments
    ensures Walk(from, segments) == from + Named(segments)
    decreases |segments|
  {
    if segments != [] {
      if !IsSkipped(segments[0]) {
        WalkNamed(from + [segments[0]], segments[1..]);
      } else {
        WalkNamed(from, segments[1..]);
      }
    }
  }

  /**
   * The normalized path splits back into its components, all of them plain; from any directory it leads
   * where the given path leads, which is below that directory.
   */
  lemma NormalizedMeansTheSame(value: string, root: seq<string>)
    requires ValidatePath(value).Ok?
    ensures var path := ValidatePath(value).value;
      var parts := Split(path, '/');
      && (forall p | p in parts :: IsPlain(p))
      && Join(parts, '/') == path
      && Resolve(root, path) == Resolve(root, value) == root + parts
  {
    AcceptsExactlySafe(value);
    var parts := Named(Split(value, '/'));
    SplitJoin(parts, '/');
    WalkNamed(root, Split(value, '/'));
    NamedPlain(parts);
    WalkNamed(root, parts);
    assert !StartsWith(Join(parts, '/'), "/") by {
      assert parts[0] <= Join(parts, '/') && parts[0] != "" && '/' !in parts[0];
    }
  }

  lemma {:induction false} JoinChars(parts: seq<string>, sep: char, c: char)
    requires parts != [] && c != sep && forall p | p in parts :: c !in p
    ensures c !in Join(parts, sep)
  {
    if |parts| > 1 {
      JoinChars(parts[1..], sep, c);
    }
  }

  lemma {:induction false} SplitChars(s: string, sep: char, c: char)
    requires c !in s
    ensures forall p | p in Split(s, sep) :: c !in p
  {
    if s != "" {
      SplitChars(s[1..], sep, c);
      var rest := Split(s[1..], sep);
      assert rest[0] in rest;
    }
  }

  /** A joined path has a drive prefix exactly if its first part has. */
  lemma DriveIsFirst(parts: seq<string>)
    requires parts != [] && parts[0] != ""
    ensures HasDrivePrefix(Join(parts, '/')) <==> HasDrivePrefix(parts[0])
  {
    assert parts[0] <= Join(parts, '/');
  }

  /**
   * Validating the result again changes nothing, unless the first component that is kept starts with a drive
   * prefix, which the components before it hid.
   */
  lemma FixedPointExactly(value: string)
    requires ValidatePath(value).Ok?
    ensures Named(Split(value, '/')) != []
    ensures var path := ValidatePath(value).value;
      ValidatePath(path) == Ok(path) <==> !HasDrivePrefix(Named(Split(value, '/'))[0])
  {
    AcceptsExactlySafe(value);
    NormalizedMeansTheSame(value, []);
    var path := ValidatePath(value).value;
    var parts := Named(Split(value, '/'));
    SplitJoin(parts, '/');
    NamedPlain(parts);
    SplitChars(value, '/', '\\');
    JoinChars(parts, '/', '\\');
    assert path[0] != '/' by {
      assert parts[0] <= path && parts[0] != "" && '/' !in parts[0];
    }
    AcceptsExactlySafe(path);
    DriveIsFirst(parts);
  }

  lemma DotSegments(name: string)
    requires IsPlain(name)
    ensures Split("." + ['/'] + name, '/') == [".", name]
    ensures Named([".", name]) == [name]
  {
    SplitPrefix(".", name, '/');
    SplitAtom(name, '/');
    assert [".", name][1..] == [name];
    NamedPlain([name]);
  }

  lemma DotAccepted(name: string)
    requires IsPlain(name) && '\\' !in name
    ensures ValidatePath("." + ['/'] + name) == Ok(name)
  {
    var value := "." + ['/'] + name;
    DotSegments(name);
    assert IsSafe(value) by {
      assert value[0] == '.' && value[1] == '/';
      assert name != "..";
    }
    AcceptsExactlySafe(value);
  }

  /** The exception is real: `./C:` and its like are accepted, and their normal forms are not. */
  lemma DrivePrefixSurfaces(letter: char, rest: string)
    requires IsUpper(letter) || IsLower(letter)
    requires '/' !in rest && '\\' !in rest
    ensures var drive := [letter, ':'] + rest;
      ValidatePath("." + ['/'] + drive) == Ok(drive) && ValidatePath(drive).Err?
  {
    var drive := [letter, ':'] + rest;
    assert drive[1] == ':';
    DotAccepted(drive);
  }
}
