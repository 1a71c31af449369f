/** Where the launcher finds its root archive (`computeArchive`,
    `findArchive`, `findPath`): an explicit location or `maven:` coordinate,
    otherwise the first conventional build-output directory that exists,
    otherwise the working directory. The file system and the Maven resolver
    are parameters. */
module ArchiveLocation {
  import opened Wrappers
  import opened Text
  import opened Archives

  /** The two questions the launcher asks of the file system: `File.exists()`
      (`isPresent`) and `File.isDirectory()`. */
  datatype FileSystem = FileSystem(isPresent: string -> bool, isDirectory: string -> bool)

  /** What resolving one `runtime` dependency on the given coordinates gives:
      the resolved files, an `ArtifactResolutionException`, or the
      `IllegalArgumentException` of malformed coordinates. */
  datatype Resolution = Files(files: seq<string>) | Unresolvable | BadCoordinates(reason: string)

  const MAVEN_PREFIX := "maven:"
  const TARGET_CLASSES := "target/classes"
  const BUILD_CLASSES := "build/classes"
  const WORKING_DIR := "."

  /** `n` slashes. */
  function Slashes(n: nat): (r: string)
    ensures |r| == n && forall i :: 0 <= i < n ==> r[i] == '/'
  {
    if n == 0 then "" else "/" + Slashes(n - 1)
  }

  /** `s` without its leading slashes. */
  function DropSlashes(s: string): (r: string)
    ensures |r| <= |s|
    ensures s == Slashes(|s| - |r|) + r
    ensures r == "" || r[0] != '/'
  {
    if |s| > 0 && s[0] == '/' then DropSlashes(s[1..]) else s
  }

  /** The coordinates of a path that starts with `maven:`: the source removes
      the first match of the pattern "maven:" followed by any number of
      slashes, which is the prefix and every slash right after it. */
  function Coordinates(path: string): (r: string)
    requires StartsWith(path, MAVEN_PREFIX)
    ensures exists n: nat :: path == MAVEN_PREFIX + Slashes(n) + r
    ensures r == "" || r[0] != '/'
  {
    var r := DropSlashes(path[|MAVEN_PREFIX|..]);
    assert path == MAVEN_PREFIX + path[|MAVEN_PREFIX|..];
    r
  }

  /** Prefixing coordinates with `maven:` and any number of slashes and then
      stripping gives the coordinates back. */
  lemma {:induction false} CoordinatesRoundTrip(n: nat, coordinates: string)
    requires coordinates == "" || coordinates[0] != '/'
    ensures StartsWith(MAVEN_PREFIX + Slashes(n) + coordinates, MAVEN_PREFIX)
    ensures Coordinates(MAVEN_PREFIX + Slashes(n) + coordinates) == coordinates
  {
    var path := MAVEN_PREFIX + Slashes(n) + coordinates;
    assert path[..|MAVEN_PREFIX|] == MAVEN_PREFIX;
    assert path[|MAVEN_PREFIX|..] == Slashes(n) + coordinates;
    SlashesThenDrop(n, coordinates);
  }

  lemma {:induction false} SlashesThenDrop(n: nat, rest: string)
    requires rest == "" || rest[0] != '/'
    ensures DropSlashes(Slashes(n) + rest) == rest
  {
    if n > 0 {
      assert (Slashes(n) + rest)[1..] == Slashes(n - 1) + rest;
      SlashesThenDrop(n - 1, rest);
    }
  }

  /** `findPath(path)`: no location for a null path; for `maven:` the first
      file resolved for the coordinates, or `IllegalStateException` naming
      the coordinates when resolution fails; any other path unchanged. */
  function FindPath(path: Option<string>, resolve: string -> Resolution): Result<Option<string>, Failure>
  {
    match path
    case None => Success(None)
    case Some(p) =>
      if !StartsWith(p, MAVEN_PREFIX) then Success(Some(p))
      else
        var coordinates := Coordinates(p);
        match resolve(coordinates)
        case Files(files) =>
          if |files| > 0 then Success(Some(files[0])) else Failure(IndexOutOfBounds(0))
        case Unresolvable => Failure(IllegalState("Cannot resolve archive: " + coordinates))
        case BadCoordinates(reason) => Failure(IllegalArgument(reason))
  }

  /** `findArchive(path)`: the location `findPath` gives, otherwise
      `target/classes` if it exists, otherwise `build/classes` if it exists,
      otherwise `.`. */
  function FindArchive(path: Option<string>, fs: FileSystem, resolve: string -> Resolution): Result<string, Failure>
  {
    match FindPath(path, resolve)
    case Failure(e) => Failure(e)
    case Success(Some(location)) => Success(location)
    case Success(None) =>
      if fs.isPresent(TARGET_CLASSES) then Success(TARGET_CLASSES)
      else if fs.isPresent(BUILD_CLASSES) then Success(BUILD_CLASSES)
      else Success(WORKING_DIR)
  }

  /** `computeArchive(path)`: an exploded archive when the location is a
      directory, a jar archive otherwise. */
  function ComputeArchive(path: Option<string>, fs: FileSystem, resolve: string -> Resolution): (r: Result<Archive, Failure>)
    ensures r.Success? <==> FindArchive(path, fs, resolve).Success?
    ensures r.Success? ==> var location := FindArchive(path, fs, resolve).value;
      && (r.value.kind == Exploded <==> fs.isDirectory(location))
      && (r.value.kind == Exploded ==> r.value.url == location)
      && (r.value.kind == Jar ==> r.value.url == JarUrl(location))
    ensures r.Success? ==> (r.value.kind == Jar <==> StartsWith(r.value.url, "jar:") && !fs.isDirectory(FindArchive(path, fs, resolve).value))
    ensures r.Failure? ==> r.error == FindArchive(path, fs, resolve).error
  {
    match FindArchive(path, fs, resolve)
    case Failure(e) => Failure(e)
    case Success(location) =>
      if fs.isDirectory(location) then Success(Archive(location, Exploded))
      else Success(Archive(JarUrl(location), Jar))
  }

  /** Candidate `i` is present and every earlier one is absent. */
  ghost predicate FirstSomeAt(candidates: seq<Option<string>>, i: int)
  {
    0 <= i < |candidates| && candidates[i].Some? && forall j :: 0 <= j < i ==> candidates[j].None?
  }

  /** The first candidate that is present, else `last`: the order of
      strategies the fallback chain tries. */
  function FirstPresent(candidates: seq<Option<string>>, last: string): (r: string)
    ensures (forall i :: 0 <= i < |candidates| ==> candidates[i].None?) ==> r == last
    ensures forall i :: FirstSomeAt(candidates, i) ==> r == candidates[i].value
  {
    if |candidates| == 0 then last
    else if candidates[0].Some? then candidates[0].value
    else
      var r := FirstPresent(candidates[1..], last);
      assert forall i :: 1 <= i < |candidates| ==> candidates[1..][i - 1] == candidates[i];
      r
  }

  /** `Some(dir)` when `dir` exists. */
  function IfExists(fs: FileSystem, dir: string): Option<string>
  {
    if fs.isPresent(dir) then Some(dir) else None
  }

  /** Whenever `findPath` succeeds, `findArchive` is the first present of:
      the explicit location, `target/classes`, `build/classes`, with `.` last. */
  lemma FindArchiveIsFallbackChain(path: Option<string>, fs: FileSystem, resolve: string -> Resolution)
    requires FindPath(path, resolve).Success?
    ensures FindArchive(path, fs, resolve) == Success(FirstPresent(
      [FindPath(path, resolve).value, IfExists(fs, TARGET_CLASSES), IfExists(fs, BUILD_CLASSES)], WORKING_DIR))
  {
    var cs := [FindPath(path, resolve).value, IfExists(fs, TARGET_CLASSES), IfExists(fs, BUILD_CLASSES)];
    if cs[0].None? && cs[1].None? && cs[2].Some? {
      assert forall j :: 0 <= j < 2 ==> cs[j].None?;
    }
  }

  /** A non-null path never falls back: the file system is not consulted. */
  lemma ExplicitPathNeverFallsBack(p: string, fs1: FileSystem, fs2: FileSystem, resolve: string -> Resolution)
    ensures FindArchive(Some(p), fs1, resolve) == FindArchive(Some(p), fs2, resolve)
    ensures !StartsWith(p, MAVEN_PREFIX) ==> FindArchive(Some(p), fs1, resolve) == Success(p)
  {
  }

  /** A null path always succeeds with one of the three conventional
      locations, the first of them that exists, `.` when neither build
      directory does. */
  lemma NullPathFallsBack(fs: FileSystem, resolve: string -> Resolution)
    ensures FindArchive(None, fs, resolve).Success?
    ensures FindArchive(None, fs, resolve).value in {TARGET_CLASSES, BUILD_CLASSES, WORKING_DIR}
    ensures FindArchive(None, fs, resolve).value == TARGET_CLASSES <==> fs.isPresent(TARGET_CLASSES)
    ensures FindArchive(None, fs, resolve).value == BUILD_CLASSES <==>
              !fs.isPresent(TARGET_CLASSES) && fs.isPresent(BUILD_CLASSES)
  {
  }

  /** The four outcomes of a `maven:` path: the first resolved file;
      `IllegalStateException` naming the coordinates when resolution fails;
      `IndexOutOfBoundsException` when nothing was resolved;
      `IllegalArgumentException` for malformed coordinates. */
  lemma MavenPathOutcomes(p: string, fs: FileSystem, resolve: string -> Resolution)
    requires StartsWith(p, MAVEN_PREFIX)
    ensures resolve(Coordinates(p)).Unresolvable? ==>
      FindArchive(Some(p), fs, resolve) == Failure(IllegalState("Cannot resolve archive: " + Coordinates(p)))
    ensures resolve(Coordinates(p)).Files? && |resolve(Coordinates(p)).files| > 0 ==>
      FindArchive(Some(p), fs, resolve) == Success(resolve(Coordinates(p)).files[0])
    ensures resolve(Coordinates(p)) == Files([]) ==>
      FindArchive(Some(p), fs, resolve) == Failure(IndexOutOfBounds(0))
    ensures resolve(Coordinates(p)).BadCoordinates? ==>
      FindArchive(Some(p), fs, resolve) == Failure(IllegalArgument(resolve(Coordinates(p)).reason))
  {
  }

  lemma FailureOnlyForMaven(path: Option<string>, fs: FileSystem, resolve: string -> Resolution)
    requires FindArchive(path, fs, resolve).Failure?
    ensures path.Some? && StartsWith(path.value, MAVEN_PREFIX)
  {
  }
}
