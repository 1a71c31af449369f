/** `ThinJarLauncher`: reads its flags from the environment, then either
    resolves the run path only (dry run), prints it as a classpath, or hands
    the run path and the main class to the launching host. */
module Launcher {
  import opened Wrappers
  import opened Text
  import opened Archives
  import opened Environment
  import opened Classpath

  const THIN_MAIN := "thin.main"
  const THIN_DRYRUN := "thin.dryrun"
  const THIN_CLASSPATH := "thin.classpath"
  const THIN_ROOT := "thin.root"
  const DEBUG := "debug"
  const GRAPE_ROOT := "grape.root"

  /** A flag value is off only when it is exactly the string `false`. */
  predicate IsOn(value: string)
  {
    value != "false"
  }

  /** `!"false".equals(environment.resolvePlaceholders("${key:false}"))` */
  predicate Flag(sources: seq<PropertySource>, key: string)
  {
    IsOn(Resolve(sources, key, "false"))
  }

  /** An unset flag is off; a flag whose first defining source gives anything
      but `false` (the empty string and `FALSE` included) is on. */
  lemma FlagValues(sources: seq<PropertySource>, key: string, i: int)
    ensures (forall j :: 0 <= j < |sources| ==> key !in sources[j].properties) ==> !Flag(sources, key)
    ensures Supplies(sources, key, i) ==> (Flag(sources, key) <==> sources[i].properties[key] != "false")
  {
    ResolveFirstDefining(sources, key, "false");
  }

  lemma FlagOnForEmptyAndUpperCase()
    ensures IsOn("") && IsOn("FALSE") && IsOn("true") && !IsOn("false")
  {
  }

  /** What a launch does, decided once from the flags. */
  datatype Mode = DryRun | PrintClasspath | Run

  /** Dry run wins over printing the classpath, which wins over running. */
  function ModeOf(sources: seq<PropertySource>): (m: Mode)
    ensures m == DryRun <==> Flag(sources, THIN_DRYRUN)
    ensures m == PrintClasspath <==> !Flag(sources, THIN_DRYRUN) && Flag(sources, THIN_CLASSPATH)
    ensures m == Run <==> !Flag(sources, THIN_DRYRUN) && !Flag(sources, THIN_CLASSPATH)
  {
    if Flag(sources, THIN_DRYRUN) then DryRun
    else if Flag(sources, THIN_CLASSPATH) then PrintClasspath
    else Run
  }

  /** A dry-run or classpath flag given on the command line, when no
      command-line source existed before, decides the mode over every other
      source. */
  lemma CommandLineFlagDecides(sources: seq<PropertySource>, source: PropertySource)
    requires source.name == COMMAND_ARGS && !Contains(sources, COMMAND_ARGS)
    ensures THIN_DRYRUN in source.properties ==>
      (ModeOf(WithCommandArgs(sources, source)) == DryRun <==> source.properties[THIN_DRYRUN] != "false")
    ensures THIN_CLASSPATH in source.properties && THIN_DRYRUN !in source.properties
              && (forall i :: 0 <= i < |sources| ==> THIN_DRYRUN !in sources[i].properties) ==>
      (ModeOf(WithCommandArgs(sources, source)) == PrintClasspath <==> source.properties[THIN_CLASSPATH] != "false")
  {
    var r := WithCommandArgs(sources, source);
    if THIN_DRYRUN in source.properties {
      PrependedCommandArgsWin(sources, source, THIN_DRYRUN, "false");
    }
    if THIN_CLASSPATH in source.properties && THIN_DRYRUN !in source.properties
       && (forall i :: 0 <= i < |sources| ==> THIN_DRYRUN !in sources[i].properties) {
      PrependedCommandArgsWin(sources, source, THIN_CLASSPATH, "false");
      assert forall i :: 1 <= i < |r| ==> r[i] == sources[i - 1];
      ResolveFirstDefining(r, THIN_DRYRUN, "false");
    }
  }

  /** `getClassPathArchives`: the root archive followed by what was
      extracted for it. */
  function RunPath(root: Archive, extracted: seq<Archive>): seq<Archive>
  {
    [root] + extracted
  }

  /** The root archive is first, the extracted archives follow in their
      order, and nothing is removed: an archive extracted again as well as
      being the root appears twice. */
  lemma RunPathShape(root: Archive, extracted: seq<Archive>)
    ensures |RunPath(root, extracted)| == |extracted| + 1
    ensures RunPath(root, extracted)[0] == root
    ensures RunPath(root, extracted)[1..] == extracted
    ensures multiset(RunPath(root, extracted))[root] == multiset(extracted)[root] + 1
  {
    assert RunPath(root, extracted)[1..] == extracted;
  }

  /** A printed classpath starts with the root's path whenever the root is a
      plain file location. */
  lemma {:induction false} PrintedStartsWithRoot(root: Archive, extracted: seq<Archive>, separator: string, canonicalPath: string -> Path)
    requires !IsNested(root)
    ensures StartsWith(Printed(RunPath(root, extracted), separator, canonicalPath), canonicalPath(root.url))
  {
    KeptAppend([root], extracted);
    KeptSingle(root);
    var paths := CanonicalPaths(Kept(RunPath(root, extracted)), canonicalPath);
    assert Kept(RunPath(root, extracted))[0] == root;
    JoinEnds(paths, separator);
  }

  /** A jar root reports a `jar:` URL, so the printed classpath leaves it
      out and shows only the extracted archives. */
  lemma PrintedSkipsJarRoot(location: string, extracted: seq<Archive>, separator: string, canonicalPath: string -> Path)
    ensures Printed(RunPath(Archive(JarUrl(location), Jar), extracted), separator, canonicalPath) ==
              Printed(extracted, separator, canonicalPath)
  {
    var root := Archive(JarUrl(location), Jar);
    assert IsNested(root);
    KeptAppend([root], extracted);
    KeptSingle(root);
    assert Kept(RunPath(root, extracted)) == Kept(extracted);
  }

  /** A root directory and file-backed dependencies print as every path,
      separated, with nothing dropped. */
  lemma PrintedPlainRunPath(root: Archive, extracted: seq<Archive>, separator: string, canonicalPath: string -> Path)
    requires !IsNested(root)
    requires forall i :: 0 <= i < |extracted| ==> !IsNested(extracted[i])
    ensures Printed(RunPath(root, extracted), separator, canonicalPath) ==
              Join(CanonicalPaths(RunPath(root, extracted), canonicalPath), separator)
  {
    var path := RunPath(root, extracted);
    assert forall i :: 1 <= i < |path| ==> path[i] == extracted[i - 1];
    KeptAll(path);
  }

  /** `getMainClass`: a `thin.main` value with text, otherwise the archive's
      declared main class, otherwise, only when the archive declares none, the
      single main class found in the archive's directory or jar. */
  function GetMainClass(
    sources: seq<PropertySource>,
    archive: Archive,
    startClass: Archive -> Option<string>,
    findSingleMainClass: (string, ArchiveKind) -> Result<Option<string>, Failure>
  ): (r: Result<Option<string>, Failure>)
    ensures HasText(Resolve(sources, THIN_MAIN, "")) ==> r == Success(Some(Resolve(sources, THIN_MAIN, "")))
    ensures !HasText(Resolve(sources, THIN_MAIN, "")) && startClass(archive).Some? ==>
              r == Success(startClass(archive))
    ensures !HasText(Resolve(sources, THIN_MAIN, "")) && startClass(archive).None? ==>
              r == match FileOf(archive.url)
                   case Failure(e) => Failure(e)
                   case Success(root) => findSingleMainClass(root, archive.kind)
  {
    var mainClass := Resolve(sources, THIN_MAIN, "");
    if HasText(mainClass) then Success(Some(mainClass))
    else
      match startClass(archive)
      case Some(declared) => Success(Some(declared))
      case None =>
        match FileOf(archive.url)
        case Failure(e) => Failure(e)
        case Success(root) => findSingleMainClass(root, archive.kind)
  }

  /** For a jar root, whose URL is a `jar:` URL, the search never starts:
      without an override or a declared start class, turning the URL into a
      file fails with `IllegalArgumentException`. An exploded root is searched
      in directory form at its own location. */
  lemma SearchOnJarRootFails(
    sources: seq<PropertySource>,
    location: string,
    kind: ArchiveKind,
    startClass: Archive -> Option<string>,
    findSingleMainClass: (string, ArchiveKind) -> Result<Option<string>, Failure>
  )
    requires !HasText(Resolve(sources, THIN_MAIN, ""))
    ensures var jar := Archive(JarUrl(location), Jar);
      startClass(jar).None? ==>
        && GetMainClass(sources, jar, startClass, findSingleMainClass).Failure?
        && GetMainClass(sources, jar, startClass, findSingleMainClass).error.IllegalArgument?
    ensures var dir := Archive(location, Exploded);
      startClass(dir).None? && !StartsWith(location, "jar:") ==>
        GetMainClass(sources, dir, startClass, findSingleMainClass) == findSingleMainClass(location, Exploded)
  {
  }

  /** The search is a last resort: with an override or a declared main class,
      which finder is used makes no difference. */
  lemma SearchOnlyAsLastResort(
    sources: seq<PropertySource>,
    archive: Archive,
    startClass: Archive -> Option<string>,
    finder1: (string, ArchiveKind) -> Result<Option<string>, Failure>,
    finder2: (string, ArchiveKind) -> Result<Option<string>, Failure>
  )
    requires HasText(Resolve(sources, THIN_MAIN, "")) || startClass(archive).Some?
    ensures GetMainClass(sources, archive, startClass, finder1) == GetMainClass(sources, archive, startClass, finder2)
  {
  }

  const DOWNLOADED := "Downloaded dependencies"
  const TO := " to "

  /** The debug line after a dry run, as written: `root == null ? "" : " to " + root`.
      The launcher reads `root` with an empty default, so it is never null. */
  function DownloadedMessageAsWritten(root: Option<string>): string
  {
    DOWNLOADED + (if root.None? then "" else TO + root.value)
  }

  /** With no `thin.root` configured the line as written ends in a dangling
      "to": it names a destination although there is none. */
  lemma DownloadedMessageDangles(sources: seq<PropertySource>)
    requires forall i :: 0 <= i < |sources| ==> THIN_ROOT !in sources[i].properties
    ensures var root := Resolve(sources, THIN_ROOT, "");
      !HasText(root) && DownloadedMessageAsWritten(Some(root)) == DOWNLOADED + TO
  {
    ResolveFirstDefining(sources, THIN_ROOT, "");
    assert TO + "" == TO;
  }

  /** The debug line after a dry run, naming the repository root only when
      one is configured. */
  function DownloadedMessage(root: string): (r: string)
    ensures StartsWith(r, DOWNLOADED)
    ensures StartsWith(r, DOWNLOADED + TO) <==> HasText(root)
    ensures HasText(root) ==> |root| <= |r| && r[|r| - |root|..] == root
  {
    if HasText(root) then DOWNLOADED + TO + root else DOWNLOADED
  }

  /** The system properties after the launcher has passed the repository
      root on as `grape.root`, which it does only for a root with text. */
  predicate GrapeRootWritten(before: map<string, string>, after: map<string, string>, root: string)
  {
    after == if HasText(root) then before[GRAPE_ROOT := root] else before
  }

  datatype LaunchOutcome =
    | ResolvedOnly(runPath: seq<Archive>)
    | PrintedClasspath(classpath: string)
    | HandedOff(runPath: seq<Archive>, mainClass: Option<string>, args: seq<string>)
    | Failed(failure: Failure)

  class ThinJarLauncher {
    /** The root archive given to `ExecutableArchiveLauncher`. */
    const archive: Archive
    /** `ArchiveFactory.extract`: the archives a root archive depends on. */
    const extract: Archive -> seq<Archive>
    /** The properties `SimpleCommandLinePropertySource` reads from arguments. */
    const parseArgs: seq<string> -> map<string, string>
    /** `ExecutableArchiveLauncher.getMainClass`: the declared start class,
        `None` where it throws `IllegalStateException`. */
    const startClass: Archive -> Option<string>
    /** `MainClassFinder.findSingleMainClass` on the archive's file, in
        directory form or jar form; `None` where it returns null. */
    const findSingleMainClass: (string, ArchiveKind) -> Result<Option<string>, Failure>
    /** The `path.separator` system property. */
    const separator: string
    /** `new File(url.toURI()).getCanonicalPath()` */
    const canonicalPath: string -> Path

    /** The environment's property sources, highest precedence first. */
    var sources: seq<PropertySource>
    var debug: bool
    /** The debug setting handed to the archive factory. */
    var factoryDebug: bool
    /** System properties set by the launcher. */
    var systemPropertyWrites: map<string, string>
    /** Lines printed to standard output. */
    var output: seq<string>

    ghost predicate Valid()
      reads this
    {
      NamesUnique(sources)
    }

    /** `new ThinJarLauncher(archive)` with a fresh `StandardEnvironment`
        over the system properties and the system environment. */
    constructor (
      archive: Archive,
      systemProperties: map<string, string>,
      systemEnvironment: map<string, string>,
      extract: Archive -> seq<Archive>,
      parseArgs: seq<string> -> map<string, string>,
      startClass: Archive -> Option<string>,
      findSingleMainClass: (string, ArchiveKind) -> Result<Option<string>, Failure>,
      separator: string,
      canonicalPath: string -> Path
    )
      ensures Valid()
      ensures this.archive == archive && this.extract == extract && this.parseArgs == parseArgs
      ensures this.startClass == startClass && this.findSingleMainClass == findSingleMainClass
      ensures this.separator == separator && this.canonicalPath == canonicalPath
      ensures sources == [PropertySource("systemProperties", systemProperties),
                          PropertySource("systemEnvironment", systemEnvironment)]
      ensures !debug && !factoryDebug && systemPropertyWrites == map[] && output == []
    {
      this.archive := archive;
      this.extract := extract;
      this.parseArgs := parseArgs;
      this.startClass := startClass;
      this.findSingleMainClass := findSingleMainClass;
      this.separator := separator;
      this.canonicalPath := canonicalPath;
      sources := [PropertySource("systemProperties", systemProperties),
                  PropertySource("systemEnvironment", systemEnvironment)];
      debug, factoryDebug := false, false;
      systemPropertyWrites := map[];
      output := [];
    }

    /** `getClassPathArchives`: the extracted archives with the root archive
        inserted at the front of the list, in either branch. */
    method GetClassPathArchives() returns (archives: seq<Archive>)
      ensures archives == RunPath(archive, extract(archive))
    {
      archives := extract(archive);
      if |archives| > 0 {
        archives := [archive] + archives;
      } else {
        archives := archives + [archive];
      }
    }

    /** `addCommandLineProperties`: nothing for no arguments; otherwise a
        `commandArgs` source put first, or in place of the existing one. */
    method AddCommandLineProperties(args: seq<string>)
      requires Valid()
      modifies this`sources
      ensures Valid()
      ensures |args| == 0 ==> sources == old(sources)
      ensures |args| > 0 ==> sources == WithCommandArgs(old(sources), PropertySource(COMMAND_ARGS, parseArgs(args)))
      ensures |args| > 0 ==> CountNamed(sources, COMMAND_ARGS) == 1
      ensures Without(sources, COMMAND_ARGS) == Without(old(sources), COMMAND_ARGS)
    {
      if |args| == 0 {
        return;
      }
      var source := PropertySource(COMMAND_ARGS, parseArgs(args));
      WithCommandArgsProperties(sources, source);
      if !Contains(sources, COMMAND_ARGS) {
        sources := [source] + sources;
      } else {
        var i := IndexOf(sources, COMMAND_ARGS).value;
        sources := sources[i := source];
      }
    }

    /** `launch(args)`: add the command-line properties, read the flags, then
        dry run, print the classpath, or hand over to the host, in that
        order of precedence. */
    method Launch(args: seq<string>) returns (outcome: LaunchOutcome)
      requires Valid()
      modifies this`sources, this`debug, this`factoryDebug, this`systemPropertyWrites, this`output
      ensures Valid()
      ensures sources == if |args| == 0 then old(sources)
                         else WithCommandArgs(old(sources), PropertySource(COMMAND_ARGS, parseArgs(args)))
      ensures debug == Flag(sources, DEBUG) && factoryDebug == debug
      ensures GrapeRootWritten(old(systemPropertyWrites), systemPropertyWrites, Resolve(sources, THIN_ROOT, ""))
      ensures ModeOf(sources) == DryRun ==>
        && outcome == ResolvedOnly(RunPath(archive, extract(archive)))
        && output == old(output) + if debug then [DownloadedMessageAsWritten(Some(Resolve(sources, THIN_ROOT, "")))] else []
      ensures ModeOf(sources) == PrintClasspath ==>
        && outcome == PrintedClasspath(Join(CanonicalPaths(Kept(RunPath(archive, extract(archive))), canonicalPath), separator))
        && output == old(output) + [outcome.classpath]
      ensures ModeOf(sources) == Run ==>
        && output == old(output)
        && outcome == match GetMainClass(sources, archive, startClass, findSingleMainClass)
                      case Success(mainClass) => HandedOff(RunPath(archive, extract(archive)), mainClass, args)
                      case Failure(e) => Failed(e)
    {
      AddCommandLineProperties(args);
      var root := Resolve(sources, THIN_ROOT, "");
      debug := IsOn(Resolve(sources, DEBUG, "false"));
      factoryDebug := debug;
      if HasText(root) {
        systemPropertyWrites := systemPropertyWrites[GRAPE_ROOT := root];
      }
      if IsOn(Resolve(sources, THIN_DRYRUN, "false")) {
        assert ModeOf(sources) == DryRun;
        var archives := GetClassPathArchives();
        if debug {
          output := output + [DownloadedMessageAsWritten(Some(root))];
        }
        return ResolvedOnly(archives);
      }
      if IsOn(Resolve(sources, THIN_CLASSPATH, "false")) {
        assert ModeOf(sources) == PrintClasspath;
        var archives := GetClassPathArchives();
        var classpath := Render(archives, separator, canonicalPath);
        output := output + [classpath];
        return PrintedClasspath(classpath);
      }
      assert ModeOf(sources) == Run;
      // super.launch(args): the host builds a class loader over the run path
      // and starts the main class.
      var archives := GetClassPathArchives();
      match GetMainClass(sources, archive, startClass, findSingleMainClass)
      case Success(mainClass) => outcome := HandedOff(archives, mainClass, args);
      case Failure(e) => outcome := Failed(e);
    }
  }
}
