# Thin jar launcher: launch decisions and run path

A Dafny model of `ThinJarLauncher`, the bootstrap of the Spring Boot thin
launcher. The launcher finds the application's root archive, reads its flags
from a Spring environment, and then does one of three things: it resolves the
dependencies only (a dry run), it prints them as a classpath, or it hands the
run path and the main class to the launching host.

The model keeps the decision logic and leaves the collaborators opaque:

- `Environment`: the property sources of `StandardEnvironment` as an ordered
  list of named maps. `${key:default}` is the value from the first source that
  defines the key, else the default. The `commandArgs` source is put first or
  replaced in place.
- `ArchiveLocation`: `findPath`, `findArchive` and `computeArchive`. This
  covers the explicit path, the `maven:` coordinate and its prefix stripping,
  the `target/classes`, `build/classes` and `.` fallbacks, and the
  exploded-or-jar decision. The file system is a pair of predicates. The Maven
  resolver is a function that may fail.
- `Classpath`: the `classpath` loop as a method proved against `Join` of the
  canonical paths of the archives whose URL does not start with `jar:`. It
  comes with a round trip: splitting the printed line at the separator gives
  the paths back.
- `Launcher`: the flag rule (off only for the exact string `false`), the mode
  precedence, the run path (root first), the main-class precedence, and the
  class `ThinJarLauncher`. The class holds the mutable environment, the
  `debug` field, the system properties the launcher writes and the lines it
  prints.
- `Text`, `Archives`, `Wrappers`: `startsWith` and `StringUtils.hasText`, the
  archive record and the exceptions, and Option/Result.

The model follows these behaviours of the code:

- The run path is not deduplicated.
- A `maven:` location takes the first file the resolver returns.
- An empty resolver result fails with `IndexOutOfBounds`.
- A main-class search that finds nothing gives no main class (Java's null), not an error.
- The dry run calls the same `getClassPathArchives` as the other modes.
- A jar root archive reports the URL of its root entry, `jar:<location>!/`, as
  `JarFileArchive` does. An exploded root reports its directory's location.
  So `classpath` leaves a jar root out of the printed line.
- `getMainClass` turns the root's URL into a `File` before searching. A `jar:`
  URL is not hierarchical, so for a jar root without `thin.main` or a declared
  start class this fails with `IllegalArgumentException` before the search.

Collaborators are parameters of the class:

- `extract` stands for `ArchiveFactory.extract`.
- `parseArgs` stands for `SimpleCommandLinePropertySource`.
- `startClass` stands for `ExecutableArchiveLauncher.getMainClass`. `None` is where it throws `IllegalStateException`.
- `findSingleMainClass` stands for `MainClassFinder`.
- `canonicalPath` stands for `getCanonicalPath`. Its result type is a non-empty string.
- `separator` stands for the `path.separator` system property.

`super.launch(args)` is modelled as the hand-off that Spring Boot's
`Launcher.launch` performs: the run path from `getClassPathArchives`, the main
class from `getMainClass`, and the arguments. `Launcher.launch` is not part of
this model. A null argument array is modelled as the empty sequence, which the
source treats the same way.

The constructors `ThinJarLauncher()` and `ThinJarLauncher(String path)` are
`ArchiveLocation.ComputeArchive` (on the `thin.archive` system property or on
the given path) followed by `Launcher.ThinJarLauncher.constructor`.

## Model

| member | source | states |
|---|---|---|
| Environment.ResolveFirstDefining | launcher/src/main/java/org/springframework/boot/loader/thin/ThinJarLauncher.java:115-130 | `${key:default}` gives the value of the first property source defining the key, and the default when no source defines it |
| Environment.IndexOf | launcher/src/main/java/org/springframework/boot/loader/thin/ThinJarLauncher.java:159-162 | the position found for a name is absent exactly when no source has that name; otherwise it is the first source with that name |
| Environment.WithCommandArgsProperties | launcher/src/main/java/org/springframework/boot/loader/thin/ThinJarLauncher.java:157-163 | adding the command-line source keeps names unique and leaves every other source untouched and in order; exactly one `commandArgs` source results. It is first when none existed before, and otherwise it sits at the position of the one it replaced |
| Environment.PrependedCommandArgsWin | launcher/src/main/java/org/springframework/boot/loader/thin/ThinJarLauncher.java:159-160 | a command-line source put first wins the lookup of every key it defines |
| ArchiveLocation.DropSlashes | launcher/src/main/java/org/springframework/boot/loader/thin/ThinJarLauncher.java:219 | the result has no leading slash, and the input is that result after some number of slashes |
| ArchiveLocation.Coordinates | launcher/src/main/java/org/springframework/boot/loader/thin/ThinJarLauncher.java:217-219 | a `maven:` path is `maven:`, then some slashes, then the coordinates, which do not start with a slash |
| ArchiveLocation.CoordinatesRoundTrip | launcher/src/main/java/org/springframework/boot/loader/thin/ThinJarLauncher.java:219 | prefixing coordinates with `maven:` and any number of slashes, then stripping, gives the coordinates back |
| ArchiveLocation.MavenPathOutcomes | launcher/src/main/java/org/springframework/boot/loader/thin/ThinJarLauncher.java:217-229 | a `maven:` path yields the first resolved file. A resolution failure yields `IllegalStateException` with "Cannot resolve archive: " and the coordinates. An empty result yields `IndexOutOfBoundsException`, and malformed coordinates yield `IllegalArgumentException` |
| ArchiveLocation.ExplicitPathNeverFallsBack | launcher/src/main/java/org/springframework/boot/loader/thin/ThinJarLauncher.java:196-199 | for a non-null path the result does not depend on the file system, and a path without `maven:` is used unchanged |
| ArchiveLocation.NullPathFallsBack | launcher/src/main/java/org/springframework/boot/loader/thin/ThinJarLauncher.java:200-210 | a null path always succeeds. It gives `target/classes` exactly when that exists, `build/classes` exactly when only that exists, and `.` otherwise |
| ArchiveLocation.FindArchiveIsFallbackChain | launcher/src/main/java/org/springframework/boot/loader/thin/ThinJarLauncher.java:196-211 | the location is the first present of: the explicit location, an existing `target/classes`, an existing `build/classes`; `.` comes last |
| ArchiveLocation.FailureOnlyForMaven | launcher/src/main/java/org/springframework/boot/loader/thin/ThinJarLauncher.java:213-231 | only a path starting with `maven:` can make the location fail |
| ArchiveLocation.FirstPresent | launcher/src/main/java/org/springframework/boot/loader/thin/ThinJarLauncher.java:197-210 | the fallback chain's result is the first present candidate, or the last resort when none is present |
| ArchiveLocation.ComputeArchive | launcher/src/main/java/org/springframework/boot/loader/thin/ThinJarLauncher.java:188-194 | the archive is exploded exactly when the location found is a directory, with that location as URL. Otherwise it is a jar whose URL is the `jar:` URL of the location. Failures pass through |
| Classpath.Render | launcher/src/main/java/org/springframework/boot/loader/thin/ThinJarLauncher.java:138-151 | the loop's result is the canonical paths of the archives whose URL does not start with `jar:`, in input order, joined by the separator |
| Classpath.KeptAppend | launcher/src/main/java/org/springframework/boot/loader/thin/ThinJarLauncher.java:141-144 | the filter distributes over concatenation, so it keeps the input order |
| Classpath.KeptMembers | launcher/src/main/java/org/springframework/boot/loader/thin/ThinJarLauncher.java:141-144 | an archive is kept exactly when it is in the input and its URL does not start with `jar:` |
| Classpath.KeptAll | launcher/src/main/java/org/springframework/boot/loader/thin/ThinJarLauncher.java:141-144 | without `jar:` URLs nothing is dropped |
| Classpath.KeptNone | launcher/src/main/java/org/springframework/boot/loader/thin/ThinJarLauncher.java:141-144 | when every URL starts with `jar:` nothing is kept |
| Classpath.PrintedEmpty | launcher/src/main/java/org/springframework/boot/loader/thin/ThinJarLauncher.java:138-151 | the printed line is empty exactly when every archive is a `jar:` URL, the empty list included |
| Classpath.JoinEmpty | launcher/src/main/java/org/springframework/boot/loader/thin/ThinJarLauncher.java:145-147 | the joined text is empty exactly when there are no paths, so the length test puts a separator before every entry but the first |
| Classpath.JoinEnds | launcher/src/main/java/org/springframework/boot/loader/thin/ThinJarLauncher.java:145-148 | the joined text begins with the first path and ends with the last: no leading or trailing separator |
| Classpath.RenderStep | launcher/src/main/java/org/springframework/boot/loader/thin/ThinJarLauncher.java:141-148 | one more archive leaves the text unchanged for a `jar:` URL, and otherwise appends its path after a separator when text is already present |
| Classpath.SplitJoin | launcher/src/main/java/org/springframework/boot/loader/thin/ThinJarLauncher.java:138-151 | splitting a non-empty printed classpath at a one-character separator that no path contains gives the paths back |
| Launcher.FlagValues | launcher/src/main/java/org/springframework/boot/loader/thin/ThinJarLauncher.java:116-130 | an unset flag is off; a set flag is off exactly when its value is the string `false` |
| Launcher.FlagOnForEmptyAndUpperCase | launcher/src/main/java/org/springframework/boot/loader/thin/ThinJarLauncher.java:123 | `""`, `FALSE` and `true` turn a flag on; only `false` turns it off |
| Launcher.ModeOf | launcher/src/main/java/org/springframework/boot/loader/thin/ThinJarLauncher.java:123-135 | dry run exactly when its flag is on; classpath printing exactly when it is off and the classpath flag is on; a launch exactly when both are off |
| Launcher.CommandLineFlagDecides | launcher/src/main/java/org/springframework/boot/loader/thin/ThinJarLauncher.java:114-130 | with no earlier command-line source, a `thin.dryrun` argument decides dry-run mode over every other source. When no source sets `thin.dryrun`, a `thin.classpath` argument decides classpath mode |
| Launcher.RunPathShape | launcher/src/main/java/org/springframework/boot/loader/thin/ThinJarLauncher.java:235-243 | the run path has the root at index 0, then the extracted archives in order. Its length is the extracted count plus one, and a duplicate of the root is kept |
| Launcher.PrintedStartsWithRoot | launcher/src/main/java/org/springframework/boot/loader/thin/ThinJarLauncher.java:131-132 | a printed classpath starts with the root archive's path when the root is a plain file |
| Launcher.PrintedSkipsJarRoot | launcher/src/main/java/org/springframework/boot/loader/thin/ThinJarLauncher.java:141-144 | a jar root, whose URL starts with `jar:`, is left out: the printed line is that of the extracted archives alone |
| Launcher.PrintedPlainRunPath | launcher/src/main/java/org/springframework/boot/loader/thin/ThinJarLauncher.java:131-151 | a root directory and file-backed dependencies print as every path in order, separated |
| Launcher.GetMainClass | launcher/src/main/java/org/springframework/boot/loader/thin/ThinJarLauncher.java:171-186 | a `thin.main` value with text wins. Otherwise the declared start class is used. Only when none is declared is the URL turned into a file and searched, in the archive's form. A `jar:` URL fails that conversion |
| Launcher.SearchOnJarRootFails | launcher/src/main/java/org/springframework/boot/loader/thin/ThinJarLauncher.java:176-185 | without an override or a declared start class, a jar root fails with `IllegalArgumentException` before the search; an exploded root is searched in directory form at its location |
| Launcher.SearchOnlyAsLastResort | launcher/src/main/java/org/springframework/boot/loader/thin/ThinJarLauncher.java:176-185 | with an override or a declared start class, the finder has no influence on the result |
| Launcher.DownloadedMessageDangles | launcher/src/main/java/org/springframework/boot/loader/thin/ThinJarLauncher.java:115-126 | as written, with `thin.root` unset the debug line is "Downloaded dependencies to " with nothing after it |
| Launcher.DownloadedMessage | launcher/src/main/java/org/springframework/boot/loader/thin/ThinJarLauncher.java:125-127 | the corrected debug line names a destination exactly when the root has text, and then ends with it |
| Launcher.ThinJarLauncher.constructor | launcher/src/main/java/org/springframework/boot/loader/thin/ThinJarLauncher.java:92-110 | a launcher over the given archive with an environment of the system properties and the system environment, debug off, nothing written or printed |
| Launcher.ThinJarLauncher.GetClassPathArchives | launcher/src/main/java/org/springframework/boot/loader/thin/ThinJarLauncher.java:235-243 | both branches of the insertion give the root followed by the extracted archives |
| Launcher.ThinJarLauncher.AddCommandLineProperties | launcher/src/main/java/org/springframework/boot/loader/thin/ThinJarLauncher.java:153-164 | no arguments leave the sources as they were. Otherwise the `commandArgs` source is put first or replaced in place, exactly one results, and the other sources are unchanged |
| Launcher.ThinJarLauncher.Launch | launcher/src/main/java/org/springframework/boot/loader/thin/ThinJarLauncher.java:113-136 | adds the arguments, sets `debug` and the factory's debug from the flag, and writes `grape.root` only for a root with text. Then by mode: a dry run computes the run path and prints only the debug line, as written; classpath mode prints the classpath line; otherwise the run path, main class and arguments go to the host |

## Findings

| source | as written | input that shows it | evidently intended | confidence | as-written member | corrected member |
|---|---|---|---|---|---|---|
| launcher/src/main/java/org/springframework/boot/loader/thin/ThinJarLauncher.java:126 | `root == null ? "" : " to " + root`, but `root` comes from `${thin.root:}` and is never null | `thin.dryrun` and `debug` on, `thin.root` unset: prints "Downloaded dependencies to " | omit " to ..." when no root is configured | medium, not executed | Launcher.DownloadedMessageAsWritten | Launcher.DownloadedMessage |

`Launcher.DownloadedMessageDangles` proves the dangling line for the as-written
member. `Launch` prints the line as written, so the model keeps the source's
output. `Launcher.DownloadedMessage` is the corrected line.

## Left out

- Dependency resolution (Aether engine, repository configuration, resolution context). This is network I/O and foreign code, so the resolver for a `maven:` location is a parameter that returns files or one of two failures.
- The exact text of archive URLs. An exploded archive's URL is its location and a jar archive's is `jar:<location>!/`; the `file:` URI form of the location is not modelled. Only the `jar:` prefix matters to the modelled code.
- `ArchiveFactory.extract`. Its code is not part of this model, so it is an opaque function from the root archive to a list of archives. Transitive resolution, version conflicts, exclusions and caching happen inside it.
- `MainClassFinder` scanning and the `Start-Class` manifest lookup of `ExecutableArchiveLauncher`. These are library code and appear as opaque results.
- Class loader creation (`createClassLoader`), `isNestedArchive` (which always answers false) and the host's execution of the main class. The host is not modelled beyond the hand-off.
- Spring's placeholder grammar: nested placeholders in values, escaping, and the relaxed names of the system-environment source. A lookup is a first-match over the sources with a default.
- The system-properties source is a snapshot taken when the launcher is built. The `grape.root` write is recorded separately, because nothing in this file reads it back.
- File-system work: `exists`, `isDirectory`, URI and `File` conversion, and `getCanonicalPath`. These are predicates and opaque strings. The exceptions of `new URI(path)`, `new File(uri)` for URIs other than `jar:` URLs, `JarFileArchive` on a missing file, and `getCanonicalPath` are not modelled.
- A null `path.separator` property, which Java would print as `null`. The separator is always a string here.
- Command-line argument parsing by `SimpleCommandLinePropertySource`. This is library code and is the parameter `parseArgs`.
