/** Spring Boot's `Archive` as the launcher sees it: a URL and whether it is an
    `ExplodedArchive` (a directory) or a `JarFileArchive` (a packaged file),
    and the exceptions the launcher lets escape. */
module Archives {
  import opened Wrappers
  import opened Text

  datatype ArchiveKind = Exploded | Jar

  /** `archive.getUrl().toString()` and the class of the archive. */
  datatype Archive = Archive(url: string, kind: ArchiveKind)

  /** The URL a `JarFileArchive` reports for the file at `location`: the root
      entry of the jar, `jar:<location>!/`. An `ExplodedArchive` reports the
      directory's own location. */
  function JarUrl(location: string): (r: string)
    ensures StartsWith(r, "jar:")
  {
    "jar:" + location + "!/"
  }

  /** `new File(url.toURI())`: a `jar:` URL is not hierarchical, so `File`
      refuses it with `IllegalArgumentException`; any other URL stands for its
      own file. */
  function FileOf(url: string): (r: Result<string, Failure>)
    ensures r.Failure? <==> StartsWith(url, "jar:")
    ensures r.Success? ==> r.value == url
  {
    if StartsWith(url, "jar:") then Failure(IllegalArgument("URI is not hierarchical")) else Success(url)
  }

  /** The Java exceptions that reach the caller of the modelled operations. */
  datatype Failure =
    | IllegalState(message: string)
    | IllegalArgument(message: string)
    | IndexOutOfBounds(index: int)
}
