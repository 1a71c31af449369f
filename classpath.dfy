/** The classpath line the launcher prints (`classpath`): every archive whose
    URL is not a `jar:` URL, as its canonical file path, joined by the
    platform's path separator. */
module Classpath {
  import opened Text
  import opened Archives

  /** A canonical file path, which is absolute and so never empty. */
  type Path = s: string | |s| > 0 witness "/"

  /** An entry inside a packaged archive, which has no file-system path. */
  predicate IsNested(a: Archive)
  {
    StartsWith(a.url, "jar:")
  }

  /** The archives that are not nested, in their original order. */
  function Kept(archives: seq<Archive>): (r: seq<Archive>)
    ensures |r| <= |archives|
  {
    if |archives| == 0 then []
    else
      var last := archives[|archives| - 1];
      var init := archives[..|archives| - 1];
      assert archives == init + [last];
      Kept(init) + (if IsNested(last) then [] else [last])
  }

  /** `Kept` distributes over concatenation; with `KeptSingle` this pins it
      down as the order-preserving filter. */
  lemma {:induction false} KeptAppend(a: seq<Archive>, b: seq<Archive>)
    ensures Kept(a + b) == Kept(a) + Kept(b)
  {
    if |b| == 0 {
      assert a + b == a;
    } else {
      var init := b[..|b| - 1];
      assert a + b == (a + init) + [b[|b| - 1]];
      assert (a + b)[..|a + b| - 1] == a + init;
      KeptAppend(a, init);
    }
  }

  lemma KeptSingle(a: Archive)
    ensures Kept([a]) == if IsNested(a) then [] else [a]
  {
    assert [a][..0] == [];
  }

  /** With no nested archive nothing is dropped; with only nested archives
      everything is. */
  lemma {:induction false} KeptAll(archives: seq<Archive>)
    requires forall i :: 0 <= i < |archives| ==> !IsNested(archives[i])
    ensures Kept(archives) == archives
  {
    if |archives| > 0 {
      var init := archives[..|archives| - 1];
      assert archives == init + [archives[|archives| - 1]];
      KeptAll(init);
    }
  }

  lemma {:induction false} KeptNone(archives: seq<Archive>)
    requires forall i :: 0 <= i < |archives| ==> IsNested(archives[i])
    ensures Kept(archives) == []
  {
    if |archives| > 0 {
      KeptNone(archives[..|archives| - 1]);
    }
  }

  /** An archive is kept exactly when it is in the input and not nested. */
  lemma {:induction false} KeptMembers(archives: seq<Archive>, a: Archive)
    ensures a in Kept(archives) <==> a in archives && !IsNested(a)
  {
    if |archives| > 0 {
      var init := archives[..|archives| - 1];
      assert archives == init + [archives[|archives| - 1]];
      KeptMembers(init, a);
    }
  }

  /** The canonical path of each archive's file. */
  function CanonicalPaths(archives: seq<Archive>, canonicalPath: string -> Path): (r: seq<Path>)
    ensures |r| == |archives|
    ensures forall i :: 0 <= i < |archives| ==> r[i] == canonicalPath(archives[i].url)
  {
    if |archives| == 0 then []
    else CanonicalPaths(archives[..|archives| - 1], canonicalPath) + [canonicalPath(archives[|archives| - 1].url)]
  }

  /** The paths with `separator` between neighbours. */
  function Join(paths: seq<Path>, separator: string): string
  {
    if |paths| == 0 then ""
    else if |paths| == 1 then paths[0]
    else Join(paths[..|paths| - 1], separator) + separator + paths[|paths| - 1]
  }

  /** The joined text is empty exactly when there are no paths. */
  lemma {:induction false} JoinEmpty(paths: seq<Path>, separator: string)
    ensures Join(paths, separator) == "" <==> paths == []
  {
    if |paths| > 1 {
      JoinEmpty(paths[..|paths| - 1], separator);
    }
  }

  /** The joined text begins with the first path and ends with the last, so
      there is no separator before the first or after the last entry. */
  lemma {:induction false} JoinEnds(paths: seq<Path>, separator: string)
    requires |paths| > 0
    ensures StartsWith(Join(paths, separator), paths[0])
    ensures var j := Join(paths, separator); var p := paths[|paths| - 1];
      |p| <= |j| && j[|j| - |p|..] == p
  {
    if |paths| > 1 {
      var init := paths[..|paths| - 1];
      JoinEnds(init, separator);
      var j := Join(paths, separator);
      assert j == Join(init, separator) + separator + paths[|paths| - 1];
      assert j[..|paths[0]|] == Join(init, separator)[..|paths[0]|];
    }
  }

  /** `text` cut at every occurrence of `separator`. */
  function Split(text: string, separator: char): (r: seq<string>)
    ensures |r| > 0
  {
    if |text| == 0 then [""]
    else
      var init := Split(text[..|text| - 1], separator);
      if text[|text| - 1] == separator then init + [""]
      else init[..|init| - 1] + [init[|init| - 1] + [text[|text| - 1]]]
  }

  /** Appending text free of the separator extends the last piece. */
  lemma {:induction false} SplitAppendPlain(x: string, y: string, separator: char)
    requires separator !in y
    ensures var s := Split(x, separator);
      Split(x + y, separator) == s[..|s| - 1] + [s[|s| - 1] + y]
  {
    var s := Split(x, separator);
    if |y| == 0 {
      assert x + y == x;
      assert s[|s| - 1] + y == s[|s| - 1];
      assert s[..|s| - 1] + [s[|s| - 1]] == s;
    } else {
      var y' := y[..|y| - 1];
      var c := y[|y| - 1];
      assert x + y == (x + y') + [c];
      assert (x + y)[..|x + y| - 1] == x + y';
      assert c in y;
      SplitAppendPlain(x, y', separator);
      assert s[|s| - 1] + y' + [c] == s[|s| - 1] + y;
    }
  }

  /** Appending the separator starts a new, empty piece. */
  lemma SplitAppendSeparator(x: string, separator: char)
    ensures Split(x + [separator], separator) == Split(x, separator) + [""]
  {
    assert (x + [separator])[..|x|] == x;
  }

  /** Printing a non-empty classpath and splitting it at a one-character
      separator that no path contains gives the paths back. */
  lemma {:induction false} SplitJoin(paths: seq<Path>, separator: char)
    requires |paths| > 0
    requires forall i :: 0 <= i < |paths| ==> separator !in paths[i]
    ensures Split(Join(paths, [separator]), separator) == paths
  {
    var last := paths[|paths| - 1];
    if |paths| == 1 {
      SplitAppendPlain("", last, separator);
      assert "" + last == last;
    } else {
      var init := paths[..|paths| - 1];
      var x := Join(init, [separator]) + [separator];
      SplitJoin(init, separator);
      SplitAppendSeparator(Join(init, [separator]), separator);
      SplitAppendPlain(x, last, separator);
      assert Join(paths, [separator]) == x + last;
      assert "" + last == last;
      assert paths == init + [last];
    }
  }

  /** The classpath text printed for `archives`. */
  function Printed(archives: seq<Archive>, separator: string, canonicalPath: string -> Path): string
  {
    Join(CanonicalPaths(Kept(archives), canonicalPath), separator)
  }

  /** Nothing is printed exactly when every archive is nested, the empty
      list included. */
  lemma PrintedEmpty(archives: seq<Archive>, separator: string, canonicalPath: string -> Path)
    ensures Printed(archives, separator, canonicalPath) == "" <==>
              forall i :: 0 <= i < |archives| ==> IsNested(archives[i])
  {
    JoinEmpty(CanonicalPaths(Kept(archives), canonicalPath), separator);
    if forall i :: 0 <= i < |archives| ==> IsNested(archives[i]) {
      KeptNone(archives);
    } else {
      var i :| 0 <= i < |archives| && !IsNested(archives[i]);
      KeptMembers(archives, archives[i]);
    }
  }

  /** The printed text of the archives seen so far, one archive further: a
      nested archive changes nothing, any other adds its path, after a
      separator unless nothing was printed yet. */
  lemma {:induction false} RenderStep(seen: seq<Archive>, archive: Archive, separator: string, canonicalPath: string -> Path)
    ensures var before := Printed(seen, separator, canonicalPath);
      Printed(seen + [archive], separator, canonicalPath) ==
        if IsNested(archive) then before
        else if |before| > 0 then before + separator + canonicalPath(archive.url)
        else canonicalPath(archive.url)
  {
    KeptAppend(seen, [archive]);
    KeptSingle(archive);
    if IsNested(archive) {
      assert Kept(seen + [archive]) == Kept(seen);
    } else {
      assert Kept(seen + [archive]) == Kept(seen) + [archive];
      var paths := CanonicalPaths(Kept(seen), canonicalPath);
      var after := CanonicalPaths(Kept(seen) + [archive], canonicalPath);
      assert (Kept(seen) + [archive])[..|Kept(seen)|] == Kept(seen);
      assert after == paths + [canonicalPath(archive.url)];
      assert after[..|after| - 1] == paths;
      JoinEmpty(paths, separator);
      if |paths| == 0 {
        assert Join(after, separator) == canonicalPath(archive.url);
      } else {
        assert Join(after, separator) == Join(paths, separator) + separator + canonicalPath(archive.url);
      }
    }
  }

  /** `classpath(archives)`: the loop over the archives that skips `jar:`
      URLs and puts the separator before every entry but the first. */
  method Render(archives: seq<Archive>, separator: string, canonicalPath: string -> Path) returns (classpath: string)
    ensures classpath == Join(CanonicalPaths(Kept(archives), canonicalPath), separator)
  {
    var builder := "";
    var i := 0;
    while i < |archives|
      invariant i <= |archives|
      invariant builder == Printed(archives[..i], separator, canonicalPath)
    {
      var archive := archives[i];
      assert archives[..i + 1] == archives[..i] + [archive];
      RenderStep(archives[..i], archive, separator, canonicalPath);
      i := i + 1;
      if IsNested(archive) {
        continue;
      }
      if |builder| > 0 {
        builder := builder + separator;
      }
      builder := builder + canonicalPath(archive.url);
    }
    assert archives[..i] == archives;
    classpath := builder;
  }
}
