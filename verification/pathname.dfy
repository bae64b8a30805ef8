/**
 * POSIX `path.extname` as Node defines it, which the KMZ decoder uses to pick
 * `.kml` members out of a ZIP directory.
 */
module PathName {

  /** The path without its trailing `/` characters. */
  function StripTrailingSlashes(p: string): string
  {
    if |p| > 0 && p[|p| - 1] == '/' then StripTrailingSlashes(p[..|p| - 1]) else p
  }

  /** Everything after the last `/` of `s` (all of `s` when it has none). */
  function LastSegment(s: string): string
  {
    if |s| == 0 || s[|s| - 1] == '/' then [] else LastSegment(s[..|s| - 1]) + [s[|s| - 1]]
  }

  /** The last path component, trailing slashes ignored. */
  function Basename(p: string): string
  {
    LastSegment(StripTrailingSlashes(p))
  }

  /** Index of the last `.` in `s`, or -1 when there is none. */
  function LastDot(s: string): (r: int)
    ensures -1 <= r < |s|
  {
    if |s| == 0 then -1
    else if s[|s| - 1] == '.' then |s| - 1
    else LastDot(s[..|s| - 1])
  }

  /**
   * From the last `.` of the last component to its end; empty when that
   * component has no dot, starts with its only dot, or is `..`.
   */
  function Extname(p: string): (r: string)
    ensures r != "" ==> r[0] == '.' && |r| < |Basename(p)| && EndsWith(Basename(p), r)
    ensures forall k :: 0 < k < |r| ==> r[k] != '.'
  {
    var base := Basename(p);
    var dot := LastDot(base);
    LastDotIsLast(base);
    if dot <= 0 || base == ".." then "" else base[dot..]
  }

  predicate EndsWith(s: string, suffix: string)
  {
    |suffix| <= |s| && s[|s| - |suffix|..] == suffix
  }

  /** The entry filter of the KMZ decoder. */
  predicate IsKmlEntry(fileName: string)
    ensures IsKmlEntry(fileName) ==>
            EndsWith(Basename(fileName), ".kml") && |Basename(fileName)| > 4
  {
    Extname(fileName) == ".kml"
  }

  /** `LastDot` finds a dot, and no dot follows it. */
  lemma {:induction false} LastDotIsLast(s: string)
    ensures LastDot(s) >= 0 ==> s[LastDot(s)] == '.'
    ensures forall k :: LastDot(s) < k < |s| ==> s[k] != '.'
  {
    if |s| > 0 && s[|s| - 1] != '.' {
      var s' := s[..|s| - 1];
      LastDotIsLast(s');
      assert forall k :: 0 <= k < |s'| ==> s'[k] == s[k];
    }
  }

  /** A dot with no dot after it is the one `LastDot` finds. */
  lemma LastDotOfSuffix(s: string, i: int)
    requires 0 <= i < |s| && s[i] == '.'
    requires forall k :: i < k < |s| ==> s[k] != '.'
    ensures LastDot(s) == i
  {
    LastDotIsLast(s);
  }

  /**
   * A name passes the filter exactly when its last component ends in `.kml`
   * and has at least one character before that dot: `a.kml` and `dir/b.kml/`
   * pass, `.kml`, `a.KML` and `a.kml.bak` do not.
   */
  lemma KmlEntryCharacterized(fileName: string)
    ensures IsKmlEntry(fileName) <==>
            (EndsWith(Basename(fileName), ".kml") && |Basename(fileName)| > 4)
  {
    var base := Basename(fileName);
    var dot := LastDot(base);
    LastDotIsLast(base);
    if EndsWith(base, ".kml") && |base| > 4 {
      var n := |base|;
      assert base[n - 4..] == ".kml";
      assert base[n - 4] == '.' && base[n - 3] == 'k' && base[n - 2] == 'm' && base[n - 1] == 'l';
      LastDotOfSuffix(base, n - 4);
      assert base != "..";
      assert Extname(fileName) == base[n - 4..];
    }
    if IsKmlEntry(fileName) {
      assert 0 < dot && base[dot..] == ".kml";
      assert |base| - 4 == dot;
    }
  }

  /** The last component of `dir + "/" + name` is `name` when `name` has no slash. */
  lemma {:induction false} LastSegmentAfterSlash(dir: string, name: string)
    requires forall k :: 0 <= k < |name| ==> name[k] != '/'
    ensures LastSegment(dir + "/" + name) == name
  {
    var s := dir + "/" + name;
    if |name| > 0 {
      var n' := name[..|name| - 1];
      assert s[..|s| - 1] == dir + "/" + n';
      LastSegmentAfterSlash(dir, n');
      assert name == n' + [name[|name| - 1]];
    } else {
      assert s[|s| - 1] == '/';
    }
  }

  /** A path without slashes is its own last component. */
  lemma {:induction false} LastSegmentOfPlainName(name: string)
    requires forall k :: 0 <= k < |name| ==> name[k] != '/'
    ensures LastSegment(name) == name
  {
    if |name| > 0 {
      var n' := name[..|name| - 1];
      LastSegmentOfPlainName(n');
      assert name == n' + [name[|name| - 1]];
    }
  }

  /** A slash-free name is its own basename. */
  lemma BasenameOfPlainName(name: string)
    requires forall k :: 0 <= k < |name| ==> name[k] != '/'
    ensures Basename(name) == name
  {
    assert StripTrailingSlashes(name) == name;
    LastSegmentOfPlainName(name);
  }

  /** For a plain `stem.ext` name the extension is `.ext`. */
  lemma ExtnameOfPlainName(stem: string, ext: string)
    requires |stem| > 0 && (stem != "." || |ext| > 0)
    requires forall k :: 0 <= k < |stem| ==> stem[k] != '/'
    requires forall k :: 0 <= k < |ext| ==> ext[k] != '.' && ext[k] != '/'
    ensures Extname(stem + "." + ext) == "." + ext
  {
    var name := stem + "." + ext;
    BasenameOfPlainName(name);
    LastDotOfSuffix(name, |stem|);
    if |stem| == 1 && |ext| == 0 {
      assert stem == [stem[0]];
      assert name[0] == stem[0] != '.';
    }
    assert name[|stem|..] == "." + ext;
  }

  /** `doc.kml` passes the filter. */
  lemma KmlFilterAcceptsKml()
    ensures IsKmlEntry("doc.kml")
  {
    BasenameOfPlainName("doc.kml");
    KmlEntryCharacterized("doc.kml");
  }

  /** The filter is case-sensitive: `doc.KML` does not pass. */
  lemma KmlFilterIsCaseSensitive()
    ensures !IsKmlEntry("doc.KML")
  {
    var p := "doc.KML";
    BasenameOfPlainName(p);
    KmlEntryCharacterized(p);
    assert p[5] == 'M';
  }

  /** A member inside a folder of the archive passes the filter. */
  lemma KmlFilterIgnoresFolders()
    ensures IsKmlEntry("files/doc.kml")
  {
    var p := "files/doc.kml";
    assert p == "files" + "/" + "doc.kml";
    assert StripTrailingSlashes(p) == p;
    LastSegmentAfterSlash("files", "doc.kml");
    KmlEntryCharacterized(p);
  }

  /** A bare `.kml` has no extension, so it does not pass the filter. */
  lemma KmlFilterSkipsDotFile()
    ensures !IsKmlEntry(".kml")
  {
    BasenameOfPlainName(".kml");
    KmlEntryCharacterized(".kml");
  }
}
