// The archive info file and the names of the directories under the archive
// path. Each directory holds the WAL of one database version and is named
// "<version>-<history id>", the version being one or more dot-separated
// groups of digits ("10-1", "9.4-2"); the info file "archive.info" and its
// copy "archive.info.copy" sit beside them.

module InfoArchive {
  import opened Text

  /** The name of the archive info file. */
  const InfoArchiveFile: string := "archive.info"

  /** What the copy of an info file adds to its name. */
  const InfoCopyExt: string := ".copy"

  /** The path of the info file under the given archive path. */
  function InfoArchivePathFile(archivePath: string): (r: string)
    ensures |r| == |archivePath| + 1 + |InfoArchiveFile|
    ensures r[..|archivePath|] == archivePath
    ensures r[|archivePath|..] == "/" + InfoArchiveFile
  {
    archivePath + "/" + InfoArchiveFile
  }

  /** The path of the copy of the info file under the given archive path. */
  function InfoArchivePathFileCopy(archivePath: string): (r: string)
    ensures |r| == |archivePath| + 1 + |InfoArchiveFile| + |InfoCopyExt|
    ensures r[..|archivePath|] == archivePath
    ensures r[|archivePath|..] == "/" + InfoArchiveFile + InfoCopyExt
  {
    InfoArchivePathFile(archivePath) + InfoCopyExt
  }

  /**
   * The copy is the info file's path with the copy extension added, so the
   * two are never the same file, and different archive paths give different
   * info files.
   */
  lemma InfoPathsDistinct(archivePath: string, other: string)
    ensures InfoArchivePathFileCopy(archivePath) == InfoArchivePathFile(archivePath) + InfoCopyExt
    ensures InfoArchivePathFileCopy(archivePath) != InfoArchivePathFile(archivePath)
    ensures other != archivePath ==> InfoArchivePathFile(other) != InfoArchivePathFile(archivePath)
  {
    var p := InfoArchivePathFile(archivePath);
    assert |InfoArchivePathFileCopy(archivePath)| == |p| + 5;
  }

  /** The two files a missing-info warning names, for the archive path of stanza test1. */
  lemma InfoPathsOfStanza(repoPath: string)
    ensures InfoArchivePathFile(repoPath + "/archive/test1") == repoPath + "/archive/test1/archive.info"
    ensures InfoArchivePathFileCopy(repoPath + "/archive/test1") == repoPath + "/archive/test1/archive.info.copy"
  {
    var a := repoPath + "/archive/test1";
    assert "/archive/test1" + "/" + "archive.info" == "/archive/test1/archive.info";
    assert "/archive/test1/archive.info" + ".copy" == "/archive/test1/archive.info.copy";
    ConcatAssoc(repoPath, "/archive/test1", "/" + "archive.info");
    assert a + "/" + InfoArchiveFile == a + ("/" + "archive.info");
    ConcatAssoc(repoPath, "/archive/test1/archive.info", ".copy");
  }

  // ---------------------------------------------------------------------------
  // The directory name recogniser: ^[0-9]+(\.[0-9]+)*-[0-9]+$
  // ---------------------------------------------------------------------------

  /**
   * The states of the matcher for the pattern: before the version; inside a
   * digit group of the version; just after a dot; just after the dash;
   * inside the history id; and having failed.
   */
  datatype Scan = VersionStart | VersionDigits | AfterDot | IdStart | IdDigits | Rejected

  /** The matcher's move on one character. */
  function Step(q: Scan, c: char): Scan
  {
    match q
    case VersionStart => if IsDigit(c) then VersionDigits else Rejected
    case VersionDigits =>
      if IsDigit(c) then VersionDigits
      else if c == '.' then AfterDot
      else if c == '-' then IdStart
      else Rejected
    case AfterDot => if IsDigit(c) then VersionDigits else Rejected
    case IdStart => if IsDigit(c) then IdDigits else Rejected
    case IdDigits => if IsDigit(c) then IdDigits else Rejected
    case Rejected => Rejected
  }

  /** The state after reading all of s from the start. */
  function ScanOf(s: string): Scan
  {
    if s == [] then VersionStart else Step(ScanOf(s[..|s| - 1]), s[|s| - 1])
  }

  /** Does the whole string match the archive directory pattern? */
  predicate IsArchiveDbVersion(s: string)
    ensures IsArchiveDbVersion(s) ==> |s| > 0 && IsDigit(s[|s| - 1])
  {
    ScanOf(s) == IdDigits
  }

  // The pattern, stated without the matcher.

  /** One or more digits. */
  predicate Digits(s: string)
  {
    |s| > 0 && AllDigits(s)
  }

  /**
   * A version: digits and dots only, beginning and ending with a digit, and
   * never two dots in a row; that is, digit groups joined by single dots.
   */
  predicate Version(v: string)
  {
    && |v| > 0
    && IsDigit(v[0])
    && IsDigit(v[|v| - 1])
    && (forall i :: 0 <= i < |v| ==> IsDigit(v[i]) || v[i] == '.')
    && (forall i :: 0 < i < |v| ==> v[i] == '.' ==> v[i - 1] != '.')
  }

  /** s is a version, the dash at index d, and a history id. */
  predicate DbVersionAt(s: string, d: int)
  {
    0 <= d < |s| && s[d] == '-' && Version(s[..d]) && Digits(s[d + 1..])
  }

  /** The pattern as sequences: a version, a dash, then digits. */
  predicate DbVersion(s: string)
  {
    exists d :: 0 <= d < |s| && DbVersionAt(s, d)
  }

  /** Appending one character to a version prefix. */
  lemma VersionSnoc(q: string, c: char)
    ensures Version(q + [c]) <==>
      IsDigit(c) && (q == [] || Version(q) || (|q| > 0 && q[|q| - 1] == '.' && Version(q[..|q| - 1])))
  {
    var p := q + [c];
    assert p[..|q|] == q;
    assert forall i :: 0 <= i < |q| ==> p[i] == q[i];
    if Version(p) && q != [] && !Version(q) {
      // q ends in a dot after a digit group.
      assert q[|q| - 1] == '.';
      var x := q[..|q| - 1];
      assert |x| > 0 by { assert q[0] != '.'; }
      assert forall i :: 0 <= i < |x| ==> x[i] == q[i];
      assert IsDigit(x[|x| - 1]) by { assert q[|q| - 2] != '.'; }
    }
    if IsDigit(c) && q != [] && !Version(q) && q[|q| - 1] == '.' && Version(q[..|q| - 1]) {
      var x := q[..|q| - 1];
      assert forall i :: 0 <= i < |x| ==> x[i] == q[i];
      assert Version(p);
    }
  }

  /** A version holds no dash. */
  lemma VersionNoDash(v: string)
    requires Version(v)
    ensures '-' !in v
  {
  }

  /** Appending one character to a candidate directory name. */
  lemma DbVersionSnoc(q: string, c: char)
    ensures DbVersion(q + [c]) <==>
      IsDigit(c) && (DbVersion(q) || (|q| > 0 && q[|q| - 1] == '-' && Version(q[..|q| - 1])))
  {
    var p := q + [c];
    if DbVersion(p) {
      var d :| 0 <= d < |p| && DbVersionAt(p, d);
      var id := p[d + 1..];
      assert IsDigit(c) by { assert id[|id| - 1] == c; }
      assert p[..d] == q[..d];
      if d < |q| - 1 {
        assert q[d + 1..] == id[..|id| - 1];
        assert DbVersionAt(q, d);
      }
    }
    if IsDigit(c) && DbVersion(q) {
      var d :| 0 <= d < |q| && DbVersionAt(q, d);
      assert p[..d] == q[..d];
      assert p[d + 1..] == q[d + 1..] + [c];
      assert DbVersionAt(p, d);
    }
    if IsDigit(c) && |q| > 0 && q[|q| - 1] == '-' && Version(q[..|q| - 1]) {
      assert p[..|q| - 1] == q[..|q| - 1];
      assert p[|q|..] == [c];
      assert DbVersionAt(p, |q| - 1);
    }
  }

  /** What each state of the matcher says about the characters read so far. */
  lemma {:induction false} ScanMeaning(p: string)
    ensures ScanOf(p) == VersionStart <==> p == []
    ensures ScanOf(p) == VersionDigits <==> Version(p)
    ensures ScanOf(p) == AfterDot <==> |p| > 0 && p[|p| - 1] == '.' && Version(p[..|p| - 1])
    ensures ScanOf(p) == IdStart <==> |p| > 0 && p[|p| - 1] == '-' && Version(p[..|p| - 1])
    ensures ScanOf(p) == IdDigits <==> DbVersion(p)
    decreases |p|
  {
    if p == [] {
      assert !Version(p);
      assert !DbVersion(p);
    } else {
      var q := p[..|p| - 1];
      var c := p[|p| - 1];
      assert p == q + [c];
      ScanMeaning(q);
      VersionSnoc(q, c);
      DbVersionSnoc(q, c);
    }
  }

  /** The matcher accepts exactly the names the pattern describes. */
  lemma MatcherIsPattern(s: string)
    ensures IsArchiveDbVersion(s) <==> DbVersion(s)
  {
    ScanMeaning(s);
  }

  /** A name has one dash only, so the version and the history id in it are unique. */
  lemma DashUnique(s: string, d: int, e: int)
    requires DbVersionAt(s, d) && DbVersionAt(s, e)
    ensures d == e
  {
    VersionNoDash(s[..d]);
    VersionNoDash(s[..e]);
  }

  /** A version, a dash and a history id make a name the matcher accepts. */
  lemma AcceptsVersionAndId(v: string, id: string)
    requires Version(v) && Digits(id)
    ensures IsArchiveDbVersion(v + "-" + id)
  {
    var s := v + "-" + id;
    assert s[..|v|] == v;
    assert s[|v| + 1..] == id;
    assert DbVersionAt(s, |v|);
    MatcherIsPattern(s);
  }

  /** The empty string and any string with no dash are rejected. */
  lemma RejectsWithoutDash(s: string)
    requires '-' !in s
    ensures !IsArchiveDbVersion(s)
  {
    MatcherIsPattern(s);
  }

  /** Splitting v + "-" + id at any dash that makes it match means splitting at v's end. */
  lemma SplitAtVersion(v: string, id: string)
    requires '-' !in v
    requires DbVersion(v + "-" + id)
    ensures Version(v) && Digits(id)
  {
    var s := v + "-" + id;
    var d :| 0 <= d < |s| && DbVersionAt(s, d);
    VersionNoDash(s[..d]);
    assert d >= |v| by {
      assert forall i :: 0 <= i < |v| ==> s[i] == v[i];
    }
    assert d <= |v| by {
      assert s[|v|] == '-';
      assert forall i :: 0 <= i < d ==> s[..d][i] == s[i];
    }
    assert s[..|v|] == v;
    assert s[|v| + 1..] == id;
  }

  /**
   * A version part that is empty, starts or ends with a dot, or holds two
   * dots in a row makes the name rejected.
   */
  lemma RejectsBadVersion(v: string, id: string)
    requires '-' !in v
    requires v == [] || v[0] == '.' || v[|v| - 1] == '.' || exists i :: 0 < i < |v| && v[i] == '.' && v[i - 1] == '.'
    ensures !IsArchiveDbVersion(v + "-" + id)
  {
    MatcherIsPattern(v + "-" + id);
    if DbVersion(v + "-" + id) {
      SplitAtVersion(v, id);
    }
  }

  /** A history id that is empty or holds anything but digits (another dash included) makes the name rejected. */
  lemma RejectsBadId(v: string, id: string)
    requires '-' !in v
    requires id == [] || exists i :: 0 <= i < |id| && !IsDigit(id[i])
    ensures !IsArchiveDbVersion(v + "-" + id)
  {
    MatcherIsPattern(v + "-" + id);
    if DbVersion(v + "-" + id) {
      SplitAtVersion(v, id);
    }
  }

  /** The names used for the two archive directories of a repository, and names that are not ones. */
  lemma DbVersionExamples()
    ensures IsArchiveDbVersion("10-1") && IsArchiveDbVersion("10-2") && IsArchiveDbVersion("9.4-2")
    ensures !IsArchiveDbVersion("") && !IsArchiveDbVersion("10")
    ensures !IsArchiveDbVersion(".10-1") && !IsArchiveDbVersion("10.-1") && !IsArchiveDbVersion("9..4-1")
    ensures !IsArchiveDbVersion("10-1a") && !IsArchiveDbVersion("10-1-2") && !IsArchiveDbVersion("10-")
  {
    AcceptsVersionAndId("10", "1");
    AcceptsVersionAndId("10", "2");
    assert "9.4"[1] == '.';
    AcceptsVersionAndId("9.4", "2");
    assert "10" + "-" + "1" == "10-1" && "10" + "-" + "2" == "10-2" && "9.4" + "-" + "2" == "9.4-2";
    RejectsWithoutDash("");
    RejectsWithoutDash("10");
    RejectsBadVersion(".10", "1");
    RejectsBadVersion("10.", "1");
    assert "9..4"[2] == '.' && "9..4"[1] == '.';
    RejectsBadVersion("9..4", "1");
    assert ".10" + "-" + "1" == ".10-1" && "10." + "-" + "1" == "10.-1" && "9..4" + "-" + "1" == "9..4-1";
    assert !IsDigit("1a"[1]) && !IsDigit("1-2"[1]);
    RejectsBadId("10", "1a");
    RejectsBadId("10", "1-2");
    RejectsBadId("10", "");
    assert "10" + "-" + "1a" == "10-1a" && "10" + "-" + "1-2" == "10-1-2" && "10" + "-" + "" == "10-";
  }
}
