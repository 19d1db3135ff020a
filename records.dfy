/** Reading one credential record file inside `unlock_databases`
    (systemd/keepassxc-unlock.c): the header scanner that collects the `DB=` and
    `KEY=` values and skips `PASSWORD:` lines, the line number from which
    `tail -n+N` hands the encrypted blob to the decryptor, and the record name
    taken from the file name. A file is a sequence of lines without their
    line breaks. */
module Records {
  import opened Base

  /** What the header scan leaves in `kdbx_file`, `key_file` and `passwd_start_line`. */
  datatype Header = Header(db: string, key: string, startLine: nat)

  /** A line the scanner consumes without stopping. */
  predicate IsHeaderLine(line: string) {
    HasPrefix(line, "DB=") || HasPrefix(line, "KEY=") || HasPrefix(line, "PASSWORD:")
  }

  /** Index of the first line that is not a header line, or the number of lines. */
  function StopIndex(lines: seq<string>): (k: nat)
    ensures k <= |lines|
    ensures forall j :: 0 <= j < k ==> IsHeaderLine(lines[j])
    ensures k < |lines| ==> !IsHeaderLine(lines[k])
  {
    if lines == [] || !IsHeaderLine(lines[0]) then 0 else 1 + StopIndex(lines[1..])
  }

  /** The text after `prefix` on the last line that starts with it, up to any
      NUL (strncpy stops there), or "" if no line starts with it. */
  function LastValue(lines: seq<string>, prefix: string): (v: string)
    ensures NUL !in v
  {
    if lines == [] then ""
    else if HasPrefix(lines[|lines| - 1], prefix) then CString(lines[|lines| - 1][|prefix|..])
    else LastValue(lines[..|lines| - 1], prefix)
  }

  /** The number of lines the scanner reads: through the first non-header line,
      or all of them. */
  function TailStart(lines: seq<string>): nat {
    var k := StopIndex(lines);
    if k < |lines| then k + 1 else |lines|
  }

  /** The header a record file yields: the last `DB=` and `KEY=` values among the
      header lines, and the line the blob starts at. */
  function HeaderOf(lines: seq<string>): Header {
    var scanned := lines[..StopIndex(lines)];
    Header(LastValue(scanned, "DB="), LastValue(scanned, "KEY="), TailStart(lines))
  }

  /** `tail -n+N`: the lines from the N-th (1-based) on; N = 0 behaves as N = 1. */
  function Tail(lines: seq<string>, n: nat): seq<string> {
    if n <= 1 then lines else if n - 1 <= |lines| then lines[n - 1..] else []
  }

  /** The header scan loop. */
  method ParseHeader(lines: seq<string>) returns (h: Header)
    ensures h.startLine == TailStart(lines)
    ensures h.db == LastValue(lines[..StopIndex(lines)], "DB=")
    ensures h.key == LastValue(lines[..StopIndex(lines)], "KEY=")
    ensures NUL !in h.db && NUL !in h.key
  {
    var db, key := "", "";
    var n: nat := 0;
    while n < |lines|
      invariant n <= StopIndex(lines)
      invariant db == LastValue(lines[..n], "DB=")
      invariant key == LastValue(lines[..n], "KEY=")
    {
      var line := lines[n];
      assert lines[..n + 1][..n] == lines[..n];
      n := n + 1;
      assert line == lines[..n][n - 1];
      if HasPrefix(line, "DB=") {
        assert line[0] == 'D' && !HasPrefix(line, "KEY=");
        db := CString(line[3..]);
      } else if HasPrefix(line, "KEY=") {
        key := CString(line[4..]);
      } else if !HasPrefix(line, "PASSWORD:") {
        // the encrypted blob starts at this line
        assert StopIndex(lines) == n - 1;
        return Header(db, key, n);
      } else {
        assert HasPrefix(lines[..n][n - 1], "PASSWORD:");
        assert !HasPrefix(lines[..n][n - 1], "DB=") && !HasPrefix(lines[..n][n - 1], "KEY=");
      }
    }
    h := Header(db, key, n);
  }

  /** The header scanner as a whole computes HeaderOf. */
  method ParseRecord(lines: seq<string>) returns (h: Header, blob: seq<string>)
    ensures h == HeaderOf(lines)
    ensures blob == Tail(lines, h.startLine)
  {
    h := ParseHeader(lines);
    blob := Tail(lines, h.startLine);
  }

  /** A later `DB=` (or `KEY=`) line overrides an earlier one; its value is
      read up to any NUL. */
  lemma LaterValueOverrides(lines: seq<string>, prefix: string, v: string)
    ensures LastValue(lines + [prefix + v], prefix) == CString(v)
    ensures NUL !in v ==> LastValue(lines + [prefix + v], prefix) == v
  {
    var all := lines + [prefix + v];
    assert all[|all| - 1] == prefix + v;
    assert (prefix + v)[..|prefix|] == prefix;
    assert (prefix + v)[|prefix|..] == v;
  }

  /** A file whose every line is a header line has no blob of its own: the scan
      reads to the end and `tail` starts at its last line. */
  lemma NoBlobLineTailIsLastLine(lines: seq<string>)
    requires lines != []
    requires forall j :: 0 <= j < |lines| ==> IsHeaderLine(lines[j])
    ensures HeaderOf(lines).startLine == |lines|
    ensures Tail(lines, HeaderOf(lines).startLine) == [lines[|lines| - 1]]
  {
    assert StopIndex(lines) == |lines|;
  }

  /** When a non-header line exists, the blob is everything from the first one on,
      and every line before it is a header line. */
  lemma BlobStartsAtFirstOtherLine(lines: seq<string>)
    requires exists j :: 0 <= j < |lines| && !IsHeaderLine(lines[j])
    ensures StopIndex(lines) < |lines|
    ensures Tail(lines, HeaderOf(lines).startLine) == lines[StopIndex(lines)..]
    ensures !IsHeaderLine(lines[StopIndex(lines)])
  {
  }

  /** A string without NUL is its own C string. */
  lemma CStringOfNulFree(s: string)
    ensures NUL !in s ==> CString(s) == s
  {
    if NUL !in s {
      assert IndexOf(s, NUL) == |s|;
    }
  }

  /** The record layout the setup tool writes parses back to its parts. */
  lemma {:induction false} WellFormedRecordParses(db: string, key: string, blob: seq<string>)
    requires blob != [] && !IsHeaderLine(blob[0])
    ensures var lines := ["DB=" + db, "KEY=" + key, "PASSWORD:"] + blob;
      HeaderOf(lines) == Header(CString(db), CString(key), 4) && Tail(lines, 4) == blob
    // paths written as C strings hold no NUL and come back whole
    ensures NUL !in db && NUL !in key ==>
      HeaderOf(["DB=" + db, "KEY=" + key, "PASSWORD:"] + blob) == Header(db, key, 4)
  {
    var lines := ["DB=" + db, "KEY=" + key, "PASSWORD:"] + blob;
    assert ("DB=" + db)[..3] == "DB=";
    assert ("KEY=" + key)[..4] == "KEY=";
    assert ("PASSWORD:")[..9] == "PASSWORD:";
    assert lines[1..][1..][1..] == blob;
    assert StopIndex(lines[1..][1..][1..]) == 0;
    assert StopIndex(lines[1..][1..]) == 1;
    assert StopIndex(lines[1..]) == 2;
    assert StopIndex(lines) == 3;
    var scanned := lines[..3];
    assert scanned == ["DB=" + db, "KEY=" + key, "PASSWORD:"];
    assert !HasPrefix("PASSWORD:", "DB=") by {
      assert "PASSWORD:"[..3][0] == 'P';
    }
    assert !HasPrefix("PASSWORD:", "KEY=") by {
      assert "PASSWORD:"[..4][0] == 'P';
    }
    assert !HasPrefix("KEY=" + key, "DB=") by {
      assert ("KEY=" + key)[..3][0] == 'K';
    }
    assert scanned[..2] == ["DB=" + db, "KEY=" + key];
    assert scanned[..2][..1] == ["DB=" + db];
    assert LastValue(scanned, "DB=") == LastValue(scanned[..2], "DB=") == LastValue(scanned[..2][..1], "DB=") == CString(db);
    assert LastValue(scanned, "KEY=") == LastValue(scanned[..2], "KEY=") == CString(key);
    CStringOfNulFree(db);
    CStringOfNulFree(key);
  }

  /** The record name passed to the decryptor: the part of the file name (after
      the last '/') before its first ".conf", or "" when the path has no '/' or
      the file name has no ".conf". */
  function RecordName(path: string): (name: string)
    ensures '/' !in path ==> name == ""
    ensures '/' !in name
    ensures name != "" ==>
      (exists k :: 0 <= k < |path| && path[k] == '/' && OccursAt(path, name + ".conf", k + 1))
    // after the last '/', the text up to the first ".conf"
    ensures forall k: nat, j: nat :: (IsLastSlash(path, k) && FirstConfAfter(path, k, j)) ==> name == path[k + 1..j]
    // no ".conf" after the last '/'
    ensures forall k: nat :: (IsLastSlash(path, k) && NoConfAfter(path, k)) ==> name == ""
  {
    match LastIndexOf(path, '/')
    case None => ""
    case Some(k) =>
      var base := path[k + 1..];
      match Find(base, ".conf", 0)
      case None =>
        NoConfAfterSlash(path, k);
        ""
      case Some(j) =>
        FirstConfAfterSlash(path, k, j);
        base[..j]
  }

  /** `k` is the position of the last '/' of `path`. */
  predicate IsLastSlash(path: string, k: nat) {
    k < |path| && path[k] == '/' && '/' !in path[k + 1..]
  }

  /** `j` is the first ".conf" after position `k`. */
  ghost predicate FirstConfAfter(path: string, k: nat, j: nat) {
    k < j && OccursAt(path, ".conf", j) && forall i :: k < i < j ==> !OccursAt(path, ".conf", i)
  }

  /** No ".conf" starts after position `k`. */
  ghost predicate NoConfAfter(path: string, k: nat) {
    forall i :: k < i ==> !OccursAt(path, ".conf", i)
  }

  /** Only one '/' has no '/' after it. */
  lemma LastSlashUnique(path: string, k: nat)
    requires LastIndexOf(path, '/') == Some(k)
    ensures forall k': nat :: IsLastSlash(path, k') ==> k' == k
  {
    forall k' | IsLastSlash(path, k') ensures k' == k {
    }
  }

  /** Without ".conf" in the file name, none follows the last '/'. */
  lemma NoConfAfterSlash(path: string, k: nat)
    requires LastIndexOf(path, '/') == Some(k)
    requires Find(path[k + 1..], ".conf", 0).None?
    ensures forall k': nat, j': nat :: IsLastSlash(path, k') ==> !FirstConfAfter(path, k', j')
  {
    LastSlashUnique(path, k);
    OccursInSuffix(path, k + 1, ".conf");
    forall k': nat, j': nat | IsLastSlash(path, k') && FirstConfAfter(path, k', j') ensures false {
    }
  }

  /** The first ".conf" of the file name is the first after the last '/' in the
      whole path, and the name is the text between them. */
  lemma FirstConfAfterSlash(path: string, k: nat, j: nat)
    requires LastIndexOf(path, '/') == Some(k)
    requires Find(path[k + 1..], ".conf", 0) == Some(j)
    ensures '/' !in path[k + 1..][..j]
    ensures OccursAt(path, path[k + 1..][..j] + ".conf", k + 1)
    ensures forall k': nat, j': nat :: (IsLastSlash(path, k') && FirstConfAfter(path, k', j')) ==> path[k + 1..][..j] == path[k' + 1..j']
    ensures forall k': nat :: IsLastSlash(path, k') ==> !NoConfAfter(path, k')
  {
    var base := path[k + 1..];
    assert base[..j] == path[k + 1..k + 1 + j];
    assert forall c :: c in base[..j] ==> c in base;
    ConfAt(path, k + 1, j);
    FirstConfShifted(path, k, j);
  }

  /** The file name's ".conf" at `j` is the path's at `d + j`. */
  lemma ConfAt(path: string, d: nat, j: nat)
    requires d <= |path| && OccursAt(path[d..], ".conf", j)
    ensures OccursAt(path, path[d..][..j] + ".conf", d)
    ensures OccursAt(path, ".conf", d + j)
  {
    var base := path[d..];
    assert base[..j + 5] == base[..j] + base[j..j + 5];
    assert path[d..d + j + 5] == base[..j + 5];
    assert path[d + j..d + j + 5] == base[j..j + 5];
  }

  /** Any first ".conf" after the last '/' is the one Find reports, shifted. */
  lemma FirstConfShifted(path: string, k: nat, j: nat)
    requires LastIndexOf(path, '/') == Some(k)
    requires Find(path[k + 1..], ".conf", 0) == Some(j)
    requires OccursAt(path, ".conf", k + 1 + j)
    ensures forall k': nat, j': nat :: (IsLastSlash(path, k') && FirstConfAfter(path, k', j')) ==> j' == k + 1 + j && k' == k
  {
    LastSlashUnique(path, k);
    OccursInSuffix(path, k + 1, ".conf");
    forall k': nat, j': nat | IsLastSlash(path, k') && FirstConfAfter(path, k', j')
      ensures j' == k + 1 + j
    {
      assert OccursAt(path[k + 1..], ".conf", j' - (k + 1));
    }
  }

  /** An occurrence in the suffix from `d` is an occurrence `d` further on in the whole. */
  lemma OccursInSuffix(s: string, d: nat, pat: string)
    requires d <= |s|
    ensures forall i :: d <= i ==> (OccursAt(s, pat, i) <==> OccursAt(s[d..], pat, i - d))
  {
    forall i | d <= i ensures OccursAt(s, pat, i) <==> OccursAt(s[d..], pat, i - d) {
      if i + |pat| <= |s| {
        assert s[d..][i - d..i - d + |pat|] == s[i..i + |pat|];
      }
    }
  }

  /** The last '/' is the one with no '/' after it. */
  lemma LastSlashAt(path: string, k: nat)
    requires k < |path| && path[k] == '/' && '/' !in path[k + 1..]
    ensures LastIndexOf(path, '/') == Some(k)
  {
    assert path[k] in path;
  }

  /** The first occurrence is the one with none before it. */
  lemma FindFirstAt(s: string, pat: string, j: nat)
    requires OccursAt(s, pat, j) && forall i :: 0 <= i < j ==> !OccursAt(s, pat, i)
    ensures Find(s, pat, 0) == Some(j)
  {
    var r := Find(s, pat, 0);
    assert r.Some?;
  }

  /** A ".conf" in a directory name does not count: only the file name after
      the last '/' is searched. */
  lemma RecordNameIgnoresDirectories()
    ensures RecordName("/a.conf/b.conf") == "b"
    ensures RecordName("/d.conf/x") == ""
  {
    assert IsLastSlash("/a.conf/b.conf", 7);
    assert FirstConfAfter("/a.conf/b.conf", 7, 9) by {
      assert "/a.conf/b.conf"[9..14] == ".conf";
      assert !OccursAt("/a.conf/b.conf", ".conf", 8) by {
        assert "/a.conf/b.conf"[8..13][0] == 'b';
      }
    }
    assert "/a.conf/b.conf"[8..9] == "b";
    assert IsLastSlash("/d.conf/x", 7);
  }

  /** A file matched by the record pattern `<dir>/<stem>.conf` is named after its stem,
      provided the stem contains no '/' and ".conf" first occurs at its end. */
  lemma RecordNameOfConfFile(dir: string, stem: string)
    requires '/' !in stem
    requires forall j :: 0 <= j < |stem| ==> !OccursAt(stem + ".conf", ".conf", j)
    ensures RecordName(dir + "/" + stem + ".conf") == stem
  {
    var path := dir + "/" + stem + ".conf";
    var k := |dir|;
    var base := stem + ".conf";
    assert path[k] == '/';
    assert path[k + 1..] == base;
    assert '/' !in base by {
      forall c | c in base ensures c != '/' {
        assert c in stem || c in ".conf";
      }
    }
    LastSlashAt(path, k);
    assert OccursAt(base, ".conf", |stem|);
    FindFirstAt(base, ".conf", |stem|);
    assert base[..|stem|] == stem;
  }
}
