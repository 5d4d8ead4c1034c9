/** Following `.so` redirections (`resolve_so_chain`, ingest_manpages.py:443-519).
    A page whose first line is `.so <target>` stands for another page. The
    resolver follows such lines from file to file. It stops at the first
    file that is not a redirection, or at a target that does not exist, for
    which it writes a `.temp_<name>` stub next to the starting page. It gives
    up on a file it has already visited and on a file it cannot read. */
module Resolver {
  import opened Strings
  import opened Common
  import opened Paths

  /** The files the resolver can see. `firstLines` maps each readable file
      to its first line, without the line break. `present` holds what
      `Path.exists()` accepts, directories included. */
  datatype FileSystem = FileSystem(firstLines: map<Path, string>, present: set<Path>)

  /** The outcomes, as `(is_so_file, temp_file, working_dir)`:
      `NoChain` is `(False, None, None)`. `Resolved(f, d)` is `(True, f, d)`
      for a file that is not a redirection. `Redirected(t, s, d)` is
      `(True, t, d)` after writing the stub text `s` to `t`. */
  datatype SoResult =
    | NoChain
    | Resolved(file: Path, workDir: Path)
    | Redirected(tempFile: Path, stubText: string, workDir: Path)

  /** `first_line.startswith('.so ')`, after stripping. */
  predicate IsSoLine(line: string) {
    StartsWith(Strip(line), ".so ")
  }

  /** `first_line[4:].strip()`. */
  function SoTarget(line: string): string
    requires IsSoLine(line)
  {
    Strip(Strip(line)[4..])
  }

  /** The name the stub names: the last `/`-separated part of the target. */
  function LinkName(soPath: string): (r: string)
    ensures '/' !in r
  {
    if '/' in soPath then
      var parts := Split(soPath, '/');
      parts[|parts| - 1]
    else soPath
  }

  /** `man_source.parent / f".temp_{man_source.name}"`. */
  function TempPath(start: Path): Path {
    Child(Parent(start), ".temp_" + Name(start))
  }

  /** The file a target names, if one exists. A `dir/file` target is first
      looked up as a sibling directory of the current file's directory, then
      as `file` next to the current file. A plain target is looked up next
      to the current file. */
  function NextFile(fs: FileSystem, current: Path, soPath: string): (r: Option<Path>)
    ensures r.Some? ==> r.value in fs.present
  {
    if '/' in soPath then
      var parts := Split(soPath, '/');
      if |parts| == 2 && Sibling(current, parts[0], parts[1]) in fs.present then
        Some(Sibling(current, parts[0], parts[1]))
      else
        var near := Child(Parent(current), LinkName(soPath));
        if near in fs.present then Some(near) else None
    else
      var near := Child(Parent(current), soPath);
      if near in fs.present then Some(near) else None
  }

  /** `current_file.parent.parent / dir / file`. */
  function Sibling(current: Path, dir: string, file: string): Path {
    Child(Child(Parent(Parent(current)), dir), file)
  }

  /** The loop from `current`, with the files already visited. */
  function Follow(fs: FileSystem, start: Path, current: Path, visited: set<Path>): (r: SoResult)
    ensures r.Resolved? ==> r.file in fs.firstLines && !IsSoLine(fs.firstLines[r.file]) && r.workDir == Parent(r.file)
    ensures r.Resolved? ==> r.file !in visited
    ensures r.Redirected? ==> r.tempFile == TempPath(start) && r.workDir == Parent(start)
    ensures r.Redirected? ==> exists name :: '/' !in name && r.stubText == ".so " + name + "\n"
    decreases |fs.firstLines.Keys - visited|
  {
    if current in visited then NoChain
    else if current !in fs.firstLines then NoChain
    else
      var line := fs.firstLines[current];
      if !IsSoLine(line) then Resolved(current, Parent(current))
      else
        var soPath := SoTarget(line);
        match NextFile(fs, current, soPath)
        case Some(next) =>
          FewerUnvisited(fs.firstLines.Keys, visited, current);
          Follow(fs, start, next, visited + {current})
        case None => Redirected(TempPath(start), ".so " + LinkName(soPath) + "\n", Parent(start))
  }

  /** Visiting one more readable file leaves fewer readable files unvisited. */
  lemma FewerUnvisited(keys: set<Path>, visited: set<Path>, current: Path)
    requires current in keys && current !in visited
    ensures |keys - (visited + {current})| < |keys - visited|
  {
    assert keys - (visited + {current}) == (keys - visited) - {current};
  }

  /** `resolve_so_chain(man_source)`: nothing unless the page itself starts
      with a redirection, otherwise the loop from the page. */
  function ResolveSoChain(fs: FileSystem, start: Path): (r: SoResult)
    ensures start !in fs.firstLines || !IsSoLine(fs.firstLines[start]) ==> r == NoChain
    ensures r.Resolved? ==> r.file in fs.firstLines && !IsSoLine(fs.firstLines[r.file]) && r.workDir == Parent(r.file)
    ensures r.Resolved? ==> r.file != start
    ensures r.Redirected? ==> r.tempFile == TempPath(start) && r.workDir == Parent(start)
  {
    if start !in fs.firstLines || !IsSoLine(fs.firstLines[start]) then NoChain
    else Follow(fs, start, start, {})
  }

  // ---------------------------------------------------------------------------
  // the loop
  // ---------------------------------------------------------------------------

  /** `resolve_so_chain(man_source)`, with the stub write returned rather
      than performed. */
  method ResolveSoChainLoop(fs: FileSystem, start: Path) returns (r: SoResult)
    ensures r == ResolveSoChain(fs, start)
  {
    var startedWithSo := start in fs.firstLines && IsSoLine(fs.firstLines[start]);
    if !startedWithSo {
      return NoChain;
    }
    var visited: set<Path> := {};
    var current := start;
    while true
      invariant Follow(fs, start, current, visited) == ResolveSoChain(fs, start)
      decreases |fs.firstLines.Keys - visited|
    {
      var done, next;
      done, r, next := VisitFile(fs, start, current, visited);
      if done {
        return;
      }
      FewerUnvisited(fs.firstLines.Keys, visited, current);
      visited := visited + {current};
      current := next;
    }
  }

  /** One pass of the loop: either an outcome, or the next file to visit. */
  method VisitFile(fs: FileSystem, start: Path, current: Path, visited: set<Path>)
    returns (done: bool, r: SoResult, next: Path)
    ensures done ==> r == Follow(fs, start, current, visited)
    ensures !done ==> current in fs.firstLines && current !in visited
    ensures !done ==> Follow(fs, start, current, visited) == Follow(fs, start, next, visited + {current})
  {
    next := current;
    if current in visited || current !in fs.firstLines {
      return true, NoChain, next;
    }
    var firstLine := Strip(fs.firstLines[current]);
    if !StartsWith(firstLine, ".so ") {
      return true, Resolved(current, Parent(current)), next;
    }
    var soPath := Strip(firstLine[4..]);
    var found, target, filename := LookUpTarget(fs, current, soPath);
    FollowSo(fs, start, current, visited);
    if found {
      return false, NoChain, target;
    }
    r := Redirected(Child(Parent(start), ".temp_" + Name(start)), ".so " + filename + "\n", Parent(start));
    return true, r, next;
  }

  /** The path resolution inside the loop. */
  method LookUpTarget(fs: FileSystem, current: Path, soPath: string)
    returns (found: bool, target: Path, filename: string)
    ensures found ==> NextFile(fs, current, soPath) == Some(target)
    ensures !found ==> NextFile(fs, current, soPath) == None && filename == LinkName(soPath)
  {
    if '/' in soPath {
      var parts := Split(soPath, '/');
      if |parts| == 2 {
        target := Child(Child(Parent(Parent(current)), parts[0]), parts[1]);
        if target in fs.present {
          return true, target, "";
        }
      }
      filename := parts[|parts| - 1];
    } else {
      filename := soPath;
    }
    target := Child(Parent(current), filename);
    found := target in fs.present;
  }

  /** One step of the loop at a redirection. */
  lemma FollowSo(fs: FileSystem, start: Path, current: Path, visited: set<Path>)
    requires current !in visited && current in fs.firstLines && IsSoLine(fs.firstLines[current])
    ensures var soPath := SoTarget(fs.firstLines[current]);
      match NextFile(fs, current, soPath)
      case Some(next) => Follow(fs, start, current, visited) == Follow(fs, start, next, visited + {current})
      case None => Follow(fs, start, current, visited)
                   == Redirected(TempPath(start), ".so " + LinkName(soPath) + "\n", Parent(start))
  {
  }

  // ---------------------------------------------------------------------------
  // properties
  // ---------------------------------------------------------------------------

  /** A page that redirects to itself is a loop, and the resolver gives up. */
  lemma SelfRedirectGivesUp(fs: FileSystem, dir: Path, a: string)
    requires ValidName(a)
    requires dir + [a] in fs.firstLines && dir + [a] in fs.present
    requires fs.firstLines[dir + [a]] == ".so " + a
    ensures ResolveSoChain(fs, dir + [a]) == NoChain
  {
    var pa := dir + [a];
    SoLineTarget(a);
    NearFile(fs, pa, dir, a);
    FollowSo(fs, pa, pa, {});
  }

  /** Two pages that redirect to each other are a loop as well. */
  lemma MutualRedirectGivesUp(fs: FileSystem, dir: Path, a: string, b: string)
    requires a != b && ValidName(a) && ValidName(b)
    requires dir + [a] in fs.firstLines && dir + [b] in fs.firstLines
    requires dir + [a] in fs.present && dir + [b] in fs.present
    requires fs.firstLines[dir + [a]] == ".so " + b && fs.firstLines[dir + [b]] == ".so " + a
    ensures ResolveSoChain(fs, dir + [a]) == NoChain
  {
    var pa, pb := dir + [a], dir + [b];
    SoLineTarget(a);
    SoLineTarget(b);
    NearFile(fs, pa, dir, b);
    NearFile(fs, pb, dir, a);
    assert pa != pb by {
      assert pa[|dir|] == a && pb[|dir|] == b;
    }
    FollowSo(fs, pa, pa, {});
    FollowSo(fs, pa, pb, {pa});
    assert pa in {pa} + {pb};
  }

  /** A plain target names the file next to the current one. */
  lemma NearFile(fs: FileSystem, current: Path, dir: Path, name: string)
    requires ValidName(name) && Parent(current) == dir && dir + [name] in fs.present
    ensures NextFile(fs, current, name) == Some(dir + [name])
  {
  }

  /** A file name: one non-empty path component other than `.`, not
      starting or ending with whitespace. */
  predicate ValidName(n: string) {
    n != "" && n != "." && '/' !in n && !IsSpace(n[0]) && !IsSpace(n[|n| - 1])
  }

  /** `.so name` names `name`. */
  lemma SoLineTarget(name: string)
    requires name != [] && !IsSpace(name[0]) && !IsSpace(name[|name| - 1])
    ensures IsSoLine(".so " + name) && SoTarget(".so " + name) == name
  {
    var line := ".so " + name;
    SplitAppend(".so ", name);
    DotNotSpace();
    assert line[0] == '.';
    assert line[|line| - 1] == name[|name| - 1];
    StripIdempotentOnStripped(line);
    StripIdempotentOnStripped(name);
  }

  lemma DotNotSpace()
    ensures !IsSpace('.')
  {
  }

  /** A `dir/file` target is looked up in the sibling directory first. */
  lemma SiblingDirectoryFirst(fs: FileSystem, current: Path, dir: string, file: string)
    requires '/' !in dir && '/' !in file
    requires Child(Child(Parent(Parent(current)), dir), file) in fs.present
    ensures NextFile(fs, current, dir + "/" + file) == Some(Child(Child(Parent(Parent(current)), dir), file))
  {
    var s := dir + "/" + file;
    assert s == dir + ['/'] + file;
    assert s[|dir|] == '/';
    SplitConcat(dir, file, '/');
    SplitNoSeparator(dir, '/');
    SplitNoSeparator(file, '/');
  }

  /** A missing target leaves a stub next to the page the chain started
      from, naming the target's last part, whatever directory the chain had
      reached. */
  lemma StubNextToStart(fs: FileSystem, start: Path)
    requires ResolveSoChain(fs, start).Redirected?
    ensures var r := ResolveSoChain(fs, start);
      && Parent(r.tempFile) == Parent(start)
      && r.workDir == Parent(start)
      && exists name :: '/' !in name && r.stubText == ".so " + name + "\n"
  {
    var r := ResolveSoChain(fs, start);
    var n := ".temp_" + Name(start);
    assert n != "" && n != ".";
    assert r.stubText == Follow(fs, start, start, {}).stubText;
  }
}
