/** The files a stage graph is read from, and what is wrong with them (stage/map.go). */
module StageFiles {
  import opened Wrappers

  type Id = string
  type Path = string

  datatype Error =
    | MissingNext(path: Path)
    | DirectoryNext(path: Path)
    | Unreadable(path: Path)
    | CycleAt(stage: nat)
    | Duplicate(stage: nat, child: nat)

  /** A stage definition: its id and the files it names as next stages. */
  datatype Definition = Definition(id: Id, nextPaths: seq<Path>)

  datatype Stored = Directory | Broken | Readable(def: Definition)

  /** The stage files, and the id that a file name stands for (fileNameWithoutPathAndExt). The id
      in a file's content may differ from it. */
  datatype Disk = Disk(files: map<Path, Stored>, nameOf: Path -> Id)

  predicate Holds(disk: Disk, path: Path) {
    path in disk.files && disk.files[path].Readable?
  }

  predicate AreFiles(disk: Disk, paths: seq<Path>) {
    forall i :: 0 <= i < |paths| ==> paths[i] in disk.files && !disk.files[paths[i]].Directory?
  }

  /** Path i is the first that is missing or a directory, and e says so. */
  predicate FirstBad(disk: Disk, paths: seq<Path>, i: nat, e: Error) {
    && i < |paths| && AreFiles(disk, paths[..i])
    && if paths[i] !in disk.files then e == MissingNext(paths[i])
       else disk.files[paths[i]].Directory? && e == DirectoryNext(paths[i])
  }

  // ---------------------------------------------------------------- definitions that lead to others

  ghost predicate Follows(disk: Disk, d: Definition, next: Definition) {
    exists path :: path in d.nextPaths && Holds(disk, path) && disk.files[path].def == next
  }

  ghost predicate Chain(disk: Disk, w: seq<Definition>, a: Definition, b: Definition) {
    && |w| > 0 && w[0] == a && w[|w| - 1] == b
    && forall i :: 0 <= i < |w| - 1 ==> Follows(disk, w[i], w[i + 1])
  }

  /** b is a, or is read from a file that a names, or that one of those files names, and so on. */
  ghost predicate DefReaches(disk: Disk, a: Definition, b: Definition) {
    exists w :: Chain(disk, w, a, b)
  }

  lemma DefReachesSelf(disk: Disk, a: Definition)
    ensures DefReaches(disk, a, a)
  {
    assert Chain(disk, [a], a, a);
  }

  lemma DefReachesFrom(disk: Disk, a: Definition, b: Definition, d: Definition)
    requires Follows(disk, a, b) && DefReaches(disk, b, d)
    ensures DefReaches(disk, a, d)
  {
    var w :| Chain(disk, w, b, d);
    assert Chain(disk, [a] + w, a, d);
  }

  // ---------------------------------------------------------------- faults

  /** Reading the next stages of this definition fails: a path is missing or a directory, or all are
      files and one of them cannot be read. */
  ghost predicate Fault(disk: Disk, d: Definition, e: Error) {
    || (exists i :: FirstBad(disk, d.nextPaths, i, e))
    || (AreFiles(disk, d.nextPaths) && e.Unreadable? && e.path in d.nextPaths && !Holds(disk, e.path))
  }

  /** A definition that this one leads to has the fault. */
  ghost predicate Faulty(disk: Disk, start: Definition, e: Error) {
    exists d :: DefReaches(disk, start, d) && Fault(disk, d, e)
  }

  /** The file cannot be read, or leads to a fault. */
  ghost predicate FaultyFile(disk: Disk, path: Path, e: Error) {
    if Holds(disk, path) then Faulty(disk, disk.files[path].def, e) else e == Unreadable(path)
  }

  lemma FaultHere(disk: Disk, d: Definition, e: Error)
    requires Fault(disk, d, e)
    ensures Faulty(disk, d, e)
  {
    DefReachesSelf(disk, d);
  }

  lemma FaultBelow(disk: Disk, d: Definition, path: Path, e: Error)
    requires AreFiles(disk, d.nextPaths) && path in d.nextPaths && FaultyFile(disk, path, e)
    ensures Faulty(disk, d, e)
  {
    if Holds(disk, path) {
      var next := disk.files[path].def;
      var b :| DefReaches(disk, next, b) && Fault(disk, b, e);
      assert Follows(disk, d, next);
      DefReachesFrom(disk, d, next, b);
    } else {
      FaultHere(disk, d, e);
    }
  }

  /** Where the definition comes from. */
  predicate Source(disk: Disk, start: Definition, d: Definition) {
    d == start || exists path :: path in disk.files && disk.files[path] == Readable(d)
  }

  /** The id in a file is that of its name, and files of the same name, or of the starting stage's
      name, are copies of each other. */
  ghost predicate Unambiguous(disk: Disk, start: Definition) {
    && (forall p :: Holds(disk, p) ==> disk.files[p].def.id == disk.nameOf(p))
    && (forall p, q :: p in disk.files && q in disk.files && disk.nameOf(p) == disk.nameOf(q) ==>
          disk.files[p] == disk.files[q])
    && (forall p :: p in disk.files && disk.nameOf(p) == start.id ==> disk.files[p] == Readable(start))
  }
}
