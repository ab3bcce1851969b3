/** How a stage graph is read from its files and checked (stage/map.go). A pointer to a stage is
    its number in the order of registration. */
module StageGraph {
  import opened StageFiles
  import opened StageRun
  import opened StageSafety
  import opened Wrappers

  datatype Result<+T> = Ok(value: T) | Err(error: Error)

  // ---------------------------------------------------------------- walks

  predicate InGraph(next: seq<seq<nat>>) {
    forall p, i :: 0 <= p < |next| && 0 <= i < |next[p]| ==> next[p][i] < |next|
  }

  predicate Walk(next: seq<seq<nat>>, w: seq<nat>) {
    && |w| > 0
    && (forall i :: 0 <= i < |w| ==> w[i] < |next|)
    && (forall i :: 0 <= i < |w| - 1 ==> w[i + 1] in next[w[i]])
  }

  ghost predicate Leads(next: seq<seq<nat>>, w: seq<nat>, a: nat, b: nat) {
    Walk(next, w) && w[0] == a && w[|w| - 1] == b
  }

  ghost predicate Reaches(next: seq<seq<nat>>, a: nat, b: nat) {
    exists w :: Leads(next, w, a, b)
  }

  lemma ReachesTrans(next: seq<seq<nat>>, a: nat, b: nat, d: nat)
    requires Reaches(next, a, b) && Reaches(next, b, d)
    ensures Reaches(next, a, d)
  {
    var v :| Leads(next, v, a, b);
    var w :| Leads(next, w, b, d);
    assert Leads(next, v + w[1..], a, d);
  }

  lemma ReachesStep(next: seq<seq<nat>>, a: nat, b: nat)
    requires a < |next| && b < |next| && b in next[a]
    ensures Reaches(next, a, b)
  {
    assert Leads(next, [a, b], a, b);
  }

  lemma ReachesSelf(next: seq<seq<nat>>, a: nat)
    requires a < |next|
    ensures Reaches(next, a, a)
  {
    assert Leads(next, [a], a, a);
  }

  /** Every list of children is kept and only longer. */
  predicate Grows(old': seq<seq<nat>>, next: seq<seq<nat>>) {
    |old'| <= |next| && forall p :: 0 <= p < |old'| ==> old'[p] <= next[p]
  }

  lemma ReachesGrows(old': seq<seq<nat>>, next: seq<seq<nat>>, a: nat, b: nat)
    requires Grows(old', next) && Reaches(old', a, b)
    ensures Reaches(next, a, b)
  {
    var w :| Leads(old', w, a, b);
    assert Leads(next, w, a, b);
  }

  // ---------------------------------------------------------------- ParseStage

  predicate Names(disk: Disk, path: Path, id: Id) {
    id == disk.nameOf(path) || (path in disk.files && disk.files[path].Readable? && id == disk.files[path].def.id)
  }

  /** A child list resolves the paths: each child is the stage registered under the name of the
      file, or under the id in the file. */
  predicate Resolves(disk: Disk, ids: seq<Id>, children: seq<nat>, paths: seq<Path>) {
    && |children| <= |paths|
    && forall i :: 0 <= i < |children| ==>
         && children[i] < |ids|
         && Names(disk, paths[i], ids[children[i]])
  }

  /** wgPrerequisites of every stage is the number of edges into it. */
  ghost predicate LatchesCount(next: seq<seq<nat>>, latch: seq<nat>) {
    |latch| == |next| && forall k: nat :: k < |next| ==> latch[k] == InDegree(next, k)
  }

  lemma SumAppend(xs: seq<nat>, x: nat)
    ensures Sum(xs + [x]) == Sum(xs) + x
  {
    if xs != [] {
      assert (xs + [x])[1..] == xs[1..] + [x];
    }
  }

  lemma CountAppend<T>(xs: seq<T>, x: T, y: T)
    ensures Count(xs + [x], y) == Count(xs, y) + if x == y then 1 else 0
  {
    if xs != [] {
      assert (xs + [x])[1..] == xs[1..] + [x];
    }
  }

  lemma NoEdgesTo(next: seq<seq<nat>>, k: nat)
    requires forall p :: 0 <= p < |next| ==> k !in next[p]
    ensures InDegree(next, k) == 0
  {
    forall p | 0 <= p < |next|
      ensures EdgesTo(next, k)[p] == 0
    {
      CountPositive(next[p], k);
    }
    SumZero(EdgesTo(next, k));
  }

  /** Registering a stage without children, and adding one edge. */
  lemma LatchesRegister(next: seq<seq<nat>>, latch: seq<nat>)
    requires InGraph(next) && LatchesCount(next, latch)
    ensures LatchesCount(next + [[]], latch + [0])
  {
    var next' := next + [[]];
    forall k: nat | k < |next|
      ensures InDegree(next', k) == InDegree(next, k)
    {
      assert EdgesTo(next', k) == EdgesTo(next, k) + [0];
      SumAppend(EdgesTo(next, k), 0);
    }
    NoEdgesTo(next', |next|);
  }

  lemma LatchesLink(next: seq<seq<nat>>, latch: seq<nat>, p: nat, k: nat)
    requires LatchesCount(next, latch) && p < |next| && k < |next|
    ensures LatchesCount(next[p := next[p] + [k]], latch[k := latch[k] + 1])
  {
    var next' := next[p := next[p] + [k]];
    forall j: nat | j < |next|
      ensures InDegree(next', j) == InDegree(next, j) + if j == k then 1 else 0
    {
      CountAppend(next[p], k, j);
      assert EdgesTo(next', j) == EdgesTo(next, j)[p := Count(next'[p], j)];
      SumUpdate(EdgesTo(next, j), p, Count(next'[p], j));
    }
  }

  /** The registry at one moment. */
  datatype View = View(index: map<Id, nat>, ids: seq<Id>, paths: seq<seq<Path>>, next: seq<seq<nat>>, latch: seq<nat>)

  ghost predicate Sound(disk: Disk, v: View) {
    && |v.ids| == |v.paths| == |v.next| == |v.latch|
    && (forall id :: id in v.index ==> v.index[id] < |v.ids| && v.ids[v.index[id]] == id)
    && (forall i :: 0 <= i < |v.ids| ==> v.ids[i] in v.index && v.index[v.ids[i]] == i)
    && InGraph(v.next)
    && (forall p :: 0 <= p < |v.next| ==> Resolves(disk, v.ids, v.next[p], v.paths[p]))
    && LatchesCount(v.next, v.latch)
  }

  /** Registered stages keep their number, their paths and their children. */
  predicate Extends(a: View, b: View) {
    a.ids <= b.ids && a.paths <= b.paths && a.next <= b.next
  }

  lemma ExtendsTrans(a: View, b: View, c: View)
    requires Extends(a, b) && Extends(b, c)
    ensures Extends(a, c)
  {
  }

  /** Every path of stage p is a file and has become a child. */
  predicate Complete(disk: Disk, v: View, p: nat) {
    && p < |v.next| && p < |v.paths|
    && |v.next[p]| == |v.paths[p]|
    && AreFiles(disk, v.paths[p])
  }

  /** Stage r is there, and whatever was registered since `a` is complete and reachable from r. */
  ghost predicate Parsed(disk: Disk, a: View, b: View, r: nat) {
    && r < |b.next|
    && forall p :: |a.next| <= p < |b.next| ==> Complete(disk, b, p) && Reaches(b.next, r, p)
  }

  function Register(v: View, def: Definition): View {
    v.(index := v.index[def.id := |v.ids|], ids := v.ids + [def.id], paths := v.paths + [def.nextPaths],
       next := v.next + [[]], latch := v.latch + [0])
  }

  function Link(v: View, p: nat, k: nat): View
    requires p < |v.next| && k < |v.latch|
  {
    v.(next := v.next[p := v.next[p] + [k]], latch := v.latch[k := v.latch[k] + 1])
  }

  lemma RegisterSound(disk: Disk, v: View, def: Definition)
    requires Sound(disk, v) && def.id !in v.index
    ensures Sound(disk, Register(v, def)) && Parsing(disk, v, Register(v, def), |v.ids|, def)
  {
    LatchesRegister(v.next, v.latch);
    var me := |v.ids|;
    ReachesSelf(Register(v, def).next, me);
  }

  lemma LinkSound(disk: Disk, v: View, p: nat, k: nat)
    requires Sound(disk, v) && p < |v.next| && k < |v.next|
    requires |v.next[p]| < |v.paths[p]| && Names(disk, v.paths[p][|v.next[p]|], v.ids[k])
    ensures Sound(disk, Link(v, p, k))
  {
    LatchesLink(v.next, v.latch, p, k);
  }

  /** While stage `me` is being parsed: the stages registered after it are done. */
  ghost predicate Parsing(disk: Disk, a: View, b: View, me: nat, def: Definition) {
    && me == |a.next| < |b.next| == |b.ids| == |b.paths|
    && Extends(a, b) && b.ids[me] == def.id && b.paths[me] == def.nextPaths
    && (forall p :: me < p < |b.next| ==> Complete(disk, b, p))
    && (forall p :: me <= p < |b.next| ==> Reaches(b.next, me, p))
  }

  lemma ParsingLink(disk: Disk, a: View, b: View, c: View, me: nat, def: Definition, k: nat)
    requires Parsing(disk, a, b, me, def) && Extends(b, c) && Parsed(disk, b, c, k)
    requires |c.next| == |c.ids| == |c.paths|
    requires k < |c.latch|
    ensures Parsing(disk, a, Link(c, me, k), me, def)
  {
    var d := Link(c, me, k);
    assert Grows(c.next, d.next) && Grows(b.next, d.next);
    assert k in d.next[me];
    ReachesStep(d.next, me, k);
    forall p | me <= p < |d.next|
      ensures Reaches(d.next, me, p)
    {
      if p < |b.next| {
        ReachesGrows(b.next, d.next, me, p);
      } else {
        ReachesGrows(c.next, d.next, k, p);
        ReachesTrans(d.next, me, k, p);
      }
    }
    forall p | me < p < |d.next|
      ensures Complete(disk, d, p)
    {
      if p < |b.next| { assert Complete(disk, b, p); } else { assert Complete(disk, c, p); }
    }
  }

  /** Every registered stage is that of a file, or the starting one. */
  ghost predicate Sourced(disk: Disk, start: Definition, v: View) {
    |v.ids| == |v.paths| && forall i :: 0 <= i < |v.ids| ==> Source(disk, start, Definition(v.ids[i], v.paths[i]))
  }

  /** The ids that a file can register. */
  ghost predicate Covers(disk: Disk, universe: set<Id>) {
    forall path :: path in disk.files && disk.files[path].Readable? ==> disk.files[path].def.id in universe
  }

  /** One child has been parsed and is linked. */
  lemma LinkStep(disk: Disk, a: View, b: View, c: View, me: nat, def: Definition, k: nat)
    requires Sound(disk, b) && Parsing(disk, a, b, me, def) && |b.next[me]| < |def.nextPaths|
    requires Sound(disk, c) && Extends(b, c) && Parsed(disk, b, c, k)
    requires Names(disk, def.nextPaths[|b.next[me]|], c.ids[k])
    ensures var d := Link(c, me, k);
            && Sound(disk, d) && Parsing(disk, a, d, me, def)
            && |d.next[me]| == |b.next[me]| + 1 && b.index.Keys <= d.index.Keys
  {
    assert c.next[me] == b.next[me] && c.paths[me] == def.nextPaths;
    LinkSound(disk, c, me, k);
    ParsingLink(disk, a, b, c, me, def, k);
    forall id | id in b.index
      ensures id in c.index
    {
      assert c.ids[b.index[id]] == id;
    }
  }

  lemma ParsingDone(disk: Disk, a: View, b: View, me: nat, def: Definition)
    requires Sound(disk, b) && Parsing(disk, a, b, me, def)
    requires |b.next[me]| == |def.nextPaths| && AreFiles(disk, def.nextPaths)
    ensures Extends(a, b) && Parsed(disk, a, b, me) && b.ids[me] == def.id
  {
  }

  class Stages {
    const disk: Disk
    /** The stage map: from an id to the number of the stage registered under it. */
    var index: map<Id, nat>
    var ids: seq<Id>
    var paths: seq<seq<Path>>
    /** NextStages and wgPrerequisites. */
    var next: seq<seq<nat>>
    var latch: seq<nat>

    function Now(): View
      reads this
    {
      View(index, ids, paths, next, latch)
    }

    constructor (disk: Disk)
      ensures Sound(disk, Now()) && this.disk == disk && ids == []
    {
      this.disk := disk;
      index, ids, paths, next, latch := map[], [], [], [], [];
    }

    method ParseStageFromFile(path: Path, ghost start: Definition, ghost universe: set<Id>) returns (r: Result<nat>)
      requires Sound(disk, Now()) && Covers(disk, universe) && Sourced(disk, start, Now())
      modifies this
      ensures Sound(disk, Now()) && Extends(old(Now()), Now()) && Sourced(disk, start, Now())
      ensures disk.nameOf(path) in old(index) ==> r == Ok(old(index)[disk.nameOf(path)]) && Now() == old(Now())
      ensures r.Err? ==> FaultyFile(disk, path, r.error)
      ensures r.Ok? ==> Parsed(disk, old(Now()), Now(), r.value)
      ensures r.Ok? ==> Names(disk, path, ids[r.value])
      decreases universe - index.Keys, 1
    {
      var name := disk.nameOf(path);
      if name in index {
        return Ok(index[name]);
      }
      if path !in disk.files || !disk.files[path].Readable? {
        return Err(Unreadable(path));
      }
      r := ParseStage(disk.files[path].def, start, universe);
    }

    method ParseStage(def: Definition, ghost start: Definition, ghost universe: set<Id>) returns (r: Result<nat>)
      requires Sound(disk, Now()) && Sourced(disk, start, Now()) && Source(disk, start, def)
      requires Covers(disk, universe) && def.id in universe
      modifies this
      ensures Sound(disk, Now()) && Extends(old(Now()), Now()) && Sourced(disk, start, Now())
      ensures def.id in old(index) ==> r == Ok(old(index)[def.id]) && Now() == old(Now())
      ensures r.Err? ==> Faulty(disk, def, r.error)
      ensures r.Ok? ==> Parsed(disk, old(Now()), Now(), r.value) && ids[r.value] == def.id
      ensures r.Ok? && def.id !in old(index) ==> r.value == |old(ids)| < |paths| && paths[r.value] == def.nextPaths
      decreases universe - index.Keys, 0
    {
      if def.id in index {
        return Ok(index[def.id]);
      }
      var bad := FirstBadPath(def.nextPaths);
      if bad.Some? {
        FaultHere(disk, def, bad.value);
        return Err(bad.value);
      }
      ghost var before := Now();
      var me := |ids|;
      RegisterSound(disk, before, def);
      index, ids, paths := index[def.id := me], ids + [def.id], paths + [def.nextPaths];
      next, latch := next + [[]], latch + [0];
      assert Now() == Register(before, def);
      assert def.id in universe - old(index.Keys) && def.id !in universe - index.Keys;
      r := LinkChildren(me, def, before, start, universe);
      if r.Ok? {
        ParsingDone(disk, before, Now(), me, def);
      }
    }

    /** The second loop of ParseStage. */
    method LinkChildren(me: nat, def: Definition, ghost before: View, ghost start: Definition, ghost universe: set<Id>)
      returns (r: Result<nat>)
      requires Sound(disk, Now()) && Parsing(disk, before, Now(), me, def) && next[me] == []
      requires Sourced(disk, start, Now()) && AreFiles(disk, def.nextPaths) && Covers(disk, universe)
      modifies this
      ensures Sound(disk, Now()) && Extends(before, Now()) && Sourced(disk, start, Now())
      ensures r.Err? ==> Faulty(disk, def, r.error)
      ensures r.Ok? ==> r.value == me && Parsing(disk, before, Now(), me, def) && |next[me]| == |def.nextPaths|
      decreases universe - index.Keys, 2
    {
      for i := 0 to |def.nextPaths|
        invariant Sound(disk, Now()) && Parsing(disk, before, Now(), me, def) && Sourced(disk, start, Now())
        invariant |next[me]| == i
        invariant old(index.Keys) <= index.Keys
      {
        ghost var now := Now();
        var child := ParseStageFromFile(def.nextPaths[i], start, universe);
        ghost var after := Now();
        if child.Err? {
          ExtendsTrans(before, now, after);
          FaultBelow(disk, def, def.nextPaths[i], child.error);
          return child;
        }
        LinkStep(disk, before, now, after, me, def, child.value);
        AddEdge(me, child.value);
      }
      r := Ok(me);
    }

    method AddEdge(p: nat, k: nat)
      requires p < |next| && k < |latch|
      modifies this
      ensures Now() == Link(old(Now()), p, k)
    {
      next, latch := next[p := next[p] + [k]], latch[k := latch[k] + 1];
    }

    method FirstBadPath(paths: seq<Path>) returns (e: Option<Error>)
      ensures e.None? <==> AreFiles(disk, paths)
      ensures e.Some? ==> exists i :: FirstBad(disk, paths, i, e.value)
    {
      for i := 0 to |paths|
        invariant AreFiles(disk, paths[..i])
      {
        if paths[i] !in disk.files {
          assert FirstBad(disk, paths, i, MissingNext(paths[i]));
          return Some(MissingNext(paths[i]));
        } else if disk.files[paths[i]].Directory? {
          assert FirstBad(disk, paths, i, DirectoryNext(paths[i]));
          return Some(DirectoryNext(paths[i]));
        }
        assert paths[..i + 1] == paths[..i] + [paths[i]];
      }
      assert paths[..|paths|] == paths;
      e := None;
    }
  }

  // ---------------------------------------------------------------- checkStageLinks

  function Below(n: nat): (r: set<nat>)
    ensures forall p: nat :: p in r <==> p < n
  {
    if n == 0 then {} else Below(n - 1) + {n - 1}
  }

  function Nodes(next: seq<seq<nat>>): set<nat> {
    Below(|next|)
  }

  /** checkStageLinksImpl as a function of the stages being visited. */
  function CheckFrom(next: seq<seq<nat>>, s: nat, visiting: set<nat>): Option<Error>
    requires InGraph(next) && s < |next|
    decreases Nodes(next) - visiting, 0
  {
    if s in visiting then Some(CycleAt(s)) else CheckChildren(next, s, 0, visiting + {s})
  }

  function CheckChildren(next: seq<seq<nat>>, s: nat, i: nat, visiting: set<nat>): Option<Error>
    requires InGraph(next) && s < |next| && i <= |next[s]|
    decreases Nodes(next) - visiting, |next[s]| - i + 1
  {
    if i == |next[s]| then None
    else if next[s][i] in next[s][..i] then Some(Duplicate(s, next[s][i]))
    else
      var e := CheckFrom(next, next[s][i], visiting);
      if e.Some? then e else CheckChildren(next, s, i + 1, visiting)
  }

  class LinkChecker {
    var visiting: set<nat>

    constructor ()
      ensures visiting == {}
    {
      visiting := {};
    }

    /** checkStageLinksImpl: `visiting` is restored on every way out. */
    method Check(next: seq<seq<nat>>, s: nat) returns (e: Option<Error>)
      requires InGraph(next) && s < |next|
      modifies this
      ensures visiting == old(visiting)
      ensures e == CheckFrom(next, s, old(visiting))
      decreases Nodes(next) - visiting
    {
      if s in visiting {
        return Some(CycleAt(s));
      }
      ghost var before := visiting;
      visiting := visiting + {s};
      var seen: set<nat> := {};
      for i := 0 to |next[s]|
        invariant visiting == before + {s}
        invariant forall k :: k in seen <==> k in next[s][..i]
        invariant CheckFrom(next, s, before) == CheckChildren(next, s, i, before + {s})
      {
        var child := next[s][i];
        if child in seen {
          visiting := visiting - {s};
          return Some(Duplicate(s, child));
        }
        assert next[s][..i + 1] == next[s][..i] + [child];
        seen := seen + {child};
        var err := Check(next, child);
        if err.Some? {
          visiting := visiting - {s};
          return err;
        }
      }
      visiting := visiting - {s};
      return None;
    }
  }

  lemma {:induction false} ChildrenChecked(next: seq<seq<nat>>, s: nat, i: nat, visiting: set<nat>)
    requires InGraph(next) && s < |next| && i <= |next[s]| && CheckChildren(next, s, i, visiting) == None
    ensures forall j, l :: i <= l < |next[s]| && 0 <= j < l ==> next[s][j] != next[s][l]
    ensures forall l :: i <= l < |next[s]| ==> CheckFrom(next, next[s][l], visiting) == None
    decreases |next[s]| - i
  {
    if i < |next[s]| {
      ChildrenChecked(next, s, i + 1, visiting);
      forall j | 0 <= j < i
        ensures next[s][j] != next[s][i]
      {
        assert next[s][..i][j] == next[s][j];
      }
    }
  }

  /** A walk without a cycle, off the stages being visited, to a stage that lists no child twice. */
  predicate GoodWalk(next: seq<seq<nat>>, visiting: set<nat>, w: seq<nat>)
    requires Walk(next, w)
  {
    Distinct(w) && (forall i :: 0 <= i < |w| ==> w[i] !in visiting) && Distinct(next[w[|w| - 1]])
  }

  /** Sound: when the check passes, every walk from the stage is good. */
  lemma {:induction false} CheckSound(next: seq<seq<nat>>, s: nat, visiting: set<nat>, w: seq<nat>)
    requires InGraph(next) && s < |next| && CheckFrom(next, s, visiting) == None
    requires Walk(next, w) && w[0] == s
    ensures GoodWalk(next, visiting, w)
    decreases |w|
  {
    ChildrenChecked(next, s, 0, visiting + {s});
    if |w| > 1 {
      var v := w[1..];
      assert w[0 + 1] in next[w[0]];
      var l :| 0 <= l < |next[s]| && next[s][l] == w[1];
      CheckSound(next, w[1], visiting + {s}, v);
      assert forall i :: 1 <= i < |w| ==> w[i] == v[i - 1];
    }
  }

  lemma GoodTail(next: seq<seq<nat>>, s: nat, visiting: set<nat>, v: seq<nat>)
    requires Walk(next, v) && Walk(next, [s] + v) && GoodWalk(next, visiting, [s] + v)
    ensures GoodWalk(next, visiting + {s}, v)
  {
    var w := [s] + v;
    forall k | 0 <= k < |v|
      ensures v[k] !in visiting + {s}
    {
      assert w[0] == s && w[k + 1] == v[k];
    }
    assert forall k :: 0 <= k < |v| ==> v[k] == w[k + 1];
  }

  /** Complete: when it fails, some walk from the stage is not good. */
  lemma {:induction false} CheckComplete(next: seq<seq<nat>>, s: nat, visiting: set<nat>) returns (w: seq<nat>)
    requires InGraph(next) && s < |next| && CheckFrom(next, s, visiting) != None
    ensures Walk(next, w) && w[0] == s && !GoodWalk(next, visiting, w)
    decreases Nodes(next) - visiting, 0
  {
    if s in visiting {
      w := [s];
    } else {
      w := ChildrenComplete(next, s, 0, visiting);
    }
  }

  lemma {:induction false} ChildrenComplete(next: seq<seq<nat>>, s: nat, i: nat, visiting: set<nat>)
    returns (w: seq<nat>)
    requires InGraph(next) && s < |next| && s !in visiting && i <= |next[s]|
    requires CheckChildren(next, s, i, visiting + {s}) != None
    ensures Walk(next, w) && w[0] == s && !GoodWalk(next, visiting, w)
    decreases Nodes(next) - (visiting + {s}), |next[s]| - i + 1
  {
    var child := next[s][i];
    if child in next[s][..i] {
      var j :| 0 <= j < i && next[s][..i][j] == child;
      assert next[s][j] == next[s][i];
      w := [s];
    } else if CheckFrom(next, child, visiting + {s}).Some? {
      var v := CheckComplete(next, child, visiting + {s});
      w := [s] + v;
      assert w[1..] == v;
      if GoodWalk(next, visiting, w) {
        GoodTail(next, s, visiting, v);
      }
    } else {
      w := ChildrenComplete(next, s, i + 1, visiting);
    }
  }

  /** Stage k lies on a cycle. */
  ghost predicate OnCycle(next: seq<seq<nat>>, k: nat) {
    exists p: nat :: p < |next| && k in next[p] && Reaches(next, k, p)
  }

  lemma SliceLeads(next: seq<seq<nat>>, w: seq<nat>, i: nat, j: nat)
    requires Walk(next, w) && i <= j < |w|
    ensures Leads(next, w[i..j + 1], w[i], w[j]) && Reaches(next, w[i], w[j])
  {
    var v := w[i..j + 1];
    forall k | 0 <= k < |v| - 1
      ensures v[k + 1] in next[v[k]]
    {
      assert w[i + k + 1] in next[w[i + k]];
    }
    assert Leads(next, v, w[i], w[j]);
  }

  /** The check passes exactly when no stage reachable from the start lies on a cycle or lists the
      same child twice. */
  lemma LinksExactly(next: seq<seq<nat>>, s: nat)
    requires InGraph(next) && s < |next|
    ensures CheckFrom(next, s, {}) == None <==>
            forall k: nat :: Reaches(next, s, k) ==> !OnCycle(next, k) && Distinct(next[k])
  {
    if CheckFrom(next, s, {}) == None {
      forall k: nat | Reaches(next, s, k)
        ensures !OnCycle(next, k) && Distinct(next[k])
      {
        var w :| Leads(next, w, s, k);
        CheckSound(next, s, {}, w);
        if OnCycle(next, k) {
          CycleWalk(next, s, k, w);
        }
      }
    } else {
      var w := CheckComplete(next, s, {});
      SliceLeads(next, w, 0, |w| - 1);
      if !Distinct(w) {
        var i, j :| 0 <= i < j < |w| && w[i] == w[j];
        SliceLeads(next, w, 0, i);
        SliceLeads(next, w, i, j - 1);
        assert w[j - 1 + 1] in next[w[j - 1]];
        assert OnCycle(next, w[i]);
      }
    }
  }

  lemma CycleWalk(next: seq<seq<nat>>, s: nat, k: nat, w: seq<nat>)
    requires InGraph(next) && s < |next| && Leads(next, w, s, k) && OnCycle(next, k)
    ensures CheckFrom(next, s, {}) != None
  {
    var p: nat :| p < |next| && k in next[p] && Reaches(next, k, p);
    var v :| Leads(next, v, k, p);
    var u := w + v[1..] + [k];
    assert Walk(next, u);
    assert u[|w| - 1] == k && u[|u| - 1] == k;
    if CheckFrom(next, s, {}) == None {
      CheckSound(next, s, {}, u);
    }
  }

  predicate ListedTwice(children: seq<nat>, k: nat) {
    exists i, j :: 0 <= i < j < |children| && children[i] == k && children[j] == k
  }

  /** What the error of the check says, for a check from s that has met the stages in `visiting`. */
  ghost predicate Blames(next: seq<seq<nat>>, s: nat, visiting: set<nat>, e: Error) {
    match e
    case CycleAt(k) => Reaches(next, s, k) && (k in visiting || OnCycle(next, k))
    case Duplicate(p, k) => p < |next| && Reaches(next, s, p) && ListedTwice(next[p], k)
    case _ => false
  }

  lemma CycleThrough(next: seq<seq<nat>>, s: nat, child: nat)
    requires InGraph(next) && s < |next| && child in next[s] && Reaches(next, child, s)
    ensures OnCycle(next, s)
  {
    ReachesStep(next, s, child);
    var w :| Leads(next, w, child, s);
    if |w| > 1 {
      var p := w[|w| - 2];
      assert w[|w| - 2 + 1] in next[p];
      SliceLeads(next, w, 0, |w| - 2);
      ReachesTrans(next, s, child, p);
    } else {
      ReachesSelf(next, s);
    }
  }

  lemma {:induction false} CheckNames(next: seq<seq<nat>>, s: nat, visiting: set<nat>)
    requires InGraph(next) && s < |next| && CheckFrom(next, s, visiting).Some?
    ensures Blames(next, s, visiting, CheckFrom(next, s, visiting).value)
    decreases Nodes(next) - visiting, 0
  {
    ReachesSelf(next, s);
    if s !in visiting {
      ChildrenName(next, s, 0, visiting);
    }
  }

  lemma {:induction false} ChildrenName(next: seq<seq<nat>>, s: nat, i: nat, visiting: set<nat>)
    requires InGraph(next) && s < |next| && s !in visiting && i <= |next[s]|
    requires CheckChildren(next, s, i, visiting + {s}).Some?
    ensures Blames(next, s, visiting, CheckChildren(next, s, i, visiting + {s}).value)
    decreases Nodes(next) - (visiting + {s}), |next[s]| - i + 1
  {
    var child := next[s][i];
    ReachesSelf(next, s);
    if child in next[s][..i] {
      var j :| 0 <= j < i && next[s][..i][j] == child;
      assert next[s][j] == next[s][i];
    } else if CheckFrom(next, child, visiting + {s}).Some? {
      CheckNames(next, child, visiting + {s});
      ReachesStep(next, s, child);
      match CheckFrom(next, child, visiting + {s}).value
      case CycleAt(k) =>
        ReachesTrans(next, s, child, k);
        if k == s {
          CycleThrough(next, s, child);
        }
      case Duplicate(p, _) => ReachesTrans(next, s, child, p);
    } else {
      ChildrenName(next, s, i + 1, visiting);
    }
  }

  /** The error names a stage on a reachable cycle, or a reachable stage and the child it lists twice. */
  lemma ErrorMeans(next: seq<seq<nat>>, s: nat, e: Error)
    requires InGraph(next) && s < |next| && CheckFrom(next, s, {}) == Some(e)
    ensures e.CycleAt? || e.Duplicate?
    ensures e.CycleAt? ==> Reaches(next, s, e.stage) && OnCycle(next, e.stage)
    ensures e.Duplicate? ==>
              e.stage < |next| && Reaches(next, s, e.stage) && ListedTwice(next[e.stage], e.child)
  {
    CheckNames(next, s, {});
  }

  // ---------------------------------------------------------------- what a run may rely on

  ghost function Ancestors(next: seq<seq<nat>>, s: nat): set<nat> {
    set q | q in Below(|next|) && Reaches(next, q, s)
  }

  ghost function RankOf(next: seq<seq<nat>>): seq<nat> {
    seq(|next|, s requires 0 <= s => |Ancestors(next, s)|)
  }

  lemma SmallerSet(a: set<nat>, b: set<nat>)
    requires a < b
    ensures |a| < |b|
  {
    var d := b - a;
    assert b == a + d && a !! d;
    assert d != {};
  }

  /** The number of ancestors is a topological numbering of a graph without cycles. */
  lemma AncestorsRank(next: seq<seq<nat>>, p: nat, s: nat)
    requires InGraph(next) && p < |next| && s in next[p] && !OnCycle(next, s)
    ensures |Ancestors(next, p)| < |Ancestors(next, s)|
  {
    ReachesStep(next, p, s);
    ReachesSelf(next, s);
    forall q | q in Ancestors(next, p)
      ensures q in Ancestors(next, s)
    {
      ReachesTrans(next, q, p, s);
    }
    assert s in Ancestors(next, s) && s !in Ancestors(next, p);
    SmallerSet(Ancestors(next, p), Ancestors(next, s));
  }

  /** A graph that was parsed and passed the check is one that Run can be started on: the root's
      latch is zero, every other stage has a parent, and stages can be numbered topologically. */
  lemma GraphIsRunnable(next: seq<seq<nat>>, work: seq<nat>, abort: seq<Option<bool>>)
    requires InGraph(next) && |next| > 0 && |work| == |abort| == |next|
    requires forall k: nat :: k < |next| ==> Reaches(next, 0, k)
    requires CheckFrom(next, 0, {}) == None
    ensures var c := Config(next, work, abort); WellFormed(c) && Connected(c) && Ranked(c, RankOf(next))
    ensures InDegree(next, 0) == 0
  {
    var c := Config(next, work, abort);
    LinksExactly(next, 0);
    forall p: nat | p < |next|
      ensures 0 !in next[p]
    {
      assert Reaches(next, 0, 0) && Reaches(next, 0, p);
    }
    forall p: nat, s: nat | Edge(c, p, s)
      ensures 0 < s < |next| && RankOf(next)[p] < RankOf(next)[s]
    {
      assert Reaches(next, 0, s);
      AncestorsRank(next, p, s);
    }
    forall s: nat | 0 < s < |next|
      ensures HasParent(c, s)
    {
      assert Reaches(next, 0, s);
      var w :| Leads(next, w, 0, s);
      assert w[|w| - 2 + 1] in next[w[|w| - 2]];
      assert Edge(c, w[|w| - 2], s);
    }
    NoEdgesTo(next, 0);
  }

  /** The starting stage is the first, and every stage is complete and reachable from it. */
  ghost predicate AllParsed(disk: Disk, start: Definition, v: View) {
    && |v.next| > 0 && |v.ids| == |v.paths| == |v.next| && v.ids[0] == start.id && v.paths[0] == start.nextPaths
    && forall k: nat :: k < |v.next| ==> Complete(disk, v, k) && Reaches(v.next, 0, k)
  }

  /** Stage i stands for the definition. */
  predicate Stands(v: View, i: nat, d: Definition) {
    i < |v.ids| && i < |v.paths| && v.ids[i] == d.id && v.paths[i] == d.nextPaths
  }

  /** Where names are unambiguous, every file that a registered stage names is readable and its
      definition registered. */
  lemma NextStands(disk: Disk, start: Definition, v: View, i: nat, d: Definition, path: Path)
    requires Sound(disk, v) && Sourced(disk, start, v) && AllParsed(disk, start, v) && Unambiguous(disk, start)
    requires Stands(v, i, d) && path in d.nextPaths
    ensures Holds(disk, path) && exists k: nat :: Stands(v, k, disk.files[path].def)
  {
    assert Complete(disk, v, i);
    var j :| 0 <= j < |d.nextPaths| && d.nextPaths[j] == path;
    var k := v.next[i][j];
    var child := Definition(v.ids[k], v.paths[k]);
    assert Names(disk, path, v.ids[k]) && v.ids[k] == disk.nameOf(path);
    assert Source(disk, start, child);
    assert disk.files[path] == Readable(child);
    assert Stands(v, k, disk.files[path].def);
  }

  lemma {:induction false} ChainStands(disk: Disk, start: Definition, v: View, w: seq<Definition>, d: Definition)
    requires Sound(disk, v) && Sourced(disk, start, v) && AllParsed(disk, start, v) && Unambiguous(disk, start)
    requires Chain(disk, w, start, d)
    ensures exists i: nat :: Stands(v, i, d)
    decreases |w|
  {
    if |w| == 1 {
      assert Stands(v, 0, d);
    } else {
      var before := w[..|w| - 1];
      var b := before[|before| - 1];
      assert Chain(disk, before, start, b);
      ChainStands(disk, start, v, before, b);
      var i: nat :| Stands(v, i, b);
      assert Follows(disk, w[|w| - 2], w[|w| - 2 + 1]);
      var path :| path in b.nextPaths && Holds(disk, path) && disk.files[path].def == d;
      NextStands(disk, start, v, i, b, path);
    }
  }

  /** A graph read without an error has no fault that its start leads to, where names are unambiguous. */
  lemma ParsedHasNoFault(disk: Disk, start: Definition, v: View, e: Error)
    requires Sound(disk, v) && Sourced(disk, start, v) && AllParsed(disk, start, v) && Unambiguous(disk, start)
    ensures !Faulty(disk, start, e)
  {
    if Faulty(disk, start, e) {
      var d :| DefReaches(disk, start, d) && Fault(disk, d, e);
      var w :| Chain(disk, w, start, d);
      ChainStands(disk, start, v, w, d);
      var i: nat :| Stands(v, i, d);
      assert Complete(disk, v, i);
      if e.Unreadable? && e.path in d.nextPaths {
        NextStands(disk, start, v, i, d, e.path);
      }
      assert false;
    }
  }

  /** ParseStageGraph: parse from the starting stage, then check the links. Parsing fails only for a
      fault that the start leads to, and for every such fault if names are unambiguous. */
  method ParseStageGraph(disk: Disk, start: Definition, ghost universe: set<Id>)
    returns (stages: Stages, e: Option<Error>)
    requires Covers(disk, universe) && start.id in universe
    ensures Sound(disk, stages.Now()) && Sourced(disk, start, stages.Now())
    ensures || (e.Some? && Faulty(disk, start, e.value))
            || (AllParsed(disk, start, stages.Now()) && e == CheckFrom(stages.next, 0, {}))
    ensures Unambiguous(disk, start) && (exists fault :: Faulty(disk, start, fault))
            ==> e.Some? && Faulty(disk, start, e.value)
    ensures e.None? ==> AllParsed(disk, start, stages.Now()) && stages.latch[0] == 0
  {
    stages := new Stages(disk);
    var r := stages.ParseStage(start, start, universe);
    if r.Err? {
      return stages, Some(r.error);
    }
    assert AllParsed(disk, start, stages.Now());
    if Unambiguous(disk, start) {
      forall fault
        ensures !Faulty(disk, start, fault)
      {
        ParsedHasNoFault(disk, start, stages.Now(), fault);
      }
    }
    var checker := new LinkChecker();
    e := checker.Check(stages.next, r.value);
    if e.None? {
      GraphIsRunnable(stages.next, seq(|stages.next|, _ => 0), seq(|stages.next|, _ => None));
    }
  }
}
