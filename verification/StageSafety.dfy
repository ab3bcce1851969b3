/** What every reachable state of a run satisfies. */
module StageSafety {
  import opened StageRun
  import opened Wrappers

  // ---------------------------------------------------------------- sums

  lemma {:induction false} SumUpdate(xs: seq<nat>, i: nat, v: nat)
    requires i < |xs|
    ensures Sum(xs[i := v]) == Sum(xs) - xs[i] + v
  {
    var ys := xs[i := v];
    if i == 0 {
      assert ys[1..] == xs[1..];
    } else {
      SumUpdate(xs[1..], i - 1, v);
      assert ys[1..] == xs[1..][i - 1 := v];
    }
  }

  lemma {:induction false} SumZero(xs: seq<nat>)
    ensures Sum(xs) == 0 <==> forall i :: 0 <= i < |xs| ==> xs[i] == 0
  {
    if xs != [] {
      SumZero(xs[1..]);
      assert forall i :: 1 <= i < |xs| ==> xs[i] == xs[1..][i - 1];
    }
  }

  lemma {:induction false} CountPositive<T>(xs: seq<T>, x: T)
    ensures Count(xs, x) > 0 <==> x in xs
  {
    if xs != [] { CountPositive(xs[1..], x); }
  }

  lemma CountFrom<T>(xs: seq<T>, i: nat, x: T)
    requires i < |xs|
    ensures Count(xs[i..], x) == (if xs[i] == x then 1 else 0) + Count(xs[i + 1..], x)
  {
    assert xs[i..][1..] == xs[i + 1..];
  }

  // ---------------------------------------------------------------- the invariants

  /** What a stage's goroutine holds of the exit latch: its own count, and one for each child it
      has announced but not started. */
  function Held(pc: Pc, children: nat): nat {
    match pc
    case Idle | Done(_) => 0
    case Spawning(i) => if i <= children then 1 + children - i else 1
    case _ => 1
  }

  function HeldBy(c: Config, pc: seq<Pc>): (h: seq<nat>)
    requires |pc| == |c.next|
    ensures |h| == |pc|
  {
    seq(|pc|, s requires 0 <= s < |pc| => Held(pc[s], |c.next[s]|))
  }

  ghost predicate InRange(c: Config, st: State)
    requires Shape(c, st)
  {
    forall s :: 0 <= s < |st.pc| ==>
      match st.pc[s]
      case Inheriting(i) => i <= |c.next[s]|
      case Releasing(i, _) => i <= |c.next[s]|
      case Spawning(i) => i <= |c.next[s]|
      case _ => true
  }

  /** wgExitMainStage counts the goroutines alive and the children announced. */
  ghost predicate ExitExact(c: Config, st: State)
    requires Shape(c, st)
  {
    st.exit == Sum(st.triggers) + Sum(HeldBy(c, st.pc)) + st.writers
  }

  /** wgPrerequisites of a stage counts the parents that have not released it. */
  ghost predicate LatchExact(c: Config, st: State)
    requires Shape(c, st)
  {
    forall k :: 0 <= k < |st.pc| ==> st.prerequisites[k] == Sum(OwedBy(c, st.pc, k))
  }

  /** The parent has been through propagateStates, and goes on to trigger its children. */
  predicate HasInherited(pc: Pc) {
    match pc
    case Working(_) | Announcing | Spawning(_) => true
    case Returned(ok) => ok
    case Releasing(_, ok) => ok
    case Leaving(ok) => ok
    case Done(ok) => ok
    case _ => false
  }

  predicate Begun(st: State, s: nat)
    requires s < |st.pc| == |st.triggers|
  {
    st.triggers[s] > 0 || st.pc[s] != Idle
  }

  /** A child is started only after a parent has propagated its settings into it. */
  ghost predicate InheritFirst(c: Config, st: State)
    requires Shape(c, st)
  {
    && (forall s :: 0 < s < |st.pc| && Begun(st, s) ==> s in st.inherited)
    && (forall p :: 0 <= p < |st.pc| ==> ChildrenInherited(st.pc[p], c.next[p], st.inherited))
  }

  ghost predicate ChildrenInherited(pc: Pc, next: seq<nat>, inherited: set<nat>) {
    && (HasInherited(pc) ==> forall k :: k in next ==> k in inherited)
    && (pc.Inheriting? && pc.i <= |next| ==> forall k :: k in next[..pc.i] ==> k in inherited)
  }

  predicate AtWork(pc: Pc) {
    !pc.Idle? && !pc.Waiting?
  }

  /** AbortOnError is set wherever it is dereferenced, except in a root cancelled at its select. */
  ghost predicate AbortKnown(c: Config, st: State)
    requires Shape(c, st) && |c.abort| == |st.pc|
  {
    && (forall s :: s in st.inherited ==> 0 < s < |st.pc| && st.abort[s].Some?)
    && (forall s :: 0 <= s < |st.pc| && AtWork(st.pc[s]) ==>
          st.abort[s].Some? || (s == 0 && s in st.bailed && c.abort[0].None?))
    && (st.crashed ==> 0 in st.bailed && |c.abort| > 0 && c.abort[0].None?)
    && (forall s :: s in st.failed && s < |st.pc| && st.abort[s] == Some(true) ==> st.cancelled)
  }

  /** No result is lost, duplicated or reordered on its way to the main loop. */
  ghost predicate ChannelExact(st: State) {
    && st.sent == st.received + st.channel
    && |st.channel| <= CAPACITY
    && (st.closed ==> st.exit == 0)
    && (st.phase != Looping ==> st.closed)
    && (st.phase == Finished ==> st.channel == [])
  }

  ghost predicate OrderExact(st: State) {
    && Distinct(st.order)
    && (forall s: nat :: s in st.order <==> s < |st.pc| && AtWork(st.pc[s]) && s !in st.bailed)
    && (forall s :: s in st.bailed ==>
          s < |st.pc| && AtWork(st.pc[s]) && !HasInherited(st.pc[s]) && !st.pc[s].Inheriting?)
    && (st.bailed != {} ==> st.cancelled)
  }

  predicate ParentFirst(c: Config, st: State, j: nat, p: nat)
    requires Shape(c, st) && j < |st.order| && Edge(c, p, st.order[j])
  {
    && Owed(st.pc[p], c.next[p], st.order[j]) == 0
    && (p in st.order[..j] || p in st.bailed)
  }

  /** A stage passes only after every parent has released it. */
  ghost predicate ParentsFirst(c: Config, st: State)
    requires Shape(c, st)
  {
    forall j: nat, p: nat :: j < |st.order| && Edge(c, p, st.order[j]) ==> ParentFirst(c, st, j, p)
  }

  /** The root keeps its own setting until it passes its select. */
  ghost predicate AbortFromConfig(c: Config, st: State)
    requires WellFormed(c) && Shape(c, st)
  {
    0 in st.order || st.abort[0] == c.abort[0]
  }

  /** Nothing is inherited before the root has passed its select, and a root cancelled there without
      a setting is about to dereference it. */
  ghost predicate RootFirst(c: Config, st: State)
    requires WellFormed(c) && Shape(c, st)
  {
    && (st.inherited != {} ==> 0 in st.order)
    && (0 in st.bailed && c.abort[0].None? && !st.crashed ==> st.pc[0] == Returned(false))
  }

  predicate HasSpawned(pc: Pc, next: seq<nat>, s: nat) {
    match pc
    case Spawning(i) => i <= |next| && s in next[..i]
    case Leaving(ok) => ok && s in next
    case Done(ok) => ok && s in next
    case _ => false
  }

  ghost predicate SpawnedBy(c: Config, pc: seq<Pc>, p: nat, s: nat) {
    p < |pc| && p < |c.next| && HasSpawned(pc[p], c.next[p], s)
  }

  ghost predicate Triggered(c: Config, pc: seq<Pc>, s: nat) {
    exists p: nat :: SpawnedBy(c, pc, p, s)
  }

  /** A stage is started exactly when a parent that succeeded has triggered it. */
  ghost predicate TriggersExact(c: Config, st: State)
    requires Shape(c, st)
  {
    && (|st.pc| > 0 ==> Begun(st, 0))
    && forall s: nat :: 0 < s < |st.pc| ==> (Begun(st, s) <==> Triggered(c, st.pc, s))
  }

  predicate HasFailed(pc: Pc) {
    match pc
    case Releasing(_, ok) => !ok
    case Leaving(ok) => !ok
    case Done(ok) => !ok
    case _ => false
  }

  ghost predicate FailedExact(st: State) {
    forall s: nat :: s in st.failed <==> s < |st.pc| && HasFailed(st.pc[s])
  }

  ghost predicate Inv(c: Config, st: State)
    requires WellFormed(c)
  {
    && Shape(c, st) && InRange(c, st) && ExitExact(c, st) && LatchExact(c, st) && InheritFirst(c, st)
    && AbortKnown(c, st) && ChannelExact(st) && OrderExact(st) && ParentsFirst(c, st)
    && TriggersExact(c, st) && FailedExact(st) && AbortFromConfig(c, st) && RootFirst(c, st)
  }

  // ---------------------------------------------------------------- the exit latch

  lemma HeldGoto(c: Config, pc: seq<Pc>, s: nat, v: Pc)
    requires |pc| == |c.next| && s < |pc|
    ensures Sum(HeldBy(c, pc[s := v])) == Sum(HeldBy(c, pc)) - Held(pc[s], |c.next[s]|) + Held(v, |c.next[s]|)
  {
    assert HeldBy(c, pc[s := v]) == HeldBy(c, pc)[s := Held(v, |c.next[s]|)];
    SumUpdate(HeldBy(c, pc), s, Held(v, |c.next[s]|));
  }

  lemma HeldStep(c: Config, st: State, s: nat, m: Move)
    requires WellFormed(c) && Shape(c, st) && Can(c, st, At(s, m))
    ensures var t := Effect(c, st, s, m); var pc := st.pc[s]; var len := |c.next[s]|;
            t.exit - st.exit == Held(NextPc(pc, m, len, c.work[s]), len) - Held(pc, len)
                                + Sum(t.triggers) - Sum(st.triggers) + t.writers - st.writers
  {
    match m
    case Start => SumUpdate(st.triggers, s, st.triggers[s] - 1);
    case Spawn =>
      var k := Child(c, st.pc[s], s);
      if k.Some? { SumUpdate(st.triggers, k.value, st.triggers[k.value] + 1); }
    case _ =>
  }

  lemma KeepsExit(c: Config, st: State, a: Action)
    requires WellFormed(c) && Shape(c, st) && ExitExact(c, st) && Can(c, st, a)
    ensures ExitExact(c, Do(c, st, a))
  {
    if a.At? {
      HeldGoto(c, st.pc, a.s, NextPc(st.pc[a.s], a.m, |c.next[a.s]|, c.work[a.s]));
      HeldStep(c, st, a.s, a.m);
    }
  }

  /** The exit latch is zero only when every goroutine is gone. */
  lemma NobodyHolds(c: Config, st: State)
    requires Shape(c, st) && ExitExact(c, st) && st.exit == 0
    ensures st.writers == 0
    ensures forall s :: 0 <= s < |st.pc| ==> st.triggers[s] == 0 && (st.pc[s].Idle? || st.pc[s].Done?)
  {
    SumZero(st.triggers);
    SumZero(HeldBy(c, st.pc));
    forall s | 0 <= s < |st.pc|
      ensures st.pc[s].Idle? || st.pc[s].Done?
    {
      assert HeldBy(c, st.pc)[s] == 0;
    }
  }

  lemma NoMoveAtZero(c: Config, st: State, s: nat, m: Move)
    requires WellFormed(c) && Shape(c, st) && ExitExact(c, st) && st.exit == 0
    ensures !Can(c, st, At(s, m))
  {
    NobodyHolds(c, st);
  }

  lemma ChannelMove(c: Config, st: State, s: nat, m: Move)
    requires WellFormed(c) && Shape(c, st) && Can(c, st, At(s, m))
    ensures var t := Effect(c, st, s, m);
            && t.received == st.received && t.phase == st.phase && t.closed == st.closed
            && (if m.Send? then t.sent == st.sent + [m.r] && t.channel == st.channel + [m.r] && |t.channel| <= CAPACITY
                else t.sent == st.sent && t.channel == st.channel)
  {
  }

  lemma KeepsChannel(c: Config, st: State, a: Action)
    requires WellFormed(c) && Shape(c, st) && ExitExact(c, st) && ChannelExact(st) && Can(c, st, a)
    ensures ChannelExact(Do(c, st, a))
  {
    if a.At? {
      ChannelMove(c, st, a.s, a.m);
      if st.exit == 0 { NoMoveAtZero(c, st, a.s, a.m); }
    } else if a.CloseWriter? {
      if st.exit == 0 { NobodyHolds(c, st); }
    }
  }

  // ---------------------------------------------------------------- the prerequisite latches

  lemma OwedGoto(c: Config, pc: seq<Pc>, s: nat, v: Pc, k: nat)
    requires |pc| == |c.next| && s < |pc|
    ensures Sum(OwedBy(c, pc[s := v], k)) == Sum(OwedBy(c, pc, k)) - Owed(pc[s], c.next[s], k) + Owed(v, c.next[s], k)
  {
    assert OwedBy(c, pc[s := v], k) == OwedBy(c, pc, k)[s := Owed(v, c.next[s], k)];
    SumUpdate(OwedBy(c, pc, k), s, Owed(v, c.next[s], k));
  }

  lemma OwedMove(pc: Pc, m: Move, next: seq<nat>, work: nat, k: nat)
    requires Ready(pc, m, |next|)
    ensures Owed(NextPc(pc, m, |next|, work), next, k)
         == Owed(pc, next, k) - if m.Release? && pc.i < |next| && next[pc.i] == k then 1 else 0
  {
    assert next[0..] == next && next[|next|..] == [];
    if m.Release? && pc.i < |next| {
      CountFrom(next, pc.i, k);
    }
  }

  lemma KeepsLatch(c: Config, st: State, a: Action)
    requires WellFormed(c) && Shape(c, st) && LatchExact(c, st) && Can(c, st, a)
    ensures LatchExact(c, Do(c, st, a))
  {
    if a.At? {
      var s, m := a.s, a.m;
      forall k: nat | k < |st.pc|
        ensures Do(c, st, a).prerequisites[k] == Sum(OwedBy(c, Do(c, st, a).pc, k))
      {
        OwedGoto(c, st.pc, s, NextPc(st.pc[s], m, |c.next[s]|, c.work[s]), k);
        OwedMove(st.pc[s], m, c.next[s], c.work[s], k);
      }
    }
  }

  // ---------------------------------------------------------------- what a move says of one stage

  lemma PcMove(pc: Pc, m: Move, len: nat, work: nat)
    requires Ready(pc, m, len)
    ensures var q := NextPc(pc, m, len, work);
            && (AtWork(q) <==> AtWork(pc) || m.Pass? || m.Bail?)
            && (q.Idle? <==> pc.Idle? && !m.Start?)
            && (HasInherited(q) ==> HasInherited(pc) || (m.Inherit? && pc.i == len))
            && (HasFailed(q) <==> HasFailed(pc) || (m.Defer? && !pc.ok))
            && (m.Defer? ==> !HasFailed(pc))
            && (q.Inheriting? ==> m.Pass? || m.Inherit? || m.Start?)
  {
  }

  /** Children before the propagation index are inherited. */
  lemma ChildrenStep(c: Config, st: State, s: nat, m: Move)
    requires WellFormed(c) && Shape(c, st) && Can(c, st, At(s, m))
    requires ChildrenInherited(st.pc[s], c.next[s], st.inherited)
    ensures ChildrenInherited(Do(c, st, At(s, m)).pc[s], c.next[s], Do(c, st, At(s, m)).inherited)
  {
    var xs, pc := c.next[s], st.pc[s];
    PcMove(pc, m, |xs|, c.work[s]);
    assert st.inherited <= Effect(c, st, s, m).inherited;
    if m.Inherit? {
      if pc.i < |xs| {
        assert xs[..pc.i + 1] == xs[..pc.i] + [xs[pc.i]];
      } else {
        assert xs[..pc.i] == xs;
      }
    }
  }

  lemma BegunStep(c: Config, st: State, s: nat, m: Move, k: nat)
    requires WellFormed(c) && Shape(c, st) && Can(c, st, At(s, m)) && k < |st.pc|
    ensures Begun(Do(c, st, At(s, m)), k) <==> Begun(st, k) || (m.Spawn? && Child(c, st.pc[s], s) == Some(k))
  {
    PcMove(st.pc[s], m, |c.next[s]|, c.work[s]);
  }

  lemma KeepsInherit(c: Config, st: State, a: Action)
    requires WellFormed(c) && Shape(c, st) && InheritFirst(c, st) && Can(c, st, a)
    ensures InheritFirst(c, Do(c, st, a))
  {
    if a.At? {
      var t := Do(c, st, a);
      assert st.inherited <= t.inherited;
      forall k: nat | 0 < k < |st.pc| && Begun(t, k)
        ensures k in t.inherited
      {
        BegunStep(c, st, a.s, a.m, k);
        if a.m.Spawn? && Child(c, st.pc[a.s], a.s) == Some(k) {
          assert ChildrenInherited(st.pc[a.s], c.next[a.s], st.inherited);
        }
      }
      forall p | 0 <= p < |st.pc|
        ensures ChildrenInherited(t.pc[p], c.next[p], t.inherited)
      {
        assert ChildrenInherited(st.pc[p], c.next[p], st.inherited);
        if p == a.s { ChildrenStep(c, st, a.s, a.m); }
      }
    }
  }

  // ---------------------------------------------------------------- AbortOnError

  lemma AbortMove(c: Config, st: State, s: nat, m: Move, k: nat)
    requires WellFormed(c) && Shape(c, st) && Can(c, st, At(s, m)) && k < |st.pc|
    ensures var t := Effect(c, st, s, m);
            && (st.abort[k].Some? ==> t.abort[k] == st.abort[k])
            && (m.Pass? && k == s ==> t.abort[k].Some?)
            && (k in t.inherited && k !in st.inherited ==>
                  m.Inherit? && k > 0 && (st.abort[s].Some? ==> t.abort[k].Some?))
            && (k == 0 && !(m.Pass? && s == 0) ==> t.abort[0] == st.abort[0])
  {
  }

  lemma DeferMove(c: Config, st: State, s: nat, m: Move)
    requires WellFormed(c) && Shape(c, st) && Can(c, st, At(s, m))
    ensures var t := Effect(c, st, s, m);
            && t.failed == (if m.Defer? && !st.pc[s].ok then st.failed + {s} else st.failed)
            && (m.Defer? && !st.pc[s].ok && st.abort[s] == Some(true) ==> t.cancelled)
            && (st.cancelled ==> t.cancelled)
            && (t.crashed ==> m.Defer? && st.abort[s].None?)
            && t.bailed == (if m.Bail? then st.bailed + {s} else st.bailed)
            && t.order == (if m.Pass? then st.order + [s] else st.order)
            && (forall k :: k in t.inherited && k !in st.inherited ==> k < |st.pc|)
  {
  }

  lemma KeepsAbort(c: Config, st: State, a: Action)
    requires WellFormed(c) && Shape(c, st) && InheritFirst(c, st) && OrderExact(st)
    requires AbortKnown(c, st) && AbortFromConfig(c, st) && FailedExact(st) && Can(c, st, a)
    ensures AbortKnown(c, Do(c, st, a)) && AbortFromConfig(c, Do(c, st, a))
  {
    if a.At? {
      var t := Do(c, st, a);
      var s, m := a.s, a.m;
      DeferMove(c, st, s, m);
      PcMove(st.pc[s], m, |c.next[s]|, c.work[s]);
      AbortMove(c, st, s, m, s);
      AbortMove(c, st, s, m, 0);
      forall k: nat | k < |st.pc|
        ensures k in t.inherited ==> 0 < k && t.abort[k].Some?
        ensures AtWork(t.pc[k]) ==> t.abort[k].Some? || (k == 0 && k in t.bailed && c.abort[0].None?)
        ensures k in t.failed && t.abort[k] == Some(true) ==> t.cancelled
      {
        AbortMove(c, st, s, m, k);
      }
    }
  }

  lemma KeepsRoot(c: Config, st: State, a: Action)
    requires WellFormed(c) && Shape(c, st) && InheritFirst(c, st) && OrderExact(st)
    requires AbortFromConfig(c, st) && RootFirst(c, st) && Can(c, st, a)
    ensures RootFirst(c, Do(c, st, a))
  {
    if a.At? {
      var s, m := a.s, a.m;
      DeferMove(c, st, s, m);
      if m.Inherit? && s > 0 {
        assert Begun(st, s);
      }
      if s == 0 && m.Defer? {
        AbortMove(c, st, 0, m, 0);
      }
    }
  }

  // ---------------------------------------------------------------- order

  lemma KeepsOrder(c: Config, st: State, a: Action)
    requires WellFormed(c) && Shape(c, st) && OrderExact(st) && Can(c, st, a)
    ensures OrderExact(Do(c, st, a))
  {
    if a.At? {
      DeferMove(c, st, a.s, a.m);
      PcMove(st.pc[a.s], a.m, |c.next[a.s]|, c.work[a.s]);
    }
  }

  lemma KeepsFailed(c: Config, st: State, a: Action)
    requires WellFormed(c) && Shape(c, st) && FailedExact(st) && Can(c, st, a)
    ensures FailedExact(Do(c, st, a))
  {
    if a.At? {
      DeferMove(c, st, a.s, a.m);
      PcMove(st.pc[a.s], a.m, |c.next[a.s]|, c.work[a.s]);
    }
  }

  lemma PassedParent(c: Config, st: State, k: nat, p: nat)
    requires Shape(c, st) && LatchExact(c, st) && OrderExact(st)
    requires k < |st.pc| && st.prerequisites[k] == 0 && Edge(c, p, k)
    ensures Owed(st.pc[p], c.next[p], k) == 0 && (p in st.order || p in st.bailed)
  {
    SumZero(OwedBy(c, st.pc, k));
    assert OwedBy(c, st.pc, k)[p] == 0;
    CountPositive(c.next[p], k);
  }

  lemma KeepsParent(c: Config, st: State, s: nat, m: Move, j: nat, p: nat)
    requires WellFormed(c) && Shape(c, st) && LatchExact(c, st) && OrderExact(st) && Can(c, st, At(s, m))
    requires var t := Do(c, st, At(s, m)); j < |t.order| && Edge(c, p, t.order[j])
    requires j < |st.order| && Edge(c, p, st.order[j]) ==> ParentFirst(c, st, j, p)
    ensures ParentFirst(c, Do(c, st, At(s, m)), j, p)
  {
    var t := Do(c, st, At(s, m));
    DeferMove(c, st, s, m);
    var k := t.order[j];
    if j < |st.order| {
      assert t.order[..j] == st.order[..j] && st.order[j] == k;
    } else {
      PassedParent(c, st, k, p);
      assert t.order[..j] == st.order;
    }
    if p == s {
      OwedMove(st.pc[p], m, c.next[p], c.work[p], k);
    }
  }

  lemma KeepsParents(c: Config, st: State, a: Action)
    requires WellFormed(c) && Shape(c, st) && LatchExact(c, st) && OrderExact(st)
    requires ParentsFirst(c, st) && Can(c, st, a)
    ensures ParentsFirst(c, Do(c, st, a))
  {
    var t := Do(c, st, a);
    forall j: nat, p: nat | j < |t.order| && Edge(c, p, t.order[j])
      ensures ParentFirst(c, t, j, p)
    {
      if a.At? {
        KeepsParent(c, st, a.s, a.m, j, p);
      } else {
        assert ParentFirst(c, st, j, p);
      }
    }
  }

  // ---------------------------------------------------------------- triggers

  lemma SpawnMove(pc: Pc, m: Move, next: seq<nat>, work: nat, k: nat)
    requires Ready(pc, m, |next|)
    ensures HasSpawned(NextPc(pc, m, |next|, work), next, k)
       <==> HasSpawned(pc, next, k) || (m.Spawn? && pc.i < |next| && next[pc.i] == k)
  {
    if m.Spawn? {
      if pc.i < |next| {
        assert next[..pc.i + 1] == next[..pc.i] + [next[pc.i]];
      } else {
        assert next[..pc.i] == next;
      }
    }
  }

  lemma KeepsTriggersOf(c: Config, st: State, s: nat, m: Move, k: nat)
    requires WellFormed(c) && Shape(c, st) && Can(c, st, At(s, m)) && 0 < k < |st.pc|
    requires Begun(st, k) <==> Triggered(c, st.pc, k)
    ensures Begun(Do(c, st, At(s, m)), k) <==> Triggered(c, Do(c, st, At(s, m)).pc, k)
  {
    var t := Do(c, st, At(s, m));
    BegunStep(c, st, s, m, k);
    SpawnMove(st.pc[s], m, c.next[s], c.work[s], k);
    if Triggered(c, st.pc, k) {
      var p: nat :| SpawnedBy(c, st.pc, p, k);
      assert SpawnedBy(c, t.pc, p, k);
    }
    if Triggered(c, t.pc, k) {
      var p: nat :| SpawnedBy(c, t.pc, p, k);
      assert p != s ==> SpawnedBy(c, st.pc, p, k);
      assert HasSpawned(st.pc[s], c.next[s], k) ==> SpawnedBy(c, st.pc, s, k);
    }
    if m.Spawn? && Child(c, st.pc[s], s) == Some(k) {
      assert SpawnedBy(c, t.pc, s, k);
    }
  }

  lemma KeepsTriggers(c: Config, st: State, a: Action)
    requires WellFormed(c) && Shape(c, st) && TriggersExact(c, st) && Can(c, st, a)
    ensures TriggersExact(c, Do(c, st, a))
  {
    var t := Do(c, st, a);
    if a.At? {
      BegunStep(c, st, a.s, a.m, 0);
      forall k: nat | 0 < k < |st.pc|
        ensures Begun(t, k) <==> Triggered(c, t.pc, k)
      {
        KeepsTriggersOf(c, st, a.s, a.m, k);
      }
    }
  }

  lemma KeepsRange(c: Config, st: State, a: Action)
    requires WellFormed(c) && Shape(c, st) && InRange(c, st) && Can(c, st, a)
    ensures InRange(c, Do(c, st, a))
  {
  }

  // ---------------------------------------------------------------- every reachable state

  lemma Keeps(c: Config, st: State, a: Action)
    requires WellFormed(c) && Inv(c, st) && Can(c, st, a)
    ensures Inv(c, Do(c, st, a))
  {
    KeepsRange(c, st, a);
    KeepsExit(c, st, a);
    KeepsLatch(c, st, a);
    KeepsInherit(c, st, a);
    KeepsAbort(c, st, a);
    KeepsRoot(c, st, a);
    KeepsChannel(c, st, a);
    KeepsOrder(c, st, a);
    KeepsParents(c, st, a);
    KeepsTriggers(c, st, a);
    KeepsFailed(c, st, a);
  }

  lemma InitInv(c: Config)
    requires WellFormed(c)
    ensures Inv(c, Init(c))
  {
    var st := Init(c);
    var n := |c.next|;
    SumZero(HeldBy(c, st.pc));
    assert st.triggers == seq(n, _ => 0)[0 := 1];
    SumZero(seq(n, _ => 0));
    SumUpdate(seq(n, _ => 0), 0, 1);
    forall k: nat | k < n
      ensures st.prerequisites[k] == Sum(OwedBy(c, st.pc, k))
    {
      assert OwedBy(c, st.pc, k) == EdgesTo(c.next, k);
    }
  }

  lemma {:induction false} Reachable(c: Config, run: seq<Action>)
    requires WellFormed(c) && IsRun(c, run)
    ensures Inv(c, After(c, run))
    decreases |run|
  {
    if run == [] {
      InitInv(c);
    } else {
      var before := run[..|run| - 1];
      Reachable(c, before);
      Keeps(c, After(c, before), run[|run| - 1]);
    }
  }

  // ---------------------------------------------------------------- the main results, for every run

  /** wgExitMainStage is never negative, is zero only when no goroutine and no background writer is
      left, and stays zero. */
  lemma ExitLatchCounts(c: Config, run: seq<Action>, a: Action)
    requires WellFormed(c) && IsRun(c, run)
    ensures var st := After(c, run);
            && st.exit == Sum(st.triggers) + Sum(HeldBy(c, st.pc)) + st.writers
            && (st.exit == 0 ==> forall s :: 0 <= s < |st.pc| ==>
                  st.triggers[s] == 0 && (st.pc[s].Idle? || st.pc[s].Done?))
            && (st.exit == 0 && Can(c, st, a) ==> Do(c, st, a).exit == 0)
  {
    var st := After(c, run);
    Reachable(c, run);
    if st.exit == 0 {
      NobodyHolds(c, st);
      if a.At? { NoMoveAtZero(c, st, a.s, a.m); }
    }
  }

  predicate HasReleased(pc: Pc) {
    pc.Releasing? || pc.Announcing? || pc.Spawning? || pc.Leaving? || pc.Done?
  }

  /** Stage p has counted down the latch of its child s. */
  predicate Released(c: Config, st: State, p: nat, s: nat)
    requires Shape(c, st) && p < |st.pc|
  {
    HasReleased(st.pc[p]) && Owed(st.pc[p], c.next[p], s) == 0
  }

  lemma ParentReleased(c: Config, st: State, j: nat, p: nat)
    requires Shape(c, st) && ParentsFirst(c, st) && OrderExact(st)
    requires j < |st.order| && Edge(c, p, st.order[j])
    ensures Released(c, st, p, st.order[j]) && (!st.cancelled ==> p in st.order[..j])
  {
    CountPositive(c.next[p], st.order[j]);
    assert ParentFirst(c, st, j, p);
  }

  /** Every parent of a stage that passed has released it, and unless cancelled passed before it. */
  ghost predicate PassedInOrder(c: Config, st: State)
    requires Shape(c, st)
  {
    forall j: nat, p: nat :: j < |st.order| && Edge(c, p, st.order[j]) ==>
      Released(c, st, p, st.order[j]) && (!st.cancelled ==> p in st.order[..j])
  }

  lemma ParentsReleased(c: Config, st: State)
    requires Shape(c, st) && ParentsFirst(c, st) && OrderExact(st)
    ensures PassedInOrder(c, st)
  {
    forall j: nat, p: nat | j < |st.order| && Edge(c, p, st.order[j])
      ensures Released(c, st, p, st.order[j]) && (!st.cancelled ==> p in st.order[..j])
    {
      ParentReleased(c, st, j, p);
    }
  }

  /** No latch goes below zero, no stage body runs twice, and a stage passes its wait only after
      every parent has released it; without a cancellation the order is topological. */
  lemma StagesRunOnceInOrder(c: Config, run: seq<Action>)
    requires WellFormed(c) && IsRun(c, run)
    ensures var st := After(c, run);
            && (forall s :: 0 <= s < |st.prerequisites| ==> st.prerequisites[s] >= 0)
            && Distinct(st.order)
            && PassedInOrder(c, st)
  {
    Reachable(c, run);
    ParentsReleased(c, After(c, run));
  }

  /** A goroutine of a stage other than the root exists only after the stage's settings were
      propagated, so its fields have a single writer, and its AbortOnError can be dereferenced. */
  lemma SettingsBeforeStart(c: Config, run: seq<Action>, s: nat)
    requires WellFormed(c) && IsRun(c, run) && 0 < s < |c.next|
    ensures var st := After(c, run); Begun(st, s) ==> s in st.inherited && st.abort[s].Some?
  {
    Reachable(c, run);
  }

  /** The results sent are those received and those buffered, in order; when Run returns it has
      received every one of them. */
  lemma NoResultLost(c: Config, run: seq<Action>)
    requires WellFormed(c) && IsRun(c, run)
    ensures var st := After(c, run);
            && st.sent == st.received + st.channel
            && (st.phase == Finished ==> st.received == st.sent && st.exit == 0)
  {
    Reachable(c, run);
  }

  /** An unset AbortOnError is dereferenced only by a root that was cancelled at its select, before
      any stage did anything, and such a root cannot avoid it. */
  lemma CrashExactly(c: Config, run: seq<Action>)
    requires WellFormed(c) && IsRun(c, run)
    ensures var st := After(c, run);
            && (st.crashed ==> c.abort[0].None? && st.cancelled && 0 in st.bailed && st.order == [])
            && (c.abort[0].None? && 0 in st.bailed ==> st.crashed || st.pc[0] == Returned(false))
  {
    var st := After(c, run);
    Reachable(c, run);
    assert AbortKnown(c, st) && RootFirst(c, st) && OrderExact(st) && InheritFirst(c, st);
    if st.crashed && st.order != [] {
      assert st.order[0] in st.order;
      assert Begun(st, st.order[0]);
    }
  }

  ghost predicate CanCrash(c: Config)
    requires WellFormed(c)
  {
    exists run :: IsRun(c, run) && After(c, run).crashed
  }

  /** Some run crashes exactly if the root has no abort_on_error setting. */
  lemma CanCrashExactly(c: Config)
    requires WellFormed(c)
    ensures CanCrash(c) <==> c.abort[0].None?
  {
    if CanCrash(c) {
      var run :| IsRun(c, run) && After(c, run).crashed;
      CrashExactly(c, run);
    }
    if c.abort[0].None? {
      var run := CrashingRun(c);
    }
  }

  lemma RunNext(c: Config, run: seq<Action>, a: Action)
    requires WellFormed(c) && IsRun(c, run) && Can(c, After(c, run), a)
    ensures IsRun(c, run + [a]) && After(c, run + [a]) == Do(c, After(c, run), a)
  {
    assert (run + [a])[..|run + [a]| - 1] == run;
  }

  /** The root starts, a signal comes before it passes its select, and it returns. */
  lemma CrashingRun(c: Config) returns (run: seq<Action>)
    requires WellFormed(c) && c.abort[0].None?
    ensures IsRun(c, run) && After(c, run).crashed
  {
    run := [];
    RunNext(c, run, At(0, Start));
    run := run + [At(0, Start)];
    RunNext(c, run, Interrupt);
    run := run + [Interrupt];
    RunNext(c, run, At(0, Bail));
    run := run + [At(0, Bail)];
    RunNext(c, run, At(0, Defer));
    run := run + [At(0, Defer)];
  }
}
