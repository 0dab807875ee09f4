/** Pool permits and connection handles as a system of interleaved steps. */
module ConnectionPool {
  import opened Options

  type GetId = nat
  type ConnId = nat
  type RunId = nat

  /** The handle: alive, inside `drop`, or gone with its permit released. */
  datatype Phase = Live | Dropping | Dropped

  /** The closure that empties the slot: spawned (or entered), holding the lock, having taken, finished. */
  datatype Job = NoJob | Queued | Locked | Emptied | Done

  datatype Owner = ByRun(run: RunId) | ByDrop

  /** `full`: the slot is `Some`; `takes`: how often it went to `None`; `inline`: dropped outside a runtime. */
  datatype Conn = Conn(full: bool, takes: nat, lock: Option<Owner>, phase: Phase, job: Job, inline: bool)

  datatype Stage = Waiting | Holding | Finished | Panicked

  datatype Run = Run(conn: ConnId, cancelled: bool, stage: Stage)

  /** `gets`: in-flight calls of `get`, and whether each has its permit. */
  datatype State = State(size: nat, free: nat, gets: map<GetId, bool>,
                         conns: map<ConnId, Conn>, runs: map<RunId, Run>)

  datatype Action =
    | GetStart(g: GetId)
    | GetTimeout(g: GetId)
    | GetAcquire(g: GetId)
    | GetOk(g: GetId, c: ConnId)
    | GetErr(g: GetId)
    | GetCancel(g: GetId)
    | RunStart(r: RunId, c: ConnId)
    | RunCancel(r: RunId)
    | RunLock(r: RunId)
    | RunUse(r: RunId)
    | DropStart(c: ConnId, inline: bool)
    | DropLock(c: ConnId)
    | DropTake(c: ConnId)
    | DropUnlock(c: ConnId)
    | DropPermit(c: ConnId)

  function Init(size: nat): State { State(size, size, map[], map[], map[]) }

  predicate Active(run: Run) { run.stage.Waiting? || run.stage.Holding? }

  /** A `run` future borrows the handle: the handle outlives it unless it is cancelled first. */
  predicate Borrowed(s: State, c: ConnId)
  {
    exists r :: r in s.runs && s.runs[r].conn == c && Active(s.runs[r]) && !s.runs[r].cancelled
  }

  predicate Enabled(s: State, a: Action)
  {
    match a
    case GetStart(g) => g !in s.gets
    case GetTimeout(g) => g in s.gets && !s.gets[g]
    case GetAcquire(g) => g in s.gets && !s.gets[g] && s.free > 0
    case GetOk(g, c) => g in s.gets && s.gets[g] && c !in s.conns
    case GetErr(g) => g in s.gets && s.gets[g]
    case GetCancel(g) => g in s.gets
    case RunStart(r, c) => r !in s.runs && c in s.conns && s.conns[c].phase.Live?
    case RunCancel(r) => r in s.runs && Active(s.runs[r]) && !s.runs[r].cancelled
    case RunLock(r) =>
      r in s.runs && s.runs[r].stage.Waiting? && s.runs[r].conn in s.conns && s.conns[s.runs[r].conn].lock.None?
    case RunUse(r) => r in s.runs && s.runs[r].stage.Holding? && s.runs[r].conn in s.conns
    case DropStart(c, _) => c in s.conns && s.conns[c].phase.Live? && !Borrowed(s, c)
    case DropLock(c) => c in s.conns && s.conns[c].job.Queued? && s.conns[c].lock.None?
    case DropTake(c) => c in s.conns && s.conns[c].job.Locked?
    case DropUnlock(c) => c in s.conns && s.conns[c].job.Emptied?
    case DropPermit(c) =>
      c in s.conns && s.conns[c].phase.Dropping? && (s.conns[c].inline ==> s.conns[c].job.Done?)
  }

  function Put(s: State, c: ConnId, conn: Conn): State { s.(conns := s.conns[c := conn]) }

  function Step(s: State, a: Action): State
    requires Enabled(s, a)
  {
    match a
    case GetStart(g) => s.(gets := s.gets[g := false])
    case GetTimeout(g) => s.(gets := s.gets - {g})
    case GetAcquire(g) => s.(gets := s.gets[g := true], free := s.free - 1)
    case GetOk(g, c) =>
      Put(s, c, Conn(true, 0, None, Live, NoJob, false)).(gets := s.gets - {g})
    case GetErr(g) => s.(gets := s.gets - {g}, free := s.free + 1)
    case GetCancel(g) => s.(gets := s.gets - {g}, free := s.free + if s.gets[g] then 1 else 0)
    case RunStart(r, c) => s.(runs := s.runs[r := Run(c, false, Waiting)])
    case RunCancel(r) => s.(runs := s.runs[r := s.runs[r].(cancelled := true)])
    case RunLock(r) =>
      var c := s.runs[r].conn;
      Put(s, c, s.conns[c].(lock := Some(ByRun(r)))).(runs := s.runs[r := s.runs[r].(stage := Holding)])
    case RunUse(r) =>
      // the `expect` on the slot, then the closure; the guard is released either way
      var c := s.runs[r].conn;
      var stage := if s.conns[c].full then Finished else Panicked;
      Put(s, c, s.conns[c].(lock := None)).(runs := s.runs[r := s.runs[r].(stage := stage)])
    case DropStart(c, inline) => Put(s, c, s.conns[c].(phase := Dropping, job := Queued, inline := inline))
    case DropLock(c) => Put(s, c, s.conns[c].(lock := Some(ByDrop), job := Locked))
    case DropTake(c) =>
      var conn := s.conns[c];
      Put(s, c, conn.(full := false, takes := conn.takes + (if conn.full then 1 else 0), job := Emptied))
    case DropUnlock(c) => Put(s, c, s.conns[c].(lock := None, job := Done))
    case DropPermit(c) => Put(s, c, s.conns[c].(phase := Dropped)).(free := s.free + 1)
  }

  // ---------------------------------------------------------------- the invariant

  ghost function PermitGets(s: State): set<GetId> { set g | g in s.gets && s.gets[g] }

  ghost function OpenConns(s: State): set<ConnId> { set c | c in s.conns && !s.conns[c].phase.Dropped? }

  /** Free permits, permits of in-flight gets and permits of handles make up the pool. */
  ghost predicate Conserved(s: State)
  {
    s.free + |PermitGets(s)| + |OpenConns(s)| == s.size
  }

  /** A slot is full until its drop job empties it, once; the job runs under the lock. */
  predicate ConnShape(k: Conn)
  {
    && (k.phase.Live? <==> k.job.NoJob?)
    && (k.full <==> !k.job.Emptied? && !k.job.Done?)
    && k.takes == (if k.full then 0 else 1)
    && (k.lock == Some(ByDrop) <==> k.job.Locked? || k.job.Emptied?)
    && (k.phase.Dropped? && k.inline ==> k.job.Done?)
  }

  /** A run that holds the lock of `c` is a run of `c` about to use its slot. */
  predicate Holder(s: State, c: ConnId)
    requires c in s.conns
  {
    var lock := s.conns[c].lock;
    lock.Some? && lock.value.ByRun? ==>
      var r := lock.value.run;
      r in s.runs && s.runs[r].conn == c && s.runs[r].stage.Holding?
  }

  predicate ConnOk(s: State, c: ConnId)
    requires c in s.conns
  {
    ConnShape(s.conns[c]) && Holder(s, c)
  }

  ghost predicate RunOk(s: State, r: RunId)
    requires r in s.runs
  {
    var run := s.runs[r];
    && run.conn in s.conns
    && (run.stage.Holding? ==> s.conns[run.conn].lock == Some(ByRun(r)))
    && (Active(run) && !run.cancelled ==> s.conns[run.conn].phase.Live?)
    && (run.stage.Panicked? ==> run.cancelled)
  }

  ghost predicate Inv(s: State)
  {
    && Conserved(s)
    && (forall c :: c in s.conns ==> ConnOk(s, c))
    && (forall r :: r in s.runs ==> RunOk(s, r))
  }

  /** Which gets hold a permit after a step. */
  lemma StepGets(s: State, a: Action)
    requires Enabled(s, a)
    ensures PermitGets(Step(s, a)) == match a
                                      case GetAcquire(g) => PermitGets(s) + {g}
                                      case GetOk(g, _) => PermitGets(s) - {g}
                                      case GetErr(g) => PermitGets(s) - {g}
                                      case GetCancel(g) => PermitGets(s) - {g}
                                      case _ => PermitGets(s)
  {
  }

  /** Which handles hold a permit after a step. */
  lemma StepConns(s: State, a: Action)
    requires Enabled(s, a)
    requires forall r :: r in s.runs ==> s.runs[r].conn in s.conns
    ensures OpenConns(Step(s, a)) == match a
                                     case GetOk(_, c) => OpenConns(s) + {c}
                                     case DropPermit(c) => OpenConns(s) - {c}
                                     case _ => OpenConns(s)
  {
  }

  lemma StepConserves(s: State, a: Action)
    requires Inv(s) && Enabled(s, a)
    ensures Conserved(Step(s, a))
  {
    StepGets(s, a);
    assert forall r :: r in s.runs ==> RunOk(s, r);
    StepConns(s, a);
  }

  lemma StepKeepsShape(s: State, a: Action, c: ConnId)
    requires Enabled(s, a) && c in Step(s, a).conns
    requires c in s.conns ==> ConnShape(s.conns[c])
    requires a.RunUse? ==> s.conns[s.runs[a.r].conn].lock == Some(ByRun(a.r))
    ensures ConnShape(Step(s, a).conns[c])
  {
  }

  lemma StepKeepsHolder(s: State, a: Action, c: ConnId)
    requires Enabled(s, a) && c in Step(s, a).conns
    requires c in s.conns ==> Holder(s, c)
    ensures Holder(Step(s, a), c)
  {
  }

  lemma StepKeepsConn(s: State, a: Action, c: ConnId)
    requires Inv(s) && Enabled(s, a) && c in Step(s, a).conns
    ensures ConnOk(Step(s, a), c)
  {
    assert c in s.conns ==> ConnOk(s, c);
    assert a.RunUse? ==> RunOk(s, a.r);
    StepKeepsShape(s, a, c);
    StepKeepsHolder(s, a, c);
  }

  lemma StepKeepsRun(s: State, a: Action, r: RunId)
    requires Inv(s) && Enabled(s, a) && r in Step(s, a).runs
    ensures RunOk(Step(s, a), r)
  {
    if r in s.runs { assert RunOk(s, r) && ConnOk(s, s.runs[r].conn); }
  }

  lemma StepKeepsInv(s: State, a: Action)
    requires Inv(s) && Enabled(s, a)
    ensures Inv(Step(s, a))
  {
    StepConserves(s, a);
    forall c | c in Step(s, a).conns ensures ConnOk(Step(s, a), c) {
      StepKeepsConn(s, a, c);
    }
    forall r | r in Step(s, a).runs ensures RunOk(Step(s, a), r) {
      StepKeepsRun(s, a, r);
    }
  }

  // ---------------------------------------------------------------- whole runs

  predicate Legal(s: State, actions: seq<Action>)
    decreases |actions|
  {
    actions == [] || (Enabled(s, actions[0]) && Legal(Step(s, actions[0]), actions[1..]))
  }

  function After(s: State, actions: seq<Action>): State
    requires Legal(s, actions)
    decreases |actions|
  {
    if actions == [] then s else After(Step(s, actions[0]), actions[1..])
  }

  lemma {:induction false} RunsKeepInv(s: State, actions: seq<Action>)
    requires Inv(s) && Legal(s, actions)
    ensures Inv(After(s, actions))
    decreases |actions|
  {
    if actions != [] {
      StepKeepsInv(s, actions[0]);
      RunsKeepInv(Step(s, actions[0]), actions[1..]);
    }
  }

  ghost predicate Reachable(s: State)
  {
    exists size, actions :: Legal(Init(size), actions) && s == After(Init(size), actions)
  }

  lemma ReachableInv(s: State)
    requires Reachable(s)
    ensures Inv(s)
  {
    var size, actions :| Legal(Init(size), actions) && s == After(Init(size), actions);
    assert PermitGets(Init(size)) == {} && OpenConns(Init(size)) == {};
    RunsKeepInv(Init(size), actions);
  }

  /** In every interleaving: permits are conserved, a connection's lock has one holder, and each slot
      is emptied at most once, exactly once when its drop job has run. */
  lemma Safety(s: State)
    requires Reachable(s)
    ensures s.free + |PermitGets(s)| + |OpenConns(s)| == s.size
    ensures forall q, r :: q in s.runs && r in s.runs && s.runs[q].stage.Holding? && s.runs[r].stage.Holding?
                           && s.runs[q].conn == s.runs[r].conn
              ==> q == r
    ensures forall r :: r in s.runs && s.runs[r].stage.Holding? ==>
              s.runs[r].conn in s.conns && !s.conns[s.runs[r].conn].job.Locked?
              && !s.conns[s.runs[r].conn].job.Emptied?
    ensures forall c :: c in s.conns ==> s.conns[c].takes <= 1
    ensures forall c :: c in s.conns && s.conns[c].job.Done? ==> s.conns[c].takes == 1
  {
    ReachableInv(s);
    forall r | r in s.runs ensures RunOk(s, r) && ConnOk(s, s.runs[r].conn) {
      assert RunOk(s, r);
    }
  }

  /** The `expect` in `run`: it fails exactly when the drop job got to the slot first, and then the
      run's future had been cancelled. */
  lemma ExpectFailsOnlyAfterCancel(s: State, r: RunId)
    requires Reachable(s) && r in s.runs && s.runs[r].stage.Holding?
    ensures Enabled(s, RunUse(r))
    ensures Step(s, RunUse(r)).runs[r].stage.Panicked? <==> s.conns[s.runs[r].conn].job.Done?
    ensures Step(s, RunUse(r)).runs[r].stage.Panicked? ==> s.runs[r].cancelled
  {
    ReachableInv(s);
    assert RunOk(s, r);
    assert ConnOk(s, s.runs[r].conn);
  }

  /** A dropped handle's connection is still out while its drop job has yet to take it, which happens only
      when it was dropped inside a runtime. */
  lemma EarlyPermitIsAsync(s: State, c: ConnId)
    requires Reachable(s) && c in s.conns && s.conns[c].phase.Dropped?
    ensures s.conns[c].full <==> s.conns[c].job.Queued? || s.conns[c].job.Locked?
    ensures s.conns[c].full ==> !s.conns[c].inline
  {
    ReachableInv(s);
    assert ConnOk(s, c);
  }

  /** From every reachable state and for every handle that may be dropped: its permit can be free before its
      connection is taken, with every other handle and permit as they were, exactly if it is dropped inside
      a runtime. */
  lemma EarlyPermitIffAsync(s: State, c: ConnId, inline: bool)
    requires Reachable(s) && c in s.conns && s.conns[c].phase.Live? && !Borrowed(s, c)
    ensures Enabled(s, DropStart(c, inline))
    ensures Enabled(Step(s, DropStart(c, inline)), DropPermit(c)) <==> !inline
    ensures !inline ==>
              var t := Step(Step(s, DropStart(c, inline)), DropPermit(c));
              && Reachable(t) && t.free == s.free + 1 && t.conns.Keys == s.conns.Keys
              && t.conns[c].full && t.conns[c].phase.Dropped?
              && forall d :: d in s.conns && d != c ==> t.conns[d] == s.conns[d]
  {
    ReachableInv(s);
    assert ConnOk(s, c);
    var u := ReachStep(s, DropStart(c, inline));
    assert u == Put(s, c, s.conns[c].(phase := Dropping, job := Queued, inline := inline));
    if !inline {
      var t := ReachStep(u, DropPermit(c));
    }
  }

  /** No deadlock: while a task of a connection is unfinished, one of them can move. */
  lemma SomeTaskMoves(s: State, c: ConnId) returns (a: Action)
    requires Reachable(s) && c in s.conns
    requires (exists r :: r in s.runs && s.runs[r].conn == c && Active(s.runs[r])) ||
             !(s.conns[c].job.NoJob? || s.conns[c].job.Done?)
    ensures Enabled(s, a)
    ensures a == DropLock(c) || a == DropTake(c) || a == DropUnlock(c) ||
            ((a.RunLock? || a.RunUse?) && a.r in s.runs && s.runs[a.r].conn == c)
  {
    ReachableInv(s);
    assert ConnOk(s, c);
    var k := s.conns[c];
    match k.lock
    case Some(ByRun(r)) => a := RunUse(r);
    case Some(ByDrop) => a := if k.job.Locked? then DropTake(c) else DropUnlock(c);
    case None =>
      if k.job.Queued? {
        a := DropLock(c);
      } else {
        var r :| r in s.runs && s.runs[r].conn == c && Active(s.runs[r]);
        assert RunOk(s, r);
        a := RunLock(r);
      }
  }

  /** When no `get` is in flight and every handle is gone, every permit is back. */
  lemma QuietPoolIsFull(s: State)
    requires Reachable(s) && s.gets == map[] && forall c :: c in s.conns ==> s.conns[c].phase.Dropped?
    ensures s.free == s.size
  {
    ReachableInv(s);
    assert PermitGets(s) == {} && OpenConns(s) == {};
  }

  // ---------------------------------------------------------------- a run of the system

  lemma {:induction false} LegalSnoc(s: State, actions: seq<Action>, a: Action)
    requires Legal(s, actions) && Enabled(After(s, actions), a)
    ensures Legal(s, actions + [a]) && After(s, actions + [a]) == Step(After(s, actions), a)
    decreases |actions|
  {
    if actions == [] {
      assert [a][1..] == [] && [] + [a] == [a];
    } else {
      assert (actions + [a])[1..] == actions[1..] + [a];
      LegalSnoc(Step(s, actions[0]), actions[1..], a);
    }
  }

  lemma ReachStep(s: State, a: Action) returns (t: State)
    requires Reachable(s) && Enabled(s, a)
    ensures Reachable(t) && t == Step(s, a)
  {
    var size, actions :| Legal(Init(size), actions) && s == After(Init(size), actions);
    LegalSnoc(Init(size), actions, a);
    t := Step(s, a);
  }

  const FRESH := Conn(true, 0, None, Live, NoJob, false)

  /** One permit, taken by one `get`. */
  lemma OnePermitHeld() returns (s: State)
    ensures Reachable(s) && s == State(1, 0, map[0 := true], map[], map[])
  {
    s := Init(1);
    assert Legal(Init(1), []) && s == After(Init(1), []);
    s := ReachStep(s, GetStart(0));
    s := ReachStep(s, GetAcquire(0));
    assert s.gets == map[0 := true];
  }

  lemma OneHandle() returns (s: State)
    ensures Reachable(s) && s == State(1, 0, map[], map[0 := FRESH], map[])
  {
    s := OnePermitHeld();
    s := ReachStep(s, GetOk(0, 0));
    assert s.gets == map[];
  }

  /** One connection, one `run` waiting for its thread when its future is cancelled. */
  lemma RunIsCancelled() returns (s: State)
    ensures Reachable(s) && s == State(1, 0, map[], map[0 := FRESH], map[0 := Run(0, true, Waiting)])
  {
    s := OneHandle();
    s := ReachStep(s, RunStart(0, 0));
    s := ReachStep(s, RunCancel(0));
    assert s.runs == map[0 := Run(0, true, Waiting)];
  }

  // ---------------------------------------------------------------- which runs may fail

  /** From here `r`'s `expect` may fail without its future being cancelled on the way. */
  ghost predicate MayPanic(s: State, r: RunId)
  {
    exists actions :: PanicsAfter(s, actions, r)
  }

  ghost predicate PanicsAfter(s: State, actions: seq<Action>, r: RunId)
  {
    && Legal(s, actions) && RunCancel(r) !in actions
    && r in After(s, actions).runs && After(s, actions).runs[r].stage.Panicked?
  }

  /** The uncancelled runs that borrow the handle. */
  ghost function Borrowers(s: State, c: ConnId): set<RunId>
  {
    set r | r in s.runs && s.runs[r].conn == c && Active(s.runs[r]) && !s.runs[r].cancelled
  }

  /** What is still to happen to a connection before a waiting run finds its slot empty and its lock free. */
  function Rank(k: Conn): nat
  {
    2 * (match k.job case NoJob => 4 case Queued => 3 case Locked => 2 case Emptied => 1 case Done => 0)
    + if k.lock.Some? && k.lock.value.ByRun? then 1 else 0
  }

  /** Some step brings a cancelled waiting run closer to failing, and is neither its own nor its cancelling. */
  lemma CloserToPanic(s: State, r: RunId) returns (a: Action)
    requires Inv(s) && r in s.runs && s.runs[r].cancelled && s.runs[r].stage.Waiting?
    requires s.runs[r].conn in s.conns && Rank(s.conns[s.runs[r].conn]) > 0
    ensures Enabled(s, a) && a != RunCancel(r)
    ensures r in Step(s, a).runs && Step(s, a).runs[r] == s.runs[r] && s.runs[r].conn in Step(s, a).conns
    ensures var c, t := s.runs[r].conn, Step(s, a);
            if a.RunCancel? then a.r in Borrowers(s, c) && Borrowers(t, c) == Borrowers(s, c) - {a.r}
            else Borrowers(t, c) <= Borrowers(s, c) && Rank(t.conns[c]) < Rank(s.conns[c])
  {
    var c := s.runs[r].conn;
    var k := s.conns[c];
    assert ConnOk(s, c);
    if k.phase.Live? {
      if q :| q in Borrowers(s, c) {
        a := RunCancel(q);
      } else {
        assert forall q :: q in s.runs ==> q !in Borrowers(s, c);
        a := DropStart(c, false);
      }
    } else {
      match k.lock
      case Some(ByRun(q)) => a := RunUse(q);
      case Some(ByDrop) => a := if k.job.Locked? then DropTake(c) else DropUnlock(c);
      case None => a := DropLock(c);
    }
  }

  lemma {:induction false} CancelledMayPanic(s: State, r: RunId) returns (actions: seq<Action>)
    requires Inv(s) && r in s.runs && s.runs[r].cancelled && s.runs[r].stage.Waiting? && s.runs[r].conn in s.conns
    ensures PanicsAfter(s, actions, r)
    decreases |Borrowers(s, s.runs[r].conn)|, Rank(s.conns[s.runs[r].conn])
  {
    var c := s.runs[r].conn;
    if Rank(s.conns[c]) > 0 {
      var a := CloserToPanic(s, r);
      StepKeepsInv(s, a);
      if !a.RunCancel? {
        SubsetCard(Borrowers(Step(s, a), c), Borrowers(s, c));
      }
      var rest := CancelledMayPanic(Step(s, a), r);
      actions := [a] + rest;
      assert actions[0] == a && actions[1..] == rest;
    } else {
      assert ConnOk(s, c);
      actions := [RunLock(r), RunUse(r)];
      assert actions[1..] == [RunUse(r)] && actions[1..][1..] == [];
      LegalTwo(s, RunLock(r), RunUse(r));
    }
  }

  lemma LegalTwo(s: State, a: Action, b: Action)
    requires Enabled(s, a) && Enabled(Step(s, a), b)
    ensures Legal(s, [a, b]) && After(s, [a, b]) == Step(Step(s, a), b)
  {
    assert [a, b][1..] == [b] && [b][1..] == [];
    assert Legal(Step(s, a), [b]) && After(Step(s, a), [b]) == Step(Step(s, a), b);
  }

  lemma {:induction false} SubsetCard<A>(a: set<A>, b: set<A>)
    requires a <= b
    ensures |a| <= |b|
  {
    if a != {} {
      var x :| x in a;
      SubsetCard(a - {x}, b - {x});
    }
  }

  /** A future is cancelled by its own cancelling only. */
  lemma {:induction false} UncancelledStays(s: State, actions: seq<Action>, r: RunId)
    requires Legal(s, actions) && RunCancel(r) !in actions && r in s.runs && !s.runs[r].cancelled
    ensures r in After(s, actions).runs && !After(s, actions).runs[r].cancelled
    decreases |actions|
  {
    if actions != [] {
      UncancelledStays(Step(s, actions[0]), actions[1..], r);
    }
  }

  lemma UncancelledNeverPanics(s: State, actions: seq<Action>, r: RunId)
    requires Inv(s) && Legal(s, actions) && RunCancel(r) !in actions && r in s.runs && !s.runs[r].cancelled
    ensures r in After(s, actions).runs && !After(s, actions).runs[r].stage.Panicked?
  {
    UncancelledStays(s, actions, r);
    RunsKeepInv(s, actions);
    assert RunOk(After(s, actions), r);
  }

  /** In every reachable state, a waiting run whose future is not cancelled from then on may still fail its
      `expect` exactly if the future has been cancelled already: the drop job may win the race for the slot. */
  lemma CancelledRunMayPanic(s: State, r: RunId)
    requires Reachable(s) && r in s.runs && s.runs[r].stage.Waiting?
    ensures MayPanic(s, r) <==> s.runs[r].cancelled
  {
    ReachableInv(s);
    assert RunOk(s, r);
    if s.runs[r].cancelled {
      var actions := CancelledMayPanic(s, r);
    } else {
      forall actions ensures !PanicsAfter(s, actions, r) {
        if Legal(s, actions) && RunCancel(r) !in actions {
          UncancelledNeverPanics(s, actions, r);
        }
      }
    }
  }

  lemma {:induction false} ReachAll(s: State, actions: seq<Action>)
    requires Reachable(s) && Legal(s, actions)
    ensures Reachable(After(s, actions))
    decreases |actions|
  {
    if actions != [] {
      var t := ReachStep(s, actions[0]);
      ReachAll(t, actions[1..]);
    }
  }

  /** Some run fails its `expect`. */
  lemma SomeRunPanics() returns (t: State)
    ensures Reachable(t) && 0 in t.runs && t.runs[0].stage.Panicked?
  {
    var s := RunIsCancelled();
    CancelledRunMayPanic(s, 0);
    var actions :| PanicsAfter(s, actions, 0);
    ReachAll(s, actions);
    t := After(s, actions);
  }

  /** On the same path the permit may be free while the connection has not been returned. */
  lemma PermitMayBeFreeEarly() returns (s: State)
    ensures Reachable(s) && s.free == 1 && 0 in s.conns && s.conns[0].full && s.conns[0].phase.Dropped?
  {
    s := RunIsCancelled();
    EarlyPermitIffAsync(s, 0, false);
    s := Step(Step(s, DropStart(0, false)), DropPermit(0));
  }

  // ---------------------------------------------------------------- coming to rest

  lemma {:induction false} LegalAppend(s: State, a: seq<Action>, b: seq<Action>)
    requires Legal(s, a) && Legal(After(s, a), b)
    ensures Legal(s, a + b) && After(s, a + b) == After(After(s, a), b)
    decreases |a|
  {
    if a == [] {
      assert a + b == b;
    } else {
      assert (a + b)[1..] == a[1..] + b;
      LegalAppend(Step(s, a[0]), a[1..], b);
    }
  }

  lemma Prepend(s: State, a: Action, rest: seq<Action>)
    requires Enabled(s, a) && Legal(Step(s, a), rest)
    ensures Legal(s, [a] + rest) && After(s, [a] + rest) == After(Step(s, a), rest)
  {
    assert ([a] + rest)[1..] == rest;
  }

  /** The runs whose futures are still there. */
  ghost function Pending(s: State): set<RunId>
  {
    set r | r in s.runs && Active(s.runs[r]) && !s.runs[r].cancelled
  }

  ghost function LiveConns(s: State): set<ConnId> { set c | c in s.conns && s.conns[c].phase.Live? }

  /** No `get` is in flight, no future is there and no handle is alive. */
  ghost predicate Closing(s: State) { s.gets == map[] && Pending(s) == {} && LiveConns(s) == {} }

  /** A closing pool's next step for a handle inside `drop`: its permit, or what that waits for. */
  lemma CloserToPermit(s: State, c: ConnId) returns (a: Action)
    requires Inv(s) && Closing(s) && c in s.conns && s.conns[c].phase.Dropping?
    ensures Enabled(s, a) && Closing(Step(s, a)) && c in Step(s, a).conns
    ensures var t := Step(s, a);
            if a == DropPermit(c) then OpenConns(t) == OpenConns(s) - {c}
            else t.conns[c].phase.Dropping? && OpenConns(t) == OpenConns(s) && Rank(t.conns[c]) < Rank(s.conns[c])
  {
    assert ConnOk(s, c);
    var k := s.conns[c];
    if !k.inline || k.job.Done? {
      a := DropPermit(c);
    } else {
      match k.lock
      case Some(ByRun(q)) => a := RunUse(q);
      case Some(ByDrop) => a := if k.job.Locked? then DropTake(c) else DropUnlock(c);
      case None => a := DropLock(c);
    }
    StepCloses(s, a, c);
  }

  lemma StepCloses(s: State, a: Action, c: ConnId)
    requires Inv(s) && Closing(s) && Enabled(s, a) && c in s.conns && s.conns[c].phase.Dropping?
    requires a == DropPermit(c) || a == DropLock(c) || a == DropTake(c) || a == DropUnlock(c) ||
             (a.RunUse? && s.runs[a.r].conn == c)
    ensures Closing(Step(s, a))
    ensures OpenConns(Step(s, a)) == if a == DropPermit(c) then OpenConns(s) - {c} else OpenConns(s)
  {
    assert forall r :: r in s.runs ==> RunOk(s, r);
    StepConns(s, a);
    assert forall r :: r in s.runs ==> r !in Pending(s);
    assert forall d :: d in s.conns ==> d !in LiveConns(s);
  }

  lemma {:induction false} PermitReturns(s: State, c: ConnId) returns (actions: seq<Action>)
    requires Inv(s) && Closing(s) && c in s.conns && s.conns[c].phase.Dropping?
    ensures Legal(s, actions) && Inv(After(s, actions)) && Closing(After(s, actions))
    ensures OpenConns(After(s, actions)) == OpenConns(s) - {c}
    decreases Rank(s.conns[c])
  {
    var a := CloserToPermit(s, c);
    StepKeepsInv(s, a);
    var rest: seq<Action> := [];
    if a != DropPermit(c) {
      rest := PermitReturns(Step(s, a), c);
    }
    Prepend(s, a, rest);
    actions := [a] + rest;
  }

  lemma {:induction false} ClosingPoolEmpties(s: State) returns (actions: seq<Action>)
    requires Inv(s) && Closing(s)
    ensures Legal(s, actions) && Inv(After(s, actions))
    ensures After(s, actions).gets == map[] && OpenConns(After(s, actions)) == {}
    decreases |OpenConns(s)|
  {
    actions := [];
    if c :| c in OpenConns(s) {
      assert c !in LiveConns(s);
      var first := PermitReturns(s, c);
      var rest := ClosingPoolEmpties(After(s, first));
      LegalAppend(s, first, rest);
      actions := first + rest;
    }
  }

  lemma GetEnds(s: State, g: GetId)
    requires g in s.gets
    ensures Enabled(s, GetCancel(g)) && |Step(s, GetCancel(g)).gets| < |s.gets|
  {
    var t := Step(s, GetCancel(g));
    assert t.gets.Keys == s.gets.Keys - {g};
    assert |s.gets| == |s.gets.Keys| && |t.gets| == |t.gets.Keys|;
  }

  lemma FutureEnds(s: State, r: RunId)
    requires r in Pending(s)
    ensures Enabled(s, RunCancel(r)) && |Pending(Step(s, RunCancel(r)))| < |Pending(s)|
  {
    assert Pending(Step(s, RunCancel(r))) == Pending(s) - {r};
  }

  lemma HandleEnds(s: State, c: ConnId)
    requires c in LiveConns(s) && Pending(s) == {}
    ensures Enabled(s, DropStart(c, false))
    ensures var t := Step(s, DropStart(c, false));
            t.gets == s.gets && Pending(t) == Pending(s) && |LiveConns(t)| < |LiveConns(s)|
  {
    assert forall r :: r in s.runs ==> r !in Pending(s);
    var t := Step(s, DropStart(c, false));
    assert LiveConns(t) == LiveConns(s) - {c};
    assert Pending(t) == Pending(s);
  }

  /** A pool that is not closing can take a step towards it. */
  lemma CloserToClosing(s: State) returns (a: Action)
    requires Inv(s) && !Closing(s)
    ensures Enabled(s, a)
    ensures var t := Step(s, a);
            || |t.gets| < |s.gets|
            || (t.gets == s.gets && |Pending(t)| < |Pending(s)|)
            || (t.gets == s.gets && Pending(t) == Pending(s) && |LiveConns(t)| < |LiveConns(s)|)
  {
    if g :| g in s.gets {
      GetEnds(s, g);
      a := GetCancel(g);
    } else if r :| r in Pending(s) {
      FutureEnds(s, r);
      a := RunCancel(r);
    } else {
      assert s.gets == map[];
      var c :| c in LiveConns(s);
      HandleEnds(s, c);
      a := DropStart(c, false);
    }
  }

  lemma {:induction false} PoolDrains(s: State) returns (actions: seq<Action>)
    requires Inv(s)
    ensures Legal(s, actions) && Inv(After(s, actions))
    ensures After(s, actions).gets == map[] && OpenConns(After(s, actions)) == {}
    decreases |s.gets|, |Pending(s)|, |LiveConns(s)|
  {
    if Closing(s) {
      actions := ClosingPoolEmpties(s);
    } else {
      var a := CloserToClosing(s);
      StepKeepsInv(s, a);
      var rest := PoolDrains(Step(s, a));
      Prepend(s, a, rest);
      actions := [a] + rest;
    }
  }

  lemma {:induction false} SizeStays(s: State, actions: seq<Action>)
    requires Legal(s, actions)
    ensures After(s, actions).size == s.size
    decreases |actions|
  {
    if actions != [] {
      SizeStays(Step(s, actions[0]), actions[1..]);
    }
  }

  /** No permit is ever lost: from every reachable state the pool can come to rest with all of them free. */
  lemma AllPermitsCanReturn(s: State) returns (actions: seq<Action>)
    requires Reachable(s)
    ensures Legal(s, actions) && After(s, actions).free == s.size
  {
    ReachableInv(s);
    actions := PoolDrains(s);
    var t := After(s, actions);
    SizeStays(s, actions);
    assert PermitGets(t) == {};
  }
}
