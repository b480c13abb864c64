/** Who owns the control socket's path: src/control_socket.cpp and lock_file() of src/daemon.cpp.

    Any number of processes open, fail part-way, close, probe or crash, one
    system call at a time, over one shared file system. The two facts the
    source rests on are configuration here, so that what they buy can be stated:
    the lock file is never removed, and the lock is the last thing released.
 */
module ControlLock {
  import opened Machine

  /** `removesLock`: close() ends by unlinking the lock file while it holds the lock, as ~PidFile
      does. `unlocksFirst`: close() drops the lock before it unlinks the socket. */
  datatype Config = Config(removesLock: bool, unlocksFirst: bool)

  const CONTROL_SOCKET := Config(false, false)
  const PID_FILE := Config(true, false)

  /** Where one process stands. `inode` is the lock file it has open, `sock` its listener. */
  datatype Pc =
    | Off
    | LockOpened(inode: nat)
    | Locked(inode: nat)
    | HaveListener(inode: nat, sock: nat)
    | StaleRemoved(inode: nat, sock: nat)
    | Bound(inode: nat, sock: nat)
    | Listening(inode: nat, sock: nat)
    | Serving(inode: nat, sock: nat)
    | Unwinding(inode: nat)                 // open() failed; only the lock descriptor is left to close
    | Closing(inode: nat, sock: nat)        // close(): listener gone, name and lock still there
    | NameGone(inode: nat)                  // close(): name unlinked under the lock
    | LockGone(inode: nat)                  // close() with `removesLock`: the lock file's name is gone too
    | LateUnlink(sock: nat)                 // close() with `unlocksFirst`: lock gone, name still to unlink

  datatype State = State(
    config: Config,
    lockName: Option<nat>,   // the inode the lock path names
    holder: map<nat, nat>,   // flock: inode to process
    sockName: Option<nat>,   // the socket the control path names
    procs: map<nat, Pc>,
    nextInode: nat, nextSock: nat)

  datatype Call =
    | OpenLock      // ::open(lock, O_CREAT)
    | Flock         // ::flock(LOCK_EX | LOCK_NB), refused while another process holds the inode
    | FlockFails    // any other flock error
    | ProbeDone     // probe_control_socket(): unlock and close at once
    | Socket
    | RemoveStale   // ::unlink(path) before bind; ENOENT is fine
    | Bind          // fails on an existing name
    | Listen
    | NonBlock
    | Fail          // whichever call comes next fails, and open() unwinds
    | Release       // close(lock_fd), by whatever path
    | Shut          // close(): closes the listener
    | UnlinkName    // close(): unlinks the path
    | RemoveLock    // close() with `removesLock`: unlinks the lock file
    | Crash         // SIGKILL: the kernel closes every descriptor, names stay

  datatype Step = Step(proc: nat, call: Call)

  function At(s: State, p: nat): Pc {
    if p in s.procs then s.procs[p] else Off
  }

  /** Has this process the lock descriptor open with the flock on it? */
  predicate HoldsLock(pc: Pc) {
    !pc.Off? && !pc.LockOpened? && !pc.LateUnlink?
  }

  /** Has this process a listener of its own that a client could reach? */
  predicate HasName(pc: Pc) {
    pc.Bound? || pc.Listening? || pc.Serving?
  }

  predicate Enabled(s: State, step: Step) {
    var pc := At(s, step.proc);
    match step.call
    case OpenLock => pc.Off?
    case Flock => pc.LockOpened?
    case FlockFails => pc.LockOpened?
    case ProbeDone => pc.Locked?
    case Socket => pc.Locked?
    case RemoveStale => pc.HaveListener?
    case Bind => pc.StaleRemoved?
    case Listen => pc.Bound?
    case NonBlock => pc.Listening?
    case Fail => pc.Locked? || pc.HaveListener? || pc.StaleRemoved? || (HasName(pc) && !pc.Serving?)
    case Release =>
      pc.Unwinding? || pc.LockGone? || (pc.NameGone? && !s.config.removesLock) || (pc.Closing? && s.config.unlocksFirst)
    case Shut => pc.Serving?
    case RemoveLock => pc.NameGone? && s.config.removesLock
    case UnlinkName => (pc.Closing? && !s.config.unlocksFirst) || pc.LateUnlink?
    case Crash => !pc.Off?
  }

  function Move(s: State, p: nat, pc: Pc): State {
    s.(procs := s.procs[p := pc])
  }

  /** Closing the lock descriptor gives up the flock. */
  function Unlock(s: State, p: nat): State {
    var pc := At(s, p);
    if !HoldsLock(pc) then s
    else s.(holder := s.holder - {pc.inode})
  }

  function Next(s: State, step: Step): State
    requires Enabled(s, step)
  {
    var p := step.proc;
    var pc := At(s, p);
    match step.call
    case OpenLock =>
      if s.lockName.Some? then Move(s, p, LockOpened(s.lockName.value))
      else Move(s.(lockName := Some(s.nextInode), nextInode := s.nextInode + 1), p, LockOpened(s.nextInode))
    case Flock =>
      if pc.inode in s.holder then Move(s, p, Off)
      else Move(s.(holder := s.holder[pc.inode := p]), p, Locked(pc.inode))
    case FlockFails => Move(s, p, Off)
    case ProbeDone => Move(Unlock(s, p), p, Off)
    case Socket => Move(s.(nextSock := s.nextSock + 1), p, HaveListener(pc.inode, s.nextSock))
    case RemoveStale => Move(s.(sockName := None), p, StaleRemoved(pc.inode, pc.sock))
    case Bind =>
      if s.sockName.Some? then Move(s, p, Unwinding(pc.inode))
      else Move(s.(sockName := Some(pc.sock)), p, Bound(pc.inode, pc.sock))
    case Listen => Move(s, p, Listening(pc.inode, pc.sock))
    case NonBlock => Move(s, p, Serving(pc.inode, pc.sock))
    case Fail => Move(if HasName(pc) then s.(sockName := None) else s, p, Unwinding(pc.inode))
    case Release =>
      Move(Unlock(s, p), p, if pc.Closing? then LateUnlink(pc.sock) else Off)
    case Shut => Move(s, p, Closing(pc.inode, pc.sock))
    case UnlinkName => Move(s.(sockName := None), p, if pc.LateUnlink? then Off else NameGone(pc.inode))
    case RemoveLock => Move(s.(lockName := None), p, LockGone(pc.inode))
    case Crash => Move(Unlock(s, p), p, Off)   // releases the flock, unlinks nothing
  }

  /** Any leftover of earlier runs may be lying around: a lock file, a stale socket name. */
  ghost predicate Init(s: State) {
    && s.holder == map[] && s.procs == map[]
    && (s.lockName.Some? ==> s.lockName.value < s.nextInode)
    && (s.sockName.Some? ==> s.sockName.value < s.nextSock)
  }

  /** Where a schedule of calls leads, if every one of them is its process's next. */
  function Exec(s: State, steps: seq<Step>): Option<State>
    decreases |steps|
  {
    if steps == [] then Some(s)
    else if Enabled(s, steps[0]) then Exec(Next(s, steps[0]), steps[1..])
    else None
  }

  /** Reached from any leftovers by any interleaving. */
  ghost predicate Reachable(config: Config, s: State) {
    exists init: State, steps: seq<Step> :: Init(init) && init.config == config && Exec(init, steps) == Some(s)
  }

  // -------------------------------------------------------------- invariant

  /** There is one lock inode; whoever believes it holds the lock is the one
      process recorded as holding it; and only the holder's socket has the name. */
  ghost predicate Inv(s: State) {
    && s.config == CONTROL_SOCKET
    && (forall p :: p in s.procs && !s.procs[p].Off? ==>
          !s.procs[p].LateUnlink? && !s.procs[p].LockGone? && s.lockName == Some(s.procs[p].inode))
    && (forall p :: p in s.procs && HoldsLock(s.procs[p]) ==>
          s.procs[p].inode in s.holder && s.holder[s.procs[p].inode] == p)
    && (forall i :: i in s.holder ==>
        s.holder[i] in s.procs && HoldsLock(s.procs[s.holder[i]]) && s.procs[s.holder[i]].inode == i)
    && (forall p :: p in s.procs && HasName(s.procs[p]) ==> s.sockName == Some(s.procs[p].sock))
    && (forall p :: p in s.procs && s.procs[p].StaleRemoved? ==> s.sockName == None)
  }

  lemma OpeningKeepsInv(s: State, step: Step)
    requires Inv(s) && Enabled(s, step) && (step.call.OpenLock?)
    ensures Inv(Next(s, step))
  {
    Exclusive(s);
  }

  lemma LockingKeepsInv(s: State, step: Step)
    requires Inv(s) && Enabled(s, step) && (step.call.Flock? || step.call.FlockFails?)
    ensures Inv(Next(s, step))
  {
    Exclusive(s);
  }

  lemma UnlockingKeepsInv(s: State, step: Step)
    requires Inv(s) && Enabled(s, step) && (step.call.ProbeDone? || step.call.Release? || step.call.Crash?)
    ensures Inv(Next(s, step))
  {
    Exclusive(s);
  }

  lemma AdvancingKeepsInv(s: State, step: Step)
    requires Inv(s) && Enabled(s, step)
             && (step.call.Socket? || step.call.Listen? || step.call.NonBlock? || step.call.Shut?)
    ensures Inv(Next(s, step))
  {
    Exclusive(s);
  }

  lemma NamingKeepsInv(s: State, step: Step)
    requires Inv(s) && Enabled(s, step) && (step.call.RemoveStale? || step.call.Bind?)
    ensures Inv(Next(s, step))
  {
    Exclusive(s);
  }

  lemma UnnamingKeepsInv(s: State, step: Step)
    requires Inv(s) && Enabled(s, step) && (step.call.UnlinkName? || step.call.RemoveLock? || step.call.Fail?)
    ensures Inv(Next(s, step))
  {
    Exclusive(s);
  }

  lemma StepKeepsInv(s: State, step: Step)
    requires Inv(s) && Enabled(s, step)
    ensures Inv(Next(s, step))
  {
    hide Inv, Next, Enabled;
    match step.call
    case OpenLock => OpeningKeepsInv(s, step);
    case Flock => LockingKeepsInv(s, step);
    case FlockFails => LockingKeepsInv(s, step);
    case ProbeDone => UnlockingKeepsInv(s, step);
    case Release => UnlockingKeepsInv(s, step);
    case Crash => UnlockingKeepsInv(s, step);
    case Socket => AdvancingKeepsInv(s, step);
    case Listen => AdvancingKeepsInv(s, step);
    case NonBlock => AdvancingKeepsInv(s, step);
    case Shut => AdvancingKeepsInv(s, step);
    case RemoveStale => NamingKeepsInv(s, step);
    case Bind => NamingKeepsInv(s, step);
    case RemoveLock => UnnamingKeepsInv(s, step);
    case UnlinkName => UnnamingKeepsInv(s, step);
    case Fail => UnnamingKeepsInv(s, step);
  }

  lemma Exclusive(s: State)
    requires Inv(s)
    ensures forall p, q :: p in s.procs && q in s.procs && HoldsLock(s.procs[p]) && HoldsLock(s.procs[q]) ==> p == q
  {
  }

  lemma {:induction false} ExecKeepsInv(s: State, steps: seq<Step>, s': State)
    requires Inv(s) && Exec(s, steps) == Some(s')
    ensures Inv(s')
    decreases |steps|
  {
    hide Inv, Next, Enabled;
    if steps != [] {
      StepKeepsInv(s, steps[0]);
      ExecKeepsInv(Next(s, steps[0]), steps[1..], s');
    }
  }

  lemma ReachableInv(s: State)
    requires Reachable(CONTROL_SOCKET, s)
    ensures Inv(s)
  {
    var init: State, steps: seq<Step> :| Init(init) && init.config == CONTROL_SOCKET && Exec(init, steps) == Some(s);
    ExecKeepsInv(init, steps, s);
  }

  // --------------------------------------------------------------- theorems

  /** In no reachable state do two processes hold the lock. */
  ghost predicate AlwaysExclusive(config: Config) {
    forall s: State, p: nat, q: nat ::
      (Reachable(config, s) && HoldsLock(At(s, p)) && HoldsLock(At(s, q))) ==> p == q
  }

  lemma ControlLockIsExclusive()
    ensures AlwaysExclusive(CONTROL_SOCKET)
  {
    forall s: State, p: nat, q: nat | Reachable(CONTROL_SOCKET, s) && HoldsLock(At(s, p)) && HoldsLock(At(s, q))
      ensures p == q
    {
      ReachableInv(s);
      Exclusive(s);
    }
  }

  lemma ServingSurvives(s: State, step: Step, p: nat)
    requires Inv(s) && Enabled(s, step) && At(s, p).Serving?
    requires !(step.proc == p && (step.call.Shut? || step.call.Crash?))
    ensures At(Next(s, step), p) == At(s, p)
  {
  }

  /** A process that has completed open() keeps the path naming its own socket
      until it calls close() or dies, whatever every other process does. */
  lemma {:induction false} ServingKeepsItsName(s: State, steps: seq<Step>, s': State, p: nat)
    requires Inv(s) && At(s, p).Serving? && Exec(s, steps) == Some(s')
    requires forall k :: 0 <= k < |steps| ==> !(steps[k].proc == p && (steps[k].call.Shut? || steps[k].call.Crash?))
    ensures At(s', p) == At(s, p) && s'.sockName == Some(At(s, p).sock)
    decreases |steps|
  {
    if steps != [] {
      ServingSurvives(s, steps[0], p);
      StepKeepsInv(s, steps[0]);
      ServingKeepsItsName(Next(s, steps[0]), steps[1..], s', p);
    }
  }

  /** Nobody ever unlinks a live player's socket: a call that takes away the name
      of a listening process is that process's own open() unwinding. */
  lemma OnlyOwnOrStaleNamesGo(s: State, step: Step, q: nat)
    requires Reachable(CONTROL_SOCKET, s) && Enabled(s, step)
    requires s.sockName.Some? && Next(s, step).sockName == None
    requires HasName(At(s, q))
    ensures q == step.proc && step.call.Fail? && !At(s, q).Serving?
  {
    ReachableInv(s);
    Exclusive(s);
  }

  /** bind() never meets EADDRINUSE: the unlink before it, under the lock, has settled that. */
  lemma BindFindsNoName(s: State, p: nat)
    requires Reachable(CONTROL_SOCKET, s) && Enabled(s, Step(p, Bind))
    ensures At(Next(s, Step(p, Bind)), p).Bound?
  {
    ReachableInv(s);
  }

  // ------------------------------------------------ taking over after a crash

  lemma ExecFirst(s: State, step: Step, rest: seq<Step>)
    requires Enabled(s, step)
    ensures Exec(s, [step] + rest) == Exec(Next(s, step), rest)
  {
    assert ([step] + rest)[1..] == rest;
  }

  lemma {:induction false} ExecConcat(s: State, a: seq<Step>, mid: State, b: seq<Step>)
    requires Exec(s, a) == Some(mid)
    ensures Exec(s, a + b) == Exec(mid, b)
    decreases |a|
  {
    if a == [] {
      assert a + b == b;
    } else {
      ExecConcat(Next(s, a[0]), a[1..], mid, b);
      assert (a + b)[1..] == a[1..] + b;
    }
  }

  function Claim(p: nat): seq<Step> {
    [Step(p, OpenLock), Step(p, Flock), Step(p, Socket)]
  }

  function Publish(p: nat): seq<Step> {
    [Step(p, RemoveStale), Step(p, Bind), Step(p, Listen), Step(p, NonBlock)]
  }

  lemma ClaimSucceeds(s: State, p: nat) returns (s': State)
    requires At(s, p).Off? && (s.lockName.Some? ==> s.lockName.value !in s.holder)
    requires s.lockName == None ==> s.nextInode !in s.holder
    ensures Exec(s, Claim(p)) == Some(s')
    ensures s'.lockName.Some? && s'.config == s.config
    ensures At(s', p) == HaveListener(s'.lockName.value, s.nextSock)
    ensures s.lockName == None ==> s'.lockName == Some(s.nextInode) && s'.nextInode == s.nextInode + 1
    ensures s'.holder == s.holder[s'.lockName.value := p]
    ensures forall q :: q != p ==> At(s', q) == At(s, q)
  {
    var s1 := Next(s, Step(p, OpenLock));
    var s2 := Next(s1, Step(p, Flock));
    s' := Next(s2, Step(p, Socket));
    ExecFirst(s, Step(p, OpenLock), [Step(p, Flock), Step(p, Socket)]);
    ExecFirst(s1, Step(p, Flock), [Step(p, Socket)]);
    ExecFirst(s2, Step(p, Socket), []);
    assert Claim(p) == [Step(p, OpenLock)] + [Step(p, Flock), Step(p, Socket)];
    assert [Step(p, Flock), Step(p, Socket)] == [Step(p, Flock)] + [Step(p, Socket)];
    assert [Step(p, Socket)] == [Step(p, Socket)] + [];
  }

  lemma PublishSucceeds(s: State, p: nat) returns (s': State)
    requires At(s, p).HaveListener?
    ensures Exec(s, Publish(p)) == Some(s')
    ensures At(s', p) == Serving(At(s, p).inode, At(s, p).sock) && s'.sockName == Some(At(s, p).sock)
    ensures s'.holder == s.holder && s'.lockName == s.lockName && s'.config == s.config && s'.nextInode == s.nextInode
    ensures forall q :: q != p ==> At(s', q) == At(s, q)
  {
    var s1 := Next(s, Step(p, RemoveStale));
    var s2 := Next(s1, Step(p, Bind));
    var s3 := Next(s2, Step(p, Listen));
    s' := Next(s3, Step(p, NonBlock));
    ExecFirst(s, Step(p, RemoveStale), [Step(p, Bind), Step(p, Listen), Step(p, NonBlock)]);
    ExecFirst(s1, Step(p, Bind), [Step(p, Listen), Step(p, NonBlock)]);
    ExecFirst(s2, Step(p, Listen), [Step(p, NonBlock)]);
    ExecFirst(s3, Step(p, NonBlock), []);
    assert Publish(p) == [Step(p, RemoveStale)] + [Step(p, Bind), Step(p, Listen), Step(p, NonBlock)];
    assert [Step(p, Bind), Step(p, Listen), Step(p, NonBlock)] ==
        [Step(p, Bind)] + [Step(p, Listen), Step(p, NonBlock)];
    assert [Step(p, Listen), Step(p, NonBlock)] == [Step(p, Listen)] + [Step(p, NonBlock)];
    assert [Step(p, NonBlock)] == [Step(p, NonBlock)] + [];
  }

  /** Whatever crashed before and left its files behind, an open() that runs while
      nobody holds the lock ends up serving under the path. */
  lemma OpenRecovers(s: State, p: nat) returns (s': State)
    requires At(s, p).Off? && s.holder == map[]
    ensures Exec(s, Claim(p) + Publish(p)) == Some(s')
    ensures At(s', p).Serving? && s'.sockName == Some(At(s', p).sock)
    ensures s'.lockName == Some(At(s', p).inode) && s'.holder == map[At(s', p).inode := p] && s'.config == s.config
    ensures s.lockName == None ==> At(s', p).inode == s.nextInode && s'.nextInode == s.nextInode + 1
    ensures forall q :: q != p ==> At(s', q) == At(s, q)
  {
    var mid := ClaimSucceeds(s, p);
    s' := PublishSucceeds(mid, p);
    ExecConcat(s, Claim(p), mid, Publish(p));
  }

  // ------------------------------------------ what the two facts are worth

  const NOTHING := State(CONTROL_SOCKET, None, map[], None, map[], 0, 0)

  const CLOSE := [Step(1, Shut), Step(1, UnlinkName), Step(1, RemoveLock), Step(1, Release)]

  /** A whole close() by process 1, lock file and all, with process 2 holding only the lock
      file open. */
  lemma ClosesRemovingLock(s: State) returns (s': State)
    requires s.config == PID_FILE && At(s, 1).Serving? && s.holder == map[At(s, 1).inode := 1]
    requires At(s, 2) == LockOpened(At(s, 1).inode)
    ensures Exec(s, CLOSE) == Some(s') && s'.config == s.config && s'.nextInode == s.nextInode
    ensures s'.lockName == None && s'.holder == map[] && At(s', 2) == At(s, 2)
    ensures forall p :: p > 2 ==> At(s', p) == At(s, p)
  {
    var i, k := At(s, 1).inode, At(s, 1).sock;
    var s2 := Next(s, Step(1, Shut));
    assert At(s2, 1) == Closing(i, k) && At(s2, 2) == LockOpened(i) && s2.holder == s.holder;
    var s3 := Next(s2, Step(1, UnlinkName));
    assert At(s3, 1) == NameGone(i) && At(s3, 2) == LockOpened(i) && s3.holder == s.holder;
    var s4 := Next(s3, Step(1, RemoveLock));
    assert At(s4, 1) == LockGone(i) && At(s4, 2) == LockOpened(i) && s4.holder == s.holder && s4.lockName == None;
    s' := Next(s4, Step(1, Release));
    ExecFour(s, Step(1, Shut), Step(1, UnlinkName), Step(1, RemoveLock), Step(1, Release));
  }

  lemma OneStep(s: State, step: Step) returns (s': State)
    requires Enabled(s, step)
    ensures Exec(s, [step]) == Some(s') && s' == Next(s, step)
  {
    s' := Next(s, step);
    ExecFirst(s, step, []);
    assert [step] == [step] + [];
  }

  lemma ExecFour(s: State, a: Step, b: Step, c: Step, d: Step)
    requires Enabled(s, a) && Enabled(Next(s, a), b) && Enabled(Next(Next(s, a), b), c)
    requires Enabled(Next(Next(Next(s, a), b), c), d)
    ensures Exec(s, [a, b, c, d]) == Some(Next(Next(Next(Next(s, a), b), c), d))
  {
    hide Next, Enabled;
    ExecFirst(s, a, [b, c, d]);
    ExecFirst(Next(s, a), b, [c, d]);
    ExecFirst(Next(Next(s, a), b), c, [d]);
    ExecFirst(Next(Next(Next(s, a), b), c), d, []);
    assert [a, b, c, d] == [a] + [b, c, d];
    assert [b, c, d] == [b] + [c, d];
    assert [c, d] == [c] + [d];
    assert [d] == [d] + [];
  }

  /** Remove the lock file on closing, as the pidfile does, and two processes can hold it: one
      opens it just before a clean close() takes its name away, locks it once that close has let
      go, and a third makes a new file. */
  lemma RemovingTheLockFileBreaksExclusion()
    ensures !AlwaysExclusive(PID_FILE)
  {
    hide Exec, Next, Enabled;
    var s0 := NOTHING.(config := PID_FILE);
    var s1 := OpenRecovers(s0, 1);
    var s2 := PeekAtLock(s1, 2);
    var s3 := ClosesRemovingLock(s2);
    var s4 := TakesLock(s3, 2);
    assert At(s4, 3) == At(s3, 3) == At(s2, 3) == At(s1, 3) == At(s0, 3);
    var s5 := ClaimSucceeds(s4, 3);
    ExecConcat(s3, [Step(2, Flock)], s4, Claim(3));
    ExecConcat(s2, CLOSE, s3, [Step(2, Flock)] + Claim(3));
    ExecConcat(s1, [Step(2, OpenLock)], s2, CLOSE + ([Step(2, Flock)] + Claim(3)));
    ExecConcat(s0, Claim(1) + Publish(1), s1, [Step(2, OpenLock)] + (CLOSE + ([Step(2, Flock)] + Claim(3))));
    assert Reachable(PID_FILE, s5);
    assert HoldsLock(At(s5, 2)) && HoldsLock(At(s5, 3));
  }

  lemma PeekAtLock(s: State, p: nat) returns (s': State)
    requires At(s, p).Off? && s.lockName.Some?
    ensures Exec(s, [Step(p, OpenLock)]) == Some(s') && s' == Move(s, p, LockOpened(s.lockName.value))
  {
    s' := OneStep(s, Step(p, OpenLock));
  }

  lemma TakesLock(s: State, p: nat) returns (s': State)
    requires At(s, p).LockOpened? && s.holder == map[]
    ensures Exec(s, [Step(p, Flock)]) == Some(s')
    ensures s' == Move(s.(holder := map[At(s, p).inode := p]), p, Locked(At(s, p).inode))
  {
    s' := OneStep(s, Step(p, Flock));
  }

  /** Mutual exclusion holds in every reachable state exactly when releasing leaves the lock file behind. */
  lemma ExclusionIffLockFileStays(removesLock: bool)
    ensures AlwaysExclusive(Config(removesLock, false)) <==> !removesLock
  {
    if removesLock {
      RemovingTheLockFileBreaksExclusion();
    } else {
      ControlLockIsExclusive();
    }
  }

  /** In no reachable state has a serving process lost its name. */
  ghost predicate AlwaysNamed(config: Config) {
    forall s: State, p: nat :: (Reachable(config, s) && At(s, p).Serving?) ==> s.sockName == Some(At(s, p).sock)
  }

  const LEAVE := [Step(1, Shut), Step(1, Release)]

  lemma LeavesLockFirst(s: State) returns (s': State)
    requires s.config.unlocksFirst && At(s, 1).Serving? && At(s, 2).Off?
    requires s.holder == map[At(s, 1).inode := 1]
    ensures Exec(s, LEAVE) == Some(s') && s'.config == s.config
    ensures s'.holder == map[] && At(s', 1).LateUnlink? && At(s', 2).Off?
  {
    var s2 := Next(s, Step(1, Shut));
    assert At(s2, 1).Closing? && At(s2, 1).inode == At(s, 1).inode && At(s2, 2).Off? && s2.holder == s.holder;
    s' := Next(s2, Step(1, Release));
    ExecFirst(s, Step(1, Shut), [Step(1, Release)]);
    ExecFirst(s2, Step(1, Release), []);
    assert LEAVE == [Step(1, Shut)] + [Step(1, Release)];
    assert [Step(1, Release)] == [Step(1, Release)] + [];
  }

  lemma UnlinksLate(s: State, p: nat) returns (s': State)
    requires At(s, p).LateUnlink?
    ensures Exec(s, [Step(p, UnlinkName)]) == Some(s') && s'.sockName == None
    ensures forall q :: q != p ==> At(s', q) == At(s, q)
  {
    s' := Next(s, Step(p, UnlinkName));
    ExecFirst(s, Step(p, UnlinkName), []);
    assert [Step(p, UnlinkName)] == [Step(p, UnlinkName)] + [];
  }

  /** Release the lock before unlinking the name, and a closing process takes
      away the name of the one that has just taken over. */
  lemma UnlockingFirstLosesALiveName()
    ensures !AlwaysNamed(Config(false, true))
  {
    hide Exec;
    var s0 := NOTHING.(config := Config(false, true));
    var s1 := OpenRecovers(s0, 1);
    assert At(s1, 2) == At(s0, 2);
    var s3 := LeavesLockFirst(s1);
    var s4 := OpenRecovers(s3, 2);
    var s5 := UnlinksLate(s4, 1);
    ExecConcat(s3, Claim(2) + Publish(2), s4, [Step(1, UnlinkName)]);
    ExecConcat(s1, LEAVE, s3, Claim(2) + Publish(2) + [Step(1, UnlinkName)]);
    ExecConcat(s0, Claim(1) + Publish(1), s1, LEAVE + (Claim(2) + Publish(2) + [Step(1, UnlinkName)]));
    assert Reachable(Config(false, true), s5);
    assert At(s5, 2).Serving? && s5.sockName == None;
  }

  /** A serving process keeps its name in every reachable state exactly when the lock is released last. */
  lemma NamedIffUnlockedLast(unlocksFirst: bool)
    ensures AlwaysNamed(Config(false, unlocksFirst)) <==> !unlocksFirst
  {
    if unlocksFirst {
      UnlockingFirstLosesALiveName();
    } else {
      forall s: State, p: nat | Reachable(CONTROL_SOCKET, s) && At(s, p).Serving?
        ensures s.sockName == Some(At(s, p).sock)
      {
        ReachableInv(s);
      }
    }
  }
}
