/** `run_clustering_subprocess` of src/graphify_daemon/vault_compiler/clustering.py: a parent and a child process
    over a pipe that holds at most `capacity` bytes.

    The child's `put` leaves the pickled result to a feeder, and the child cannot exit before the feeder has
    written all of it. The parent's `get` waits for a first byte, with a timeout, and then reads the whole
    message, without one. Each step below is one action of one process, or the passing of a timeout. */
module Handoff {
  import opened Collections
  import opened Snapshot

  type Byte = bv8

  /** What the worker puts on the queue. */
  datatype WorkerResult = Ok(communities: Communities) | Failed(reason: string)

  datatype Child = Computing | Feeding(rest: seq<Byte>) | Exited | Killed | Crashed

  /** `Waiting` is the parent that joins first; the code starts at `Polling`. After a kill, and on return,
      `received` says whether the message was read. */
  datatype Parent =
    | Waiting
    | Polling
    | Receiving
    | Joining
    | Checking
    | Killing(received: bool)
    | Reaping(received: bool)
    | Returned(received: bool)

  datatype Link = Link(child: Child, pipe: seq<Byte>, parent: Parent, read: seq<Byte>)

  /** The pickled result of the worker, and the room in the pipe. */
  datatype Setup = Setup(frame: seq<Byte>, capacity: nat)

  datatype Action =
    | Compute
    | Feed
    | Exit
    | Crash
    | FirstJoin
    | Ready
    | PollTimeout
    | Read
    | Complete
    | Join
    | JoinTimeout
    | Check
    | Kill
    | Reap

  predicate Dead(c: Child) { c.Exited? || c.Killed? || c.Crashed? }

  predicate Enabled(p: Setup, l: Link, a: Action) {
    match a
    case Compute => l.child.Computing?
    case Feed => l.child.Feeding? && l.child.rest != [] && |l.pipe| < p.capacity
    case Exit => l.child == Feeding([])
    case Crash => !Dead(l.child)
    case FirstJoin => l.parent.Waiting? && Dead(l.child)
    case Ready => l.parent.Polling? && l.pipe != []
    case PollTimeout => l.parent.Polling? && l.pipe == []
    case Read => l.parent.Receiving? && l.pipe != [] && |l.read| < |p.frame|
    case Complete => l.parent.Receiving? && |l.read| == |p.frame|
    case Join => l.parent.Joining? && Dead(l.child)
    case JoinTimeout => l.parent.Joining? && !Dead(l.child)
    case Check => l.parent.Checking?
    case Kill => l.parent.Killing?
    case Reap => l.parent.Reaping? && Dead(l.child)
  }

  function Next(p: Setup, l: Link, a: Action): Link
    requires Enabled(p, l, a)
  {
    match a
    case Compute => l.(child := Feeding(p.frame))
    case Feed => l.(child := Feeding(l.child.rest[1..]), pipe := l.pipe + [l.child.rest[0]])
    case Exit => l.(child := Exited)
    case Crash => l.(child := Crashed)
    case FirstJoin => l.(parent := Polling)
    case Ready => l.(parent := Receiving)
    case PollTimeout => l.(parent := Killing(false))
    case Read => l.(pipe := l.pipe[1..], read := l.read + [l.pipe[0]])
    case Complete => l.(parent := Joining)
    case Join => l.(parent := Checking)
    case JoinTimeout => l.(parent := Checking)
    case Check => l.(parent := if Dead(l.child) then Returned(true) else Killing(true))
    case Kill => l.(child := if Dead(l.child) then l.child else Killed, parent := Reaping(l.parent.received))
    case Reap => l.(parent := Returned(l.parent.received))
  }

  function Start(p: Setup, parent: Parent): Link { Link(Computing, [], parent, []) }

  /** The link after `actions`, an action that is not enabled doing nothing. */
  function After(p: Setup, from: Link, actions: seq<Action>): Link {
    if |actions| == 0 then from
    else
      var before, a := After(p, from, actions[..|actions| - 1]), actions[|actions| - 1];
      if Enabled(p, before, a) then Next(p, before, a) else before
  }

  /** The parent gives up on the message only while none of it has arrived, and on the child only when it will not
      die. */
  lemma GivesUpOnlyInVain(p: Setup, l: Link, a: Action)
    requires Enabled(p, l, a) && Next(p, l, a).parent.Killing? && !l.parent.Killing?
    ensures if Next(p, l, a).parent.received then !Dead(l.child) else l.pipe == []
    ensures Next(p, l, a).parent.received <==> l.parent.Checking?
  {
  }

  /** Where the bytes of the message are, and what the parent may conclude. */
  ghost predicate BytesInv(p: Setup, l: Link) {
    match l.child
    case Computing => l.pipe == [] && l.read == []
    case Feeding(rest) => l.read + l.pipe + rest == p.frame
    case Exited => l.read + l.pipe == p.frame
    case _ => l.read + l.pipe <= p.frame
  }

  ghost predicate ParentInv(p: Setup, l: Link) {
    match l.parent
    case Waiting => l.read == [] && !l.child.Killed?
    case Polling => l.read == [] && !l.child.Killed?
    case Receiving => !l.child.Killed?
    case Joining => l.read == p.frame && !l.child.Killed?
    case Checking => l.read == p.frame && !l.child.Killed?
    case Killing(received) => !l.child.Killed? && l.read == if received then p.frame else []
    case Reaping(received) => Dead(l.child) && l.read == if received then p.frame else []
    case Returned(received) => Dead(l.child) && l.read == if received then p.frame else []
  }

  ghost predicate LinkInv(p: Setup, l: Link) {
    BytesInv(p, l) && ParentInv(p, l) && |l.pipe| <= p.capacity
  }

  lemma LinkStep(p: Setup, l: Link, a: Action)
    requires LinkInv(p, l) && Enabled(p, l, a)
    ensures LinkInv(p, Next(p, l, a))
  {
    if a.Feed? {
      var rest := l.child.rest;
      assert l.read + l.pipe + rest == l.read + (l.pipe + [rest[0]]) + rest[1..];
    } else if a.Read? {
      assert l.read + l.pipe == (l.read + [l.pipe[0]]) + l.pipe[1..];
    } else if a.Crash? || a.Kill? {
      assert l.read + l.pipe <= p.frame;
    }
  }

  lemma {:induction false} LinkHolds(p: Setup, parent: Parent, actions: seq<Action>)
    requires parent.Polling? || parent.Waiting?
    ensures LinkInv(p, After(p, Start(p, parent), actions))
  {
    if |actions| > 0 {
      LinkHolds(p, parent, actions[..|actions| - 1]);
      var before := After(p, Start(p, parent), actions[..|actions| - 1]);
      if Enabled(p, before, actions[|actions| - 1]) {
        LinkStep(p, before, actions[|actions| - 1]);
      }
    }
  }

  /** An action that neither waits for a timeout nor is a crash. */
  predicate Willing(a: Action) { !a.Crash? && !a.PollTimeout? && !a.JoinTimeout? }

  predicate CanMove(p: Setup, l: Link) {
    exists a :: a in ALL_ACTIONS && a != Crash && Enabled(p, l, a)
  }

  predicate CanMoveUnaided(p: Setup, l: Link) {
    exists a :: a in ALL_ACTIONS && Willing(a) && Enabled(p, l, a)
  }

  const ALL_ACTIONS: set<Action> :=
    {Compute, Feed, Exit, Crash, FirstJoin, Ready, PollTimeout, Read, Complete, Join, JoinTimeout, Check, Kill, Reap}

  /** The one way to hang: the child died in the middle of the message, and the parent reads on. */
  predicate Orphaned(p: Setup, l: Link) {
    l.parent.Receiving? && l.child.Crashed? && l.pipe == [] && |l.read| < |p.frame|
  }

  /** Draining before joining never deadlocks: the handoff can go on until the parent has returned, unless the
      child crashed in the middle of its message; and while the child has not crashed no timeout is needed. */
  lemma DrainFirstNeverDeadlocks(p: Setup, actions: seq<Action>)
    requires p.capacity >= 1 && |p.frame| >= 1
    ensures var l := After(p, Start(p, Polling), actions);
      && (CanMove(p, l) <==> !l.parent.Returned? && !Orphaned(p, l))
      && (!l.child.Crashed? ==> (CanMoveUnaided(p, l) <==> !l.parent.Returned?))
  {
    LinkHolds(p, Polling, actions);
    NeverWaiting(p, actions);
    var l := After(p, Start(p, Polling), actions);
    if l.parent.Returned? || Orphaned(p, l) {
      NothingLeftToDo(p, l);
    } else {
      var a := Helpful(p, l);
      assert Enabled(p, l, a) && a in ALL_ACTIONS;
      assert !l.child.Crashed? ==> Willing(a);
    }
  }

  /** Which can happen: the child computes, writes one byte of several and dies, and the parent has read that byte. */
  lemma OrphanIsReached(p: Setup) returns (actions: seq<Action>)
    requires p.capacity >= 1 && |p.frame| >= 2
    ensures Orphaned(p, After(p, Start(p, Polling), actions))
  {
    actions := [Compute, Feed, Ready, Crash, Read];
    var l := Start(p, Polling);
    assert actions[..4][..3] == [Compute, Feed, Ready] && actions[..4][..3][..2] == [Compute, Feed];
    assert actions[..4][..3][..2][..1] == [Compute] && actions[..4][..3][..2][..1][..0] == [];
    assert After(p, l, []) == l;
    assert After(p, l, actions[..4][..3][..2][..1]) == Link(Feeding(p.frame), [], Polling, []);
    assert After(p, l, actions[..4][..3][..2]) == Link(Feeding(p.frame[1..]), [p.frame[0]], Polling, []);
    assert After(p, l, actions[..4][..3]).parent.Receiving?;
    assert After(p, l, actions[..4]) == Link(Crashed, [p.frame[0]], Receiving, []);
  }

  lemma NothingLeftToDo(p: Setup, l: Link)
    requires LinkInv(p, l) && (l.parent.Returned? || Orphaned(p, l))
    ensures forall a :: a != Crash ==> !Enabled(p, l, a)
  {
  }

  /** An action that moves the handoff on. */
  function Helpful(p: Setup, l: Link): (a: Action)
    requires p.capacity >= 1 && |p.frame| >= 1 && LinkInv(p, l)
    requires !l.parent.Waiting? && !l.parent.Returned? && !Orphaned(p, l)
    ensures Enabled(p, l, a) && a != Crash && (!l.child.Crashed? ==> Willing(a))
  {
    match l.parent
    case Polling =>
      if l.pipe != [] then Ready
      else if l.child.Computing? then Compute
      else if l.child.Crashed? then PollTimeout
      else assert l.read + l.pipe == []; Feed
    case Receiving =>
      if l.pipe != [] then Read
      else if |l.read| == |p.frame| then Complete
      else if l.child.Computing? then Compute
      else Feed
    case Joining => if Dead(l.child) then Join else if l.child.Computing? then Compute else Exit
    case Checking => Check
    case Killing(_) => Kill
    case _ => Reap
  }

  lemma {:induction false} NeverWaiting(p: Setup, actions: seq<Action>)
    ensures !After(p, Start(p, Polling), actions).parent.Waiting?
  {
    if |actions| > 0 {
      NeverWaiting(p, actions[..|actions| - 1]);
    }
  }

  function ChildWork(p: Setup, c: Child): nat {
    match c
    case Computing => 2 * |p.frame| + 3
    case Feeding(rest) => 2 * |rest| + 2
    case _ => 0
  }

  function ParentWork(parent: Parent): nat {
    match parent
    case Waiting => 8
    case Polling => 7
    case Receiving => 6
    case Joining => 5
    case Checking => 4
    case Killing(_) => 3
    case Reaping(_) => 2
    case Returned(_) => 0
  }

  function Work(p: Setup, l: Link): nat {
    ChildWork(p, l.child) + |l.pipe| + ParentWork(l.parent)
  }

  /** The actions of a run that did something. */
  function Effective(p: Setup, from: Link, actions: seq<Action>): nat {
    if |actions| == 0 then 0
    else
      Effective(p, from, actions[..|actions| - 1]) +
      if Enabled(p, After(p, from, actions[..|actions| - 1]), actions[|actions| - 1]) then 1 else 0
  }

  /** Every run ends: each action uses up some of the work that there was at the start. */
  lemma {:induction false} EveryRunEnds(p: Setup, from: Link, actions: seq<Action>)
    ensures Effective(p, from, actions) + Work(p, After(p, from, actions)) <= Work(p, from)
  {
    if |actions| > 0 {
      var before, a := After(p, from, actions[..|actions| - 1]), actions[|actions| - 1];
      EveryRunEnds(p, from, actions[..|actions| - 1]);
      if Enabled(p, before, a) {
        ActionUsesWork(p, before, a);
      }
    }
  }

  lemma ActionUsesWork(p: Setup, l: Link, a: Action)
    requires Enabled(p, l, a)
    ensures Work(p, Next(p, l, a)) < Work(p, l)
  {
  }

  /** What `run_clustering_subprocess` returns from a link on which it has returned. */
  function ReturnValue(unpickle: seq<Byte> -> WorkerResult, l: Link): Option<Communities> {
    if !(l.parent.Returned? && l.parent.received) then None
    else
      match unpickle(l.read)
      case Ok(communities) => Some(communities)
      case Failed(_) => None
  }

  /** On every return the child is dead, and the value is the worker's own "ok" payload: always when the
      message was read, and never anything else. */
  lemma ReturnsTheWorkersPayload(pickle: WorkerResult -> seq<Byte>, unpickle: seq<Byte> -> WorkerResult,
                                 result: WorkerResult, capacity: nat, actions: seq<Action>)
    requires unpickle(pickle(result)) == result
    ensures var p := Setup(pickle(result), capacity);
      var l := After(p, Start(p, Polling), actions);
      l.parent.Returned? ==>
        && Dead(l.child)
        && ReturnValue(unpickle, l) ==
           if l.parent.received && result.Ok? then Some(result.communities) else None
  {
    LinkHolds(Setup(pickle(result), capacity), Polling, actions);
  }

  /** Joining first, with no crash and no timeout: some run gets stuck exactly when the message is too big for
      the pipe. */
  ghost predicate JoinFirstGetsStuck(p: Setup) {
    exists actions :: StuckAfter(p, actions)
  }

  ghost predicate StuckAfter(p: Setup, actions: seq<Action>) {
    var l := After(p, Start(p, Waiting), actions);
    && (forall i :: 0 <= i < |actions| ==> Willing(actions[i]))
    && !l.parent.Returned? && !CanMove(p, l)
  }

  lemma JoinFirstDeadlocksOnLargeResults(p: Setup)
    requires |p.frame| >= 1
    ensures JoinFirstGetsStuck(p) <==> |p.frame| > p.capacity
  {
    if |p.frame| > p.capacity {
      var actions := FillPipe(p, p.capacity);
      var l := After(p, Start(p, Waiting), actions);
      forall a | a != Crash
        ensures !Enabled(p, l, a)
      {
      }
      assert StuckAfter(p, actions);
    } else {
      forall actions | forall i :: 0 <= i < |actions| ==> Willing(actions[i])
        ensures !StuckAfter(p, actions)
      {
        SmallResultsFit(p, actions);
      }
    }
  }

  lemma {:induction false} FillPipe(p: Setup, n: nat) returns (actions: seq<Action>)
    requires n <= p.capacity && n <= |p.frame|
    ensures After(p, Start(p, Waiting), actions) == Link(Feeding(p.frame[n..]), p.frame[..n], Waiting, [])
    ensures forall i :: 0 <= i < |actions| ==> Willing(actions[i])
  {
    if n == 0 {
      actions := [Compute];
      assert actions[..0] == [] && After(p, Start(p, Waiting), actions[..0]) == Start(p, Waiting);
    } else {
      var before := FillPipe(p, n - 1);
      actions := before + [Feed];
      assert actions[..|before|] == before;
      assert p.frame[n - 1..][1..] == p.frame[n..] && p.frame[..n - 1] + [p.frame[n - 1]] == p.frame[..n];
    }
  }

  lemma {:induction false} WillingNeverCrashes(p: Setup, actions: seq<Action>)
    requires forall i :: 0 <= i < |actions| ==> Willing(actions[i])
    ensures !After(p, Start(p, Waiting), actions).child.Crashed?
  {
    if |actions| > 0 {
      WillingNeverCrashes(p, actions[..|actions| - 1]);
    }
  }

  lemma SmallResultsFit(p: Setup, actions: seq<Action>)
    requires 1 <= |p.frame| <= p.capacity
    requires forall i :: 0 <= i < |actions| ==> Willing(actions[i])
    ensures !StuckAfter(p, actions)
  {
    LinkHolds(p, Waiting, actions);
    WillingNeverCrashes(p, actions);
    var l := After(p, Start(p, Waiting), actions);
    if !l.parent.Waiting? && !l.parent.Returned? {
      var a := Helpful(p, l);
      assert a in ALL_ACTIONS && Enabled(p, l, a);
    } else if l.parent.Waiting? {
      var a := match l.child
        case Computing => Compute
        case Feeding(rest) => (if rest == [] then Exit else Feed)
        case _ => FirstJoin;
      assert a in ALL_ACTIONS && Enabled(p, l, a);
    }
  }
}
