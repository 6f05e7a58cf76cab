/** How evenly assignments are spread over the workers, over whole unrestricted runs. */
module Balance {
  import opened Channel
  import opened Metric
  import opened Ordered
  import opened Master
  import opened Worker
  import opened Distribution

  type Load = map<int, seq<int>>

  /** No worker has been given more than d assignments beyond any other. */
  ghost predicate Spread(load: Load, d: nat) {
    forall a, b :: a in load && b in load ==> |load[a]| <= |load[b]| + d
  }

  /** The number of assignments ever made to these channels. */
  function Total(load: Load, channels: seq<int>): nat
    requires forall i :: 0 <= i < |channels| ==> channels[i] in load
  {
    if channels == [] then 0 else |load[channels[0]]| + Total(load, channels[1..])
  }

  function Given(load: Load, fd: int, id: int): Load
    requires fd in load
  {
    load[fd := load[fd] + [id]]
  }

  // ---- The minimum search ----

  /** The search compares against an initial bound of 1000000. */
  ghost predicate Bounded(load: Load) {
    exists fd :: fd in load && |load[fd]| < 1000000
  }

  /** It finds a least loaded worker iff one is below the bound or the first worker is one. */
  lemma SearchIsRightExactly(load: Load)
    requires load.Keys != {}
    ensures Sorted(load.Keys) != [] && Sorted(load.Keys)[0] in load
    ensures (forall fd :: fd in load ==> |load[LeastLoaded(load)]| <= |load[fd]|)
      <==> Bounded(load) || forall fd :: fd in load ==> |load[Sorted(load.Keys)[0]]| <= |load[fd]|
  {
    var fds := Sorted(load.Keys);
    LeastExists(load.Keys);
    var some :| IsLeast(some, load.Keys);
    assert some in fds && fds[0] in fds;
    LeastFromPicks(load, fds, 1000000, fds[0]);
    if Bounded(load) {
      var fd :| fd in load && |load[fd]| < 1000000;
      assert fd in fds;
    }
  }

  lemma AddKeepsSpread(load: Load, id: int, d: nat)
    requires load.Keys != {} && Bounded(load) && Spread(load, d) && d >= 1
    ensures Spread(Given(load, LeastLoaded(load), id), d)
  {
    SearchIsRightExactly(load);
  }

  /** New configurations given out one after the other. */
  ghost function GiveAll(load: Load, ids: seq<int>): Load
    requires load.Keys != {}
    decreases |ids|
  {
    if ids == [] then load
    else
      assert LeastLoaded(load) in Given(load, LeastLoaded(load), ids[0]);
      GiveAll(Given(load, LeastLoaded(load), ids[0]), ids[1..])
  }

  lemma AllBeyond(load: Load)
    requires !Bounded(load)
    ensures forall fd :: fd in load ==> |load[fd]| >= 1000000
  {
  }

  lemma FirstIsPicked(load: Load)
    requires load.Keys != {} && !Bounded(load)
    ensures Sorted(load.Keys) != [] && Sorted(load.Keys)[0] == LeastLoaded(load)
  {
    var fds := Sorted(load.Keys);
    hide Sorted, Bounded;
    assert LeastLoaded(load) in fds;
    assert forall fd :: fd in fds ==> |load[fd]| >= 1000000 by {
      AllBeyond(load);
    }
    LeastFromPicks(load, fds, 1000000, fds[0]);
  }

  /** Once no worker is below the bound, every further configuration goes to the first worker. */
  lemma {:induction false} FirstTakesAllBeyondBound(load: Load, ids: seq<int>)
    requires load.Keys != {} && !Bounded(load)
    ensures Sorted(load.Keys) != [] && Sorted(load.Keys)[0] in load
    ensures GiveAll(load, ids) == load[Sorted(load.Keys)[0] := load[Sorted(load.Keys)[0]] + ids]
    decreases |ids|
  {
    hide LeastLoaded, Sorted, Bounded, Given;
    FirstIsPicked(load);
    var first := LeastLoaded(load);
    if ids == [] {
      assert load[first] + [] == load[first];
    } else {
      var next := Given(load, first, ids[0]);
      StaysUnbounded(load, first, ids[0]);
      FirstTakesAllBeyondBound(next, ids[1..]);
      GivenThen(load, first, ids);
    }
  }

  lemma GivenThen(load: Load, fd: int, ids: seq<int>)
    requires fd in load && ids != []
    ensures var next := Given(load, fd, ids[0]); next[fd := next[fd] + ids[1..]] == load[fd := load[fd] + ids]
  {
    assert (load[fd] + [ids[0]]) + ids[1..] == load[fd] + ids;
  }

  lemma StaysUnbounded(load: Load, fd: int, id: int)
    requires fd in load && !Bounded(load)
    ensures Given(load, fd, id).Keys == load.Keys && !Bounded(Given(load, fd, id))
  {
    assert forall other :: other in Given(load, fd, id) ==> |Given(load, fd, id)[other]| >= |load[other]|;
  }

  lemma {:induction false} GivenTotal(load: Load, channels: seq<int>, fd: int, id: int)
    requires forall i :: 0 <= i < |channels| ==> channels[i] in load
    requires forall i, j :: 0 <= i < j < |channels| ==> channels[i] != channels[j]
    requires fd in load
    ensures Total(Given(load, fd, id), channels) == Total(load, channels) + if fd in channels then 1 else 0
  {
    if channels != [] {
      GivenTotal(load, channels[1..], fd, id);
      assert fd in channels <==> fd == channels[0] || fd in channels[1..];
      assert forall j :: 0 <= j < |channels| - 1 ==> channels[1..][j] == channels[j + 1];
      assert channels[0] !in channels[1..];
    }
  }

  // ---- Round robin ----

  lemma NextTurn(i: nat, k: nat)
    requires k > 0
    ensures if i % k + 1 < k then (i + 1) / k == i / k && (i + 1) % k == i % k + 1
            else (i + 1) / k == i / k + 1 && (i + 1) % k == 0
  {
    assert i == k * (i / k) + i % k;
    if i % k + 1 < k {
      Bytes.DivisionIsUnique(i + 1, k, i / k, i % k + 1);
    } else {
      assert i + 1 == k * (i / k + 1);
      Bytes.DivisionIsUnique(i + 1, k, i / k + 1, 0);
    }
  }

  /** After i rounds channel j has had one turn per full cycle, and one more if its turn has come. */
  function Turns(i: nat, j: nat, k: nat): nat
    requires j < k
  {
    i / k + if j < i % k then 1 else 0
  }

  lemma TurnsStep(i: nat, j: nat, k: nat)
    requires j < k
    ensures Turns(i + 1, j, k) == Turns(i, j, k) + if j == i % k then 1 else 0
  {
    NextTurn(i, k);
  }

  ghost predicate Even(before: Load, load: Load, channels: seq<int>, i: nat)
    requires channels != []
  {
    && load.Keys == before.Keys
    && forall j :: 0 <= j < |channels| ==>
         channels[j] in load && |load[channels[j]]| == |before[channels[j]]| + Turns(i, j, |channels|)
  }

  lemma RoundIsEven(before: Load, load: Load, channels: seq<int>, i: nat, id: int)
    requires channels != [] && Even(before, load, channels, i)
    requires forall i, j :: 0 <= i < j < |channels| ==> channels[i] != channels[j]
    ensures Even(before, Given(load, channels[i % |channels|], id), channels, i + 1)
  {
    var after := Given(load, channels[i % |channels|], id);
    forall j | 0 <= j < |channels|
      ensures channels[j] in after && |after[channels[j]]| == |before[channels[j]]| + Turns(i + 1, j, |channels|)
    {
      TurnsStep(i, j, |channels|);
    }
  }

  lemma AssignedOne(s: MasterState, id: int, fd: int, port: Text)
    requires id in s.conf && fd in s.load
    ensures var next := Announce(Assign(s, id, s.conf[id], fd), fd, port);
      && next.load == Given(s.load, fd, id) && next.load.Keys == s.load.Keys
      && next.conf == s.conf && next.down.Keys == s.down.Keys
  {
  }

  lemma {:induction false} DistributeIsEven(
    before: Load, s: MasterState, channels: seq<int>, ids: seq<int>, i: nat, port: Text)
    requires channels != [] && (forall fd :: fd in channels ==> fd in s.load)
    requires forall id :: id in ids ==> id in s.conf
    requires forall i, j :: 0 <= i < j < |channels| ==> channels[i] != channels[j]
    requires Even(before, s.load, channels, i)
    ensures Even(before, DistributeFrom(s, channels, ids, i, port).load, channels, i + |ids|)
    ensures DistributeFrom(s, channels, ids, i, port).load.Keys == before.Keys
    ensures DistributeFrom(s, channels, ids, i, port).down.Keys == s.down.Keys
    ensures Total(DistributeFrom(s, channels, ids, i, port).load, channels) == Total(s.load, channels) + |ids|
    decreases |ids|
  {
    if ids != [] {
      var fd := channels[i % |channels|];
      RoundIsEven(before, s.load, channels, i, ids[0]);
      GivenTotal(s.load, channels, fd, ids[0]);
      var next := Announce(Assign(s, ids[0], s.conf[ids[0]], fd), fd, port);
      AssignedOne(s, ids[0], fd, port);
      hide Even, Total, Given, Turns, Assign, Announce;
      DistributeIsEven(before, next, channels, ids[1..], i + 1, port);
    }
  }

  lemma EvenSpreads(before: Load, load: Load, channels: seq<int>, i: nat, d: nat)
    requires channels != [] && Even(before, load, channels, i) && Spread(before, d)
    requires forall fd :: fd in before <==> fd in channels
    ensures Spread(load, d + 1)
  {
    forall a, b | a in load && b in load ensures |load[a]| <= |load[b]| + (d + 1) {
      var p :| 0 <= p < |channels| && channels[p] == a;
      var q :| 0 <= q < |channels| && channels[q] == b;
      assert |before[a]| <= |before[b]| + d;
    }
  }

  lemma EvenStart(load: Load, channels: seq<int>)
    requires channels != [] && forall j :: 0 <= j < |channels| ==> channels[j] in load
    ensures Even(load, load, channels, 0)
  {
    forall j | 0 <= j < |channels| ensures Turns(0, j, |channels|) == 0 {
      Bytes.DivisionIsUnique(0, |channels|, 0, 0);
    }
  }

  lemma EvenGrows(before: Load, load: Load, channels: seq<int>, i: nat)
    requires channels != [] && Even(before, load, channels, i)
    requires forall fd :: fd in before <==> fd in channels
    ensures forall fd :: fd in before ==> fd in load && |before[fd]| <= |load[fd]|
  {
    forall fd | fd in before ensures fd in load && |before[fd]| <= |load[fd]| {
      var p :| 0 <= p < |channels| && channels[p] == fd;
    }
  }

  lemma DistributionEven(c: Setup, s: System)
    requires Shape(c, s)
    ensures var m := Distribute(s.master, c.channels, c.port);
      && m.load.Keys == s.master.load.Keys && m.down.Keys == s.master.down.Keys
      && Even(s.master.load, m.load, c.channels, |s.master.conf|)
      && Total(m.load, c.channels) == Total(s.master.load, c.channels) + |s.master.conf|
  {
    hide Even, Turns, Total, Sorted;
    EvenStart(s.master.load, c.channels);
    DistributeIsEven(s.master.load, s.master, c.channels, Sorted(s.master.conf.Keys), 0, c.port);
  }

  // ---- Whole runs ----

  /** The number of configurations an action gives to workers. */
  ghost function Gives(c: Setup, s: System, a: Action): nat {
    match a
    case Distribution => |s.master.conf|
    case Add(text) =>
      var id := Ident(c.parse, text);
      if id.Some? && id.value !in s.master.conf then 1 else 0
    case _ => 0
  }

  /** All assignments of a run. */
  ghost function Made(c: Setup, s: System, actions: seq<Action>): nat
    decreases |actions|
  {
    if actions == [] then 0
    else
      var n := |actions| - 1;
      match Exec(c, s, actions[..n], false)
      case None => 0
      case Some(mid) => Made(c, s, actions[..n]) + Gives(c, mid, actions[n])
  }

  lemma DistributionLoad(c: Setup, s: System)
    requires Possible(c, s, Distribution)
    ensures var s' := Distribution.Apply(c, s, Distribution);
      && Shape(c, s')
      && (forall fd :: fd in s.master.load ==> |s.master.load[fd]| <= |s'.master.load[fd]|)
      && Total(s'.master.load, c.channels) == Total(s.master.load, c.channels) + |s.master.conf|
  {
    hide Even, Distribute, Total;
    DistributionEven(c, s);
    EvenGrows(s.master.load, Distribute(s.master, c.channels, c.port).load, c.channels, |s.master.conf|);
  }

  lemma DistributionSpread(c: Setup, s: System, d: nat)
    requires Possible(c, s, Distribution) && Spread(s.master.load, d)
    ensures Spread(Distribution.Apply(c, s, Distribution).master.load, d + 1)
  {
    hide Even, Distribute, Total, Spread;
    DistributionEven(c, s);
    EvenSpreads(s.master.load, Distribute(s.master, c.channels, c.port).load, c.channels, |s.master.conf|, d);
  }

  lemma AddLoad(c: Setup, s: System, text: Text)
    requires Possible(c, s, Action.Add(text))
    ensures var s' := Distribution.Apply(c, s, Action.Add(text));
      && Shape(c, s')
      && s'.master.load == (if Gives(c, s, Action.Add(text)) == 1
           then Given(s.master.load, LeastLoaded(s.master.load), Ident(c.parse, text).value) else s.master.load)
  {
    hide LeastLoaded;
  }

  lemma ReceiveLoad(c: Setup, s: System, fd: int)
    requires Possible(c, s, Receive(fd))
    ensures Shape(c, Distribution.Apply(c, s, Receive(fd)))
    ensures Distribution.Apply(c, s, Receive(fd)).master.load == s.master.load
  {
    var s' := Distribution.Apply(c, s, Receive(fd));
    ReceiveParts(c, s, fd);
    hide Distribution.Apply;
    assert Shape(c, s');
  }

  lemma ReceiveParts(c: Setup, s: System, fd: int)
    requires Possible(c, s, Receive(fd))
    ensures var s' := Distribution.Apply(c, s, Receive(fd));
      && s'.master == s.master.(down := s'.master.down) && s'.master.down.Keys == s.master.down.Keys
      && s'.workers.Keys == s.workers.Keys && s'.up.Keys == s.up.Keys
  {
    hide Handle, Read, Distribute, Post, Delete, Acknowledged;
    if Read(s.master.down[fd][0]).Some? {
    }
  }

  lemma AckLoad(c: Setup, s: System, fd: int)
    requires Possible(c, s, Ack(fd))
    ensures Shape(c, Distribution.Apply(c, s, Ack(fd)))
    ensures Distribution.Apply(c, s, Ack(fd)).master.load == s.master.load
  {
    hide Acknowledged;
    AcknowledgedOne(s.master, fd, s.up[fd][0]);
  }

  lemma OtherLoad(c: Setup, s: System, a: Action)
    requires Possible(c, s, a) && !a.Distribution? && !a.Add?
    ensures Shape(c, Distribution.Apply(c, s, a)) && Distribution.Apply(c, s, a).master.load == s.master.load
  {
    match a
    case Remove(text) =>
    case Receive(fd) => ReceiveLoad(c, s, fd);
    case Ack(fd) => AckLoad(c, s, fd);
  }

  /** Loads only grow, and their total counts what the action gives. */
  lemma StepLoad(c: Setup, s: System, a: Action)
    requires Possible(c, s, a)
    ensures var load := Distribution.Apply(c, s, a).master.load;
      && Shape(c, Distribution.Apply(c, s, a))
      && (forall fd :: fd in s.master.load ==> |s.master.load[fd]| <= |load[fd]|)
      && Total(load, c.channels) == Total(s.master.load, c.channels) + Gives(c, s, a)
  {
    hide LeastLoaded, Distribution.Apply;
    match a
    case Distribution => DistributionLoad(c, s);
    case Add(text) =>
      AddLoad(c, s, text);
      if Gives(c, s, a) == 1 {
        GivenTotal(s.master.load, c.channels, LeastLoaded(s.master.load), Ident(c.parse, text).value);
      }
    case _ => OtherLoad(c, s, a);
  }

  /** The spread a run may have: 1, or 2 once adds have preceded the distribution. */
  function Allowed(s: System, strict: bool): nat {
    if s.distributed && !strict then 2 else 1
  }

  ghost predicate Untouched(load: Load) {
    forall fd :: fd in load ==> |load[fd]| == 0
  }

  lemma StepSpread(c: Setup, s: System, a: Action, strict: bool)
    requires Possible(c, s, a) && (strict && a.Add? ==> s.distributed)
    requires Bounded(s.master.load) && Spread(s.master.load, Allowed(s, strict))
    requires strict && !s.distributed ==> Untouched(s.master.load)
    ensures var s' := Distribution.Apply(c, s, a);
      && Spread(s'.master.load, Allowed(s', strict))
      && (strict && !s'.distributed ==> Untouched(s'.master.load))
  {
    ApplyDistributed(c, s, a);
    hide LeastLoaded, Distribution.Apply;
    match a
    case Distribution =>
      if strict {
        assert Spread(s.master.load, 0);
        DistributionSpread(c, s, 0);
      } else {
        DistributionSpread(c, s, 1);
      }
    case Add(text) =>
      AddLoad(c, s, text);
      if Gives(c, s, a) == 1 {
        AddKeepsSpread(s.master.load, Ident(c.parse, text).value, Allowed(s, strict));
      }
    case _ => OtherLoad(c, s, a);
  }

  lemma ApplyDistributed(c: Setup, s: System, a: Action)
    requires Possible(c, s, a)
    ensures Distribution.Apply(c, s, a).distributed == (s.distributed || a.Distribution?)
  {
    hide Post, Delete, Distribute, Handle;
  }

  lemma {:induction false} RunLoad(c: Setup, s: System, actions: seq<Action>)
    requires Boot(c, s) && Exec(c, s, actions, false).Some?
    ensures var s' := Exec(c, s, actions, false).value;
      Shape(c, s') && Total(s'.master.load, c.channels) == Made(c, s, actions)
    decreases |actions|
  {
    if actions == [] {
      UntouchedTotal(s.master.load, c.channels);
    } else {
      var n := |actions| - 1;
      RunLoad(c, s, actions[..n]);
      StepLoad(c, Exec(c, s, actions[..n], false).value, actions[n]);
    }
  }

  lemma {:induction false} UntouchedTotal(load: Load, channels: seq<int>)
    requires forall i :: 0 <= i < |channels| ==> channels[i] in load
    requires Untouched(load)
    ensures Total(load, channels) == 0
  {
    if channels != [] {
      var first := channels[0];
      assert first in load;
      UntouchedTotal(load, channels[1..]);
    }
  }

  /** Additions wait for the distribution. */
  predicate Orderly(actions: seq<Action>) {
    forall i :: 0 <= i < |actions| && actions[i].Add? ==> Distributes(actions[..i])
  }

  predicate Distributes(actions: seq<Action>) {
    exists i :: 0 <= i < |actions| && actions[i].Distribution?
  }

  lemma DistributesLast(actions: seq<Action>)
    requires actions != []
    ensures var n := |actions| - 1; Distributes(actions) <==> Distributes(actions[..n]) || actions[n].Distribution?
  {
    var n := |actions| - 1;
    if i :| 0 <= i < n && actions[..n][i].Distribution? {
      assert actions[i].Distribution?;
    }
    if i :| 0 <= i < n && actions[i].Distribution? {
      assert actions[..n][i].Distribution?;
    }
  }

  lemma {:induction false} RunDistributes(c: Setup, s: System, actions: seq<Action>)
    requires !s.distributed && Exec(c, s, actions, false).Some?
    ensures Exec(c, s, actions, false).value.distributed <==> Distributes(actions)
    decreases |actions|
  {
    if actions != [] {
      var n := |actions| - 1;
      RunDistributes(c, s, actions[..n]);
      DistributesLast(actions);
      var mid := Exec(c, s, actions[..n], false).value;
      assert Possible(c, mid, actions[n]);
      ApplyDistributed(c, mid, actions[n]);
      hide Distribution.Apply, Possible, Distributes;
    }
  }

  lemma OrderlyPrefix(actions: seq<Action>)
    requires actions != [] && Orderly(actions)
    ensures Orderly(actions[..|actions| - 1])
  {
    var n := |actions| - 1;
    forall i | 0 <= i < n && actions[..n][i].Add? ensures Distributes(actions[..n][..i]) {
      assert actions[..n][..i] == actions[..i];
    }
  }

  lemma {:induction false} RunSpread(c: Setup, s: System, actions: seq<Action>, orderly: bool)
    requires Boot(c, s) && Exec(c, s, actions, false).Some? && (orderly ==> Orderly(actions))
    requires Bounded(Exec(c, s, actions, false).value.master.load)
    ensures var s' := Exec(c, s, actions, false).value;
      && Spread(s'.master.load, Allowed(s', orderly))
      && (orderly && !s'.distributed ==> Untouched(s'.master.load))
    decreases |actions|
  {
    if actions != [] {
      var n := |actions| - 1;
      var mid := Exec(c, s, actions[..n], false).value;
      StepLoad(c, mid, actions[n]);
      assert Bounded(mid.master.load) by {
        var load := Distribution.Apply(c, mid, actions[n]).master.load;
        var fd :| fd in load && |load[fd]| < 1000000;
        assert fd in mid.master.load;
      }
      if orderly {
        OrderlyPrefix(actions);
        RunDistributes(c, s, actions[..n]);
      }
      RunSpread(c, s, actions[..n], orderly);
      StepSpread(c, mid, actions[n], orderly);
    }
  }

  /**
   * In any run at all, while some worker has had fewer than 1000000 assignments: config_map sizes
   * differ by at most 2, and their sum is the number of assignments made.
   */
  lemma LoadIsBalanced(c: Setup, s: System, actions: seq<Action>)
    requires Boot(c, s) && Exec(c, s, actions, false).Some?
    requires Bounded(Exec(c, s, actions, false).value.master.load)
    ensures var s' := Exec(c, s, actions, false).value;
      Shape(c, s') && Spread(s'.master.load, 2) && Total(s'.master.load, c.channels) == Made(c, s, actions)
  {
    RunLoad(c, s, actions);
    RunSpread(c, s, actions, false);
  }

  /** When additions wait for the distribution, they differ by at most 1. */
  lemma LoadIsTightlyBalanced(c: Setup, s: System, actions: seq<Action>)
    requires Boot(c, s) && Exec(c, s, actions, false).Some? && Orderly(actions)
    requires Bounded(Exec(c, s, actions, false).value.master.load)
    ensures Spread(Exec(c, s, actions, false).value.master.load, 1)
  {
    RunSpread(c, s, actions, true);
  }
}
