/**
 * UDP tests of udp_test.cpp and the unreachable index of worker.cpp: a pending probe is resolved
 * by a read, a timeout or a port-unreachable error, whichever comes first.
 */
module UdpVerdict {
  import opened Channel
  import opened AddrKey

  const INIT := 1
  const PROBE := 2
  const DONE := 7

  /** The fields of a test; runs numbers its runs. */
  datatype Udp = Udp(addr: Addr, timeout: int, sockfd: int, status: int, runs: nat)

  /** What finish sends: status 1 is reachable, 0 unreachable. */
  datatype Report = Report(test: int, run: nat, status: int)

  /**
   * events maps each live event to its test and index is icmp_unreach_map. Sockets are numbered
   * apart, so that closing one twice shows. fault records the use of an event already deleted.
   */
  datatype UdpState = UdpState(
    tests: map<int, Udp>, events: map<nat, int>, index: map<Text, nat>, nextEvent: nat,
    nextSocket: nat, open: set<int>, closed: seq<int>, reports: seq<Report>, fault: bool)

  function KeyOf(s: UdpState, t: int): Text
    requires t in s.tests
  {
    Key(s.tests[t].addr)
  }

  /** init: a new socket. */
  function Opened(s: UdpState, t: int): UdpState
    requires t in s.tests
  {
    var u := s.tests[t].(sockfd := s.nextSocket, status := INIT, runs := s.tests[t].runs + 1);
    s.(tests := s.tests[t := u], open := s.open + {s.nextSocket}, nextSocket := s.nextSocket + 1)
  }

  /** A new event, registered under the printed address of the target. */
  function Registered(s: UdpState, t: int): UdpState
    requires t in s.tests
  {
    s.(events := s.events[s.nextEvent := t], index := s.index[KeyOf(s, t) := s.nextEvent], nextEvent := s.nextEvent + 1)
  }

  /** probe: whether the datagram leaves or not, only the status changes. */
  function Probed(s: UdpState, t: int): UdpState
    requires t in s.tests
  {
    s.(tests := s.tests[t := s.tests[t].(status := PROBE)])
  }

  /** run: without a positive timeout no event waits for the outcome. */
  function Ran(s: UdpState, t: int): UdpState
    requires t in s.tests
  {
    Probed(if s.tests[t].timeout > 0 then Registered(Opened(s, t), t) else Opened(s, t), t)
  }

  /** Either overload of finish. */
  function Finished(s: UdpState, t: int, status: int): UdpState
    requires t in s.tests
  {
    var u := s.tests[t];
    s.(tests := s.tests[t := u.(status := DONE)], open := s.open - {u.sockfd}, closed := s.closed + [u.sockfd],
       reports := s.reports + [Report(t, u.runs, status)])
  }

  /** udp_timeout_callback_fn: unregister, finish, delete the event. */
  function Fired(s: UdpState, e: nat): UdpState
    requires e in s.events && s.events[e] in s.tests
  {
    var t := s.events[e];
    Finished(s.(index := s.index - {KeyOf(s, t)}), t, 1).(events := s.events - {e})
  }

  /** worker_icmp_cb for a key: the index entry stays behind when its event is deleted. */
  function Hit(s: UdpState, key: Text): UdpState
    requires forall e :: e in s.events ==> s.events[e] in s.tests
  {
    if key !in s.index then s
    else if s.index[key] !in s.events then s.(fault := true)
    else
      var e := s.index[key];
      Finished(s, s.events[e], 0).(events := s.events - {e})
  }

  /** What a test says it is doing: initialised (1), waiting for an outcome (2), done (7). */
  lemma StatusTells(s: UdpState, t: int, status: int)
    requires t in s.tests
    ensures Opened(s, t).tests[t].status == 1 && Ran(s, t).tests[t].status == 2
    ensures Finished(s, t, status).tests[t].status == 7
  {
  }

  // ---- The objects ----

  class UdpTest {
    const servaddr: Addr
    const timeout: int
    var sockfd: int
    var status: int
    var runs: nat

    constructor (servaddr: Addr, timeout: int)
      ensures View() == Udp(servaddr, timeout, -1, 0, 0)
    {
      this.servaddr, this.timeout := servaddr, timeout;
      sockfd, status, runs := -1, 0, 0;
    }

    function View(): Udp
      reads this
    {
      Udp(servaddr, timeout, sockfd, status, runs)
    }

    method Init(socket: int)
      modifies this
      ensures View() == old(View()).(sockfd := socket, status := INIT, runs := old(runs) + 1)
    {
      sockfd := socket;
      runs := runs + 1;
      status := INIT;
    }

    method Probe()
      modifies this
      ensures View() == old(View()).(status := PROBE)
    {
      status := PROBE;
    }

    method Done()
      modifies this
      ensures View() == old(View()).(status := DONE)
    {
      status := DONE;
    }
  }

  class UdpWorker {
    var tests: map<int, UdpTest>
    var events: map<nat, int>
    var icmpUnreachMap: map<Text, nat>
    var nextEvent: nat
    var nextSocket: nat
    var open: set<int>
    var closed: seq<int>
    var reports: seq<Report>
    var fault: bool

    ghost predicate Valid()
      reads this
    {
      && (forall t, u :: t in tests && u in tests && t != u ==> tests[t] != tests[u])
      && (forall e :: e in events ==> events[e] in tests)
    }

    ghost function Values(): map<int, Udp>
      reads this, tests.Values
    {
      map t | t in tests :: tests[t].View()
    }

    ghost function View(): UdpState
      reads this, tests.Values
    {
      UdpState(Values(), events, icmpUnreachMap, nextEvent, nextSocket, open, closed, reports, fault)
    }

    constructor (tests: map<int, UdpTest>)
      requires forall t, u :: t in tests && u in tests && t != u ==> tests[t] != tests[u]
      ensures Valid() && this.tests == tests
      ensures View() == UdpState(map t | t in tests :: tests[t].View(), map[], map[], 0, 0, {}, [], [], false)
    {
      this.tests, events, icmpUnreachMap := tests, map[], map[];
      nextEvent, nextSocket, open, closed, reports, fault := 0, 0, {}, [], [], false;
    }

    method Run(t: int)
      requires Valid() && t in tests
      modifies this, tests[t]
      ensures Valid() && tests == old(tests) && View() == Ran(old(View()), t)
    {
      Init(t);
      if tests[t].timeout > 0 {
        RegisterEvent(t);
      }
      Probe(t);
    }

    method Probe(t: int)
      requires Valid() && t in tests
      modifies tests[t]
      ensures tests == old(tests) && View() == Probed(old(View()), t)
    {
      var test := tests[t];
      ghost var u := test.View().(status := PROBE);
      ghost var was := Values();
      test.Probe();
      forall k | k in tests && k != t ensures tests[k].View() == was[k] {
        assert tests[k] != tests[t];
      }
      assert test.View() == u;
      assert Values() == was[t := u];
    }

    method Init(t: int)
      requires Valid() && t in tests
      modifies this`open, this`nextSocket, tests[t]
      ensures tests == old(tests) && View() == Opened(old(View()), t)
    {
      var test := tests[t];
      ghost var u := test.View().(sockfd := nextSocket, status := INIT, runs := test.runs + 1);
      ghost var was := Values();
      test.Init(nextSocket);
      forall k | k in tests && k != t ensures tests[k].View() == was[k] {
        assert tests[k] != tests[t];
      }
      assert test.View() == u;
      assert Values() == was[t := u];
      open := open + {nextSocket};
      nextSocket := nextSocket + 1;
    }

    method RegisterEvent(t: int)
      requires Valid() && t in tests
      modifies this`events, this`icmpUnreachMap, this`nextEvent
      ensures Valid() && View() == Registered(old(View()), t)
    {
      events := events[nextEvent := t];
      icmpUnreachMap := icmpUnreachMap[Key(tests[t].servaddr) := nextEvent];
      nextEvent := nextEvent + 1;
    }

    method UnregisterEvent(t: int)
      requires Valid() && t in tests
      modifies this`icmpUnreachMap
      ensures View() == old(View()).(index := old(icmpUnreachMap) - {KeyOf(old(View()), t)})
    {
      icmpUnreachMap := icmpUnreachMap - {Key(tests[t].servaddr)};
    }

    method DeleteEvent(e: nat)
      requires Valid()
      modifies this`events
      ensures Valid() && View() == old(View()).(events := old(events) - {e})
    {
      events := events - {e};
    }

    method Finish(t: int, status: int)
      requires Valid() && t in tests
      modifies this`open, this`closed, this`reports, tests[t]
      ensures tests == old(tests) && View() == Finished(old(View()), t, status)
    {
      var test := tests[t];
      ghost var u := test.View().(status := DONE);
      ghost var was := Values();
      test.Done();
      forall k | k in tests && k != t ensures tests[k].View() == was[k] {
        assert tests[k] != tests[t];
      }
      assert test.View() == u;
      assert Values() == was[t := u];
      open := open - {test.sockfd};
      closed := closed + [test.sockfd];
      reports := reports + [Report(t, test.runs, status)];
    }

    /** The callback of a test's event, on a read or a timeout. */
    method SocketCallback(e: nat)
      requires Valid() && e in events
      modifies this, tests[events[e]]
      ensures Valid() && tests == old(tests) && View() == Fired(old(View()), e)
    {
      var t := events[e];
      UnregisterEvent(t);
      Finish(t, 1);
      DeleteEvent(e);
    }

    /** A port-unreachable error for a printed address. */
    method IcmpUnreachable(key: Text)
      requires Valid()
      modifies this, tests.Values
      ensures Valid() && tests == old(tests) && View() == Hit(old(View()), key)
    {
      if key !in icmpUnreachMap {
        return;
      }
      var e := icmpUnreachMap[key];
      if e !in events {
        fault := true;
        return;
      }
      Finish(events[e], 0);
      DeleteEvent(e);
    }
  }
}
