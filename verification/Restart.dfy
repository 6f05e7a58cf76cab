/** Saving the configurations of a running system and loading them again. */
module Restart {
  import opened Bytes
  import opened Channel
  import opened Metric
  import opened Ordered
  import opened ConfFile
  import opened Master
  import opened Worker
  import opened Distribution

  /** One line that the loader does not skip. */
  predicate Plain(text: Text) {
    NEWLINE !in text && Meant(text)
  }

  ghost predicate Keyed(parse: Parser, conf: map<int, Text>) {
    forall id :: id in conf ==> Ident(parse, conf[id]) == Some(id)
  }

  lemma DistributeKeepsConf(s: MasterState, channels: seq<int>, ids: seq<int>, i: nat, port: Text)
    requires channels != [] && (forall fd :: fd in channels ==> fd in s.load)
    requires forall id :: id in ids ==> id in s.conf
    ensures DistributeFrom(s, channels, ids, i, port).conf == s.conf
    decreases |ids|
  {
    if ids != [] {
      var fd := channels[i % |channels|];
      var next := Announce(Assign(s, ids[0], s.conf[ids[0]], fd), fd, port);
      assert next.conf == s.conf;
      DistributeKeepsConf(next, channels, ids[1..], i + 1, port);
    }
  }

  lemma PostKeyed(s: MasterState, parse: Parser, text: Text)
    requires s.load.Keys != {} && Keyed(parse, s.conf)
    ensures Keyed(parse, Post(s, parse, text).conf) && Keyed(parse, Delete(s, parse, text).conf)
  {
    hide LeastLoaded;
  }

  lemma DeliveryKeepsConf(c: Setup, s: System, a: Action)
    requires Possible(c, s, a) && (a.Receive? || a.Ack?)
    ensures Apply(c, s, a).master.conf == s.master.conf
  {
    hide Handle, Read, Post, Delete, Distribute;
    if a.Ack? {
      AcknowledgedOne(s.master, a.fd, s.up[a.fd][0]);
    }
  }

  lemma StepKeyed(c: Setup, s: System, a: Action)
    requires Possible(c, s, a) && Keyed(c.parse, s.master.conf)
    ensures Keyed(c.parse, Apply(c, s, a).master.conf)
  {
    hide Keyed, Post, Delete, Handle, Read, Acknowledged;
    match a
    case Distribution => DistributeKeepsConf(s.master, c.channels, Sorted(s.master.conf.Keys), 0, c.port);
    case Add(text) => PostKeyed(s.master, c.parse, text);
    case Remove(text) => PostKeyed(s.master, c.parse, text);
    case Receive(_) => DeliveryKeepsConf(c, s, a);
    case Ack(_) => DeliveryKeepsConf(c, s, a);
  }

  lemma {:induction false} RunKeyed(c: Setup, s: System, actions: seq<Action>)
    requires Boot(c, s) && Exec(c, s, actions, false).Some?
    ensures Keyed(c.parse, Exec(c, s, actions, false).value.master.conf)
    decreases |actions|
  {
    if actions != [] {
      var n := |actions| - 1;
      RunKeyed(c, s, actions[..n]);
      StepKeyed(c, Exec(c, s, actions[..n], false).value, actions[n]);
    }
  }

  /**
   * In every state that any run reaches, restrained or not, a flush and a fresh load restore
   * configid_map iff its texts are plain.
   */
  lemma RestartRestoresExactly(c: Setup, s0: System, actions: seq<Action>)
    requires Boot(c, s0) && Exec(c, s0, actions, false).Some?
    ensures var conf := Exec(c, s0, actions, false).value.master.conf;
      Reloaded(c.parse, conf) == (conf, 0) <==> forall id :: id in conf ==> Plain(conf[id])
  {
    RunKeyed(c, s0, actions);
    hide Exec, Boot, Reloaded;
    var conf := Exec(c, s0, actions, false).value.master.conf;
    RoundTripExactly(c.parse, conf);
  }

  /** A master with empty books and idle workers on its channels. */
  ghost function Fresh(c: Setup, conf: map<int, Text>): System {
    var none: map<int, seq<int>> := map fd | fd in c.channels :: [];
    System(MasterState(conf, map[], none, map fd | fd in c.channels :: []),
           map fd | fd in c.channels :: FRESH, none, map[], false)
  }

  /** Whatever the configuration file holds, what is loaded from it is a state to start from. */
  lemma LoadBoots(c: Setup, file: Text)
    requires c.channels != [] && forall i, j :: 0 <= i < j < |c.channels| ==> c.channels[i] != c.channels[j]
    ensures Boot(c, Fresh(c, Load(c.parse, map[], Lines(file)).0))
  {
    var conf := Load(c.parse, map[], Lines(file)).0;
    forall id | id in conf ensures Ident(c.parse, conf[id]) == Some(id) {
      LoadedIsKeyed(c.parse, file, id);
    }
    assert c.channels[0] in c.channels;
  }
}
