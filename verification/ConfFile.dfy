/** The test configuration file: what flush_test_conf writes and get_test_conf reads back. */
module ConfFile {
  import opened Bytes
  import opened Channel
  import opened Metric
  import opened Ordered

  const NEWLINE: byte := 10
  const SPACE: byte := 32
  const HASH: byte := 35

  // ---- Writing ----

  /** One configuration as written: its text and an empty line. */
  function Entry(text: Text): Text {
    text + [NEWLINE, NEWLINE]
  }

  function Texts(conf: map<int, Text>, ids: seq<int>): (ts: seq<Text>)
    requires forall i :: 0 <= i < |ids| ==> ids[i] in conf
    ensures |ts| == |ids|
  {
    if ids == [] then [] else [conf[ids[0]]] + Texts(conf, ids[1..])
  }

  /** The bytes still to be written when the iterator has todo before it. */
  ghost function Unwritten(conf: map<int, Text>, todo: set<int>): Text
    requires todo <= conf.Keys
  {
    Join(Entry, Texts(conf, Sorted(todo)))
  }

  ghost function Flush(conf: map<int, Text>): Text {
    Unwritten(conf, conf.Keys)
  }

  lemma UnwrittenFirst(conf: map<int, Text>, todo: set<int>, it: int)
    requires todo <= conf.Keys && it in todo && Sorted(todo) == [it] + Sorted(todo - {it})
    ensures Unwritten(conf, todo) == Entry(conf[it]) + Unwritten(conf, todo - {it})
  {
    var ids := Sorted(todo);
    hide Sorted, Join, Texts, Entry;
    assert ids[1..] == Sorted(todo - {it});
    JoinFirst(conf, ids);
  }

  lemma WriteStep(conf: map<int, Text>, todo: set<int>, it: int, file: Text)
    requires todo <= conf.Keys && it in todo && Sorted(todo) == [it] + Sorted(todo - {it})
    ensures file + Unwritten(conf, todo) == (file + conf[it] + [NEWLINE, NEWLINE]) + Unwritten(conf, todo - {it})
  {
    UnwrittenFirst(conf, todo, it);
    hide *;
    Regroup(file, conf[it], Unwritten(conf, todo - {it}));
  }

  lemma Regroup(file: Text, text: Text, rest: Text)
    ensures file + (Entry(text) + rest) == (file + text + [NEWLINE, NEWLINE]) + rest
  {
    assert (file + (text + [NEWLINE, NEWLINE])) + rest == file + (Entry(text) + rest);
    assert file + (text + [NEWLINE, NEWLINE]) == file + text + [NEWLINE, NEWLINE];
  }

  // ---- Reading ----

  function LineEnd(file: Text): (n: nat)
    ensures n <= |file| && forall i :: 0 <= i < n ==> file[i] != NEWLINE
    ensures n < |file| ==> file[n] == NEWLINE
  {
    if file == [] || file[0] == NEWLINE then 0 else 1 + LineEnd(file[1..])
  }

  /** The lines getline yields until the end of the file; the last one may be empty. */
  function Lines(file: Text): seq<Text>
    decreases |file|
  {
    var n := LineEnd(file);
    if n == |file| then [file] else [file[..n]] + Lines(file[n + 1..])
  }

  /** The first non-blank byte of the 256 that are copied; 0 when there is none. */
  function FirstVisible(line: Text, room: nat): byte
    decreases room
  {
    if room == 0 || line == [] then 0
    else if line[0] == SPACE then FirstVisible(line[1..], room - 1)
    else line[0]
  }

  datatype LineKind = Skipped | Malformed | Configures(id: int)

  function Classify(parse: Parser, line: Text): LineKind {
    var first := FirstVisible(line, 256);
    if first == 0 || first == NEWLINE || first == HASH then Skipped
    else match Ident(parse, line)
      case None => Malformed
      case Some(id) => Configures(id)
  }

  /** The map after the lines and the return code; a malformed line stops the loading. */
  function Load(parse: Parser, conf: map<int, Text>, lines: seq<Text>): (map<int, Text>, int)
    decreases |lines|
  {
    if lines == [] then (conf, 0)
    else match Classify(parse, lines[0])
      case Skipped => Load(parse, conf, lines[1..])
      case Malformed => (conf, -1)
      case Configures(id) => Load(parse, conf[id := lines[0]], lines[1..])
  }

  // ---- Which lines count ----

  /**
   * A line that means something: within its first 256 bytes, after blanks only, there is a byte
   * that is no NUL (0), line break (10), blank (32) or hash sign (35).
   */
  predicate Meant(line: Text) {
    exists k :: 0 <= k < 256 && k < |line| && line[k] !in {0, 10, 32, 35} && forall i :: 0 <= i < k ==> line[i] == 32
  }

  lemma {:induction false} FirstVisibleAt(line: Text, room: nat) returns (k: nat)
    ensures k <= room && k <= |line| && forall i :: 0 <= i < k ==> line[i] == 32
    ensures FirstVisible(line, room) == if k < room && k < |line| then line[k] else 0
    ensures k < room && k < |line| ==> line[k] != 32
    decreases room
  {
    if room == 0 || line == [] || line[0] != SPACE {
      k := 0;
    } else {
      var j := FirstVisibleAt(line[1..], room - 1);
      k := j + 1;
    }
  }

  lemma ClassifyExactly(parse: Parser, line: Text)
    ensures Classify(parse, line)
      == if !Meant(line) then Skipped
         else match Ident(parse, line)
           case None => Malformed
           case Some(id) => Configures(id)
  {
    var k := FirstVisibleAt(line, 256);
    hide FirstVisible;
    if Meant(line) {
      var j :| 0 <= j < 256 && j < |line| && line[j] !in {0, 10, 32, 35} && forall i :: 0 <= i < j ==> line[i] == 32;
      assert j == k;
    } else if k < 256 && k < |line| {
      assert line[k] in {0, 10, 32, 35};
    }
  }

  /** A meaningful line that is a metric text for the id. */
  predicate Names(parse: Parser, line: Text, id: int) {
    Meant(line) && match parse(line) case Some(Json(Some(i), Some(_))) => i == id case _ => false
  }

  /** A meaningful line that is no metric text. */
  ghost predicate Bad(parse: Parser, line: Text) {
    Meant(line) && forall id :: !Names(parse, line, id)
  }

  lemma NamesIsIdent(parse: Parser, line: Text)
    ensures forall id :: Names(parse, line, id) <==> Meant(line) && Ident(parse, line) == Some(id)
    ensures Bad(parse, line) <==> Meant(line) && Ident(parse, line) == None
  {
    hide Meant;
    if Ident(parse, line).Some? {
      assert Meant(line) ==> Names(parse, line, Ident(parse, line).value);
    }
  }

  predicate SameAt(m: map<int, Text>, n: map<int, Text>, id: int) {
    (id in m <==> id in n) && (id in m && id in n ==> m[id] == n[id])
  }

  /** The id takes its text from the last of the lines that names it. */
  ghost predicate TakenFrom(parse: Parser, conf: map<int, Text>, loaded: map<int, Text>, lines: seq<Text>, id: int) {
    if forall i :: 0 <= i < |lines| ==> !Names(parse, lines[i], id)
    then SameAt(conf, loaded, id)
    else
      exists i :: 0 <= i < |lines| && Names(parse, lines[i], id) && id in loaded && loaded[id] == lines[i]
                  && forall j :: i < j < |lines| ==> !Names(parse, lines[j], id)
  }

  lemma TakenLater(parse: Parser, conf: map<int, Text>, loaded: map<int, Text>, lines: seq<Text>, id: int)
    requires lines != []
    requires TakenFrom(parse, if Names(parse, lines[0], id) then conf[id := lines[0]] else conf, loaded, lines[1..], id)
    ensures TakenFrom(parse, conf, loaded, lines, id)
  {
    hide Names;
    assert forall i :: 0 <= i < |lines| - 1 ==> lines[1..][i] == lines[i + 1];
    assert forall i :: 1 <= i < |lines| ==> lines[i] == lines[1..][i - 1];
    if i :| 0 <= i < |lines| - 1 && Names(parse, lines[1..][i], id) && id in loaded && loaded[id] == lines[1..][i]
            && forall j :: i < j < |lines| - 1 ==> !Names(parse, lines[1..][j], id) {
      assert Names(parse, lines[i + 1], id);
    }
  }

  /**
   * Loading goes through the lines up to the first bad one, with code -1 there and 0 at the end.
   * Lines before it that name an id are stored under it, and all others are skipped.
   */
  lemma {:induction false} LoadedExactly(parse: Parser, conf: map<int, Text>, lines: seq<Text>, stop: nat, id: int)
    requires stop <= |lines| && forall i :: 0 <= i < stop ==> !Bad(parse, lines[i])
    requires stop < |lines| ==> Bad(parse, lines[stop])
    ensures var (loaded, code) := Load(parse, conf, lines);
      && code == (if stop < |lines| then -1 else 0)
      && TakenFrom(parse, conf, loaded, lines[..stop], id)
    decreases |lines|
  {
    if lines == [] {
    } else {
      var line := lines[0];
      ClassifyExactly(parse, line);
      NamesIsIdent(parse, line);
      if stop > 0 {
        var next := if Classify(parse, line).Configures? then conf[Classify(parse, line).id := line] else conf;
        assert !Bad(parse, line);
        hide Bad, Names, Classify, Meant;
        assert Load(parse, conf, lines) == Load(parse, next, lines[1..]);
        forall i | 0 <= i < stop - 1 ensures !Bad(parse, lines[1..][i]) {
          assert lines[1..][i] == lines[i + 1];
        }
        LoadedExactly(parse, next, lines[1..], stop - 1, id);
        assert lines[..stop][1..] == lines[1..][..stop - 1];
        SameTaken(parse, conf, next, Load(parse, conf, lines).0, lines[..stop], id);
      }
    }
  }

  lemma SameTaken(
    parse: Parser, conf: map<int, Text>, next: map<int, Text>, loaded: map<int, Text>, lines: seq<Text>, id: int)
    requires lines != [] && TakenFrom(parse, next, loaded, lines[1..], id)
    requires if Names(parse, lines[0], id) then id in next && next[id] == lines[0]
             else SameAt(conf, next, id)
    ensures TakenFrom(parse, conf, loaded, lines, id)
  {
    hide Names;
    TakenLater(parse, conf, loaded, lines, id);
  }

  /** The lines put back together, with a line break between any two. */
  function Unsplit(lines: seq<Text>): Text {
    if lines == [] then [] else if |lines| == 1 then lines[0] else lines[0] + [NEWLINE] + Unsplit(lines[1..])
  }

  /** The lines are those of the file. */
  lemma {:induction false} LinesOfFile(file: Text)
    ensures Lines(file) != [] && Unsplit(Lines(file)) == file
    ensures forall i :: 0 <= i < |Lines(file)| ==> NEWLINE !in Lines(file)[i]
    decreases |file|
  {
    var n := LineEnd(file);
    if n == |file| {
      assert file[..n] == file;
    } else {
      var rest := Lines(file[n + 1..]);
      LinesOfFile(file[n + 1..]);
      assert file == file[..n] + [NEWLINE] + file[n + 1..];
      assert Lines(file) == [file[..n]] + rest;
      hide Lines, LineEnd;
      assert ([file[..n]] + rest)[1..] == rest;
    }
  }

  // ---- The round trip ----

  /** A text that is read back from one line under the id it is stored with. */
  predicate Loadable(parse: Parser, id: int, text: Text) {
    NEWLINE !in text && Meant(text) && Ident(parse, text) == Some(id)
  }

  lemma LoadableClassified(parse: Parser, id: int, text: Text)
    ensures Loadable(parse, id, text) <==> NEWLINE !in text && Classify(parse, text) == Configures(id)
  {
    ClassifyExactly(parse, text);
  }

  lemma LineEndAt(file: Text, n: nat)
    requires n < |file| && file[n] == NEWLINE && forall i :: 0 <= i < n ==> file[i] != NEWLINE
    ensures LineEnd(file) == n
  {
    hide LineEnd;
  }

  lemma LineThen(text: Text, rest: Text)
    requires NEWLINE !in text
    ensures Lines(text + [NEWLINE] + rest) == [text] + Lines(rest)
  {
    hide LineEnd;
    var file := text + [NEWLINE] + rest;
    LineEndAt(file, |text|);
    assert file[..|text|] == text && file[|text| + 1..] == rest;
  }

  lemma LineOfEntry(text: Text, rest: Text)
    requires NEWLINE !in text
    ensures Lines(Entry(text) + rest) == [text, []] + Lines(rest)
  {
    hide Lines;
    LineThen([], rest);
    LineThen(text, [] + [NEWLINE] + rest);
    assert Entry(text) + rest == text + [NEWLINE] + ([] + [NEWLINE] + rest);
    assert [text] + ([[]] + Lines(rest)) == [text, []] + Lines(rest);
  }

  /** Every entry of a loaded map was either there before or came from a line that is loadable. */
  lemma {:induction false} LoadedFrom(parse: Parser, conf: map<int, Text>, lines: seq<Text>, id: int)
    requires forall i :: 0 <= i < |lines| ==> NEWLINE !in lines[i]
    requires id in conf ==> Loadable(parse, id, conf[id])
    ensures var loaded := Load(parse, conf, lines).0;
      id in loaded ==> Loadable(parse, id, loaded[id])
    decreases |lines|
  {
    if lines != [] {
      match Classify(parse, lines[0])
      case Skipped => LoadedFrom(parse, conf, lines[1..], id);
      case Malformed =>
      case Configures(key) =>
        LoadableClassified(parse, key, lines[0]);
        LoadedFrom(parse, conf[key := lines[0]], lines[1..], id);
    }
  }

  /** Any loaded file gives entries keyed by their own id, each with a type. */
  lemma LoadedIsKeyed(parse: Parser, file: Text, id: int)
    ensures var loaded := Load(parse, map[], Lines(file)).0;
      id in loaded ==> Loadable(parse, id, loaded[id]) && Ident(parse, loaded[id]) == Some(id)
  {
    LinesOfFile(file);
    LoadedFrom(parse, map[], Lines(file), id);
  }

  lemma {:induction false} LoadsBack(parse: Parser, acc: map<int, Text>, conf: map<int, Text>, ids: seq<int>)
    requires forall i :: 0 <= i < |ids| ==> ids[i] in conf && Loadable(parse, ids[i], conf[ids[i]])
    requires forall id :: id in acc ==> id in conf && acc[id] == conf[id]
    ensures var (loaded, code) := Load(parse, acc, Lines(Join(Entry, Texts(conf, ids))));
      && code == 0
      && (forall id :: id in loaded <==> id in acc || id in ids)
      && (forall id :: id in loaded ==> id in conf && loaded[id] == conf[id])
    decreases |ids|
  {
    if ids == [] {
      assert Lines([]) == [[]];
      assert Load(parse, acc, [[]]) == Load(parse, acc, [[]][1..]);
    } else {
      var text := conf[ids[0]];
      var rest := Join(Entry, Texts(conf, ids[1..]));
      JoinFirst(conf, ids);
      LineOfEntry(text, rest);
      LoadEntry(parse, acc, ids[0], text, Lines(rest));
      LoadsBack(parse, acc[ids[0] := text], conf, ids[1..]);
      assert forall id :: id in ids <==> id == ids[0] || id in ids[1..];
    }
  }

  lemma JoinFirst(conf: map<int, Text>, ids: seq<int>)
    requires ids != [] && forall i :: 0 <= i < |ids| ==> ids[i] in conf
    ensures Join(Entry, Texts(conf, ids)) == Entry(conf[ids[0]]) + Join(Entry, Texts(conf, ids[1..]))
  {
    assert Texts(conf, ids)[1..] == Texts(conf, ids[1..]);
  }

  lemma LoadEntry(parse: Parser, acc: map<int, Text>, id: int, text: Text, rest: seq<Text>)
    requires Loadable(parse, id, text)
    ensures Load(parse, acc, [text, []] + rest) == Load(parse, acc[id := text], rest)
  {
    LoadableClassified(parse, id, text);
    var lines := [text, []] + rest;
    assert lines[1..] == [[]] + rest && lines[1..][1..] == rest;
    assert Load(parse, acc, lines) == Load(parse, acc[id := text], lines[1..]);
    assert FirstVisible([], 256) == 0;
  }

  ghost predicate AllLoadable(parse: Parser, conf: map<int, Text>) {
    forall id :: id in conf ==> Loadable(parse, id, conf[id])
  }

  /** The map and code of a load of the flushed file into an empty map. */
  ghost function Reloaded(parse: Parser, conf: map<int, Text>): (map<int, Text>, int) {
    Load(parse, map[], Lines(Flush(conf)))
  }

  lemma LoadableReloads(parse: Parser, conf: map<int, Text>)
    requires AllLoadable(parse, conf)
    ensures Reloaded(parse, conf) == (conf, 0)
  {
    var ids := Sorted(conf.Keys);
    hide Load, Lines, Loadable, Sorted, Join;
    LoadsBack(parse, map[], conf, ids);
    var loaded := Reloaded(parse, conf).0;
    forall id ensures id in loaded <==> id in conf {
      assert id in loaded <==> id in ids;
    }
    assert loaded == conf;
  }

  lemma ReloadedIsLoadable(parse: Parser, conf: map<int, Text>)
    requires Reloaded(parse, conf).0 == conf
    ensures AllLoadable(parse, conf)
  {
    forall id | id in conf ensures Loadable(parse, id, conf[id]) {
      hide Load, Lines, Loadable, Flush;
      LoadedIsKeyed(parse, Flush(conf), id);
    }
  }

  /** Flushing and loading into an empty map gives the map back iff every text is loadable. */
  lemma RoundTripExactly(parse: Parser, conf: map<int, Text>)
    ensures Reloaded(parse, conf).0 == conf <==> AllLoadable(parse, conf)
    ensures Reloaded(parse, conf).0 == conf ==> Reloaded(parse, conf).1 == 0
  {
    hide Reloaded, AllLoadable;
    if AllLoadable(parse, conf) {
      LoadableReloads(parse, conf);
    } else if Reloaded(parse, conf).0 == conf {
      ReloadedIsLoadable(parse, conf);
    }
  }
}
