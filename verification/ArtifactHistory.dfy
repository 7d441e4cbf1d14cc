/** One stored artifact: its live text, the file it may be linked to, and its numbered snapshots. */
module ArtifactHistory {
  import opened Options
  import opened ArtifactText

  const MAX_VERSIONS := 50
  const MAX_CONTENT_BYTES := 26214400

  type Path = string
  type Kind = string
  type Bytes = seq<bv8>

  /** The files that artifacts link to. */
  type Disk = map<Path, Bytes>

  /** What is not modelled of text: UTF-8, with replacement of bad bytes on the way in, and the
      detection of a structured kind. */
  datatype Codec = Codec(encode: string -> Bytes, decode: Bytes -> string, detect: string -> Option<Kind>)

  ghost predicate Faithful(c: Codec) {
    forall s :: c.decode(c.encode(s)) == s
  }

  /** meta.json, current.html and versions/vN.html of one artifact, the text files as they are on disk;
      `source` is "" without a link. */
  datatype Dir = Dir(
    current: string, versions: map<nat, string>, version: nat,
    kind: Kind, kindAuto: bool, kinds: map<nat, Kind>, source: Path, copyOnly: bool)

  /** Whether the containment and descriptor checks let this call read and write the linked file. */
  datatype Gate = Gate(read: bool, write: bool)

  datatype Request = Request(content: Option<string>, kind: Option<Kind>, snapshot: bool, eventOk: bool)

  datatype Outcome = Done | Invalid

  datatype View = View(content: string, kind: Kind, missing: bool, dirty: bool)

  predicate Linked(d: Dir) {
    d.source != "" && !d.copyOnly
  }

  function Bounded(b: Bytes): Bytes {
    if |b| > MAX_CONTENT_BYTES then b[..MAX_CONTENT_BYTES] else b
  }

  function ReadSource(c: Codec, disk: Disk, path: Path, allowed: bool): Option<string> {
    if path in disk && allowed then Some(c.decode(Bounded(disk[path]))) else None
  }

  // ----- create -----

  /** A document created blank, with no kind given and no link, gets a kind it may later outgrow. */
  function CreateDir(content: string, kind: Option<Kind>, inferred: Kind, blank: bool, source: Path, copyOnly: bool): Dir {
    var auto := kind == None && source == "" && blank;
    var k := if auto then "markdown" else if kind.Some? then kind.value else inferred;
    Dir(content, map[1 := AsRead(content)], 1, k, auto, map[1 := k], source, copyOnly)
  }

  // ----- get -----

  function Get(c: Codec, d: Dir, disk: Disk, g: Gate): View {
    var live := if Linked(d) then ReadSource(c, disk, d.source, g.read) else Some(AsRead(d.current));
    var content := if live.Some? then live.value else AsRead(d.current);
    View(content, d.kind, live == None,
         live == None || (d.version in d.versions && content != AsRead(d.versions[d.version])))
  }

  function GetVersion(d: Dir, v: int): Option<(string, Kind)> {
    if v < 1 || v > d.version || v !in d.versions then None
    else Some((AsRead(d.versions[v]), if v in d.kinds && d.kinds[v] != "" then d.kinds[v] else d.kind))
  }

  // ----- update -----

  /** The text this call makes live, if any: the caller's, or for a snapshot what is live now. */
  function NewLive(c: Codec, d: Dir, disk: Disk, r: Request, g: Gate): Option<string> {
    if r.content.Some? then r.content
    else if !r.snapshot then None
    else if !Linked(d) then Some(AsRead(d.current))
    else match ReadSource(c, disk, d.source, g.read)
      case Some(text) => Some(text)
      case None => Some(AsRead(d.current))
  }

  predicate Mirrors(d: Dir, r: Request) {
    Linked(d) && r.content.Some?
  }

  function Mirrored(c: Codec, d: Dir, disk: Disk, r: Request, g: Gate): Disk {
    if Mirrors(d, r) && d.source in disk && g.write then disk[d.source := c.encode(r.content.value)] else disk
  }

  /** A refused mirror demotes the artifact to owning its own copy. */
  function Demoted(d: Dir, disk: Disk, r: Request, g: Gate): bool {
    d.copyOnly || (Mirrors(d, r) && !(d.source in disk && g.write))
  }

  function Settled(c: Codec, d: Dir, r: Request, live: string): Kind {
    if r.kind.Some? then r.kind.value
    else if d.kindAuto && c.detect(live).Some? then c.detect(live).value
    else d.kind
  }

  function Trim(kinds: map<nat, Kind>, version: nat): map<nat, Kind> {
    if |kinds| > MAX_VERSIONS then map v | v in kinds && v > version - MAX_VERSIONS :: kinds[v] else kinds
  }

  function Newer(versions: map<nat, string>, v: nat): set<nat> {
    set u | u in versions && u > v
  }

  /** Keep the 50 newest files; a file that cannot be unlinked stays. */
  function Prune(versions: map<nat, string>, stuck: set<nat>): map<nat, string> {
    map v | v in versions && (|Newer(versions, v)| < MAX_VERSIONS || v in stuck) :: versions[v]
  }

  /** The metadata is written and old versions are pruned at the end of every update. */
  function Finished(d: Dir, stuck: set<nat>): Dir {
    d.(kinds := Trim(d.kinds, d.version), versions := Prune(d.versions, stuck))
  }

  /** The record with `live` made its current text. */
  function WithLive(c: Codec, d: Dir, disk: Disk, r: Request, g: Gate, live: string): Dir {
    d.(current := live, kind := Settled(c, d, r, live),
       kindAuto := d.kindAuto && r.kind == None, copyOnly := Demoted(d, disk, r, g))
  }

  function WithKind(d: Dir, r: Request): Dir {
    d.(kind := if r.kind.Some? then r.kind.value else d.kind, kindAuto := d.kindAuto && r.kind == None)
  }

  function Update(c: Codec, d: Dir, disk: Disk, r: Request, g: Gate, stuck: set<nat>): (Dir, Disk, Outcome) {
    if r.content.Some? && |c.encode(r.content.value)| > MAX_CONTENT_BYTES then (d, disk, Invalid)
    else match NewLive(c, d, disk, r, g)
      case None => (Finished(WithKind(d, r), stuck), disk, Done)
      case Some(live) =>
        var disk' := Mirrored(c, d, disk, r, g);
        if r.snapshot && !r.eventOk then (d.(current := live), disk', Invalid)
        else
          var e := WithLive(c, d, disk, r, g, live);
          (Finished(if r.snapshot then Bumped(e) else e, stuck), disk', Done)
  }

  /** The snapshot is a copy of current.html, read and written again. */
  function Bumped(e: Dir): Dir {
    var n := e.version + 1;
    e.(version := n, versions := e.versions[n := AsRead(e.current)], kinds := e.kinds[n := e.kind])
  }

  // ----- read your writes -----

  /** get() is answered from the linked file. */
  predicate Served(d: Dir, disk: Disk, g: Gate) {
    Linked(d) && d.source in disk && g.read
  }

  /** What get() answers for `text`, written to current.html and to the link alike. */
  function Shown(text: string, served: bool): string {
    if served then text else AsRead(text)
  }

  lemma ShownIff(text: string, served: bool)
    ensures Shown(text, served) == text <==> served || '\r' !in text
  {
    ReadBackIff(text);
  }

  /** get() after a returned update(content=text): `text` itself exactly when it is served from a link that took
      the write or holds no carriage return, and `text` with its newlines normalised otherwise. A link that
      refused the write is demoted. */
  lemma ReadYourWrites(c: Codec, d: Dir, disk: Disk, r: Request, g: Gate, stuck: set<nat>, later: Gate)
    requires Faithful(c) && r.content.Some? && Update(c, d, disk, r, g, stuck).2 == Done
    ensures var u := Update(c, d, disk, r, g, stuck);
      Get(c, u.0, u.1, later).content == Shown(r.content.value, Served(d, disk, later) && g.write)
    ensures var u := Update(c, d, disk, r, g, stuck);
      (Get(c, u.0, u.1, later).content == r.content.value
       <==> (Served(d, disk, later) && g.write) || '\r' !in r.content.value)
    ensures var u := Update(c, d, disk, r, g, stuck);
      Linked(d) ==> (Linked(u.0) <==> d.source in disk && g.write)
  {
    var u := Update(c, d, disk, r, g, stuck);
    ShownIff(r.content.value, Served(d, disk, later) && g.write);
    if Linked(u.0) && ReadSource(c, u.1, u.0.source, later.read).Some? {
      assert Bounded(u.1[d.source]) == c.encode(r.content.value);
    }
  }

  /** So the documented round trip fails on a chat-backed artifact saved with a carriage return. */
  lemma ReturnIsLost(c: Codec, g: Gate, later: Gate)
    requires Faithful(c) && |c.encode("a\r\nb")| <= MAX_CONTENT_BYTES
    ensures var d := CreateDir("", None, "html", true, "", false);
      var u := Update(c, d, map[], Request(Some("a\r\nb"), None, false, true), g, {});
      u.2 == Done && Get(c, u.0, u.1, later).content == "a\nb" != "a\r\nb"
  {
    var d := CreateDir("", None, "html", true, "", false);
    var r := Request(Some("a\r\nb"), None, false, true);
    ReadYourWrites(c, d, map[], r, g, {}, later);
    assert AsRead("a\r\nb") == "a\nb" by {
      assert AsRead("b") == "b";
      assert "a\r\nb"[1..] == "\r\nb" && "\r\nb"[2..] == "b";
      assert AsRead("\r\nb") == "\nb";
    }
  }

  /** The write reaches the linked file and no other, and only with content the caller gave: a snapshot
      taken off the file never writes it back, however much of it the bounded read saw. */
  lemma OnlyGivenContentIsWritten(c: Codec, d: Dir, disk: Disk, r: Request, g: Gate, stuck: set<nat>, p: Path)
    requires var u := Update(c, d, disk, r, g, stuck); u.1.Keys != disk.Keys || (p in disk && u.1[p] != disk[p])
    ensures r.content.Some? && Linked(d) && p == d.source && g.write
    ensures p in disk && Update(c, d, disk, r, g, stuck).1 == disk[p := c.encode(r.content.value)]
  {
    var u := Update(c, d, disk, r, g, stuck);
    assert u.1 == disk || (d.source in disk && u.1.Keys == disk.Keys);
  }

  /** An update that raises for its event type has written the live text already, and the linked file; but
      not its metadata. Served from the link, get() answers the new text unless the link refused the write: the
      demotion is lost with the metadata, and the link still shows the file. Otherwise it answers the text as
      current.html reads. */
  lemma RaisedUpdateIsHalfDone(c: Codec, d: Dir, disk: Disk, r: Request, g: Gate, stuck: set<nat>, later: Gate)
    requires Faithful(c) && r.content.Some? && |c.encode(r.content.value)| <= MAX_CONTENT_BYTES
    requires r.snapshot && !r.eventOk
    ensures var u := Update(c, d, disk, r, g, stuck);
      && u.2 == Invalid && u.0 == d.(current := r.content.value)
      && (Get(c, u.0, u.1, later).content == r.content.value <==>
           (if Served(d, disk, later) then g.write || c.decode(Bounded(disk[d.source])) == r.content.value
            else '\r' !in r.content.value))
  {
    var u := Update(c, d, disk, r, g, stuck);
    ReadBackIff(r.content.value);
    if Linked(d) && d.source in disk && g.write {
      assert Bounded(u.1[d.source]) == c.encode(r.content.value);
    }
  }

  // ----- the version window -----

  function Low(version: nat): nat {
    if version > MAX_VERSIONS then version - MAX_VERSIONS + 1 else 1
  }

  predicate InWindow(version: nat, v: nat) {
    Low(version) <= v <= version
  }

  /** The live texts and kinds at each bump so far: entry v - 1 is version v's. */
  type Log = seq<(string, Kind)>

  /** The retained snapshots are the last 50, each the live text of its bump as current.html read; files that could not be unlinked may
      linger below the window, unchanged too. */
  ghost predicate Stored(versions: map<nat, string>, version: nat, log: Log) {
    && |log| == version >= 1
    && (forall v: nat :: v in versions ==> 1 <= v <= version && versions[v] == AsRead(log[v - 1].0))
    && (forall v: nat :: InWindow(version, v) ==> v in versions)
  }

  ghost predicate Kinded(kinds: map<nat, Kind>, version: nat, log: Log) {
    && |log| == version >= 1
    && (forall v: nat :: v in kinds <==> InWindow(version, v))
    && (forall v: nat :: v in kinds ==> kinds[v] == log[v - 1].1)
  }

  ghost predicate Tracks(d: Dir, log: Log) {
    Stored(d.versions, d.version, log) && Kinded(d.kinds, d.version, log)
  }

  /** No file lingers: the snapshots are exactly max(1, version - 49) .. version. */
  ghost predicate Exact(versions: map<nat, string>, version: nat) {
    forall v: nat :: v in versions <==> InWindow(version, v)
  }

  function Range(lo: nat, hi: nat): (s: set<nat>)
    ensures forall v: nat :: v in s <==> lo <= v < hi
    ensures |s| == if hi > lo then hi - lo else 0
    decreases hi
  {
    if hi <= lo then {} else Range(lo, hi - 1) + {hi - 1}
  }

  lemma SubsetSize(a: set<nat>, b: set<nat>)
    requires a <= b
    ensures |a| <= |b|
  {
    assert b == a + (b - a);
  }

  /** Pruning removes nothing of the window, and everything below it that can be unlinked. */
  lemma PruneKeepsWindow(versions: map<nat, string>, version: nat, stuck: set<nat>)
    requires version >= 1
    requires forall v: nat :: v in versions ==> 1 <= v <= version
    requires forall v: nat :: InWindow(version, v) ==> v in versions
    ensures forall v: nat :: v in Prune(versions, stuck) <==> v in versions && (InWindow(version, v) || v in stuck)
  {
    forall v: nat | v in versions ensures |Newer(versions, v)| < MAX_VERSIONS <==> InWindow(version, v) {
      if InWindow(version, v) {
        assert Newer(versions, v) == Range(v + 1, version + 1);
      } else {
        SubsetSize(Range(Low(version), version + 1), Newer(versions, v));
      }
    }
  }

  lemma KeysSize(kinds: map<nat, Kind>, lo: nat, hi: nat)
    requires lo <= hi && forall v: nat :: v in kinds <==> lo <= v < hi
    ensures |kinds| == hi - lo
  {
    assert kinds.Keys == Range(lo, hi);
    assert |kinds| == |kinds.Keys|;
  }

  lemma TrimKeepsWindow(kinds: map<nat, Kind>, version: nat)
    requires version >= 1
    requires forall v: nat :: v in kinds <==> InWindow(version, v) || (v == version - MAX_VERSIONS && v >= 1)
    ensures forall v: nat :: v in Trim(kinds, version) <==> InWindow(version, v)
  {
    KeysSize(kinds, if version > MAX_VERSIONS then version - MAX_VERSIONS else 1, version + 1);
  }

  /** What one update adds to the log. */
  function Logged(c: Codec, d: Dir, disk: Disk, r: Request, g: Gate, stuck: set<nat>): Log {
    var u := Update(c, d, disk, r, g, stuck);
    if u.0.version > d.version then [(u.0.current, u.0.kind)] else []
  }

  lemma CreateTracks(content: string, kind: Option<Kind>, inferred: Kind, blank: bool, source: Path, copyOnly: bool)
    ensures var d := CreateDir(content, kind, inferred, blank, source, copyOnly);
      Tracks(d, [(content, d.kind)]) && Exact(d.versions, d.version)
  {
  }

  lemma BumpStored(versions: map<nat, string>, version: nat, log: Log, text: string, kind: Kind, stuck: set<nat>)
    requires Stored(versions, version, log)
    ensures Stored(Prune(versions[version + 1 := AsRead(text)], stuck), version + 1, log + [(text, kind)])
    ensures Exact(versions, version) && stuck == {} ==> Exact(Prune(versions[version + 1 := AsRead(text)], stuck), version + 1)
  {
    var more := versions[version + 1 := AsRead(text)];
    PruneKeepsWindow(more, version + 1, stuck);
    hide Prune;
    assert forall v: nat :: v in Prune(more, stuck) ==> Prune(more, stuck)[v] == more[v] by { PrunedTexts(more, stuck); }
    assert forall v: nat :: InWindow(version + 1, v) && v <= version ==> InWindow(version, v);
  }

  lemma PrunedTexts(versions: map<nat, string>, stuck: set<nat>)
    ensures forall v: nat :: v in Prune(versions, stuck) ==> v in versions && Prune(versions, stuck)[v] == versions[v]
  {
  }

  lemma BumpKinded(kinds: map<nat, Kind>, version: nat, log: Log, text: string, kind: Kind)
    requires Kinded(kinds, version, log)
    ensures Kinded(Trim(kinds[version + 1 := kind], version + 1), version + 1, log + [(text, kind)])
  {
    TrimKeepsWindow(kinds[version + 1 := kind], version + 1);
  }

  lemma SameStored(versions: map<nat, string>, version: nat, log: Log, stuck: set<nat>)
    requires Stored(versions, version, log)
    ensures Stored(Prune(versions, stuck), version, log)
    ensures Exact(versions, version) ==> Exact(Prune(versions, stuck), version)
  {
    PruneKeepsWindow(versions, version, stuck);
  }

  lemma SameKinded(kinds: map<nat, Kind>, version: nat, log: Log)
    requires Kinded(kinds, version, log)
    ensures Trim(kinds, version) == kinds
  {
    KeysSize(kinds, Low(version), version + 1);
  }

  lemma FinishedSame(d: Dir, log: Log, stuck: set<nat>)
    requires Tracks(d, log)
    ensures Tracks(Finished(d, stuck), log)
    ensures Exact(d.versions, d.version) ==> Exact(Finished(d, stuck).versions, d.version)
  {
    hide Prune, Trim, Stored, Kinded, Exact;
    SameStored(d.versions, d.version, log, stuck);
    SameKinded(d.kinds, d.version, log);
  }

  lemma FinishedBump(d: Dir, log: Log, stuck: set<nat>)
    requires Tracks(d, log)
    ensures Tracks(Finished(Bumped(d), stuck), log + [(d.current, d.kind)])
    ensures Exact(d.versions, d.version) && stuck == {} ==> Exact(Finished(Bumped(d), stuck).versions, d.version + 1)
  {
    hide Prune, Trim, Stored, Kinded, Exact;
    BumpStored(d.versions, d.version, log, d.current, d.kind, stuck);
    BumpKinded(d.kinds, d.version, log, d.current, d.kind);
  }

  lemma UpdateTracks(c: Codec, d: Dir, disk: Disk, r: Request, g: Gate, stuck: set<nat>, log: Log)
    requires Tracks(d, log)
    ensures var e := Update(c, d, disk, r, g, stuck).0;
      Tracks(e, log + Logged(c, d, disk, r, g, stuck))
      && (Exact(d.versions, d.version) && stuck == {} ==> Exact(e.versions, e.version))
  {
    hide Prune, Trim, Stored, Kinded, Exact, NewLive, Settled, Demoted, Mirrored;
    var u := Update(c, d, disk, r, g, stuck);
    var live := NewLive(c, d, disk, r, g);
    assert log + [] == log;
    if u.2 == Done {
      if live == None {
        FinishedSame(WithKind(d, r), log, stuck);
      } else if r.snapshot {
        FinishedBump(WithLive(c, d, disk, r, g, live.value), log, stuck);
      } else {
        FinishedSame(WithLive(c, d, disk, r, g, live.value), log, stuck);
      }
    }
  }

  /** A snapshot without content makes what get() showed just before the live text, writes no linked file and
      adds a version that reads as that view with its newlines normalised. Right after it the artifact is clean,
      unless its link cannot be read or shows a carriage return. */
  lemma SnapshotCapturesTheView(c: Codec, d: Dir, disk: Disk, r: Request, g: Gate, stuck: set<nat>, log: Log)
    requires Tracks(d, log) && r.content == None && r.snapshot && r.eventOk
    ensures var u := Update(c, d, disk, r, g, stuck);
      var view := Get(c, d, disk, g);
      && u.2 == Done && u.1 == disk && u.0.version == d.version + 1 && u.0.current == view.content
      && GetVersion(u.0, u.0.version) == Some((AsRead(view.content), u.0.kind))
      && (AsRead(view.content) == view.content <==> '\r' !in view.content)
      && (Get(c, u.0, u.1, g).dirty <==> view.missing || '\r' in view.content)
  {
    hide Prune, Trim, Stored, Kinded, Settled;
    var u := Update(c, d, disk, r, g, stuck);
    var view := Get(c, d, disk, g);
    UpdateTracks(c, d, disk, r, g, stuck, log);
    LatestIsLogged(u.0, log + Logged(c, d, disk, r, g, stuck));
    ReadBackIff(view.content);
    ReadTwice(view.content);
    ReadTwice(d.current);
    NoReturnIsRead(d.current);
  }

  lemma LatestIsLogged(d: Dir, log: Log)
    requires Tracks(d, log)
    ensures |log| == d.version >= 1 && d.version in d.versions && d.version in d.kinds
    ensures d.versions[d.version] == AsRead(log[d.version - 1].0) && d.kinds[d.version] == log[d.version - 1].1
  {
    assert InWindow(d.version, d.version);
  }

  // ----- runs -----

  /** One step of an artifact's life: an update, or somebody else writing the linked files. */
  datatype Step = Call(r: Request, g: Gate, stuck: set<nat>) | Outside(disk: Disk)

  function Next(c: Codec, d: Dir, disk: Disk, s: Step): (Dir, Disk) {
    match s
    case Outside(other) => (d, other)
    case Call(r, g, stuck) => (Update(c, d, disk, r, g, stuck).0, Update(c, d, disk, r, g, stuck).1)
  }

  function NextLog(c: Codec, d: Dir, disk: Disk, s: Step): Log {
    match s
    case Outside(_) => []
    case Call(r, g, stuck) => Logged(c, d, disk, r, g, stuck)
  }

  function Run(c: Codec, d: Dir, disk: Disk, steps: seq<Step>): (Dir, Disk)
    decreases |steps|
  {
    if steps == [] then (d, disk)
    else var n := Next(c, d, disk, steps[0]); Run(c, n.0, n.1, steps[1..])
  }

  function RunLog(c: Codec, d: Dir, disk: Disk, steps: seq<Step>): Log
    decreases |steps|
  {
    if steps == [] then []
    else var n := Next(c, d, disk, steps[0]); NextLog(c, d, disk, steps[0]) + RunLog(c, n.0, n.1, steps[1..])
  }

  predicate Unlinks(steps: seq<Step>) {
    forall s :: s in steps && s.Call? ==> s.stuck == {}
  }

  /** The history is as captured, and exactly the window when every unlink succeeds. */
  ghost predicate Replays(d: Dir, log: Log, clean: bool) {
    Tracks(d, log) && (clean ==> Exact(d.versions, d.version))
  }

  lemma NextReplays(c: Codec, d: Dir, disk: Disk, s: Step, log: Log, clean: bool)
    requires Replays(d, log, clean) && (clean && s.Call? ==> s.stuck == {})
    ensures Replays(Next(c, d, disk, s).0, log + NextLog(c, d, disk, s), clean)
  {
    match s
    case Outside(_) => assert log + [] == log;
    case Call(r, g, stuck) => UpdateTracks(c, d, disk, r, g, stuck, log);
  }

  lemma UnlinksTail(steps: seq<Step>)
    requires steps != [] && Unlinks(steps)
    ensures (steps[0].Call? ==> steps[0].stuck == {}) && Unlinks(steps[1..])
  {
  }

  lemma {:induction false} RunReplays(c: Codec, d: Dir, disk: Disk, steps: seq<Step>, log: Log, clean: bool)
    requires Replays(d, log, clean) && (clean ==> Unlinks(steps))
    ensures Replays(Run(c, d, disk, steps).0, log + RunLog(c, d, disk, steps), clean)
    decreases |steps|
  {
    hide Next, NextLog, Replays;
    if steps == [] {
      assert log + [] == log;
    } else {
      var n := Next(c, d, disk, steps[0]);
      var more := NextLog(c, d, disk, steps[0]);
      if clean { UnlinksTail(steps); }
      NextReplays(c, d, disk, steps[0], log, clean);
      RunReplays(c, n.0, n.1, steps[1..], log + more, clean);
      assert log + more + RunLog(c, n.0, n.1, steps[1..]) == log + (more + RunLog(c, n.0, n.1, steps[1..]));
    }
  }

  function Replayed(entry: (string, Kind), current: Kind): (string, Kind) {
    (AsRead(entry.0), if entry.1 != "" then entry.1 else current)
  }

  /** Over any run from a create, with every unlink succeeding: the stored versions are exactly
      max(1, version - 49) .. version, and reading one gives the kind and the live text of its bump, the text
      with its newlines normalised. */
  lemma HistoryReplays(c: Codec, d: Dir, disk: Disk, steps: seq<Step>, v: int)
    requires Tracks(d, [(d.current, d.kind)]) && Exact(d.versions, d.version) && Unlinks(steps)
    ensures var e := Run(c, d, disk, steps).0;
      var log := [(d.current, d.kind)] + RunLog(c, d, disk, steps);
      && |log| == e.version
      && (GetVersion(e, v).Some? <==> (if e.version > 49 then e.version - 49 else 1) <= v <= e.version)
      && (GetVersion(e, v).Some? ==> 1 <= v <= |log| && GetVersion(e, v).value == Replayed(log[v - 1], e.kind))
      && (GetVersion(e, v).Some? ==> (GetVersion(e, v).value.0 == log[v - 1].0 <==> '\r' !in log[v - 1].0))
  {
    RunReplays(c, d, disk, steps, [(d.current, d.kind)], true);
    var e := Run(c, d, disk, steps).0;
    if v >= 1 {
      assert v in e.versions <==> InWindow(e.version, v);
      if v in e.versions {
        var log := [(d.current, d.kind)] + RunLog(c, d, disk, steps);
        ReadTwice(log[v - 1].0);
        ReadBackIff(log[v - 1].0);
      }
    }
  }

  /** Once an artifact owns its copy, no update links it again or writes a linked file. */
  lemma {:induction false} CopiesStayCopies(c: Codec, d: Dir, disk: Disk, steps: seq<Step>)
    requires !Linked(d) && forall s :: s in steps ==> s.Call?
    ensures !Linked(Run(c, d, disk, steps).0) && Run(c, d, disk, steps).1 == disk
    decreases |steps|
  {
    if steps != [] {
      assert steps[0] in steps && forall s :: s in steps[1..] ==> s in steps;
      var n := Next(c, d, disk, steps[0]);
      CopiesStayCopies(c, n.0, n.1, steps[1..]);
    }
  }

  // ----- a write stays readable -----

  /** get() answers `text` wherever the link serves it, and `text` as read back elsewhere. */
  ghost predicate Shows(c: Codec, d: Dir, disk: Disk, text: string) {
    AsRead(d.current) == AsRead(text) && (Linked(d) && d.source in disk ==> c.decode(Bounded(disk[d.source])) == text)
  }

  lemma ShowsIsRead(c: Codec, d: Dir, disk: Disk, text: string)
    ensures Shows(c, d, disk, text) <==> forall g :: Get(c, d, disk, g).content == Shown(text, Served(d, disk, g))
  {
    if forall g :: Get(c, d, disk, g).content == Shown(text, Served(d, disk, g)) {
      assert Get(c, d, disk, Gate(true, true)).content == Shown(text, Served(d, disk, Gate(true, true)));
      assert Get(c, d, disk, Gate(false, true)).content == Shown(text, Served(d, disk, Gate(false, true)));
    }
  }

  lemma WriteShows(c: Codec, d: Dir, disk: Disk, r: Request, g: Gate, stuck: set<nat>)
    requires Faithful(c) && r.content.Some? && Update(c, d, disk, r, g, stuck).2 == Done
    ensures var u := Update(c, d, disk, r, g, stuck);
      Shows(c, u.0, u.1, r.content.value) && (forall later :: Served(u.0, u.1, later) <==> Served(d, disk, later) && g.write)
  {
    var u := Update(c, d, disk, r, g, stuck);
    if Linked(u.0) && d.source in u.1 {
      assert Bounded(u.1[d.source]) == c.encode(r.content.value);
    }
  }

  /** Retyping and snapshots, returning or raising, leave what get() answers alone. */
  lemma QuietUpdateShows(c: Codec, d: Dir, disk: Disk, r: Request, g: Gate, stuck: set<nat>, text: string)
    requires Shows(c, d, disk, text) && r.content == None
    ensures var u := Update(c, d, disk, r, g, stuck);
      Shows(c, u.0, u.1, text) && u.1 == disk && u.0.source == d.source && u.0.copyOnly == d.copyOnly
  {
    hide Prune, Trim, Settled;
    ReadTwice(d.current);
  }

  /** After update(content=text) has returned, get() keeps answering as in ReadYourWrites after every further
      step, until the next update with content or the next edit from outside: `text` exactly when the link
      took and serves it or it holds no carriage return. */
  lemma {:induction false} WriteStaysReadable(c: Codec, d: Dir, disk: Disk, r: Request, g: Gate, stuck: set<nat>, steps: seq<Step>, later: Gate)
    requires Faithful(c) && r.content.Some? && Update(c, d, disk, r, g, stuck).2 == Done
    requires forall s :: s in steps ==> s.Call? && s.r.content == None
    ensures var u := Update(c, d, disk, r, g, stuck);
      var e := Run(c, u.0, u.1, steps);
      && Get(c, e.0, e.1, later).content == Shown(r.content.value, Served(d, disk, later) && g.write)
      && (Get(c, e.0, e.1, later).content == r.content.value
          <==> (Served(d, disk, later) && g.write) || '\r' !in r.content.value)
  {
    hide Update, Get, Shows, Run;
    var u := Update(c, d, disk, r, g, stuck);
    WriteShows(c, d, disk, r, g, stuck);
    QuietRunShows(c, u.0, u.1, steps, r.content.value);
    var e := Run(c, u.0, u.1, steps);
    ShowsIsRead(c, e.0, e.1, r.content.value);
    ShownIff(r.content.value, Served(d, disk, later) && g.write);
    assert Served(u.0, u.1, later) == Served(e.0, e.1, later);
  }

  lemma {:induction false} QuietRunShows(c: Codec, d: Dir, disk: Disk, steps: seq<Step>, text: string)
    requires Shows(c, d, disk, text) && forall s :: s in steps ==> s.Call? && s.r.content == None
    ensures var e := Run(c, d, disk, steps);
      Shows(c, e.0, e.1, text) && e.1 == disk && e.0.source == d.source && e.0.copyOnly == d.copyOnly
    decreases |steps|
  {
    if steps != [] {
      hide Shows, Update;
      var s := steps[0];
      assert s in steps && forall t :: t in steps[1..] ==> t in steps;
      QuietUpdateShows(c, d, disk, s.r, s.g, s.stuck, text);
      var n := Next(c, d, disk, s);
      QuietRunShows(c, n.0, n.1, steps[1..], text);
    }
  }
}
