/** What an update does to each part of an artifact, and which updates take a version. */
module ArtifactEffects {
  import opened Options
  import opened ArtifactText
  import opened ArtifactHistory

  /** Content beyond 25 MiB is refused before anything is written; a snapshot with an unknown event type is refused
      after the live text is. */
  predicate TooLarge(c: Codec, r: Request) {
    r.content.Some? && |c.encode(r.content.value)| > 26214400
  }

  predicate Raises(c: Codec, r: Request) {
    TooLarge(c, r) || (r.snapshot && !r.eventOk)
  }

  lemma RaisesIff(c: Codec, d: Dir, disk: Disk, r: Request, g: Gate, stuck: set<nat>)
    ensures var u := Update(c, d, disk, r, g, stuck);
      && (u.2 == Invalid <==> Raises(c, r))
      && (u.2 == Invalid ==> u.0 == d.(current := u.0.current))
      && (TooLarge(c, r) ==> u.0 == d && u.1 == disk)
  {
  }

  /** A returned update takes a version exactly when a snapshot is asked for, and only the next one. */
  lemma VersionIff(c: Codec, d: Dir, disk: Disk, r: Request, g: Gate, stuck: set<nat>)
    ensures var u := Update(c, d, disk, r, g, stuck);
      u.0.version == if r.snapshot && !Raises(c, r) then d.version + 1 else d.version
  {
  }

  /** Without a snapshot every retained version keeps its text and its kind. */
  lemma SilentKeepsVersions(c: Codec, d: Dir, disk: Disk, r: Request, g: Gate, stuck: set<nat>, log: Log)
    requires Tracks(d, log) && !r.snapshot
    ensures var e := Update(c, d, disk, r, g, stuck).0;
      forall v: nat :: (if d.version > 49 then d.version - 49 else 1) <= v <= d.version ==>
        && v in d.versions && v in e.versions && e.versions[v] == d.versions[v]
        && v in d.kinds && v in e.kinds && e.kinds[v] == d.kinds[v]
  {
    hide Prune, Trim, NewLive, Settled, Demoted, Mirrored;
    UpdateTracks(c, d, disk, r, g, stuck, log);
    VersionIff(c, d, disk, r, g, stuck);
    var e := Update(c, d, disk, r, g, stuck).0;
    assert log + [] == log;
    assert Tracks(e, log);
    forall v: nat | (if d.version > 49 then d.version - 49 else 1) <= v <= d.version
      ensures v in d.versions && v in e.versions && e.versions[v] == d.versions[v]
      ensures v in d.kinds && v in e.kinds && e.kinds[v] == d.kinds[v]
    {
      assert InWindow(d.version, v);
    }
  }

  /** With one, the versions that stay in the window keep theirs, and the new one reads as the live text, with the kind
      the artifact now has. */
  lemma SnapshotAddsVersion(c: Codec, d: Dir, disk: Disk, r: Request, g: Gate, stuck: set<nat>, log: Log)
    requires Tracks(d, log) && r.snapshot && !Raises(c, r)
    ensures var e := Update(c, d, disk, r, g, stuck).0;
      && (forall v: nat :: (if e.version > 49 then e.version - 49 else 1) <= v <= d.version ==>
            && v in d.versions && v in e.versions && e.versions[v] == d.versions[v]
            && v in d.kinds && v in e.kinds && e.kinds[v] == d.kinds[v])
      && e.version in e.versions && e.versions[e.version] == AsRead(e.current)
      && e.version in e.kinds && e.kinds[e.version] == e.kind
  {
    hide Prune, Trim, NewLive, Settled, Demoted, Mirrored;
    UpdateTracks(c, d, disk, r, g, stuck, log);
    VersionIff(c, d, disk, r, g, stuck);
    var e := Update(c, d, disk, r, g, stuck).0;
    var log' := log + [(e.current, e.kind)];
    assert Tracks(e, log');
    LatestIsLogged(e, log');
    forall v: nat | (if e.version > 49 then e.version - 49 else 1) <= v <= d.version
      ensures v in d.versions && v in e.versions && e.versions[v] == d.versions[v]
      ensures v in d.kinds && v in e.kinds && e.kinds[v] == d.kinds[v]
    {
      assert InWindow(e.version, v) && InWindow(d.version, v);
      assert log'[v - 1] == log[v - 1];
    }
  }

  /** The live text: the content given; for a snapshot without content what get() shows; otherwise as it was. */
  lemma LiveTextIs(c: Codec, d: Dir, disk: Disk, r: Request, g: Gate, stuck: set<nat>)
    ensures var e := Update(c, d, disk, r, g, stuck).0;
      e.current == if TooLarge(c, r) then d.current else if r.content.Some? then r.content.value
                   else if r.snapshot then Get(c, d, disk, g).content else d.current
  {
  }

  /** The kind, where the update returns: the one given, which settles it; else, while it is not settled and there is new
      live text, the one recognised in that text; else as it was. */
  lemma KindIs(c: Codec, d: Dir, disk: Disk, r: Request, g: Gate, stuck: set<nat>)
    requires !Raises(c, r)
    ensures var e := Update(c, d, disk, r, g, stuck).0;
      && (e.kindAuto <==> d.kindAuto && r.kind.None?)
      && (r.kind.Some? ==> e.kind == r.kind.value)
      && (r.kind.None? && d.kindAuto && (r.content.Some? || r.snapshot) && c.detect(e.current).Some? ==> e.kind == c.detect(e.current).value)
      && (r.kind.None? && !(d.kindAuto && (r.content.Some? || r.snapshot) && c.detect(e.current).Some?) ==> e.kind == d.kind)
      && e.source == d.source
  {
  }

  /** The linked file takes content given to a linked artifact whose file is there and writable; a returned update whose
      content it does not take leaves the artifact with its own copy. */
  lemma MirrorIs(c: Codec, d: Dir, disk: Disk, r: Request, g: Gate, stuck: set<nat>)
    ensures var u := Update(c, d, disk, r, g, stuck);
      var given := r.content.Some? && !TooLarge(c, r) && d.source != "" && !d.copyOnly;
      && u.1 == (if given && d.source in disk && g.write then disk[d.source := c.encode(r.content.value)] else disk)
      && (!Raises(c, r) ==> (u.0.copyOnly <==> d.copyOnly || (given && !(d.source in disk && g.write))))
  {
  }

  /** What get() answers, and when it calls the artifact clean. */
  lemma GetIs(c: Codec, d: Dir, disk: Disk, g: Gate)
    ensures var v := Get(c, d, disk, g);
      var linked := d.source != "" && !d.copyOnly;
      var readable := d.source in disk && g.read;
      && (linked && readable ==>
        v.content == c.decode(if |disk[d.source]| > 26214400 then disk[d.source][..26214400] else disk[d.source]))
      && (!(linked && readable) ==> v.content == AsRead(d.current))
      && (v.missing <==> linked && !readable) && v.kind == d.kind
      && (v.dirty <==> v.missing || (d.version in d.versions && v.content != AsRead(d.versions[d.version])))
  {
  }

  // ----- over runs -----

  /** The call takes a version, wherever in the run it comes. */
  predicate Takes(c: Codec, s: Step) {
    s.Call? && s.r.snapshot && !Raises(c, s.r)
  }

  function Snapshots(c: Codec, steps: seq<Step>): nat {
    if steps == [] then 0 else (if Takes(c, steps[0]) then 1 else 0) + Snapshots(c, steps[1..])
  }

  /** Over any run, outside edits included, the version rises by the number of returned snapshot calls, and the history
      has one entry for each. */
  lemma {:induction false} VersionsCountSnapshots(c: Codec, d: Dir, disk: Disk, steps: seq<Step>)
    ensures Run(c, d, disk, steps).0.version == d.version + Snapshots(c, steps)
    ensures |RunLog(c, d, disk, steps)| == Snapshots(c, steps)
    decreases |steps|
  {
    if steps != [] {
      hide Update, Raises;
      var s := steps[0];
      if s.Call? { VersionIff(c, d, disk, s.r, s.g, s.stuck); }
      var n := Next(c, d, disk, s);
      VersionsCountSnapshots(c, n.0, n.1, steps[1..]);
    }
  }
}
