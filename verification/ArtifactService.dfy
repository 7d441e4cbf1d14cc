/** The artifact store as the program runs it: files rewritten one after the other, the metadata last. */
module ArtifactService {
  import opened Options
  import opened ArtifactText
  import opened ArtifactHistory
  import opened ArtifactEffects

  type Slug = string

  lemma {:induction false} MinExists(s: set<nat>) returns (m: nat)
    requires s != {}
    ensures m in s && forall u :: u in s ==> m <= u
  {
    var x :| x in s;
    if s == {x} {
      m := x;
    } else {
      var y := MinExists(s - {x});
      m := if x <= y then x else y;
      forall u | u in s ensures m <= u { assert u == x || u in s - {x}; }
    }
  }

  /** What is left once at most 50 files are, the lower ones gone, is the window. */
  lemma LeftIsPruned(files: map<nat, string>, left: set<nat>, stuck: set<nat>)
    requires left <= files.Keys && |left| <= MAX_VERSIONS
    requires forall u, v :: u in files && u !in left && v in left ==> u < v
    requires forall u :: u in files && u !in left ==> |Newer(files, u)| >= MAX_VERSIONS
    ensures (map v | v in files && (v in left || v in stuck) :: files[v]) == Prune(files, stuck)
  {
    forall v | v in left ensures |Newer(files, v)| < MAX_VERSIONS {
      SubsetSize(Newer(files, v), left - {v});
    }
  }

  /** get() right after a create: the linked file if it can be read, else the content as read back; clean only
      if that is also the first version. */
  ghost predicate FirstShown(c: Codec, d: Dir, disk: Disk, g: Gate, content: string) {
    var v := Get(c, d, disk, g);
    && v.kind == d.kind
    && (v.missing <==> Linked(d) && !Served(d, disk, g))
    && v.content == (if Served(d, disk, g) then c.decode(Bounded(disk[d.source])) else AsRead(content))
    && (v.dirty <==> v.missing || v.content != AsRead(content))
  }

  lemma CreatedShows(c: Codec, d: Dir, disk: Disk, content: string)
    requires d.current == content && d.version == 1 && d.versions == map[1 := AsRead(content)]
    ensures forall g :: FirstShown(c, d, disk, g, content)
  {
    ReadTwice(content);
  }

  class ArtifactStore {
    const codec: Codec
    var dirs: map<Slug, Dir>
    var disk: Disk

    constructor (codec: Codec)
      ensures this.codec == codec && dirs == map[] && disk == map[]
    {
      this.codec := codec;
      dirs := map[];
      disk := map[];
    }

    /** A new artifact under a free slug; no other one is touched. Its kind is the caller's, else markdown to be
        settled later when it starts blank and unlinked, else the inferred one. Its one version is the content
        given; get() answers that, or what its link shows. */
    method Create(slug: Slug, content: string, kind: Option<Kind>, inferred: Kind, blank: bool, source: Path, copyOnly: bool)
        returns (ok: bool)
      modifies this`dirs
      ensures ok <==> |codec.encode(content)| <= MAX_CONTENT_BYTES && slug !in old(dirs)
      ensures !ok ==> dirs == old(dirs)
      ensures ok ==> slug in dirs && dirs - {slug} == old(dirs) && dirs[slug].source == source && dirs[slug].copyOnly == copyOnly
      ensures ok ==> (dirs[slug].kindAuto <==> kind == None && source == "" && blank)
      ensures ok ==> dirs[slug].kind == if dirs[slug].kindAuto then "markdown" else if kind.Some? then kind.value else inferred
      ensures ok ==> Tracks(dirs[slug], [(content, dirs[slug].kind)]) && Exact(dirs[slug].versions, 1)
      ensures ok ==> forall v :: GetVersion(dirs[slug], v) == if v == 1 then Some((AsRead(content), dirs[slug].kind)) else None
      ensures ok ==> forall g :: FirstShown(codec, dirs[slug], disk, g, content)
    {
      if |codec.encode(content)| > MAX_CONTENT_BYTES || slug in dirs {
        return false;
      }
      var auto := kind == None && source == "" && blank;
      var k := if auto then "markdown" else if kind.Some? then kind.value else inferred;
      var d := Dir(content, map[1 := AsRead(content)], 1, k, auto, map[1 := k], source, copyOnly);
      CreateTracks(content, kind, inferred, blank, source, copyOnly);
      CreatedShows(codec, d, disk, content);
      ReadTwice(content);
      dirs := dirs[slug := d];
      return true;
    }

    method TryReadSource(path: Path, allowed: bool) returns (r: Option<string>)
      ensures r == ReadSource(codec, disk, path, allowed)
    {
      if path !in disk || !allowed {
        return None;
      }
      return Some(codec.decode(Bounded(disk[path])));
    }

    /** Writes the whole file or changes nothing. Content within the limit is then what the link reads back. */
    method TryWriteSource(path: Path, content: string, allowed: bool) returns (ok: bool)
      modifies this`disk
      ensures ok == (path in old(disk) && allowed)
      ensures disk == if ok then old(disk)[path := codec.encode(content)] else old(disk)
      ensures disk.Keys == old(disk).Keys && forall p :: p in disk && (p != path || !ok) ==> disk[p] == old(disk)[p]
      ensures ok && Faithful(codec) && |codec.encode(content)| <= MAX_CONTENT_BYTES ==>
        ReadSource(codec, disk, path, true) == Some(content)
    {
      ok := path in disk && allowed;
      if ok {
        disk := disk[path := codec.encode(content)];
      }
    }

    method GetCurrent(slug: Slug, g: Gate) returns (r: Option<View>)
      ensures r == if slug in dirs then Some(Get(codec, dirs[slug], disk, g)) else None
    {
      if slug !in dirs {
        return None;
      }
      var d := dirs[slug];
      var content, missing := AsRead(d.current), false;
      if Linked(d) {
        var live := TryReadSource(d.source, g.read);
        if live.Some? {
          content := live.value;
        } else {
          missing := true;
        }
      }
      var dirty := d.version in d.versions && content != AsRead(d.versions[d.version]);
      if missing {
        dirty := true;
      }
      return Some(View(content, d.kind, missing, dirty));
    }

    /** Deletes the lowest-numbered files until 50 are left; some refuse to go. */
    method PruneVersions(slug: Slug, stuck: set<nat>)
      requires slug in dirs
      modifies this`dirs
      ensures dirs == old(dirs)[slug := old(dirs)[slug].(versions := Prune(old(dirs)[slug].versions, stuck))]
    {
      ghost var dir := dirs[slug];
      var files := dirs[slug].versions;
      var kept, left := files, files.Keys;
      while |left| > MAX_VERSIONS
        invariant dirs == old(dirs) && left <= files.Keys
        invariant |left| >= MAX_VERSIONS || left == files.Keys
        invariant forall u, v :: u in files && u !in left && v in left ==> u < v
        invariant kept == map v | v in files && (v in left || v in stuck) :: files[v]
        invariant forall u :: u in files && u !in left ==> |Newer(files, u)| >= MAX_VERSIONS
        decreases left
      {
        ghost var m := MinExists(left);
        var lowest :| lowest in left && forall u :: u in left ==> lowest <= u;
        left := left - {lowest};
        assert |Newer(files, lowest)| >= MAX_VERSIONS by { SubsetSize(left, Newer(files, lowest)); }
        if lowest !in stuck {
          kept := kept - {lowest};
        }
      }
      LeftIsPruned(files, left, stuck);
      dirs := dirs[slug := dirs[slug].(versions := kept)];
    }

    /** The content this call makes live: the caller's, or what a snapshot reads. */
    method ReadLive(d: Dir, r: Request, g: Gate) returns (live: Option<string>)
      ensures live == NewLive(codec, d, disk, r, g)
    {
      live := r.content;
      if r.snapshot && live == None {
        if Linked(d) {
          live := TryReadSource(d.source, g.read);
        }
        if live == None {
          live := Some(AsRead(d.current));
        }
      }
    }

    /** Mirrors new content to the linked file; tells whether the artifact must keep its own copy from now on. */
    method MirrorLive(d: Dir, r: Request, g: Gate) returns (copyOnly: bool)
      modifies this`disk
      ensures disk == Mirrored(codec, d, old(disk), r, g) && copyOnly == Demoted(d, old(disk), r, g)
    {
      copyOnly := d.copyOnly;
      if Linked(d) && r.content.Some? {
        var mirrored := TryWriteSource(d.source, r.content.value, g.write);
        if !mirrored {
          copyOnly := true;
        }
      }
    }

    /** Writes the live text to current.html and to the linked file; the returned metadata is not stored yet. */
    method WriteLive(slug: Slug, r: Request, g: Gate, live: string) returns (art: Dir)
      requires slug in dirs && (r.content.Some? ==> live == r.content.value)
      modifies this`dirs, this`disk
      ensures dirs == old(dirs)[slug := old(dirs)[slug].(current := live)]
      ensures disk == Mirrored(codec, old(dirs)[slug], old(disk), r, g)
      ensures art == WithLive(codec, old(dirs)[slug], old(disk), r, g, live)
    {
      hide Mirrored, Demoted;
      art := dirs[slug];
      if r.kind.Some? {
        art := art.(kind := r.kind.value, kindAuto := false);
      }
      if art.kindAuto {
        var detected := codec.detect(live);
        if detected.Some? && detected.value != art.kind {
          art := art.(kind := detected.value);
        }
      }
      var stored := dirs[slug];
      dirs := dirs[slug := stored.(current := live)];
      var copyOnly := MirrorLive(stored, r, g);
      art := art.(current := live, copyOnly := copyOnly);
    }

    /** Takes the numbered snapshot, stores the metadata and prunes. */
    method Commit(slug: Slug, art: Dir, snapshot: bool, stuck: set<nat>)
      requires slug in dirs && dirs[slug].current == art.current && dirs[slug].versions == art.versions
      modifies this`dirs
      ensures dirs == old(dirs)[slug := Finished(if snapshot then Bumped(art) else art, stuck)]
    {
      hide Trim, Prune;
      var meta := art;
      if snapshot {
        var n := art.version + 1;
        dirs := dirs[slug := dirs[slug].(versions := dirs[slug].versions[n := AsRead(dirs[slug].current)])];
        meta := Bumped(art);
      }
      WriteMeta(slug, meta.(kinds := Trim(meta.kinds, meta.version)));
      PruneVersions(slug, stuck);
    }

    /** update(): current.html is written first, then the linked file, then the snapshot, and the metadata
        only at the end. */
    method UpdateArtifact(slug: Slug, r: Request, g: Gate, stuck: set<nat>) returns (outcome: Option<Outcome>)
      modifies this`dirs, this`disk
      ensures slug !in old(dirs) ==> outcome == None && dirs == old(dirs) && disk == old(disk)
      ensures slug in old(dirs) ==>
        var u := Update(codec, old(dirs)[slug], old(disk), r, g, stuck);
        dirs == old(dirs)[slug := u.0] && disk == u.1 && outcome == Some(u.2)
      ensures slug in old(dirs) ==>
        && (outcome == Some(Done) <==> !Raises(codec, r))
        && dirs[slug].version == old(dirs)[slug].version + (if r.snapshot && outcome == Some(Done) then 1 else 0)
    {
      if slug in dirs {
        RaisesIff(codec, dirs[slug], disk, r, g, stuck);
        VersionIff(codec, dirs[slug], disk, r, g, stuck);
      }
      hide Finished, Bumped, Mirrored, Demoted, Settled;
      if slug !in dirs {
        return None;
      }
      var stored := dirs[slug];
      if r.content.Some? && |codec.encode(r.content.value)| > MAX_CONTENT_BYTES {
        assert dirs == old(dirs)[slug := stored];
        return Some(Invalid);
      }
      var live := ReadLive(stored, r, g);
      if live.Some? {
        var art := WriteLive(slug, r, g, live.value);
        if r.snapshot && !r.eventOk {
          return Some(Invalid);
        }
        Commit(slug, art, r.snapshot, stuck);
      } else {
        Commit(slug, WithKind(stored, r), false, stuck);
      }
      return Some(Done);
    }

    method WriteMeta(slug: Slug, art: Dir)
      requires slug in dirs
      modifies this`dirs
      ensures dirs == old(dirs)[slug := art.(current := old(dirs)[slug].current, versions := old(dirs)[slug].versions)]
    {
      var d := dirs[slug];
      dirs := dirs[slug := art.(current := d.current, versions := d.versions)];
    }
  }
}
