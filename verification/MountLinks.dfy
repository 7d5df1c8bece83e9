/**
 What a virtual machine's commands do to its file system. All directories are made before
 the first link, so a link whose own place has become a directory lands inside it.
*/
module MountLinks {
  import opened Paths
  import opened Volumes

  /** Where commands run, the directories, and the symbolic links with their targets. */
  datatype FileSystem = FileSystem(cwd: Place, dirs: set<Place>, links: map<Place, string>) {
    /** The directory in which commands run is there, and so is everything above a directory. */
    ghost predicate Valid() {
      cwd in dirs && Closed(dirs)
    }
  }

  /** `mkdir -p`; it gives up where a link is in the way. */
  function MakeDirs(fs: FileSystem, path: string): FileSystem {
    var way := Way(Start(fs.cwd, path), Split(path));
    if way * fs.links.Keys != {} then fs else fs.(dirs := fs.dirs + way)
  }

  /**
   `ln -s`: inside what the path leads to if that is a directory, and otherwise at the path,
   provided that it ends in a name, the way there is through directories and the place is
   free. A link that is already there is neither replaced nor moved.
  */
  function MakeLink(fs: FileSystem, target: string, path: string): FileSystem {
    var at := Start(fs.cwd, path);
    var place := Follow(at, Split(path));
    if Way(at, Split(path)) <= fs.dirs then
      var inside := place + [Last(target)];
      if inside in fs.dirs || inside in fs.links then fs else fs.(links := fs.links[inside := target])
    else if IsName(Last(path)) && Way(at, Front(path)) <= fs.dirs && place !in fs.links then
      fs.(links := fs.links[place := target])
    else fs
  }

  function Execute(fs: FileSystem, cmd: Command): FileSystem {
    match cmd
    case Mkdir(d) => MakeDirs(fs, d)
    case Link(t, p) => MakeLink(fs, t, p)
  }

  function ExecuteAll(fs: FileSystem, cmds: seq<Command>): FileSystem
    decreases |cmds|
  {
    if cmds == [] then fs else Execute(ExecuteAll(fs, cmds[..|cmds| - 1]), cmds[|cmds| - 1])
  }

  lemma {:induction false} ExecuteAppend(fs: FileSystem, a: seq<Command>, b: seq<Command>)
    ensures ExecuteAll(fs, a + b) == ExecuteAll(ExecuteAll(fs, a), b)
    decreases |b|
  {
    hide Execute;
    if b == [] {
      assert a + b == a;
    } else {
      assert (a + b)[..|a + b| - 1] == a + b[..|b| - 1];
      ExecuteAppend(fs, a, b[..|b| - 1]);
    }
  }

  // ---------------------------------------------------------------- the directories

  ghost predicate AllMkdirs(cmds: seq<Command>) {
    forall c | c in cmds :: c.Mkdir?
  }

  /** The directories that a command makes. */
  function Made(cwd: Place, c: Command): set<Place>
    requires c.Mkdir?
  {
    Way(Start(cwd, c.dir), Split(c.dir))
  }

  /** Made in any order, the directories are those that were there and all that were asked for. */
  lemma {:induction false} DirsAfter(fs: FileSystem, cmds: seq<Command>)
    requires AllMkdirs(cmds) && fs.links == map[]
    ensures var after := ExecuteAll(fs, cmds);
      && after.links == map[] && after.cwd == fs.cwd
      && forall p :: p in after.dirs <==> p in fs.dirs || exists c :: c in cmds && p in Made(fs.cwd, c)
    decreases |cmds|
  {
    hide Way, Split;
    if cmds != [] {
      var front := cmds[..|cmds| - 1];
      var last := cmds[|cmds| - 1];
      assert cmds == front + [last] && last in cmds;
      DirsAfter(fs, front);
      var (before, after) := (ExecuteAll(fs, front), ExecuteAll(fs, cmds));
      assert Made(fs.cwd, last) * {} == {};
      assert after.dirs == before.dirs + Made(fs.cwd, last);
      forall p ensures p in after.dirs <==> p in fs.dirs || exists c :: c in cmds && p in Made(fs.cwd, c) {
        if c :| c in cmds && p in Made(fs.cwd, c) {
          assert c in front || c == last;
        }
      }
    }
  }

  // ---------------------------------------------------------------- the links

  ghost predicate AllLinks(cmds: seq<Command>) {
    forall c | c in cmds :: c.Link?
  }

  /** A path without slashes and dots at its end. */
  function Trim(cs: seq<string>): seq<string> {
    if cs != [] && (cs[|cs| - 1] == "" || cs[|cs| - 1] == ".") then Trim(cs[..|cs| - 1]) else cs
  }

  /** The place that the path of a link stands for. */
  function PlaceOf(fs: FileSystem, c: Command): Place
    requires c.Link?
  {
    Follow(Start(fs.cwd, c.path), Split(c.path))
  }

  /** Whoever takes the path comes through directories and finds the link at its end. */
  ghost predicate Placed(fs: FileSystem, c: Command)
    requires c.Link?
  {
    var (at, cs) := (Start(fs.cwd, c.path), Trim(Split(c.path)));
    && cs != [] && Way(at, cs[..|cs| - 1]) <= fs.dirs
    && Follow(at, cs) in fs.links && fs.links[Follow(at, cs)] == c.target
  }

  lemma {:induction false} TrimLeadsThere(at: Place, cs: seq<string>)
    ensures Follow(at, Trim(cs)) == Follow(at, cs)
    decreases |cs|
  {
    if cs != [] && (cs[|cs| - 1] == "" || cs[|cs| - 1] == ".") {
      TrimLeadsThere(at, cs[..|cs| - 1]);
    }
  }

  /** What a link needs: a name at the end, directories on the way, and no directory at its place. */
  ghost predicate Open(fs: FileSystem, c: Command)
    requires c.Link?
  {
    && IsName(Last(c.path)) && Way(Start(fs.cwd, c.path), Front(c.path)) <= fs.dirs
    && PlaceOf(fs, c) !in fs.dirs
  }

  /** Links at the same place have the same target. */
  ghost predicate Agree(fs: FileSystem, links: seq<Command>)
    requires AllLinks(links)
  {
    forall c, d | c in links && d in links && PlaceOf(fs, c) == PlaceOf(fs, d) :: c.target == d.target
  }

  lemma WayEnds(at: Place, cs: seq<string>)
    ensures Follow(at, cs) in Way(at, cs)
  {
  }

  /** Links are never where directories are, and directories stay. */
  lemma {:induction false} LinksAvoidDirs(fs: FileSystem, links: seq<Command>)
    requires AllLinks(links) && fs.links == map[]
    ensures var after := ExecuteAll(fs, links);
      after.dirs == fs.dirs && after.cwd == fs.cwd && after.links.Keys !! after.dirs
    decreases |links|
  {
    hide Split, Follow;
    if links != [] {
      var last := links[|links| - 1];
      assert last in links;
      LinksAvoidDirs(fs, links[..|links| - 1]);
      OpensUp(fs, last.path);
    }
  }

  /** A path whose end is a directory is one through directories, if what comes before its end is. */
  lemma OpensUp(fs: FileSystem, path: string)
    ensures var at := Start(fs.cwd, path);
      Way(at, Split(path)) == Way(at, Front(path)) + {Follow(at, Split(path))}
  {
  }

  /** What one more link does when it is open. */
  lemma OpenLink(fs: FileSystem, c: Command)
    requires c.Link? && Open(fs, c)
    ensures var place := PlaceOf(fs, c);
      Execute(fs, c) == if place in fs.links then fs else fs.(links := fs.links[place := c.target])
  {
    hide Split, Follow;
    WayEnds(Start(fs.cwd, c.path), Split(c.path));
  }

  lemma {:induction false} OpenLinksArePlaced(fs: FileSystem, links: seq<Command>)
    requires AllLinks(links) && fs.links == map[] && Agree(fs, links) && forall c | c in links :: Open(fs, c)
    ensures var after := ExecuteAll(fs, links);
      && after.dirs == fs.dirs && after.cwd == fs.cwd
      && (forall c | c in links :: PlaceOf(fs, c) in after.links && after.links[PlaceOf(fs, c)] == c.target)
      && (forall p | p in after.links :: exists c :: c in links && PlaceOf(fs, c) == p)
    decreases |links|
  {
    hide Open, Execute, PlaceOf;
    if links != [] {
      var front := links[..|links| - 1];
      var last := links[|links| - 1];
      assert links == front + [last] && last in links;
      OpenLinksArePlaced(fs, front);
      var before := ExecuteAll(fs, front);
      StillOpen(fs, before, last);
      OpenLink(before, last);
      forall p | p in ExecuteAll(fs, links).links ensures exists c :: c in links && PlaceOf(fs, c) == p {
        if p in before.links {
          var c :| c in front && PlaceOf(fs, c) == p;
          assert c in links;
        }
      }
    }
  }

  lemma StillOpen(fs: FileSystem, fs': FileSystem, c: Command)
    requires c.Link? && fs'.dirs == fs.dirs && fs'.cwd == fs.cwd
    ensures PlaceOf(fs', c) == PlaceOf(fs, c) && (Open(fs, c) <==> Open(fs', c))
  {
  }

  /** Where the way is open, being placed is being at one's place. */
  lemma OpenIsPlaced(fs: FileSystem, c: Command)
    requires c.Link? && Open(fs, c) && PlaceOf(fs, c) in fs.links && fs.links[PlaceOf(fs, c)] == c.target
    ensures Placed(fs, c)
  {
  }

  /** A link that is placed had its way open, if its directory was made. */
  lemma PlacedWasOpen(fs: FileSystem, c: Command)
    requires c.Link? && Placed(fs, c) && Closed(fs.dirs) && fs.links.Keys !! fs.dirs
    requires Holder(fs.cwd, c.path) in fs.dirs
    ensures Open(fs, c) && PlaceOf(fs, c) in fs.links && fs.links[PlaceOf(fs, c)] == c.target
  {
    TrimLeadsThere(Start(fs.cwd, c.path), Split(c.path));
    ParentIsThere(fs.dirs, Holder(fs.cwd, c.path));
  }

  /** With all directories made, the links are placed exactly when their ways are open and they agree. */
  lemma PlacedIff(fs: FileSystem, links: seq<Command>)
    requires AllLinks(links) && fs.links == map[] && Closed(fs.dirs)
    requires forall c | c in links :: Holder(fs.cwd, c.path) in fs.dirs
    ensures (forall c | c in links :: Placed(ExecuteAll(fs, links), c)) <==>
      (forall c | c in links :: Open(fs, c)) && Agree(fs, links)
  {
    hide Open, Placed, PlaceOf, Holder;
    var after := ExecuteAll(fs, links);
    LinksAvoidDirs(fs, links);
    forall c | c in links {
      StillOpen(fs, after, c);
    }
    if (forall c | c in links :: Open(fs, c)) && Agree(fs, links) {
      OpenLinksArePlaced(fs, links);
      forall c | c in links ensures Placed(after, c) {
        OpenIsPlaced(after, c);
      }
    }
    if forall c | c in links :: Placed(after, c) {
      forall c | c in links
        ensures Open(fs, c) && PlaceOf(fs, c) in after.links && after.links[PlaceOf(fs, c)] == c.target
      {
        PlacedWasOpen(after, c);
      }
    }
  }

  // ---------------------------------------------------------------- both together

  /** The commands of a machine: the directories of the links, in any order. */
  ghost predicate MakesFor(makes: seq<Command>, links: seq<Command>) {
    && AllMkdirs(makes) && AllLinks(links)
    && forall d :: Mkdir(d) in makes <==> exists l :: l in links && Dir(l.path) == d
  }

  /** Properly above the place of some link. */
  ghost predicate Above(fs: FileSystem, links: seq<Command>, p: Place)
    requires AllLinks(links)
  {
    exists d :: d in links && p < PlaceOf(fs, d)
  }

  /**
   What a caller can check beforehand: every mount path ends in a name; its place is neither a
   directory nor above that of another; its way, which `..` can lead astray, is through
   directories that are there or above the place of some mount path; and different things
   are mounted at different places.
  */
  ghost predicate Clear(fs: FileSystem, links: seq<Command>)
    requires AllLinks(links)
  {
    && (forall c | c in links :: IsName(Last(c.path)))
    && (forall c | c in links :: PlaceOf(fs, c) !in fs.dirs && !Above(fs, links, PlaceOf(fs, c)))
    && (forall c, p | c in links && p in Way(Start(fs.cwd, c.path), Front(c.path)) ::
          p in fs.dirs || Above(fs, links, p))
    && Agree(fs, links)
  }

  lemma DirsForLinks(fs: FileSystem, makes: seq<Command>, links: seq<Command>)
    requires fs.Valid() && fs.links == map[] && MakesFor(makes, links)
    ensures var made := ExecuteAll(fs, makes);
      && made.links == map[] && made.cwd == fs.cwd
      && forall p :: p in made.dirs <==> p in fs.dirs || exists l :: l in links && p <= Holder(fs.cwd, l.path)
  {
    hide Holder, Dir, Made;
    var made := ExecuteAll(fs, makes);
    DirsAfter(fs, makes);
    forall p ensures p in made.dirs <==> p in fs.dirs || exists l :: l in links && p <= Holder(fs.cwd, l.path) {
      if c :| c in makes && p in Made(fs.cwd, c) {
        assert c == Mkdir(c.dir);
        var l :| l in links && Dir(l.path) == c.dir;
        MakesHolder(fs, l, p);
      }
      if l :| l in links && p <= Holder(fs.cwd, l.path) {
        assert Mkdir(Dir(l.path)) in makes;
        MakesHolder(fs, l, p);
      }
    }
  }

  lemma MakesHolder(fs: FileSystem, l: Command, p: Place)
    requires fs.Valid() && l.Link?
    ensures p in fs.dirs || p in Made(fs.cwd, Mkdir(Dir(l.path))) <==> p in fs.dirs || p <= Holder(fs.cwd, l.path)
  {
    hide Way, Dir, Split, Holder, Prefixes;
    DirMakesHolder(fs.dirs, fs.cwd, l.path);
    IsPrefix(p, Holder(fs.cwd, l.path));
    assert p in fs.dirs + Made(fs.cwd, Mkdir(Dir(l.path))) <==> p in fs.dirs + Prefixes(Holder(fs.cwd, l.path));
  }

  lemma ClosedByPrefix(dirs: set<Place>)
    requires forall p, q | q in dirs && p <= q :: p in dirs
    ensures Closed(dirs)
  {
  }

  /** A place with a name at its end is right below its holder. */
  lemma BelowHolder(fs: FileSystem, c: Command, p: Place)
    requires c.Link? && IsName(Last(c.path))
    ensures p <= Holder(fs.cwd, c.path) <==> p < PlaceOf(fs, c)
  {
    var (h, q) := (Holder(fs.cwd, c.path), PlaceOf(fs, c));
    assert q == h + [Last(c.path)];
    if p < q {
      assert p == q[..|p|] == h[..|p|];
    }
  }

  /** The directories that are there when the first link is made. */
  lemma MadeIsClosed(fs: FileSystem, makes: seq<Command>, links: seq<Command>)
    requires fs.Valid() && fs.links == map[] && MakesFor(makes, links)
    ensures var made := ExecuteAll(fs, makes);
      Closed(made.dirs) && forall l | l in links :: Holder(fs.cwd, l.path) in made.dirs
  {
    hide Holder;
    DirsForLinks(fs, makes, links);
    var made := ExecuteAll(fs, makes);
    forall p, q | q in made.dirs && p <= q ensures p in made.dirs {
      IsPrefix(p, q);
      if l :| l in links && q <= Holder(fs.cwd, l.path) {
        assert p <= Holder(fs.cwd, l.path);
      }
    }
    ClosedByPrefix(made.dirs);
  }

  /** When all mount paths end in names, the directories are those that were there and those above a mount. */
  lemma MadeIsAbove(fs: FileSystem, makes: seq<Command>, links: seq<Command>)
    requires fs.Valid() && fs.links == map[] && MakesFor(makes, links) && forall c | c in links :: IsName(Last(c.path))
    ensures forall p :: p in ExecuteAll(fs, makes).dirs <==> p in fs.dirs || Above(fs, links, p)
  {
    hide Holder, PlaceOf;
    DirsForLinks(fs, makes, links);
    forall p ensures (exists l :: l in links && p <= Holder(fs.cwd, l.path)) <==> Above(fs, links, p) {
      if l :| l in links && p <= Holder(fs.cwd, l.path) {
        BelowHolder(fs, l, p);
      }
      if l :| l in links && p < PlaceOf(fs, l) {
        BelowHolder(fs, l, p);
      }
    }
  }

  lemma ClearIsOpen(fs: FileSystem, makes: seq<Command>, links: seq<Command>)
    requires fs.Valid() && fs.links == map[] && MakesFor(makes, links)
    ensures var made := ExecuteAll(fs, makes);
      Clear(fs, links) <==> (forall c | c in links :: Open(made, c)) && Agree(made, links)
  {
    hide PlaceOf, Above, Way;
    DirsForLinks(fs, makes, links);
    var made := ExecuteAll(fs, makes);
    forall c | c in links ensures PlaceOf(made, c) == PlaceOf(fs, c) {
      SamePlace(made, fs, c);
    }
    if forall c | c in links :: IsName(Last(c.path)) {
      MadeIsAbove(fs, makes, links);
    }
  }

  lemma SamePlace(fs: FileSystem, fs': FileSystem, c: Command)
    requires c.Link? && fs'.cwd == fs.cwd
    ensures PlaceOf(fs', c) == PlaceOf(fs, c)
  {
  }

  /**
   On a machine without links beforehand, whatever its directories are and whatever text the
   mount paths are, every link ends up at its own place with its own target if and only if
   the mount paths are clear of directories, of each other and of detours. The commands are
   as `Volumes.BuildCommands` puts them together, the directory part being Go's `path.Dir`:
   the directories of the links in any order, and then the links.
  */
  lemma LinksLandIff(fs: FileSystem, makes: seq<Command>, links: seq<Command>)
    requires fs.Valid() && fs.links == map[] && MakesFor(makes, links)
    ensures (forall l | l in links :: Placed(ExecuteAll(fs, makes + links), l)) <==> Clear(fs, links)
  {
    hide Clear, Open, Placed, Agree, Holder;
    ExecuteAppend(fs, makes, links);
    DirsForLinks(fs, makes, links);
    MadeIsClosed(fs, makes, links);
    PlacedIff(ExecuteAll(fs, makes), links);
    ClearIsOpen(fs, makes, links);
  }

  lemma {:induction false} OnlyLinks(volumes: seq<Volume>, attached: seq<Attachment>)
    ensures AllLinks(Links(volumes, attached))
    decreases |attached|
  {
    if attached != [] {
      OnlyLinks(volumes, attached[..|attached| - 1]);
    }
  }

  /** The same for whatever commands `Volumes.BuildCommands` promises to build. */
  lemma BuiltLinksLandIff(fs: FileSystem, volumes: seq<Volume>, attached: seq<Attachment>,
                          cmds: seq<Command>, dirs: seq<string>)
    requires fs.Valid() && fs.links == map[]
    requires |dirs| <= |cmds| && cmds[|dirs|..] == Links(volumes, attached)
    requires forall i | 0 <= i < |dirs| :: cmds[i] == Mkdir(dirs[i])
    requires forall d :: d in dirs <==> exists l :: l in Links(volumes, attached) && l.Link? && Dir(l.path) == d
    ensures var links := Links(volumes, attached);
      && AllLinks(links)
      && ((forall l | l in links :: Placed(ExecuteAll(fs, cmds), l)) <==> Clear(fs, links))
  {
    hide Links, Dir, Placed, Clear, ExecuteAll;
    OnlyLinks(volumes, attached);
    var (makes, links) := (cmds[..|dirs|], Links(volumes, attached));
    assert cmds == makes + links;
    forall d ensures Mkdir(d) in makes <==> d in dirs {
      if d in dirs {
        var i :| 0 <= i < |dirs| && dirs[i] == d;
        assert makes[i] == Mkdir(d);
      }
    }
    LinksLandIff(fs, makes, links);
  }

  // ---------------------------------------------------------------- plain paths

  /** A mount path without `..` that ends in a name. */
  predicate Plain(path: string) {
    IsName(Last(path)) && ".." !in Front(path)
  }

  lemma {:induction false} NoDetour(at: Place, cs: seq<string>)
    requires ".." !in cs
    ensures Way(at, cs) <= Prefixes(Follow(at, cs))
    decreases |cs|
  {
    if cs == [] {
      IsPrefix(at, at);
    } else {
      var front := cs[..|cs| - 1];
      assert cs[|cs| - 1] in cs;
      NoDetour(at, front);
      PrefixesOfLonger(Follow(at, front), cs[|cs| - 1]);
      IsPrefix(Follow(at, cs), Follow(at, cs));
    }
  }

  /** For plain mount paths, only directories, mount paths above one another and different targets are in the way. */
  lemma PlainLinksLandIff(fs: FileSystem, makes: seq<Command>, links: seq<Command>)
    requires fs.Valid() && fs.links == map[] && MakesFor(makes, links) && forall l | l in links :: Plain(l.path)
    ensures (forall l | l in links :: Placed(ExecuteAll(fs, makes + links), l)) <==>
      && (forall l | l in links :: PlaceOf(fs, l) !in fs.dirs)
      && (forall l, m | l in links && m in links :: !(PlaceOf(fs, l) < PlaceOf(fs, m)))
      && Agree(fs, links)
  {
    hide Placed, PlaceOf, ExecuteAll;
    LinksLandIff(fs, makes, links);
    forall c, p | c in links && p in Way(Start(fs.cwd, c.path), Front(c.path)) ensures Above(fs, links, p) {
      NoDetour(Start(fs.cwd, c.path), Front(c.path));
      IsPrefix(p, Holder(fs.cwd, c.path));
      BelowHolder(fs, c, p);
    }
  }

  // ---------------------------------------------------------------- what goes wrong

  /** A link whose way is not open once the directories are made does not land. */
  lemma NotOpenIsLost(fs: FileSystem, makes: seq<Command>, links: seq<Command>, l: Command)
    requires fs.Valid() && fs.links == map[] && MakesFor(makes, links) && l in links
    requires !Open(ExecuteAll(fs, makes), l)
    ensures !Placed(ExecuteAll(fs, makes + links), l)
  {
    hide Open, Placed, Holder;
    var (made, after) := (ExecuteAll(fs, makes), ExecuteAll(fs, makes + links));
    ExecuteAppend(fs, makes, links);
    DirsForLinks(fs, makes, links);
    MadeIsClosed(fs, makes, links);
    LinksAvoidDirs(made, links);
    StillOpen(made, after, l);
    if Placed(after, l) {
      PlacedWasOpen(after, l);
    }
  }

  /** A link whose path does not end in a name, as with a slash at its end, never lands, whatever else is mounted. */
  lemma TrailingSlashIsLost(fs: FileSystem, makes: seq<Command>, links: seq<Command>, l: Command)
    requires fs.Valid() && fs.links == map[] && MakesFor(makes, links) && l in links && !IsName(Last(l.path))
    ensures !Placed(ExecuteAll(fs, makes + links), l)
  {
    NotOpenIsLost(fs, makes, links, l);
  }

  /** With another mount path below it, neither does it land. */
  lemma NestedMountIsLost(fs: FileSystem, makes: seq<Command>, links: seq<Command>, l: Command, m: Command)
    requires fs.Valid() && fs.links == map[] && MakesFor(makes, links)
    requires l in links && m in links && IsName(Last(m.path)) && PlaceOf(fs, l) < PlaceOf(fs, m)
    ensures !Placed(ExecuteAll(fs, makes + links), l)
  {
    DirsForLinks(fs, makes, links);
    BelowHolder(fs, m, PlaceOf(fs, l));
    SamePlace(ExecuteAll(fs, makes), fs, l);
    NotOpenIsLost(fs, makes, links, l);
  }

  lemma DataReads()
    ensures Split("/data") == ["", "data"] && Split("/data/") == ["", "data", ""]
  {
    hide Split;
    var (one, two, three) := ([""], ["", "data"], ["", "data", ""]);
    assert Join(one) == "";
    assert two[..1] == one;
    assert Join(two) == "" + ['/'] + "data" == "/data";
    assert three[..2] == two;
    assert Join(three) == "/data" + ['/'] + "" == "/data/";
    SplitJoin(two);
    SplitJoin(three);
  }

  lemma DataDir()
    ensures Dir("/data/") == "/data"
  {
    hide Cut, Split, Join;
    DataReads();
    var path := "/data/";
    assert path[6..] == "";
    CutIs(path, 6);
    assert path[..6] == path;
    var (one, two, three) := ([""], ["", "data"], ["", "data", ""]);
    assert three[..2] == two && two[..1] == one && one[..0] == [];
    assert Cleaned(true, []) == [];
    assert Cleaned(true, one) == [];
    assert Cleaned(true, two) == ["data"];
    assert Cleaned(true, three) == ["data"];
    assert Join(["data"]) == "data" by { JoinOne("data"); }
    assert ['/'] + "data" == "/data";
  }

  lemma JoinOne(c: string)
    ensures Join([c]) == c
  {
  }

  lemma DataWay()
    ensures Way([], ["", "data"]) == Way([], ["", "data", ""]) == {[], ["data"]}
    ensures Follow([], ["", "data", ""]) == ["data"]
  {
    assert Way([], []) == {[]} && Follow([], [""]) == [];
    assert ["", "data"][..1] == [""] && [""][..0] == [];
    assert Way([], [""]) == {[]};
    assert Follow([], ["", "data"]) == ["data"];
    assert ["", "data", ""][..2] == ["", "data"];
  }

  /** The smallest case: mounted at `/data/` on an empty machine, the link lands inside `/data`. */
  lemma DataSlashIsLost(target: string)
    ensures Dir("/data/") == "/data"
    ensures ExecuteAll(FileSystem([], {[]}, map[]), [Mkdir("/data"), Link(target, "/data/")])
      == FileSystem([], {[], ["data"]}, map[["data", Last(target)] := target])
  {
    hide Way, Follow, Split, Dir;
    DataReads();
    DataDir();
    DataWay();
    var fs := FileSystem([], {[]}, map[]);
    var cmds := [Mkdir("/data"), Link(target, "/data/")];
    assert cmds[..1] == [Mkdir("/data")] && cmds[..1][..0] == [];
    var made := FileSystem([], {[], ["data"]}, map[]);
    assert MakeDirs(fs, "/data") == made;
    assert ExecuteAll(fs, []) == fs;
    assert ExecuteAll(fs, cmds[..1]) == made;
    var inside := ["data"] + [Last(target)];
    assert inside == ["data", Last(target)];
    assert MakeLink(made, target, "/data/").links == map[inside := target];
  }
}
