/**
 The text of slash-separated paths: how Go's package `path` takes the directory part of
 one, and how a machine walks along one.
*/
module Paths {
  /** A place in a file system, by the names that lead to it; the root has none. */
  type Place = seq<string>

  // ---------------------------------------------------------------- components

  /** The position after the last slash. */
  function Cut(s: string): (n: nat)
    ensures n <= |s| && '/' !in s[n..] && (n > 0 ==> s[n - 1] == '/')
  {
    if s == "" || s[|s| - 1] == '/' then |s|
    else
      var n := Cut(s[..|s| - 1]);
      assert s[n..] == s[..|s| - 1][n..] + [s[|s| - 1]];
      n
  }

  function Split(s: string): (cs: seq<string>)
    ensures cs != []
  {
    if Cut(s) == 0 then [s] else Split(s[..Cut(s) - 1]) + [s[Cut(s)..]]
  }

  function Join(cs: seq<string>): string
    requires cs != []
  {
    if |cs| == 1 then cs[0] else Join(cs[..|cs| - 1]) + ['/'] + cs[|cs| - 1]
  }

  function Front(s: string): seq<string> {
    Split(s)[..|Split(s)| - 1]
  }

  function Last(s: string): string {
    Split(s)[|Split(s)| - 1]
  }

  predicate Rooted(s: string) {
    s != "" && s[0] == '/'
  }

  predicate IsName(c: string) {
    c != "" && c != "." && c != ".."
  }

  /** The position after the last slash is determined by what it promises. */
  lemma CutIs(s: string, n: nat)
    requires n <= |s| && '/' !in s[n..] && (n > 0 ==> s[n - 1] == '/')
    ensures Cut(s) == n
  {
    NoSlashAfter(s, n);
    NoSlashAfter(s, Cut(s));
  }

  lemma NoSlashAfter(s: string, n: nat)
    requires n <= |s| && '/' !in s[n..]
    ensures forall i | n <= i < |s| :: s[i] != '/'
  {
    forall i | n <= i < |s| ensures s[i] != '/' {
      assert s[n..][i - n] == s[i];
    }
  }

  ghost predicate Slashless(cs: seq<string>) {
    forall c | c in cs :: '/' !in c
  }

  lemma {:induction false} SplitJoin(cs: seq<string>)
    requires cs != [] && Slashless(cs)
    ensures Split(Join(cs)) == cs
    decreases |cs|
  {
    var s := Join(cs);
    var last := cs[|cs| - 1];
    assert last in cs;
    if |cs| == 1 {
      assert s[0..] == s;
      CutIs(s, 0);
    } else {
      var front := cs[..|cs| - 1];
      SplitJoin(front);
      var n := |Join(front)| + 1;
      assert s[n..] == last;
      CutIs(s, n);
      assert s[..n - 1] == Join(front);
    }
  }

  lemma {:induction false} SplitIsSlashless(s: string)
    ensures Slashless(Split(s))
    decreases |s|
  {
    if Cut(s) > 0 {
      SplitIsSlashless(s[..Cut(s) - 1]);
    } else {
      assert s[0..] == s;
    }
  }

  // ---------------------------------------------------------------- walking

  function Parent(at: Place): Place {
    if at == [] then [] else at[..|at| - 1]
  }

  function Step(at: Place, c: string): Place {
    if c == "" || c == "." then at else if c == ".." then Parent(at) else at + [c]
  }

  /** Where the components lead to, as long as no link is on the way. */
  function Follow(at: Place, cs: seq<string>): Place {
    if cs == [] then at else Step(Follow(at, cs[..|cs| - 1]), cs[|cs| - 1])
  }

  /** The places one comes through, the first and the last among them. */
  function Way(at: Place, cs: seq<string>): set<Place> {
    if cs == [] then {at} else Way(at, cs[..|cs| - 1]) + {Follow(at, cs)}
  }

  function Prefixes(p: Place): set<Place> {
    set n | 0 <= n <= |p| :: p[..n]
  }

  ghost predicate Closed(dirs: set<Place>) {
    forall p | p in dirs :: Prefixes(p) <= dirs
  }

  lemma IsPrefix(p: Place, q: Place)
    ensures p in Prefixes(q) <==> p <= q
  {
    if p <= q {
      assert p == q[..|p|];
    }
  }

  lemma ParentIsThere(dirs: set<Place>, p: Place)
    requires Closed(dirs) && p in dirs
    ensures Parent(p) in dirs
  {
    IsPrefix(Parent(p), p);
  }

  lemma PrefixesOfLonger(p: Place, c: string)
    ensures Prefixes(p + [c]) == Prefixes(p) + {p + [c]}
  {
    forall q ensures q in Prefixes(p + [c]) <==> q in Prefixes(p) + {p + [c]} {
      IsPrefix(q, p + [c]);
      IsPrefix(q, p);
      if |q| <= |p| {
        assert (p + [c])[..|q|] == p[..|q|];
      } else if q <= p + [c] {
        assert q == (p + [c])[..|q|] == p + [c];
      }
    }
  }

  /** A leading slash leads nowhere by itself. */
  lemma {:induction false} LeadingSlash(at: Place, cs: seq<string>)
    ensures Follow(at, [""] + cs) == Follow(at, cs) && Way(at, [""] + cs) == Way(at, cs)
    decreases |cs|
  {
    var all := [""] + cs;
    if cs == [] {
      assert all[..0] == [];
    } else {
      assert all[..|all| - 1] == [""] + cs[..|cs| - 1];
      LeadingSlash(at, cs[..|cs| - 1]);
    }
  }

  // ---------------------------------------------------------------- Go's path.Clean and path.Dir

  /** The components that `path.Clean` keeps: `..` takes back a name, and nothing at the root. */
  function Cleaned(rooted: bool, cs: seq<string>): seq<string> {
    if cs == [] then []
    else
      var (done, c) := (Cleaned(rooted, cs[..|cs| - 1]), cs[|cs| - 1]);
      if c == "" || c == "." then done
      else if c != ".." then done + [c]
      else if done != [] && done[|done| - 1] != ".." then done[..|done| - 1]
      else if rooted then done
      else done + [".."]
  }

  function Clean(s: string): string {
    var cs := Cleaned(Rooted(s), Split(s));
    if Rooted(s) then ['/'] + (if cs == [] then "" else Join(cs))
    else if cs == [] then "." else Join(cs)
  }

  function Dir(s: string): string {
    Clean(s[..Cut(s)])
  }

  /** Names, after some `..` where the path does not start at the root. */
  ghost predicate IsClean(rooted: bool, cs: seq<string>) {
    && (forall c | c in cs :: '/' !in c && (IsName(c) || (c == ".." && !rooted)))
    && (forall i, j | 0 <= i < j < |cs| && cs[j] == ".." :: cs[i] == "..")
  }

  lemma {:induction false} CleanedIsClean(rooted: bool, cs: seq<string>)
    requires Slashless(cs)
    ensures IsClean(rooted, Cleaned(rooted, cs))
    decreases |cs|
  {
    if cs != [] {
      assert cs[|cs| - 1] in cs;
      CleanedIsClean(rooted, cs[..|cs| - 1]);
    }
  }

  /** Cleaning does not change where a path leads to. */
  lemma {:induction false} CleanedLeadsThere(at: Place, rooted: bool, cs: seq<string>)
    requires Slashless(cs) && (rooted ==> at == [])
    ensures Follow(at, Cleaned(rooted, cs)) == Follow(at, cs)
    decreases |cs|
  {
    if cs != [] {
      var front := cs[..|cs| - 1];
      CleanedLeadsThere(at, rooted, front);
      CleanedIsClean(rooted, front);
      var done := Cleaned(rooted, front);
      if done != [] {
        assert done[|done| - 1] in done;
      }
    }
  }

  lemma {:induction false} UpwardsOnly(at: Place, cs: seq<string>)
    requires forall i | 0 <= i < |cs| :: cs[i] == ".."
    ensures Follow(at, cs) <= at && Way(at, cs) <= Prefixes(at)
    decreases |cs|
  {
    if cs != [] {
      UpwardsOnly(at, cs[..|cs| - 1]);
    }
    IsPrefix(Follow(at, cs), at);
  }

  /** From a directory that is there, a clean path comes through directories that are there and those above its end. */
  lemma {:induction false} CleanWay(dirs: set<Place>, at: Place, rooted: bool, cs: seq<string>)
    requires Closed(dirs) && at in dirs && IsClean(rooted, cs)
    ensures dirs + Way(at, cs) == dirs + Prefixes(Follow(at, cs))
    decreases |cs|
  {
    if cs == [] {
      IsPrefix(at, at);
    } else {
      var front := cs[..|cs| - 1];
      assert cs[|cs| - 1] in cs;
      if cs[|cs| - 1] == ".." {
        UpwardsOnly(at, cs);
        IsPrefix(Follow(at, cs), at);
        assert Follow(at, cs) in dirs;
      } else {
        CleanWay(dirs, at, rooted, front);
        PrefixesOfLonger(Follow(at, front), cs[|cs| - 1]);
      }
    }
  }

  /** Where a machine standing at `cwd` starts along a path. */
  function Start(cwd: Place, s: string): Place {
    if Rooted(s) then [] else cwd
  }

  /** The directory that holds what the path names. */
  function Holder(cwd: Place, s: string): Place {
    Follow(Start(cwd, s), Front(s))
  }

  /** A bare name stands for what lies in the directory where the walk starts, and a slash before it takes it to the root. */
  lemma BareName(cwd: Place, name: string)
    requires '/' !in name && IsName(name)
    ensures Holder(cwd, name) == cwd && Follow(Start(cwd, name), Split(name)) == cwd + [name]
    ensures Holder(cwd, ['/'] + name) == [] && Follow(Start(cwd, ['/'] + name), Split(['/'] + name)) == [name]
  {
    assert name[0..] == name && (['/'] + name)[1..] == name;
    CutIs(name, 0);
    CutIs(['/'] + name, 1);
    assert Split(name) == [name] && Split("") == [""];
    assert (['/'] + name)[..0] == "";
    assert Split(['/'] + name) == ["", name];
    assert [name][..0] == [] && ["", name][..1] == [""] && [""][..0] == [];
    assert Follow([], [""]) == [];
  }

  lemma JoinBegins(cs: seq<string>)
    requires cs != [] && Slashless(cs) && cs[0] != ""
    ensures Join(cs) != "" && Join(cs)[0] == cs[0][0] && !Rooted(Join(cs))
  {
    if |cs| == 1 {
      assert cs[0] in cs;
    } else {
      var front := cs[..|cs| - 1];
      assert Slashless(front);
      JoinBegins(front);
    }
  }

  /** A cleaned path reads as the components that were kept. */
  lemma CleanReads(cwd: Place, s: string)
    ensures var cs := Cleaned(Rooted(s), Split(s));
      && Start(cwd, Clean(s)) == Start(cwd, s)
      && Follow(Start(cwd, s), Split(Clean(s))) == Follow(Start(cwd, s), cs)
      && Way(Start(cwd, s), Split(Clean(s))) == Way(Start(cwd, s), cs)
  {
    hide Follow, Way, Cleaned, Split, Join;
    var (at, cs) := (Start(cwd, s), Cleaned(Rooted(s), Split(s)));
    SplitIsSlashless(s);
    CleanedIsClean(Rooted(s), Split(s));
    if cs == [] {
      assert ['/'] + "" == "/";
      EmptyReads(at);
    } else {
      assert cs[0] in cs;
      if Rooted(s) {
        RootedJoin(cs);
        SplitJoin([""] + cs);
        LeadingSlash(at, cs);
      } else {
        SplitJoin(cs);
        JoinBegins(cs);
      }
    }
  }

  lemma EmptyReads(at: Place)
    ensures Follow(at, Split("/")) == Follow(at, Split(".")) == Follow(at, []) == at
    ensures Way(at, Split("/")) == Way(at, Split(".")) == Way(at, [])
  {
    CutIs("/", 1);
    CutIs(".", 0);
    assert Split("") == [""];
    assert "/"[..0] == "" && "/"[1..] == "";
    assert Split("/") == [""] + [""];
    assert Split(".") == ["."] + [];
    LeadingSlash(at, [""]);
    LeadingSlash(at, []);
    assert ["."][..0] == [];
  }

  lemma {:induction false} RootedJoin(cs: seq<string>)
    requires cs != []
    ensures Join([""] + cs) == ['/'] + Join(cs)
    decreases |cs|
  {
    var all := [""] + cs;
    assert all[|all| - 1] == cs[|cs| - 1];
    if |cs| == 1 {
      assert all[..1] == [""];
      assert Join([""]) == "";
    } else {
      assert all[..|all| - 1] == [""] + cs[..|cs| - 1];
      RootedJoin(cs[..|cs| - 1]);
    }
  }

  /** What lies before the last slash, and the last slash. */
  lemma UpToSlash(cwd: Place, s: string)
    ensures var d := s[..Cut(s)];
      && Start(cwd, d) == Start(cwd, s)
      && Follow(Start(cwd, s), Split(d)) == Holder(cwd, s)
  {
    var d := s[..Cut(s)];
    CutIs(d, Cut(s));
    if Cut(s) > 0 {
      assert d[..Cut(d) - 1] == s[..Cut(s) - 1];
      assert d[Cut(d)..] == "";
      assert Split(d) == Front(s) + [""];
      assert Split(d)[..|Split(d)| - 1] == Front(s);
    } else {
      assert Split(d) == [""] + [];
      LeadingSlash(Start(cwd, s), []);
      assert s[0..] == s;
    }
  }

  /** `mkdir -p` on the directory part of a path makes the directory that holds what the path names. */
  lemma DirMakesHolder(dirs: set<Place>, cwd: Place, s: string)
    requires Closed(dirs) && cwd in dirs
    ensures dirs + Way(Start(cwd, Dir(s)), Split(Dir(s))) == dirs + Prefixes(Holder(cwd, s))
  {
    hide Follow, Way, Cleaned, Split, Prefixes, Clean;
    var d := s[..Cut(s)];
    var at := Start(cwd, s);
    UpToSlash(cwd, s);
    CleanReads(cwd, d);
    SplitIsSlashless(d);
    CleanedIsClean(Rooted(d), Split(d));
    CleanedLeadsThere(at, Rooted(d), Split(d));
    RootIsThere(dirs, cwd);
    CleanWay(dirs, at, Rooted(d), Cleaned(Rooted(d), Split(d)));
  }

  lemma RootIsThere(dirs: set<Place>, p: Place)
    requires Closed(dirs) && p in dirs
    ensures [] in dirs
  {
    IsPrefix([], p);
  }
}
