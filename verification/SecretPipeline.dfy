/**
 Secrets on their way from the upstream cluster to files on the machine: the instance
 controller aggregates them into one JSON document with base64 leaves, Secret Manager
 hands that document out in base64 once more, and a script on the machine takes it
 apart again and writes the files.
*/
module SecretPipeline {
  import opened Options
  import opened Bytes
  import Base64
  import Utf8
  import Json

  type Content = seq<Byte>

  /** A secret's data; `None` for a secret that has none at all, which prints as null. */
  type Data = Option<map<string, Content>>

  // ---------------------------------------------------------------- the controller's side

  /** Collects the secrets that the volumes name; `None` when one of them is missing. */
  method Aggregate(volumes: seq<Option<string>>, cluster: map<string, Data>) returns (secrets: Option<map<string, Data>>)
    ensures secrets.Some? <==> forall v | v in volumes && v.Some? :: v.value in cluster
    ensures secrets.Some? ==>
      && (forall n :: n in secrets.value <==> Some(n) in volumes)
      && (forall n | n in secrets.value :: n in cluster && secrets.value[n] == cluster[n])
  {
    var found: map<string, Data> := map[];
    for i := 0 to |volumes|
      invariant forall v | v in volumes[..i] && v.Some? :: v.value in cluster
      invariant forall n :: n in found <==> Some(n) in volumes[..i]
      invariant forall n | n in found :: n in cluster && found[n] == cluster[n]
    {
      var v := volumes[i];
      assert volumes[..i + 1] == volumes[..i] + [v] && v in volumes;
      if v.Some? {
        if v.value !in cluster {
          return None;
        }
        found := found[v.value := cluster[v.value]];
      }
    }
    assert volumes[..|volumes|] == volumes;
    secrets := Some(found);
  }

  /** The entries of one secret, and the secrets themselves, in the order they are printed. */
  type Entries = seq<(string, Content)>
  datatype Printed = Printed(name: string, entries: Option<Entries>)

  ghost predicate Lists(entries: Entries, data: map<string, Content>) {
    && (forall i, j | 0 <= i < j < |entries| :: entries[i].0 != entries[j].0)
    && (forall k :: k in data <==> exists i :: 0 <= i < |entries| && entries[i].0 == k)
    && (forall i | 0 <= i < |entries| :: entries[i].0 in data && data[entries[i].0] == entries[i].1)
  }

  /** `order` prints the secrets, each once, in any order and with its entries in any order. */
  ghost predicate Prints(order: seq<Printed>, secrets: map<string, Data>) {
    && (forall i, j | 0 <= i < j < |order| :: order[i].name != order[j].name)
    && (forall n :: n in secrets <==> exists i :: 0 <= i < |order| && order[i].name == n)
    && (forall i | 0 <= i < |order| ::
      && order[i].name in secrets
      && (order[i].entries.Some? <==> secrets[order[i].name].Some?)
      && (order[i].entries.Some? ==> Lists(order[i].entries.value, secrets[order[i].name].value)))
  }

  function Leaves(entries: Entries): (m: seq<(string, Json.Value)>)
    ensures |m| == |entries|
    ensures forall i | 0 <= i < |m| :: m[i] == (entries[i].0, Json.Text(Base64.Encode(entries[i].1)))
  {
    if entries == [] then []
    else
      var last := entries[|entries| - 1];
      Leaves(entries[..|entries| - 1]) + [(last.0, Json.Text(Base64.Encode(last.1)))]
  }

  function Nested(p: Printed): (string, Json.Value) {
    (p.name, if p.entries.None? then Json.Null else Json.Object(Leaves(p.entries.value)))
  }

  function Members(order: seq<Printed>): (m: seq<(string, Json.Value)>)
    ensures |m| == |order|
    ensures forall i | 0 <= i < |m| :: m[i] == Nested(order[i])
  {
    if order == [] then []
    else Members(order[..|order| - 1]) + [Nested(order[|order| - 1])]
  }

  /** What the script receives: the document, in the base64 of the response around it. */
  function Payload(order: seq<Printed>): string {
    Base64.Encode(Utf8.Encode(Json.Print(Json.Object(Members(order)))))
  }

  // ---------------------------------------------------------------- the script's side

  type Files = map<string, Content>

  /** Also where a pod's volume and a machine's symlink for the secret point to. */
  function SecretDir(name: string): string {
    "/etc/secrets/content/" + name
  }

  function PathOf(name: string, key: string): string {
    SecretDir(name) + ['/'] + key
  }

  /** Decoding a leaf and writing it as text; anything that is not UTF-8 raises. */
  function LeafContent(v: Json.Value): Option<Content> {
    if !v.Text? then None
    else
      match Base64.Decode(v.s)
      case None => None
      case Some(b) =>
        match Utf8.Decode(b)
        case None => None
        case Some(t) => Some(Utf8.Encode(t))
  }

  /** The inner loop: the files, and whether it ran to its end. */
  function WriteLeaves(files: Files, name: string, m: seq<(string, Json.Value)>): (Files, bool) {
    if m == [] then (files, true)
    else
      var last := m[|m| - 1];
      var (front, ok) := WriteLeaves(files, name, m[..|m| - 1]);
      if !ok || LeafContent(last.1).None? then (front, false)
      else (front[PathOf(name, last.0) := LeafContent(last.1).value], true)
  }

  /** The outer loop. */
  function WriteSecrets(files: Files, m: seq<(string, Json.Value)>): (Files, bool) {
    if m == [] then (files, true)
    else
      var last := m[|m| - 1];
      var (front, ok) := WriteSecrets(files, m[..|m| - 1]);
      if !ok || !last.1.Object? then (front, false)
      else WriteLeaves(front, last.0, last.1.members)
  }

  function Dirs(m: seq<(string, Json.Value)>): set<string> {
    if m == [] then {} else Dirs(m[..|m| - 1]) + {SecretDir(m[|m| - 1].0)}
  }

  /** Reading the payload: base64, then UTF-8, then JSON. */
  function Load(data: string): Option<Json.Value> {
    match Base64.Decode(data)
    case None => None
    case Some(b) =>
      match Utf8.Decode(b)
      case None => None
      case Some(t) =>
        match Json.Loads(t)
        case None => None
        case Some(v) => Some(v)
  }

  /** A directory for every secret, and no other. */
  lemma {:induction false} DirsExactly(m: seq<(string, Json.Value)>, d: string)
    ensures d in Dirs(m) <==> exists i :: 0 <= i < |m| && d == SecretDir(m[i].0)
    decreases |m|
  {
    hide SecretDir;
    if m != [] {
      var front := m[..|m| - 1];
      assert m == front + [m[|m| - 1]];
      DirsExactly(front, d);
    }
  }

  class Machine {
    var files: Files
    var dirs: set<string>

    constructor ()
      ensures files == map[] && dirs == {}
    {
      files := map[];
      dirs := {};
    }

    /** The script's main part; the result is false when it raises. An empty payload is only reported. */
    method PopulateSecrets(data: string) returns (ok: bool)
      modifies this
      ensures data == "" ==> ok && files == old(files) && dirs == old(dirs)
      ensures data != "" ==>
        match Load(data)
        case Some(Object(m)) => (files, ok) == WriteSecrets(old(files), m) && (ok ==> dirs == old(dirs) + Dirs(m))
        case _ => !ok && files == old(files)
    {
      if data == "" {
        return true;
      }
      var loaded := Load(data);
      if loaded.None? || !loaded.value.Object? {
        return false;
      }
      ok := WriteAll(loaded.value.members);
    }

    method WriteAll(secrets: seq<(string, Json.Value)>) returns (ok: bool)
      modifies this
      ensures (files, ok) == WriteSecrets(old(files), secrets)
      ensures ok ==> dirs == old(dirs) + Dirs(secrets)
    {
      for i := 0 to |secrets|
        invariant (files, true) == WriteSecrets(old(files), secrets[..i])
        invariant dirs == old(dirs) + Dirs(secrets[..i])
      {
        var (key, nested) := secrets[i];
        assert secrets[..i + 1][..i] == secrets[..i];
        dirs := dirs + {SecretDir(key)};
        ok := false;
        if nested.Object? {
          ok := WriteSecret(key, nested.members);
        }
        if !ok {
          FailureStays(old(files), secrets, i + 1);
          return;
        }
      }
      assert secrets[..|secrets|] == secrets;
      ok := true;
    }

    /** The directory must have been made before files are opened in it. */
    method WriteSecret(key: string, nested: seq<(string, Json.Value)>) returns (ok: bool)
      requires SecretDir(key) in dirs
      modifies this`files
      ensures (files, ok) == WriteLeaves(old(files), key, nested)
    {
      for i := 0 to |nested|
        invariant (files, true) == WriteLeaves(old(files), key, nested[..i])
      {
        var (childKey, childValue) := nested[i];
        assert nested[..i + 1][..i] == nested[..i];
        var content := LeafContent(childValue);
        if content.None? {
          LeafFailureStays(old(files), key, nested, i + 1);
          return false;
        }
        files := files[PathOf(key, childKey) := content.value];
      }
      assert nested[..|nested|] == nested;
      ok := true;
    }
  }

  /** Nothing is written after a leaf that raises. */
  lemma {:induction false} LeafFailureStays(files: Files, name: string, m: seq<(string, Json.Value)>, k: nat)
    requires k <= |m| && !WriteLeaves(files, name, m[..k]).1
    ensures WriteLeaves(files, name, m) == WriteLeaves(files, name, m[..k])
  {
    if k == |m| {
      assert m[..k] == m;
    } else {
      assert m[..|m| - 1][..k] == m[..k];
      LeafFailureStays(files, name, m[..|m| - 1], k);
    }
  }

  lemma {:induction false} FailureStays(files: Files, m: seq<(string, Json.Value)>, k: nat)
    requires k <= |m| && !WriteSecrets(files, m[..k]).1
    ensures WriteSecrets(files, m) == WriteSecrets(files, m[..k])
  {
    if k == |m| {
      assert m[..k] == m;
    } else {
      assert m[..|m| - 1][..k] == m[..k];
      FailureStays(files, m[..|m| - 1], k);
    }
  }

  // ---------------------------------------------------------------- round trip

  /** The document arrives whole, whatever the names and contents are, and is never empty. */
  lemma PayloadArrives(order: seq<Printed>)
    ensures Payload(order) != "" && Load(Payload(order)) == Some(Json.Object(Members(order)))
  {
    var text := Json.Print(Json.Object(Members(order)));
    Json.DocumentRoundTrip(Json.Object(Members(order)));
    Utf8.RoundTrip(text);
    Base64.RoundTrip(Utf8.Encode(text));
    assert text[0] == '{';
    assert Utf8.Encode(text) != [];
  }

  /** A leaf comes back as the bytes it was made from, exactly when they are UTF-8. */
  lemma LeafRoundTrip(b: Content)
    ensures LeafContent(Json.Text(Base64.Encode(b))) == if Utf8.Decode(b).Some? then Some(b) else None
  {
    Base64.RoundTrip(b);
    if Utf8.Decode(b).Some? {
      Utf8.Unique(b);
    }
  }

  predicate AllUtf8(entries: Entries) {
    forall i | 0 <= i < |entries| :: Utf8.Decode(entries[i].1).Some?
  }

  /** Every secret has data, and all of it is UTF-8. */
  predicate AllReadable(order: seq<Printed>) {
    forall i | 0 <= i < |order| :: order[i].entries.Some? && AllUtf8(order[i].entries.value)
  }

  /** Files written one after the other. */
  function WriteFiles(files: Files, ws: Entries): Files {
    if ws == [] then files
    else WriteFiles(files, ws[..|ws| - 1])[ws[|ws| - 1].0 := ws[|ws| - 1].1]
  }

  function FilesUnder(name: string, entries: Entries): Entries {
    if entries == [] then []
    else
      var last := entries[|entries| - 1];
      FilesUnder(name, entries[..|entries| - 1]) + [(PathOf(name, last.0), last.1)]
  }

  function FilesOf(order: seq<Printed>): Entries {
    if order == [] then []
    else
      var last := order[|order| - 1];
      FilesOf(order[..|order| - 1]) + (if last.entries.Some? then FilesUnder(last.name, last.entries.value) else [])
  }

  lemma {:induction false} LeavesWritten(files: Files, name: string, entries: Entries)
    ensures WriteLeaves(files, name, Leaves(entries)).1 <==> AllUtf8(entries)
    ensures AllUtf8(entries) ==> WriteLeaves(files, name, Leaves(entries)).0 == WriteFiles(files, FilesUnder(name, entries))
  {
    hide PathOf, LeafContent;
    if entries != [] {
      var front := entries[..|entries| - 1];
      var last := entries[|entries| - 1];
      LeavesWritten(files, name, front);
      LeafRoundTrip(last.1);
      assert Leaves(entries)[..|entries| - 1] == Leaves(front);
      assert AllUtf8(entries) <==> AllUtf8(front) && Utf8.Decode(last.1).Some?;
      var ws := FilesUnder(name, entries);
      assert ws[..|ws| - 1] == FilesUnder(name, front);
    }
  }

  lemma {:induction false} WriteFilesAppend(files: Files, a: Entries, b: Entries)
    ensures WriteFiles(files, a + b) == WriteFiles(WriteFiles(files, a), b)
  {
    if b == [] {
      assert a + b == a;
    } else {
      assert (a + b)[..|a + b| - 1] == a + b[..|b| - 1];
      WriteFilesAppend(files, a, b[..|b| - 1]);
    }
  }

  /** One more secret, after all those before it went well. */
  lemma OneMoreSecret(files: Files, order: seq<Printed>)
    requires order != []
    ensures var last := order[|order| - 1];
      var (before, ok) := WriteSecrets(files, Members(order[..|order| - 1]));
      WriteSecrets(files, Members(order)) ==
        if !ok || last.entries.None? then (before, false) else WriteLeaves(before, last.name, Leaves(last.entries.value))
  {
  }

  lemma {:induction false} SecretsWritten(files: Files, order: seq<Printed>)
    ensures WriteSecrets(files, Members(order)).1 <==> AllReadable(order)
    ensures AllReadable(order) ==> WriteSecrets(files, Members(order)).0 == WriteFiles(files, FilesOf(order))
  {
    hide WriteLeaves, Leaves, Members, AllUtf8, FilesUnder, WriteFiles;
    if order != [] {
      var front := order[..|order| - 1];
      var last := order[|order| - 1];
      SecretsWritten(files, front);
      OneMoreSecret(files, order);
      assert AllReadable(order) <==> AllReadable(front) && last.entries.Some? && AllUtf8(last.entries.value);
      if AllReadable(front) && last.entries.Some? {
        LeavesWritten(WriteFiles(files, FilesOf(front)), last.name, last.entries.value);
        WriteFilesAppend(files, FilesOf(front), FilesUnder(last.name, last.entries.value));
      }
    } else {
      assert WriteFiles(files, []) == files by { NothingWritten(files); }
      assert Members(order) == [] by { NoMembers(); }
    }
  }

  lemma NothingWritten(files: Files)
    ensures WriteFiles(files, []) == files
  {
  }

  lemma NoMembers()
    ensures Members([]) == []
  {
  }

  // ---------------------------------------------------------------- which files these are

  ghost predicate DistinctPaths(ws: Entries) {
    forall i, j | 0 <= i < j < |ws| :: ws[i].0 != ws[j].0
  }

  lemma {:induction false} WrittenAt(files: Files, ws: Entries, p: string)
    requires DistinctPaths(ws)
    ensures forall i | 0 <= i < |ws| && ws[i].0 == p :: p in WriteFiles(files, ws) && WriteFiles(files, ws)[p] == ws[i].1
    ensures (forall i | 0 <= i < |ws| :: ws[i].0 != p) ==>
      (p in WriteFiles(files, ws) <==> p in files) && (p in files ==> WriteFiles(files, ws)[p] == files[p])
  {
    if ws != [] {
      var front := ws[..|ws| - 1];
      WrittenAt(files, front, p);
      assert forall i | 0 <= i < |front| :: front[i] == ws[i];
    }
  }

  lemma {:induction false} FilesUnderAt(name: string, entries: Entries)
    ensures |FilesUnder(name, entries)| == |entries|
    ensures forall i | 0 <= i < |entries| :: FilesUnder(name, entries)[i] == (PathOf(name, entries[i].0), entries[i].1)
  {
    hide PathOf;
    if entries != [] {
      FilesUnderAt(name, entries[..|entries| - 1]);
    }
  }

  /** The file at position `a` belongs to an entry of a secret. */
  lemma {:induction false} FileFrom(order: seq<Printed>, a: nat) returns (i: nat, r: nat)
    requires a < |FilesOf(order)|
    ensures i < |order| && order[i].entries.Some? && r < |order[i].entries.value|
    ensures FilesOf(order)[a] == (PathOf(order[i].name, order[i].entries.value[r].0), order[i].entries.value[r].1)
    ensures a == |FilesOf(order[..i])| + r
  {
    hide PathOf;
    var last := |order| - 1;
    var front := FilesOf(order[..last]);
    if a < |front| {
      i, r := FileFrom(order[..last], a);
      assert order[..last][..i] == order[..i];
    } else {
      i, r := last, a - |front|;
      FilesUnderAt(order[last].name, order[last].entries.value);
    }
  }

  /** And every entry has its file. */
  lemma {:induction false} FileOf(order: seq<Printed>, i: nat, r: nat) returns (a: nat)
    requires i < |order| && order[i].entries.Some? && r < |order[i].entries.value|
    ensures a < |FilesOf(order)|
    ensures FilesOf(order)[a] == (PathOf(order[i].name, order[i].entries.value[r].0), order[i].entries.value[r].1)
  {
    hide PathOf;
    var last := |order| - 1;
    if i < last {
      a := FileOf(order[..last], i, r);
    } else {
      FilesUnderAt(order[last].name, order[last].entries.value);
      a := |FilesOf(order[..last])| + r;
    }
  }

  /** The names the API server accepts contain no slash. */
  predicate IsName(s: string) {
    '/' !in s
  }

  lemma FirstSlash(n: string, k: string)
    requires IsName(n)
    ensures var t := n + ['/'] + k; t[|n|] == '/' && forall j | 0 <= j < |n| :: t[j] != '/'
  {
  }

  lemma PathInjective(n1: string, k1: string, n2: string, k2: string)
    requires IsName(n1) && IsName(n2) && PathOf(n1, k1) == PathOf(n2, k2)
    ensures n1 == n2 && k1 == k2
  {
    var dir := "/etc/secrets/content/";
    var (s, t) := (n1 + ['/'] + k1, n2 + ['/'] + k2);
    assert PathOf(n1, k1) == dir + s && PathOf(n2, k2) == dir + t;
    assert (dir + s)[|dir|..] == s && (dir + t)[|dir|..] == t;
    FirstSlash(n1, k1);
    FirstSlash(n2, k2);
    assert s[..|n1|] == n1 && t[..|n2|] == n2;
    assert s[|n1| + 1..] == k1 && t[|n2| + 1..] == k2;
  }

  /** No two entries of all secrets share a file. */
  lemma PathsDistinct(order: seq<Printed>, secrets: map<string, Data>)
    requires Prints(order, secrets) && forall n | n in secrets :: IsName(n)
    ensures DistinctPaths(FilesOf(order))
  {
    hide PathOf, FilesOf;
    forall a, b | 0 <= a < b < |FilesOf(order)| ensures FilesOf(order)[a].0 != FilesOf(order)[b].0 {
      var i, r := FileFrom(order, a);
      var j, q := FileFrom(order, b);
      if FilesOf(order)[a].0 == FilesOf(order)[b].0 {
        PathInjective(order[i].name, order[i].entries.value[r].0, order[j].name, order[j].entries.value[q].0);
        assert false;
      }
    }
  }

  /** The order of printing does not matter to whether everything can be read back. */
  ghost predicate Readable(secrets: map<string, Data>) {
    forall n | n in secrets ::
      secrets[n].Some? && forall k | k in secrets[n].value :: Utf8.Decode(secrets[n].value[k]).Some?
  }

  lemma ReadableInAnyOrder(order: seq<Printed>, secrets: map<string, Data>)
    requires Prints(order, secrets)
    ensures AllReadable(order) <==> Readable(secrets)
  {
  }

  /** The file of an entry, and its content. */
  lemma EntryIsWritten(order: seq<Printed>, secrets: map<string, Data>, files: Files, n: string, k: string)
    requires Prints(order, secrets) && DistinctPaths(FilesOf(order))
    requires n in secrets && secrets[n].Some? && k in secrets[n].value
    ensures var after := WriteFiles(files, FilesOf(order));
      PathOf(n, k) in after && after[PathOf(n, k)] == secrets[n].value[k]
  {
    hide PathOf, FilesOf, WriteFiles;
    var i :| 0 <= i < |order| && order[i].name == n;
    var r :| 0 <= r < |order[i].entries.value| && order[i].entries.value[r].0 == k;
    var a := FileOf(order, i, r);
    WrittenAt(files, FilesOf(order), PathOf(n, k));
  }

  /** A path that belongs to no entry. */
  lemma OtherFilesStay(order: seq<Printed>, secrets: map<string, Data>, files: Files, p: string)
    requires Prints(order, secrets) && DistinctPaths(FilesOf(order))
    requires forall n, k | n in secrets && secrets[n].Some? && k in secrets[n].value :: p != PathOf(n, k)
    ensures var after := WriteFiles(files, FilesOf(order));
      (p in after <==> p in files) && (p in files ==> after[p] == files[p])
  {
    hide PathOf, FilesOf, WriteFiles;
    forall a | 0 <= a < |FilesOf(order)| ensures FilesOf(order)[a].0 != p {
      var i, r := FileFrom(order, a);
      assert order[i].entries.value[r].0 in secrets[order[i].name].value;
    }
    WrittenAt(files, FilesOf(order), p);
  }

  /** Each entry of each secret is in the file named after it, byte for byte, and every other file is as it was. */
  ghost predicate Delivered(secrets: map<string, Data>, before: Files, after: Files) {
    && (forall n, k | n in secrets && secrets[n].Some? && k in secrets[n].value ::
          PathOf(n, k) in after && after[PathOf(n, k)] == secrets[n].value[k])
    && (forall p | (forall n, k | n in secrets && secrets[n].Some? && k in secrets[n].value :: p != PathOf(n, k)) ::
          (p in after <==> p in before) && (p in before ==> after[p] == before[p]))
  }

  /** The two loops run to their end exactly when every secret has data and all of it is UTF-8, and then deliver it. */
  lemma SecretsBecomeFiles(order: seq<Printed>, secrets: map<string, Data>, files: Files)
    requires Prints(order, secrets) && forall n | n in secrets :: IsName(n)
    ensures var (after, ok) := WriteSecrets(files, Members(order));
      (ok <==> Readable(secrets)) && (ok ==> Delivered(secrets, files, after))
  {
    hide PathOf, FilesOf, WriteFiles, WriteSecrets, Members, Prints, AllReadable;
    SecretsWritten(files, order);
    ReadableInAnyOrder(order, secrets);
    if Readable(secrets) {
      PathsDistinct(order, secrets);
      var after := WriteFiles(files, FilesOf(order));
      forall n, k | n in secrets && secrets[n].Some? && k in secrets[n].value
        ensures PathOf(n, k) in after && after[PathOf(n, k)] == secrets[n].value[k]
      {
        EntryIsWritten(order, secrets, files, n, k);
      }
      forall p | forall n, k | n in secrets && secrets[n].Some? && k in secrets[n].value :: p != PathOf(n, k)
        ensures (p in after <==> p in files) && (p in files ==> after[p] == files[p])
      {
        OtherFilesStay(order, secrets, files, p);
      }
    }
  }

  /**
   From the secrets in the cluster to the files on the machine: in whatever order secrets
   and entries are printed, the script finds a document in its payload, runs to its end
   exactly when every secret has data and all of it is UTF-8, and then delivers it.
  */
  lemma PayloadBecomesFiles(order: seq<Printed>, secrets: map<string, Data>, files: Files)
    requires Prints(order, secrets) && forall n | n in secrets :: IsName(n)
    ensures var loaded := Load(Payload(order));
      && Payload(order) != "" && loaded.Some? && loaded.value.Object?
      && var (after, ok) := WriteSecrets(files, loaded.value.members);
      (ok <==> Readable(secrets)) && (ok ==> Delivered(secrets, files, after))
  {
    hide Load, Payload, WriteSecrets, Readable, Delivered, Prints, Members;
    PayloadArrives(order);
    SecretsBecomeFiles(order, secrets, files);
  }
}
