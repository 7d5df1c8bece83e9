/**
 Volumes and their attachments: for sandboxes they become the pod's volumes and the
 mounts of its containers, for virtual machines the commands that link them into place.
*/
module Volumes {
  import opened Options
  import opened Bytes
  import Base64
  import Utf8
  import SecretPipeline

  /** A config map or secret to mount; `items` says whether only some of its keys were asked for. */
  datatype Projection = Projection(name: string, items: bool)

  /** A disk counts only with a populator that makes a file system. */
  datatype Disk = Disk(filesystem: bool)

  /** Nothing keeps a volume from having several sources. */
  datatype Source = Source(disk: Option<Disk>, configMap: Option<Projection>, secret: Option<Projection>)

  datatype Volume = Volume(name: string, source: Source)
  datatype Attachment = Attachment(name: string, mountPath: Option<string>)

  const NOTHING := Source(None, None, None)

  datatype Mount = Mount(name: string, path: string)
  datatype PodVolume = PodVolume(name: string, hostPath: string)

  datatype Problem = UnknownFilesystem | ItemsUnsupported
  datatype Result<T> = Done(value: T) | Stopped(problem: Problem)

  // ---------------------------------------------------------------- what a name stands for

  /** What a pod volume holds. */
  datatype Holding = OfDisk(name: string) | OfConfigMap(name: string) | OfSecret(name: string)

  function ConfigMapDir(name: string): string {
    "/etc/configmaps/" + name
  }

  function VolumeName(h: Holding): string {
    match h
    case OfDisk(n) => "disk-" + n
    case OfConfigMap(n) => "configmap-" + n
    case OfSecret(n) => "secret-" + n
  }

  function HostPath(h: Holding): string {
    match h
    case OfDisk(n) => "/mnt/disk-" + n
    case OfConfigMap(n) => ConfigMapDir(n)
    case OfSecret(n) => SecretPipeline.SecretDir(n)
  }

  lemma VolumeNameInjective(a: Holding, b: Holding)
    requires VolumeName(a) == VolumeName(b)
    ensures a == b
  {
    assert VolumeName(a)[0] == VolumeName(b)[0];
    var n := |VolumeName(a)| - |a.name|;
    assert VolumeName(a)[n..] == a.name && VolumeName(b)[n..] == b.name;
  }

  /** Different things lie at different places, at least as long as names have no slash. */
  lemma HostPathInjective(a: Holding, b: Holding)
    requires HostPath(a) == HostPath(b) && '/' !in a.name && '/' !in b.name
    ensures a == b
  {
    assert HostPath(a)[1] == HostPath(b)[1] && HostPath(a)[5] == HostPath(b)[5];
    var n := |HostPath(a)| - |a.name|;
    assert HostPath(a)[n..] == a.name && HostPath(b)[n..] == b.name;
  }

  /** The volume that goes by a name: the last one, as each replaces those before it; nothing if there is none. */
  function Named(volumes: seq<Volume>, name: string): Source {
    if volumes == [] then NOTHING
    else
      var last := volumes[|volumes| - 1];
      if last.name == name then last.source else Named(volumes[..|volumes| - 1], name)
  }

  /** The volume at position `i` is the last of its name. */
  predicate IsLast(volumes: seq<Volume>, i: nat) {
    i < |volumes| && forall j | i < j < |volumes| :: volumes[j].name != volumes[i].name
  }

  lemma {:induction false} LastCounts(volumes: seq<Volume>, i: nat)
    requires IsLast(volumes, i)
    ensures Named(volumes, volumes[i].name) == volumes[i].source
    decreases |volumes|
  {
    var last := |volumes| - 1;
    if i < last {
      LastCounts(volumes[..last], i);
    }
  }

  lemma {:induction false} NoneCounts(volumes: seq<Volume>, name: string)
    requires forall v | v in volumes :: v.name != name
    ensures Named(volumes, name) == NOTHING
    decreases |volumes|
  {
    if volumes != [] {
      assert volumes == volumes[..|volumes| - 1] + [volumes[|volumes| - 1]];
      NoneCounts(volumes[..|volumes| - 1], name);
    }
  }

  method VolumeMap(volumes: seq<Volume>) returns (m: map<string, Source>)
    ensures forall n :: (if n in m then m[n] else NOTHING) == Named(volumes, n)
  {
    m := map[];
    for i := 0 to |volumes|
      invariant forall n :: (if n in m then m[n] else NOTHING) == Named(volumes[..i], n)
    {
      assert volumes[..i + 1][..i] == volumes[..i];
      m := m[volumes[i].name := volumes[i].source];
    }
    assert volumes[..|volumes|] == volumes;
  }

  // ---------------------------------------------------------------- sandboxes

  /** What an attachment holds, in the order of the checks, under the name the attachment uses for a disk. */
  function Holdings(name: string, s: Source): seq<Holding> {
    (if s.disk.Some? then [OfDisk(name)] else [])
    + (if s.configMap.Some? then [OfConfigMap(s.configMap.value.name)] else [])
    + (if s.secret.Some? then [OfSecret(s.secret.value.name)] else [])
  }

  function Complaint(s: Source): Option<Problem> {
    if s.disk.Some? && !s.disk.value.filesystem then Some(UnknownFilesystem)
    else if s.configMap.Some? && s.configMap.value.items then Some(ItemsUnsupported)
    else if s.secret.Some? && s.secret.value.items then Some(ItemsUnsupported)
    else None
  }

  /** What an attachment can hold, source by source. */
  lemma HoldingsExactly(name: string, s: Source, h: Holding)
    ensures h in Holdings(name, s) <==>
      match h
      case OfDisk(n) => s.disk.Some? && n == name
      case OfConfigMap(n) => s.configMap.Some? && n == s.configMap.value.name
      case OfSecret(n) => s.secret.Some? && n == s.secret.value.name
  {
  }

  /** A disk without a file system, or only some keys of a config map or secret. */
  ghost predicate Unusable(s: Source) {
    s.disk == Some(Disk(false)) || exists p | s.configMap == Some(p) || s.secret == Some(p) :: p.items
  }

  function MountAt(hs: seq<Holding>, path: string): (ms: seq<Mount>)
    ensures |ms| == |hs|
    ensures forall i | 0 <= i < |hs| :: ms[i] == Mount(VolumeName(hs[i]), path)
  {
    if hs == [] then []
    else MountAt(hs[..|hs| - 1], path) + [Mount(VolumeName(hs[|hs| - 1]), path)]
  }

  function AttachmentMounts(volumes: seq<Volume>, a: Attachment): Result<seq<Mount>> {
    if a.mountPath.None? then Done([])
    else
      var s := Named(volumes, a.name);
      match Complaint(s)
      case Some(p) => Stopped(p)
      case None => Done(MountAt(Holdings(a.name, s), a.mountPath.value))
  }

  /** The mounts of one container; the first problem ends everything. */
  function ContainerMounts(volumes: seq<Volume>, attached: seq<Attachment>): Result<seq<Mount>> {
    if attached == [] then Done([])
    else
      match ContainerMounts(volumes, attached[..|attached| - 1])
      case Stopped(p) => Stopped(p)
      case Done(front) =>
        match AttachmentMounts(volumes, attached[|attached| - 1])
        case Stopped(p) => Stopped(p)
        case Done(ms) => Done(front + ms)
  }

  lemma {:induction false} ContainerStopped(volumes: seq<Volume>, attached: seq<Attachment>, k: nat)
    requires k <= |attached| && ContainerMounts(volumes, attached[..k]).Stopped?
    ensures ContainerMounts(volumes, attached) == ContainerMounts(volumes, attached[..k])
  {
    if k == |attached| {
      assert attached[..k] == attached;
    } else {
      assert attached[..|attached| - 1][..k] == attached[..k];
      ContainerStopped(volumes, attached[..|attached| - 1], k);
    }
  }

  /** All attachments before the one at `i` can be mounted, and this one has the problem `p`. */
  ghost predicate FirstProblem(volumes: seq<Volume>, attached: seq<Attachment>, i: nat, p: Problem) {
    && i < |attached| && ContainerMounts(volumes, attached[..i]).Done?
    && attached[i].mountPath.Some? && Unusable(Named(volumes, attached[i].name))
    && (p == UnknownFilesystem <==> Named(volumes, attached[i].name).disk == Some(Disk(false)))
  }

  /** Mounts are refused exactly when something unusable is attached with a mount path; the first such thing says why. */
  lemma {:induction false} StoppedIff(volumes: seq<Volume>, attached: seq<Attachment>)
    ensures var r := ContainerMounts(volumes, attached);
      && (r.Stopped? <==> exists a :: a in attached && a.mountPath.Some? && Unusable(Named(volumes, a.name)))
      && (r.Stopped? ==> exists i: nat :: FirstProblem(volumes, attached, i, r.problem))
    decreases |attached|
  {
    hide Named, Holdings, Complaint, Unusable;
    if attached != [] {
      var last := |attached| - 1;
      var front := attached[..last];
      assert attached == front + [attached[last]];
      StoppedIff(volumes, front);
      ComplaintExactly(Named(volumes, attached[last].name));
      if ContainerMounts(volumes, front).Stopped? {
        var i: nat :| FirstProblem(volumes, front, i, ContainerMounts(volumes, front).problem);
        assert front[..i] == attached[..i] && front[i] == attached[i];
        assert FirstProblem(volumes, attached, i, ContainerMounts(volumes, attached).problem);
      } else if ContainerMounts(volumes, attached).Stopped? {
        assert FirstProblem(volumes, attached, last, ContainerMounts(volumes, attached).problem);
      }
    }
  }

  lemma ComplaintExactly(s: Source)
    ensures Complaint(s).Some? <==> Unusable(s)
    ensures Complaint(s) == Some(UnknownFilesystem) <==> s.disk == Some(Disk(false))
  {
  }

  /** The mounts of all containers. */
  function PodMounts(volumes: seq<Volume>, containers: seq<seq<Attachment>>): (r: Result<seq<seq<Mount>>>)
    ensures r.Done? ==> |r.value| == |containers|
  {
    if containers == [] then Done([])
    else
      match PodMounts(volumes, containers[..|containers| - 1])
      case Stopped(p) => Stopped(p)
      case Done(front) =>
        match ContainerMounts(volumes, containers[|containers| - 1])
        case Stopped(p) => Stopped(p)
        case Done(ms) => Done(front + [ms])
  }

  lemma {:induction false} PodStopped(volumes: seq<Volume>, containers: seq<seq<Attachment>>, k: nat)
    requires k <= |containers| && PodMounts(volumes, containers[..k]).Stopped?
    ensures PodMounts(volumes, containers) == PodMounts(volumes, containers[..k])
  {
    if k == |containers| {
      assert containers[..k] == containers;
    } else {
      assert containers[..|containers| - 1][..k] == containers[..k];
      PodStopped(volumes, containers[..|containers| - 1], k);
    }
  }

  /** One pod volume per holding; a disk without a file system takes the rest of its volume down with it. */
  function VolumesOf(hs: seq<Holding>): (vs: seq<PodVolume>)
    ensures |vs| == |hs|
    ensures forall i | 0 <= i < |hs| :: vs[i] == PodVolume(VolumeName(hs[i]), HostPath(hs[i]))
  {
    if hs == [] then []
    else
      var last := hs[|hs| - 1];
      VolumesOf(hs[..|hs| - 1]) + [PodVolume(VolumeName(last), HostPath(last))]
  }

  function PodHoldings(volumes: seq<Volume>): seq<Holding> {
    if volumes == [] then []
    else
      var last := volumes[|volumes| - 1];
      PodHoldings(volumes[..|volumes| - 1])
      + (if last.source.disk.Some? && !last.source.disk.value.filesystem then [] else Holdings(last.name, last.source))
  }

  datatype Pod = Pod(mounts: seq<seq<Mount>>, volumes: seq<PodVolume>)

  /** The mounts of one attachment, source by source. */
  method Attach(m: map<string, Source>, a: Attachment, ghost volumes: seq<Volume>) returns (r: Result<seq<Mount>>)
    requires forall n :: (if n in m then m[n] else NOTHING) == Named(volumes, n)
    ensures r == AttachmentMounts(volumes, a)
  {
    hide VolumeName, Holdings, Complaint, MountAt;
    if a.mountPath.None? {
      return Done([]);
    }
    var volume := if a.name in m then m[a.name] else NOTHING;
    r := AttachSources(volume, a.name, a.mountPath.value);
  }

  method AttachSources(volume: Source, name: string, path: string) returns (r: Result<seq<Mount>>)
    ensures r == if Complaint(volume).Some? then Stopped(Complaint(volume).value)
                 else Done(MountAt(Holdings(name, volume), path))
  {
    hide VolumeName;
    var mounts: seq<Mount> := [];
    if volume.disk.Some? {
      if !volume.disk.value.filesystem {
        return Stopped(UnknownFilesystem);
      }
      mounts := mounts + [Mount(VolumeName(OfDisk(name)), path)];
    }
    if volume.configMap.Some? {
      if volume.configMap.value.items {
        return Stopped(ItemsUnsupported);
      }
      mounts := mounts + [Mount(VolumeName(OfConfigMap(volume.configMap.value.name)), path)];
    }
    if volume.secret.Some? {
      if volume.secret.value.items {
        return Stopped(ItemsUnsupported);
      }
      mounts := mounts + [Mount(VolumeName(OfSecret(volume.secret.value.name)), path)];
    }
    assert mounts == MountAt(Holdings(name, volume), path);
    r := Done(mounts);
  }

  /** The loop over the containers and their attachments. */
  method BuildMounts(volumes: seq<Volume>, containers: seq<seq<Attachment>>) returns (r: Result<seq<seq<Mount>>>)
    ensures r == PodMounts(volumes, containers)
  {
    var m := VolumeMap(volumes);
    var all: seq<seq<Mount>> := [];
    for i := 0 to |containers|
      invariant PodMounts(volumes, containers[..i]) == Done(all)
    {
      var attachments := containers[i];
      var mounts: seq<Mount> := [];
      assert containers[..i + 1][..i] == containers[..i];
      for j := 0 to |attachments|
        invariant ContainerMounts(volumes, attachments[..j]) == Done(mounts)
      {
        assert attachments[..j + 1][..j] == attachments[..j];
        var attached := Attach(m, attachments[j], volumes);
        if attached.Stopped? {
          ContainerStopped(volumes, attachments, j + 1);
          PodStopped(volumes, containers, i + 1);
          return Stopped(attached.problem);
        }
        mounts := mounts + attached.value;
      }
      assert attachments[..|attachments|] == attachments;
      all := all + [mounts];
    }
    assert containers[..|containers|] == containers;
    r := Done(all);
  }

  lemma VolumesAppend(a: seq<Holding>, b: seq<Holding>)
    ensures VolumesOf(a + b) == VolumesOf(a) + VolumesOf(b)
  {
  }

  /** The loop that adds the pod's volumes. */
  method BuildVolumes(volumes: seq<Volume>) returns (vs: seq<PodVolume>)
    ensures vs == VolumesOf(PodHoldings(volumes))
  {
    hide VolumeName, HostPath, Holdings, VolumesOf;
    vs := [];
    assert vs == VolumesOf(PodHoldings([])) by { NoVolumes(); }
    for i := 0 to |volumes|
      invariant vs == VolumesOf(PodHoldings(volumes[..i]))
    {
      var volume := volumes[i];
      assert volumes[..i + 1][..i] == volumes[..i];
      if volume.source.disk.Some? && !volume.source.disk.value.filesystem {
        assert PodHoldings(volumes[..i]) + [] == PodHoldings(volumes[..i]);
        continue;
      }
      var added := VolumeSources(volume.name, volume.source);
      VolumesAppend(PodHoldings(volumes[..i]), Holdings(volume.name, volume.source));
      vs := vs + added;
    }
    assert volumes[..|volumes|] == volumes;
  }

  lemma NoVolumes()
    ensures VolumesOf([]) == []
  {
  }

  method VolumeSources(name: string, s: Source) returns (vs: seq<PodVolume>)
    ensures vs == VolumesOf(Holdings(name, s))
  {
    hide VolumeName, HostPath;
    vs := [];
    if s.disk.Some? {
      vs := vs + [PodVolume(VolumeName(OfDisk(name)), HostPath(OfDisk(name)))];
    }
    if s.configMap.Some? {
      var h := OfConfigMap(s.configMap.value.name);
      vs := vs + [PodVolume(VolumeName(h), HostPath(h))];
    }
    if s.secret.Some? {
      var h := OfSecret(s.secret.value.name);
      vs := vs + [PodVolume(VolumeName(h), HostPath(h))];
    }
  }

  // ---------------------------------------------------------------- mounts and volumes agree

  /** The volume that goes by a name is among the volumes, unless there is nothing under the name. */
  lemma {:induction false} NamedIsVolume(volumes: seq<Volume>, name: string)
    ensures Named(volumes, name) == NOTHING || Volume(name, Named(volumes, name)) in volumes
  {
    if volumes != [] {
      var last := volumes[|volumes| - 1];
      assert volumes == volumes[..|volumes| - 1] + [last];
      if last.name == name {
        assert last == Volume(name, last.source);
      } else {
        NamedIsVolume(volumes[..|volumes| - 1], name);
      }
    }
  }

  lemma {:induction false} PodHoldsAll(volumes: seq<Volume>, v: Volume, h: Holding)
    requires v in volumes && (v.source.disk.Some? ==> v.source.disk.value.filesystem) && h in Holdings(v.name, v.source)
    ensures h in PodHoldings(volumes)
  {
    hide Holdings;
    var last := volumes[|volumes| - 1];
    assert volumes == volumes[..|volumes| - 1] + [last];
    if v != last {
      PodHoldsAll(volumes[..|volumes| - 1], v, h);
    }
  }

  /** The pod holds exactly what its volumes hold, but for those with a disk without a file system. */
  lemma {:induction false} PodHoldsExactly(volumes: seq<Volume>, h: Holding)
    ensures h in PodHoldings(volumes) <==>
      exists v :: v in volumes && v.source.disk != Some(Disk(false)) && h in Holdings(v.name, v.source)
    decreases |volumes|
  {
    hide Holdings;
    if volumes != [] {
      var last := volumes[|volumes| - 1];
      var front := volumes[..|volumes| - 1];
      assert volumes == front + [last];
      PodHoldsExactly(front, h);
    }
  }

  /** The attachment `a` asks for a mount of `h`. */
  ghost predicate AsksFor(volumes: seq<Volume>, a: Attachment, h: Holding) {
    a.mountPath.Some? && h in Holdings(a.name, Named(volumes, a.name))
  }

  lemma AttachmentExactly(volumes: seq<Volume>, a: Attachment, m: Mount)
    requires AttachmentMounts(volumes, a).Done?
    ensures m in AttachmentMounts(volumes, a).value <==>
      exists h :: AsksFor(volumes, a, h) && m == Mount(VolumeName(h), a.mountPath.value)
  {
  }

  /** A container has the mounts its attachments ask for, and no others. */
  lemma {:induction false} MountsExactly(volumes: seq<Volume>, attached: seq<Attachment>, m: Mount)
    requires ContainerMounts(volumes, attached).Done?
    ensures m in ContainerMounts(volumes, attached).value <==>
      exists a, h :: a in attached && AsksFor(volumes, a, h) && m == Mount(VolumeName(h), a.mountPath.value)
  {
    hide AttachmentMounts, Named, Holdings, VolumeName;
    if attached != [] {
      var last := attached[|attached| - 1];
      var front := attached[..|attached| - 1];
      assert attached == front + [last];
      MountsExactly(volumes, front, m);
      AttachmentExactly(volumes, last, m);
      if a, h :| a in attached && AsksFor(volumes, a, h) && m == Mount(VolumeName(h), a.mountPath.value) {
        assert a in front || a == last;
      }
    }
  }

  /** No attachment of a container that could be built asks for a disk without a file system. */
  lemma {:induction false} NoComplaint(volumes: seq<Volume>, attached: seq<Attachment>, a: Attachment)
    requires ContainerMounts(volumes, attached).Done? && a in attached && a.mountPath.Some?
    ensures Complaint(Named(volumes, a.name)).None?
  {
    var last := attached[|attached| - 1];
    assert attached == attached[..|attached| - 1] + [last];
    if a != last {
      NoComplaint(volumes, attached[..|attached| - 1], a);
    }
  }

  /**
   Every mount of a container names a volume of the pod, and whichever pod volume goes by
   that name lies where the attached volume's content is, however often names repeat.
  */
  lemma EveryMountHasItsVolume(volumes: seq<Volume>, attached: seq<Attachment>, m: Mount) returns (a: Attachment, h: Holding)
    requires ContainerMounts(volumes, attached).Done? && m in ContainerMounts(volumes, attached).value
    ensures a in attached && AsksFor(volumes, a, h) && m == Mount(VolumeName(h), a.mountPath.value)
    ensures PodVolume(m.name, HostPath(h)) in VolumesOf(PodHoldings(volumes))
    ensures forall v | v in VolumesOf(PodHoldings(volumes)) && v.name == m.name :: v.hostPath == HostPath(h)
  {
    hide HostPath, VolumeName, Holdings, ContainerMounts;
    MountsExactly(volumes, attached, m);
    a, h :| a in attached && AsksFor(volumes, a, h) && m == Mount(VolumeName(h), a.mountPath.value);
    NamedIsVolume(volumes, a.name);
    NoComplaint(volumes, attached, a);
    assert Holdings(a.name, NOTHING) == [] by { NothingHolds(a.name); }
    PodHoldsAll(volumes, Volume(a.name, Named(volumes, a.name)), h);
    var hs := PodHoldings(volumes);
    var i :| 0 <= i < |hs| && hs[i] == h;
    assert VolumesOf(hs)[i] == PodVolume(m.name, HostPath(h));
    forall v | v in VolumesOf(hs) && v.name == m.name ensures v.hostPath == HostPath(h) {
      var j :| 0 <= j < |hs| && VolumesOf(hs)[j] == v;
      VolumeNameInjective(hs[j], h);
    }
  }

  lemma NothingHolds(name: string)
    ensures Holdings(name, NOTHING) == []
  {
  }

  // ---------------------------------------------------------------- virtual machines

  /** `mkdir -p dir`, or `ln -s target path`. */
  datatype Command = Mkdir(dir: string) | Link(target: string, path: string)

  function LinkTargets(s: Source): seq<string> {
    (if s.configMap.Some? then [ConfigMapDir(s.configMap.value.name)] else [])
    + (if s.secret.Some? then [SecretPipeline.SecretDir(s.secret.value.name)] else [])
  }

  predicate Refused(s: Source) {
    (s.configMap.Some? && s.configMap.value.items) || (s.secret.Some? && s.secret.value.items)
  }

  function LinksTo(targets: seq<string>, path: string): (ls: seq<Command>)
    ensures |ls| == |targets| && forall i | 0 <= i < |ls| :: ls[i] == Link(targets[i], path)
  {
    if targets == [] then []
    else LinksTo(targets[..|targets| - 1], path) + [Link(targets[|targets| - 1], path)]
  }

  function AttachmentLinks(volumes: seq<Volume>, a: Attachment): seq<Command> {
    if a.mountPath.None? then [] else LinksTo(LinkTargets(Named(volumes, a.name)), a.mountPath.value)
  }

  /** The links, in the order of the attachments. */
  function Links(volumes: seq<Volume>, attached: seq<Attachment>): seq<Command> {
    if attached == [] then []
    else Links(volumes, attached[..|attached| - 1]) + AttachmentLinks(volumes, attached[|attached| - 1])
  }

  ghost predicate Refusal(volumes: seq<Volume>, attached: seq<Attachment>) {
    exists a | a in attached :: a.mountPath.Some? && Refused(Named(volumes, a.name))
  }

  /** Commands are refused exactly when only some keys of a config map or secret are to be mounted. */
  lemma RefusalExactly(volumes: seq<Volume>, attached: seq<Attachment>)
    ensures Refusal(volumes, attached) <==>
      exists a, p: Projection :: a in attached && a.mountPath.Some? && p.items &&
        (Named(volumes, a.name).configMap == Some(p) || Named(volumes, a.name).secret == Some(p))
  {
    hide Named;
    if a :| a in attached && a.mountPath.Some? && Refused(Named(volumes, a.name)) {
      var s := Named(volumes, a.name);
      var p := if s.configMap.Some? && s.configMap.value.items then s.configMap.value else s.secret.value;
      assert p.items && (s.configMap == Some(p) || s.secret == Some(p));
    }
  }

  /** The elements of a set in some order. */
  method UnsortedList(s: set<string>) returns (order: seq<string>)
    ensures forall d :: d in order <==> d in s
    ensures forall i, j | 0 <= i < j < |order| :: order[i] != order[j]
  {
    order := [];
    var left := s;
    while left != {}
      invariant left <= s && forall d :: d in order <==> d in s - left
      invariant forall i, j | 0 <= i < j < |order| :: order[i] != order[j]
    {
      var d :| d in left;
      assert d !in order;
      order := order + [d];
      left := left - {d};
    }
  }

  /** `parents` holds the directories of the links. */
  ghost predicate AreParents(parents: set<string>, links: seq<Command>, dirOf: string -> string) {
    && (forall l | l in links :: l.Link? && dirOf(l.path) in parents)
    && (forall d | d in parents :: exists l :: l in links && l.Link? && dirOf(l.path) == d)
  }

  /** The loop over the attachments. */
  method CollectLinks(volumes: seq<Volume>, attached: seq<Attachment>, dirOf: string -> string)
      returns (links: Option<seq<Command>>, parents: set<string>)
    ensures links.None? <==> Refusal(volumes, attached)
    ensures links.Some? ==> links.value == Links(volumes, attached) && AreParents(parents, links.value, dirOf)
  {
    hide Named, AreParents, LinkTargets, Refused;
    var m := VolumeMap(volumes);
    parents := {};
    var done: seq<Command> := [];
    assert AreParents(parents, done, dirOf) by { NoParents(dirOf); }
    for i := 0 to |attached|
      invariant done == Links(volumes, attached[..i]) && !Refusal(volumes, attached[..i])
      invariant AreParents(parents, done, dirOf)
    {
      var a := attached[i];
      assert attached[..i + 1] == attached[..i] + [a] && attached[..i + 1][..i] == attached[..i] && a in attached;
      if a.mountPath.Some? {
        var volume := if a.name in m then m[a.name] else NOTHING;
        var added := LinkSources(volume, a.mountPath.value);
        if added.None? {
          assert Refused(Named(volumes, a.name));
          return None, {};
        }
        MoreParents(parents, done, dirOf, LinkTargets(volume), a.mountPath.value);
        if added.value != [] {
          parents := parents + {dirOf(a.mountPath.value)};
        }
        done := done + added.value;
      }
    }
    assert attached[..|attached|] == attached;
    links := Some(done);
  }

  lemma NoParents(dirOf: string -> string)
    ensures AreParents({}, [], dirOf)
  {
  }

  lemma MoreParents(parents: set<string>, links: seq<Command>, dirOf: string -> string, targets: seq<string>, path: string)
    requires AreParents(parents, links, dirOf)
    ensures AreParents(if targets == [] then parents else parents + {dirOf(path)}, links + LinksTo(targets, path), dirOf)
  {
  }

  /**
   The commands of a virtual machine; `dirOf` is the directory part of a path. Whatever
   the order in which the set of directories is enumerated, every link comes after its own
   directory was made, directories are made once, and links keep the attachments' order.
  */
  method BuildCommands(volumes: seq<Volume>, attached: seq<Attachment>, dirOf: string -> string)
      returns (cmds: Option<seq<Command>>, ghost dirs: seq<string>)
    ensures cmds.None? <==> Refusal(volumes, attached)
    ensures cmds.Some? ==>
      && |dirs| <= |cmds.value| && cmds.value[|dirs|..] == Links(volumes, attached)
      && (forall i | 0 <= i < |dirs| :: cmds.value[i] == Mkdir(dirs[i]))
      && (forall i, j | 0 <= i < j < |dirs| :: dirs[i] != dirs[j])
      && (forall d :: d in dirs <==> exists l :: l in Links(volumes, attached) && l.Link? && dirOf(l.path) == d)
      && (forall i | 0 <= i < |cmds.value| && cmds.value[i].Link? ::
            exists j :: 0 <= j < i && cmds.value[j] == Mkdir(dirOf(cmds.value[i].path)))
  {
    hide Links, Refusal;
    var links, parents := CollectLinks(volumes, attached, dirOf);
    if links.None? {
      return None, [];
    }
    var order := UnsortedList(parents);
    var made: seq<Command> := [];
    for i := 0 to |order|
      invariant |made| == i && forall j | 0 <= j < i :: made[j] == Mkdir(order[j])
    {
      made := made + [Mkdir(order[i])];
    }
    dirs := order;
    cmds := Some(made + links.value);
    forall i | 0 <= i < |cmds.value| && cmds.value[i].Link?
      ensures exists j :: 0 <= j < i && cmds.value[j] == Mkdir(dirOf(cmds.value[i].path))
    {
      assert cmds.value[i] in links.value && dirOf(cmds.value[i].path) in order;
      var j :| 0 <= j < |order| && order[j] == dirOf(cmds.value[i].path);
      assert cmds.value[j] == made[j];
    }
  }

  /** The links of one attachment, source by source. */
  method LinkSources(volume: Source, path: string) returns (links: Option<seq<Command>>)
    ensures links == if Refused(volume) then None else Some(LinksTo(LinkTargets(volume), path))
  {
    var done: seq<Command> := [];
    ghost var targets: seq<string> := [];
    if volume.configMap.Some? {
      if volume.configMap.value.items {
        return None;
      }
      done := done + [Link(ConfigMapDir(volume.configMap.value.name), path)];
      targets := targets + [ConfigMapDir(volume.configMap.value.name)];
    }
    assert done == LinksTo(targets, path);
    if volume.secret.Some? {
      if volume.secret.value.items {
        return None;
      }
      done := done + [Link(SecretPipeline.SecretDir(volume.secret.value.name), path)];
      targets := targets + [SecretPipeline.SecretDir(volume.secret.value.name)];
    }
    assert done == LinksTo(targets, path);
    assert targets == LinkTargets(volume);
    links := Some(done);
  }

  // ---------------------------------------------------------------- config maps

  /** A file that cloud-init writes; its content is base64. */
  datatype WriteFile = WriteFile(path: string, content: string)

  function FileOf(name: string, key: string, text: string): WriteFile {
    WriteFile(ConfigMapDir(name) + ['/'] + key, Base64.Encode(Utf8.Encode(text)))
  }

  /** The files of the config maps that volumes name, and no others. */
  ghost predicate ConfigMapsWritten(volumes: seq<Volume>, cluster: map<string, map<string, string>>, files: seq<WriteFile>)
    requires forall v | v in volumes && v.source.configMap.Some? :: v.source.configMap.value.name in cluster
  {
    forall f :: f in files <==>
      exists v, k :: v in volumes && v.source.configMap.Some? && k in cluster[v.source.configMap.value.name]
        && f == FileOf(v.source.configMap.value.name, k, cluster[v.source.configMap.value.name][k])
  }

  /** In whatever order a config map's keys come, exactly the files of the config maps that volumes name. */
  method BuildConfigMaps(volumes: seq<Volume>, cluster: map<string, map<string, string>>)
      returns (files: Option<seq<WriteFile>>)
    ensures files.Some? <==> forall v | v in volumes && v.source.configMap.Some? :: v.source.configMap.value.name in cluster
    ensures files.Some? ==> ConfigMapsWritten(volumes, cluster, files.value)
  {
    var done: seq<WriteFile> := [];
    for i := 0 to |volumes|
      invariant forall v | v in volumes[..i] && v.source.configMap.Some? :: v.source.configMap.value.name in cluster
      invariant forall f :: f in done <==>
        exists v, k :: v in volumes[..i] && v.source.configMap.Some? && k in cluster[v.source.configMap.value.name]
          && f == FileOf(v.source.configMap.value.name, k, cluster[v.source.configMap.value.name][k])
    {
      var volume := volumes[i];
      assert volumes[..i + 1] == volumes[..i] + [volume] && volume in volumes;
      if volume.source.configMap.Some? {
        var name := volume.source.configMap.value.name;
        if name !in cluster {
          return None;
        }
        var added := BuildConfigMap(name, cluster[name]);
        done := done + added;
      }
    }
    assert volumes[..|volumes|] == volumes;
    files := Some(done);
  }

  method BuildConfigMap(name: string, data: map<string, string>) returns (files: seq<WriteFile>)
    ensures forall f :: f in files <==> exists k :: k in data && f == FileOf(name, k, data[k])
  {
    files := [];
    var left := data.Keys;
    while left != {}
      invariant left <= data.Keys
      invariant forall f :: f in files <==> exists k :: k in data.Keys - left && f == FileOf(name, k, data[k])
    {
      var k :| k in left;
      files := files + [FileOf(name, k, data[k])];
      left := left - {k};
    }
  }

  /** A config map's value reaches its file as it was. */
  lemma ConfigMapValueArrives(name: string, key: string, text: string)
    ensures var b := Base64.Decode(FileOf(name, key, text).content);
      b == Some(Utf8.Encode(text)) && Utf8.Decode(b.value) == Some(text)
  {
    Base64.RoundTrip(Utf8.Encode(text));
    Utf8.RoundTrip(text);
  }

  // ---------------------------------------------------------------- links lead to contents

  /** The attachment `a` asks for a link to `h`. */
  ghost predicate AsksForLink(volumes: seq<Volume>, a: Attachment, h: Holding) {
    AsksFor(volumes, a, h) && !h.OfDisk?
  }

  /** The targets of a volume are the places of its config map and its secret. */
  lemma TargetsExactly(name: string, s: Source, t: string)
    ensures t in LinkTargets(s) <==> exists h :: h in Holdings(name, s) && !h.OfDisk? && t == HostPath(h)
  {
    hide ConfigMapDir, SecretPipeline.SecretDir;
    if s.configMap.Some? {
      assert OfConfigMap(s.configMap.value.name) in Holdings(name, s);
    }
    if s.secret.Some? {
      assert OfSecret(s.secret.value.name) in Holdings(name, s);
    }
  }

  lemma LinksToExactly(targets: seq<string>, path: string, l: Command)
    ensures l in LinksTo(targets, path) <==> l.Link? && l.path == path && l.target in targets
  {
    if l.Link? && l.path == path && l.target in targets {
      var i :| 0 <= i < |targets| && targets[i] == l.target;
      assert LinksTo(targets, path)[i] == l;
    }
  }

  lemma AttachmentLinksExactly(volumes: seq<Volume>, a: Attachment, l: Command)
    ensures l in AttachmentLinks(volumes, a) <==>
      exists h :: AsksForLink(volumes, a, h) && l == Link(HostPath(h), a.mountPath.value)
  {
    hide Holdings, HostPath, LinkTargets, Named;
    if a.mountPath.Some? {
      var s := Named(volumes, a.name);
      LinksToExactly(LinkTargets(s), a.mountPath.value, l);
      if l.Link? {
        TargetsExactly(a.name, s, l.target);
      }
    }
  }

  /** There is a link for everything that attachments ask for, at its mount path, and no other. */
  lemma {:induction false} LinksExactly(volumes: seq<Volume>, attached: seq<Attachment>, l: Command)
    ensures l in Links(volumes, attached) <==>
      exists a, h :: a in attached && AsksForLink(volumes, a, h) && l == Link(HostPath(h), a.mountPath.value)
    decreases |attached|
  {
    hide AttachmentLinks, HostPath, Holdings, Named;
    if attached != [] {
      var last := attached[|attached| - 1];
      var front := attached[..|attached| - 1];
      assert attached == front + [last];
      LinksExactly(volumes, front, l);
      AttachmentLinksExactly(volumes, last, l);
      if a, h :| a in attached && AsksForLink(volumes, a, h) && l == Link(HostPath(h), a.mountPath.value) {
        assert a in front || a == last;
      }
    }
  }

  /** The path of a file in the directory that a link points to. */
  function Inside(target: string, key: string): string {
    target + ['/'] + key
  }

  /** What is attached comes from a volume. */
  lemma ComesFromVolume(volumes: seq<Volume>, a: Attachment, h: Holding)
    requires AsksForLink(volumes, a, h)
    ensures exists v :: v in volumes && h in Holdings(v.name, v.source)
  {
    NamedIsVolume(volumes, a.name);
    NothingHolds(a.name);
    var v := Volume(a.name, Named(volumes, a.name));
    assert h in Holdings(v.name, v.source);
  }

  /**
   A secret's link leads to the secret: of the files that the script leaves behind, those in
   the directory the link points to hold the entries of that secret under their keys, and
   any other name there is as it was before.
  */
  lemma SecretLinkHoldsSecret(volumes: seq<Volume>, attached: seq<Attachment>, a: Attachment, n: string,
      secrets: map<string, SecretPipeline.Data>, before: SecretPipeline.Files, after: SecretPipeline.Files, key: string)
    requires a in attached && AsksForLink(volumes, a, OfSecret(n))
    requires forall m :: m in secrets <==> exists v :: v in volumes && v.source.secret.Some? && v.source.secret.value.name == m
    requires forall m | m in secrets :: SecretPipeline.IsName(m)
    requires SecretPipeline.Readable(secrets) && SecretPipeline.Delivered(secrets, before, after)
    ensures var l := Link("/etc/secrets/content/" + n, a.mountPath.value);
      && l in Links(volumes, attached) && n in secrets
      && (key in secrets[n].value ==>
        Inside(l.target, key) in after && after[Inside(l.target, key)] == secrets[n].value[key])
      && (key !in secrets[n].value ==>
        && (Inside(l.target, key) in after <==> Inside(l.target, key) in before)
        && (Inside(l.target, key) in before ==> after[Inside(l.target, key)] == before[Inside(l.target, key)]))
  {
    var l := Link("/etc/secrets/content/" + n, a.mountPath.value);
    assert l == Link(HostPath(OfSecret(n)), a.mountPath.value);
    LinksExactly(volumes, attached, l);
    ComesFromVolume(volumes, a, OfSecret(n));
    assert n in secrets;
    assert Inside(l.target, key) == SecretPipeline.PathOf(n, key);
    if key !in secrets[n].value {
      forall m, k | m in secrets && secrets[m].Some? && k in secrets[m].value
        ensures SecretPipeline.PathOf(n, key) != SecretPipeline.PathOf(m, k)
      {
        if SecretPipeline.PathOf(n, key) == SecretPipeline.PathOf(m, k) {
          SecretPipeline.PathInjective(n, key, m, k);
        }
      }
    }
  }

  lemma ConfigMapPathInjective(n1: string, k1: string, n2: string, k2: string)
    requires SecretPipeline.IsName(n1) && SecretPipeline.IsName(n2)
    requires Inside(ConfigMapDir(n1), k1) == Inside(ConfigMapDir(n2), k2)
    ensures n1 == n2 && k1 == k2
  {
    var dir := "/etc/configmaps/";
    var (s, t) := (n1 + ['/'] + k1, n2 + ['/'] + k2);
    assert Inside(ConfigMapDir(n1), k1) == dir + s && Inside(ConfigMapDir(n2), k2) == dir + t;
    assert (dir + s)[|dir|..] == s && (dir + t)[|dir|..] == t;
    SecretPipeline.FirstSlash(n1, k1);
    SecretPipeline.FirstSlash(n2, k2);
    assert s[..|n1|] == n1 && t[..|n2|] == n2;
    assert s[|n1| + 1..] == k1 && t[|n2| + 1..] == k2;
  }

  /**
   A config map's link leads to the config map: the files that cloud-init writes in the
   directory the link points to are those of its entries, under their keys, and a file's
   content decodes to the entry's value.
  */
  lemma ConfigMapLinkHoldsConfigMap(volumes: seq<Volume>, attached: seq<Attachment>, a: Attachment, n: string,
      cluster: map<string, map<string, string>>, files: seq<WriteFile>, key: string, content: string)
    requires a in attached && AsksForLink(volumes, a, OfConfigMap(n))
    requires forall v | v in volumes && v.source.configMap.Some? ::
      v.source.configMap.value.name in cluster && SecretPipeline.IsName(v.source.configMap.value.name)
    requires ConfigMapsWritten(volumes, cluster, files)
    ensures var l := Link("/etc/configmaps/" + n, a.mountPath.value);
      && l in Links(volumes, attached) && n in cluster
      && (WriteFile(Inside(l.target, key), content) in files <==>
        key in cluster[n] && content == Base64.Encode(Utf8.Encode(cluster[n][key])))
  {
    var l := Link("/etc/configmaps/" + n, a.mountPath.value);
    var f := WriteFile(Inside(l.target, key), content);
    assert l == Link(HostPath(OfConfigMap(n)), a.mountPath.value);
    LinksExactly(volumes, attached, l);
    ComesFromVolume(volumes, a, OfConfigMap(n));
    var v :| v in volumes && OfConfigMap(n) in Holdings(v.name, v.source);
    hide ConfigMapDir, Utf8.Encode, Base64.Encode;
    assert l.target == ConfigMapDir(n) by { ConfigMapDirIs(n); }
    if f in files {
      var w, k :| w in volumes && w.source.configMap.Some? && k in cluster[w.source.configMap.value.name]
        && f == FileOf(w.source.configMap.value.name, k, cluster[w.source.configMap.value.name][k]);
      ConfigMapPathInjective(n, key, w.source.configMap.value.name, k);
    }
    if key in cluster[n] && content == Base64.Encode(Utf8.Encode(cluster[n][key])) {
      assert f == FileOf(n, key, cluster[n][key]);
    }
  }

  lemma ConfigMapDirIs(n: string)
    ensures ConfigMapDir(n) == "/etc/configmaps/" + n
  {
  }
}
