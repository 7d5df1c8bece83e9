# Verified model of the GCP infrastructure provider's controllers

The repository is a set of Kubernetes controllers that keep resources of the Google cloud in
line with workloads, instances, subnets and network contexts declared in *upstream* clusters.
They do so through a *downstream* API server on which Crossplane runs: the controllers create
Crossplane resources there, and Crossplane creates and deletes the real machines, networks and
secrets. This project models that protocol and the translations inside it, and proves what they
promise.

## The three parts

**The protocol** (`Kube`, `Instance*`, `Subnet*`, `NetworkContext*`, `Workload*`, `Creation*`).
`Kube` holds the rules of an API server: a write stamps a fresh resource version, an update from an
outdated copy is refused, deleting an object that has finalizers only marks it, no finalizer can be
added to a marked object, and a marked object that loses its last finalizer is gone. Each controller
is a state machine (`*Machine`, `WorkloadCleanup`, `CreationOrder`) whose step is one API call with
the local computation up to the next one, or one step of anybody else: users, Crossplane, other
writers, a crash that loses all local copies. Any number of objects is reconciled at once, and the
theorems hold for every interleaving. Beside each machine there is the controller as it is written
(`*Controller`): a class whose methods make the calls one after the other, and each of which is proved
to leave both API servers exactly as the machine does when driven through the same turns
(`Drive`) and to report what the answer to its last call says (`DriveEnding`); `DriveIsRun` says that being driven is a run of the machine, and `UndisturbedPass` that an
undisturbed pass is the `Pass` of the progress theorems.

**Translations that must preserve meaning** (`Policy`, `PolicyPass`, `PolicyRace`, `PolicyScope`,
`SecretPipeline` with `Encoding` and `Json`, `Volumes`, `MountLinks` with `Paths`, `AccountName`, `Decimal`): ingress rules
to firewalls with text ports, passes over them one after the other and interleaved, what all firewalls of a
workload admit together; secrets to nested JSON and base64 and back to files; volumes and attachments to pod
mounts and to shell commands, and what these commands do to a file system.

**Identity and routing** (`MappedNamespace`, `Anchors`, `Routing`): anchors, owner references and
annotations, the managed labels that all reads are filtered by, the encoding of cluster names, and which
upstream objects a downstream event wakes up.

## Assumptions

- One pass is in flight per object and reads are linearizable: no stale caches, one live leader.
- Users do not touch the infra finalizer of an existing object, and nobody but the controllers writes
  the Programmed condition. Crossplane creates a machine only for a resource carrying its finalizer and
  drops that finalizer only from a deleted resource whose machine is gone.
- UIDs are never handed out twice. Where a resource is named after a UID, the UID is its key.
- In the instance, creation, subnet and network context machines nobody but the controllers creates downstream
  resources of the kinds they create, nor brings a deleted one back; others may change and delete them.
- A machine's commands run in a directory that exists.
- In `WorkloadCleanup`, the workload's instances are quiescent: nobody brings its resources back to
  life during cleanup. The same object is otherwise open to everybody.
- Secret names contain no slash, and neither names nor keys are the path components `.` and `..`; the
  API server enforces both.
- What a pass finds out from state that is not modelled (a location, a scheduling gate, a power state,
  whether a mutated object differs from the one read) is an arbitrary `Hint` at every call.

## Where the code falls short of what one would expect

Each of these is a lemma, with the exact condition where there is one.

- Exceptions of address blocks are dropped: a firewall may admit more than its rule
  (`Policy.ExceptionIsLost`).
- A rule without ports opens every port, its firewall opens none (`Policy.NoPortsIsLost`).
- A range from below zero does not read as a range. For every rule that is compiled at all, `Policy.ExactIff` says
  exactly when its firewall means the same, taking exceptions, missing ports and such ranges together.
- A zero or named port ends the pass quietly. `PolicyPass.NamedPortIsLost` is the smallest case;
  `PolicyPass.EveryRuleHasItsFirewall` says exactly when all rules get their firewalls,
  `PolicyPass.UnreadablePortStops` which ones do not, and `Policy.TextPortIsZero` which texts are such ports.
- A firewall acts on a network and a workload's machines, not on an interface: `PolicyScope.OwnPolicyIff` says
  exactly when an interface gets its own policy and nothing else.
- An underscore in a cluster name breaks the way back from an event to its owner
  (`Routing.ClusterNameRoundTrip`, `Routing.OwnerIsWoken`).
- A managed label with the key of the workload label overrides it, and then cleanup does not find the
  firewall (`PolicyPass.FirewallIsFound`), events are not routed (`Routing.CreatedIsRoutable`), and the
  secret version drops out of sight (`Anchors.WorkloadLabelKeepsVisible`).
- A secret without data, or with data that is not UTF-8, makes the script raise half-way
  (`SecretPipeline.PayloadBecomesFiles`).
- A mount path above another becomes a directory before its link is made, and the link lands inside it
  (`MountLinks.NestedMountIsLost`).
- With a slash at the end of a mount path, `path.Dir` gives the path itself, and so the link lands inside
  (`MountLinks.TrailingSlashIsLost`; `MountLinks.DataSlashIsLost` is the smallest case). `MountLinks.LinksLandIff`
  says for all mount paths exactly when all links land where they should.
- A workload is never released while its upstream namespace is unknown (`WorkloadCleanup.PassReleases`). An API
  server that deletes namespaces in the usual way keeps one while a workload in it holds a finalizer; the case is
  that of a namespace finalized by force, or of a server without that protection.
- The readiness of the secret version and the IAM member is never waited for. It is looked at right after the
  member was created, in a pass that ends there in any case (`CreationOrder.MemberEndsPass`), and never by the
  pass that writes the instance (`CreationOrder.WriterSawItself`). Whatever is written in any run is written
  just the same when neither is ever Ready (`CreationOrder.ReadinessIsNotAwaited`), and
  `CreationOrder.WrittenWithoutReadiness` is such a run for an instance with secrets.

## Model

| member | source | states |
|---|---|---|
| InstanceSafety.MachineIsHeld | internal/controller/instance_controller.go:1561-1611 | in every reachable state of every interleaving, a machine that exists at the provider has an upstream instance that still holds the infra finalizer, and a resource that Crossplane still holds |
| InstanceSafety.OrphanIsSpent | internal/controller/instance_controller.go:1579-1608 | a downstream resource whose instance has let go is being deleted, without infra or Crossplane finalizer, and has no machine |
| InstanceSafety.NoOrphan | internal/controller/instance_controller.go:1579-1608 | when nobody else puts finalizers on it, there is no such resource at all |
| InstanceSafety.StaleCopyIsRefused | internal/controller/instance_controller.go:1575-1602 | when `Finalize` writes back the copy it read before its own delete, the API server always refuses it |
| InstanceSafety.OnlyCrossplaneLetsGo | internal/controller/instance_controller.go:1034-1036 | no call of the controller ever takes Crossplane's finalizer off a resource, from whatever copy it works |
| InstanceSafety.CallInv | internal/controller/instance_controller.go:73-192 | every API call of a pass keeps the inductive invariant over copies, finalizers and machines, and touches nothing of any other instance |
| InstanceSafety.StepInv | internal/controller/instance_controller.go:73-192 | every step of anybody keeps the invariant |
| InstanceSafety.RunInv | internal/controller/instance_controller.go:73-192 | the invariant holds over whole runs |
| InstanceLiveness.TwoPasses | internal/controller/instance_controller.go:1575-1608 | from any reachable state where an instance is deleted and Crossplane does not hold its resource, two undisturbed passes release both finalizers, and one pass does exactly when the resource is absent or already marked |
| InstanceLiveness.DeletionCompletes | internal/controller/instance_controller.go:1575-1608 | from any reachable state where an instance is deleted, a pass tells Crossplane, Crossplane deletes the machine and lets go, and a second pass releases everything; no machine is left |
| InstanceLiveness.FinalizingPass | internal/controller/instance_controller.go:1575-1608 | every undisturbed finalizing pass leaves the resource marked or gone, and releases the instance if and only if the resource was absent, or marked already and free of Crossplane's finalizer; what Crossplane holds stays there |
| InstanceLiveness.CrossplaneIsTold | internal/controller/instance_controller.go:1579-1596 | while Crossplane holds the resource, a pass marks it whether or not it was marked, shows the status and keeps the instance |
| InstanceLiveness.ProgressIsKept | internal/controller/instance_controller.go:1575-1608 | once the instance is deleted or gone and no pass in flight still works to create its resource, no step of anybody, crashes included, increases what finalization still has to do |
| InstanceLiveness.EnvKeepsProgress | internal/controller/instance_controller.go:1575-1608 | crashes, users, Crossplane and everybody else never increase it, whatever passes are in flight |
| InstanceLiveness.OnlyCreatorsAdd | internal/controller/instance_controller.go:115-121 | of all the controller's calls only an instance's own pass putting the finalizer on it or creating its resource increases it |
| InstanceLiveness.TwoPassesCreate | internal/controller/instance_controller.go:115-121 | from any reachable state, two undisturbed passes put the infra finalizer on an instance and bring up its resource under the same finalizer |
| InstanceLiveness.CreatingPass | internal/controller/instance_controller.go:1028-1134 | with the finalizer in place, one pass makes sure of the resource: a new one is exactly as wanted, an old one is written only if it differs or is to be retried and is otherwise as it was, no other is touched; of the instance only the status changes, and it is the one to be written |
| InstanceLiveness.StatusIsPublished | internal/controller/instance_controller.go:194-237 | wherever a creating pass stands and whatever is missing to it, undisturbed it ends with the status written and the instance otherwise as it was |
| InstanceLiveness.LastStatusStands | internal/controller/instance_controller.go:1103-1134 | of two different statuses of one pass the one written last stands |
| InstanceLiveness.RefusedIsLast | internal/controller/instance_controller.go:1034-1100 | a pass whose write of the resource is refused writes nothing more downstream |
| InstanceLiveness.FinalizerIsRestored | internal/controller/instance_controller.go:1034-1036 | a live resource without the infra finalizer gets it back |
| InstanceLiveness.NothingToDo | internal/controller/instance_controller.go:79-113 | a pass over an instance that is gone or has let go, or in which it is not its turn, changes nothing |
| InstanceLiveness.MachineComesUp | internal/controller/instance_controller.go:73-192 | from nothing, an instance gets its machine by two passes and Crossplane's steps, and waits for it when deleted |
| InstanceController.Clusters.Reconcile | internal/controller/instance_controller.go:73-192 | a pass, interrupted by others at every call or cut short anywhere, leaves both servers as the state machine does; after one that reports a release the instance does not hold on, and the resource is absent, or marked and free of both finalizers; what it reports is decided by the answer to its last call |
| InstanceController.Clusters.Finalize | internal/controller/instance_controller.go:1561-1611 | the same for finalization from a copy read earlier; when it runs to its end, the instance has let go and the resource is absent, or marked and free of both finalizers |
| InstanceController.Clusters.AfterDelete | internal/controller/instance_controller.go:1587-1608 | the same for its second half, which still looks at the copy read before its own delete |
| InstanceController.Clusters.ReconcileInstance | internal/controller/instance_controller.go:194-376 | the same for the pass that creates, up to reading the resource |
| InstanceController.Clusters.CreateOrPatch | internal/controller/instance_controller.go:1022-1134 | the same for the write of the resource |
| InstanceController.Clusters.AfterWrite | internal/controller/instance_controller.go:1103-1134 | the same for what the last answer leads to, be it that of the write or, when nothing had to be written, that of the read |
| InstanceController.ReleaseIsReported | internal/controller/instance_controller.go:1602-1608 | a release is reported by exactly the call that ends the instance's hold |
| InstanceController.DriveIsRun | internal/controller/instance_controller.go:73-192 | whatever a pass does in any interleaving is a run of the state machine, so all theorems about runs apply |
| InstanceController.UndisturbedPass | internal/controller/instance_controller.go:73-192 | five calls that nobody disturbs are the whole pass of the progress theorems |
| CreationOrder.InstanceComesLast | internal/controller/instance_controller.go:265-369 | whatever the interleaving and however many passes were cut short, a write of the instance comes after its service account was seen created and not failed and, with secret volumes, after the aggregated secret, the sight of the secret Ready, the version and the IAM member, in this order, by whatever passes |
| CreationOrder.WriterSawItself | internal/controller/instance_controller.go:265-369 | the pass that writes the instance has itself read the account created and not failed and, with secret volumes, has itself, in this order, made sure of the aggregated secret, read the secret Ready, made sure of the version and found the IAM member; from the first of these on it is one and the same pass and never stands where the readiness of version or member is looked at |
| CreationOrder.ReadinessIsNotAwaited | internal/controller/instance_controller.go:949-999 | for every run there is one in which version and member are never Ready and the same is written in the same order |
| CreationOrder.WrittenWithoutReadiness | internal/controller/instance_controller.go:949-999 | a run that brings up an instance with secret volumes although version and member are never Ready |
| CreationOrder.MemberEndsPass | internal/controller/instance_controller.go:979-999 | the pass that creates the IAM member ends there, whatever the readiness of version and member |
| CreationOrder.RefusedEndsPass | internal/controller/instance_controller.go:265-369 | a create of something that has come into being meanwhile, or a write of something that has gone, is refused, changes nothing and ends the pass |
| CreationOrder.CallsOnlyAdd | internal/controller/instance_controller.go:265-369 | no call of a pass takes away or replaces anything, and what it creates is neither created at the provider nor Ready |
| CreationOrder.EventsAreTrue | internal/controller/instance_controller.go:265-369 | what the order theorems call seen or written was seen or written by that very call |
| CreationOrder.AfterMemberExactly | internal/controller/instance_controller.go:979-999 | after the member was created the pass would go on only with account, version and member all ready |
| CreationOrder.StepInv | internal/controller/instance_controller.go:795-1001 | every step of every pass and of everybody else keeps what a pass may rely on about the order of earlier writes |
| CreationOrder.PassCompletes | internal/controller/instance_controller.go:265-369 | with the account created and, for secrets, the secret Ready and the IAM member there, Ready or not, one undisturbed pass brings up the instance; it writes the aggregated secret, the version and the instance, in this order, each exactly when it is missing or not as it should be |
| CreationController.Workload.ReconcileInstance | internal/controller/instance_controller.go:239-376 | a pass leaves everything as the state machine does and says exactly whether it wrote the instance, which then has everything it needs behind it in order |
| CreationController.Workload.EnsureAccount | internal/controller/instance_controller.go:239-320 | reading or creating the account stands where the machine stands; a failed one ends the pass |
| CreationController.Workload.ReconcileSecrets | internal/controller/instance_controller.go:737-1001 | the chain from the aggregated secret to the IAM member stands where the machine stands, going on or ending |
| CreationController.Workload.EnsureIamMember | internal/controller/instance_controller.go:944-999 | an IAM member that is there is enough; after creating one the pass looks at readiness and ends |
| CreationController.DriveIsRun | internal/controller/instance_controller.go:194-376 | whatever a pass does in any interleaving is a run of the state machine |
| SubnetSafety.LiveResourceIsHeld | internal/controller/subnet_controller.go:71-89 | in every reachable state, a subnetwork that is not being deleted has an upstream subnet that holds the infra finalizer |
| SubnetSafety.StepInv | internal/controller/subnet_controller.go:46-216 | every step of anybody keeps the invariant behind this |
| SubnetSafety.ProgrammedWasReady | internal/controller/subnet_controller.go:91-193 | a subnet that is Programmed became so by the status write of one pass that saw the subnet's own resource Ready while the subnet had a prefix, and was about to publish this ever since |
| SubnetSafety.ProgrammedIsSticky | internal/controller/subnet_controller.go:91-94 | once Programmed, a subnet stays so for as long as it exists |
| SubnetSafety.StepProgrammed | internal/controller/subnet_controller.go:91-193 | one step can announce, set or keep Programmed only in these ways |
| SubnetLiveness.AdoptingPass | internal/controller/subnet_controller.go:71-85 | the first pass over a subnet puts the finalizer on it and changes nothing else |
| SubnetLiveness.ProgrammingPass | internal/controller/subnet_controller.go:111-195 | an undisturbed pass programs a held subnet exactly when it has a prefix and its resource was there and Ready before, and otherwise makes sure of the resource when there is a prefix; the verdict is written, and nothing else of the subnet and no other resource changes |
| SubnetLiveness.FinalizingPass | internal/controller/subnet_controller.go:198-215 | an undisturbed pass over a deleted subnet marks its resource, or removes it when nobody holds it, and releases the subnet, which is gone unless others hold it |
| SubnetLiveness.BailingPass | internal/controller/subnet_controller.go:117-124 | when network or context is missing, the subnet is reported as not programmed and nothing is created |
| SubnetLiveness.NothingToDo | internal/controller/subnet_controller.go:64-94 | a subnet that is programmed, or deleted and released, or whose location is missing is left alone |
| SubnetLiveness.SubnetComesAndGoes | internal/controller/subnet_controller.go:46-216 | a run in which a subnet is adopted, gets its resource, is programmed, is deleted and goes |
| SubnetController.Clusters.Reconcile | internal/controller/subnet_controller.go:46-196 | a pass leaves both servers as the state machine does; what it releases has no live resource, what it reports as programmed is marked so; what it reports is decided by the answer to its last call |
| SubnetController.Clusters.Finalize | internal/controller/subnet_controller.go:198-215 | the same for finalization: at the moment of release nothing live is left downstream |
| SubnetController.Clusters.Program | internal/controller/subnet_controller.go:139-195 | the same for finding or creating the resource and looking at its readiness |
| SubnetController.Clusters.PublishStatus | internal/controller/subnet_controller.go:104-108 | the same for the deferred status write, whose conflict reaches nobody |
| SubnetController.DriveIsRun | internal/controller/subnet_controller.go:46-196 | whatever a pass does in any interleaving is a run of the state machine |
| SubnetController.UndisturbedPass | internal/controller/subnet_controller.go:46-196 | four calls that nobody disturbs are the whole pass of the progress theorems |
| SubnetController.ReleaseIsReported | internal/controller/subnet_controller.go:71-89 | a release is reported by exactly the call that ends the subnet's hold |
| SubnetController.VerdictIsReported | internal/controller/subnet_controller.go:104-108 | a verdict that is reported is the one the subnet carries from then on |
| NetworkContextSafety.ProgrammedWasGood | internal/controller/networkcontext_controller.go:78-193 | a context that is Programmed became so by the status write of one pass that read its network upstream, had it in hand ever since, saw the resource named after that very network Ready and without a reconcile error, and was about to publish this ever since |
| NetworkContextSafety.ProgrammedIsSticky | internal/controller/networkcontext_controller.go:78-81 | once Programmed, a context stays so for as long as it exists, whatever becomes of the network |
| NetworkContextSafety.StepProgrammed | internal/controller/networkcontext_controller.go:83-193 | one step can bind, announce, set or keep only in these ways |
| NetworkContextSafety.RunInv | internal/controller/networkcontext_controller.go:46-195 | copies held by passes are outdated or exact, over whole runs |
| NetworkContextLiveness.ProgrammingPass | internal/controller/networkcontext_controller.go:46-195 | an undisturbed pass programs a context exactly when its network exists and the network's resource was there before, Ready and without a reconcile error, whether it patches it or not, and makes sure of the resource of an existing network; nothing else of the context changes, and of the resource at most the version |
| NetworkContextLiveness.NothingToDo | internal/controller/networkcontext_controller.go:65-81 | a context that is programmed or deleted, or whose location is missing, is left alone |
| NetworkContextLiveness.ContextIsProgrammed | internal/controller/networkcontext_controller.go:46-195 | a run in which a network and a context are created and the context is programmed |
| NetworkContextController.Clusters.Reconcile | internal/controller/networkcontext_controller.go:46-195 | a pass leaves both servers as the state machine does, and a context it reports as programmed is marked so; what it reports is decided by the answer to its last call |
| NetworkContextController.Clusters.CreateOrPatch | internal/controller/networkcontext_controller.go:128-164 | the same for the read of the shared network and the decision to write |
| NetworkContextController.Clusters.Write | internal/controller/networkcontext_controller.go:133-193 | the same for the create or the patch and the verdict on its answer |
| NetworkContextController.DriveIsRun | internal/controller/networkcontext_controller.go:46-195 | whatever a pass does in any interleaving is a run of the state machine |
| NetworkContextController.UndisturbedPass | internal/controller/networkcontext_controller.go:46-195 | five calls that nobody disturbs are the whole pass of the progress theorem |
| NetworkContextController.VerdictIsReported | internal/controller/networkcontext_controller.go:91-95 | a verdict that is reported is the one the context carries from then on |
| WorkloadCleanup.ReleasedIsClean | internal/controller/workload_controller.go:67-119 | however many passes were cut short, by the time a workload has let go of its finalizer its anchor, service account, secret and all firewalls carrying its label are gone or being deleted, and they stay so |
| WorkloadCleanup.PassReleases | internal/controller/workload_controller.go:67-119 | an undisturbed pass over a deleted workload, in whatever order firewalls are listed, releases it if and only if its namespace is still known upstream, and then nothing of it is left alive |
| WorkloadCleanup.PassAdopts | internal/controller/workload_controller.go:121-134 | an undisturbed pass over a live workload ends with the finalizer on it and nothing else changed; one that holds it already, or is deleted without it, is left alone |
| WorkloadCleanup.HeldThenClean | internal/controller/workload_controller.go:46-134 | the whole life of a workload, over any interleaving: if it holds the finalizer at some time before its deletion and creators are quiescent from then on, nothing of it is left alive once it has let go or is gone |
| WorkloadCleanup.LifeCycle | internal/controller/workload_controller.go:46-134 | from any reachable state a pass adopts a live workload, and after its deletion one more pass cleans up and releases it |
| WorkloadCleanup.WorkloadComesAndGoes | internal/controller/workload_controller.go:46-134 | a run with an account and a firewall in which a workload is created, adopted, deleted, cleaned up and gone |
| WorkloadCleanup.OthersUntouched | internal/controller/workload_controller.go:76-112 | in any run, no call of a workload's pass changes a resource that is not that workload's |
| WorkloadCleanup.StepInv | internal/controller/workload_controller.go:46-134 | every step keeps what the pass has passed by dead, under quiescence of the creators |
| WorkloadController.Clusters.Reconcile | internal/controller/workload_controller.go:46-134 | a pass leaves both servers as the state machine does, and a workload it reports as released holds no finalizer; what it reports is decided by the answer to its last call |
| WorkloadController.Clusters.CleanUp | internal/controller/workload_controller.go:69-78 | the same for the anchor, where a missing namespace and an anchor gone meanwhile are errors |
| WorkloadController.Clusters.CleanUpNamed | internal/controller/workload_controller.go:80-94 | the same for the service account and the secret, where being gone is fine |
| WorkloadController.Clusters.CleanUpListed | internal/controller/workload_controller.go:96-117 | the same for the loop over the listed firewalls |
| WorkloadController.DriveIsRun | internal/controller/workload_controller.go:46-134 | whatever a pass does in any interleaving is a run of the state machine |
| WorkloadController.UndisturbedPass | internal/controller/workload_controller.go:46-134 | as many calls as there are firewalls, and eight more, are the whole pass of `PassReleases` |
| WorkloadController.ReleaseIsReported | internal/controller/workload_controller.go:114-118 | a release is reported by exactly the call that ends the workload's hold |
| Policy.PolicyMeaning | internal/controller/instance_controller.go:1377-1475 | for rules with numbered ports and address blocks without exceptions, all firewalls together admit a packet exactly when some rule does |
| Policy.ExactIff | internal/controller/instance_controller.go:1435-1471 | whenever a rule is compiled at all, its firewall means the same for every packet if and only if it opens no port or the rule names no peers or some address block and every excepted address is let in by some block anyway, and the rule lets in nobody or names ports and opens nothing by a range from below zero alone |
| Policy.ExactWithoutExceptions | internal/controller/instance_controller.go:1436-1471 | without exceptions, and with a block wherever there are peers, nothing is lost |
| Policy.CompiledAdmitsAll | internal/controller/instance_controller.go:1436-1471 | with or without exceptions, a firewall admits whatever its rule admits |
| Policy.ExceptionIsLost | internal/controller/instance_controller.go:1466-1471 | a block with an exception inside it admits an address that the rule refuses |
| Policy.NoPortsIsLost | internal/controller/instance_controller.go:1436-1464 | a rule without ports opens every port and its firewall opens none |
| Policy.PortsMeaning | internal/controller/instance_controller.go:1436-1464 | printed port entries read back admit exactly the protocols and inclusive port ranges of the rule, tcp and all ports by default |
| Policy.ToLowerSpells | internal/controller/instance_controller.go:1437-1440 | the protocol of an entry is the one the rule spells, letter by letter, capitals standing for small letters |
| Policy.KnownProtocols | internal/controller/instance_controller.go:1437-1440 | TCP, UDP and SCTP become tcp, udp and sctp |
| Policy.EntryMeaning | internal/controller/instance_controller.go:1442-1458 | a printed number or range is read back as the range it was printed from, text ports and reversed ranges included |
| Policy.RangesMeaning | internal/controller/instance_controller.go:1466-1471 | the source ranges admit exactly the addresses of the blocks, and everybody when there is no block |
| Policy.CompilePorts | internal/controller/instance_controller.go:1436-1464 | the loop yields the allow entries of all ports in order, or ends early exactly when some port reads as zero |
| Policy.CompilePeers | internal/controller/instance_controller.go:1466-1471 | the loop yields the address blocks of all peers in order |
| PolicyPass.PassesConverge | internal/controller/instance_controller.go:1343-1478 | after any passes one after the other, cut short anywhere, one that is not leaves exactly the firewalls already there, untouched, and those of the rules before the first missing one with an unreadable port; a further pass changes nothing |
| PolicyRace.AnyCompletePassIsEnough | internal/controller/instance_controller.go:1384-1476 | the same for passes of several instances interleaving call by call: once any of them is through, the firewalls are those of a single complete pass |
| PolicyRace.OneMorePassFinishes | internal/controller/instance_controller.go:1384-1476 | from any state that interleaved passes lead to, one more undisturbed pass gets through and leaves the final firewalls |
| PolicyRace.NothingStrange | internal/controller/instance_controller.go:1384-1476 | at every point of every interleaving no firewall has been lost or replaced, and there is none that a complete pass would not leave |
| PolicyPass.PassesAddUp | internal/controller/instance_controller.go:1343-1478 | partial passes add up to the furthest of them |
| PolicyPass.EveryRuleHasItsFirewall | internal/controller/instance_controller.go:1377-1475 | after a complete pass every rule of every interface with a policy has its firewall if and only if every rule had one before or has ports that all read as numbers |
| PolicyPass.FinalAt | internal/controller/instance_controller.go:1384-1476 | a firewall is there after a complete pass exactly when it was there before, and then as it was, or the pass got to it, and then as its rule compiles |
| PolicyPass.UnreadablePortStops | internal/controller/instance_controller.go:1446-1451 | a missing firewall whose rule has an unreadable port stays missing, and so does every missing one after it |
| PolicyPass.NamedPortIsLost | internal/controller/instance_controller.go:1446-1451 | a rule for the port "http" before one for port 80 leaves both without a firewall |
| PolicyPass.OneFirewallPerRule | internal/controller/instance_controller.go:1377-1475 | from any store, a complete pass adds only firewalls of rules, one for each, leaves the others untouched, and has all rules covered exactly under that condition |
| PolicyScope.ReachesExactly | internal/controller/instance_controller.go:1421-1431 | a packet reaches a machine at an interface exactly when some rule admits it that belongs to an interface on the same network, of any deployment of the same workload |
| PolicyScope.OwnPolicyIff | internal/controller/instance_controller.go:1421-1431 | an interface gets its own policy for a packet if and only if no such other interface admits a packet that it refuses |
| PolicyScope.FinalIsComplete | internal/controller/instance_controller.go:1377-1475 | a complete pass leaves exactly the firewalls these two theorems speak of |
| PolicyPass.NameInjective | internal/controller/instance_controller.go:1384 | a firewall name determines deployment, interface and rule, for UIDs of any text |
| PolicyPass.FirewallIsFound | internal/controller/instance_controller.go:1400-1403 | the label that cleanup lists by is on the firewall exactly when the managed labels leave it alone |
| PolicyPass.Downstream.ReconcilePolicies | internal/controller/instance_controller.go:1333-1480 | a pass with any number of successful calls leaves the firewalls of a prefix of all rules besides what was there, and without an error reaches as far as a pass can; it never makes more calls than succeed, and when there are enough, and every network is there, it ends without an error |
| PolicyPass.Downstream.ReconcileInterface | internal/controller/instance_controller.go:1377-1478 | the same for the rules of one interface, with exactly the calls these rules take |
| PolicyPass.Downstream.ReconcileRule | internal/controller/instance_controller.go:1384-1476 | an existing firewall is never touched, a missing one is created from the rule, an unreadable port stops; it fails exactly when the calls it takes do not succeed |
| SecretPipeline.PayloadBecomesFiles | internal/controller/instance_controller.go:768-802 | from the cluster's secrets to the machine's files: in whatever order they are printed, the script finds the document in its payload, runs to its end exactly when every secret has UTF-8 data, and then every entry is in the file named after it, byte for byte, and every other file is as it was |
| SecretPipeline.SecretsBecomeFiles | internal/controller/cloudinit/populate_secrets.py:23-37 | the same for the script's two loops, given the document |
| SecretPipeline.PayloadArrives | internal/controller/instance_controller.go:768-802 | the document arrives whole through JSON, UTF-8 and base64, for all names and contents, and is never empty |
| SecretPipeline.LeafRoundTrip | internal/controller/cloudinit/populate_secrets.py:35 | a leaf comes back as the bytes it was made from, exactly when they are UTF-8 |
| SecretPipeline.PathsDistinct | internal/controller/cloudinit/populate_secrets.py:30-37 | no two entries share a file |
| SecretPipeline.PathInjective | internal/controller/cloudinit/populate_secrets.py:30-37 | a path determines secret and key |
| SecretPipeline.Aggregate | internal/controller/instance_controller.go:749-776 | exactly the secrets that volumes name are collected, and none of them may be missing |
| SecretPipeline.Machine.PopulateSecrets | internal/controller/cloudinit/populate_secrets.py:23-40 | an empty payload changes nothing; otherwise the files are those of the two loops, and directories are made for every secret when it runs to its end |
| SecretPipeline.Machine.WriteAll | internal/controller/cloudinit/populate_secrets.py:28-37 | the outer loop writes secret by secret and stops for good at the first failure |
| SecretPipeline.Machine.WriteSecret | internal/controller/cloudinit/populate_secrets.py:34-37 | the inner loop writes entry by entry and stops for good at the first failure, in a directory made before |
| SecretPipeline.DirsExactly | internal/controller/cloudinit/populate_secrets.py:28-33 | a directory is made for every secret, and no other |
| Json.RoundTrip | internal/controller/instance_controller.go:778-781 | what Go's printer prints, with its escapes, is parsed back (RFC 8259, section 4 and section 7) |
| Json.DocumentRoundTrip | internal/controller/instance_controller.go:778-781 | the same for whole documents |
| Base64.RoundTrip | internal/controller/cloudinit/populate_secrets.py:25 | base64 with padding is decoded to what was encoded (RFC 4648, section 4) |
| Base64.Unique | internal/controller/cloudinit/populate_secrets.py:25 | text that can be decoded is the encoding of what it is decoded to |
| Base64.KnownEncodings | internal/controller/cloudinit/populate_secrets.py:25 | the encoding gives the published examples (RFC 4648, section 10) |
| Utf8.RoundTrip | internal/controller/cloudinit/populate_secrets.py:25 | UTF-8 text is decoded to what was encoded |
| Utf8.Unique | internal/controller/cloudinit/populate_secrets.py:35-37 | bytes that decode as UTF-8 are the encoding of what they decode to, so writing the text writes the bytes |
| Decimal.AtoiExactly | internal/controller/instance_controller.go:1446 | what any text is read as: the value of its leading digits, cut off at 64 bits, or zero when something follows them first |
| Policy.TextPortIsZero | internal/controller/instance_controller.go:1446-1451 | exactly which text ports read as zero and so end the pass |
| Policy.TextPortIsNumber | internal/controller/instance_controller.go:1446 | a numeral of at most 63 bits reads as its value |
| Policy.TextPortLikeNumber | internal/controller/instance_controller.go:1442-1458 | a port given as text compiles like the number it was printed from |
| Volumes.EveryMountHasItsVolume | internal/controller/instance_controller.go:439-554 | however often names repeat, every mount names a volume of the pod, and whichever pod volume goes by that name lies where the attached volume's content is |
| Volumes.MountsExactly | internal/controller/instance_controller.go:444-500 | a container has the mounts its attachments ask for and no others |
| Volumes.StoppedIff | internal/controller/instance_controller.go:444-500 | mounts are refused exactly when something with a disk without file system, or with only some keys of a config map or secret, is attached with a mount path, and the first such thing says why |
| Volumes.HoldingsExactly | internal/controller/instance_controller.go:455-500 | a source holds its disk, its config map and its secret |
| Volumes.LastCounts | internal/controller/instance_controller.go:439-442 | of several volumes of one name the last one counts |
| Volumes.HostPathInjective | internal/controller/instance_controller.go:519-552 | different things lie at different places |
| Volumes.VolumeNameInjective | internal/controller/instance_controller.go:512-552 | a pod volume's name determines what it holds |
| Volumes.BuildMounts | internal/controller/instance_controller.go:439-500 | the loop over containers and attachments yields their mounts in order, the last volume of a name counting, or the first problem |
| Volumes.BuildVolumes | internal/controller/instance_controller.go:510-554 | the loop over volumes yields a pod volume for every source, except for volumes with a disk without file system |
| Volumes.PodHoldsExactly | internal/controller/instance_controller.go:510-554 | a pod has volumes for exactly what its volumes hold, but for those with a disk without file system |
| Volumes.VolumeMap | internal/controller/instance_controller.go:439-442 | a name stands for the last volume of that name |
| Volumes.BuildCommands | internal/controller/instance_controller.go:632-680 | for every order of the directory set, every link follows the making of its own directory, each directory is made once, and links keep the order of the attachments |
| Volumes.LinksExactly | internal/controller/instance_controller.go:645-677 | there is a link for every config map and secret that attachments ask for, at its mount path and pointing to where it lies, and no other |
| Volumes.SecretLinkHoldsSecret | internal/controller/instance_controller.go:670-676 | the directory that a secret's link points to holds the entries of that secret under their keys, as the script delivers them, and any other name there is as it was |
| Volumes.ConfigMapLinkHoldsConfigMap | internal/controller/instance_controller.go:655-661 | the files written in the directory that a config map's link points to are those of its entries, under their keys |
| Volumes.RefusalExactly | internal/controller/instance_controller.go:650-668 | commands are refused exactly when only some keys of a config map or secret are to be mounted |
| MountLinks.LinksLandIff | internal/controller/instance_controller.go:632-680 | on a machine without links beforehand, for all texts of mount paths, every link ends up at its own place if and only if every mount path ends in a name, no place is a directory or above another, ways with `..` go through directories that are there or made, and links at the same place have the same target |
| MountLinks.BuiltLinksLandIff | internal/controller/instance_controller.go:632-680 | the same for the commands that `Volumes.BuildCommands` builds from volumes and attachments, in any order of the directory set |
| MountLinks.PlainLinksLandIff | internal/controller/instance_controller.go:632-680 | for mount paths without `..` that end in a name, every link ends up at its own place if and only if no place is a directory or above another and links at the same place have the same target |
| MountLinks.TrailingSlashIsLost | internal/controller/instance_controller.go:655-670 | the link of a mount path that ends in a slash or in dots does not land at its place, whatever else is mounted |
| MountLinks.DataSlashIsLost | internal/controller/instance_controller.go:655-660 | mounted at `/data/` on an empty machine, the link is inside `/data` |
| MountLinks.NestedMountIsLost | internal/controller/instance_controller.go:632-680 | the link of a mount path above another one does not land there, whatever else is mounted |
| Paths.DirMakesHolder | internal/controller/instance_controller.go:655 | making the directory part of any path, cleaned as `path.Dir` does, makes exactly the directory that holds what the path names and those above it |
| Volumes.BuildConfigMaps | internal/controller/instance_controller.go:697-735 | for every order of keys, exactly the files of the config maps that volumes name are written, and none of these may be missing |
| Volumes.ConfigMapValueArrives | internal/controller/instance_controller.go:723-731 | a config map's value reaches its file as it was |
| AccountName.ExternalNameFits | internal/controller/instance_controller.go:241-273 | for any UID the service account's external name has 6 to 19 characters, starts with a letter and uses only allowed characters, so it stays within 30 |
| AccountName.Sum32 | internal/controller/instance_controller.go:241-244 | the byte-wise loop computes the 32-bit FNV-1a fold |
| AccountName.KnownHashes | internal/controller/instance_controller.go:241-244 | the fold gives the published values of the hash for the empty text, "a" and "foobar" |
| MappedNamespace.NamespacesDiffer | internal/downstreamclient/mappednamespace.go:81-88 | owners share a downstream namespace exactly when their upstream namespaces have the same UID |
| MappedNamespace.AnchorsDiffer | internal/downstreamclient/mappednamespace.go:140-150 | owners share an anchor in a namespace exactly when they have the same UID |
| MappedNamespace.Strategy.EnsureDownstreamNamespace | internal/downstreamclient/mappednamespace.go:90-117 | the namespace is there afterwards, visible and with the cluster's label unless that is a managed one, an existing one stays the same object, nothing else changes, and it fails exactly when a hidden one is in the way |
| MappedNamespace.Strategy.CreateObject | internal/downstreamclient/mappednamespace.go:227-243 | the object is there afterwards, new, visible and as asked for but for managed labels, nothing else changes but its namespace, and it fails exactly when the name is taken or the namespace hidden |
| MappedNamespace.Strategy.SetControllerReference | internal/downstreamclient/mappednamespace.go:127-186 | only the anchor and its namespace are written; the object gets a reference to the anchor that is there and the owner's annotations; it fails exactly when owner or object has no namespace, or a hidden anchor or namespace is in the way |
| MappedNamespace.Strategy.DeleteAnchorForObject | internal/downstreamclient/mappednamespace.go:194-217 | no read shows the owner's anchor afterwards and nothing else has changed; it fails exactly for an unknown namespace |
| MappedNamespace.Strategy.CreateOrUpdateControlled | internal/controller/instance_controller.go:795-805 | the object names its owner and hangs on the owner's anchor that is there, objects that were there before keep their identity, and besides these two only the namespace is touched; it fails exactly when something hidden is in the way or the missing object is the anchor itself |
| Anchors.EverythingIsVisible | internal/downstreamclient/mappednamespace.go:227-243 | over any operations, a label-filtered read finds exactly what is there, so no create is ever repeated |
| Anchors.WorkloadLabelKeepsVisible | internal/controller/instance_controller.go:881-893 | setting the workload label in a mutate function keeps an object visible for every UID exactly when that label is not a managed one |
| Anchors.OneAnchorOwnsAll | internal/downstreamclient/mappednamespace.go:150-171 | objects tied to the same owner in a namespace, at whatever times, hang on one and the same anchor, and it is there |
| Anchors.ForgettingReleasesExactly | internal/downstreamclient/mappednamespace.go:194-217 | in any reachable state, deleting the anchor removes it alone, and due for garbage collection is then what was due before and the objects that hung on it and on nothing else alive |
| Anchors.ForgettingCollectsExactly | internal/downstreamclient/mappednamespace.go:190-217 | garbage collected in any order until nothing is due, exactly the anchor, what had been due and these objects are gone, provided that no anchor was tied to an owner itself; in any case exactly what was due and what became due by that |
| Anchors.CollectionIsConfluent | internal/downstreamclient/mappednamespace.go:190-217 | from any store, whatever the order of collection, the same objects go |
| Anchors.CollectionEnds | internal/downstreamclient/mappednamespace.go:190-217 | collection comes to an end |
| Anchors.ControlInv | internal/downstreamclient/mappednamespace.go:127-186 | tying an object to its owner keeps labels, identities and references in order |
| Anchors.ControlSucceeds | internal/downstreamclient/mappednamespace.go:127-186 | in every reachable state, tying an object to its owner succeeds unless one of them has no namespace or the object is its own anchor, not yet there |
| Anchors.StepInv | internal/downstreamclient/mappednamespace.go:90-243 | every operation keeps them in order |
| Routing.ClusterNameRoundTrip | internal/downstreamclient/mappednamespace.go:145 | an encoded cluster name is read back if and only if it has no underscore |
| Routing.OwnerIsWoken | internal/downstreamclient/enqueue_upstream_owner.go:108-122 | an event of an object tied to an owner wakes up exactly that owner when group and kind match and the cluster name has no underscore, and nobody when they do not match |
| Routing.OwnerHandler.GetOwnerReconcileRequest | internal/downstreamclient/enqueue_upstream_owner.go:108-122 | the caller's set grows by the owner's request and nothing else |
| Routing.OwnerHandler.OnUpdate | internal/downstreamclient/enqueue_upstream_owner.go:62-69 | an update enqueues the old and the new owner without duplicates, in any order |
| Routing.OwnerHandler.OnObject | internal/downstreamclient/enqueue_upstream_owner.go:53-87 | the other events enqueue the owner once |
| Routing.WorkloadEventWakesItsInstances | internal/handler/enqueue_workload_managed_resource.go:41-102 | an event wakes up an instance exactly when its object names cluster, owner, namespace and workload UID, the cluster can be listed, and the instance carries that UID in its label in that namespace |
| Routing.CreatedIsRoutable | internal/controller/instance_controller.go:266-278 | what the instance controller creates for a workload passes the metadata test under the workload's own UID exactly when nothing needed is empty and the managed labels do not replace the workload's |
| Routing.MutatedIsRoutable | internal/controller/instance_controller.go:881-893 | a secret version decorated again on a later pass passes it whatever it carried before |
| Routing.InstanceIsWoken | internal/controller/instance_controller.go:1622-1646 | a downstream instance wakes up exactly its upstream, unless the cluster has no name |
| Routing.EnqueueInstances | internal/handler/enqueue_workload_managed_resource.go:41-102 | the map function's early returns and its loop over the listed instances |
| Routing.RequestsExactly | internal/handler/enqueue_workload_managed_resource.go:87-101 | in any order of listing, the requests are for the workload's instances and for nobody else |
| Routing.EnqueueContexts | internal/controller/networkcontext_controller.go:201-244 | the requests are for exactly the contexts of the event's cluster that the index lists under the network's name |
| Routing.BucketExactly | internal/controller/indexers.go:33-42 | a context is in the index bucket of a network's name exactly when that network controls it |

## Left out

- Locations, configuration, provider configs, machine types, boot disks, network interfaces and power states: read or copied in one branch, they appear only as hints or not at all.
- `network_controller.go`: its cleanup races with a context's pass recreating the network, so it has no global property; downstream deletes of networks are steps of anybody in `NetworkContextMachine`.
- `sameclusterandnamespace.go`: not used by the controllers.
- The HTTP calls of the script and the log messages: the payload is an input.
- YAML and pod serialization: the pod's mounts and volumes and the list of commands are the result.
- Contents of status conditions other than Programmed: a status is a number in `InstanceMachine`; only whether it is written matters.
- UpdateStatus: a write always stamps a new version, also when it changes nothing; the real server may skip such a write.
- CreationOrder.InstanceComesLast: counts the chain of secret resources once, over all passes; `CreationOrder.WriterSawItself` says what the writing pass itself makes sure of. Whether version and member are those of the present contents is not modelled.
- Base64.Decode: refuses characters outside the alphabet and stray bits under the padding, which the script's decoder overlooks; what the controller writes has neither.
- Json.Loads: keeps repeated keys of an object apart instead of letting the last one win, and knows objects, strings and null only; the controller's maps have no repeated keys.
- SecretPipeline.Aggregate: maps are values, and a missing value of an entry is not told apart from an empty one.
- Policy.ToLower: lower-cases ASCII only.
- Policy.RuleAdmits: the packets of an address block are an arbitrary predicate on its text; CIDR arithmetic is not modelled.
- SecretPipeline.LeafContent: files are written as text in UTF-8, the encoding the machine's locale is assumed to have.
- Volumes.BuildCommands: a command is a value; the source prints text for a shell, which splits a mount path with a space into words and reads other special characters in its own way. The directory part of a path is an arbitrary function here, and `path.Dir` in `MountLinks`.
- MountLinks.LinksLandIff: files and links that are on the machine beforehand are left out, and so is where a path leads that goes through the link of another mount, or onto it.
- WorkloadCleanup.ReleasedIsClean: with instances still being reconciled, an account or firewall can come back after it was deleted; the code does not exclude it.
- PolicyRace.AnyCompletePassIsEnough: the rules stay the same meanwhile, and nobody deletes firewalls.
- WorkloadCleanup.OthersUntouched: a firewall's name is assumed to belong to one workload for good; `PolicyPass.NameInjective` is the reason.
- Finalizers of anchors and of what hangs on them: garbage collection removes objects in `Anchors` at once.
- AccountName.ExternalNameFits: two workloads may share a hash, and so an account; a 32-bit hash cannot exclude it.
- Stale caches and two live leaders: outside the assumptions.
