# Verification model of the cloud resource operator

The cloud resource operator provisions Postgres and Redis for cluster tenants on AWS and GCP.
This project models its hardest logic in Dafny 4.11 and proves what that logic keeps. Check it with

    dafny verify dfyconfig.toml

Calls into AWS, GCP and the Kubernetes API are operations on a state. Each may fail, so every
invariant below holds after each single call, and a reconcile may end after any of them. Clocks,
generated names and the answers of the cloud are parameters or arbitrary choices.

## Components

* **CIDR allocation** (`Arithmetic`, `Cidr`, `SubnetGenerator`, `DefaultCidr`, `CloudVpc`, `BundledSubnets`,
  `Sorting`, `StandaloneSubnets`). Blocks are aligned power-of-two intervals of 32-bit addresses. On top of that theory:
  the overlap test is exact, a block splits into exactly its sub-blocks, the default search finds the first free
  candidate, subnets go into the highest free slots, and the standalone VPC gets its two halves.
* **The standalone network on AWS** (`AwsWorld`, `AwsEffects`, `AwsCloud`, `AwsNetworkProvider`, `AwsReconcile`, `AwsRuns`).
  `AwsWorld.Safe` is what every state satisfies, `AwsWorld.GoodStep` what every call satisfies. The `Cloud` object
  records the state after every call, and its `Valid()` says the whole record obeys both. Every method of the provider and
  of the reconciles keeps `Valid()`, so `AwsReconcile.RunEvents` states it for every run. The constant `reliable` singles
  out clouds that refuse no call; for those the methods also say exactly when they get where they want to.
* **GCP snapshots** (`GcpSnapshots`, `GcpSnapshotReconcile`), built the same way: `Base` and `Inv` for states, `GoodCall` for
  calls. `Base` survives everything; `Inv`, which protects the newest completed snapshot, survives everything but one
  kind of error, and the runs say which.
* **GCP teardown** (`GcpTeardown`): a measure that no pass raises, and a loop that uses it to terminate.
* **Drift** (`Versions`, `RdsDrift`, `CloudSqlWire`, `CloudSqlDrift`): the diff functions as fixpoints of the requests they build.

## Findings

Properties one would expect that the code does not have. Each comes with a concrete case and with the exact condition.

* Of several pod or service networks only the last is compared, so the default VPC block can overlap an earlier one
  (`EarlierEntryIsIgnored`; exactly when `DroppedAreHarmless` fails: `AvoidsEveryEntryIff`, `GetNonOverlappingDefaultCidr`).
* The two standalone subnets can share a zone: when the API lists the lowest zone twice (`RepeatedZoneIsChosenTwice`), or when
  an earlier pass left one half in the zone now chosen for the other (`LeftoverHalfSharesZone`); exactly then:
  `EndZonesDifferIff`.
* A Redis resource whose annotation write failed gets a second, empty instance when the first vanishes
  (`RedisIsCreatedAgain`; exactly when it is not annotated: `CreateReconcile`). Postgres does not (`NoSecondInstance`).
* The AWS teardown cannot be retried once the peering is gone and the VPC is not (`StuckExists`). The last resource then
  stays through every run in which no other resource is created (`RunEvents` of `AwsReconcile`), and one more resource
  frees it (`NewResourceFrees`).
* A VPC is left behind when the only resource goes before it got its finalizer, or belongs to another provider
  (`LeavesVpcBehind`; exactly then: `OrphansIff`).
* An error written over a completed snapshot can leave an older snapshot that is already marked as the newest completed one
  (`RegressExposesMarked`; exactly when it was the last successor: `RegressBreaksIff`).
* The GCP address range is protected only if it is the first range the connection reserves
  (`SecondRangeIsNotProtected`, `RefusalIsExactIff`).
* While one RDS field is pending with the wanted value, all other drift goes unnoticed (`PendingHidesDrift`; exactly then:
  `BuildRDSUpdateStrategy`).
* The RDS diff is not a fixpoint in two cases, and only in those (`NextDiffIsEmptyIff`): a certificate left for the maintenance
  window is asked for again on every pass, because the pending check does not look at it (`CertIsAskedForAgain`,
  `CertRequestRepeats`); and an upgrade applied at once brings along a stale pending value (`StaleValueComesAlong`).
* Cloud SQL maintenance day 0 is never sent, so it is patched for ever over any other day (`DayZeroIsNotSent`,
  `PatchThenCompare`); days 1 to 7 and an unset day settle (`ProperDaysSettle`).

## Model

| member | source | states |
|---|---|---|
| `Cidr.TouchTestIsExact` | pkg/providers/aws/cluster_network_provider.go:1787 | the two base-membership checks hold if and only if the two blocks share an address |
| `Cidr.ContainsIsInterval` | pkg/providers/aws/cluster_network_provider.go:1787 | masking an address decides membership in the interval of addresses the block stands for |
| `Cidr.SubBlocksPartition` | pkg/providers/aws/cluster_vpc.go:358-391 | the sub-blocks of a prefix are ascending, pairwise disjoint, and every address of the parent is in exactly one of them |
| `Cidr.AddressIsInOneSubBlock` | pkg/providers/aws/cluster_vpc.go:358-391 | an address lies in the parent if and only if it lies in the sub-block its offset selects |
| `SubnetGenerator.IncrementIp` | pkg/providers/aws/cluster_vpc.go:405-436 | the byte-by-byte increment is addition modulo 2^32, for every increment and with wrap-around |
| `SubnetGenerator.GenerateAvailableSubnets` | pkg/providers/aws/cluster_vpc.go:358-391 | terminates, also where the block ends at 255.255.255.255, with exactly the 2^(k-m) sub-blocks in ascending order, a partition of the parent |
| `SubnetGenerator.PrefixZeroHasNoEnd` | pkg/providers/aws/cluster_vpc.go:372-388 | on a block of prefix 0 every address meets the loop condition, so the walk does not end |
| `SubnetGenerator.ContainsNetwork` | pkg/providers/aws/cluster_vpc.go:394-402 | found if and only if the address is the base of one of the networks |
| `SubnetGenerator.ReverseInPlace` | pkg/providers/aws/cluster_vpc.go:351-354 | the swap loop leaves the array reversed |
| `SubnetGenerator.BuildSubnetAddress` | pkg/providers/aws/cluster_vpc.go:318-356 | fails exactly on an unreadable block or one of /27 and smaller; otherwise all /27 slots, highest first |
| `DefaultCidr.IncrementIpForDefaultCidr` | pkg/providers/aws/cluster_network_provider.go:1763-1776 | steps to the next /16 in place, modulo 2^32 |
| `DefaultCidr.GetNonOverlappingDefaultCidr` | pkg/providers/aws/cluster_network_provider.go:1605-1702 | terminates with the first of the 272 candidates that shares no address with the cluster, the last pod and the last service network, every earlier one sharing an address with one of them; fails if and only if all do; the result passes the validation, and avoids every listed block if and only if the dropped entries are harmless |
| `DefaultCidr.ResultIsValid` | pkg/providers/aws/cluster_network_provider.go:1605-1702 | a free candidate is accepted by the standalone validation and splits into exactly two /27 blocks |
| `DefaultCidr.LastEntry` | pkg/providers/aws/cluster_network_provider.go:1706-1740 | of several entries the last one is returned; any unreadable one is an error |
| `DefaultCidr.AvoidsEveryEntryIff` | pkg/providers/aws/cluster_network_provider.go:1706-1740 | the result avoids every listed block if and only if each candidate that only dropped entries stand against comes after one the blocks read leave open |
| `DefaultCidr.EarlierEntryIsIgnored` | pkg/providers/aws/cluster_network_provider.go:1710-1715 | with two pod networks the search answers a block inside the first |
| `DefaultCidr.ServiceNetworkBlocks` | pkg/providers/aws/cluster_network_provider.go:1687-1692 | a service network 10.0.0.0/16 takes the first candidate, with no pods at all |
| `DefaultCidr.ValidateStandaloneCidrBlock` | pkg/providers/aws/cluster_network_provider.go:1778-1793 | accepts exactly /16 to /26 blocks that share no address with the cluster |
| `DefaultCidr.ValidateCidrBlock` | pkg/providers/gcp/cluster_network_provider.go:437-457 | accepts exactly /22 and larger ranges that share no address with any cluster subnet, all of them readable |
| `CloudVpc.Vpc.CreateSubnet` | pkg/providers/aws/cluster_vpc.go:234-247 | the cloud creates a subnet only in free space, so all subnets stay disjoint, and reports a conflict only for an overlap |
| `BundledSubnets.CreatePrivateSubnet` | pkg/providers/aws/cluster_vpc.go:222-258 | takes the highest free /27 slot, gives up only when every slot conflicts, keeps subnets disjoint |
| `BundledSubnets.GetPrivateSubnetIds` | pkg/providers/aws/cluster_vpc.go:155-219 | on success every listed zone has a private subnet, and exactly the ids of the private subnets are returned; nothing is removed; a subnet is made only for a zone that is not available or has none, so none when all are there |
| `BundledSubnets.PrivateIdsAre` | pkg/providers/aws/cluster_vpc.go:175-183 | an id is listed if and only if it is that of a private subnet |
| `Sorting.SortedIsUnique` | pkg/providers/aws/sort.go:9-13 | without ties a sorted arrangement is unique |
| `StandaloneSubnets.ChooseZones` | pkg/providers/aws/cluster_network_provider.go:1080-1123 | the two lowest-named zones with an offering, or an error if and only if there are fewer than two |
| `StandaloneSubnets.NameLessIsLexicographic` | pkg/providers/aws/sort.go:12 | zone names are ordered by the first difference, a proper prefix first |
| `StandaloneSubnets.ChoiceIgnoresOrder` | pkg/providers/aws/cluster_network_provider.go:1080-1123 | the choice is the same for every order in which the API lists the zones |
| `StandaloneSubnets.ZonesDifferIff` | pkg/providers/aws/cluster_network_provider.go:1080-1123 | the two chosen zones differ if and only if the lowest supported zone is listed once |
| `StandaloneSubnets.HalvesLieIn` | pkg/providers/aws/cluster_network_provider.go:1146-1181 | each half ends where its block already lay, else in the zone chosen for it |
| `StandaloneSubnets.EndZonesDifferIff` | pkg/providers/aws/cluster_network_provider.go:1146-1181 | the two subnets lie in different zones if and only if: both are new and the lowest zone is listed once, or one lay outside the zone chosen for the other, or both lay apart |
| `StandaloneSubnets.LeftoverHalfSharesZone` | pkg/providers/aws/cluster_network_provider.go:1146-1181 | a lower half left in "b" and the zones "a" and "b": the upper half joins it in "b" |
| `StandaloneSubnets.RepeatedZoneIsChosenTwice` | pkg/providers/aws/cluster_network_provider.go:1080-1123 | a listing that repeats its lowest zone puts both halves there |
| `StandaloneSubnets.TwoHalves` | pkg/providers/aws/cluster_network_provider.go:1036-1057 | the two halves partition the VPC |
| `StandaloneSubnets.ReconcileStandaloneVpcSubnets` | pkg/providers/aws/cluster_network_provider.go:1021-1202 | success leaves both halves, tagged, each where it lay or else in its chosen zone; only missing halves are added, so a second run adds none; a VPC of /27 or smaller is refused |
| `StandaloneSubnets.ExactlyTwo` | pkg/providers/aws/cluster_network_provider.go:1125-1181 | a VPC holding nothing but halves, and both, holds exactly two subnets |
| `AwsNetworkProvider.CreateMissingVpc` | pkg/providers/aws/cluster_network_provider.go:149-241 | creates the VPC only for a valid block; success has no subnets and no tagged table; without failing calls it succeeds if and only if the block is valid and the VPC shows up in time, and otherwise nothing is left of it |
| `AwsNetworkProvider.DeleteNewVpc` | pkg/providers/aws/cluster_network_provider.go:215-230 | after a failed wait the VPC goes again, which only a failing call prevents |
| `AwsNetworkProvider.ReconcileRouteTableTags` | pkg/providers/aws/cluster_network_provider.go:974-1013 | success tags every table of the VPC; without failing calls it succeeds if and only if there is one |
| `AwsNetworkProvider.ReconcileGroup` | pkg/providers/aws/cluster_network_provider.go:1284-1371 | success leaves a subnet group whose members are exactly the subnets of the VPC, although only one inclusion is tested |
| `AwsNetworkProvider.CreateNetwork` | pkg/providers/aws/cluster_network_provider.go:148-281 | on an existing VPC: both halves, both groups, all tables tagged; on the pass that creates it: nothing but the VPC |
| `AwsNetworkProvider.GetNetworkPeering` | pkg/providers/aws/cluster_network_provider.go:792-836 | a peering that is not deleted or deleting, none if and only if there is none |
| `AwsNetworkProvider.CreateNetworkPeering` | pkg/providers/aws/cluster_network_provider.go:540-621 | success leaves a usable peering, the existing one if there was one; without failing calls it fails if and only if the existing one is in an invalid state |
| `AwsNetworkProvider.EnsureRoutes` | pkg/providers/aws/cluster_network_provider.go:408-427 | success routes every listed table that accepts it; other tables and existing routes stay |
| `AwsNetworkProvider.CreateNetworkConnection` | pkg/providers/aws/cluster_network_provider.go:373-472 | success: the security group admits the cluster, and with all VPC tables tagged there are routes both ways through the peering |
| `AwsNetworkProvider.DeleteNetworkConnection` | pkg/providers/aws/cluster_network_provider.go:475-535 | success: no security group and no cluster route; without failing calls it succeeds if and only if there is a live peering and a cluster table |
| `AwsNetworkProvider.OnlyRoute` | pkg/providers/aws/cluster_network_provider.go:518-532 | a cluster table holds at most the one peering route that is looked for, so none is forgotten |
| `AwsNetworkProvider.DeleteNetworkPeering` | pkg/providers/aws/cluster_network_provider.go:646-683 | success leaves no live peering |
| `AwsNetworkProvider.DeleteNetwork` | pkg/providers/aws/cluster_network_provider.go:294-366 | subnets, groups, then the VPC; it succeeds if and only if the VPC is gone |
| `AwsEffects.AddVpcSafe` | pkg/providers/aws/cluster_network_provider.go:187-207 | creating a valid VPC where none is keeps the network invariant |
| `AwsEffects.AddSubnetSafe` | pkg/providers/aws/cluster_network_provider.go:1146-1181 | adding a missing half keeps it and every part instances rely on |
| `AwsEffects.TwoSubnets` | pkg/providers/aws/cluster_network_provider.go:1146-1181 | with both halves there the VPC has exactly two subnets |
| `AwsEffects.AddPeeringSafe` | pkg/providers/aws/cluster_network_provider.go:555-575 | a peering requested when none is live stays the only live one |
| `AwsEffects.AddRouteSafe` | pkg/providers/aws/cluster_network_provider.go:413-417 | a cluster route to the VPC through a live peering keeps the invariant |
| `AwsEffects.KillPeeringSafe` | pkg/providers/aws/cluster_network_provider.go:676-681 | deleting the peering is safe once no cluster route is left, and leaves no live one |
| `AwsEffects.RemoveVpcSafe` | pkg/providers/aws/cluster_network_provider.go:357-363 | deleting the VPC is safe once subnets, groups, security group and live peering are gone |
| `AwsEffects.KeepsComplete` | pkg/providers/aws/provider_postgres.go:189-226 | a network that is complete for instances stays so under calls that take nothing away |
| `AwsEffects.KeepingIsSafe` | pkg/providers/aws/provider_postgres.go:189-226 | a call that takes nothing away is safe in every safe state |
| `AwsReconcile.IsLastResource` | pkg/resources/provider.go:72-90 | true if and only if exactly one resource of both kinds together exists |
| `AwsReconcile.ReconcileStandaloneNetwork` | pkg/providers/aws/provider_postgres.go:189-226 | a new VPC has the given block and an existing one stays; success means the network is ready, and never happens on the pass that creates the VPC; without failing calls it succeeds if and only if the network is connectable |
| `AwsReconcile.NotTheFirstPass` | pkg/providers/aws/cluster_network_provider.go:1228-1252 | a connection can only have succeeded if a route table was tagged before |
| `AwsReconcile.AllStages` | pkg/providers/aws/provider_postgres.go:189-226 | the three stages together give both halves, both groups, an open security group, a usable peering and routes both ways |
| `AwsReconcile.ReadyIsConnectable` | pkg/providers/aws/cluster_network_provider.go:373-472 | a network that let one instance through lets the next one through |
| `AwsReconcile.FirstPassConnectable` | pkg/providers/aws/cluster_network_provider.go:237-240 | what the VPC-creating pass leaves behind lets the next pass through |
| `AwsReconcile.ReconcileInstance` | pkg/providers/aws/provider_postgres.go:267-421 | an existing instance is left alone, and details go out only if it is available, for Postgres only with the annotation stored; an annotated resource without instance changes nothing; without failing calls a missing one is created and annotated and an available one served; other resources are not touched |
| `AwsReconcile.ServeFound` | pkg/providers/aws/provider_redis.go:289-373 | hands out details; Postgres is annotated first, Redis keeps its annotation as it was |
| `AwsReconcile.CreateReconcile` | pkg/providers/aws/provider_postgres.go:129-264 | finalizer, network, instance: no instance while there was no VPC, a new VPC has the given block, details go out only for an available instance, other resources are not touched; without failing calls a missing instance is created if and only if the network is connectable and the resource not annotated |
| `AwsReconcile.LastHasNoInstances` | pkg/providers/aws/provider_postgres.go:604-606 | if the last resource has no instance, there is none at all |
| `AwsReconcile.TearDown` | pkg/providers/aws/provider_postgres.go:606-635 | succeeds if and only if the VPC goes, and without failing calls if and only if a live peering and a cluster table exist |
| `AwsReconcile.DeleteReconcile` | pkg/providers/aws/provider_postgres.go:543-667 | an existing instance is left alone until available, then a Postgres one loses its protection, then the deletion is asked for; a resource goes only without instance, the last one only when nothing of the network is left, an earlier one leaves the network alone; without failing calls it goes if and only if `Removable` |
| `AwsReconcile.Reconcile` | controllers/postgres/postgres_controller.go:131-242 | delete, skip or create: a skipped or foreign resource changes nothing; without failing calls a deleted one goes if and only if removable, a missing instance comes if and only if connectable and not annotated; no VPC is left behind; the record of calls stays good |
| `AwsReconcile.DropCrSafe` | pkg/resources/finalizers.go:25-46 | dropping a resource without instance is safe, and leaves a VPC behind only if the resource was unguarded |
| `AwsReconcile.EffectSafe` | controllers/postgres/postgres_controller.go:131-242 | every user action and cloud event keeps all invariants |
| `AwsReconcile.RunEvents` | controllers/postgres/postgres_controller.go:131-242 | every run keeps the record good, and answers every event in order, each as the pass or the effect says; a last resource whose peering is gone stays through every run in which no resource is created |
| `AwsReconcile.EffectKeepsStuck` | pkg/providers/aws/cluster_network_provider.go:513-515 | no user action or cloud event but the creation of another resource gets it unstuck |
| `AwsRuns.InstanceHasEverything` | pkg/providers/aws/provider_postgres.go:543-667 | in every state of every run an instance has its resource with finalizer, the VPC, both halves, both groups, the security group and a live peering |
| `AwsRuns.NothingWithoutVpc` | pkg/providers/aws/cluster_network_provider.go:148-535 | in every state without VPC there is no subnet, group, security group, live peering, cluster route or instance, so a skipped teardown leaks nothing; every cluster route names a live peering |
| `AwsRuns.CreatedOnReadyNetwork` | pkg/providers/aws/provider_postgres.go:189-226 | a call that creates an instance is made only on a ready network, for a resource with finalizer, not deleted, not annotated |
| `AwsRuns.ServedOnlyWhenAvailable` | pkg/providers/aws/provider_postgres.go:338-345 | in every run details are handed out only while the instance is available |
| `AwsWorld.FreshIsSafe` | pkg/providers/aws/provider_postgres.go:129-264 | the state every run starts from is safe |
| `AwsRuns.EveryRun` | controllers/postgres/postgres_controller.go:131-242 | from a fresh start, whatever happens and whichever calls fail, with every event answered in order: an instance has its resource with finalizer and the whole network, nothing exists without the VPC, a VPC is made only for a resource with finalizer, instances are created on ready networks only, details go out only for available ones, teardown starts only without instances, no second Postgres instance, no orphaned VPC if all resources go with finalizer |
| `AwsRuns.ServedForGood` | pkg/providers/aws/provider_postgres.go:388-400 | once handed out, always handed out while the resource exists |
| `AwsRuns.NoSecondInstance` | pkg/providers/aws/provider_postgres.go:331-421 | after details of a Postgres resource have been handed out no later call of any run creates an instance for it |
| `AwsRuns.RedisIsCreatedAgain` | pkg/providers/aws/provider_redis.go:262-287 | an unannotated Redis resource is served, loses its instance and gets a second one |
| `AwsRuns.TwoPasses` | pkg/providers/aws/cluster_network_provider.go:237-281 | from nothing, two passes without failing calls end with a covered instance |
| `AwsRuns.NeverOrphaned` | pkg/providers/aws/provider_postgres.go:605-666 | if every resource that goes is an AWS one with finalizer, an existing VPC has a resource in every state of the run |
| `AwsRuns.UserOrphansIff` | pkg/resources/finalizers.go:48-63 | a user's deletion leaves the VPC behind if and only if it takes the only resource before it has a finalizer |
| `AwsRuns.OrphansIff` | pkg/resources/finalizers.go:48-63 | of all events outside the reconciles exactly those leave a VPC behind that drop the only resource untorn: by its user before it has a finalizer, or by another provider |
| `AwsRuns.LeavesVpcBehind` | pkg/providers/aws/provider_postgres.go:605-666 | a run without failing calls that does it, in both ways |
| `AwsRuns.StuckExists` | pkg/providers/aws/cluster_network_provider.go:513-515 | a safe state with the VPC, the last resource being deleted and only a deleted peering, from which no pass removes it |
| `AwsRuns.NewResourceFrees` | pkg/resources/provider.go:72-90 | once any other resource exists the stuck one can go |
| `AwsRuns.TeardownNeedsNoInstance` | pkg/providers/aws/provider_postgres.go:605-635 | a call that takes anything of the network away is made only when no instance is left |
| `GcpSnapshots.EmptyStoreHolds` | pkg/providers/gcp/provider_postgressnapshot.go:289-322 | the store every run starts from satisfies the invariant |
| `GcpSnapshots.NewestIsKept` | pkg/providers/gcp/provider_postgres.go:715-777 | while the invariant holds, the newest completed snapshot is unmarked and its object exists |
| `GcpSnapshots.NewestExists` | pkg/providers/gcp/provider_postgressnapshot.go:289-305 | above every completed snapshot there is a newest one of the same instance |
| `GcpSnapshots.MarkSafe` | pkg/providers/gcp/provider_postgres.go:744-757 | marking any snapshot but the newest completed one keeps the invariant |
| `GcpSnapshots.PutSafe` | controllers/postgressnapshot/postgressnapshot_controller.go:154-180 | phase, flag and finalizer writes keep it, errors over a completed phase aside |
| `GcpSnapshots.PutIsGoodCall` | controllers/postgressnapshot/postgressnapshot_controller.go:154-180 | all of them, these errors included, are good calls in every state |
| `GcpSnapshots.CallKeepsInv` | controllers/postgressnapshot/postgressnapshot_controller.go:154-180 | a good call breaks the invariant only if it is an error that exposes a marked snapshot |
| `GcpSnapshots.RegressBreaksIff` | controllers/postgressnapshot/postgressnapshot_controller.go:162-167 | a completed phase overwritten by Failed breaks it if and only if a marked snapshot has no other completed successor |
| `GcpSnapshots.RegressExposesMarked` | controllers/postgressnapshot/postgressnapshot_controller.go:162-167 | an error on the newest of two makes the marked one the newest completed |
| `GcpSnapshots.HandOverFlags` | pkg/providers/gcp/provider_postgressnapshot.go:215-251 | a pass over the newest flags it, and clears the others if it had the flag when it was read |
| `GcpSnapshots.HandOverFlagOf` | pkg/providers/gcp/provider_postgressnapshot.go:215-251 | the flag of every snapshot after a pass: the newest gains it if it is the one reconciled, another of the instance loses it if and only if the newest had it when it was read, all else stays |
| `GcpSnapshots.HandOverSettles` | pkg/providers/gcp/provider_postgressnapshot.go:215-251 | after two passes over the newest it alone has the flag |
| `GcpSnapshots.SettledStays` | pkg/providers/gcp/provider_postgressnapshot.go:215-251 | from there every pass changes nothing |
| `GcpSnapshotReconcile.GetLatestSnapshot` | pkg/providers/gcp/provider_postgressnapshot.go:289-305 | the newest completed snapshot of the instance, or none if and only if none is complete |
| `GcpSnapshotReconcile.ExpireSnapshots` | pkg/providers/gcp/provider_postgres.go:744-757 | nothing goes that is of another instance, the newest completed one, or not older than the retention; on success all others are marked, or gone if they never had a finalizer |
| `GcpSnapshotReconcile.NewestDecides` | pkg/providers/gcp/provider_postgres.go:763-767 | the first after sorting was created more than the frequency ago if and only if all were |
| `GcpSnapshotReconcile.RetentionPass` | pkg/providers/gcp/provider_postgres.go:715-777 | whether it ends in an error or not: a snapshot of another instance, the newest completed one, and one with now <= created + retention stay unchanged; on success with a completed snapshot all others are marked or gone, and one new snapshot appears if and only if created + frequency < now for all; with no snapshot it creates one, with none complete it does nothing |
| `GcpSnapshotReconcile.ReconcileSkipDelete` | pkg/providers/gcp/provider_postgressnapshot.go:215-251 | changes flags only; on success it is the hand-over for the newest completed snapshot, flag by flag |
| `GcpSnapshotReconcile.DeletePostgresSnapshot` | pkg/providers/gcp/provider_postgressnapshot.go:253-287 | a flagged snapshot keeps its object; without the flag the resource goes only after the object |
| `GcpSnapshotReconcile.SnapshotReconcile` | controllers/postgressnapshot/postgressnapshot_controller.go:98-184 | a marked snapshot loses its object unless flagged, then goes, and nothing else changes; another becomes complete only with its object; without failing calls the one goes, the other is complete if and only if its object exists, flags are passed on, and once the newest alone has the flag nothing changes |
| `GcpSnapshotReconcile.UpdatePhase` | controllers/postgressnapshot/postgressnapshot_controller.go:154-180 | writes the phase, errors over completed ones included |
| `GcpSnapshotReconcile.RunEvents` | controllers/postgressnapshot/postgressnapshot_controller.go:98-184 | every interleaving of the two controllers answers every event in order and consists of good calls |
| `GcpSnapshotReconcile.NewestKeptInRun` | pkg/providers/gcp/provider_postgres.go:715-777 | in every state before an error exposes a marked snapshot, the newest completed one is unmarked and its object exists |
| `GcpSnapshotReconcile.EveryRun` | controllers/postgressnapshot/postgressnapshot_controller.go:98-184 | the same from an empty store, with every event answered and flags and objects going only as stated, whichever calls fail |
| `GcpSnapshotReconcile.NewestNeverLost` | pkg/providers/gcp/provider_postgres.go:715-777 | along every run in which no error is written over a completed phase, the newest completed snapshot is never marked, keeps its object, and is replaced only by a newer one |
| `GcpSnapshotReconcile.FlagWithdrawnOnlyAfterHandOver` | pkg/providers/gcp/provider_postgressnapshot.go:231-247 | a flag is withdrawn only in states where the stored newest completed snapshot has it |
| `GcpSnapshotReconcile.ObjectGoesOnlyWhenMarked` | pkg/providers/gcp/provider_postgressnapshot.go:253-262 | in every run an object goes only for a marked snapshot without the flag |
| `GcpSnapshotReconcile.FlagSettles` | pkg/providers/gcp/provider_postgressnapshot.go:215-251 | two reconciles of the newest without failing calls leave the flag to it alone, and a third changes nothing |
| `GcpTeardown.RefusalIsExactIff` | pkg/providers/gcp/cluster_network_provider.go:231-233 | looking at the first reserved range protects the range if and only if it is not reserved further down only |
| `GcpTeardown.SecondRangeIsNotProtected` | pkg/providers/gcp/cluster_network_provider.go:231-233 | a connection that reserves the range second does not stop its deletion |
| `GcpTeardown.GoneIffZero` | pkg/providers/gcp/provider_postgres.go:293-384 | the measure is zero if and only if instance, peering, connection, range and finalizer are all gone |
| `GcpTeardown.DismantlingLowers` | pkg/providers/gcp/cluster_network_provider.go:174-240 | any change the network deletion makes lowers the measure |
| `GcpTeardown.SettlingLowers` | pkg/providers/gcp/cluster_network_provider.go:299-313 | finishing a pending operation lowers the measure |
| `GcpTeardown.DeletePeeringAndService` | pkg/providers/gcp/cluster_network_provider.go:174-209 | the connection is touched only after the peering is gone |
| `GcpTeardown.DeleteNetworkIpRange` | pkg/providers/gcp/cluster_network_provider.go:211-240 | the range goes only while no present connection names it first |
| `GcpTeardown.DeleteInstance` | pkg/providers/gcp/provider_postgres.go:302-336 | at most one operation is started, and on an idle instance only: the deletion only of an unprotected one, the lifting of the protection before it; without error a pass lowers the measure or found a pending operation, of whatever kind |
| `GcpTeardown.DeleteReconcile` | pkg/providers/gcp/provider_postgres.go:293-384 | no pass raises the measure; one without error lowers it or waits for a pending operation; the instance first, protection before deletion, then with the last resource only peering, connection, range; it keeps its finalizer until all are gone |
| `GcpTeardown.Drain` | pkg/providers/gcp/provider_postgres.go:293-384 | repeated passes, each followed by the end of the pending operations, terminate from whatever failed passes left, with nothing left over |
| `Versions.NotOlderChains` | pkg/resources/versions.go:12-25 | "not older than" on zero-padded versions is transitive |
| `Versions.LessThanIsFirstDifference` | pkg/resources/versions.go:12-25 | less than if and only if, with missing numbers as zeros, the first difference is an increase |
| `Versions.ParsesWhatIsShown` | pkg/resources/versions.go:12-25 | every dotted version that is written out is read back |
| `RdsDrift.VerifyPendingModification` | pkg/providers/aws/provider_postgres.go:818-849 | false if and only if some field of the request is pending with the same value |
| `RdsDrift.BuildRDSUpdateStrategy` | pkg/providers/aws/provider_postgres.go:742-815 | fails if and only if a version does not parse; nothing if and only if all agree or part of the drift is pending, spelled out field by field where nothing is pending; otherwise exactly the differing fields |
| `RdsDrift.NextDiffIsEmptyIff` | pkg/providers/aws/provider_postgres.go:742-849 | after the request, whichever fields are left for the window, the next diff is empty, except if and only if an immediate upgrade brings a stale pending value, or the certificate waits with nothing beside it that the pending check looks at |
| `RdsDrift.CertRequestRepeats` | pkg/providers/aws/provider_postgres.go:750-753 | a certificate that waits alone is asked for with the same request on every pass until the window |
| `RdsDrift.CertIsAskedForAgain` | pkg/providers/aws/provider_postgres.go:750-753 | a concrete instance of it |
| `RdsDrift.StaleValueComesAlong` | pkg/providers/aws/provider_postgres.go:796-808 | a concrete upgrade at once that changes the class away from the configuration |
| `RdsDrift.DiffTwice` | pkg/providers/aws/provider_postgres.go:742-849 | diff, modify, diff: the second asks for something if and only if the first did and one of the two exceptions applies |
| `RdsDrift.PendingHidesDrift` | pkg/providers/aws/provider_postgres.go:810-812 | a lifted deletion protection goes unnoticed while a class change is pending |
| `RdsDrift.AppliedKeepsEngineSafe` | pkg/providers/aws/provider_postgres.go:796-808 | the request never lowers the engine, now or when the window comes |
| `RdsDrift.RunNeverLowersEngine` | pkg/providers/aws/provider_postgres.go:742-849 | no run of reconciles, under any configurations, and maintenance windows, each answered in order, lowers the engine version |
| `RdsDrift.BuildRDSCreateStrategy` | pkg/providers/aws/provider_postgres.go:852-939 | keeps what is set and fills in the defaults; the engine is always a supported one |
| `RdsDrift.SupportedEnginesParse` | pkg/providers/aws/provider_postgres.go:65-68 | every supported engine version parses |
| `RdsDrift.CreateThenDiff` | pkg/providers/aws/provider_postgres.go:852-939 | an instance created from any strategy shows no drift |
| `CloudSqlDrift.BuildCloudSQLCreateStrategy` | pkg/providers/gcp/provider_postgres.go:427-513 | keeps what is set, fills in the defaults, and leaves nothing zero that is sent unforced |
| `CloudSqlDrift.MapToGcpDatabaseInstance` | pkg/providers/gcp/gcpiface/database_types.go:417-656 | through the zero-dropping wire form every compared setting arrives, false flags and hour 0 included, and nothing that is not set; day 0 does not arrive |
| `CloudSqlDrift.BuildCloudSQLUpdateStrategy` | pkg/providers/gcp/provider_postgres.go:530-642 | no patch if and only if all compared settings agree; a stored patch sets each to the configured value and leaves what is not configured as it was, resize flag, day and hour off the wire included; agreement follows except if and only if day 0 was to replace another day |
| `CloudSqlDrift.AgreesIffAtTarget` | pkg/providers/gcp/provider_postgres.go:530-642 | all compared settings agree if and only if the instance is what a patch would make of it, day 0 aside |
| `CloudSqlDrift.TargetIsFixed` | pkg/providers/gcp/provider_postgres.go:530-642 | what a patch makes of an instance agrees with the configuration, day 0 aside |
| `CloudSqlDrift.CreatedAgrees` | pkg/providers/gcp/gcpiface/database_types.go:417-656 | a created instance agrees with the configuration whatever the server's own settings, with that exception |
| `CloudSqlDrift.CreateThenCompare` | pkg/providers/gcp/provider_postgres.go:427-513 | default, map, send, store, compare: no drift, with that exception |
| `CloudSqlDrift.PatchThenCompare` | pkg/providers/gcp/provider_postgres.go:530-642 | compare, patch, compare: no drift, with that exception, which every patch leaves as it was |
| `CloudSqlDrift.ProperDaysSettle` | pkg/providers/gcp/provider_postgres.go:616-628 | days 1 to 7 and an unset day are never lost |
| `CloudSqlDrift.DayZeroIsNotSent` | pkg/providers/gcp/provider_postgres.go:616-628 | day 0 over day 3: nothing on the wire, day 3 stays |

## Left out

- Interleavings inside a reconcile: the code takes no lock between counting the resources and removing the finalizer, so runs have reconciles as atomic steps.
- Parties that remove live network parts, route tables or bucket objects behind the operator's back; instances may vanish at any time.
- AwsNetworkProvider.CreateMissingVpc: the pass after a failed wait returns a network without VPC, whose use ends the pass; here it ends at once.
- AwsNetworkProvider.ReconcileSubnets: zones and subnet tags are in `StandaloneSubnets`, not in the lifecycle.
- AwsNetworkProvider.ReconcileGroup: a changed description, which also triggers the modification, and tags.
- AwsReconcile.ReconcileInstance: maintenance, tagging and secrets count as calls that may end the pass; drift itself is in `RdsDrift`.
- The bundled mode of the AWS providers beyond subnet allocation, and the switch between the two modes: standalone mode is taken as given.
- Liveness of the AWS teardown under failing calls: it does not hold, see the findings; the exact condition for one pass is `Removable`.
- GcpSnapshotReconcile.RetentionPass: one reading of the clock per pass, and creation times of one instance's snapshots are distinct.
- User deletions of snapshots, bucket life-cycle rules and bucket deletion.
- SubnetGenerator.GenerateAvailableSubnets: a parent of prefix 0, on which the walk does not end.
- DefaultCidr.GetNonOverlappingDefaultCidr: IPv6 entries.
- CloudSqlDrift.BuildCloudSQLUpdateStrategy: found instances without backup settings, or without the resize flag when one is configured, on which the code panics.
- Versions.NotOlderChains: prereleases, metadata, a leading "v" and numbers over 64 bits.
- RdsDrift.RunNeverLowersEngine: minor upgrades that AWS makes on its own.
- RdsDrift.NextDiffIsEmptyIff: of the compared fields only those that the API can report as pending may wait for the window; the others take effect with the request.
- ElastiCache and Memorystore drift, maintenance windows, service updates.
- GCP network creation, blob storage, OpenShift providers, SMTP credentials.
- Metrics, tags and labels, credentials, name building, status messages.
