# Deployment manager: a model of the reconcilers

The deployment manager drives a StarlingX system to the state that Kubernetes resources describe. Layered host
profiles are merged into one desired profile, the running system is read back into a profile of the same type, the
two are compared, and create, delete, update, lock and unlock requests close the gap, over many passes, while users
and other controllers keep changing things.

This project models five parts of it and proves what each is relied on for.

- **Networking** (`InterfaceIdentity`, `Inventory`, `StaleInterfaces`, `Routes`, `Addresses`, `NetworkingOrder`,
  `InterfaceNetworks`, `StaleNetworks`, `InterfaceRequests`, `BuildOrder`, `PlatformNetworks`, `NetworkLookups`,
  `InterfaceGrowth`, `NetworkingPass`): which configured interface a system interface is, by mutual recursion over the
  uses graph; deletion of stale interfaces, routes, addresses and network associations; creation of missing ones; the
  whole pass, when it succeeds, and why the next one has nothing to do. The system API is a class whose requests may fail at any time; the reconciler's cached lists
  are a second object, and they are as stale in the model as in the code.
- **Profile merge** (`KeyedMerge`, `ProfileMerge`, `MergeKeeps`, `VolumeGroups`, `ProfileChain`): the in-place keyed
  slice merge with its nil, empty and non-empty cases, the merge of whole profiles, volume groups, inheritance chains
  and the hosts that a profile update reaches.
- **Comparison** (`DeepEqual`, `EqualBothWays`, `Compare`): the sparse, unordered, one-directional comparison of profiles and its split
  into an enabled and a disabled half.
- **Lifecycle** (`DeploymentScope`, `HostLifecycle`, `HostRuns`, `HostProgress`, `ResourceStatus`, `DataNetwork`,
  `PtpInstance`, `Ceph`): one reconcile pass as a step over the stored status, methods proved against that step, what
  a pass brings about in each state of a change, and theorems over every run in which users edit, others ask for locks, requests fail, status writes get lost and the system changes on
  its own.
- **Read-back and deltas** (`Processors`, `Memory`, `Delta`, `PtpParameters`): parsing the running configuration,
  computing updates from it, and applying list and map differences.

`Prelude` and `Records` hold facts about lists and sets, `ProfileTypes` the profile data types and their keys.

## How it is stated

- Code that changes state is a class with methods. Each method is tied to a function of the old state, also for the
  exits after a failed request, and the lemmas beside it say what that function guarantees.
- Every nondeterministic outcome (a request, a status write, a lookup, a comparison, what the system reports) is an
  input, so the theorems hold whatever the outside does.
- Some promises are false of the code. Then there is a lemma with inputs that fail and one with the exact condition.

Findings of this kind:

- A memory profile just read from a worker asks for an update when the vswitch uses 2M pages
  (`Memory.ReadBackCounterexample`; exactly when: `Memory.ReadBackIff`).
- The same address on two interfaces is deleted and created by every pass (`Addresses.SameAddressTwiceNeverQuiet`;
  `Addresses.NextPassQuietIff`).
- A route on an ethernet interface that stands on another one is deleted and created by every pass
  (`NetworkingPass.PortlessNeverQuiet`; `NetworkingPass.PassSettles`).
- Equal profiles compare different without interfaces, and on an all-in-one duplex with a file system listed twice
  (`Compare.MissingInterfacesNeverInSync`, `Compare.EqualButDifferentOnDuplex`;
  `Compare.EqualProfilesCompareEqualIff`).
- The two halves of the comparison miss a difference whenever something is switched off, on an all-in-one duplex, or
  when OSDs cannot be provisioned (`Compare.SomethingUnseen` gives a pair for each setting; `Compare.DecidesIff`), and
  under every setting when the left side lists no file systems (`Compare.UnlistedFileSystemUnseen`).
- A storage section on the left side only is dereferenced on the right (`Compare.OSDComparisonFailsIff`).
- An empty list in the middle breaks associativity of the keyed merge (`KeyedMerge.DeletingMiddleCounterexample`;
  `KeyedMerge.DeletingMiddleIff`).
- Volume groups depend on how merges are grouped (`VolumeGroups.UnnamedGroupForgotten`,
  `VolumeGroups.MiddleTypeSkipped`; `VolumeGroups.VolumeGroupsAssociateIff`).
- A list comparison can miss a change of multiplicity (`Delta.MultiplicityIsMissed`; `Delta.DecidesIff`).
- The association lookup ignores the interface (`InterfaceNetworks.LookupWrong`; `InterfaceNetworks.LookupRightIff`).
- A network whose holder has a nil list stays there, and the interface that asks for it asks in vain
  (`NetworkLookups.NilHolderKeepsNetwork`, `NetworkLookups.NilHolderBlocks`;
  `PlatformNetworks.InPlaceAfterStalePhaseIff`).
- An empty PTP section that is no longer configured stays (`PtpParameters.EmptySectionStays`;
  `PtpParameters.QuietIff`).
- The table of visited profiles is never filled, so the recursion ends exactly when no profile name comes back
  (`ProfileChain.OwnBaseNeverEnds`; `ProfileChain.EndsIffNoRepeat`); the loop error is never reported
  (`ProfileChain.ChainIsFold`).

Where the documentation and the code disagree the code is modelled: slices without keys are overwritten
(`internal/controller/common/merge.go:106`), while `api/v1/hostprofile_types.go:886` says they are concatenated.
The validation of unique interface names never records a name
(`internal/controller/host/profile_utils.go:470`), so unique names are hypotheses here. `StartMonitor`
always hands back an error, so a pass that starts a monitor counts as failed.

## Model

| member | source | states |
|---|---|---|
| InterfaceIdentity.BelowShrinks | internal/controller/host/networking.go:32-204 | On an acyclic uses graph what lies below shrinks at each step down: the mutually recursive searches terminate. |
| InterfaceIdentity.FoundMeansChainFound | internal/controller/host/networking.go:68-142 | A VLAN or VF that is found stands on interfaces that are all found, down to the first bond or port. |
| InterfaceIdentity.VLANFoundIff | internal/controller/host/networking.go:68-108 | With distinct VLAN names, found exactly when an entry has its name, VID and the configured name of its lower interface. |
| InterfaceIdentity.VFFoundIff | internal/controller/host/networking.go:115-142 | The same for VFs, without a VID. |
| InterfaceIdentity.BondFoundIff | internal/controller/host/networking.go:32-57 | A bond is still configured exactly when one of its members, under its configured name, is in some configured bond. |
| StaleInterfaces.IsStale | internal/controller/host/networking.go:464-470 | Ports and loopback never, anything else exactly when it is not found. |
| StaleInterfaces.ReconcileStaleInterfaces | internal/controller/host/networking.go:457-499 | On success exactly the survivors are left, in order, in the system and in the cache; on failure only stale interfaces are gone; no calls when none is stale. |
| StaleInterfaces.SameIdentityAfterDeletion | internal/controller/host/networking.go:181-204 | Deleting the stale interfaces changes no search result. |
| StaleInterfaces.SecondPassDeletesNothing | internal/controller/host/networking.go:457-499 | A second pass deletes nothing. |
| StaleInterfaces.NoDanglingLower | internal/controller/host/networking.go:447-499 | No surviving VLAN or VF refers to a deleted interface anywhere down its chain. |
| StaleInterfaces.DeletedExactlyWhenUnconfigured | internal/controller/host/networking.go:464-475 | Ports and loopback are never deleted, the others exactly when unconfigured. |
| Routes.IsStale | internal/controller/host/networking.go:239-266 | Stale unless its interface exists, is configured under that very name, and some configured route matches, metric included. |
| Routes.ReconcileStaleRoutes | internal/controller/host/networking.go:232-295 | Leaves exactly the routes that stay, in order; on failure only stale ones are gone; no calls when none is stale. |
| Routes.ReconcileRoutes | internal/controller/host/networking.go:1920-1981 | Appends exactly the missing routes in profile order; a failure leaves a prefix of them; with every request served it succeeds when, and it only ever succeeds when, no missing one names an interface that is not there; no calls when all are covered. |
| Routes.ReconcileRoutePass | internal/controller/host/networking.go:1920-1981 | The stale and the adding step for routes over one set of interfaces: they reach the state the lemmas below speak of, and a quiet state asks for nothing. |
| Routes.PassCovers | internal/controller/host/networking.go:1927-1931 | After a successful pass every configured key is present, without any assumption. |
| Routes.AddedAsConfigured | internal/controller/host/networking.go:1927-1960 | Every added route is for a configured one: its interface, network, prefix and gateway, and its metric or, without one, the default. |
| Routes.MatchesExactly | internal/controller/host/networking.go:209-226 | A system route matches a configured one exactly when interface, prefix, and up to case network and gateway agree, and the metric where one is configured. |
| Routes.RoutesConverge | internal/controller/host/networking.go:209-295 | With distinct keys on both sides: system and configured routes correspond one to one, metric included. |
| Routes.NextPassQuietIff | internal/controller/host/networking.go:239-266 | The pass after a successful one asks for nothing exactly when every route names an interface that the system has by then and that is configured under that name, whatever interfaces were deleted or created meanwhile. |
| Addresses.IsStale | internal/controller/host/networking.go:384-414 | Pool-assigned addresses are never stale; a static one by the first configured address of its key. |
| Addresses.ReconcileStaleAddresses | internal/controller/host/networking.go:376-445 | As for routes. |
| Addresses.ReconcileAddresses | internal/controller/host/networking.go:1866-1911 | As for routes, when it succeeds included; an address assigned by a pool at the place counts as present. |
| Addresses.ReconcileAddressPass | internal/controller/host/networking.go:1866-1911 | The same for addresses. |
| Addresses.PoolAddressesStay | internal/controller/host/networking.go:384-389 | A pass deletes and creates no pool-assigned address. |
| Addresses.AddedAsConfigured | internal/controller/host/networking.go:1866-1911 | Every added address is a configured one, static, on its interface. |
| Addresses.PlaceExactly | platform/info.go:498-509 | An address is at a configured place exactly when interface, prefix and, up to case, the address agree. |
| Addresses.AddressesConverge | internal/controller/host/networking.go:300-311 | With distinct places and no rename under way: one address at every configured place and no static address elsewhere. |
| Addresses.NextPassQuietIff | internal/controller/host/networking.go:390-414 | The exact condition for the next pass to ask for nothing, for interfaces that may have changed meanwhile. |
| Addresses.QuietWhenAddressesDistinct | internal/controller/host/networking.go:300-311 | Without an address configured twice, that condition is the one of routes. |
| Addresses.SameAddressTwiceNeverQuiet | internal/controller/host/networking.go:300-311 | The same address on two interfaces never settles. |
| NetworkingOrder.KeptRouteKeepsItsInterface | internal/controller/host/networking.go:1993-2010 | No route kept by the stale phase is on an interface deleted later in the pass. |
| NetworkingOrder.KeptAddressKeepsItsInterface | internal/controller/host/networking.go:1993-2010 | The same for static addresses. |
| NetworkingOrder.RouteKeptIff | internal/controller/host/networking.go:239-266 | A route is kept exactly when its interface is configured under the name it has and a configured route agrees with it, up to case and with a metric only where one is given. |
| NetworkingOrder.AddressKeptIff | internal/controller/host/networking.go:384-414 | An address is kept exactly when a pool gave it, or the first configured address that agrees puts it on the interface it is on. |
| NetworkingOrder.MappedAfterDeletion | internal/controller/host/networking.go:1993-2010 | The route decision is the same before and after the deletion of interfaces. |
| InterfaceNetworks.NetworkListHeld | platform/info.go:782-792 | The built list names exactly the networks held by the interface. |
| InterfaceNetworks.LookupRightIff | platform/info.go:757-765 | The lookup that ignores its interface is right for every held network exactly when no network is on two interfaces. |
| InterfaceNetworks.LookupWrong | platform/info.go:757-765 | One network on two interfaces: for the second the lookup gives the association of the first. |
| InterfaceNetworks.DeleteOne | internal/controller/host/networking.go:926-934 | The identifier looked up by name alone deletes just the association of the intended interface. |
| InterfaceNetworks.RemoveNetworks | internal/controller/host/networking.go:926-944 | For any list and any cache: each name is looked up in the cache and what is found there is deleted, in order; a failure leaves a prefix done; a name not found is the only reason for that error. |
| InterfaceNetworks.AddNetworks | internal/controller/host/networking.go:946-976 | For any list: the known names are put on the interface in order; a network in use makes the step fail; nothing is asked for in vain when the names are distinct and free. |
| InterfaceNetworks.ReconcileInterfaceNetworks | internal/controller/host/networking.go:915-978 | For any state: removals by the cached list, then additions, each stopped at its first failure. |
| InterfaceNetworks.ReconciledMeans | internal/controller/host/networking.go:915-978 | When no network is held twice and the wanted ones are free: at every exit other interfaces are untouched, no network is on two, and nothing unwanted was added. |
| InterfaceNetworks.ReconciledTarget | internal/controller/host/networking.go:915-978 | On success the interface holds exactly its configured networks that it held or the system knows. |
| InterfaceNetworks.NothingToChange | internal/controller/host/networking.go:915-978 | Nothing is removed or added when that is the case already. |
| StaleNetworks.ReconcileStaleInterfaceNetworks | internal/controller/host/networking.go:510-575 | For any state: the stale names of each interface in turn are removed by the cached list, up to the first failure; no calls when there are none. |
| StaleNetworks.PhaseMeans | internal/controller/host/networking.go:510-575 | When no network is held twice: on success exactly the associations that a configured, non-nil list does not name are gone; cut short, only such ones. |
| StaleNetworks.NoStaleNamesIff | internal/controller/host/networking.go:510-575 | The phase finds nothing to do exactly when no association is stale. |
| InterfaceRequests.UniqueNamesAreExclusive | platform/info.go:400-480 | Unique names, bonds with members of their own and existing ports make the lookups for creation exclusive. |
| InterfaceRequests.LocatedIff | platform/info.go:400-482 | What is looked for: ports by their interface, bonds by a shared member whatever their name, VLANs by name and identifier, the others by name. |
| BuildOrder.LowerBefore | internal/controller/host/networking.go:2034-2055 | The phases come in the order in which interfaces stand on each other: what a requested interface is built on is there or is requested earlier. |
| BuildOrder.BuildableAttainable | internal/controller/host/networking.go:1985-2055 | A profile whose ports are there, whose names are free, and whose lower interfaces are there or defined by it as a kind that can stand below: every phase finds what it needs. |
| BuildOrder.BondThenVLAN | internal/controller/host/networking.go:2048-2054 | A VLAN on a bond that has yet to be created can be built on a system with the two ports only. |
| PlatformNetworks.Obtain | internal/controller/host/networking.go:1155-1240 | Finds the interface in the cache or creates it; ports and loopback are never created. |
| PlatformNetworks.AfterCreate | internal/controller/host/networking.go:1413-1446 | Creating an interface keeps the invariant of the add phases. |
| PlatformNetworks.AfterServing | internal/controller/host/networking.go:915-978 | Serving one request keeps every requested network on its own interface. |
| PlatformNetworks.ReconcilePhase | internal/controller/host/networking.go:1395-1503 | One add phase with caches refreshed only at its end: the invariant at every exit, only requested interfaces created, its requests settled, nothing asked for when settled before. |
| PlatformNetworks.InPlaceAfterStalePhaseIff | internal/controller/host/networking.go:501-509 | After the stale phase every requested network still held is where it belongs: exactly when each holder before was the requester or had a list of its own. |
| PlatformNetworks.NothingStaleOnceSettled | internal/controller/host/networking.go:510-575 | When all is settled the stale phase deletes nothing. |
| PlatformNetworks.ReconcilePlatformNetworks | internal/controller/host/networking.go:1985-2055 | Moving networks is safe at every exit, asks for no network in use, and ends with each interface holding exactly its configured, known networks; interfaces without a list keep theirs; a settled system gets no calls; and with every request served it succeeds for every profile that can be built on what is there. |
| NetworkLookups.PortLookupsInverse | platform/info.go:400-409 | With unique ports, finding the interface of a port and the port of an interface are inverse to each other. |
| NetworkLookups.FoundLocated | internal/controller/host/networking.go:181-204 | In an orderly deployment whatever the search finds for an interface is the entry whose lookup locates that interface. |
| NetworkLookups.OrderlyAgree | platform/info.go:400-480 | With unique names and ports, bonds that match one to one, and no rename under way, both ways of matching interfaces agree. |
| NetworkLookups.OrderlyApart | platform/info.go:400-480 | Then no two requests are about one interface. |
| NetworkLookups.OrderlyReady | internal/controller/host/networking.go:1985-2055 | Such a deployment meets everything that moving networks relies on, for the lookups before and after interfaces are created. |
| NetworkLookups.NilHolderKeepsNetwork | internal/controller/host/networking.go:510-575 | A holder with a nil list: nothing is stale, and the network is not where it is wanted. |
| InterfaceGrowth.SameIdentityAfterGrowth | internal/controller/host/networking.go:181-204 | Creating interfaces changes no search result for those that were there. |
| InterfaceGrowth.GrownAcyclic | internal/controller/host/networking.go:1505-1622 | Interfaces created over existing ones keep the uses graph acyclic. |
| InterfaceGrowth.AllSettle | internal/controller/host/networking.go:181-204 | Every bond, VLAN and VF that the add phases created is found by the searches, under its own name, with everything it stands on. |
| InterfaceGrowth.OrderKept | internal/controller/host/networking.go:1985-2055 | A pass over a deployment in order leaves it in order: nothing stale, nothing to rename, every defined name found. |
| NetworkingPass.ReconcileNetworking | internal/controller/host/networking.go:1985-2075 | The whole pass: stale routes, addresses, interfaces and networks, the add phases, addresses and routes. No network is asked for in vain or ever on two interfaces; on success the exact result; with every request served it succeeds for every profile that can be built on what survives and whose routes and addresses name interfaces that survive or that it defines; a system with nothing to do gets no calls; and after a success, also one that created the interfaces which routes need, the next pass of a self-contained profile has nothing to do, exactly when no route is on a portless ethernet interface. |
| NetworkingPass.PassSettles | internal/controller/host/networking.go:1985-2075 | Why: the result of a pass meets the conditions of the pass again, and is still under that condition. |
| NetworkingPass.PortlessNeverQuiet | internal/controller/host/networking.go:149-160 | A route on an ethernet interface over another one is never settled, whatever routes there are. |
| Delta.ListDelta | common/utilities.go:44-75 | Added, removed and common elements, in order. |
| Delta.DeltaApplies | common/utilities.go:44-75 | Removing the removed and adding the added turns one list into the other as sets; the two never overlap; both are empty exactly when the sets are equal. |
| Delta.DeltaPartitions | common/utilities.go:44-75 | Every occurrence is reported once, as added or as same. |
| Delta.ListChanged | common/utilities.go:119-128 | Changed exactly when lengths or sets differ. |
| Delta.UnchangedMeansPermutation | common/utilities.go:119-128 | Without duplicates on one side the test decides equality up to order. |
| Delta.DecidesIff | common/utilities.go:119-128 | The test tells a list from every other list up to order exactly when the list has no duplicates or one value only. |
| Delta.MultiplicityIsMissed | common/utilities.go:119-128 | With duplicates it can miss a change. |
| Delta.ListIntersect | common/utilities.go:131-144 | The common elements in order, each once for every pair of its occurrences, and whether there are any. |
| Delta.MapsDelta | common/utilities.go:77-113 | The section-wise difference, whatever the iteration order; a new section is reported even when empty. |
| PtpParameters.ReconcileParamAdded | internal/controller/ptpinstance_controller.go:107-128 | Adds every listed parameter; a failure leaves a part of them. |
| PtpParameters.ReconcileParamRemoved | internal/controller/ptpinstance_controller.go:131-151 | Removes every listed parameter; a failure leaves a part of them. |
| PtpParameters.UpdateReportedIffNotInSync | internal/controller/ptpinstance_controller.go:60-103 | An update is reported exactly when the sections or some section's set differ. |
| PtpParameters.ReconcileParameters | internal/controller/ptpinstance_controller.go:359-384 | Afterwards every section has the configured set; at every exit nothing wanted is lost and nothing foreign appears; and the next pass is quiet exactly when the sections settle. |
| PtpParameters.QuietIff | internal/controller/ptpinstance_controller.go:60-151 | Exactly when sections settle, for systems that drop empty sections and for those that keep them. |
| PtpParameters.EmptySectionStays | internal/controller/ptpinstance_controller.go:60-151 | An empty section that is not configured any more stays either way. |
| PtpInstance.PtpInstanceReconciler.ReconcileUpdated | internal/controller/ptpinstance_controller.go:313-384 | Refines the update step: deletion and creation anew for a changed name or service, parameters otherwise, and nothing behind the gate. |
| PtpInstance.PtpInstanceReconciler.ReconcileResource | internal/controller/ptpinstance_controller.go:388-433 | Refines the resource step: lookup by identifier or name, creation or update, and the status written afterwards. |
| PtpInstance.PtpInstanceReconciler.Reconcile | internal/controller/ptpinstance_controller.go:571-660 | A pass takes the stored state to the pass function of it. |
| PtpInstance.StopAfterInSync | internal/controller/ptpinstance_controller.go:435-446 | Over every run in bootstrap scope: once reconciled it stays so, and no request is sent, not even a deletion. |
| PtpInstance.NextPassQuiet | internal/controller/ptpinstance_controller.go:313-433 | A pass that may act and is served leaves the resource in sync with an instance of the configured name and service; when the parameter requests deliver the configured sections, the next pass sends nothing. |
| PtpInstance.InSyncMeansLinked | internal/controller/ptpinstance_controller.go:388-433 | In sync is stored only for an instance of the configured name and service, with the configured sections when what the parameter requests leave is that. |
| PtpInstance.OldInstanceGone | internal/controller/ptpinstance_controller.go:313-344 | The instance with the former name or service is gone when its deletion is served. |
| PtpInstance.FailedReplacement | internal/controller/ptpinstance_controller.go:327-339 | Deleted but not created anew: the resource stays linked to the deleted instance, not in sync. |
| PtpInstance.LostInstance | internal/controller/ptpinstance_controller.go:388-433 | A lost instance that cannot be created again is forgotten with the next change of the status only. |
| PtpInstance.NewGenerationFalls | internal/controller/ptpinstance_controller.go:448-523 | In principal scope a new generation takes back Reconciled, unless it is the first one noted of a reconciled resource. |
| PtpInstance.OneFallPerGeneration | internal/controller/ptpinstance_controller.go:448-523 | In principal scope Reconciled falls at most once for each observed generation. |
| DeepEqual.ListEqual | api/v1/zz_generated.deepequal.go:747-770 | The nested loops decide the length-plus-subset test. |
| DeepEqual.KeyedBijection | api/v1/zz_generated.deepequal.go:747-770 | With distinct left keys the test holds exactly when both sides have the same distinct keys and are related key by key. |
| DeepEqual.DuplicatesBreakSymmetry | api/v1/zz_generated.deepequal.go:805-828 | With duplicate keys the list test is not symmetric. |
| DeepEqual.LabelsAreEqual | api/v1/zz_generated.deepequal.go:1776-1796 | The map test decides equality of maps. |
| DeepEqual.ProfilePreorder | api/v1/zz_generated.deepequal.go:832-953 | Comparing whole profiles is reflexive and transitive, nested types included. |
| DeepEqual.ProfileEqualIsNotSymmetric | api/v1/zz_generated.deepequal.go:1724-1942 | It is not symmetric: nil fields on the left are ignored. |
| DeepEqual.EqualProfilesMatchByKey | api/v1/hostprofile_types.go:601-697 | With distinct keys on the left, equal profiles correspond element by element in every keyed list, and the right keys are distinct too. |
| EqualBothWays.ProfilesBothWays | api/v1/zz_generated.deepequal.go:832-953 | With distinct keys, profiles that are equal in both directions are the same field by field: every attribute, every keyed element with all its fields, every nested section. |
| Compare.EqualProfilesCompareEqual | internal/controller/host/host_controller.go:954-1139 | Distinct file system names on an all-in-one duplex, and interfaces where they are compared, are enough for equal profiles to compare equal. |
| Compare.EqualProfilesCompareEqualIff | internal/controller/host/host_controller.go:954-1139 | Exactly when equal profiles compare equal, whatever is switched on and whatever the system type. |
| Compare.EqualButDifferentOnDuplex | internal/controller/host/host_controller.go:1000-1028 | On an all-in-one duplex a file system listed twice makes equal profiles compare different. |
| Compare.CompareDecidesEquality | internal/controller/host/host_controller.go:954-963 | With everything on, no all-in-one duplex and OSDs that can be provisioned, the two halves decide equality on all but the base name and the storage monitor. |
| Compare.DecidesIff | internal/controller/host/host_controller.go:954-963 | They decide it for every pair of profiles exactly under these settings; the comparison of file system types may be off. |
| Compare.SomethingUnseen | internal/controller/host/host_controller.go:954-1139 | A pair of profiles for every other setting. |
| Compare.OSDComparisonFailsIff | internal/controller/host/host_controller.go:921-949 | The comparison fails exactly when only the left side has storage. |
| Compare.MissingInterfacesNeverInSync | internal/controller/host/host_controller.go:1097-1108 | Two profiles without interfaces never compare equal. |
| Compare.OSDUnseen | internal/controller/host/host_controller.go:984-991 | Without a provisioning state, or with OSDs switched off, a missing OSD goes unnoticed. |
| Compare.FileSystemUnseen | internal/controller/host/host_controller.go:1000-1028 | On an all-in-one duplex, or without comparing sizes, a missing file system goes unnoticed. |
| Compare.UnlistedFileSystemUnseen | internal/controller/host/host_controller.go:1000-1028 | When the left side lists no file systems, a surplus one goes unnoticed under every setting. |
| Compare.ReconfigIgnores | internal/controller/host/host_controller.go:1056-1120 | After deployment the disabled half ignores the administrative state and the routes. |
| Compare.DisabledDecides | internal/controller/host/host_controller.go:1056-1139 | The disabled half decides agreement on attributes, board management, memory, processors, interfaces, addresses and routes, each as far as it is switched on. |
| Compare.DisabledAfterDeployment | internal/controller/host/host_controller.go:1056-1139 | After deployment it decides the same with administrative state and routes taken over from the left. |
| Compare.EnabledIgnores | internal/controller/host/host_controller.go:966-1053 | The enabled half is unchanged by other memory, processors, interfaces, addresses, board management and attributes on either side. |
| Compare.EnabledDecides | internal/controller/host/host_controller.go:966-1053 | Over equal storage it decides agreement on the administrative state, in bootstrap scope, and on the routes. |
| Compare.StorageListsSeen | internal/controller/host/host_controller.go:993-1040 | Volume groups and file system sizes are seen by the enabled half and not by the other. |
| Compare.TypesDecide | internal/controller/host/host_controller.go:875-919 | File system types differ exactly when one of three kinds is configured and missing or one of two kinds is there and not configured. |
| Compare.TypesSeenBy | internal/controller/host/host_controller.go:1056-1139 | They are the business of the disabled half. |
| Compare.OSDSeenBy | internal/controller/host/host_controller.go:984-991 | A missing OSD is seen by each half exactly when OSDs are provisioned in that host state. |
| Compare.OSDsDecide | internal/controller/host/host_controller.go:921-949 | However the lists are missing, the OSDs have to be the same in the half that looks at them. |
| Compare.FurtherOnDuplex | internal/controller/host/host_controller.go:1000-1028 | On an all-in-one duplex any further file system on the host is a difference, but for the one of Ceph. |
| KeyedMerge.SliceField.Merge | internal/controller/common/merge.go:66-152 | The nested in-place loops compute the keyed merge; keyless slices are overwritten or kept as the transformer says. |
| KeyedMerge.MergedKeys | internal/controller/common/merge.go:116-149 | Old elements keep their positions, new keys follow in source order. |
| KeyedMerge.MergedElement | internal/controller/common/merge.go:116-149 | The element of each key is the union of both sides by key, merged where both have it. |
| KeyedMerge.MergedPosition | internal/controller/common/merge.go:116-149 | Each old position holds the old element or, for the first one with its key, the merge of it with the source element of that key. |
| KeyedMerge.MergedTail | internal/controller/common/merge.go:116-149 | Behind the old elements come those with new keys, in source order. |
| KeyedMerge.SourceKept | internal/controller/common/merge.go:116-149 | Every source element is fully contained in the result: merging it again changes nothing. |
| KeyedMerge.MergeKeepsBothSides | internal/controller/common/merge.go:85-149 | Every source element is contained in the result, every destination element it does not name stays, nil changes nothing, empty deletes. |
| KeyedMerge.MergeSliceUniqueIff | internal/controller/common/merge.go:85-149 | Unique keys survive for every source, unless an empty destination takes over a source with duplicates. |
| KeyedMerge.MergeSliceIdempotent | internal/controller/common/merge.go:85-149 | Merging a source with unique keys twice is merging it once. |
| KeyedMerge.MergeSliceAssociative | internal/controller/common/merge.go:85-149 | Associative, order included, when the middle list is not the empty list. |
| KeyedMerge.DeletingMiddleIff | internal/controller/common/merge.go:85-98 | With the empty list in the middle, exactly when it is associative nevertheless. |
| KeyedMerge.DeletingMiddleCounterexample | internal/controller/common/merge.go:88-98 | The smallest case where it is not. |
| ProfileMerge.MergeVolumeGroups | internal/controller/host/profile_utils.go:49-71 | The volume groups of the second profile by name and order, each filled from the first default of its name. |
| ProfileMerge.VolumeGroupsOfSecond | internal/controller/host/profile_utils.go:29-46 | The same for the merge of whole profiles: the generic merge that runs before has no influence. |
| ProfileMerge.ElementsKeepKeys | api/v1/hostprofile_types.go:601-697 | Merging two elements with the same key keeps the key, for every keyed type. |
| ProfileMerge.MergeProfilesIdempotent | internal/controller/host/profile_utils.go:29-46 | Merging a profile with unique keys twice is merging it once, volume groups included. |
| ProfileMerge.MergeProfilesAssociative | internal/controller/host/profile_utils.go:29-46 | Associative on everything but volume groups, unless the middle profile deletes. |
| ProfileMerge.OverlayAssociative | internal/controller/common/merge.go:42-152 | The generic merge of whole profiles is associative unless the middle one deletes. |
| VolumeGroups.VolumeGroupsAssociateIff | internal/controller/host/profile_utils.go:49-71 | Volume groups come out the same for both groupings exactly when the second or third list is nil or every group of the third meets a condition on the nil and "none" fields of the groups of its name. |
| VolumeGroups.MergeProfilesAssociativeIff | internal/controller/host/profile_utils.go:29-71 | Whole profiles, when no list of the middle one deletes: associative exactly under that condition. |
| VolumeGroups.UnnamedGroupForgotten | internal/controller/host/profile_utils.go:49-71 | A group that the middle profile does not name. |
| VolumeGroups.MiddleTypeSkipped | internal/controller/host/profile_utils.go:49-71 | A group that all three profiles name. |
| MergeKeeps.MergeKeepsWhatIsSet | internal/controller/host/profile_utils.go:29-46 | Whole profiles, field by field: every field that the specific profile sets is kept and every field it leaves unset has the other's value, down to the fields of list elements matched by key and of the sections inside them; an empty list deletes. |
| ProfileMerge.SpecificAttributesHold | api/v1/hostprofile_types.go:856-891 | The merged attributes satisfy the more specific profile exactly when its nil lists and labels meet nothing. |
| ProfileChain.EndsWithinSize | internal/controller/host/profile_utils.go:341-363 | A chain that ends at all ends within as many steps as there are profiles. |
| ProfileChain.EndsIffNoRepeat | internal/controller/host/profile_utils.go:341-363 | The recursion ends exactly when no name comes back. |
| ProfileChain.OwnBaseNeverEnds | internal/controller/host/profile_utils.go:341-363 | A profile whose base is itself: the chain never ends. |
| ProfileChain.ChainIsFold | internal/controller/host/profile_utils.go:341-363 | The recursion is the left fold from the default profile through the root to the leaf; a missing profile is the only error. |
| ProfileChain.OverridesKept | internal/controller/host/profile_utils.go:389-440 | Every field that the overrides of a host set is kept over what its chain gives, and what they leave unset is the chain's; an empty ethernet list becomes nil. |
| ProfileChain.NoOverrides | internal/controller/host/profile_utils.go:389-440 | Without overrides the composite is what the chain gives, an empty ethernet list aside. |
| ProfileChain.ChainDefaults | internal/controller/host/host_controller.go:54-68 | The last profile of the chain that sets the administrative state or the provisioning mode decides it; without one a host is locked and dynamically provisioned. |
| ProfileChain.OnlyTwoDefaults | internal/controller/host/host_controller.go:54-68 | Nothing but these two has a default. |
| ProfileChain.ProfileUses | internal/controller/hostprofile_controller.go:40-66 | Whether the chain above a profile names the target. |
| ProfileChain.UpdateHosts | internal/controller/hostprofile_controller.go:71-114 | Marks exactly the hosts that read the profile, in order; a version already marked is not written again. |
| ProfileChain.UnselectedUnchanged | internal/controller/host/profile_utils.go:389-440 | A host that is not selected has the composite it had before the profile was changed, created or deleted. |
| HostLifecycle.HostReconciler.UpdateConfigStatus | internal/controller/host/host_controller.go:2299-2412 | Refines the configuration step: annotation by scope, restart of the strategy and of Reconciled by new generations. |
| HostLifecycle.HostReconciler.ReconcileInitialState | internal/controller/host/host_controller.go:667-700 | A lock is sent exactly under its four conditions. |
| HostLifecycle.HostReconciler.ReconcileFinalState | internal/controller/host/host_controller.go:710-760 | An unlock is sent exactly under its conditions. |
| HostLifecycle.HostReconciler.AllControllerNodesEnabled | internal/controller/host/host_controller.go:230-249 | Compares the number of enabled controllers with the required one. |
| HostLifecycle.HostReconciler.ReconcileDisabledHost | internal/controller/host/host_controller.go:809-870 | Runs the out-of-service parts in order up to the first error, then the final state. |
| HostLifecycle.HostReconciler.ReconcileHostByState | internal/controller/host/host_controller.go:1145-1266 | Refines the step by host state, with the status writes that may get lost; the run lemmas speak of that step. |
| HostLifecycle.HostReconciler.StatusUpdateRequired | internal/controller/host/host_controller.go:1383-1459 | Refines the final status step, and reports exactly whether the status changed or defaults are missing. |
| HostLifecycle.HostReconciler.ReconcileExistingHost | internal/controller/host/host_controller.go:1638-1931 | Refines the step from the stable-host test through the comparison and the gate to the reconciliation by state. |
| HostLifecycle.HostReconciler.Reconcile | internal/controller/host/host_controller.go:2468-2605 | A pass takes the stored state to the pass function of it. |
| HostRuns.UnlockOnlyAfterLock | internal/controller/host/host_controller.go:1240-1255 | A required unlock is only entered from a required lock, in a pass that saw the host locked and disabled. |
| HostRuns.DroppedOnlyWhenUnlocked | internal/controller/host/host_controller.go:1217-1230 | A pending strategy is dropped only for a new generation or in a pass that saw the host unlocked and enabled. |
| HostRuns.UnlockHasHistory | internal/controller/host/host_controller.go:1145-1266 | In every run a required unlock goes back to such a pass and has been required ever since. |
| HostRuns.ReturnHasReason | internal/controller/host/host_controller.go:1383-1459 | Between a pending strategy and a later state without one, some pass noted a new generation or saw the host unlocked. |
| HostRuns.TwoControllers | internal/controller/host/host_controller.go:230-249 | The count reaches two exactly when two different controllers are enabled. |
| HostRuns.PassDisciplined | internal/controller/host/host_controller.go:667-870 | No lock or unlock in principal scope; a lock comes alone; an unlock comes last, after every part succeeded, with no strategy required and two controllers enabled for worker and storage hosts. |
| HostRuns.LeftAloneAfterInSync | internal/controller/host/host_controller.go:1900-1918 | Over every run of a first deployment: once in sync, later passes do nothing, whatever edits arrive. |
| HostRuns.ClosedGateDoesNothing | internal/controller/host/host_controller.go:1900-1918 | Behind the closed gate a pass neither acts nor moves the strategy. |
| HostProgress.LockIsRequired | internal/controller/host/host_controller.go:1178-1216 | Out-of-service differences on an enabled host in principal scope: the in-service work is done and a lock is required. |
| HostProgress.AdminNetworkInService | internal/controller/host/host_controller.go:1178-1198 | Where just the admin network is missing it is assigned in service, and no lock becomes required. |
| HostProgress.AdminNetworkMissing | internal/controller/host/host_controller.go:1178-1198 | When it cannot be assigned, no lock becomes required either. |
| HostProgress.UnlockIsRequired | internal/controller/host/host_controller.go:1232-1257 | A locked host with a pending strategy and no failing part: the out-of-service work is done and an unlock is required. |
| HostProgress.UnlockTurnsBack | internal/controller/host/host_controller.go:1178-1216 | In bootstrap scope a host unlocked before that work is done needs a lock again. |
| HostProgress.NothingIsRequired | internal/controller/host/host_controller.go:1218-1230 | A host as configured, with nothing expected by others or sent: the pass ends in sync, reconciled and with no strategy required. |
| HostProgress.StrategyKept | internal/controller/host/host_controller.go:1383-1459 | As long as others expect it or it was sent, a host as configured keeps its strategy, but for an unlock that is fulfilled and a first success on a host locked meanwhile. |
| HostProgress.AssignedIsDone | internal/controller/host/host_controller.go:1383-1459 | After the admin network was assigned, a first success drops the strategy and the marks of the new configuration. |
| HostProgress.MissingDefaultsAreWritten | internal/controller/host/host_controller.go:1383-1459 | A lock that could not be stored at once is stored with the final status as long as the defaults are missing. |
| HostProgress.OwnLockIsRequired | internal/controller/host/host_controller.go:1638-1931 | When the platform network step asks to lock this very host, a lock is required and nothing else is done. |
| HostProgress.NewGenerationRestarts | internal/controller/host/host_controller.go:2299-2412 | In principal scope a new generation of host or profile takes back Reconciled and the strategy. |
| HostProgress.UnwrittenIsNotNoted | internal/controller/host/host_controller.go:2299-2412 | A generation whose status write fails is not noted, and the pass ends there. |
| HostProgress.LockIsSent | internal/controller/host/host_controller.go:667-700 | In bootstrap scope a differing host that is to be locked is locked before anything else is done to it. |
| HostProgress.UnlockIsSent | internal/controller/host/host_controller.go:710-870 | And a locked one that is to be unlocked is unlocked once all its parts are done and, for worker and storage hosts, two controllers are enabled. |
| HostProgress.SeenIsRecorded | internal/controller/host/host_controller.go:1383-1459 | What the lookup saw of the host is stored, and defaults collected from another host are forgotten. |
| HostProgress.LeftAloneNotLookedAt | internal/controller/host/host_controller.go:2468-2605 | A host deployed in bootstrap scope with nothing left to do is not looked at. |
| HostProgress.FactoryInstallRestarts | internal/controller/host/host_controller.go:2468-2605 | A factory install takes back Reconciled. |
| DataNetwork.DataNetworkReconciler.UpdateRequired | internal/controller/datanetwork_controller.go:50-123 | An update is required exactly when the network is not as configured; the request carries just the differences. |
| DataNetwork.UpdateSettles | internal/controller/datanetwork_controller.go:50-123 | One update or creation makes the network as configured. |
| DataNetwork.VxLANOnly | internal/controller/datanetwork_controller.go:50-123 | VxLAN settings count for networks of that type alone, and there every one that is configured and reported counts. |
| DataNetwork.DataNetworkReconciler.ReconcileResource | internal/controller/datanetwork_controller.go:321-363 | Refines the resource step: lookup, creation or update behind the gate, and the status written afterwards. |
| DataNetwork.DataNetworkReconciler.Reconcile | internal/controller/datanetwork_controller.go:496-580 | A pass takes the stored state to the pass function of it. |
| DataNetwork.StopAfterInSync | internal/controller/datanetwork_controller.go:127-139 | Over every run in bootstrap scope: once reconciled it stays so and no request is sent. |
| DataNetwork.OneFallPerGeneration | internal/controller/datanetwork_controller.go:380-449 | In principal scope Reconciled falls at most once for each observed generation. |
| DataNetwork.NextPassQuiet | internal/controller/datanetwork_controller.go:321-363 | A pass that may act and is served leaves the resource in sync, and the next one sends nothing. |
| DataNetwork.InSyncMeansLinked | internal/controller/datanetwork_controller.go:321-363 | In sync is stored only for a network that is as configured. |
| DataNetwork.LostNetwork | internal/controller/datanetwork_controller.go:321-363 | A lost network that cannot be created again is forgotten with the next change of the status only. |
| DataNetwork.NewGenerationFalls | internal/controller/datanetwork_controller.go:380-449 | In principal scope a new generation takes back Reconciled, unless it is the first one noted of a reconciled resource. |
| Ceph.PrimaryGroup.IsCephPrimaryGroup | internal/controller/host/host_controller.go:2223-2238 | In the group, or joins while there is room. |
| Ceph.PrimaryGroup.Admit | internal/controller/host/host_controller.go:2576-2601 | A concerned host outside the group goes on only when enough storage hosts are available. |
| Ceph.LetThroughIff | internal/controller/host/host_controller.go:2262-2284 | A host goes on exactly when it is no new storage host, is in the group by now, or enough different storage hosts are up. |
| Ceph.GroupFills | internal/controller/host/host_controller.go:2223-2238 | In every run without deletions the group has just hosts that were checked, and as many of them as the replication factor allows. |
| Ceph.PrimaryGroup.Remove | internal/controller/host/host_controller.go:2087-2092 | A deleted host leaves the group, and nobody else does. |
| Ceph.GroupStaysGood | internal/controller/host/host_controller.go:2223-2238 | In every run the group has no duplicates and never exceeds the replication factor. |
| Ceph.MembersStay | internal/controller/host/host_controller.go:2087-2092 | A member leaves by its own deletion only. |
| Ceph.EarlyHostsAreMembers | internal/controller/host/host_controller.go:2262-2284 | While none is deleted, no more hosts than the factor are let through early. |
| Processors.CountCPUByFunction | platform/info.go:862-879 | The thread-0 cores of a node with a function, up to case. |
| Processors.ParseProcessorInfo | api/v1/constructors.go:160-216 | Exact counts for every configurable core, one entry per node and function, the functions of a node sorted by name. |
| Processors.ListedIff | api/v1/constructors.go:179-192 | A function is listed exactly when it has cores, or is the vswitch of a worker's node 0. |
| Processors.NodeCountsAddUp | api/v1/constructors.go:160-216 | Per node the counts and the application cores add up to the thread-0 cores. |
| Processors.GetCPUUpdateOpts | internal/controller/host/processors.go:21-54 | An update exactly when some count differs, with the sockets of each function in profile order. |
| Processors.SocketIff | internal/controller/host/processors.go:21-54 | A socket is sent for exactly the entries of a function whose count is not the configured one. |
| Processors.UpdateMeets | internal/controller/host/processors.go:21-54 | When each function is listed once for a node, the update brings every count to the configured one. |
| Processors.ReadBackNeedsNoUpdate | internal/controller/host/processors.go:21-54 | What was just read back needs no update. |
| Memory.MebibytesExact | api/v1/constructors.go:228-234 | MiB to 4K pages and back is exact for every size. |
| Memory.PlatformRounds | internal/controller/host/memory.go:136-140 | Writing and recounting rounds to whole MiB; exact when 256 divides the count; fewer than 256 pages are lost. |
| Memory.PlatformRequest | internal/controller/host/memory.go:136-140 | The request for platform memory carries the configured pages in MiB, whatever their size. |
| Memory.TotalOfNode | internal/controller/host/memory.go:21-90 | With one report per node the counting loops give that node's count. |
| Memory.SettledAfterUpdateIff | internal/controller/host/memory.go:110-147 | A function is settled after one update exactly when it was before or its target is reachable. |
| Memory.NodeSettledAfterPass | internal/controller/host/memory.go:202-238 | One pass settles every function of a node whose targets are reachable and do not collide. |
| Memory.TwoVSwitchSizesNeverSettle | internal/controller/host/memory.go:126-135 | Two vswitch page sizes on one node never settle. |
| Memory.GetNodeOpts | internal/controller/host/memory.go:208-236 | The requests for one node, its two errors, and what a host without worker subfunction skips. |
| Memory.RequestsAreNodePass | internal/controller/host/memory.go:202-238 | Applying the collected requests is the pass of the lemma above. |
| Memory.WithoutWorker | internal/controller/host/memory.go:208-236 | A host without worker subfunction is asked for exactly what a worker is asked for its platform memory. |
| Memory.ReadBackIff | api/v1/constructors.go:220-305 | What was just read back needs no update exactly under the stated condition on the vswitch. |
| Memory.ReadBackCounterexample | api/v1/constructors.go:261-276 | A worker for which it does. |

## Left out

- The merge library's own walk over structs: the documented rules are used; a set pointer wins even when it points to an empty text, and an empty mandatory text counts as unset.
- ProfileMerge.MergeProfiles: a function on values; only the merge of a slice is modelled in place, not the overwriting of the struct fields around it.
- Merging of label maps: the higher label map replaces the lower one, as documented.
- Host profile fields that are rewritten between merge and comparison (device paths, lower-cased MAC addresses, sorted bond members, copied interface identifiers, volume group defaults) are not rewritten.
- Updates of interface attributes, including renames and bond members, data network and PTP associations in the add phases: only interfaces and platform networks are followed.
- The system removing associations, routes or addresses together with a deleted interface.
- Case folding is that of ASCII letters, and addresses are compared as texts.
- PlatformNetworks.ReconcilePlatformNetworks: success is stated for requests that are all served and profiles that can be built on what is there (`BuildOrder.Buildable`); it assumes that the two ways of matching interfaces agree (`NetworkLookups.OrderlyReady` gives conditions on names, ports and bond members for that), that each network is requested once, and that holders of requested networks give way, which is the exact condition for the stale phase to free them.
- NetworkingPass.ReconcileNetworking: success is stated for requests that are all served and profiles that can be built on what survives (`NetworkingPass.Feasible`). A deployment in order is assumed, and that no interface which stays stands on one to be deleted; that the next pass is quiet is stated for profiles that define what they build on and give no address twice, with loopback the system's own. The steps for data networks and PTP interfaces are not part of it.
- Inventory.SystemApi.CreateInterface: the system refuses a name in use and missing lower interfaces, Inventory.SystemApi.CreateAssociation a network in use; these rules are the system's, not the code's.
- InterfaceIdentity.BelowShrinks: assumes an acyclic uses graph; VF interfaces are assumed to have a lower interface, since the code indexes it unchecked.
- Memory.GetNodeOpts: the loop over nodes around it, and the second listing after an update.
- HostLifecycle: deletion of a host, first provisioning and the platform network step are inputs that end a pass or ask for a lock; a missing personality, which the code dereferences, is not modelled.
- ProfileChain.UpdateHosts: hosts are assumed to have an annotation table, which the code writes unchecked.
- ProfileChain.UnselectedUnchanged: validation of the composite profile.
- The predicates on host states (unlocked and enabled, locked and disabled, available) and the constants of the system API belong to a client library that is not part of this model.
- Deletion of PTP instances and data networks with their resources, and the factory-install status.
- Events, monitors, finalizers, retries on conflicting writes, and the text of deltas.
