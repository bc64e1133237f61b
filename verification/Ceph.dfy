/** Holding storage hosts back until the primary group is up (internal/controller/host/host_controller.go). */
module Ceph {
  import opened Prelude
  import opened Delta
  import opened HostLifecycle

  const PERSONALITY_STORAGE := "storage"

  // ---- One check or deletion, as functions ------------------------------------------------------------------

  /** A host joins while there is room, up to the replication factor. */
  predicate Joins(group: seq<string>, uid: string, rep: int) {
    uid != "" && uid !in group && |group| < rep
  }

  predicate InPrimaryGroup(group: seq<string>, uid: string, rep: int) {
    uid != "" && (uid in group || |group| < rep)
  }

  function GroupAfter(group: seq<string>, uid: string, rep: int): seq<string> {
    if Joins(group, uid, rep) then group + [uid] else group
  }

  /** The storage hosts of a snapshot that are unlocked and available. */
  function ReadyStorage(hosts: seq<HostState>): nat {
    if hosts == [] then 0
    else
      var n := |hosts| - 1;
      ReadyStorage(hosts[..n]) + if hosts[n].personality == PERSONALITY_STORAGE && UnlockedAvailable(hosts[n]) then 1
      else 0
  }

  /** A host to be checked, and what the check reads. The snapshot is the one of the last pass that listed the hosts. */
  datatype Check = Check(uid: string, personality: string, reconciled: bool, snapshot: seq<HostState>)

  /** Only storage hosts on their first configuration are held back. */
  predicate Concerned(c: Check) {
    c.personality == PERSONALITY_STORAGE && !c.reconciled
  }

  class PrimaryGroup {
    var group: seq<string>

    constructor ()
      ensures group == []
    {
      group := [];
    }

    method IsCephPrimaryGroup(uid: string, rep: int) returns (pg: bool)
      modifies this
      ensures pg <==> InPrimaryGroup(old(group), uid, rep)
      ensures group == GroupAfter(old(group), uid, rep)
      ensures pg <==> uid != "" && uid in group
    {
      if |uid| > 0 {
        var k := 0;
        while k < |group|
          invariant 0 <= k <= |group| && group == old(group)
          invariant uid !in group[..k]
        {
          if group[k] == uid {
            return true;
          }
          k := k + 1;
        }
        if |group| < rep {
          group := group + [uid];
          return true;
        }
      }
      pg := false;
    }

    method IsCephDelayTargetGroup(c: Check, rep: int) returns (target: bool)
      modifies this
      ensures target <==> Concerned(c) && !InPrimaryGroup(old(group), c.uid, rep)
      ensures group == if Concerned(c) then GroupAfter(old(group), c.uid, rep) else old(group)
    {
      if c.personality != PERSONALITY_STORAGE {
        return false;
      }
      if c.reconciled {
        return false;
      }
      var pg := IsCephPrimaryGroup(c.uid, rep);
      target := !pg;
    }

    method GetCephPrimaryGroupReady(hosts: seq<HostState>, rep: int) returns (ready: bool)
      ensures ready <==> ReadyStorage(hosts) >= rep
    {
      var num := 0;
      for k := 0 to |hosts|
        invariant num == ReadyStorage(hosts[..k])
      {
        assert hosts[..k + 1][..k] == hosts[..k];
        if hosts[k].personality == PERSONALITY_STORAGE && UnlockedAvailable(hosts[k]) {
          num := num + 1;
        }
      }
      assert hosts[..|hosts|] == hosts;
      ready := num >= rep;
    }

    /** Whether the pass goes on to reconcile the host. */
    method Admit(c: Check, rep: int) returns (proceed: bool)
      modifies this
      ensures proceed <==> Admitted(old(group), c, rep)
      ensures group == Next(old(group), Checked(c), rep)
      ensures proceed && Concerned(c) && c.uid !in group ==> ReadyStorage(c.snapshot) >= rep
    {
      var target := IsCephDelayTargetGroup(c, rep);
      proceed := true;
      if target {
        proceed := GetCephPrimaryGroupReady(c.snapshot, rep);
      }
    }

    method Remove(uid: string)
      modifies this
      ensures group == Next(old(group), Deleted(uid), 0)
    {
      if uid in group {
        group := Without(group, [uid]);
      } else {
        WithoutNothing(group, uid);
      }
    }
  }

  lemma {:induction false} WithoutNothing(s: seq<string>, uid: string)
    requires uid !in s
    ensures Without(s, [uid]) == s
  {
    if s != [] {
      var n := |s| - 1;
      assert s == s[..n] + [s[n]];
      WithoutNothing(s[..n], uid);
    }
  }

  predicate Admitted(group: seq<string>, c: Check, rep: int) {
    Concerned(c) && !InPrimaryGroup(group, c.uid, rep) ==> ReadyStorage(c.snapshot) >= rep
  }

  // ---- Runs -------------------------------------------------------------------------------------------------

  datatype Event = Checked(check: Check) | Deleted(uid: string)

  function Next(group: seq<string>, e: Event, rep: int): seq<string> {
    match e
    case Checked(c) => if Concerned(c) then GroupAfter(group, c.uid, rep) else group
    case Deleted(uid) => Without(group, [uid])
  }

  ghost predicate Run(groups: seq<seq<string>>, events: seq<Event>, rep: int) {
    && |groups| == |events| + 1 && groups[0] == []
    && forall k | 0 <= k < |events| :: groups[k + 1] == Next(groups[k], events[k], rep)
  }

  /** Sizes never exceed the factor; a negative factor admits nobody. */
  ghost predicate GoodGroup(group: seq<string>, rep: int) {
    NoDuplicates(group) && "" !in group && (|group| <= rep || group == [])
  }

  lemma {:induction false} WithoutShrinks(s: seq<string>, t: seq<string>)
    ensures |Without(s, t)| <= |s|
  {
    if s != [] {
      WithoutShrinks(s[..|s| - 1], t);
    }
  }

  lemma StepGood(group: seq<string>, e: Event, rep: int)
    requires GoodGroup(group, rep)
    ensures GoodGroup(Next(group, e, rep), rep)
  {
    if e.Deleted? {
      WithoutNoDuplicates(group, [e.uid]);
      WithoutMembers(group, [e.uid]);
      WithoutShrinks(group, [e.uid]);
    }
  }

  lemma StepKeeps(group: seq<string>, e: Event, rep: int, uid: string)
    requires uid in group && e != Deleted(uid)
    ensures uid in Next(group, e, rep)
  {
    if e.Deleted? {
      WithoutMembers(group, [e.uid]);
    }
  }

  /** In every run the group has no duplicates and is no larger than the replication factor. */
  lemma {:induction false} GroupStaysGood(groups: seq<seq<string>>, events: seq<Event>, rep: int, n: nat)
    requires Run(groups, events, rep) && n < |groups|
    ensures GoodGroup(groups[n], rep)
  {
    if n > 0 {
      GroupStaysGood(groups, events, rep, n - 1);
      assert groups[n - 1 + 1] == Next(groups[n - 1], events[n - 1], rep);
      StepGood(groups[n - 1], events[n - 1], rep);
    }
  }

  /** A member leaves by its own deletion only. */
  lemma {:induction false} MembersStay(groups: seq<seq<string>>, events: seq<Event>, rep: int, m: nat, n: nat,
                                       uid: string)
    requires Run(groups, events, rep) && m <= n < |groups| && uid in groups[m]
    requires forall k | m <= k < n :: events[k] != Deleted(uid)
    ensures uid in groups[n]
    decreases n
  {
    if m < n {
      MembersStay(groups, events, rep, m, n - 1, uid);
      assert groups[n - 1 + 1] == Next(groups[n - 1], events[n - 1], rep);
      StepKeeps(groups[n - 1], events[n - 1], rep, uid);
    }
  }

  /** This check lets a storage host through although too few storage hosts are available. */
  predicate LetThroughEarly(group: seq<string>, e: Event, rep: int) {
    e.Checked? && Concerned(e.check) && Admitted(group, e.check, rep) && ReadyStorage(e.check.snapshot) < rep
  }

  /**
   * While no host is deleted, the hosts that are let through before enough storage hosts are available are
   * members of the group from then on: there are never more of them than the replication factor.
   */
  lemma EarlyHostsAreMembers(groups: seq<seq<string>>, events: seq<Event>, rep: int, n: nat, early: set<string>)
    requires Run(groups, events, rep) && n < |groups|
    requires forall k | 0 <= k < n :: events[k].Checked?
    requires forall u | u in early :: exists k | 0 <= k < n ::
               LetThroughEarly(groups[k], events[k], rep) && events[k].check.uid == u
    ensures forall u | u in early :: u in groups[n]
    ensures early != {} ==> |early| <= rep
  {
    forall u | u in early ensures u in groups[n] {
      var k :| 0 <= k < n && LetThroughEarly(groups[k], events[k], rep) && events[k].check.uid == u;
      assert groups[k + 1] == Next(groups[k], events[k], rep);
      MembersStay(groups, events, rep, k + 1, n, u);
    }
    GroupStaysGood(groups, events, rep, n);
    assert early <= ToSet(groups[n]);
    SubsetCardinality(early, ToSet(groups[n]));
    CardinalityOfToSet(groups[n]);
  }

  /** The storage hosts checked so far on their first configuration. */
  function CheckedHosts(events: seq<Event>): set<string> {
    set k | 0 <= k < |events| && events[k].Checked? && Concerned(events[k].check) && events[k].check.uid != "" ::
      events[k].check.uid
  }

  function Smaller(a: nat, b: int): nat {
    if b < 0 then 0 else if a < b then a else b
  }

  /** While no host is deleted, the group has every host that was checked, as long as there is room. */
  lemma {:induction false} GroupFills(groups: seq<seq<string>>, events: seq<Event>, rep: int, n: nat)
    requires Run(groups, events, rep) && n < |groups|
    requires forall k | 0 <= k < n :: events[k].Checked?
    ensures ToSet(groups[n]) <= CheckedHosts(events[..n])
    ensures |groups[n]| == Smaller(|CheckedHosts(events[..n])|, rep)
  {
    if n == 0 {
      assert CheckedHosts(events[..0]) == {};
    } else {
      GroupFills(groups, events, rep, n - 1);
      assert groups[n - 1 + 1] == Next(groups[n - 1], events[n - 1], rep);
      GroupStaysGood(groups, events, rep, n - 1);
      CheckedNext(events, n);
      JoinSize(groups[n - 1], CheckedHosts(events[..n - 1]), events[n - 1].check, rep);
    }
  }

  lemma CheckedNext(events: seq<Event>, n: nat)
    requires 0 < n <= |events| && events[n - 1].Checked?
    ensures var c := events[n - 1].check;
            CheckedHosts(events[..n]) ==
              CheckedHosts(events[..n - 1]) + if Concerned(c) && c.uid != "" then {c.uid} else {}
  {
    var front, all := events[..n - 1], events[..n];
    forall u ensures u in CheckedHosts(all) <==>
                     u in CheckedHosts(front) || (Concerned(events[n - 1].check) && events[n - 1].check.uid == u != "")
    {
      if u in CheckedHosts(front) {
        var k :| 0 <= k < n - 1 && front[k].Checked? && Concerned(front[k].check) && front[k].check.uid == u != "";
        assert all[k] == front[k];
      }
      if u in CheckedHosts(all) {
        var k :| 0 <= k < n && all[k].Checked? && Concerned(all[k].check) && all[k].check.uid == u != "";
        assert k < n - 1 ==> front[k] == all[k];
      }
      assert all[n - 1] == events[n - 1];
    }
  }

  lemma JoinSize(group: seq<string>, hosts: set<string>, c: Check, rep: int)
    requires NoDuplicates(group) && ToSet(group) <= hosts && |group| == Smaller(|hosts|, rep)
    ensures var now := Next(group, Checked(c), rep);
            var all := hosts + if Concerned(c) && c.uid != "" then {c.uid} else {};
            ToSet(now) <= all && |now| == Smaller(|all|, rep)
  {
    CardinalityOfToSet(group);
    if Concerned(c) && c.uid != "" && c.uid !in group && |group| < rep {
      SubsetOfSameSize(ToSet(group), hosts);
      assert c.uid !in ToSet(group);
    }
  }

  /** A host goes on when it is no new storage host, when it is in the group by now, or when enough of them are up. */
  lemma LetThroughIff(group: seq<string>, c: Check, rep: int)
    ensures Admitted(group, c, rep) <==>
            || c.personality != "storage" || c.reconciled
            || (c.uid != "" && c.uid in Next(group, Checked(c), rep))
            || |ReadyHosts(c.snapshot)| >= rep
  {
    ReadyStorageCounts(c.snapshot);
  }

  /** The storage hosts of a snapshot that are up. */
  function ReadyHosts(hosts: seq<HostState>): set<int> {
    set k | 0 <= k < |hosts| && hosts[k].personality == "storage" && UnlockedAvailable(hosts[k])
  }

  lemma ReadyNext(hosts: seq<HostState>)
    requires hosts != []
    ensures var n := |hosts| - 1;
            var up := hosts[n].personality == "storage" && UnlockedAvailable(hosts[n]);
            |ReadyHosts(hosts)| == |ReadyHosts(hosts[..n])| + if up then 1 else 0
  {
    var n := |hosts| - 1;
    var front := hosts[..n];
    forall k ensures k in ReadyHosts(front) <==> k in ReadyHosts(hosts) && k < n {
      if 0 <= k < n {
        assert front[k] == hosts[k];
      }
    }
    var up := hosts[n].personality == "storage" && UnlockedAvailable(hosts[n]);
    assert ReadyHosts(hosts) == ReadyHosts(front) + if up then {n} else {};
  }

  lemma {:induction false} ReadyStorageCounts(hosts: seq<HostState>)
    ensures ReadyStorage(hosts) == |ReadyHosts(hosts)|
  {
    if hosts == [] {
      assert ReadyHosts(hosts) == {};
    } else {
      ReadyStorageCounts(hosts[..|hosts| - 1]);
      ReadyNext(hosts);
    }
  }
}
