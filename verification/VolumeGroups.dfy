/** When merging volume groups depends on how the merges are grouped (internal/controller/host/profile_utils.go). */
module VolumeGroups {
  import opened Prelude
  import opened Records
  import opened ProfileTypes
  import opened KeyedMerge
  import opened ProfileMerge
  import DeepEqual

  /** A function for which the type and the pool size are filled as well. */
  predicate Usable(lvmFunction: Option<string>) {
    lvmFunction.Some? && lvmFunction.value != LVM_FUNCTION_NONE
  }

  /** Filling c from a adds nothing: what a could give is set in c, or does not go with c's function. */
  predicate AddsNothing(c: VolumeGroupInfo, a: VolumeGroupInfo) {
    && (c.lvmFunction.None? ==> a.lvmFunction.None?)
    && (Usable(c.lvmFunction) ==>
          && (c.lvmType.Some? || a.lvmType.None?)
          && (c.lvmPoolSize.Some? || a.lvmPoolSize.None?))
  }

  /** A field of c, b and a that ends the same, although a's value reaches c in one grouping only. */
  predicate FieldUnreached<T>(c: Option<T>, b: Option<T>, a: Option<T>) {
    c.Some? || b.Some? || a.None?
  }

  /** A field of c, b and a that ends the same, although b's value reaches c in one grouping only. */
  predicate FieldSkipped<T(==)>(c: Option<T>, b: Option<T>, a: Option<T>) {
    c.Some? || b.None? || b == a
  }

  /**
   * All three profiles name the group. Grouping matters in two situations: c and b agree on a usable function but b
   * and a do not, so that a's other fields pass b by; and only a has a function, so that b's other fields are lost.
   */
  predicate FillsAssociate(c: VolumeGroupInfo, b: VolumeGroupInfo, a: VolumeGroupInfo) {
    && (Usable(Prefer(b.lvmFunction, c.lvmFunction)) && !Usable(Prefer(a.lvmFunction, b.lvmFunction)) ==>
          && FieldUnreached(c.lvmType, b.lvmType, a.lvmType)
          && FieldUnreached(c.lvmPoolSize, b.lvmPoolSize, a.lvmPoolSize))
    && (c.lvmFunction.None? && b.lvmFunction.None? && Usable(a.lvmFunction) ==>
          && FieldSkipped(c.lvmType, b.lvmType, a.lvmType)
          && FieldSkipped(c.lvmPoolSize, b.lvmPoolSize, a.lvmPoolSize))
  }

  lemma AddsNothingIff(c: VolumeGroupInfo, a: VolumeGroupInfo)
    ensures Fill(c, a) == c <==> AddsNothing(c, a)
  {
  }

  lemma FillsAssociateIff(c: VolumeGroupInfo, b: VolumeGroupInfo, a: VolumeGroupInfo)
    ensures Fill(c, Fill(b, a)) == Fill(Fill(c, b), a) <==> FillsAssociate(c, b, a)
  {
  }

  /** The condition for one group of the last profile. */
  predicate GroupAssociates(c: VolumeGroupInfo, bs: seq<VolumeGroupInfo>, defaults: seq<VolumeGroupInfo>) {
    var j, d := IndexOf(VolumeGroupKey, bs, c.name), IndexOf(VolumeGroupKey, defaults, c.name);
    d < |defaults| ==> if j < |bs| then FillsAssociate(c, bs[j], defaults[d]) else AddsNothing(c, defaults[d])
  }

  lemma FilledIndex(bs: seq<VolumeGroupInfo>, defaults: seq<VolumeGroupInfo>, name: string)
    requires UniqueBy(bs, VolumeGroupKey)
    ensures IndexOf(VolumeGroupKey, FillAll(bs, defaults), name) == IndexOf(VolumeGroupKey, bs, name)
  {
    var filled, j := FillAll(bs, defaults), IndexOf(VolumeGroupKey, bs, name);
    forall i | 0 <= i < |bs| ensures VolumeGroupKey(filled[i]) == VolumeGroupKey(bs[i]) {}
    if j < |bs| {
      IndexIs(VolumeGroupKey, filled, name, j);
    } else {
      IndexNone(VolumeGroupKey, filled, name);
    }
  }

  lemma GroupAssociatesIff(c: VolumeGroupInfo, bs: seq<VolumeGroupInfo>, defaults: seq<VolumeGroupInfo>)
    requires UniqueBy(bs, VolumeGroupKey)
    ensures FillFrom(c, FillAll(bs, defaults)) == FillFrom(FillFrom(c, bs), defaults) <==>
              GroupAssociates(c, bs, defaults)
  {
    FilledIndex(bs, defaults, c.name);
    var j, d := IndexOf(VolumeGroupKey, bs, c.name), IndexOf(VolumeGroupKey, defaults, c.name);
    if d < |defaults| {
      AddsNothingIff(c, defaults[d]);
      if j < |bs| {
        FillsAssociateIff(c, bs[j], defaults[d]);
      }
    }
  }

  /** A nil list of groups changes nothing. */
  lemma NilGroupsKept(a: HostProfileSpec, b: HostProfileSpec)
    requires VolumeGroupsOf(b).Nil?
    ensures VolumeGroupsOf(MergeProfiles(a, b)) == VolumeGroupsOf(a)
  {
  }

  /**
   * The groups come out the same for both groupings exactly when the second or the third list is nil, or every group
   * of the third profile meets the condition on the groups of that name.
   */
  lemma VolumeGroupsAssociateIff(a: HostProfileSpec, b: HostProfileSpec, c: HostProfileSpec)
    requires UniqueBy(VolumeGroupsOf(b).Items(), VolumeGroupKey) && UniqueBy(VolumeGroupsOf(c).Items(), VolumeGroupKey)
    ensures VolumeGroupsOf(MergeProfiles(MergeProfiles(a, b), c)) ==
              VolumeGroupsOf(MergeProfiles(a, MergeProfiles(b, c)))
            <==>
            || VolumeGroupsOf(b).Nil?
            || VolumeGroupsOf(c).Nil?
            || forall x | x in VolumeGroupsOf(c).items ::
                 GroupAssociates(x, VolumeGroupsOf(b).items, VolumeGroupsOf(a).Items())
  {
    var ab, bc := MergeProfiles(a, b), MergeProfiles(b, c);
    if VolumeGroupsOf(c).Nil? {
      NilGroupsKept(ab, c);
      NilGroupsKept(b, c);
      if VolumeGroupsOf(b).Nil? {
        NilGroupsKept(a, b);
        NilGroupsKept(a, bc);
      } else {
        VolumeGroupsOfSecond(a, b);
        VolumeGroupsOfSecond(a, bc);
      }
    } else {
      var cs, bs, defaults := VolumeGroupsOf(c).items, VolumeGroupsOf(b).Items(), VolumeGroupsOf(a).Items();
      VolumeGroupsOfSecond(ab, c);
      VolumeGroupsOfSecond(b, c);
      FilledKeys(cs, bs);
      VolumeGroupsOfSecond(a, bc);
      if VolumeGroupsOf(b).Nil? {
        NilGroupsKept(a, b);
        assert FillAll(cs, []) == cs;
      } else {
        VolumeGroupsOfSecond(a, b);
        FilledGroupsIff(cs, bs, defaults);
      }
    }
  }

  lemma FilledGroupsIff(cs: seq<VolumeGroupInfo>, bs: seq<VolumeGroupInfo>, defaults: seq<VolumeGroupInfo>)
    requires UniqueBy(bs, VolumeGroupKey)
    ensures FillAll(cs, FillAll(bs, defaults)) == FillAll(FillAll(cs, bs), defaults)
            <==> forall x | x in cs :: GroupAssociates(x, bs, defaults)
  {
    var left, right := FillAll(cs, FillAll(bs, defaults)), FillAll(FillAll(cs, bs), defaults);
    forall i | 0 <= i < |cs| ensures left[i] == right[i] <==> GroupAssociates(cs[i], bs, defaults) {
      GroupAssociatesIff(cs[i], bs, defaults);
    }
    if left == right {
      forall x | x in cs ensures GroupAssociates(x, bs, defaults) {
        var i :| 0 <= i < |cs| && cs[i] == x;
        assert left[i] == right[i];
      }
    }
  }

  /** Whole profiles: when no list of the middle one deletes, the groups alone decide whether grouping matters. */
  lemma MergeProfilesAssociativeIff(a: HostProfileSpec, b: HostProfileSpec, c: HostProfileSpec)
    requires Tidy(b) && Tidy(c) && DeletesNothing(WithVolumeGroups(b, Nil))
    ensures MergeProfiles(MergeProfiles(a, b), c) == MergeProfiles(a, MergeProfiles(b, c))
            <==>
            || VolumeGroupsOf(b).Nil?
            || VolumeGroupsOf(c).Nil?
            || forall x | x in VolumeGroupsOf(c).items ::
                 GroupAssociates(x, VolumeGroupsOf(b).items, VolumeGroupsOf(a).Items())
  {
    var left, right := MergeProfiles(MergeProfiles(a, b), c), MergeProfiles(a, MergeProfiles(b, c));
    MergeProfilesAssociative(a, b, c);
    VolumeGroupsAssociateIff(a, b, c);
    assert left == WithVolumeGroups(WithVolumeGroups(left, Nil), VolumeGroupsOf(left));
    assert right == WithVolumeGroups(WithVolumeGroups(right, Nil), VolumeGroupsOf(right));
  }

  // ---- The condition fails ------------------------------------------------------------------------------

  function OneGroup(lvmType: Option<string>, lvmFunction: Option<string>): HostProfileSpec {
    OnlyGroups([VolumeGroupInfo("x", lvmType, lvmFunction, None, Nil)])
  }

  function OnlyGroups(groups: seq<VolumeGroupInfo>): HostProfileSpec {
    DeepEqual.EmptyProfile.(storage := Some(ProfileStorageInfo(None, Nil, Elems(groups), Nil)))
  }

  /** A group that the middle profile does not name is forgotten when the first two profiles are merged first. */
  lemma UnnamedGroupForgotten(lvmFunction: string)
    ensures var a, b, c := OneGroup(None, Some(lvmFunction)), OnlyGroups([]), OneGroup(None, None);
            MergeProfiles(MergeProfiles(a, b), c) == c && MergeProfiles(a, MergeProfiles(b, c)) == a
  {
    var a, b, c := OneGroup(None, Some(lvmFunction)), OnlyGroups([]), OneGroup(None, None);
    assert MergeProfiles(a, b) == b;
    VolumeGroupsOfSecond(b, c);
    assert FillAll(VolumeGroupsOf(c).items, []) == VolumeGroupsOf(c).items;
    assert MergeProfiles(b, c) == c;
    OneGroupMerge(a, c);
  }

  /** All three profiles name the group: the middle type wins or is skipped, since only the first has a function. */
  lemma MiddleTypeSkipped()
    ensures var a, b, c := OneGroup(Some("thin"), Some("lvm")), OneGroup(Some("thick"), None), OneGroup(None, None);
            && MergeProfiles(MergeProfiles(a, b), c) == OneGroup(Some("thick"), Some("lvm"))
            && MergeProfiles(a, MergeProfiles(b, c)) == OneGroup(Some("thin"), Some("lvm"))
  {
    var a, b, c := OneGroup(Some("thin"), Some("lvm")), OneGroup(Some("thick"), None), OneGroup(None, None);
    OneGroupMerge(a, b);
    OneGroupMerge(OneGroup(Some("thick"), Some("lvm")), c);
    OneGroupMerge(b, c);
    OneGroupMerge(a, c);
    assert "lvm"[0] != LVM_FUNCTION_NONE[0];
  }

  lemma OneGroupMerge(a: HostProfileSpec, b: HostProfileSpec)
    requires exists t, f :: a == OneGroup(t, f)
    requires exists t, f :: b == OneGroup(t, f)
    ensures MergeProfiles(a, b) == OnlyGroups([Fill(VolumeGroupsOf(b).items[0], VolumeGroupsOf(a).items[0])])
  {
    var bs, defaults := VolumeGroupsOf(b).items, VolumeGroupsOf(a).items;
    VolumeGroupsOfSecond(a, b);
    assert FillAll(bs, defaults) == [Fill(bs[0], defaults[0])];
  }
}
