/** Section parameters of a PTP instance (internal/controller/ptpinstance_controller.go). */
module PtpParameters {
  import opened Prelude
  import opened Delta

  /** The entries of one section as a set; a missing section has none. */
  function View(m: Sections, k: string): set<string> {
    if k in m then ToSet(m[k]) else {}
  }

  /** The system API for the parameters of one instance. Any request may fail; a failed request changes nothing. */
  class PtpApi {
    const fails: nat -> bool
    /** Whether the system forgets a section when its last entry is removed. */
    const dropsEmpty: bool
    var params: Sections
    var calls: nat

    constructor (params: Sections, dropsEmpty: bool, fails: nat -> bool)
      ensures this.params == params && this.dropsEmpty == dropsEmpty && calls == 0
    {
      this.params, this.dropsEmpty, this.fails, this.calls := params, dropsEmpty, fails, 0;
    }

    method AddParam(section: string, param: string) returns (ok: bool)
      modifies this
      ensures calls == old(calls) + 1
      ensures params == if ok then Added(old(params), section, param) else old(params)
    {
      ok := !fails(calls);
      calls := calls + 1;
      if ok {
        params := Added(params, section, param);
      }
    }

    method RemoveParam(section: string, param: string) returns (ok: bool)
      modifies this
      ensures calls == old(calls) + 1
      ensures params == if ok then Removed(old(params), section, param, dropsEmpty) else old(params)
    {
      ok := !fails(calls);
      calls := calls + 1;
      if ok {
        params := Removed(params, section, param, dropsEmpty);
      }
    }
  }

  function Prior(m: Sections, k: string): seq<string> {
    if k in m then m[k] else []
  }

  function Added(m: Sections, k: string, param: string): Sections {
    m[k := Prior(m, k) + [param]]
  }

  function Removed(m: Sections, k: string, param: string, dropsEmpty: bool): Sections {
    var rest := Without(Prior(m, k), [param]);
    if k !in m then m
    else if rest == [] && dropsEmpty then m - {k}
    else m[k := rest]
  }

  /** Every section of the table has an entry. */
  ghost predicate NoEmptySection(m: Sections) {
    forall k | k in m :: View(m, k) != {}
  }

  lemma AddedView(m: Sections, section: string, param: string)
    ensures var r := Added(m, section, param);
            && (forall k | k != section :: View(r, k) == View(m, k))
            && View(r, section) == View(m, section) + {param}
            && (forall k :: k in r <==> k in m || k == section)
  {
  }

  lemma RemovedView(m: Sections, section: string, param: string, dropsEmpty: bool)
    ensures var r := Removed(m, section, param, dropsEmpty);
            && (forall k | k != section :: View(r, k) == View(m, k))
            && View(r, section) == View(m, section) - {param}
            && (forall k | k != section :: k in r <==> k in m)
            && (section in r <==> section in m && !(dropsEmpty && View(m, section) <= {param}))
  {
    var rest := Without(Prior(m, section), [param]);
    WithoutMembers(Prior(m, section), [param]);
    assert rest == [] <==> ToSet(rest) == {} by {
      if rest != [] { assert rest[0] in ToSet(rest); }
    }
    assert ToSet(rest) == View(m, section) - {param};
  }

  method AddToSection(api: PtpApi, section: string, params: seq<string>) returns (ok: bool)
    modifies api
    ensures forall k | k != section :: View(api.params, k) == View(old(api.params), k)
    ensures forall k | k != section :: k in api.params <==> k in old(api.params)
    ensures View(old(api.params), section) <= View(api.params, section)
    ensures View(api.params, section) <= View(old(api.params), section) + ToSet(params)
    ensures section in api.params ==> section in old(api.params) || View(api.params, section) != {}
    ensures section in old(api.params) ==> section in api.params
    ensures ok ==> View(api.params, section) == View(old(api.params), section) + ToSet(params)
    ensures ok ==> (section in api.params <==> section in old(api.params) || ToSet(params) != {})
  {
    var j := 0;
    while j < |params|
      invariant 0 <= j <= |params|
      invariant forall k | k != section :: View(api.params, k) == View(old(api.params), k)
      invariant forall k | k != section :: k in api.params <==> k in old(api.params)
      invariant View(api.params, section) == View(old(api.params), section) + ToSet(params[..j])
      invariant section in api.params <==> section in old(api.params) || ToSet(params[..j]) != {}
    {
      AddedView(api.params, section, params[j]);
      ok := api.AddParam(section, params[j]);
      if !ok {
        return;
      }
      assert ToSet(params[..j + 1]) == ToSet(params[..j]) + {params[j]};
      j := j + 1;
    }
    assert params[..|params|] == params;
    ok := true;
  }

  /** The section is forgotten when the system drops empty ones and an entry was asked to go. */
  predicate Dropped(drops: bool, asked: set<string>, left: set<string>) {
    drops && asked != {} && left == {}
  }

  method RemoveFromSection(api: PtpApi, section: string, params: seq<string>) returns (ok: bool)
    modifies api
    ensures forall k | k != section :: View(api.params, k) == View(old(api.params), k)
    ensures forall k | k != section :: k in api.params <==> k in old(api.params)
    ensures View(old(api.params), section) - ToSet(params) <= View(api.params, section)
    ensures View(api.params, section) <= View(old(api.params), section)
    ensures section in api.params ==> section in old(api.params)
    ensures api.dropsEmpty && section in api.params && View(api.params, section) == {} ==>
              View(old(api.params), section) == {}
    ensures ok ==> View(api.params, section) == View(old(api.params), section) - ToSet(params)
    ensures ok ==> (section in api.params <==>
                      section in old(api.params) && !Dropped(api.dropsEmpty, ToSet(params), View(api.params, section)))
  {
    var j := 0;
    while j < |params|
      invariant 0 <= j <= |params|
      invariant forall k | k != section :: View(api.params, k) == View(old(api.params), k)
      invariant forall k | k != section :: k in api.params <==> k in old(api.params)
      invariant View(api.params, section) == View(old(api.params), section) - ToSet(params[..j])
      invariant section in api.params <==>
                  section in old(api.params) && !Dropped(api.dropsEmpty, ToSet(params[..j]), View(api.params, section))
    {
      RemovedView(api.params, section, params[j], api.dropsEmpty);
      ok := api.RemoveParam(section, params[j]);
      if !ok {
        return;
      }
      assert ToSet(params[..j + 1]) == ToSet(params[..j]) + {params[j]};
      j := j + 1;
    }
    assert params[..|params|] == params;
    ok := true;
  }

  /** The sections outside `todo` have got their parameters, and no other section changed. */
  ghost predicate AddedOutside(before: Sections, now: Sections, extra: Sections, todo: set<string>) {
    && (forall k | k in todo :: View(now, k) == View(before, k) && (k in now <==> k in before))
    && (forall k | k !in todo :: View(now, k) == View(before, k) + View(extra, k))
    && (forall k | k !in todo :: k in now <==> k in before || View(extra, k) != {})
  }

  lemma SectionAdded(before: Sections, middle: Sections, now: Sections, extra: Sections, todo: set<string>,
                     section: string)
    requires AddedOutside(before, middle, extra, todo) && section in todo
    requires forall k | k != section :: View(now, k) == View(middle, k)
    requires forall k | k != section :: k in now <==> k in middle
    requires View(now, section) == View(middle, section) + View(extra, section)
    requires section in now <==> section in middle || View(extra, section) != {}
    ensures AddedOutside(before, now, extra, todo - {section})
  {
  }

  lemma SectionCutShort(before: Sections, middle: Sections, now: Sections, extra: Sections, todo: set<string>,
                        section: string)
    requires AddedOutside(before, middle, extra, todo) && section in todo
    requires forall k | k != section :: View(now, k) == View(middle, k)
    requires forall k | k != section :: k in now <==> k in middle
    requires View(middle, section) <= View(now, section) <= View(middle, section) + View(extra, section)
    requires section in now ==> section in middle || View(now, section) != {}
    ensures forall k :: View(before, k) <= View(now, k) <= View(before, k) + View(extra, k)
    ensures NoEmptySection(before) ==> NoEmptySection(now)
  {
  }

  /** Adds every listed parameter, section by section. */
  method ReconcileParamAdded(api: PtpApi, sectionParams: Sections) returns (ok: bool)
    modifies api
    ensures ok ==> forall k :: View(api.params, k) == View(old(api.params), k) + View(sectionParams, k)
    ensures forall k ::
              View(old(api.params), k) <= View(api.params, k) <= View(old(api.params), k) + View(sectionParams, k)
    ensures NoEmptySection(old(api.params)) ==> NoEmptySection(api.params)
    ensures ok ==> forall k :: k in api.params <==> k in old(api.params) || View(sectionParams, k) != {}
  {
    ghost var before := api.params;
    var todo := sectionParams.Keys;
    assert AddedOutside(before, api.params, sectionParams, todo);
    while todo != {}
      invariant todo <= sectionParams.Keys
      invariant AddedOutside(before, api.params, sectionParams, todo)
      decreases todo
    {
      var section :| section in todo;
      ghost var middle := api.params;
      ok := AddToSection(api, section, sectionParams[section]);
      if !ok {
        SectionCutShort(before, middle, api.params, sectionParams, todo, section);
        return;
      }
      SectionAdded(before, middle, api.params, sectionParams, todo, section);
      todo := todo - {section};
    }
    ok := true;
  }

  /** The sections outside `todo` have lost their parameters, and no other section changed. */
  ghost predicate RemovedOutside(before: Sections, now: Sections, gone: Sections, todo: set<string>, drops: bool) {
    && (forall k | k in todo :: View(now, k) == View(before, k) && (k in now <==> k in before))
    && (forall k | k !in todo :: View(now, k) == View(before, k) - View(gone, k))
    && (forall k | k !in todo :: k in now <==> k in before && !Dropped(drops, View(gone, k), View(now, k)))
  }

  lemma SectionRemoved(before: Sections, middle: Sections, now: Sections, gone: Sections, todo: set<string>,
                       drops: bool, section: string)
    requires RemovedOutside(before, middle, gone, todo, drops) && section in todo
    requires forall k | k != section :: View(now, k) == View(middle, k)
    requires forall k | k != section :: k in now <==> k in middle
    requires View(now, section) == View(middle, section) - View(gone, section)
    requires section in now <==> section in middle && !Dropped(drops, View(gone, section), View(now, section))
    ensures RemovedOutside(before, now, gone, todo - {section}, drops)
  {
  }

  lemma RemovalCutShort(before: Sections, middle: Sections, now: Sections, gone: Sections, todo: set<string>,
                        drops: bool, section: string)
    requires RemovedOutside(before, middle, gone, todo, drops) && section in todo
    requires forall k | k != section :: View(now, k) == View(middle, k)
    requires forall k | k != section :: k in now <==> k in middle
    requires View(middle, section) - View(gone, section) <= View(now, section) <= View(middle, section)
    requires section in now ==> section in middle
    requires drops && section in now && View(now, section) == {} ==> View(middle, section) == {}
    ensures forall k :: View(before, k) - View(gone, k) <= View(now, k) <= View(before, k)
    ensures drops && NoEmptySection(before) ==> NoEmptySection(now)
  {
    forall k ensures View(before, k) - View(gone, k) <= View(now, k) <= View(before, k) {
      if k != section {
        assert View(now, k) == View(middle, k);
      }
    }
    if drops && NoEmptySection(before) {
      forall k | k in now ensures View(now, k) != {} {
        if k != section {
          assert View(now, k) == View(middle, k) && k in middle;
        }
      }
    }
  }

  /** Removes every listed parameter, section by section. */
  method ReconcileParamRemoved(api: PtpApi, sectionParams: Sections) returns (ok: bool)
    modifies api
    ensures ok ==> forall k :: View(api.params, k) == View(old(api.params), k) - View(sectionParams, k)
    ensures ok ==> forall k :: k in api.params <==>
                                 k in old(api.params)
                                 && !Dropped(api.dropsEmpty, View(sectionParams, k), View(api.params, k))
    ensures forall k ::
              View(old(api.params), k) - View(sectionParams, k) <= View(api.params, k) <= View(old(api.params), k)
    ensures api.dropsEmpty && NoEmptySection(old(api.params)) ==> NoEmptySection(api.params)
  {
    ghost var before := api.params;
    var todo := sectionParams.Keys;
    assert RemovedOutside(before, api.params, sectionParams, todo, api.dropsEmpty);
    while todo != {}
      invariant todo <= sectionParams.Keys
      invariant RemovedOutside(before, api.params, sectionParams, todo, api.dropsEmpty)
      decreases todo
    {
      var section :| section in todo;
      ghost var middle := api.params;
      ok := RemoveFromSection(api, section, sectionParams[section]);
      if !ok {
        RemovalCutShort(before, middle, api.params, sectionParams, todo, api.dropsEmpty, section);
        return;
      }
      SectionRemoved(before, middle, api.params, sectionParams, todo, api.dropsEmpty, section);
      todo := todo - {section};
    }
    ok := true;
  }

  /** The update decision reports nothing exactly when both tables have the same sections with the same entries. */
  predicate InSync(current: Sections, configured: Sections) {
    && current.Keys == configured.Keys
    && forall k | k in configured :: ToSet(current[k]) == ToSet(configured[k])
  }

  lemma DeltaViews(current: Sections, configured: Sections, added: Sections, removed: Sections)
    requires IsDelta(current, configured, added, removed)
    ensures forall k :: View(added, k) == View(configured, k) - View(current, k)
    ensures forall k :: View(removed, k) == View(current, k) - View(configured, k)
  {
    forall k
      ensures View(added, k) == View(configured, k) - View(current, k)
      ensures View(removed, k) == View(current, k) - View(configured, k)
    {
      assert Lookup(added, k) == AddedAt(current, configured, k);
      assert Lookup(removed, k) == RemovedAt(current, configured, k);
      WithoutMembers(Prior(configured, k), Prior(current, k));
      WithoutMembers(Prior(current, k), Prior(configured, k));
    }
  }

  lemma UpdateReportedIffNotInSync(current: Sections, configured: Sections, added: Sections, removed: Sections)
    requires IsDelta(current, configured, added, removed)
    ensures |added| == 0 && |removed| == 0 <==> InSync(current, configured)
  {
    if |added| == 0 && |removed| == 0 {
      assert added == map[] && removed == map[];
      forall k ensures k in current <==> k in configured
        ensures k in configured ==> ToSet(Prior(current, k)) == ToSet(configured[k])
      {
        assert Lookup(added, k) == AddedAt(current, configured, k);
        assert Lookup(removed, k) == RemovedAt(current, configured, k);
        if k in current && k in configured {
          DeltaApplies(current[k], configured[k]);
        }
      }
    }
    if InSync(current, configured) {
      forall k ensures k !in added && k !in removed {
        assert Lookup(added, k) == AddedAt(current, configured, k);
        assert Lookup(removed, k) == RemovedAt(current, configured, k);
        if k in current {
          DeltaApplies(current[k], configured[k]);
        }
      }
      assert added == map[] && removed == map[];
    }
  }

  /** No entry wanted and present before is lost, and nothing is there that was neither wanted nor present before. */
  ghost predicate Between(before: Sections, now: Sections, configured: Sections) {
    forall k :: View(before, k) * View(configured, k) <= View(now, k) <= View(before, k) + View(configured, k)
  }

  ghost predicate SameViews(m: Sections, n: Sections) {
    forall k :: View(m, k) == View(n, k)
  }

  lemma AfterAdding(before: Sections, now: Sections, configured: Sections, added: Sections, removed: Sections)
    requires IsDelta(before, configured, added, removed)
    requires forall k :: View(before, k) <= View(now, k) <= View(before, k) + View(added, k)
    ensures Between(before, now, configured)
  {
    DeltaViews(before, configured, added, removed);
  }

  lemma AfterRemoving(before: Sections, middle: Sections, now: Sections, configured: Sections, added: Sections,
                      removed: Sections)
    requires IsDelta(before, configured, added, removed)
    requires forall k :: View(middle, k) == View(before, k) + View(added, k)
    requires forall k :: View(middle, k) - View(removed, k) <= View(now, k) <= View(middle, k)
    ensures Between(before, now, configured)
    ensures (forall k :: View(now, k) == View(middle, k) - View(removed, k)) ==> SameViews(now, configured)
  {
    DeltaViews(before, configured, added, removed);
    forall k
      ensures View(before, k) * View(configured, k) <= View(now, k) <= View(before, k) + View(configured, k)
    {
      assert View(middle, k) - View(removed, k) <= View(now, k) <= View(middle, k);
    }
  }

  /** The sections there are once both halves of a delta were applied. */
  ghost predicate SectionsAfter(before: Sections, after: Sections, added: Sections, removed: Sections, drops: bool) {
    forall k :: k in after <==>
                  && (k in before || View(added, k) != {})
                  && !Dropped(drops, View(removed, k), View(after, k))
  }

  /** Adds, then removes, the two halves of a delta; either half is skipped when empty. */
  method ApplyDelta(api: PtpApi, configured: Sections, added: Sections, removed: Sections) returns (ok: bool)
    requires IsDelta(api.params, configured, added, removed)
    modifies api
    ensures Between(old(api.params), api.params, configured)
    ensures ok ==> SameViews(api.params, configured)
    ensures ok ==> SectionsAfter(old(api.params), api.params, added, removed, api.dropsEmpty)
    ensures api.dropsEmpty && NoEmptySection(old(api.params)) ==> NoEmptySection(api.params)
  {
    ghost var before := api.params;
    ok := true;
    if |added| > 0 {
      ok := ReconcileParamAdded(api, added);
      if !ok {
        AfterAdding(before, api.params, configured, added, removed);
        return;
      }
    } else {
      assert added == map[];
    }
    ghost var middle := api.params;
    if |removed| > 0 {
      ok := ReconcileParamRemoved(api, removed);
    } else {
      assert removed == map[];
    }
    AfterRemoving(before, middle, api.params, configured, added, removed);
  }

  /** One pass over the parameters: compare, add what is missing, remove what is stale. */
  method ReconcileParameters(api: PtpApi, configured: Sections) returns (required: bool, ok: bool)
    modifies api
    // At every exit, also after a failed request, no wanted entry was lost and no foreign entry appeared.
    ensures Between(old(api.params), api.params, configured)
    ensures ok ==> SameViews(api.params, configured)
    ensures required <==> !InSync(old(api.params), configured)
    ensures !required ==> ok && api.calls == old(api.calls) && api.params == old(api.params)
    // Exactly when the next pass is quiet.
    ensures ok && required ==>
              (InSync(api.params, configured) <==> Settles(old(api.params), configured, api.dropsEmpty))
  {
    ghost var before := api.params;
    var added, removed, _ := MapsDelta(api.params, configured);
    UpdateReportedIffNotInSync(before, configured, added, removed);
    required := |added| > 0 || |removed| > 0;
    ok := true;
    if required {
      ok := ApplyDelta(api, configured, added, removed);
      if ok {
        DeltaViews(before, configured, added, removed);
        QuietIff(before, api.params, configured, added, removed, api.dropsEmpty);
      }
    } else {
      forall k ensures View(before, k) == View(configured, k) {}
    }
  }

  /**
   * An empty section can neither be created nor removed through its entries. So a configured empty section has to be
   * there, empty already where the system drops empty ones; and a section to be forgotten goes only where the system
   * drops empty ones, and there only with its last entry.
   */
  ghost predicate Settles(before: Sections, configured: Sections, drops: bool) {
    && (forall k | k in configured && View(configured, k) == {} :: k in before && (drops ==> View(before, k) == {}))
    && (forall k | k in before && k !in configured :: drops && View(before, k) != {})
  }

  lemma QuietIff(before: Sections, after: Sections, configured: Sections, added: Sections, removed: Sections,
                 drops: bool)
    requires SameViews(after, configured) && SectionsAfter(before, after, added, removed, drops)
    requires forall k :: View(added, k) == View(configured, k) - View(before, k)
    requires forall k :: View(removed, k) == View(before, k) - View(configured, k)
    ensures InSync(after, configured) <==> Settles(before, configured, drops)
  {
    forall k ensures (k in after <==> k in configured) <==> SettledSection(before, configured, drops, k) {
      assert View(after, k) == View(configured, k);
    }
    if Settles(before, configured, drops) {
      forall k ensures k in after <==> k in configured {
        assert SettledSection(before, configured, drops, k);
      }
      forall k | k in configured ensures ToSet(after[k]) == ToSet(configured[k]) {
        assert View(after, k) == View(configured, k);
      }
    }
    if InSync(after, configured) {
      forall k ensures SettledSection(before, configured, drops, k) {
        assert k in after <==> k in configured;
      }
    }
  }

  /** The condition for one section. */
  ghost predicate SettledSection(before: Sections, configured: Sections, drops: bool, k: string) {
    && (k in configured && View(configured, k) == {} ==> k in before && (drops ==> View(before, k) == {}))
    && (k in before && k !in configured ==> drops && View(before, k) != {})
  }

  /** An empty section that is no longer configured stays, and every pass finds the instance out of sync. */
  lemma EmptySectionStays(drops: bool)
    ensures !Settles(map["old" := []], map[], drops) && !InSync(map["old" := []], map[])
  {
    var before: Sections := map["old" := []];
    assert "old" in before && View(before, "old") == {};
  }
}
