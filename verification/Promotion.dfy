/**
 Export and import of configuration content between two deployments
 (scripts/cms_export_import.py).
 */
module Promotion {
  import opened Shared
  import opened Sequences
  import opened CmsTypes
  import opened ConfigStore
  import opened CmsService
  import opened CmsHistory
  import opened Manifest

  /** The command-line filters; empty text is no filter. glob is the file-name matcher. */
  datatype Filter = Filter(kind: string, pattern: string, glob: (string, string) -> bool)

  predicate Matches(f: Filter, kind: string, name: string) {
    (f.kind != "" ==> kind == f.kind) && (f.pattern != "" ==> f.glob(name, f.pattern))
  }

  function Kept(items: seq<Item>, f: Filter): seq<Item> {
    if items == [] then []
    else
      var n := |items| - 1;
      if Matches(f, items[n].kind, items[n].name) then Kept(items[..n], f) + [items[n]] else Kept(items[..n], f)
  }

  // ----- export -----

  /** key has a current record that the filter lets through. */
  predicate Exported(s: Store, f: Filter, key: ConfigKey) {
    CurrentOf(s, key).Some? && Matches(f, KindText(key.kind), key.name)
  }

  /** The items of a manifest are exactly the current records that pass the filter, each once. */
  ghost predicate IsExport(items: seq<Item>, s: Store, f: Filter) {
    && Distinct(items)
    && (forall item :: item in items ==>
                         && KeyOf(item).Some? && Exported(s, f, KeyOf(item).value)
                         && item == Serialize(CurrentOf(s, KeyOf(item).value).value))
    && (forall key :: Exported(s, f, key) ==> Serialize(CurrentOf(s, key).value) in items)
  }

  method CollectAll(cms: Service, f: Filter, now: real) returns (items: seq<Item>)
    requires Valid(cms.store.View())
    modifies cms.cache
    ensures cms.View() == old(cms.View())
    ensures IsExport(items, cms.store.View(), f)
    ensures Sorted(items)
  {
    var keys := cms.store.ListKeys(None);
    var found: seq<Item> := [];
    ghost var s := cms.store.View();
    for i := 0 to |keys|
      invariant cms.View() == old(cms.View())
      invariant Distinct(found)
      invariant forall item :: item in found ==> ItemFrom(item, s, f, keys[..i])
      invariant forall k :: k in keys[..i] && Exported(s, f, k) ==> Serialize(CurrentOf(s, k).value) in found
    {
      HistoryIsNumbered(s, keys[i]);
      assert keys[..i + 1] == keys[..i] + [keys[i]];
      if Matches(f, KindText(keys[i].kind), keys[i].name) {
        var record := cms.GetRecord(keys[i], false, now);
        if record.Some? {
          CoerceRoundTrip(record.value);
          assert keys[i] !in keys[..i];
          assert Serialize(record.value) !in found;
          found := found + [Serialize(record.value)];
        }
      }
    }
    assert keys[..|keys|] == keys;
    items := SortItems(found);
  }

  /** A manifest has a record of a key exactly if the key is current, of the kind asked for, if any,
      and its name matches the pattern given, if any. */
  lemma ExportedExactly(items: seq<Item>, s: Store, f: Filter, key: ConfigKey)
    requires IsExport(items, s, f) && Valid(s)
    ensures (exists item :: item in items && KeyOf(item) == Some(key)) <==>
              && CurrentOf(s, key).Some?
              && (f.kind == "" || KindText(key.kind) == f.kind)
              && (f.pattern == "" || f.glob(key.name, f.pattern))
  {
    HistoryIsNumbered(s, key);
    if Exported(s, f, key) {
      CoerceRoundTrip(CurrentOf(s, key).value);
    }
  }

  /** An import keeps the records that pass, in the order of the manifest. */
  lemma {:induction false} KeptInOrder(before: seq<Item>, item: Item, after: seq<Item>, f: Filter)
    ensures Kept([], f) == []
    ensures var passes := (f.kind == "" || item.kind == f.kind) && (f.pattern == "" || f.glob(item.name, f.pattern));
            Kept(before + [item] + after, f) == Kept(before, f) + (if passes then [item] else []) + Kept(after, f)
  {
    var all := before + [item] + after;
    if after == [] {
      assert all[..|all| - 1] == before;
    } else {
      var n := |after| - 1;
      assert all[..|all| - 1] == before + [item] + after[..n];
      KeptInOrder(before, item, after[..n], f);
    }
  }

  ghost predicate ItemFrom(item: Item, s: Store, f: Filter, keys: seq<ConfigKey>) {
    && KeyOf(item).Some? && KeyOf(item).value in keys && Exported(s, f, KeyOf(item).value)
    && item == Serialize(CurrentOf(s, KeyOf(item).value).value)
  }

  /** The manifest depends on the store's content alone, not on the order of its dictionaries. */
  lemma ExportIsCanonical(s: Store, f: Filter, a: seq<Item>, b: seq<Item>)
    requires IsExport(a, s, f) && IsExport(b, s, f) && Sorted(a) && Sorted(b)
    ensures a == b
  {
    forall x, y | x in a && y in a && ItemBefore(x, y) && ItemBefore(y, x) ensures x == y {
      var kx, ky := KeyOf(x).value, KeyOf(y).value;
      CoerceRoundTrip(CurrentOf(s, kx).value);
      CoerceRoundTrip(CurrentOf(s, ky).value);
      ItemOrderIsStrict(CurrentOf(s, kx).value, CurrentOf(s, ky).value);
    }
    SortedIsCanonical(a, b);
  }

  // ----- import -----

  datatype Change = Added | Changed | Unchanged

  /** How a manifest record with a known key compares to the target. */
  function Classify(s: Store, item: Item): Change
    requires KeyOf(item).Some?
  {
    var current := CurrentOf(s, KeyOf(item).value);
    if current.None? then Added
    else if current.value.value != item.value then Changed
    else Unchanged
  }

  ghost predicate AllKeyed(items: seq<Item>) {
    forall item :: item in items ==> KeyOf(item).Some?
  }

  function Classed(s: Store, items: seq<Item>, change: Change): (r: seq<Item>)
    requires AllKeyed(items)
    ensures forall item :: item in r <==> item in items && Classify(s, item) == change
  {
    if items == [] then []
    else
      var n := |items| - 1;
      assert items == items[..n] + [items[n]];
      var front := Classed(s, items[..n], change);
      if Classify(s, items[n]) == change then front + [items[n]] else front
  }

  /** The records an import writes: the added ones, then the changed ones. */
  function ToApply(s: Store, items: seq<Item>): seq<Item>
    requires AllKeyed(items)
  {
    Classed(s, items, Added) + Classed(s, items, Changed)
  }

  /** The first k are the added ones. */
  ghost predicate AddedUpTo(s: Store, todo: seq<Item>, k: nat)
    requires AllKeyed(todo)
  {
    forall i :: 0 <= i < |todo| ==> (i < k <==> CurrentOf(s, KeyOf(todo[i]).value).None?)
  }

  /** Added records are written before changed ones. */
  lemma AddedFirst(s: Store, items: seq<Item>)
    requires AllKeyed(items)
    ensures AllKeyed(ToApply(s, items)) && exists k :: AddedUpTo(s, ToApply(s, items), k)
  {
    var added, changed, todo := Classed(s, items, Added), Classed(s, items, Changed), ToApply(s, items);
    forall i | 0 <= i < |todo| ensures i < |added| <==> CurrentOf(s, KeyOf(todo[i]).value).None? {
      assert if i < |added| then todo[i] in added else todo[i] in changed;
    }
    assert AddedUpTo(s, todo, |added|);
  }

  /** Each class keeps the order of the manifest. */
  lemma ClassedInOrder(s: Store, before: seq<Item>, item: Item, after: seq<Item>, change: Change)
    requires AllKeyed(before) && AllKeyed([item]) && AllKeyed(after) && AllKeyed(before + [item] + after)
    ensures Classed(s, before + [item] + after, change) ==
            Classed(s, before, change) + Classed(s, [item], change) + Classed(s, after, change)
    ensures Classed(s, [item], change) == if Classify(s, item) == change then [item] else []
  {
    assert [item][..0] == [] && AllKeyed(before + [item]);
    ClassedConcat(s, before, [item], change);
    ClassedConcat(s, before + [item], after, change);
  }

  lemma {:induction false} ClassedConcat(s: Store, a: seq<Item>, b: seq<Item>, change: Change)
    requires AllKeyed(a) && AllKeyed(b) && AllKeyed(a + b)
    ensures Classed(s, a + b, change) == Classed(s, a, change) + Classed(s, b, change)
  {
    if b == [] {
      assert a + b == a;
    } else {
      var n := |b| - 1;
      var last := if Classify(s, b[n]) == change then [b[n]] else [];
      SplitLast(a, b);
      KeyedFront(b);
      KeyedFront(a + b);
      LastClassed(s, b, change);
      LastClassed(s, a + b, change);
      ClassedConcat(s, a, b[..n], change);
      Reassociate(Classed(s, a, change), Classed(s, b[..n], change), last);
    }
  }

  lemma SplitLast(a: seq<Item>, b: seq<Item>)
    requires b != []
    ensures (a + b)[..|a + b| - 1] == a + b[..|b| - 1] && (a + b)[|a + b| - 1] == b[|b| - 1]
  {
  }

  lemma LastClassed(s: Store, items: seq<Item>, change: Change)
    requires items != [] && AllKeyed(items)
    requires var n := |items| - 1; AllKeyed(items[..n]) && KeyOf(items[n]).Some?
    ensures var n := |items| - 1;
            Classed(s, items, change) ==
            Classed(s, items[..n], change) + if Classify(s, items[n]) == change then [items[n]] else []
  {
  }

  lemma KeyedFront(items: seq<Item>)
    requires items != [] && AllKeyed(items)
    ensures var n := |items| - 1; AllKeyed(items[..n]) && KeyOf(items[n]).Some?
  {
    assert items == items[..|items| - 1] + [items[|items| - 1]];
  }

  /** Write records one by one, up to the first that validation rejects. */
  function ApplyAll(c: Cms, items: seq<Item>, valid: Validator): Cms
    requires AllKeyed(items)
    decreases |items|
  {
    if items == [] then c
    else
      var key := KeyOf(items[0]).value;
      if valid(key.kind, items[0].value) then ApplyAll(SaveAndEvict(c, key, items[0].value), items[1..], valid) else c
  }

  ghost predicate AllAccepted(items: seq<Item>, valid: Validator)
    requires AllKeyed(items)
  {
    forall item :: item in items ==> valid(KeyOf(item).value.kind, item.value)
  }

  datatype ImportResult =
    | UnknownText                      // a kind, channel or locale the target does not know
    | Rejected(applied: nat)
    | Imported(applied: nat)

  method ClassifyChanges(cms: Service, items: seq<Item>, now: real)
      returns (known: bool, added: seq<Item>, changed: seq<Item>, same: seq<Item>)
    modifies cms.cache
    ensures cms.View() == old(cms.View())
    ensures known <==> AllKeyed(items)
    ensures known ==>
              && added == Classed(cms.store.View(), items, Added)
              && changed == Classed(cms.store.View(), items, Changed)
              && same == Classed(cms.store.View(), items, Unchanged)
              && forall item :: item in items ==>
                   var current := CurrentOf(cms.store.View(), KeyOf(item).value);
                   && (item in added <==> current.None?)
                   && (item in changed <==> current.Some? && current.value.value != item.value)
                   && (item in same <==> current.Some? && current.value.value == item.value)
  {
    added, changed, same := [], [], [];
    ghost var s := cms.store.View();
    for i := 0 to |items|
      invariant cms.View() == old(cms.View())
      invariant AllKeyed(items[..i])
      invariant added == Classed(s, items[..i], Added)
      invariant changed == Classed(s, items[..i], Changed)
      invariant same == Classed(s, items[..i], Unchanged)
    {
      var key := KeyOf(items[i]);
      if key.None? {
        return false, [], [], [];
      }
      ClassedStep(s, items, i);
      var record := cms.GetRecord(key.value, false, now);
      if record.None? {
        added := added + [items[i]];
      } else if record.value.value != items[i].value {
        changed := changed + [items[i]];
      } else {
        same := same + [items[i]];
      }
    }
    assert items[..|items|] == items;
    known := true;
  }

  lemma ClassedStep(s: Store, items: seq<Item>, i: nat)
    requires i < |items| && AllKeyed(items[..i + 1]) && AllKeyed(items[..i])
    ensures KeyOf(items[i]).Some?
    ensures forall change :: Classed(s, items[..i + 1], change) ==
                             Classed(s, items[..i], change) + if Classify(s, items[i]) == change then [items[i]] else []
  {
    assert items[..i + 1] == items[..i] + [items[i]];
    assert items[..i + 1][..i] == items[..i];
    assert items[..i + 1][i] == items[i];
  }

  method KeepMatching(manifest: seq<Item>, f: Filter) returns (items: seq<Item>)
    ensures items == Kept(manifest, f)
    ensures forall item :: item in items <==> item in manifest && Matches(f, item.kind, item.name)
  {
    items := [];
    for i := 0 to |manifest|
      invariant items == Kept(manifest[..i], f)
      invariant forall item :: item in items <==> item in manifest[..i] && Matches(f, item.kind, item.name)
    {
      assert manifest[..i + 1][..i] == manifest[..i];
      assert manifest[..i + 1] == manifest[..i] + [manifest[i]];
      if Matches(f, manifest[i].kind, manifest[i].name) {
        items := items + [manifest[i]];
      }
    }
    assert manifest[..|manifest|] == manifest;
  }

  method WriteAll(cms: Service, todo: seq<Item>) returns (r: ImportResult)
    requires AllKeyed(todo)
    modifies cms.store, cms.cache
    ensures cms.View() == ApplyAll(old(cms.View()), todo, cms.valid)
    ensures if AllAccepted(todo, cms.valid) then r == Imported(|todo|)
            else r.Rejected? && r.applied < |todo|
                 && !cms.valid(KeyOf(todo[r.applied]).value.kind, todo[r.applied].value)
  {
    for i := 0 to |todo|
      invariant ApplyAll(cms.View(), todo[i..], cms.valid) == ApplyAll(old(cms.View()), todo, cms.valid)
      invariant forall j :: 0 <= j < i ==> cms.valid(KeyOf(todo[j]).value.kind, todo[j].value)
    {
      assert todo[i..][1..] == todo[i + 1..];
      var outcome := cms.UpsertValue(KeyOf(todo[i]).value, todo[i].value);
      if outcome.ValidationFailed? {
        return Rejected(i);
      }
    }
    return Imported(|todo|);
  }

  /** An unknown text stops the import before anything is written; so does a dry run. */
  method Import(cms: Service, manifest: seq<Item>, f: Filter, dryRun: bool, now: real) returns (r: ImportResult)
    modifies cms.store, cms.cache
    ensures r.UnknownText? <==> !AllKeyed(Kept(manifest, f))
    ensures r.UnknownText? || dryRun ==> cms.View() == old(cms.View())
    ensures !r.UnknownText? && !dryRun ==>
              var todo := ToApply(old(cms.store.View()), Kept(manifest, f));
              && cms.View() == ApplyAll(old(cms.View()), todo, cms.valid)
              && (r == Imported(|todo|) <==> AllAccepted(todo, cms.valid))
  {
    var items := KeepMatching(manifest, f);
    var known, added, changed, same := ClassifyChanges(cms, items, now);
    if !known {
      return UnknownText;
    }
    if dryRun {
      return Imported(0);
    }
    r := WriteAll(cms, added + changed);
  }

  // ----- the round trip -----

  ghost predicate DistinctKeys(items: seq<Item>) {
    forall i, j :: 0 <= i < j < |items| ==> KeyOf(items[i]) != KeyOf(items[j])
  }

  ghost predicate Names(items: seq<Item>, key: ConfigKey) {
    exists item :: item in items && KeyOf(item) == Some(key)
  }

  /** Keys that no written record names keep their current value and their history. */
  lemma {:induction false} ApplyLeavesOthers(c: Cms, items: seq<Item>, valid: Validator, key: ConfigKey)
    requires AllKeyed(items) && !Names(items, key)
    ensures var c' := ApplyAll(c, items, valid);
            HistoryOf(c'.store, key) == HistoryOf(c.store, key) && CurrentOf(c'.store, key) == CurrentOf(c.store, key)
    decreases |items|
  {
    if items != [] && valid(KeyOf(items[0]).value.kind, items[0].value) {
      SaveTouchesOneKey(c.store, KeyOf(items[0]).value, items[0].value, key);
      ApplyLeavesOthers(SaveAndEvict(c, KeyOf(items[0]).value, items[0].value), items[1..], valid, key);
    }
  }

  /** A written record becomes one new version, which is current. */
  lemma {:induction false} ApplyWritesOnce(c: Cms, items: seq<Item>, valid: Validator, item: Item)
    requires AllKeyed(items) && DistinctKeys(items) && AllAccepted(items, valid) && item in items
    ensures var key := KeyOf(item).value;
            var c' := ApplyAll(c, items, valid);
            && HistoryOf(c'.store, key) == HistoryOf(c.store, key) + [Saved(c.store, key, item.value)]
            && CurrentOf(c'.store, key) == Some(Saved(c.store, key, item.value))
    decreases |items|
  {
    var first := KeyOf(items[0]).value;
    var next := SaveAndEvict(c, first, items[0].value);
    assert items == [items[0]] + items[1..];
    SaveTouchesOneKey(c.store, first, items[0].value, KeyOf(item).value);
    if item == items[0] {
      ApplyLeavesOthers(next, items[1..], valid, first);
    } else {
      ApplyWritesOnce(next, items[1..], valid, item);
    }
  }

  lemma {:induction false} ApplyKeepsAgreement(c: Cms, items: seq<Item>, valid: Validator)
    requires AllKeyed(items) && Agrees(c) && Valid(c.store)
    ensures Agrees(ApplyAll(c, items, valid)) && Valid(ApplyAll(c, items, valid).store)
    decreases |items|
  {
    if items != [] && valid(KeyOf(items[0]).value.kind, items[0].value) {
      SaveKeepsValid(c.store, KeyOf(items[0]).value, items[0].value);
      ApplyKeepsAgreement(SaveAndEvict(c, KeyOf(items[0]).value, items[0].value), items[1..], valid);
    }
  }

  // The whole promotion: a manifest exported from one deployment, imported into another.

  lemma {:induction false} KeptMembers(items: seq<Item>, f: Filter)
    ensures forall item :: item in Kept(items, f) <==> item in items && Matches(f, item.kind, item.name)
    ensures Distinct(items) ==> Distinct(Kept(items, f))
  {
    if items != [] {
      KeptMembers(items[..|items| - 1], f);
      assert items == items[..|items| - 1] + [items[|items| - 1]];
    }
  }

  lemma {:induction false} ClassedDistinct(s: Store, items: seq<Item>, change: Change)
    requires AllKeyed(items) && Distinct(items)
    ensures Distinct(Classed(s, items, change))
  {
    if items != [] {
      ClassedDistinct(s, items[..|items| - 1], change);
    }
  }

  lemma ToApplyMembers(s: Store, items: seq<Item>)
    requires AllKeyed(items) && Distinct(items)
    ensures Distinct(ToApply(s, items))
    ensures forall item :: item in ToApply(s, items) <==> item in items && !Classify(s, item).Unchanged?
  {
    ClassedDistinct(s, items, Added);
    ClassedDistinct(s, items, Changed);
    DisjointConcat(Classed(s, items, Added), Classed(s, items, Changed));
  }

  /** The setting of a promotion. */
  ghost predicate Promotes(source: Store, out: Filter, manifest: seq<Item>, target: Cms, f: Filter, valid: Validator) {
    && Valid(source) && Valid(target.store) && Agrees(target)
    && IsExport(manifest, source, out)
    && forall key :: CurrentOf(source, key).Some? ==> valid(key.kind, CurrentOf(source, key).value.value)
  }

  /** What the import of a manifest leaves behind. */
  function Promoted(manifest: seq<Item>, target: Cms, f: Filter, valid: Validator): Cms
    requires AllKeyed(Kept(manifest, f))
  {
    ApplyAll(target, ToApply(target.store, Kept(manifest, f)), valid)
  }

  lemma PromotionParts(source: Store, out: Filter, manifest: seq<Item>, target: Cms, f: Filter, valid: Validator)
    requires Promotes(source, out, manifest, target, f, valid)
    ensures AllKeyed(Kept(manifest, f))
    ensures var todo := ToApply(target.store, Kept(manifest, f));
            && AllKeyed(todo) && DistinctKeys(todo) && AllAccepted(todo, valid)
            && forall item :: item in todo <==> item in Kept(manifest, f) && !Classify(target.store, item).Unchanged?
  {
    var items := Kept(manifest, f);
    KeptMembers(manifest, f);
    ToApplyMembers(target.store, items);
  }

  /** Validation never rejects a promoted record. */
  lemma PromotionIsAccepted(source: Store, out: Filter, manifest: seq<Item>, target: Cms, f: Filter, valid: Validator)
    requires Promotes(source, out, manifest, target, f, valid)
    ensures AllKeyed(Kept(manifest, f)) && AllAccepted(ToApply(target.store, Kept(manifest, f)), valid)
  {
    PromotionParts(source, out, manifest, target, f, valid);
  }

  /** The manifest's record of an exported key. */
  lemma ItemOfKey(source: Store, out: Filter, manifest: seq<Item>, f: Filter, key: ConfigKey)
    requires Valid(source) && IsExport(manifest, source, out)
    ensures Exported(source, out, key) && Exported(source, f, key) ==>
              var item := Serialize(CurrentOf(source, key).value);
              item in Kept(manifest, f) && KeyOf(item) == Some(key)
    ensures !(Exported(source, out, key) && Exported(source, f, key)) ==> !Names(Kept(manifest, f), key)
  {
    KeptMembers(manifest, f);
    HistoryIsNumbered(source, key);
    if Exported(source, out, key) {
      CoerceRoundTrip(CurrentOf(source, key).value);
    }
    forall item | item in Kept(manifest, f) && KeyOf(item) == Some(key)
      ensures Exported(source, out, key) && Exported(source, f, key)
    {
      CoerceRoundTrip(CurrentOf(source, key).value);
    }
  }

  /** The setting is met by any two deployments that share their validators. */
  lemma RunsPromote(sourceOps: seq<Op>, targetOps: seq<Op>, valid: Validator, sourceTtl: real, targetTtl: real,
                    out: Filter, manifest: seq<Item>, f: Filter)
    requires IsExport(manifest, Run(sourceOps, valid, sourceTtl).store, out)
    ensures Promotes(Run(sourceOps, valid, sourceTtl).store, out, manifest, Run(targetOps, valid, targetTtl), f, valid)
  {
    RunRefines(sourceOps, valid, sourceTtl);
    RunRefines(targetOps, valid, targetTtl);
    var s, k := Run(sourceOps, valid, sourceTtl).store, RefRun(sourceOps, valid);
    forall key | CurrentOf(s, key).Some? ensures valid(key.kind, CurrentOf(s, key).value.value) {
      assert SameAt(s, k, key);
      StoredValuesAreValid(sourceOps, valid, key);
    }
  }

  /**
   Every key that passes both filters reads back with the source's value, cached or not, at
   the cost of one new version if the value differs and none if it does not.
   */
  lemma PromotionCopies(source: Store, out: Filter, manifest: seq<Item>, target: Cms, f: Filter, valid: Validator,
                        key: ConfigKey, useCache: bool, now: real)
    requires Promotes(source, out, manifest, target, f, valid)
    requires Exported(source, out, key) && Exported(source, f, key)
    ensures AllKeyed(Kept(manifest, f))
    ensures var after := Promoted(manifest, target, f, valid);
            var value := CurrentOf(source, key).value.value;
            var before := CurrentOf(target.store, key);
            && Answer(after, key, useCache, now).Some? && Answer(after, key, useCache, now).value.value == value
            && HistoryOf(after.store, key) ==
               HistoryOf(target.store, key) +
               if before.Some? && before.value.value == value then [] else [Saved(target.store, key, value)]
  {
    PromotionParts(source, out, manifest, target, f, valid);
    ItemOfKey(source, out, manifest, f, key);
    OnlyItemOfKey(source, out, manifest, f, key);
    ImportCopies(target, Kept(manifest, f), valid, Serialize(CurrentOf(source, key).value));
    ApplyKeepsAgreement(target, ToApply(target.store, Kept(manifest, f)), valid);
    CachedAnswerIsCurrent(Promoted(manifest, target, f, valid), key, useCache, now);
  }

  /** One record of an import, when no other record has its key. */
  lemma ImportCopies(target: Cms, items: seq<Item>, valid: Validator, item: Item)
    requires AllKeyed(items) && item in items
    requires var todo := ToApply(target.store, items);
             && DistinctKeys(todo) && AllAccepted(todo, valid)
             && forall x :: x in todo <==> x in items && !Classify(target.store, x).Unchanged?
    requires forall x :: x in items && KeyOf(x) == KeyOf(item) ==> x == item
    ensures var s, s' := target.store, ApplyAll(target, ToApply(target.store, items), valid).store;
            var key := KeyOf(item).value;
            && CurrentOf(s', key).Some? && CurrentOf(s', key).value.value == item.value
            && HistoryOf(s', key) ==
               HistoryOf(s, key) + if Classify(s, item).Unchanged? then [] else [Saved(s, key, item.value)]
  {
    var todo := ToApply(target.store, items);
    if Classify(target.store, item).Unchanged? {
      ApplyLeavesOthers(target, todo, valid, KeyOf(item).value);
    } else {
      ApplyWritesOnce(target, todo, valid, item);
    }
  }

  lemma OnlyItemOfKey(source: Store, out: Filter, manifest: seq<Item>, f: Filter, key: ConfigKey)
    requires IsExport(manifest, source, out) && CurrentOf(source, key).Some?
    ensures forall item :: item in Kept(manifest, f) && KeyOf(item) == Some(key) ==>
                             item == Serialize(CurrentOf(source, key).value)
  {
    KeptMembers(manifest, f);
  }

  /** Every other key of the target keeps its current record and its history. */
  lemma PromotionLeavesRest(source: Store, out: Filter, manifest: seq<Item>, target: Cms, f: Filter, valid: Validator,
                            key: ConfigKey, useCache: bool, now: real)
    requires Promotes(source, out, manifest, target, f, valid)
    requires !(Exported(source, out, key) && Exported(source, f, key))
    ensures AllKeyed(Kept(manifest, f))
    ensures var after := Promoted(manifest, target, f, valid);
            && Answer(after, key, useCache, now) == Answer(target, key, useCache, now)
            && HistoryOf(after.store, key) == HistoryOf(target.store, key)
  {
    PromotionParts(source, out, manifest, target, f, valid);
    ItemOfKey(source, out, manifest, f, key);
    var todo := ToApply(target.store, Kept(manifest, f));
    assert !Names(todo, key);
    ApplyLeavesOthers(target, todo, valid, key);
    ApplyKeepsAgreement(target, todo, valid);
    CachedAnswerIsCurrent(target, key, useCache, now);
    CachedAnswerIsCurrent(Promoted(manifest, target, f, valid), key, useCache, now);
  }

  /** Importing the same manifest again finds nothing to write. */
  lemma SecondImportWritesNothing(source: Store, out: Filter, manifest: seq<Item>, target: Cms, f: Filter,
                                  valid: Validator)
    requires Promotes(source, out, manifest, target, f, valid)
    ensures AllKeyed(Kept(manifest, f))
    ensures var after := Promoted(manifest, target, f, valid);
            ToApply(after.store, Kept(manifest, f)) == [] && Promoted(manifest, after, f, valid) == after
  {
    PromotionParts(source, out, manifest, target, f, valid);
    var after := Promoted(manifest, target, f, valid);
    KeptMembers(manifest, f);
    forall item | item in Kept(manifest, f) ensures Classify(after.store, item).Unchanged? {
      var key := KeyOf(item).value;
      HistoryIsNumbered(source, key);
      ApplyKeepsAgreement(target, ToApply(target.store, Kept(manifest, f)), valid);
      PromotionCopies(source, out, manifest, target, f, valid, key, false, 0.0);
    }
    NothingToApply(after.store, Kept(manifest, f));
  }

  lemma NothingToApply(s: Store, items: seq<Item>)
    requires AllKeyed(items) && forall item :: item in items ==> Classify(s, item).Unchanged?
    ensures ToApply(s, items) == []
  {
    HasFirst(ToApply(s, items));
  }
}
