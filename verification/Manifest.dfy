/**
 The portable form of a configuration record and the order of records in a manifest
 (scripts/cms_export_import.py, _serialize_record, the coercers and the sort in _collect_all).
 */
module Manifest {
  import opened Shared
  import opened Sequences
  import opened CmsTypes

  /** One manifest record; versions and audit fields are not carried over. */
  datatype Item = Item(kind: string, name: string, channel: Option<string>, locale: Option<string>, value: Value)

  function Serialize(record: ConfigRecord): Item {
    var k := record.key;
    Item(KindText(k.kind), k.name,
         if k.channel.Some? then Some(ChannelText(k.channel)) else None,
         if k.locale.Some? then Some(LocaleText(k.locale)) else None,
         record.value)
  }

  function CoerceKind(text: string): Option<ConfigKind> {
    if text == "template" then Some(Template)
    else if text == "workflow" then Some(Workflow)
    else if text == "checklist" then Some(Checklist)
    else if text == "nudge" then Some(Nudge)
    else if text == "setting" then Some(Setting)
    else None
  }

  /** None is an unknown channel; absent and empty text both mean any channel. */
  function CoerceChannel(text: Option<string>): Option<Option<Channel>> {
    if text.None? || text.value == "" then Some(None)
    else if text.value == "whatsapp" then Some(Some(WhatsApp))
    else if text.value == "email" then Some(Some(Email))
    else None
  }

  function CoerceLocale(text: Option<string>): Option<Option<Locale>> {
    if text.None? || text.value == "" then Some(None)
    else if text.value == "en" then Some(Some(En))
    else if text.value == "ar" then Some(Some(Ar))
    else None
  }

  function KeyOf(item: Item): Option<ConfigKey> {
    var kind, channel, locale := CoerceKind(item.kind), CoerceChannel(item.channel), CoerceLocale(item.locale);
    if kind.None? || channel.None? || locale.None? then None
    else Some(ConfigKey(kind.value, item.name, channel.value, locale.value))
  }

  /** A serialized record leads back to its own key. */
  lemma CoerceRoundTrip(record: ConfigRecord)
    ensures KeyOf(Serialize(record)) == Some(record.key)
  {
    match record.key.kind
    case Template =>
    case Workflow =>
    case Checklist =>
    case Nudge =>
    case Setting =>
  }

  function OrEmpty(text: Option<string>): string {
    if text.Some? then text.value else ""
  }

  lemma KnownKind(text: string)
    ensures CoerceKind(text).Some? <==>
              text == "template" || text == "workflow" || text == "checklist" || text == "nudge" || text == "setting"
    ensures CoerceKind(text).Some? ==> KindText(CoerceKind(text).value) == text
  {
  }

  lemma KnownChannel(text: Option<string>)
    ensures CoerceChannel(text).Some? <==>
              OrEmpty(text) == "" || OrEmpty(text) == "whatsapp" || OrEmpty(text) == "email"
    ensures CoerceChannel(text).Some? ==>
              var channel := CoerceChannel(text).value;
              if channel.None? then OrEmpty(text) == "" else ChannelText(channel) == OrEmpty(text)
  {
  }

  lemma KnownLocale(text: Option<string>)
    ensures CoerceLocale(text).Some? <==> OrEmpty(text) == "" || OrEmpty(text) == "en" || OrEmpty(text) == "ar"
    ensures CoerceLocale(text).Some? ==>
              var locale := CoerceLocale(text).value;
              if locale.None? then OrEmpty(text) == "" else LocaleText(locale) == OrEmpty(text)
  {
  }

  /** An item has a key exactly when the target knows all three texts; its key has those texts, and an
      empty or absent one is no channel or locale. */
  lemma KnownExactly(item: Item)
    ensures KeyOf(item).Some? <==>
              && (item.kind == "template" || item.kind == "workflow" || item.kind == "checklist" ||
                  item.kind == "nudge" || item.kind == "setting")
              && (OrEmpty(item.channel) == "" || OrEmpty(item.channel) == "whatsapp" ||
                  OrEmpty(item.channel) == "email")
              && (OrEmpty(item.locale) == "" || OrEmpty(item.locale) == "en" || OrEmpty(item.locale) == "ar")
    ensures KeyOf(item).Some? ==>
              var key := KeyOf(item).value;
              && key.name == item.name && KindText(key.kind) == item.kind
              && (if key.channel.None? then OrEmpty(item.channel) == ""
                  else ChannelText(key.channel) == OrEmpty(item.channel))
              && (if key.locale.None? then OrEmpty(item.locale) == ""
                  else LocaleText(key.locale) == OrEmpty(item.locale))
  {
    KnownKind(item.kind);
    KnownChannel(item.channel);
    KnownLocale(item.locale);
  }

  // ----- the manifest order -----

  /** Text order by code point. */
  predicate TextBefore(a: string, b: string) {
    a == "" || (b != "" && (a[0] < b[0] || (a[0] == b[0] && TextBefore(a[1..], b[1..]))))
  }

  /** Order by kind, name, channel, locale. */
  predicate ItemBefore(a: Item, b: Item) {
    if a.kind != b.kind then TextBefore(a.kind, b.kind)
    else if a.name != b.name then TextBefore(a.name, b.name)
    else if OrEmpty(a.channel) != OrEmpty(b.channel) then TextBefore(OrEmpty(a.channel), OrEmpty(b.channel))
    else TextBefore(OrEmpty(a.locale), OrEmpty(b.locale))
  }

  /** The text order is by the first character that differs, a shorter text before a longer one. */
  lemma {:induction false} TextOrderMeans(common: string, a: string, b: string)
    requires a != "" && b != "" ==> a[0] != b[0]
    ensures TextBefore(common + a, common + b) <==> a == "" || (b != "" && a[0] < b[0])
  {
    if common == "" {
      assert common + a == a && common + b == b;
    } else {
      assert (common + a)[1..] == common[1..] + a && (common + b)[1..] == common[1..] + b;
      TextOrderMeans(common[1..], a, b);
    }
  }

  /** Kind decides first, then name, then channel, then locale. */
  lemma RankMeans(a: Item, b: Item)
    requires ItemBefore(a, b)
    ensures TextBefore(a.kind, b.kind)
    ensures a.kind == b.kind ==> TextBefore(a.name, b.name)
    ensures a.kind == b.kind && a.name == b.name ==> TextBefore(OrEmpty(a.channel), OrEmpty(b.channel))
    ensures a.kind == b.kind && a.name == b.name && OrEmpty(a.channel) == OrEmpty(b.channel) ==>
              TextBefore(OrEmpty(a.locale), OrEmpty(b.locale))
  {
    TextOrder(a.kind, b.kind, "");
    TextOrder(a.name, b.name, "");
    TextOrder(OrEmpty(a.channel), OrEmpty(b.channel), "");
  }

  ghost predicate Sorted(items: seq<Item>) {
    forall i, j :: 0 <= i < j < |items| ==> ItemBefore(items[i], items[j])
  }

  lemma {:induction false} TextOrder(a: string, b: string, c: string)
    ensures TextBefore(a, b) || TextBefore(b, a)
    ensures TextBefore(a, b) && TextBefore(b, a) ==> a == b
    ensures TextBefore(a, b) && TextBefore(b, c) ==> TextBefore(a, c)
  {
    if a != "" && b != "" {
      TextOrder(a[1..], b[1..], if c != "" then c[1..] else "");
      assert a == [a[0]] + a[1..] && b == [b[0]] + b[1..];
    }
  }

  lemma ItemOrderIsTotal(a: Item, b: Item)
    ensures ItemBefore(a, b) || ItemBefore(b, a)
  {
    TextOrder(a.kind, b.kind, "");
    TextOrder(a.name, b.name, "");
    TextOrder(OrEmpty(a.channel), OrEmpty(b.channel), "");
    TextOrder(OrEmpty(a.locale), OrEmpty(b.locale), "");
  }

  lemma ItemOrderIsTransitive(a: Item, b: Item, c: Item)
    requires ItemBefore(a, b) && ItemBefore(b, c)
    ensures ItemBefore(a, c)
  {
    TextOrder(a.kind, b.kind, c.kind);
    TextOrder(b.kind, c.kind, a.kind);
    TextOrder(a.name, b.name, c.name);
    TextOrder(b.name, c.name, a.name);
    TextOrder(OrEmpty(a.channel), OrEmpty(b.channel), OrEmpty(c.channel));
    TextOrder(OrEmpty(b.channel), OrEmpty(c.channel), OrEmpty(a.channel));
    TextOrder(OrEmpty(a.locale), OrEmpty(b.locale), OrEmpty(c.locale));
  }

  /** Two exported items of equal rank have the same key. */
  lemma ItemOrderIsStrict(a: ConfigRecord, b: ConfigRecord)
    requires ItemBefore(Serialize(a), Serialize(b)) && ItemBefore(Serialize(b), Serialize(a))
    ensures a.key == b.key
  {
    var x, y := Serialize(a), Serialize(b);
    TextOrder(x.kind, y.kind, "");
    TextOrder(x.name, y.name, "");
    TextOrder(OrEmpty(x.channel), OrEmpty(y.channel), "");
    TextOrder(OrEmpty(x.locale), OrEmpty(y.locale), "");
    CoerceRoundTrip(a);
    CoerceRoundTrip(b);
  }

  method SortItems(items: seq<Item>) returns (sorted: seq<Item>)
    ensures Sorted(sorted)
    ensures Distinct(items) ==> Distinct(sorted)
    ensures forall item :: item in sorted <==> item in items
  {
    sorted := [];
    for i := 0 to |items|
      invariant Sorted(sorted)
      invariant Distinct(items) ==> Distinct(sorted)
      invariant forall item :: item in sorted <==> item in items[..i]
    {
      assert items[..i + 1] == items[..i] + [items[i]];
      var k := |sorted|;
      while k > 0 && !ItemBefore(sorted[k - 1], items[i])
        invariant 0 <= k <= |sorted|
        invariant forall j :: k <= j < |sorted| ==> ItemBefore(items[i], sorted[j])
      {
        ItemOrderIsTotal(sorted[k - 1], items[i]);
        k := k - 1;
      }
      assert Distinct(items) ==> items[i] !in sorted;
      InsertionIsSorted(sorted, k, items[i]);
      sorted := InsertAt(sorted, k, items[i]);
    }
    assert items[..|items|] == items;
  }

  function InsertAt(sorted: seq<Item>, k: nat, item: Item): seq<Item>
    requires k <= |sorted|
  {
    sorted[..k] + [item] + sorted[k..]
  }

  lemma InsertionIsSorted(sorted: seq<Item>, k: nat, item: Item)
    requires k <= |sorted| && Sorted(sorted)
    requires k > 0 ==> ItemBefore(sorted[k - 1], item)
    requires forall j :: k <= j < |sorted| ==> ItemBefore(item, sorted[j])
    ensures Sorted(InsertAt(sorted, k, item))
  {
    forall j | 0 <= j < k ensures ItemBefore(sorted[j], item) {
      if j < k - 1 {
        ItemOrderIsTransitive(sorted[j], sorted[k - 1], item);
      }
    }
  }

  /** A sorted list of items with different keys is determined by its members. */
  lemma {:induction false} SortedIsCanonical(a: seq<Item>, b: seq<Item>)
    requires Sorted(a) && Sorted(b) && Distinct(a) && Distinct(b) && ToSet(a) == ToSet(b)
    requires forall x, y :: x in a && y in a && ItemBefore(x, y) && ItemBefore(y, x) ==> x == y
    ensures a == b
  {
    assert b != [] ==> b[0] in ToSet(b);
    if a != [] {
      assert a[0] in ToSet(b);
      assert b[0] in ToSet(a);
      TailToSet(a);
      TailToSet(b);
      SortedIsCanonical(a[1..], b[1..]);
      assert a == [a[0]] + a[1..] && b == [b[0]] + b[1..];
    }
  }
}
