/**
 The configuration service over its in-memory store and cache
 (app/services/cms/service.py, cache.py). Each call is one atomic step. The clock may
 read anything, so nothing below depends on how time passes.
 */
module CmsService {
  import opened Shared
  import opened CmsTypes
  import opened ConfigStore

  type Validator = (ConfigKind, Value) -> bool

  datatype Outcome<+T> = Done(value: T) | ValidationFailed | VersionNotFound

  datatype Cms = Cms(store: Store, entries: Entries)

  const EMPTY_CMS := Cms(EMPTY_STORE, map[])

  function Evicted(c: Cms, key: ConfigKey): Cms {
    c.(entries := c.entries - {Identity(key)})
  }

  function SaveAndEvict(c: Cms, key: ConfigKey, value: Value): Cms {
    Evicted(c.(store := Save(c.store, key, value)), key)
  }

  function Upsert(c: Cms, key: ConfigKey, value: Value, valid: Validator): Cms {
    if valid(key.kind, value) then SaveAndEvict(c, key, value) else c
  }

  function Rollback(c: Cms, key: ConfigKey, version: int): Cms {
    var target := FindVersion(HistoryOf(c.store, key), version);
    if target.Some? then SaveAndEvict(c, key, target.value.value) else c
  }

  function Delete(c: Cms, key: ConfigKey): Cms {
    Evicted(c.(store := Remove(c.store, key)), key)
  }

  /** What a read answers. */
  function Answer(c: Cms, key: ConfigKey, useCache: bool, now: real): Option<ConfigRecord> {
    var cached := Hit(c.entries, Identity(key), now);
    if useCache && cached.Some? then cached else CurrentOf(c.store, key)
  }

  /** What a read leaves behind: an expired entry is dropped and a found record is cached. */
  function AfterGet(c: Cms, key: ConfigKey, useCache: bool, now: real, ttl: real): Cms {
    if !useCache || Hit(c.entries, Identity(key), now).Some? then c
    else if CurrentOf(c.store, key).Some? then
      c.(entries := Filled(c.entries, Identity(key), CurrentOf(c.store, key).value, now, ttl))
    else Evicted(c, key)
  }

  class InMemoryConfigCache {
    var entries: Entries
    const ttl: real

    constructor (ttl: real)
      ensures this.ttl == ttl && entries == map[]
    {
      this.ttl := ttl;
      entries := map[];
    }

    method Get(id: string, now: real) returns (record: Option<ConfigRecord>)
      modifies this
      ensures record == Hit(old(entries), id, now)
      ensures record.Some? <==> id in old(entries) && now < old(entries)[id].expires
      ensures record.Some? ==> record.value == old(entries)[id].record
      ensures entries == if record.Some? then old(entries) else old(entries) - {id}
    {
      if id !in entries {
        return None;
      }
      if entries[id].expires <= now {
        entries := entries - {id};
        return None;
      }
      return Some(entries[id].record);
    }

    method Set(id: string, record: ConfigRecord, now: real)
      modifies this
      ensures entries == Filled(old(entries), id, record, now, ttl)
      ensures entries == old(entries)[id := Entry(record, now + ttl)]
    {
      entries := entries[id := Entry(record, now + ttl)];
    }

    method Invalidate(id: string)
      modifies this
      ensures entries == old(entries) - {id}
    {
      entries := entries - {id};
    }

    method Clear()
      modifies this
      ensures entries == map[]
    {
      entries := map[];
    }
  }

  class Service {
    const store: InMemoryConfigStore
    const cache: InMemoryConfigCache
    const valid: Validator

    ghost function View(): Cms
      reads store, cache
    {
      Cms(store.View(), cache.entries)
    }

    constructor (ttl: real, valid: Validator)
      ensures fresh(store) && fresh(cache)
      ensures this.valid == valid && cache.ttl == ttl && View() == EMPTY_CMS
    {
      this.valid := valid;
      store := new InMemoryConfigStore();
      cache := new InMemoryConfigCache(ttl);
    }

    method UpsertValue(key: ConfigKey, value: Value) returns (r: Outcome<ConfigRecord>)
      modifies store, cache
      ensures View() == Upsert(old(View()), key, value, valid)
      ensures r == if valid(key.kind, value) then Done(Saved(old(store.View()), key, value)) else ValidationFailed
    {
      if !valid(key.kind, value) {
        return ValidationFailed;
      }
      var record := store.SaveNewVersion(key, value);
      cache.Invalidate(Identity(key));
      return Done(record);
    }

    method GetRecord(key: ConfigKey, useCache: bool, now: real) returns (record: Option<ConfigRecord>)
      modifies cache
      ensures record == Answer(old(View()), key, useCache, now)
      ensures View() == AfterGet(old(View()), key, useCache, now, cache.ttl)
    {
      var id := Identity(key);
      if useCache {
        record := cache.Get(id, now);
        if record.Some? {
          return;
        }
      }
      record := store.GetCurrent(key);
      if record.Some? && useCache {
        cache.Set(id, record.value, now);
      }
    }

    method RollbackTo(key: ConfigKey, version: int) returns (r: Outcome<ConfigRecord>)
      modifies store, cache
      ensures View() == Rollback(old(View()), key, version)
      ensures r == (var target := FindVersion(HistoryOf(old(store.View()), key), version);
                    if target.Some? then Done(Saved(old(store.View()), key, target.value.value)) else VersionNotFound)
    {
      var target := store.GetVersion(key, version);
      if target.None? {
        return VersionNotFound;
      }
      var record := store.SaveNewVersion(key, target.value.value);
      cache.Invalidate(Identity(key));
      return Done(record);
    }

    method DeleteCurrent(key: ConfigKey) returns (existed: bool)
      modifies store, cache
      ensures View() == Delete(old(View()), key)
      ensures existed == CurrentOf(old(store.View()), key).Some?
    {
      existed := store.DeleteCurrent(key);
      cache.Invalidate(Identity(key));
    }

    method Refresh()
      modifies cache
      ensures View() == old(View()).(entries := map[])
    {
      cache.Clear();
    }

    /** Template lookup with channel and locale fallback, through the cache. */
    method GetTemplate(name: string, locale: Locale, channel: Option<Channel>, defaultLocale: Locale, now: real)
        returns (record: Option<ConfigRecord>)
      requires Agrees(View())
      modifies cache
      ensures store.View() == old(store.View()) && Agrees(View())
      ensures record == FirstCurrent(store.View(), Fallbacks(name, locale, channel, defaultLocale))
    {
      var attempts := [TemplateKey(name, channel, locale)];
      if channel.Some? {
        attempts := attempts + [TemplateKey(name, None, locale)];
      }
      if locale != defaultLocale {
        attempts := attempts + [TemplateKey(name, channel, defaultLocale)];
        if channel.Some? {
          attempts := attempts + [TemplateKey(name, None, defaultLocale)];
        }
      }
      SkipsAreHarmless(store.View(), name, locale, channel, defaultLocale, attempts);
      for i := 0 to |attempts|
        invariant store.View() == old(store.View()) && Agrees(View())
        invariant FirstCurrent(store.View(), attempts) == FirstCurrent(store.View(), attempts[i..])
      {
        CachedAnswerIsCurrent(View(), attempts[i], true, now);
        GetKeepsAgreement(View(), attempts[i], true, now, cache.ttl);
        record := GetRecord(attempts[i], true, now);
        if record.Some? {
          return;
        }
        assert attempts[i..][1..] == attempts[i + 1..];
      }
      return None;
    }
  }

  // ----- the cache never disagrees with the store -----

  /** Every cached record, expired or not, is the current record of its id. */
  ghost predicate Agrees(c: Cms) {
    forall id :: id in c.entries ==> id in c.store.current && c.store.current[id] == c.entries[id].record
  }

  lemma CachedAnswerIsCurrent(c: Cms, key: ConfigKey, useCache: bool, now: real)
    requires Agrees(c)
    ensures Answer(c, key, useCache, now) == CurrentOf(c.store, key)
  {
  }

  lemma GetKeepsAgreement(c: Cms, key: ConfigKey, useCache: bool, now: real, ttl: real)
    requires Agrees(c)
    ensures Agrees(AfterGet(c, key, useCache, now, ttl))
  {
  }

  /** A cached read that misses keeps the store's record for the TTL from then on, or drops the stale
      entry if there is none; a read that hits does not prolong its entry, and an uncached one leaves
      the cache alone. No read touches another key's entry or the store. */
  lemma ReadCaches(c: Cms, key: ConfigKey, useCache: bool, now: real, ttl: real, c': Cms)
    requires c' == AfterGet(c, key, useCache, now, ttl)
    ensures c'.store == c.store && c'.entries - {Identity(key)} == c.entries - {Identity(key)}
    ensures !useCache || Hit(c.entries, Identity(key), now).Some? ==> c' == c
    ensures useCache && Hit(c.entries, Identity(key), now).None? ==>
              forall later: real ::
                Hit(c'.entries, Identity(key), later) == if later < now + ttl then CurrentOf(c.store, key) else None
  {
  }

  // ----- template fallback -----

  function TemplateKey(name: string, channel: Option<Channel>, locale: Locale): ConfigKey {
    ConfigKey(Template, name, channel, Some(locale))
  }

  /** The documented order, with no entry left out. */
  function Fallbacks(name: string, locale: Locale, channel: Option<Channel>, defaultLocale: Locale): seq<ConfigKey> {
    [TemplateKey(name, channel, locale), TemplateKey(name, None, locale),
     TemplateKey(name, channel, defaultLocale), TemplateKey(name, None, defaultLocale)]
  }

  function FirstCurrent(s: Store, keys: seq<ConfigKey>): Option<ConfigRecord> {
    if keys == [] then None
    else if CurrentOf(s, keys[0]).Some? then CurrentOf(s, keys[0])
    else FirstCurrent(s, keys[1..])
  }

  /** What the fallback order finds: the template of that channel and locale, then of any channel in
      that locale, then of that channel in the default locale, then of any channel there. */
  lemma FallbackOrder(s: Store, name: string, locale: Locale, channel: Option<Channel>, defaultLocale: Locale)
    ensures var exact := CurrentOf(s, ConfigKey(Template, name, channel, Some(locale)));
            var anyChannel := CurrentOf(s, ConfigKey(Template, name, None, Some(locale)));
            var otherLocale := CurrentOf(s, ConfigKey(Template, name, channel, Some(defaultLocale)));
            var anyOther := CurrentOf(s, ConfigKey(Template, name, None, Some(defaultLocale)));
            FirstCurrent(s, Fallbacks(name, locale, channel, defaultLocale)) ==
            if exact.Some? then exact else if anyChannel.Some? then anyChannel
            else if otherLocale.Some? then otherLocale else anyOther
  {
    FirstOfFour(s, Fallbacks(name, locale, channel, defaultLocale));
  }

  /** The attempts that are left out would repeat earlier ones. */
  lemma SkipsAreHarmless(s: Store, name: string, locale: Locale, channel: Option<Channel>, defaultLocale: Locale,
                         attempts: seq<ConfigKey>)
    requires attempts == [TemplateKey(name, channel, locale)]
                         + (if channel.Some? then [TemplateKey(name, None, locale)] else [])
                         + (if locale == defaultLocale then [] else [TemplateKey(name, channel, defaultLocale)])
                         + (if channel.None? || locale == defaultLocale then []
                            else [TemplateKey(name, None, defaultLocale)])
    ensures FirstCurrent(s, attempts) == FirstCurrent(s, Fallbacks(name, locale, channel, defaultLocale))
  {
    FirstOfFour(s, Fallbacks(name, locale, channel, defaultLocale));
    FirstOfFour(s, attempts);
  }

  lemma FirstOfFour(s: Store, keys: seq<ConfigKey>)
    requires 1 <= |keys| <= 4
    ensures FirstCurrent(s, keys) ==
            if CurrentOf(s, keys[0]).Some? then CurrentOf(s, keys[0])
            else if |keys| > 1 && CurrentOf(s, keys[1]).Some? then CurrentOf(s, keys[1])
            else if |keys| > 2 && CurrentOf(s, keys[2]).Some? then CurrentOf(s, keys[2])
            else if |keys| > 3 then CurrentOf(s, keys[3]) else None
  {
    if |keys| > 1 {
      assert keys[1..][0] == keys[1];
      if |keys| > 2 {
        assert keys[1..][1..] == keys[2..];
        if |keys| > 3 {
          assert keys[2..][1..] == keys[3..] == [keys[3]];
        }
      }
    }
  }
}
