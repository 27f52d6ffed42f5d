/** Addresses and contents of configuration entries (app/services/cms/models.py, enums.py). */
module CmsTypes {
  import opened Shared

  datatype ConfigKind = Template | Workflow | Checklist | Nudge | Setting

  datatype ConfigKey = ConfigKey(kind: ConfigKind, name: string, channel: Option<Channel>, locale: Option<Locale>)

  /** A config value: its top-level fields, each with its JSON text. */
  type Value = map<string, string>

  datatype ConfigRecord = ConfigRecord(key: ConfigKey, version: nat, value: Value)

  /** A cached record and the time it expires. */
  datatype Entry = Entry(record: ConfigRecord, expires: real)

  type Entries = map<string, Entry>

  /** The unexpired entry, if any. */
  function Hit(entries: Entries, id: string, now: real): Option<ConfigRecord> {
    if id in entries && entries[id].expires > now then Some(entries[id].record) else None
  }

  function Filled(entries: Entries, id: string, record: ConfigRecord, now: real, ttl: real): Entries {
    entries[id := Entry(record, now + ttl)]
  }

  // ----- ConfigKey.identity -----

  function KindText(kind: ConfigKind): string {
    match kind
    case Template => "template"
    case Workflow => "workflow"
    case Checklist => "checklist"
    case Nudge => "nudge"
    case Setting => "setting"
  }

  function ChannelText(channel: Option<Channel>): string {
    match channel
    case None => "*"
    case Some(WhatsApp) => "whatsapp"
    case Some(Email) => "email"
  }

  function LocaleText(locale: Option<Locale>): string {
    match locale
    case None => "*"
    case Some(En) => "en"
    case Some(Ar) => "ar"
  }

  function Identity(key: ConfigKey): string {
    KindText(key.kind) + ":" + key.name + ":" + ChannelText(key.channel) + ":" + LocaleText(key.locale)
  }

  /** Text up to the first ':' is the same in equal strings. */
  lemma FirstField(a: string, x: string, b: string, y: string)
    requires ':' !in a && ':' !in b && a + ":" + x == b + ":" + y
    ensures a == b && x == y
  {
    var s := a + ":" + x;
    assert s[|a|] == ':' && s[|b|] == ':';
    assert |a| == |b|;
    assert a == s[..|a|] && b == s[..|b|];
    assert x == s[|a| + 1..] && y == s[|b| + 1..];
  }

  /** So is text from the last ':' on. */
  lemma LastField(x: string, a: string, y: string, b: string)
    requires ':' !in a && ':' !in b && x + ":" + a == y + ":" + b
    ensures a == b && x == y
  {
    var s := x + ":" + a;
    assert s[|x|] == ':' && s[|y|] == ':';
    assert |x| == |y|;
    assert x == s[..|x|] && y == s[..|y|];
    assert a == s[|x| + 1..] && b == s[|y| + 1..];
  }

  /** Only the second of four fields may hold ':', so the joined text determines all four. */
  lemma FourFields(k: string, n: string, c: string, l: string, k': string, n': string, c': string, l': string)
    requires ':' !in k && ':' !in c && ':' !in l && ':' !in k' && ':' !in c' && ':' !in l'
    requires k + ":" + n + ":" + c + ":" + l == k' + ":" + n' + ":" + c' + ":" + l'
    ensures k == k' && n == n' && c == c' && l == l'
  {
    LastField(k + ":" + n + ":" + c, l, k' + ":" + n' + ":" + c', l');
    LastField(k + ":" + n, c, k' + ":" + n', c');
    FirstField(k, n, k', n');
  }

  /** Distinct keys have distinct cache ids, even when names contain ':' or '*'. */
  lemma IdentityIsInjective(a: ConfigKey, b: ConfigKey)
    requires Identity(a) == Identity(b)
    ensures a == b
  {
    FourFields(KindText(a.kind), a.name, ChannelText(a.channel), LocaleText(a.locale),
               KindText(b.kind), b.name, ChannelText(b.channel), LocaleText(b.locale));
  }

  /** A cache id is never the message that clears every cache. */
  lemma IdentityIsNotClear(key: ConfigKey)
    ensures Identity(key) != "*"
  {
    assert |Identity(key)| > 3;
  }
}
