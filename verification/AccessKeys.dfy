/**
 The cache of Access signing keys: what a key it returns is worth at the moment it is returned,
 whatever was asked of the cache before.
 */
module AccessKeys {
  import opened Options

  type Material = int

  /** One entry of a key document; the material is absent when it does not parse as an RSA key. */
  datatype Record = Record(keyType: string, keyId: string, algorithm: string, use: string, material: Option<Material>)

  /** What the configured source would answer: the endpoint's document, or the snapshot file with its time. */
  datatype Source = Unreadable | Endpoint(records: seq<Record>) | Snapshot(modified: int, records: seq<Record>)

  const CLOCK_SKEW := 60
  const MAX_TTL := 3600

  predicate Usable(r: Record) {
    && r.keyType == "RSA"
    && r.algorithm == "RS256"
    && (r.use == "" || r.use == "sig")
    && r.keyId != ""
    && r.material.Some?
  }

  /** No key ID stands for two usable records. */
  ghost predicate Unambiguous(records: seq<Record>) {
    forall i, j | 0 <= i < j < |records| && Usable(records[i]) && Usable(records[j]) ::
      records[i].keyId != records[j].keyId
  }

  /** The keys are those of the usable records. */
  ghost predicate KeysOf(keys: map<string, Material>, records: seq<Record>) {
    && (forall r | r in records && Usable(r) :: r.keyId in keys && keys[r.keyId] == r.material.value)
    && (forall id | id in keys :: exists r :: r in records && Usable(r) && r.keyId == id)
  }

  /** A document good enough to replace the cache. */
  ghost predicate Good(records: seq<Record>) {
    Unambiguous(records) && exists r :: r in records && Usable(r)
  }

  /** The source is read at all: a snapshot only if it is neither from the future nor too old. */
  predicate Readable(source: Source, now: int, ttl: int) {
    match source
    case Unreadable => false
    case Endpoint(_) => true
    case Snapshot(modified, _) => modified <= now + CLOCK_SKEW && now - modified <= ttl
  }

  /** A refresh that succeeded. */
  datatype Refresh = Refresh(at: int, source: Source)

  ghost predicate Sound(r: Refresh, ttl: int) {
    Readable(r.source, r.at, ttl) && Good(r.source.records)
  }

  /** The source's key for `id`. */
  ghost predicate Lists(records: seq<Record>, id: string, key: Material) {
    exists r :: r in records && Usable(r) && r.keyId == id && r.material == Some(key)
  }

  class Verifier {
    const cacheTtl: int
    var keys: map<string, Material>
    var cacheExpiry: Option<int>
    /** The successful refreshes so far. */
    ghost var refreshes: seq<Refresh>

    ghost predicate Valid() reads this {
      && 0 < cacheTtl <= MAX_TTL
      && (forall r | r in refreshes :: Sound(r, cacheTtl))
      && (refreshes == [] ==> keys == map[] && cacheExpiry.None?)
      && (refreshes != [] ==>
            var last := refreshes[|refreshes| - 1];
            last.source != Unreadable && KeysOf(keys, last.source.records) && cacheExpiry == Some(last.at + cacheTtl))
    }

    /** A missing lifetime is five minutes. */
    constructor (cacheTtl: int)
      requires cacheTtl <= MAX_TTL
      ensures Valid() && refreshes == [] && this.cacheTtl == if cacheTtl <= 0 then 300 else cacheTtl
    {
      this.cacheTtl := if cacheTtl <= 0 then 300 else cacheTtl;
      keys, cacheExpiry, refreshes := map[], None, [];
    }

    /** The pass over a document: every usable record once, or nothing. */
    static method ReadKeys(records: seq<Record>) returns (found: Option<map<string, Material>>)
      ensures found.Some? <==> Good(records)
      ensures found.Some? ==> KeysOf(found.value, records)
    {
      var keys: map<string, Material> := map[];
      for i := 0 to |records|
        invariant Unambiguous(records[..i])
        invariant KeysOf(keys, records[..i])
      {
        var record := records[i];
        assert records[..i + 1] == records[..i] + [record];
        if record.keyType != "RSA" || record.algorithm != "RS256" { continue; }
        if (record.use != "" && record.use != "sig") || record.keyId == "" {
          continue;
        }
        if record.material.None? { continue; }
        if record.keyId in keys {
          ghost var j :| 0 <= j < i && Usable(records[j]) && records[j].keyId == record.keyId;
          return None;
        }
        keys := keys[record.keyId := record.material.value];
      }
      assert records[..|records|] == records;
      if |keys| == 0 { return None; }
      return Some(keys);
    }

    /** A failed refresh changes nothing; a good one replaces the whole cache. */
    method RefreshLocked(now: int, source: Source) returns (ok: bool)
      requires Valid()
      modifies this
      ensures Valid()
      ensures ok <==> Readable(source, now, cacheTtl) && Good(source.records)
      ensures ok ==> refreshes == old(refreshes) + [Refresh(now, source)]
      ensures !ok ==> refreshes == old(refreshes) && keys == old(keys) && cacheExpiry == old(cacheExpiry)
    {
      if !Readable(source, now, cacheTtl) { return false; }
      var found := ReadKeys(source.records);
      if found.None? { return false; }
      keys := found.value;
      cacheExpiry := Some(now + cacheTtl);
      refreshes := refreshes + [Refresh(now, source)];
      return true;
    }

    method Warm(now: int, source: Source) returns (ok: bool)
      requires Valid()
      modifies this
      ensures Valid()
      ensures ok <==> Readable(source, now, cacheTtl) && Good(source.records)
      ensures refreshes == old(refreshes) + if ok then [Refresh(now, source)] else []
      ensures !ok ==> keys == old(keys) && cacheExpiry == old(cacheExpiry)
    {
      ok := RefreshLocked(now, source);
    }

    /**
     A key that comes back is listed by the latest successful refresh, whose lifetime has not run out;
     from a snapshot it is younger than twice the lifetime. No key comes back exactly when the cache
     cannot serve it and the source, read now, is refused or does not list it.
     */
    method Key(id: string, now: int, source: Source) returns (key: Option<Material>)
      requires Valid()
      modifies this
      ensures Valid()
      ensures key.Some? ==>
                && refreshes != []
                && var last := refreshes[|refreshes| - 1];
                && now < last.at + cacheTtl
                && last.source != Unreadable
                && Lists(last.source.records, id, key.value)
                && (last.source.Snapshot? ==> now - last.source.modified < 2 * cacheTtl)
      ensures refreshes == old(refreshes) || refreshes == old(refreshes) + [Refresh(now, source)]
      ensures refreshes == old(refreshes) ==> keys == old(keys) && cacheExpiry == old(cacheExpiry)
      ensures key.None? <==>
              && !(old(cacheExpiry).Some? && now < old(cacheExpiry).value && id in old(keys))
              && !(Readable(source, now, cacheTtl) && Good(source.records) && exists k :: Lists(source.records, id, k))
    {
      if cacheExpiry.Some? && now < cacheExpiry.value && id in keys {
        assert refreshes[|refreshes| - 1] in refreshes;
        return Some(keys[id]);
      }
      var ok := RefreshLocked(now, source);
      if !ok { return None; }
      assert refreshes[|refreshes| - 1] == Refresh(now, source);
      if id !in keys { return None; }
      assert Lists(source.records, id, keys[id]);
      return Some(keys[id]);
    }
  }

  /** A lifetime above an hour is refused. */
  method NewVerifier(cacheTtl: int) returns (verifier: Verifier?)
    ensures verifier == null <==> cacheTtl > MAX_TTL
    ensures verifier != null ==> fresh(verifier) && verifier.Valid() && verifier.refreshes == []
  {
    if cacheTtl > MAX_TTL { return null; }
    verifier := new Verifier(cacheTtl);
  }
}
