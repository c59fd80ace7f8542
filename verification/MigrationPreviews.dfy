/** One-shot, expiring, owner-bound previews of a migration (portal/control/migration.py). */
module MigrationPreviews {
  import opened Bytes
  import opened Json
  import opened MigrationPlan

  /** SHA-256 of an encrypted archive, taken as injective; nothing for a value that is not bytes. */
  datatype ArchiveDigest = NotBytes | Sha256(data: Blob)

  datatype Entry = Entry(
    owner: string,
    digest: ArchiveDigest,
    revision: Revision,
    mode: Mode,
    expires: int,
    envelope: Json)

  type Table = map<string, Entry>

  // ---- what each locked section does -----------------------------------------------------

  function Live(t: Table, now: int): Table {
    map k | k in t && now < t[k].expires :: t[k]
  }

  /** An entry may be used by its owner, for its archive, while it is alive. */
  predicate Redeemable(t: Table, now: int, id: Option<string>, owner: Option<string>, digest: ArchiveDigest) {
    && id.Some? && id.value in Live(t, now) && owner.Some?
    && t[id.value].owner == owner.value && t[id.value].digest == digest
  }

  predicate Cancellable(t: Table, now: int, id: Option<string>, owner: Option<string>) {
    && id.Some? && id.value in Live(t, now) && owner.Some?
    && t[id.value].owner == owner.value
  }

  function AfterRegister(t: Table, now: int, capacity: nat, id: string, e: Entry): Table {
    if |Live(t, now)| >= capacity then Live(t, now) else Live(t, now)[id := e]
  }

  function AfterRedeem(t: Table, now: int, id: Option<string>, owner: Option<string>, digest: ArchiveDigest): Table {
    if Redeemable(t, now, id, owner, digest) then Live(t, now) - {id.value} else Live(t, now)
  }

  function AfterCancel(t: Table, now: int, id: Option<string>, owner: Option<string>): Table {
    if Cancellable(t, now, id, owner) then Live(t, now) - {id.value} else Live(t, now)
  }

  /** What a preview's timer does, whenever it fires. */
  function AfterTimer(t: Table, now: int, id: string): Table {
    if id in t && t[id].expires <= now then t - {id} else t
  }

  // ---- the object ------------------------------------------------------------------------

  class MigrationPreviews {
    const ttl: int
    const capacity: nat
    var entries: Table

    constructor (ttl: int, capacity: nat)
      ensures entries == map[] && this.ttl == ttl && this.capacity == capacity
    {
      this.ttl, this.capacity, entries := ttl, capacity, map[];
    }

    method Purge(now: int)
      modifies this
      ensures entries == Live(old(entries), now)
      ensures forall k :: k in entries <==> k in old(entries) && now < old(entries)[k].expires
      ensures forall k :: k in entries ==> entries[k] == old(entries)[k]
    {
      var expired := set k | k in entries && entries[k].expires <= now;
      while expired != {}
        invariant expired <= entries.Keys
        invariant forall k :: k in expired ==> entries[k].expires <= now
        invariant forall k :: k in entries ==> k in old(entries) && entries[k] == old(entries)[k]
        invariant forall k :: k in old(entries) && k !in entries ==> old(entries)[k].expires <= now
        invariant forall k :: k in entries && entries[k].expires <= now ==> k in expired
        decreases expired
      {
        var key :| key in expired;
        entries := entries - {key};
        expired := expired - {key};
      }
    }

    /** The timer of one entry. */
    method Expire(id: string, now: int)
      modifies this
      ensures entries == AfterTimer(old(entries), now, id)
      ensures id in entries <==> id in old(entries) && now < old(entries)[id].expires
      ensures entries - {id} == old(entries) - {id} && (id in entries ==> entries[id] == old(entries)[id])
    {
      if id in entries && entries[id].expires <= now {
        entries := entries - {id};
      }
    }

    /** The locked part of `preview`; the clock is read once to purge and once for the deadline. */
    method Register(now: int, later: int, id: string, owner: string, digest: ArchiveDigest, revision: Revision,
                    mode: Mode, envelope: Json) returns (ok: bool)
      modifies this
      ensures ok <==> |Live(old(entries), now)| < capacity
      ensures entries == AfterRegister(old(entries), now, capacity, id,
                                       Entry(owner, digest, revision, mode, later + ttl, envelope))
      ensures forall k :: k in entries <==>
                (k in old(entries) && now < old(entries)[k].expires) || (ok && k == id)
      ensures forall k :: k in entries && !(ok && k == id) ==> entries[k] == old(entries)[k]
      ensures ok ==> entries[id] == Entry(owner, digest, revision, mode, later + ttl, envelope)
    {
      Purge(now);
      if |entries| >= capacity {
        return false;
      }
      entries := entries[id := Entry(owner, digest, revision, mode, later + ttl, envelope)];
      return true;
    }

    /** The locked part of `commit`: the entry leaves the table before anything is done with it. */
    method Redeem(now: int, id: Option<string>, owner: Option<string>, archive: Option<Blob>) returns (r: Option<Entry>)
      modifies this
      ensures var digest := if archive.Some? then Sha256(archive.value) else NotBytes;
              && entries == AfterRedeem(old(entries), now, id, owner, digest)
              && r == if Redeemable(old(entries), now, id, owner, digest) then Some(old(entries)[id.value]) else None
      ensures r.Some? <==>
                && id.Some? && id.value in old(entries) && now < old(entries)[id.value].expires
                && owner == Some(old(entries)[id.value].owner)
                && old(entries)[id.value].digest == if archive.Some? then Sha256(archive.value) else NotBytes
      ensures r.Some? ==> r.value == old(entries)[id.value]
      ensures forall k :: k in entries <==>
                k in old(entries) && now < old(entries)[k].expires && !(r.Some? && k == id.value)
      ensures forall k :: k in entries ==> entries[k] == old(entries)[k]
    {
      var digest := if archive.Some? then Sha256(archive.value) else NotBytes;
      Purge(now);
      if id.None? || id.value !in entries {
        return None;
      }
      var entry := entries[id.value];
      if owner.None? || entry.owner != owner.value || entry.digest != digest {
        return None;
      }
      entries := entries - {id.value};
      return Some(entry);
    }

    method Cancel(now: int, id: Option<string>, owner: Option<string>) returns (ok: bool)
      modifies this
      ensures ok == Cancellable(old(entries), now, id, owner)
      ensures entries == AfterCancel(old(entries), now, id, owner)
      ensures ok <==>
                && id.Some? && id.value in old(entries) && now < old(entries)[id.value].expires
                && owner == Some(old(entries)[id.value].owner)
      ensures forall k :: k in entries <==>
                k in old(entries) && now < old(entries)[k].expires && !(ok && k == id.value)
      ensures forall k :: k in entries ==> entries[k] == old(entries)[k]
    {
      Purge(now);
      if id.None? || id.value !in entries {
        return false;
      }
      if owner.None? || entries[id.value].owner != owner.value {
        return false;
      }
      entries := entries - {id.value};
      return true;
    }
  }
}
