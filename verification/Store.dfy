/** The persistent tables. Each statement batch the original runs on its worker thread is one step. */
module Store {
  import opened Prelude
  import opened Crypto
  import opened Unicode

  datatype Device = Device(
    deviceId: string, pubkey: Bytes, name: UText, platform: string,
    pairedAt: int, lastSeenAt: Option<int>, revokedAt: Option<int>)

  type Devices = map<string, Device>

  /** Spent nonces, per device, with the time from which a sweep may drop them. */
  type Nonces = map<(string, string), int>

  datatype AuditRow = AuditRow(id: nat, ts: int, deviceId: Option<string>, action: string, result: string)

  datatype Db = Db(devices: Devices, nonces: Nonces)

  /** Another row already holds the key: the insertion violates its uniqueness constraint. */
  predicate KeyTaken(devices: Devices, deviceId: string, pubkey: Bytes)
  {
    deviceId !in devices && exists d :: d in devices && devices[d].pubkey == pubkey
  }

  /** The insertion raises: for a taken key, or for a name that the database cannot hold as UTF-8. */
  predicate Refuses(devices: Devices, deviceId: string, pubkey: Bytes, name: UText)
  {
    KeyTaken(devices, deviceId, pubkey) || !Encodable(name)
  }

  /** The row that enrolling leaves: a new one, or the old one under a new name and not revoked. */
  function Enrolled(devices: Devices, deviceId: string, pubkey: Bytes, name: UText, platform: string, now: int): Device
  {
    if deviceId in devices
    then devices[deviceId].(name := name, platform := platform, pairedAt := now, revokedAt := None)
    else Device(deviceId, pubkey, name, platform, now, None, None)
  }

  function Upsert(db: Db, deviceId: string, pubkey: Bytes, name: UText, platform: string, now: int): Db
  {
    if Refuses(db.devices, deviceId, pubkey, name) then db
    else db.(devices := db.devices[deviceId := Enrolled(db.devices, deviceId, pubkey, name, platform, now)])
  }

  function Revoke(db: Db, deviceId: string, now: int): Db
  {
    if deviceId in db.devices && db.devices[deviceId].revokedAt.None?
    then db.(devices := db.devices[deviceId := db.devices[deviceId].(revokedAt := Some(now))])
    else db
  }

  function Delete(db: Db, deviceId: string): Db
  {
    Db(db.devices - {deviceId}, map k | k in db.nonces && k.0 != deviceId :: db.nonces[k])
  }

  function Touch(db: Db, deviceId: string, now: int): Db
  {
    if deviceId in db.devices
    then db.(devices := db.devices[deviceId := db.devices[deviceId].(lastSeenAt := Some(now))])
    else db
  }

  function Consume(db: Db, deviceId: string, nonce: string, expiresAt: int): Db
  {
    if (deviceId, nonce) in db.nonces then db
    else db.(nonces := db.nonces[(deviceId, nonce) := expiresAt])
  }

  function Sweep(db: Db, now: int): Db
  {
    db.(nonces := map k | k in db.nonces && db.nonces[k] > now :: db.nonces[k])
  }

  class Store {
    var devices: Devices
    var nonces: Nonces
    var audit: seq<AuditRow>
    var lastAuditId: nat

    ghost function Tables(): Db
      reads this
    {
      Db(devices, nonces)
    }

    /** Audit ids grow; the newest is the last one handed out unless the table was emptied. */
    ghost predicate Valid()
      reads this
    {
      && (forall i, j :: 0 <= i < j < |audit| ==> audit[i].id < audit[j].id)
      && (forall i :: 0 <= i < |audit| ==> audit[i].id <= lastAuditId)
    }

    constructor ()
      ensures Valid() && Tables() == Db(map[], map[]) && audit == []
    {
      devices, nonces, audit, lastAuditId := map[], map[], [], 0;
    }

    /** None where the original raises. */
    method UpsertDevice(deviceId: string, pubkey: Bytes, name: UText, platform: string, now: int)
      returns (r: Option<Device>)
      modifies this`devices
      ensures Tables() == Upsert(old(Tables()), deviceId, pubkey, name, platform, now)
      ensures r == if old(Refuses(devices, deviceId, pubkey, name)) then None else Some(devices[deviceId])
      ensures r.None? ==> devices == old(devices)
      ensures r.Some? ==>
                && r.value.name == name && r.value.platform == platform && r.value.pairedAt == now
                    && r.value.revokedAt == None
                && (deviceId in old(devices) ==> r.value == old(devices)[deviceId].(
                      name := name, platform := platform, pairedAt := now, revokedAt := None))
                && (deviceId !in old(devices) ==>
                      r.value.deviceId == deviceId && r.value.pubkey == pubkey && r.value.lastSeenAt == None)
                && devices == old(devices)[deviceId := r.value]
    {
      if !Encodable(name) { return None; }
      if deviceId in devices {
        var row := devices[deviceId];
        devices := devices[deviceId := row.(name := name, platform := platform, pairedAt := now, revokedAt := None)];
      } else if exists d :: d in devices && devices[d].pubkey == pubkey {
        return None;
      } else {
        devices := devices[deviceId := Device(deviceId, pubkey, name, platform, now, None, None)];
      }
      return Some(devices[deviceId]);
    }

    method GetDevice(deviceId: string) returns (r: Option<Device>)
      ensures r == if deviceId in devices then Some(devices[deviceId]) else None
    {
      if deviceId in devices { return Some(devices[deviceId]); }
      return None;
    }

    method RevokeDevice(deviceId: string, now: int) returns (changed: bool)
      modifies this`devices
      ensures Tables() == Revoke(old(Tables()), deviceId, now)
      ensures changed <==> deviceId in old(devices) && old(devices)[deviceId].revokedAt.None?
      ensures devices == if changed then old(devices)[deviceId := old(devices)[deviceId].(revokedAt := Some(now))]
                         else old(devices)
    {
      changed := deviceId in devices && devices[deviceId].revokedAt.None?;
      if changed { devices := devices[deviceId := devices[deviceId].(revokedAt := Some(now))]; }
    }

    method DeleteDevice(deviceId: string) returns (existed: bool)
      modifies this`devices, this`nonces
      ensures Tables() == Delete(old(Tables()), deviceId)
      ensures existed <==> deviceId in old(devices)
      ensures devices == old(devices) - {deviceId}
      ensures forall d, n :: (d, n) in nonces <==> (d, n) in old(nonces) && d != deviceId
      ensures forall k :: k in nonces ==> nonces[k] == old(nonces)[k]
    {
      existed := deviceId in devices;
      devices := devices - {deviceId};
      nonces := map k | k in nonces && k.0 != deviceId :: nonces[k];
    }

    method TouchDevice(deviceId: string, now: int)
      modifies this`devices
      ensures Tables() == Touch(old(Tables()), deviceId, now)
      ensures devices.Keys == old(devices).Keys
      ensures forall d :: d in devices ==>
                devices[d] == if d == deviceId then old(devices)[d].(lastSeenAt := Some(now)) else old(devices)[d]
    {
      if deviceId in devices {
        devices := devices[deviceId := devices[deviceId].(lastSeenAt := Some(now))];
      }
    }

    /** The insertion fails when the primary key is already there. */
    method ConsumeNonce(deviceId: string, nonce: string, expiresAt: int) returns (unseen: bool)
      modifies this`nonces
      ensures Tables() == Consume(old(Tables()), deviceId, nonce, expiresAt)
      ensures unseen <==> (deviceId, nonce) !in old(nonces)
      ensures nonces == if unseen then old(nonces)[(deviceId, nonce) := expiresAt] else old(nonces)
    {
      if (deviceId, nonce) in nonces { return false; }
      nonces := nonces[(deviceId, nonce) := expiresAt];
      return true;
    }

    method SweepNonces(now: int) returns (removed: nat)
      modifies this`nonces
      ensures Tables() == Sweep(old(Tables()), now)
      ensures removed == |old(nonces)| - |nonces|
      ensures forall k :: k in nonces <==> k in old(nonces) && old(nonces)[k] > now
      ensures forall k :: k in nonces ==> nonces[k] == old(nonces)[k]
    {
      ghost var before := nonces;
      var left := map k | k in nonces && nonces[k] > now :: nonces[k];
      SmallerMap(left, nonces);
      removed := |nonces| - |left|;
      nonces := left;
    }

    method AddAudit(ts: int, action: string, result: string, deviceId: Option<string>)
      requires Valid()
      modifies this`audit, this`lastAuditId
      ensures Valid()
      ensures lastAuditId == old(lastAuditId) + 1
      ensures audit == old(audit) + [AuditRow(lastAuditId, ts, deviceId, action, result)]
    {
      lastAuditId := lastAuditId + 1;
      audit := audit + [AuditRow(lastAuditId, ts, deviceId, action, result)];
    }

    /** Drops every row whose id is at least `keep` behind the newest one. */
    method PruneAudit(keep: nat) returns (removed: nat)
      requires Valid()
      modifies this`audit
      ensures Valid() && removed <= |old(audit)|
      ensures audit == old(audit)[removed..] && |audit| <= keep
      ensures forall i :: 0 <= i < removed ==> old(audit)[i].id + keep <= old(audit)[|old(audit)| - 1].id
      ensures forall i :: 0 <= i < |audit| ==> audit[i].id + keep > audit[|audit| - 1].id
    {
      removed := 0;
      if audit == [] { return; }
      var newest := audit[|audit| - 1].id;
      while removed < |audit| && audit[removed].id + keep <= newest
        invariant 0 <= removed <= |audit|
        invariant forall i :: 0 <= i < removed ==> audit[i].id + keep <= newest
      {
        removed := removed + 1;
      }
      IdsSpread(audit[removed..]);
      audit := audit[removed..];
    }
  }

  lemma SmallerMap<K, V>(a: map<K, V>, b: map<K, V>)
    requires a.Keys <= b.Keys
    ensures |a| <= |b|
  {
    SubsetSize(a.Keys, b.Keys);
  }

  /** Growing ids are at least as far apart as their positions. */
  lemma {:induction false} IdsSpread(rows: seq<AuditRow>)
    requires forall i, j :: 0 <= i < j < |rows| ==> rows[i].id < rows[j].id
    ensures |rows| > 0 ==> rows[0].id + |rows| <= rows[|rows| - 1].id + 1
  {
    if |rows| > 1 { IdsSpread(rows[1..]); }
  }
}
