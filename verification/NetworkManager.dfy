/** The part of NetworkManager the gateway relies on: device settings, checkpoints that
    restore them, and a clock that fires the checkpoints. It is the environment of the
    confirm-or-revert protocol, not code of the repository. */
module NetworkManager {
  import opened Clock
  import opened NetworkConfig

  /** What a checkpoint saves of a device: its stored profile and the settings in force. */
  datatype DeviceState = DeviceState(profile: Settings, active: Settings)

  datatype Checkpoint = Checkpoint(device: string, saved: DeviceState, expiry: nat)

  /** `next` numbers the checkpoint paths, which are never reused. */
  datatype Nm = Nm(
    now: nat,
    devices: map<string, DeviceState>,
    live: map<nat, Checkpoint>,
    next: nat)

  ghost predicate Covers(nm: Nm, id: nat, device: string) {
    id in nm.live && nm.live[id].device == device
  }

  ghost predicate Covered(nm: Nm, device: string) {
    exists id :: Covers(nm, id, device)
  }

  /** CheckpointCreate with flags 0 is refused on a device that is already covered. */
  function CreateCheckpoint(nm: Nm, device: string, seconds: nat): Nm
    requires device in nm.devices
  {
    nm.(live := nm.live[nm.next := Checkpoint(device, nm.devices[device], nm.now + seconds * SECOND)],
        next := nm.next + 1)
  }

  /** CheckpointDestroy; on a checkpoint that is gone the call is an error. */
  function DestroyCheckpoint(nm: Nm, id: nat): Nm {
    nm.(live := nm.live - {id})
  }

  /** CheckpointRollback; on a checkpoint that is gone the call is an error. */
  function RollbackCheckpoint(nm: Nm, id: nat): Nm {
    if id in nm.live && nm.live[id].device in nm.devices then
      DestroyCheckpoint(nm, id).(devices := nm.devices[nm.live[id].device := nm.live[id].saved])
    else
      DestroyCheckpoint(nm, id)
  }

  /** Settings.Connection.Update on the device's profile. */
  function UpdateProfile(nm: Nm, device: string, settings: Settings): Nm
    requires device in nm.devices
  {
    nm.(devices := nm.devices[device := nm.devices[device].(profile := settings)])
  }

  /** ActivateConnection: the stored profile comes into force. */
  function ActivateProfile(nm: Nm, device: string): Nm
    requires device in nm.devices
  {
    nm.(devices := nm.devices[device := nm.devices[device].(active := nm.devices[device].profile)])
  }

  ghost predicate Due(nm: Nm, t: nat, device: string, id: nat) {
    Covers(nm, id, device) && nm.live[id].expiry <= t
  }

  ghost function AfterExpiry(nm: Nm, t: nat, device: string): DeviceState
    requires device in nm.devices
  {
    if exists id :: Due(nm, t, device, id) then
      var id :| Due(nm, t, device, id);
      nm.live[id].saved
    else
      nm.devices[device]
  }

  /** Time passes; a checkpoint is rolled back as soon as the clock reaches its expiry. */
  ghost function Advance(nm: Nm, dt: nat): Nm {
    var t := nm.now + dt;
    Nm(t,
       map device | device in nm.devices :: AfterExpiry(nm, t, device),
       map id | id in nm.live && nm.live[id].expiry > t :: nm.live[id],
       nm.next)
  }

  /** Checkpoints are numbered below `next`, sit on known devices, have not fired yet and
      never share a device. */
  ghost predicate WellFormed(nm: Nm) {
    && (forall id :: id in nm.live ==>
          id < nm.next && nm.live[id].device in nm.devices && nm.now < nm.live[id].expiry)
    && (forall i, j :: i in nm.live && j in nm.live && nm.live[i].device == nm.live[j].device ==> i == j)
  }

  lemma CreateKeepsWellFormed(nm: Nm, device: string, seconds: nat)
    requires WellFormed(nm) && device in nm.devices && !Covered(nm, device) && seconds > 0
    ensures WellFormed(CreateCheckpoint(nm, device, seconds))
  {
    forall id | id in nm.live ensures nm.live[id].device != device {
      assert !Covers(nm, id, device);
    }
  }

  lemma RollbackKeepsWellFormed(nm: Nm, id: nat)
    requires WellFormed(nm)
    ensures WellFormed(RollbackCheckpoint(nm, id)) && WellFormed(DestroyCheckpoint(nm, id))
    ensures RollbackCheckpoint(nm, id).devices.Keys == nm.devices.Keys
    ensures RollbackCheckpoint(nm, id).live == DestroyCheckpoint(nm, id).live
  {
  }

  /** Passing time touches no device whose checkpoint outlives it. */
  lemma AdvanceSparesCovered(nm: Nm, dt: nat, id: nat)
    requires WellFormed(nm) && id in nm.live && nm.now + dt < nm.live[id].expiry
    ensures Advance(nm, dt).devices[nm.live[id].device] == nm.devices[nm.live[id].device]
  {
    var device := nm.live[id].device;
    forall other | other in nm.live ensures !Due(nm, nm.now + dt, device, other) {
    }
  }
}
