/**
 * The cloud-init drive creator (PVE.qemu.CloudInitCreatePanel and
 * PVE.qemu.CloudInitCreator): a bus selector that never offers virtio,
 * filled by usage, and the one-key request that adds the drive.
 */
module CloudInitCreator {
  import opened Js
  import opened ControllerSelector

  /** The config key the new drive gets: the preset confid when there is one, else controller and device id. */
  function DriveKey(confid: Value, values: Obj): string
  {
    if Truthy(confid) then ToStr(confid) else ToStr(Get(values, "controller")) + ToStr(Get(values, "deviceid"))
  }

  /** onGetValues: the drive is a cloud-init image on the chosen storage. */
  function CreateValues(confid: Value, values: Obj): (r: map<string, string>)
    ensures |r| == 1
    ensures Truthy(confid) ==> ToStr(confid) in r
    ensures !Truthy(confid) ==> ToStr(Get(values, "controller")) + ToStr(Get(values, "deviceid")) in r
    ensures forall k :: k in r ==> r[k] == ToStr(Get(values, "cdstorage")) + ":cloudinit"
  {
    map[DriveKey(confid, values) := ToStr(Get(values, "cdstorage")) + ":cloudinit"]
  }

  /**
   * When the selector has found a free slot and the form submits it, the
   * new drive's key is that slot's, which the configuration does not hold:
   * no existing drive is replaced.
   */
  lemma NewDriveKeyIsFree(vmconfig: map<string, string>, c: string, i: nat, storage: string)
    requires DeviceIdError(vmconfig, c, NatToString(i)).None?
    ensures var r := CreateValues(Undefined, map["controller" := Str(c), "deviceid" := Num(i), "cdstorage" := Str(storage)]);
            r == map[SlotKey(c, i) := storage + ":cloudinit"] && SlotKey(c, i) !in vmconfig
  {
  }

  /** The input panel: the configuration it was given and its bus selector. */
  class CreatePanel {
    var vmconfig: map<string, string>
    const bussel: Selector

    constructor()
      ensures vmconfig == map[] && fresh(bussel) && bussel.Valid()
      ensures bussel.noVirtIO && !bussel.noScsi
    {
      vmconfig := map[];
      bussel := new Selector(true, false);
    }

    /**
     * setVMConfig: the selector picks by previous usage (autoSelect is
     * true, not 'cdrom'), so the drive is never put on virtio.
     */
    method SetVMConfig(config: map<string, string>, busMatch: BusMatch)
      requires bussel.Valid() && bussel.noVirtIO
      modifies this, bussel
      ensures bussel.Valid() && vmconfig == config && bussel.vmconfig == config
      ensures (bussel.controller, bussel.deviceid)
              == Selected(config, ByUsage, true, bussel.noScsi, busMatch, old(bussel.controller), old(bussel.deviceid))
      ensures bussel.controller != "virtio"
    {
      vmconfig := config;
      bussel.SetVMConfig(config, ByUsage, busMatch);
      UsageChoiceAllowed(config, true, bussel.noScsi, busMatch, old(bussel.controller), old(bussel.deviceid));
    }
  }
}
