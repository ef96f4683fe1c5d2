/**
 * The bus type combo box (PVE.form.BusTypeSelector): the controllers a disk
 * may be attached to, each with its display label.
 */
module BusTypeSelector {
  import ControllerSelector

  /** The controller names of a list of (value, label) pairs. */
  function Values(data: seq<(string, string)>): (r: seq<string>)
    ensures |r| == |data| && forall i :: 0 <= i < |data| ==> r[i] == data[i].0
  {
    if data == [] then [] else [data[0].0] + Values(data[1..])
  }

  /**
   * The store data of the combo box: ide and sata always, then virtio
   * unless it is excluded, then scsi unless it is excluded.
   */
  function BusData(noVirtIO: bool, noScsi: bool): seq<(string, string)>
  {
    [("ide", "IDE"), ("sata", "SATA")]
    + (if noVirtIO then [] else [("virtio", "VIRTIO")])
    + (if noScsi then [] else [("scsi", "SCSI")])
  }

  /** initComponent's store: the fixed entries, then each optional one unless excluded. */
  method BusTypes(noVirtIO: bool, noScsi: bool) returns (data: seq<(string, string)>)
    ensures data == BusData(noVirtIO, noScsi)
  {
    data := [("ide", "IDE"), ("sata", "SATA")];
    if !noVirtIO {
      data := data + [("virtio", "VIRTIO")];
    }
    if !noScsi {
      data := data + [("scsi", "SCSI")];
    }
  }

  /**
   * IDE and SATA come first, VIRTIO and SCSI are there exactly when not
   * excluded, VIRTIO before SCSI, and no controller twice.
   */
  lemma BusDataFacts(noVirtIO: bool, noScsi: bool)
    ensures var data := BusData(noVirtIO, noScsi);
            && |data| == 2 + (if noVirtIO then 0 else 1) + (if noScsi then 0 else 1)
            && data[..2] == [("ide", "IDE"), ("sata", "SATA")]
            && (("virtio", "VIRTIO") in data <==> !noVirtIO)
            && (("scsi", "SCSI") in data <==> !noScsi)
            && (forall i, j :: 0 <= i < j < |data| ==> data[i].0 != data[j].0)
            && (forall i, j :: 0 <= i < |data| && 0 <= j < |data| && data[i].0 == "virtio" && data[j].0 == "scsi" ==> i < j)
  {
    var data := BusData(noVirtIO, noScsi);
    ControllerSelector.ControllerNamesDistinct();
    ValuesOfBusData(noVirtIO, noScsi);
    var names := Values(data);
    assert forall i :: 0 <= i < |data| ==> data[i].0 == names[i];
    if noVirtIO && noScsi {
      assert names == ["ide", "sata"];
    } else if noVirtIO {
      assert names == ["ide", "sata", "scsi"];
    } else if noScsi {
      assert names == ["ide", "sata", "virtio"];
    } else {
      assert names == ["ide", "sata", "virtio", "scsi"];
    }
  }

  /** The store offers the same controllers the controller selector may pick from. */
  lemma BusDataControllers(noVirtIO: bool, noScsi: bool)
    ensures forall c :: c in Values(BusData(noVirtIO, noScsi)) <==>
              c in ControllerSelector.Candidates(ControllerSelector.AllControllers, noVirtIO, noScsi)
  {
    ControllerSelector.AllCandidates(noVirtIO, noScsi);
    ValuesOfBusData(noVirtIO, noScsi);
  }

  /** The controller names of the store, in order. */
  lemma ValuesOfBusData(noVirtIO: bool, noScsi: bool)
    ensures Values(BusData(noVirtIO, noScsi))
              == ["ide", "sata"] + (if noVirtIO then [] else ["virtio"]) + (if noScsi then [] else ["scsi"])
  {
    var data := BusData(noVirtIO, noScsi);
    var names := ["ide", "sata"] + (if noVirtIO then [] else ["virtio"]) + (if noScsi then [] else ["scsi"]);
    assert |Values(data)| == |names|;
    forall i | 0 <= i < |names|
      ensures Values(data)[i] == names[i]
    {
    }
  }
}
