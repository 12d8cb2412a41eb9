/** The decoded per-VM configuration, as far as the modelled components read it.
    An absent device list and an empty one are treated alike by every reader, so
    both are the empty sequence here. */
module Config {
  import opened Prelude

  datatype IsolationMode = Disabled | Audit | Enforce

  datatype IsolationLevel = Dedicated | SharedWithHost | Forbidden

  datatype DeviceCfg = DeviceCfg(address: string, required: bool, level: Option<IsolationLevel>)

  datatype Policy = Policy(
    mode: IsolationMode,
    defaultLevel: IsolationLevel,
    requireIommuExclusive: bool,
    requireMultifunctionConsistency: bool,
    forbidHostCriticalInGroup: bool)

  datatype Devices = Devices(
    gpu: seq<DeviceCfg>,
    nvme: seq<DeviceCfg>,
    nic: seq<DeviceCfg>,
    usb: seq<DeviceCfg>)
  {
    /** All configured devices, list by list. */
    function All(): seq<DeviceCfg> {
      gpu + nvme + nic + usb
    }
  }

  /** The four lists, and nothing else. */
  lemma AllAre(d: Devices, c: DeviceCfg)
    ensures c in d.All() <==> c in d.gpu || c in d.nvme || c in d.nic || c in d.usb
    ensures |d.All()| == |d.gpu| + |d.nvme| + |d.nic| + |d.usb|
  {}

  datatype VmConfig = VmConfig(devices: Devices, isolation: Policy, numaNode: Option<nat>)
}
