/** The admin interface of the config-drive scheme. */
module ConfigdriveProperties {
  import opened Wrappers
  import opened NailgunLayout

  /** The interfaces with the chosen MAC address keep their order: the
      first of them is the first interface, in dictionary order, with that
      address. */
  lemma {:induction false} InterfacesWithMacFirst(ifaces: seq<Interface>, mac: string, i: int)
    requires 0 <= i < |ifaces| && ifaces[i].macAddress == mac
    requires forall j :: 0 <= j < i ==> ifaces[j].macAddress != mac
    ensures InterfacesWithMac(ifaces, mac) != []
    ensures InterfacesWithMac(ifaces, mac)[0] == ifaces[i]
  {
    if i > 0 {
      InterfacesWithMacFirst(ifaces[1..], mac, i - 1);
    }
  }

  /** The admin interface is the first interface, in dictionary order,
      whose MAC address is the chosen one. */
  lemma AdminInterfaceFirst(ifaces: seq<Interface>, chooseMac: string)
    ensures AdminInterface(ifaces, chooseMac).Ok? ==>
              exists i :: && 0 <= i < |ifaces|
                          && ifaces[i] == AdminInterface(ifaces, chooseMac).value
                          && ifaces[i].macAddress == chooseMac
                          && forall j :: 0 <= j < i ==> ifaces[j].macAddress != chooseMac
  {
    if exists i :: 0 <= i < |ifaces| && ifaces[i].macAddress == chooseMac {
      var i := First(ifaces, chooseMac);
      InterfacesWithMacFirst(ifaces, chooseMac, i);
    }
  }

  /** The least index of an interface with MAC address `mac`. */
  lemma First(ifaces: seq<Interface>, mac: string) returns (i: int)
    requires exists i :: 0 <= i < |ifaces| && ifaces[i].macAddress == mac
    ensures 0 <= i < |ifaces| && ifaces[i].macAddress == mac
    ensures forall j :: 0 <= j < i ==> ifaces[j].macAddress != mac
  {
    i := 0;
    while ifaces[i].macAddress != mac
      invariant 0 <= i < |ifaces|
      invariant forall j :: 0 <= j < i ==> ifaces[j].macAddress != mac
      decreases |ifaces| - i
    {
      i := i + 1;
    }
  }
}
