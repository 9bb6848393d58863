/** Output devices as discovered and as shown. */
module Outputs {
  import opened Wrappers

  datatype Kind = Soundcard | Airplay | Chromecast

  datatype Device = Device(kind: Kind, id: string, name: string, addr: Option<string>, port: Option<u16>)

  datatype Available = Available(soundcard: seq<Device>, airplay: seq<Device>, chromecast: seq<Device>)

  function Listing(available: Available, kind: Kind): seq<Device> {
    match kind
    case Soundcard => available.soundcard
    case Airplay => available.airplay
    case Chromecast => available.chromecast
  }

  /** Every listed device is of the kind it is listed under. */
  ghost predicate WellKinded(available: Available) {
    forall kind, i | 0 <= i < |Listing(available, kind)| :: Listing(available, kind)[i].kind == kind
  }

  function FirstWithId(devices: seq<Device>, id: string): Option<Device> {
    if devices == [] then None
    else if devices[0].id == id then Some(devices[0])
    else FirstWithId(devices[1..], id)
  }

  function FindDevice(available: Available, kind: Kind, id: string): Option<Device> {
    FirstWithId(Listing(available, kind), id)
  }

  lemma {:induction false} FirstWithIdIsListed(devices: seq<Device>, id: string)
    ensures match FirstWithId(devices, id)
      case Some(d) => d.id == id && exists i :: 0 <= i < |devices| && devices[i] == d
      case None => forall i | 0 <= i < |devices| :: devices[i].id != id
  {
    if devices != [] && devices[0].id != id {
      FirstWithIdIsListed(devices[1..], id);
      match FirstWithId(devices[1..], id) {
        case Some(d) =>
          var i :| 0 <= i < |devices[1..]| && devices[1..][i] == d;
          assert devices[i + 1] == d;
        case None =>
          forall i | 0 <= i < |devices| ensures devices[i].id != id {
            if i > 0 {
              assert devices[i] == devices[1..][i - 1];
            }
          }
      }
    }
  }

  /** Device k is the first one with that id. */
  predicate FirstListed(devices: seq<Device>, id: string, k: nat) {
    k < |devices| && devices[k].id == id && forall i | 0 <= i < k :: devices[i].id != id
  }

  predicate NotListed(devices: seq<Device>, id: string) {
    forall i | 0 <= i < |devices| :: devices[i].id != id
  }

  lemma {:induction false} FirstWithIdIsFirst(devices: seq<Device>, id: string, k: nat)
    requires FirstListed(devices, id, k)
    ensures FirstWithId(devices, id) == Some(devices[k])
  {
    if k > 0 {
      FirstWithIdIsFirst(devices[1..], id, k - 1);
    }
  }

  lemma {:induction false} SomeFirst(devices: seq<Device>, id: string) returns (k: nat)
    requires !NotListed(devices, id)
    ensures FirstListed(devices, id, k)
  {
    k := 0;
    if devices[0].id != id {
      k := SomeFirst(devices[1..], id);
      k := k + 1;
    }
  }

  lemma NoneListed(devices: seq<Device>, id: string)
    ensures NotListed(devices, id) <==> FirstWithId(devices, id) == None
  {
    FirstWithIdIsListed(devices, id);
  }

  /** Looking up a device gives the first one listed under its kind with that id, and nothing exactly when none
      has it. */
  lemma FindDeviceIsFirst(available: Available, kind: Kind, id: string)
    ensures var devices := match kind case Soundcard => available.soundcard case Airplay => available.airplay
                                      case Chromecast => available.chromecast;
      && (FindDevice(available, kind, id) == None <==> NotListed(devices, id))
      && (!NotListed(devices, id) ==> exists k: nat :: FirstListed(devices, id, k))
      && forall k: nat | FirstListed(devices, id, k) :: FindDevice(available, kind, id) == Some(devices[k])
  {
    var devices := Listing(available, kind);
    NoneListed(devices, id);
    if !NotListed(devices, id) {
      var k := SomeFirst(devices, id);
    }
    hide FirstWithId, NotListed;
    forall k: nat | FirstListed(devices, id, k) ensures FindDevice(available, kind, id) == Some(devices[k]) {
      FirstWithIdIsFirst(devices, id, k);
    }
  }

  /** A device found under a kind has that kind and the id asked for. */
  lemma FoundDevice(available: Available, kind: Kind, id: string)
    requires WellKinded(available)
    ensures var d := FindDevice(available, kind, id); d.Some? ==> d.value.kind == kind && d.value.id == id
  {
    FirstWithIdIsListed(Listing(available, kind), id);
  }
}
