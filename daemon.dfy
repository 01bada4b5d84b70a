/**
 * The base interface of the daemon (src/lib.rs): the capability list
 * assembled at start-up from the two backend probes, and the client
 * registry kept by `RegisterClient` / `UnregisterClient`.
 */
module Daemon {

  /** The version `APIVersion` replies with. */
  const ApiVersion: string := "1.0.1"

  /** The position of each feature in the capability list. */
  function FeatureRank(feature: string): nat {
    if feature == "WiFi" then 0 else if feature == "Bluetooth" then 1 else 2
  }

  /**
   * The feature list of `run_daemon`: `wifiEnabled` and `bluetoothEnabled`
   * are the outcomes of introspecting NetworkManager and bluez. "Audio" is
   * always present, and the order is WiFi, Bluetooth, Audio.
   */
  method FeatureList(wifiEnabled: bool, bluetoothEnabled: bool) returns (features: seq<string>)
    ensures "WiFi" in features <==> wifiEnabled
    ensures "Bluetooth" in features <==> bluetoothEnabled
    ensures |features| > 0 && features[|features| - 1] == "Audio"
    ensures forall f :: f in features ==> f == "WiFi" || f == "Bluetooth" || f == "Audio"
    ensures forall i, j :: 0 <= i < j < |features| ==> FeatureRank(features[i]) < FeatureRank(features[j])
  {
    features := [];
    if wifiEnabled {
      features := features + ["WiFi"];
    }
    if bluetoothEnabled {
      features := features + ["Bluetooth"];
    }
    features := features + ["Audio"];
  }

  /** The handlers of the base interface with the state they share. */
  class BaseInterface {
    const features: seq<string>
    var clients: map<string, nat>

    constructor (features: seq<string>)
      ensures this.features == features && clients == map[]
    {
      this.features := features;
      clients := map[];
    }

    /** `GetCapabilities`: the feature list, unchanged. */
    method GetCapabilities() returns (capabilities: seq<string>)
      ensures capabilities == features
    {
      capabilities := features;
    }

    /** `APIVersion` */
    method APIVersion() returns (version: string)
      ensures version == "1.0.1"
    {
      version := ApiVersion;
    }

    /**
     * `RegisterClient`: the name is mapped to the registry's size before the
     * call; the registry grows by one exactly when the name is new.
     */
    method RegisterClient(clientName: string) returns (result: bool)
      modifies this
      ensures result
      ensures clientName in clients && clients[clientName] == |old(clients)|
      ensures |clients| == if clientName in old(clients) then |old(clients)| else |old(clients)| + 1
      ensures forall other :: other != clientName ==>
        (other in clients <==> other in old(clients)) && (other in clients ==> clients[other] == old(clients)[other])
    {
      clients := clients[clientName := |clients|];
      result := true;
    }

    /** `UnregisterClient`: the name is gone and every other entry is as before. */
    method UnregisterClient(clientName: string) returns (result: bool)
      modifies this
      ensures result
      ensures clientName !in clients
      ensures |clients| == if clientName in old(clients) then |old(clients)| - 1 else |old(clients)|
      ensures forall other :: other != clientName ==>
        (other in clients <==> other in old(clients)) && (other in clients ==> clients[other] == old(clients)[other])
    {
      clients := clients - {clientName};
      result := true;
    }
  }
}
