/**
 * The paho MQTT client as a recorder of the calls dashboard.py makes on it.
 * The network, the background loop thread and the broker itself are not
 * modelled; whether `connect` gets through is an input.
 */
module Broker {

  const BrokerAddress: string := "34.60.16.6"
  const BrokerPort: int := 1883
  const KeepAlive: int := 60

  /** One call made on the client. */
  datatype Call =
    | Connect(host: string, port: int, keepalive: int)
    | LoopStart
    | LoopStop
    | Disconnect
    | Subscribe(topic: string)

  class Client {
    /** Every call made on this client, oldest first. */
    var calls: seq<Call>
    /** Whether the `on_connect` and `on_message` attributes have been assigned. */
    var onConnectSet: bool
    var onMessageSet: bool

    /** `mqtt.Client()`. */
    constructor ()
      ensures calls == [] && !onConnectSet && !onMessageSet
    {
      calls := [];
      onConnectSet, onMessageSet := false, false;
    }

    /**
     * `client.connect(host, port, keepalive)`; `reachable` says whether the
     * broker accepts the connection, and `ok` is false exactly when the call
     * raises.
     */
    method Connect(host: string, port: int, keepalive: int, reachable: bool) returns (ok: bool)
      modifies this
      ensures ok == reachable
      ensures calls == old(calls) + [Call.Connect(host, port, keepalive)]
      ensures onConnectSet == old(onConnectSet) && onMessageSet == old(onMessageSet)
    {
      calls := calls + [Call.Connect(host, port, keepalive)];
      ok := reachable;
    }

    method LoopStart()
      modifies this
      ensures calls == old(calls) + [Call.LoopStart]
      ensures onConnectSet == old(onConnectSet) && onMessageSet == old(onMessageSet)
    {
      calls := calls + [Call.LoopStart];
    }

    method LoopStop()
      modifies this
      ensures calls == old(calls) + [Call.LoopStop]
      ensures onConnectSet == old(onConnectSet) && onMessageSet == old(onMessageSet)
    {
      calls := calls + [Call.LoopStop];
    }

    method Disconnect()
      modifies this
      ensures calls == old(calls) + [Call.Disconnect]
      ensures onConnectSet == old(onConnectSet) && onMessageSet == old(onMessageSet)
    {
      calls := calls + [Call.Disconnect];
    }

    method Subscribe(topic: string)
      modifies this
      ensures calls == old(calls) + [Call.Subscribe(topic)]
      ensures onConnectSet == old(onConnectSet) && onMessageSet == old(onMessageSet)
    {
      calls := calls + [Call.Subscribe(topic)];
    }
  }
}
