/**
 * The module-level state of dashboard.py (`mqtt_client`, `running` and the
 * MongoDB `collection`) and the functions that act on it: the two broker
 * callbacks and the start / stop lifecycle of the client.
 */
module Dashboard {
  import opened Wrappers
  import opened Messages
  import opened Broker
  import opened Store

  /**
   * `on_connect`: subscribes to the temperature topic and then the smoke
   * topic when the return code is 0, and to nothing otherwise.
   */
  method OnConnect(client: Client, rc: int)
    modifies client
    ensures rc == 0 ==> client.calls == old(client.calls) + [Call.Subscribe(TopicTemperature), Call.Subscribe(TopicSmoke)]
    ensures rc != 0 ==> client.calls == old(client.calls)
    ensures client.onConnectSet == old(client.onConnectSet) && client.onMessageSet == old(client.onMessageSet)
  {
    if rc == 0 {
      client.Subscribe(TopicTemperature);
      client.Subscribe(TopicSmoke);
    }
  }

  /** The globals of dashboard.py; `T` is the timestamp type, `N` the number type. */
  class Globals<T, N> {
    var mqttClient: Client?
    var running: bool
    const collection: Collection<Record<T, N>>

    /** The collector is only ever marked running while it holds a client. */
    ghost predicate Valid()
      reads this
    {
      running ==> mqttClient != null
    }

    /** Module load: no client, not running, and the collection as given. */
    constructor (collection: Collection<Record<T, N>>)
      ensures Valid()
      ensures mqttClient == null && !running && this.collection == collection
    {
      mqttClient := null;
      running := false;
      this.collection := collection;
    }

    /**
     * `on_message`: builds the record step by step and inserts it unless
     * parsing raised; at most one insert per message, and exactly one when
     * nothing was raised.
     */
    method OnMessage(topic: string, message: string, now: T, toFloat: string -> Option<N>)
      returns (outcome: Result<Record<T, N>, ParseError>)
      modifies collection
      ensures outcome == Handle(topic, message, now, toFloat)
      ensures outcome.Success? ==> collection.docs == old(collection.docs) + [outcome.value]
      ensures outcome.Failure? ==> collection.docs == old(collection.docs)
    {
      var data: Record<T, N> := map[KeyTimestamp := Time(now)];
      if topic == TopicTemperature {
        var temperature := ParseValue(message, toFloat);
        if temperature.Failure? {
          return Failure(temperature.error);
        }
        data := data[KeyTemperature := Number(temperature.value)];
      } else if topic == TopicSmoke {
        var smoke := ParseValue(message, toFloat);
        if smoke.Failure? {
          return Failure(smoke.error);
        }
        data := data[KeySmoke := Number(smoke.value)];
      }
      collection.InsertOne(data);
      outcome := Success(data);
    }

    /**
     * `start_mqtt`: a fresh client replaces whatever was held, gets both
     * callbacks and connects. When `connect` raises, the new client stays
     * assigned, the loop is never started and `running` keeps its value;
     * otherwise the loop is started and only then is `running` set.
     */
    method StartMqtt(reachable: bool) returns (ok: bool)
      requires Valid()
      modifies this
      ensures Valid()
      ensures ok == reachable
      ensures mqttClient != null && fresh(mqttClient)
      ensures mqttClient.onConnectSet && mqttClient.onMessageSet
      ensures mqttClient.calls == [Call.Connect(BrokerAddress, BrokerPort, KeepAlive)] + (if ok then [Call.LoopStart] else [])
      ensures running == (ok || old(running))
    {
      var client := new Client();
      mqttClient := client;
      client.onConnectSet := true;
      client.onMessageSet := true;
      ok := client.Connect(BrokerAddress, BrokerPort, KeepAlive, reachable);
      if !ok {
        return;
      }
      client.LoopStart();
      running := true;
    }

    /**
     * `stop_mqtt`: with no client it does nothing; otherwise it stops the
     * loop, disconnects, and clears both globals, so a second call does
     * nothing.
     */
    method StopMqtt()
      requires Valid()
      modifies this, mqttClient
      ensures Valid()
      ensures mqttClient == null
      ensures old(mqttClient) == null ==> running == old(running) && !running
      ensures old(mqttClient) != null ==>
                && !running
                && old(mqttClient).calls == old(mqttClient.calls) + [Call.LoopStop, Call.Disconnect]
                && old(mqttClient).onConnectSet == old(mqttClient.onConnectSet)
                && old(mqttClient).onMessageSet == old(mqttClient.onMessageSet)
    {
      if mqttClient != null {
        mqttClient.LoopStop();
        mqttClient.Disconnect();
        mqttClient := null;
        running := false;
      }
    }

    /**
     * `collect_data`: start, then (after the sleep) stop. `client` is the
     * client that `start_mqtt` created: on success it is loop-stopped and
     * disconnected and the globals are cleared; a `connect` that raises
     * propagates out before `stop_mqtt` runs, leaving that client held.
     */
    method CollectData(reachable: bool) returns (ok: bool, ghost client: Client)
      requires Valid()
      modifies this
      ensures Valid()
      ensures ok == reachable
      ensures fresh(client) && client.onConnectSet && client.onMessageSet
      ensures client.calls == [Call.Connect(BrokerAddress, BrokerPort, KeepAlive)]
                              + (if ok then [Call.LoopStart, Call.LoopStop, Call.Disconnect] else [])
      ensures ok ==> mqttClient == null && !running
      ensures !ok ==> mqttClient == client && running == old(running)
    {
      ok := StartMqtt(reachable);
      client := mqttClient;
      if ok {
        StopMqtt();
      }
    }
  }
}
