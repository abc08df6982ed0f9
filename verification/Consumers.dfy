/** The acknowledging consumer's callbacks: `src/edge_evidence/paho_consumer.py`. The network client
    is the caller; what it answers to `subscribe` and `ack` comes in as a result code. */
module Consumers {
  import opened Wrappers
  import opened Libraries
  import opened Logs
  import opened Ledgers
  import opened Mqtt
  import opened Deliveries
  import opened Runtimes

  const SUCCESS := 0

  datatype CallbackError =
    | SubscribeFailed(result: int)
    | AckFailed(result: int)
    | ProcessingFailed

  class PahoMqttConsumer {
    const runtime: MqttIngestionRuntime
    var connected: bool
    var everConnected: bool
    var connectionFailures: nat
    var callbackErrors: seq<CallbackError>
    var lastDelivery: Option<Delivery>

    constructor (runtime: MqttIngestionRuntime)
      ensures this.runtime == runtime
      ensures !connected && !everConnected && connectionFailures == 0
      ensures callbackErrors == [] && lastDelivery == None
    {
      this.runtime := runtime;
      connected, everConnected, connectionFailures := false, false, 0;
      callbackErrors, lastDelivery := [], None;
    }

    /** `_on_connect`: subscribe when the broker kept no session, then count a reconnection. */
    method OnConnect(reasonCode: int, sessionPresent: bool, subscribeResult: int) returns (subscribed: bool)
      modifies this, runtime.metrics
      ensures subscribed <==> reasonCode == 0 && !sessionPresent
      ensures runtime.metrics.View() == old(runtime.metrics.View())
      ensures runtime.metrics.disconnects == old(runtime.metrics.disconnects)
      ensures connectionFailures == old(connectionFailures) + (if reasonCode != 0 then 1 else 0)
      ensures lastDelivery == old(lastDelivery)
      ensures var established := reasonCode == 0 && (sessionPresent || subscribeResult == SUCCESS);
              && connected == (old(connected) || established)
              && everConnected == (old(everConnected) || established)
              && runtime.metrics.reconnects
              == old(runtime.metrics.reconnects) + (if established && old(everConnected) then 1 else 0)
              && callbackErrors
              == old(callbackErrors)
                + (if reasonCode == 0 && !established then [SubscribeFailed(subscribeResult)] else [])
    {
      subscribed := false;
      if reasonCode != 0 {
        connectionFailures := connectionFailures + 1;
        return;
      }
      if !sessionPresent {
        subscribed := true;
        if subscribeResult != SUCCESS {
          callbackErrors := callbackErrors + [SubscribeFailed(subscribeResult)];
          return;
        }
      }
      if everConnected {
        runtime.RecordReconnect();
      }
      everConnected, connected := true, true;
    }

    /** `_on_connect_fail`. */
    method OnConnectFail()
      modifies this`connectionFailures
      ensures connectionFailures == old(connectionFailures) + 1
    {
      connectionFailures := connectionFailures + 1;
    }

    /** `_on_disconnect`: only an unexpected one is counted. */
    method OnDisconnect(reasonCode: int)
      modifies this`connected, runtime.metrics
      ensures !connected
      ensures runtime.metrics.View() == old(runtime.metrics.View())
      ensures runtime.metrics.reconnects == old(runtime.metrics.reconnects)
      ensures runtime.metrics.disconnects == old(runtime.metrics.disconnects) + (if reasonCode != 0 then 1 else 0)
    {
      connected := false;
      if reasonCode != 0 {
        runtime.RecordDisconnect();
      }
    }

    /** `_on_message`: acknowledge only after the runtime has answered. A message acknowledged as
        accepted or duplicate has its row in the ledger; one whose processing raised stays unacknowledged. */
    method OnMessage(m: Message, qos: nat, now: Instant, ackResult: int) returns (acked: bool)
      requires runtime.ledger.Valid()
      modifies this`callbackErrors, this`lastDelivery, runtime.metrics, runtime.ledger
      ensures runtime.ledger.Valid() && old(runtime.ledger.rows) <= runtime.ledger.rows
      ensures runtime.ledger.log == LogAfter(runtime.ledger.lib, old(runtime.ledger.log), m, now)
      ensures var d := Deliver(runtime.ledger.lib, old(runtime.ledger.log), m, now);
              && acked == (qos > 0 && !d.Raised?)
              && (acked && (d.AcceptedAt? || d.DuplicateOf?) ==>
                    && 1 <= d.ordinal <= |runtime.ledger.log|
                    && runtime.ledger.log[d.ordinal - 1].eventId == d.eventId)
              && lastDelivery == (if d.Raised? || (acked && ackResult != SUCCESS) then old(lastDelivery) else Some(d))
              && callbackErrors == old(callbackErrors)
                 + (if d.Raised? then [ProcessingFailed]
                    else if acked && ackResult != SUCCESS then [AckFailed(ackResult)] else [])
              && runtime.metrics.View()
              == Tally(old(runtime.metrics.View()).(received := old(runtime.metrics.View()).received + 1), d)
    {
      hide MqttToEvent, LogOk, Deliver, LogAfter, Stores;
      DeliveryNamesRow(runtime.ledger.lib, runtime.ledger.log, m, now);
      acked := false;
      var delivery := runtime.Ingest(m, now);
      if delivery.Raised? {
        callbackErrors := callbackErrors + [ProcessingFailed];
        return;
      }
      if qos > 0 {
        acked := true;
        if ackResult != SUCCESS {
          callbackErrors := callbackErrors + [AckFailed(ackResult)];
          return;
        }
      }
      lastDelivery := Some(delivery);
    }
  }
}
