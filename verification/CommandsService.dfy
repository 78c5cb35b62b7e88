/**
 * The command service object over the command tables and the gateway. `dispatch` is cut at its awaits;
 * every method is a step of Commands.
 */
module CommandsService {
  import opened Commands
  import Wire = CommandWire

  /** The next process, built over the tables the last one left, boots into the state that follows there. */
  lemma RestartIsBoot(t: Texts, s: State, next: State, sweepOk: bool)
    requires Inv(t, s) && !s.up
    requires next == State(false, s.rows, s.results, s.events, map[], Wire.Fresh(s.wire.now), s.heard)
    ensures Apply(t, next, Boot(sweepOk)) == Apply(t, s, Boot(sweepOk))
  {
  }

  class Service {
    const texts: Texts
    const mqtt: Wire.MqttService
    var up: bool
    var rows: map<string, Row>
    var results: map<string, Verdict>
    var events: seq<Event>
    var flights: map<string, Flight>
    ghost var heard: seq<Wire.Response>

    ghost function Model(): State
      reads this, mqtt
    {
      State(up, rows, results, events, flights, mqtt.Model(), heard)
    }

    /** A new process with its own gateway, over the tables and the published events as it finds them. */
    constructor (texts: Texts, mqtt: Wire.MqttService, rows: map<string, Row>, results: map<string, Verdict>,
                 events: seq<Event>, ghost heard: seq<Wire.Response>)
      ensures Model() == State(false, rows, results, events, map[], mqtt.Model(), heard)
      ensures this.texts == texts && this.mqtt == mqtt
    {
      this.texts, this.mqtt := texts, mqtt;
      this.rows, this.results, this.events := rows, results, events;
      up, flights := false, map[];
      this.heard := heard;
    }

    /** The process stops or dies: what runs in memory is gone, the tables stay. */
    method Stop()
      requires up
      modifies this`up, this`flights
      ensures Model() == Apply(texts, old(Model()), Crash)
    {
      up := false;
      flights := map[];
    }

    /** A new process: its gateway holds nothing yet. A failed sweep is logged and swallowed. */
    method OnModuleInit(sweepOk: bool)
      requires !up && mqtt.Model() == Wire.Fresh(mqtt.now)
      modifies this`up, this`rows
      ensures Model() == Apply(texts, old(Model()), Boot(sweepOk))
    {
      up := true;
      if sweepOk {
        rows := map id | id in rows :: if rows[id].status.Pending? then rows[id].(status := TimedOut) else rows[id];
      }
    }

    /** `dispatch` up to the save of the new row; an unknown device is refused before anything is written. */
    method Dispatch(registered: bool, id: string, correlation: string, timeoutMs: nat, replied: bool)
      returns (found: bool)
      requires Enabled(Model(), Insert(id, correlation, timeoutMs, replied)) && id !in flights
      modifies this`rows, this`flights
      ensures found == registered
      ensures Model() == if registered then Apply(texts, old(Model()), Insert(id, correlation, timeoutMs, replied))
                         else old(Model())
    {
      if !registered {
        return false;
      }
      rows := rows[id := Row(Pending, correlation, timeoutMs)];
      if replied {
        flights := flights[id := Inserted];
      }
      return true;
    }

    /** The row is saved: announce the command, then hand it to the gateway. */
    method RowSaved(id: string, topicOk: bool, published: bool)
      requires Enabled(Model(), Send(id, topicOk, published))
      modifies this`events, this`flights, mqtt
      ensures Model() == Apply(texts, old(Model()), Send(id, topicOk, published))
    {
      events := events + [Created(id, rows[id].correlation)];
      var call := mqtt.SendCommand(id, rows[id].timeoutMs, topicOk, published);
      flights := flights[id := Awaiting(call)];
    }

    method ClassifyResponse(response: Verdict) returns (status: Status)
      ensures status == Classify(texts, response)
      ensures status.Succeeded? <==> response.ok
      ensures !status.Pending?
    {
      if response.ok {
        return Succeeded;
      }
      var denial := texts.denied(response.text);
      if denial {
        return Rejected;
      }
      var timeout := texts.mentionsTimeout(response.text);
      if timeout {
        return TimedOut;
      }
      return Failed;
    }

    /** The promise has settled: the `catch` of `dispatch`, then `resolveOutcome` up to its first save. */
    method PromiseSettled(id: string, replied: bool)
      requires Enabled(Model(), SaveStatus(id, replied))
      modifies this`rows, this`flights
      ensures Model() == Apply(texts, old(Model()), SaveStatus(id, replied))
    {
      var call := mqtt.calls[flights[id].call];
      var response: Verdict;
      match call.outcome.value {
        case Answered(j) => response := Verdict(mqtt.arrivals[j].ok, mqtt.arrivals[j].result);
        case TimedOut => response := Verdict(false, texts.describe(call.id, call.outcome.value));
        case SendFailed => response := Verdict(false, texts.describe(call.id, call.outcome.value));
        case NotConnected => response := Verdict(false, texts.describe(call.id, call.outcome.value));
        case AlreadyInFlight => response := Verdict(false, texts.describe(call.id, call.outcome.value));
        case BadTopic => response := Verdict(false, texts.describe(call.id, call.outcome.value));
      }
      var status := ClassifyResponse(response);
      rows := rows[id := rows[id].(status := status)];
      flights := if replied then flights[id := StatusSaved(response)] else flights - {id};
    }

    method StatusWritten(id: string, replied: bool)
      requires Enabled(Model(), SaveResult(id, replied))
      modifies this`results, this`flights
      ensures Model() == Apply(texts, old(Model()), SaveResult(id, replied))
    {
      var response := flights[id].verdict;
      results := results[id := response];
      flights := if replied then flights[id := ResultSaved(response)] else flights - {id};
    }

    method ResultWritten(id: string)
      requires Enabled(Model(), Complete(id))
      modifies this`events, this`flights
      ensures Model() == Apply(texts, old(Model()), Complete(id))
    {
      var response := flights[id].verdict;
      var status := ClassifyResponse(response);
      events := events + [Completed(id, rows[id].correlation, status, response.ok)];
      flights := flights - {id};
    }
  }
}
