/** The module-level state of the server (`busData`, `busStops`), the fetch
    cycle that replaces `busData` only when the whole cycle succeeds, and
    the one-time load of the stop list. */
module BusServer {
  import opened Common
  import opened GtfsFeed
  import opened BusExtraction
  import opened StopCatalog

  /** What one fetch cycle receives from the HTTP GET and the decoder. */
  datatype FetchOutcome =
    | FetchFailed               // `axios.get` rejected
    | DecodeFailed              // `FeedMessage.decode` threw
    | Decoded(message: FeedMessage)

  /** What the parser reports for the stop file. */
  datatype CsvOutcome = CsvFailed | CsvRows(rows: seq<Row>)

  /** The payload of one `busUpdate` emit. */
  datatype Payload = Payload(buses: seq<BusRecord>, busStops: seq<StopRecord>)

  /** The two module-level variables, as a value. */
  datatype Snapshot = Snapshot(busData: seq<BusRecord>, busStops: seq<StopRecord>)

  /** The bus list a cycle computes, or why it throws. */
  function CycleBuses(input: FetchOutcome): Result<seq<BusRecord>, CycleError>
  {
    match input
    case FetchFailed => Failure(FetchError)
    case DecodeFailed => Failure(DecodeError)
    case Decoded(m) => ExtractBuses(m)
  }

  /** One cycle on the state as a value: the new state and the emit, if any. */
  function Step(s: Snapshot, input: FetchOutcome): (r: (Snapshot, Option<Payload>))
    ensures r.0.busStops == s.busStops
    ensures r.1.Some? <==> CycleBuses(input).Success?
    ensures r.1.Some? ==> r.0.busData == CycleBuses(input).value && r.1.value == Payload(r.0.busData, s.busStops)
    ensures r.1.None? ==> r.0 == s
  {
    match CycleBuses(input)
    case Success(buses) => (Snapshot(buses, s.busStops), Some(Payload(buses, s.busStops)))
    case Failure(_) => (s, None)
  }

  /** A run of cycles, one after the other: the final state and the emits in order. */
  function Run(s: Snapshot, inputs: seq<FetchOutcome>): (Snapshot, seq<Payload>)
    decreases |inputs|
  {
    if inputs == [] then (s, [])
    else
      var step := Step(s, inputs[0]);
      var rest := Run(step.0, inputs[1..]);
      (rest.0, (if step.1.Some? then [step.1.value] else []) + rest.1)
  }

  /** The fetch cycles never write `busStops`, and every emit carries it. */
  lemma {:induction false} RunKeepsStops(s: Snapshot, inputs: seq<FetchOutcome>)
    ensures Run(s, inputs).0.busStops == s.busStops
    ensures forall p :: p in Run(s, inputs).1 ==> p.busStops == s.busStops
    ensures |Run(s, inputs).1| <= |inputs|
    decreases |inputs|
  {
    if inputs != [] {
      RunKeepsStops(Step(s, inputs[0]).0, inputs[1..]);
    }
  }

  /** Without a successful cycle nothing changes and nothing is emitted. */
  lemma {:induction false} RunAllFailed(s: Snapshot, inputs: seq<FetchOutcome>)
    requires forall j :: 0 <= j < |inputs| ==> CycleBuses(inputs[j]).Failure?
    ensures Run(s, inputs) == (s, [])
    decreases |inputs|
  {
    if inputs != [] {
      assert CycleBuses(inputs[0]).Failure?;
      forall k | 0 <= k < |inputs[1..]|
        ensures CycleBuses(inputs[1..][k]).Failure?
      {
        assert inputs[1..][k] == inputs[k + 1];
      }
      RunAllFailed(s, inputs[1..]);
      assert Step(s, inputs[0]) == (s, None);
      assert Run(s, inputs).0 == s && Run(s, inputs).1 == [];
    }
  }

  /** Last success wins: after a run, `busData` is the bus list of the last
      cycle that succeeded, and the last emit carried exactly that list. */
  lemma {:induction false} RunLastSuccessWins(s: Snapshot, inputs: seq<FetchOutcome>, j: nat)
    requires j < |inputs| && CycleBuses(inputs[j]).Success?
    requires forall k :: j < k < |inputs| ==> CycleBuses(inputs[k]).Failure?
    ensures Run(s, inputs).0.busData == CycleBuses(inputs[j]).value
    ensures |Run(s, inputs).1| > 0
    ensures Run(s, inputs).1[|Run(s, inputs).1| - 1] == Payload(CycleBuses(inputs[j]).value, s.busStops)
    decreases |inputs|
  {
    var next := Step(s, inputs[0]).0;
    if j == 0 {
      forall k | 0 <= k < |inputs[1..]|
        ensures CycleBuses(inputs[1..][k]).Failure?
      {
        assert inputs[1..][k] == inputs[k + 1];
      }
      RunAllFailed(next, inputs[1..]);
    } else {
      forall k | j - 1 < k < |inputs[1..]|
        ensures CycleBuses(inputs[1..][k]).Failure?
      {
        assert inputs[1..][k] == inputs[k + 1];
      }
      assert inputs[1..][j - 1] == inputs[j];
      RunLastSuccessWins(next, inputs[1..], j - 1);
    }
  }

  /** The server's module-level state. */
  class Server {
    var busData: seq<BusRecord>
    var busStops: seq<StopRecord>

    /** Both lists start empty. */
    constructor ()
      ensures busData == [] && busStops == []
    {
      busData := [];
      busStops := [];
    }

    function State(): Snapshot
      reads this
    {
      Snapshot(busData, busStops)
    }

    /** `parseCSV(...).then(...).catch(...)`: `busStops` is assigned the parsed
        list when parsing succeeds and is left alone when it fails. */
    method LoadStops(csv: CsvOutcome, parseFloat: Option<string> -> Number)
      modifies this
      ensures busData == old(busData)
      ensures csv.CsvFailed? ==> busStops == old(busStops)
      ensures csv.CsvRows? ==> |busStops| == |csv.rows|
      ensures csv.CsvRows? ==> forall i :: 0 <= i < |csv.rows| ==> busStops[i] == StopOf(csv.rows[i], parseFloat)
    {
      match csv
      case CsvFailed =>
      case CsvRows(rows) =>
        var stops := CollectStops(rows, parseFloat);
        busStops := stops;
    }

    /** `fetchBusData`: on success `busData` is replaced wholesale and the
        returned payload is the one emit; on any failure the state is kept
        and nothing is emitted. `busStops` is never written. */
    method FetchBusData(input: FetchOutcome) returns (emitted: Option<Payload>)
      modifies this
      ensures busStops == old(busStops)
      ensures CycleBuses(input).Failure? ==> busData == old(busData) && emitted == None
      ensures CycleBuses(input).Success? ==>
                busData == CycleBuses(input).value && emitted == Some(Payload(busData, busStops))
      ensures (State(), emitted) == Step(old(State()), input)
    {
      emitted := None;
      match input
      case FetchFailed =>
      case DecodeFailed =>
      case Decoded(message) =>
        var buses := ExtractBuses(message);
        if buses.Success? {
          busData := buses.value;
          emitted := Some(Payload(busData, busStops));
        }
    }
  }

  /** The startup order of the source: the stop file is parsed once, then
      cycles run. A stop file that fails to parse leaves the stop list empty,
      and the cycles then emit empty stop lists. */
  method Startup(csv: CsvOutcome, parseFloat: Option<string> -> Number, input: FetchOutcome)
    returns (server: Server, emitted: Option<Payload>)
    ensures fresh(server)
    ensures csv.CsvFailed? ==> server.busStops == []
    ensures csv.CsvFailed? && emitted.Some? ==> emitted.value.busStops == []
    ensures csv.CsvRows? ==> |server.busStops| == |csv.rows|
    ensures csv.CsvRows? ==> forall i :: 0 <= i < |csv.rows| ==> server.busStops[i] == StopOf(csv.rows[i], parseFloat)
    ensures (server.State(), emitted) == Step(Snapshot([], server.busStops), input)
    ensures emitted.Some? <==> CycleBuses(input).Success?
    ensures CycleBuses(input).Failure? ==> server.busData == []
  {
    server := new Server();
    server.LoadStops(csv, parseFloat);
    emitted := server.FetchBusData(input);
  }
}
