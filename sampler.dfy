/**
 * The sampler side of the link (get_vcgen_data and run_client in
 * Clientkdk.py and ClientKDK2.py): build one telemetry record per
 * iteration, 1 to 50, and send its JSON encoding followed by one newline.
 * The vcgencmd calls and their parsing are an oracle `backend`; sending is
 * an oracle `sendOk` that says whether sendall succeeded.
 */
module Sampler {
  import opened Codec
  import opened Framing

  /** Number of samples one run sends. */
  const Iterations: nat := 50

  /**
   * The five parsed vcgencmd values (temperature already rounded). The
   * voltage is a document because the two samplers send it differently:
   * Clientkdk.py as a rounded number, ClientKDK2.py as the raw string.
   */
  datatype Reading = Reading(coreTempC: real, voltage: Json, clockArm: string, clockCore: string, throttled: string)

  /** What one acquisition yields: the values, or the text of the exception raised. */
  datatype Acquisition = Acquired(reading: Reading) | AcquireFailed(cause: string)

  /** How a run ends: all samples sent, or an exception caught by the outer handler. */
  datatype RunOutcome = Completed | ConnectionError

  /** The keys of a data-shaped record. */
  const DataKeys: set<string> := {"iteration", "core_temp_C", "voltage", "clock_arm", "clock_core", "throttled"}

  /** The keys of an error-shaped record. */
  const ErrorKeys: set<string> := {"error", "iteration"}

  /** A record carries the given sequence number. */
  predicate HasIteration(j: Json, iteration: int)
  {
    j.Object? && "iteration" in j.members && j.members["iteration"] == Int(iteration)
  }

  /** A data-shaped record: all data keys and no "error" key. */
  predicate IsDataShaped(j: Json)
  {
    j.Object? && DataKeys <= j.members.Keys && "error" !in j.members
  }

  /** An error-shaped record: exactly "error" and "iteration". */
  predicate IsErrorShaped(j: Json)
  {
    j.Object? && j.members.Keys == ErrorKeys
  }

  /** The record built from a successful acquisition. */
  function DataRecord(iteration: int, rd: Reading): Json
  {
    Object(map[
      "iteration" := Int(iteration),
      "core_temp_C" := Float(rd.coreTempC),
      "voltage" := rd.voltage,
      "clock_arm" := Str(rd.clockArm),
      "clock_core" := Str(rd.clockCore),
      "throttled" := Str(rd.throttled)])
  }

  /** The record built when the acquisition raised. */
  function ErrorRecord(iteration: int, cause: string): Json
  {
    Object(map["error" := Str(cause), "iteration" := Int(iteration)])
  }

  /**
   * get_vcgen_data on a Raspberry Pi: exactly the six data keys on success,
   * exactly "error" and "iteration" on failure, the iteration in both.
   */
  function PiRecord(acq: Acquisition, iteration: int): (r: Json)
    ensures HasIteration(r, iteration)
    ensures acq.Acquired? ==> r.members.Keys == DataKeys && r.members["core_temp_C"] == Float(acq.reading.coreTempC)
    ensures acq.Acquired? ==> r.members["voltage"] == acq.reading.voltage
    ensures acq.Acquired? ==> r.members["clock_arm"] == Str(acq.reading.clockArm)
    ensures acq.Acquired? ==> r.members["clock_core"] == Str(acq.reading.clockCore)
    ensures acq.Acquired? ==> r.members["throttled"] == Str(acq.reading.throttled)
    ensures acq.AcquireFailed? ==> r.members.Keys == ErrorKeys && r.members["error"] == Str(acq.cause)
  {
    match acq
    case Acquired(rd) => DataRecord(iteration, rd)
    case AcquireFailed(cause) => ErrorRecord(iteration, cause)
  }

  /** The fixed "NOTE" value of a simulated record. */
  const SimulatedNote: string := "Simulated values \U{2013} running on PC"

  /** get_vcgen_data on a PC: fixed values plus a "NOTE" key. */
  function SimulatedRecord(iteration: int): (r: Json)
    ensures HasIteration(r, iteration)
    ensures r.members.Keys == DataKeys + {"NOTE"}
    ensures r.members["core_temp_C"] == Float(42.0) && r.members["voltage"] == Float(1.20)
    ensures r.members["clock_arm"] == Str("frequency(45)=1500000000")
    ensures r.members["clock_core"] == Str("frequency(1)=500000000")
    ensures r.members["throttled"] == Str("throttled=0x0")
    ensures r.members["NOTE"] == Str(SimulatedNote)
  {
    Object(map[
      "iteration" := Int(iteration),
      "core_temp_C" := Float(42.0),
      "voltage" := Float(1.20),
      "clock_arm" := Str("frequency(45)=1500000000"),
      "clock_core" := Str("frequency(1)=500000000"),
      "throttled" := Str("throttled=0x0"),
      "NOTE" := Str(SimulatedNote)])
  }

  /** get_vcgen_data: the Pi branch or the simulated branch. */
  function GetVcgenData(onPi: bool, acq: Acquisition, iteration: int): (r: Json)
    ensures HasIteration(r, iteration)
    ensures IsErrorShaped(r) <==> onPi && acq.AcquireFailed?
    ensures IsDataShaped(r) <==> !(onPi && acq.AcquireFailed?)
  {
    if onPi then PiRecord(acq, iteration) else SimulatedRecord(iteration)
  }

  /**
   * The two shapes exclude each other for any document, so a collector never
   * sees a record that mixes data keys with an error.
   */
  lemma NeverMixed(j: Json)
    ensures !(IsDataShaped(j) && IsErrorShaped(j))
  {
    if IsErrorShaped(j) {
      assert "error" in ErrorKeys;
    }
  }

  /** The records of the first n iterations, the k-th carrying iteration k + 1. */
  function Records(onPi: bool, backend: nat -> Acquisition, n: nat): (rs: seq<Json>)
    ensures |rs| == n
  {
    seq(n, k requires 0 <= k < n => GetVcgenData(onPi, backend(k + 1), k + 1))
  }

  /**
   * The records are numbered 1, 2, ..., n in order, and a record is
   * error-shaped exactly when the backend failed at that iteration.
   */
  lemma RecordShapes(onPi: bool, backend: nat -> Acquisition, n: nat)
    ensures forall k :: 0 <= k < n ==> HasIteration(Records(onPi, backend, n)[k], k + 1)
    ensures forall k :: 0 <= k < n ==>
              (IsErrorShaped(Records(onPi, backend, n)[k]) <==> onPi && backend(k + 1).AcquireFailed?)
    ensures forall k :: 0 <= k < n ==>
              (IsDataShaped(Records(onPi, backend, n)[k]) <==> !(onPi && backend(k + 1).AcquireFailed?))
  {
    forall k | 0 <= k < n
      ensures Records(onPi, backend, n)[k] == GetVcgenData(onPi, backend(k + 1), k + 1)
    {
    }
  }

  /** One transmitted frame: the JSON text followed by a newline. */
  function Frame(enc: Json -> string, r: Json): string
  {
    enc(r) + "\n"
  }

  /** The frames of a sequence of records, one per record. */
  function Frames(enc: Json -> string, rs: seq<Json>): (fs: seq<string>)
    ensures |fs| == |rs|
  {
    seq(|rs|, k requires 0 <= k < |rs| => Frame(enc, rs[k]))
  }

  /**
   * A frame is exactly one line: reassembling it yields the encoding as the
   * one packet and leaves nothing in the buffer.
   */
  lemma FrameIsOneLine(enc: Json -> string, r: Json)
    requires '\n' !in enc(r)
    ensures Packets(Frame(enc, r)) == [enc(r)]
    ensures Tail(Frame(enc, r)) == ""
  {
    assert Frame(enc, r) == Join([enc(r)]) + "";
    DecomposeUnique([enc(r)], "", Frame(enc, r));
  }

  /** The frames of n iterations are those of n - 1, then frame n. */
  lemma FramesStep(onPi: bool, backend: nat -> Acquisition, enc: Json -> string, n: nat)
    requires n >= 1
    ensures Frames(enc, Records(onPi, backend, n))
         == Frames(enc, Records(onPi, backend, n - 1)) + [Frame(enc, GetVcgenData(onPi, backend(n), n))]
  {
    var longer, shorter := Records(onPi, backend, n), Records(onPi, backend, n - 1);
    assert longer[..n - 1] == shorter;
    assert longer[n - 1] == GetVcgenData(onPi, backend(n), n);
  }

  /**
   * run_client. If connecting fails nothing is sent. Otherwise for i = 1 to
   * 50 it builds record i, encodes it and sends the frame; a failed send ends
   * the run through the outer handler. The frames sent are always the first
   * frames of the full run, in order.
   */
  method RunClient(connectOk: bool, sendOk: nat -> bool, onPi: bool,
                   backend: nat -> Acquisition, enc: Json -> string)
    returns (sent: seq<string>, outcome: RunOutcome)
    ensures |sent| <= Iterations
    ensures sent == Frames(enc, Records(onPi, backend, |sent|))
    ensures !connectOk ==> sent == [] && outcome == ConnectionError
    ensures connectOk ==> forall i :: 1 <= i <= |sent| ==> sendOk(i)
    ensures connectOk && |sent| < Iterations ==> !sendOk(|sent| + 1)
    ensures outcome == Completed <==> connectOk && |sent| == Iterations
  {
    sent := [];
    if !connectOk {
      return [], ConnectionError;
    }
    var i := 1;
    while i <= Iterations
      invariant 1 <= i <= Iterations + 1
      invariant sent == Frames(enc, Records(onPi, backend, i - 1))
      invariant forall k :: 1 <= k < i ==> sendOk(k)
    {
      var data := GetVcgenData(onPi, backend(i), i);
      var frame := enc(data) + "\n";
      if !sendOk(i) {
        return sent, ConnectionError;
      }
      FramesStep(onPi, backend, enc, i);
      sent := sent + [frame];
      i := i + 1;
    }
    outcome := Completed;
  }
}
