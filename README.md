# Newline-delimited JSON telemetry link

This project models the framing protocol of a small telemetry link. A
Raspberry Pi sampler (`Clientkdk.py`, `ClientKDK2.py`) builds one record per
iteration, from 1 to 50. It sends each record as `json.dumps(record)`
followed by one `"\n"` over a TCP connection. A collector (`start_server` in
`ServerKDK.py`, and the same loop as the script body of `ServerKDK2.py`)
appends every `recv` chunk to a string buffer. It then splits off complete
lines at the first newline, one at a time, and hands each line to
`json.loads`. Documents that decode go to a sink (a GUI update or a
`print`), in the order they were split off. Lines whose decoding raises
`json.JSONDecodeError` are dropped. An empty read ends the session, and an unterminated fragment left
in the buffer is never decoded.

Modules:

- `Wrappers` (`wrappers.dfy`): `Option`.
- `Codec` (`codec.dfy`): the `Json` document type. The encoder and decoder
  are function values `enc` and `dec`. `RoundTrips(enc, dec, js)` states
  what the framing assumes of `json.dumps` and `json.loads` for the
  documents `js` actually sent: no encoding holds a newline, and decoding an
  encoding gives back its document. It is assumed only of those documents,
  since no encoder into finite strings is inverted by a decoder on every
  real-valued document. The lemmas about empty lines assume separately that
  the empty line does not decode (`dec("") == None`).
- `Framing` (`framing.dfy`): splitting at the first newline
  (`SplitAtNewline`, the model of `buffer.split("\n", 1)`). It also holds
  the complete lines of a text (`Packets`) and its unterminated fragment
  (`Tail`), the specification the collector is proved against.
- `Collector` (`collector.dfy`): class `Reassembler`, with the real `buffer`
  field and the ghost fields `received`, `packets` and `delivered`, the last
  being the sink. `Feed` is one read, `SplitLines` the inner
  `while "\n" in buffer` loop, and `Serve` the outer read loop.
  `StartServer` is one whole connection.
- `Sampler` (`sampler.dfy`): the record shapes of `get_vcgen_data` and the
  `run_client` send loop. The vcgencmd backend is an oracle
  `backend: nat -> Acquisition`. Whether `sendall` succeeds at iteration `i`
  is an oracle `sendOk(i)`, and whether `connect` succeeds is a boolean.
- `Link` (`link.dfy`): both ends together. However the stream of the 50
  frames is cut into reads, the collector delivers exactly the 50 records in
  order and ends with an empty buffer.

Notes on the code:

- The code never bounds the buffer, and never logs a dropped line; it just
  passes.
- A failed `sendall` at any iteration, and a failed `connect`, both end in
  the same outer handler (`Connection error`, then `exit(0)`). The model
  reports both as `ConnectionError`.
- `ClientKDK2.py` has no simulated branch: the process exits at start-up
  when it is not on a Pi. It is `RunClient` with `onPi = true`, with one
  difference in the data: `Clientkdk.py` sends `voltage` as a number
  (`round(float(...), 2)`, `Clientkdk.py:58,67`), while `ClientKDK2.py`
  sends the raw `measure_volts` string (`ClientKDK2.py:79,97`). The
  reading's `voltage` is therefore a `Json` value the backend supplies, a
  `Float` for the first sampler and a `Str` for the second.

## Model

| member | source | states |
|---|---|---|
| `Framing.FirstNewline` | ServerKDK.py:115-117 | the index found holds a newline and no newline comes before it |
| `Framing.SplitAtNewline` | ServerKDK.py:117 | the old buffer equals packet + "\n" + new buffer, and the packet holds no newline |
| `Framing.Packets` | ServerKDK2.py:48-49 | every line the split loop extracts from a text is free of newlines |
| `Framing.Tail` | ServerKDK2.py:48-49 | what the split loop leaves in the buffer holds no newline and is no longer than the text |
| `Framing.Decompose` | ServerKDK.py:115-117 | every text is its extracted lines, each followed by one newline, then the leftover fragment |
| `Framing.DecomposeUnique` | ServerKDK.py:115-117 | any split of a text into newline-free terminated lines plus a newline-free fragment is the one the loop computes |
| `Framing.PacketsAppend` | ServerKDK.py:104-117 | the lines extracted from s + c are those of s, then those of (fragment of s) + c; with it the lines depend only on the concatenation of the reads |
| `Framing.ConcatStep` | ServerKDK.py:112 | one more read appends that chunk to the received text |
| `Framing.JoinAppend` | ServerKDK.py:117 | adding one extracted line adds that line and its newline to the wire text |
| `Collector.Decoded` | ServerKDK.py:119-128 | at most one delivered document per extracted line |
| `Collector.DecodedAppend` | ServerKDK2.py:51-56 | the documents delivered for two runs of lines are those of the first run, then those of the second: FIFO, each exactly once |
| `Collector.DecodeEncodings` | ServerKDK.py:119-124 | lines that are encodings are delivered as exactly the encoded documents, in order |
| `Collector.MalformedSkipped` | ServerKDK.py:126-128 | a line that fails to decode between encoded lines is dropped and every document before and after it is still delivered |
| `Collector.EmptyLineDropped` | ServerKDK2.py:54-56 | two consecutive newlines yield an empty line, which fails to decode and delivers nothing |
| `Collector.SplitStep` | ServerKDK2.py:49 | splitting one line off the buffer moves the line and its newline to the extracted lines, content preserved |
| `Collector.Reassembler.constructor` | ServerKDK2.py:34 | a connection starts with an empty buffer, nothing received and nothing delivered |
| `Collector.Reassembler.ValidIsFraming` | ServerKDK.py:102-117 | between reads the extracted lines and the buffer are exactly the lines and fragment of all text received |
| `Collector.Reassembler.Feed` | ServerKDK.py:112-128 | one read appends the chunk, extracts the lines of buffer + chunk, delivers the decodable ones in order, leaves the newline-free fragment |
| `Collector.Reassembler.SplitLines` | ServerKDK.py:115-128 | after the inner loop the buffer has no newline; the lines taken out are those of the old buffer, and the sink got their decodable documents in order |
| `Collector.Reassembler.Serve` | ServerKDK.py:104-128 | reads are fed until the first empty one; received text is their concatenation; delivered = decodable lines of that concatenation |
| `Collector.StartServer` | ServerKDK2.py:33-56 | one session delivers the decodable lines of the concatenated non-empty reads, however they were cut, and drops the trailing fragment |
| `Sampler.PiRecord` | ClientKDK2.py:94-106 | on success exactly the six data keys, with the temperature, voltage, clocks and throttle flags passed through unchanged; on failure exactly "error" (the exception text) and "iteration"; the iteration in both |
| `Sampler.SimulatedRecord` | Clientkdk.py:77-85 | the six data keys plus "NOTE", with the iteration and every fixed simulated value: 42.0, 1.20, "frequency(45)=1500000000", "frequency(1)=500000000", "throttled=0x0" and the note |
| `Sampler.GetVcgenData` | Clientkdk.py:44-85 | every branch carries the iteration; the record is error-shaped exactly when the Pi backend failed, data-shaped otherwise |
| `Sampler.NeverMixed` | Clientkdk.py:64-74 | no document is both data-shaped and error-shaped, so no record mixes data keys with an error |
| `Sampler.RecordShapes` | Clientkdk.py:95-96 | record k of a run carries iteration k + 1 (1, 2, ... ascending) and is error-shaped exactly when the backend failed at that iteration |
| `Sampler.FrameIsOneLine` | Clientkdk.py:97-98 | a frame is the encoding plus exactly one newline: reassembling it gives the encoding as the only line and an empty buffer |
| `Sampler.FramesStep` | ClientKDK2.py:120-128 | iteration n appends exactly frame n to the frames of the first n - 1 iterations |
| `Sampler.RunClient` | Clientkdk.py:89-107 | no frame when connect fails; otherwise the frames of iterations 1, 2, ... in order, stopping only at the first failed send, all 50 iff every send succeeds |
| `Link.FramesText` | ClientKDK2.py:125-128 | the text of the frames is the encodings, each followed by one newline |
| `Link.FramesThenFragment` | ServerKDK.py:106-128 | frames followed by an unterminated fragment: the sink gets exactly the records in order and the fragment stays undecoded in the buffer |
| `Link.EndToEnd` | ServerKDK.py:102-128 | for any cutting of the 50 frames into reads, the sink gets exactly the 50 records in order and the buffer ends empty |
| `Link.Session` | ClientKDK2.py:112-141 | a sampler run with a working connection, read back by a collector in any non-empty chunks, delivers every record built, in order, with nothing left over |

## Left out

- Sockets (bind, listen, accept, connect, recv, sendall) and `time.sleep`. The reads are the parameter `chunks: seq<string>`, and the sent frames the result `sent: seq<string>`.
- The 1024-byte size of a `recv` is not modelled. A read is any non-empty string.
- Partial bytes of a `sendall` that fails part-way are not modelled. The frames that failed are simply not in `sent`.
- The per-chunk UTF-8 `.decode()`: the stream is modelled as decoded text. A multi-byte character cut by a read boundary would raise and end the session (`ServerKDK.py`) or the script (`ServerKDK2.py`). The clients never send one, because `json.dumps` escapes non-ASCII by default.
- The outer `except Exception` of `start_server`, and the accept/bind failures it reports, are not modelled.
- The JSON library internals: `json.dumps` and `json.loads` are the parameters `enc` and `dec`, constrained by `RoundTrips` on the documents sent and, where empty lines matter, by `dec("") == None`. No concrete codec is given, so the lemmas hold for every codec that meets those assumptions.
- The vcgencmd subprocess calls and the `round(float(...))` parsing of temperature and voltage are not modelled. They are foreign calls and floating point, and `backend` returns the parsed values. Python floats are modelled as `real`.
- Platform detection (`IS_PI`, the Raspberry Pi check and its `exit(0)`): the platform is the parameter `onPi`.
- Threads and the Tkinter GUI (`ServerGUI`, `update_display`, `ClientGUI`, the LEDs, the exit buttons). The sink is the ghost sequence `delivered`.
- `ServerKDK1.py`: its `get_vcgen_data` is another copy of the Pi branch modelled by `Sampler.PiRecord`.
- `Collector.Decoded`: its own contract only bounds the length. What it delivers is stated by `DecodedAppend`, `DecodeEncodings` and `MalformedSkipped`.
- `Collector.Decoded`, `Collector.Reassembler.SplitLines`: a line that `json.loads` rejects is modelled as `dec` returning `None`, which is what `except json.JSONDecodeError` catches (`ServerKDK.py:126`, `ServerKDK2.py:54`). Other exceptions `json.loads` can raise, such as `RecursionError` on deeply nested input or the `ValueError` of the integer digit limit, are not modelled. In `ServerKDK.py` they escape to the outer handler (`ServerKDK.py:130-132`) and end the session, so lines still in the buffer are never delivered; in `ServerKDK2.py` they end the script.
