# Verification model of the Mevo+ client

A Dafny model of the binary-protocol client: the framing and field codecs of the wire, the
delivery of frames to the caller, the eight sequencers that hold the conversations with the
device, the poll-driven scheduler on top of them, the blocking wrappers beside it, and the
least-squares fit of the GVP example. `dafny verify dfyconfig.toml` checks all of it.

Each component has a specification written as functions over values, methods and classes in the
imperative form of the source proved to compute it, and theorems about the specification. The main
theorems are stated over what an observer sees (bytes, messages, commands, events), so that they
do not repeat the specification's own definitions.

| files | what they hold |
|---|---|
| `Wire`, `Codec`, `Frame`, `Splitter`, `Conn` | bus addresses and errors, INT24 and FLOAT40 fields, frames, the stream splitter, `recv` |
| `CodecOnWire`, `FrameOnWire` | fields and frames by their bytes: place values, the scale of FLOAT40, the escapes, where the checksum stands and what it sums, which wires are accepted, the documented examples |
| `Protocol`, `Script` | messages and commands as far as the sequencers look at them; the exchange script the linear sequencers refine |
| `DspSeq`, `AvrSeq`, `PiSeq`, `ConfigSeq`, `ArmSeq`, `ShotSeq` | the sequencers |
| `Blocking` | `drive` and the programs made of the blocking wrappers |
| `ClientSpec`, `Client` | what one poll does, as a function; `BinaryClient` as a class that computes it |
| `ClientRuns`, `KeepaliveRuns`, `ShotRuns`, `ShotDetection`, `Refinement` | properties of every run, of a keepalive and of the shot cycle through `poll`, of when a shot is noticed, and the refinement of the blocking program |
| `LinearSolve`, `PolyFit` | `solve_5x5`, `poly_fit_4`, `eval_poly` |

How the source is read:

- Time is a parameter: each poll, and each round of a blocking loop, runs at one instant (`Tick`),
  together with what `recv` returns in it. A run of the client is any list of enqueued operations,
  changed settings and polls; runs have no length bound.
- What is sent is recorded, and no send fails. Messages carry what the state machines inspect or
  hand on; the decoded structs are opaque payloads, and texts are strings.
- FLOAT40 is over binary64 bit patterns (section 3.4 of IEEE 754-2019) and the exact reals they
  denote. The fit is over exact reals; a zero divisor, which would leave NaN or infinity in `f64`,
  ends it with no result, and the theorems say exactly when that is.
- A class of the source is a class here. Its `Abs` gives the specification's state, and every
  method states the whole new state and what was sent. Long source methods are split into one
  helper per group of match arms.

Where the code and its documentation disagree the model follows the code:

- `recv` pops before it reverses, so the frames of one read arrive as k, 1, .., k-1, although the
  comment (src/conn.rs:210-211) says arrival order. `Conn.RecvInOrderExactly` says when that
  makes no difference, `Conn.ReverseFirstInOrder` that reversing first would be right.
- `write_float40` sets the leading significand bit for subnormals too, so they come back too
  large; `Codec.Float40NeverExceedsExactly` gives the exact boundary.
- A PROCESSED that no trigger announced, in a poll that has just queued a keepalive, clears the
  queued flag although a keepalive stays queued, so the flag then counts one too few.
- Keepalives are held up from the trigger until the shot completes, not until PROCESSED arrives as the
  comment (src/client.rs:308-309) has it: a PROCESSED that comes while an operation is active is swallowed
  and leaves the flag set. `ShotDetection` says exactly when, and gives a run.
- The comments on the disarm (src/seq.rs:1009-1020) have it wait for "System State 5"; the code, and
  `StateIdle` in `Script`, accept any "System State" text and also a second ModeAck.
- The comment on `complete_shot` (src/seq.rs:1690-1691) lists a ConfigQuery that is never sent.

## Model

| member | source | states |
|---|---|---|
| Codec.ReadsItsOwnBytes | src/codec.rs:13-83 | INT16, INT24 and FLOAT40 fields are read from their own bytes whatever surrounds them; when those are not all there the error names the whole field's end and the length there is, also for the FLOAT40 that is read as two smaller fields |
| Codec.WriteInt16 | src/codec.rs:104-106 | for every i16, appends two bytes that read back as it at the old end of the buffer |
| Codec.Int16ReadsBack | src/codec.rs:13-16 | every i16 read from where it was written, whatever surrounds it, is the value written |
| Codec.WriteInt24 | src/codec.rs:114-117 | appends three bytes that read back, at the old end of the buffer, as the residue of the i32 modulo 2^24 in [-2^23, 2^23) |
| Codec.Int24ReadsBackResidue | src/codec.rs:25-34 | for every i32, reading what was written gives that residue; it is the value itself if and only if the value fits 24 signed bits |
| Codec.WriteFloat40 | src/codec.rs:139-160 | for every 64-bit pattern: what is appended, and what it reads back as; `CodecOnWire` gives the scale of both by bytes |
| Codec.DecodedIsTruncation | src/codec.rs:139-160 | write then read keeps the sign, the exponent and the top 23 significand bits, and nothing else |
| Codec.Float40Accuracy | src/codec.rs:139-160 | for every normal value, and the subnormals that are well scaled, write then read keeps the sign, never exceeds the value in magnitude and has relative error below 2^-22 |
| Codec.Float40NeverExceedsExactly | src/codec.rs:152-156 | for a non-zero finite value the magnitude is never exceeded if and only if the value is normal or one of the 2^29 largest subnormals: the leading bit the encoder adds is wrong below that |
| Codec.Float40Monotone | src/codec.rs:72-83 | write then read preserves order over all finite values, zeros, subnormals and both signs included |
| Codec.Float40Canonical | src/codec.rs:72-83 | any 5-byte field whose value is zero or a normal value decodes to the same number after being decoded and re-encoded, unnormalised mantissas and -2^23 included |
| Codec.Float40ReencodeFixpoint | src/codec.rs:139-160 | re-encoding a decoded encoding gives the same five bytes |
| CodecOnWire.PlaceValues | src/codec.rs:13-34 | byte order and sign by place value: an INT16 is 256 times its first byte plus its second, an INT24 65536, 256 and 1 times its three, less 2^16 or 2^24 if the first byte's top bit is set |
| CodecOnWire.ExponentTwentyThree | src/codec.rs:72-83 | a FLOAT40 field whose exponent bytes are 00 17 reads as exactly its 24-bit mantissa |
| CodecOnWire.ExponentDoubles | src/codec.rs:72-83 | of two fields with the same mantissa, the one whose exponent is one more reads as twice the other |
| CodecOnWire.PatternValues | src/codec.rs:139-160 | what a binary64 pattern denotes: the pattern of 1.0 is 1, and one more in the exponent of a normal pattern doubles it |
| CodecOnWire.WrittenFloat40 | src/codec.rs:139-160 | for every normal value v, what is written: as exponent the e with 2^(e-1) <= abs v < 2^e, and as mantissa, with v's sign, the integer next below abs v times 2^(23-e) |
| CodecOnWire.HalfToOne | src/codec.rs:156-160 | every value whose magnitude is from a half up to one is written with exponent bytes 00 00 |
| CodecOnWire.DocumentedFields | src/codec.rs:72-160 | 00 01 40 00 00 reads as 1.0, 00 04 64 00 00 as 12.5, 00 07 64 00 00 as 100.0; 1.0 is written as the first of them, and both zeros as five zero bytes |
| Wire.FromByte | src/addr.rs:20-28 | accepts exactly the bytes of the four buses, inverts `as_byte`, and reports the rejected byte |
| Frame.StuffBytes | src/frame.rs:133-157 | the loop's output is the byte-by-byte stuffing of its input |
| Frame.UnstuffStuffed | src/frame.rs:39-68 | unstuffing what stuffing produced gives every byte back together with the wire offset it started at, whatever follows |
| Frame.UnstuffInterior | src/frame.rs:39-68 | the index loop with its steps of one and two yields the decoded bytes with their offsets, or the first escape error and where it is |
| Frame.EncodeFrame | src/frame.rs:106-129 | markers, stuffed data, and the stuffed 16-bit sum of the stuffed data, in that order; `FrameOnWire` says what that is on the wire |
| Frame.ParseFrame | src/frame.rs:26-103 | the frame, or the first error in the source's order of checks; `FrameOnWire` says which wires are accepted |
| Frame.RoundTrip | src/frame.rs:26-129 | parsing an encoding gives the frame back, for every address, type and payload |
| Frame.CanonicalExactly | src/frame.rs:39-129 | for an accepted wire, encoding the parsed frame reproduces the wire if and only if its interior has no raw F0, F1 or FA |
| Frame.ChecksumFits | src/frame.rs:117-118 | with at most 253 payload bytes the 16-bit sum cannot overflow |
| Frame.ChecksumBoundTight | src/frame.rs:117-118 | with 254 it can: a concrete frame |
| Frame.ParseSumFits | src/frame.rs:81-83 | `parse` sums before it looks at the addresses: with at most 252 bytes between type and checksum the 16-bit sum cannot overflow, whatever was received |
| Frame.ParseSumBoundTight | src/frame.rs:81-83 | with 253 it can: a concrete interior |
| FrameOnWire.EscapeTable | src/frame.rs:133-157 | the four escapes by their bytes; every other byte is written as itself, and no other escape code is read |
| FrameOnWire.DocumentedFrame | docs/WIRE.md:52-72 | the worked example, both ways: F0 40 10 AA 01 01 00 FC F1 is what the status poll encodes to and what parses to it |
| FrameOnWire.EncodeChecksum | src/frame.rs:106-129 | for every frame there is a place in the encoding before which destination, source, type and payload stand, stuffed, and behind which, up to F1, two bytes stand whose value is the sum of the bytes from behind F0 to that place modulo 2^16: F0 itself not counted; up to 253 payload bytes that sum itself |
| FrameOnWire.AcceptedExactly | src/frame.rs:78-97 | a framed and well escaped wire is accepted if and only if the value of its last two decoded bytes is the sum of the wire bytes before them modulo 2^16, and both addresses are bus addresses; if the sums differ it is refused with both values |
| FrameOnWire.OnlyFramedAccepted | src/frame.rs:26-76 | nothing is accepted that is shorter than seven bytes, not between F0 and F1, badly escaped, or of fewer than five decoded bytes |
| FrameOnWire.AcceptedChecksum | src/frame.rs:26-103 | every accepted wire has its checksum in place as an encoding does, behind the fields of the frame it is parsed to |
| FrameOnWire.RefusedUnframed | src/frame.rs:28-36 | the length is looked at first, then F0, then F1, each with its own error |
| FrameOnWire.RefusedEscape | src/frame.rs:42-65 | the first bad escape is reported with its code, zero if the interior ends, and its offset behind F0 |
| FrameOnWire.RefusedFields | src/frame.rs:70-97 | behind the escapes the decoded length is looked at, and behind the checksum the destination before the source |
| Splitter.FrameSplitter.Feed | src/frame.rs:176-208 | draining the buffer at F0 and F1 positions yields the frames and the leftover of a two-state automaton that looks at one byte at a time; the leftover is empty or starts with F0 and holds no F1 |
| Splitter.ScanAppend | src/frame.rs:176-208 | feeding two pieces in turn completes the same frames and leaves the same buffer as feeding their concatenation |
| Splitter.ScanKeepsPartial | src/frame.rs:190-199 | after any data the buffer is empty, or starts with F0 and holds no F1 |
| Splitter.ChunkingInvisible | src/frame.rs:176-208 | however a stream is cut into chunks, the frames and the leftover are those of the uncut stream |
| Splitter.SelfSynchronises | src/frame.rs:176-208 | from any reachable buffer, n encoded frames come out as n frames, the last n-1 unchanged and the first prefixed by what was held, with nothing left over |
| Splitter.ResynchronisesAfterNoise | src/frame.rs:176-208 | after arbitrary bytes, all but the first of the frames that follow come out intact |
| Splitter.EndToEnd | src/frame.rs:26-208 | for every list of frames and every cutting of their encodings, a fresh splitter outputs exactly those wires, they parse to exactly those frames, and the buffer ends empty |
| Splitter.ReceiveStream | src/frame.rs:26-208 | the receive loop itself delivers exactly the frames encoded, whatever the cutting |
| Conn.BinaryConnection.Recv | src/conn.rs:193-231 | hands over one frame or its decode error, in the order the code pops and stashes them, and leaves the others pending; end of stream, empty reads and failures come out as the source maps them |
| Conn.PullPaysInOrder | src/conn.rs:193-231 | what one call hands over, followed by what is owed after it, is what was owed before: no frame is skipped, repeated or reordered, and a decode error costs that frame only |
| Conn.PullHandsOverExactly | src/conn.rs:193-231 | one call hands over a frame if and only if one is pending or is completed by the reads up to the next answer that carries no bytes; otherwise it has consumed those and that answer, and reports it |
| Conn.ReportedExactly | src/conn.rs:193-231 | a call that hands over nothing gives `Disconnected` if and only if the first answer that carries no bytes is the end of the stream, an I/O error if and only if it is a failure, and no data if and only if it would block or nothing is left; one that hands over a wire gives its message, or the error of the layer that refuses it |
| Conn.DeliveryAccounting | src/conn.rs:193-231 | over any number of calls, frames handed over followed by frames still owed are the frames owed at the start |
| Conn.EnoughCallsDeliver | src/conn.rs:193-231 | as many calls as there are answers to read and frames owed hand over exactly what was owed, in order, and leave nothing owed: each frame exactly once |
| Conn.RecvLosesNothing | src/conn.rs:193-231 | over any stream, enough calls on a fresh connection hand over exactly the frames the splitter finds in it, as a multiset, under the code's order and under the intended one |
| Conn.RotationFixesExactly | src/conn.rs:207-213 | one read's k frames are delivered k, 1, .., k-1, which is arrival order if and only if all k are equal |
| Conn.RecvInOrderExactly | src/conn.rs:193-231 | over any stream, enough calls hand the frames over in arrival order if and only if no read completes two different frames |
| Conn.TwoFramesSwapped | src/conn.rs:207-213 | for every two different frames whose encodings arrive in one read, the first call yields the second frame and the second call the first |
| Conn.ReverseFirstInOrder | src/conn.rs:207-213 | reversing before popping, as the comment intends, would hand every stream over in arrival order |
| Conn.RecvEndToEnd | src/conn.rs:193-231 | for a stream of encodings in which no read completes two different frames, calls on a fresh connection hand over a prefix of those encodings, enough calls all of them, in order, each parsing to its frame |
| LinearSolve.PivotRow | examples/gvp_testing.rs:86-95 | the row chosen is at or below the diagonal and its entry is largest in absolute value |
| LinearSolve.ReduceRow | examples/gvp_testing.rs:102-105 | updating a row only from its column on is subtracting a multiple of the whole pivot row, because what is left of the pivot is zero |
| LinearSolve.EliminateColumn | examples/gvp_testing.rs:99-107 | in place, clears a column below a non-zero pivot and keeps the solution sets of the system and of its homogeneous form |
| LinearSolve.SwapEquivalent | examples/gvp_testing.rs:96-97 | exchanging two rows keeps both solution sets |
| LinearSolve.ReduceEquivalent | examples/gvp_testing.rs:101-105 | subtracting a multiple of another row keeps both solution sets |
| LinearSolve.ZeroColumnSingular | examples/gvp_testing.rs:86-99 | if partial pivoting finds only zeros the original matrix is singular: a non-zero kernel vector is built |
| LinearSolve.TriangularUnique | examples/gvp_testing.rs:109-117 | a triangular system with non-zero diagonal has at most one solution |
| LinearSolve.BackSubstitute | examples/gvp_testing.rs:109-118 | the loop from the last row up solves the triangular system |
| LinearSolve.Solve5x5 | examples/gvp_testing.rs:83-119 | there is a result if and only if the matrix given was nonsingular (no pivot is then ever zero), and the result is the one and only solution of the system given, although both arrays are overwritten |
| PolyFit.EvalPoly | examples/gvp_testing.rs:73-79 | Horner's loop computes the sum of c[i] * t^i, for any number of coefficients |
| PolyFit.AddSample | examples/gvp_testing.rs:127-138 | one pass of the nested loops adds t^i * t^j to every entry and t^i * y to every right-hand side |
| PolyFit.TooManyRoots | examples/gvp_testing.rs:73-79 | a polynomial with as many distinct roots as coefficients has only zero coefficients |
| PolyFit.GramNonsingularExactly | examples/gvp_testing.rs:126-141 | the normal equations are nonsingular if and only if at least five sample times differ |
| PolyFit.NormalSolutionMinimises | examples/gvp_testing.rs:121-142 | their solution has a strictly smaller summed squared residual than every other quartic |
| PolyFit.FitReproduces | examples/gvp_testing.rs:121-142 | samples that lie on a polynomial of degree at most four give that polynomial's coefficients |
| PolyFit.PolyFit4 | examples/gvp_testing.rs:122-142 | the fit as coded succeeds if and only if five times differ, and then returns the unique least-squares quartic, which is the sampled one when there is one |
| PolyFit.SampleTimesSuffice | examples/gvp_testing.rs:185-186 | the 21 sample times of a track fit are enough if and only if the duration is not zero |
| Script.OneCommandPerReply | src/seq.rs:51-60 | a message moves a sequencer one exchange on, keeping the reply and releasing at most one command, if and only if it is the awaited reply; a time does so if and only if an optional reply is overdue; otherwise nothing changes |
| Script.RunKeepsTrace | src/seq.rs:226-303 | along every interleaving of messages and timeouts, what has been sent is determined by how far the exchange list has come |
| Script.RunTrace | src/seq.rs:226-303 | on every stream what has been sent is a prefix of the phase's commands, and all of them once it is complete |
| Script.CompletesExactly | src/seq.rs:226-303 | a phase without optional replies completes if and only if the replies it awaits occur in the stream in order, whatever comes between them and whenever |
| Script.CompletesInTimeExactly | src/seq.rs:385-569 | any phase, over rounds in time order, completes if and only if the rounds get past all its exchanges in order, each by its reply or, if it is optional, by a round two seconds or more after it was asked |
| DspSeq.DspSequencer.FeedMessage | src/seq.rs:226-303 | the step machine with its pushed product infos refines the seven-exchange script: same commands, same replies kept |
| DspSeq.DspSequencer.IntoResult | src/seq.rs:214-223 | once complete no field is missing and `prod_info` holds the three removed from it; each field is the reply of its own exchange |
| DspSeq.SyncsExactly | src/seq.rs:226-303 | the DSP phase completes if and only if its seven replies occur in the stream in order |
| DspSeq.ResultHoldsReplies | src/seq.rs:214-303 | whenever the DSP phase completes there are seven rounds in order in which messages of the DSP came whose contents the result holds, the k-th when the first k of the seven commands had been sent: the product infos are the replies to the sub-queries 0x00, 0x08 and 0x09, in that order |
| DspSeq.SendsTrace | src/seq.rs:183-303 | over any rounds a prefix of the seven commands, listed one by one, is sent, and all of them once complete |
| AvrSeq.AvrSequencer.FeedMessage | src/seq.rs:416-569 | refines the twelve-exchange script; `cal_deadline` is set exactly in the two calibration steps |
| AvrSeq.AvrSequencer.CheckCalTimeout | src/seq.rs:385-393 | gives up on a calibration reply exactly when its deadline has passed |
| AvrSeq.AvrSequencer.AdvancePastCal | src/seq.rs:396-413 | in a calibration step, moves on as if the reply had come, without its result; in any other step does nothing |
| AvrSeq.AvrSequencer.IntoResult | src/seq.rs:372-381 | no required field is missing; of the two statuses and two device infos the second is kept |
| AvrSeq.TimeoutsInvisible | src/seq.rs:385-569 | every interleaving of replies and calibration timeouts sends a prefix of the same twelve commands, all twelve when it completes; only `factory_cal` and `if_cal` can be missing |
| AvrSeq.SyncsExactly | src/seq.rs:385-569 | the AVR phase completes if and only if its required replies occur in order with each calibration reply answered or waited for two seconds in between |
| AvrSeq.ResultHoldsReplies | src/seq.rs:372-569 | whenever the AVR phase completes the result holds the contents of messages of the AVR that came in order: of two statuses and two device infos the second, the configuration, the AVR configuration, and a calibration if and only if it came less than two seconds after the exchange before |
| PiSeq.PiSequencer.FeedMessage | src/seq.rs:635-748 | refines the sixteen-exchange script, nine parameter reads included; the index never leaves the id list |
| PiSeq.PiSequencer.IntoResult | src/seq.rs:625-632 | once complete both required fields are there, and the credentials are those of the second network reply |
| PiSeq.SyncsExactly | src/seq.rs:635-748 | the PI phase completes if and only if its sixteen replies occur in the stream in order |
| PiSeq.ResultHoldsReplies | src/seq.rs:625-748 | whenever the PI phase completes there are sixteen rounds in order in which messages of the Pi came, the k-th when the first k of the sixteen commands had been sent: the result holds the second camera configuration and the credentials of the second network reply, the one asked for with the password |
| PiSeq.SendsTrace | src/seq.rs:590-748 | over any rounds a prefix of the sixteen commands, network requests and the nine parameter reads listed one by one, is sent, and all of them once complete |
| PiSeq.SplitAtNul | src/seq.rs:706-708 | ssid is the text before the first NUL and password everything after it; without a NUL the password is empty |
| ConfigSeq.AvrConfigSequencer.FeedMessage | src/seq.rs:811-910 | the `(step, param_idx)` machine refines the configuration script for settings with any number of parameters |
| ConfigSeq.PlanOfScript | src/seq.rs:792-910 | the script's commands are B0, then each parameter followed by B0, the mode, B0, and the calibration with its B0 if there is one |
| ConfigSeq.ConfigureSendsPlan | src/seq.rs:792-910 | every message stream makes the sequencer send a prefix of that plan, and the whole plan when complete |
| ConfigSeq.ConfiguresExactly | src/seq.rs:811-910 | for any number of parameters, configuration completes if and only if its replies occur in the stream in order |
| ConfigSeq.CameraConfigSequencer.FeedMessage | src/seq.rs:944-996 | refines the four-exchange camera script |
| ConfigSeq.DisarmSequencer.FeedMessage | src/seq.rs:1040-1100 | acknowledgement, mode reset and idle state are awaited in that order, the last two from any bus |
| ConfigSeq.CameraAndDisarmComplete | src/seq.rs:944-1100 | camera configuration and disarm complete if and only if their replies, or signals, occur in the stream in order |
| ConfigSeq.ConfigReplies | src/seq.rs:811-910 | what each reply to the configuration must be: the mode echo behind the parameters, the calibration echo behind its commit, acknowledgements of the AVR everywhere else |
| ConfigSeq.CameraReplies | src/seq.rs:944-996 | the camera's replies come from the Pi: an acknowledgement, the configuration read back, and two acknowledgements |
| ConfigSeq.DisarmReplies | src/seq.rs:1040-1100 | the three signals of a disarm, by message and text |
| ConfigSeq.CameraAndDisarmSend | src/seq.rs:925-1100 | a prefix of the four camera commands, listed one by one, and all of them once complete; a disarm sends its one command and nothing else |
| ArmSeq.ArmSequencer.FeedMessage | src/seq.rs:1163-1273 | refines the retrying machine with an unbounded count; the u16 counter is that count modulo 2^16 |
| ArmSeq.ArmTrace | src/seq.rs:1142-1273 | on every stream the commands are (poll DSP, poll AVR, arm) once per rejection, then a prefix of (poll DSP, poll AVR, arm, poll PI) |
| ArmSeq.ArmedExactlyIfConfirmed | src/seq.rs:1207-1264 | armed is reached if and only if, after the last rejection, an AVR acknowledgement answered the last arm command and both a PI status and an ARMED text that is not a cancellation came after it, in either order |
| ArmSeq.ArmsExactly | src/seq.rs:1163-1273 | read off the messages alone, by searching for the first DSP status, then the first AVR status, then the first acknowledgement or rejection of the AVR: the sequencer has counted exactly the rejections that end such a search, each starting it anew, and is done if and only if the acknowledgement that ends one is followed by a Pi status and an ARMED text that is not a cancellation |
| ShotSeq.ShotSequencer.FeedMessage | src/seq.rs:1418-1487 | the whole new state and the commands, for every step and message |
| ShotSeq.ShotSequencer.CheckDrainTimeout | src/seq.rs:1401-1415 | leaves the drain, without a result request, exactly when draining past the deadline |
| ShotSeq.ShotSequencer.TakePending | src/seq.rs:1390-1392 | yields the pending datum once |
| ShotSeq.LastStreamedKept | src/seq.rs:1435-1449 | the last streamed flight, club and spin are those in the accumulated data |
| ShotSeq.ShotCycle | src/seq.rs:1359-1492 | on every interleaving of messages and drain timeouts: the data is what the messages before the first IDLE or timeout bring, as `DataOfMessages` says; exactly their flight, club and spin were streamed, in order; a completed cycle sent two acknowledgements, the result request if and only if IDLE ended the drain, and one arm, last |
| ShotSeq.DataOfMessages | src/seq.rs:1435-1452 | for every list of drained messages: `prc` and `club_prc` are the bodies of exactly the messages of their kind, all and in order; flight, club, spin and speed profile are those of the last message of their kind, if there is one |
| ShotSeq.ShotSends | src/seq.rs:1359-1487 | at every point of a shot what has been sent is two acknowledgements, the result request if and only if IDLE has ended the drain, and the arm command if and only if the club result has come after that or the drain has timed out |
| ShotSeq.ShotCompletesExactly | src/seq.rs:1401-1487 | a shot completes if and only if IDLE ends the drain and a club result, the AVR's acknowledgement and an ARMED text follow in that order, or the drain times out and the last two follow, the first of them possibly in the same round |
| Blocking.Sequencer.Feed | src/seq.rs:51-60 | feeding through the common interface is feeding the sequencer behind it |
| Blocking.Drive | src/seq.rs:77-100 | the blocking loop sends the initial commands, then checks its deadline, receives, feeds and sends until complete or late; how it ends, what it sent, what it left unread and the sequencer's final state |
| Blocking.SyncAvrBlocking | src/seq.rs:1581-1610 | the loop of `sync_avr`, which also gives up on overdue calibration replies before it receives, from the sequencer it creates to the result it returns |
| Blocking.WrapperSucceedsExactly | src/seq.rs:1570-1646 | a wrapper succeeds if and only if the rounds of its first 30 seconds bring what it needs: its replies in order with anything in between; for the AVR phase each calibration answered or waited out; for arming the statuses, acknowledgement and confirmations behind the last rejection |
| Client.KeepaliveSequencer.FeedMessage | src/client.rs:143-157 | each status counts only from its own node |
| Client.BinaryClient.constructor | src/client.rs:237-254 | an idle, disarmed client with the default timings |
| Client.BinaryClient.Enqueue | src/client.rs:400-424 | appends one operation and changes nothing else |
| Client.BinaryClient.CheckDeadline | src/client.rs:266-280 | an overdue keepalive is dropped and its flag cleared; anything else overdue is an error that changes nothing |
| Client.BinaryClient.StartOp | src/client.rs:461-520 | deadline, first commands and new active operation, for each kind of operation |
| Client.BinaryClient.StartConfigure | src/client.rs:480-496 | armed: the settings go back to the head of the queue unchanged and a disarm starts; otherwise configuration starts |
| Client.FeedActive | src/client.rs:524-615 | the active operation's new state, the commands sent, and which of the four signals comes back |
| Client.BinaryClient.AdvanceOp | src/client.rs:619-674 | the next phase with the results so far, or the outcome; the missing-result and single-phase panics are not reachable |
| Client.BinaryClient.Finish | src/client.rs:677-713 | the event and the flags of each kind of operation; a finished keepalive starts the next operation at once |
| Client.BinaryClient.CheckTimeouts | src/client.rs:289-306 | only the inner deadlines of the AVR phase and of the shot drain are looked at |
| Client.BinaryClient.DetectShot | src/client.rs:362-394 | trigger, PROCESSED taking over from a keepalive in flight, early flight data, or passing the message on |
| Client.BinaryClient.Dispatch | src/client.rs:325-394 | caches the status, then feeds the active operation, unless it is a keepalive and the message is not a status |
| Client.BinaryClient.GetReady | src/client.rs:282-317 | starts the next operation if idle, acts on inner deadlines, queues a keepalive if due |
| Client.BinaryClient.Poll | src/client.rs:265-395 | one poll, over heap objects, computes the new state, the commands and the outcome of the specification the runs below are stated over |
| ClientSpec.FeedKeepsSound | src/client.rs:524-615 | a phase signal comes exactly from a finished handshake phase, a done signal exactly from a finished single-phase operation |
| ClientSpec.PollKeepsWF | src/client.rs:265-395 | in every state, for every time and message: an operation is active exactly when a deadline is set, none lingers once finished, and a handshake phase carries the results of the earlier ones |
| ClientRuns.OperationsConserved | src/client.rs:283-287 | at every point of every run the user operations enqueued are those started followed by those still queued: none lost, repeated, reordered or changed, configurations put back for a disarm included |
| ClientRuns.CompletionsInOrder | src/client.rs:677-713 | the Handshake, Configured and Armed events of a run are those of the started operations in order, except the one in progress: no operation is overwritten |
| ClientRuns.EventsFollowEnqueueOrder | src/client.rs:265-395 | reported completions, then the operation in progress, then those queued, are the operations enqueued, in order |
| ClientRuns.DisarmThenConfigure | src/client.rs:480-496 | in every run a disarm that starts is completed before anything else starts, what starts next is an AVR configuration, and no configuration runs while the client believes the device armed |
| ClientRuns.QueuedFlagBacked | src/client.rs:308-317 | in every run, if the queued flag is set a keepalive is queued or active to clear it, so that flag never holds keepalives up for good |
| ClientRuns.PollCounts | src/client.rs:308-381 | from a state where queued plus active keepalives are one if the flag is set and none otherwise, a poll breaks that count if and only if it has just queued a keepalive and then detects PROCESSED |
| ClientRuns.KeepalivesCounted | src/client.rs:308-317 | the count is exact throughout every run in which PROCESSED reaches shot detection only with a shot in progress |
| ClientRuns.ExcessBounded | src/client.rs:308-381 | in every run, announced or not, the keepalives beyond the one the flag stands for are never negative and at most as many as the polls that queued a keepalive and then detected PROCESSED |
| ClientRuns.UnannouncedShotMiscounts | src/client.rs:369-381 | without that hypothesis it fails: a run from start-up through an ordinary arm to a poll that leaves a keepalive queued with the flag cleared |
| ClientRuns.KeepaliveTransparent | src/client.rs:344-394 | from states alike but for a keepalive in flight, any sequence of messages other than status replies, each at its own time, gives the same commands, the same events and the same shot and armed flags |
| ClientRuns.FlagsFollowEvents | src/client.rs:677-713 | in every run the armed and shot flags, whether keepalives are on, and the device on record are what folding the emitted events gives |
| ClientRuns.TimeoutIsFinal | src/client.rs:266-280 | after an operation times out, every further poll reports the timeout, sends nothing and changes nothing |
| ClientRuns.SilenceTimesOutExactly | src/client.rs:266-280 | an operation other than a keepalive that hears nothing times out if and only if a poll comes at its deadline or later |
| ClientRuns.DeadlinesGiven | src/client.rs:461-520 | every such operation is given the operation timeout from its start, 30 seconds unless set otherwise |
| ClientRuns.PhaseDeadlinesGiven | src/client.rs:619-674 | each handshake phase is given the whole timeout again |
| KeepaliveRuns.KeepaliveReportedExactly | src/client.rs:143-157 | from its polls on, over any rounds before its deadline that bring no PROCESSED, a keepalive is reported if and only if a DspStatus from the DSP, an AvrStatus from the AVR and a PiStatus from the Pi have all arrived, in any order and with anything in between |
| KeepaliveRuns.KeepaliveDoneExactly | src/client.rs:320-360 | the poll that reports it is the one that brings the last of the three, its snapshot is the latest answer of each node, and until then the keepalive waits under the same deadline and sends nothing |
| KeepaliveRuns.KeepaliveStarts | src/client.rs:505-520 | a queued keepalive starts with three polls, the Pi's in its own mode, and three seconds |
| KeepaliveRuns.KeepaliveLapses | src/client.rs:266-277 | after those three seconds it is dropped without error or event and the interval starts anew; before, silence changes nothing |
| KeepaliveRuns.NoneWithinInterval | src/client.rs:308-317 | from a client without a keepalive, whatever is enqueued and whatever operations, shots and messages follow, none is queued or in flight until a whole interval has passed since the last keepalive, arm or shot |
| KeepaliveRuns.NextNotWithinInterval | src/client.rs:308-317 | in particular none for a whole interval after one is reported |
| KeepaliveRuns.SentWhenDue | src/client.rs:283-317 | an idle client with keepalives on and no shot announced, polled a whole interval after the last, sends the three polls first thing in the poll after that |
| KeepaliveRuns.StatusIsLatest | src/client.rs:325-331 | over any polls that do not time out, whatever operation is active, the status on record is each node's latest |
| KeepaliveRuns.PassedOnExactly | src/client.rs:333-394 | a message is handed to the caller as it came if and only if no operation is active, or a keepalive it does not answer, and it is no trigger, no PROCESSED and no early flight result of an announced shot |
| ShotDetection.ShotTextSwallowed | src/client.rs:344-358 | any shot text that reaches a handshake, configuration, disarm or arm changes nothing, sends nothing and tells nobody |
| ShotDetection.ProcessedStartsShotExactly | src/client.rs:344-381 | PROCESSED starts the shot cycle if and only if no operation is active, or only a keepalive |
| ShotDetection.TriggerNoticedExactly | src/client.rs:344-368 | the trigger is noticed if and only if no operation is active, or only a keepalive |
| ShotDetection.PollStartsShotExactly | src/client.rs:266-381 | a poll that receives PROCESSED starts the shot cycle if and only if beforehand nothing but keepalives was active, or next in the queue of an idle client |
| ShotDetection.ShotHoldsKeepalivesUp | src/client.rs:308-317 | an idle client with the trigger noticed and nothing queued sends nothing, however long it is polled and whatever comes, until a PROCESSED comes |
| ShotDetection.MissedShotHoldsKeepalivesUp | src/client.rs:308-381 | a reachable run that misses a shot: after the trigger was noticed, a poll received PROCESSED while the camera was being configured and left the client exactly as it was; no trigger came after that poll, the client ends idle with the flag still set, and however it is then polled it sends no keepalive before another PROCESSED |
| ShotRuns.ShotPoll | src/client.rs:299-306 | one poll of a shot in progress is one round of its sequencer: same commands, the datum or completion as its only event |
| ShotRuns.ShotDelivered | src/client.rs:590-602 | through `poll`, whatever arrives, exactly the drained flight, club and spin results are reported, in order, then, if and only if the signs needed after the drain come in order, the data of the drained messages: all radar pages of each kind in order, the last of everything else, whose results are also the last reported; sent are the result request if and only if IDLE ended the drain, and one arm command |
| Refinement.IdleRuns | src/client.rs:282-287 | from an idle client: the same agreement in commands, events and handshake results with the program of wrappers not yet called |
| Refinement.MidRuns | src/client.rs:333-360 | from the middle of an operation: agreement, round by round, with the rest of the wrapper (`drive`, or the AVR loop with its timeouts) and those after it |
| Refinement.PollLoopRefinesBlocking | src/client.rs:265-395 | for any list of operations, on rounds in time order in which the program of blocking wrappers enters no AVR configuration while armed, and however that program ends: polling the rounds it saw never times out, has sent exactly what it sent but for the first command of a wrapper the client has yet to enter, and has emitted exactly the events that tell what the wrappers have returned, in order and with the same handshake results; when the program finishes both have sent the same commands |
| Refinement.ConfigureBeforeArm | src/client.rs:480-496 | that hypothesis holds for every list without an AVR configuration behind an arm, unless a handshake's own DSP status is state 6 |

## Left out

- One instant per poll: the source reads the clock several times in one poll, and in one round of a blocking loop.
- Failures inside a poll: a send that fails, or a receive that errs, ends the source's poll half-way; runs here have neither. `Conn` models the receive errors on their own.
- The client over the connection model: the theorems about runs hold for whatever `recv` returns, hence also in the order of `Conn`, but no theorem speaks of bytes and client events at once.
- Message decoding: the field tables of src/protocol are payloads here, and `Conn` takes the decoder as a parameter; the value `TimeSync` carries is not modelled.
- Debug builds: the 16-bit checksum sums and the arm retry counter wrap in the model, as in a release build; a debug build panics instead, for the sums only beyond the bounds of `Frame.ChecksumFits` in `encode` and `Frame.ParseSumFits` in `parse`.
- Rounding: `solve_5x5`, `poly_fit_4` and `eval_poly` are over exact reals, so numerical stability is not covered; nor is the trigonometry of `project_to_pixel`.
- NaN and infinity in FLOAT40: `Codec.WriteFloat40` covers the bytes written for them, the theorems about values do not.
- Out of range FLOAT40 fields: reading one is exact here, while `f64` overflows or underflows outside the normal range; `Codec.Float40Canonical` is stated for fields whose value is zero or normal.
- Unsigned, 32-bit and scaled field helpers: the same shape as those modelled, and easier.
- Refinement.PollLoopRefinesBlocking: leaves out programs that reach an AVR configuration while armed, because the client then disarms on its own, which no wrapper does.
- ClientRuns.KeepaliveTransparent: compares the two clients message by message, from after the start-up step of a poll and with no deadline passing in between.
- ShotRuns.ShotDelivered: covers shots whose operation deadline does not pass meanwhile; `ClientRuns.TimeoutIsFinal` is what happens when it does.
- KeepaliveRuns.KeepaliveReportedExactly: no PROCESSED comes meanwhile; one that does ends the keepalive unreported, as `ShotDetection.ProcessedStartsShotExactly` says.
- Blocking.WrapperSucceedsExactly: for the AVR phase over rounds in time order.
- Liveness: no claim that the device answers, since the repository has no model of it.
- Blocking wrappers `keepalive`, `send_recv`, `recv_msg` and `complete_shot`.
- Connecting, socket timeouts, callbacks, logging and formatting.
- The GVP JSON connection and its NUL splitter, and the FRP server.
