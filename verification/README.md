# The Seata wire codecs, modelled and proved in Dafny

Seata's clients and servers exchange typed messages. Each kind of message has a
codec that writes its struct to a byte buffer and reads it back; a manager finds
the codec by type code and puts a two-byte header before the body. This project
models that layer and proves what a maintainer relies on when changing it: that
the printers and parsers undo each other, that framing is never lost, that every
message meets its own codec, and that concurrent registration loses nothing.

## How the model is built

- `Wire.dfy` is the grammar that every body is written in: a list of fields, each
  a big-endian number or a string after its length. Printing and parsing are
  proved inverse once, by induction over field lists.
- `Layouts.dfy` states, for every codec, the fields of a message, the field types
  the codec reads, the message it builds, and the normal form `Norm` that one
  trip over the wire leaves. `WireBytes.dfy` spells out the bytes of every kind
  in digits, apart from those layouts. `LayoutProofs.dfy`, `Bodies.dfy` and `Lengths.dfy`
  prove how these fit together.
- `BranchCodecs.dfy`, `GlobalCodecs.dfy` and `IdentifyCodecs.dfy` are the codecs
  themselves: methods that write to and read from a `ByteBuffer` step by step,
  each proved to compute what `Layouts.dfy` states. `Dispatch.dfy` is the call
  through the codec interface.
- `Registry.dfy` sees the registry as a history of registrations.
  `CodecManager.dfy` is the manager with its nested maps, the package singleton
  and `Init`; `Frames.dfy` proves what frames guarantee on such a registry.
- `Concurrency.dfy` runs `GetCodecManager` and `RegisterCodec` in any number of
  threads, one atomic step at a time, in any order a schedule picks.

## What the model assumes

- The helpers of `pkg/util/bytes` are not part of the repository. `ByteBuffer`
  states their behaviour: writes append, reads move a cursor, numbers are
  big-endian, and a string follows an unsigned length prefix of 8, 16 or 32 bits
  that is cut to its width while the string is written whole.
- What those helpers return when the input ends early is not part of this model:
  a decoder then returns nothing, and the manager `TooShort`.
- The header reader is not part of the repository either: a header that cannot
  be read is type code 0. No codec declares 0, so the manager returns nil.
- Strings and byte slices are byte sequences, so nil and empty coincide.
- The width of `TransactionErrorCode` is not part of the repository; it is any
  integer here, and the encoder cuts it to a byte.
- `sync.Mutex` and `sync.Once` have their documented meaning, and memory is
  sequentially consistent.
- The codecs are the 24 of the repository; they have no state.

## Where the code falls short of its promise

- A failed rollback response with a `Msg` over 255 bytes does not decode to its
  normal form: the encoder clamps to 32767 bytes but writes an 8-bit length. The
  decoder need not fail: it can return a different message. The exact condition is
  `Bodies.RollbackResponseExact`; `Bodies.RollbackResponseMisread` says what such a
  message holds, and `Bodies.RollbackResponseLosesFraming` states an input.
- The global-report request codec declares the type of the global-report
  response, against its own comment (`global_report_request_codec.go:53-56`). The
  model follows the code: `Init` does not register it, so that request encodes to
  nil, and registering it breaks the response. The exact condition is
  `Frames.DispatchExact` for sending and `Frames.ReceiveExact` for receiving.
- A string longer than its prefix can say is written with a wrapped length. The
  round trips hold exactly when all strings fit (`Layouts.Fits`).

Nothing was executed: all statements are about the model.

## Model

| member | source | states |
|---|---|---|
| Wire.ParseOfPrint | protocol/codec/branch_register_req_codec.go:29-53 | Reading a printed list of fields gives the same fields back and leaves exactly the bytes that follow, for every field list and every suffix. |
| Wire.PrintOfParse | protocol/codec/branch_register_req_codec.go:29-53 | Whatever is read off any input has the types asked for, fits its widths, and prints to exactly the bytes consumed. |
| Wire.ParseOfPrintExact | protocol/codec/branch_rollback_response_codec.go:47-65 | A field list survives printing and reading if and only if every number and every length fits its width. |
| Bodies.BodyRoundTrip | protocol/codec/branch_commit_response_codec.go:32-66 | Self-delimiting bodies, for all 24 codecs and every message whose strings fit: whatever bytes follow the encoded message, its codec returns the normal form and stops right after the body. |
| Bodies.BodyRoundTripExact | protocol/codec/branch_commit_response_codec.go:32-66 | Decoding an encoded message gives its normal form if and only if every string written fits its length prefix. |
| Bodies.DecodedFits | protocol/codec/branch_commit_req_codec.go:28-39 | On any input a codec returns only messages of its own struct, with every string within its prefix width. |
| Bodies.NormStable | protocol/codec/common_identify_response_codec.go:27-54 | Normalising twice is normalising once, keeps the kind, and does not change the encoding. |
| Bodies.BodyReverse | protocol/codec/global_lock_query_resp_codec.go:31-68 | A body that was read encodes back to the same bytes if and only if its flags are 0 or 1 and its `Msg` is within the encoder's bound; every 32-bit timeout is covered. |
| Bodies.BodyPrefixFree | protocol/codec/branch_commit_response_codec.go:32-66 | Two encodings by one codec, of messages whose strings fit, that agree with anything appended have equal normal forms and equal rests: no body is a proper prefix of another. |
| Bodies.TruncationKeepsFraming | protocol/codec/global_begin_response_codec.go:30-62 | Every transaction response whose strings fit: a failed `Msg` arrives as its first min(length, 127 or 32767) bytes, a successful one as empty, with the code and every later field intact and the cursor right after the body. A failed `Msg` may have any length, but for the rollback response, where it fits up to 255 bytes. |
| Bodies.RollbackResponseExact | protocol/codec/branch_rollback_response_codec.go:51-58 | The rollback response decodes to its normal form exactly when its xid fits and it is not a failed one with a `Msg` over 255 bytes: the clamp is 32767 but the prefix is one byte. |
| Bodies.RollbackResponseMisread | protocol/codec/branch_rollback_response_codec.go:31-58 | Whenever a failed rollback response with a `Msg` over 255 bytes decodes at all, its `Msg` is cut to its written length modulo 256 and the next byte of `Msg` is read as the error code. |
| Bodies.RollbackResponseLosesFraming | protocol/codec/branch_rollback_response_codec.go:51-58 | A failed rollback response with a `Msg` of 256 zero bytes, its own normal form, decodes without failing to another message: the same response with an empty `Msg`. |
| Bodies.CommitAndRollbackAgree | protocol/codec/branch_rollback_response_codec.go:47-65 | Commit and rollback responses with the same fields have identical bytes exactly when a failed `Msg` has at most 127 bytes. |
| Bodies.RegisterRMBody | protocol/codec/register_rm_request_codec.go:40-51 | An RM registration is a TM registration followed by one 32-bit string. |
| Bodies.RegisterRMExtendsTM | protocol/codec/common_identify_request_codec.go:39-49 | The TM codec reads the embedded TM request out of an RM registration and leaves exactly the resource ids. |
| Bodies.GlobalReportBody | protocol/codec/global_report_request_codec.go:45-51 | A global report is a global-end request followed by the status byte. |
| Bodies.GlobalReportExtendsGlobalEnd | protocol/codec/common_global_end_request_codec.go:37-45 | The global-end codec reads the embedded request out of a global report and leaves exactly the status byte. |
| Bodies.TimeoutConversion | protocol/codec/global_begin_request_codec.go:32-43 | For every 64-bit duration the decoded timeout is (t / 1000000, toward zero, mod 2^32) * 1000000 and a second trip changes nothing; it is at most t and less than 1000000 ns short exactly when 0 <= t < 2^32 * 1000000. |
| Layouts.MillisTimeout | protocol/codec/global_begin_request_codec.go:42 | Back to nanoseconds is times 1000000, which does not overflow 64 bits for any 32-bit count of milliseconds. |
| Bytes.BigEndianAt | protocol/codec/branch_commit_req_codec.go:45-49 | Numbers and length prefixes of every width go out most significant byte first: byte i of w is n / 256^(w-1-i) mod 256, for every integer n. |
| Bytes.BigEndianWraps | protocol/codec/global_begin_request_codec.go:32-33 | Only the low w bytes of a number are written, as the integer conversions cut it. |
| Bytes.FromBigEndianWeighted | protocol/codec/branch_commit_req_codec.go:32-36 | Reading a number gives the sum of its bytes, each times its weight, most significant first. |
| WireBytes.BranchEndRequestBytes | protocol/codec/branch_commit_req_codec.go:41-52 | The bytes of branch commit and rollback requests: xid, eight bytes of two's complement branch id, type, resource id, application data under a 32-bit length. |
| WireBytes.BranchRegisterBytes | protocol/codec/branch_register_req_codec.go:42-53 | The bytes of branch register and lock query requests: xid, type, resource id, then lock key and application data under 32-bit lengths. |
| WireBytes.BranchReportBytes | protocol/codec/branch_report_req_codec.go:43-55 | The bytes of a branch report: xid, branch id, status, resource id, application data, and the branch type last. |
| WireBytes.GlobalEndRequestBytes | protocol/codec/common_global_end_request_codec.go:27-35 | The bytes of commit, rollback, status and report requests: xid first, then extra data, and the status byte of a report after both. |
| WireBytes.IdentifyRequestBytes | protocol/codec/common_identify_request_codec.go:27-37 | The bytes of TM and RM registrations: version, application id, service group, extra data, and for an RM the resource ids under a 32-bit length. |
| WireBytes.BranchCommitResponseBytes | protocol/codec/branch_commit_response_codec.go:48-66 | The bytes of a branch commit response, with `Msg` of at most 127 bytes only under result code 0. |
| WireBytes.BranchRollbackResponseBytes | protocol/codec/branch_rollback_response_codec.go:47-65 | The bytes of a branch rollback response: `Msg` of up to 32767 bytes after one byte of its length. |
| WireBytes.BranchRegisterResponseBytes | protocol/codec/branch_register_response_codec.go:44-60 | The bytes of a branch register response: result, error code, eight bytes of branch id. |
| WireBytes.BranchReportResponseBytes | protocol/codec/branch_statue_report_response_codec.go:43-58 | The bytes of a branch report response: result and error code alone. |
| WireBytes.GlobalBeginResponseBytes | protocol/codec/global_begin_response_codec.go:30-47 | The bytes of a global begin response: result, error code, xid, extra data. |
| WireBytes.GlobalEndResponseBytes | protocol/codec/common_global_end_response_codec.go:30-46 | The bytes of commit, rollback, status and report responses: result, error code, status byte. |
| WireBytes.GlobalLockQueryResponseBytes | protocol/codec/global_lock_query_resp_codec.go:48-68 | The bytes of a lock query response: result, error code, and 0 1 when lockable, 0 0 when not. |
| WireBytes.IdentifyResponseBytes | protocol/codec/common_identify_response_codec.go:27-39 | The bytes of TM and RM identify responses: 1 when identified, 0 when not, then the version. |
| WireBytes.IdentifyResponseRead | protocol/codec/common_identify_response_codec.go:41-54 | On every input that is read, `Identified` is true exactly when the first byte is 1, the version is the string after it, and result code, `Msg` and extra data are zero. |
| WireBytes.GlobalBeginRequestBytes | protocol/codec/global_begin_request_codec.go:29-37 | For every 64-bit duration, negative ones too: the low four bytes of t in whole milliseconds of 1000000 ns, rounded toward zero, then the name. |
| WireBytes.GlobalBeginRoundTrip | protocol/codec/global_begin_request_codec.go:29-47 | A timeout of 0 to 2^32 ms comes back as t - t mod 1000000 ns, and the first four bytes spell t / 1000000. |
| WireBytes.GlobalBeginRequestRead | protocol/codec/global_begin_request_codec.go:39-47 | On every input that is read, the timeout is the number of the first four bytes times 1000000 and the name is the string after it. |
| WireBytes.RequestBytesRead | protocol/codec/common_global_end_request_codec.go:37-45 | Whatever a request codec reads off any input, the bytes it consumed are exactly those of the message it returns. |
| WireBytes.WrongStruct | protocol/codec/branch_commit_req_codec.go:42 | Handed another struct, ten codecs encode nothing but zero bytes, of the length given for each, and the other fourteen panic. |
| Lengths.BodyLengthExact | protocol/codec/global_begin_response_codec.go:30-47 | The length of every encoding is a closed sum over the fields of the message. |
| Lengths.ResponseBound | protocol/message/constant.go:153-157 | A response whose strings fit has a body of at most 163845 bytes, so with type code and the 16-byte head it stays below the frame limit of 8388608. |
| Lengths.ResponseBoundTight | protocol/codec/global_begin_response_codec.go:30-47 | The bound on responses is reached. |
| LayoutProofs.FieldsTyped | protocol/codec/branch_register_response_codec.go:30-60 | The fields every encoder writes have, in order, the types its decoder reads, on both branches of the result code. |
| LayoutProofs.FromFieldsOfFields | protocol/codec/common_global_end_response_codec.go:30-60 | Rebuilding a message from the fields it was written as gives its normal form. |
| LayoutProofs.FieldsOfFromFields | protocol/codec/global_lock_query_resp_codec.go:31-68 | Fields of the right types encode back to themselves exactly when canonical. |
| LayoutProofs.FieldsFit | protocol/codec/branch_commit_response_codec.go:52-63 | All written fields fit exactly when the message's strings do; clamping makes `Msg` fit everywhere but in the rollback response. |
| BranchCodecs.EncodeBranchCommitRequest | protocol/codec/branch_commit_req_codec.go:41-52 | The ordered buffer writes produce the body of the message, whose bytes `WireBytes` spells out in wire order; another struct is encoded as the zero value. |
| BranchCodecs.DecodeBranchCommitRequest | protocol/codec/branch_commit_req_codec.go:28-39 | The cursor reads, on any input, return what parsing the codec's layout gives, or nothing when the input ends early. |
| BranchCodecs.EncodeBranchCommitResponse | protocol/codec/branch_commit_response_codec.go:48-66 | The ordered buffer writes produce the body of the message, whose bytes `WireBytes` spells out in wire order; another struct is encoded as the zero value. |
| BranchCodecs.DecodeBranchCommitResponse | protocol/codec/branch_commit_response_codec.go:32-46 | The cursor reads, on any input, return what parsing the codec's layout gives, or nothing when the input ends early. |
| BranchCodecs.EncodeBranchRollbackRequest | protocol/codec/branch_rollback_req_codec.go:41-52 | The ordered buffer writes produce the body of the message, whose bytes `WireBytes` spells out in wire order; another struct is encoded as the zero value. |
| BranchCodecs.DecodeBranchRollbackRequest | protocol/codec/branch_rollback_req_codec.go:28-39 | The cursor reads, on any input, return what parsing the codec's layout gives, or nothing when the input ends early. |
| BranchCodecs.EncodeBranchRollbackResponse | protocol/codec/branch_rollback_response_codec.go:47-65 | The ordered buffer writes produce the body of the message, whose bytes `WireBytes` spells out in wire order; another struct is encoded as the zero value. |
| BranchCodecs.DecodeBranchRollbackResponse | protocol/codec/branch_rollback_response_codec.go:31-45 | The cursor reads, on any input, return what parsing the codec's layout gives, or nothing when the input ends early. |
| BranchCodecs.EncodeBranchRegisterRequest | protocol/codec/branch_register_req_codec.go:42-53 | The ordered buffer writes produce the body of the message, whose bytes `WireBytes` spells out in wire order; another struct is encoded as the zero value. |
| BranchCodecs.DecodeBranchRegisterRequest | protocol/codec/branch_register_req_codec.go:29-40 | The cursor reads, on any input, return what parsing the codec's layout gives, or nothing when the input ends early. |
| BranchCodecs.EncodeBranchRegisterResponse | protocol/codec/branch_register_response_codec.go:44-60 | The ordered buffer writes produce the body of the message, whose bytes `WireBytes` spells out in wire order; another struct is encoded as the zero value. |
| BranchCodecs.DecodeBranchRegisterResponse | protocol/codec/branch_register_response_codec.go:30-42 | The cursor reads, on any input, return what parsing the codec's layout gives, or nothing when the input ends early. |
| BranchCodecs.EncodeBranchReportRequest | protocol/codec/branch_report_req_codec.go:43-55 | The ordered buffer writes produce the body of the message, whose bytes `WireBytes` spells out in wire order; another struct is encoded as the zero value. |
| BranchCodecs.DecodeBranchReportRequest | protocol/codec/branch_report_req_codec.go:29-41 | The cursor reads, on any input, return what parsing the codec's layout gives, or nothing when the input ends early. |
| BranchCodecs.EncodeBranchReportResponse | protocol/codec/branch_statue_report_response_codec.go:43-58 | The ordered buffer writes produce the body of the message, whose bytes `WireBytes` spells out in wire order; another struct is encoded as the zero value. |
| BranchCodecs.DecodeBranchReportResponse | protocol/codec/branch_statue_report_response_codec.go:32-41 | The cursor reads, on any input, return what parsing the codec's layout gives, or nothing when the input ends early. |
| GlobalCodecs.EncodeGlobalBeginRequest | protocol/codec/global_begin_request_codec.go:29-37 | The ordered buffer writes produce the body of the message, whose bytes `WireBytes` spells out in wire order; another struct panics. |
| GlobalCodecs.DecodeGlobalBeginRequest | protocol/codec/global_begin_request_codec.go:39-47 | The cursor reads, on any input, return what parsing the codec's layout gives, or nothing when the input ends early. |
| GlobalCodecs.EncodeGlobalBeginResponse | protocol/codec/global_begin_response_codec.go:30-47 | The ordered buffer writes produce the body of the message, whose bytes `WireBytes` spells out in wire order; another struct panics. |
| GlobalCodecs.DecodeGlobalBeginResponse | protocol/codec/global_begin_response_codec.go:49-62 | The cursor reads, on any input, return what parsing the codec's layout gives, or nothing when the input ends early. |
| GlobalCodecs.EncodeGlobalEndRequest | protocol/codec/common_global_end_request_codec.go:27-35 | The ordered buffer writes produce the printed fields of the shared struct, whose bytes `WireBytes` spells out in wire order. |
| GlobalCodecs.DecodeGlobalEndRequest | protocol/codec/common_global_end_request_codec.go:37-45 | The cursor reads, on any input, return what parsing the codec's layout gives, or nothing when the input ends early. |
| GlobalCodecs.EncodeGlobalEndResponse | protocol/codec/common_global_end_response_codec.go:30-46 | The ordered buffer writes produce the printed fields of the shared struct, whose bytes `WireBytes` spells out in wire order. |
| GlobalCodecs.DecodeGlobalEndResponse | protocol/codec/common_global_end_response_codec.go:48-60 | The cursor reads, on any input, return what parsing the codec's layout gives, or nothing when the input ends early. |
| GlobalCodecs.EncodeGlobalReportRequest | protocol/codec/global_report_request_codec.go:45-51 | The ordered buffer writes produce the body of the message, whose bytes `WireBytes` spells out in wire order; another struct panics. |
| GlobalCodecs.DecodeGlobalReportRequest | protocol/codec/global_report_request_codec.go:30-42 | The cursor reads, on any input, return what parsing the codec's layout gives, or nothing when the input ends early. |
| GlobalCodecs.EncodeGlobalLockQueryRequest | protocol/codec/global_lock_query_req_codec.go:42-53 | The ordered buffer writes produce the body of the message, whose bytes `WireBytes` spells out in wire order; another struct is encoded as the zero value. |
| GlobalCodecs.DecodeGlobalLockQueryRequest | protocol/codec/global_lock_query_req_codec.go:29-40 | The cursor reads, on any input, return what parsing the codec's layout gives, or nothing when the input ends early. |
| GlobalCodecs.EncodeGlobalLockQueryResponse | protocol/codec/global_lock_query_resp_codec.go:48-68 | The ordered buffer writes produce the body of the message, whose bytes `WireBytes` spells out in wire order; another struct is encoded as the zero value. |
| GlobalCodecs.DecodeGlobalLockQueryResponse | protocol/codec/global_lock_query_resp_codec.go:31-46 | The cursor reads, on any input, return what parsing the codec's layout gives, or nothing when the input ends early. |
| IdentifyCodecs.EncodeIdentifyRequest | protocol/codec/common_identify_request_codec.go:27-37 | The ordered buffer writes produce the printed fields of the shared struct, whose bytes `WireBytes` spells out in wire order. |
| IdentifyCodecs.DecodeIdentifyRequest | protocol/codec/common_identify_request_codec.go:39-49 | The cursor reads, on any input, return what parsing the codec's layout gives, or nothing when the input ends early. |
| IdentifyCodecs.EncodeIdentifyResponse | protocol/codec/common_identify_response_codec.go:27-39 | The ordered buffer writes produce the printed fields of the shared struct, whose bytes `WireBytes` spells out in wire order. |
| IdentifyCodecs.DecodeIdentifyResponse | protocol/codec/common_identify_response_codec.go:41-54 | The cursor reads, on any input, return what parsing the codec's layout gives, or nothing when the input ends early. |
| IdentifyCodecs.EncodeRegisterRMRequest | protocol/codec/register_rm_request_codec.go:40-51 | The ordered buffer writes produce the body of the message, whose bytes `WireBytes` spells out in wire order; another struct panics. |
| IdentifyCodecs.DecodeRegisterRMRequest | protocol/codec/register_rm_request_codec.go:27-38 | The cursor reads, on any input, return what parsing the codec's layout gives, or nothing when the input ends early. |
| ByteBuffers.ByteBuffer.ReadByte | protocol/codec/common_identify_response_codec.go:43-45 | Assumed helper: reads the byte at the cursor; past the end it reads 0 and the buffer is short from then on. |
| ByteBuffers.ByteBuffer.Append | protocol/codec/global_report_request_codec.go:48-50 | Assumed helper: appends the bytes of one field, after whatever contents the buffer was created with, and leaves what is read so far as it was. `Bytes.BigEndianAt` fixes their order. |
| Dispatch.Encode | protocol/codec/codec.go:111 | The call through the `Codec` interface, for every codec and every message, right struct or not. |
| Dispatch.Decode | protocol/codec/codec.go:97 | The call through the `Codec` interface, for every codec and every input. |
| Dispatch.EncodeDelegating | protocol/codec/global_commit_req_codec.go:36-39 | Delegating codecs panic on another struct and otherwise encode the embedded part with the shared codec. |
| Dispatch.DecodeDelegating | protocol/codec/global_commit_req_codec.go:28-34 | Delegating codecs wrap what the shared codec decodes in their own struct. |
| Registry.LastRegisteredExact | protocol/codec/codec.go:70-86 | After any registrations a lookup gives the last codec registered at its key, and nothing exactly when there is none. |
| Registry.LastRegisteredType | protocol/codec/codec.go:78 | Every codec a lookup returns declares the message type it is stored under. |
| Registry.LastRegisteredAppend | protocol/codec/codec.go:70-79 | Later registrations shadow earlier ones at their own keys and at no other. |
| Registry.InitLogMembers | protocol/codec/codec.go:119-150 | `Init` registers every codec but the global-report request codec, and only as Seata codecs. |
| Registry.InitOverlay | protocol/codec/codec.go:119-150 | `Init` in any order, repeated any number of times, on any registry: the same Seata entries result and all other keys are untouched. |
| Registry.InitMakesReady | protocol/codec/codec.go:119-150 | From the empty registry any such run leaves exactly the table of 23 codecs and nothing under other codec types. |
| Registry.InitAlwaysReady | protocol/codec/codec.go:119-150 | From any registry of these codecs `Init` leaves the Seata entries of `Init` alone. |
| CodecManagers.CodecManager.RegisterCodec | protocol/codec/codec.go:70-79 | Creating the inner map when missing and inserting into it in place keeps the nested registry equal, key by key, to the last registration at every key. |
| CodecManagers.CodecManager.GetCodec | protocol/codec/codec.go:81-86 | The two-level lookup returns the last codec registered at the key, or nil. |
| CodecManagers.CodecManager.Encode | protocol/codec/codec.go:100-117 | Header bytes and body grown into one slice are the frame of the message; nil without a codec. |
| CodecManagers.CodecManager.Decode | protocol/codec/codec.go:88-98 | The signed type code picks the codec that decodes the rest; nil without a codec, so for every frame shorter than its header. |
| CodecManagers.CodecPackage.GetCodecManager | protocol/codec/codec.go:54-63 | Creates the manager once and returns that one ever after, keeping its registrations. |
| CodecManagers.CodecPackage.Init | protocol/codec/codec.go:119-150 | Makes the 23 registrations in order on the singleton. A lookup at codec type 1 then finds a codec exactly for the types 1-16, 18, 21, 22 and 101-104, and from an empty package nothing under any other codec type. |
| Frames.HeaderExact | protocol/codec/codec.go:112-113 | For every integer code, the two bytes read back as a signed 16-bit integer give the code exactly when it lies in [-32768, 32767]. |
| Frames.HeaderBack | protocol/codec/codec.go:89-91 | Any two bytes, read as a signed code and written again, are the same bytes. |
| Frames.FrameHead | protocol/message/constant.go:28-135 | The two header bytes of every kind, as literal numbers, in front of its body. |
| Frames.TypeCodesAgree | protocol/message/response_message.go:47-142 | Message and codec enumerations give the same number for every kind except the global-report request. |
| Frames.DispatchExact | protocol/codec/global_report_request_codec.go:54-56 | For any registrations: no message makes a type assertion fail or a zero value be encoded if and only if the global-report request codec has not taken the response's key. |
| Frames.ReceiveExact | protocol/codec/codec.go:88-98 | For any registrations: on every input, a message that is received has the type code of its frame, if and only if the global-report request codec has not taken the response's key. |
| Frames.RequestReceivedAsResponse | protocol/codec/global_report_request_codec.go:30-56 | With that key taken, the body of any fitting global-report request under the response's type code is received as that request. |
| Frames.ShortFrame | protocol/codec/codec.go:89-97 | On any registry no codec is found for a frame shorter than its header, so `in[2:]` is never out of range. |
| Frames.TakenKeyPanics | protocol/codec/global_report_request_codec.go:54-56 | Registering the global-report request codec makes encoding any global-report response panic. |
| Frames.ReadyDispatch | protocol/message/request_message.go:48-157 | After `Init` every message meets the codec for its own struct; the global-report request alone has none and encodes to nil. |
| Frames.FrameRoundTripExact | protocol/codec/codec.go:88-150 | After `Init`, for all 23 registered kinds, decoding the frame of a message gives its normal form if and only if its strings fit. |
| Frames.FrameStable | protocol/codec/codec.go:88-117 | After `Init`, for every registered message whose strings fit, its frame is decoded, and encoding what was decoded gives the same frame. |
| Frames.FramePrefixFree | protocol/codec/codec.go:100-117 | Over all registered kinds at once, frames of messages whose strings fit that agree with anything appended have the same kind, normal form and rest, although several kinds share one body layout. |
| Frames.FrameInjective | protocol/codec/codec.go:100-117 | Two registered messages whose strings fit have the same frame if and only if they have the same normal form. |
| Frames.StreamUnique | protocol/codec/codec.go:100-117 | Concatenated frames of registered messages whose strings fit parse in one way only: equal streams carry the same number of messages with the same normal forms. |
| Frames.FrameReverseExact | protocol/codec/codec.go:88-117 | A received frame encodes back to the same bytes if and only if its body is read to the end and is canonical. |
| Concurrency.StepInv | protocol/codec/codec.go:54-79 | Each atomic step of any thread keeps the invariant: one manager, a consistent lock, unshared inner maps, and a registry that refines the registrations in lock order. |
| Concurrency.RunInv | protocol/codec/codec.go:54-79 | The invariant holds in every state of every run, for any number of threads, any registrations and any interleaving. |
| Concurrency.OneManagerEver | protocol/codec/codec.go:54-63 | At most one manager is ever created, and every completed `GetCodecManager` returned it, never nil. |
| Concurrency.MutualExclusion | protocol/codec/codec.go:71-72 | Two threads are never inside `RegisterCodec` together. |
| Concurrency.NoRegistrationLost | protocol/codec/codec.go:70-79 | Whenever the lock is free the registry is the outcome of all calls in lock order, which holds every thread's completed calls in that thread's own order and no call of any other thread. |
| Concurrency.SomeThreadCanStep | protocol/codec/codec.go:54-79 | No deadlock: until all is registered, some thread can take a step. |
| Concurrency.CanFinish | protocol/codec/codec.go:54-79 | From every reachable state some schedule completes all registrations. |
| Concurrency.ConcurrentInit | protocol/codec/codec.go:119-150 | `Init` run by any number of threads at once, in any interleaving, ends in the registry of one `Init`, for Seata and for every other codec type. |
| Concurrency.RoundTripAfterConcurrentInit | protocol/codec/codec.go:88-150 | After concurrent `Init`, frames round-trip to the normal form exactly when all strings fit. |

## Left out

- Generated protobuf code and gRPC headers: accessors and descriptors whose runtime is not part of the repository.
- Error handling of the byte helpers on truncated input: their package is not part of the repository.
- Lookups while a registration is in progress: `GetCodec` reads the map without the lock, so they are stated in states where no call holds it.
- Memory models weaker than sequential consistency: the unsynchronised nil test of `GetCodecManager` is one atomic read here.
- The mutex inside `CodecManagers.CodecManager`: that class is the sequential manager; locking is the subject of `Concurrency.dfy`.
- Codecs written outside the repository and registered at run time: the codecs are a closed enumeration.
- Separate methods for the one-line delegating codecs: they are cases of `Dispatch.EncodeDelegating` and `Dispatch.DecodeDelegating`.
- Logging when no codec is found: only the nil result is modelled.
- Steps finer than one access to shared state: inside the lock, creating an inner map and storing it is one step of `Concurrency.dfy`.
- Merged, heartbeat, undo-log and future messages: no codec is written for them.
- Global and branch statuses: constants only, no code moves between them.
- UTF-8 validity of a truncated `Msg`: the code slices bytes.
