/** What every codec puts on the wire: the fields of each message, the field
    types each codec reads, and the message it builds from them. */
module Layouts {
  import opened Options
  import opened Bytes
  import opened Wire
  import opened Messages

  // ----- The codecs -----

  datatype Codec =
    | GlobalBeginRequestCodec
    | GlobalBeginResponseCodec
    | BranchCommitRequestCodec
    | BranchCommitResponseCodec
    | BranchRollbackRequestCodec
    | BranchRollbackResponseCodec
    | GlobalCommitRequestCodec
    | GlobalCommitResponseCodec
    | GlobalRollbackRequestCodec
    | GlobalRollbackResponseCodec
    | BranchRegisterRequestCodec
    | BranchRegisterResponseCodec
    | BranchReportRequestCodec
    | BranchReportResponseCodec
    | GlobalStatusRequestCodec
    | GlobalStatusResponseCodec
    | GlobalReportRequestCodec
    | GlobalReportResponseCodec
    | GlobalLockQueryRequestCodec
    | GlobalLockQueryResponseCodec
    | RegisterTMRequestCodec
    | RegisterTMResponseCodec
    | RegisterRMRequestCodec
    | RegisterRMResponseCodec
  {
    /** The type a codec is registered under.  The global-report request codec
        declares the type of the response. */
    function GetMessageType(): MessageType {
      match this
      case GlobalBeginRequestCodec => GLOBAL_BEGIN
      case GlobalBeginResponseCodec => GLOBAL_BEGIN_RESULT
      case BranchCommitRequestCodec => BRANCH_COMMIT
      case BranchCommitResponseCodec => BRANCH_COMMIT_RESULT
      case BranchRollbackRequestCodec => BRANCH_ROLLBACK
      case BranchRollbackResponseCodec => BRANCH_ROLLBACK_RESULT
      case GlobalCommitRequestCodec => GLOBAL_COMMIT
      case GlobalCommitResponseCodec => GLOBAL_COMMIT_RESULT
      case GlobalRollbackRequestCodec => GLOBAL_ROLLBACK
      case GlobalRollbackResponseCodec => GLOBAL_ROLLBACK_RESULT
      case BranchRegisterRequestCodec => BRANCH_REGISTER
      case BranchRegisterResponseCodec => BRANCH_REGISTER_RESULT
      case BranchReportRequestCodec => BRANCH_STATUS_REPORT
      case BranchReportResponseCodec => BRANCH_STATUS_REPORT_RESULT
      case GlobalStatusRequestCodec => GLOBAL_STATUS
      case GlobalStatusResponseCodec => GLOBAL_STATUS_RESULT
      case GlobalReportRequestCodec => GLOBAL_REPORT_RESULT
      case GlobalReportResponseCodec => GLOBAL_REPORT_RESULT
      case GlobalLockQueryRequestCodec => GLOBAL_LOCK_QUERY
      case GlobalLockQueryResponseCodec => GLOBAL_LOCK_QUERY_RESULT
      case RegisterTMRequestCodec => REG_CLT
      case RegisterTMResponseCodec => REG_CLT_RESULT
      case RegisterRMRequestCodec => REG_RM
      case RegisterRMResponseCodec => REG_RM_RESULT
    }
  }

  /** The codec written for the struct of `m`. */
  function CodecOf(m: Message): Codec {
    match m
    case GlobalBeginRequest(_, _) => GlobalBeginRequestCodec
    case GlobalBeginResponse(_, _, _) => GlobalBeginResponseCodec
    case BranchCommitRequest(_) => BranchCommitRequestCodec
    case BranchCommitResponse(_) => BranchCommitResponseCodec
    case BranchRollbackRequest(_) => BranchRollbackRequestCodec
    case BranchRollbackResponse(_) => BranchRollbackResponseCodec
    case GlobalCommitRequest(_) => GlobalCommitRequestCodec
    case GlobalCommitResponse(_) => GlobalCommitResponseCodec
    case GlobalRollbackRequest(_) => GlobalRollbackRequestCodec
    case GlobalRollbackResponse(_) => GlobalRollbackResponseCodec
    case BranchRegisterRequest(_) => BranchRegisterRequestCodec
    case BranchRegisterResponse(_, _) => BranchRegisterResponseCodec
    case BranchReportRequest(_) => BranchReportRequestCodec
    case BranchReportResponse(_) => BranchReportResponseCodec
    case GlobalStatusRequest(_) => GlobalStatusRequestCodec
    case GlobalStatusResponse(_) => GlobalStatusResponseCodec
    case GlobalReportRequest(_, _) => GlobalReportRequestCodec
    case GlobalReportResponse(_) => GlobalReportResponseCodec
    case GlobalLockQueryRequest(_) => GlobalLockQueryRequestCodec
    case GlobalLockQueryResponse(_, _) => GlobalLockQueryResponseCodec
    case RegisterTMRequest(_) => RegisterTMRequestCodec
    case RegisterTMResponse(_) => RegisterTMResponseCodec
    case RegisterRMRequest(_, _) => RegisterRMRequestCodec
    case RegisterRMResponse(_) => RegisterRMResponseCodec
  }

  // ----- The part shared by transaction responses -----

  /** How a response carries `Msg`: the width of its length prefix and the
      length it is clamped to. */
  datatype MsgRule = MsgRule(width: nat, bound: nat)

  const MSG8 := MsgRule(1, 0x7F)
  const MSG16 := MsgRule(2, 0x7FFF)
  /** The rollback response clamps to 16-bit length but writes an 8-bit prefix. */
  const MSG_ROLLBACK := MsgRule(1, 0x7FFF)

  function RuleOf(c: Codec): MsgRule {
    match c
    case BranchCommitResponseCodec => MSG8
    case BranchReportResponseCodec => MSG8
    case GlobalLockQueryResponseCodec => MSG8
    case BranchRollbackResponseCodec => MSG_ROLLBACK
    case _ => MSG16
  }

  function TxFields(rule: MsgRule, t: TransactionResponse): seq<Value> {
    if t.resultCode == RESULT_CODE_FAILED then
      [Num(1, t.resultCode), Str(rule.width, Clamp(t.msg, rule.bound)), Num(1, ToByte(t.errorCode))]
    else
      [Num(1, t.resultCode), Num(1, ToByte(t.errorCode))]
  }

  function TxTypes(rule: MsgRule, failed: bool): seq<Type> {
    if failed then [NumType(1), StrType(rule.width), NumType(1)] else [NumType(1), NumType(1)]
  }

  /** The fields of a transaction response as they are read. */
  function TxRead(rule: MsgRule, t: TransactionResponse): seq<Value> {
    if t.resultCode == RESULT_CODE_FAILED then
      [Num(1, t.resultCode), Str(rule.width, t.msg), Num(1, ToByte(t.errorCode))]
    else
      [Num(1, t.resultCode), Num(1, ToByte(t.errorCode))]
  }

  function TxNorm(rule: MsgRule, t: TransactionResponse): TransactionResponse {
    TransactionResponse(
      t.resultCode,
      if t.resultCode == RESULT_CODE_FAILED then Clamp(t.msg, rule.bound) else [],
      ToByte(t.errorCode))
  }

  // ----- Encoding: message to fields -----

  function BranchEndRequestFields(e: BranchEndRequest): seq<Value> {
    [Str(2, e.xid), Num(8, ToUint64(e.branchId)), Num(1, ToByte(e.branchType)), Str(2, e.resourceId),
     Str(4, e.applicationData)]
  }

  function BranchEndResponseFields(rule: MsgRule, e: BranchEndResponse): seq<Value> {
    TxFields(rule, e.tx) + [Str(2, e.xid), Num(8, ToUint64(e.branchId)), Num(1, ToByte(e.branchStatus))]
  }

  function BranchRegisterFields(r: BranchRegister): seq<Value> {
    [Str(2, r.xid), Num(1, ToByte(r.branchType)), Str(2, r.resourceId), Str(4, r.lockKey),
     Str(4, r.applicationData)]
  }

  function BranchReportFields(r: BranchReport): seq<Value> {
    [Str(2, r.xid), Num(8, ToUint64(r.branchId)), Num(1, ToByte(r.status)), Str(2, r.resourceId),
     Str(4, r.applicationData), Num(1, ToByte(r.branchType))]
  }

  function GlobalEndRequestFields(e: GlobalEndRequest): seq<Value> {
    [Str(2, e.xid), Str(2, e.extraData)]
  }

  function GlobalEndResponseFields(e: GlobalEndResponse): seq<Value> {
    TxFields(MSG16, e.tx) + [Num(1, e.globalStatus)]
  }

  function IdentifyRequestFields(i: IdentifyRequest): seq<Value> {
    [Str(2, i.version), Str(2, i.applicationId), Str(2, i.transactionServiceGroup), Str(2, i.extraData)]
  }

  function IdentifyResponseFields(i: IdentifyResponse): seq<Value> {
    [Num(1, if i.identified then 1 else 0), Str(2, i.version)]
  }

  const NANOS_PER_MILLI := 1_000_000

  /** A duration in nanoseconds as the 32-bit number of milliseconds on the wire. */
  function TimeoutMillis(timeout: int64): uint32 {
    Quotient(timeout, NANOS_PER_MILLI) % 0x1_0000_0000
  }

  /** The duration read back from the wire; it never overflows 64 bits. */
  function MillisTimeout(millis: nat): (r: int64)
    ensures millis < 0x1_0000_0000 ==> r == millis * 1_000_000
  {
    ToInt64(millis * NANOS_PER_MILLI)
  }

  function Fields(m: Message): seq<Value> {
    match m
    case GlobalBeginRequest(timeout, name) => [Num(4, TimeoutMillis(timeout)), Str(2, name)]
    case GlobalBeginResponse(tx, xid, extra) => TxFields(MSG16, tx) + [Str(2, xid), Str(2, extra)]
    case BranchCommitRequest(e) => BranchEndRequestFields(e)
    case BranchCommitResponse(e) => BranchEndResponseFields(MSG8, e)
    case BranchRollbackRequest(e) => BranchEndRequestFields(e)
    case BranchRollbackResponse(e) => BranchEndResponseFields(MSG_ROLLBACK, e)
    case GlobalCommitRequest(e) => GlobalEndRequestFields(e)
    case GlobalCommitResponse(e) => GlobalEndResponseFields(e)
    case GlobalRollbackRequest(e) => GlobalEndRequestFields(e)
    case GlobalRollbackResponse(e) => GlobalEndResponseFields(e)
    case BranchRegisterRequest(r) => BranchRegisterFields(r)
    case BranchRegisterResponse(tx, branchId) => TxFields(MSG16, tx) + [Num(8, ToUint64(branchId))]
    case BranchReportRequest(r) => BranchReportFields(r)
    case BranchReportResponse(tx) => TxFields(MSG8, tx)
    case GlobalStatusRequest(e) => GlobalEndRequestFields(e)
    case GlobalStatusResponse(e) => GlobalEndResponseFields(e)
    case GlobalReportRequest(e, status) => GlobalEndRequestFields(e) + [Num(1, status)]
    case GlobalReportResponse(e) => GlobalEndResponseFields(e)
    case GlobalLockQueryRequest(r) => BranchRegisterFields(r)
    case GlobalLockQueryResponse(tx, lockable) => TxFields(MSG8, tx) + [Num(2, if lockable then 1 else 0)]
    case RegisterTMRequest(i) => IdentifyRequestFields(i)
    case RegisterTMResponse(i) => IdentifyResponseFields(i)
    case RegisterRMRequest(i, resourceIds) => IdentifyRequestFields(i) + [Str(4, resourceIds)]
    case RegisterRMResponse(i) => IdentifyResponseFields(i)
  }

  function EncodeBody(m: Message): bytes {
    Print(Fields(m))
  }

  // ----- Encoding a value of another struct -----

  const ZERO_TX := TransactionResponse(0, [], 0)
  const ZERO_BRANCH_END := BranchEndRequest([], 0, 0, [], [])
  const ZERO_BRANCH_ENDED := BranchEndResponse(ZERO_TX, [], 0, 0)
  const ZERO_REGISTER := BranchRegister([], 0, [], [], [])
  const ZERO_REPORT := BranchReport([], 0, [], 0, [], 0)

  /** The message that `c` encodes when it is handed another struct: codecs that
      ignore the failed type assertion go on with the zero value, the others
      panic. */
  function ZeroOf(c: Codec): Option<Message> {
    match c
    case BranchCommitRequestCodec => Some(BranchCommitRequest(ZERO_BRANCH_END))
    case BranchCommitResponseCodec => Some(BranchCommitResponse(ZERO_BRANCH_ENDED))
    case BranchRollbackRequestCodec => Some(BranchRollbackRequest(ZERO_BRANCH_END))
    case BranchRollbackResponseCodec => Some(BranchRollbackResponse(ZERO_BRANCH_ENDED))
    case BranchRegisterRequestCodec => Some(BranchRegisterRequest(ZERO_REGISTER))
    case BranchRegisterResponseCodec => Some(BranchRegisterResponse(ZERO_TX, 0))
    case BranchReportRequestCodec => Some(BranchReportRequest(ZERO_REPORT))
    case BranchReportResponseCodec => Some(BranchReportResponse(ZERO_TX))
    case GlobalLockQueryRequestCodec => Some(GlobalLockQueryRequest(ZERO_REGISTER))
    case GlobalLockQueryResponseCodec => Some(GlobalLockQueryResponse(ZERO_TX, false))
    case _ => None
  }

  datatype EncodeResult = Encoded(body: bytes) | Panicked

  /** What `Encode` of codec `c` does with `m`. */
  function EncodeAs(c: Codec, m: Message): EncodeResult {
    if CodecOf(m) == c then Encoded(EncodeBody(m))
    else
      match ZeroOf(c)
      case Some(zero) => Encoded(EncodeBody(zero))
      case None => Panicked
  }

  // ----- Decoding: bytes to fields to message -----

  /** The types of the fields that `c` reads; `failed` says that the result code
      is Failed, and matters to the transaction responses only. */
  function Layout(c: Codec, failed: bool): seq<Type> {
    var tx := TxTypes(RuleOf(c), failed);
    match c
    case GlobalBeginRequestCodec => [NumType(4), StrType(2)]
    case GlobalBeginResponseCodec => tx + [StrType(2), StrType(2)]
    case BranchCommitRequestCodec => [StrType(2), NumType(8), NumType(1), StrType(2), StrType(4)]
    case BranchCommitResponseCodec => tx + [StrType(2), NumType(8), NumType(1)]
    case BranchRollbackRequestCodec => [StrType(2), NumType(8), NumType(1), StrType(2), StrType(4)]
    case BranchRollbackResponseCodec => tx + [StrType(2), NumType(8), NumType(1)]
    case GlobalCommitRequestCodec => [StrType(2), StrType(2)]
    case GlobalCommitResponseCodec => tx + [NumType(1)]
    case GlobalRollbackRequestCodec => [StrType(2), StrType(2)]
    case GlobalRollbackResponseCodec => tx + [NumType(1)]
    case BranchRegisterRequestCodec => [StrType(2), NumType(1), StrType(2), StrType(4), StrType(4)]
    case BranchRegisterResponseCodec => tx + [NumType(8)]
    case BranchReportRequestCodec => [StrType(2), NumType(8), NumType(1), StrType(2), StrType(4), NumType(1)]
    case BranchReportResponseCodec => tx
    case GlobalStatusRequestCodec => [StrType(2), StrType(2)]
    case GlobalStatusResponseCodec => tx + [NumType(1)]
    case GlobalReportRequestCodec => [StrType(2), StrType(2), NumType(1)]
    case GlobalReportResponseCodec => tx + [NumType(1)]
    case GlobalLockQueryRequestCodec => [StrType(2), NumType(1), StrType(2), StrType(4), StrType(4)]
    case GlobalLockQueryResponseCodec => tx + [NumType(2)]
    case RegisterTMRequestCodec => [StrType(2), StrType(2), StrType(2), StrType(2)]
    case RegisterTMResponseCodec => [NumType(1), StrType(2)]
    case RegisterRMRequestCodec => [StrType(2), StrType(2), StrType(2), StrType(2), StrType(4)]
    case RegisterRMResponseCodec => [NumType(1), StrType(2)]
  }

  function NumAt(vs: seq<Value>, i: nat): nat {
    if i < |vs| && vs[i].Num? then vs[i].n else 0
  }

  function StrAt(vs: seq<Value>, i: nat): bytes {
    if i < |vs| && vs[i].Str? then vs[i].s else []
  }

  predicate FailedFields(vs: seq<Value>) {
    NumAt(vs, 0) == RESULT_CODE_FAILED
  }

  /** Where the fields after the transaction response start. */
  function TxEnd(vs: seq<Value>): nat {
    if FailedFields(vs) then 3 else 2
  }

  function TxFrom(vs: seq<Value>): TransactionResponse {
    TransactionResponse(
      ToByte(NumAt(vs, 0)),
      if FailedFields(vs) then StrAt(vs, 1) else [],
      ToByte(NumAt(vs, TxEnd(vs) - 1)))
  }

  function BranchEndRequestFrom(vs: seq<Value>): BranchEndRequest {
    BranchEndRequest(StrAt(vs, 0), ToInt64(NumAt(vs, 1)), ToInt8(NumAt(vs, 2)), StrAt(vs, 3), StrAt(vs, 4))
  }

  function BranchEndResponseFrom(vs: seq<Value>): BranchEndResponse {
    var k := TxEnd(vs);
    BranchEndResponse(TxFrom(vs), StrAt(vs, k), ToInt64(NumAt(vs, k + 1)), ToInt8(NumAt(vs, k + 2)))
  }

  function BranchRegisterFrom(vs: seq<Value>): BranchRegister {
    BranchRegister(StrAt(vs, 0), ToInt8(NumAt(vs, 1)), StrAt(vs, 2), StrAt(vs, 3), StrAt(vs, 4))
  }

  function BranchReportFrom(vs: seq<Value>): BranchReport {
    BranchReport(StrAt(vs, 0), ToInt64(NumAt(vs, 1)), StrAt(vs, 3), ToInt8(NumAt(vs, 2)), StrAt(vs, 4),
                 ToInt8(NumAt(vs, 5)))
  }

  function GlobalEndRequestFrom(vs: seq<Value>): GlobalEndRequest {
    GlobalEndRequest(StrAt(vs, 0), StrAt(vs, 1))
  }

  function GlobalEndResponseFrom(vs: seq<Value>): GlobalEndResponse {
    GlobalEndResponse(TxFrom(vs), ToByte(NumAt(vs, TxEnd(vs))))
  }

  function IdentifyRequestFrom(vs: seq<Value>): IdentifyRequest {
    IdentifyRequest(StrAt(vs, 0), StrAt(vs, 1), StrAt(vs, 2), StrAt(vs, 3))
  }

  /** Only `Identified` and `Version` travel; the other fields stay zero. */
  function IdentifyResponseFrom(vs: seq<Value>): IdentifyResponse {
    IdentifyResponse(0, [], StrAt(vs, 1), [], NumAt(vs, 0) == 1)
  }

  function FromFields(c: Codec, vs: seq<Value>): Message {
    match c
    case GlobalBeginRequestCodec => GlobalBeginRequest(MillisTimeout(NumAt(vs, 0)), StrAt(vs, 1))
    case GlobalBeginResponseCodec =>
      GlobalBeginResponse(TxFrom(vs), StrAt(vs, TxEnd(vs)), StrAt(vs, TxEnd(vs) + 1))
    case BranchCommitRequestCodec => BranchCommitRequest(BranchEndRequestFrom(vs))
    case BranchCommitResponseCodec => BranchCommitResponse(BranchEndResponseFrom(vs))
    case BranchRollbackRequestCodec => BranchRollbackRequest(BranchEndRequestFrom(vs))
    case BranchRollbackResponseCodec => BranchRollbackResponse(BranchEndResponseFrom(vs))
    case GlobalCommitRequestCodec => GlobalCommitRequest(GlobalEndRequestFrom(vs))
    case GlobalCommitResponseCodec => GlobalCommitResponse(GlobalEndResponseFrom(vs))
    case GlobalRollbackRequestCodec => GlobalRollbackRequest(GlobalEndRequestFrom(vs))
    case GlobalRollbackResponseCodec => GlobalRollbackResponse(GlobalEndResponseFrom(vs))
    case BranchRegisterRequestCodec => BranchRegisterRequest(BranchRegisterFrom(vs))
    case BranchRegisterResponseCodec => BranchRegisterResponse(TxFrom(vs), ToInt64(NumAt(vs, TxEnd(vs))))
    case BranchReportRequestCodec => BranchReportRequest(BranchReportFrom(vs))
    case BranchReportResponseCodec => BranchReportResponse(TxFrom(vs))
    case GlobalStatusRequestCodec => GlobalStatusRequest(GlobalEndRequestFrom(vs))
    case GlobalStatusResponseCodec => GlobalStatusResponse(GlobalEndResponseFrom(vs))
    case GlobalReportRequestCodec => GlobalReportRequest(GlobalEndRequestFrom(vs), ToByte(NumAt(vs, 2)))
    case GlobalReportResponseCodec => GlobalReportResponse(GlobalEndResponseFrom(vs))
    case GlobalLockQueryRequestCodec => GlobalLockQueryRequest(BranchRegisterFrom(vs))
    case GlobalLockQueryResponseCodec => GlobalLockQueryResponse(TxFrom(vs), NumAt(vs, TxEnd(vs)) == 1)
    case RegisterTMRequestCodec => RegisterTMRequest(IdentifyRequestFrom(vs))
    case RegisterTMResponseCodec => RegisterTMResponse(IdentifyResponseFrom(vs))
    case RegisterRMRequestCodec => RegisterRMRequest(IdentifyRequestFrom(vs), StrAt(vs, 4))
    case RegisterRMResponseCodec => RegisterRMResponse(IdentifyResponseFrom(vs))
  }

  /** The result code at the front of `b` is Failed; a missing byte reads as 0. */
  predicate FailedBytes(b: bytes) {
    b == [] || b[0] == RESULT_CODE_FAILED
  }

  function ParseBody(c: Codec, b: bytes): Option<(seq<Value>, bytes)> {
    Parse(Layout(c, FailedBytes(b)), b)
  }

  /** The message that `c` reads off the front of `b`, and the bytes it leaves. */
  function DecodeBody(c: Codec, b: bytes): Option<(Message, bytes)> {
    var (vs, rest) :- ParseBody(c, b);
    Some((FromFields(c, vs), rest))
  }

  /** What `Decode` returns: bytes after the body are ignored. */
  function Decoded(c: Codec, b: bytes): Option<Message> {
    var (m, _) :- DecodeBody(c, b);
    Some(m)
  }

  function GlobalEndRequestDecoded(b: bytes): Option<GlobalEndRequest> {
    var (vs, _) :- Parse([StrType(2), StrType(2)], b);
    Some(GlobalEndRequestFrom(vs))
  }

  function GlobalEndResponseDecoded(b: bytes): Option<GlobalEndResponse> {
    var (vs, _) :- Parse(TxTypes(MSG16, FailedBytes(b)) + [NumType(1)], b);
    Some(GlobalEndResponseFrom(vs))
  }

  function IdentifyRequestDecoded(b: bytes): Option<IdentifyRequest> {
    var (vs, _) :- Parse([StrType(2), StrType(2), StrType(2), StrType(2)], b);
    Some(IdentifyRequestFrom(vs))
  }

  function IdentifyResponseDecoded(b: bytes): Option<IdentifyResponse> {
    var (vs, _) :- Parse([NumType(1), StrType(2)], b);
    Some(IdentifyResponseFrom(vs))
  }

  // ----- The normal form -----

  function BranchEndedNorm(rule: MsgRule, e: BranchEndResponse): BranchEndResponse {
    e.(tx := TxNorm(rule, e.tx))
  }

  function GlobalEndedNorm(e: GlobalEndResponse): GlobalEndResponse {
    e.(tx := TxNorm(MSG16, e.tx))
  }

  function IdentifiedNorm(i: IdentifyResponse): IdentifyResponse {
    IdentifyResponse(0, [], i.version, [], i.identified)
  }

  /** What is left of a message after one trip over the wire: `Msg` erased on
      success and clamped on failure, the error code cut to a byte, the timeout
      cut to whole milliseconds modulo 2^32, identify responses reduced. */
  function Norm(m: Message): Message {
    match m
    case GlobalBeginRequest(timeout, name) =>
      GlobalBeginRequest((Quotient(timeout, NANOS_PER_MILLI) % 0x1_0000_0000) * NANOS_PER_MILLI, name)
    case GlobalBeginResponse(tx, xid, extra) => GlobalBeginResponse(TxNorm(MSG16, tx), xid, extra)
    case BranchCommitResponse(e) => BranchCommitResponse(BranchEndedNorm(MSG8, e))
    case BranchRollbackResponse(e) => BranchRollbackResponse(BranchEndedNorm(MSG_ROLLBACK, e))
    case GlobalCommitResponse(e) => GlobalCommitResponse(GlobalEndedNorm(e))
    case GlobalRollbackResponse(e) => GlobalRollbackResponse(GlobalEndedNorm(e))
    case BranchRegisterResponse(tx, branchId) => BranchRegisterResponse(TxNorm(MSG16, tx), branchId)
    case BranchReportResponse(tx) => BranchReportResponse(TxNorm(MSG8, tx))
    case GlobalStatusResponse(e) => GlobalStatusResponse(GlobalEndedNorm(e))
    case GlobalReportResponse(e) => GlobalReportResponse(GlobalEndedNorm(e))
    case GlobalLockQueryResponse(tx, lockable) => GlobalLockQueryResponse(TxNorm(MSG8, tx), lockable)
    case RegisterTMResponse(i) => RegisterTMResponse(IdentifiedNorm(i))
    case RegisterRMResponse(i) => RegisterRMResponse(IdentifiedNorm(i))
    case _ => m
  }

  // ----- When a message fits -----

  predicate Fits16(s: bytes) {
    |s| < 0x1_0000
  }

  predicate Fits32(s: bytes) {
    |s| < 0x1_0000_0000
  }

  predicate BranchEndFits(e: BranchEndRequest) {
    Fits16(e.xid) && Fits16(e.resourceId) && Fits32(e.applicationData)
  }

  predicate RegisterFits(r: BranchRegister) {
    Fits16(r.xid) && Fits16(r.resourceId) && Fits32(r.lockKey) && Fits32(r.applicationData)
  }

  predicate GlobalEndFits(e: GlobalEndRequest) {
    Fits16(e.xid) && Fits16(e.extraData)
  }

  predicate IdentifyFits(i: IdentifyRequest) {
    Fits16(i.version) && Fits16(i.applicationId) && Fits16(i.transactionServiceGroup) && Fits16(i.extraData)
  }

  /** Every string of `m` that is written fits its length prefix.  `Msg` is
      clamped first, so it always fits, except in a rollback response. */
  predicate Fits(m: Message) {
    match m
    case GlobalBeginRequest(_, name) => Fits16(name)
    case GlobalBeginResponse(_, xid, extra) => Fits16(xid) && Fits16(extra)
    case BranchCommitRequest(e) => BranchEndFits(e)
    case BranchCommitResponse(e) => Fits16(e.xid)
    case BranchRollbackRequest(e) => BranchEndFits(e)
    case BranchRollbackResponse(e) =>
      Fits16(e.xid) && (e.tx.resultCode == RESULT_CODE_FAILED ==> |e.tx.msg| <= 0xFF)
    case GlobalCommitRequest(e) => GlobalEndFits(e)
    case GlobalRollbackRequest(e) => GlobalEndFits(e)
    case BranchRegisterRequest(r) => RegisterFits(r)
    case BranchReportRequest(r) => Fits16(r.xid) && Fits16(r.resourceId) && Fits32(r.applicationData)
    case GlobalStatusRequest(e) => GlobalEndFits(e)
    case GlobalReportRequest(e, _) => GlobalEndFits(e)
    case GlobalLockQueryRequest(r) => RegisterFits(r)
    case RegisterTMRequest(i) => IdentifyFits(i)
    case RegisterTMResponse(i) => Fits16(i.version)
    case RegisterRMRequest(i, resourceIds) => IdentifyFits(i) && Fits32(resourceIds)
    case RegisterRMResponse(i) => Fits16(i.version)
    case _ => true
  }

  // ----- When decoded fields encode back -----

  predicate IsBranchRequest(c: Codec) {
    c in {BranchCommitRequestCodec, BranchRollbackRequestCodec, BranchRegisterRequestCodec,
          BranchReportRequestCodec, GlobalLockQueryRequestCodec}
  }

  predicate IsBranchResponse(c: Codec) {
    c in {BranchCommitResponseCodec, BranchRollbackResponseCodec, BranchRegisterResponseCodec,
          BranchReportResponseCodec, GlobalLockQueryResponseCodec}
  }

  predicate IsGlobalResponse(c: Codec) {
    c in {GlobalBeginResponseCodec, GlobalCommitResponseCodec, GlobalRollbackResponseCodec,
          GlobalStatusResponseCodec, GlobalReportResponseCodec}
  }

  predicate IsTransactionResponse(c: Codec) {
    IsBranchResponse(c) || IsGlobalResponse(c)
  }

  predicate IsIdentifyResponse(c: Codec) {
    c in {RegisterTMResponseCodec, RegisterRMResponseCodec}
  }

  /** `Msg` is no longer than the encoder lets it be, and flags are 0 or 1. */
  predicate Canonical(c: Codec, vs: seq<Value>) {
    && (IsTransactionResponse(c) && FailedFields(vs) ==> |StrAt(vs, 1)| <= RuleOf(c).bound)
    && (c == GlobalLockQueryResponseCodec ==> NumAt(vs, TxEnd(vs)) <= 1)
    && (IsIdentifyResponse(c) ==> NumAt(vs, 0) <= 1)
  }
}
