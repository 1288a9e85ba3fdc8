/** From the fields a decoder has read to the message it returns. */
module Reading {
  import opened Options
  import opened Bytes
  import opened Wire
  import opened Messages
  import opened Layouts

  /** A reader that went through the whole layout of `c` knows what `c` decodes. */
  lemma DecodedFromFields(c: Codec, b: bytes, types: seq<Type>, parsed: Option<(seq<Value>, bytes)>, vs: seq<Value>)
    requires types == Layout(c, FailedBytes(b)) && Parse(types, b) == parsed
    requires parsed.Some? ==> parsed.value.0 == vs
    ensures Decoded(c, b) == if parsed.None? then None else Some(FromFields(c, vs))
  {
  }

  // ----- What each codec reads and builds, one layout at a time -----

  lemma BranchEndRequestOfRead(failed: bool, e: BranchEndRequest, branchId: nat, branchType: byte)
    requires e.branchId == ToInt64(branchId) && e.branchType == ToInt8(branchType)
    ensures Layout(BranchCommitRequestCodec, failed) == Layout(BranchRollbackRequestCodec, failed) ==
            [StrType(2), NumType(8), NumType(1), StrType(2), StrType(4)]
    ensures var vs := [
              Str(2, e.xid), Num(8, branchId), Num(1, branchType), Str(2, e.resourceId), Str(4, e.applicationData)];
            && FromFields(BranchCommitRequestCodec, vs) == BranchCommitRequest(e)
            && FromFields(BranchRollbackRequestCodec, vs) == BranchRollbackRequest(e)
  {
  }

  lemma BranchRegisterOfRead(failed: bool, r: BranchRegister, branchType: byte)
    requires r.branchType == ToInt8(branchType)
    ensures Layout(BranchRegisterRequestCodec, failed) == Layout(GlobalLockQueryRequestCodec, failed) ==
            [StrType(2), NumType(1), StrType(2), StrType(4), StrType(4)]
    ensures var vs := [
              Str(2, r.xid), Num(1, branchType), Str(2, r.resourceId), Str(4, r.lockKey), Str(4, r.applicationData)];
            && FromFields(BranchRegisterRequestCodec, vs) == BranchRegisterRequest(r)
            && FromFields(GlobalLockQueryRequestCodec, vs) == GlobalLockQueryRequest(r)
  {
  }

  lemma BranchReportOfRead(failed: bool, r: BranchReport, branchId: nat, status: byte, branchType: byte)
    requires r.branchId == ToInt64(branchId) && r.status == ToInt8(status) && r.branchType == ToInt8(branchType)
    ensures Layout(BranchReportRequestCodec, failed) ==
            [StrType(2), NumType(8), NumType(1), StrType(2), StrType(4), NumType(1)]
    ensures FromFields(BranchReportRequestCodec, [
              Str(2, r.xid), Num(8, branchId), Num(1, status), Str(2, r.resourceId), Str(4, r.applicationData),
              Num(1, branchType)]) == BranchReportRequest(r)
  {
  }

  lemma RegisterRMOfRead(failed: bool, i: IdentifyRequest, resourceIds: bytes)
    ensures Layout(RegisterRMRequestCodec, failed) == [StrType(2), StrType(2), StrType(2), StrType(2), StrType(4)]
    ensures FromFields(RegisterRMRequestCodec, [
              Str(2, i.version), Str(2, i.applicationId), Str(2, i.transactionServiceGroup), Str(2, i.extraData),
              Str(4, resourceIds)]) == RegisterRMRequest(i, resourceIds)
  {
  }

  lemma BranchEndResponseLayout(failed: bool, vs: seq<Value>)
    ensures Layout(BranchCommitResponseCodec, failed) ==
            TxTypes(MSG8, failed) + [StrType(2), NumType(8), NumType(1)]
    ensures Layout(BranchRollbackResponseCodec, failed) ==
            TxTypes(MSG_ROLLBACK, failed) + [StrType(2), NumType(8), NumType(1)]
    ensures FromFields(BranchCommitResponseCodec, vs) == BranchCommitResponse(BranchEndResponseFrom(vs))
    ensures FromFields(BranchRollbackResponseCodec, vs) == BranchRollbackResponse(BranchEndResponseFrom(vs))
  {
  }

  lemma TxLayouts(failed: bool)
    ensures Layout(GlobalBeginResponseCodec, failed) == TxTypes(MSG16, failed) + [StrType(2), StrType(2)]
    ensures Layout(BranchRegisterResponseCodec, failed) == TxTypes(MSG16, failed) + [NumType(8)]
    ensures Layout(BranchReportResponseCodec, failed) == TxTypes(MSG8, failed)
    ensures Layout(GlobalLockQueryResponseCodec, failed) == TxTypes(MSG8, failed) + [NumType(2)]
  {
  }

  /** The transaction response, one read after another. */
  lemma TxReads(rule: MsgRule, t: TransactionResponse)
    ensures var failed := t.resultCode == RESULT_CODE_FAILED;
            && TxRead(rule, t) == (
                 if failed then [] + [Num(1, t.resultCode)] + [Str(rule.width, t.msg)] + [Num(1, ToByte(t.errorCode))]
                 else [] + [Num(1, t.resultCode)] + [Num(1, ToByte(t.errorCode))])
            && TxTypes(rule, failed) == (
                 if failed then [] + [NumType(1)] + [StrType(rule.width)] + [NumType(1)]
                 else [] + [NumType(1)] + [NumType(1)])
  {
  }

  /** A transaction response that a decoder can have read. */
  predicate IsRead(t: TransactionResponse) {
    (t.resultCode == RESULT_CODE_FAILED || t.msg == []) && 0 <= t.errorCode < 0x100
  }

  /** The transaction response read at the front of a body, and what follows it. */
  lemma TxOfRead(rule: MsgRule, t: TransactionResponse, vs: seq<Value>, tail: seq<Value>)
    requires IsRead(t) && vs == TxRead(rule, t) + tail
    ensures TxFrom(vs) == t && |vs| == TxEnd(vs) + |tail|
    ensures forall i :: 0 <= i < |tail| ==> vs[TxEnd(vs) + i] == tail[i]
  {
  }

  lemma BranchEndResponseOfRead(rule: MsgRule, e: BranchEndResponse, branchId: nat, branchStatus: byte)
    requires IsRead(e.tx)
    requires e.branchId == ToInt64(branchId) && e.branchStatus == ToInt8(branchStatus)
    ensures BranchEndResponseFrom(TxRead(rule, e.tx) + [Str(2, e.xid), Num(8, branchId), Num(1, branchStatus)]) == e
  {
    var tail := [Str(2, e.xid), Num(8, branchId), Num(1, branchStatus)];
    TxOfRead(rule, e.tx, TxRead(rule, e.tx) + tail, tail);
    assert tail[0].s == e.xid && tail[1].n == branchId && tail[2].n == branchStatus;
  }

  lemma GlobalEndResponseOfRead(e: GlobalEndResponse)
    requires IsRead(e.tx)
    ensures GlobalEndResponseFrom(TxRead(MSG16, e.tx) + [Num(1, e.globalStatus)]) == e
  {
    var tail := [Num(1, e.globalStatus)];
    TxOfRead(MSG16, e.tx, TxRead(MSG16, e.tx) + tail, tail);
  }

  lemma GlobalEndResponseDecodedFromFields(
    b: bytes, types: seq<Type>, parsed: Option<(seq<Value>, bytes)>, vs: seq<Value>)
    requires types == TxTypes(MSG16, FailedBytes(b)) + [NumType(1)] && Parse(types, b) == parsed
    requires parsed.Some? ==> parsed.value.0 == vs
    ensures GlobalEndResponseDecoded(b) == if parsed.None? then None else Some(GlobalEndResponseFrom(vs))
  {
  }

  lemma GlobalBeginResponseOfRead(tx: TransactionResponse, xid: bytes, extraData: bytes)
    requires IsRead(tx)
    ensures FromFields(GlobalBeginResponseCodec, TxRead(MSG16, tx) + [Str(2, xid), Str(2, extraData)]) ==
            GlobalBeginResponse(tx, xid, extraData)
  {
    var tail := [Str(2, xid), Str(2, extraData)];
    TxOfRead(MSG16, tx, TxRead(MSG16, tx) + tail, tail);
    assert tail[0].s == xid && tail[1].s == extraData;
  }

  lemma BranchRegisterResponseOfRead(tx: TransactionResponse, branchId: nat)
    requires IsRead(tx)
    ensures FromFields(BranchRegisterResponseCodec, TxRead(MSG16, tx) + [Num(8, branchId)]) ==
            BranchRegisterResponse(tx, ToInt64(branchId))
  {
    var tail := [Num(8, branchId)];
    TxOfRead(MSG16, tx, TxRead(MSG16, tx) + tail, tail);
  }

  lemma BranchReportResponseOfRead(tx: TransactionResponse)
    requires IsRead(tx)
    ensures FromFields(BranchReportResponseCodec, TxRead(MSG8, tx)) == BranchReportResponse(tx)
  {
    TxOfRead(MSG8, tx, TxRead(MSG8, tx), []);
  }

  lemma GlobalLockQueryResponseOfRead(tx: TransactionResponse, lockable: nat)
    requires IsRead(tx)
    ensures FromFields(GlobalLockQueryResponseCodec, TxRead(MSG8, tx) + [Num(2, lockable)]) ==
            GlobalLockQueryResponse(tx, lockable == 1)
  {
    var tail := [Num(2, lockable)];
    TxOfRead(MSG8, tx, TxRead(MSG8, tx) + tail, tail);
  }
}
