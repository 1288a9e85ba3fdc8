/** How long an encoding is. */
module Lengths {
  import opened Bytes
  import opened Wire
  import opened Messages
  import opened Layouts

  function ValueLength(v: Value): nat {
    if v.Num? then v.w else v.w + |v.s|
  }

  function TotalLength(vs: seq<Value>): nat {
    if vs == [] then 0 else ValueLength(vs[0]) + TotalLength(vs[1..])
  }

  lemma {:induction false} PrintLength(vs: seq<Value>)
    ensures |Print(vs)| == TotalLength(vs)
  {
    if vs != [] {
      PrintCons(vs);
      PrintLength(vs[1..]);
    }
  }

  function Drop(vs: seq<Value>, i: nat): seq<Value> {
    if i <= |vs| then vs[i..] else []
  }

  function LengthAt(vs: seq<Value>, i: nat): nat {
    if i < |vs| then ValueLength(vs[i]) else 0
  }

  lemma TotalFrom(vs: seq<Value>, i: nat)
    ensures TotalLength(Drop(vs, i)) == LengthAt(vs, i) + TotalLength(Drop(vs, i + 1))
  {
    if i < |vs| {
      assert vs[i..][1..] == vs[i + 1..];
    }
  }

  function SixLengths(vs: seq<Value>): nat {
    LengthAt(vs, 0) + LengthAt(vs, 1) + LengthAt(vs, 2) + LengthAt(vs, 3) + LengthAt(vs, 4) + LengthAt(vs, 5)
  }

  /** The length of at most six printed fields, written out. */
  lemma SmallTotal(vs: seq<Value>)
    requires |vs| <= 6
    ensures |Print(vs)| == SixLengths(vs)
  {
    PrintLength(vs);
    TotalFrom(vs, 0);
    TotalFrom(vs, 1);
    TotalFrom(vs, 2);
    TotalFrom(vs, 3);
    TotalFrom(vs, 4);
    TotalFrom(vs, 5);
    assert Drop(vs, 0) == vs;
  }

  function TxLength(rule: MsgRule, t: TransactionResponse): nat {
    if t.resultCode == RESULT_CODE_FAILED then
      2 + rule.width + (if |t.msg| > rule.bound then rule.bound else |t.msg|)
    else 2
  }

  function BranchEndLength(e: BranchEndRequest): nat {
    17 + |e.xid| + |e.resourceId| + |e.applicationData|
  }

  function RegisterLength(r: BranchRegister): nat {
    13 + |r.xid| + |r.resourceId| + |r.lockKey| + |r.applicationData|
  }

  function GlobalEndLength(e: GlobalEndRequest): nat {
    4 + |e.xid| + |e.extraData|
  }

  function IdentifyLength(i: IdentifyRequest): nat {
    8 + |i.version| + |i.applicationId| + |i.transactionServiceGroup| + |i.extraData|
  }

  /** The length of a body, as a sum over the fields of the message. */
  function BodyLength(m: Message): nat {
    match m
    case GlobalBeginRequest(_, name) => 6 + |name|
    case GlobalBeginResponse(tx, xid, extra) => TxLength(MSG16, tx) + 4 + |xid| + |extra|
    case BranchCommitRequest(e) => BranchEndLength(e)
    case BranchCommitResponse(e) => TxLength(MSG8, e.tx) + 11 + |e.xid|
    case BranchRollbackRequest(e) => BranchEndLength(e)
    case BranchRollbackResponse(e) => TxLength(MSG_ROLLBACK, e.tx) + 11 + |e.xid|
    case GlobalCommitRequest(e) => GlobalEndLength(e)
    case GlobalCommitResponse(e) => TxLength(MSG16, e.tx) + 1
    case GlobalRollbackRequest(e) => GlobalEndLength(e)
    case GlobalRollbackResponse(e) => TxLength(MSG16, e.tx) + 1
    case BranchRegisterRequest(r) => RegisterLength(r)
    case BranchRegisterResponse(tx, _) => TxLength(MSG16, tx) + 8
    case BranchReportRequest(r) => 18 + |r.xid| + |r.resourceId| + |r.applicationData|
    case BranchReportResponse(tx) => TxLength(MSG8, tx)
    case GlobalStatusRequest(e) => GlobalEndLength(e)
    case GlobalStatusResponse(e) => TxLength(MSG16, e.tx) + 1
    case GlobalReportRequest(e, _) => GlobalEndLength(e) + 1
    case GlobalReportResponse(e) => TxLength(MSG16, e.tx) + 1
    case GlobalLockQueryRequest(r) => RegisterLength(r)
    case GlobalLockQueryResponse(tx, _) => TxLength(MSG8, tx) + 2
    case RegisterTMRequest(i) => IdentifyLength(i)
    case RegisterTMResponse(i) => 3 + |i.version|
    case RegisterRMRequest(i, resourceIds) => IdentifyLength(i) + 4 + |resourceIds|
    case RegisterRMResponse(i) => 3 + |i.version|
  }

  lemma FewFields(m: Message)
    ensures |Fields(m)| <= 6
  {
  }

  lemma BodyLengthExact(m: Message)
    ensures |EncodeBody(m)| == BodyLength(m)
  {
    FewFields(m);
    SmallTotal(Fields(m));
    if IsBranchRequest(CodecOf(m)) {
      BranchRequestTotal(m);
    } else if IsBranchResponse(CodecOf(m)) {
      BranchResponseTotal(m);
    } else if IsGlobalResponse(CodecOf(m)) {
      GlobalResponseTotal(m);
    } else {
      OtherTotal(m);
    }
  }

  lemma TxTotal(rule: MsgRule, t: TransactionResponse, tail: seq<Value>)
    requires |tail| <= 3
    ensures SixLengths(TxFields(rule, t) + tail) == TxLength(rule, t) + SixLengths(tail)
  {
    var vs, k := TxFields(rule, t) + tail, |TxFields(rule, t)|;
    assert forall i: nat :: i < |tail| ==> vs[k + i] == tail[i];
  }

  lemma BranchEndResponseTotal(rule: MsgRule, e: BranchEndResponse)
    ensures SixLengths(BranchEndResponseFields(rule, e)) == TxLength(rule, e.tx) + 11 + |e.xid|
  {
    hide TxFields, TxLength;
    TxTotal(rule, e.tx, [Str(2, e.xid), Num(8, ToUint64(e.branchId)), Num(1, ToByte(e.branchStatus))]);
  }

  lemma TxAndOneTotal(rule: MsgRule, t: TransactionResponse, v: Value)
    ensures SixLengths(TxFields(rule, t) + [v]) == TxLength(rule, t) + ValueLength(v)
  {
    hide TxFields, TxLength;
    TxTotal(rule, t, [v]);
  }

  lemma TxAloneTotal(rule: MsgRule, t: TransactionResponse)
    ensures SixLengths(TxFields(rule, t)) == TxLength(rule, t)
  {
  }

  lemma GlobalBeginResponseTotal(tx: TransactionResponse, xid: bytes, extra: bytes)
    ensures SixLengths(TxFields(MSG16, tx) + [Str(2, xid), Str(2, extra)]) ==
            TxLength(MSG16, tx) + 4 + |xid| + |extra|
  {
    hide TxFields, TxLength;
    TxTotal(MSG16, tx, [Str(2, xid), Str(2, extra)]);
  }

  lemma BranchEndRequestTotal(e: BranchEndRequest)
    ensures SixLengths(BranchEndRequestFields(e)) == BranchEndLength(e)
  {
  }

  lemma RegisterTotal(r: BranchRegister)
    ensures SixLengths(BranchRegisterFields(r)) == RegisterLength(r)
  {
  }

  lemma BranchReportTotal(r: BranchReport)
    ensures SixLengths(BranchReportFields(r)) == 18 + |r.xid| + |r.resourceId| + |r.applicationData|
  {
  }

  lemma BranchResponseTotal(m: Message)
    requires IsBranchResponse(CodecOf(m))
    ensures SixLengths(Fields(m)) == BodyLength(m)
  {
    hide SixLengths, TxFields, TxLength, BranchEndResponseFields;
    match m
    case BranchCommitResponse(e) => BranchEndResponseTotal(MSG8, e);
    case BranchRollbackResponse(e) => BranchEndResponseTotal(MSG_ROLLBACK, e);
    case BranchRegisterResponse(tx, branchId) => TxAndOneTotal(MSG16, tx, Num(8, ToUint64(branchId)));
    case BranchReportResponse(tx) => TxAloneTotal(MSG8, tx);
    case GlobalLockQueryResponse(tx, lockable) => TxAndOneTotal(MSG8, tx, Num(2, if lockable then 1 else 0));
  }

  lemma GlobalResponseTotal(m: Message)
    requires IsGlobalResponse(CodecOf(m))
    ensures SixLengths(Fields(m)) == BodyLength(m)
  {
    hide SixLengths, TxFields, TxLength;
    match m
    case GlobalBeginResponse(tx, xid, extra) => GlobalBeginResponseTotal(tx, xid, extra);
    case GlobalCommitResponse(e) => TxAndOneTotal(MSG16, e.tx, Num(1, e.globalStatus));
    case GlobalRollbackResponse(e) => TxAndOneTotal(MSG16, e.tx, Num(1, e.globalStatus));
    case GlobalStatusResponse(e) => TxAndOneTotal(MSG16, e.tx, Num(1, e.globalStatus));
    case GlobalReportResponse(e) => TxAndOneTotal(MSG16, e.tx, Num(1, e.globalStatus));
  }

  lemma BranchRequestTotal(m: Message)
    requires IsBranchRequest(CodecOf(m))
    ensures SixLengths(Fields(m)) == BodyLength(m)
  {
    hide SixLengths, BranchEndRequestFields, BranchRegisterFields, BranchReportFields;
    match m
    case BranchCommitRequest(e) => BranchEndRequestTotal(e);
    case BranchRollbackRequest(e) => BranchEndRequestTotal(e);
    case BranchRegisterRequest(r) => RegisterTotal(r);
    case GlobalLockQueryRequest(r) => RegisterTotal(r);
    case BranchReportRequest(r) => BranchReportTotal(r);
  }

  lemma OtherTotal(m: Message)
    requires !IsBranchRequest(CodecOf(m)) && !IsTransactionResponse(CodecOf(m))
    ensures SixLengths(Fields(m)) == BodyLength(m)
  {
    hide TxFields, TxLength;
  }

  /** The longest a registered response can be, once its strings fit. */
  const MAX_RESPONSE_BODY := 163845

  /** Every response whose strings fit stays far below the frame limit. */
  lemma ResponseBound(m: Message)
    requires IsTransactionResponse(CodecOf(m)) || IsIdentifyResponse(CodecOf(m))
    requires Fits(m)
    ensures |EncodeBody(m)| <= MAX_RESPONSE_BODY
    ensures V1_HEAD_LENGTH + 2 + |EncodeBody(m)| < MAX_FRAME_LENGTH
    ensures V1_HEAD_LENGTH == 16 && MAX_FRAME_LENGTH == 8_388_608
  {
    hide EncodeBody;
    BodyLengthExact(m);
  }

  /** The bound is reached. */
  lemma ResponseBoundTight()
    ensures exists m :: IsTransactionResponse(CodecOf(m)) && Fits(m) && |EncodeBody(m)| == MAX_RESPONSE_BODY
  {
    var msg: bytes := seq(0x7FFF, i => 0);
    var xid: bytes := seq(0xFFFF, i => 0);
    var m := GlobalBeginResponse(TransactionResponse(RESULT_CODE_FAILED, msg, 0), xid, xid);
    BodyLengthExact(m);
    assert IsTransactionResponse(CodecOf(m)) && Fits(m);
  }
}
