/** Per-layout facts: the fields of a message have the types its codec reads,
    and building a message from fields undoes taking its fields. */
module LayoutProofs {
  import opened Bytes
  import opened Wire
  import opened Messages
  import opened Layouts

  lemma Widths()
    ensures Pow256(1) == 0x100 && Pow256(2) == 0x1_0000 && Pow256(4) == 0x1_0000_0000
    ensures Pow256(8) == 0x1_0000_0000_0000_0000
  {
  }

  lemma SignedBack(x: int64, y: int8)
    ensures ToInt64(ToUint64(x)) == x && ToInt8(ToByte(y)) == y
  {
  }

  lemma UnsignedBack(n: nat, k: nat)
    requires n < 0x1_0000_0000_0000_0000 && k < 0x100
    ensures ToUint64(ToInt64(n)) == n && ToByte(ToInt8(k)) == k && ToByte(k) == k
  {
  }

  // ----- One lemma a layout, forth and back -----

  lemma BranchEndRequestForth(e: BranchEndRequest)
    ensures BranchEndRequestFrom(BranchEndRequestFields(e)) == e
    ensures AllFit(BranchEndRequestFields(e)) <==> BranchEndFits(e)
  {
    Widths();
    SignedBack(e.branchId, e.branchType);
    var vs := BranchEndRequestFields(e);
    assert AllFit(vs) ==> vs[0].Fits() && vs[3].Fits() && vs[4].Fits();
  }

  lemma BranchEndRequestBack(vs: seq<Value>)
    requires Typed(vs, Layout(BranchCommitRequestCodec, false)) && AllFit(vs)
    ensures BranchEndRequestFields(BranchEndRequestFrom(vs)) == vs && BranchEndFits(BranchEndRequestFrom(vs))
  {
    Widths();
    UnsignedBack(vs[1].n, vs[2].n);
  }

  lemma BranchRegisterForth(r: BranchRegister)
    ensures BranchRegisterFrom(BranchRegisterFields(r)) == r
    ensures AllFit(BranchRegisterFields(r)) <==> RegisterFits(r)
  {
    Widths();
    SignedBack(0, r.branchType);
    var vs := BranchRegisterFields(r);
    assert AllFit(vs) ==> vs[0].Fits() && vs[2].Fits() && vs[3].Fits() && vs[4].Fits();
  }

  lemma BranchRegisterBack(vs: seq<Value>)
    requires Typed(vs, Layout(BranchRegisterRequestCodec, false)) && AllFit(vs)
    ensures BranchRegisterFields(BranchRegisterFrom(vs)) == vs && RegisterFits(BranchRegisterFrom(vs))
  {
    Widths();
    UnsignedBack(0, vs[1].n);
  }

  lemma BranchReportForth(r: BranchReport)
    ensures BranchReportFrom(BranchReportFields(r)) == r
    ensures AllFit(BranchReportFields(r)) <==> Fits(BranchReportRequest(r))
  {
    Widths();
    SignedBack(r.branchId, r.branchType);
    SignedBack(r.branchId, r.status);
    var vs := BranchReportFields(r);
    assert AllFit(vs) ==> vs[0].Fits() && vs[3].Fits() && vs[4].Fits();
  }

  lemma BranchReportBack(vs: seq<Value>)
    requires Typed(vs, Layout(BranchReportRequestCodec, false)) && AllFit(vs)
    ensures BranchReportFields(BranchReportFrom(vs)) == vs && Fits(BranchReportRequest(BranchReportFrom(vs)))
  {
    Widths();
    UnsignedBack(vs[1].n, vs[2].n);
    UnsignedBack(vs[1].n, vs[5].n);
  }

  lemma GlobalEndRequestForth(e: GlobalEndRequest)
    ensures GlobalEndRequestFrom(GlobalEndRequestFields(e)) == e
    ensures AllFit(GlobalEndRequestFields(e)) <==> GlobalEndFits(e)
  {
    Widths();
    var vs := GlobalEndRequestFields(e);
    assert AllFit(vs) ==> vs[0].Fits() && vs[1].Fits();
  }

  lemma IdentifyRequestForth(i: IdentifyRequest)
    ensures IdentifyRequestFrom(IdentifyRequestFields(i)) == i
    ensures AllFit(IdentifyRequestFields(i)) <==> IdentifyFits(i)
  {
    Widths();
    var vs := IdentifyRequestFields(i);
    assert AllFit(vs) ==> vs[0].Fits() && vs[1].Fits() && vs[2].Fits() && vs[3].Fits();
  }

  lemma GlobalEndRequestBack(vs: seq<Value>)
    requires Typed(vs, [StrType(2), StrType(2)]) && AllFit(vs)
    ensures GlobalEndRequestFields(GlobalEndRequestFrom(vs)) == vs && GlobalEndFits(GlobalEndRequestFrom(vs))
  {
    Widths();
  }

  lemma IdentifyRequestBack(vs: seq<Value>)
    requires Typed(vs, [StrType(2), StrType(2), StrType(2), StrType(2)]) && AllFit(vs)
    ensures IdentifyRequestFields(IdentifyRequestFrom(vs)) == vs && IdentifyFits(IdentifyRequestFrom(vs))
  {
    Widths();
  }

  lemma GlobalReportForth(e: GlobalEndRequest, status: byte)
    ensures var vs := GlobalEndRequestFields(e) + [Num(1, status)];
            && GlobalEndRequestFrom(vs) == e && ToByte(NumAt(vs, 2)) == status
            && (AllFit(vs) <==> GlobalEndFits(e))
  {
    Widths();
    var vs := GlobalEndRequestFields(e) + [Num(1, status)];
    assert AllFit(vs) ==> vs[0].Fits() && vs[1].Fits();
  }

  lemma RegisterRMForth(i: IdentifyRequest, resourceIds: bytes)
    ensures var vs := IdentifyRequestFields(i) + [Str(4, resourceIds)];
            && IdentifyRequestFrom(vs) == i && StrAt(vs, 4) == resourceIds
            && (AllFit(vs) <==> IdentifyFits(i) && Fits32(resourceIds))
  {
    Widths();
    var vs := IdentifyRequestFields(i) + [Str(4, resourceIds)];
    assert AllFit(vs) ==> vs[0].Fits() && vs[1].Fits() && vs[2].Fits() && vs[3].Fits() && vs[4].Fits();
  }

  lemma IdentifyResponseForth(i: IdentifyResponse)
    ensures IdentifyResponseFrom(IdentifyResponseFields(i)) == IdentifiedNorm(i)
    ensures AllFit(IdentifyResponseFields(i)) <==> Fits16(i.version)
  {
    Widths();
    var vs := IdentifyResponseFields(i);
    assert AllFit(vs) ==> vs[1].Fits();
  }

  lemma GlobalBeginRequestForth(timeout: int64, name: bytes)
    ensures var vs := [Num(4, TimeoutMillis(timeout)), Str(2, name)];
            && MillisTimeout(NumAt(vs, 0)) == (Quotient(timeout, NANOS_PER_MILLI) % 0x1_0000_0000) * NANOS_PER_MILLI
            && StrAt(vs, 1) == name
            && (AllFit(vs) <==> Fits16(name))
  {
    Widths();
    var vs := [Num(4, TimeoutMillis(timeout)), Str(2, name)];
    assert AllFit(vs) ==> vs[1].Fits();
  }

  lemma GlobalReportBack(vs: seq<Value>)
    requires Typed(vs, [StrType(2), StrType(2), NumType(1)]) && AllFit(vs)
    ensures GlobalEndRequestFields(GlobalEndRequestFrom(vs)) + [Num(1, ToByte(NumAt(vs, 2)))] == vs
    ensures GlobalEndFits(GlobalEndRequestFrom(vs))
  {
    Widths();
    UnsignedBack(0, vs[2].n);
  }

  lemma RegisterRMBack(vs: seq<Value>)
    requires Typed(vs, [StrType(2), StrType(2), StrType(2), StrType(2), StrType(4)]) && AllFit(vs)
    ensures IdentifyRequestFields(IdentifyRequestFrom(vs)) + [Str(4, StrAt(vs, 4))] == vs
    ensures IdentifyFits(IdentifyRequestFrom(vs)) && Fits32(StrAt(vs, 4))
  {
    Widths();
  }

  lemma IdentifyResponseBack(vs: seq<Value>)
    requires Typed(vs, [NumType(1), StrType(2)]) && AllFit(vs)
    ensures IdentifyResponseFields(IdentifyResponseFrom(vs)) == vs <==> NumAt(vs, 0) <= 1
    ensures Fits16(IdentifyResponseFrom(vs).version)
  {
    Widths();
    assert IdentifyResponseFields(IdentifyResponseFrom(vs))[1] == vs[1];
    assert vs == [vs[0], vs[1]];
  }

  lemma GlobalBeginRequestBack(vs: seq<Value>)
    requires Typed(vs, [NumType(4), StrType(2)]) && AllFit(vs)
    ensures [Num(4, TimeoutMillis(MillisTimeout(NumAt(vs, 0)))), Str(2, StrAt(vs, 1))] == vs
    ensures Fits16(StrAt(vs, 1))
  {
    Widths();
    MillisBack(vs[0].n);
  }

  lemma MillisBack(millis: uint32)
    ensures TimeoutMillis(MillisTimeout(millis)) == millis
  {
  }

  lemma TxForth(rule: MsgRule, t: TransactionResponse, tail: seq<Value>)
    ensures var vs := TxFields(rule, t) + tail;
            && |vs| == TxEnd(vs) + |tail| && TxFrom(vs) == TxNorm(rule, t)
            && (FailedFields(vs) <==> t.resultCode == RESULT_CODE_FAILED)
    ensures var vs := TxFields(rule, t) + tail;
            forall i :: 0 <= i < |tail| ==> vs[TxEnd(vs) + i] == tail[i]
  {
  }

  lemma TxSplit(rule: MsgRule, vs: seq<Value>, tail: seq<Type>)
    requires Typed(vs, TxTypes(rule, FailedFields(vs)) + tail)
    ensures |vs| == TxEnd(vs) + |tail|
    ensures vs[0].TypeOf() == vs[TxEnd(vs) - 1].TypeOf() == NumType(1)
    ensures FailedFields(vs) ==> vs[1].TypeOf() == StrType(rule.width)
    ensures forall i :: 0 <= i < |tail| ==> vs[TxEnd(vs) + i].TypeOf() == tail[i]
  {
    var ts := TxTypes(rule, FailedFields(vs)) + tail;
    assert forall i :: 0 <= i < |tail| ==> ts[TxEnd(vs) + i] == tail[i];
  }

  lemma TxBack(rule: MsgRule, vs: seq<Value>, tail: seq<Type>)
    requires Typed(vs, TxTypes(rule, FailedFields(vs)) + tail) && AllFit(vs)
    ensures |vs| == TxEnd(vs) + |tail| && TxFrom(vs).resultCode == vs[0].n
    ensures (FailedFields(vs) ==> |StrAt(vs, 1)| <= rule.bound) <==> TxFields(rule, TxFrom(vs)) == vs[..TxEnd(vs)]
    ensures FailedFields(vs) ==> TxFrom(vs).msg == StrAt(vs, 1) && |StrAt(vs, 1)| < Pow256(rule.width)
    ensures forall i :: 0 <= i < |tail| ==> vs[TxEnd(vs) + i].TypeOf() == tail[i]
  {
    hide Typed, TxTypes;
    TxSplit(rule, vs, tail);
    Widths();
    assert vs[0].Fits() && vs[TxEnd(vs) - 1].Fits() && (FailedFields(vs) ==> vs[1].Fits());
    UnsignedBack(0, vs[0].n);
    UnsignedBack(0, vs[TxEnd(vs) - 1].n);
    if FailedFields(vs) {
      assert vs[..3] == [vs[0], vs[1], vs[2]];
      assert TxFields(rule, TxFrom(vs))[1] == Str(rule.width, Clamp(vs[1].s, rule.bound));
    } else {
      assert vs[..2] == [vs[0], vs[1]];
    }
  }

  lemma BranchEndResponseForth(rule: MsgRule, e: BranchEndResponse)
    ensures BranchEndResponseFrom(BranchEndResponseFields(rule, e)) == BranchEndedNorm(rule, e)
  {
    var tail := [Str(2, e.xid), Num(8, ToUint64(e.branchId)), Num(1, ToByte(e.branchStatus))];
    TxForth(rule, e.tx, tail);
    SignedBack(e.branchId, e.branchStatus);
    assert tail[0].s == e.xid && tail[1].n == ToUint64(e.branchId) && tail[2].n == ToByte(e.branchStatus);
  }

  lemma BranchEndResponseBack(rule: MsgRule, vs: seq<Value>)
    requires Typed(vs, TxTypes(rule, FailedFields(vs)) + [StrType(2), NumType(8), NumType(1)]) && AllFit(vs)
    ensures BranchEndResponseFields(rule, BranchEndResponseFrom(vs)) == vs
            <==> (FailedFields(vs) ==> |StrAt(vs, 1)| <= rule.bound)
    ensures var e := BranchEndResponseFrom(vs);
            Fits16(e.xid) && (e.tx.resultCode == RESULT_CODE_FAILED ==> |e.tx.msg| < Pow256(rule.width))
  {
    hide TxFields, TxTypes, Typed;
    Widths();
    var tail := [StrType(2), NumType(8), NumType(1)];
    TxBack(rule, vs, tail);
    var k := TxEnd(vs);
    assert vs[k].TypeOf() == tail[0] && vs[k + 1].TypeOf() == tail[1] && vs[k + 2].TypeOf() == tail[2];
    assert vs[k].Fits() && vs[k + 1].Fits() && vs[k + 2].Fits();
    UnsignedBack(vs[k + 1].n, vs[k + 2].n);
    assert vs == vs[..k] + [vs[k], vs[k + 1], vs[k + 2]];
    SplitEqual(TxFields(rule, TxFrom(vs)), [vs[k], vs[k + 1], vs[k + 2]], vs, k);
  }

  /** Two concatenations with equal tails are equal when their heads are. */
  lemma SplitEqual(head: seq<Value>, tail: seq<Value>, vs: seq<Value>, k: nat)
    requires k <= |vs| && vs[k..] == tail
    ensures head + tail == vs <==> head == vs[..k]
  {
    if head + tail == vs {
      assert |head| == k;
      assert (head + tail)[..k] == head;
    }
  }

  // ----- Together -----

  lemma FieldsTyped(m: Message)
    ensures Typed(Fields(m), Layout(CodecOf(m), FailedFields(Fields(m))))
  {
    if IsBranchRequest(CodecOf(m)) {
      BranchRequestTyped(m);
    } else if IsBranchResponse(CodecOf(m)) {
      BranchResponseTyped(m);
    } else if IsGlobalResponse(CodecOf(m)) {
      GlobalResponseTyped(m);
    } else {
      OtherTyped(m);
    }
  }

  lemma BranchRequestTyped(m: Message)
    requires IsBranchRequest(CodecOf(m))
    ensures Typed(Fields(m), Layout(CodecOf(m), FailedFields(Fields(m))))
  {
    hide FailedFields, TxFields, TxTypes;
  }

  lemma OtherTyped(m: Message)
    requires !IsBranchRequest(CodecOf(m)) && !IsTransactionResponse(CodecOf(m))
    ensures Typed(Fields(m), Layout(CodecOf(m), FailedFields(Fields(m))))
  {
    hide FailedFields, TxFields, TxTypes;
  }

  lemma TxTyped(rule: MsgRule, t: TransactionResponse, tail: seq<Value>, tailTypes: seq<Type>)
    requires Typed(tail, tailTypes)
    ensures var vs := TxFields(rule, t) + tail;
            Typed(vs, TxTypes(rule, FailedFields(vs)) + tailTypes)
  {
  }

  lemma BranchResponseTyped(m: Message)
    requires IsBranchResponse(CodecOf(m))
    ensures Typed(Fields(m), Layout(CodecOf(m), FailedFields(Fields(m))))
  {
    hide TxFields, TxTypes, FailedFields;
    match m
    case BranchCommitResponse(e) => BranchEndResponseTyped(MSG8, e);
    case BranchRollbackResponse(e) => BranchEndResponseTyped(MSG_ROLLBACK, e);
    case BranchRegisterResponse(tx, branchId) => TxTyped(MSG16, tx, [Num(8, ToUint64(branchId))], [NumType(8)]);
    case BranchReportResponse(tx) => PlainTxTyped(MSG8, tx);
    case GlobalLockQueryResponse(tx, lockable) =>
      TxTyped(MSG8, tx, [Num(2, if lockable then 1 else 0)], [NumType(2)]);
  }

  lemma PlainTxTyped(rule: MsgRule, t: TransactionResponse)
    ensures Typed(TxFields(rule, t), TxTypes(rule, FailedFields(TxFields(rule, t))))
  {
  }

  lemma BranchEndResponseTyped(rule: MsgRule, e: BranchEndResponse)
    ensures var vs := BranchEndResponseFields(rule, e);
            Typed(vs, TxTypes(rule, FailedFields(vs)) + [StrType(2), NumType(8), NumType(1)])
  {
    TxTyped(rule, e.tx, [Str(2, e.xid), Num(8, ToUint64(e.branchId)), Num(1, ToByte(e.branchStatus))],
            [StrType(2), NumType(8), NumType(1)]);
  }

  lemma GlobalResponseTyped(m: Message)
    requires IsGlobalResponse(CodecOf(m))
    ensures Typed(Fields(m), Layout(CodecOf(m), FailedFields(Fields(m))))
  {
    hide TxFields, TxTypes, FailedFields;
    match m
    case GlobalBeginResponse(tx, xid, extra) =>
      TxTyped(MSG16, tx, [Str(2, xid), Str(2, extra)], [StrType(2), StrType(2)]);
    case GlobalCommitResponse(e) => GlobalEndResponseTyped(e);
    case GlobalRollbackResponse(e) => GlobalEndResponseTyped(e);
    case GlobalStatusResponse(e) => GlobalEndResponseTyped(e);
    case GlobalReportResponse(e) => GlobalEndResponseTyped(e);
  }

  lemma GlobalEndResponseTyped(e: GlobalEndResponse)
    ensures var vs := GlobalEndResponseFields(e);
            Typed(vs, TxTypes(MSG16, FailedFields(vs)) + [NumType(1)])
  {
    TxTyped(MSG16, e.tx, [Num(1, e.globalStatus)], [NumType(1)]);
  }

  /** One trip through the fields leaves the normal form. */
  lemma FromFieldsOfFields(m: Message)
    ensures FromFields(CodecOf(m), Fields(m)) == Norm(m)
  {
    var c := CodecOf(m);
    if IsBranchRequest(c) {
      BranchRequestForth(m);
    } else if IsBranchResponse(c) {
      BranchResponseForth(m);
    } else if IsGlobalResponse(c) {
      GlobalResponseForth(m);
    } else {
      OtherForth(m);
    }
  }

  lemma BranchRequestForth(m: Message)
    requires IsBranchRequest(CodecOf(m))
    ensures FromFields(CodecOf(m), Fields(m)) == Norm(m)
    ensures AllFit(Fields(m)) <==> Fits(m)
  {
    hide BranchEndRequestFrom, BranchEndRequestFields, BranchRegisterFrom, BranchRegisterFields;
    hide BranchReportFrom, BranchReportFields, AllFit, BranchEndFits, RegisterFits;
    match m
    case BranchCommitRequest(e) => BranchEndRequestForth(e);
    case BranchRollbackRequest(e) => BranchEndRequestForth(e);
    case BranchRegisterRequest(r) => BranchRegisterForth(r);
    case GlobalLockQueryRequest(r) => BranchRegisterForth(r);
    case BranchReportRequest(r) => BranchReportForth(r);
  }

  lemma BranchResponseForth(m: Message)
    requires IsBranchResponse(CodecOf(m))
    ensures FromFields(CodecOf(m), Fields(m)) == Norm(m)
  {
    hide BranchEndResponseFrom, BranchEndResponseFields, TxFrom, TxFields, StrAt, NumAt;
    match m
    case BranchCommitResponse(e) => BranchEndResponseForth(MSG8, e);
    case BranchRollbackResponse(e) => BranchEndResponseForth(MSG_ROLLBACK, e);
    case BranchRegisterResponse(tx, branchId) => BranchRegisterResponseForth(tx, branchId);
    case BranchReportResponse(tx) => BranchReportResponseForth(tx);
    case GlobalLockQueryResponse(tx, lockable) => LockQueryResponseForth(tx, lockable);
  }

  lemma BranchRegisterResponseForth(tx: TransactionResponse, branchId: int64)
    ensures var m := BranchRegisterResponse(tx, branchId);
            FromFields(BranchRegisterResponseCodec, Fields(m)) == Norm(m)
  {
    TxForth(MSG16, tx, [Num(8, ToUint64(branchId))]);
    SignedBack(branchId, 0);
  }

  lemma BranchReportResponseForth(tx: TransactionResponse)
    ensures var m := BranchReportResponse(tx);
            FromFields(BranchReportResponseCodec, Fields(m)) == Norm(m)
  {
  }

  lemma LockQueryResponseForth(tx: TransactionResponse, lockable: bool)
    ensures var m := GlobalLockQueryResponse(tx, lockable);
            FromFields(GlobalLockQueryResponseCodec, Fields(m)) == Norm(m)
  {
  }

  lemma GlobalResponseForth(m: Message)
    requires IsGlobalResponse(CodecOf(m))
    ensures FromFields(CodecOf(m), Fields(m)) == Norm(m)
  {
    hide GlobalEndResponseFrom, GlobalEndResponseFields, TxFrom, TxFields, StrAt, NumAt;
    match m
    case GlobalBeginResponse(tx, xid, extra) => GlobalBeginResponseForth(tx, xid, extra);
    case GlobalCommitResponse(e) => GlobalEndResponseForth(e);
    case GlobalRollbackResponse(e) => GlobalEndResponseForth(e);
    case GlobalStatusResponse(e) => GlobalEndResponseForth(e);
    case GlobalReportResponse(e) => GlobalEndResponseForth(e);
  }

  lemma GlobalBeginResponseForth(tx: TransactionResponse, xid: bytes, extra: bytes)
    ensures var m := GlobalBeginResponse(tx, xid, extra);
            FromFields(GlobalBeginResponseCodec, Fields(m)) == Norm(m)
  {
  }

  lemma GlobalEndResponseForth(e: GlobalEndResponse)
    ensures GlobalEndResponseFrom(GlobalEndResponseFields(e)) == GlobalEndedNorm(e)
  {
  }

  lemma OtherForth(m: Message)
    requires !IsBranchRequest(CodecOf(m)) && !IsTransactionResponse(CodecOf(m))
    ensures FromFields(CodecOf(m), Fields(m)) == Norm(m)
    ensures AllFit(Fields(m)) <==> Fits(m)
  {
    hide GlobalEndRequestFrom, GlobalEndRequestFields, IdentifyRequestFrom, IdentifyRequestFields;
    hide IdentifyResponseFrom, IdentifyResponseFields, IdentifiedNorm, NumAt, StrAt, TimeoutMillis, MillisTimeout;
    hide AllFit, GlobalEndFits, IdentifyFits;
    match m
    case GlobalBeginRequest(timeout, name) => GlobalBeginRequestForth(timeout, name);
    case GlobalCommitRequest(e) => GlobalEndRequestForth(e);
    case GlobalRollbackRequest(e) => GlobalEndRequestForth(e);
    case GlobalStatusRequest(e) => GlobalEndRequestForth(e);
    case GlobalReportRequest(e, status) => GlobalReportForth(e, status);
    case RegisterTMRequest(i) => IdentifyRequestForth(i);
    case RegisterTMResponse(i) => IdentifyResponseForth(i);
    case RegisterRMRequest(i, resourceIds) => RegisterRMForth(i, resourceIds);
    case RegisterRMResponse(i) => IdentifyResponseForth(i);
  }

  lemma TxFieldsOfNorm(rule: MsgRule, t: TransactionResponse)
    ensures TxFields(rule, TxNorm(rule, t)) == TxFields(rule, t)
  {
  }

  lemma FieldsOfNorm(m: Message)
    ensures Fields(Norm(m)) == Fields(m)
  {
    if IsBranchResponse(CodecOf(m)) {
      BranchResponseNorm(m);
    } else if IsGlobalResponse(CodecOf(m)) {
      GlobalResponseNorm(m);
    }
  }

  lemma BranchResponseNorm(m: Message)
    requires IsBranchResponse(CodecOf(m))
    ensures Fields(Norm(m)) == Fields(m)
  {
    hide TxFields, TxNorm;
    match m
    case BranchCommitResponse(e) => TxFieldsOfNorm(MSG8, e.tx);
    case BranchRollbackResponse(e) => TxFieldsOfNorm(MSG_ROLLBACK, e.tx);
    case BranchRegisterResponse(tx, _) => TxFieldsOfNorm(MSG16, tx);
    case BranchReportResponse(tx) => TxFieldsOfNorm(MSG8, tx);
    case GlobalLockQueryResponse(tx, _) => TxFieldsOfNorm(MSG8, tx);
  }

  lemma GlobalResponseNorm(m: Message)
    requires IsGlobalResponse(CodecOf(m))
    ensures Fields(Norm(m)) == Fields(m)
  {
    hide TxFields, TxNorm;
    match m
    case GlobalBeginResponse(tx, _, _) => TxFieldsOfNorm(MSG16, tx);
    case GlobalCommitResponse(e) => TxFieldsOfNorm(MSG16, e.tx);
    case GlobalRollbackResponse(e) => TxFieldsOfNorm(MSG16, e.tx);
    case GlobalStatusResponse(e) => TxFieldsOfNorm(MSG16, e.tx);
    case GlobalReportResponse(e) => TxFieldsOfNorm(MSG16, e.tx);
  }

  /** Every field fits its width exactly when every string does. */
  lemma FieldsFit(m: Message)
    ensures AllFit(Fields(m)) <==> Fits(m)
  {
    if IsBranchRequest(CodecOf(m)) {
      BranchRequestForth(m);
    } else if IsBranchResponse(CodecOf(m)) {
      BranchResponseFieldsFit(m);
    } else if IsGlobalResponse(CodecOf(m)) {
      GlobalResponseFieldsFit(m);
    } else {
      OtherForth(m);
    }
  }

  lemma AllFitAppend(vs: seq<Value>, ws: seq<Value>)
    ensures AllFit(vs + ws) <==> AllFit(vs) && AllFit(ws)
  {
    if AllFit(vs + ws) {
      assert forall i :: 0 <= i < |vs| ==> vs[i] == (vs + ws)[i];
      assert forall i :: 0 <= i < |ws| ==> ws[i] == (vs + ws)[|vs| + i];
    }
  }

  /** The result part of a response fits exactly when its clamped `Msg` does. */
  lemma TxFit(rule: MsgRule, t: TransactionResponse, tail: seq<Value>)
    ensures AllFit(TxFields(rule, t) + tail) <==>
            AllFit(tail) && (t.resultCode == RESULT_CODE_FAILED ==> |Clamp(t.msg, rule.bound)| < Pow256(rule.width))
  {
    Widths();
    AllFitAppend(TxFields(rule, t), tail);
    var vs := TxFields(rule, t);
    assert AllFit(vs) ==> vs[1].Fits();
  }

  lemma BranchEndResponseFit(rule: MsgRule, e: BranchEndResponse)
    ensures AllFit(BranchEndResponseFields(rule, e)) <==>
            Fits16(e.xid) && (e.tx.resultCode == RESULT_CODE_FAILED ==>
                                |Clamp(e.tx.msg, rule.bound)| < Pow256(rule.width))
  {
    hide TxFields;
    Widths();
    var tail := [Str(2, e.xid), Num(8, ToUint64(e.branchId)), Num(1, ToByte(e.branchStatus))];
    TxFit(rule, e.tx, tail);
    assert AllFit(tail) ==> tail[0].Fits();
  }

  lemma BranchResponseFieldsFit(m: Message)
    requires IsBranchResponse(CodecOf(m))
    ensures AllFit(Fields(m)) <==> Fits(m)
  {
    hide TxFields, BranchEndResponseFields;
    Widths();
    match m
    case BranchCommitResponse(e) => BranchEndResponseFit(MSG8, e);
    case BranchRollbackResponse(e) => BranchEndResponseFit(MSG_ROLLBACK, e);
    case BranchRegisterResponse(tx, branchId) => TxFit(MSG16, tx, [Num(8, ToUint64(branchId))]);
    case BranchReportResponse(tx) =>
      TxFit(MSG8, tx, []);
      assert TxFields(MSG8, tx) + [] == TxFields(MSG8, tx);
    case GlobalLockQueryResponse(tx, lockable) => TxFit(MSG8, tx, [Num(2, if lockable then 1 else 0)]);
  }

  lemma GlobalResponseFieldsFit(m: Message)
    requires IsGlobalResponse(CodecOf(m))
    ensures AllFit(Fields(m)) <==> Fits(m)
  {
    hide TxFields;
    Widths();
    match m
    case GlobalBeginResponse(tx, xid, extra) =>
      var tail := [Str(2, xid), Str(2, extra)];
      TxFit(MSG16, tx, tail);
      assert AllFit(tail) ==> tail[0].Fits() && tail[1].Fits();
    case GlobalCommitResponse(e) => TxFit(MSG16, e.tx, [Num(1, e.globalStatus)]);
    case GlobalRollbackResponse(e) => TxFit(MSG16, e.tx, [Num(1, e.globalStatus)]);
    case GlobalStatusResponse(e) => TxFit(MSG16, e.tx, [Num(1, e.globalStatus)]);
    case GlobalReportResponse(e) => TxFit(MSG16, e.tx, [Num(1, e.globalStatus)]);
  }

  lemma CodecOfFromFields(c: Codec, vs: seq<Value>)
    ensures CodecOf(FromFields(c, vs)) == c
  {
    hide TxFrom, TxEnd, StrAt, NumAt, ToInt64, MillisTimeout;
    hide BranchEndRequestFrom, BranchEndResponseFrom, BranchRegisterFrom, BranchReportFrom;
    hide GlobalEndRequestFrom, GlobalEndResponseFrom, IdentifyRequestFrom, IdentifyResponseFrom;
  }

  /** Decoded fields encode back to themselves exactly when canonical. */
  lemma FieldsOfFromFields(c: Codec, vs: seq<Value>)
    requires Typed(vs, Layout(c, FailedFields(vs))) && AllFit(vs)
    ensures Fields(FromFields(c, vs)) == vs <==> Canonical(c, vs)
  {
    if IsBranchRequest(c) {
      BranchRequestBack(c, vs);
    } else if IsBranchResponse(c) {
      BranchResponseBack(c, vs);
    } else if IsGlobalResponse(c) {
      GlobalResponseBack(c, vs);
    } else {
      OtherBack(c, vs);
    }
  }

  lemma BranchRequestBack(c: Codec, vs: seq<Value>)
    requires Typed(vs, Layout(c, FailedFields(vs))) && AllFit(vs)
    requires IsBranchRequest(c)
    ensures Fields(FromFields(c, vs)) == vs && Fits(FromFields(c, vs)) && Canonical(c, vs)
  {
    hide Typed, AllFit, FailedFields, TxTypes, StrAt, NumAt, BranchEndFits, RegisterFits;
    hide BranchEndRequestFrom, BranchEndRequestFields, BranchRegisterFrom, BranchRegisterFields;
    hide BranchReportFrom, BranchReportFields;
    match c
    case BranchCommitRequestCodec => BranchEndRequestBack(vs);
    case BranchRollbackRequestCodec => BranchEndRequestBack(vs);
    case BranchRegisterRequestCodec => BranchRegisterBack(vs);
    case GlobalLockQueryRequestCodec => BranchRegisterBack(vs);
    case BranchReportRequestCodec => BranchReportBack(vs);
  }

  lemma BranchResponseBack(c: Codec, vs: seq<Value>)
    requires Typed(vs, Layout(c, FailedFields(vs))) && AllFit(vs)
    requires IsBranchResponse(c)
    ensures Fields(FromFields(c, vs)) == vs <==> Canonical(c, vs)
    ensures Fits(FromFields(c, vs))
  {
    hide Typed, AllFit, FailedFields, TxTypes, TxEnd, StrAt, NumAt, TxFrom, TxFields;
    hide BranchEndResponseFrom, BranchEndResponseFields;
    match c
    case BranchCommitResponseCodec => BranchEndResponseBack(MSG8, vs);
    case BranchRollbackResponseCodec => BranchEndResponseBack(MSG_ROLLBACK, vs);
    case BranchRegisterResponseCodec => BranchRegisterResponseBack(vs);
    case BranchReportResponseCodec => BranchReportResponseBack(vs);
    case GlobalLockQueryResponseCodec => LockQueryResponseBack(vs);
  }

  lemma BranchRegisterResponseBack(vs: seq<Value>)
    requires Typed(vs, TxTypes(MSG16, FailedFields(vs)) + [NumType(8)]) && AllFit(vs)
    ensures TxFields(MSG16, TxFrom(vs)) + [Num(8, ToUint64(ToInt64(NumAt(vs, TxEnd(vs)))))] == vs
            <==> (FailedFields(vs) ==> |StrAt(vs, 1)| <= MSG16.bound)
  {
    hide TxFrom, TxFields, TxTypes, Typed;
    Widths();
    TxBack(MSG16, vs, [NumType(8)]);
    var k := TxEnd(vs);
    assert vs[k].TypeOf() == [NumType(8)][0];
    UnsignedBack(vs[k].n, 0);
    SplitEqual(TxFields(MSG16, TxFrom(vs)), [vs[k]], vs, k);
  }

  lemma BranchReportResponseBack(vs: seq<Value>)
    requires Typed(vs, TxTypes(MSG8, FailedFields(vs))) && AllFit(vs)
    ensures TxFields(MSG8, TxFrom(vs)) == vs <==> (FailedFields(vs) ==> |StrAt(vs, 1)| <= MSG8.bound)
  {
    hide TxFrom, TxFields, TxTypes;
    assert TxTypes(MSG8, FailedFields(vs)) + [] == TxTypes(MSG8, FailedFields(vs));
    TxBack(MSG8, vs, []);
    assert vs[..TxEnd(vs)] == vs;
  }

  lemma LockQueryResponseBack(vs: seq<Value>)
    requires Typed(vs, TxTypes(MSG8, FailedFields(vs)) + [NumType(2)]) && AllFit(vs)
    ensures TxFields(MSG8, TxFrom(vs)) + [Num(2, if NumAt(vs, TxEnd(vs)) == 1 then 1 else 0)] == vs
            <==> (FailedFields(vs) ==> |StrAt(vs, 1)| <= MSG8.bound) && NumAt(vs, TxEnd(vs)) <= 1
  {
    hide TxFrom, TxFields, TxTypes, Typed;
    TxBack(MSG8, vs, [NumType(2)]);
    var k := TxEnd(vs);
    assert vs[k].TypeOf() == [NumType(2)][0];
    var flag := Num(2, if vs[k].n == 1 then 1 else 0);
    if vs[k].n <= 1 {
      SplitEqual(TxFields(MSG8, TxFrom(vs)), [flag], vs, k);
    } else {
      var back := TxFields(MSG8, TxFrom(vs)) + [flag];
      assert back[|back| - 1] == flag != vs[k] == vs[|vs| - 1];
    }
  }

  lemma GlobalResponseBack(c: Codec, vs: seq<Value>)
    requires Typed(vs, Layout(c, FailedFields(vs))) && AllFit(vs)
    requires IsGlobalResponse(c)
    ensures Fields(FromFields(c, vs)) == vs <==> Canonical(c, vs)
    ensures Fits(FromFields(c, vs))
  {
    hide Typed, AllFit, FailedFields, TxTypes, TxEnd, StrAt, NumAt, TxFrom, TxFields;
    hide GlobalEndResponseFrom, GlobalEndResponseFields;
    if c == GlobalBeginResponseCodec {
      GlobalBeginResponseBack(vs);
    } else {
      GlobalEndResponseBack(vs);
    }
  }

  lemma GlobalBeginResponseBack(vs: seq<Value>)
    requires Typed(vs, TxTypes(MSG16, FailedFields(vs)) + [StrType(2), StrType(2)]) && AllFit(vs)
    ensures TxFields(MSG16, TxFrom(vs)) + [Str(2, StrAt(vs, TxEnd(vs))), Str(2, StrAt(vs, TxEnd(vs) + 1))] == vs
            <==> (FailedFields(vs) ==> |StrAt(vs, 1)| <= MSG16.bound)
    ensures Fits16(StrAt(vs, TxEnd(vs))) && Fits16(StrAt(vs, TxEnd(vs) + 1))
  {
    hide TxFrom, TxFields, TxTypes, Typed;
    Widths();
    var tail := [StrType(2), StrType(2)];
    TxBack(MSG16, vs, tail);
    var k := TxEnd(vs);
    assert vs[k].TypeOf() == tail[0] && vs[k + 1].TypeOf() == tail[1];
    assert vs[k].Fits() && vs[k + 1].Fits();
    SplitEqual(TxFields(MSG16, TxFrom(vs)), [vs[k], vs[k + 1]], vs, k);
  }

  lemma GlobalEndResponseBack(vs: seq<Value>)
    requires Typed(vs, TxTypes(MSG16, FailedFields(vs)) + [NumType(1)]) && AllFit(vs)
    ensures GlobalEndResponseFields(GlobalEndResponseFrom(vs)) == vs
            <==> (FailedFields(vs) ==> |StrAt(vs, 1)| <= MSG16.bound)
  {
    hide TxFrom, TxFields, TxTypes, Typed;
    Widths();
    TxBack(MSG16, vs, [NumType(1)]);
    var k := TxEnd(vs);
    assert vs[k].TypeOf() == [NumType(1)][0];
    UnsignedBack(0, vs[k].n);
    SplitEqual(TxFields(MSG16, TxFrom(vs)), [vs[k]], vs, k);
  }

  lemma OtherBack(c: Codec, vs: seq<Value>)
    requires Typed(vs, Layout(c, FailedFields(vs))) && AllFit(vs)
    requires !IsBranchRequest(c) && !IsTransactionResponse(c)
    ensures Fields(FromFields(c, vs)) == vs <==> Canonical(c, vs)
    ensures Fits(FromFields(c, vs))
  {
    hide Typed, AllFit, FailedFields, TxTypes, StrAt, NumAt, TimeoutMillis, MillisTimeout;
    hide GlobalEndRequestFrom, GlobalEndRequestFields, IdentifyRequestFrom, IdentifyRequestFields;
    hide IdentifyResponseFrom, IdentifyResponseFields, GlobalEndFits, IdentifyFits;
    match c
    case GlobalBeginRequestCodec => GlobalBeginRequestBack(vs);
    case GlobalCommitRequestCodec => GlobalEndRequestBack(vs);
    case GlobalRollbackRequestCodec => GlobalEndRequestBack(vs);
    case GlobalStatusRequestCodec => GlobalEndRequestBack(vs);
    case GlobalReportRequestCodec => GlobalReportBack(vs);
    case RegisterTMRequestCodec => IdentifyRequestBack(vs);
    case RegisterTMResponseCodec => IdentifyResponseBack(vs);
    case RegisterRMRequestCodec => RegisterRMBack(vs);
    case RegisterRMResponseCodec => IdentifyResponseBack(vs);
  }

  lemma FromFieldsFits(c: Codec, vs: seq<Value>)
    requires Typed(vs, Layout(c, FailedFields(vs))) && AllFit(vs)
    ensures Fits(FromFields(c, vs))
  {
    if IsBranchRequest(c) {
      BranchRequestBack(c, vs);
    } else if IsBranchResponse(c) {
      BranchResponseBack(c, vs);
    } else if IsGlobalResponse(c) {
      GlobalResponseBack(c, vs);
    } else {
      OtherBack(c, vs);
    }
  }
}
