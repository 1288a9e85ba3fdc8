/** What one codec guarantees: round trips in both directions, framing, and
    how the layouts relate to each other. */
module Bodies {
  import opened Options
  import opened Bytes
  import opened Wire
  import opened Messages
  import opened Layouts
  import opened LayoutProofs
  import opened Lengths

  /** Only transaction responses look at the result code, their first byte. */
  lemma LayoutHead(c: Codec, failed: bool)
    ensures IsTransactionResponse(c) ==> Layout(c, failed) != [] && Layout(c, failed)[0] == NumType(1)
    ensures !IsTransactionResponse(c) ==> Layout(c, failed) == Layout(c, !failed)
  {
  }

  /** The codec that reads a printed body picks the layout it was printed in. */
  lemma LayoutOfPrinted(c: Codec, vs: seq<Value>, rest: bytes)
    requires Typed(vs, Layout(c, FailedFields(vs)))
    requires IsTransactionResponse(c) ==> vs != [] && vs[0].Fits()
    ensures Layout(c, FailedBytes(Print(vs) + rest)) == Layout(c, FailedFields(vs))
  {
    hide Print, Layout;
    LayoutHead(c, FailedFields(vs));
    if IsTransactionResponse(c) {
      PrintHead(vs);
    }
  }

  lemma ResultCodeFits(m: Message)
    requires IsTransactionResponse(CodecOf(m))
    ensures Fields(m) != [] && Fields(m)[0].Fits()
  {
    Widths();
    FieldsTyped(m);
    LayoutHead(CodecOf(m), FailedFields(Fields(m)));
  }

  /** Bodies are self-delimiting: whatever follows, the codec reads the normal
      form and stops right after the body. */
  lemma BodyRoundTrip(m: Message, rest: bytes)
    requires Fits(m)
    ensures DecodeBody(CodecOf(m), EncodeBody(m) + rest) == Some((Norm(m), rest))
  {
    FieldsTyped(m);
    FieldsFit(m);
    FromFieldsOfFields(m);
    if IsTransactionResponse(CodecOf(m)) {
      ResultCodeFits(m);
    }
    LayoutOfPrinted(CodecOf(m), Fields(m), rest);
    ParseOfPrint(Fields(m), Layout(CodecOf(m), FailedFields(Fields(m))), rest);
  }

  /** What any parse of a body yields. */
  lemma ParsedBody(c: Codec, b: bytes)
    requires ParseBody(c, b).Some?
    ensures var (vs, rest) := ParseBody(c, b).value;
            Typed(vs, Layout(c, FailedFields(vs))) && AllFit(vs) && Print(vs) + rest == b
  {
    hide Print, Parse, Layout;
    var ts := Layout(c, FailedBytes(b));
    PrintOfParse(ts, b);
    LayoutHead(c, FailedBytes(b));
    var (vs, rest) := ParseBody(c, b).value;
    if IsTransactionResponse(c) {
      assert vs[0].TypeOf() == NumType(1);
      PrintHead(vs);
    }
  }

  /** Decoding yields only messages of the codec's struct whose strings fit. */
  lemma DecodedFits(c: Codec, b: bytes)
    requires Decoded(c, b).Some?
    ensures CodecOf(Decoded(c, b).value) == c && Fits(Decoded(c, b).value)
  {
    ParsedBody(c, b);
    var (vs, rest) := ParseBody(c, b).value;
    CodecOfFromFields(c, vs);
    FromFieldsFits(c, vs);
  }

  lemma FitsOfNorm(m: Message)
    ensures Fits(Norm(m)) <==> Fits(m)
  {
    FieldsOfNorm(m);
    FieldsFit(m);
    FieldsFit(Norm(m));
  }

  /** Exact: decoding what was encoded gives the normal form if and only if
      every string fits its length prefix. */
  lemma BodyRoundTripExact(m: Message)
    ensures Decoded(CodecOf(m), EncodeBody(m)) == Some(Norm(m)) <==> Fits(m)
  {
    if Fits(m) {
      BodyRoundTrip(m, []);
      assert EncodeBody(m) + [] == EncodeBody(m);
    } else if Decoded(CodecOf(m), EncodeBody(m)).Some? {
      DecodedFits(CodecOf(m), EncodeBody(m));
      FitsOfNorm(m);
    }
  }

  /** Normalisation is stable. */
  lemma NormStable(m: Message)
    ensures CodecOf(Norm(m)) == CodecOf(m)
    ensures Norm(Norm(m)) == Norm(m)
    ensures EncodeBody(Norm(m)) == EncodeBody(m)
  {
    FieldsOfNorm(m);
    FromFieldsOfFields(m);
    CodecOfFromFields(CodecOf(m), Fields(m));
    FromFieldsOfFields(Norm(m));
  }

  /** Exact: a body that was read prints back to the same bytes if and only if
      its flags are 0 or 1 and its `Msg` is within the encoder's bound. */
  lemma BodyReverse(c: Codec, b: bytes)
    requires DecodeBody(c, b).Some?
    ensures var (m, rest) := DecodeBody(c, b).value;
            EncodeBody(m) + rest == b <==> Canonical(c, ParseBody(c, b).value.0)
  {
    ParsedBody(c, b);
    var (vs, rest) := ParseBody(c, b).value;
    FieldsOfFromFields(c, vs);
    var m := FromFields(c, vs);
    if EncodeBody(m) + rest == b {
      assert (EncodeBody(m) + rest)[..|b| - |rest|] == EncodeBody(m);
      assert (Print(vs) + rest)[..|b| - |rest|] == Print(vs);
      CodecOfFromFields(c, vs);
      FieldsTyped(m);
      FromFieldsFits(c, vs);
      FieldsFit(m);
      SameFields(c, Fields(m), vs);
    }
  }

  /** Field lists of one codec that print alike are alike. */
  lemma SameFields(c: Codec, vs: seq<Value>, ws: seq<Value>)
    requires Typed(vs, Layout(c, FailedFields(vs))) && AllFit(vs)
    requires Typed(ws, Layout(c, FailedFields(ws))) && AllFit(ws)
    requires Print(vs) == Print(ws)
    ensures vs == ws
  {
    LayoutHead(c, FailedFields(vs));
    LayoutHead(c, FailedFields(ws));
    LayoutOfPrinted(c, vs, []);
    LayoutOfPrinted(c, ws, []);
    ParseOfPrint(vs, Layout(c, FailedFields(vs)), []);
    ParseOfPrint(ws, Layout(c, FailedFields(ws)), []);
  }

  /** Bodies of one codec are prefix-free and determine their normal form. */
  lemma BodyPrefixFree(m1: Message, rest1: bytes, m2: Message, rest2: bytes)
    requires Fits(m1) && Fits(m2) && CodecOf(m1) == CodecOf(m2)
    requires EncodeBody(m1) + rest1 == EncodeBody(m2) + rest2
    ensures Norm(m1) == Norm(m2) && rest1 == rest2
  {
    BodyRoundTrip(m1, rest1);
    BodyRoundTrip(m2, rest2);
  }

  // ----- Truncated messages -----

  /** The result part of a transaction response; zero for other messages. */
  function TxOf(m: Message): TransactionResponse {
    match m
    case BranchCommitResponse(e) => e.tx
    case BranchRollbackResponse(e) => e.tx
    case GlobalCommitResponse(e) => e.tx
    case GlobalRollbackResponse(e) => e.tx
    case GlobalStatusResponse(e) => e.tx
    case GlobalReportResponse(e) => e.tx
    case GlobalBeginResponse(tx, _, _) => tx
    case BranchRegisterResponse(tx, _) => tx
    case BranchReportResponse(tx) => tx
    case GlobalLockQueryResponse(tx, _) => tx
    case _ => ZERO_TX
  }

  /** `m` with another result part and every later field as it was. */
  function WithTx(m: Message, t: TransactionResponse): Message {
    match m
    case BranchCommitResponse(e) => BranchCommitResponse(e.(tx := t))
    case BranchRollbackResponse(e) => BranchRollbackResponse(e.(tx := t))
    case GlobalCommitResponse(e) => GlobalCommitResponse(e.(tx := t))
    case GlobalRollbackResponse(e) => GlobalRollbackResponse(e.(tx := t))
    case GlobalStatusResponse(e) => GlobalStatusResponse(e.(tx := t))
    case GlobalReportResponse(e) => GlobalReportResponse(e.(tx := t))
    case GlobalBeginResponse(_, xid, extra) => GlobalBeginResponse(t, xid, extra)
    case BranchRegisterResponse(_, branchId) => BranchRegisterResponse(t, branchId)
    case BranchReportResponse(_) => BranchReportResponse(t)
    case GlobalLockQueryResponse(_, lockable) => GlobalLockQueryResponse(t, lockable)
    case _ => m
  }

  /** How many bytes of a failed `Msg` arrive at most. */
  function MsgBound(c: Codec): nat {
    if c in {BranchCommitResponseCodec, BranchReportResponseCodec, GlobalLockQueryResponseCodec} then 127 else 32767
  }

  /** Truncation never loses framing: a failed response arrives with the first
      bytes of its `Msg`, up to the bound, any other response with none, and
      with its code and every later field intact. */
  lemma TruncationKeepsFraming(m: Message, rest: bytes)
    requires IsTransactionResponse(CodecOf(m)) && Fits(m)
    ensures var t := TxOf(m);
            var msg := if t.resultCode != RESULT_CODE_FAILED then []
                       else if |t.msg| <= MsgBound(CodecOf(m)) then t.msg
                       else t.msg[..MsgBound(CodecOf(m))];
            DecodeBody(CodecOf(m), EncodeBody(m) + rest) ==
            Some((WithTx(m, TransactionResponse(t.resultCode, msg, t.errorCode % 0x100)), rest))
  {
    BodyRoundTrip(m, rest);
    NormTruncates(m);
  }

  lemma TxNormTruncates(rule: MsgRule, t: TransactionResponse)
    ensures var msg := if t.resultCode != RESULT_CODE_FAILED then []
                       else if |t.msg| <= rule.bound then t.msg
                       else t.msg[..rule.bound];
            TxNorm(rule, t) == TransactionResponse(t.resultCode, msg, t.errorCode % 0x100)
  {
  }

  lemma BranchNormWithTx(m: Message)
    requires IsBranchResponse(CodecOf(m))
    ensures Norm(m) == WithTx(m, TxNorm(RuleOf(CodecOf(m)), TxOf(m)))
    ensures RuleOf(CodecOf(m)).bound == MsgBound(CodecOf(m))
  {
    hide TxNorm;
  }

  lemma GlobalNormWithTx(m: Message)
    requires IsGlobalResponse(CodecOf(m))
    ensures Norm(m) == WithTx(m, TxNorm(RuleOf(CodecOf(m)), TxOf(m)))
    ensures RuleOf(CodecOf(m)).bound == MsgBound(CodecOf(m))
  {
    hide TxNorm;
  }

  lemma NormTruncates(m: Message)
    requires IsTransactionResponse(CodecOf(m))
    ensures var t := TxOf(m);
            var msg := if t.resultCode != RESULT_CODE_FAILED then []
                       else if |t.msg| <= MsgBound(CodecOf(m)) then t.msg
                       else t.msg[..MsgBound(CodecOf(m))];
            Norm(m) == WithTx(m, TransactionResponse(t.resultCode, msg, t.errorCode % 0x100))
  {
    hide TxNorm, TxOf, WithTx, Norm, CodecOf, RuleOf, MsgBound;
    if IsBranchResponse(CodecOf(m)) {
      BranchNormWithTx(m);
    } else {
      GlobalNormWithTx(m);
    }
    TxNormTruncates(RuleOf(CodecOf(m)), TxOf(m));
  }

  /** The rollback response loses framing exactly when a failed `Msg` is longer
      than 255 bytes: it clamps to 32767 but its length prefix is one byte. */
  lemma RollbackResponseExact(e: BranchEndResponse)
    ensures Decoded(BranchRollbackResponseCodec, EncodeBody(BranchRollbackResponse(e))) ==
            Some(Norm(BranchRollbackResponse(e)))
            <==> Fits16(e.xid) && !(e.tx.resultCode == RESULT_CODE_FAILED && |e.tx.msg| > 0xFF)
  {
    hide Decoded, EncodeBody, Norm;
    BodyRoundTripExact(BranchRollbackResponse(e));
  }

  lemma DecodedOf(c: Codec, b: bytes)
    ensures DecodeBody(c, b).Some? ==> Decoded(c, b) == Some(DecodeBody(c, b).value.0)
  {
  }

  /** How a failed response with an 8-bit `Msg` starts, whether the length fits or wraps. */
  lemma PrintFailed(vs: seq<Value>)
    requires |vs| >= 3 && vs[0].TypeOf() == vs[2].TypeOf() == NumType(1) && vs[1].TypeOf() == StrType(1)
    ensures var b, n := Print(vs), |vs[1].s|;
            && |b| >= 3 + n && b[0] == ToByte(vs[0].n) && b[1] == ToByte(n)
            && b[2..2 + n] == vs[1].s && b[2 + n] == ToByte(vs[2].n)
  {
    hide Print, BigEndian, ToByte;
    OneByte(vs[0].n);
    OneByte(|vs[1].s|);
    OneByte(vs[2].n);
    PrintCons(vs);
    PrintCons(vs[1..]);
    PrintCons(vs[2..]);
    assert vs[1..][1..] == vs[2..] && vs[2..][1..] == vs[3..];
    assert Print(vs) == [ToByte(vs[0].n), ToByte(|vs[1].s|)] + vs[1].s + [ToByte(vs[2].n)] + Print(vs[3..]);
  }

  /** What a decoder reads off such a start: `Msg` cut to its length modulo 256,
      and the byte of `Msg` after that in the place of the error code. */
  lemma FailedReadBack(vs: seq<Value>, ws: seq<Value>, rest: bytes)
    requires |vs| >= 3 && vs[0].TypeOf() == vs[2].TypeOf() == NumType(1) && vs[1].TypeOf() == StrType(1)
    requires |ws| >= 3 && ws[0].TypeOf() == ws[2].TypeOf() == NumType(1) && ws[1].TypeOf() == StrType(1)
    requires Print(ws) + rest == Print(vs) && |ws[1].s| < 0x100 <= |vs[1].s|
    ensures var cut := |vs[1].s| % 0x100; ws[1].s == vs[1].s[..cut] && ToByte(ws[2].n) == vs[1].s[cut]
  {
    hide Print, ToByte;
    PrintFailed(vs);
    PrintFailed(ws);
    var b, read, n := Print(vs), Print(ws), |ws[1].s|;
    assert b[1] == read[1] && b[2 + n] == read[2 + n] && b[2..2 + n] == read[2..2 + n];
    SmallByte(n);
    SmallByte(|vs[1].s|);
    assert b[2..2 + |vs[1].s|][..n] == b[2..2 + n];
  }

  lemma SmallByte(n: int)
    ensures ToByte(n) == n % 0x100 && (0 <= n < 0x100 ==> ToByte(n) == n)
  {
  }

  /** When a failed rollback response with a longer `Msg` does decode, `Msg` comes
      back cut to its length modulo 256, and the byte of `Msg` after that is
      taken for the error code. */
  lemma RollbackResponseMisread(e: BranchEndResponse)
    requires e.tx.resultCode == RESULT_CODE_FAILED && |e.tx.msg| > 0xFF
    requires Decoded(BranchRollbackResponseCodec, EncodeBody(BranchRollbackResponse(e))).Some?
    ensures var cut := (if |e.tx.msg| > 0x7FFF then 0x7FFF else |e.tx.msg|) % 0x100;
            TxOf(Decoded(BranchRollbackResponseCodec, EncodeBody(BranchRollbackResponse(e))).value) ==
            TransactionResponse(RESULT_CODE_FAILED, e.tx.msg[..cut], e.tx.msg[cut])
  {
    hide Print, Parse, ToByte;
    Widths();
    var b, vs := EncodeBody(BranchRollbackResponse(e)), Fields(BranchRollbackResponse(e));
    var (ws, rest) := ParseBody(BranchRollbackResponseCodec, b).value;
    ParsedBody(BranchRollbackResponseCodec, b);
    PrintHead(vs);
    PrintHead(ws);
    assert FailedFields(ws);
    assert ws[1].Fits();
    FailedReadBack(vs, ws, rest);
    SmallByte(0);
    var cut := |vs[1].s| % 0x100;
    assert vs[1].s[..cut] == e.tx.msg[..cut] && vs[1].s[cut] == e.tx.msg[cut];
    DecodedOf(BranchRollbackResponseCodec, b);
  }

  predicate Zeros(b: bytes) {
    forall i :: 0 <= i < |b| ==> b[i] == 0
  }

  lemma {:induction false} PrintZeros(vs: seq<Value>)
    requires forall i :: 0 <= i < |vs| ==> Zeros(PrintValue(vs[i]))
    ensures Zeros(Print(vs))
  {
    if vs != [] {
      PrintZeros(vs[..|vs| - 1]);
    }
  }

  lemma {:induction false} BigEndianZero(w: nat)
    ensures Zeros(BigEndian(0, w))
  {
    if w > 0 {
      BigEndianZero(w - 1);
    }
  }

  /** A failed rollback response that is zero but for the length of its `Msg`. */
  function ZeroRollback(msgLength: nat): Message {
    var msg: bytes := seq(msgLength, _ => 0);
    BranchRollbackResponse(BranchEndResponse(TransactionResponse(RESULT_CODE_FAILED, msg, 0), [], 0, 0))
  }

  lemma WrappedZero(n: nat)
    requires n % 0x100 == 0
    ensures Zeros(BigEndian(n, 1))
  {
    OneByte(n);
  }

  lemma ZeroRollbackBody(msgLength: nat)
    requires msgLength % 0x100 == 0 && msgLength <= 0x7FFF
    ensures Zeros(EncodeBody(ZeroRollback(msgLength))) && |EncodeBody(ZeroRollback(msgLength))| == 14 + msgLength
  {
    hide Print, BigEndian;
    BodyLengthExact(ZeroRollback(msgLength));
    WrappedZero(msgLength);
    BigEndianZero(1);
    BigEndianZero(2);
    BigEndianZero(8);
    PrintZeros(Fields(ZeroRollback(msgLength)));
  }

  lemma ZeroRollbackNorm(msgLength: nat)
    requires msgLength <= 0x100
    ensures Fits(ZeroRollback(msgLength)) <==> msgLength <= 0xFF
    ensures CodecOf(ZeroRollback(msgLength)) == BranchRollbackResponseCodec
    ensures TxOf(ZeroRollback(msgLength)).resultCode == RESULT_CODE_FAILED
    ensures |TxOf(ZeroRollback(msgLength)).msg| == msgLength
    ensures Norm(ZeroRollback(msgLength)) == ZeroRollback(msgLength)
  {
  }

  /** A failed rollback response with a `Msg` of 256 zero bytes does not come
      back.  The decoder does not fail either: the wrapped length reads as 0, and
      the same response without its `Msg` is returned. */
  lemma RollbackResponseLosesFraming()
    ensures TxOf(ZeroRollback(0x100)).resultCode == RESULT_CODE_FAILED && |TxOf(ZeroRollback(0x100)).msg| == 0x100
    ensures Norm(ZeroRollback(0x100)) == ZeroRollback(0x100)
    ensures Decoded(BranchRollbackResponseCodec, EncodeBody(ZeroRollback(0x100))) == Some(ZeroRollback(0))
    ensures ZeroRollback(0) != ZeroRollback(0x100)
  {
    hide EncodeBody, Decoded, DecodeBody, ZeroRollback, Norm, Fits, TxOf;
    ZeroRollbackBody(0);
    ZeroRollbackBody(0x100);
    ZeroRollbackNorm(0);
    ZeroRollbackNorm(0x100);
    var sent, read := EncodeBody(ZeroRollback(0x100)), EncodeBody(ZeroRollback(0));
    assert sent == read + sent[14..];
    BodyRoundTrip(ZeroRollback(0), sent[14..]);
    DecodedOf(BranchRollbackResponseCodec, sent);
  }

  /** Commit and rollback responses with the same fields have the same bytes
      exactly when a failed `Msg` is at most 127 bytes long. */
  lemma CommitAndRollbackAgree(e: BranchEndResponse)
    ensures EncodeBody(BranchCommitResponse(e)) == EncodeBody(BranchRollbackResponse(e))
            <==> (e.tx.resultCode == RESULT_CODE_FAILED ==> |e.tx.msg| <= 0x7F)
  {
    BodyLengthExact(BranchCommitResponse(e));
    BodyLengthExact(BranchRollbackResponse(e));
    assert (e.tx.resultCode == RESULT_CODE_FAILED ==> |e.tx.msg| <= 0x7F) ==>
        Fields(BranchCommitResponse(e)) == Fields(BranchRollbackResponse(e));
  }

  // ----- Extensions -----

  /** Decoding the body of `m` with more bytes after it returns `m` and those bytes. */
  lemma DecodesEmbedded(m: Message, tail: bytes, b: bytes)
    requires Fits(m) && Norm(m) == m && b == EncodeBody(m) + tail
    ensures DecodeBody(CodecOf(m), b) == Some((m, tail))
  {
    BodyRoundTrip(m, tail);
  }

  lemma OneMoreField(m: Message, longer: Message, v: Value)
    requires Fields(longer) == Fields(m) + [v]
    ensures EncodeBody(longer) == EncodeBody(m) + PrintValue(v)
  {
    PrintSnoc(Fields(m), v);
  }

  lemma RegisterRMBody(i: IdentifyRequest, resourceIds: bytes)
    ensures EncodeBody(RegisterRMRequest(i, resourceIds)) ==
            EncodeBody(RegisterTMRequest(i)) + PrintValue(Str(4, resourceIds))
  {
    OneMoreField(RegisterTMRequest(i), RegisterRMRequest(i, resourceIds), Str(4, resourceIds));
  }

  /** Registering an RM extends registering a TM by one 32-bit string; the TM
      codec reads the embedded part and leaves the rest. */
  lemma RegisterRMExtendsTM(i: IdentifyRequest, resourceIds: bytes)
    requires Fits(RegisterTMRequest(i))
    ensures DecodeBody(RegisterTMRequestCodec, EncodeBody(RegisterRMRequest(i, resourceIds))) ==
            Some((RegisterTMRequest(i), PrintValue(Str(4, resourceIds))))
  {
    RegisterRMBody(i, resourceIds);
    var b := EncodeBody(RegisterRMRequest(i, resourceIds));
    DecodesEmbedded(RegisterTMRequest(i), PrintValue(Str(4, resourceIds)), b);
  }

  lemma GlobalReportBody(e: GlobalEndRequest, status: byte)
    ensures EncodeBody(GlobalReportRequest(e, status)) == EncodeBody(GlobalCommitRequest(e)) + [status]
  {
    hide Print, BigEndian;
    OneMoreField(GlobalCommitRequest(e), GlobalReportRequest(e, status), Num(1, status));
    OneByte(status);
  }

  /** A global report extends the other global-end requests by one status byte. */
  lemma GlobalReportExtendsGlobalEnd(e: GlobalEndRequest, status: byte)
    requires Fits(GlobalCommitRequest(e))
    ensures DecodeBody(GlobalCommitRequestCodec, EncodeBody(GlobalReportRequest(e, status))) ==
            Some((GlobalCommitRequest(e), [status]))
  {
    GlobalReportBody(e, status);
    DecodesEmbedded(GlobalCommitRequest(e), [status], EncodeBody(GlobalReportRequest(e, status)));
  }

  // ----- Timeouts -----

  /** The timeout that arrives: whole milliseconds, rounded toward zero, modulo
      2^32.  In range it loses less than a millisecond and is then stable. */
  lemma TimeoutConversion(t: int64)
    ensures var millis: int := if t >= 0 then t / 1_000_000 else -(-(t as int) / 1_000_000);
            var arrived: int := (millis % 0x1_0000_0000) * 1_000_000;
            && MillisTimeout(TimeoutMillis(t)) == arrived
            && TimeoutMillis(MillisTimeout(TimeoutMillis(t))) == TimeoutMillis(t)
            && (t - 1_000_000 < arrived <= t <==> 0 <= t < 0x1_0000_0000 * 1_000_000)
  {
  }
}
