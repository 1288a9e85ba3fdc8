/** Every body, byte by byte: the bytes that each encoder puts on the wire and
    what a decoder makes of them, in digits and in wire order. */
module WireBytes {
  import opened Options
  import opened Bytes
  import opened Wire
  import opened Messages
  import opened Layouts
  import opened LayoutProofs
  import opened Lengths
  import opened Bodies

  // ----- Fields to bytes -----

  lemma Print1(a: Value)
    ensures Print([a]) == PrintValue(a)
  {
    hide PrintValue;
    PrintCons([a]);
    assert [a][1..] == [];
  }

  lemma Print2(a: Value, b: Value)
    ensures Print([a, b]) == PrintValue(a) + PrintValue(b)
  {
    hide PrintValue;
    Print1(a);
    PrintSnoc([a], b);
    assert [a] + [b] == [a, b];
  }

  lemma Print3(a: Value, b: Value, c: Value)
    ensures Print([a, b, c]) == PrintValue(a) + PrintValue(b) + PrintValue(c)
  {
    hide Print, PrintValue;
    Print2(a, b);
    PrintSnoc([a, b], c);
    assert [a, b] + [c] == [a, b, c];
  }

  lemma Print5(a: Value, b: Value, c: Value, d: Value, e: Value)
    ensures Print([a, b, c, d, e]) == PrintValue(a) + PrintValue(b) + PrintValue(c) + PrintValue(d) + PrintValue(e)
  {
    hide Print, PrintValue;
    Print3(a, b, c);
    PrintSnoc([a, b, c], d);
    PrintSnoc([a, b, c] + [d], e);
    assert [a, b, c] + [d] + [e] == [a, b, c, d, e];
  }

  lemma StrField(w: nat, s: bytes)
    ensures PrintValue(Str(w, s)) == BigEndian(|s|, w) + s
  {
  }

  lemma NumField(w: nat, n: nat)
    ensures PrintValue(Num(w, n)) == BigEndian(n, w)
  {
  }

  /** A number or flag of one byte. */
  lemma ByteField(n: byte)
    ensures PrintValue(Num(1, n)) == [n]
  {
    OneByte(n);
  }

  /** Signed numbers travel as their two's complement. */
  lemma SignedFields(x: int64, y: int8)
    ensures ToUint64(x) == if x < 0 then x + 0x1_0000_0000_0000_0000 else x
    ensures ToByte(y) == if y < 0 then y + 0x100 else y
  {
  }

  // ----- Requests -----

  lemma BranchEndRequestBytes(e: BranchEndRequest)
    ensures var id: nat := if e.branchId < 0 then e.branchId + 0x1_0000_0000_0000_0000 else e.branchId;
            var branchType: byte := if e.branchType < 0 then e.branchType + 0x100 else e.branchType;
            EncodeBody(BranchCommitRequest(e)) == EncodeBody(BranchRollbackRequest(e)) ==
            (BigEndian(|e.xid|, 2) + e.xid) + BigEndian(id, 8) + [branchType]
            + (BigEndian(|e.resourceId|, 2) + e.resourceId)
            + (BigEndian(|e.applicationData|, 4) + e.applicationData)
  {
    hide Print, PrintValue, BigEndian, ToUint64, ToByte;
    StrField(2, e.xid);
    StrField(2, e.resourceId);
    StrField(4, e.applicationData);
    NumField(8, ToUint64(e.branchId));
    SignedFields(e.branchId, e.branchType);
    ByteField(ToByte(e.branchType));
    Print5(Str(2, e.xid), Num(8, ToUint64(e.branchId)), Num(1, ToByte(e.branchType)), Str(2, e.resourceId),
           Str(4, e.applicationData));
  }

  lemma BranchRegisterBytes(r: BranchRegister)
    ensures var branchType: byte := if r.branchType < 0 then r.branchType + 0x100 else r.branchType;
            EncodeBody(BranchRegisterRequest(r)) == EncodeBody(GlobalLockQueryRequest(r)) ==
            (BigEndian(|r.xid|, 2) + r.xid) + [branchType] + (BigEndian(|r.resourceId|, 2) + r.resourceId)
            + (BigEndian(|r.lockKey|, 4) + r.lockKey) + (BigEndian(|r.applicationData|, 4) + r.applicationData)
  {
    hide Print, PrintValue, BigEndian, ToByte;
    StrField(2, r.xid);
    StrField(2, r.resourceId);
    StrField(4, r.lockKey);
    StrField(4, r.applicationData);
    SignedFields(0, r.branchType);
    ByteField(ToByte(r.branchType));
    Print5(Str(2, r.xid), Num(1, ToByte(r.branchType)), Str(2, r.resourceId), Str(4, r.lockKey),
           Str(4, r.applicationData));
  }

  lemma BranchReportBytes(r: BranchReport)
    ensures var id: nat := if r.branchId < 0 then r.branchId + 0x1_0000_0000_0000_0000 else r.branchId;
            var status: byte := if r.status < 0 then r.status + 0x100 else r.status;
            var branchType: byte := if r.branchType < 0 then r.branchType + 0x100 else r.branchType;
            EncodeBody(BranchReportRequest(r)) ==
            (BigEndian(|r.xid|, 2) + r.xid) + BigEndian(id, 8) + [status]
            + (BigEndian(|r.resourceId|, 2) + r.resourceId)
            + (BigEndian(|r.applicationData|, 4) + r.applicationData) + [branchType]
  {
    hide Print, PrintValue, BigEndian, ToUint64, ToByte;
    StrField(2, r.xid);
    StrField(2, r.resourceId);
    StrField(4, r.applicationData);
    NumField(8, ToUint64(r.branchId));
    SignedFields(r.branchId, r.branchType);
    SignedFields(r.branchId, r.status);
    ByteField(ToByte(r.branchType));
    ByteField(ToByte(r.status));
    var front := [Str(2, r.xid), Num(8, ToUint64(r.branchId)), Num(1, ToByte(r.status)), Str(2, r.resourceId),
                  Str(4, r.applicationData)];
    Print5(front[0], front[1], front[2], front[3], front[4]);
    PrintSnoc(front, Num(1, ToByte(r.branchType)));
    assert front + [Num(1, ToByte(r.branchType))] == BranchReportFields(r);
  }

  lemma GlobalEndRequestBytes(e: GlobalEndRequest, status: byte)
    ensures EncodeBody(GlobalCommitRequest(e)) ==
            (BigEndian(|e.xid|, 2) + e.xid) + (BigEndian(|e.extraData|, 2) + e.extraData)
    ensures EncodeBody(GlobalRollbackRequest(e)) == EncodeBody(GlobalStatusRequest(e)) ==
            (BigEndian(|e.xid|, 2) + e.xid) + (BigEndian(|e.extraData|, 2) + e.extraData)
    ensures EncodeBody(GlobalReportRequest(e, status)) ==
            (BigEndian(|e.xid|, 2) + e.xid) + (BigEndian(|e.extraData|, 2) + e.extraData) + [status]
  {
    hide Print, PrintValue, BigEndian;
    StrField(2, e.xid);
    StrField(2, e.extraData);
    Print2(Str(2, e.xid), Str(2, e.extraData));
    GlobalReportBody(e, status);
  }

  lemma IdentifyRequestBytes(i: IdentifyRequest, resourceIds: bytes)
    ensures var body := (BigEndian(|i.version|, 2) + i.version)
                        + (BigEndian(|i.applicationId|, 2) + i.applicationId)
                        + (BigEndian(|i.transactionServiceGroup|, 2) + i.transactionServiceGroup)
                        + (BigEndian(|i.extraData|, 2) + i.extraData);
            && EncodeBody(RegisterTMRequest(i)) == body
            && EncodeBody(RegisterRMRequest(i, resourceIds)) ==
               body + (BigEndian(|resourceIds|, 4) + resourceIds)
  {
    hide Print, PrintValue, BigEndian;
    StrField(2, i.version);
    StrField(2, i.applicationId);
    StrField(2, i.transactionServiceGroup);
    StrField(2, i.extraData);
    StrField(4, resourceIds);
    var front := [Str(2, i.version), Str(2, i.applicationId), Str(2, i.transactionServiceGroup)];
    Print3(front[0], front[1], front[2]);
    PrintSnoc(front, Str(2, i.extraData));
    assert front + [Str(2, i.extraData)] == IdentifyRequestFields(i);
    RegisterRMBody(i, resourceIds);
  }

  /** Whatever a request codec reads off any input, those bytes are the ones that
      the message it returns is written as. */
  lemma RequestBytesRead(c: Codec, b: bytes)
    requires DecodeBody(c, b).Some? && !IsTransactionResponse(c) && !IsIdentifyResponse(c)
    ensures var (m, rest) := DecodeBody(c, b).value;
            CodecOf(m) == c && EncodeBody(m) + rest == b
  {
    hide EncodeBody, ParseBody, FromFields, Fits;
    BodyReverse(c, b);
    DecodedOf(c, b);
    DecodedFits(c, b);
  }

  // ----- Responses -----

  /** A transaction response: the result code, `Msg` only when that is 0, the error code. */
  lemma TxBytes(rule: MsgRule, t: TransactionResponse, tail: seq<Value>)
    ensures var msg := if |t.msg| > rule.bound then t.msg[..rule.bound] else t.msg;
            var error: byte := t.errorCode % 0x100;
            var head := if t.resultCode == 0 then [0] + (BigEndian(|msg|, rule.width) + msg) else [t.resultCode];
            Print(TxFields(rule, t) + tail) == head + [error] + Print(tail)
  {
    hide Print, PrintValue, BigEndian;
    var msg := Clamp(t.msg, rule.bound);
    PrintAppend(TxFields(rule, t), tail);
    ByteField(t.resultCode);
    ByteField(ToByte(t.errorCode));
    StrField(rule.width, msg);
    Print2(Num(1, t.resultCode), Num(1, ToByte(t.errorCode)));
    Print3(Num(1, t.resultCode), Str(rule.width, msg), Num(1, ToByte(t.errorCode)));
  }

  lemma BranchEndResponseTail(e: BranchEndResponse)
    ensures var id: nat := if e.branchId < 0 then e.branchId + 0x1_0000_0000_0000_0000 else e.branchId;
            var status: byte := if e.branchStatus < 0 then e.branchStatus + 0x100 else e.branchStatus;
            Print([Str(2, e.xid), Num(8, ToUint64(e.branchId)), Num(1, ToByte(e.branchStatus))]) ==
            (BigEndian(|e.xid|, 2) + e.xid) + BigEndian(id, 8) + [status]
  {
    hide Print, PrintValue, BigEndian, ToUint64, ToByte;
    SignedFields(e.branchId, e.branchStatus);
    StrField(2, e.xid);
    NumField(8, ToUint64(e.branchId));
    ByteField(ToByte(e.branchStatus));
    Print3(Str(2, e.xid), Num(8, ToUint64(e.branchId)), Num(1, ToByte(e.branchStatus)));
  }

  lemma BranchCommitResponseBytes(e: BranchEndResponse)
    ensures var msg := if |e.tx.msg| > 127 then e.tx.msg[..127] else e.tx.msg;
            var error: byte := e.tx.errorCode % 0x100;
            var head := if e.tx.resultCode == 0 then [0] + (BigEndian(|msg|, 1) + msg) else [e.tx.resultCode];
            var id: nat := if e.branchId < 0 then e.branchId + 0x1_0000_0000_0000_0000 else e.branchId;
            var status: byte := if e.branchStatus < 0 then e.branchStatus + 0x100 else e.branchStatus;
            EncodeBody(BranchCommitResponse(e)) ==
            head + [error] + ((BigEndian(|e.xid|, 2) + e.xid) + BigEndian(id, 8) + [status])
  {
    hide Print, PrintValue, BigEndian, TxFields;
    BranchEndResponseTail(e);
    TxBytes(MSG8, e.tx, [Str(2, e.xid), Num(8, ToUint64(e.branchId)), Num(1, ToByte(e.branchStatus))]);
  }

  /** The rollback response cuts `Msg` at 32767 bytes but gives its length one byte. */
  lemma BranchRollbackResponseBytes(e: BranchEndResponse)
    ensures var msg := if |e.tx.msg| > 32767 then e.tx.msg[..32767] else e.tx.msg;
            var error: byte := e.tx.errorCode % 0x100;
            var head := if e.tx.resultCode == 0 then [0] + (BigEndian(|msg|, 1) + msg) else [e.tx.resultCode];
            var id: nat := if e.branchId < 0 then e.branchId + 0x1_0000_0000_0000_0000 else e.branchId;
            var status: byte := if e.branchStatus < 0 then e.branchStatus + 0x100 else e.branchStatus;
            EncodeBody(BranchRollbackResponse(e)) ==
            head + [error] + ((BigEndian(|e.xid|, 2) + e.xid) + BigEndian(id, 8) + [status])
  {
    hide Print, PrintValue, BigEndian, TxFields;
    BranchEndResponseTail(e);
    TxBytes(MSG_ROLLBACK, e.tx, [Str(2, e.xid), Num(8, ToUint64(e.branchId)), Num(1, ToByte(e.branchStatus))]);
  }

  lemma BranchRegisterResponseBytes(tx: TransactionResponse, branchId: int64)
    ensures var msg := if |tx.msg| > 32767 then tx.msg[..32767] else tx.msg;
            var error: byte := tx.errorCode % 0x100;
            var head := if tx.resultCode == 0 then [0] + (BigEndian(|msg|, 2) + msg) else [tx.resultCode];
            var id: nat := if branchId < 0 then branchId + 0x1_0000_0000_0000_0000 else branchId;
            EncodeBody(BranchRegisterResponse(tx, branchId)) == head + [error] + BigEndian(id, 8)
  {
    hide Print, PrintValue, BigEndian, TxFields, ToUint64;
    SignedFields(branchId, 0);
    NumField(8, ToUint64(branchId));
    Print1(Num(8, ToUint64(branchId)));
    TxBytes(MSG16, tx, [Num(8, ToUint64(branchId))]);
  }

  lemma BranchReportResponseBytes(tx: TransactionResponse)
    ensures var msg := if |tx.msg| > 127 then tx.msg[..127] else tx.msg;
            var error: byte := tx.errorCode % 0x100;
            var head := if tx.resultCode == 0 then [0] + (BigEndian(|msg|, 1) + msg) else [tx.resultCode];
            EncodeBody(BranchReportResponse(tx)) == head + [error]
  {
    hide PrintValue, BigEndian, TxFields;
    TxBytes(MSG8, tx, []);
    assert TxFields(MSG8, tx) + [] == TxFields(MSG8, tx);
  }

  lemma GlobalLockQueryResponseBytes(tx: TransactionResponse, lockable: bool)
    ensures var msg := if |tx.msg| > 127 then tx.msg[..127] else tx.msg;
            var error: byte := tx.errorCode % 0x100;
            var head := if tx.resultCode == 0 then [0] + (BigEndian(|msg|, 1) + msg) else [tx.resultCode];
            EncodeBody(GlobalLockQueryResponse(tx, lockable)) ==
            head + [error] + [0, if lockable then 1 else 0]
  {
    hide Print, PrintValue, BigEndian, TxFields;
    var flag: byte := if lockable then 1 else 0;
    NumField(2, flag);
    BigEndian2(flag);
    Print1(Num(2, flag));
    TxBytes(MSG8, tx, [Num(2, flag)]);
  }

  lemma GlobalBeginResponseBytes(tx: TransactionResponse, xid: bytes, extraData: bytes)
    ensures var msg := if |tx.msg| > 32767 then tx.msg[..32767] else tx.msg;
            var error: byte := tx.errorCode % 0x100;
            var head := if tx.resultCode == 0 then [0] + (BigEndian(|msg|, 2) + msg) else [tx.resultCode];
            EncodeBody(GlobalBeginResponse(tx, xid, extraData)) ==
            head + [error] + ((BigEndian(|xid|, 2) + xid) + (BigEndian(|extraData|, 2) + extraData))
  {
    hide Print, PrintValue, BigEndian, TxFields;
    StrField(2, xid);
    StrField(2, extraData);
    Print2(Str(2, xid), Str(2, extraData));
    TxBytes(MSG16, tx, [Str(2, xid), Str(2, extraData)]);
  }

  lemma GlobalEndResponseBytes(e: GlobalEndResponse)
    ensures var msg := if |e.tx.msg| > 32767 then e.tx.msg[..32767] else e.tx.msg;
            var error: byte := e.tx.errorCode % 0x100;
            var head := if e.tx.resultCode == 0 then [0] + (BigEndian(|msg|, 2) + msg) else [e.tx.resultCode];
            && EncodeBody(GlobalCommitResponse(e)) == EncodeBody(GlobalRollbackResponse(e)) ==
               head + [error] + [e.globalStatus]
            && EncodeBody(GlobalStatusResponse(e)) == EncodeBody(GlobalReportResponse(e)) ==
               head + [error] + [e.globalStatus]
  {
    hide Print, PrintValue, BigEndian, TxFields;
    ByteField(e.globalStatus);
    Print1(Num(1, e.globalStatus));
    TxBytes(MSG16, e.tx, [Num(1, e.globalStatus)]);
  }

  // ----- Identify responses -----

  lemma IdentifyResponseBytes(i: IdentifyResponse)
    ensures EncodeBody(RegisterTMResponse(i)) == EncodeBody(RegisterRMResponse(i)) ==
            [if i.identified then 1 else 0] + (BigEndian(|i.version|, 2) + i.version)
  {
    hide Print, PrintValue, BigEndian;
    ByteField(if i.identified then 1 else 0);
    StrField(2, i.version);
    Print2(Num(1, if i.identified then 1 else 0), Str(2, i.version));
  }

  lemma IdentifyResponseLayout(c: Codec, failed: bool, vs: seq<Value>)
    requires c == RegisterTMResponseCodec || c == RegisterRMResponseCodec
    ensures Layout(c, failed) == [NumType(1), StrType(2)]
    ensures var i := IdentifyResponseFrom(vs);
            FromFields(c, vs) == if c == RegisterTMResponseCodec then RegisterTMResponse(i) else RegisterRMResponse(i)
  {
    hide IdentifyResponseFrom;
  }

  /** Read from any input: `Identified` exactly on byte 1, the version after it,
      and every other field zero. */
  lemma IdentifyResponseRead(c: Codec, b: bytes)
    requires c == RegisterTMResponseCodec || c == RegisterRMResponseCodec
    requires Decoded(c, b).Some?
    ensures |b| >= 3 && |b| >= 3 + b[1] as int * 0x100 + b[2] as int
    ensures var n := b[1] as int * 0x100 + b[2] as int;
            var i := IdentifyResponse(0, [], b[3..3 + n], [], b[0] == 1);
            Decoded(c, b).value == if c == RegisterTMResponseCodec then RegisterTMResponse(i) else RegisterRMResponse(i)
  {
    hide Print, Parse, PrintValue, BigEndian, Layout, FromFields;
    ParsedBody(c, b);
    var (vs, rest) := ParseBody(c, b).value;
    IdentifyResponseLayout(c, FailedFields(vs), vs);
    assert vs == [vs[0], vs[1]];
    IdentifyResponseParts(vs[0], vs[1], b, rest);
  }

  lemma IdentifyResponseParts(flag: Value, version: Value, b: bytes, rest: bytes)
    requires flag.TypeOf() == NumType(1) && flag.Fits() && version.TypeOf() == StrType(2) && version.Fits()
    requires Print([flag, version]) + rest == b
    ensures |b| >= 3 + |version.s| && |version.s| == b[1] as int * 0x100 + b[2] as int
    ensures IdentifyResponseFrom([flag, version]) == IdentifyResponse(0, [], b[3..3 + |version.s|], [], b[0] == 1)
  {
    hide Print, PrintValue, BigEndian;
    Widths();
    ByteField(flag.n);
    StrField(2, version.s);
    BigEndian2(|version.s|);
    Print2(flag, version);
    assert b == [ToByte(flag.n), ToByte(|version.s| / 0x100), ToByte(|version.s|)] + version.s + rest;
  }

  // ----- Timeouts -----

  lemma MillisWritten(t: int64, q: int)
    requires if t >= 0 then q * 1_000_000 <= t < q * 1_000_000 + 1_000_000
             else q * 1_000_000 - 1_000_000 < t <= q * 1_000_000
    ensures TimeoutMillis(t) == q % 0x1_0000_0000
  {
  }

  lemma MillisBytes(q: int)
    ensures BigEndian(q % 0x1_0000_0000, 4) == BigEndian(q, 4)
  {
    hide BigEndian, Pow256;
    Widths();
    var k := -(q / 0x1_0000_0000);
    assert q % 0x1_0000_0000 == q + k * 0x1_0000_0000;
    BigEndianWraps(q, 4, k);
  }

  /** `q` is `t` in whole milliseconds, rounded toward zero. */
  lemma GlobalBeginRequestBytes(t: int64, q: int, name: bytes)
    requires if t >= 0 then q * 1_000_000 <= t < q * 1_000_000 + 1_000_000
             else q * 1_000_000 - 1_000_000 < t <= q * 1_000_000
    ensures EncodeBody(GlobalBeginRequest(t, name)) == BigEndian(q, 4) + (BigEndian(|name|, 2) + name)
  {
    hide Print, PrintValue, BigEndian, TimeoutMillis;
    MillisWritten(t, q);
    MillisBytes(q);
    NumField(4, TimeoutMillis(t));
    StrField(2, name);
    Print2(Num(4, TimeoutMillis(t)), Str(2, name));
  }

  lemma NormOfTimeout(t: int64, name: bytes)
    requires 0 <= t < 0x1_0000_0000 * 1_000_000
    ensures Norm(GlobalBeginRequest(t, name)) == GlobalBeginRequest(t - t % 1_000_000, name)
    ensures Fits(GlobalBeginRequest(t, name)) <==> |name| < 0x1_0000
    ensures 0 <= t / 1_000_000 < 0x1_0000_0000
  {
  }

  lemma FourLeadingBytes(q: nat, rest: bytes)
    requires q < 0x1_0000_0000
    ensures [q / 0x100_0000, q / 0x1_0000 % 0x100, q / 0x100 % 0x100, q % 0x100] <= BigEndian(q, 4) + rest
  {
    hide BigEndian;
    BigEndian4(q);
  }

  /** A timeout of less than 2^32 milliseconds arrives cut to whole milliseconds. */
  lemma GlobalBeginRoundTrip(t: int64, name: bytes, rest: bytes)
    requires 0 <= t < 0x1_0000_0000 * 1_000_000 && |name| < 0x1_0000
    ensures DecodeBody(GlobalBeginRequestCodec, EncodeBody(GlobalBeginRequest(t, name)) + rest) ==
            Some((GlobalBeginRequest(t - t % 1_000_000, name), rest))
    ensures var q := t / 1_000_000;
            [q / 0x100_0000, q / 0x1_0000 % 0x100, q / 0x100 % 0x100, q % 0x100] <=
            EncodeBody(GlobalBeginRequest(t, name))
  {
    hide EncodeBody, DecodeBody, BigEndian, Norm, Fits;
    NormOfTimeout(t, name);
    BodyRoundTrip(GlobalBeginRequest(t, name), rest);
    GlobalBeginRequestBytes(t, t / 1_000_000, name);
    FourLeadingBytes(t / 1_000_000, BigEndian(|name|, 2) + name);
  }

  /** Read from any input: four bytes of milliseconds, then the name. */
  lemma GlobalBeginRequestRead(b: bytes)
    requires Decoded(GlobalBeginRequestCodec, b).Some?
    ensures |b| >= 6 && |b| >= 6 + b[4] as int * 0x100 + b[5] as int
    ensures var q := b[0] as int * 0x100_0000 + b[1] as int * 0x1_0000 + b[2] as int * 0x100 + b[3] as int;
            var n := b[4] as int * 0x100 + b[5] as int;
            Decoded(GlobalBeginRequestCodec, b) == Some(GlobalBeginRequest(q * 1_000_000, b[6..6 + n]))
  {
    hide Print, Parse, PrintValue, BigEndian;
    ParsedBody(GlobalBeginRequestCodec, b);
    var (vs, rest) := ParseBody(GlobalBeginRequestCodec, b).value;
    assert vs == [vs[0], vs[1]];
    GlobalBeginRequestParts(vs[0], vs[1], b, rest);
  }

  lemma FourDigits(n: nat)
    requires n < 0x1_0000_0000
    ensures n == (n / 0x100_0000 % 0x100) * 0x100_0000 + (n / 0x1_0000 % 0x100) * 0x1_0000
                 + (n / 0x100 % 0x100) * 0x100 + n % 0x100
  {
    assert n / 0x1_0000 == n / 0x100 / 0x100 && n / 0x100_0000 == n / 0x1_0000 / 0x100;
  }

  lemma GlobalBeginRequestParts(millis: Value, name: Value, b: bytes, rest: bytes)
    requires millis.TypeOf() == NumType(4) && millis.Fits() && name.TypeOf() == StrType(2) && name.Fits()
    requires Print([millis, name]) + rest == b
    ensures |b| >= 6 + |name.s| && name.s == b[6..6 + |name.s|]
    ensures |name.s| == b[4] as int * 0x100 + b[5] as int
    ensures millis.n == b[0] as int * 0x100_0000 + b[1] as int * 0x1_0000 + b[2] as int * 0x100 + b[3] as int
  {
    hide Print, PrintValue, BigEndian;
    Widths();
    NumField(4, millis.n);
    BigEndian4(millis.n);
    FourDigits(millis.n);
    StrField(2, name.s);
    BigEndian2(|name.s|);
    Print2(millis, name);
    var prefix := [ToByte(|name.s| / 0x100), ToByte(|name.s|)];
    assert b == BigEndian(millis.n, 4) + prefix + name.s + rest;
    assert b[..4] == BigEndian(millis.n, 4) && b[4..6] == prefix;
    assert b[0] == b[..4][0] && b[1] == b[..4][1] && b[2] == b[..4][2] && b[3] == b[..4][3];
  }

  // ----- A value of another struct -----

  predicate ZeroBody(r: EncodeResult, length: nat) {
    r.Encoded? && |r.body| == length && Zeros(r.body)
  }

  predicate ZeroField(v: Value) {
    if v.Num? then v.n == 0 else v.s == []
  }

  lemma {:induction false} PrintZeroFields(vs: seq<Value>)
    requires forall i :: 0 <= i < |vs| ==> ZeroField(vs[i])
    ensures Zeros(Print(vs))
  {
    forall i | 0 <= i < |vs| ensures Zeros(PrintValue(vs[i])) {
      assert ZeroField(vs[i]);
      BigEndianZero(vs[i].w);
    }
    PrintZeros(vs);
  }

  lemma ZeroMessage(m: Message)
    requires forall i :: 0 <= i < |Fields(m)| ==> ZeroField(Fields(m)[i])
    ensures ZeroBody(Encoded(EncodeBody(m)), BodyLength(m))
  {
    hide Print;
    BodyLengthExact(m);
    PrintZeroFields(Fields(m));
  }

  lemma ZeroRequest(c: Codec)
    requires IsBranchRequest(c)
    ensures ZeroBody(Encoded(EncodeBody(ZeroOf(c).value)), BodyLength(ZeroOf(c).value))
  {
    hide EncodeBody, ZeroBody, BodyLength;
    ZeroMessage(ZeroOf(c).value);
  }

  lemma ZeroResponse(c: Codec)
    requires IsBranchResponse(c)
    ensures ZeroBody(Encoded(EncodeBody(ZeroOf(c).value)), BodyLength(ZeroOf(c).value))
  {
    hide EncodeBody, ZeroBody, BodyLength;
    ZeroMessage(ZeroOf(c).value);
  }

  /** Codecs that ignore the failed assertion encode zero bytes only, the others panic. */
  lemma WrongStruct(c: Codec, m: Message)
    requires CodecOf(m) != c
    ensures match c
            case BranchCommitRequestCodec => ZeroBody(EncodeAs(c, m), 17)
            case BranchCommitResponseCodec => ZeroBody(EncodeAs(c, m), 14)
            case BranchRollbackRequestCodec => ZeroBody(EncodeAs(c, m), 17)
            case BranchRollbackResponseCodec => ZeroBody(EncodeAs(c, m), 14)
            case BranchRegisterRequestCodec => ZeroBody(EncodeAs(c, m), 13)
            case BranchRegisterResponseCodec => ZeroBody(EncodeAs(c, m), 12)
            case BranchReportRequestCodec => ZeroBody(EncodeAs(c, m), 18)
            case BranchReportResponseCodec => ZeroBody(EncodeAs(c, m), 3)
            case GlobalLockQueryRequestCodec => ZeroBody(EncodeAs(c, m), 13)
            case GlobalLockQueryResponseCodec => ZeroBody(EncodeAs(c, m), 5)
            case _ => EncodeAs(c, m) == Panicked
  {
    hide EncodeBody, ZeroBody;
    if IsBranchRequest(c) {
      ZeroRequest(c);
    } else if ZeroOf(c).Some? {
      ZeroResponse(c);
    }
  }
}
