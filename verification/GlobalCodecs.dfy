/** The codecs of global-transaction messages. */
module GlobalCodecs {
  import opened Options
  import opened Bytes
  import opened Wire
  import opened ByteBuffers
  import opened Messages
  import opened Layouts
  import opened Assertions
  import opened Reading

  method EncodeGlobalBeginRequest(m: Message) returns (r: EncodeResult)
    ensures r == EncodeAs(GlobalBeginRequestCodec, m)
  {
    hide Print, Parse;
    if !m.GlobalBeginRequest? {
      return Panicked;
    }
    var buf := new ByteBuffer([]);
    var millis := Quotient(m.timeout, NANOS_PER_MILLI) % 0x1_0000_0000;
    buf.WriteUint32(millis);
    buf.WriteString16Length(m.transactionName);
    assert buf.written == Fields(m);
    var b := buf.Bytes();
    r := Encoded(b);
  }

  method DecodeGlobalBeginRequest(b: bytes) returns (r: Option<Message>)
    ensures r == Decoded(GlobalBeginRequestCodec, b)
  {
    hide Print, Parse, Decoded, ByteBuffer.Valid, ToInt64;
    var buf := new ByteBuffer(b);
    var millis := buf.ReadUInt32();
    var transactionName := buf.ReadString16Length();
    ghost var fields := [Num(4, millis), Str(2, transactionName)];
    assert buf.taken == fields && buf.types == [NumType(4), StrType(2)];
    DecodedFromFields(GlobalBeginRequestCodec, b, buf.types, buf.Outcome(), fields);
    r := if buf.short then None
         else Some(GlobalBeginRequest(ToInt64(millis * NANOS_PER_MILLI), transactionName));
  }

  method EncodeGlobalBeginResponse(m: Message) returns (r: EncodeResult)
    ensures r == EncodeAs(GlobalBeginResponseCodec, m)
  {
    hide Print, Parse;
    if !m.GlobalBeginResponse? {
      return Panicked;
    }
    var buf := new ByteBuffer([]);
    buf.WriteByte(m.tx.resultCode);
    if m.tx.resultCode == RESULT_CODE_FAILED {
      var msg := m.tx.msg;
      if |m.tx.msg| > 0x7FFF {
        msg := m.tx.msg[..0x7FFF];
      }
      buf.WriteString16Length(msg);
    }
    buf.WriteByte(ToByte(m.tx.errorCode));
    assert buf.written == TxFields(MSG16, m.tx);
    buf.WriteString16Length(m.xid);
    buf.WriteString16Length(m.extraData);
    assert buf.written == Fields(m);
    var b := buf.Bytes();
    r := Encoded(b);
  }

  method DecodeGlobalBeginResponse(b: bytes) returns (r: Option<Message>)
    ensures r == Decoded(GlobalBeginResponseCodec, b)
  {
    hide Print, Parse, Decoded, ByteBuffer.Valid, Layout, FromFields, TxRead, TxTypes;
    var buf := new ByteBuffer(b);
    var resultCode := buf.ReadByte();
    assert FailedBytes(b) <==> resultCode == RESULT_CODE_FAILED;
    var msg: bytes := [];
    if resultCode == RESULT_CODE_FAILED {
      msg := buf.ReadString16Length();
    }
    var errorCode := buf.ReadByte();
    var tx := TransactionResponse(resultCode, msg, errorCode);
    assert buf.taken == TxRead(MSG16, tx) && buf.types == TxTypes(MSG16, FailedBytes(b)) by {
      TxReads(MSG16, tx);
    }
    var xid := buf.ReadString16Length();
    var extraData := buf.ReadString16Length();
    GlobalBeginResponseOfRead(tx, xid, extraData);
    assert buf.types == TxTypes(MSG16, FailedBytes(b)) + [StrType(2), StrType(2)] by {
      Append2(TxTypes(MSG16, FailedBytes(b)), StrType(2), StrType(2));
    }
    assert buf.taken == TxRead(MSG16, tx) + [Str(2, xid), Str(2, extraData)] by {
      Append2(TxRead(MSG16, tx), Str(2, xid), Str(2, extraData));
    }
    TxLayouts(FailedBytes(b));
    DecodedFromFields(GlobalBeginResponseCodec, b, buf.types, buf.Outcome(), buf.taken);
    r := if buf.short then None else Some(GlobalBeginResponse(tx, xid, extraData));
  }

  /** The body that commit, rollback and status requests share. */
  method EncodeGlobalEndRequest(data: GlobalEndRequest) returns (b: bytes)
    ensures b == Print(GlobalEndRequestFields(data))
  {
    hide Print, Parse;
    var buf := new ByteBuffer([]);
    buf.WriteString16Length(data.xid);
    buf.WriteString16Length(data.extraData);
    assert buf.written == GlobalEndRequestFields(data);
    b := buf.Bytes();
  }

  method DecodeGlobalEndRequest(b: bytes) returns (r: Option<GlobalEndRequest>)
    ensures r == GlobalEndRequestDecoded(b)
  {
    hide Print, Parse;
    var buf := new ByteBuffer(b);
    var xid := buf.ReadString16Length();
    var extraData := buf.ReadString16Length();
    assert buf.taken == [Str(2, xid), Str(2, extraData)] && buf.types == [StrType(2), StrType(2)];
    r := if buf.short then None else Some(GlobalEndRequest(xid, extraData));
  }

  /** The body that the four global-end responses share. */
  method EncodeGlobalEndResponse(data: GlobalEndResponse) returns (b: bytes)
    ensures b == Print(GlobalEndResponseFields(data))
  {
    hide Print, Parse;
    var buf := new ByteBuffer([]);
    buf.WriteByte(data.tx.resultCode);
    if data.tx.resultCode == RESULT_CODE_FAILED {
      var msg := data.tx.msg;
      if |data.tx.msg| > 0x7FFF {
        msg := data.tx.msg[..0x7FFF];
      }
      buf.WriteString16Length(msg);
    }
    buf.WriteByte(ToByte(data.tx.errorCode));
    assert buf.written == TxFields(MSG16, data.tx);
    buf.WriteByte(data.globalStatus);
    assert buf.written == GlobalEndResponseFields(data);
    b := buf.Bytes();
  }

  method DecodeGlobalEndResponse(b: bytes) returns (r: Option<GlobalEndResponse>)
    ensures r == GlobalEndResponseDecoded(b)
  {
    hide Print, Parse, GlobalEndResponseDecoded, ByteBuffer.Valid, GlobalEndResponseFrom, TxRead, TxTypes;
    var buf := new ByteBuffer(b);
    var resultCode := buf.ReadByte();
    assert FailedBytes(b) <==> resultCode == RESULT_CODE_FAILED;
    var msg: bytes := [];
    if resultCode == RESULT_CODE_FAILED {
      msg := buf.ReadString16Length();
    }
    var errorCode := buf.ReadByte();
    var tx := TransactionResponse(resultCode, msg, errorCode);
    assert buf.taken == TxRead(MSG16, tx) && buf.types == TxTypes(MSG16, FailedBytes(b)) by {
      TxReads(MSG16, tx);
    }
    var globalStatus := buf.ReadByte();
    GlobalEndResponseOfRead(GlobalEndResponse(tx, globalStatus));
    assert buf.types == TxTypes(MSG16, FailedBytes(b)) + [NumType(1)];
    assert buf.taken == TxRead(MSG16, tx) + [Num(1, globalStatus)];
    GlobalEndResponseDecodedFromFields(b, buf.types, buf.Outcome(), buf.taken);
    r := if buf.short then None else Some(GlobalEndResponse(tx, globalStatus));
  }

  /** The common body, wrapped in a new buffer, and a status byte after it. */
  method EncodeGlobalReportRequest(m: Message) returns (r: EncodeResult)
    ensures r == EncodeAs(GlobalReportRequestCodec, m)
  {
    hide Print, Parse;
    if !m.GlobalReportRequest? {
      return Panicked;
    }
    var common := EncodeGlobalEndRequest(m.globalEnd);
    var buf := new ByteBuffer(common);
    buf.WriteByte(m.globalStatus);
    PrintAppend(GlobalEndRequestFields(m.globalEnd), [Num(1, m.globalStatus)]);
    assert buf.written == [Num(1, m.globalStatus)];
    var b := buf.Bytes();
    r := Encoded(b);
  }

  method DecodeGlobalReportRequest(b: bytes) returns (r: Option<Message>)
    ensures r == Decoded(GlobalReportRequestCodec, b)
  {
    hide Print, Parse, Decoded, ByteBuffer.Valid;
    var buf := new ByteBuffer(b);
    var xid := buf.ReadString16Length();
    var extraData := buf.ReadString16Length();
    var status := buf.ReadByte();
    ghost var fields := [Str(2, xid), Str(2, extraData), Num(1, status)];
    assert buf.taken == fields && buf.types == [StrType(2), StrType(2), NumType(1)];
    DecodedFromFields(GlobalReportRequestCodec, b, buf.types, buf.Outcome(), fields);
    r := if buf.short then None else Some(GlobalReportRequest(GlobalEndRequest(xid, extraData), status));
  }

  method EncodeGlobalLockQueryRequest(m: Message) returns (r: EncodeResult)
    ensures r == EncodeAs(GlobalLockQueryRequestCodec, m)
  {
    hide Print, Parse, EncodeAs, EncodeBody, Fields, ByteBuffer.Valid, ToByte;
    var data := if m.GlobalLockQueryRequest? then m.register else ZERO_REGISTER;
    GlobalLockQueryRequestAsserted(m);
    var buf := new ByteBuffer([]);
    buf.WriteString16Length(data.xid);
    buf.WriteByte(ToByte(data.branchType));
    buf.WriteString16Length(data.resourceId);
    buf.WriteString32Length(data.lockKey);
    buf.WriteString32Length(data.applicationData);
    assert buf.written == BranchRegisterFields(data);
    var b := buf.Bytes();
    r := Encoded(b);
  }

  method DecodeGlobalLockQueryRequest(b: bytes) returns (r: Option<Message>)
    ensures r == Decoded(GlobalLockQueryRequestCodec, b)
  {
    hide Print, Parse, Decoded, ByteBuffer.Valid, Layout, FromFields, ToInt8;
    var buf := new ByteBuffer(b);
    var xid := buf.ReadString16Length();
    var branchType := buf.ReadByte();
    var resourceId := buf.ReadString16Length();
    var lockKey := buf.ReadString32Length();
    var applicationData := buf.ReadString32Length();
    ghost var fields := [
      Str(2, xid), Num(1, branchType), Str(2, resourceId), Str(4, lockKey), Str(4, applicationData)];
    assert buf.taken == fields && buf.types == [StrType(2), NumType(1), StrType(2), StrType(4), StrType(4)];
    var data := BranchRegister(xid, ToInt8(branchType), resourceId, lockKey, applicationData);
    BranchRegisterOfRead(FailedBytes(b), data, branchType);
    DecodedFromFields(GlobalLockQueryRequestCodec, b, buf.types, buf.Outcome(), fields);
    r := if buf.short then None else Some(GlobalLockQueryRequest(data));
  }

  method EncodeGlobalLockQueryResponse(m: Message) returns (r: EncodeResult)
    ensures r == EncodeAs(GlobalLockQueryResponseCodec, m)
  {
    hide Print, Parse, EncodeAs, EncodeBody, Fields, ByteBuffer.Valid, ToByte;
    var data := if m.GlobalLockQueryResponse? then m else GlobalLockQueryResponse(ZERO_TX, false);
    GlobalLockQueryResponseAsserted(m);
    var buf := new ByteBuffer([]);
    buf.WriteByte(data.tx.resultCode);
    if data.tx.resultCode == RESULT_CODE_FAILED {
      var msg := data.tx.msg;
      if |data.tx.msg| > 0x7F {
        msg := data.tx.msg[..0x7F];
      }
      buf.WriteString8Length(msg);
    }
    buf.WriteByte(ToByte(data.tx.errorCode));
    assert buf.written == TxFields(MSG8, data.tx);
    var lockable: uint16 := 0;
    if data.lockable {
      lockable := 1;
    }
    buf.WriteUint16(lockable);
    assert buf.written == TxFields(MSG8, data.tx) + [Num(2, if data.lockable then 1 else 0)];
    var b := buf.Bytes();
    r := Encoded(b);
  }

  method DecodeGlobalLockQueryResponse(b: bytes) returns (r: Option<Message>)
    ensures r == Decoded(GlobalLockQueryResponseCodec, b)
  {
    hide Print, Parse, Decoded, ByteBuffer.Valid, Layout, FromFields, TxRead, TxTypes;
    var buf := new ByteBuffer(b);
    var resultCode := buf.ReadByte();
    assert FailedBytes(b) <==> resultCode == RESULT_CODE_FAILED;
    var msg: bytes := [];
    if resultCode == RESULT_CODE_FAILED {
      msg := buf.ReadString8Length();
    }
    var errorCode := buf.ReadByte();
    var tx := TransactionResponse(resultCode, msg, errorCode);
    assert buf.taken == TxRead(MSG8, tx) && buf.types == TxTypes(MSG8, FailedBytes(b)) by {
      TxReads(MSG8, tx);
    }
    var lockable := buf.ReadUInt16();
    GlobalLockQueryResponseOfRead(tx, lockable);
    assert buf.types == TxTypes(MSG8, FailedBytes(b)) + [NumType(2)];
    assert buf.taken == TxRead(MSG8, tx) + [Num(2, lockable)];
    TxLayouts(FailedBytes(b));
    DecodedFromFields(GlobalLockQueryResponseCodec, b, buf.types, buf.Outcome(), buf.taken);
    r := if buf.short then None else Some(GlobalLockQueryResponse(tx, lockable == 1));
  }
}
