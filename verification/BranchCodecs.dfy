/** The codecs of branch messages. */
module BranchCodecs {
  import opened Options
  import opened Bytes
  import opened Wire
  import opened ByteBuffers
  import opened Messages
  import opened Layouts
  import opened Assertions
  import opened Reading

  method EncodeBranchCommitRequest(m: Message) returns (r: EncodeResult)
    ensures r == EncodeAs(BranchCommitRequestCodec, m)
  {
    hide Print, Parse, EncodeAs, EncodeBody, Fields, ByteBuffer.Valid, ToByte;
    var data := if m.BranchCommitRequest? then m.branchEnd else ZERO_BRANCH_END;
    BranchCommitRequestAsserted(m);
    var buf := new ByteBuffer([]);
    buf.WriteString16Length(data.xid);
    buf.WriteInt64(data.branchId);
    buf.WriteByte(ToByte(data.branchType));
    buf.WriteString16Length(data.resourceId);
    buf.WriteString32Length(data.applicationData);
    assert buf.written == BranchEndRequestFields(data);
    var b := buf.Bytes();
    r := Encoded(b);
  }

  method DecodeBranchCommitRequest(b: bytes) returns (r: Option<Message>)
    ensures r == Decoded(BranchCommitRequestCodec, b)
  {
    hide Print, Parse, Decoded, ByteBuffer.Valid, Layout, FromFields, ToInt8, ToInt64;
    var buf := new ByteBuffer(b);
    var xid := buf.ReadString16Length();
    var branchId := buf.ReadUInt64();
    var branchType := buf.ReadByte();
    var resourceId := buf.ReadString16Length();
    var applicationData := buf.ReadString32Length();
    ghost var fields := [
      Str(2, xid), Num(8, branchId), Num(1, branchType), Str(2, resourceId), Str(4, applicationData)];
    assert buf.taken == fields && buf.types == [StrType(2), NumType(8), NumType(1), StrType(2), StrType(4)];
    var data := BranchEndRequest(xid, ToInt64(branchId), ToInt8(branchType), resourceId, applicationData);
    BranchEndRequestOfRead(FailedBytes(b), data, branchId, branchType);
    DecodedFromFields(BranchCommitRequestCodec, b, buf.types, buf.Outcome(), fields);
    r := if buf.short then None else Some(BranchCommitRequest(data));
  }

  method EncodeBranchCommitResponse(m: Message) returns (r: EncodeResult)
    ensures r == EncodeAs(BranchCommitResponseCodec, m)
  {
    hide Print, Parse, EncodeAs, EncodeBody, Fields, ByteBuffer.Valid, ToByte, ToUint64;
    var data := if m.BranchCommitResponse? then m.branchEnded else ZERO_BRANCH_ENDED;
    BranchCommitResponseAsserted(m);
    var buf := new ByteBuffer([]);
    buf.WriteByte(data.tx.resultCode);
    if data.tx.resultCode == RESULT_CODE_FAILED {
      var msg := data.tx.msg;
      if |data.tx.msg| > 0x7F {
        msg := data.tx.msg[..0x7F];
      }
      buf.WriteString8Length(msg);
    }
    buf.WriteByte(ToByte(data.tx.errorCode));
    assert buf.written == TxFields(MSG8, data.tx);
    buf.WriteString16Length(data.xid);
    buf.WriteInt64(data.branchId);
    buf.WriteByte(ToByte(data.branchStatus));
    assert buf.written == BranchEndResponseFields(MSG8, data) by {
      Append3(TxFields(MSG8, data.tx), Str(2, data.xid), Num(8, ToUint64(data.branchId)),
              Num(1, ToByte(data.branchStatus)));
    }
    var b := buf.Bytes();
    r := Encoded(b);
  }

  method DecodeBranchCommitResponse(b: bytes) returns (r: Option<Message>)
    ensures r == Decoded(BranchCommitResponseCodec, b)
  {
    hide Print, Parse, Decoded, ByteBuffer.Valid, Layout, FromFields, ToInt8, ToInt64;
    hide BranchEndResponseFrom, TxRead, TxTypes;
    var buf := new ByteBuffer(b);
    var resultCode := buf.ReadByte();
    assert FailedBytes(b) <==> resultCode == RESULT_CODE_FAILED;
    var msg: bytes := [];
    if resultCode == RESULT_CODE_FAILED {
      msg := buf.ReadString8Length();
    }
    var errorCode := buf.ReadByte();
    var tx := TransactionResponse(resultCode, msg, errorCode);
    assert buf.taken == TxRead(MSG8, tx) && buf.types == TxTypes(MSG8, FailedBytes(b)) by {
      TxReads(MSG8, tx);
    }
    var xid := buf.ReadString16Length();
    var branchId := buf.ReadUInt64();
    var branchStatus := buf.ReadByte();
    var data := BranchEndResponse(tx, xid, ToInt64(branchId), ToInt8(branchStatus));
    BranchEndResponseOfRead(MSG8, data, branchId, branchStatus);
    assert buf.types == TxTypes(MSG8, FailedBytes(b)) + [StrType(2), NumType(8), NumType(1)] by {
      Append3(TxTypes(MSG8, FailedBytes(b)), StrType(2), NumType(8), NumType(1));
    }
    assert buf.taken == TxRead(MSG8, tx) + [Str(2, xid), Num(8, branchId), Num(1, branchStatus)] by {
      Append3(TxRead(MSG8, tx), Str(2, xid), Num(8, branchId), Num(1, branchStatus));
    }
    BranchEndResponseLayout(FailedBytes(b), buf.taken);
    DecodedFromFields(BranchCommitResponseCodec, b, buf.types, buf.Outcome(), buf.taken);
    r := if buf.short then None else Some(BranchCommitResponse(data));
  }

  method EncodeBranchRollbackRequest(m: Message) returns (r: EncodeResult)
    ensures r == EncodeAs(BranchRollbackRequestCodec, m)
  {
    hide Print, Parse, EncodeAs, EncodeBody, Fields, ByteBuffer.Valid, ToByte;
    var data := if m.BranchRollbackRequest? then m.branchEnd else ZERO_BRANCH_END;
    BranchRollbackRequestAsserted(m);
    var buf := new ByteBuffer([]);
    buf.WriteString16Length(data.xid);
    buf.WriteInt64(data.branchId);
    buf.WriteByte(ToByte(data.branchType));
    buf.WriteString16Length(data.resourceId);
    buf.WriteString32Length(data.applicationData);
    assert buf.written == BranchEndRequestFields(data);
    var b := buf.Bytes();
    r := Encoded(b);
  }

  method DecodeBranchRollbackRequest(b: bytes) returns (r: Option<Message>)
    ensures r == Decoded(BranchRollbackRequestCodec, b)
  {
    hide Print, Parse, Decoded, ByteBuffer.Valid, Layout, FromFields, ToInt8, ToInt64;
    var buf := new ByteBuffer(b);
    var xid := buf.ReadString16Length();
    var branchId := buf.ReadUInt64();
    var branchType := buf.ReadByte();
    var resourceId := buf.ReadString16Length();
    var applicationData := buf.ReadString32Length();
    ghost var fields := [
      Str(2, xid), Num(8, branchId), Num(1, branchType), Str(2, resourceId), Str(4, applicationData)];
    assert buf.taken == fields && buf.types == [StrType(2), NumType(8), NumType(1), StrType(2), StrType(4)];
    var data := BranchEndRequest(xid, ToInt64(branchId), ToInt8(branchType), resourceId, applicationData);
    BranchEndRequestOfRead(FailedBytes(b), data, branchId, branchType);
    DecodedFromFields(BranchRollbackRequestCodec, b, buf.types, buf.Outcome(), fields);
    r := if buf.short then None else Some(BranchRollbackRequest(data));
  }

  method EncodeBranchRollbackResponse(m: Message) returns (r: EncodeResult)
    ensures r == EncodeAs(BranchRollbackResponseCodec, m)
  {
    hide Print, Parse, EncodeAs, EncodeBody, Fields, ByteBuffer.Valid, ToByte, ToUint64;
    var data := if m.BranchRollbackResponse? then m.branchEnded else ZERO_BRANCH_ENDED;
    BranchRollbackResponseAsserted(m);
    var buf := new ByteBuffer([]);
    buf.WriteByte(data.tx.resultCode);
    if data.tx.resultCode == RESULT_CODE_FAILED {
      var msg := data.tx.msg;
      if |data.tx.msg| > 0x7FFF {
        msg := data.tx.msg[..0x7FFF];
      }
      buf.WriteString8Length(msg);
    }
    buf.WriteByte(ToByte(data.tx.errorCode));
    assert buf.written == TxFields(MSG_ROLLBACK, data.tx);
    buf.WriteString16Length(data.xid);
    buf.WriteInt64(data.branchId);
    buf.WriteByte(ToByte(data.branchStatus));
    assert buf.written == BranchEndResponseFields(MSG_ROLLBACK, data) by {
      Append3(TxFields(MSG_ROLLBACK, data.tx), Str(2, data.xid), Num(8, ToUint64(data.branchId)),
              Num(1, ToByte(data.branchStatus)));
    }
    var b := buf.Bytes();
    r := Encoded(b);
  }

  method DecodeBranchRollbackResponse(b: bytes) returns (r: Option<Message>)
    ensures r == Decoded(BranchRollbackResponseCodec, b)
  {
    hide Print, Parse, Decoded, ByteBuffer.Valid, Layout, FromFields, ToInt8, ToInt64;
    hide BranchEndResponseFrom, TxRead, TxTypes;
    var buf := new ByteBuffer(b);
    var resultCode := buf.ReadByte();
    assert FailedBytes(b) <==> resultCode == RESULT_CODE_FAILED;
    var msg: bytes := [];
    if resultCode == RESULT_CODE_FAILED {
      msg := buf.ReadString8Length();
    }
    var errorCode := buf.ReadByte();
    var tx := TransactionResponse(resultCode, msg, errorCode);
    assert buf.taken == TxRead(MSG_ROLLBACK, tx) && buf.types == TxTypes(MSG_ROLLBACK, FailedBytes(b)) by {
      TxReads(MSG_ROLLBACK, tx);
    }
    var xid := buf.ReadString16Length();
    var branchId := buf.ReadUInt64();
    var branchStatus := buf.ReadByte();
    var data := BranchEndResponse(tx, xid, ToInt64(branchId), ToInt8(branchStatus));
    BranchEndResponseOfRead(MSG_ROLLBACK, data, branchId, branchStatus);
    assert buf.types == TxTypes(MSG_ROLLBACK, FailedBytes(b)) + [StrType(2), NumType(8), NumType(1)] by {
      Append3(TxTypes(MSG_ROLLBACK, FailedBytes(b)), StrType(2), NumType(8), NumType(1));
    }
    assert buf.taken == TxRead(MSG_ROLLBACK, tx) + [Str(2, xid), Num(8, branchId), Num(1, branchStatus)] by {
      Append3(TxRead(MSG_ROLLBACK, tx), Str(2, xid), Num(8, branchId), Num(1, branchStatus));
    }
    BranchEndResponseLayout(FailedBytes(b), buf.taken);
    DecodedFromFields(BranchRollbackResponseCodec, b, buf.types, buf.Outcome(), buf.taken);
    r := if buf.short then None else Some(BranchRollbackResponse(data));
  }

  method EncodeBranchRegisterRequest(m: Message) returns (r: EncodeResult)
    ensures r == EncodeAs(BranchRegisterRequestCodec, m)
  {
    hide Print, Parse, EncodeAs, EncodeBody, Fields, ByteBuffer.Valid, ToByte;
    var data := if m.BranchRegisterRequest? then m.register else ZERO_REGISTER;
    BranchRegisterRequestAsserted(m);
    var buf := new ByteBuffer([]);
    buf.WriteString16Length(data.xid);
    buf.WriteByte(ToByte(data.branchType));
    buf.WriteString16Length(data.resourceId);
    buf.WriteString32Length(data.lockKey);
    buf.WriteString32Length(data.applicationData);
    assert buf.written == BranchRegisterFields(data);
    var b := buf.Bytes();
    r := Encoded(b);
  }

  method DecodeBranchRegisterRequest(b: bytes) returns (r: Option<Message>)
    ensures r == Decoded(BranchRegisterRequestCodec, b)
  {
    hide Print, Parse, Decoded, ByteBuffer.Valid, Layout, FromFields, ToInt8;
    var buf := new ByteBuffer(b);
    var xid := buf.ReadString16Length();
    var branchType := buf.ReadByte();
    var resourceId := buf.ReadString16Length();
    var lockKey := buf.ReadString32Length();
    var applicationData := buf.ReadString32Length();
    ghost var fields := [
      Str(2, xid), Num(1, branchType), Str(2, resourceId), Str(4, lockKey), Str(4, applicationData)];
    assert buf.taken == fields && buf.types == [StrType(2), NumType(1), StrType(2), StrType(4), StrType(4)];
    var data := BranchRegister(xid, ToInt8(branchType), resourceId, lockKey, applicationData);
    BranchRegisterOfRead(FailedBytes(b), data, branchType);
    DecodedFromFields(BranchRegisterRequestCodec, b, buf.types, buf.Outcome(), fields);
    r := if buf.short then None else Some(BranchRegisterRequest(data));
  }

  method EncodeBranchRegisterResponse(m: Message) returns (r: EncodeResult)
    ensures r == EncodeAs(BranchRegisterResponseCodec, m)
  {
    hide Print, Parse, EncodeAs, EncodeBody, Fields, ByteBuffer.Valid, ToByte, ToUint64;
    var data := if m.BranchRegisterResponse? then m else BranchRegisterResponse(ZERO_TX, 0);
    BranchRegisterResponseAsserted(m);
    var buf := new ByteBuffer([]);
    buf.WriteByte(data.tx.resultCode);
    if data.tx.resultCode == RESULT_CODE_FAILED {
      var msg := data.tx.msg;
      if |data.tx.msg| > 0x7FFF {
        msg := data.tx.msg[..0x7FFF];
      }
      buf.WriteString16Length(msg);
    }
    buf.WriteByte(ToByte(data.tx.errorCode));
    assert buf.written == TxFields(MSG16, data.tx);
    buf.WriteInt64(data.branchId);
    assert buf.written == TxFields(MSG16, data.tx) + [Num(8, ToUint64(data.branchId))];
    var b := buf.Bytes();
    r := Encoded(b);
  }

  method DecodeBranchRegisterResponse(b: bytes) returns (r: Option<Message>)
    ensures r == Decoded(BranchRegisterResponseCodec, b)
  {
    hide Print, Parse, Decoded, ByteBuffer.Valid, Layout, FromFields, TxRead, TxTypes, ToInt64;
    var buf := new ByteBuffer(b);
    var resultCode := buf.ReadByte();
    assert FailedBytes(b) <==> resultCode == RESULT_CODE_FAILED;
    var msg: bytes := [];
    if resultCode == RESULT_CODE_FAILED {
      msg := buf.ReadString16Length();
    }
    var errorCode := buf.ReadByte();
    var tx := TransactionResponse(resultCode, msg, errorCode);
    assert buf.taken == TxRead(MSG16, tx) && buf.types == TxTypes(MSG16, FailedBytes(b)) by {
      TxReads(MSG16, tx);
    }
    var branchId := buf.ReadUInt64();
    BranchRegisterResponseOfRead(tx, branchId);
    assert buf.types == TxTypes(MSG16, FailedBytes(b)) + [NumType(8)];
    assert buf.taken == TxRead(MSG16, tx) + [Num(8, branchId)];
    TxLayouts(FailedBytes(b));
    DecodedFromFields(BranchRegisterResponseCodec, b, buf.types, buf.Outcome(), buf.taken);
    r := if buf.short then None else Some(BranchRegisterResponse(tx, ToInt64(branchId)));
  }

  method EncodeBranchReportRequest(m: Message) returns (r: EncodeResult)
    ensures r == EncodeAs(BranchReportRequestCodec, m)
  {
    hide Print, Parse, EncodeAs, EncodeBody, Fields, ByteBuffer.Valid, ToByte;
    var data := if m.BranchReportRequest? then m.report else ZERO_REPORT;
    BranchReportRequestAsserted(m);
    var buf := new ByteBuffer([]);
    buf.WriteString16Length(data.xid);
    buf.WriteInt64(data.branchId);
    buf.WriteByte(ToByte(data.status));
    buf.WriteString16Length(data.resourceId);
    buf.WriteString32Length(data.applicationData);
    buf.WriteByte(ToByte(data.branchType));
    assert buf.written == BranchReportFields(data);
    var b := buf.Bytes();
    r := Encoded(b);
  }

  method DecodeBranchReportRequest(b: bytes) returns (r: Option<Message>)
    ensures r == Decoded(BranchReportRequestCodec, b)
  {
    hide Print, Parse, Decoded, ByteBuffer.Valid, Layout, FromFields, ToInt8, ToInt64;
    var buf := new ByteBuffer(b);
    var xid := buf.ReadString16Length();
    var branchId := buf.ReadUInt64();
    var status := buf.ReadByte();
    var resourceId := buf.ReadString16Length();
    var applicationData := buf.ReadString32Length();
    var branchType := buf.ReadByte();
    ghost var fields := [
      Str(2, xid), Num(8, branchId), Num(1, status), Str(2, resourceId), Str(4, applicationData), Num(1, branchType)];
    ghost var types := [StrType(2), NumType(8), NumType(1), StrType(2), StrType(4), NumType(1)];
    assert buf.taken == fields && buf.types == types by {
      Append6(Str(2, xid), Num(8, branchId), Num(1, status), Str(2, resourceId), Str(4, applicationData),
              Num(1, branchType));
      Append6(StrType(2), NumType(8), NumType(1), StrType(2), StrType(4), NumType(1));
    }
    var data := BranchReport(xid, ToInt64(branchId), resourceId, ToInt8(status), applicationData, ToInt8(branchType));
    BranchReportOfRead(FailedBytes(b), data, branchId, status, branchType);
    DecodedFromFields(BranchReportRequestCodec, b, buf.types, buf.Outcome(), fields);
    r := if buf.short then None else Some(BranchReportRequest(data));
  }

  method EncodeBranchReportResponse(m: Message) returns (r: EncodeResult)
    ensures r == EncodeAs(BranchReportResponseCodec, m)
  {
    hide Print, Parse, EncodeAs, EncodeBody, Fields, ByteBuffer.Valid, ToByte;
    var data := if m.BranchReportResponse? then m else BranchReportResponse(ZERO_TX);
    BranchReportResponseAsserted(m);
    var buf := new ByteBuffer([]);
    buf.WriteByte(data.tx.resultCode);
    if data.tx.resultCode == RESULT_CODE_FAILED {
      var msg := data.tx.msg;
      if |data.tx.msg| > 0x7F {
        msg := data.tx.msg[..0x7F];
      }
      buf.WriteString8Length(msg);
    }
    buf.WriteByte(ToByte(data.tx.errorCode));
    assert buf.written == TxFields(MSG8, data.tx);
    var b := buf.Bytes();
    r := Encoded(b);
  }

  method DecodeBranchReportResponse(b: bytes) returns (r: Option<Message>)
    ensures r == Decoded(BranchReportResponseCodec, b)
  {
    hide Print, Parse, Decoded, ByteBuffer.Valid, Layout, FromFields, TxRead, TxTypes;
    var buf := new ByteBuffer(b);
    var resultCode := buf.ReadByte();
    assert FailedBytes(b) <==> resultCode == RESULT_CODE_FAILED;
    var msg: bytes := [];
    if resultCode == RESULT_CODE_FAILED {
      msg := buf.ReadString8Length();
    }
    var errorCode := buf.ReadByte();
    var tx := TransactionResponse(resultCode, msg, errorCode);
    assert buf.taken == TxRead(MSG8, tx) && buf.types == TxTypes(MSG8, FailedBytes(b)) by {
      TxReads(MSG8, tx);
    }
    BranchReportResponseOfRead(tx);
    TxLayouts(FailedBytes(b));
    DecodedFromFields(BranchReportResponseCodec, b, buf.types, buf.Outcome(), buf.taken);
    r := if buf.short then None else Some(BranchReportResponse(tx));
  }
}
