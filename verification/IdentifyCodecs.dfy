/** The codecs that identify transaction and resource managers. */
module IdentifyCodecs {
  import opened Options
  import opened Bytes
  import opened Wire
  import opened ByteBuffers
  import opened Messages
  import opened Layouts
  import opened Reading

  method EncodeIdentifyRequest(data: IdentifyRequest) returns (b: bytes)
    ensures b == Print(IdentifyRequestFields(data))
  {
    hide Print, Parse;
    var buf := new ByteBuffer([]);
    buf.WriteString16Length(data.version);
    buf.WriteString16Length(data.applicationId);
    buf.WriteString16Length(data.transactionServiceGroup);
    buf.WriteString16Length(data.extraData);
    assert buf.written == IdentifyRequestFields(data);
    b := buf.Bytes();
  }

  method DecodeIdentifyRequest(b: bytes) returns (r: Option<IdentifyRequest>)
    ensures r == IdentifyRequestDecoded(b)
  {
    hide Print, Parse;
    var buf := new ByteBuffer(b);
    var version := buf.ReadString16Length();
    var applicationId := buf.ReadString16Length();
    var group := buf.ReadString16Length();
    var extraData := buf.ReadString16Length();
    assert buf.taken == [Str(2, version), Str(2, applicationId), Str(2, group), Str(2, extraData)];
    assert buf.types == [StrType(2), StrType(2), StrType(2), StrType(2)];
    r := if buf.short then None else Some(IdentifyRequest(version, applicationId, group, extraData));
  }

  method EncodeIdentifyResponse(data: IdentifyResponse) returns (b: bytes)
    ensures b == Print(IdentifyResponseFields(data))
  {
    hide Print, Parse;
    var buf := new ByteBuffer([]);
    if data.identified {
      buf.WriteByte(1);
    } else {
      buf.WriteByte(0);
    }
    buf.WriteString16Length(data.version);
    assert buf.written == IdentifyResponseFields(data);
    b := buf.Bytes();
  }

  method DecodeIdentifyResponse(b: bytes) returns (r: Option<IdentifyResponse>)
    ensures r == IdentifyResponseDecoded(b)
  {
    hide Print, Parse;
    var data := IdentifyResponse(0, [], [], [], false);
    var buf := new ByteBuffer(b);
    var identified := buf.ReadByte();
    if identified == 1 {
      data := data.(identified := true);
    } else if identified == 0 {
      data := data.(identified := false);
    }
    var version := buf.ReadString16Length();
    data := data.(version := version);
    assert buf.taken == [Num(1, identified), Str(2, version)] && buf.types == [NumType(1), StrType(2)];
    r := if buf.short then None else Some(data);
  }

  method EncodeRegisterRMRequest(m: Message) returns (r: EncodeResult)
    ensures r == EncodeAs(RegisterRMRequestCodec, m)
  {
    hide Print, Parse;
    if !m.RegisterRMRequest? {
      return Panicked;
    }
    var buf := new ByteBuffer([]);
    buf.WriteString16Length(m.identify.version);
    buf.WriteString16Length(m.identify.applicationId);
    buf.WriteString16Length(m.identify.transactionServiceGroup);
    buf.WriteString16Length(m.identify.extraData);
    buf.WriteString32Length(m.resourceIds);
    assert buf.written == Fields(m);
    var b := buf.Bytes();
    r := Encoded(b);
  }

  method DecodeRegisterRMRequest(b: bytes) returns (r: Option<Message>)
    ensures r == Decoded(RegisterRMRequestCodec, b)
  {
    hide Print, Parse, Decoded, ByteBuffer.Valid, Layout, FromFields;
    var buf := new ByteBuffer(b);
    var version := buf.ReadString16Length();
    var applicationId := buf.ReadString16Length();
    var group := buf.ReadString16Length();
    var extraData := buf.ReadString16Length();
    var resourceIds := buf.ReadString32Length();
    ghost var fields := [
      Str(2, version), Str(2, applicationId), Str(2, group), Str(2, extraData), Str(4, resourceIds)];
    assert buf.taken == fields && buf.types == [StrType(2), StrType(2), StrType(2), StrType(2), StrType(4)];
    var data := IdentifyRequest(version, applicationId, group, extraData);
    RegisterRMOfRead(FailedBytes(b), data, resourceIds);
    DecodedFromFields(RegisterRMRequestCodec, b, buf.types, buf.Outcome(), fields);
    r := if buf.short then None else Some(RegisterRMRequest(data, resourceIds));
  }
}
