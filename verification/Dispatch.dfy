/** Calling a registered codec: the dynamic dispatch behind the manager, with
    the delegating codecs. */
module Dispatch {
  import opened Options
  import opened Bytes
  import opened Wire
  import opened Messages
  import opened Layouts
  import opened BranchCodecs
  import opened GlobalCodecs
  import opened IdentifyCodecs

  method Encode(c: Codec, m: Message) returns (r: EncodeResult)
    ensures r == EncodeAs(c, m)
  {
    match c
    case GlobalBeginRequestCodec => r := EncodeGlobalBeginRequest(m);
    case GlobalBeginResponseCodec => r := EncodeGlobalBeginResponse(m);
    case BranchCommitRequestCodec => r := EncodeBranchCommitRequest(m);
    case BranchCommitResponseCodec => r := EncodeBranchCommitResponse(m);
    case BranchRollbackRequestCodec => r := EncodeBranchRollbackRequest(m);
    case BranchRollbackResponseCodec => r := EncodeBranchRollbackResponse(m);
    case BranchRegisterRequestCodec => r := EncodeBranchRegisterRequest(m);
    case BranchRegisterResponseCodec => r := EncodeBranchRegisterResponse(m);
    case BranchReportRequestCodec => r := EncodeBranchReportRequest(m);
    case BranchReportResponseCodec => r := EncodeBranchReportResponse(m);
    case GlobalReportRequestCodec => r := EncodeGlobalReportRequest(m);
    case GlobalLockQueryRequestCodec => r := EncodeGlobalLockQueryRequest(m);
    case GlobalLockQueryResponseCodec => r := EncodeGlobalLockQueryResponse(m);
    case RegisterRMRequestCodec => r := EncodeRegisterRMRequest(m);
    case _ => r := EncodeDelegating(c, m);
  }

  predicate IsDelegating(c: Codec) {
    c in {GlobalCommitRequestCodec, GlobalRollbackRequestCodec, GlobalStatusRequestCodec,
          GlobalCommitResponseCodec, GlobalRollbackResponseCodec, GlobalStatusResponseCodec,
          GlobalReportResponseCodec, RegisterTMRequestCodec, RegisterTMResponseCodec, RegisterRMResponseCodec}
  }

  lemma DelegatingAsserted(c: Codec, m: Message)
    requires IsDelegating(c)
    ensures EncodeAs(c, m) == if CodecOf(m) == c then Encoded(Print(Fields(m))) else Panicked
    ensures CodecOf(m) == c ==>
              || m.GlobalCommitRequest? || m.GlobalRollbackRequest? || m.GlobalStatusRequest?
              || m.GlobalCommitResponse? || m.GlobalRollbackResponse? || m.GlobalStatusResponse?
              || m.GlobalReportResponse? || m.RegisterTMRequest? || m.RegisterTMResponse? || m.RegisterRMResponse?
  {
    hide Print, Fields;
  }

  /** The codecs that assert their struct and hand the embedded part to a shared codec. */
  method EncodeDelegating(c: Codec, m: Message) returns (r: EncodeResult)
    requires IsDelegating(c)
    ensures r == EncodeAs(c, m)
  {
    hide Print, EncodeAs, CodecOf, IsDelegating, TxFields, GlobalEndRequestFields, GlobalEndResponseFields;
    hide IdentifyRequestFields, IdentifyResponseFields, BranchEndRequestFields, BranchEndResponseFields;
    hide BranchRegisterFields, BranchReportFields;
    DelegatingAsserted(c, m);
    if CodecOf(m) != c {
      return Panicked;
    }
    var b: bytes;
    match m {
      case GlobalCommitRequest(e) => b := EncodeGlobalEndRequest(e);
      case GlobalRollbackRequest(e) => b := EncodeGlobalEndRequest(e);
      case GlobalStatusRequest(e) => b := EncodeGlobalEndRequest(e);
      case GlobalCommitResponse(e) => b := EncodeGlobalEndResponse(e);
      case GlobalRollbackResponse(e) => b := EncodeGlobalEndResponse(e);
      case GlobalStatusResponse(e) => b := EncodeGlobalEndResponse(e);
      case GlobalReportResponse(e) => b := EncodeGlobalEndResponse(e);
      case RegisterTMRequest(i) => b := EncodeIdentifyRequest(i);
      case RegisterTMResponse(i) => b := EncodeIdentifyResponse(i);
      case RegisterRMResponse(i) => b := EncodeIdentifyResponse(i);
    }
    assert b == Print(Fields(m));
    r := Encoded(b);
  }

  method Decode(c: Codec, b: bytes) returns (r: Option<Message>)
    ensures r == Decoded(c, b)
  {
    match c
    case GlobalBeginRequestCodec => r := DecodeGlobalBeginRequest(b);
    case GlobalBeginResponseCodec => r := DecodeGlobalBeginResponse(b);
    case BranchCommitRequestCodec => r := DecodeBranchCommitRequest(b);
    case BranchCommitResponseCodec => r := DecodeBranchCommitResponse(b);
    case BranchRollbackRequestCodec => r := DecodeBranchRollbackRequest(b);
    case BranchRollbackResponseCodec => r := DecodeBranchRollbackResponse(b);
    case BranchRegisterRequestCodec => r := DecodeBranchRegisterRequest(b);
    case BranchRegisterResponseCodec => r := DecodeBranchRegisterResponse(b);
    case BranchReportRequestCodec => r := DecodeBranchReportRequest(b);
    case BranchReportResponseCodec => r := DecodeBranchReportResponse(b);
    case GlobalReportRequestCodec => r := DecodeGlobalReportRequest(b);
    case GlobalLockQueryRequestCodec => r := DecodeGlobalLockQueryRequest(b);
    case GlobalLockQueryResponseCodec => r := DecodeGlobalLockQueryResponse(b);
    case RegisterRMRequestCodec => r := DecodeRegisterRMRequest(b);
    case _ => r := DecodeDelegating(c, b);
  }

  method DecodeDelegating(c: Codec, b: bytes) returns (r: Option<Message>)
    requires IsDelegating(c)
    ensures r == Decoded(c, b)
  {
    hide Parse, GlobalEndResponseFrom, GlobalEndRequestFrom, IdentifyRequestFrom, IdentifyResponseFrom;
    match c {
      case GlobalCommitRequestCodec =>
        var e :- DecodeGlobalEndRequest(b);
        r := Some(GlobalCommitRequest(e));
      case GlobalRollbackRequestCodec =>
        var e :- DecodeGlobalEndRequest(b);
        r := Some(GlobalRollbackRequest(e));
      case GlobalStatusRequestCodec =>
        var e :- DecodeGlobalEndRequest(b);
        r := Some(GlobalStatusRequest(e));
      case GlobalCommitResponseCodec =>
        var e :- DecodeGlobalEndResponse(b);
        r := Some(GlobalCommitResponse(e));
      case GlobalRollbackResponseCodec =>
        var e :- DecodeGlobalEndResponse(b);
        r := Some(GlobalRollbackResponse(e));
      case GlobalStatusResponseCodec =>
        var e :- DecodeGlobalEndResponse(b);
        r := Some(GlobalStatusResponse(e));
      case GlobalReportResponseCodec =>
        var e :- DecodeGlobalEndResponse(b);
        r := Some(GlobalReportResponse(e));
      case RegisterTMRequestCodec =>
        var i :- DecodeIdentifyRequest(b);
        r := Some(RegisterTMRequest(i));
      case RegisterTMResponseCodec =>
        var i :- DecodeIdentifyResponse(b);
        r := Some(RegisterTMResponse(i));
      case RegisterRMResponseCodec =>
        var i :- DecodeIdentifyResponse(b);
        r := Some(RegisterRMResponse(i));
    }
  }
}
