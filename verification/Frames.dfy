/** Frames: a two-byte type code before a body, and what the manager makes of
    them on a registry. */
module Frames {
  import opened Options
  import opened Bytes
  import opened Wire
  import opened Messages
  import opened Layouts
  import opened Bodies
  import opened Registry

  /** The manager's answers; `TypePanic` is a failed type assertion. */
  datatype FrameResult = Frame(bytes: bytes) | NoEncoder | TypePanic
  datatype DecodeResult = Received(message: Message) | NoDecoder | TooShort

  function EncodeFrame(log: seq<Registration>, codecType: CodecType, m: Message): FrameResult {
    match LastRegistered(log, codecType, m.GetTypeCode())
    case None => NoEncoder
    case Some(c) =>
      match EncodeAs(c, m)
      case Panicked => TypePanic
      case Encoded(body) => Frame(BigEndian(m.GetTypeCode(), 2) + body)
  }

  /** The type code at the front of `b`.  A header that cannot be read is code 0. */
  function HeaderCode(b: bytes): int {
    if |b| < 2 then 0 else ToInt16(FromBigEndian(b[..2]))
  }

  /** No codec is ever found for a frame shorter than its header, so the body is
      never sliced out of range. */
  lemma ShortFrame(log: seq<Registration>, codecType: CodecType, b: bytes)
    requires |b| < 2
    ensures LastRegistered(log, codecType, HeaderCode(b)) == None
  {
    if LastRegistered(log, codecType, 0).Some? {
      LastRegisteredType(log, codecType, 0);
      TypeCodesPositive(LastRegistered(log, codecType, 0).value);
    }
  }

  lemma TypeCodesPositive(c: Codec)
    ensures 0 < c.GetMessageType() < 0x8000
  {
  }

  function DecodeFrame(log: seq<Registration>, codecType: CodecType, b: bytes): DecodeResult {
    match LastRegistered(log, codecType, HeaderCode(b))
    case None => NoDecoder
    case Some(c) =>
      assert |b| >= 2 by {
        if |b| < 2 {
          ShortFrame(log, codecType, b);
        }
      }
      match Decoded(c, b[2..])
      case None => TooShort
      case Some(m) => Received(m)
  }

  // ----- The header -----

  lemma HeaderOf(code: int)
    ensures BigEndian(code, 2) == [ToByte(code % 0x1_0000 / 0x100), ToByte(code % 0x1_0000)]
  {
    BigEndian2(code);
    SplitCode(code);
  }

  lemma SplitCode(code: int)
    ensures code % 0x1_0000 / 0x100 == code / 0x100 % 0x100 && code % 0x1_0000 % 0x100 == code % 0x100
  {
  }

  lemma HeaderBytes(b: bytes)
    requires |b| >= 2
    ensures var hi: int, lo: int := b[0], b[1]; FromBigEndian(b[..2]) == hi * 0x100 + lo
  {
    assert b[..2][..1] == [b[0]];
    var hi: int := b[0];
    assert FromBigEndian([b[0]]) == FromBigEndian([]) * 256 + hi;
  }

  lemma HeaderNumber(code: int)
    ensures FromBigEndian(BigEndian(code, 2)) == code % 0x1_0000
  {
    hide BigEndian, FromBigEndian;
    HeaderOf(code);
    HeaderBytes(BigEndian(code, 2));
    assert BigEndian(code, 2)[..2] == BigEndian(code, 2);
    SplitCode(code);
  }

  lemma SignedCode(code: int)
    ensures ToInt16(code % 0x1_0000) == code <==> -0x8000 <= code < 0x8000
  {
  }

  lemma SignedBytes(hi: byte, lo: byte)
    ensures var code := ToInt16(hi * 0x100 + lo) % 0x1_0000; ToByte(code / 0x100) == hi && ToByte(code) == lo
  {
    assert ToInt16(hi * 0x100 + lo) % 0x1_0000 == hi * 0x100 + lo;
  }

  /** The header carries exactly the codes of a signed 16-bit integer. */
  lemma HeaderExact(code: int)
    ensures ToInt16(FromBigEndian(BigEndian(code, 2))) == code <==> -0x8000 <= code < 0x8000
  {
    hide BigEndian, FromBigEndian, ToInt16;
    HeaderNumber(code);
    SignedCode(code);
  }

  // ----- Dispatch -----

  /** Codecs and messages number the kinds alike, but for the global-report request. */
  lemma TypeCodesAgree(m: Message)
    ensures m.GetTypeCode() == CodecOf(m).GetMessageType() <==> !m.GlobalReportRequest?
    ensures 0 < m.GetTypeCode() < 0x8000
  {
  }

  lemma CodecAtTypeCode(c: Codec, m: Message)
    requires c.GetMessageType() == m.GetTypeCode() && c != GlobalReportRequestCodec
    ensures c == CodecOf(m)
  {
    CodecForExact(c.GetMessageType(), c);
    CodecForExact(c.GetMessageType(), CodecOf(m));
    if m.GlobalReportRequest? {
      NothingAtGlobalReport(c);
    } else {
      TypeCodesAgree(m);
    }
  }

  lemma NothingAtGlobalReport(c: Codec)
    ensures c.GetMessageType() != GLOBAL_REPORT
  {
  }

  /** `m` is encoded by the codec for its own struct, or by none. */
  predicate EncodesOwnStruct(log: seq<Registration>, codecType: CodecType, m: Message) {
    EncodeFrame(log, codecType, m) == NoEncoder || EncodeFrame(log, codecType, m) == Frame(FrameOf(m))
  }

  /** Exact, for any registrations: no type assertion fails and no zero struct is
      encoded, for any message, if and only if the global-report request codec
      has not taken the key it shares with the response. */
  lemma DispatchExact(log: seq<Registration>, codecType: CodecType)
    ensures (forall m :: EncodesOwnStruct(log, codecType, m))
            <==> LastRegistered(log, codecType, GLOBAL_REPORT_RESULT) != Some(GlobalReportRequestCodec)
  {
    if LastRegistered(log, codecType, GLOBAL_REPORT_RESULT) == Some(GlobalReportRequestCodec) {
      var e := GlobalEndResponse(ZERO_TX, 0);
      WrongStructPanics(e);
      assert !EncodesOwnStruct(log, codecType, GlobalReportResponse(e));
    } else {
      forall m ensures EncodesOwnStruct(log, codecType, m) {
        OwnStruct(log, codecType, m);
      }
    }
  }

  lemma OwnStruct(log: seq<Registration>, codecType: CodecType, m: Message)
    requires LastRegistered(log, codecType, GLOBAL_REPORT_RESULT) != Some(GlobalReportRequestCodec)
    ensures EncodesOwnStruct(log, codecType, m)
  {
    hide EncodeBody, CodecOf, ZeroOf, LastRegistered, Message.GetTypeCode;
    if LastRegistered(log, codecType, m.GetTypeCode()).Some? {
      LastRegisteredType(log, codecType, m.GetTypeCode());
      CodecAtTypeCode(LastRegistered(log, codecType, m.GetTypeCode()).value, m);
    }
  }

  /** What arrives under a type code is a message of that type. */
  predicate ReceivesOwnKind(log: seq<Registration>, codecType: CodecType, b: bytes) {
    var r := DecodeFrame(log, codecType, b);
    r.Received? ==> r.message.GetTypeCode() == HeaderCode(b)
  }

  /** Exact, for any registrations: every message received has the type code of
      its frame, for any input, under the same condition. */
  lemma ReceiveExact(log: seq<Registration>, codecType: CodecType)
    ensures (forall b :: ReceivesOwnKind(log, codecType, b))
            <==> LastRegistered(log, codecType, GLOBAL_REPORT_RESULT) != Some(GlobalReportRequestCodec)
  {
    if LastRegistered(log, codecType, GLOBAL_REPORT_RESULT) == Some(GlobalReportRequestCodec) {
      var m := GlobalReportRequest(GlobalEndRequest([], []), 0);
      RequestReceivedAsResponse(log, codecType, m);
      assert !ReceivesOwnKind(log, codecType, BigEndian(GLOBAL_REPORT_RESULT, 2) + EncodeBody(m));
    } else {
      forall b ensures ReceivesOwnKind(log, codecType, b) {
        OwnKind(log, codecType, b);
      }
    }
  }

  lemma OwnKind(log: seq<Registration>, codecType: CodecType, b: bytes)
    requires LastRegistered(log, codecType, GLOBAL_REPORT_RESULT) != Some(GlobalReportRequestCodec)
    ensures ReceivesOwnKind(log, codecType, b)
  {
    hide Decoded, HeaderCode, Fits, LastRegistered;
    if |b| < 2 {
      ShortFrame(log, codecType, b);
    }
    if DecodeFrame(log, codecType, b).Received? {
      var c := LastRegistered(log, codecType, HeaderCode(b)).value;
      LastRegisteredType(log, codecType, HeaderCode(b));
      DecodedFits(c, b[2..]);
      TypeCodesAgree(DecodeFrame(log, codecType, b).message);
    }
  }

  /** With the key taken over, the frame of type code 18 around any fitting
      global-report request is received as that request. */
  lemma RequestReceivedAsResponse(log: seq<Registration>, codecType: CodecType, m: Message)
    requires LastRegistered(log, codecType, GLOBAL_REPORT_RESULT) == Some(GlobalReportRequestCodec)
    requires m.GlobalReportRequest? && Fits(m)
    ensures DecodeFrame(log, codecType, BigEndian(GLOBAL_REPORT_RESULT, 2) + EncodeBody(m)) == Received(m)
    ensures HeaderCode(BigEndian(GLOBAL_REPORT_RESULT, 2) + EncodeBody(m)) != m.GetTypeCode()
  {
    HeaderRead(GLOBAL_REPORT_RESULT, EncodeBody(m));
    BodyRoundTripExact(m);
  }

  /** On a key taken over that way, encoding any global-report response panics. */
  lemma TakenKeyPanics(log: seq<Registration>, codecType: CodecType, e: GlobalEndResponse)
    ensures EncodeFrame(log + [Registration(codecType, GlobalReportRequestCodec)], codecType, GlobalReportResponse(e))
            == TypePanic
  {
    hide EncodeAs, LastRegistered;
    assert EncodeAs(GlobalReportRequestCodec, GlobalReportResponse(e)) == Panicked by {
      WrongStructPanics(e);
    }
    LastRegisteredSnoc(log, Registration(codecType, GlobalReportRequestCodec), codecType, GLOBAL_REPORT_RESULT);
  }

  lemma WrongStructPanics(e: GlobalEndResponse)
    ensures EncodeAs(GlobalReportRequestCodec, GlobalReportResponse(e)) == Panicked
  {
  }

  // ----- Frames on a ready registry -----

  function FrameOf(m: Message): bytes {
    BigEndian(m.GetTypeCode(), 2) + EncodeBody(m)
  }

  /** The two bytes in front of the body of every kind. */
  lemma FrameHead(m: Message)
    ensures match m
            case GlobalBeginRequest(_, _) => FrameOf(m) == [0, 1] + EncodeBody(m)
            case GlobalBeginResponse(_, _, _) => FrameOf(m) == [0, 2] + EncodeBody(m)
            case BranchCommitRequest(_) => FrameOf(m) == [0, 3] + EncodeBody(m)
            case BranchCommitResponse(_) => FrameOf(m) == [0, 4] + EncodeBody(m)
            case BranchRollbackRequest(_) => FrameOf(m) == [0, 5] + EncodeBody(m)
            case BranchRollbackResponse(_) => FrameOf(m) == [0, 6] + EncodeBody(m)
            case GlobalCommitRequest(_) => FrameOf(m) == [0, 7] + EncodeBody(m)
            case GlobalCommitResponse(_) => FrameOf(m) == [0, 8] + EncodeBody(m)
            case GlobalRollbackRequest(_) => FrameOf(m) == [0, 9] + EncodeBody(m)
            case GlobalRollbackResponse(_) => FrameOf(m) == [0, 10] + EncodeBody(m)
            case BranchRegisterRequest(_) => FrameOf(m) == [0, 11] + EncodeBody(m)
            case BranchRegisterResponse(_, _) => FrameOf(m) == [0, 12] + EncodeBody(m)
            case BranchReportRequest(_) => FrameOf(m) == [0, 13] + EncodeBody(m)
            case BranchReportResponse(_) => FrameOf(m) == [0, 14] + EncodeBody(m)
            case GlobalStatusRequest(_) => FrameOf(m) == [0, 15] + EncodeBody(m)
            case GlobalStatusResponse(_) => FrameOf(m) == [0, 16] + EncodeBody(m)
            case GlobalReportRequest(_, _) => FrameOf(m) == [0, 17] + EncodeBody(m)
            case GlobalReportResponse(_) => FrameOf(m) == [0, 18] + EncodeBody(m)
            case GlobalLockQueryRequest(_) => FrameOf(m) == [0, 21] + EncodeBody(m)
            case GlobalLockQueryResponse(_, _) => FrameOf(m) == [0, 22] + EncodeBody(m)
            case RegisterTMRequest(_) => FrameOf(m) == [0, 101] + EncodeBody(m)
            case RegisterTMResponse(_) => FrameOf(m) == [0, 102] + EncodeBody(m)
            case RegisterRMRequest(_, _) => FrameOf(m) == [0, 103] + EncodeBody(m)
            case RegisterRMResponse(_) => FrameOf(m) == [0, 104] + EncodeBody(m)
  {
    hide EncodeBody, BigEndian;
    BigEndian2(m.GetTypeCode());
  }

  /** After `Init` every message meets its own codec, and the global-report
      request alone has none. */
  lemma ReadyDispatch(log: seq<Registration>, m: Message)
    requires Ready(log)
    ensures LastRegistered(log, CODEC_TYPE_SEATA, m.GetTypeCode()) ==
            if m.GlobalReportRequest? then None else Some(CodecOf(m))
    ensures EncodeFrame(log, CODEC_TYPE_SEATA, m) ==
            if m.GlobalReportRequest? then NoEncoder else Frame(FrameOf(m))
  {
    TypeCodesAgree(m);
    CodecForExact(m.GetTypeCode(), CodecOf(m));
  }

  lemma HeaderRead(code: int, rest: bytes)
    requires -0x8000 <= code < 0x8000
    ensures var b := BigEndian(code, 2) + rest;
            b[..2] == BigEndian(code, 2) && b[2..] == rest && HeaderCode(b) == code
  {
    hide BigEndian, FromBigEndian, ToInt16;
    HeaderExact(code);
    var h := BigEndian(code, 2);
    assert (h + rest)[..2] == h;
  }

  /** Exact: after `Init`, for every kind but the global-report request, decoding
      the frame of a message gives its normal form if and only if all its
      strings fit their prefixes. */
  lemma FrameRoundTripExact(log: seq<Registration>, m: Message)
    requires Ready(log) && !m.GlobalReportRequest?
    ensures EncodeFrame(log, CODEC_TYPE_SEATA, m).Frame?
    ensures DecodeFrame(log, CODEC_TYPE_SEATA, EncodeFrame(log, CODEC_TYPE_SEATA, m).bytes) == Received(Norm(m))
            <==> Fits(m)
  {
    ReadyDispatch(log, m);
    TypeCodesAgree(m);
    HeaderRead(m.GetTypeCode(), EncodeBody(m));
    BodyRoundTripExact(m);
  }

  lemma FrameOfNorm(log: seq<Registration>, m: Message)
    requires Ready(log)
    ensures EncodeFrame(log, CODEC_TYPE_SEATA, Norm(m)) == EncodeFrame(log, CODEC_TYPE_SEATA, m)
  {
    NormStable(m);
    SameCodecSameCode(m, Norm(m));
    ReadyDispatch(log, m);
    ReadyDispatch(log, Norm(m));
  }

  /** Encoding what was decoded from an encoding gives the same frame. */
  lemma FrameStable(log: seq<Registration>, m: Message)
    requires Ready(log) && Fits(m) && !m.GlobalReportRequest?
    ensures var frame := EncodeFrame(log, CODEC_TYPE_SEATA, m);
            && frame.Frame? && DecodeFrame(log, CODEC_TYPE_SEATA, frame.bytes).Received?
            && EncodeFrame(log, CODEC_TYPE_SEATA, DecodeFrame(log, CODEC_TYPE_SEATA, frame.bytes).message) == frame
  {
    hide EncodeFrame, DecodeFrame, Norm, Fits;
    FrameRoundTripExact(log, m);
    FrameOfNorm(log, m);
  }

  lemma SameCodecSameCode(m1: Message, m2: Message)
    requires CodecOf(m1) == CodecOf(m2)
    ensures m1.GetTypeCode() == m2.GetTypeCode() && (m1.GlobalReportRequest? <==> m2.GlobalReportRequest?)
  {
    TypeCodesAgree(m1);
    TypeCodesAgree(m2);
  }

  /** Frames are prefix-free over all registered kinds at once, although several
      kinds share one body layout. */
  lemma FramePrefixFree(m1: Message, rest1: bytes, m2: Message, rest2: bytes)
    requires Fits(m1) && Fits(m2) && !m1.GlobalReportRequest? && !m2.GlobalReportRequest?
    requires FrameOf(m1) + rest1 == FrameOf(m2) + rest2
    ensures CodecOf(m1) == CodecOf(m2) && Norm(m1) == Norm(m2) && rest1 == rest2
  {
    hide EncodeBody, BigEndian, HeaderCode, CodecFor, Norm, Fits;
    ConcatAssociative(BigEndian(m1.GetTypeCode(), 2), EncodeBody(m1), rest1);
    ConcatAssociative(BigEndian(m2.GetTypeCode(), 2), EncodeBody(m2), rest2);
    TypeCodesAgree(m1);
    TypeCodesAgree(m2);
    HeaderRead(m1.GetTypeCode(), EncodeBody(m1) + rest1);
    HeaderRead(m2.GetTypeCode(), EncodeBody(m2) + rest2);
    CodecForExact(m1.GetTypeCode(), CodecOf(m1));
    CodecForExact(m1.GetTypeCode(), CodecOf(m2));
    BodyPrefixFree(m1, rest1, m2, rest2);
  }

  /** Exact: two messages have the same frame if and only if they have the same normal form. */
  lemma FrameInjective(m1: Message, m2: Message)
    requires Fits(m1) && Fits(m2) && !m1.GlobalReportRequest? && !m2.GlobalReportRequest?
    ensures FrameOf(m1) == FrameOf(m2) <==> Norm(m1) == Norm(m2)
  {
    if FrameOf(m1) == FrameOf(m2) {
      FramePrefixFree(m1, [], m2, []);
    }
    if Norm(m1) == Norm(m2) {
      NormStable(m1);
      NormStable(m2);
      SameCodecSameCode(m1, m2);
    }
  }

  predicate AllRegistered(ms: seq<Message>) {
    forall i :: 0 <= i < |ms| ==> Fits(ms[i]) && !ms[i].GlobalReportRequest?
  }

  function Stream(ms: seq<Message>): bytes {
    if ms == [] then [] else FrameOf(ms[0]) + Stream(ms[1..])
  }

  /** Concatenated frames parse in one way only. */
  lemma {:induction false} StreamUnique(ms: seq<Message>, ns: seq<Message>)
    requires AllRegistered(ms) && AllRegistered(ns) && Stream(ms) == Stream(ns)
    ensures |ms| == |ns| && forall i :: 0 <= i < |ms| ==> Norm(ms[i]) == Norm(ns[i])
  {
    hide Norm, Fits, Stream;
    if ms != [] && ns != [] {
      StreamHead(ms, ns);
      StreamUnique(ms[1..], ns[1..]);
      assert forall i :: 0 < i < |ms| ==> ms[i] == ms[1..][i - 1] && ns[i] == ns[1..][i - 1];
    } else {
      StreamEmpty(ms);
      StreamEmpty(ns);
    }
  }

  lemma StreamHead(ms: seq<Message>, ns: seq<Message>)
    requires ms != [] && ns != []
    requires AllRegistered(ms) && AllRegistered(ns) && Stream(ms) == Stream(ns)
    ensures Norm(ms[0]) == Norm(ns[0]) && Stream(ms[1..]) == Stream(ns[1..])
  {
    FramePrefixFree(ms[0], Stream(ms[1..]), ns[0], Stream(ns[1..]));
  }

  lemma StreamEmpty(ms: seq<Message>)
    ensures Stream(ms) == [] <==> ms == []
  {
  }

  /** A frame of a registered kind whose body is read to the end, with flags 0
      or 1 and `Msg` within the encoder's bound. */
  predicate CanonicalFrame(b: bytes) {
    match CodecFor(HeaderCode(b))
    case None => false
    case Some(c) =>
      |b| >= 2 &&
      match ParseBody(c, b[2..])
      case None => false
      case Some((vs, rest)) => rest == [] && Canonical(c, vs)
  }

  /** What was received is what the codec of the type code read. */
  lemma ReceivedBody(log: seq<Registration>, b: bytes)
    requires Ready(log) && DecodeFrame(log, CODEC_TYPE_SEATA, b).Received?
    ensures |b| >= 2 && CodecFor(HeaderCode(b)).Some?
    ensures var c := CodecFor(HeaderCode(b)).value;
            && DecodeBody(c, b[2..]).Some?
            && DecodeFrame(log, CODEC_TYPE_SEATA, b) == Received(DecodeBody(c, b[2..]).value.0)
  {
    hide CodecFor, HeaderCode, DecodeBody, LastRegistered;
    if |b| < 2 {
      ShortFrame(log, CODEC_TYPE_SEATA, b);
    }
  }

  lemma FrameOfReceived(b: bytes)
    requires |b| >= 2 && CodecFor(HeaderCode(b)).Some?
    requires DecodeBody(CodecFor(HeaderCode(b)).value, b[2..]).Some?
    ensures var m := DecodeBody(CodecFor(HeaderCode(b)).value, b[2..]).value.0;
            !m.GlobalReportRequest? && FrameOf(m) == b[..2] + EncodeBody(m)
  {
    hide CodecFor, DecodeBody, EncodeBody, Fits;
    var c := CodecFor(HeaderCode(b)).value;
    DecodedFits(c, b[2..]);
    CodecForExact(HeaderCode(b), c);
    TypeCodesAgree(DecodeBody(c, b[2..]).value.0);
    HeaderBack(b);
  }

  /** Exact: a received frame encodes back to the same bytes if and only if it
      is canonical. */
  lemma FrameReverseExact(log: seq<Registration>, b: bytes)
    requires Ready(log) && DecodeFrame(log, CODEC_TYPE_SEATA, b).Received?
    ensures EncodeFrame(log, CODEC_TYPE_SEATA, DecodeFrame(log, CODEC_TYPE_SEATA, b).message) == Frame(b)
            <==> CanonicalFrame(b)
  {
    hide EncodeFrame, DecodeFrame, CodecFor, HeaderCode, Canonical, EncodeBody, FrameOf, ParseBody, LastRegistered;
    ReceivedBody(log, b);
    FrameOfReceived(b);
    var c := CodecFor(HeaderCode(b)).value;
    var (m, rest) := DecodeBody(c, b[2..]).value;
    ReadyDispatch(log, m);
    BodyReverse(c, b[2..]);
    assert b == b[..2] + b[2..];
    if FrameOf(m) == b {
      assert EncodeBody(m) == b[2..];
      WholeBody(c, b[2..]);
    }
    assert EncodeBody(m) + [] == EncodeBody(m);
  }

  /** The header of a code read from two bytes is those bytes. */
  lemma HeaderBack(b: bytes)
    requires |b| >= 2
    ensures BigEndian(ToInt16(FromBigEndian(b[..2])), 2) == b[..2]
  {
    hide BigEndian, FromBigEndian, ToInt16, ToByte;
    HeaderBytes(b);
    HeaderOf(ToInt16(FromBigEndian(b[..2])));
    SignedBytes(b[0], b[1]);
  }

  /** Re-encoding cannot make up for unread bytes: an encoded body that equals
      the input reads to its end. */
  lemma WholeBody(c: Codec, b: bytes)
    requires DecodeBody(c, b).Some? && EncodeBody(DecodeBody(c, b).value.0) == b
    ensures DecodeBody(c, b).value.1 == []
  {
    hide ParseBody, Fields, EncodeBody;
    DecodedFits(c, b);
    var m := DecodeBody(c, b).value.0;
    BodyRoundTrip(m, []);
    assert EncodeBody(m) + [] == b;
  }
}
