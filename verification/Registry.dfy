/** The registry as a history: which codec a sequence of registrations leaves
    at each pair of codec type and message type. */
module Registry {
  import opened Options
  import opened Bytes
  import opened Messages
  import opened Layouts

  type CodecType = byte

  const CODEC_TYPE_SEATA: CodecType := 0x1

  datatype Registration = Registration(codecType: CodecType, codec: Codec) {
    predicate At(codecType: CodecType, messageType: MessageType) {
      this.codecType == codecType && codec.GetMessageType() == messageType
    }
  }

  /** The last codec registered at a key, or nothing. */
  function LastRegistered(log: seq<Registration>, codecType: CodecType, messageType: MessageType): Option<Codec> {
    if log == [] then None
    else if log[|log| - 1].At(codecType, messageType) then Some(log[|log| - 1].codec)
    else LastRegistered(log[..|log| - 1], codecType, messageType)
  }

  lemma LastRegisteredSnoc(log: seq<Registration>, r: Registration, codecType: CodecType, messageType: MessageType)
    ensures LastRegistered(log + [r], codecType, messageType) ==
            if r.At(codecType, messageType) then Some(r.codec) else LastRegistered(log, codecType, messageType)
  {
    assert (log + [r])[..|log|] == log;
  }

  /** Position `i` holds the last registration at the key. */
  predicate IsLastAt(log: seq<Registration>, i: int, codecType: CodecType, messageType: MessageType) {
    && 0 <= i < |log|
    && log[i].At(codecType, messageType)
    && forall j :: i < j < |log| ==> !log[j].At(codecType, messageType)
  }

  /** A lookup finds exactly the last registration at its key, and nothing
      exactly when there is none. */
  lemma {:induction false} LastRegisteredExact(log: seq<Registration>, codecType: CodecType, messageType: MessageType)
    ensures match LastRegistered(log, codecType, messageType)
            case None => forall i :: 0 <= i < |log| ==> !log[i].At(codecType, messageType)
            case Some(c) => exists i :: IsLastAt(log, i, codecType, messageType) && log[i].codec == c
  {
    if log != [] {
      var n := |log| - 1;
      if log[n].At(codecType, messageType) {
        assert IsLastAt(log, n, codecType, messageType);
      } else {
        LastRegisteredExact(log[..n], codecType, messageType);
        if LastRegistered(log[..n], codecType, messageType).Some? {
          var i :| IsLastAt(log[..n], i, codecType, messageType)
                   && log[..n][i].codec == LastRegistered(log[..n], codecType, messageType).value;
          assert IsLastAt(log, i, codecType, messageType);
        }
      }
    }
  }

  /** Every codec a lookup returns declares the message type it is stored under. */
  lemma LastRegisteredType(log: seq<Registration>, codecType: CodecType, messageType: MessageType)
    requires LastRegistered(log, codecType, messageType).Some?
    ensures LastRegistered(log, codecType, messageType).value.GetMessageType() == messageType
    ensures Registration(codecType, LastRegistered(log, codecType, messageType).value) in log
  {
    LastRegisteredExact(log, codecType, messageType);
    var i :| IsLastAt(log, i, codecType, messageType)
             && log[i].codec == LastRegistered(log, codecType, messageType).value;
    assert log[i] == Registration(codecType, log[i].codec);
  }

  /** Later registrations shadow earlier ones, key by key. */
  lemma {:induction false} LastRegisteredAppend(
    base: seq<Registration>, more: seq<Registration>, codecType: CodecType, messageType: MessageType)
    ensures LastRegistered(base + more, codecType, messageType) ==
            var later := LastRegistered(more, codecType, messageType);
            if later.Some? then later else LastRegistered(base, codecType, messageType)
  {
    if more == [] {
      assert base + more == base;
    } else {
      var n := |more| - 1;
      LastRegisteredAppend(base, more[..n], codecType, messageType);
      assert base + more == (base + more[..n]) + [more[n]];
      LastRegisteredSnoc(base + more[..n], more[n], codecType, messageType);
    }
  }

  // ----- Init -----

  function Seata(codec: Codec): Registration {
    Registration(CODEC_TYPE_SEATA, codec)
  }

  function InitGlobalLog(): seq<Registration> {
    [Seata(GlobalReportResponseCodec), Seata(GlobalBeginRequestCodec), Seata(GlobalBeginResponseCodec),
     Seata(GlobalCommitRequestCodec), Seata(GlobalCommitResponseCodec), Seata(GlobalLockQueryRequestCodec),
     Seata(GlobalLockQueryResponseCodec), Seata(GlobalRollbackRequestCodec), Seata(GlobalRollbackResponseCodec),
     Seata(GlobalStatusRequestCodec), Seata(GlobalStatusResponseCodec)]
  }

  function InitBranchLog(): seq<Registration> {
    [Seata(BranchCommitRequestCodec), Seata(BranchCommitResponseCodec), Seata(BranchRegisterRequestCodec),
     Seata(BranchRegisterResponseCodec), Seata(BranchReportRequestCodec), Seata(BranchRollbackRequestCodec),
     Seata(BranchRollbackResponseCodec), Seata(BranchReportResponseCodec)]
  }

  function InitIdentifyLog(): seq<Registration> {
    [Seata(RegisterRMRequestCodec), Seata(RegisterRMResponseCodec),
     Seata(RegisterTMRequestCodec), Seata(RegisterTMResponseCodec)]
  }

  /** The registrations that `Init` makes, in order. */
  function InitLog(): seq<Registration> {
    InitGlobalLog() + InitBranchLog() + InitIdentifyLog()
  }

  /** `Init` registers every codec but the global-report request codec. */
  predicate IsInitRegistration(r: Registration) {
    r.codecType == CODEC_TYPE_SEATA && r.codec != GlobalReportRequestCodec
  }

  predicate IsGlobalCodec(c: Codec) {
    || IsGlobalResponse(c)
    || c in {GlobalLockQueryRequestCodec, GlobalLockQueryResponseCodec, GlobalBeginRequestCodec,
             GlobalCommitRequestCodec, GlobalRollbackRequestCodec, GlobalStatusRequestCodec}
  }

  lemma InitGlobalMember(r: Registration)
    ensures r in InitGlobalLog() <==> r.codecType == CODEC_TYPE_SEATA && IsGlobalCodec(r.codec)
  {
  }

  lemma InitBranchMember(r: Registration)
    ensures r in InitBranchLog() <==>
            (r.codecType == CODEC_TYPE_SEATA && (IsBranchResponse(r.codec) || IsBranchRequest(r.codec))
             && !IsGlobalCodec(r.codec))
  {
  }

  lemma InitLogMembers(r: Registration)
    ensures r in InitLog() <==> IsInitRegistration(r)
  {
    InitGlobalMember(r);
    InitBranchMember(r);
  }

  /** The codec that a registry holding just what `Init` registers finds for a
      message type. */
  function CodecFor(messageType: MessageType): Option<Codec> {
    match messageType
    case 1 => Some(GlobalBeginRequestCodec)
    case 2 => Some(GlobalBeginResponseCodec)
    case 3 => Some(BranchCommitRequestCodec)
    case 4 => Some(BranchCommitResponseCodec)
    case 5 => Some(BranchRollbackRequestCodec)
    case 6 => Some(BranchRollbackResponseCodec)
    case 7 => Some(GlobalCommitRequestCodec)
    case 8 => Some(GlobalCommitResponseCodec)
    case 9 => Some(GlobalRollbackRequestCodec)
    case 10 => Some(GlobalRollbackResponseCodec)
    case 11 => Some(BranchRegisterRequestCodec)
    case 12 => Some(BranchRegisterResponseCodec)
    case 13 => Some(BranchReportRequestCodec)
    case 14 => Some(BranchReportResponseCodec)
    case 15 => Some(GlobalStatusRequestCodec)
    case 16 => Some(GlobalStatusResponseCodec)
    case 18 => Some(GlobalReportResponseCodec)
    case 21 => Some(GlobalLockQueryRequestCodec)
    case 22 => Some(GlobalLockQueryResponseCodec)
    case 101 => Some(RegisterTMRequestCodec)
    case 102 => Some(RegisterTMResponseCodec)
    case 103 => Some(RegisterRMRequestCodec)
    case 104 => Some(RegisterRMResponseCodec)
    case _ => None
  }

  lemma CodecForExact(messageType: MessageType, c: Codec)
    ensures CodecFor(messageType) == Some(c) <==> c != GlobalReportRequestCodec && c.GetMessageType() == messageType
  {
  }

  /** The registrations of `Init`: any order, any number of times each. */
  predicate SameRegistrationsAsInit(log: seq<Registration>) {
    && (forall i :: 0 <= i < |log| ==> IsInitRegistration(log[i]))
    && (forall r :: r in InitLog() ==> r in log)
  }

  lemma InitCovers(log: seq<Registration>, messageType: MessageType)
    requires SameRegistrationsAsInit(log) && CodecFor(messageType).Some?
    ensures exists i :: 0 <= i < |log| && log[i].At(CODEC_TYPE_SEATA, messageType)
  {
    var c := CodecFor(messageType).value;
    CodecForExact(messageType, c);
    InitLogMembers(Seata(c));
    var i :| 0 <= i < |log| && log[i] == Seata(c);
    assert log[i].At(CODEC_TYPE_SEATA, messageType);
  }

  /** `Init`, in any order and repeated any number of times, on top of any
      registry, decides the Seata entries it covers and nothing else. */
  lemma InitOverlay(base: seq<Registration>, log: seq<Registration>, codecType: CodecType, messageType: MessageType)
    requires SameRegistrationsAsInit(log)
    ensures LastRegistered(base + log, codecType, messageType) ==
            if codecType == CODEC_TYPE_SEATA && CodecFor(messageType).Some? then CodecFor(messageType)
            else LastRegistered(base, codecType, messageType)
  {
    LastRegisteredAppend(base, log, codecType, messageType);
    LastRegisteredExact(log, codecType, messageType);
    if codecType == CODEC_TYPE_SEATA && CodecFor(messageType).Some? {
      InitCovers(log, messageType);
    }
    if LastRegistered(log, codecType, messageType).Some? {
      LastRegisteredType(log, codecType, messageType);
      CodecForExact(messageType, LastRegistered(log, codecType, messageType).value);
    }
  }

  /** The Seata entries are those of `Init` alone. */
  ghost predicate Ready(log: seq<Registration>) {
    forall mt :: LastRegistered(log, CODEC_TYPE_SEATA, mt) == CodecFor(mt)
  }

  /** Any run of `Init`'s registrations from the empty registry makes it ready. */
  lemma InitMakesReady(log: seq<Registration>)
    requires SameRegistrationsAsInit(log)
    ensures Ready(log)
    ensures forall ct: CodecType, mt :: ct != 0x1 ==> LastRegistered(log, ct, mt) == None
  {
    assert [] + log == log;
    forall ct: CodecType, mt
      ensures LastRegistered(log, ct, mt) == if ct == CODEC_TYPE_SEATA then CodecFor(mt) else None
    {
      InitOverlay([], log, ct, mt);
    }
  }

  lemma InitLogIsInit()
    ensures SameRegistrationsAsInit(InitLog())
  {
    forall i | 0 <= i < |InitLog()| ensures IsInitRegistration(InitLog()[i]) {
      InitLogMembers(InitLog()[i]);
    }
  }

  /** `Init` makes any registry of these codecs ready. */
  lemma InitAlwaysReady(base: seq<Registration>)
    ensures Ready(base + InitLog())
  {
    InitLogIsInit();
    forall mt ensures LastRegistered(base + InitLog(), CODEC_TYPE_SEATA, mt) == CodecFor(mt) {
      InitOverlay(base, InitLog(), CODEC_TYPE_SEATA, mt);
      if LastRegistered(base, CODEC_TYPE_SEATA, mt).Some? {
        LastRegisteredType(base, CODEC_TYPE_SEATA, mt);
        EveryTypeCovered(LastRegistered(base, CODEC_TYPE_SEATA, mt).value);
      }
    }
  }

  lemma EveryTypeCovered(c: Codec)
    ensures CodecFor(c.GetMessageType()).Some?
  {
  }

  lemma InitLogAppended(base: seq<Registration>)
    ensures base + InitGlobalLog() + InitBranchLog() + InitIdentifyLog() == base + InitLog()
  {
  }
}
