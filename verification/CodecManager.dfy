/** The codec manager: the nested registry, the frame header, and `Init`. */
module CodecManagers {
  import opened Options
  import opened Bytes
  import opened Messages
  import opened Layouts
  import opened Registry
  import opened Frames
  import Dispatch

  /** One inner map of the registry. */
  class CodecTable {
    var entries: map<MessageType, Codec>

    constructor ()
      ensures entries == map[]
    {
      entries := map[];
    }
  }

  class CodecManager {
    var codecMap: map<CodecType, CodecTable>
    ghost var log: seq<Registration>  // every registration so far, in order
    ghost var Repr: set<object>

    /** Inner maps are not shared, and hold the last codec registered at every key. */
    ghost predicate Valid()
      reads this, Repr
      ensures Valid() ==> this in Repr
    {
      && this in Repr
      && (forall ct <- codecMap :: codecMap[ct] in Repr)
      && (forall a <- codecMap, b <- codecMap :: a != b ==> codecMap[a] != codecMap[b])
      && (forall ct, mt :: Lookup(ct, mt) == LastRegistered(log, ct, mt))
    }

    ghost function Lookup(ct: CodecType, mt: MessageType): Option<Codec>
      reads this, codecMap.Values
    {
      if ct in codecMap && mt in codecMap[ct].entries then Some(codecMap[ct].entries[mt]) else None
    }

    /** What can be looked up once `Init` has registered on top of `base`. */
    lemma LookupAfterInit(base: seq<Registration>)
      requires Valid() && log == base + InitLog()
      ensures forall mt :: Lookup(0x1, mt).Some? <==>
                1 <= mt <= 16 || mt == 18 || mt == 21 || mt == 22 || 101 <= mt <= 104
      ensures base == [] ==> forall ct, mt :: ct != 0x1 ==> Lookup(ct, mt) == None
    {
      hide LastRegistered, InitLog;
      InitAlwaysReady(base);
      InitLogIsInit();
      InitMakesReady(InitLog());
      assert [] + InitLog() == InitLog();
      forall mt ensures Lookup(0x1, mt) == CodecFor(mt) {
        assert Lookup(CODEC_TYPE_SEATA, mt) == LastRegistered(log, CODEC_TYPE_SEATA, mt);
      }
    }

    constructor ()
      ensures Valid() && fresh(Repr) && log == []
    {
      codecMap := map[];
      log := [];
      Repr := {this};
    }

    method RegisterCodec(codecType: CodecType, codec: Codec)
      requires Valid()
      modifies Repr
      ensures Valid() && fresh(Repr - old(Repr))
      ensures log == old(log) + [Registration(codecType, codec)]
    {
      hide LastRegistered, Codec.GetMessageType;
      ghost var r := Registration(codecType, codec);
      if codecType !in codecMap {
        var created := new CodecTable();
        codecMap := codecMap[codecType := created];
        Repr := Repr + {created};
      }
      assert forall ct, mt :: Lookup(ct, mt) == LastRegistered(log, ct, mt);
      var codecTypeMap := codecMap[codecType];
      codecTypeMap.entries := codecTypeMap.entries[codec.GetMessageType() := codec];
      log := log + [r];
      forall ct, mt ensures Lookup(ct, mt) == LastRegistered(log, ct, mt) {
        LastRegisteredSnoc(old(log), r, ct, mt);
      }
    }

    method GetCodec(codecType: CodecType, msgType: MessageType) returns (codec: Option<Codec>)
      requires Valid()
      ensures codec == LastRegistered(log, codecType, msgType)
    {
      assert Lookup(codecType, msgType) == LastRegistered(log, codecType, msgType);
      if codecType in codecMap {
        var m := codecMap[codecType];
        codec := if msgType in m.entries then Some(m.entries[msgType]) else None;
      } else {
        codec := None;
      }
    }

    method Decode(codecType: CodecType, b: bytes) returns (r: DecodeResult)
      requires Valid()
      ensures r == DecodeFrame(log, codecType, b)
    {
      hide FromBigEndian, Decoded, LastRegistered;
      var typeCode := 0;
      if |b| >= 2 {
        HeaderBytes(b);
        var hi: int, lo: int := b[0], b[1];
        typeCode := ToInt16(hi * 0x100 + lo);
      } else {
        ShortFrame(log, codecType, b);
      }
      var codec := GetCodec(codecType, typeCode);
      if codec.None? {
        return NoDecoder;
      }
      var m := Dispatch.Decode(codec.value, b[2..]);
      r := if m.None? then TooShort else Received(m.value);
    }

    method Encode(codecType: CodecType, m: Message) returns (r: FrameResult)
      requires Valid()
      ensures r == EncodeFrame(log, codecType, m)
    {
      hide BigEndian, EncodeAs, LastRegistered;
      var result: bytes := [];
      var typeCode := m.GetTypeCode();
      var codec := GetCodec(codecType, typeCode);
      if codec.None? {
        return NoEncoder;
      }
      var body := Dispatch.Encode(codec.value, m);
      if body.Panicked? {
        return TypePanic;
      }
      var typeC := typeCode % 0x1_0000;
      HeaderOf(typeCode);
      result := result + [ToByte(typeC / 0x100), ToByte(typeC)];
      result := result + body.body;
      r := Frame(result);
    }
  }

  /** The package-level state: the singleton and its `sync.Once`. */
  class CodecPackage {
    var codecManager: CodecManager?
    var onceDone: bool

    ghost predicate Valid()
      reads this, codecManager, if codecManager == null then {} else codecManager.Repr
    {
      && (onceDone <==> codecManager != null)
      && (codecManager != null ==> codecManager.Valid() && this !in codecManager.Repr)
    }

    /** The registrations made so far. */
    ghost function Log(): seq<Registration>
      reads this, codecManager
    {
      if codecManager == null then [] else codecManager.log
    }

    ghost function Footprint(): set<object>
      reads this, codecManager
    {
      {this} + if codecManager == null then {} else codecManager.Repr
    }

    constructor ()
      ensures Valid() && codecManager == null && Log() == []
    {
      codecManager := null;
      onceDone := false;
    }

    method GetCodecManager() returns (m: CodecManager)
      requires Valid()
      modifies this
      ensures Valid() && codecManager == m
      ensures old(codecManager) != null ==> m == old(codecManager)
      ensures old(codecManager) == null ==> fresh(m) && fresh(m.Repr)
      ensures Log() == old(Log())
    {
      if codecManager == null {
        if !onceDone {
          codecManager := new CodecManager();
          onceDone := true;
        }
      }
      m := codecManager;
    }

    method Register(codec: Codec)
      requires Valid()
      modifies Footprint()
      ensures Valid() && forall o <- Footprint() :: o in old(Footprint()) || fresh(o)
      ensures codecManager != null && (old(codecManager) != null ==> codecManager == old(codecManager))
      ensures Log() == old(Log()) + [Seata(codec)]
    {
      var m := GetCodecManager();
      m.RegisterCodec(CODEC_TYPE_SEATA, codec);
    }

    method InitGlobalFirst()
      requires Valid()
      modifies Footprint()
      ensures Valid() && forall o <- Footprint() :: o in old(Footprint()) || fresh(o)
      ensures Log() == old(Log()) + InitGlobalLog()[..5]
    {
      hide Valid, Log, Footprint;
      Register(GlobalReportResponseCodec);
      Register(GlobalBeginRequestCodec);
      Register(GlobalBeginResponseCodec);
      Register(GlobalCommitRequestCodec);
      Register(GlobalCommitResponseCodec);
    }

    method InitGlobalRest()
      requires Valid()
      modifies Footprint()
      ensures Valid() && forall o <- Footprint() :: o in old(Footprint()) || fresh(o)
      ensures Log() == old(Log()) + InitGlobalLog()[5..]
    {
      hide Valid, Log, Footprint;
      Register(GlobalLockQueryRequestCodec);
      Register(GlobalLockQueryResponseCodec);
      Register(GlobalRollbackRequestCodec);
      Register(GlobalRollbackResponseCodec);
      Register(GlobalStatusRequestCodec);
      Register(GlobalStatusResponseCodec);
    }

    method InitGlobal()
      requires Valid()
      modifies Footprint()
      ensures Valid() && forall o <- Footprint() :: o in old(Footprint()) || fresh(o)
      ensures Log() == old(Log()) + InitGlobalLog()
    {
      hide Valid, Log, Footprint;
      InitGlobalFirst();
      InitGlobalRest();
    }

    method InitBranchFirst()
      requires Valid()
      modifies Footprint()
      ensures Valid() && forall o <- Footprint() :: o in old(Footprint()) || fresh(o)
      ensures Log() == old(Log()) + InitBranchLog()[..4]
    {
      hide Valid, Log, Footprint;
      Register(BranchCommitRequestCodec);
      Register(BranchCommitResponseCodec);
      Register(BranchRegisterRequestCodec);
      Register(BranchRegisterResponseCodec);
    }

    method InitBranchRest()
      requires Valid()
      modifies Footprint()
      ensures Valid() && forall o <- Footprint() :: o in old(Footprint()) || fresh(o)
      ensures Log() == old(Log()) + InitBranchLog()[4..]
    {
      hide Valid, Log, Footprint;
      Register(BranchReportRequestCodec);
      Register(BranchRollbackRequestCodec);
      Register(BranchRollbackResponseCodec);
      Register(BranchReportResponseCodec);
    }

    method InitBranch()
      requires Valid()
      modifies Footprint()
      ensures Valid() && forall o <- Footprint() :: o in old(Footprint()) || fresh(o)
      ensures Log() == old(Log()) + InitBranchLog()
    {
      hide Valid, Log, Footprint;
      InitBranchFirst();
      InitBranchRest();
    }

    method InitIdentify()
      requires Valid()
      modifies Footprint()
      ensures Valid() && forall o <- Footprint() :: o in old(Footprint()) || fresh(o)
      ensures Log() == old(Log()) + InitIdentifyLog()
    {
      hide Valid, Log, Footprint;
      Register(RegisterRMRequestCodec);
      Register(RegisterRMResponseCodec);
      Register(RegisterTMRequestCodec);
      Register(RegisterTMResponseCodec);
    }

    /** Fills the registry; on an empty package it is then ready for every message. */
    method Init()
      requires Valid()
      modifies Footprint()
      ensures Valid() && forall o <- Footprint() :: o in old(Footprint()) || fresh(o)
      ensures Log() == old(Log()) + InitLog()
      ensures codecManager != null && Ready(codecManager.log)
      ensures forall mt :: codecManager.Lookup(0x1, mt).Some? <==>
                1 <= mt <= 16 || mt == 18 || mt == 21 || mt == 22 || 101 <= mt <= 104
      ensures old(Log()) == [] ==> forall ct, mt :: ct != 0x1 ==> codecManager.Lookup(ct, mt) == None
    {
      hide LastRegistered, InitLog, CodecManager.Lookup;
      InitGlobal();
      InitBranch();
      InitIdentify();
      InitLogAppended(old(Log()));
      InitAlwaysReady(old(Log()));
      codecManager.LookupAfterInit(old(Log()));
    }
  }
}
