/** What the type assertion at the top of an encoder leaves to print: the struct
    of the message, or a zero struct when the assertion fails unnoticed. */
module Assertions {
  import opened Bytes
  import opened Wire
  import opened Messages
  import opened Layouts

  lemma BranchCommitRequestAsserted(m: Message)
    ensures var data := if m.BranchCommitRequest? then m.branchEnd else ZERO_BRANCH_END;
            EncodeAs(BranchCommitRequestCodec, m) == Encoded(Print(BranchEndRequestFields(data)))
  {
    hide Print;
  }

  lemma BranchRollbackRequestAsserted(m: Message)
    ensures var data := if m.BranchRollbackRequest? then m.branchEnd else ZERO_BRANCH_END;
            EncodeAs(BranchRollbackRequestCodec, m) == Encoded(Print(BranchEndRequestFields(data)))
  {
    hide Print;
  }

  lemma BranchCommitResponseAsserted(m: Message)
    ensures var data := if m.BranchCommitResponse? then m.branchEnded else ZERO_BRANCH_ENDED;
            EncodeAs(BranchCommitResponseCodec, m) == Encoded(Print(BranchEndResponseFields(MSG8, data)))
  {
    hide Print;
  }

  lemma BranchRollbackResponseAsserted(m: Message)
    ensures var data := if m.BranchRollbackResponse? then m.branchEnded else ZERO_BRANCH_ENDED;
            EncodeAs(BranchRollbackResponseCodec, m) == Encoded(Print(BranchEndResponseFields(MSG_ROLLBACK, data)))
  {
    hide Print;
  }

  lemma BranchRegisterRequestAsserted(m: Message)
    ensures var data := if m.BranchRegisterRequest? then m.register else ZERO_REGISTER;
            EncodeAs(BranchRegisterRequestCodec, m) == Encoded(Print(BranchRegisterFields(data)))
  {
    hide Print;
  }

  lemma BranchReportRequestAsserted(m: Message)
    ensures var data := if m.BranchReportRequest? then m.report else ZERO_REPORT;
            EncodeAs(BranchReportRequestCodec, m) == Encoded(Print(BranchReportFields(data)))
  {
    hide Print;
  }

  lemma GlobalLockQueryRequestAsserted(m: Message)
    ensures var data := if m.GlobalLockQueryRequest? then m.register else ZERO_REGISTER;
            EncodeAs(GlobalLockQueryRequestCodec, m) == Encoded(Print(BranchRegisterFields(data)))
  {
    hide Print;
  }

  lemma BranchReportResponseAsserted(m: Message)
    ensures var data := if m.BranchReportResponse? then m else BranchReportResponse(ZERO_TX);
            EncodeAs(BranchReportResponseCodec, m) == Encoded(Print(TxFields(MSG8, data.tx)))
  {
    hide Print;
  }

  lemma BranchRegisterResponseAsserted(m: Message)
    ensures var data := if m.BranchRegisterResponse? then m else BranchRegisterResponse(ZERO_TX, 0);
            EncodeAs(BranchRegisterResponseCodec, m) ==
            Encoded(Print(TxFields(MSG16, data.tx) + [Num(8, ToUint64(data.branchId))]))
  {
    hide Print;
  }

  lemma GlobalLockQueryResponseAsserted(m: Message)
    ensures var data := if m.GlobalLockQueryResponse? then m else GlobalLockQueryResponse(ZERO_TX, false);
            EncodeAs(GlobalLockQueryResponseCodec, m) ==
            Encoded(Print(TxFields(MSG8, data.tx) + [Num(2, if data.lockable then 1 else 0)]))
  {
    hide Print;
  }
}
