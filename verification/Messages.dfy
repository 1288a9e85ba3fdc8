/** The messages of the protocol, as the structs of the `message` package, and
    their type codes.  Strings and byte slices are byte sequences. */
module Messages {
  import opened Bytes

  const RESULT_CODE_FAILED: byte := 0

  const MAX_FRAME_LENGTH := 8 * 1024 * 1024
  const V1_HEAD_LENGTH := 16

  type MessageType = int

  const GLOBAL_BEGIN: MessageType := 1
  const GLOBAL_BEGIN_RESULT: MessageType := 2
  const BRANCH_COMMIT: MessageType := 3
  const BRANCH_COMMIT_RESULT: MessageType := 4
  const BRANCH_ROLLBACK: MessageType := 5
  const BRANCH_ROLLBACK_RESULT: MessageType := 6
  const GLOBAL_COMMIT: MessageType := 7
  const GLOBAL_COMMIT_RESULT: MessageType := 8
  const GLOBAL_ROLLBACK: MessageType := 9
  const GLOBAL_ROLLBACK_RESULT: MessageType := 10
  const BRANCH_REGISTER: MessageType := 11
  const BRANCH_REGISTER_RESULT: MessageType := 12
  const BRANCH_STATUS_REPORT: MessageType := 13
  const BRANCH_STATUS_REPORT_RESULT: MessageType := 14
  const GLOBAL_STATUS: MessageType := 15
  const GLOBAL_STATUS_RESULT: MessageType := 16
  const GLOBAL_REPORT: MessageType := 17
  const GLOBAL_REPORT_RESULT: MessageType := 18
  const GLOBAL_LOCK_QUERY: MessageType := 21
  const GLOBAL_LOCK_QUERY_RESULT: MessageType := 22
  const REG_CLT: MessageType := 101
  const REG_CLT_RESULT: MessageType := 102
  const REG_RM: MessageType := 103
  const REG_RM_RESULT: MessageType := 104

  datatype TransactionResponse = TransactionResponse(resultCode: byte, msg: bytes, errorCode: int)

  datatype BranchEndRequest = BranchEndRequest(
    xid: bytes, branchId: int64, branchType: int8, resourceId: bytes, applicationData: bytes)

  datatype BranchEndResponse = BranchEndResponse(
    tx: TransactionResponse, xid: bytes, branchId: int64, branchStatus: int8)

  datatype BranchRegister = BranchRegister(
    xid: bytes, branchType: int8, resourceId: bytes, lockKey: bytes, applicationData: bytes)

  datatype BranchReport = BranchReport(
    xid: bytes, branchId: int64, resourceId: bytes, status: int8, applicationData: bytes, branchType: int8)

  datatype GlobalEndRequest = GlobalEndRequest(xid: bytes, extraData: bytes)

  datatype GlobalEndResponse = GlobalEndResponse(tx: TransactionResponse, globalStatus: byte)

  datatype IdentifyRequest = IdentifyRequest(
    version: bytes, applicationId: bytes, transactionServiceGroup: bytes, extraData: bytes)

  datatype IdentifyResponse = IdentifyResponse(
    resultCode: byte, msg: bytes, version: bytes, extraData: bytes, identified: bool)

  datatype Message =
    | GlobalBeginRequest(timeout: int64, transactionName: bytes)
    | GlobalBeginResponse(tx: TransactionResponse, xid: bytes, extraData: bytes)
    | BranchCommitRequest(branchEnd: BranchEndRequest)
    | BranchCommitResponse(branchEnded: BranchEndResponse)
    | BranchRollbackRequest(branchEnd: BranchEndRequest)
    | BranchRollbackResponse(branchEnded: BranchEndResponse)
    | GlobalCommitRequest(globalEnd: GlobalEndRequest)
    | GlobalCommitResponse(globalEnded: GlobalEndResponse)
    | GlobalRollbackRequest(globalEnd: GlobalEndRequest)
    | GlobalRollbackResponse(globalEnded: GlobalEndResponse)
    | BranchRegisterRequest(register: BranchRegister)
    | BranchRegisterResponse(tx: TransactionResponse, branchId: int64)
    | BranchReportRequest(report: BranchReport)
    | BranchReportResponse(tx: TransactionResponse)
    | GlobalStatusRequest(globalEnd: GlobalEndRequest)
    | GlobalStatusResponse(globalEnded: GlobalEndResponse)
    | GlobalReportRequest(globalEnd: GlobalEndRequest, globalStatus: byte)
    | GlobalReportResponse(globalEnded: GlobalEndResponse)
    | GlobalLockQueryRequest(register: BranchRegister)
    | GlobalLockQueryResponse(tx: TransactionResponse, lockable: bool)
    | RegisterTMRequest(identify: IdentifyRequest)
    | RegisterTMResponse(identified: IdentifyResponse)
    | RegisterRMRequest(identify: IdentifyRequest, resourceIds: bytes)
    | RegisterRMResponse(identified: IdentifyResponse)
  {
    function GetTypeCode(): MessageType {
      match this
      case GlobalBeginRequest(_, _) => GLOBAL_BEGIN
      case GlobalBeginResponse(_, _, _) => GLOBAL_BEGIN_RESULT
      case BranchCommitRequest(_) => BRANCH_COMMIT
      case BranchCommitResponse(_) => BRANCH_COMMIT_RESULT
      case BranchRollbackRequest(_) => BRANCH_ROLLBACK
      case BranchRollbackResponse(_) => BRANCH_ROLLBACK_RESULT
      case GlobalCommitRequest(_) => GLOBAL_COMMIT
      case GlobalCommitResponse(_) => GLOBAL_COMMIT_RESULT
      case GlobalRollbackRequest(_) => GLOBAL_ROLLBACK
      case GlobalRollbackResponse(_) => GLOBAL_ROLLBACK_RESULT
      case BranchRegisterRequest(_) => BRANCH_REGISTER
      case BranchRegisterResponse(_, _) => BRANCH_REGISTER_RESULT
      case BranchReportRequest(_) => BRANCH_STATUS_REPORT
      case BranchReportResponse(_) => BRANCH_STATUS_REPORT_RESULT
      case GlobalStatusRequest(_) => GLOBAL_STATUS
      case GlobalStatusResponse(_) => GLOBAL_STATUS_RESULT
      case GlobalReportRequest(_, _) => GLOBAL_REPORT
      case GlobalReportResponse(_) => GLOBAL_REPORT_RESULT
      case GlobalLockQueryRequest(_) => GLOBAL_LOCK_QUERY
      case GlobalLockQueryResponse(_, _) => GLOBAL_LOCK_QUERY_RESULT
      case RegisterTMRequest(_) => REG_CLT
      case RegisterTMResponse(_) => REG_CLT_RESULT
      case RegisterRMRequest(_, _) => REG_RM
      case RegisterRMResponse(_) => REG_RM_RESULT
    }
  }
}
