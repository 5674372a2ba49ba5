/** The outcome of executing one transaction: a status code from a closed taxonomy and an
    accumulator of return data, energy, logs and internal transactions. */
module TransactionResults {
  import opened JavaTypes
  import opened Wrappers

  /** The three classes every status code falls into. */
  datatype CodeType = Succeeded | Rejected | Failed

  /** Status codes. Rejected transactions never go on chain; failed ones do, and are charged. */
  datatype Code =
    | Success
    | Rejected
    | RejectedInsufficientBalance
    | RejectedInvalidNonce
    | Failed
    | FailedInvalidData
    | FailedOutOfEnergy
    | FailedOutOfStack
    | FailedCallDepthLimitExceeded
    | FailedRevert
    | FailedInvalid
    | FailedException
    | FailedRejected
    | FailedAbort
  {
    /** The class each code is declared with. */
    function Type(): (t: CodeType)
      ensures t == CodeType.Succeeded <==> this == Success
      ensures t == CodeType.Rejected <==> this in {Code.Rejected, RejectedInsufficientBalance, RejectedInvalidNonce}
    {
      match this
      case Success => CodeType.Succeeded
      case Rejected => CodeType.Rejected
      case RejectedInsufficientBalance => CodeType.Rejected
      case RejectedInvalidNonce => CodeType.Rejected
      case Failed => CodeType.Failed
      case FailedInvalidData => CodeType.Failed
      case FailedOutOfEnergy => CodeType.Failed
      case FailedOutOfStack => CodeType.Failed
      case FailedCallDepthLimitExceeded => CodeType.Failed
      case FailedRevert => CodeType.Failed
      case FailedInvalid => CodeType.Failed
      case FailedException => CodeType.Failed
      case FailedRejected => CodeType.Failed
      case FailedAbort => CodeType.Failed
    }

    /** Only SUCCESS is a success. */
    function IsSuccess(): (b: bool)
      ensures b <==> this == Success
    {
      Type() == CodeType.Succeeded
    }

    /** Exactly the three REJECTED codes are rejections. */
    function IsRejected(): (b: bool)
      ensures b <==> this in {Code.Rejected, RejectedInsufficientBalance, RejectedInvalidNonce}
    {
      Type() == CodeType.Rejected
    }

    /** Every code that is neither the success nor a rejection is a failure. */
    function IsFailed(): (b: bool)
      ensures b <==> this != Success && !(this in {Code.Rejected, RejectedInsufficientBalance, RejectedInvalidNonce})
    {
      Type() == CodeType.Failed
    }
  }

  /** Every code is exactly one of success, rejected, failed. */
  lemma ExactlyOneClass(c: Code)
    ensures c.IsSuccess() || c.IsRejected() || c.IsFailed()
    ensures !(c.IsSuccess() && c.IsRejected())
    ensures !(c.IsSuccess() && c.IsFailed())
    ensures !(c.IsRejected() && c.IsFailed())
  {
  }

  /** A mutable result. Log, InternalTx and Cause stand for the log, internal-transaction and
      Throwable classes, which are not part of this model. */
  class TransactionResult<Log, InternalTx, Cause> {
    /** Any uncaught exception that reached the engine; None is null. */
    var uncaughtException: Option<Cause>
    var statusCode: Code
    /** None is a null return payload. */
    var returnData: Option<Bytes>
    var energyUsed: Long
    var storageRootHash: Int
    /** Logs emitted during execution, in order. */
    var logs: seq<Log>
    /** Internal transactions created during execution, in order. */
    var internalTransactions: seq<InternalTx>

    /** An empty result: SUCCESS, no energy used, no logs, no internal transactions. */
    constructor ()
      ensures statusCode == Success && energyUsed == 0
      ensures logs == [] && internalTransactions == []
      ensures returnData == None && uncaughtException == None && storageRootHash == 0
    {
      uncaughtException := None;
      statusCode := Success;
      returnData := None;
      energyUsed := 0;
      storageRootHash := 0;
      logs := [];
      internalTransactions := [];
    }

    /** Folds a nested result into this one: its internal transactions always, its logs only
        when it succeeded. Nothing else of this result changes. */
    method Merge(other: TransactionResult<Log, InternalTx, Cause>)
      modifies this
      ensures internalTransactions == old(internalTransactions) + old(other.internalTransactions)
      ensures logs == if old(other.statusCode) == Success then old(logs) + old(other.logs) else old(logs)
      ensures statusCode == old(statusCode) && energyUsed == old(energyUsed)
      ensures returnData == old(returnData) && uncaughtException == old(uncaughtException)
      ensures storageRootHash == old(storageRootHash)
      ensures other != this ==> unchanged(other)
    {
      internalTransactions := internalTransactions + other.internalTransactions;
      if other.statusCode == Success {
        logs := logs + other.logs;
      }
    }

    /** Appends one log; the internal transactions are untouched. */
    method AddLog(log: Log)
      modifies this`logs
      ensures logs == old(logs) + [log]
    {
      logs := logs + [log];
    }

    /** Appends one internal transaction; the logs are untouched. */
    method AddInternalTransaction(tx: InternalTx)
      modifies this`internalTransactions
      ensures internalTransactions == old(internalTransactions) + [tx]
    {
      internalTransactions := internalTransactions + [tx];
    }

    /** Drops every log and nothing else. */
    method ClearLogs()
      modifies this`logs
      ensures logs == []
    {
      logs := [];
    }

    method SetStatusCode(code: Code)
      modifies this`statusCode
      ensures statusCode == code
    {
      statusCode := code;
    }

    method SetReturnData(data: Option<Bytes>)
      modifies this`returnData
      ensures returnData == data
    {
      returnData := data;
    }

    method SetEnergyUsed(energy: Long)
      modifies this`energyUsed
      ensures energyUsed == energy
    {
      energyUsed := energy;
    }

    method SetStorageRootHash(hash: Int)
      modifies this`storageRootHash
      ensures storageRootHash == hash
    {
      storageRootHash := hash;
    }

    method SetUncaughtException(cause: Option<Cause>)
      modifies this`uncaughtException
      ensures uncaughtException == cause
    {
      uncaughtException := cause;
    }
  }

  /** A caller's view: what the contracts above let one conclude about a typical sequence. */
  method MergeScenario<Log, InternalTx, Cause>(log: Log, tx: InternalTx)
    returns (parent: TransactionResult<Log, InternalTx, Cause>)
    ensures parent.statusCode == Success && parent.energyUsed == 0
    ensures parent.logs == [log] && parent.internalTransactions == [tx, tx]
  {
    parent := new TransactionResult();
    var child := new TransactionResult();
    child.AddLog(log);
    child.AddInternalTransaction(tx);
    parent.Merge(child);
    child.SetStatusCode(FailedRevert);
    parent.Merge(child);
  }
}
