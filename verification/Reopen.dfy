/**
 The state directory of one process and of the next: appends go through the bytes of two log files
 that share one latch, and what the next process loads from those bytes is the logs the first one
 held -- but for a line that lacked nothing but its newline when no more could be written.
 */
module Reopen {
  import opened Records
  import opened TornLog
  import Store

  class Directory {
    const ops: LogFile<Record>
    const reqs: LogFile<ReqLine>

    ghost predicate Valid()
      reads this, ops, reqs
    {
      && ops.Valid() && reqs.Valid() && !(ops.torn && reqs.torn)
      && Lawful(ops.codec) && Lawful(reqs.codec)
    }

    /** One fragment that could not be undone stops all appends. */
    predicate Torn()
      reads this, ops, reqs
    {
      ops.torn || reqs.torn
    }

    constructor (opsFile: LogFile<Record>, reqsFile: LogFile<ReqLine>)
      requires opsFile.Valid() && reqsFile.Valid() && !opsFile.torn && !reqsFile.torn
      requires Lawful(opsFile.codec) && Lawful(reqsFile.codec)
      ensures Valid() && !Torn() && ops == opsFile && reqs == reqsFile
    {
      ops, reqs := opsFile, reqsFile;
    }

    /** What `Store.OperationStore.AppendOp` says of the log, done to the file. */
    method AppendOp(r: Record) returns (f: TornLog.Append)
      requires Valid()
      modifies ops
      ensures Valid()
      ensures Appended(old(ops.acknowledged), old(Torn()), r, f, ops.acknowledged, Torn())
      ensures ops.faults >= old(ops.faults) && (f.Written? <==> !old(Torn()) && ops.faults == old(ops.faults))
    {
      if reqs.torn {
        return Incomplete;
      }
      f := ops.AppendLine(r);
    }

    method AppendReq(line: ReqLine) returns (f: TornLog.Append)
      requires Valid()
      modifies reqs
      ensures Valid()
      ensures Appended(old(reqs.acknowledged), old(Torn()), line, f, reqs.acknowledged, Torn())
      ensures reqs.faults >= old(reqs.faults) && (f.Written? <==> !old(Torn()) && reqs.faults == old(reqs.faults))
    {
      if ops.torn {
        return Incomplete;
      }
      f := reqs.AppendLine(line);
    }

    /**
     The next process loads both files and repairs their tails. Its store holds the logs the files
     were appended to; one more line is there only if it is the fragment that set the latch.
     */
    method Open(counter: nat, now: nat) returns (store: Store.OperationStore, next: Directory)
      requires Valid()
      ensures next.Valid() && !next.Torn() && store.InStep()
      ensures store.ops == next.ops.acknowledged && store.reqs == next.reqs.acknowledged && !store.torn
      ensures store.ops == ops.acknowledged || (ops.torn && exists r :: store.ops == ops.acknowledged + [r])
      ensures store.reqs == reqs.acknowledged || (reqs.torn && exists line :: store.reqs == reqs.acknowledged + [line])
      ensures !Torn() ==> next.ops.bytes == ops.bytes && next.reqs.bytes == reqs.bytes
    {
      hide Lawful; hide Loaded; hide File; hide EndsCut;
      ghost var opsLog := FileHoldsItsLog(ops);
      ghost var reqsLog := FileHoldsItsLog(reqs);
      var loadedOps := Load(ops.codec, ops.bytes);
      var loadedReqs := Load(reqs.codec, reqs.bytes);
      var opsFile := new LogFile(ops.codec, loadedOps.value.1, opsLog);
      var reqsFile := new LogFile(reqs.codec, loadedReqs.value.1, reqsLog);
      next := new Directory(opsFile, reqsFile);
      store := new Store.OperationStore(loadedOps.value.0, loadedReqs.value.0, counter, now);
    }
  }
}
