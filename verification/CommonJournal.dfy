/**
  The writer of the journal, and the offsets it hands out at checkpoints.
 */
module CommonJournal {
  import opened MasterJournal
  import opened MasterRecovery

  class Writer {
    var lastWriteOffset: nat
    var log: seq<Message>

    /** The offset is that of a message, once there is one. */
    ghost predicate Valid()
      reads this
    {
      lastWriteOffset == 0 || lastWriteOffset < |log|
    }

    /** A writer for a topic that may hold messages of earlier writers. */
    constructor (log: seq<Message>)
      ensures Valid() && lastWriteOffset == 0 && this.log == log
    {
      lastWriteOffset, this.log := 0, log;
    }

    /** Appends a message and is told its offset. */
    method Write(x: Message)
      requires Valid()
      modifies this
      ensures Valid() && log == old(log) + [x] && lastWriteOffset == |old(log)|
    {
      var offset := |log|;
      log := log + [x];
      if lastWriteOffset < offset {
        lastWriteOffset := offset;
      }
    }

    method CommitEntry(e: MasterEntry)
      requires Valid()
      modifies this
      ensures Valid() && log == old(log) + [Entry(e)] && lastWriteOffset == |old(log)|
    {
      Write(Entry(e));
    }

    /** The offset handed out for recovery lies behind the checkpoint message, at the latest, exactly
        if the journal was not empty; with this writer's own message the last one, it is the next one. */
    method WriteCheckpoint() returns (next: nat)
      requires Valid()
      modifies this
      ensures Valid() && log == old(log) + [Checkpoint(next)] && next == old(lastWriteOffset) + 2
      ensures next <= |log| <==> old(log) != []
      ensures old(lastWriteOffset) + 1 == |old(log)| ==> next == |log|
    {
      var offset := lastWriteOffset + 1;
      next := offset + 1;
      Write(Checkpoint(next));
    }
  }
}
