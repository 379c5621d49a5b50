/** The class RecordingWorker of include/robot/telemetry/recording.hpp over the sink's class. */
module RecordingTask {
  import opened Bytes
  import opened RecordingFile
  import opened SinkProtocol
  import opened RecordingSink
  import opened Ticking = RecordingWorker

  class RecordingWorker {
    const sink: ProsRecordingSessionSink
    var sessionOpen: bool
    var dropsAtOpen: uint32
    /** The causes given to RecordingControl::fail, oldest first. */
    var failures: seq<SinkError>

    constructor (sink: ProsRecordingSessionSink)
      requires sink.Valid() && sink.State() == Boot(sink.card.storage.disk)
      ensures this.sink == sink && Valid() && State() == Idle(sink.card.storage.disk)
    {
      this.sink := sink;
      sessionOpen, dropsAtOpen, failures := false, 0, [];
    }

    ghost predicate Valid()
      reads this, sink, sink.card, sink.writer, sink.encoder
    {
      sink.Valid()
    }

    ghost function State(): Worker
      reads this, sink, sink.card, sink.writer, sink.encoder
    {
      Worker(sink.State(), sessionOpen, dropsAtOpen, failures)
    }

    method Fail(cause: SinkError)
      modifies this`failures
      ensures failures == old(failures) + [if cause == NoError then Internal else cause]
    {
      failures := failures + [if cause == NoError then Internal else cause];
    }

    method FailOpenSession()
      requires Valid()
      modifies this, sink.card, sink.writer
      ensures Valid() && State() == FailSession(sink.card.environment, old(State()))
    {
      hide Abort;
      var cause := sink.error;
      sink.Abort();
      sessionOpen := false;
      Fail(cause);
    }

    /** Each part of the tick says whether the tick is over. */
    method OpenIfAsked(t: Tick) returns (over: bool)
      requires Valid()
      modifies this, sink, sink.card, sink.writer, sink.encoder
      ensures Valid()
      ensures (if over then Returned(State()) else Continues(State()))
           == OpenStage(sink.card.environment, sink.metadata, old(State()), t)
    {
      hide Abort, Begin;
      if t.opening && !sessionOpen {
        var begun := sink.Begin(t.cardInstalled, t.sessionSequence, t.startTimeMs);
        if !begun {
          FailOpenSession();
          return true;
        }
        sessionOpen := true;
        dropsAtOpen := t.dropsAtOpen;
        if !t.marksRecording {
          sink.Abort();
          sessionOpen := false;
          Fail(Internal);
          return true;
        }
      }
      return false;
    }

    method DrainBatch(t: Tick) returns (over: bool)
      requires Valid()
      modifies this, sink, sink.card, sink.writer, sink.encoder
      ensures Valid()
      ensures (if over then Returned(State()) else Continues(State()))
           == DrainStage(sink.card.environment, old(State()), t)
    {
      hide Abort, Write;
      if sessionOpen && t.draining {
        var batch: seq<Frame> := [];
        while |batch| < BATCH_SIZE && |batch| < |t.pops|
          invariant |batch| <= BATCH_SIZE && |batch| <= |t.pops| && batch == t.pops[..|batch|]
        {
          batch := batch + [t.pops[|batch|]];
        }
        assert batch == Popped(t);
        if batch != [] {
          var written := sink.Write(Batch(batch));
          if !written {
            FailOpenSession();
            return true;
          }
        }
      }
      return false;
    }

    method FinishIfClosing(t: Tick) returns (over: bool)
      requires Valid()
      modifies this, sink, sink.card, sink.writer, sink.encoder
      ensures Valid()
      ensures (if over then Returned(State()) else Continues(State()))
           == CloseStage(sink.card.environment, old(State()), t)
    {
      hide Abort, Finish;
      if sessionOpen && t.closingAndEmpty {
        var finished := sink.Finish((t.dropsAtClose - dropsAtOpen) % 0x1_0000_0000);
        if !finished {
          FailOpenSession();
          return true;
        }
        sessionOpen := false;
        if !t.marksIdle {
          Fail(Internal);
        }
      }
      return false;
    }

    method TickOnce(t: Tick)
      requires Valid()
      modifies this, sink, sink.card, sink.writer, sink.encoder
      ensures Valid()
      ensures State() == Ticking.TickOnce(sink.card.environment, sink.metadata, old(State()), t)
    {
      hide OpenStage, DrainStage, CloseStage;
      var over := OpenIfAsked(t);
      if !over {
        over := DrainBatch(t);
      }
      if !over {
        over := FinishIfClosing(t);
      }
      if !over && !sessionOpen && t.closingUnopened && !t.marksIdleAgain {
        Fail(Internal);
      }
    }
  }
}
