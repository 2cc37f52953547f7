/**
 * The test doubles that stand for a live driver: a `RecordingDriver` appends
 * one event per call to its log and answers `initialRoot` with the root it was
 * built with; a `RecordingMongoDriver` adds `refurbish` and `close`, which are
 * recorded in the same log.
 */
module Recording {
  import opened Drivers

  class RecordingDriver {
    /** Every call received so far, oldest first. */
    var events: seq<Event>
    const initialRoot: Root

    constructor(initialRoot: Root)
      ensures events == [] && this.initialRoot == initialRoot
    {
      events := [];
      this.initialRoot := initialRoot;
    }

    /** `initialRoot` answers with the root given at construction and records nothing. */
    method InitialRoot() returns (r: Root)
      ensures r == initialRoot
    {
      r := initialRoot;
    }

    /**
     * Each submit method and `flush`: appends the call's event to the log and
     * does nothing else.
     */
    method Submit(op: Op)
      requires op.IsBoskDriverCall()
      modifies this
      ensures events == old(events) + [EventOf(op)]
    {
      events := events + [EventOf(op)];
    }
  }

  /**
   * The Mongo flavour of the recording driver. The Java class extends
   * `RecordingDriver`; here it holds the recording driver it extends, whose
   * log it shares.
   */
  class RecordingMongoDriver {
    const recorder: RecordingDriver

    constructor(initialRoot: Root)
      ensures fresh(recorder)
      ensures recorder.events == [] && recorder.initialRoot == initialRoot
    {
      recorder := new RecordingDriver(initialRoot);
    }

    function Events(): seq<Event>
      reads recorder
    {
      recorder.events
    }

    /** Every call, `refurbish` and `close` included, appends its event to the shared log. */
    method Submit(op: Op)
      modifies recorder
      ensures recorder.events == old(recorder.events) + [EventOf(op)]
    {
      if op.IsBoskDriverCall() {
        recorder.Submit(op);
      } else {
        recorder.events := recorder.events + [EventOf(op)];
      }
    }
  }
}
