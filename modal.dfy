/**
 * The modal Mongo driver: a facade that forwards every call to whichever
 * driver is current, where the current driver is one of three modes —
 * disconnected (refuses every call but `close` and `initialRoot`),
 * reconnecting (waits for the driver a reconnection produces and forwards to
 * it) and connected (forwards to the live driver) — and `changeImplementation`
 * swaps the current driver by compare-and-set.
 *
 * The live driver a mode wraps is a `RecordingMongoDriver`, the stand-in the
 * facade's tests use. The mode drivers are immutable, so a driver is a value;
 * a call's only effect is the event it adds to the log of the live driver it
 * reaches.
 */
module Modal {
  import opened Wrappers
  import opened Drivers
  import opened Recording

  /** The exceptions a driver call can end with. */
  datatype DriverFailure =
    | DisconnectedFailure(message: string)   // `DisconnectedException`
    | FlushFailure(message: string)          // `FlushFailureException`
    | ReconnectionFailure(message: string)   // `ReconnectionException`
    | ClassCastFailure                       // the facade's factory given a driver that is not a `MongoDriver`

  /** A driver the facade can hold. */
  datatype Driver =
    | Live(driver: RecordingMongoDriver)     // a live driver
    | Disconnected(downstreamRoot: Root)     // `DisconnectedModeDriver`: its downstream driver's initial root
    | Reconnecting(future: Future)           // `ReconnectingModeDriver`
    | Connected(impl: Driver)                // `ConnectedModeDriver`

  /** How the future of a reconnection ends when `get` is called on it. */
  datatype Future =
    | Resolved(driver: Driver)   // `get` returns this driver
    | Failed                     // `get` throws `ExecutionException`
    | Interrupted                // `get` throws `InterruptedException`

  /** The verb a disconnected driver's message names for a call. */
  function Action(op: Op): string
  {
    match op
    case SubmitReplacement(_, _) => "submit replacement"
    case SubmitConditionalReplacement(_, _, _, _) => "submit conditional replacement"
    case SubmitInitialization(_, _) => "submit initialization"
    case SubmitDeletion(_) => "submit deletion"
    case SubmitConditionalDeletion(_, _, _) => "submit conditional deletion"
    case Flush => "flush"
    case Refurbish => "refurbish"
    case Close => "close"
  }

  /**
   * What a disconnected driver throws for a call other than `close`: a
   * `DisconnectedException`, which `flush` wraps in a `FlushFailureException`
   * with the same message.
   */
  function Unreachable(op: Op): (r: DriverFailure)
    ensures r.FlushFailure? <==> op.Flush?
    ensures r.DisconnectedFailure? <==> !op.Flush?
    ensures r.message == "Database is unreachable; cannot " + Action(op)
  {
    var message := "Database is unreachable; cannot " + Action(op);
    if op.Flush? then FlushFailure(message) else DisconnectedFailure(message)
  }

  /** A reconnecting driver's `getFuture`: the driver the reconnection produced, or why there is none. */
  function GetFuture(future: Future): (r: Result<Driver, DriverFailure>)
    ensures r.Ok? <==> future.Resolved?
    ensures r.Ok? ==> r.value == future.driver
    ensures r.Err? ==> r.error.ReconnectionFailure?
  {
    match future
    case Resolved(driver) => Ok(driver)
    case Failed => Err(ReconnectionFailure("Reconnection failed"))
    case Interrupted => Err(ReconnectionFailure("Reconnection interrupted"))
  }

  /** Where a call ends up. */
  datatype Routed =
    | Delivered(to: RecordingMongoDriver)   // it reaches this live driver
    | Absorbed                              // a mode driver returns without doing anything
    | Thrown(failure: DriverFailure)        // a mode driver throws

  /** The live drivers a driver can forward to. */
  function LiveDrivers(d: Driver): set<RecordingMongoDriver>
  {
    match d
    case Live(driver) => {driver}
    case Disconnected(_) => {}
    case Reconnecting(future) => if future.Resolved? then LiveDrivers(future.driver) else {}
    case Connected(impl) => LiveDrivers(impl)
  }

  /** The logs of the live drivers a driver can forward to. */
  function Logs(d: Driver): set<RecordingDriver>
  {
    set live | live in LiveDrivers(d) :: live.recorder
  }

  /** Where a call made on `d` ends up. */
  function Route(d: Driver, op: Op): (r: Routed)
    ensures r.Delivered? ==> r.to in LiveDrivers(d)
    ensures r.Thrown? ==> !op.Close?
  {
    match d
    case Live(driver) => Delivered(driver)
    case Disconnected(_) => if op.Close? then Absorbed else Thrown(Unreachable(op))
    case Reconnecting(future) =>
      if op.Close? then Absorbed
      else if future.Resolved? then Route(future.driver, op)
      else Thrown(GetFuture(future).error)
    case Connected(impl) => Route(impl, op)
  }

  /** What `initialRoot` on `d` returns or throws. */
  function RootOf(d: Driver): (r: Result<Root, DriverFailure>)
    ensures r.Err? ==> r.error.ReconnectionFailure?
  {
    match d
    case Live(driver) => Ok(driver.recorder.initialRoot)
    case Disconnected(downstreamRoot) => Ok(downstreamRoot)
    case Reconnecting(future) =>
      if future.Resolved? then RootOf(future.driver) else Err(GetFuture(future).error)
    case Connected(impl) => RootOf(impl)
  }

  /**
   * A failed `flush` is reported as a `FlushFailureException` or a
   * `ReconnectionException`, never as a bare `DisconnectedException`.
   */
  lemma {:induction false} FlushFailsAsFlushFailure(d: Driver)
    ensures Route(d, Flush).Thrown? ==> !Route(d, Flush).failure.DisconnectedFailure?
  {
    match d
    case Live(_) =>
    case Disconnected(_) =>
    case Reconnecting(future) =>
      if future.Resolved? {
        FlushFailsAsFlushFailure(future.driver);
      }
    case Connected(impl) => FlushFailsAsFlushFailure(impl);
  }

  /**
   * `initialRoot` goes where every other call goes: when a call other than
   * `close` reaches a live driver, `initialRoot` answers with that driver's
   * root; it fails exactly when such a call fails to reconnect, with the same
   * exception.
   */
  lemma {:induction false} RootFollowsRoute(d: Driver, op: Op)
    requires !op.Close?
    ensures Route(d, op).Delivered? ==> RootOf(d) == Ok(Route(d, op).to.recorder.initialRoot)
    ensures RootOf(d).Err? <==> Route(d, op).Thrown? && Route(d, op).failure.ReconnectionFailure?
    ensures RootOf(d).Err? ==> RootOf(d).error == Route(d, op).failure
  {
    match d
    case Live(_) =>
    case Disconnected(_) =>
    case Reconnecting(future) =>
      if future.Resolved? {
        RootFollowsRoute(future.driver, op);
      }
    case Connected(impl) => RootFollowsRoute(impl, op);
  }

  /** What the log `log` receives when a call ends up as `routed`. */
  function Received(routed: Routed, log: RecordingDriver, op: Op): seq<Event>
  {
    if routed.Delivered? && routed.to.recorder == log then [EventOf(op)] else []
  }

  /** What a call returns to its caller when it ends up as `routed`. */
  function OutcomeOf(routed: Routed): Result<(), DriverFailure>
  {
    if routed.Thrown? then Err(routed.failure) else Ok(())
  }

  /** The driver a bosk hands to the facade's factory as its downstream. */
  datatype Downstream =
    | MongoDownstream(driver: Driver)   // a `MongoDriver`
    | OtherDownstream                   // any other `BoskDriver`

  class ModalDriverFacade {
    /** The driver every call is forwarded to. */
    var current: Driver

    constructor(initial: Driver)
      ensures current == initial
    {
      current := initial;
    }

    function CurrentImplementation(): Driver
      reads this
    {
      current
    }

    /**
     * Compare-and-set: replaces the current driver by `to` when it is `from`,
     * and reports whether it did.
     */
    method ChangeImplementation(from: Driver, to: Driver) returns (changed: bool)
      modifies this
      ensures changed <==> old(current) == from
      ensures current == if changed then to else old(current)
    {
      changed := current == from;
      if changed {
        current := to;
      }
    }

    /** `initialRoot`: asks the current driver. */
    method InitialRoot() returns (r: Result<Root, DriverFailure>)
      ensures r == RootOf(current)
    {
      r := RootOf(current);
    }

    /**
     * Each submit method, `flush`, `refurbish` and `close`: hands the call to
     * the current driver. The live driver the call reaches records it; no
     * other log changes, and the current driver stays what it was.
     */
    method Submit(op: Op) returns (outcome: Result<(), DriverFailure>)
      modifies Logs(current)
      ensures outcome == OutcomeOf(Route(current, op))
      ensures forall log :: log in Logs(current) && old(allocated(log)) ==> log.events == old(log.events) + Received(Route(current, op), log, op)
    {
      var routed := Route(current, op);
      if routed.Delivered? {
        assert routed.to.recorder in Logs(current);
        routed.to.Submit(op);
      }
      outcome := OutcomeOf(routed);
    }
  }

  /** The facade's factory: wraps its downstream driver, which must be a `MongoDriver`. */
  method Build(downstream: Downstream) returns (r: Result<ModalDriverFacade, DriverFailure>)
    ensures r.Err? <==> downstream.OtherDownstream?
    ensures r.Err? ==> r.error == ClassCastFailure
    ensures r.Ok? ==> fresh(r.value) && r.value.current == downstream.driver
  {
    if downstream.OtherDownstream? {
      return Err(ClassCastFailure);
    }
    var facade := new ModalDriverFacade(downstream.driver);
    r := Ok(facade);
  }

  /**
   * The facade's routing scenario: five submits reach the first live driver;
   * after a refused and an accepted swap, the next five submits, `refurbish`
   * and `close` reach the second one.
   */
  method AllCallsRouted() returns (events1: seq<Event>, events2: seq<Event>)
    ensures events1 == [
      Event("submitReplacement", [Ref("/entities/child1/string"), Value("r1")]),
      Event("submitConditionalReplacement", [Ref("/entities/child1/string"), Value("cr1"), Ref("/entities/child1/id"), Id("child1")]),
      Event("submitInitialization", [Ref("/entities/child1/string"), Value("i1")]),
      Event("submitDeletion", [Ref("/entities/child1")]),
      Event("submitConditionalDeletion", [Ref("/entities/child1"), Ref("/entities/child1/id"), Id("child1")])]
    ensures events2 == [
      Event("submitReplacement", [Ref("/entities/child1/string"), Value("r2")]),
      Event("submitConditionalReplacement", [Ref("/entities/child1/string"), Value("cr2"), Ref("/entities/child1/id"), Id("child1")]),
      Event("submitInitialization", [Ref("/entities/child1/string"), Value("i2")]),
      Event("submitDeletion", [Ref("/entities/child2")]),
      Event("submitConditionalDeletion", [Ref("/entities/child2"), Ref("/entities/child2/id"), Id("child2")]),
      Event("refurbish", []),
      Event("close", [])]
  {
    var impl1 := new RecordingMongoDriver("root");
    var impl2 := new RecordingMongoDriver("root");
    var facade := new ModalDriverFacade(Live(impl1));
    var first := [
      SubmitReplacement("/entities/child1/string", "r1"),
      SubmitConditionalReplacement("/entities/child1/string", "cr1", "/entities/child1/id", "child1"),
      SubmitInitialization("/entities/child1/string", "i1"),
      SubmitDeletion("/entities/child1"),
      SubmitConditionalDeletion("/entities/child1", "/entities/child1/id", "child1")];
    SubmitEach(facade, impl1, impl2, first);
    assert impl2.recorder.events == [];
    var refused := facade.ChangeImplementation(Live(impl2), Live(impl1));
    var accepted := facade.ChangeImplementation(Live(impl1), Live(impl2));
    assert !refused && accepted;
    var second := [
      SubmitReplacement("/entities/child1/string", "r2"),
      SubmitConditionalReplacement("/entities/child1/string", "cr2", "/entities/child1/id", "child1"),
      SubmitInitialization("/entities/child1/string", "i2"),
      SubmitDeletion("/entities/child2"),
      SubmitConditionalDeletion("/entities/child2", "/entities/child2/id", "child2"),
      Refurbish,
      Close];
    SubmitEach(facade, impl2, impl1, second);
    events1 := impl1.recorder.events;
    events2 := impl2.recorder.events;
  }

  /** Makes the calls `ops` in order on a facade whose current driver is the live driver `to`. */
  method SubmitEach(facade: ModalDriverFacade, to: RecordingMongoDriver, other: RecordingMongoDriver, ops: seq<Op>)
    requires facade.current == Live(to) && to.recorder != other.recorder
    modifies to.recorder
    ensures to.recorder.events == old(to.recorder.events) + Recorded(ops)
    ensures other.recorder.events == old(other.recorder.events)
  {
    var i := 0;
    while i < |ops|
      invariant i <= |ops|
      invariant to.recorder.events == old(to.recorder.events) + Recorded(ops[..i])
      invariant other.recorder.events == old(other.recorder.events)
    {
      assert Logs(Live(to)) == {to.recorder};
      var outcome := facade.Submit(ops[i]);
      assert ops[..i + 1] == ops[..i] + [ops[i]];
      assert Recorded(ops[..i + 1]) == Recorded(ops[..i]) + [EventOf(ops[i])];
      i := i + 1;
    }
    assert ops[..i] == ops;
  }

  /** The events a recording driver writes down for the calls `ops`, in order. */
  function Recorded(ops: seq<Op>): seq<Event>
  {
    seq(|ops|, i requires 0 <= i < |ops| => EventOf(ops[i]))
  }


  /** The compare-and-set scenario: a swap happens exactly when `from` is the current driver. */
  method ChangeImplementationWorks() returns (changes: seq<bool>)
    ensures changes == [false, true, false, true]
  {
    var impl1 := new RecordingMongoDriver("root");
    var impl2 := new RecordingMongoDriver("root");
    var facade := new ModalDriverFacade(Live(impl1));
    assert facade.CurrentImplementation() == Live(impl1);
    var a := facade.ChangeImplementation(Live(impl2), Live(impl2));
    assert facade.CurrentImplementation() == Live(impl1);
    var b := facade.ChangeImplementation(Live(impl1), Live(impl2));
    assert facade.CurrentImplementation() == Live(impl2);
    var c := facade.ChangeImplementation(Live(impl1), Live(impl1));
    assert facade.CurrentImplementation() == Live(impl2);
    var d := facade.ChangeImplementation(Live(impl2), Live(impl1));
    assert facade.CurrentImplementation() == Live(impl1);
    changes := [a, b, c, d];
  }

  /** `initialRoot` answers with the root of whichever live driver is current. */
  method InitialRootRouted() returns (roots: seq<Result<Root, DriverFailure>>)
    ensures roots == [Ok("root1"), Ok("root2"), Ok("root1")]
  {
    var impl1 := new RecordingMongoDriver("root1");
    var impl2 := new RecordingMongoDriver("root2");
    var facade := new ModalDriverFacade(Live(impl1));
    var r1 := facade.InitialRoot();
    var _ := facade.ChangeImplementation(Live(impl1), Live(impl2));
    var r2 := facade.InitialRoot();
    var _ := facade.ChangeImplementation(Live(impl2), Live(impl1));
    var r3 := facade.InitialRoot();
    roots := [r1, r2, r3];
  }
}
