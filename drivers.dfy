/**
 * The calls a `MongoDriver` accepts, and the events a recording driver writes
 * down for them.
 *
 * References, values and identifiers are passed along untouched by every
 * driver in this model, so each is represented by the text that names it.
 */
module Drivers {

  /** The root entity a driver hands to its bosk. */
  type Root = string

  /** An argument of a driver call, as it appears in a recorded event. */
  datatype Arg =
    | Ref(path: string)       // a `Reference<T>`
    | Value(value: string)    // a new value `T`
    | Id(id: string)          // an `Identifier`

  /** A call to a driver other than `initialRoot`, with its arguments. */
  datatype Op =
    | SubmitReplacement(target: string, newValue: string)
    | SubmitConditionalReplacement(target: string, newValue: string, precondition: string, requiredValue: string)
    | SubmitInitialization(target: string, newValue: string)
    | SubmitDeletion(target: string)
    | SubmitConditionalDeletion(target: string, precondition: string, requiredValue: string)
    | Flush
    | Refurbish
    | Close
  {
    /** The calls every `BoskDriver` has; `refurbish` and `close` belong to `MongoDriver`. */
    predicate IsBoskDriverCall()
    {
      !Refurbish? && !Close?
    }
  }

  /** A recorded call: the method's name and its arguments in order. */
  datatype Event = Event(name: string, arguments: seq<Arg>)

  /** The event a recording driver writes down for a call. */
  function EventOf(op: Op): Event
  {
    match op
    case SubmitReplacement(t, v) => Event("submitReplacement", [Ref(t), Value(v)])
    case SubmitConditionalReplacement(t, v, p, r) => Event("submitConditionalReplacement", [Ref(t), Value(v), Ref(p), Id(r)])
    case SubmitInitialization(t, v) => Event("submitInitialization", [Ref(t), Value(v)])
    case SubmitDeletion(t) => Event("submitDeletion", [Ref(t)])
    case SubmitConditionalDeletion(t, p, r) => Event("submitConditionalDeletion", [Ref(t), Ref(p), Id(r)])
    case Flush => Event("flush", [])
    case Refurbish => Event("refurbish", [])
    case Close => Event("close", [])
  }

  /** A recorded event names its call exactly: different calls are recorded differently. */
  lemma EventIdentifiesCall(a: Op, b: Op)
    ensures EventOf(a) == EventOf(b) ==> a == b
  {
    if EventOf(a) == EventOf(b) {
      var e := EventOf(a);
      assert e.name == EventOf(b).name;
      assert e.arguments == EventOf(b).arguments;
    }
  }
}
