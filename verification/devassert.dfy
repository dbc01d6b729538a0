/**
 * Development assertions (src/devAssert.ts). Outside production a failed
 * assertion throws an Error with the message; in production nothing is
 * checked. Which build is running is the `production` parameter.
 */
module DevAssert {
  import opened Wrappers

  /** A predicate value, or a function to call for it; either way, whether it is truthy. */
  datatype Predicate = Value(truthy: bool) | Call(returnsTruthy: bool)

  /** A message, or a function that returns it. */
  datatype Message = Text(text: string) | Lazy(result: string)

  /**
   * What assert does: the error it throws, if any, and whether it called the
   * predicate and the message functions.
   */
  datatype Outcome = Outcome(thrown: Option<string>, predicateCalled: bool, messageCalled: bool)

  function MessageText(message: Message): string {
    match message
    case Text(text) => text
    case Lazy(result) => result
  }

  function Assert(production: bool, condition: Predicate, message: Message): (outcome: Outcome)
    ensures outcome.thrown.Some? <==> !production && !(if condition.Value? then condition.truthy else condition.returnsTruthy)
    ensures outcome.thrown.Some? ==> outcome.thrown.value == MessageText(message)
    ensures outcome.predicateCalled <==> !production && condition.Call?
    ensures outcome.messageCalled <==> outcome.thrown.Some? && message.Lazy?
  {
    if production then Outcome(None, false, false)
    else
      var holds := match condition case Value(v) => v case Call(r) => r;
      if holds then Outcome(None, condition.Call?, false)
      else Outcome(Some(MessageText(message)), condition.Call?, message.Lazy?)
  }

  function RanTwice(tag: string): string {
    "Code labelled \"" + tag + "\" should only run once"
  }

  /** The labels recorded so far; none before the first call. */
  function Labels(ranOnce: Option<set<string>>): set<string> {
    if ranOnce.Some? then ranOnce.value else {}
  }

  /** The module's `ranOnce` set, created by the first call. */
  class RunOnce {
    var ranOnce: Option<set<string>>
    const production: bool

    constructor(production: bool)
      ensures ranOnce == None && this.production == production
    {
      ranOnce := None;
      this.production := production;
    }

    /**
     * assertRanOnce: outside production, the first call with a label records
     * it; a later call with the same label throws before recording anything.
     * Labels do not interfere, and in production nothing happens.
     */
    method AssertRanOnce(tag: string) returns (thrown: Option<string>)
      modifies this
      ensures production ==> thrown == None && ranOnce == old(ranOnce)
      ensures !production ==> ranOnce.Some? && ranOnce.value == Labels(old(ranOnce)) + {tag}
      ensures !production ==> (thrown.Some? <==> tag in Labels(old(ranOnce)))
      ensures thrown.Some? ==> thrown.value == RanTwice(tag)
    {
      thrown := None;
      if !production {
        if ranOnce.None? {
          ranOnce := Some({});
        }
        var outcome := Assert(production, Value(tag !in ranOnce.value), Text(RanTwice(tag)));
        if outcome.thrown.Some? {
          thrown := outcome.thrown;
          return;
        }
        ranOnce := Some(ranOnce.value + {tag});
      }
    }
  }
}
