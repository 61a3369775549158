/** The pure part of the decorators: how each concrete decorator maps its
    child's status (and feedback message) to its own, and how a decorator's
    name is derived when none is given. */
module DecoratorRules {
  import opened Common

  /** The six "X is Y" decorators: each turns child status X into Y. */
  datatype XIsY =
    | RunningIsFailure
    | RunningIsSuccess
    | FailureIsSuccess
    | FailureIsRunning
    | SuccessIsFailure
    | SuccessIsRunning
  {
    /** The child status the rule rewrites. */
    function From(): Status
    {
      match this
      case RunningIsFailure | RunningIsSuccess => Running
      case FailureIsSuccess | FailureIsRunning => Failure
      case SuccessIsFailure | SuccessIsRunning => Success
    }

    /** The status the rule rewrites it to. */
    function To(): Status
    {
      match this
      case RunningIsFailure | SuccessIsFailure => Failure
      case RunningIsSuccess | FailureIsSuccess => Success
      case FailureIsRunning | SuccessIsRunning => Running
    }

    /** The feedback prefix written when the rule fires. */
    function Label(): string
    {
      match this
      case RunningIsFailure => "running is failure"
      case RunningIsSuccess => "running is success"
      case FailureIsSuccess => "failure is success"
      case FailureIsRunning => "failure is running"
      case SuccessIsFailure => "success is failure"
      case SuccessIsRunning => "success is running"
    }

    function ClassName(): string
    {
      match this
      case RunningIsFailure => "RunningIsFailure"
      case RunningIsSuccess => "RunningIsSuccess"
      case FailureIsSuccess => "FailureIsSuccess"
      case FailureIsRunning => "FailureIsRunning"
      case SuccessIsFailure => "SuccessIsFailure"
      case SuccessIsRunning => "SuccessIsRunning"
    }

    /** The rule with SUCCESS and FAILURE swapped in both its X and its Y. */
    function Mirror(): XIsY
    {
      match this
      case RunningIsFailure => RunningIsSuccess
      case RunningIsSuccess => RunningIsFailure
      case FailureIsSuccess => SuccessIsFailure
      case SuccessIsFailure => FailureIsSuccess
      case FailureIsRunning => SuccessIsRunning
      case SuccessIsRunning => FailureIsRunning
    }
  }

  /** Every concrete decorator class, with the parameters its constructor takes. */
  datatype Kind =
    | Inverter
    | Remapping(rule: XIsY)
    | Condition(succeedStatus: Status)
    | OneShot
    | Timeout(duration: int)

  function ClassName(k: Kind): string
  {
    match k
    case Inverter => "Inverter"
    case Remapping(rule) => rule.ClassName()
    case Condition(_) => "Condition"
    case OneShot => "OneShot"
    case Timeout(_) => "Timeout"
  }

  /** The name argument of a decorator's constructor: the AUTO_GENERATED
      marker, None, or a string. */
  datatype NameArg = AutoGenerated | NoName | Named(text: string)

  /** The name a decorator ends up with: the given string when it is a
      non-empty string, otherwise the class name followed by the child's name
      in brackets on a new line. */
  function DecoratorName(k: Kind, arg: NameArg, childName: string): (name: string)
    ensures |name| > 0
    ensures arg.Named? && arg.text != "" ==> name == arg.text
    ensures !(arg.Named? && arg.text != "") ==>
              && |name| == |ClassName(k)| + |childName| + 3
              && name[..|ClassName(k)|] == ClassName(k)
              && name[|ClassName(k)|..|ClassName(k)| + 2] == "\n["
              && name[|ClassName(k)| + 2..|name| - 1] == childName
              && name[|name| - 1] == ']'
  {
    if arg.Named? && arg.text != "" then arg.text
    else ClassName(k) + "\n[" + childName + "]"
  }

  /** Inverter: SUCCESS and FAILURE swap, RUNNING and INVALID pass through. */
  function Invert(s: Status): Status
  {
    match s
    case Success => Failure
    case Failure => Success
    case _ => s
  }

  function InverterFeedback(child: Status, childFeedback: string): string
  {
    match child
    case Success => "success -> failure"
    case Failure => "failure -> success"
    case _ => childFeedback
  }

  /** An "X is Y" decorator's status: X becomes Y, anything else passes through. */
  function Remap(rule: XIsY, s: Status): Status
  {
    if s == rule.From() then rule.To() else s
  }

  /** The feedback an "X is Y" decorator writes. When the rule fires the label
      is followed by the child's feedback in brackets, and the brackets are
      left out when that feedback is empty, except for SuccessIsRunning, which
      always writes them. Otherwise the child's feedback is copied. */
  function RemapFeedback(rule: XIsY, child: Status, childFeedback: string): string
  {
    if child != rule.From() then childFeedback
    else if childFeedback != "" || rule == SuccessIsRunning then rule.Label() + " [" + childFeedback + "]"
    else rule.Label()
  }

  /** Condition: SUCCESS once the child shows the awaited status, RUNNING
      while waiting, and never FAILURE. */
  function ConditionStatus(succeedStatus: Status, child: Status): (r: Status)
    ensures r == Success <==> child == succeedStatus
    ensures r == Running <==> child != succeedStatus
    ensures r != Failure && r != Invalid
  {
    if child == succeedStatus then Success else Running
  }

  lemma InvertSwapsOutcomes(s: Status)
    ensures Invert(s) == Success <==> s == Failure
    ensures Invert(s) == Failure <==> s == Success
    ensures s == Running || s == Invalid ==> Invert(s) == s
  {
  }

  lemma InvertTwiceIsIdentity(s: Status)
    ensures Invert(Invert(s)) == s
  {
  }

  /** Each "X is Y" decorator changes exactly status X, to Y, and is the
      identity on every other status; afterwards X never appears. */
  lemma RemapChangesExactlyFrom(rule: XIsY, s: Status)
    ensures s == rule.From() ==> Remap(rule, s) == rule.To()
    ensures s != rule.From() ==> Remap(rule, s) == s
    ensures Remap(rule, s) != rule.From()
  {
  }

  /** Applying the same rule again changes nothing. */
  lemma RemapIdempotent(rule: XIsY, s: Status)
    ensures Remap(rule, Remap(rule, s)) == Remap(rule, s)
  {
  }

  /** A rule's status map with `Invert` applied to its input and to its
      output is the mirrored rule's status map: conjugated by `Invert`,
      SuccessIsFailure's map is FailureIsSuccess's. */
  lemma InverterConjugatesRemap(rule: XIsY, s: Status)
    ensures Invert(Remap(rule, Invert(s))) == Remap(rule.Mirror(), s)
  {
  }

  /** The statuses an "X is Y" decorator can report: never X, and every
      other status is reachable. */
  lemma RemapRange(rule: XIsY, r: Status)
    ensures r != rule.From() <==> exists s :: Remap(rule, s) == r
  {
    if r != rule.From() {
      assert Remap(rule, r) == r;
    }
  }
}
