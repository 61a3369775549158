/** The decorator objects. A `Decorator` owns exactly one child, a scripted
    `Leaf`, and steps both through the lifecycle; each lifecycle method is
    proved to change the two objects exactly as the function of the same name
    in module Lifecycle says. */
module Decorators {
  import opened Common
  import opened DecoratorRules
  import opened Lifecycle

  /** The child behaviour: a leaf whose `update` gives a scripted reply and
      whose `setup` gives a scripted result. */
  class Leaf {
    const name: string
    var parent: Decorator?
    var status: Status
    var feedbackMessage: string
    var reply: Reply
    var setupReply: SetupReply
    var initialisations: nat
    var updates: nat
    var setups: nat

    function State(): LeafState
      reads this
    {
      LeafState(status, feedbackMessage, reply, initialisations, updates)
    }

    constructor (name: string, reply: Reply, setupReply: SetupReply)
      ensures this.name == name && parent == null
      ensures State() == LeafState(Invalid, "", reply, 0, 0)
      ensures this.setupReply == setupReply && setups == 0
    {
      this.name := name;
      parent := null;
      status := Invalid;
      feedbackMessage := "";
      this.reply := reply;
      this.setupReply := setupReply;
      initialisations, updates, setups := 0, 0, 0;
    }

    method Setup(timeout: int) returns (r: SetupReply)
      modifies this`setups
      ensures r == setupReply
      ensures setups == old(setups) + 1
    {
      setups := setups + 1;
      r := setupReply;
    }

    /** One tick; the leaf is the only node it visits. */
    method Tick() returns (visited: seq<object>)
      modifies this`status, this`initialisations, this`updates
      ensures State() == LeafTick(old(State()))
      ensures visited == [this]
    {
      if status != Running {
        initialisations := initialisations + 1;
      }
      updates := updates + 1;
      var newStatus := Coerce(reply);
      if newStatus != Running {
        Stop(newStatus);
      }
      status := newStatus;
      visited := [this];
    }

    method Stop(s: Status)
      modifies this`status
      ensures State() == old(State()).(status := s)
    {
      status := s;
    }

    /** The leaf is its own tip once it has a status other than INVALID. */
    function Tip(): (r: object?)
      reads this
      ensures r == null <==> status == Invalid
      ensures r != null ==> r == this
    {
      if status != Invalid then this else null
    }
  }

  class Decorator {
    const kind: Kind
    const name: string
    const children: seq<Leaf>
    const decorated: Leaf
    var status: Status
    var feedbackMessage: string
    var finalStatus: Option<Status>
    var finishTime: Option<int>

    function State(): DecoratorState
      reads this
    {
      DecoratorState(status, feedbackMessage, finalStatus, finishTime)
    }

    /** The decorator and its child, as one value. */
    function Snapshot(): Config
      reads this, decorated
    {
      Config(State(), decorated.State())
    }

    /** Wraps `child`: it becomes the only child, its parent is this
        decorator, and the name is derived from the child's when none is
        given. */
    constructor (child: Leaf, name: NameArg, kind: Kind)
      modifies child`parent
      ensures this.kind == kind
      ensures children == [child] && decorated == child && child.parent == this
      ensures this.name == DecoratorName(kind, name, child.name)
      ensures State() == Fresh
      ensures child.State() == old(child.State())
    {
      this.kind := kind;
      this.name := DecoratorName(kind, name, child.name);
      children := [child];
      decorated := child;
      status := Invalid;
      feedbackMessage := "";
      finalStatus := None;
      finishTime := None;
      new;
      child.parent := this;
    }

    /** Construction from an arbitrary argument: anything but a leaf
        behaviour is refused with a TypeError. */
    static method Create(child: object?, name: NameArg, kind: Kind) returns (r: Result<Decorator, TypeError>)
      modifies if child is Leaf then {child as Leaf} else {}
      ensures r.Err? <==> !(child is Leaf)
      ensures r.Err? ==> r.error == ChildNotABehaviour
      ensures r.Ok? ==> && fresh(r.value)
                        && r.value.kind == kind
                        && r.value.decorated == child
                        && r.value.children == [child as Leaf]
                        && r.value.name == DecoratorName(kind, name, (child as Leaf).name)
                        && (child as Leaf).parent == r.value
                        && (child as Leaf).State() == old((child as Leaf).State())
                        && (child as Leaf).setupReply == old((child as Leaf).setupReply)
                        && (child as Leaf).setups == old((child as Leaf).setups)
                        && r.value.State() == Fresh
    {
      if child is Leaf {
        var d := new Decorator(child as Leaf, name, kind);
        r := Ok(d);
      } else {
        r := Err(ChildNotABehaviour);
      }
    }

    /** Relays `setup` to the child exactly once and passes its boolean
        result on; a non-boolean result raises a TypeError. */
    method Setup(timeout: int) returns (r: Result<bool, TypeError>)
      modifies decorated`setups
      ensures decorated.setups == old(decorated.setups) + 1
      ensures decorated.setupReply.IsBool? ==> r == Ok(decorated.setupReply.ok)
      ensures decorated.setupReply.NotBool? ==> r == Err(SetupReturnedNonBool)
    {
      var result := decorated.Setup(timeout);
      if result.NotBool? {
        return Err(SetupReturnedNonBool);
      }
      r := Ok(result.ok);
    }

    method Initialise(now: int)
      modifies this
      ensures State() == Lifecycle.Initialise(kind, old(State()), now)
    {
      if kind.Timeout? {
        finishTime := Some(now + kind.duration);
        feedbackMessage := "";
      }
    }

    method Terminate(s: Status)
      modifies this
      ensures State() == Lifecycle.Terminate(kind, old(State()), s)
    {
      if kind.OneShot? && finalStatus.None? && s == Success {
        feedbackMessage := "oneshot completed";
        finalStatus := Some(Success);
      }
    }

    /** Terminates, and never leaves the child RUNNING. */
    method Stop(s: Status)
      modifies this, decorated`status
      ensures Snapshot() == Lifecycle.Stop(kind, old(Snapshot()), s)
    {
      Terminate(s);
      if s == Invalid {
        decorated.Stop(s);
      }
      if decorated.status == Running {
        decorated.Stop(Invalid);
      }
      status := s;
    }

    method Update(now: int) returns (r: Status)
      modifies this, decorated`status
      ensures (r, Snapshot()) == Lifecycle.Update(kind, old(Snapshot()), now)
    {
      var child := decorated.status;
      match kind {
        case Inverter =>
          feedbackMessage := InverterFeedback(child, decorated.feedbackMessage);
          r := Invert(child);
        case Remapping(rule) =>
          feedbackMessage := RemapFeedback(rule, child, decorated.feedbackMessage);
          r := Remap(rule, child);
        case Condition(target) =>
          r := ConditionStatus(target, child);
        case OneShot =>
          r := if finalStatus.Some? then finalStatus.value else child;
        case Timeout(_) =>
          if TimedOut(now, finishTime) {
            feedbackMessage := "timed out";
            decorated.Stop(Invalid);
            r := Failure;
          } else {
            r := child;
          }
      }
    }

    /** One tick: the nodes visited are the child (unless OneShot is
        latched) followed by the decorator itself, last. `start` is the time
        `initialise` reads, before the child's tick, and `now` the time
        `update` reads, after it. */
    method Tick(start: int, now: int) returns (visited: seq<object>)
      modifies this, decorated`status, decorated`initialisations, decorated`updates
      ensures Snapshot() == Lifecycle.Tick(kind, old(Snapshot()), start, now)
      ensures visited == (if Latched(kind, old(State())) then [] else [decorated as object]) + [this]
    {
      if status != Running {
        Initialise(start);
      }
      var childVisited: seq<object> := [];
      if !(kind.OneShot? && finalStatus.Some?) {
        childVisited := decorated.Tick();
      }
      var newStatus := Update(now);
      if newStatus != Running {
        Stop(newStatus);
      }
      status := newStatus;
      visited := childVisited + [this];
    }

    /** The deepest active node: the child's tip while the child has a
        status, otherwise the decorator itself unless it is INVALID. */
    function Tip(): (r: object?)
      reads this, decorated
      ensures decorated.status != Invalid ==> r == decorated
      ensures decorated.status == Invalid ==> (r == null <==> status == Invalid)
      ensures decorated.status == Invalid && r != null ==> r == this
    {
      if decorated.status != Invalid then decorated.Tip() else if status != Invalid then this else null
    }
  }

  /** A decorator that was never ticked, over a child that was never ticked,
      has no tip. */
  lemma TipBeforeFirstTickIsNone(d: Decorator)
    requires d.State() == Fresh && d.decorated.status == Invalid
    ensures d.Tip() == null
  {
  }

  /** While the child's status is not INVALID, the decorator's tip is the
      child, whose own tip is itself. */
  lemma TipEndsAtActiveLeaf(d: Decorator)
    requires d.decorated.status != Invalid
    ensures d.Tip() == d.decorated && d.decorated.Tip() == d.decorated
  {
  }

  /** After a tick in which the child took part and replied RUNNING, the tip
      is the running child while the decorator is RUNNING too; when the
      decorator concluded (a RunningIsSuccess, say, or an expired Timeout)
      the child was cancelled and the decorator itself is the tip. */
  lemma TipAfterTickOverRunningChild(d: Decorator, before: Config, start: int, now: int)
    requires d.Snapshot() == Lifecycle.Tick(d.kind, before, start, now)
    requires !Latched(d.kind, before.dec) && before.child.reply == InSet(Running)
    ensures d.status == Running ==> d.Tip() == d.decorated && d.decorated.status == Running
    ensures d.status != Running ==> d.Tip() == d
  {
  }
}
