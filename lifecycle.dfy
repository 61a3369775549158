/** The decorator lifecycle as functions over values: what `initialise`,
    `update`, `terminate`, `stop` and `tick` do to a decorator and to its
    child, and what holds over any run of ticks and interruptions. The
    classes in module Decorators are proved to behave exactly as these
    functions say. */
module Lifecycle {
  import opened Common
  import opened DecoratorRules

  /** What can be observed of the scripted leaf child: its status, its
      feedback message, the reply its `update` gives, and how often it was
      initialised and updated. */
  datatype LeafState = LeafState(
    status: Status,
    feedback: string,
    reply: Reply,
    initialisations: nat,
    updates: nat)

  /** The fields of a decorator that its lifecycle changes. `finalStatus` is
      used by OneShot only and `finishTime` by Timeout only. */
  datatype DecoratorState = DecoratorState(
    status: Status,
    feedback: string,
    finalStatus: Option<Status>,
    finishTime: Option<int>)

  /** A decorator together with its child. */
  datatype Config = Config(dec: DecoratorState, child: LeafState)

  /** The state of a newly built decorator. */
  const Fresh: DecoratorState := DecoratorState(Invalid, "", None, None)

  /** The tick of the scripted leaf: initialise when entered from a
      non-RUNNING status, update, coerce the reply, and take the result as
      its status (stopping a leaf only sets its status). */
  function LeafTick(c: LeafState): LeafState
  {
    c.(status := Coerce(c.reply),
       initialisations := if c.status != Running then c.initialisations + 1 else c.initialisations,
       updates := c.updates + 1)
  }

  /** `initialise`: Timeout records its deadline and clears its feedback;
      every other decorator keeps the default, which does nothing. */
  function Initialise(k: Kind, d: DecoratorState, now: int): DecoratorState
  {
    if k.Timeout? then d.(finishTime := Some(now + k.duration), feedback := "") else d
  }

  /** `terminate`: OneShot latches SUCCESS the first time it terminates with
      SUCCESS; every other call changes nothing. */
  function Terminate(k: Kind, d: DecoratorState, s: Status): DecoratorState
  {
    if k.OneShot? && d.finalStatus.None? && s == Success
    then d.(feedback := "oneshot completed", finalStatus := Some(Success))
    else d
  }

  /** `stop(s)`: terminate, invalidate the child when `s` is INVALID or when
      the child is still RUNNING, and take `s` as the decorator's status. */
  function Stop(k: Kind, cfg: Config, s: Status): (r: Config)
    ensures r.dec.status == s
    ensures r.child.status != Running
    ensures s == Invalid || cfg.child.status == Running ==> r.child.status == Invalid
    ensures s != Invalid && cfg.child.status != Running ==> r.child == cfg.child
    ensures r.child == cfg.child.(status := r.child.status)
  {
    var d := Terminate(k, cfg.dec, s);
    var c := if s == Invalid then cfg.child.(status := Invalid) else cfg.child;
    var c' := if c.status == Running then c.(status := Invalid) else c;
    Config(d.(status := s), c')
  }

  /** Timeout's test: the current time is strictly past the deadline. Without
      a deadline the comparison `now > None` of Python 2 is true. */
  predicate TimedOut(now: int, finishTime: Option<int>)
  {
    finishTime.None? || now > finishTime.value
  }

  /** `update` of each concrete decorator, read after the child's tick: the
      status it returns and the configuration after its side effects. */
  function Update(k: Kind, cfg: Config, now: int): (Status, Config)
  {
    var d, c := cfg.dec, cfg.child;
    match k
    case Inverter =>
      (Invert(c.status), Config(d.(feedback := InverterFeedback(c.status, c.feedback)), c))
    case Remapping(rule) =>
      (Remap(rule, c.status), Config(d.(feedback := RemapFeedback(rule, c.status, c.feedback)), c))
    case Condition(target) =>
      (ConditionStatus(target, c.status), cfg)
    case OneShot =>
      (if d.finalStatus.Some? then d.finalStatus.value else c.status, cfg)
    case Timeout(_) =>
      if TimedOut(now, d.finishTime)
      then (Failure, Config(d.(feedback := "timed out"), c.(status := Invalid)))
      else (c.status, cfg)
  }

  /** OneShot after its latch is set: its ticks no longer reach the child. */
  predicate Latched(k: Kind, d: DecoratorState)
  {
    k.OneShot? && d.finalStatus.Some?
  }

  /** `tick` of a decorator. Initialise when entered from a non-RUNNING
      status, tick the child (unless OneShot is latched), update, stop on
      any non-RUNNING result, and take the result as the status. The clock
      is read twice: `start` by `initialise`, before the child's tick, and
      `now` by `update`, after it. */
  function Tick(k: Kind, cfg: Config, start: int, now: int): Config
  {
    var d := if cfg.dec.status != Running then Initialise(k, cfg.dec, start) else cfg.dec;
    var c := if Latched(k, cfg.dec) then cfg.child else LeafTick(cfg.child);
    var (r, u) := Update(k, Config(d, c), now);
    var v := if r != Running then Stop(k, u, r) else u;
    v.(dec := v.dec.(status := r))
  }

  /** What can happen to a decorator between two observations: a tick whose
      two clock readings are `start` and `now`, a `stop` issued by its parent, or a change of what the
      child's scripted `update` will reply. */
  datatype Event =
    | TickAt(start: int, now: int)
    | StopWith(status: Status)
    | Script(reply: Reply, feedback: string)

  function Step(k: Kind, cfg: Config, e: Event): Config
  {
    match e
    case TickAt(start, now) => Tick(k, cfg, start, now)
    case StopWith(s) => Stop(k, cfg, s)
    case Script(reply, feedback) => cfg.(child := cfg.child.(reply := reply, feedback := feedback))
  }

  function Run(k: Kind, cfg: Config, events: seq<Event>): Config
    decreases |events|
  {
    if events == [] then cfg else Run(k, Step(k, cfg, events[0]), events[1..])
  }

  // ---------------------------------------------------------------------
  // One tick

  /** The tick initialises only on entry from a non-RUNNING status: Timeout's
      deadline is reset exactly then, to the entry time plus the duration. */
  lemma TickInitialisesOnlyOnEntry(duration: int, cfg: Config, start: int, now: int)
    ensures Tick(Timeout(duration), cfg, start, now).dec.finishTime ==
            if cfg.dec.status != Running then Some(start + duration) else cfg.dec.finishTime
  {
  }

  /** The child is ticked once per tick, unless OneShot is latched; it is
      initialised only when it was not RUNNING. */
  lemma TickTicksChildOnce(k: Kind, cfg: Config, start: int, now: int)
    ensures var r := Tick(k, cfg, start, now);
            && r.child.updates == cfg.child.updates + (if Latched(k, cfg.dec) then 0 else 1)
            && r.child.initialisations ==
               cfg.child.initialisations + (if !Latched(k, cfg.dec) && cfg.child.status != Running then 1 else 0)
  {
  }

  /** A decorator that concludes (any status but RUNNING) never leaves its
      child RUNNING. */
  lemma TickNeverLeavesChildDangling(k: Kind, cfg: Config, start: int, now: int)
    ensures var r := Tick(k, cfg, start, now);
            r.dec.status != Running ==> r.child.status != Running
  {
  }

  /** A RunningIsSuccess over a blocking child reports SUCCESS but cancels
      the child, so the child is initialised again on the next tick. */
  lemma RunningIsSuccessRestartsBlockingChild(cfg: Config, first: Event, second: Event)
    requires cfg.child.reply == InSet(Running)
    requires first.TickAt? && second.TickAt?
    ensures var k := Remapping(RunningIsSuccess);
            var r1 := Step(k, cfg, first);
            var r2 := Step(k, r1, second);
            && r1.dec.status == Success
            && r1.child.status == Invalid
            && r2.dec.status == Success
            && r2.child.initialisations == r1.child.initialisations + 1
  {
  }

  /** A child reply outside the four statuses reaches the decorator as
      INVALID. */
  lemma OutOfSetReplyBecomesInvalid(k: Kind, cfg: Config, start: int, now: int)
    requires !Latched(k, cfg.dec) && cfg.child.reply == OutOfSet
    ensures Tick(k, cfg, start, now).child.status == Invalid
  {
  }

  /** Timeout past its deadline fails, cancels its child and says so. */
  lemma TimeoutExpires(duration: int, cfg: Config, start: int, now: int)
    requires cfg.dec.status == Running && cfg.dec.finishTime.Some?
    requires now > cfg.dec.finishTime.value
    ensures var r := Tick(Timeout(duration), cfg, start, now);
            && r.dec.status == Failure
            && r.dec.feedback == "timed out"
            && r.child.status == Invalid
  {
  }

  /** The deadline is set before the child's tick and tested after it, so a
      Timeout can fail on the very tick that enters it: whenever more than
      its duration passes while the child is ticked (with duration 0, any
      time at all). */
  lemma TimeoutCanExpireOnEntry(duration: int, cfg: Config, start: int, now: int)
    requires cfg.dec.status != Running
    requires now > start + duration
    ensures var r := Tick(Timeout(duration), cfg, start, now);
            && r.dec.status == Failure
            && r.dec.feedback == "timed out"
            && r.dec.finishTime == Some(start + duration)
            && r.child.status == Invalid
  {
  }

  // ---------------------------------------------------------------------
  // Any run

  /** OneShot's latch only ever holds nothing or SUCCESS. */
  lemma {:induction false} LatchIsUnsetOrSuccess(k: Kind, cfg: Config, events: seq<Event>)
    requires cfg.dec.finalStatus in {None, Some(Success)}
    ensures Run(k, cfg, events).dec.finalStatus in {None, Some(Success)}
    decreases |events|
  {
    if events != [] {
      LatchIsUnsetOrSuccess(k, Step(k, cfg, events[0]), events[1..]);
    }
  }

  /** Once set, the latch never resets. */
  lemma {:induction false} LatchNeverResets(k: Kind, cfg: Config, events: seq<Event>)
    requires cfg.dec.finalStatus.Some?
    ensures Run(k, cfg, events).dec.finalStatus == cfg.dec.finalStatus
    decreases |events|
  {
    if events != [] {
      LatchNeverResets(k, Step(k, cfg, events[0]), events[1..]);
    }
  }

  /** The latch is set only by a OneShot concluding (or being stopped) with
      SUCCESS, which also writes "oneshot completed" as its feedback. */
  lemma LatchSetOnlyBySuccess(k: Kind, cfg: Config, e: Event)
    requires cfg.dec.finalStatus.None?
    requires Step(k, cfg, e).dec.finalStatus.Some?
    ensures var r := Step(k, cfg, e);
            && k.OneShot?
            && r.dec.finalStatus == Some(Success)
            && r.dec.status == Success
            && r.dec.feedback == "oneshot completed"
  {
  }

  /** After the latch is set the child is never ticked or initialised again,
      whatever happens, and every tick reports SUCCESS. */
  lemma {:induction false} LatchedOneShotIgnoresChild(cfg: Config, events: seq<Event>)
    requires cfg.dec.finalStatus == Some(Success)
    ensures var r := Run(OneShot, cfg, events);
            && r.child.updates == cfg.child.updates
            && r.child.initialisations == cfg.child.initialisations
            && (events != [] && events[|events| - 1].TickAt? ==> r.dec.status == Success)
    decreases |events|
  {
    if events != [] {
      var next := Step(OneShot, cfg, events[0]);
      LatchedOneShotIgnoresChild(next, events[1..]);
      if events[1..] == [] {
        assert Run(OneShot, next, events[1..]) == next;
      } else {
        assert events[1..][|events[1..]| - 1] == events[|events| - 1];
      }
    }
  }

  /** Whatever the events, a decorator that is not RUNNING has a child that
      is not RUNNING either. */
  lemma {:induction false} NoDanglingChild(k: Kind, cfg: Config, events: seq<Event>)
    requires cfg.dec.status != Running ==> cfg.child.status != Running
    ensures var r := Run(k, cfg, events);
            r.dec.status != Running ==> r.child.status != Running
    decreases |events|
  {
    if events != [] {
      if events[0].TickAt? {
        TickNeverLeavesChildDangling(k, cfg, events[0].start, events[0].now);
      }
      NoDanglingChild(k, Step(k, cfg, events[0]), events[1..]);
    }
  }

  predicate TicksNoLaterThan(events: seq<Event>, deadline: int)
  {
    forall i :: 0 <= i < |events| ==> events[i].TickAt? && events[i].now <= deadline
  }

  /** A running Timeout whose child keeps replying RUNNING stays RUNNING, with
      the same deadline, for every tick up to and including the deadline. */
  lemma {:induction false} TimeoutHoldsUntilDeadline(duration: int, cfg: Config, events: seq<Event>)
    requires cfg.dec.status == Running && cfg.dec.finishTime.Some?
    requires cfg.child.reply == InSet(Running)
    requires TicksNoLaterThan(events, cfg.dec.finishTime.value)
    ensures var r := Run(Timeout(duration), cfg, events);
            && r.dec.status == Running
            && r.dec.finishTime == cfg.dec.finishTime
            && r.child.reply == InSet(Running)
            && (events != [] ==> r.child.status == Running)
    decreases |events|
  {
    if events != [] {
      var next := Step(Timeout(duration), cfg, events[0]);
      assert next.child.status == Running;
      assert TicksNoLaterThan(events[1..], cfg.dec.finishTime.value) by {
        forall i | 0 <= i < |events[1..]|
          ensures events[1..][i].TickAt? && events[1..][i].now <= cfg.dec.finishTime.value
        {
          assert events[1..][i] == events[i + 1];
        }
      }
      TimeoutHoldsUntilDeadline(duration, next, events[1..]);
    }
  }

  /** The boundary of a Timeout over a child that stays RUNNING: entered at
      time `start`, it reports RUNNING for every tick whose `update` reads a
      time up to `start + duration`, the entering tick included, and the
      first tick after that reports FAILURE and cancels the child. */
  lemma TimeoutBoundary(duration: int, cfg: Config, start: int, now: int, events: seq<Event>, lateStart: int, late: int)
    requires cfg.dec.status != Running
    requires cfg.child.reply == InSet(Running)
    requires now <= start + duration
    requires TicksNoLaterThan(events, start + duration)
    requires late > start + duration
    ensures var entered := Tick(Timeout(duration), cfg, start, now);
            var held := Run(Timeout(duration), entered, events);
            var expired := Tick(Timeout(duration), held, lateStart, late);
            && entered.dec.status == Running
            && held.dec.status == Running
            && expired.dec.status == Failure
            && expired.child.status == Invalid
  {
    var k := Timeout(duration);
    var entered := Tick(k, cfg, start, now);
    assert entered.dec.finishTime == Some(start + duration);
    TimeoutHoldsUntilDeadline(duration, entered, events);
  }
}
