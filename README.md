# Behaviour-tree decorators and docking-station semantics, in Dafny

This project models two parts of a Python behaviour-tree code base.

**The decorator layer of py_trees** (`py_trees/decorators.py`). A decorator wraps exactly
one child behaviour. On each tick it runs a fixed lifecycle:

- it calls `initialise` when entered from a non-RUNNING status;
- it ticks the child;
- it calls `update`;
- it calls `stop` on any non-RUNNING result;
- it reports the nodes it visited, itself last.

The model has these parts:

- `common.dfy` (module `Common`): the closed set of statuses and the replies a hook can give.
- `decorator_rules.dfy` (module `DecoratorRules`): the status maps of Inverter, the six
  X-is-Y decorators and Condition, as pure functions with lemmas, and the auto-generated name.
- `lifecycle.dfy` (module `Lifecycle`): `initialise`, `terminate`, `stop`, `update` and `tick`
  as functions over a value holding a decorator and its child. Lemmas over any run of
  ticks, parent stops and child re-scripting prove the lifecycle invariants: the OneShot
  latch, the Timeout deadline, and "no dangling RUNNING child".
- `decorators.dfy` (module `Decorators`): the objects. `Leaf` is the child, a leaf
  behaviour whose `update` and `setup` replies are scripted fields. `Decorator` is a class
  holding `status`, `feedbackMessage`, `finalStatus` (OneShot) and `finishTime` (Timeout),
  with a `kind` tag for the concrete class. `Initialise`, `Terminate`, `Stop`, `Update` and
  `Tick` are each proved to change the decorator and its child exactly as the function of
  the same name in `Lifecycle` says. The constructor, `Create`, `Setup` and `Tip` have no
  `Lifecycle` counterpart and state their effect directly in their contracts.

**The docking-station repository of gopher_semantics**
(`gopher_semantics/src/gopher_semantics/docking_stations.py`, module
`DockingStationSemantics`). It is a map from station name to a station, which is three
integer marker ids and a pose. It is loaded from a yaml object, searched by marker ids
and flattened into a message list. The class `DockingStations` holds the map. Its
constructor and both operations are loops over the map. The constructor is proved to
build exactly `Loaded` of the yaml object, and the search to return exactly `Matching`
of the repository. The message list is proved against the map itself: a ghost list of
the names it was taken from is a permutation of the map's keys, and each element is
the station stored under its name.

Time is an integer parameter. The clock is not modelled. A decorator's tick takes two
clock readings, which only Timeout uses; the other decorators ignore both. Timeout's
`initialise` reads `start` before the child is ticked, and its `update` reads `now`
after it. So a Timeout can fail on the very tick that enters it.

Three details of the code that the model keeps as written:

- Timeout fails only when `now > finish_time`. A tick exactly at the deadline still
  passes the child's status through. So a Timeout of duration D over a RUNNING child
  fails once more than D has elapsed, not at D.
- `stop(INVALID)` invalidates the child unconditionally, not only when it is RUNNING.
- A non-behaviour child raises a Python `TypeError` (`ChildNotABehaviour`).

## Model

| member | source | states |
|---|---|---|
| `DecoratorRules.DecoratorName` | py_trees/decorators.py:104-106 | a given non-empty string is kept; otherwise the name is the class name, a newline, and the child's name in brackets; the name is never empty |
| `DecoratorRules.ConditionStatus` | py_trees/decorators.py:477-479 | Condition reports SUCCESS iff the child's status equals the awaited status, RUNNING otherwise, and never FAILURE or INVALID |
| `DecoratorRules.InvertSwapsOutcomes` | py_trees/decorators.py:321-328 | Inverter turns SUCCESS into FAILURE and FAILURE into SUCCESS (both directions), and passes RUNNING and INVALID through |
| `DecoratorRules.InvertTwiceIsIdentity` | py_trees/decorators.py:321-328 | inverting twice gives back the original status |
| `DecoratorRules.RemapChangesExactlyFrom` | py_trees/decorators.py:331-443 | each X-is-Y decorator turns X into Y, leaves every other status unchanged, and never reports X |
| `DecoratorRules.RemapIdempotent` | py_trees/decorators.py:331-443 | an X-is-Y status map applied to its own result gives that result again |
| `DecoratorRules.InverterConjugatesRemap` | py_trees/decorators.py:313-443 | an X-is-Y status map, with `Invert` applied to its input and to its output, is the status map of the mirrored rule (SuccessIsFailure becomes FailureIsSuccess) |
| `DecoratorRules.RemapRange` | py_trees/decorators.py:331-443 | an X-is-Y decorator can report exactly the statuses other than X |
| `Lifecycle.Stop` | py_trees/decorators.py:159-174 | after `stop(s)` the status is `s` and the child is not RUNNING; the child is invalidated when `s` is INVALID or the child was RUNNING, and is untouched otherwise |
| `Lifecycle.TickInitialisesOnlyOnEntry` | py_trees/decorators.py:143-144 | a tick resets Timeout's deadline to the time `initialise` reads plus the duration exactly when the status on entry is not RUNNING, and keeps it otherwise |
| `Lifecycle.TickTicksChildOnce` | py_trees/decorators.py:272-285 | each tick updates the child once, and initialises it only when it was not RUNNING, except when OneShot is latched, where the child is not touched |
| `Lifecycle.TickNeverLeavesChildDangling` | py_trees/decorators.py:154-157 | after a tick whose result is not RUNNING, the child is not RUNNING |
| `Lifecycle.RunningIsSuccessRestartsBlockingChild` | py_trees/decorators.py:54-59 | RunningIsSuccess over a RUNNING child reports SUCCESS and invalidates the child, so the child is initialised again on the next tick |
| `Lifecycle.OutOfSetReplyBecomesInvalid` | py_trees/decorators.py:150-153 | an update reply outside the four statuses becomes INVALID |
| `Lifecycle.TimeoutExpires` | py_trees/decorators.py:230-236 | a tick strictly after the deadline reports FAILURE, writes "timed out" and invalidates the child |
| `Lifecycle.TimeoutHoldsUntilDeadline` | py_trees/decorators.py:225-240 | over any ticks no later than the deadline, a running Timeout over a RUNNING child stays RUNNING and keeps its deadline |
| `Lifecycle.TimeoutCanExpireOnEntry` | py_trees/decorators.py:219-236 | the deadline is set from the first clock reading and tested against the second, so a Timeout whose `update` reads a time past `start + duration` fails on its entering tick, writes "timed out" and invalidates the child |
| `Lifecycle.TimeoutBoundary` | py_trees/decorators.py:219-240 | entered at `start`, a Timeout over a RUNNING child reports RUNNING for every tick whose `update` reads a time up to `start + duration`, the entering tick included, and FAILURE, with the child invalidated, for the first tick after it |
| `Lifecycle.LatchIsUnsetOrSuccess` | py_trees/decorators.py:287-295 | over any run, OneShot's `final_status` is only ever None or SUCCESS |
| `Lifecycle.LatchNeverResets` | py_trees/decorators.py:292-295 | over any run, a set latch stays set |
| `Lifecycle.LatchSetOnlyBySuccess` | py_trees/decorators.py:287-297 | the latch is set only on a OneShot terminating with SUCCESS, which also sets the feedback to "oneshot completed" |
| `Lifecycle.LatchedOneShotIgnoresChild` | py_trees/decorators.py:263-285 | once latched, OneShot never ticks or initialises its child again, and each tick reports SUCCESS |
| `Lifecycle.NoDanglingChild` | py_trees/decorators.py:159-174 | over any run of ticks and stops, a decorator that is not RUNNING never has a RUNNING child |
| `Decorators.Decorator.constructor` | py_trees/decorators.py:101-112 | the children are exactly `[child]`, `decorated` is the child, the child's parent is the decorator, the name is derived as `DecoratorName` says, and the status is INVALID |
| `Decorators.Decorator.Create` | py_trees/decorators.py:101-112 | an argument that is not a behaviour is refused with a TypeError; anything else yields a fresh decorator over it with the derived name, and the child's only change is its parent link (its state, setup reply and setup count are kept) |
| `Decorators.Decorator.Setup` | py_trees/decorators.py:114-131 | setup is relayed to the child exactly once; its boolean result is returned unchanged and a non-boolean result is a TypeError |
| `Decorators.Decorator.Initialise` | py_trees/decorators.py:219-224 | Timeout sets `finish_time` to now plus its duration and clears its feedback; other decorators change nothing |
| `Decorators.Decorator.Terminate` | py_trees/decorators.py:287-297 | OneShot latches SUCCESS the first time it terminates with SUCCESS; nothing else changes |
| `Decorators.Decorator.Stop` | py_trees/decorators.py:159-174 | the decorator and child change exactly as `Lifecycle.Stop` says |
| `Decorators.Decorator.Update` | py_trees/decorators.py:225-479 | each concrete update returns its status map of the child's status and writes its feedback; Timeout past its deadline invalidates the child |
| `Decorators.Decorator.Tick` | py_trees/decorators.py:133-157 | the decorator and child change exactly as `Lifecycle.Tick` says, with `initialise` reading `start` and `update` reading `now`; the visited nodes are the child, unless OneShot is latched, then the decorator itself, once and last |
| `Decorators.Decorator.Tip` | py_trees/decorators.py:176-188 | the tip is the child while the child is not INVALID; otherwise it is the decorator unless that is INVALID, in which case there is none |
| `Decorators.Leaf.Tip` | tests/test_tree.py:353-367 | a leaf has no tip while INVALID and is its own tip otherwise |
| `Decorators.TipBeforeFirstTickIsNone` | tests/test_tree.py:353-356 | a decorator never ticked, over a child never ticked, has no tip |
| `Decorators.TipEndsAtActiveLeaf` | py_trees/decorators.py:185-186 | while the child is not INVALID, the decorator's tip is the child, whose own tip is itself |
| `Decorators.TipAfterTickOverRunningChild` | tests/test_tree.py:358-366 | after a tick in which the child replied RUNNING, the tip is that running child while the decorator is RUNNING, and the decorator itself once it has concluded and cancelled the child |
| `DockingStationSemantics.DockingStations.FromYamlObject` | gopher_semantics/src/gopher_semantics/docking_stations.py:68-80 | the repository is exactly the complete entries of the yaml object, each under its own name |
| `DockingStationSemantics.LoadedKeepsCompleteEntries` | gopher_semantics/src/gopher_semantics/docking_stations.py:69-78 | an entry with all six fields is stored under its name as the station it describes |
| `DockingStationSemantics.LoadedSkipsIncompleteEntries` | gopher_semantics/src/gopher_semantics/docking_stations.py:69-80 | an entry missing a field is not stored, and dropping it changes no other entry |
| `DockingStationSemantics.DockingStations.FindWithArMarkerId` | gopher_semantics/src/gopher_semantics/docking_stations.py:103-130 | the result is exactly the stations passing every active filter, under their names |
| `DockingStationSemantics.MatchingIsSubMap` | gopher_semantics/src/gopher_semantics/docking_stations.py:114-130 | every returned name maps to the same station as in the repository |
| `DockingStationSemantics.MatchingIsSound` | gopher_semantics/src/gopher_semantics/docking_stations.py:116-126 | each returned station has the requested id in every slot whose filter is truthy, and carries every id of the list among its three ids |
| `DockingStationSemantics.MatchingIsComplete` | gopher_semantics/src/gopher_semantics/docking_stations.py:115-128 | every station satisfying all active filters is returned |
| `DockingStationSemantics.FalsyFilterIsIgnored` | gopher_semantics/src/gopher_semantics/docking_stations.py:116-121 | a primary, left or right filter that is None or 0 imposes no constraint: the search equals the one without that filter |
| `DockingStationSemantics.NoFiltersReturnsEverything` | gopher_semantics/src/gopher_semantics/docking_stations.py:114-130 | with no filters and an empty id list the result is the whole repository |
| `DockingStationSemantics.DockingStations.ToMsg` | gopher_semantics/src/gopher_semantics/docking_stations.py:96-101 | the list holds one station per repository entry, each equal to that entry's station; its length is the repository's size and its elements are exactly the repository's values |
| `DockingStationSemantics.ZeroMarkerIdIsNotSearchable` | gopher_semantics/src/gopher_semantics/docking_stations.py:116 | as written, searching for primary id 0 returns a station whose primary id is 3 |
| `DockingStationSemantics.IntendedMatchingHonoursZero` | gopher_semantics/src/gopher_semantics/docking_stations.py:103-108 | with "given" instead of "truthy" filters, every given id, 0 included, is honoured; the result equals the search as written whenever no given id is 0 |

## Left out

- The base `Behaviour` class, composites (`Sequence`, `Selector`) and the tree manager are not part of this model. The decorator's child is a scripted leaf (`Decorators.Leaf`) whose tick follows the behaviour tick protocol. So decorators over decorators or over composites are not modelled.
- Python generators: a tick returns the whole list of visited nodes at once. It does not yield them lazily.
- Wall-clock time: each `time.time()` call is replaced by a parameter, `start` for the one in Timeout's `initialise` and `now` for the one in its `update`. The model does not require `start <= now`. Time and the Timeout duration are integers, not floats. The constructor defaults (duration 5.0 seconds, Condition awaiting SUCCESS) are left to the caller.
- Feedback messages that format a float or a `Status` object are left out, and the feedback stays as it was in those branches. These are Timeout's message while not timed out (decorators.py:239) and Condition's message (decorators.py:476). All other feedback messages are modelled as strings.
- Logging calls are diagnostics only and are not modelled.
- The decorator's own coercion of an out-of-set `update` result (decorators.py:151-153) cannot fire in the model, because every modelled decorator `update` returns one of the four statuses. The child's tick applies the same rule (`Common.Coerce` in `Lifecycle.LeafTick`), as `Lifecycle.OutOfSetReplyBecomesInvalid` shows.
- `Decorators.Decorator.Create`: a non-behaviour argument is any non-`Leaf` object or null; Python values that are not objects cannot be passed.
- Docking stations: the ROS parameter-server lookup, `rospy.logwarn`, `spin` and the coloured `__str__` are I/O and are not modelled. The pose is carried as three reals and never examined.
- `DockingStationSemantics.DockingStations.FromYamlObject`: a yaml entry is modelled with typed optional fields, so only missing keys (Python `KeyError`, skipped) can occur. A value of the wrong type is not representable. An example is a `pose` that is not a mapping, which in Python raises an uncaught `TypeError`.
- `DockingStationSemantics.DockingStations.ToMsg`: Python's dictionary iteration order is not modelled. The result is stated up to the order of entries, through the ghost list of names it came from.

## Findings

| source | as written | input that shows it | evidently intended | confidence | as-written member | corrected member |
|---|---|---|---|---|---|---|
| gopher_semantics/src/gopher_semantics/docking_stations.py:116-121 | a slot filter applies only when truthy, so marker id 0 is treated as "no filter" although 0 is a valid id (the class docstring's own example station has `primary_id: 0`) | repository `{"0": primary 0, "1": primary 3}`, search `primary=0`: station "1" is returned | filter whenever an id is given (`is not None`) | medium; not executed | `DockingStationSemantics.ZeroMarkerIdIsNotSearchable` | `DockingStationSemantics.IntendedMatchingHonoursZero` |

`DockingStationSemantics.DockingStations.FindWithArMarkerId` keeps the code's behaviour.
`DockingStationSemantics.IntendedMatching` gives the corrected search beside it.
