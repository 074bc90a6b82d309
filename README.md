# AnimationAutomata: transition-driven animation dispatch

This is a Dafny model of `AnimationAutomata`. The class is attached to a state
machine and to one Android render target (a `View`). For each transition
(from state, to state) it keeps at most one registered `Animation` and a list
of `AutomataAction`s. When the state machine reports a transition, the class
does the following, in order:

- it drops the report if it carries the issue id it saw last;
- otherwise it records that id and looks up the animation of the transition;
- it cancels the running animation if that one has not ended, and clears the target;
- it hands every action of the transition the automaton, then calls its `onStateChanged`;
- it installs a relay listener on the new animation;
- it starts the new animation on the target.

The relay forwards the animation's start, repeat and end callbacks to the same
action list.

The model is in four modules:

- `Packing` is `makeLong`. It packs two Java `int`s into one `long` key.
  Java `int` and `long` are modelled as 32- and 64-bit two's-complement bit
  patterns, with the sign extension of the `(long)` casts written out.
- `Dispatch` holds the state of an automaton as a value (`Automaton`). It also
  holds one pure function per operation: `WithAction`, `WithAnimation`,
  `Transfer` for `onStateTransferred`, and `Relay` for the relay listener.
  Calls the automaton makes to Android objects and to actions are recorded as
  `Event`s:
  - `cancel` and `clearAnimation`;
  - `setAutomata` and an action callback;
  - `setAnimationListener` and `startAnimation`.
- `DispatchProperties` proves what these functions promise: the issue-id
  guard, the two ways a dispatch stops early, cancel-and-replace, the order in
  which actions are called, one start per dispatch, and what the relay sees.
- `Automata` is the class itself, `AnimationAutomata`. Its fields are updated
  in place. The ghost field `log` collects the outward calls. Each method is proved
  to change the fields and extend the log exactly as the matching `Dispatch`
  function says. Each method also keeps the invariant `Valid()`: every
  installed relay walks an action list that exists.

The relay listener captures the action list *object* of its transition. That
object is created once per key and never replaced or removed. So the model
records, for each animation, only the key whose list its relay walks
(`relays`). At each signal the relay reads `actions[key]` as the list is at
that moment.

`relays` is an ordinary field, not a ghost one. It stands for the listener
that `setAnimationListener` stores on each `Animation`, and the relay methods
branch on it. `log` is ghost: it only records the calls made.

## Behaviour worth knowing

- **A transition with an animation but no action list.** The action loop
  dereferences the missing list (lines 107-108). Any cancel has already been
  issued by then. The call ends with a `NullPointerException`: no action is
  called, nothing is started, and `current` is unchanged
  (`DispatchProperties.MissingActionList`).
- **The relay walks the live list.** The listener captures the list object
  (line 107) and iterates it at each callback (lines 115, 122, 130). Actions
  added to the same transition after the dispatch are called by the relay
  too (`DispatchProperties.RelaySeesLaterActions`).
- **No failure isolation.** Nothing guards one action's call against an
  exception from another. An exception from an action ends the loop.
- **`current` is never reset.** Nothing sets it back to null. It keeps the last
  started animation, whether or not that animation has ended.

## Model

| member | source | states |
|---|---|---|
| Packing.SignExtend | src/org/hanenoshino/uisao/anim/AnimationAutomata.java:166 | the `(long)` cast copies the sign into the upper word; masking the low word, or shifting up and masking the high word, gives back exactly the original 32 bits |
| Packing.MakeLong | src/org/hanenoshino/uisao/anim/AnimationAutomata.java:165-167 | the low word of the key is `low` and the high word is `high`, for negative values too, so the masks undo the sign extension of the casts |
| Packing.MakeLongInjective | src/org/hanenoshino/uisao/anim/AnimationAutomata.java:165-167 | two pairs get the same key only if they are the same pair |
| Packing.MakeLongOrderSensitive | src/org/hanenoshino/uisao/anim/AnimationAutomata.java:165-167 | a transition and its reverse get different keys |
| Packing.MakeLongOnto | src/org/hanenoshino/uisao/anim/AnimationAutomata.java:165-167 | every 64-bit key is the key of the pair made of its two words, so the packing is a bijection |
| Dispatch.KeyOf | src/org/hanenoshino/uisao/anim/AnimationAutomata.java:99 | the map key of a transition carries `from` in its low word and `to` in its high word |
| DispatchProperties.KeyOfInjective | src/org/hanenoshino/uisao/anim/AnimationAutomata.java:99 | the map key a transition is looked up under belongs to that transition only |
| Dispatch.Notify | src/org/hanenoshino/uisao/anim/AnimationAutomata.java:108-111 | one pass of the action loop makes exactly two calls per list entry |
| DispatchProperties.NotifyAt | src/org/hanenoshino/uisao/anim/AnimationAutomata.java:108-111 | the action at position i is handed the automaton by call 2i and receives the callback by call 2i+1 |
| DispatchProperties.ReceiversOfNotify | src/org/hanenoshino/uisao/anim/AnimationAutomata.java:108-111 | the actions receiving the callback are exactly the list, in list order, duplicates included |
| Dispatch.Initial | src/org/hanenoshino/uisao/anim/AnimationAutomata.java:27-39 | a new automaton has no registered animation, no action list, and no relay without a list |
| Dispatch.WithAction | src/org/hanenoshino/uisao/anim/AnimationAutomata.java:69-78 | the transition's list becomes the old list (empty if absent) plus the action at its end; the other lists and all other fields are unchanged |
| Dispatch.WithAnimation | src/org/hanenoshino/uisao/anim/AnimationAutomata.java:89-93 | the transition's animation becomes `anim` and replaces any earlier one (null included); the other entries and all other fields are unchanged |
| DispatchProperties.DuplicateActionsKept | src/org/hanenoshino/uisao/anim/AnimationAutomata.java:69-78 | adding the same action twice keeps two entries, and a dispatch calls it twice |
| Dispatch.Transfer | src/org/hanenoshino/uisao/anim/AnimationAutomata.java:95-140 | every call records its issue id; the target, animations and action lists are never changed; only `current` and the relays can change besides `lastIssue`; NoTargetFoundException is thrown exactly when the guard passes, an animation is registered and no target is bound; the relay invariant is kept |
| Dispatch.CancelCalls | src/org/hanenoshino/uisao/anim/AnimationAutomata.java:103-106 | the running animation is cancelled and the target cleared exactly when it exists and has not ended; cancel comes first |
| Dispatch.Animate | src/org/hanenoshino/uisao/anim/AnimationAutomata.java:103-138 | completes normally exactly when the action list exists, and otherwise throws NullPointerException with the state unchanged; on completion `current` is the new animation, the relay for its key is installed and the start is the last call; the cancel calls come first in every case; the relay invariant is kept |
| DispatchProperties.RedeliveryIgnored | src/org/hanenoshino/uisao/anim/AnimationAutomata.java:96-97 | every call records its issue id, however it ends; a second call with the same id changes nothing and calls nothing |
| DispatchProperties.RepeatedIssueDropped | src/org/hanenoshino/uisao/anim/AnimationAutomata.java:96 | a call with the last recorded issue id changes nothing and calls nothing, whatever was registered since |
| DispatchProperties.FirstIssueZeroDropped | src/org/hanenoshino/uisao/anim/AnimationAutomata.java:30 | since `lastIssue` starts at 0, a first transition with issue id 0 is dropped |
| DispatchProperties.UnregisteredTransition | src/org/hanenoshino/uisao/anim/AnimationAutomata.java:99-101 | with no (or a null) animation for the transition, only `lastIssue` changes and no call is made |
| DispatchProperties.MissingTarget | src/org/hanenoshino/uisao/anim/AnimationAutomata.java:102 | with an animation but no target, the call throws NoTargetFoundException before any cancel, callback or start; the issue id is already recorded |
| DispatchProperties.MissingActionList | src/org/hanenoshino/uisao/anim/AnimationAutomata.java:103-108 | with an animation and a target but no list, the call throws NullPointerException after the cancel; no action is called, nothing is started, `current` and the relays are unchanged |
| DispatchProperties.DispatchShape | src/org/hanenoshino/uisao/anim/AnimationAutomata.java:103-138 | a complete dispatch issues cancels, then the action loop, then the relay installation, then the start; `current` becomes the new animation |
| DispatchProperties.Dispatched | src/org/hanenoshino/uisao/anim/AnimationAutomata.java:103-138 | in a complete dispatch, action i is handed the automaton and then notified at fixed positions after the cancels; the relay is installed and the animation started as the last two calls; the actions notified are exactly the list |
| DispatchProperties.CancelBeforeReplace | src/org/hanenoshino/uisao/anim/AnimationAutomata.java:103-106 | an unfinished running animation is cancelled and the target cleared as the first two calls; an ended or absent one is never cancelled |
| DispatchProperties.AtMostOneStart | src/org/hanenoshino/uisao/anim/AnimationAutomata.java:95-140 | a call starts exactly one animation if it gets past the guard and finds an animation, a target and a list, and none otherwise |
| DispatchProperties.WithActionKeepsRelaysBound | src/org/hanenoshino/uisao/anim/AnimationAutomata.java:69-78 | adding an action never removes a list a relay walks |
| DispatchProperties.WithAnimationKeepsRelaysBound | src/org/hanenoshino/uisao/anim/AnimationAutomata.java:89-93 | registering an animation leaves the lists and the relays untouched |
| Dispatch.Relay | src/org/hanenoshino/uisao/anim/AnimationAutomata.java:112-136 | an animation without the relay forwards nothing; one with it makes two calls per entry of its list as the list is now |
| DispatchProperties.RelayAfterDispatch | src/org/hanenoshino/uisao/anim/AnimationAutomata.java:112-137 | right after a dispatch, the relay of the new current animation walks the list of the dispatched transition |
| DispatchProperties.RelaySeesLaterActions | src/org/hanenoshino/uisao/anim/AnimationAutomata.java:107-119 | the relay holds the live list: an action added later to its transition is called by the relay too, after the others |
| DispatchProperties.RelayIgnoresOtherTransitions | src/org/hanenoshino/uisao/anim/AnimationAutomata.java:107-136 | actions added to another transition never reach the relay |
| DispatchProperties.RelayOrder | src/org/hanenoshino/uisao/anim/AnimationAutomata.java:114-134 | for each relayed callback, every action of the list is handed the automaton and then called, in list order; nothing else is called |
| Automata.AnimationAutomata.constructor | src/org/hanenoshino/uisao/anim/AnimationAutomata.java:27-39 | no target, `lastIssue` 0, no animations, no actions, no current animation, no relays, no call made |
| Automata.AnimationAutomata.SetTarget | src/org/hanenoshino/uisao/anim/AnimationAutomata.java:41-44 | binds the target; nothing else changes |
| Automata.AnimationAutomata.Target | src/org/hanenoshino/uisao/anim/AnimationAutomata.java:46-48 | returns the bound target (null when none) |
| Automata.AnimationAutomata.AddAction | src/org/hanenoshino/uisao/anim/AnimationAutomata.java:69-78 | the new state is `WithAction` of the old one: the list is created when absent and the action appended |
| Dispatch.AutomataAction.Wrap | src/org/hanenoshino/uisao/anim/AnimationAutomata.java:58 | the new action wraps the given listener (null included) |
| Automata.AnimationAutomata.AddListener | src/org/hanenoshino/uisao/anim/AnimationAutomata.java:57-60 | appends a new action wrapping the listener, as `addAction` does |
| Automata.AnimationAutomata.SetAnimation | src/org/hanenoshino/uisao/anim/AnimationAutomata.java:89-93 | the new state is `WithAnimation` of the old one |
| Automata.AnimationAutomata.NotifyEach | src/org/hanenoshino/uisao/anim/AnimationAutomata.java:108-111 | the loop appends exactly the calls `Notify` gives for the list |
| Automata.AnimationAutomata.OnStateTransferred | src/org/hanenoshino/uisao/anim/AnimationAutomata.java:95-140 | the new fields, the calls made and the way the call ends are those of `Transfer` on the old fields; the relay invariant is kept |
| Automata.AnimationAutomata.Animate | src/org/hanenoshino/uisao/anim/AnimationAutomata.java:103-138 | once an animation and a target are found, the fields, calls and ending are those of `Dispatch.Animate` |
| Automata.AnimationAutomata.Signal | src/org/hanenoshino/uisao/anim/AnimationAutomata.java:112-136 | a signal on an animation appends exactly the calls `Relay` gives for the list as it is now; none for an animation without a relay |
| Automata.AnimationAutomata.RelayEnd | src/org/hanenoshino/uisao/anim/AnimationAutomata.java:114-119 | `onAnimationEnd` forwards to every action of the relay's list |
| Automata.AnimationAutomata.RelayStart | src/org/hanenoshino/uisao/anim/AnimationAutomata.java:121-127 | `onAnimationStart` forwards to every action of the relay's list |
| Automata.AnimationAutomata.RelayRepeat | src/org/hanenoshino/uisao/anim/AnimationAutomata.java:129-134 | `onAnimationRepeat` forwards to every action of the relay's list |

## Left out

- The `StateIO` pass-throughs (`gotoState`, `currentState`, the sublevel
  operations, lines 143-162), the `runner` field and the `refer` factory
  (lines 20-25). They only delegate to `StateRunner`, which is not part of
  this model.
- Android's `View` and `Animation` are opaque objects. `cancel`,
  `clearAnimation`, `setAnimationListener` and `startAnimation` are recorded as
  events. Their effects inside Android are not modelled.
- `hasEnded()` is modelled by the parameter `ended` of `OnStateTransferred`:
  the set of animations that report having ended during the call.
- The animation engine's callbacks are modelled as separate calls to
  `RelayStart`, `RelayRepeat` and `RelayEnd`. A callback that the engine makes
  from inside `cancel` or `startAnimation` is not nested in the model's
  `OnStateTransferred`.
- The bodies of `AutomataAction` and `AnimationListener` are not part of this
  model. Their calls are recorded as events. An action is assumed not to call
  back into the automaton while it is being notified. The model therefore does
  not cover re-entrant transitions or the ConcurrentModificationException that
  `addAction` during a loop would raise in Java.
- Exceptions thrown by actions are not modelled. The code would let them abort
  the loop.
- Automata.AnimationAutomata.AddAction: takes a non-null action. Adding a null
  action in Java stores a null entry, which the later loop would dereference;
  the model does not cover that.
- The `return this` of the chaining setters (`target(View)`, `addAction`,
  `setAnimation`) is not modelled.
- Threading is not modelled. The class is not synchronised, and every call is
  taken to happen on one thread.
