/** The state of an AnimationAutomata and what one call of each of its
    operations does to it, as pure functions. The class in module `Automata`
    is proved to behave as these functions say; module `DispatchProperties`
    proves what they promise.

    Android's `View` and `Animation` and the automaton's actions are opaque
    objects here. What the automaton asks of them (cancel, clearAnimation,
    setAutomata, the callbacks, setAnimationListener, startAnimation) is
    recorded as a sequence of `Event`s, the outward calls, in the order issued. */
module Dispatch {
  import opened Packing

  /** The `Long` that a packed transition becomes when it is used as a HashMap key. */
  datatype Key = Key(bits: Int64)

  /** The key of the transition from state `from` to state `to`: `makeLong(from, to)`. */
  function KeyOf(from: Int32, to: Int32): (key: Key)
    ensures LowWord(key.bits) == from && HighWord(key.bits) == to
  {
    Key(MakeLong(from, to))
  }

  /** An Android render target. */
  class View { }

  /** An Android animation handle. */
  class Animation { }

  /** A bare Android `AnimationListener`. */
  class AnimationListener { }

  /** An action notified of a transition and of its animation's lifecycle. */
  class AutomataAction {
    /** The listener this action wraps, when it was built from one. */
    const wrapped: AnimationListener?

    /** `new AutomataAction(listener)`. */
    constructor Wrap(listener: AnimationListener?)
      ensures wrapped == listener
    {
      wrapped := listener;
    }
  }

  /** The callbacks of an action, with their arguments. */
  datatype Callback =
    | StateChanged(before: Int32, after: Int32)
    | AnimationStart(animation: Animation)
    | AnimationRepeat(animation: Animation)
    | AnimationEnd(animation: Animation)

  /** One outward call issued by the automaton. */
  datatype Event =
    | Cancel(animation: Animation)                       // animation.cancel()
    | ClearAnimation(view: View)                         // view.clearAnimation()
    | SetAutomata(action: AutomataAction)                // action.setAutomata(this)
    | Invoke(action: AutomataAction, callback: Callback) // action.onXxx(...)
    | SetAnimationListener(animation: Animation, key: Key) // installs the relay for key
    | StartAnimation(view: View, animation: Animation)   // view.startAnimation(animation)

  /** The exceptions `onStateTransferred` can end with. */
  datatype Exception =
    | NoTargetFoundException
    | NullPointerException   // the action list for the key was never created

  datatype Completion = Returned | Threw(exception: Exception)

  /** The fields of an AnimationAutomata. `relays` records, for each animation
      that received the automaton's relay listener, the key whose action list
      that listener iterates. The list stored for a key is never replaced or
      removed once created, so the list object the listener captured is
      always `actions[key]`, with every action appended to it since. */
  datatype Automaton = Automaton(
    target: View?,
    lastIssue: Int32,
    animations: map<Key, Animation?>,
    actions: map<Key, seq<AutomataAction>>,
    current: Animation?,
    relays: map<Animation, Key>)

  /** A freshly constructed automaton: no transition is registered, no
      action list exists, and the relay invariant holds. */
  function Initial(): (s: Automaton)
    ensures RelaysBound(s)
    ensures forall key :: !Registered(s, key) && ChainOf(s, key) == []
  {
    Automaton(null, 0, map[], map[], null, map[])
  }

  /** Every installed relay iterates a list that exists. */
  predicate RelaysBound(s: Automaton)
  {
    forall a :: a in s.relays ==> s.relays[a] in s.actions
  }

  /** The action list for a key, or the empty list where none was created. */
  function ChainOf(s: Automaton, key: Key): seq<AutomataAction>
  {
    if key in s.actions then s.actions[key] else []
  }

  /** `animations.get(key) != null`. */
  predicate Registered(s: Automaton, key: Key)
  {
    key in s.animations && s.animations[key] != null
  }

  /** One pass of the `for (AutomataAction a : action)` loop of `onStateTransferred`:
      every action, in list order, is handed the automaton and then called. */
  function Notify(chain: seq<AutomataAction>, cb: Callback): (calls: seq<Event>)
    ensures |calls| == 2 * |chain|
  {
    if chain == [] then []
    else [SetAutomata(chain[0]), Invoke(chain[0], cb)] + Notify(chain[1..], cb)
  }

  /** `addAction(from, to, action)` on the key `key`. */
  function WithAction(s: Automaton, key: Key, action: AutomataAction): (t: Automaton)
    ensures key in t.actions && t.actions[key] == ChainOf(s, key) + [action]
    ensures forall k :: k != key ==> ChainOf(t, k) == ChainOf(s, k) && (k in t.actions <==> k in s.actions)
    ensures t.(actions := s.actions) == s
  {
    var list := if key in s.actions then s.actions[key] else [];
    s.(actions := s.actions[key := list + [action]])
  }

  /** `setAnimation(from, to, anim)` on the key `key`. */
  function WithAnimation(s: Automaton, key: Key, anim: Animation?): (t: Automaton)
    ensures key in t.animations && t.animations[key] == anim
    ensures forall k :: k != key ==>
      (k in t.animations <==> k in s.animations) && (k in s.animations ==> t.animations[k] == s.animations[k])
    ensures t.(animations := s.animations) == s
  {
    s.(animations := s.animations[key := anim])
  }

  /** What one call of `onStateTransferred` leaves behind. */
  datatype Outcome = Outcome(next: Automaton, calls: seq<Event>, completion: Completion)

  /** The calls that cancel the running animation, if it has not ended. */
  function CancelCalls(s: Automaton, view: View, ended: set<Animation>): (calls: seq<Event>)
    ensures calls != [] <==> s.current != null && s.current !in ended
    ensures calls != [] ==> |calls| == 2 && calls[0] == Cancel(s.current) && calls[1] == ClearAnimation(view)
  {
    if s.current != null && s.current !in ended then [Cancel(s.current), ClearAnimation(view)] else []
  }

  /** What `onStateTransferred` does once it has found the animation `anim`
      for the transition and the bound target `view`: cancel an unfinished
      running animation, call the actions, install the relay, start `anim`. */
  function Animate(s: Automaton, before: Int32, after: Int32, anim: Animation, view: View, ended: set<Animation>): (o: Outcome)
    ensures o.completion == Returned <==> KeyOf(before, after) in s.actions
    ensures o.completion != Returned ==> o.completion == Threw(NullPointerException) && o.next == s
    ensures o.completion == Returned ==>
      && o.next == s.(current := anim, relays := s.relays[anim := KeyOf(before, after)])
      && |o.calls| >= 2 && o.calls[|o.calls| - 1] == StartAnimation(view, anim)
    ensures |CancelCalls(s, view, ended)| <= |o.calls| && o.calls[..|CancelCalls(s, view, ended)|] == CancelCalls(s, view, ended)
    ensures RelaysBound(s) ==> RelaysBound(o.next)
  {
    var key := KeyOf(before, after);
    var cancels := CancelCalls(s, view, ended);
    if key !in s.actions then Outcome(s, cancels, Threw(NullPointerException))
    else
      Outcome(s.(current := anim, relays := s.relays[anim := key]),
              cancels + Notify(s.actions[key], StateChanged(before, after))
                + [SetAnimationListener(anim, key), StartAnimation(view, anim)],
              Returned)
  }

  /** `onStateTransferred(before, after, issueId)`; `ended` is the set of
      animations whose `hasEnded()` answers true at the time of the call. */
  function Transfer(s: Automaton, before: Int32, after: Int32, issueId: Int32, ended: set<Animation>): (o: Outcome)
    ensures o.next.lastIssue == issueId
    ensures o.next.(lastIssue := s.lastIssue, current := s.current, relays := s.relays) == s
    ensures o.completion == Threw(NoTargetFoundException)
      <==> s.lastIssue != issueId && Registered(s, KeyOf(before, after)) && s.target == null
    ensures RelaysBound(s) ==> RelaysBound(o.next)
  {
    if s.lastIssue == issueId then Outcome(s, [], Returned)
    else
      var s' := s.(lastIssue := issueId);
      var key := KeyOf(before, after);
      if !Registered(s, key) then Outcome(s', [], Returned)
      else if s.target == null then Outcome(s', [], Threw(NoTargetFoundException))
      else Animate(s', before, after, s.animations[key], s.target, ended)
  }

  /** The calls the relay listener installed on `anim` makes when the
      animation engine signals `cb`: it walks the list for its key as that
      list is at the time of the signal. */
  function Relay(s: Automaton, anim: Animation, cb: Callback): (calls: seq<Event>)
    requires RelaysBound(s)
    ensures anim !in s.relays ==> calls == []
    ensures anim in s.relays ==> |calls| == 2 * |s.actions[s.relays[anim]]|
  {
    if anim in s.relays then Notify(s.actions[s.relays[anim]], cb) else []
  }
}
