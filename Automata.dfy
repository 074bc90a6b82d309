/** The AnimationAutomata class: its fields, updated in place by its
    registration methods and by `onStateTransferred`, and the relay listener
    it installs on each animation it starts. Every method is proved to do
    what the matching function of module `Dispatch` says, and to keep the
    class invariant `Valid()`.

    `log` is the sequence of outward calls (to the target, to animations, to
    actions) issued so far; each method says what it appends to it. */
module Automata {
  import opened Packing
  import opened Dispatch
  import opened DispatchProperties

  class AnimationAutomata {
    var target: View?
    var lastIssue: Int32
    var animations: map<Key, Animation?>
    var actions: map<Key, seq<AutomataAction>>
    var current: Animation?
    /** The relay listener each animation currently holds, by the key whose list it walks. */
    var relays: map<Animation, Key>
    ghost var log: seq<Event>

    /** The fields as one value. */
    function State(): Automaton
      reads this
    {
      Automaton(target, lastIssue, animations, actions, current, relays)
    }

    predicate Valid()
      reads this
    {
      RelaysBound(State())
    }

    constructor ()
      ensures Valid() && State() == Initial() && log == []
    {
      target := null;
      lastIssue := 0;
      animations := map[];
      actions := map[];
      current := null;
      relays := map[];
      log := [];
    }

    /** `target(View v)`: binds the render target; nothing else changes. */
    method SetTarget(v: View?)
      requires Valid()
      modifies this`target
      ensures Valid() && State() == old(State()).(target := v)
    {
      target := v;
    }

    /** `target()`. */
    method Target() returns (v: View?)
      ensures v == target
    {
      v := target;
    }

    /** `addAction(from, to, action)`: appends `action` to the list of the
        transition, creating the list first when there is none. */
    method AddAction(from: Int32, to: Int32, action: AutomataAction)
      requires Valid()
      modifies this`actions
      ensures Valid() && State() == WithAction(old(State()), KeyOf(from, to), action)
    {
      WithActionKeepsRelaysBound(State(), KeyOf(from, to), action);
      var key := KeyOf(from, to);
      var list: seq<AutomataAction>;
      if key in actions {
        list := actions[key];
      } else {
        list := [];
        actions := actions[key := list];
      }
      actions := actions[key := list + [action]];
    }

    /** `addAction(from, to, listener)`: wraps the listener in a new action
        and appends that action. */
    method AddListener(from: Int32, to: Int32, listener: AnimationListener?) returns (action: AutomataAction)
      requires Valid()
      modifies this`actions
      ensures fresh(action) && action.wrapped == listener
      ensures Valid() && State() == WithAction(old(State()), KeyOf(from, to), action)
    {
      action := new AutomataAction.Wrap(listener);
      AddAction(from, to, action);
    }

    /** `setAnimation(from, to, anim)`: registers `anim` for the transition,
        replacing any earlier one. */
    method SetAnimation(from: Int32, to: Int32, anim: Animation?)
      requires Valid()
      modifies this`animations
      ensures Valid() && State() == WithAnimation(old(State()), KeyOf(from, to), anim)
    {
      WithAnimationKeepsRelaysBound(State(), KeyOf(from, to), anim);
      var key := KeyOf(from, to);
      animations := animations[key := anim];
    }

    /** The `for (AutomataAction a : action)` loop of `onStateTransferred`: hands each action
        the automaton, then calls it with `cb`. */
    method NotifyEach(chain: seq<AutomataAction>, cb: Callback)
      modifies this`log
      ensures log == old(log) + Notify(chain, cb)
    {
      var i := 0;
      while i < |chain|
        invariant 0 <= i <= |chain|
        invariant log == old(log) + Notify(chain[..i], cb)
      {
        var a := chain[i];
        log := log + [SetAutomata(a)];
        log := log + [Invoke(a, cb)];
        assert chain[..i + 1] == chain[..i] + [a];
        NotifyConcat(chain[..i], [a], cb);
        assert Notify([a], cb) == [SetAutomata(a), Invoke(a, cb)] by {
          assert [a][1..] == [];
        }
        i := i + 1;
      }
      assert chain[..i] == chain;
    }

    /** `onStateTransferred(before, after, issueId)`. `ended` holds the
        animations whose `hasEnded()` answers true during the call. */
    method OnStateTransferred(before: Int32, after: Int32, issueId: Int32, ended: set<Animation>)
      returns (completion: Completion)
      requires Valid()
      modifies this
      ensures Valid()
      ensures var o := Transfer(old(State()), before, after, issueId, ended);
        State() == o.next && log == old(log) + o.calls && completion == o.completion
    {
      if lastIssue == issueId {
        return Returned;
      }
      lastIssue := issueId;
      var key := KeyOf(before, after);
      if key !in animations || animations[key] == null {
        return Returned;
      }
      var anim: Animation := animations[key];
      if target == null {
        return Threw(NoTargetFoundException);
      }
      completion := Animate(before, after, anim, ended);
    }

    /** The rest of `onStateTransferred` once an animation and a target were
        found: cancel-and-clear, the action loop, the relay, the start. */
    method Animate(before: Int32, after: Int32, anim: Animation, ended: set<Animation>)
      returns (completion: Completion)
      requires target != null
      modifies this`current, this`relays, this`log
      ensures var o := Dispatch.Animate(old(State()), before, after, anim, old(target), ended);
        State() == o.next && log == old(log) + o.calls && completion == o.completion
    {
      ghost var s := State();
      var key := KeyOf(before, after);
      if current != null && current !in ended {
        log := log + [Cancel(current)];
        log := log + [ClearAnimation(target)];
      }
      ghost var cancels := CancelCalls(s, target, ended);
      assert log == old(log) + cancels;
      if key !in actions {
        return Threw(NullPointerException);
      }
      var action := actions[key];
      NotifyEach(action, StateChanged(before, after));
      ghost var each := Notify(action, StateChanged(before, after));
      relays := relays[anim := key];
      log := log + [SetAnimationListener(anim, key)];
      current := anim;
      log := log + [StartAnimation(target, anim)];
      ghost var tail := [SetAnimationListener(anim, key), StartAnimation(target, anim)];
      CallsAppend(old(log), cancels, each, tail);
      return Returned;
    }

    /** The relay's `onAnimationStart`, called by the animation engine. */
    method RelayStart(anim: Animation)
      requires Valid()
      modifies this`log
      ensures Valid()
      ensures log == old(log) + Relay(State(), anim, AnimationStart(anim))
    {
      Signal(anim, AnimationStart(anim));
    }

    /** The relay's `onAnimationRepeat`, called by the animation engine. */
    method RelayRepeat(anim: Animation)
      requires Valid()
      modifies this`log
      ensures Valid()
      ensures log == old(log) + Relay(State(), anim, AnimationRepeat(anim))
    {
      Signal(anim, AnimationRepeat(anim));
    }

    /** The relay's `onAnimationEnd`, called by the animation engine. */
    method RelayEnd(anim: Animation)
      requires Valid()
      modifies this`log
      ensures Valid()
      ensures log == old(log) + Relay(State(), anim, AnimationEnd(anim))
    {
      Signal(anim, AnimationEnd(anim));
    }

    /** The engine signals `cb` on `anim`: the relay installed on it, if
        any, walks the list of its key as the list is now. */
    method Signal(anim: Animation, cb: Callback)
      requires Valid()
      modifies this`log
      ensures Valid()
      ensures log == old(log) + Relay(State(), anim, cb)
    {
      if anim in relays {
        NotifyEach(actions[relays[anim]], cb);
      }
    }
  }
}
