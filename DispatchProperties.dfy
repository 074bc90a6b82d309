/** What the dispatcher promises, proved of the functions in `Dispatch`:
    the issue-id guard, the two ways a dispatch stops early, cancel-and-replace,
    the order in which actions are called, and the relay's view of the
    action list. */
module DispatchProperties {
  import opened Packing
  import opened Dispatch

  /** Two transitions share a HashMap key only if they are the same transition. */
  lemma KeyOfInjective(a: Int32, b: Int32, c: Int32, d: Int32)
    requires KeyOf(a, b) == KeyOf(c, d)
    ensures a == c && b == d
  {
    MakeLongInjective(a, b, c, d);
  }

  // ---------------------------------------------------------------------------
  // The action loop

  /** The action at position `i` of the list is handed the automaton by call
      `2 * i` of the loop and receives the callback by call `2 * i + 1`. */
  lemma {:induction false} NotifyAt(chain: seq<AutomataAction>, cb: Callback, i: nat)
    requires i < |chain|
    ensures Notify(chain, cb)[2 * i] == SetAutomata(chain[i])
    ensures Notify(chain, cb)[2 * i + 1] == Invoke(chain[i], cb)
  {
    if i > 0 {
      NotifyAt(chain[1..], cb, i - 1);
      assert Notify(chain, cb) == [SetAutomata(chain[0]), Invoke(chain[0], cb)] + Notify(chain[1..], cb);
    }
  }

  /** Walking a list in two pieces issues the same calls as walking it whole. */
  lemma {:induction false} NotifyConcat(a: seq<AutomataAction>, b: seq<AutomataAction>, cb: Callback)
    ensures Notify(a + b, cb) == Notify(a, cb) + Notify(b, cb)
  {
    if a == [] {
      assert a + b == b;
    } else {
      assert (a + b)[1..] == a[1..] + b;
      NotifyConcat(a[1..], b, cb);
    }
  }

  /** The action loop issues nothing but `setAutomata` and the callback itself. */
  lemma {:induction false} NotifyEvents(chain: seq<AutomataAction>, cb: Callback)
    ensures forall e :: e in Notify(chain, cb) ==> e.SetAutomata? || (e.Invoke? && e.callback == cb)
  {
    if chain != [] {
      NotifyEvents(chain[1..], cb);
    }
  }

  /** The actions that received callback `cb`, in the order of the calls. */
  function Receivers(calls: seq<Event>, cb: Callback): (r: seq<AutomataAction>)
    ensures |r| <= |calls|
  {
    if calls == [] then []
    else
      var first := if calls[0].Invoke? && calls[0].callback == cb then [calls[0].action] else [];
      first + Receivers(calls[1..], cb)
  }

  lemma {:induction false} ReceiversConcat(a: seq<Event>, b: seq<Event>, cb: Callback)
    ensures Receivers(a + b, cb) == Receivers(a, cb) + Receivers(b, cb)
  {
    if a == [] {
      assert a + b == b;
    } else {
      assert (a + b)[1..] == a[1..] + b;
      ReceiversConcat(a[1..], b, cb);
    }
  }

  /** One pass of the action loop calls every occurrence in the list once,
      duplicates included, in list order, and nothing else. */
  lemma {:induction false} ReceiversOfNotify(chain: seq<AutomataAction>, cb: Callback)
    ensures Receivers(Notify(chain, cb), cb) == chain
  {
    if chain != [] {
      var head := [SetAutomata(chain[0]), Invoke(chain[0], cb)];
      assert Notify(chain, cb) == head + Notify(chain[1..], cb);
      ReceiversConcat(head, Notify(chain[1..], cb), cb);
      assert Receivers(head, cb) == [chain[0]] by {
        assert head[1..][1..] == [];
      }
      ReceiversOfNotify(chain[1..], cb);
    }
  }

  /** The number of `startAnimation` calls among `calls`. */
  function Starts(calls: seq<Event>): (n: nat)
    ensures n <= |calls|
  {
    if calls == [] then 0
    else
      var first := if calls[0].StartAnimation? then 1 else 0;
      first + Starts(calls[1..])
  }

  lemma {:induction false} StartsConcat(a: seq<Event>, b: seq<Event>)
    ensures Starts(a + b) == Starts(a) + Starts(b)
  {
    if a == [] {
      assert a + b == b;
    } else {
      assert (a + b)[1..] == a[1..] + b;
      StartsConcat(a[1..], b);
    }
  }

  /** The action loop never starts an animation. */
  lemma {:induction false} NotifyStartsNothing(chain: seq<AutomataAction>, cb: Callback)
    ensures Starts(Notify(chain, cb)) == 0
  {
    if chain != [] {
      var head := [SetAutomata(chain[0]), Invoke(chain[0], cb)];
      StartsConcat(head, Notify(chain[1..], cb));
      assert Starts(head) == 0 by {
        assert head[1..][1..] == [];
      }
      NotifyStartsNothing(chain[1..], cb);
    }
  }

  // ---------------------------------------------------------------------------
  // onStateTransferred

  /** A call gets past the issue-id guard, finds an animation, a target and an
      action list, and so reaches `startAnimation`. */
  predicate Dispatches(s: Automaton, before: Int32, after: Int32, issueId: Int32)
  {
    && s.lastIssue != issueId
    && Registered(s, KeyOf(before, after))
    && s.target != null
    && KeyOf(before, after) in s.actions
  }

  /** Whatever happens, the issue id is recorded, so a second delivery of the
      same issue id changes nothing and calls nothing. */
  lemma RedeliveryIgnored(s: Automaton, before: Int32, after: Int32, issueId: Int32, ended: set<Animation>,
                          before': Int32, after': Int32, ended': set<Animation>)
    ensures Transfer(s, before, after, issueId, ended).next.lastIssue == issueId
    ensures var t := Transfer(s, before, after, issueId, ended).next;
      Transfer(t, before', after', issueId, ended') == Outcome(t, [], Returned)
  {
  }

  /** The guard compares with the last recorded issue id, whatever happened
      since (actions added, animations registered): a call with that id
      changes nothing and calls nothing. */
  lemma RepeatedIssueDropped(s: Automaton, before: Int32, after: Int32, issueId: Int32, ended: set<Animation>)
    requires s.lastIssue == issueId
    ensures Transfer(s, before, after, issueId, ended) == Outcome(s, [], Returned)
  {
  }

  /** `lastIssue` starts at 0, so a first call with issue id 0 is dropped. */
  lemma FirstIssueZeroDropped(before: Int32, after: Int32, ended: set<Animation>)
    ensures Transfer(Initial(), before, after, 0, ended) == Outcome(Initial(), [], Returned)
  {
  }

  /** With no animation for the transition, only `lastIssue` changes. */
  lemma UnregisteredTransition(s: Automaton, before: Int32, after: Int32, issueId: Int32, ended: set<Animation>)
    requires s.lastIssue != issueId && !Registered(s, KeyOf(before, after))
    ensures Transfer(s, before, after, issueId, ended) == Outcome(s.(lastIssue := issueId), [], Returned)
  {
  }

  /** With an animation but no target, the call throws before any cancel,
      callback or start; the issue id is already recorded. */
  lemma MissingTarget(s: Automaton, before: Int32, after: Int32, issueId: Int32, ended: set<Animation>)
    requires s.lastIssue != issueId && Registered(s, KeyOf(before, after)) && s.target == null
    ensures Transfer(s, before, after, issueId, ended)
      == Outcome(s.(lastIssue := issueId), [], Threw(NoTargetFoundException))
  {
  }

  /** With an animation and a target but no action ever added for the
      transition, the action loop dereferences a null list: the running
      animation may already be cancelled, but no action is called, nothing
      is started and `current` keeps its old value. */
  lemma MissingActionList(s: Automaton, before: Int32, after: Int32, issueId: Int32, ended: set<Animation>)
    requires s.lastIssue != issueId && Registered(s, KeyOf(before, after)) && s.target != null
    requires KeyOf(before, after) !in s.actions
    ensures var o := Transfer(s, before, after, issueId, ended);
      && o.completion == Threw(NullPointerException)
      && o.next == s.(lastIssue := issueId)
      && o.calls == CancelCalls(s, s.target, ended)
      && Starts(o.calls) == 0
  {
  }

  /** The calls of a dispatch that reaches the end, and the state it leaves. */
  lemma DispatchShape(s: Automaton, before: Int32, after: Int32, issueId: Int32, ended: set<Animation>)
    requires Dispatches(s, before, after, issueId)
    ensures var o := Transfer(s, before, after, issueId, ended);
      var key := KeyOf(before, after);
      var anim := s.animations[key];
      && anim != null
      && o.completion == Returned
      && o.next == s.(lastIssue := issueId, current := anim, relays := s.relays[anim := key])
      && o.calls == CancelCalls(s, s.target, ended) + Notify(s.actions[key], StateChanged(before, after))
           + [SetAnimationListener(anim, key), StartAnimation(s.target, anim)]
  {
  }

  /** A dispatch that reaches the end: first the cancel of an unfinished
      running animation, then every action of the list in order (each handed
      the automaton just before its `onStateChanged`), then the relay, and
      the new animation's start as the very last call. */
  lemma Dispatched(s: Automaton, before: Int32, after: Int32, issueId: Int32, ended: set<Animation>)
    requires Dispatches(s, before, after, issueId)
    ensures var o := Transfer(s, before, after, issueId, ended);
      var key := KeyOf(before, after);
      var anim := s.animations[key];
      var chain := s.actions[key];
      var c := |CancelCalls(s, s.target, ended)|;
      && o.completion == Returned
      && anim != null
      && o.next == s.(lastIssue := issueId, current := anim, relays := s.relays[anim := key])
      && |o.calls| == c + 2 * |chain| + 2
      && (forall i :: 0 <= i < |chain| ==>
            o.calls[c + 2 * i] == SetAutomata(chain[i])
            && o.calls[c + 2 * i + 1] == Invoke(chain[i], StateChanged(before, after)))
      && o.calls[|o.calls| - 2] == SetAnimationListener(anim, key)
      && o.calls[|o.calls| - 1] == StartAnimation(s.target, anim)
      && Receivers(o.calls, StateChanged(before, after)) == chain
  {
    DispatchShape(s, before, after, issueId, ended);
    var key := KeyOf(before, after);
    var anim: Animation := s.animations[key];
    var cancels := CancelCalls(s, s.target, ended);
    assert Receivers(cancels, StateChanged(before, after)) == [] by {
      if cancels != [] { assert cancels[1..][1..] == []; }
    }
    NotifyLayout(cancels, s.actions[key], StateChanged(before, after),
                 SetAnimationListener(anim, key), StartAnimation(s.target, anim));
  }

  /** Where the calls of one pass of the action loop sit between what comes
      before it and two calls after it. */
  lemma NotifyLayout(prefix: seq<Event>, chain: seq<AutomataAction>, cb: Callback, last1: Event, last2: Event)
    requires Receivers(prefix, cb) == [] && !last1.Invoke? && !last2.Invoke?
    ensures var calls := prefix + Notify(chain, cb) + [last1, last2];
      && |calls| == |prefix| + 2 * |chain| + 2
      && (forall i :: 0 <= i < |chain| ==>
            calls[|prefix| + 2 * i] == SetAutomata(chain[i]) && calls[|prefix| + 2 * i + 1] == Invoke(chain[i], cb))
      && calls[|calls| - 2] == last1
      && calls[|calls| - 1] == last2
      && Receivers(calls, cb) == chain
  {
    var notified := Notify(chain, cb);
    var tail := [last1, last2];
    var calls := prefix + notified + tail;
    forall i | 0 <= i < |chain|
      ensures calls[|prefix| + 2 * i] == SetAutomata(chain[i])
      ensures calls[|prefix| + 2 * i + 1] == Invoke(chain[i], cb)
    {
      NotifyAt(chain, cb, i);
      assert calls[|prefix| + 2 * i] == notified[2 * i];
      assert calls[|prefix| + 2 * i + 1] == notified[2 * i + 1];
    }
    ReceiversConcat(prefix + notified, tail, cb);
    ReceiversConcat(prefix, notified, cb);
    ReceiversOfNotify(chain, cb);
    assert Receivers(tail, cb) == [] by {
      assert tail[1..][1..] == [];
    }
  }

  /** Cancel-and-replace: a running animation that has not ended is cancelled
      and the target cleared before any action is called; one that has ended,
      or no animation at all, is left alone. */
  lemma CancelBeforeReplace(s: Automaton, before: Int32, after: Int32, issueId: Int32, ended: set<Animation>)
    requires s.lastIssue != issueId && Registered(s, KeyOf(before, after)) && s.target != null
    ensures var o := Transfer(s, before, after, issueId, ended);
      if s.current != null && s.current !in ended then
        |o.calls| >= 2 && o.calls[0] == Cancel(s.current) && o.calls[1] == ClearAnimation(s.target)
      else
        forall i :: 0 <= i < |o.calls| ==> !o.calls[i].Cancel? && !o.calls[i].ClearAnimation?
  {
    var key := KeyOf(before, after);
    var anim: Animation := s.animations[key];
    var s' := s.(lastIssue := issueId);
    var calls := Transfer(s, before, after, issueId, ended).calls;
    assert calls == Animate(s', before, after, anim, s.target, ended).calls;
    if s.current == null || s.current in ended {
      assert CancelCalls(s', s.target, ended) == [];
      if key in s.actions {
        var notified := Notify(s.actions[key], StateChanged(before, after));
        NotifyEvents(s.actions[key], StateChanged(before, after));
        assert calls == notified + [SetAnimationListener(anim, key), StartAnimation(s.target, anim)];
        forall i | 0 <= i < |calls|
          ensures !calls[i].Cancel? && !calls[i].ClearAnimation?
        {
          if i < |notified| {
            assert calls[i] == notified[i] && notified[i] in notified;
          }
        }
      }
    }
  }

  /** At most one animation is started per call, and one is started exactly
      when the call dispatches. */
  lemma AtMostOneStart(s: Automaton, before: Int32, after: Int32, issueId: Int32, ended: set<Animation>)
    ensures Starts(Transfer(s, before, after, issueId, ended).calls)
      == if Dispatches(s, before, after, issueId) then 1 else 0
  {
    var key := KeyOf(before, after);
    if s.lastIssue != issueId && Registered(s, key) && s.target != null {
      var cancels := CancelCalls(s, s.target, ended);
      assert Starts(cancels) == 0 by {
        if cancels != [] { assert cancels[1..][1..] == []; }
      }
      if key in s.actions {
        var anim: Animation := s.animations[key];
        var cb := StateChanged(before, after);
        var tail := [SetAnimationListener(anim, key), StartAnimation(s.target, anim)];
        StartsConcat(cancels + Notify(s.actions[key], cb), tail);
        StartsConcat(cancels, Notify(s.actions[key], cb));
        NotifyStartsNothing(s.actions[key], cb);
        assert Starts(tail) == 1 by {
          assert tail[1..][1..] == [];
        }
      }
    }
  }

  /** Appending the calls of a dispatch one after another to a log. */
  lemma CallsAppend(log: seq<Event>, cancels: seq<Event>, each: seq<Event>, tail: seq<Event>)
    requires |tail| == 2
    ensures log + cancels + each + [tail[0]] + [tail[1]] == log + (cancels + each + tail)
  {
    assert tail == [tail[0]] + [tail[1]];
  }

  // ---------------------------------------------------------------------------
  // The class invariant

  lemma WithActionKeepsRelaysBound(s: Automaton, key: Key, action: AutomataAction)
    requires RelaysBound(s)
    ensures RelaysBound(WithAction(s, key, action))
  {
  }

  lemma WithAnimationKeepsRelaysBound(s: Automaton, key: Key, anim: Animation?)
    requires RelaysBound(s)
    ensures RelaysBound(WithAnimation(s, key, anim))
  {
  }

  // ---------------------------------------------------------------------------
  // addAction

  /** Adding the same action twice keeps both occurrences, and each is called. */
  lemma DuplicateActionsKept(s: Automaton, key: Key, action: AutomataAction, cb: Callback)
    ensures ChainOf(WithAction(WithAction(s, key, action), key, action), key) == ChainOf(s, key) + [action, action]
    ensures Receivers(Notify(ChainOf(WithAction(WithAction(s, key, action), key, action), key), cb), cb)
      == ChainOf(s, key) + [action, action]
  {
    var t := WithAction(WithAction(s, key, action), key, action);
    assert ChainOf(t, key) == ChainOf(s, key) + [action] + [action];
    ReceiversOfNotify(ChainOf(t, key), cb);
  }

  // ---------------------------------------------------------------------------
  // The relay listener

  /** Right after a dispatch, the relay of the new animation walks the action
      list of its transition. */
  lemma RelayAfterDispatch(s: Automaton, before: Int32, after: Int32, issueId: Int32, ended: set<Animation>,
                           cb: Callback)
    requires RelaysBound(s) && Dispatches(s, before, after, issueId)
    ensures var t := Transfer(s, before, after, issueId, ended).next;
      && RelaysBound(t)
      && t.current != null
      && Relay(t, t.current, cb) == Notify(s.actions[KeyOf(before, after)], cb)
  {
  }

  /** The relay holds the list object, not a copy: an action added to its
      transition after the animation was started is called too, last. */
  lemma {:induction false} RelaySeesLaterActions(s: Automaton, anim: Animation, action: AutomataAction, cb: Callback)
    requires RelaysBound(s) && anim in s.relays
    ensures RelaysBound(WithAction(s, s.relays[anim], action))
    ensures Relay(WithAction(s, s.relays[anim], action), anim, cb)
      == Relay(s, anim, cb) + [SetAutomata(action), Invoke(action, cb)]
  {
    var key := s.relays[anim];
    NotifyConcat(s.actions[key], [action], cb);
    assert Notify([action], cb) == [SetAutomata(action), Invoke(action, cb)] by {
      assert [action][1..] == [];
    }
  }

  /** Actions added to another transition do not reach the relay. */
  lemma RelayIgnoresOtherTransitions(s: Automaton, anim: Animation, from: Int32, to: Int32,
                                     action: AutomataAction, cb: Callback)
    requires RelaysBound(s) && anim in s.relays && s.relays[anim] != KeyOf(from, to)
    ensures RelaysBound(WithAction(s, KeyOf(from, to), action))
    ensures Relay(WithAction(s, KeyOf(from, to), action), anim, cb) == Relay(s, anim, cb)
  {
  }

  /** The relay calls every action of its list, in list order, each handed
      the automaton just before the callback. */
  lemma RelayOrder(s: Automaton, anim: Animation, cb: Callback)
    requires RelaysBound(s) && anim in s.relays
    ensures var chain := s.actions[s.relays[anim]];
      && |Relay(s, anim, cb)| == 2 * |chain|
      && (forall i :: 0 <= i < |chain| ==>
            Relay(s, anim, cb)[2 * i] == SetAutomata(chain[i])
            && Relay(s, anim, cb)[2 * i + 1] == Invoke(chain[i], cb))
      && Receivers(Relay(s, anim, cb), cb) == chain
  {
    var chain := s.actions[s.relays[anim]];
    forall i | 0 <= i < |chain|
      ensures Relay(s, anim, cb)[2 * i] == SetAutomata(chain[i])
      ensures Relay(s, anim, cb)[2 * i + 1] == Invoke(chain[i], cb)
    {
      NotifyAt(chain, cb, i);
    }
    ReceiversOfNotify(chain, cb);
  }
}
