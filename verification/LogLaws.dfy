/** Which transition of the log is open, in every run. */
module LogLaws {
  import opened Domain
  import opened Notifications
  import opened Runs

  /** The key of the scope's last change of state, unless the log held that key before. */
  ghost function LastFresh(events: seq<Event>, t: Timing, scope: string): Option<Key> {
    if events == [] then None
    else
      var init, e := events[..|events| - 1], events[|events| - 1];
      var s := Run(init, t).store;
      if e.Save? && e.saving.scope == scope && Changes(s, e.saving) then
        if HasTransition(s.transitions, KeyOf(s, e.saving)) then None else Some(KeyOf(s, e.saving))
      else LastFresh(init, t, scope)
  }

  /** Of the scope's transitions the one with the given key is open, and no other. */
  ghost predicate OpenOnly(transitions: seq<Transition>, scope: string, open: Option<Key>) {
    && (open.Some? ==> HasTransition(transitions, open.value))
    && forall i :: 0 <= i < |transitions| && transitions[i].key.scope == scope ==>
         (transitions[i].closedAt.None? <==> open == Some(transitions[i].key))
  }

  /** The open transition names the state the scope is in. */
  ghost predicate NamesState(s: Store, scope: string, open: Option<Key>) {
    open.Some? ==> open.value.scope == scope && scope in s.snapshots && s.snapshots[scope].state == open.value.toState
  }

  lemma {:induction false} ChangeElsewhere(s: Store, sv: Saving, quiet: int, scope: string, open: Option<Key>)
    requires Changes(s, sv) && sv.scope != scope
    requires OpenOnly(s.transitions, scope, open) && NamesState(s, scope, open)
    ensures OpenOnly(Saved(s, sv, quiet).transitions, scope, open)
  {
    var after := Saved(s, sv, quiet).transitions;
    if open.Some? {
      var i :| 0 <= i < |s.transitions| && s.transitions[i].key == open.value;
      assert after[i].key == open.value;
    }
  }

  /** A change of state leaves its own transition open when the key is new, and none when it is not. */
  lemma {:induction false} ChangeOpens(s: Store, sv: Saving, quiet: int, open: Option<Key>)
    requires Changes(s, sv)
    requires OpenOnly(s.transitions, sv.scope, open) && NamesState(s, sv.scope, open)
    ensures OpenOnly(Saved(s, sv, quiet).transitions, sv.scope,
                     if HasTransition(s.transitions, KeyOf(s, sv)) then None else Some(KeyOf(s, sv)))
  {
    var key, after := KeyOf(s, sv), Saved(s, sv, quiet).transitions;
    assert open != Some(key);
    if !HasTransition(s.transitions, key) {
      assert after[|s.transitions|].key == key;
    }
  }

  lemma {:induction false} LastFreshOpen(events: seq<Event>, t: Timing, scope: string)
    ensures OpenOnly(Run(events, t).store.transitions, scope, LastFresh(events, t, scope))
    ensures NamesState(Run(events, t).store, scope, LastFresh(events, t, scope))
  {
    if events != [] {
      var init, e := events[..|events| - 1], events[|events| - 1];
      var s := Run(init, t).store;
      LastFreshOpen(init, t, scope);
      if e.Save? && Changes(s, e.saving) {
        if e.saving.scope == scope {
          ChangeOpens(s, e.saving, t.quiet, LastFresh(init, t, scope));
        } else {
          ChangeElsewhere(s, e.saving, t.quiet, scope, LastFresh(init, t, scope));
        }
      }
    }
  }

  ghost predicate HasOpen(transitions: seq<Transition>, scope: string) {
    exists i :: 0 <= i < |transitions| && transitions[i].key.scope == scope && transitions[i].closedAt.None?
  }

  /** In every run a transition is open if and only if it is the one its scope's last change of state logged;
      it then names the state the scope is in. A scope whose last change repeated a key has none open. */
  lemma {:induction false} OpenExactly(events: seq<Event>, t: Timing, scope: string)
    ensures var s, last := Run(events, t).store, LastFresh(events, t, scope);
      && (forall i :: 0 <= i < |s.transitions| && s.transitions[i].key.scope == scope ==>
            (s.transitions[i].closedAt.None? <==> last == Some(s.transitions[i].key)))
      && (HasOpen(s.transitions, scope) <==> last.Some?)
      && (last.Some? ==> scope in s.snapshots && s.snapshots[scope].state == last.value.toState)
  {
    LastFreshOpen(events, t, scope);
    var s, last := Run(events, t).store, LastFresh(events, t, scope);
    if last.Some? {
      var i :| 0 <= i < |s.transitions| && s.transitions[i].key == last.value;
      assert s.transitions[i].key.scope == scope;
    }
  }

  /** After a change of state the scope has an open transition if and only if the key was new. */
  lemma {:induction false} ChangeOpensExactly(events: seq<Event>, sv: Saving, t: Timing)
    requires Changes(Run(events, t).store, sv)
    ensures HasOpen(Run(events + [Save(sv)], t).store.transitions, sv.scope)
       <==> !HasTransition(Run(events, t).store.transitions, KeyOf(Run(events, t).store, sv))
  {
    assert (events + [Save(sv)])[..|events|] == events;
    OpenExactly(events + [Save(sv)], t, sv.scope);
  }
}
