/**
 The extension and the preferences panel together, driven by a stream of
 events. The panel writes the settings key that `_handleNewWindow` reads on
 every new window, so both sides meet in one `State`.
 */
module Session {
  import opened Host
  import opened Text
  import opened Prefs
  import opened Extension

  /** One atomic event. `WindowCreated` stands for the deferred call to
      `_handleNewWindow` that the `created` signal schedules. */
  datatype Event =
    | WindowCreated(w: Window)
    | WorkspaceRemoved
    | Enabled
    | Disabled
    | AppAdded(text: string)
    | AppRemoved(id: string)

  /** The freshly constructed extension: no settings object, empty tracker. */
  function Init(stored: seq<string>, layout: Layout): (s: State)
    ensures !s.bound && s.tracker == {}
    ensures s.stored == stored && s.layout == layout
  {
    State(stored, false, {}, layout)
  }

  /** One event. The extension never writes the settings key, and the
      panel's edits (each ending in `set_strv`) change nothing but the key. */
  function Step(s: State, e: Event): (r: State)
    ensures (e.AppAdded? || e.AppRemoved?) ==> r == s.(stored := r.stored)
    ensures !(e.AppAdded? || e.AppRemoved?) ==> r.stored == s.stored
  {
    match e
    case WindowCreated(w) => HandleNewWindow(s, w)
    case WorkspaceRemoved => OnWorkspaceRemoved(s)
    case Enabled => Enable(s)
    case Disabled => Disable(s)
    case AppAdded(text) => s.(stored := AddApp(s.stored, text))
    case AppRemoved(id) => s.(stored := RemoveApp(s.stored, id))
  }

  /** The state reached from `s` by handling `es` in order. */
  function Run(s: State, es: seq<Event>): State
    decreases |es|
  {
    if es == [] then s else Run(Step(s, es[0]), es[1..])
  }

  /** What holds in every reachable state: the workspace manager is
      well formed, the tracker is empty whenever no settings object is bound,
      and every tracked window has been placed somewhere. */
  ghost predicate Inv(s: State) {
    && ValidLayout(s.layout)
    && (!s.bound ==> s.tracker == {})
    && s.tracker <= s.layout.workspaceOf.Keys
  }

  lemma InitEstablishesInv(stored: seq<string>, layout: Layout)
    requires ValidLayout(layout)
    ensures Inv(Init(stored, layout))
  {
  }

  lemma StepPreservesInv(s: State, e: Event)
    requires Inv(s)
    ensures Inv(Step(s, e))
  {
    if e.WindowCreated? && Decide(s, e.w) == Accept {
      var l' := PlaceOnNewWorkspace(s.layout, e.w);
      assert Step(s, e).layout == l';
    }
  }

  /** The preferences edits keep the settings list free of duplicates. */
  lemma StepPreservesNoDuplicates(s: State, e: Event)
    requires NoDuplicates(s.stored)
    ensures NoDuplicates(Step(s, e).stored)
  {
    match e
    case AppRemoved(id) => RemovePreservesNoDuplicates(s.stored, id);
    case AppAdded(text) => AddPreservesNoDuplicates(s.stored, text);
    case _ =>
  }

  /** Every state reachable from one satisfying `Inv` satisfies it, and
      the settings list stays free of duplicates if it started so. */
  lemma {:induction false} RunPreservesInv(s: State, es: seq<Event>)
    requires Inv(s)
    ensures Inv(Run(s, es))
    ensures NoDuplicates(s.stored) ==> NoDuplicates(Run(s, es).stored)
    decreases |es|
  {
    if es != [] {
      StepPreservesInv(s, es[0]);
      if NoDuplicates(s.stored) {
        StepPreservesNoDuplicates(s, es[0]);
      }
      RunPreservesInv(Step(s, es[0]), es[1..]);
    }
  }

  /** No handler of the extension moves a window other than the one the
      event delivers. */
  lemma OtherWindowsStay(s: State, e: Event, k: nat)
    requires k in s.layout.workspaceOf
    requires e.WindowCreated? ==> k != e.w.stableSeq
    ensures k in Step(s, e).layout.workspaceOf
    ensures Step(s, e).layout.workspaceOf[k] == s.layout.workspaceOf[k]
  {
  }

  /** No event in `es` clears the tracker. */
  ghost predicate NoReset(es: seq<Event>) {
    forall i :: 0 <= i < |es| ==> !es[i].WorkspaceRemoved? && !es[i].Disabled?
  }

  /** Stable sequences of the windows delivered in `es`. */
  ghost function DeliveredSeqs(es: seq<Event>): set<nat> {
    set i | 0 <= i < |es| && es[i].WindowCreated? :: es[i].w.stableSeq
  }

  /** Between two resets the workspaces created are exactly the windows newly
      tracked: the tracker only grows, only by windows delivered, and by one
      entry per new workspace. */
  lemma {:induction false} WorkspacesMatchTracker(s: State, es: seq<Event>)
    requires NoReset(es)
    ensures s.tracker <= Run(s, es).tracker
    ensures Run(s, es).tracker - s.tracker <= DeliveredSeqs(es)
    ensures Run(s, es).layout.count == s.layout.count + |Run(s, es).tracker| - |s.tracker|
    decreases |es|
  {
    if es != [] {
      var next := Step(s, es[0]);
      assert NoReset(es[1..]) by {
        forall i | 0 <= i < |es[1..]| ensures !es[1..][i].WorkspaceRemoved? && !es[1..][i].Disabled? {
          assert es[1..][i] == es[i + 1];
        }
      }
      WorkspacesMatchTracker(next, es[1..]);
      assert next.tracker - s.tracker <= DeliveredSeqs(es) by {
        if es[0].WindowCreated? {
          assert es[0].w.stableSeq in DeliveredSeqs(es);
        }
      }
      assert DeliveredSeqs(es[1..]) <= DeliveredSeqs(es) by {
        forall x | x in DeliveredSeqs(es[1..]) ensures x in DeliveredSeqs(es) {
          var i :| 0 <= i < |es[1..]| && es[1..][i].WindowCreated? && es[1..][i].w.stableSeq == x;
          assert es[1..][i] == es[i + 1];
        }
      }
    }
  }

  lemma SubsetCardinality(a: set<nat>, b: set<nat>)
    requires a <= b
    ensures |a| <= |b|
  {
    assert b == a + (b - a);
  }

  /** At most one workspace is created per distinct window delivered between
      two resets, however often each window is delivered. */
  lemma AtMostOneWorkspacePerWindow(s: State, es: seq<Event>)
    requires NoReset(es)
    ensures Run(s, es).layout.count <= s.layout.count + |DeliveredSeqs(es)|
  {
    var r := Run(s, es);
    WorkspacesMatchTracker(s, es);
    assert r.tracker == s.tracker + (r.tracker - s.tracker);
    SubsetCardinality(r.tracker - s.tracker, DeliveredSeqs(es));
  }

  /** `n` copies of the same event. */
  function Repeat(e: Event, n: nat): (es: seq<Event>)
    ensures |es| == n
    ensures forall i :: 0 <= i < n ==> es[i] == e
  {
    if n == 0 then [] else [e] + Repeat(e, n - 1)
  }

  /** Delivering one window any positive number of times ends in the same
      state as delivering it once. */
  lemma {:induction false} RepeatedDeliveryActsOnce(s: State, w: Window, n: nat)
    requires 0 < n
    ensures Run(s, Repeat(WindowCreated(w), n)) == HandleNewWindow(s, w)
    decreases n
  {
    var es := Repeat(WindowCreated(w), n);
    assert es[0] == WindowCreated(w);
    if n > 1 {
      var once := HandleNewWindow(s, w);
      assert es[1..] == Repeat(WindowCreated(w), n - 1);
      RepeatedDeliveryActsOnce(once, w, n - 1);
      HandleNewWindowIdempotent(s, w);
    } else {
      assert es[1..] == [];
    }
  }

  /** The tracker holds windows, not applications: two distinct windows that
      both qualify each get a workspace of their own, even when they belong
      to the same application. */
  lemma TwoWindowsTwoWorkspaces(s: State, w1: Window, w2: Window)
    requires Decide(s, w1) == Accept && Decide(s, w2) == Accept
    requires w1.stableSeq != w2.stableSeq
    ensures Run(s, [WindowCreated(w1), WindowCreated(w2)]).layout.count == s.layout.count + 2
  {
    var es := [WindowCreated(w1), WindowCreated(w2)];
    var s1 := HandleNewWindow(s, w1);
    var s2 := HandleNewWindow(s1, w2);
    assert es[1..] == [WindowCreated(w2)] && es[1..][1..] == [];
    assert Run(s1, es[1..]) == Run(s2, []) == s2;
  }

  /** An id added in the preferences makes the next qualifying window of that
      application move, provided the extension is enabled. */
  lemma AddedAppIsMoved(s: State, text: string, w: Window)
    requires s.bound && !AllSpace(text)
    requires IsNormalWindow(w) && w.app == Some(Trim(text)) && w.stableSeq !in s.tracker
    ensures Decide(Step(s, AppAdded(text)), w) == Accept
  {
  }

  /** An id removed in the preferences no longer moves any window. */
  lemma RemovedAppIsIgnored(s: State, id: string, w: Window)
    requires w.app == Some(id)
    ensures Decide(Step(s, AppRemoved(id)), w) != Accept
  {
  }

  /** The scenario of a configured application: one window of
      `firefox.desktop` on a single-workspace desktop gets a second
      workspace, which becomes active and holds the window. */
  lemma ConfiguredAppScenario()
    ensures
      var w := Window(Normal, false, Some("firefox.desktop"), 7);
      var s := Run(Init(["firefox.desktop"], Layout(1, 0, map[])), [Enabled, WindowCreated(w)]);
      s.layout == Layout(2, 1, map[7 := 1]) && s.tracker == {7}
  {
    var w := Window(Normal, false, Some("firefox.desktop"), 7);
    var s0 := Init(["firefox.desktop"], Layout(1, 0, map[]));
    var es := [Enabled, WindowCreated(w)];
    assert es[1..] == [WindowCreated(w)] && es[1..][1..] == [];
    var s1 := Enable(s0);
    assert Decide(s1, w) == Accept;
    var s2 := HandleNewWindow(s1, w);
    assert Run(s1, es[1..]) == Run(s2, []) == s2;
    assert Run(s0, es) == s2;
  }

  /** The same desktop with an application that is not configured: nothing
      changes. */
  lemma UnconfiguredAppScenario()
    ensures
      var w := Window(Normal, false, Some("other.desktop"), 7);
      var s0 := Enable(Init(["firefox.desktop"], Layout(1, 0, map[])));
      Step(s0, WindowCreated(w)) == s0
  {
  }
}
