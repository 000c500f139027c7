/**
 The extension proper: the filter every new window goes through, the workspace
 placer, and the reactions to `enable`, `disable` and `workspace-removed`. Each
 handler is one atomic transition of `State`.
 */
module Extension {
  import opened Host

  /** What the extension and its environment hold between events:
      - `stored`: the current value of the `apps-to-new-workspace` key;
      - `bound`: whether `this.settings` holds a settings object (it is null
        before `enable` and after `disable`);
      - `tracker`: stable sequences of the windows already moved;
      - `layout`: the workspace manager. */
  datatype State = State(stored: seq<string>, bound: bool, tracker: set<nat>, layout: Layout)

  /** The outcome of handling one new window, in the order the checks run. */
  datatype Verdict =
    | NotNormal        // special window type, or pinned to all workspaces
    | NoApplication    // no owning application
    | NullSettings     // `this.settings` is null: `get_strv` raises a TypeError
    | NotConfigured    // application id not in the configured list
    | AlreadyMoved     // stable sequence already in the tracker
    | Accept

  /** `_isNormalWindow`: a window of type `Normal` that is not pinned to all
      workspaces. */
  function IsNormalWindow(w: Window): (normal: bool)
    ensures normal <==> w.kind == Normal && !w.onAllWorkspaces
  {
    w.kind == Normal && !w.onAllWorkspaces
  }

  /** The decision `_handleNewWindow` takes for window `w` in state `s`. */
  function Decide(s: State, w: Window): (v: Verdict)
    ensures v == Accept <==>
      && w.kind == Normal && !w.onAllWorkspaces
      && w.app.Some? && s.bound
      && w.app.value in s.stored
      && w.stableSeq !in s.tracker
    ensures v == NullSettings ==> !s.bound
    ensures !IsNormalWindow(w) ==> v == NotNormal
  {
    if !IsNormalWindow(w) then NotNormal
    else if w.app.None? then NoApplication
    else if !s.bound then NullSettings
    else if w.app.value !in s.stored then NotConfigured
    else if w.stableSeq in s.tracker then AlreadyMoved
    else Accept
  }

  /** `_placeOnNewWorkspace`: append a workspace (not activated), look it up
      by the last index, move `w` onto it, then activate it. */
  function PlaceOnNewWorkspace(l: Layout, w: Window): (r: Layout)
    ensures r.count == l.count + 1
    ensures r.active == l.count
    ensures w.stableSeq in r.workspaceOf && r.workspaceOf[w.stableSeq] == l.count
    ensures r.workspaceOf.Keys == l.workspaceOf.Keys + {w.stableSeq}
    ensures forall k :: k in l.workspaceOf && k != w.stableSeq ==>
      r.workspaceOf[k] == l.workspaceOf[k]
    ensures forall i: nat :: i < l.count ==> WindowsOn(r, i) == WindowsOn(l, i) - {w.stableSeq}
    ensures ValidLayout(l) ==> ValidLayout(r) && WindowsOn(r, l.count) == {w.stableSeq}
  {
    var appended := l.(count := l.count + 1);
    var index := appended.count - 1;
    var moved := appended.(workspaceOf := appended.workspaceOf[w.stableSeq := index]);
    moved.(active := index)
  }

  /** `_handleNewWindow`: an accepted window is placed on a new workspace and
      its stable sequence recorded; every other verdict leaves the state as
      it was. */
  function HandleNewWindow(s: State, w: Window): (r: State)
    ensures Decide(s, w) != Accept ==> r == s
    ensures Decide(s, w) == Accept ==>
      && r.tracker == s.tracker + {w.stableSeq}
      && r.layout.count == s.layout.count + 1
      && r.layout.active == s.layout.count
      && r.layout.workspaceOf == s.layout.workspaceOf[w.stableSeq := s.layout.count]
      && r.stored == s.stored && r.bound == s.bound
  {
    if Decide(s, w) == Accept then
      var placed := s.(layout := PlaceOnNewWorkspace(s.layout, w));
      placed.(tracker := placed.tracker + {w.stableSeq})
    else
      s
  }

  /** `enable`: bind the settings object. The tracker is not touched. */
  function Enable(s: State): (r: State)
    ensures r.bound && r.tracker == s.tracker
    ensures r.stored == s.stored && r.layout == s.layout
  {
    s.(bound := true)
  }

  /** `disable`: clear the tracker and drop the settings object. */
  function Disable(s: State): (r: State)
    ensures !r.bound && r.tracker == {}
    ensures r.stored == s.stored && r.layout == s.layout
  {
    s.(bound := false, tracker := {})
  }

  /** The `workspace-removed` handler: clear the tracker. How the shell
      itself renumbers its workspaces is not part of this model. */
  function OnWorkspaceRemoved(s: State): (r: State)
    ensures r.tracker == {}
    ensures r.stored == s.stored && r.bound == s.bound && r.layout == s.layout
  {
    s.(tracker := {})
  }

  /** Delivering the same window twice has the effect of delivering it once:
      the second delivery finds its stable sequence in the tracker. */
  lemma HandleNewWindowIdempotent(s: State, w: Window)
    ensures HandleNewWindow(HandleNewWindow(s, w), w) == HandleNewWindow(s, w)
  {
  }

  /** After a reset by `workspace-removed` or by `disable` then `enable`, a
      window that was already moved is accepted again, provided it still
      qualifies. */
  lemma ResetReaccepts(s: State, w: Window)
    requires IsNormalWindow(w) && w.app.Some? && w.app.value in s.stored
    ensures s.bound ==> Decide(OnWorkspaceRemoved(s), w) == Accept
    ensures Decide(Enable(Disable(s)), w) == Accept
  {
  }
}
