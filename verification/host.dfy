/**
 The shell objects the extension observes and drives, reduced to plain values:
 a window is what `_handleNewWindow` reads of it, and the workspace manager is
 a workspace count, the active index and which workspace each window is on.
 */
module Host {

  datatype Option<+T> = None | Some(value: T)

  /** The window types of the window manager (`Meta.WindowType`). */
  datatype WindowType =
    | Normal | Desktop | Dock | Dialog | ModalDialog | Toolbar | Menu | Utility
    | Splashscreen | DropdownMenu | PopupMenu | Tooltip | Notification | Combo
    | Dnd | OverrideOther

  /** A window as the extension sees it: its type, whether it is pinned to all
      workspaces, the id of its owning application (if one could be resolved)
      and its stable sequence number, unique per window for its lifetime. */
  datatype Window = Window(
    kind: WindowType,
    onAllWorkspaces: bool,
    app: Option<string>,
    stableSeq: nat)

  /** The workspace manager: `count` workspaces indexed from 0, the active one,
      and the workspace index of each window, keyed by stable sequence. */
  datatype Layout = Layout(count: nat, active: nat, workspaceOf: map<nat, nat>)

  /** There is at least one workspace, the active index and every window's
      workspace index are in range. */
  predicate ValidLayout(l: Layout) {
    && 0 < l.count
    && l.active < l.count
    && forall k :: k in l.workspaceOf ==> l.workspaceOf[k] < l.count
  }

  /** Stable sequences of the windows on workspace `i`. */
  function WindowsOn(l: Layout, i: nat): set<nat> {
    set k | k in l.workspaceOf && l.workspaceOf[k] == i
  }
}
