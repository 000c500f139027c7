# App to New Workspace — a Dafny model

This project models the decision-and-placement core of the GNOME Shell
extension "App to New Workspace" and the two list edits of its preferences
panel.

- **Extension** (`extension.dfy`, from `extension.js`). Every new window goes
  through `_handleNewWindow`. The window must be normal and not pinned to all
  workspaces, and it must have an owning application. The application id must
  be in the `apps-to-new-workspace` list. The window's stable sequence must not
  be in the tracker yet. An accepted window is placed by
  `_placeOnNewWorkspace`: a workspace is appended, the window is moved onto it,
  and that workspace is activated. Then the window's stable sequence is added
  to the tracker. The tracker is cleared by the `workspace-removed` handler and
  by `disable`.
- **Preferences** (`prefs.dfy`, `text.dfy`, from `prefs.js`). Adding trims the
  typed text. A blank result or an id already in the list changes nothing.
  Otherwise the id is appended. Removing filters every occurrence of an id out
  of the list.
- **Host** (`host.dfy`). Shell objects are plain values. A window is its type,
  its all-workspaces flag, its optional application id and its stable
  sequence. The workspace manager is a workspace count, the active index and a
  map from stable sequence to workspace index.
- **Session** (`session.dfy`). Both sides act on one state, driven by events:
  window created, workspace removed, enable, disable, id added, id removed.
  Each event is one atomic transition. The trace lemmas live here.

Three points where the model follows the code rather than what its comments
or a cleaner design would suggest:

- A delayed handler does not check whether the extension is still enabled. A
  window whose handler runs after `disable` passes the type and application
  checks and then calls `get_strv` on a null `this.settings`, which raises a
  TypeError. The model records this as the verdict `NullSettings` and leaves
  the state unchanged.
- A comment says the tracker is also cleared when the extension is
  re-enabled. `enable` does not clear it; `disable` does. The model clears on
  `disable` only. In every reachable state the tracker is empty while no
  settings object is bound (`Session.Inv`), so it is empty right after an
  `enable` that follows `disable` or the constructor.
- The tracker is keyed by the window's stable sequence, not by application
  id, despite its name `_appIdTracker`: two windows of one application each
  get their own workspace.

The repository also has a variant triggered by application state changes; it
is not part of this model.

## Model

| member | source | states |
|---|---|---|
| Extension.IsNormalWindow | extension.js:64-66 | A window passes the filter exactly when its type is NORMAL and it is not on all workspaces |
| Extension.Decide | extension.js:64-87 | A window is accepted exactly when it is normal, not on all workspaces, has an application, settings are bound, its app id is configured and its stable sequence is untracked; a non-normal window is rejected whatever the list and tracker hold; the null-settings failure happens only when no settings object is bound |
| Extension.PlaceOnNewWorkspace | extension.js:99-112 | One workspace is added; the moved window sits on the new last workspace (index = old count), which becomes active; every other window keeps its workspace; each old workspace loses at most that window; a valid layout stays valid and the new workspace holds only the moved window |
| Extension.HandleNewWindow | extension.js:72-93 | Any rejection leaves the whole state unchanged; an acceptance adds the window's stable sequence to the tracker, adds exactly one workspace, activates it and puts the window on it, and leaves the settings alone |
| Extension.Enable | extension.js:33-48 | Enabling binds the settings object and leaves the tracker, the settings list and the workspaces as they were |
| Extension.Disable | extension.js:50-57 | Disabling empties the tracker and drops the settings object; the settings list and workspaces are untouched |
| Extension.OnWorkspaceRemoved | extension.js:45-47 | The workspace-removed handler empties the tracker and changes nothing else the extension owns |
| Extension.HandleNewWindowIdempotent | extension.js:87-90 | Delivering the same window twice gives the same state as delivering it once |
| Extension.ResetReaccepts | extension.js:45-55 | After workspace-removed (while enabled) or after disable then enable, a qualifying window is accepted again even if it was moved before |
| Text.LeadingSpaces | prefs.js:106 | The count is the length of the whitespace run at the start: all of it is whitespace and the next character is not |
| Text.TrailingSpaces | prefs.js:106 | The count is the length of the whitespace run at the end: all of it is whitespace and the character before it is not |
| Text.Trim | prefs.js:106 | The result has no whitespace at either end and is the input with only whitespace cut from both sides |
| Text.FramedBounds | prefs.js:106 | A non-empty whitespace-framed string with no whitespace at its ends starts where the leading whitespace run ends and ends where the trailing run begins |
| Text.TrimUnique | prefs.js:106 | Any string that is the input minus a whitespace border and has no whitespace at its ends equals the trimmed text |
| Text.TrimIdempotent | prefs.js:106 | Trimming twice is the same as trimming once |
| Text.TrimStripsIdeographicSpace | prefs.js:106 | A leading ideographic space (U+3000) is stripped from a typed id, as by `trim` |
| Text.TrimEmptyIffAllSpace | prefs.js:106-107 | The trimmed text is empty exactly when the input is whitespace only |
| Prefs.AddApp | prefs.js:105-119 | Blank input or an id already present leaves the list unchanged; a new id is appended in trimmed form at the end; the ids in the result are those before plus the trimmed id if non-blank |
| Prefs.AddPreservesNoDuplicates | prefs.js:109-111 | A duplicate-free list stays duplicate-free after an addition |
| Prefs.AddIdempotent | prefs.js:109 | Submitting the same text twice gives the same list as submitting it once |
| Prefs.RemoveApp | prefs.js:93-96 | The id no longer occurs; every other id is kept with its multiplicity; a list without the id is returned unchanged |
| Prefs.RemoveDistributes | prefs.js:95 | Removal of a concatenation is the concatenation of the removals, so ids keep their relative order |
| Prefs.RemovePreservesNoDuplicates | prefs.js:95 | A duplicate-free list stays duplicate-free after a removal |
| Prefs.OccursOnce | prefs.js:109-111 | In a duplicate-free list an id occurs at one position only |
| Prefs.RemoveSingleOccurrence | prefs.js:95 | Removing an id that occurs exactly once keeps the ids before and after it, in order, whatever duplicates of other ids the list holds |
| Prefs.RemoveAfterAdd | prefs.js:95-111 | Removing a freshly added id restores the list as it was before the addition, for any stored list, duplicates included |
| Prefs.AddAfterRemove | prefs.js:95-111 | Removing an id and adding it again moves it to the end of the list |
| Session.Step | prefs.js:93-119 | The extension's events never change the settings key; the panel's add and remove edits, each ending in a `set_strv` write (prefs.js:96, prefs.js:111), change the key and nothing else |
| Session.Init | extension.js:26-31 | A new extension has no settings object and an empty tracker |
| Session.InitEstablishesInv | extension.js:26-31 | The constructed extension on a well-formed workspace manager satisfies the state invariant |
| Session.StepPreservesInv | extension.js:33-112 | Every event keeps the layout valid, the tracker empty while settings are unbound, and every tracked window placed |
| Session.StepPreservesNoDuplicates | prefs.js:93-119 | No event introduces a duplicate into a duplicate-free settings list |
| Session.RunPreservesInv | extension.js:33-112 | Every state reached by any sequence of events keeps the invariant and, if it started so, a duplicate-free settings list |
| Session.OtherWindowsStay | extension.js:99-112 | No handler of the extension moves any window other than the delivered one |
| Session.WorkspacesMatchTracker | extension.js:87-90 | Between resets the tracker only grows, only by delivered windows, and the workspace count grows by exactly the number of newly tracked windows |
| Session.AtMostOneWorkspacePerWindow | extension.js:87-90 | Between resets at most one workspace is created per distinct window delivered, however often it is delivered |
| Session.RepeatedDeliveryActsOnce | extension.js:87-90 | Any positive number of deliveries of one window has the effect of one delivery |
| Session.TwoWindowsTwoWorkspaces | extension.js:87-90 | Two distinct qualifying windows, even of one application, create two workspaces, because the tracker holds stable sequences |
| Session.AddedAppIsMoved | extension.js:83-88 | Once an id is added in the preferences, an untracked qualifying window of that application is accepted while enabled |
| Session.RemovedAppIsIgnored | extension.js:83-87 | Once an id is removed in the preferences, no window of that application is accepted |
| Session.ConfiguredAppScenario | extension.js:99-111 | A firefox.desktop window on a one-workspace desktop gets a second workspace, which is active and holds the window |
| Session.UnconfiguredAppScenario | extension.js:82-87 | A window of an application not in the list changes nothing |

## Left out

- Signal subscription and release (`connect`, `disconnect`, `this._handles`) is not modelled; events arrive as transitions. In particular, `disable` releases the `workspace-manager` handle through `window_manager` (extension.js:52); whether that handler stays connected is host behaviour, and the model lets `workspace-removed` arrive in any state.
- The 100 ms deferral (extension.js:40) and all timing and ordering of delivery are not modelled; a `WindowCreated` event is the delayed `_handleNewWindow` call itself. Whether `Main.timeout_add` exists in the host is outside this model.
- GSettings I/O (`get_strv`, `set_strv`) is not modelled: the key is the in-memory list `stored`.
- The remove button filters the list read at the panel's last reload (prefs.js:81, prefs.js:95). The model filters the current key value; the two agree because every write by the panel reloads it.
- Widget construction, row rebuilding, button wiring, translation, and the clearing of the entry text after a successful addition (prefs.js:112) are not modelled.
- `log` calls and `global.get_current_time()` timestamps are not modelled.
- Extension.OnWorkspaceRemoved: only the extension's reaction is modelled; how the shell renumbers workspaces and relocates windows on removal is host behaviour and not part of this model.
- The stable sequence is an unbounded `nat`; the host's 32-bit range plays no role in the logic.
