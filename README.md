# Floating windows: stacking manager and drag positioning

A Dafny model of the two pieces of state logic in the floating-modals library.

- **`WindowManager`** (`window_manager.dfy`) models the window stack of `src/WindowManagerProvider.tsx`. `Reduce` is the reducer: a total function from a `State` (the live `WindowRecord`s in insertion order, plus the z watermark `nextZ`) and an `Action` (`Open`, `Focus`, `Close`, `CloseAll`) to the next `State`. `Raise` and `Without` model the `map` of FOCUS and the `filter` of CLOSE. `Inv` is the invariant of a reachable state: unique ids, unique z values, and no z above `nextZ`. Every action preserves it, provided OPEN never reuses a live id. The class `Manager` is the provider's API object. It holds the `idCounter` ref and the reducer state. `Spawn` increments the counter and dispatches OPEN, and its ghost history `issued` shows that no id is ever handed out twice. `Scenario` replays spawn A, spawn B, focus A, close B from a fresh manager.
- **`Floating`** (`floating_modal.dfy`) models one window's positioning in `src/FloatingModal.tsx`. `ResolveAxis` and `Placement` choose between an explicit coordinate and centring in the viewport, one axis at a time. `Press`, `Move` and `Release` are the pointer handlers as pure functions over an `Engine` value (the drag ref plus the position). `Run` replays a stream of pointer events. The class `FloatingModal` holds the drag ref fields and `pos` as mutable fields, and each of its methods is tied to the matching function. DOM measurements arrive as parameters: the bounding rectangle and the viewport's inner size. `OnPointerMove` returns the coordinates the optional `onDrag` observer is called with. Coordinates are exact `real`s.

Two behaviours of the code are easy to misread:

- `spawn` takes only the element and always opens a new window. The code has no singleton deduplication, even though the demo passes a second argument (demo/src/App.tsx:70, `wm.spawn(<DemoWindow />, false)`).
- FOCUS on an id that is not live still advances `nextZ`. Only the window list is left unchanged (`FocusAbsent`).

## Model

| member | source | states |
|---|---|---|
| `WindowManager.Initial` | src/WindowManagerProvider.tsx:91-94 | the provider starts with no windows and `nextZ` = 1000 |
| `WindowManager.Raise` | src/WindowManagerProvider.tsx:65-67 | same length, ids and elements at every index; exactly the records with the focused id get the new z, all others keep theirs |
| `WindowManager.Without` | src/WindowManagerProvider.tsx:73 | the result is a subsequence of the input (relative order kept) that contains every record whose id differs, contains none that carries the id, and is shorter by exactly the number of records carrying the id |
| `WindowManager.Reduce` | src/WindowManagerProvider.tsx:47-80 | OPEN and FOCUS advance the watermark by one; CLOSE and CLOSE_ALL leave it |
| `WindowManager.OpenAppends` | src/WindowManagerProvider.tsx:49-58 | OPEN adds one record `{id, element, old nextZ + 1}` at the end, keeps the prefix identical, and sets `nextZ` to old + 1 |
| `WindowManager.FocusRaises` | src/WindowManagerProvider.tsx:60-68 | FOCUS sets `nextZ` to old + 1 always, keeps length, id order and elements, gives matching records the new z and leaves every other record unchanged |
| `WindowManager.FocusAbsent` | src/WindowManagerProvider.tsx:60-68 | FOCUS on an id that is not live leaves the windows as they were and still advances `nextZ` |
| `WindowManager.FocusBringsToFront` | src/WindowManagerProvider.tsx:60-68 | in a reachable state, the focused window ends strictly above every other window |
| `WindowManager.CloseRemoves` | src/WindowManagerProvider.tsx:70-74 | CLOSE removes every record with the id and no other (the list shrinks by exactly their number), keeps all others with their z in relative order, and keeps `nextZ` |
| `WindowManager.WithoutAbsent` | src/WindowManagerProvider.tsx:73 | filtering out an id no record carries returns the list unchanged |
| `WindowManager.CloseAbsentIsNoOp` | src/WindowManagerProvider.tsx:70-74 | CLOSE of an id that is not live returns the same state |
| `WindowManager.CloseIdempotent` | src/WindowManagerProvider.tsx:70-74 | closing an id twice equals closing it once |
| `WindowManager.CloseAllEmpties` | src/WindowManagerProvider.tsx:75-76 | CLOSE_ALL leaves no windows and keeps `nextZ` |
| `WindowManager.WatermarkMonotone` | src/WindowManagerProvider.tsx:47-80 | no action decreases `nextZ` |
| `WindowManager.WithoutKeepsUnique` | src/WindowManagerProvider.tsx:73 | filtering keeps ids unique and z values unique |
| `WindowManager.ReducePreservesInv` | src/WindowManagerProvider.tsx:47-80 | every action that does not open under a live id preserves unique ids, unique z values and z at most `nextZ` |
| `WindowManager.Manager.constructor` | src/WindowManagerProvider.tsx:91-96 | a fresh manager has counter 0, no issued ids, the initial state, and satisfies the invariant |
| `WindowManager.Manager.Spawn` | src/WindowManagerProvider.tsx:99-103 | returns old counter + 1, stores it as the counter, never returns an id issued before (all earlier ones are smaller), and applies OPEN with that id |
| `WindowManager.Manager.Close` | src/WindowManagerProvider.tsx:104 | applies CLOSE, keeps counter and issued ids, keeps the invariant |
| `WindowManager.Manager.CloseAll` | src/WindowManagerProvider.tsx:105 | applies CLOSE_ALL without resetting the counter, keeps the invariant |
| `WindowManager.Manager.Focus` | src/WindowManagerProvider.tsx:106 | applies FOCUS, keeps counter and issued ids, keeps the invariant |
| `WindowManager.Scenario` | src/WindowManagerProvider.tsx:91-106 | spawn A, spawn B, focus A, close B yields ids 1 and 2 and leaves only A with z = 1003 |
| `Floating.ResolveAxis` | src/FloatingModal.tsx:67-74 | a number passes through unchanged; "center" leaves equal gaps before and after the window |
| `Floating.Placement` | src/FloatingModal.tsx:67-76 | each coordinate is given by its own axis: the explicit value, or the centred value against width and innerWidth (height and innerHeight for y) |
| `Floating.CenterIsUniqueBalance` | src/FloatingModal.tsx:67-74 | the coordinate with equal gaps on both sides is exactly `(viewport - extent) / 2` |
| `Floating.AxesIndependent` | src/FloatingModal.tsx:67-74 | x does not depend on the y configuration or height, nor y on the x configuration or width |
| `Floating.HandleFor` | src/FloatingModal.tsx:129-131 | the handle is the element the selector found, or the window root when it found none |
| `Floating.Press` | src/FloatingModal.tsx:95-105 | a button other than 0 changes nothing; button 0 starts dragging with offset = pointer - rect top-left and keeps `pos` |
| `Floating.Move` | src/FloatingModal.tsx:107-118 | when not dragging nothing changes and no observer call happens; when dragging, `pos` = pointer - offset with no clamping, and the observer gets exactly that `pos` |
| `Floating.Release` | src/FloatingModal.tsx:120-123 | dragging ends; offsets and `pos` stay |
| `Floating.Run` | src/FloatingModal.tsx:134-136 | delivers a stream of events in order to the matching handler; the result is the final state and every coordinate passed to the observer, at most one per event |
| `Floating.DragTranslates` | src/FloatingModal.tsx:99-114 | after a press, moving the pointer by (dx, dy) places the window at the press-time top-left plus (dx, dy) |
| `Floating.PressMoveRoundTrip` | src/FloatingModal.tsx:101-113 | pressing at a point and moving back to that point restores `pos` to the rect's top-left at press time |
| `Floating.MoveIsAbsolute` | src/FloatingModal.tsx:107-114 | two consecutive moves end where the second alone ends |
| `Floating.RunPosIsLastEmitted` | src/FloatingModal.tsx:95-123 | over any event stream, the final `pos` is the last coordinate passed to the observer, or the starting `pos` if there was none |
| `Floating.IdleWithoutPress` | src/FloatingModal.tsx:95-123 | from an idle state, a stream with no primary-button press never moves the window, never calls the observer, and leaves it idle |
| `Floating.FloatingModal.constructor` | src/FloatingModal.tsx:38-57 | omitted `initialX`/`initialY` default to "center"; drag state starts idle with zero offsets and `pos` = (0, 0) |
| `Floating.FloatingModal.Layout` | src/FloatingModal.tsx:62-77 | with no mounted element nothing changes; otherwise `pos` becomes the placement of the props against the measurements |
| `Floating.FloatingModal.ResetPosition` | src/FloatingModal.tsx:82-90 | omitted arguments fall back to the props, and "center" is resolved against the measurements supplied now; drag state untouched |
| `Floating.FloatingModal.OnPointerDown` | src/FloatingModal.tsx:95-105 | the new state is `Press` of the old; button 0 sets dragging and the offsets, any other button changes nothing |
| `Floating.FloatingModal.OnPointerMove` | src/FloatingModal.tsx:107-118 | the new state and the observer value are `Move` of the old state |
| `Floating.FloatingModal.OnPointerUp` | src/FloatingModal.tsx:120-123 | the new state is `Release` of the old: not dragging, offsets and `pos` kept |

## Left out

- The React context, the provider component and the error thrown by `useWindowManager` outside a provider: framework wiring.
- Rendering (`cloneElement` with `windowId`, `zIndex` styling, the mouse-down and touch-start hookup): UI. The rendered wrapper calls `focus` with the record's own id.
- React's scheduling of dispatches. Each `Manager` method applies its action to the state at once, in call order, which is the order React's reducer applies them.
- The reducer's `default` branch: `Action` is a closed datatype, so it cannot be reached.
- Listener attach and detach, `style.cursor`, and pointer capture and release: DOM calls. `HandleFor` models only the choice of handle element.
- `getBoundingClientRect`, `window.innerWidth` and `window.innerHeight`: these are parameters.
- A missing element in `resetPosition`, which the code dereferences with `!`: the model always takes a measured rect.
- Re-running the layout effect when the `initialX`/`initialY` props change: props are fixed for an instance.
- JavaScript floating-point rounding: coordinates are exact reals, ids and z values unbounded integers.
- Singleton deduplication by shallow prop equality: the code has none.
