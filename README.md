# Portfolio visuals: orb, blog cards and gallery walkthrough, in Dafny

This project models the small pieces of sequential logic inside two
client-side scripts of a portfolio website and proves properties about them.

- `orb.dfy` (module `Orb`, from `scripts.js`): the homepage orb.
  - The cursor trail is a bounded FIFO. Each `mousemove` pushes a sample, and
    the oldest sample is dropped once there are more than 60.
  - Each frame the orb aims at the sample 18 moves behind the newest one.
  - The aura sprite-sheet frame counter advances modulo 200. It is split into
    a column and a row of a 5 × 60 sheet, which gives the texture offset.
  - The idle flag rises after 3 s without a mouse move.
  - `OrbState` is the class of the variables these handlers share.
- `blog.dfy` (module `Blog`, from `loadBlogPosts` in `scripts.js`): the cards
  of the full blog page and of the homepage preview. It covers:
  - the link rules: an `http…` path is kept as it is, any other path gets a
    `../` prefix, and a missing path gets the fallback `#` or `blog.html`;
  - the new-tab attribute;
  - the first three posts;
  - the 100-character excerpt;
  - the empty-list and fetch-failure messages.
- `gallery.dfy` (module `Gallery`, from `gallery_scripts.js`): the
  first-person gallery. It covers:
  - the twelve-key held map and its keydown/keyup handlers;
  - the movement intents in {-1, 0, 1} and the gating of movement on pointer
    lock and intro completion;
  - the one-way intro timer and the camera depth it sets;
  - the canvas click, which either requests the pointer lock or tries the
    manuscript download, and the file name that the download suggests.

  `Walkthrough` is the class of the module-level state.
- `wrappers.dfy`: an `Option` type for JavaScript's absent properties.

Times are `real`: milliseconds for the orb and seconds for the gallery.
Clocks, texture-load status, raycast hits and the easing value are
parameters. Calls into PointerLockControls are recorded as `MoveCall`
requests and are not executed.

## Model

| member | source | states |
|---|---|---|
| `Orb.Pushed` | scripts.js:138-139 | After a push, the given sample is last. If the trail was full, exactly the oldest sample is dropped and the rest keep their order. A trail of at most 60 samples stays within 60. |
| `Orb.TrailIsRecentHistory` | scripts.js:130-139 | After any sequence of mouse moves, the trail is exactly the last min(n, 60) samples, in arrival order. |
| `Orb.Target` | scripts.js:184 | The follow target is a sample of the trail, or the orb's own position when the trail is empty. |
| `Orb.TargetFollowsHistory` | scripts.js:184 | In terms of the whole cursor history, the target is the sample that arrived 18 moves before the newest. With 1 to 18 moves it is the first sample ever, and with no move it is the orb's position. |
| `Orb.AuraSheetFits` | scripts.js:52-58 | The configured sheet passes the load-time test and fits: 200 frames ≤ 5 columns × 60 rows (strictly fewer, despite the comment at line 56). |
| `Orb.NextFrame` | scripts.js:158 | The next frame is always below `totalFrames`. It is frame + 1, or 0 after the last frame. |
| `Orb.FrameAfterIsModular` | scripts.js:156-158 | After k advances from frame f, the counter is (f + k) mod totalFrames. |
| `Orb.CellOf` | scripts.js:160-161 | column < columns and frame = row · columns + column. For a frame of a sheet that fits, row < rows. |
| `Orb.CellOfInjective` | scripts.js:160-161 | No two frames share a cell. |
| `Orb.OffsetOf` | scripts.js:163-165 | The texture offset of a cell on the sheet lies in [0, 1) on both axes. |
| `Orb.OffsetShowsCell` | scripts.js:163-165 | The offset shows its cell: its x is column/columns and its top edge is at 1 − row/rows. Rows count from the top: a lower row has a larger y, and row 0's tile reaches the top edge. Different cells get different offsets. |
| `Orb.OrbState.constructor` | scripts.js:130-131 | Initial state: empty trail, `lastMove` = now, not idle, frame 0, `lastAuraFrameTime` 0. |
| `Orb.OrbState.MouseMove` | scripts.js:136-141 | The trail becomes `Pushed(old trail, sample)`, `lastMove` = now and idle is cleared. The invariant holds: trail ≤ 60, and idle only after 3 s without a move. |
| `Orb.OrbState.AdvanceAura` | scripts.js:156-166 | The frame advances exactly when the texture and its image are loaded, totalFrames > 1 and more than 20 ms have passed. Then it becomes `NextFrame`, `lastAuraFrameTime` = now and the offset shows its cell. Otherwise nothing changes. |
| `Orb.OrbState.CheckIdle` | scripts.js:181 | The flag rises only from false, and only after more than 3000 ms since the last move. Afterwards it says exactly whether more than 3000 ms have passed. |
| `Orb.OrbState.AnimateOrb` | scripts.js:150-184 | One frame runs the aura step exactly as `AdvanceAura` states, then the idle test, and returns `Target(trail, orb)`. The trail and `lastMove` are unchanged. |
| `Blog.LinkCases` | scripts.js:317 | An `http` path is used unchanged. Any other path gets the `../` prefix. The link equals the fallback if and only if the path is missing or empty. |
| `Blog.LinkInjective` | scripts.js:317 | Two posts with paths get the same link only when their paths are equal. |
| `Blog.PagesAgreeOnPaths` | scripts.js:338 | The preview and the full page give the same link if and only if the post has a path. Only the fallbacks (`#`, `blog.html`) differ. |
| `Blog.Excerpt` | scripts.js:342 | The excerpt is the first min(100, n) characters of the summary, followed by `...`. |
| `Blog.PreviewPosts` | scripts.js:331 | The preview shows the first min(3, n) posts, in their original order. |
| `Blog.FullCardOf` | scripts.js:317-323 | A card opens a new tab exactly for `http` paths. It has a Read More button exactly when the post has a path, and otherwise its title link is disabled. |
| `Blog.PreviewCardOf` | scripts.js:338-343 | A preview card uses the preview link and the excerpt. It opens a new tab only for `http` paths. Its button reads "Read More →" with a path and "View Post →" without one. |
| `Blog.RenderFullPage` | scripts.js:308-326 | An empty list gives the message "No posts yet. Stay tuned!". Otherwise there is one card per post, in order. |
| `Blog.RenderPreview` | scripts.js:329-347 | An empty list gives "No recent posts.". Otherwise there is one `PreviewCardOf` card for each of the first min(3, n) posts, in order. |
| `Blog.LoadBlogPosts` | scripts.js:296-353 | A missing container is untouched. A failed fetch puts the error message in each container that exists. After a successful fetch, the full page holds `IsFullView` of the posts, and the preview holds `IsPreviewView`: the empty-list message, or exactly the cards `RenderFullPage`/`RenderPreview` promise. An empty list returns early and leaves the preview untouched when the full page exists. |
| `Gallery.InitialKeys` | gallery_scripts.js:18-22 | The map holds exactly the twelve keys, all released. |
| `Gallery.HandleKey` | gallery_scripts.js:249-250 | A recognised key is set held on keydown and released on keyup. Every other entry is unchanged, the key set is unchanged, and an unrecognised key leaves the map as it was. |
| `Gallery.KeyRepeatIdempotent` | gallery_scripts.js:249 | Repeating a key event changes nothing after the first. |
| `Gallery.PressThenReleaseForgotten` | gallery_scripts.js:249-250 | A press followed by a release leaves the same map as the release alone. |
| `Gallery.KeysAfterIsLastEvent` | gallery_scripts.js:249-250 | After any event sequence, the key set is unchanged. Each key holds what its last event said, or its initial value when there was none. |
| `Gallery.Axis` | gallery_scripts.js:299-302 | An axis intent is in {-1, 0, 1}. It is 0 if and only if both or neither direction is held, and -1 / +1 exactly for the first / second direction alone. |
| `Gallery.ComputeIntents` | gallery_scripts.js:296-302 | The counter updates give `IntentsOf(keys)`. Both intents are in {-1, 0, 1}, and opposite keys cancel to 0. |
| `Gallery.PressedDirections` | gallery_scripts.js:299-302 | Pressing a recognised key adds exactly its own direction to the held directions. |
| `Gallery.SynonymsInterchangeable` | gallery_scripts.js:299-302 | Pressing the lower-case key, the upper-case key or the arrow key of one direction gives the same intents. |
| `Gallery.MoveCallAsWritten` | gallery_scripts.js:305-309 | As written, `moveForward` receives the forward intent itself and `moveRight` the right intent. |
| `Gallery.ForwardKeysWalkBackwardAsWritten` | gallery_scripts.js:299-308 | As written, the forward keys alone give a negative forward distance and the back keys alone a positive one. |
| `Gallery.MoveCallFor` | gallery_scripts.js:305-309 | Corrected: the forward distance is the negated forward intent. The sideways distance and the speed are unchanged. |
| `Gallery.KeysMoveAsLabelled` | gallery_scripts.js:299-309 | Corrected: the player moves along the view exactly when only forward keys are held, backwards exactly when only back keys are held, and likewise for right and left. |
| `Gallery.MoveRequests` | gallery_scripts.js:305-310 | A frame makes no move call if and only if both intents are 0, and otherwise exactly one `MoveCall` record, standing for the `moveForward`/`moveRight` pair. |
| `Gallery.TimerFrozenAfterIntro` | gallery_scripts.js:317-318 | Once the timer reaches 3 s, no sequence of frames ever changes it. |
| `Gallery.TimerAccumulatesDuringIntro` | gallery_scripts.js:317-318 | While the intro lasts, the timer equals the start value plus the sum of the frame deltas. |
| `Gallery.Progress` | gallery_scripts.js:319 | progress = min(t/3, 1). It is ≤ 1, it is ≥ 0 for t ≥ 0, and it equals 1 exactly when t ≥ 3. |
| `Gallery.LerpBetween` | gallery_scripts.js:324 | For an easing value within [0, 1], the interpolated depth lies between the end and the start. |
| `Gallery.IntroCameraZ` | gallery_scripts.js:322-329 | Corrected intro depth, with the cube front as a parameter. Once the intro is over, the camera is at least 0.3 in front of the cube. For an easing value within [0, 1], it stays between the end depth and 12 during the intro. |
| `Gallery.IntroFrameAsWritten` | gallery_scripts.js:316-324 | As written, an intro frame advances the timer and then throws a ReferenceError. A frame after the intro completes normally. |
| `Gallery.CameraNeverMovesAsWritten` | gallery_scripts.js:316-338 | As written, over any sequence of frames the timer runs its normal course, but the intro never sets the camera depth. |
| `Gallery.LastSegment` | gallery_scripts.js:283 | `split('/').pop()` contains no slash. It is a suffix of the path, preceded by a slash unless it is the whole path. |
| `Gallery.SuggestedFileName` | gallery_scripts.js:283 | The suggested name is never empty and has no slash. It is the last segment, or `manuscript.pdf` when that segment is empty. |
| `Gallery.FileNameRoundTrip` | gallery_scripts.js:283 | For dir + "/" + name with a non-empty, slash-free name, the suggested file name is name. |
| `Gallery.ManuscriptFileName` | gallery_scripts.js:34 | The configured path suggests `your_manuscript_excerpt.pdf`. |
| `Gallery.HandleInteractionClick` | gallery_scripts.js:271-289 | A download is made if and only if the controls are locked, there is a hit, and the nearest hit has action `download_pdf` and a non-empty `pdfPath`. It points at that path and suggests its file name. |
| `Gallery.NearestHitDecides` | gallery_scripts.js:277-279 | Only the nearest hit matters. Whatever lies behind it is ignored. |
| `Gallery.BenchDownloadsManuscript` | gallery_scripts.js:201-202 | A locked click with the bench nearest downloads `docs/your_manuscript_excerpt.pdf` as `your_manuscript_excerpt.pdf`. |
| `Gallery.CanvasClick` | gallery_scripts.js:233-238 | An unlocked click requests the lock if and only if the controls are unlocked, and never interacts. A locked click gives exactly the result of `HandleInteractionClick`. |
| `Gallery.Walkthrough.constructor` | gallery_scripts.js:18-31 | Initial state: all twelve keys released, unlocked, timer 0, camera at (y 1.7, z 12), no moves. |
| `Gallery.Walkthrough.OnKey` | gallery_scripts.js:249-250 | The key map becomes `HandleKey(old keys, event)`. Nothing else changes. |
| `Gallery.Walkthrough.OnPointerLockChange` | gallery_scripts.js:240-247 | The lock and unlock events set the lock state. Nothing else changes. |
| `Gallery.Walkthrough.UpdatePlayerPosition` | gallery_scripts.js:291-313 | When unlocked or during the intro, nothing changes. Otherwise the frame's corrected move request (`MoveCallFor`, through `MoveRequests`) is appended, and the camera stays at height 1.7. |
| `Gallery.Walkthrough.AnimateInitialCamera` | gallery_scripts.js:316-331 | The timer becomes `IntroTick(old, delta)`. During the intro the depth is `IntroCameraZ`, and afterwards nothing changes. |
| `Gallery.Walkthrough.Animate` | gallery_scripts.js:333-345 | The timer always becomes `IntroTick(old, delta)`. During the intro the depth becomes `IntroCameraZ` and no move is requested. An unlocked frame never requests a move. After the intro, a locked frame appends the corrected move request and the depth is untouched. |

## Findings

| source | as written | input that shows it | evidently intended | confidence | as-written member | corrected member |
|---|---|---|---|---|---|---|
| gallery_scripts.js:323 | `endZ` reads `cubeSize`, which is a local of `init` (line 100). An intro frame therefore throws a ReferenceError right after the timer increment. The camera depth is never set, and the frame is never rendered. | any intro frame, e.g. the first one with `initialAnimationTime` = 0 | the camera dollies from z = 12 to 1.5 in front of the cube and ends at least 0.3 in front of it | high; not executed | `Gallery.CameraNeverMovesAsWritten` | `Gallery.IntroCameraZ` |
| gallery_scripts.js:299-308 | `moveForwardAmount` is -1 for `w`/`W`/`ArrowUp`, and `controls.moveForward` receives it unnegated | only `w` held, locked, after the intro: `moveForward(-4·delta)` | the forward keys move the player along the view direction | medium (rests on PointerLockControls moving along the view for a positive distance; that library is not part of this model); not executed | `Gallery.ForwardKeysWalkBackwardAsWritten` | `Gallery.KeysMoveAsLabelled` |

`Gallery.Walkthrough` uses the corrected definitions for both findings:
`IntroCameraZ` with the cube front as a parameter, and `MoveCallFor`.

## Left out

- Three.js scene construction is left out because it is library object graphs with nothing to prove. This covers geometry, materials, lights, shadows, the renderer, the camera set-up and the texture and model loaders (gallery_scripts.js:49-228, scripts.js:6-127).
- Floating-point tweening of the orb is left out. This covers scale, opacity, hue, emissive and transmission smoothing, the repulsion vector, the click squash and the mouse-to-world mapping (scripts.js:137, 168-245). Cursor samples are opaque values.
- Real numbers in the model are exact, so IEEE rounding of times and offsets is not modelled.
- Gallery.Walkthrough.AnimateInitialCamera: the cosine easing of progress is the `ease` parameter, and its result is not computed.
- Gallery.Walkthrough.UpdatePlayerPosition: it records the corrected call `MoveCallFor`, which has the forward sign negated, and not the `moveForward(-speed)` the source passes for the forward keys (see Findings).
- Gallery.Walkthrough.Animate: its movement step records the corrected call `MoveCallFor`, as `UpdatePlayerPosition` does.
- Gallery.MoveCallFor: it records only the signs of the `moveForward`/`moveRight` distances and the frame speed. The 1/√2 normalisation of a diagonal by `Vector2.normalize` is not modelled.
- Calls into PointerLockControls are not executed. The horizontal camera displacement they make is not tracked, and only the requests are kept (`Walkthrough.moves`).
- `controls.lock()` is the `RequestLock` outcome. The asynchronous lock/unlock events are `OnPointerLockChange`.
- `Raycaster.intersectObjects` is its list of hits, nearest first, given as input. The 5-unit range is applied by the raycaster and is not modelled.
- I/O is left out. `fetch` and the JSON parse are one optional input. The `innerHTML` markup and the `toLocaleDateString` date formatting are not modelled.
- Exceptions that malformed posts would raise are not modelled: a `summary` or a `filePath` that is not a string.
- The video controls, the footer year, the `localStorage` save and restore of the orb position, the resize handlers, the `requestAnimationFrame` loop and the anchor click that starts the download are left out as DOM and browser I/O.
- Clocks are parameters: `performance.now()`, the frame timestamp and `Clock.getDelta()`. The orb's handlers require a non-decreasing `performance.now()`, and the gallery's frames a non-negative delta.
- Texture loading is the `mapLoaded` parameter, which stands for the test `auraMat.map && auraMat.map.image`.
- JavaScript strings are UTF-16 code units, while the model's strings are sequences of Dafny characters. `substring(0, 100)` is modelled as the first 100 characters.
