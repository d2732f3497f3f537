/**
 * The first-person gallery (gallery_scripts.js): the held-key map and its
 * keyboard handlers, the movement intents derived from it and the gating of
 * movement, the one-way intro timer, and the click that either captures the
 * pointer or triggers the manuscript download. Scene construction, the
 * floating-point camera motion and the calls into PointerLockControls and
 * the Raycaster are outside the model: a move is recorded as the request
 * made to the controls, and a raycast is given as its list of hits.
 */
module Gallery {
  import opened Wrappers

  const ForwardKeys: set<string> := {"w", "W", "ArrowUp"}
  const BackKeys: set<string> := {"s", "S", "ArrowDown"}
  const LeftKeys: set<string> := {"a", "A", "ArrowLeft"}
  const RightKeys: set<string> := {"d", "D", "ArrowRight"}
  /** The twelve keys of the `keys` object. */
  const KeyNames: set<string> := ForwardKeys + BackKeys + LeftKeys + RightKeys

  /** `moveSpeed`, in units per second. */
  const MoveSpeed: real := 4.0
  /** The camera height the movement update pins. */
  const EyeHeight: real := 1.7
  /** `initialAnimationDuration`, in seconds. */
  const IntroDuration: real := 3.0
  /** `startZ` of the intro dolly. */
  const IntroStartZ: real := 12.0
  /** The dolly ends this far in front of the cube's front face ... */
  const IntroEndOffset: real := 1.5
  /** ... and the camera is finally kept at least this far in front of it. */
  const IntroClearance: real := 0.3

  const DownloadAction: string := "download_pdf"
  const ManuscriptDir: string := "docs"
  const ManuscriptFile: string := "your_manuscript_excerpt.pdf"
  /** `manuscriptPDFPath`. */
  const ManuscriptPath: string := "docs/your_manuscript_excerpt.pdf"
  const FallbackFileName: string := "manuscript.pdf"

  // ---------------------------------------------------------------------------
  // Keyboard input
  // ---------------------------------------------------------------------------

  datatype KeyboardEvent = KeyDown(key: string) | KeyUp(key: string)

  /** The `keys` object as initialised: every recognised key released. */
  function InitialKeys(): (m: map<string, bool>)
    ensures m.Keys == KeyNames
    ensures forall k :: k in m ==> !m[k]
  {
    map k | k in KeyNames :: false
  }

  /** The keydown / keyup handler: a recognised key is set held or released, anything else is ignored. */
  function HandleKey(keys: map<string, bool>, e: KeyboardEvent): (r: map<string, bool>)
    ensures r.Keys == keys.Keys
    ensures e.key in keys ==> r[e.key] == e.KeyDown?
    ensures forall k :: k in keys && k != e.key ==> r[k] == keys[k]
    ensures e.key !in keys ==> r == keys
  {
    if e.key in keys then keys[e.key := e.KeyDown?] else keys
  }

  /** Repeated keydown events (the operating system's key repeat) change nothing after the first. */
  lemma KeyRepeatIdempotent(keys: map<string, bool>, e: KeyboardEvent)
    ensures HandleKey(HandleKey(keys, e), e) == HandleKey(keys, e)
  {
  }

  /** A press released before the next frame samples the map leaves no trace. */
  lemma PressThenReleaseForgotten(keys: map<string, bool>, key: string)
    ensures HandleKey(HandleKey(keys, KeyDown(key)), KeyUp(key)) == HandleKey(keys, KeyUp(key))
  {
  }

  /** The map after a sequence of keyboard events, oldest first. */
  function KeysAfter(keys: map<string, bool>, events: seq<KeyboardEvent>): map<string, bool>
  {
    if events == [] then keys else KeysAfter(HandleKey(keys, events[0]), events[1..])
  }

  /** The last event on `key` in `events`, if any. */
  function LastEventOn(events: seq<KeyboardEvent>, key: string): Option<KeyboardEvent>
  {
    if events == [] then None
    else if events[|events| - 1].key == key then Some(events[|events| - 1])
    else LastEventOn(events[..|events| - 1], key)
  }

  /** Whether a key is held after its last event, or its initial state when there was none. */
  function HeldAfter(last: Option<KeyboardEvent>, initial: bool): bool
  {
    match last
    case Some(e) => e.KeyDown?
    case None => initial
  }

  lemma {:induction false} KeysAfterSnoc(keys: map<string, bool>, events: seq<KeyboardEvent>, e: KeyboardEvent)
    ensures KeysAfter(keys, events + [e]) == HandleKey(KeysAfter(keys, events), e)
  {
    if events != [] {
      assert (events + [e])[1..] == events[1..] + [e];
      KeysAfterSnoc(HandleKey(keys, events[0]), events[1..], e);
    }
  }

  /**
   * Only the recognised keys are ever written, and each holds exactly what
   * the last event on it said (its initial value when there was none): the
   * map is a pure sample of the current key state.
   */
  lemma {:induction false} KeysAfterIsLastEvent(keys: map<string, bool>, events: seq<KeyboardEvent>, key: string)
    ensures KeysAfter(keys, events).Keys == keys.Keys
    ensures key in keys ==> KeysAfter(keys, events)[key] == HeldAfter(LastEventOn(events, key), keys[key])
  {
    if events != [] {
      var n := |events|;
      var init := events[..n - 1];
      KeysAfterIsLastEvent(keys, init, key);
      assert init + [events[n - 1]] == events;
      KeysAfterSnoc(keys, init, events[n - 1]);
    }
  }

  // ---------------------------------------------------------------------------
  // Movement intents and gating
  // ---------------------------------------------------------------------------

  predicate Held(keys: map<string, bool>, k: string)
  {
    k in keys && keys[k]
  }

  predicate ForwardHeld(keys: map<string, bool>) { Held(keys, "w") || Held(keys, "W") || Held(keys, "ArrowUp") }
  predicate BackHeld(keys: map<string, bool>) { Held(keys, "s") || Held(keys, "S") || Held(keys, "ArrowDown") }
  predicate LeftHeld(keys: map<string, bool>) { Held(keys, "a") || Held(keys, "A") || Held(keys, "ArrowLeft") }
  predicate RightHeld(keys: map<string, bool>) { Held(keys, "d") || Held(keys, "D") || Held(keys, "ArrowRight") }

  /** `moveForwardAmount` and `moveRightAmount`; the forward keys give -1 on the first. */
  datatype Intents = Intents(forward: int, right: int)

  /** One axis: -1 for the first direction alone, +1 for the second alone, 0 for both or neither. */
  function Axis(minus: bool, plus: bool): (a: int)
    ensures -1 <= a <= 1
    ensures a == 0 <==> minus == plus
    ensures a == -1 <==> minus && !plus
    ensures a == 1 <==> plus && !minus
  {
    (if plus then 1 else 0) - (if minus then 1 else 0)
  }

  function IntentsOf(keys: map<string, bool>): Intents
  {
    Intents(Axis(ForwardHeld(keys), BackHeld(keys)), Axis(LeftHeld(keys), RightHeld(keys)))
  }

  /** The intent computation of `updatePlayerPosition`, by successive updates of two counters. */
  method ComputeIntents(keys: map<string, bool>) returns (i: Intents)
    ensures i == IntentsOf(keys)
    ensures i.forward in {-1, 0, 1} && i.right in {-1, 0, 1}
    ensures i.forward == 0 <==> ForwardHeld(keys) == BackHeld(keys)
    ensures i.right == 0 <==> LeftHeld(keys) == RightHeld(keys)
  {
    var forward, right := 0, 0;
    if Held(keys, "w") || Held(keys, "W") || Held(keys, "ArrowUp") {
      forward := forward - 1;
    }
    if Held(keys, "s") || Held(keys, "S") || Held(keys, "ArrowDown") {
      forward := forward + 1;
    }
    if Held(keys, "a") || Held(keys, "A") || Held(keys, "ArrowLeft") {
      right := right - 1;
    }
    if Held(keys, "d") || Held(keys, "D") || Held(keys, "ArrowRight") {
      right := right + 1;
    }
    i := Intents(forward, right);
  }

  /** Pressing a recognised key adds exactly its own direction to the held directions. */
  lemma PressedDirections(keys: map<string, bool>, k: string)
    requires k in keys
    ensures ForwardHeld(HandleKey(keys, KeyDown(k))) == (k in ForwardKeys || ForwardHeld(keys))
    ensures BackHeld(HandleKey(keys, KeyDown(k))) == (k in BackKeys || BackHeld(keys))
    ensures LeftHeld(HandleKey(keys, KeyDown(k))) == (k in LeftKeys || LeftHeld(keys))
    ensures RightHeld(HandleKey(keys, KeyDown(k))) == (k in RightKeys || RightHeld(keys))
  {
  }

  /** Lower case, upper case and the arrow key of one direction are interchangeable. */
  lemma SynonymsInterchangeable(keys: map<string, bool>, k1: string, k2: string)
    requires keys.Keys == KeyNames
    requires || (k1 in ForwardKeys && k2 in ForwardKeys)
             || (k1 in BackKeys && k2 in BackKeys)
             || (k1 in LeftKeys && k2 in LeftKeys)
             || (k1 in RightKeys && k2 in RightKeys)
    ensures IntentsOf(HandleKey(keys, KeyDown(k1))) == IntentsOf(HandleKey(keys, KeyDown(k2)))
  {
    var h1, h2 := HandleKey(keys, KeyDown(k1)), HandleKey(keys, KeyDown(k2));
    PressedDirections(keys, k1);
    PressedDirections(keys, k2);
    SameGroup(k1, k2);
    assert ForwardHeld(h1) == ForwardHeld(h2) && BackHeld(h1) == BackHeld(h2);
    assert LeftHeld(h1) == LeftHeld(h2) && RightHeld(h1) == RightHeld(h2);
  }

  /** The four key groups are disjoint, so two keys of one group lie in exactly the same groups. */
  lemma SameGroup(k1: string, k2: string)
    requires || (k1 in ForwardKeys && k2 in ForwardKeys)
             || (k1 in BackKeys && k2 in BackKeys)
             || (k1 in LeftKeys && k2 in LeftKeys)
             || (k1 in RightKeys && k2 in RightKeys)
    ensures (k1 in ForwardKeys <==> k2 in ForwardKeys) && (k1 in BackKeys <==> k2 in BackKeys)
    ensures (k1 in LeftKeys <==> k2 in LeftKeys) && (k1 in RightKeys <==> k2 in RightKeys)
  {
  }

  /**
   * One frame's pair of calls `controls.moveForward(d1)` and
   * `controls.moveRight(d2)`: `along` is the sign of d1 (positive moves along
   * the view direction), `sideways` the sign of d2 (positive moves right),
   * and `speed` the frame's distance. The normalisation of a diagonal by
   * 1/sqrt 2 is not modelled. `MoveCallAsWritten` gives the signs the source
   * passes, `MoveCallFor` the corrected ones.
   */
  datatype MoveCall = MoveCall(along: int, sideways: int, speed: real)

  /** As written: `moveForward` receives the forward intent itself. */
  function MoveCallAsWritten(i: Intents, speed: real): (c: MoveCall)
    ensures c.along == i.forward && c.sideways == i.right
  {
    MoveCall(i.forward, i.right, speed)
  }

  /**
   * With PointerLockControls' convention that a positive distance moves
   * along the view direction, the code as written walks backwards on the
   * forward keys and forwards on the back keys.
   */
  lemma ForwardKeysWalkBackwardAsWritten(keys: map<string, bool>, speed: real)
    ensures ForwardHeld(keys) && !BackHeld(keys) ==> MoveCallAsWritten(IntentsOf(keys), speed).along == -1
    ensures BackHeld(keys) && !ForwardHeld(keys) ==> MoveCallAsWritten(IntentsOf(keys), speed).along == 1
  {
  }

  /** Corrected: the forward intent is negated, so the forward keys move along the view. */
  function MoveCallFor(i: Intents, speed: real): (c: MoveCall)
    ensures c.along == -i.forward && c.sideways == i.right && c.speed == speed
  {
    MoveCall(-i.forward, i.right, speed)
  }

  /** Each key group moves the player its own way, and opposite keys cancel. */
  lemma KeysMoveAsLabelled(keys: map<string, bool>, speed: real)
    ensures MoveCallFor(IntentsOf(keys), speed).along == 1 <==> ForwardHeld(keys) && !BackHeld(keys)
    ensures MoveCallFor(IntentsOf(keys), speed).along == -1 <==> BackHeld(keys) && !ForwardHeld(keys)
    ensures MoveCallFor(IntentsOf(keys), speed).sideways == 1 <==> RightHeld(keys) && !LeftHeld(keys)
    ensures MoveCallFor(IntentsOf(keys), speed).sideways == -1 <==> LeftHeld(keys) && !RightHeld(keys)
  {
    var i := IntentsOf(keys);
    assert i.forward == Axis(ForwardHeld(keys), BackHeld(keys));
    assert i.right == Axis(LeftHeld(keys), RightHeld(keys));
  }

  /** The moves a frame requests: none when no direction survives cancellation, else one. */
  function MoveRequests(i: Intents, speed: real): (r: seq<MoveCall>)
    ensures |r| <= 1
    ensures r == [] <==> i.forward == 0 && i.right == 0
  {
    if i.forward == 0 && i.right == 0 then [] else [MoveCallFor(i, speed)]
  }

  // ---------------------------------------------------------------------------
  // Intro timer
  // ---------------------------------------------------------------------------

  /** The timer update of one frame: it grows only while below the duration. */
  function IntroTick(t: real, delta: real): real
  {
    if t < IntroDuration then t + delta else t
  }

  /** The timer after a sequence of frame deltas, oldest first. */
  function TimerAfter(t: real, deltas: seq<real>): real
    decreases |deltas|
  {
    if deltas == [] then t else TimerAfter(IntroTick(t, deltas[0]), deltas[1..])
  }

  function Sum(deltas: seq<real>): real
  {
    if deltas == [] then 0.0 else deltas[0] + Sum(deltas[1..])
  }

  /** Once the duration is reached the timer is never modified again: FreeRoam is permanent. */
  lemma {:induction false} TimerFrozenAfterIntro(t: real, deltas: seq<real>)
    requires t >= IntroDuration
    ensures TimerAfter(t, deltas) == t
    decreases |deltas|
  {
    if deltas != [] {
      TimerFrozenAfterIntro(IntroTick(t, deltas[0]), deltas[1..]);
    }
  }

  /** While the intro lasts, the timer is exactly the start value plus the elapsed frame time. */
  lemma {:induction false} TimerAccumulatesDuringIntro(t: real, deltas: seq<real>)
    requires TimerAfter(t, deltas) < IntroDuration
    ensures TimerAfter(t, deltas) == t + Sum(deltas)
    decreases |deltas|
  {
    if deltas != [] {
      if t >= IntroDuration {
        TimerFrozenAfterIntro(t, deltas);
      }
      TimerAccumulatesDuringIntro(t + deltas[0], deltas[1..]);
    }
  }

  /** `progress`: the elapsed share of the intro, capped at 1, reaching 1 exactly when the intro is over. */
  function Progress(t: real): (p: real)
    ensures p <= 1.0
    ensures 0.0 <= t ==> 0.0 <= p
    ensures p == 1.0 <==> t >= IntroDuration
  {
    if t / IntroDuration < 1.0 then t / IntroDuration else 1.0
  }

  /** `THREE.MathUtils.lerp`. */
  function Lerp(x: real, y: real, e: real): real
  {
    (1.0 - e) * x + e * y
  }

  /** For an easing within [0, 1] the interpolation stays between its two ends. */
  lemma LerpBetween(x: real, y: real, e: real)
    ensures y <= x && 0.0 <= e <= 1.0 ==> y <= Lerp(x, y, e) <= x
  {
    assert Lerp(x, y, e) == x - e * (x - y);
    if y <= x && 0.0 <= e <= 1.0 {
      MulNonNegative(e, x - y);
      MulNonNegative(1.0 - e, x - y);
      assert (1.0 - e) * (x - y) == (x - y) - e * (x - y);
    }
  }

  lemma MulNonNegative(a: real, b: real)
    requires 0.0 <= a && 0.0 <= b
    ensures 0.0 <= a * b
  {
  }

  function Max(a: real, b: real): real
  {
    if a < b then b else a
  }

  /**
   * The camera depth after an intro frame in which the timer reached `t`,
   * given the eased progress `eased` and the depth `cubeFrontZ` of the
   * cube's front face: the dolly position, kept clear of the face once the
   * intro is over.
   */
  function IntroCameraZ(t: real, eased: real, cubeFrontZ: real): (z: real)
    ensures t >= IntroDuration ==> z >= cubeFrontZ + IntroClearance
    ensures 0.0 <= eased <= 1.0 && cubeFrontZ + IntroEndOffset <= IntroStartZ ==>
      cubeFrontZ + IntroEndOffset <= z <= IntroStartZ
  {
    var z := Lerp(IntroStartZ, cubeFrontZ + IntroEndOffset, eased);
    LerpBetween(IntroStartZ, cubeFrontZ + IntroEndOffset, eased);
    if t >= IntroDuration then Max(z, cubeFrontZ + IntroClearance) else z
  }

  /** Whether a frame ran to completion or threw before rendering. */
  datatype FrameOutcome = Completed | ReferenceError

  /** The intro state `animate` carries from frame to frame: the timer and the camera depth. */
  datatype IntroState = IntroState(time: real, cameraZ: real)

  /**
   * One frame of the intro as written: the timer advances, then the end
   * depth reads `cubeSize`, which is local to `init`, so the frame throws
   * and the camera depth is never assigned.
   */
  function IntroFrameAsWritten(s: IntroState, delta: real): (r: (IntroState, FrameOutcome))
    ensures r.0.time == IntroTick(s.time, delta)
    ensures r.1 == ReferenceError <==> s.time < IntroDuration
  {
    if s.time < IntroDuration then (IntroState(s.time + delta, s.cameraZ), ReferenceError)
    else (s, Completed)
  }

  function IntroAsWritten(s: IntroState, deltas: seq<real>): IntroState
    decreases |deltas|
  {
    if deltas == [] then s else IntroAsWritten(IntroFrameAsWritten(s, deltas[0]).0, deltas[1..])
  }

  /** As written, the timer still runs its course but the dolly never moves the camera. */
  lemma {:induction false} CameraNeverMovesAsWritten(s: IntroState, deltas: seq<real>)
    ensures IntroAsWritten(s, deltas).cameraZ == s.cameraZ
    ensures IntroAsWritten(s, deltas).time == TimerAfter(s.time, deltas)
    decreases |deltas|
  {
    if deltas != [] {
      CameraNeverMovesAsWritten(IntroFrameAsWritten(s, deltas[0]).0, deltas[1..]);
    }
  }

  // ---------------------------------------------------------------------------
  // Interaction
  // ---------------------------------------------------------------------------

  /** An object's `userData`; properties the object does not set are None. */
  datatype UserData = UserData(name: string, action: Option<string>, pdfPath: Option<string>)

  /** The bench, the one interactable object. */
  const BenchData: UserData := UserData("manuscript_bench", Some(DownloadAction), Some(ManuscriptPath))

  /** The anchor the download creates: where it points and the file name it suggests. */
  datatype Download = Download(href: string, fileName: string)

  /** `split('/').pop()`: the text after the last slash, the whole path when there is none. */
  function LastSegment(path: string): (r: string)
    ensures '/' !in r
    ensures |r| <= |path| && r == path[|path| - |r|..]
    ensures |r| < |path| ==> path[|path| - |r| - 1] == '/'
  {
    if path == [] then []
    else if path[|path| - 1] == '/' then []
    else
      var r := LastSegment(path[..|path| - 1]) + [path[|path| - 1]];
      assert path[..|path| - 1][|path| - |r|..] + [path[|path| - 1]] == path[|path| - |r|..];
      r
  }

  /** `link.download`: the last segment, or the fallback name when that is empty. */
  function SuggestedFileName(path: string): (r: string)
    ensures r != [] && '/' !in r
    ensures LastSegment(path) != [] ==> r == LastSegment(path)
    ensures LastSegment(path) == [] ==> r == FallbackFileName
  {
    var last := LastSegment(path);
    FallbackHasNoSlash();
    if last != [] then last else FallbackFileName
  }

  lemma FallbackHasNoSlash()
    ensures '/' !in FallbackFileName
  {
    forall i | 0 <= i < |FallbackFileName| ensures FallbackFileName[i] != '/' {
    }
  }

  lemma SlashInSuffix(path: string, r: string, k: int)
    requires |r| <= |path| && r == path[|path| - |r|..]
    requires |path| - |r| <= k < |path| && path[k] == '/'
    ensures '/' in r
  {
    assert r[k - (|path| - |r|)] == '/';
  }

  /** A file name after a directory is recovered exactly. */
  lemma FileNameRoundTrip(dir: string, name: string)
    requires name != [] && '/' !in name
    ensures SuggestedFileName(dir + "/" + name) == name
  {
    var path := dir + "/" + name;
    var r := LastSegment(path);
    if |r| > |name| {
      SlashInSuffix(path, r, |dir|);
      assert false;
    } else if |r| < |name| {
      assert false;
    }
    assert r == path[|path| - |name|..] == name;
  }

  lemma ManuscriptFileName()
    ensures SuggestedFileName(ManuscriptPath) == ManuscriptFile
  {
    assert ManuscriptPath == ManuscriptDir + "/" + ManuscriptFile;
    ManuscriptFileHasNoSlash();
    FileNameRoundTrip(ManuscriptDir, ManuscriptFile);
  }

  lemma ManuscriptFileHasNoSlash()
    ensures ManuscriptFile != [] && '/' !in ManuscriptFile
  {
    forall i | 0 <= i < |ManuscriptFile| ensures ManuscriptFile[i] != '/' {
    }
  }

  /** The guard of the download: the object asks for it and its path is a non-empty string. */
  predicate OffersDownload(d: UserData)
  {
    d.action == Some(DownloadAction) && d.pdfPath.Some? && d.pdfPath.value != ""
  }

  /** `handleInteractionClick`, given the lock state and the raycast hits nearest first. */
  function HandleInteractionClick(locked: bool, hits: seq<UserData>): (r: Option<Download>)
    ensures r.Some? <==> locked && |hits| > 0 && OffersDownload(hits[0])
    ensures r.Some? ==> r.value.href == hits[0].pdfPath.value && r.value.fileName == SuggestedFileName(r.value.href)
  {
    if !locked then None
    else if |hits| > 0 && OffersDownload(hits[0]) then
      Some(Download(hits[0].pdfPath.value, SuggestedFileName(hits[0].pdfPath.value)))
    else None
  }

  /** Only the nearest hit decides; whatever lies behind it is ignored. */
  lemma NearestHitDecides(locked: bool, first: UserData, behind1: seq<UserData>, behind2: seq<UserData>)
    ensures HandleInteractionClick(locked, [first] + behind1) == HandleInteractionClick(locked, [first] + behind2)
  {
  }

  /** Aiming at the bench while locked downloads the manuscript under its own file name. */
  lemma BenchDownloadsManuscript(behind: seq<UserData>)
    ensures HandleInteractionClick(true, [BenchData] + behind) == Some(Download(ManuscriptPath, ManuscriptFile))
  {
    ManuscriptFileName();
  }

  /** What a canvas click does: capture the pointer, or interact. */
  datatype ClickEffect = RequestLock | Interacted(download: Option<Download>)

  /** The canvas click handler: unlocked it requests the lock and never interacts. */
  function CanvasClick(locked: bool, hits: seq<UserData>): (r: ClickEffect)
    ensures r == RequestLock <==> !locked
    ensures r.Interacted? ==> r.download == HandleInteractionClick(true, hits)
    ensures !locked ==> HandleInteractionClick(locked, hits) == None
  {
    if !locked then RequestLock else Interacted(HandleInteractionClick(locked, hits))
  }

  // ---------------------------------------------------------------------------
  // The gallery's per-page state
  // ---------------------------------------------------------------------------

  /**
   * The module-level state the handlers and the animation loop share: the
   * `keys` object, the pointer-lock state of the controls, the intro timer,
   * the camera height and depth, and the moves requested from the controls.
   * `cameraZ` is the depth the intro sets; the horizontal displacement the
   * controls make afterwards is represented by `moves` only, which records
   * the corrected calls of `MoveCallFor`.
   */
  class Walkthrough {
    var keys: map<string, bool>
    var locked: bool
    var introTime: real
    var cameraY: real
    var cameraZ: real
    var moves: seq<MoveCall>

    /** Exactly the twelve keys are present, the timer is not negative, the camera is at eye height. */
    ghost predicate Valid()
      reads this
    {
      keys.Keys == KeyNames && 0.0 <= introTime && cameraY == EyeHeight
    }

    /** The state once `init` has run. */
    constructor ()
      ensures Valid()
      ensures keys == InitialKeys() && !locked && introTime == 0.0
      ensures cameraY == EyeHeight && cameraZ == IntroStartZ && moves == []
    {
      keys := InitialKeys();
      locked := false;
      introTime := 0.0;
      cameraY := EyeHeight;
      cameraZ := IntroStartZ;
      moves := [];
    }

    /** The keydown and keyup listeners. */
    method OnKey(e: KeyboardEvent)
      requires Valid()
      modifies this
      ensures Valid()
      ensures keys == HandleKey(old(keys), e)
      ensures locked == old(locked) && introTime == old(introTime)
      ensures cameraY == old(cameraY) && cameraZ == old(cameraZ) && moves == old(moves)
    {
      if e.key in keys {
        keys := keys[e.key := e.KeyDown?];
      }
    }

    /** The controls' `lock` and `unlock` events. */
    method OnPointerLockChange(isLocked: bool)
      requires Valid()
      modifies this
      ensures Valid()
      ensures locked == isLocked
      ensures keys == old(keys) && introTime == old(introTime)
      ensures cameraY == old(cameraY) && cameraZ == old(cameraZ) && moves == old(moves)
    {
      locked := isLocked;
    }

    /**
     * `updatePlayerPosition`: nothing at all happens while unlocked or during
     * the intro; otherwise a move is requested only when some direction
     * survives cancellation, and the camera is put back at eye height.
     */
    method UpdatePlayerPosition(delta: real)
      requires Valid()
      modifies this
      ensures Valid()
      ensures !old(locked) || old(introTime) < IntroDuration ==> moves == old(moves)
      ensures old(locked) && old(introTime) >= IntroDuration ==>
        moves == old(moves) + MoveRequests(IntentsOf(keys), MoveSpeed * delta)
      ensures cameraY == EyeHeight
      ensures keys == old(keys) && locked == old(locked) && introTime == old(introTime)
      ensures cameraY == old(cameraY) && cameraZ == old(cameraZ)
    {
      if !locked || introTime < IntroDuration {
        return;
      }
      var speed := MoveSpeed * delta;
      var intents := ComputeIntents(keys);
      if intents.forward != 0 || intents.right != 0 {
        moves := moves + [MoveCallFor(intents, speed)];
      }
      cameraY := EyeHeight;
    }

    /**
     * `animateInitialCamera`, with the depth of the cube's front face given
     * as `cubeFrontZ` and the cosine easing as `ease`.
     */
    method AnimateInitialCamera(delta: real, ease: real -> real, cubeFrontZ: real)
      requires Valid() && 0.0 <= delta
      modifies this
      ensures Valid()
      ensures introTime == IntroTick(old(introTime), delta)
      ensures old(introTime) < IntroDuration ==> cameraZ == IntroCameraZ(introTime, ease(Progress(introTime)), cubeFrontZ)
      ensures old(introTime) >= IntroDuration ==> cameraZ == old(cameraZ)
      ensures keys == old(keys) && locked == old(locked) && cameraY == old(cameraY) && moves == old(moves)
    {
      if introTime < IntroDuration {
        introTime := introTime + delta;
        var progress := Progress(introTime);
        var eased := ease(progress);
        cameraZ := Lerp(IntroStartZ, cubeFrontZ + IntroEndOffset, eased);
        if introTime >= IntroDuration {
          cameraZ := Max(cameraZ, cubeFrontZ + IntroClearance);
        }
      }
    }

    /** The state update of one `animate` frame: the intro while it lasts, movement after. */
    method Animate(delta: real, ease: real -> real, cubeFrontZ: real)
      requires Valid() && 0.0 <= delta
      modifies this
      ensures Valid()
      ensures introTime == IntroTick(old(introTime), delta)
      ensures old(introTime) < IntroDuration ==> moves == old(moves)
      ensures old(introTime) >= IntroDuration ==> cameraZ == old(cameraZ)
      ensures old(introTime) < IntroDuration ==> cameraZ == IntroCameraZ(introTime, ease(Progress(introTime)), cubeFrontZ)
      ensures !old(locked) ==> moves == old(moves)
      ensures old(introTime) >= IntroDuration && old(locked) ==>
        moves == old(moves) + MoveRequests(IntentsOf(keys), MoveSpeed * delta)
      ensures keys == old(keys) && locked == old(locked) && cameraY == EyeHeight
    {
      if introTime < IntroDuration {
        AnimateInitialCamera(delta, ease, cubeFrontZ);
      } else {
        UpdatePlayerPosition(delta);
      }
    }
  }
}
