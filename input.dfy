/** Keyboard and mouse handling: WASD movement and Escape once per frame, the C key
    toggling cursor capture on its rising edge, and mouse movement turned into look
    offsets with the first movement after capture suppressed. The window and the camera
    appear only through the key states read, the cursor mode and close flag set, and
    the camera calls issued. */
module Inputs {
  import opened Wrappers

  /** GLFW's key codes and key states used here. */
  const KeyA := 65
  const KeyC := 67
  const KeyD := 68
  const KeyS := 83
  const KeyW := 87
  const KeyEscape := 256
  const Release := 0
  const Press := 1

  datatype CursorMode = CursorNormal | CursorDisabled

  /** The window, as the input code sees it. */
  class Window {
    /** The state `glfwGetKey` reports for each key; a key not listed is released. */
    var keys: map<int, int>
    var cursorMode: CursorMode
    var shouldClose: bool
    /** The framebuffer size `glfwGetFramebufferSize` reports. */
    var width: int
    var height: int

    constructor (keys: map<int, int>, width: int, height: int)
      ensures this.keys == keys && this.width == width && this.height == height
      ensures cursorMode == CursorNormal && !shouldClose
    {
      this.keys := keys;
      this.width := width;
      this.height := height;
      cursorMode := CursorNormal;
      shouldClose := false;
    }

    /** `glfwSetInputMode(window, GLFW_CURSOR, ..)`. */
    method SetCursorMode(mode: CursorMode)
      modifies this`cursorMode
      ensures cursorMode == mode
    {
      cursorMode := mode;
    }

    /** `glfwSetWindowShouldClose(window, GLFW_TRUE)`. */
    method RequestClose()
      modifies this`shouldClose
      ensures shouldClose
    {
      shouldClose := true;
    }
  }

  /** The state `glfwGetKey` reports for `key`. */
  function KeyState(window: Window, key: int): int
    reads window`keys
  {
    if key in window.keys then window.keys[key] else Release
  }

  /** `keyDown`: whether `key` is pressed. */
  function KeyDown(window: Window, key: int): (down: bool)
    reads window`keys
    ensures down <==> key in window.keys && window.keys[key] == Press
  {
    KeyState(window, key) == Press
  }

  /** The calls the input code makes on the camera. */
  datatype CameraCall =
    | MoveForward(distance: real)
    | MoveRight(distance: real)
    | ProcessMouse(xoffset: real, yoffset: real, sensitivity: real)

  /** The camera, as a record of the calls it receives. */
  class Camera {
    var calls: seq<CameraCall>

    constructor ()
      ensures calls == []
    {
      calls := [];
    }

    method MoveForward(distance: real)
      modifies this`calls
      ensures calls == old(calls) + [CameraCall.MoveForward(distance)]
    {
      calls := calls + [CameraCall.MoveForward(distance)];
    }

    method MoveRight(distance: real)
      modifies this`calls
      ensures calls == old(calls) + [CameraCall.MoveRight(distance)]
    {
      calls := calls + [CameraCall.MoveRight(distance)];
    }

    method ProcessMouse(xoffset: real, yoffset: real, sensitivity: real)
      modifies this`calls
      ensures calls == old(calls) + [CameraCall.ProcessMouse(xoffset, yoffset, sensitivity)]
    {
      calls := calls + [CameraCall.ProcessMouse(xoffset, yoffset, sensitivity)];
    }
  }

  // ---------------------------------------------------------------- movement

  /** The movement calls of one frame: W forward, S backward, D right, A left, each
      by `velocity`, checked in that order. */
  function MoveCalls(w: bool, s: bool, d: bool, a: bool, velocity: real): seq<CameraCall> {
    (if w then [CameraCall.MoveForward(velocity)] else [])
    + (if s then [CameraCall.MoveForward(-velocity)] else [])
    + (if d then [CameraCall.MoveRight(velocity)] else [])
    + (if a then [CameraCall.MoveRight(-velocity)] else [])
  }

  /** The total distance the calls move the camera forward. */
  function Forward(calls: seq<CameraCall>): real {
    if calls == [] then 0.0
    else (if calls[0].MoveForward? then calls[0].distance else 0.0) + Forward(calls[1..])
  }

  /** The total distance the calls move the camera to the right. */
  function Rightward(calls: seq<CameraCall>): real {
    if calls == [] then 0.0
    else (if calls[0].MoveRight? then calls[0].distance else 0.0) + Rightward(calls[1..])
  }

  /** Adding up distances over a concatenation. */
  lemma {:induction false} DistancesAppend(a: seq<CameraCall>, b: seq<CameraCall>)
    ensures Forward(a + b) == Forward(a) + Forward(b)
    ensures Rightward(a + b) == Rightward(a) + Rightward(b)
  {
    if a == [] {
      assert a + b == b;
    } else {
      assert (a + b)[1..] == a[1..] + b;
      DistancesAppend(a[1..], b);
    }
  }

  /** Each key acts on its own: the frame moves the camera forward by `velocity` for W
      less `velocity` for S, and right by `velocity` for D less `velocity` for A, so
      opposite keys held together cancel; one call per key held. */
  lemma MoveCallsNet(w: bool, s: bool, d: bool, a: bool, velocity: real)
    ensures Forward(MoveCalls(w, s, d, a, velocity))
            == (if w then velocity else 0.0) - (if s then velocity else 0.0)
    ensures Rightward(MoveCalls(w, s, d, a, velocity))
            == (if d then velocity else 0.0) - (if a then velocity else 0.0)
    ensures |MoveCalls(w, s, d, a, velocity)|
            == (if w then 1 else 0) + (if s then 1 else 0) + (if d then 1 else 0) + (if a then 1 else 0)
  {
    var cw := if w then [CameraCall.MoveForward(velocity)] else [];
    var cs := if s then [CameraCall.MoveForward(-velocity)] else [];
    var cd := if d then [CameraCall.MoveRight(velocity)] else [];
    var ca := if a then [CameraCall.MoveRight(-velocity)] else [];
    DistancesAppend(cw, cs);
    DistancesAppend(cw + cs, cd);
    DistancesAppend(cw + cs + cd, ca);
  }

  // ---------------------------------------------------------------- cursor toggle

  /** The flags the cursor toggle reads and writes. */
  datatype ToggleState = ToggleState(cursorDisabled: bool, firstMouse: bool, prevToggleKey: bool)

  /** `setCursorDisabled` on the flags: stores the flag, and re-arms the first-movement
      suppression when capturing. */
  function WithCursor(t: ToggleState, disabled: bool): ToggleState {
    t.(cursorDisabled := disabled, firstMouse := if disabled then true else t.firstMouse)
  }

  /** One frame of the toggle with C pressed or not. */
  function ToggleStep(t: ToggleState, pressed: bool): (r: ToggleState)
    ensures r.prevToggleKey == pressed
    ensures r.cursorDisabled != t.cursorDisabled <==> pressed && !t.prevToggleKey
    ensures r.firstMouse == (t.firstMouse || (r.cursorDisabled && !t.cursorDisabled))
  {
    (if pressed && !t.prevToggleKey then WithCursor(t, !t.cursorDisabled) else t)
      .(prevToggleKey := pressed)
  }

  /** The toggle over a run of frames, given whether C was pressed at each. */
  function ToggleRun(t: ToggleState, presses: seq<bool>): ToggleState
    decreases presses
  {
    if presses == [] then t else ToggleRun(ToggleStep(t, presses[0]), presses[1..])
  }

  /** The number of frames at which C goes from released to pressed. */
  function RisingEdges(prev: bool, presses: seq<bool>): nat
    decreases presses
  {
    if presses == [] then 0
    else (if presses[0] && !prev then 1 else 0) + RisingEdges(presses[0], presses[1..])
  }

  /** Over any run of frames the capture flips once per rising edge of C, and the
      previous-key flag ends as the last state seen. */
  lemma {:induction false} ToggleRunFlips(t: ToggleState, presses: seq<bool>)
    decreases presses
    ensures ToggleRun(t, presses).cursorDisabled
            == (t.cursorDisabled != (RisingEdges(t.prevToggleKey, presses) % 2 == 1))
    ensures ToggleRun(t, presses).prevToggleKey
            == if presses == [] then t.prevToggleKey else presses[|presses| - 1]
  {
    if presses != [] {
      ToggleRunFlips(ToggleStep(t, presses[0]), presses[1..]);
    }
  }

  /** Holding C down for any number of frames, from released, toggles capture exactly
      once. */
  lemma {:induction false} HeldKeyTogglesOnce(t: ToggleState, n: nat)
    requires !t.prevToggleKey && n >= 1
    ensures ToggleRun(t, seq(n, _ => true)).cursorDisabled == !t.cursorDisabled
  {
    var held := seq(n, _ => true);
    assert RisingEdges(t.prevToggleKey, held) == 1 by {
      assert held[1..] == seq(n - 1, _ => true);
      HeldAfterPressNoEdge(n - 1);
    }
    ToggleRunFlips(t, held);
  }

  /** No rising edge while the key stays down. */
  lemma {:induction false} HeldAfterPressNoEdge(n: nat)
    ensures RisingEdges(true, seq(n, _ => true)) == 0
  {
    if n > 0 {
      assert seq(n, _ => true)[1..] == seq(n - 1, _ => true);
      HeldAfterPressNoEdge(n - 1);
    }
  }

  // ---------------------------------------------------------------- mouse

  datatype MouseState = MouseState(lastX: real, lastY: real, firstMouse: bool)

  datatype Offset = Offset(dx: real, dy: real)

  datatype MouseResult = MouseResult(state: MouseState, offset: Option<Offset>)

  /** `handleMouseMovement` on the mouse state: nothing while the cursor is free; the
      first movement after capture only records the position; later movements report
      the offset from the last position, upward positive, and record the new one. */
  function MouseStep(m: MouseState, cursorDisabled: bool, x: real, y: real): (r: MouseResult)
    ensures !cursorDisabled ==> r == MouseResult(m, None)
    ensures cursorDisabled ==> r.state == MouseState(x, y, false)
    ensures r.offset.Some? <==> cursorDisabled && !m.firstMouse
  {
    if !cursorDisabled then MouseResult(m, None)
    else if m.firstMouse then MouseResult(MouseState(x, y, false), None)
    else MouseResult(MouseState(x, y, false), Some(Offset(x - m.lastX, m.lastY - y)))
  }

  /** The camera calls an optional offset turns into. */
  function LookCalls(offset: Option<Offset>, sensitivity: real): seq<CameraCall> {
    match offset
    case None => []
    case Some(o) => [CameraCall.ProcessMouse(o.dx, o.dy, sensitivity)]
  }

  datatype Position = Position(x: real, y: real)

  /** The offsets reported over a run of movements with the cursor captured, and the
      final state. */
  function MouseRun(m: MouseState, moves: seq<Position>): (MouseState, seq<Offset>)
    decreases moves
  {
    if moves == [] then (m, [])
    else
      var r := MouseStep(m, true, moves[0].x, moves[0].y);
      var (final, rest) := MouseRun(r.state, moves[1..]);
      (final, (if r.offset.Some? then [r.offset.value] else []) + rest)
  }

  function SumX(offsets: seq<Offset>): real {
    if offsets == [] then 0.0 else offsets[0].dx + SumX(offsets[1..])
  }

  function SumY(offsets: seq<Offset>): real {
    if offsets == [] then 0.0 else offsets[0].dy + SumY(offsets[1..])
  }

  /** Adding up offsets over a concatenation. */
  lemma {:induction false} SumsAppend(a: seq<Offset>, b: seq<Offset>)
    ensures SumX(a + b) == SumX(a) + SumX(b)
    ensures SumY(a + b) == SumY(a) + SumY(b)
  {
    if a == [] {
      assert a + b == b;
    } else {
      assert (a + b)[1..] == a[1..] + b;
      SumsAppend(a[1..], b);
    }
  }

  /** Offsets telescope: over a run of captured movements the offsets add up to the
      distance from the starting position to the last one (upward for y), where the
      starting position is the first movement when it is suppressed and the recorded
      position otherwise; one offset per movement but the suppressed one. */
  lemma {:induction false} OffsetsTelescope(m: MouseState, moves: seq<Position>)
    requires moves != []
    decreases moves
    ensures var (final, offsets) := MouseRun(m, moves);
      var startX := if m.firstMouse then moves[0].x else m.lastX;
      var startY := if m.firstMouse then moves[0].y else m.lastY;
      && final == MouseState(moves[|moves| - 1].x, moves[|moves| - 1].y, false)
      && SumX(offsets) == final.lastX - startX
      && SumY(offsets) == startY - final.lastY
      && |offsets| == if m.firstMouse then |moves| - 1 else |moves|
  {
    var r := MouseStep(m, true, moves[0].x, moves[0].y);
    var first := if r.offset.Some? then [r.offset.value] else [];
    SumsAppend(first, MouseRun(r.state, moves[1..]).1);
    if |moves| > 1 {
      OffsetsTelescope(r.state, moves[1..]);
    }
  }

  // ---------------------------------------------------------------- the handler

  class Input {
    var lastX: real
    var lastY: real
    var firstMouse: bool
    var cursorDisabled: bool
    var prevToggleKey: bool
    var prevWireframeKey: bool
    var mouseSensitivity: real
    var moveSpeed: real

    function Toggles(): ToggleState
      reads this
    {
      ToggleState(cursorDisabled, firstMouse, prevToggleKey)
    }

    function Mouse(): MouseState
      reads this
    {
      MouseState(lastX, lastY, firstMouse)
    }

    /** The defaults: no position, first movement suppressed, cursor free, keys
        released, sensitivity 0.1 and speed 2.5. */
    constructor ()
      ensures lastX == 0.0 && lastY == 0.0 && firstMouse && !cursorDisabled
      ensures !prevToggleKey && !prevWireframeKey
      ensures mouseSensitivity == 0.1 && moveSpeed == 2.5
    {
      lastX, lastY := 0.0, 0.0;
      firstMouse := true;
      cursorDisabled := false;
      prevToggleKey, prevWireframeKey := false, false;
      mouseSensitivity := 0.1;
      moveSpeed := 2.5;
    }

    /** `init`: captures the cursor and records the centre of the framebuffer. */
    method Init(window: Window)
      modifies this`cursorDisabled, this`firstMouse, this`lastX, this`lastY, window`cursorMode
      ensures cursorDisabled && firstMouse && window.cursorMode == CursorDisabled
      ensures lastX == window.width as real / 2.0 && lastY == window.height as real / 2.0
    {
      SetCursorDisabled(window, true);
      lastX := window.width as real / 2.0;
      lastY := window.height as real / 2.0;
    }

    /** `processInput`: the movement calls for the keys held, a close request on
        Escape, and the cursor toggle on C. */
    method ProcessInput(window: Window, camera: Camera, deltaTime: real)
      modifies this`cursorDisabled, this`firstMouse, this`prevToggleKey
      modifies window`cursorMode, window`shouldClose, camera`calls
      ensures camera.calls == old(camera.calls)
        + old(MoveCalls(KeyDown(window, KeyW), KeyDown(window, KeyS), KeyDown(window, KeyD),
                        KeyDown(window, KeyA), moveSpeed * deltaTime))
      ensures window.shouldClose == (old(window.shouldClose) || KeyDown(window, KeyEscape))
      ensures Toggles() == ToggleStep(old(Toggles()), KeyDown(window, KeyC))
      ensures window.cursorMode ==
        if cursorDisabled != old(cursorDisabled) then ModeFor(cursorDisabled) else old(window.cursorMode)
    {
      var velocity := moveSpeed * deltaTime;
      Move(window, camera, velocity);
      if KeyDown(window, KeyEscape) {
        window.RequestClose();
      }
      var togglePressed := KeyDown(window, KeyC);
      if togglePressed && !prevToggleKey {
        SetCursorDisabled(window, !cursorDisabled);
      }
      prevToggleKey := togglePressed;
    }

    /** `handleMouseMovement`: updates the mouse state and passes the offset, if any,
        to the camera with the sensitivity. */
    method HandleMouseMovement(x: real, y: real, camera: Camera)
      modifies this`lastX, this`lastY, this`firstMouse, camera`calls
      ensures Mouse() == MouseStep(old(Mouse()), cursorDisabled, x, y).state
      ensures camera.calls == old(camera.calls)
        + LookCalls(MouseStep(old(Mouse()), cursorDisabled, x, y).offset, mouseSensitivity)
    {
      if !cursorDisabled {
        return;
      }
      if firstMouse {
        lastX := x;
        lastY := y;
        firstMouse := false;
        return;
      }
      var xoffset := x - lastX;
      var yoffset := lastY - y;
      lastX := x;
      lastY := y;
      camera.ProcessMouse(xoffset, yoffset, mouseSensitivity);
    }

    /** `setCursorDisabled`: stores the flag, sets the window's cursor mode, and re-arms
        the first-movement suppression when capturing. */
    method SetCursorDisabled(window: Window, disabled: bool)
      modifies this`cursorDisabled, this`firstMouse, window`cursorMode
      ensures Toggles() == WithCursor(old(Toggles()), disabled)
      ensures window.cursorMode == ModeFor(disabled)
    {
      cursorDisabled := disabled;
      window.SetCursorMode(ModeFor(disabled));
      if disabled {
        firstMouse := true;
      }
    }

    method SetMouseSensitivity(sensitivity: real)
      modifies this`mouseSensitivity
      ensures mouseSensitivity == sensitivity
    {
      mouseSensitivity := sensitivity;
    }

    method SetMoveSpeed(speed: real)
      modifies this`moveSpeed
      ensures moveSpeed == speed
    {
      moveSpeed := speed;
    }
  }

  /** The movement part of `processInput`: one camera call per movement key held. */
  method Move(window: Window, camera: Camera, velocity: real)
    modifies camera`calls
    ensures camera.calls == old(camera.calls)
      + MoveCalls(KeyDown(window, KeyW), KeyDown(window, KeyS), KeyDown(window, KeyD),
                  KeyDown(window, KeyA), velocity)
  {
    ghost var calls0 := camera.calls;
    var w, s, d, a := KeyDown(window, KeyW), KeyDown(window, KeyS), KeyDown(window, KeyD),
                      KeyDown(window, KeyA);
    if w {
      camera.MoveForward(velocity);
    }
    if s {
      camera.MoveForward(-velocity);
    }
    if d {
      camera.MoveRight(velocity);
    }
    if a {
      camera.MoveRight(-velocity);
    }
    ghost var cw := if w then [CameraCall.MoveForward(velocity)] else [];
    ghost var cs := if s then [CameraCall.MoveForward(-velocity)] else [];
    ghost var cd := if d then [CameraCall.MoveRight(velocity)] else [];
    ghost var ca := if a then [CameraCall.MoveRight(-velocity)] else [];
    assert camera.calls == calls0 + cw + cs + cd + ca;
    AppendAssoc(calls0, cw, cs);
    AppendAssoc(calls0, cw + cs, cd);
    AppendAssoc(calls0, cw + cs + cd, ca);
  }

  /** The cursor mode for a capture flag. */
  function ModeFor(disabled: bool): CursorMode {
    if disabled then CursorDisabled else CursorNormal
  }
}
