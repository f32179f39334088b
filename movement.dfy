/**
  The free-roaming player controller (`ContinuousMovement`): once per frame
  it reads the arrow keys, moves the player forward or turns it, and, when
  the player has come to rest after moving, tells the reward manager where
  the player stopped.

  Positions are exact reals.  The heading is kept as a yaw angle in degrees
  and the forward direction (`transform.forward`, which the engine derives
  from the heading) is an input of each frame.  The reward manager and the
  camera manager are outside the model: the calls made to them are recorded
  in order.
 */
module Movement {
  import opened Values

  datatype Vec3 = Vec3(x: real, y: real, z: real)

  function Add(a: Vec3, b: Vec3): Vec3
  {
    Vec3(a.x + b.x, a.y + b.y, a.z + b.z)
  }

  function Scale(a: Vec3, k: real): Vec3
  {
    Vec3(a.x * k, a.y * k, a.z * k)
  }

  /** The square of `Vector3.Distance(a, b)`. */
  function DistanceSquared(a: Vec3, b: Vec3): (d: real)
    ensures d >= 0.0
    ensures a == b ==> d == 0.0
  {
    (a.x - b.x) * (a.x - b.x) + (a.y - b.y) * (a.y - b.y) + (a.z - b.z) * (a.z - b.z)
  }

  /** `Vector3.Distance(a, b) < 0.001`, compared on squares. */
  predicate Settled(a: Vec3, b: Vec3)
  {
    DistanceSquared(a, b) < 0.000001
  }

  // ---------------------------------------------------------------------
  // The play area

  const LeftBound: real := -5.3
  const RightBound: real := 15.3
  const UpBound: real := 25.6
  const BottomBound: real := 5.0
  const Tolerance: real := 0.1

  /** Whether a position lies inside the play area, widened on every side
      by the tolerance; the comparisons are strict and the height does not
      matter. */
  predicate WithinBounds(p: Vec3)
  {
    && p.x > LeftBound - Tolerance
    && p.x < RightBound + Tolerance
    && p.z < UpBound + Tolerance
    && p.z > BottomBound - Tolerance
  }

  /** The play area is the open box -5.4 < x < 15.4, 4.9 < z < 25.7, for
      any height. */
  lemma WithinBoundsBox(p: Vec3, height: real)
    ensures WithinBounds(p) <==> -5.4 < p.x < 15.4 && 4.9 < p.z < 25.7
    ensures WithinBounds(p) <==> WithinBounds(p.(y := height))
  {
  }

  // ---------------------------------------------------------------------
  // One frame of input

  /** Which arrow keys are held down this frame. */
  datatype Keys = Keys(up: bool, left: bool, right: bool, down: bool)

  /** What the engine supplies for one frame: the keyboard (absent when no
      keyboard is connected), the player's forward direction and the
      frame's duration in seconds. */
  datatype Frame = Frame(keyboard: Option<Keys>, forward: Vec3, deltaTime: real)

  /** The controller's two public speed settings. */
  datatype Tuning = Tuning(moveSpeed: real, rotationSpeed: real)

  const DefaultTuning: Tuning := Tuning(5.0, 50.0)

  /** The one thing a frame's input does. */
  datatype Action =
    | Forward     // up: step to the candidate position
    | Blocked     // up, but the candidate position is out of bounds
    | TurnLeft
    | TurnRight
    | TurnAround  // down
    | NoAction    // no keyboard, or no arrow key held

  /** An action that moved or turned the player. */
  predicate Acted(a: Action)
  {
    a.Forward? || a.TurnLeft? || a.TurnRight? || a.TurnAround?
  }

  /** The position an up press would move the player to. */
  function Candidate(position: Vec3, f: Frame, t: Tuning): Vec3
  {
    Add(position, Scale(f.forward, t.moveSpeed * f.deltaTime))
  }

  /** Up takes precedence over left, left over right, right over down; an
      up press is acted on only when its candidate position is in bounds. */
  function SelectAction(keyboard: Option<Keys>, candidate: Vec3): (a: Action)
  {
    match keyboard
    case None => NoAction
    case Some(k) =>
      if k.up then (if WithinBounds(candidate) then Forward else Blocked)
      else if k.left then TurnLeft
      else if k.right then TurnRight
      else if k.down then TurnAround
      else NoAction
  }

  /** The turn, in degrees about the vertical axis, for a turning action. */
  function TurnAngle(a: Action, f: Frame, t: Tuning): real
  {
    match a
    case TurnLeft => -t.rotationSpeed * f.deltaTime / 90.0
    case TurnRight => t.rotationSpeed * f.deltaTime / 90.0
    case TurnAround => 180.0 * t.rotationSpeed * f.deltaTime / 90.0
    case _ => 0.0
  }

  /** The controller's state between frames. */
  datatype MoveState = MoveState(position: Vec3, yaw: real, lastPosition: Vec3, hasMoved: bool)

  /** The calls the controller makes to the managers it drives. */
  datatype Call = DisableMiniMap | RewardFound(at: Vec3)

  /** `Start`: the last position is the starting position. */
  function Start(position: Vec3, yaw: real): (s: MoveState)
  {
    MoveState(position, yaw, position, false)
  }

  /** The state after `CheckContinuousInput`, and whether input was acted
      on. */
  function AfterInput(s: MoveState, f: Frame, t: Tuning): (r: (MoveState, bool))
  {
    var target := Candidate(s.position, f, t);
    var a := SelectAction(f.keyboard, target);
    if a.Forward? then (s.(position := target, hasMoved := true), true)
    else if Acted(a) then (s.(yaw := s.yaw + TurnAngle(a, f, t), hasMoved := true), true)
    else (s, false)
  }

  /** One `Update`: the input step, then the settle check, then the last
      position is brought up to date.  The calls are those made during the
      frame, in order. */
  function Step(s: MoveState, f: Frame, t: Tuning): (r: (MoveState, seq<Call>))
  {
    var (s1, acted) := AfterInput(s, f, t);
    var calls1 := if acted then [DisableMiniMap] else [];
    if Settled(s1.position, s1.lastPosition) && s1.hasMoved then
      (s1.(hasMoved := false, lastPosition := s1.position), calls1 + [RewardFound(s1.position)])
    else
      (s1.(lastPosition := s1.position), calls1)
  }

  /** Several frames in a row. */
  function Run(s: MoveState, frames: seq<Frame>, t: Tuning): (r: (MoveState, seq<Call>))
    decreases |frames|
  {
    if frames == [] then (s, [])
    else
      var (s1, c1) := Step(s, frames[0], t);
      var (s2, c2) := Run(s1, frames[1..], t);
      (s2, c1 + c2)
  }

  /** Whether a frame's input moves or turns the player from `s`. */
  predicate Acts(s: MoveState, f: Frame, t: Tuning)
  {
    Acted(SelectAction(f.keyboard, Candidate(s.position, f, t)))
  }

  /** A frame whose keyboard holds a turn key and no up key. */
  predicate TurnKeyOnly(f: Frame)
  {
    f.keyboard.Some? && !f.keyboard.value.up
      && (f.keyboard.value.left || f.keyboard.value.right || f.keyboard.value.down)
  }

  function RewardCount(calls: seq<Call>): nat
  {
    if calls == [] then 0
    else (if calls[0].RewardFound? then 1 else 0) + RewardCount(calls[1..])
  }

  // ---------------------------------------------------------------------
  // Properties of one frame

  /** At most one action per frame, chosen in the order up, left, right,
      down; a held up key shuts out the turn keys even when its step is
      refused. */
  lemma ActionPriority(k: Keys, candidate: Vec3)
    ensures var a := SelectAction(Some(k), candidate);
      && (k.up ==> (a == Forward <==> WithinBounds(candidate)) && (a == Blocked <==> !WithinBounds(candidate)))
      && (!k.up && k.left ==> a == TurnLeft)
      && (!k.up && !k.left && k.right ==> a == TurnRight)
      && (!k.up && !k.left && !k.right && k.down ==> a == TurnAround)
      && (Acted(a) || a == Blocked <==> k.up || k.left || k.right || k.down)
  {
  }

  /** An up press towards a position out of bounds changes nothing, calls
      nothing, and the turn keys held with it are ignored. */
  lemma BlockedForwardIsIgnored(s: MoveState, f: Frame, t: Tuning)
    requires f.keyboard.Some? && f.keyboard.value.up
    requires !WithinBounds(Candidate(s.position, f, t))
    ensures AfterInput(s, f, t) == (s, false)
    ensures Step(s, f, t).0.position == s.position && Step(s, f, t).0.yaw == s.yaw
    ensures DisableMiniMap !in Step(s, f, t).1
  {
  }

  /** A turn key always turns the player by its angle, sets `hasMoved` and
      hides the mini-map, without moving the player. */
  lemma TurnAlwaysActs(s: MoveState, f: Frame, t: Tuning)
    requires TurnKeyOnly(f)
    ensures var (s1, acted) := AfterInput(s, f, t);
      && acted && s1.hasMoved && s1.position == s.position
      && s1.yaw == s.yaw + TurnAngle(SelectAction(f.keyboard, Candidate(s.position, f, t)), f, t)
    ensures Step(s, f, t).1[0] == DisableMiniMap
  {
  }

  /** The mini-map is hidden on every frame whose input is acted on, not
      only the first, and on no other frame; it is the frame's first call. */
  lemma MiniMapEveryActedFrame(s: MoveState, f: Frame, t: Tuning)
    ensures DisableMiniMap in Step(s, f, t).1 <==> Acts(s, f, t)
    ensures Acts(s, f, t) ==> Step(s, f, t).1[0] == DisableMiniMap
  {
    var (s1, acted) := AfterInput(s, f, t);
    assert acted == Acts(s, f, t);
    if !acted {
      var calls := Step(s, f, t).1;
      assert calls == [] || calls == [RewardFound(s1.position)];
    }
  }

  /** `RewardFound` is called exactly when the player has moved and, after
      this frame's input, is less than 0.001 from where it was last frame;
      it is called at most once, only ever with the current position, and
      `hasMoved` is then cleared. */
  lemma RewardFoundWhenSettled(s: MoveState, f: Frame, t: Tuning)
    ensures var (s1, _) := AfterInput(s, f, t);
      var (s2, calls) := Step(s, f, t);
      && (RewardFound(s1.position) in calls <==> s1.hasMoved && Settled(s1.position, s.lastPosition))
      && (RewardCount(calls) == 1 <==> s1.hasMoved && Settled(s1.position, s.lastPosition))
      && (forall c :: c in calls && c.RewardFound? ==> c == RewardFound(s1.position))
      && RewardCount(calls) <= 1
      && (RewardCount(calls) == 1 ==> !s2.hasMoved)
  {
    var (s1, acted) := AfterInput(s, f, t);
    var calls1 := if acted then [DisableMiniMap] else [];
    assert RewardCount(calls1) == 0;
    if Settled(s1.position, s1.lastPosition) && s1.hasMoved {
      RewardCountAppend(calls1, [RewardFound(s1.position)]);
    } else {
      assert RewardFound(s1.position) !in calls1;
    }
  }

  /** Every frame ends with the last position equal to the position. */
  lemma LastPositionIsCurrent(s: MoveState, f: Frame, t: Tuning)
    ensures Step(s, f, t).0.lastPosition == Step(s, f, t).0.position
  {
  }

  /** A frame whose only input is a turn, from a state at rest, reports the
      reward check in that same frame, since the position did not change. */
  lemma TurnFrameReportsAtOnce(s: MoveState, f: Frame, t: Tuning)
    requires s.lastPosition == s.position
    requires TurnKeyOnly(f)
    ensures Step(s, f, t).1 == [DisableMiniMap, RewardFound(s.position)]
    ensures !Step(s, f, t).0.hasMoved
  {
  }

  /** A forward step of length 0.001 or more is not a stop. */
  lemma LongStepIsNoStop(s: MoveState, f: Frame, t: Tuning)
    requires s.lastPosition == s.position
    requires SelectAction(f.keyboard, Candidate(s.position, f, t)) == Forward
    requires DistanceSquared(Candidate(s.position, f, t), s.position) >= 0.000001
    ensures RewardCount(Step(s, f, t).1) == 0
    ensures Step(s, f, t).0.hasMoved
  {
    assert Step(s, f, t).1 == [DisableMiniMap];
  }

  /** Without a keyboard the input step does nothing. */
  lemma NoKeyboardNoInput(s: MoveState, f: Frame, t: Tuning)
    requires f.keyboard.None?
    ensures AfterInput(s, f, t) == (s, false)
    ensures DisableMiniMap !in Step(s, f, t).1
  {
  }

  // ---------------------------------------------------------------------
  // Properties of several frames

  lemma {:induction false} RewardCountAppend(a: seq<Call>, b: seq<Call>)
    ensures RewardCount(a + b) == RewardCount(a) + RewardCount(b)
    decreases |a|
  {
    if a == [] {
      assert a + b == b;
    } else {
      assert (a + b)[0] == a[0];
      assert (a + b)[1..] == a[1..] + b;
      RewardCountAppend(a[1..], b);
    }
  }

  /** Frames without acted input, after `hasMoved` is cleared, call
      nothing and leave the state as it is (its last position aside). */
  lemma {:induction false} QuietWhileIdle(s: MoveState, frames: seq<Frame>, t: Tuning)
    requires !s.hasMoved && s.lastPosition == s.position
    requires forall i :: 0 <= i < |frames| ==> !Acts(s, frames[i], t)
    ensures Run(s, frames, t) == (s, [])
    decreases |frames|
  {
    if frames != [] {
      var f := frames[0];
      assert !Acts(s, f, t);
      assert AfterInput(s, f, t) == (s, false);
      assert Step(s, f, t) == (s, []);
      forall i | 0 <= i < |frames[1..]| ensures !Acts(s, frames[1..][i], t) {
        assert frames[1..][i] == frames[i + 1];
      }
      QuietWhileIdle(s, frames[1..], t);
      var none: seq<Call> := [];
      assert Run(s, frames, t) == (s, none + none);
      assert none + none == none;
    }
  }

  /** However many frames pass without acted input, `RewardFound` is
      called at most once: the reward is reported once per stop. */
  lemma {:induction false} OneRewardPerStop(s: MoveState, frames: seq<Frame>, t: Tuning)
    requires s.lastPosition == s.position
    requires forall i :: 0 <= i < |frames| ==> !Acts(s, frames[i], t)
    ensures RewardCount(Run(s, frames, t).1) <= 1
    decreases |frames|
  {
    if frames != [] {
      var f := frames[0];
      assert !Acts(s, f, t);
      assert AfterInput(s, f, t) == (s, false);
      var (s1, c1) := Step(s, f, t);
      assert s1.position == s.position && s1.yaw == s.yaw && s1.lastPosition == s.position;
      forall i | 0 <= i < |frames[1..]| ensures !Acts(s1, frames[1..][i], t) {
        assert frames[1..][i] == frames[i + 1];
      }
      RewardCountAppend(c1, Run(s1, frames[1..], t).1);
      if s.hasMoved {
        assert s1 == s.(hasMoved := false);
        QuietWhileIdle(s1, frames[1..], t);
        assert c1 == [RewardFound(s.position)];
      } else {
        assert s1 == s;
        OneRewardPerStop(s1, frames[1..], t);
        assert c1 == [];
      }
    }
  }

  /** While a turn key is held the position never changes, so every frame
      counts as a stop: `RewardFound` is called on each of them, although
      the settle check is meant to fire once the player stops moving. */
  lemma {:induction false} TurnHeldReportsEveryFrame(s: MoveState, frames: seq<Frame>, t: Tuning)
    requires s.lastPosition == s.position
    requires forall i :: 0 <= i < |frames| ==> TurnKeyOnly(frames[i])
    ensures RewardCount(Run(s, frames, t).1) == |frames|
    ensures Run(s, frames, t).0.position == s.position
    decreases |frames|
  {
    if frames != [] {
      var f := frames[0];
      TurnFrameReportsAtOnce(s, f, t);
      LastPositionIsCurrent(s, f, t);
      var (s1, c1) := Step(s, f, t);
      assert RewardCount(c1) == 1 by {
        var rest: seq<Call> := [RewardFound(s.position)];
        assert c1[1..] == rest && rest[1..] == [];
        assert RewardCount(rest) == 1 + RewardCount([]);
      }
      forall i | 0 <= i < |frames[1..]| ensures TurnKeyOnly(frames[1..][i]) {
        assert frames[1..][i] == frames[i + 1];
      }
      TurnHeldReportsEveryFrame(s1, frames[1..], t);
      RewardCountAppend(c1, Run(s1, frames[1..], t).1);
    }
  }

  // ---------------------------------------------------------------------
  // The controller

  class ContinuousMovement {
    var moveSpeed: real
    var rotationSpeed: real
    var position: Vec3
    var yaw: real
    var lastPosition: Vec3
    var hasMoved: bool
    /** The calls made to the reward manager and the camera manager. */
    var calls: seq<Call>

    function State(): MoveState
      reads this
    {
      MoveState(position, yaw, lastPosition, hasMoved)
    }

    function Settings(): Tuning
      reads this
    {
      Tuning(moveSpeed, rotationSpeed)
    }

    /** The component with its default speeds, placed at `start` and run
        through `Start`. */
    constructor (start: Vec3, heading: real)
      ensures State() == Start(start, heading)
      ensures Settings() == DefaultTuning && calls == []
    {
      moveSpeed, rotationSpeed := 5.0, 50.0;
      position, yaw, hasMoved := start, heading, false;
      calls := [];
      lastPosition := position;
    }

    /** Reads the keys and acts on at most one of them. */
    method CheckContinuousInput(f: Frame)
      modifies this`position, this`yaw, this`hasMoved, this`calls
      ensures State() == AfterInput(old(State()), f, Settings()).0
      ensures calls == old(calls) +
        (if AfterInput(old(State()), f, Settings()).1 then [DisableMiniMap] else [])
    {
      if f.keyboard.None? {
        return;
      }
      var keyboard := f.keyboard.value;
      var inputReceived := false;
      if keyboard.up {
        var potentialTarget := Add(position, Scale(f.forward, moveSpeed * f.deltaTime));
        if WithinBounds(potentialTarget) {
          position := potentialTarget;
          hasMoved := true;
          inputReceived := true;
        }
      } else if keyboard.left {
        yaw := yaw + -rotationSpeed * f.deltaTime / 90.0;
        hasMoved := true;
        inputReceived := true;
      } else if keyboard.right {
        yaw := yaw + rotationSpeed * f.deltaTime / 90.0;
        hasMoved := true;
        inputReceived := true;
      } else if keyboard.down {
        yaw := yaw + 180.0 * rotationSpeed * f.deltaTime / 90.0;
        hasMoved := true;
        inputReceived := true;
      }
      if inputReceived {
        calls := calls + [DisableMiniMap];
      }
    }

    /** One frame. */
    method Update(f: Frame)
      modifies this`position, this`yaw, this`lastPosition, this`hasMoved, this`calls
      ensures State() == Step(old(State()), f, Settings()).0
      ensures calls == old(calls) + Step(old(State()), f, Settings()).1
    {
      CheckContinuousInput(f);
      if Settled(position, lastPosition) && hasMoved {
        calls := calls + [RewardFound(position)];
        hasMoved := false;
      }
      lastPosition := position;
    }
  }
}
