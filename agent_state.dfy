/**
 * AgentState: the robot's current pose and position history, its fixed action
 * sets, and the agenda of tasks it works through.
 */
module Agent {
  import opened Geometry
  import opened Actions
  import opened Tasks

  /** Left and right turns with parameters 1 .. n-1. */
  function Turns(n: nat): (r: set<Action>)
    ensures forall a | a in r :: (a.kind == LeftTurn || a.kind == RightTurn) && 1 <= a.param < n
  {
    if n <= 1 then {} else Turns(n - 1) + {Action(LeftTurn, n - 1), Action(RightTurn, n - 1)}
  }

  /** Forward moves with parameters 1 .. n-1. */
  function Forwards(n: nat): (r: set<Action>)
    ensures forall a | a in r :: a.kind == Forward && 1 <= a.param < n
  {
    if n <= 1 then {} else Forwards(n - 1) + {Action(Forward, n - 1)}
  }

  /** Every turn with a parameter below n is present. */
  lemma {:induction false} TurnsComplete(n: nat, k: int)
    requires 1 <= k < n
    ensures Action(LeftTurn, k) in Turns(n) && Action(RightTurn, k) in Turns(n)
  {
    if k < n - 1 {
      TurnsComplete(n - 1, k);
    }
  }

  lemma {:induction false} ForwardsComplete(n: nat, k: int)
    requires 1 <= k < n
    ensures Action(Forward, k) in Forwards(n)
  {
    if k < n - 1 {
      ForwardsComplete(n - 1, k);
    }
  }

  /** Two turns per parameter. */
  lemma {:induction false} TurnsCount(n: nat)
    ensures |Turns(n)| == if n <= 1 then 0 else 2 * (n - 1)
  {
    if n > 1 {
      TurnsCount(n - 1);
      var prev, pair := Turns(n - 1), {Action(LeftTurn, n - 1), Action(RightTurn, n - 1)};
      assert |pair| == 2;
      DisjointUnionSize(prev, pair);
    }
  }

  lemma {:induction false} ForwardsCount(n: nat)
    ensures |Forwards(n)| == if n <= 1 then 0 else n - 1
  {
    if n > 1 {
      ForwardsCount(n - 1);
      assert Action(Forward, n - 1) !in Forwards(n - 1);
    }
  }

  const PauseAction: Action := Action(Pause, 0)

  /** The turn loop runs its parameter up to 4, the forward loop up to 5. */
  const TurnBound: nat := 5
  const ForwardBound: nat := 6

  /** The constructor's action_set: four turns each way, five forward moves and the pause. */
  function ActionSet(): set<Action>
  {
    Turns(TurnBound) + Forwards(ForwardBound) + {PauseAction}
  }

  /** The constructor's rotation_set: the eight turns. */
  function RotationSet(): set<Action>
  {
    Turns(TurnBound)
  }

  /** The constructor's forward_set: the five forward moves and the pause. */
  function ForwardSet(): set<Action>
  {
    Forwards(ForwardBound) + {PauseAction}
  }

  lemma DisjointUnionSize(a: set<Action>, b: set<Action>)
    requires a !! b
    ensures |a + b| == |a| + |b|
  {
    assert a * b == {};
  }

  /** The forward moves and the pause: one action per forward parameter, and the pause. */
  lemma {:induction false} ForwardPauseSize(fb: nat)
    requires fb >= 1
    ensures |Forwards(fb) + {PauseAction}| == fb
  {
    ForwardsCount(fb);
    DisjointUnionSize(Forwards(fb), {PauseAction});
  }

  /** Turns and forward moves never coincide, so the sizes add up. */
  lemma {:induction false} AllActionsSize(tb: nat, fb: nat)
    requires tb >= 1 && fb >= 1
    ensures |Turns(tb) + Forwards(fb) + {PauseAction}| == 2 * (tb - 1) + fb
  {
    ForwardPauseSize(fb);
    TurnsCount(tb);
    var turns, forwards := Turns(tb), Forwards(fb) + {PauseAction};
    assert turns !! forwards;
    DisjointUnionSize(turns, forwards);
    assert Turns(tb) + Forwards(fb) + {PauseAction} == turns + forwards;
  }

  lemma ForwardSetSize()
    ensures |ForwardSet()| == 6
  {
    ForwardPauseSize(ForwardBound);
  }

  lemma ActionSetSize()
    ensures |ActionSet()| == 14
  {
    AllActionsSize(TurnBound, ForwardBound);
  }

  /** The action set holds 14 actions, the rotation set 8 and the forward set 6; both are part of the action set. */
  lemma ActionSetsShape()
    ensures |ActionSet()| == 14 && |RotationSet()| == 8 && |ForwardSet()| == 6
    ensures RotationSet() <= ActionSet() && ForwardSet() <= ActionSet()
    ensures RotationSet() !! ForwardSet()
  {
    ActionSetSize();
    ForwardSetSize();
    TurnsCount(TurnBound);
  }

  /** An action is in the action set exactly when it is a turn 1..4, a forward move 1..5, or the pause. */
  lemma ActionSetMembers(a: Action)
    ensures a in ActionSet() <==>
      || ((a.kind == LeftTurn || a.kind == RightTurn) && 1 <= a.param <= 4)
      || (a.kind == Forward && 1 <= a.param <= 5)
      || a == PauseAction
  {
    if (a.kind == LeftTurn || a.kind == RightTurn) && 1 <= a.param <= 4 {
      TurnsComplete(TurnBound, a.param);
    }
    if a.kind == Forward && 1 <= a.param <= 5 {
      ForwardsComplete(ForwardBound, a.param);
    }
  }

  /** No two consecutive entries of a position history are equal. */
  predicate NoStutter(hist: seq<Position>)
  {
    forall i | 0 < i < |hist| :: hist[i - 1] != hist[i]
  }

  /**
   * The history after savePosition: the position is appended unless it equals the
   * last entry; the history then ends with it, and never gains a repeated entry.
   */
  function Saved(hist: seq<Position>, p: Position): (r: seq<Position>)
    ensures |r| > 0 && r[|r| - 1] == p
    ensures r == hist || r == hist + [p]
    ensures r == hist <==> |hist| > 0 && hist[|hist| - 1] == p
    ensures NoStutter(hist) ==> NoStutter(r)
  {
    if |hist| < 1 then [p]
    else if hist[|hist| - 1] != p then hist + [p]
    else hist
  }

  /** What agenda.remove(task) leaves: every entry equal to the task is gone, the rest keep their order. */
  function Removed(agenda: seq<Task>, t: Task): (r: seq<Task>)
    ensures multiset(r) == multiset(agenda)[t := 0]
    ensures t !in agenda ==> r == agenda
  {
    if agenda == [] then []
    else
      var rest := Removed(agenda[1..], t);
      assert agenda == [agenda[0]] + agenda[1..];
      if agenda[0] == t then rest else [agenda[0]] + rest
  }

  /** Every entry that stays was on the agenda and differs from the task; every other entry stays. */
  lemma RemovedMembers(agenda: seq<Task>, t: Task)
    ensures forall i | 0 <= i < |Removed(agenda, t)| :: Removed(agenda, t)[i] in agenda && Removed(agenda, t)[i] != t
    ensures forall i | 0 <= i < |agenda| && agenda[i] != t :: agenda[i] in Removed(agenda, t)
  {
    var r := Removed(agenda, t);
    forall i | 0 <= i < |r| ensures r[i] in agenda && r[i] != t {
      assert r[i] in multiset(r);
    }
    forall i | 0 <= i < |agenda| && agenda[i] != t ensures agenda[i] in r {
      assert multiset(agenda)[agenda[i]] > 0;
      assert multiset(r)[agenda[i]] == multiset(agenda)[agenda[i]];
    }
  }

  /**
   * Removed keeps the relative order of the entries that stay: removing from a
   * concatenation removes from each part and concatenates the results.
   */
  lemma {:induction false} RemovedAppend(a: seq<Task>, b: seq<Task>, t: Task)
    ensures Removed(a + b, t) == Removed(a, t) + Removed(b, t)
  {
    if a == [] {
      assert a + b == b;
    } else {
      assert (a + b)[1..] == a[1..] + b;
      RemovedAppend(a[1..], b, t);
    }
  }

  /** The constructor's insertion loops: turns 1..4 each way, forward moves 1..5, then the pause. */
  method BuildActionSets() returns (actions: set<Action>, rotations: set<Action>, forwards: set<Action>)
    ensures actions == ActionSet() && rotations == RotationSet() && forwards == ForwardSet()
  {
    actions, rotations := InsertTurns();
    var moves;
    actions, moves := InsertForwards(actions);
    actions := actions + {PauseAction};
    forwards := moves + {PauseAction};
  }

  /** The turn loop: parameters 1 .. TurnBound-1, left and right, into both sets. */
  method InsertTurns() returns (actions: set<Action>, rotations: set<Action>)
    ensures actions == Turns(TurnBound) && rotations == Turns(TurnBound)
  {
    actions, rotations := {}, {};
    var i := 1;
    while i < TurnBound
      invariant 1 <= i <= TurnBound
      invariant actions == Turns(i) && rotations == Turns(i)
    {
      assert Turns(i + 1) == Turns(i) + {Action(LeftTurn, i)} + {Action(RightTurn, i)};
      actions := actions + {Action(LeftTurn, i)} + {Action(RightTurn, i)};
      rotations := rotations + {Action(LeftTurn, i)} + {Action(RightTurn, i)};
      i := i + 1;
    }
  }

  /** The forward loop: parameters 1 .. ForwardBound-1, into the action set and the forward set. */
  method InsertForwards(prev: set<Action>) returns (actions: set<Action>, forwards: set<Action>)
    ensures actions == prev + Forwards(ForwardBound) && forwards == Forwards(ForwardBound)
  {
    actions, forwards := prev, {};
    var i := 1;
    while i < ForwardBound
      invariant 1 <= i <= ForwardBound
      invariant actions == prev + Forwards(i) && forwards == Forwards(i)
    {
      actions := actions + {Action(Forward, i)};
      forwards := forwards + {Action(Forward, i)};
      i := i + 1;
    }
  }

  /** The constructor's copy loops: a fresh array holding the given table. */
  method FillTable(src: seq<real>) returns (a: array<real>)
    ensures fresh(a) && a[..] == src
  {
    a := new real[|src|];
    var k := 0;
    while k < |src|
      invariant 0 <= k <= |src|
      invariant a[..k] == src[..k]
    {
      a[k] := src[k];
      k := k + 1;
    }
  }

  class AgentState {
    var currentPosition: Position
    var posHist: seq<Position>
    var actionSet: set<Action>
    var forwardSet: set<Action>
    var rotationSet: set<Action>
    /** The forward distances and rotation angles that action parameters index. */
    var move: array<real>
    var rotate: array<real>
    var agenda: seq<Task>
    var currentTask: Task?
    var currentLaserScan: LaserScan

    /** The position history never holds two equal consecutive entries; the value tables have their fixed sizes. */
    predicate Valid()
      reads this
    {
      NoStutter(posHist) && move.Length == 6 && rotate.Length == 5 && move != rotate
    }

    /** The constructor: no task, empty history and agenda, the three fixed action sets and the value tables. */
    constructor ()
      ensures Valid() && fresh(move) && fresh(rotate)
      ensures currentTask == null && agenda == [] && posHist == []
      ensures actionSet == ActionSet() && rotationSet == RotationSet() && forwardSet == ForwardSet()
      ensures move[..] == [0.0, 0.2, 0.4, 0.8, 1.6, 3.2]
      ensures rotate[..] == [0.0, 0.25, 0.5, 1.0, 2.0]
    {
      currentTask := null;
      posHist := [];
      agenda := [];
      currentPosition := Position(0.0, 0.0, 0.0);
      currentLaserScan := LaserScan([]);
      var actions, rotations, forwards := BuildActionSets();
      actionSet, rotationSet, forwardSet := actions, rotations, forwards;
      var m := [0.0, 0.2, 0.4, 0.8, 1.6, 3.2];
      var r := [0.0, 0.25, 0.5, 1.0, 2.0];
      var mv := FillTable(m);
      var rt := FillTable(r);
      move, rotate := mv, rt;
    }

    /** clearPositionHistory. */
    method ClearPositionHistory()
      requires Valid()
      modifies this`posHist
      ensures Valid() && posHist == []
    {
      posHist := [];
    }

    /** savePosition: append the current position unless it repeats the last entry. */
    method SavePosition()
      requires Valid()
      modifies this`posHist
      ensures Valid()
      ensures posHist == Saved(old(posHist), currentPosition)
    {
      if |posHist| < 1 {
        posHist := posHist + [currentPosition];
      } else {
        var pos := posHist[|posHist| - 1];
        if pos != currentPosition {
          posHist := posHist + [currentPosition];
        }
      }
    }

    /** setCurrentPosition: take the new pose and record it in the history. */
    method SetCurrentPosition(p: Position)
      requires Valid()
      modifies this`currentPosition, this`posHist
      ensures Valid() && currentPosition == p
      ensures posHist == Saved(old(posHist), p)
    {
      currentPosition := p;
      SavePosition();
    }

    method SetCurrentTask(task: Task?)
      modifies this`currentTask
      ensures currentTask == task
    {
      currentTask := task;
    }

    /** setCurrentLaserScan, without the endpoint transformation it triggers. */
    method SetCurrentLaserScan(scan: LaserScan)
      modifies this`currentLaserScan
      ensures currentLaserScan == scan
    {
      currentLaserScan := scan;
    }

    /** addTask: a new task for the target goes to the back of the agenda; earlier entries stay as they are. */
    method AddTask(x: real, y: real)
      modifies this`agenda
      ensures |agenda| == |old(agenda)| + 1 && agenda[..|old(agenda)|] == old(agenda)
      ensures var t := agenda[|agenda| - 1]; fresh(t) && t.x == x && t.y == y && !t.isPlanActive
    {
      var task := new Task(x, y);
      agenda := agenda + [task];
    }

    /** getNextTask: the front of the agenda. */
    function GetNextTask(): (t: Task)
      reads this
      requires |agenda| > 0
      ensures t in agenda && t == agenda[0]
    {
      agenda[0]
    }

    /** finishTask: drop every agenda entry equal to the current task, clear it and the position history. */
    method FinishTask()
      requires Valid()
      modifies this`agenda, this`currentTask, this`posHist
      ensures Valid()
      ensures agenda == (if old(currentTask) != null then Removed(old(agenda), old(currentTask)) else old(agenda))
      ensures currentTask == null && posHist == []
      ensures old(currentTask) != null ==> old(currentTask) !in agenda
    {
      if currentTask != null {
        agenda := Removed(agenda, currentTask);
      }
      currentTask := null;
      ClearPositionHistory();
    }

    /** skipTask: the same as finishTask. */
    method SkipTask()
      requires Valid()
      modifies this`agenda, this`currentTask, this`posHist
      ensures Valid()
      ensures agenda == (if old(currentTask) != null then Removed(old(agenda), old(currentTask)) else old(agenda))
      ensures currentTask == null && posHist == []
      ensures old(currentTask) != null ==> old(currentTask) !in agenda
    {
      if currentTask != null {
        agenda := Removed(agenda, currentTask);
      }
      currentTask := null;
      ClearPositionHistory();
    }

    /** isMissionComplete: nothing left on the agenda and no task under way. */
    function IsMissionComplete(): (r: bool)
      reads this
      ensures r <==> |agenda| == 0 && currentTask == null
    {
      |agenda| == 0 && currentTask == null
    }

    /** getDistanceToForwardObstacle: 25 without readings, else the middle range reading. */
    function GetDistanceToForwardObstacle(): (d: real)
      reads this
      ensures |currentLaserScan.ranges| == 0 ==> d == 25.0
      ensures |currentLaserScan.ranges| > 0 ==> d in currentLaserScan.ranges && d == currentLaserScan.ranges[|currentLaserScan.ranges| / 2]
    {
      if |currentLaserScan.ranges| == 0 then 25.0
      else currentLaserScan.ranges[|currentLaserScan.ranges| / 2]
    }

    /** getMovement and getRotation: the table entry for an action parameter. */
    function GetMovement(para: int): (v: real)
      reads this, move
      requires Valid() && 0 <= para < 6
      ensures v == move[para]
    {
      move[para]
    }

    function GetRotation(para: int): (v: real)
      reads this, rotate
      requires Valid() && 0 <= para < 5
      ensures v == rotate[para]
    {
      rotate[para]
    }
  }
}
