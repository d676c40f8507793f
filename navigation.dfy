/**
 * The main window's game-controller handling (MainWindowViewModel): buttons 0 to 3 raise shell
 * triggers, buttons 4 and 5 switch to the previous or next view of a fixed cyclic list.
 */
module MainWindow {
  import opened Prelude

  /** The views of the shell; Menu is one that is not in the cyclic list. */
  datatype ViewId = Menu | Dashboard | Typography | Barcode | Camera | Printer | Controller | Nfc

  datatype ShellEvent = Start | Trigger1 | Trigger2 | Trigger3 | Trigger4

  /** What a button does: notify the current view, switch views, or nothing. */
  datatype ButtonCommand = Notify(ev: ShellEvent) | Switch(right: bool) | Ignore

  /** The effect that reaches the navigator. */
  datatype Effect = Forward(view: ViewId) | NotifyAsync(ev: ShellEvent) | NoEffect

  /** The views buttons 4 and 5 cycle through, in order. */
  const Views: seq<ViewId> := [Dashboard, Typography, Barcode, Camera, Printer, Controller, Nfc]

  /** Array.IndexOf: the first position of `v`, or -1 when it is absent. */
  function IndexOf(views: seq<ViewId>, v: ViewId): (i: int)
    ensures -1 <= i < |views|
    ensures 0 <= i ==> views[i] == v
  {
    IndexFrom(views, v, 0)
  }

  /** The search from position `from` on. */
  function IndexFrom(views: seq<ViewId>, v: ViewId, from: nat): (i: int)
    requires from <= |views|
    decreases |views| - from
    ensures i == -1 || from <= i < |views|
    ensures 0 <= i ==> views[i] == v
  {
    if from == |views| then -1
    else if views[from] == v then from
    else IndexFrom(views, v, from + 1)
  }

  /**
   * The new index: position 0 for a view not in the list, otherwise one step right or left,
   * wrapped with `(index + 7) % 7`. The dividend is never negative, so C#'s remainder and
   * Dafny's agree here.
   */
  function NextIndex(index: int, right: bool): (next: int)
    requires -1 <= index < |Views|
    ensures 0 <= next < |Views|
    ensures index < 0 ==> next == 0
    ensures 0 <= index && right ==> next == if index == |Views| - 1 then 0 else index + 1
    ensures 0 <= index && !right ==> next == if index == 0 then |Views| - 1 else index - 1
  {
    var stepped := if index < 0 then 0 else index + (if right then 1 else -1);
    (stepped + |Views|) % |Views|
  }

  /** The wrap-around computes what C#'s remainder computes on the same (non-negative) dividend. */
  lemma WrapIsCSharpRemainder(index: int, right: bool)
    requires -1 <= index < |Views|
    ensures var stepped := if index < 0 then 0 else index + (if right then 1 else -1);
      NextIndex(index, right) == Rem(stepped + |Views|, |Views|)
  {
    var stepped := if index < 0 then 0 else index + (if right then 1 else -1);
    QuotRemNonNegative(stepped + |Views|, |Views|);
  }

  /** SwitchView: the view to go to, or none when there is no current view. */
  function SwitchTarget(current: Option<ViewId>, right: bool): (target: Option<ViewId>)
    ensures current.None? <==> target.None?
  {
    match current
    case None => None
    case Some(v) => Some(Views[NextIndex(IndexOf(Views, v), right)])
  }

  /** Every switch lands on a listed view. */
  lemma SwitchTargetListed(current: Option<ViewId>, right: bool)
    ensures SwitchTarget(current, right).Some? ==> SwitchTarget(current, right).value in Views
  {
  }

  /** ControllerOnButtonChanged: only presses act; keys 0-3 are triggers, 4 is left, 5 is right. */
  function ButtonCommandOf(key: byte, pressed: bool): (c: ButtonCommand)
    ensures c.Notify? <==> pressed && key <= 3
    ensures c.Switch? <==> pressed && (key == 4 || key == 5)
    ensures c.Switch? ==> (c.right <==> key == 5)
  {
    if !pressed then Ignore
    else if key == 0 then Notify(Trigger1)
    else if key == 1 then Notify(Trigger2)
    else if key == 2 then Notify(Trigger3)
    else if key == 3 then Notify(Trigger4)
    else if key == 4 then Switch(false)
    else if key == 5 then Switch(true)
    else Ignore
  }

  /** A button change seen through to the navigator, given the current view. */
  function ButtonEffect(current: Option<ViewId>, key: byte, pressed: bool): (e: Effect)
    ensures e.NotifyAsync? ==> ButtonCommandOf(key, pressed) == Notify(e.ev)
    ensures e.Forward? ==> SwitchTarget(current, key == 5) == Some(e.view)
    ensures e == NoEffect <==> !pressed || key > 5 || (key >= 4 && current.None?)
  {
    match ButtonCommandOf(key, pressed)
    case Notify(ev) => NotifyAsync(ev)
    case Switch(right) =>
      (match SwitchTarget(current, right)
       case Some(v) => Forward(v)
       case None => NoEffect)
    case Ignore => NoEffect
  }

  /** Switching n times in one direction. */
  function Switches(current: Option<ViewId>, right: bool, n: nat): Option<ViewId>
    decreases n
  {
    if n == 0 then current else Switches(SwitchTarget(current, right), right, n - 1)
  }

  // ---------------------------------------------------------------------------------------------
  // Properties

  /** Where each view sits in the list, -1 for Menu. */
  function Position(v: ViewId): int {
    match v
    case Menu => -1
    case Dashboard => 0
    case Typography => 1
    case Barcode => 2
    case Camera => 3
    case Printer => 4
    case Controller => 5
    case Nfc => 6
  }

  /** The search finds each view at its own position: the list has no repeats. */
  lemma IndexOfIsPosition(v: ViewId)
    ensures IndexOf(Views, v) == Position(v)
    ensures 0 <= Position(v) ==> Views[Position(v)] == v
  {
    match v
    case Menu =>
    case Dashboard =>
    case Typography =>
    case Barcode =>
    case Camera =>
    case Printer =>
    case Controller =>
    case Nfc =>
  }

  /** The view at position j is found at j. */
  lemma PositionOfListed(j: nat)
    requires j < |Views|
    ensures Position(Views[j]) == j
  {
  }

  /** A view not in the list goes to Dashboard, in both directions. */
  lemma UnknownViewGoesToDashboard(v: ViewId, right: bool)
    requires v !in Views
    ensures SwitchTarget(Some(v), right) == Some(Dashboard)
  {
  }

  /** From a listed view, right then left, and left then right, come back to that same view. */
  lemma SwitchBack(v: ViewId, right: bool)
    requires v in Views
    ensures SwitchTarget(SwitchTarget(Some(v), right), !right) == Some(v)
  {
    IndexOfIsPosition(v);
    var j := NextIndex(Position(v), right);
    IndexOfIsPosition(Views[j]);
    PositionOfListed(j);
  }

  /** The signed distance n switches cover. */
  function Offset(right: bool, n: nat): int {
    if right then n as int else -(n as int)
  }

  /** One switch from the view at position p goes to the view at NextIndex(p). */
  lemma SwitchStep(p: nat, right: bool)
    requires p < |Views|
    ensures SwitchTarget(Some(Views[p]), right) == Some(Views[Turn(p, right)])
  {
    IndexOfIsPosition(Views[p]);
    PositionOfListed(p);
  }

  /** One step around the cycle of positions 0 to 6, as NextIndex takes it from a listed view. */
  function Turn(p: nat, right: bool): (q: nat)
    requires p < |Views|
    ensures q < |Views|
  {
    if right then (if p == |Views| - 1 then 0 else p + 1)
    else (if p == 0 then |Views| - 1 else p - 1)
  }

  /** n steps around the cycle. */
  function Steps(p: nat, right: bool, n: nat): (q: nat)
    requires p < |Views|
    decreases n
    ensures q < |Views|
  {
    if n == 0 then p else Steps(Turn(p, right), right, n - 1)
  }

  /** n switches from a listed view land on the view at Steps(its position, n). */
  lemma {:induction false} SwitchesAsSteps(v: ViewId, right: bool, n: nat)
    requires 0 <= Position(v)
    decreases n
    ensures Switches(Some(v), right, n) == Some(Views[Steps(Position(v), right, n)])
  {
    if n > 0 {
      var p := Position(v);
      SwitchStep(p, right);
      IndexOfIsPosition(v);
      var w := Views[Turn(p, right)];
      PositionOfListed(Turn(p, right));
      SwitchesAsSteps(w, right, n - 1);
    }
  }

  /** n steps move n places around the cycle. */
  lemma {:induction false} StepsMove(p: nat, right: bool, n: nat)
    requires p < |Views|
    decreases n
    ensures Steps(p, right, n) == (p + Offset(right, n)) % 7
  {
    if n > 0 {
      var t := Turn(p, right);
      StepsMove(t, right, n - 1);
      var c := (t - p - Offset(right, 1)) / 7;
      assert t + Offset(right, n - 1) == p + Offset(right, n) + 7 * c;
      ShiftBySeven(p + Offset(right, n), c);
    }
  }

  /** Adding a multiple of seven does not change the remainder. */
  lemma ShiftBySeven(x: int, c: int)
    requires -1 <= c <= 1
    ensures (x + 7 * c) % 7 == x % 7
  {
  }

  /** Whole turns around the cycle leave a position where it was. */
  lemma WholeTurns(p: nat, right: bool, n: nat)
    requires p < |Views| && n % |Views| == 0
    ensures (p + Offset(right, n)) % |Views| == p
  {
    var k := n / 7;
    assert n == 7 * k;
    var m := p + Offset(right, n);
    var q := if right then k else -k;
    assert m == p + 7 * q;
    assert m / 7 == q;
  }

  /** Seven switches in one direction, or any multiple of seven, come back to the start. */
  lemma SwitchesCycle(v: ViewId, right: bool, n: nat)
    requires v in Views && n % |Views| == 0
    ensures Switches(Some(v), right, n) == Some(v)
  {
    IndexOfIsPosition(v);
    var p := Position(v);
    WholeTurns(p, right, n);
    SwitchesAsSteps(v, right, n);
    StepsMove(p, right, n);
  }

  /**
   * Only a press of keys 0 to 5 does anything; keys 0-3 raise Trigger1-4 in order, key 4
   * switches left and key 5 right, so distinct keys do distinct things.
   */
  lemma ButtonMapping(key: byte, pressed: bool)
    ensures ButtonCommandOf(key, pressed) != Ignore <==> pressed && key <= 5
    ensures pressed && key <= 3 ==> ButtonCommandOf(key, pressed) == Notify([Trigger1, Trigger2, Trigger3, Trigger4][key])
    ensures pressed && key == 4 ==> ButtonCommandOf(key, pressed) == Switch(false)
    ensures pressed && key == 5 ==> ButtonCommandOf(key, pressed) == Switch(true)
  {
  }

  /** Distinct pressed keys 0 to 5 lead to distinct commands. */
  lemma ButtonsDistinct(k1: byte, k2: byte)
    requires k1 <= 5 && k2 <= 5 && k1 != k2
    ensures ButtonCommandOf(k1, true) != ButtonCommandOf(k2, true)
  {
  }

  /** A button switches only when there is a current view, and then always to a listed view. */
  lemma SwitchNeedsCurrentView(current: Option<ViewId>, key: byte)
    requires key == 4 || key == 5
    ensures ButtonEffect(current, key, true).Forward? <==> current.Some?
    ensures ButtonEffect(current, key, true).Forward? ==> ButtonEffect(current, key, true).view in Views
  {
  }
}
