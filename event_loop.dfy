/** The `for (;;)` loop at the end of `main`: process one message without
    blocking; if something was processed, go round again; otherwise stop when an
    exit was requested, or block until the bus has something new. Any negative
    result ends the loop. */
module EventLoop {
  import opened TrayItem
  import opened Registration

  type Pos = x: int | x > 0 witness 1
  type Neg = x: int | x < 0 witness -1

  /** A message `sd_bus_process` dispatched, with what its handler will meet. */
  datatype Message =
    | ActivateCall(system: string -> CommandResult, iconSent: int, statusSent: int)
    | SecondaryActivateCall
    | NameOwnerChanged(name: ReadResult, oldOwner: ReadResult, newOwner: ReadResult, reply: Reply)
    | OtherTraffic

  /** One call of `sd_bus_process`: it processed a message (positive result),
      had nothing to do (zero) or failed (negative). An idle step carries what
      the `sd_bus_wait` that follows it returns, should the loop call it. */
  datatype ProcessStep = Processed(count: Pos, msg: Message) | Idle(wait: int) | ProcessFailed(code: Neg)

  /** What the loop did, in order. */
  datatype Event =
    | Dispatch
    | Quiescent(exitRequested: bool)
    | Waited(ret: int)
    | ProcessError(code: int)

  /** How the loop ended: the `break` on an exit request, a fatal result, or not
      at all before the bus script ran out. */
  datatype End = Stopped | Fatal(code: int) | Unfinished

  /** The loop's end, the record afterwards, the events, the signals sent, the
      registrations attempted by the retry handler and the number of
      `sd_bus_process` results used. */
  datatype Run = Run(end: End, item: Item, trace: seq<Event>, emitted: seq<Signal>, retries: nat, consumed: nat)

  /** The value of `ret` when the loop has ended. */
  function FinalRet(e: End): (ret: int)
    requires !e.Unfinished?
    ensures e.Stopped? ==> ret == 0
    ensures e.Fatal? ==> ret == e.code
  {
    if e.Stopped? then 0 else e.code
  }

  /** What dispatching one message does to the record: the handler it reaches,
      with the NameOwnerChanged handler only reached while its match is installed. */
  datatype Dispatched = Dispatched(item: Item, emitted: seq<Signal>, retries: nat)

  function DispatchMessage(p: Item, m: Message, subscribed: bool): (d: Dispatched)
    ensures d.item.shouldExit == (p.shouldExit || m.SecondaryActivateCall?)
    ensures SameIdentity(p, d.item)
    ensures !m.ActivateCall? ==> d.emitted == [] && d.item.enabled == p.enabled
    ensures m.ActivateCall? ==>
      var a := Activated(p, m.system, m.iconSent, m.statusSent);
      d.item == a.item && d.emitted == a.emitted
    ensures m.SecondaryActivateCall? ==> d.item == Exiting(p)
    ensures m.NameOwnerChanged? || m.OtherTraffic? ==> d.item == p
    ensures d.retries == (if subscribed && m.NameOwnerChanged? &&
      ReadOk(m.name) && ReadOk(m.oldOwner) && ReadOk(m.newOwner) then 1 else 0)
  {
    match m
    case ActivateCall(system, iconSent, statusSent) =>
      var a := Activated(p, system, iconSent, statusSent);
      Dispatched(a.item, a.emitted, 0)
    case SecondaryActivateCall => Dispatched(Exiting(p), [], 0)
    case NameOwnerChanged(name, oldOwner, newOwner, reply) =>
      var attempts := if subscribed then OwnerChanged(name, oldOwner, newOwner, reply).attempts else 0;
      Dispatched(p, [], attempts)
    case OtherTraffic => Dispatched(p, [], 0)
  }

  /** The loop over a script of `sd_bus_process` results. */
  function Loop(p: Item, subscribed: bool, steps: seq<ProcessStep>): (r: Run)
    ensures r.consumed <= |steps|
    ensures r.end.Unfinished? ==> r.consumed == |steps|
    decreases |steps|
  {
    if steps == [] then Run(Unfinished, p, [], [], 0, 0)
    else match steps[0]
      case ProcessFailed(c) => Run(Fatal(c), p, [ProcessError(c)], [], 0, 1)
      case Processed(_, m) =>
        var d := DispatchMessage(p, m, subscribed);
        var rest := Loop(d.item, subscribed, steps[1..]);
        rest.(trace := [Dispatch] + rest.trace, emitted := d.emitted + rest.emitted,
              retries := d.retries + rest.retries, consumed := 1 + rest.consumed)
      case Idle(w) =>
        if p.shouldExit then Run(Stopped, p, [Quiescent(true)], [], 0, 1)
        else if w < 0 then Run(Fatal(w), p, [Quiescent(false), Waited(w)], [], 0, 1)
        else
          var rest := Loop(p, subscribed, steps[1..]);
          rest.(trace := [Quiescent(false), Waited(w)] + rest.trace, consumed := 1 + rest.consumed)
  }

  /** Hands one processed message to the handler it is for. */
  method Deliver(p: Properties, m: Message, subscribed: bool) returns (attempts: nat)
    modifies p
    ensures var d := DispatchMessage(old(p.Value()), m, subscribed);
      p.Value() == d.item && p.signals == old(p.signals) + d.emitted && attempts == d.retries
  {
    attempts := 0;
    match m {
      case ActivateCall(system, iconSent, statusSent) =>
        var _ := p.Activate(system, iconSent, statusSent);
      case SecondaryActivateCall =>
        p.SecondaryActivate();
      case NameOwnerChanged(name, oldOwner, newOwner, reply) =>
        if subscribed {
          var _, _, n := OnNameOwnerChanged(name, oldOwner, newOwner, reply);
          attempts := n;
        }
      case OtherTraffic =>
    }
  }

  lemma ConcatAssociative<T>(a: seq<T>, b: seq<T>, c: seq<T>)
    ensures (a + b) + c == a + (b + c)
  {
  }

  /** The loop as `main` runs it, dispatching to the handlers of `p`. */
  method RunLoop(p: Properties, subscribed: bool, steps: seq<ProcessStep>)
    returns (end: End, retries: nat)
    modifies p
    ensures var r := Loop(old(p.Value()), subscribed, steps);
      end == r.end && p.Value() == r.item && retries == r.retries &&
      p.signals == old(p.signals) + r.emitted
  {
    ghost var whole := Loop(p.Value(), subscribed, steps);
    ghost var cur := p.Value();
    ghost var sent: seq<Signal> := [];
    var i := 0;
    retries := 0;
    while true
      invariant 0 <= i <= |steps|
      invariant p.Value() == cur && p.signals == old(p.signals) + sent
      invariant var r := Loop(cur, subscribed, steps[i..]);
        whole.end == r.end && whole.item == r.item && whole.retries == retries + r.retries &&
        whole.emitted == sent + r.emitted
      decreases |steps| - i
    {
      if i == |steps| {
        return Unfinished, retries;
      }
      assert steps[i..][0] == steps[i] && steps[i..][1..] == steps[i + 1..];
      match steps[i] {
        case ProcessFailed(c) =>
          return Fatal(c), retries;
        case Processed(_, m) =>
          ghost var d := DispatchMessage(cur, m, subscribed);
          ghost var rest := Loop(d.item, subscribed, steps[i + 1..]);
          assert whole.emitted == sent + (d.emitted + rest.emitted);
          ConcatAssociative(old(p.signals), sent, d.emitted);
          ConcatAssociative(sent, d.emitted, rest.emitted);
          var attempts := Deliver(p, m, subscribed);
          retries := retries + attempts;
          cur, sent := d.item, sent + d.emitted;
          i := i + 1;
        case Idle(w) =>
          if p.shouldExit {
            return Stopped, retries;
          }
          if w < 0 {
            return Fatal(w), retries;
          }
          i := i + 1;
      }
    }
  }

  /** A run that used all of its steps without ending, followed by another. */
  function Then(first: Run, second: Run): (r: Run) {
    Run(second.end, second.item, first.trace + second.trace, first.emitted + second.emitted,
        first.retries + second.retries, first.consumed + second.consumed)
  }

  /** Running the loop over two scripts in turn is running it over their
      concatenation: the second script only matters when the first ran out
      without ending the loop. */
  lemma {:induction false} LoopSplit(p: Item, subscribed: bool, a: seq<ProcessStep>, b: seq<ProcessStep>)
    ensures var r := Loop(p, subscribed, a);
      Loop(p, subscribed, a + b) == if r.end.Unfinished? then Then(r, Loop(r.item, subscribed, b)) else r
    decreases |a|
  {
    if a == [] {
      assert a + b == b;
    } else {
      assert (a + b)[0] == a[0] && (a + b)[1..] == a[1..] + b;
      match a[0]
      case ProcessFailed(c) =>
      case Processed(_, m) =>
        var d := DispatchMessage(p, m, subscribed);
        LoopSplit(d.item, subscribed, a[1..], b);
        var rest := Loop(d.item, subscribed, a[1..]);
        if rest.end.Unfinished? {
          var next := Loop(rest.item, subscribed, b);
          ConcatAssociative([Dispatch], rest.trace, next.trace);
          ConcatAssociative(d.emitted, rest.emitted, next.emitted);
        }
      case Idle(w) =>
        if !p.shouldExit && w >= 0 {
          LoopSplit(p, subscribed, a[1..], b);
          var rest := Loop(p, subscribed, a[1..]);
          if rest.end.Unfinished? {
            var next := Loop(rest.item, subscribed, b);
            ConcatAssociative([Quiescent(false), Waited(w)], rest.trace, next.trace);
          }
        }
    }
  }

  /** The order the loop keeps: a wait comes only right after a quiescent check
      that found no exit request (so a positive process result never leads to a
      wait); an exit request found at a quiescent check, a failed process step
      and a failed wait are each the last event. */
  predicate WellOrdered(t: seq<Event>) {
    (forall i :: 0 <= i < |t| && t[i].Waited? ==> 0 < i && t[i - 1] == Quiescent(false)) &&
    (forall i :: 0 <= i < |t| && t[i] == Quiescent(true) ==> i == |t| - 1) &&
    (forall i :: 0 <= i < |t| && t[i].ProcessError? ==> i == |t| - 1) &&
    (forall i :: 0 <= i < |t| && t[i].Waited? && t[i].ret < 0 ==> i == |t| - 1)
  }

  lemma {:induction false} LoopWellOrdered(p: Item, subscribed: bool, steps: seq<ProcessStep>)
    ensures WellOrdered(Loop(p, subscribed, steps).trace)
    decreases |steps|
  {
    if steps != [] {
      match steps[0]
      case ProcessFailed(c) =>
      case Processed(_, m) =>
        var d := DispatchMessage(p, m, subscribed);
        var rest := Loop(d.item, subscribed, steps[1..]).trace;
        LoopWellOrdered(d.item, subscribed, steps[1..]);
        var t := [Dispatch] + rest;
        assert forall i :: 1 <= i < |t| ==> t[i] == rest[i - 1];
      case Idle(w) =>
        if !p.shouldExit && w >= 0 {
          var rest := Loop(p, subscribed, steps[1..]).trace;
          LoopWellOrdered(p, subscribed, steps[1..]);
          var t := [Quiescent(false), Waited(w)] + rest;
          assert forall i :: 2 <= i < |t| ==> t[i] == rest[i - 2];
        }
    }
  }

  /** The loop ends normally exactly when its last event is a quiescent check
      that found the exit request; it fails only on a negative result, which is
      then the last event. */
  lemma {:induction false} LoopEnds(p: Item, subscribed: bool, steps: seq<ProcessStep>)
    ensures var r := Loop(p, subscribed, steps);
      (r.end.Stopped? <==> r.trace != [] && r.trace[|r.trace| - 1] == Quiescent(true)) &&
      (r.end.Stopped? ==> r.item.shouldExit) &&
      (r.end.Fatal? ==>
        r.end.code < 0 && r.trace != [] &&
        r.trace[|r.trace| - 1] in {ProcessError(r.end.code), Waited(r.end.code)})
    decreases |steps|
  {
    if steps != [] {
      match steps[0]
      case ProcessFailed(c) =>
      case Processed(_, m) =>
        var d := DispatchMessage(p, m, subscribed);
        LoopEnds(d.item, subscribed, steps[1..]);
        var rest := Loop(d.item, subscribed, steps[1..]).trace;
        if rest != [] {
          assert ([Dispatch] + rest)[|rest|] == rest[|rest| - 1];
        }
      case Idle(w) =>
        if !p.shouldExit && w >= 0 {
          LoopEnds(p, subscribed, steps[1..]);
          var rest := Loop(p, subscribed, steps[1..]).trace;
          if rest != [] {
            assert ([Quiescent(false), Waited(w)] + rest)[|rest| + 1] == rest[|rest| - 1];
          }
        }
    }
  }

  /** The loop never changes the commands, the icons, the title or the identity
      properties, never withdraws an exit request, and keeps `Status` and
      `IconName` in agreement with `enabled` when they were at the start. */
  lemma {:induction false} LoopKeepsSetup(p: Item, subscribed: bool, steps: seq<ProcessStep>)
    ensures var q := Loop(p, subscribed, steps).item;
      SameIdentity(p, q) && q.cmdOn == p.cmdOn && q.cmdOff == p.cmdOff &&
      q.iconOn == p.iconOn && q.iconOff == p.iconOff && q.title == p.title &&
      (p.shouldExit ==> q.shouldExit) && (ShowsState(p) ==> ShowsState(q))
    decreases |steps|
  {
    if steps != [] {
      match steps[0]
      case ProcessFailed(c) =>
      case Processed(_, m) =>
        var d := DispatchMessage(p, m, subscribed);
        LoopKeepsSetup(d.item, subscribed, steps[1..]);
      case Idle(w) =>
        if !p.shouldExit && w >= 0 {
          LoopKeepsSetup(p, subscribed, steps[1..]);
        }
    }
  }

  /** The loop ends on the step it consumed last, and only on a step that can
      end it: a positive process result always goes round again, a stop needs
      a zero process result, and a failure carries the negative result of the
      process call or of the wait after a zero process result. */
  lemma {:induction false} LoopEndsAtItsStep(p: Item, subscribed: bool, steps: seq<ProcessStep>)
    ensures var r := Loop(p, subscribed, steps);
      !r.end.Unfinished? ==>
        0 < r.consumed &&
        (r.end.Stopped? ==> steps[r.consumed - 1].Idle?) &&
        (r.end.Fatal? ==>
          (steps[r.consumed - 1].ProcessFailed? && steps[r.consumed - 1].code == r.end.code) ||
          (steps[r.consumed - 1].Idle? && steps[r.consumed - 1].wait == r.end.code))
    decreases |steps|
  {
    if steps != [] {
      match steps[0]
      case ProcessFailed(c) =>
      case Processed(_, m) =>
        var d := DispatchMessage(p, m, subscribed);
        LoopEndsAtItsStep(d.item, subscribed, steps[1..]);
        var rest := Loop(d.item, subscribed, steps[1..]);
        if !rest.end.Unfinished? {
          assert steps[rest.consumed] == steps[1..][rest.consumed - 1];
        }
      case Idle(w) =>
        if !p.shouldExit && w >= 0 {
          LoopEndsAtItsStep(p, subscribed, steps[1..]);
          var rest := Loop(p, subscribed, steps[1..]);
          if !rest.end.Unfinished? {
            assert steps[rest.consumed] == steps[1..][rest.consumed - 1];
          }
        }
    }
  }

  /** A failed `sd_bus_process` or a failed `sd_bus_wait`. */
  predicate FailureEvent(e: Event) {
    e.ProcessError? || (e.Waited? && e.ret < 0)
  }

  /** The loop fails exactly when its last event is a failure. */
  lemma {:induction false} LoopFailsOnFailureEvent(p: Item, subscribed: bool, steps: seq<ProcessStep>)
    ensures var r := Loop(p, subscribed, steps);
      r.end.Fatal? <==> r.trace != [] && FailureEvent(r.trace[|r.trace| - 1])
    decreases |steps|
  {
    if steps != [] {
      match steps[0]
      case ProcessFailed(c) =>
      case Processed(_, m) =>
        var d := DispatchMessage(p, m, subscribed);
        LoopFailsOnFailureEvent(d.item, subscribed, steps[1..]);
        var rest := Loop(d.item, subscribed, steps[1..]).trace;
        if rest != [] {
          assert ([Dispatch] + rest)[|rest|] == rest[|rest| - 1];
        }
      case Idle(w) =>
        if !p.shouldExit && w >= 0 {
          LoopFailsOnFailureEvent(p, subscribed, steps[1..]);
          var rest := Loop(p, subscribed, steps[1..]).trace;
          if rest != [] {
            assert ([Quiescent(false), Waited(w)] + rest)[|rest| + 1] == rest[|rest| - 1];
          }
        }
    }
  }

  /** Step `k` is a negative result the loop reaches: the loop ran through the
      steps before it, and it is a failed `sd_bus_process`, or an idle step,
      met without the exit request, whose `sd_bus_wait` fails. */
  predicate FailsAt(p: Item, subscribed: bool, steps: seq<ProcessStep>, k: nat) {
    k < |steps| && Loop(p, subscribed, steps[..k]).end.Unfinished? &&
    (steps[k].ProcessFailed? ||
     (steps[k].Idle? && steps[k].wait < 0 && !Loop(p, subscribed, steps[..k]).item.shouldExit))
  }

  /** Any negative result the loop reaches ends it, with that result. */
  lemma FailureEndsLoop(p: Item, subscribed: bool, steps: seq<ProcessStep>, k: nat)
    requires FailsAt(p, subscribed, steps, k)
    ensures Loop(p, subscribed, steps).end ==
      Fatal(if steps[k].ProcessFailed? then steps[k].code else steps[k].wait)
    ensures Loop(p, subscribed, steps).consumed == k + 1
  {
    assert steps == steps[..k] + steps[k..];
    LoopSplit(p, subscribed, steps[..k], steps[k..]);
    assert steps[k..][0] == steps[k];
  }

  /** Once the exit has been requested, the loop stops at the first step on which
      `sd_bus_process` finds nothing to do, whatever it dispatched before. */
  lemma {:induction false} ExitAtNextQuiescentPoint(p: Item, subscribed: bool, steps: seq<ProcessStep>, k: nat)
    requires p.shouldExit
    requires k < |steps| && steps[k].Idle?
    requires forall j :: 0 <= j < k ==> steps[j].Processed?
    ensures Loop(p, subscribed, steps).end == Stopped
    ensures |Loop(p, subscribed, steps).trace| == k + 1
    ensures Loop(p, subscribed, steps).consumed == k + 1
    decreases k
  {
    if k > 0 {
      var d := DispatchMessage(p, steps[0].msg, subscribed);
      assert forall j :: 0 <= j < k - 1 ==> steps[1..][j] == steps[j + 1];
      ExitAtNextQuiescentPoint(d.item, subscribed, steps[1..], k - 1);
    }
  }

  /** A secondary action dispatched part-way through (the loop reached step
      `k` without ending) stops the loop at the first idle step after it. */
  lemma ExitAfterSecondaryActivate(p: Item, subscribed: bool, steps: seq<ProcessStep>, k: nat, m: nat)
    requires k < m < |steps|
    requires Loop(p, subscribed, steps[..k]).end.Unfinished?
    requires steps[k].Processed? && steps[k].msg.SecondaryActivateCall?
    requires steps[m].Idle?
    requires forall j :: k < j < m ==> steps[j].Processed?
    ensures Loop(p, subscribed, steps).end == Stopped
    ensures Loop(p, subscribed, steps).consumed == m + 1
  {
    assert steps == steps[..k] + steps[k..];
    LoopSplit(p, subscribed, steps[..k], steps[k..]);
    var q := Loop(p, subscribed, steps[..k]).item;
    var tail := steps[k..];
    assert tail[0] == steps[k] && tail[1..] == steps[k + 1..];
    var after := steps[k + 1..];
    assert forall j :: 0 <= j < m - k - 1 ==> after[j] == steps[j + k + 1];
    ExitAtNextQuiescentPoint(Exiting(q), subscribed, steps[k + 1..], m - k - 1);
  }

  /** A normal stop needs an exit request: from the start, or from a secondary
      action dispatched before the stop. */
  lemma {:induction false} StopNeedsSecondaryActivate(p: Item, subscribed: bool, steps: seq<ProcessStep>)
    requires !p.shouldExit
    requires Loop(p, subscribed, steps).end == Stopped
    ensures exists k ::
      0 <= k < Loop(p, subscribed, steps).consumed && steps[k].Processed? && steps[k].msg.SecondaryActivateCall?
    decreases |steps|
  {
    match steps[0]
    case ProcessFailed(c) =>
    case Processed(_, m) =>
      if !m.SecondaryActivateCall? {
        var d := DispatchMessage(p, m, subscribed);
        StopNeedsSecondaryActivate(d.item, subscribed, steps[1..]);
        var k :| 0 <= k < Loop(d.item, subscribed, steps[1..]).consumed &&
          steps[1..][k].Processed? && steps[1..][k].msg.SecondaryActivateCall?;
        assert steps[k + 1] == steps[1..][k];
      } else {
        assert steps[0].Processed? && steps[0].msg.SecondaryActivateCall?;
      }
    case Idle(w) =>
      StopNeedsSecondaryActivate(p, subscribed, steps[1..]);
      var k :| 0 <= k < Loop(p, subscribed, steps[1..]).consumed &&
        steps[1..][k].Processed? && steps[1..][k].msg.SecondaryActivateCall?;
      assert steps[k + 1] == steps[1..][k];
  }

  /** Without the NameOwnerChanged match nothing retries the registration; with
      it, every processed NameOwnerChanged signal whose three strings read
      cleanly adds exactly one attempt. */
  function Retries(subscribed: bool, steps: seq<ProcessStep>): (n: nat)
    decreases |steps|
  {
    if steps == [] then 0
    else
      var here := if subscribed && steps[0].Processed? && steps[0].msg.NameOwnerChanged?
        then (var m := steps[0].msg; if ReadOk(m.name) && ReadOk(m.oldOwner) && ReadOk(m.newOwner) then 1 else 0)
        else 0;
      here + Retries(subscribed, steps[1..])
  }

  /** The retries the loop makes are exactly those counted over the steps it
      consumed, and none without the match. */
  lemma {:induction false} LoopRetries(p: Item, subscribed: bool, steps: seq<ProcessStep>)
    ensures var r := Loop(p, subscribed, steps);
      r.retries == Retries(subscribed, steps[..r.consumed])
    ensures !subscribed ==> Loop(p, subscribed, steps).retries == 0
    decreases |steps|
  {
    if steps != [] {
      var r := Loop(p, subscribed, steps);
      var used := steps[..r.consumed];
      assert used[0] == steps[0];
      match steps[0]
      case ProcessFailed(c) =>
        assert used[1..] == [];
      case Processed(_, m) =>
        var d := DispatchMessage(p, m, subscribed);
        LoopRetries(d.item, subscribed, steps[1..]);
        assert used[1..] == steps[1..][..r.consumed - 1];
      case Idle(w) =>
        if !p.shouldExit && w >= 0 {
          LoopRetries(p, subscribed, steps[1..]);
          assert used[1..] == steps[1..][..r.consumed - 1];
        } else {
          assert used[1..] == [];
        }
    }
  }
}
