/**
 The console's connection controller: session flag, single-shot reconnect timer and exponential
 backoff, under every order of user actions and socket signals.
 */
module Reconnect {

  const MAX_BACKOFF := 10

  /** The controller's fields, the flags it keeps in the shared state, and the delays it has asked for
      since the backoff was last reset. */
  datatype Controller = Controller(
    backoffS: int,
    manual: bool,
    pending: bool,
    timerActive: bool,
    helloOk: bool,
    connected: bool,
    connecting: bool,
    autoReconnect: bool,
    hasHost: bool,
    delays: seq<int>,
    starts: nat)

  const START := Controller(1, false, false, false, false, false, false, true, false, [], 0)

  datatype Signal =
    | ConnectRequest(hostGiven: bool)
    | DisconnectRequest
    | SetAuto(on: bool)
    | TimerFires
    | TcpConnected
    | TcpDisconnected
    | HelloAck(ok: bool)
    | SocketError

  /** A single-shot timer can only fire while it is armed. */
  predicate Enabled(c: Controller, s: Signal) {
    s.TimerFires? ==> c.timerActive
  }

  predicate WantsReconnect(c: Controller) {
    !c.manual && c.autoReconnect && c.hasHost && !(c.pending && c.timerActive)
  }

  function Min(a: int, b: int): int {
    if a <= b then a else b
  }

  function Schedule(c: Controller): Controller {
    if !WantsReconnect(c) then c
    else c.(pending := true, timerActive := true, delays := c.delays + [c.backoffS],
            backoffS := Min(c.backoffS * 2, MAX_BACKOFF))
  }

  function OnConnectRequest(c: Controller, hostGiven: bool): Controller {
    var r := c.(manual := false, backoffS := 1, delays := [], timerActive := false);
    if r.connected || r.connecting then r
    else r.(hasHost := hostGiven, connecting := true, starts := r.starts + 1)
  }

  function OnTimer(c: Controller): Controller {
    var f := c.(timerActive := false, pending := false);
    if f.manual || f.connected then f
    else f.(connecting := true, helloOk := false, starts := f.starts + 1)
  }

  function OnHelloAck(c: Controller, ok: bool): Controller {
    if !ok then Schedule(c.(helloOk := false, connected := false, connecting := false, manual := false))
    else c.(helloOk := true, pending := false, timerActive := false, backoffS := 1, delays := [], connecting := false,
            connected := true)
  }

  function Apply(c: Controller, s: Signal): Controller {
    match s
    case ConnectRequest(hostGiven) => OnConnectRequest(c, hostGiven)
    case DisconnectRequest => c.(manual := true, timerActive := false)
    case SetAuto(on) => c.(autoReconnect := on)
    case TimerFires => OnTimer(c)
    case TcpConnected =>
      c.(timerActive := false, pending := false, helloOk := false, connecting := true, connected := false)
    case TcpDisconnected => Schedule(c.(helloOk := false, connecting := false, connected := false))
    case HelloAck(ok) => OnHelloAck(c, ok)
    case SocketError => c.(helloOk := false, connecting := false, connected := false)
  }

  /** 1, 2, 4, 8, and 10 from then on. */
  function Backoff(k: nat): int {
    Min(Pow2(k), MAX_BACKOFF)
  }

  function Pow2(k: nat): int {
    if k == 0 then 1 else 2 * Pow2(k - 1)
  }

  ghost predicate Inv(c: Controller) {
    && c.connected == c.helloOk
    && !(c.connected && c.connecting)
    && (c.timerActive ==> c.pending && !c.manual && c.hasHost)
    && c.backoffS == Backoff(|c.delays|)
    && (forall k :: 0 <= k < |c.delays| ==> c.delays[k] == Backoff(k))
  }

  lemma {:induction false} Pow2Positive(k: nat)
    ensures Pow2(k) >= 1
  {
    if k == 0 {
    } else {
      Pow2Positive(k - 1);
    }
  }

  /** Doubling and capping the capped value is capping the doubled one. */
  lemma BackoffDoubles(k: nat)
    ensures Backoff(k + 1) == Min(Backoff(k) * 2, MAX_BACKOFF)
  {
    Pow2Positive(k);
  }

  lemma ScheduleKeeps(c: Controller)
    requires Inv(c)
    ensures Inv(Schedule(c))
  {
    BackoffDoubles(|c.delays|);
  }

  lemma StepKeeps(c: Controller, s: Signal)
    requires Enabled(c, s) && Inv(c)
    ensures Inv(Apply(c, s))
  {
    if s.TcpDisconnected? {
      ScheduleKeeps(c.(helloOk := false, connecting := false, connected := false));
    } else if s == HelloAck(false) {
      ScheduleKeeps(c.(helloOk := false, connected := false, connecting := false, manual := false));
    } else {
      UnscheduledKeeps(c, s);
    }
  }

  lemma UnscheduledKeeps(c: Controller, s: Signal)
    requires Enabled(c, s) && Inv(c) && !s.TcpDisconnected? && s != HelloAck(false)
    ensures Inv(Apply(c, s))
  {
  }

  // ----- runs -----

  ghost predicate IsRun(cs: seq<Controller>, ss: seq<Signal>) {
    && |cs| == |ss| + 1 && cs[0] == START
    && forall i :: 0 <= i < |ss| ==> Enabled(cs[i], ss[i]) && cs[i + 1] == Apply(cs[i], ss[i])
  }

  lemma {:induction false} RunKeeps(cs: seq<Controller>, ss: seq<Signal>, k: nat)
    requires IsRun(cs, ss) && k <= |ss|
    ensures Inv(cs[k])
  {
    if k == 0 {
    } else {
      RunKeeps(cs, ss, k - 1);
      StepKeeps(cs[k - 1], ss[k - 1]);
    }
  }

  /** Whatever the order of signals: `connected` is exactly the HELLO-accepted session, it excludes
      `connecting`, and the k-th delay since the last reset is min(2^k, 10) seconds. */
  lemma SessionAndBackoff(cs: seq<Controller>, ss: seq<Signal>, i: nat, k: nat)
    requires IsRun(cs, ss) && i <= |ss|
    ensures cs[i].connected == cs[i].helloOk && !(cs[i].connected && cs[i].connecting)
    ensures k < |cs[i].delays| ==> cs[i].delays[k] == Backoff(k)
  {
    RunKeeps(cs, ss, i);
  }

  /** An armed timer is never armed again: a step that asks for a delay finds the timer idle. */
  lemma SingleFlight(cs: seq<Controller>, ss: seq<Signal>, i: nat)
    requires IsRun(cs, ss) && i < |ss|
    requires |cs[i + 1].delays| == |cs[i].delays| + 1
    ensures !cs[i].timerActive && cs[i + 1].timerActive
  {
    RunKeeps(cs, ss, i);
    ArmsIdleTimer(cs[i], ss[i]);
  }

  lemma ArmsIdleTimer(c: Controller, s: Signal)
    requires Inv(c) && Enabled(c, s) && |Apply(c, s).delays| == |c.delays| + 1
    ensures !c.timerActive && Apply(c, s).timerActive
  {
  }

  predicate Quiet(s: Signal) {
    !s.ConnectRequest? && s != HelloAck(false)
  }

  lemma ManualStep(c: Controller, s: Signal)
    requires c.manual && !c.timerActive && Enabled(c, s) && Quiet(s)
    ensures Apply(c, s).manual && !Apply(c, s).timerActive && Apply(c, s).starts == c.starts
  {
    if s.TcpDisconnected? {
      NeverScheduled(c.(helloOk := false, connecting := false, connected := false));
    }
  }

  lemma NeverScheduled(c: Controller)
    requires c.manual
    ensures Schedule(c) == c
  {
  }

  /** The user's disconnect is respected: until a new request or a rejected HELLO nothing is started. */
  lemma {:induction false} ManualDisconnectHolds(cs: seq<Controller>, ss: seq<Signal>, i: nat, j: nat)
    requires IsRun(cs, ss) && i < j <= |ss| && ss[i].DisconnectRequest?
    requires forall k :: i < k < j ==> Quiet(ss[k])
    ensures cs[j].manual && !cs[j].timerActive && cs[j].starts == cs[i].starts
  {
    if j == i + 1 {
      assert cs[j] == Apply(cs[i], ss[i]);
    } else {
      ManualDisconnectHolds(cs, ss, i, j - 1);
      ManualStep(cs[j - 1], ss[j - 1]);
      assert cs[j] == Apply(cs[j - 1], ss[j - 1]);
    }
  }

  /** The exact fate of that wish: while no new request comes, it lasts exactly as long as no HELLO is rejected. */
  lemma ManualLastsIff(cs: seq<Controller>, ss: seq<Signal>, i: nat, j: nat)
    requires IsRun(cs, ss) && i < j <= |ss| && ss[i].DisconnectRequest?
    requires forall k :: i < k < j ==> !ss[k].ConnectRequest? && !ss[k].DisconnectRequest?
    ensures cs[j].manual <==> forall k :: i < k < j ==> ss[k] != HelloAck(false)
  {
    assert cs[i + 1] == Apply(cs[i], ss[i]);
    forall k | i < k < j ensures cs[k + 1].manual == (cs[k].manual && ss[k] != HelloAck(false)) {
      ManualNext(cs, ss, k);
    }
    FlagLasts(cs, ss, i + 1, j);
  }

  lemma {:induction false} FlagLasts(cs: seq<Controller>, ss: seq<Signal>, i: nat, j: nat)
    requires i <= j < |cs| && |cs| == |ss| + 1 && cs[i].manual
    requires forall k :: i <= k < j ==> cs[k + 1].manual == (cs[k].manual && ss[k] != HelloAck(false))
    ensures cs[j].manual <==> forall k :: i <= k < j ==> ss[k] != HelloAck(false)
  {
    if j == i {
    } else {
      FlagLasts(cs, ss, i, j - 1);
    }
  }

  lemma ManualNext(cs: seq<Controller>, ss: seq<Signal>, k: nat)
    requires IsRun(cs, ss) && k < |ss| && !ss[k].ConnectRequest? && !ss[k].DisconnectRequest?
    ensures cs[k + 1].manual == (cs[k].manual && ss[k] != HelloAck(false))
  {
    ManualMoves(cs[k], ss[k]);
    assert cs[k + 1] == Apply(cs[k], ss[k]);
  }

  lemma ManualMoves(c: Controller, s: Signal)
    requires Enabled(c, s) && !s.ConnectRequest? && !s.DisconnectRequest?
    ensures Apply(c, s).manual == (c.manual && s != HelloAck(false))
  {
    if s.TcpDisconnected? {
      ScheduleManual(c.(helloOk := false, connecting := false, connected := false));
    } else if s == HelloAck(false) {
      ScheduleManual(c.(helloOk := false, connected := false, connecting := false, manual := false));
    } else {
      UnscheduledManual(c, s);
    }
  }

  lemma ScheduleManual(c: Controller)
    ensures Schedule(c).manual == c.manual
  {
  }

  lemma UnscheduledManual(c: Controller, s: Signal)
    requires Enabled(c, s) && !s.ConnectRequest? && !s.DisconnectRequest?
    requires !s.TcpDisconnected? && s != HelloAck(false)
    ensures Apply(c, s).manual == c.manual
  {
    if s == HelloAck(true) {
      assert OnHelloAck(c, true).manual == c.manual;
    } else if s.TimerFires? {
      assert OnTimer(c).manual == c.manual;
    }
  }

  /** A run in which the user disconnects, a late rejection of HELLO arrives, and the console reconnects by
      itself although nobody asked it to. */
  lemma RejectionUndoesDisconnect() returns (cs: seq<Controller>, ss: seq<Signal>)
    ensures IsRun(cs, ss)
    ensures ss == [ConnectRequest(true), TcpConnected, DisconnectRequest, HelloAck(false), TimerFires]
    ensures cs[3].manual && !cs[4].manual && cs[4].timerActive
    ensures cs[5].connecting && cs[5].starts == cs[3].starts + 1
  {
    ss := [ConnectRequest(true), TcpConnected, DisconnectRequest, HelloAck(false), TimerFires];
    var c1 := Apply(START, ss[0]);
    var c2 := Apply(c1, ss[1]);
    var c3 := Apply(c2, ss[2]);
    var c4 := Apply(c3, ss[3]);
    cs := [START, c1, c2, c3, c4, Apply(c4, ss[4])];
  }

  // ----- what each signal brings -----

  /** Nothing stands against an automatic reconnect but what the user or the settings say. */
  predicate MayReconnect(c: Controller) {
    !c.manual && c.autoReconnect && c.hasHost
  }

  /** A lost link ends session and attempt, and arms the timer exactly when reconnecting is wanted or it was armed:
      with the next backoff delay if it was idle. */
  lemma LostLinkArms(cs: seq<Controller>, ss: seq<Signal>, i: nat)
    requires IsRun(cs, ss) && i < |ss| && ss[i] == TcpDisconnected
    ensures var c, d := cs[i], cs[i + 1];
            && !d.connected && !d.connecting && !d.helloOk && d.manual == c.manual && d.starts == c.starts
            && (d.timerActive <==> c.timerActive || MayReconnect(c))
            && d.delays == c.delays + (if MayReconnect(c) && !c.timerActive then [Backoff(|c.delays|)] else [])
  {
    RunKeeps(cs, ss, i);
    LostArms(cs[i]);
    assert cs[i + 1] == Apply(cs[i], ss[i]);
  }

  lemma LostArms(c: Controller)
    requires Inv(c)
    ensures var d := Apply(c, TcpDisconnected);
            && !d.connected && !d.connecting && !d.helloOk && d.manual == c.manual && d.starts == c.starts
            && (d.timerActive <==> c.timerActive || MayReconnect(c))
            && d.delays == c.delays + (if MayReconnect(c) && !c.timerActive then [Backoff(|c.delays|)] else [])
  {
  }

  /** When the timer goes off, an attempt starts unless the session is up meanwhile. */
  lemma TimerStarts(cs: seq<Controller>, ss: seq<Signal>, i: nat)
    requires IsRun(cs, ss) && i < |ss| && ss[i] == TimerFires
    ensures var c, d := cs[i], cs[i + 1];
            && !d.timerActive && !d.pending && d.connected == c.connected && d.delays == c.delays
            && d.starts == (if c.connected then c.starts else c.starts + 1)
            && (d.connecting <==> !c.connected)
  {
    RunKeeps(cs, ss, i);
    FiredStarts(cs[i]);
    assert cs[i + 1] == Apply(cs[i], ss[i]);
  }

  lemma FiredStarts(c: Controller)
    requires Inv(c) && c.timerActive
    ensures var d := Apply(c, TimerFires);
            && !d.timerActive && !d.pending && d.connected == c.connected && d.delays == c.delays
            && d.starts == (if c.connected then c.starts else c.starts + 1)
            && (d.connecting <==> !c.connected)
  {
  }

  /** A request clears the user's disconnect, the backoff and the timer, and starts an attempt unless one is under way
      or the session is up. */
  lemma RequestStarts(cs: seq<Controller>, ss: seq<Signal>, i: nat, hostGiven: bool)
    requires IsRun(cs, ss) && i < |ss| && ss[i] == ConnectRequest(hostGiven)
    ensures var c, d := cs[i], cs[i + 1];
            var busy := c.connected || c.connecting;
            && !d.manual && !d.timerActive && d.delays == [] && d.backoffS == 1 && d.connected == c.connected
            && d.starts == (if busy then c.starts else c.starts + 1)
            && d.connecting == (c.connecting || !busy) && d.hasHost == (if busy then c.hasHost else hostGiven)
  {
    assert cs[i + 1] == Apply(cs[i], ss[i]);
  }

  /** TCP up is no session yet: the timer stops, and only an accepted HELLO opens the session and resets the backoff. */
  lemma SessionOpens(cs: seq<Controller>, ss: seq<Signal>, i: nat)
    requires IsRun(cs, ss) && i < |ss|
    ensures ss[i] == TcpConnected ==>
              && cs[i + 1].connecting && !cs[i + 1].connected && !cs[i + 1].timerActive && !cs[i + 1].pending
              && cs[i + 1].delays == cs[i].delays
    ensures ss[i] == HelloAck(true) ==>
              && cs[i + 1].connected && !cs[i + 1].connecting && !cs[i + 1].timerActive && !cs[i + 1].pending
              && cs[i + 1].delays == [] && cs[i + 1].backoffS == 1
    ensures ss[i] == SocketError ==>
              && !cs[i + 1].connected && !cs[i + 1].connecting
              && cs[i + 1].timerActive == cs[i].timerActive && cs[i + 1].delays == cs[i].delays
    ensures ss[i].SetAuto? ==> cs[i + 1] == cs[i].(autoReconnect := ss[i].on)
  {
    assert cs[i + 1] == Apply(cs[i], ss[i]);
  }

  /** A rejected HELLO ends the attempt and arms the timer whenever a host is known and reconnecting is on. */
  lemma RejectedArms(cs: seq<Controller>, ss: seq<Signal>, i: nat)
    requires IsRun(cs, ss) && i < |ss| && ss[i] == HelloAck(false)
    ensures var c, d := cs[i], cs[i + 1];
            && !d.connected && !d.connecting && !d.manual
            && (d.timerActive <==> c.timerActive || (c.autoReconnect && c.hasHost))
  {
    RunKeeps(cs, ss, i);
    RejectArms(cs[i]);
    assert cs[i + 1] == Apply(cs[i], ss[i]);
  }

  lemma RejectArms(c: Controller)
    requires Inv(c)
    ensures var d := Apply(c, HelloAck(false));
            && !d.connected && !d.connecting && !d.manual
            && (d.timerActive <==> c.timerActive || (c.autoReconnect && c.hasHost))
  {
  }

  /** The delays in seconds. */
  lemma BackoffIs(k: nat)
    ensures Backoff(k) == if k == 0 then 1 else if k == 1 then 2 else if k == 2 then 4 else if k == 3 then 8 else 10
  {
    if k >= 4 {
      Pow2Grows(k);
    }
  }

  lemma {:induction false} Pow2Grows(k: nat)
    requires k >= 4
    ensures Pow2(k) >= 16
  {
    if k == 4 {
      assert Pow2(1) == 2 && Pow2(2) == 4 && Pow2(3) == 8;
    } else {
      Pow2Grows(k - 1);
    }
  }

  // ----- the object -----

  class ConnectionController {
    var c: Controller

    ghost predicate Valid()
      reads this
    {
      Inv(c)
    }

    constructor ()
      ensures Valid() && c == START
    {
      c := START;
    }

    method ConnectToServer(hostGiven: bool)
      requires Valid()
      modifies this
      ensures Valid() && c == Apply(old(c), ConnectRequest(hostGiven))
    {
      StepKeeps(c, ConnectRequest(hostGiven));
      c := c.(manual := false, backoffS := 1, delays := []);
      c := c.(timerActive := false);
      if c.connected || c.connecting {
        return;
      }
      c := c.(hasHost := hostGiven);
      c := c.(connecting := true, starts := c.starts + 1);
    }

    method DisconnectFromServer()
      requires Valid()
      modifies this
      ensures Valid() && c == Apply(old(c), DisconnectRequest)
    {
      StepKeeps(c, DisconnectRequest);
      c := c.(manual := true);
      c := c.(timerActive := false);
    }

    method ScheduleReconnect()
      modifies this
      ensures c == Schedule(old(c))
    {
      if c.manual || !c.autoReconnect {
        return;
      }
      if !c.hasHost {
        return;
      }
      if c.pending && c.timerActive {
        return;
      }
      c := c.(pending := true);
      var delay := c.backoffS;
      c := c.(backoffS := Min(c.backoffS * 2, MAX_BACKOFF));
      c := c.(timerActive := true, delays := c.delays + [delay]);
    }

    method OnReconnectTimer()
      requires Valid() && c.timerActive
      modifies this
      ensures Valid() && c == Apply(old(c), TimerFires)
    {
      StepKeeps(c, TimerFires);
      c := c.(timerActive := false);
      c := c.(pending := false);
      if c.manual {
        return;
      }
      if c.connected {
        return;
      }
      c := c.(connecting := true);
      c := c.(helloOk := false);
      c := c.(starts := c.starts + 1);
    }

    method OnConnected()
      requires Valid()
      modifies this
      ensures Valid() && c == Apply(old(c), TcpConnected)
    {
      StepKeeps(c, TcpConnected);
      c := c.(timerActive := false);
      c := c.(pending := false);
      c := c.(helloOk := false);
      c := c.(connecting := true);
      c := c.(connected := false);
    }

    method OnDisconnected()
      requires Valid()
      modifies this
      ensures Valid() && c == Apply(old(c), TcpDisconnected)
    {
      StepKeeps(c, TcpDisconnected);
      c := c.(helloOk := false);
      c := c.(connecting := false);
      c := c.(connected := false);
      ScheduleReconnect();
    }

    method OnHelloAck(ok: bool)
      requires Valid()
      modifies this
      ensures Valid() && c == Apply(old(c), HelloAck(ok))
    {
      StepKeeps(c, HelloAck(ok));
      if !ok {
        c := c.(helloOk := false);
        c := c.(connected := false);
        c := c.(connecting := false);
        c := c.(manual := false);
        ScheduleReconnect();
        return;
      }
      c := c.(helloOk := true);
      c := c.(pending := false);
      c := c.(timerActive := false);
      c := c.(backoffS := 1, delays := []);
      c := c.(connecting := false);
      c := c.(connected := true);
    }

    method OnError()
      requires Valid()
      modifies this
      ensures Valid() && c == Apply(old(c), SocketError)
    {
      StepKeeps(c, SocketError);
      c := c.(helloOk := false);
      c := c.(connecting := false);
      c := c.(connected := false);
    }
  }
}
