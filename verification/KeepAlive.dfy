/**
 The shared Telegram connection and its liveness probers, as a transition system.

 A generation counter goes up with every connect, reconnect and close. Each connect starts a prober that
 remembers the generation it was started in; a prober compares generations only when its ticker wakes it,
 and between that look and the outcome of its probe anything may happen.
 */
module KeepAlive {
  import opened Content

  /** What a prober is doing: waiting for its ticker, probing a client, or about to tear a dead one down. */
  datatype Phase = Sleeping | Probing(client: nat) | Failed(client: nat)

  datatype Prober = Prober(gen: nat, phase: Phase)

  /** Clients and probers are numbered in the order they are made; `interval` says whether to probe at all. */
  datatype State = State(
    interval: int,
    gen: nat,
    client: Option<nat>,
    nextClient: nat,
    probers: map<nat, Prober>,
    nextProber: nat)

  datatype Action =
    | Connect
    | Reconnect
    | Close
    | Tick(p: nat)
    | ProbeSucceeds(p: nat)
    | ProbeFails(p: nat)
    | Teardown(p: nat)

  function Fresh(interval: int): State {
    State(interval, 0, None, 0, map[], 0)
  }

  predicate Enabled(s: State, a: Action) {
    match a
    case Connect => s.client.None?
    case Reconnect => true
    case Close => true
    case Tick(p) => p in s.probers && s.probers[p].phase.Sleeping?
    case ProbeSucceeds(p) => p in s.probers && s.probers[p].phase.Probing?
    case ProbeFails(p) => p in s.probers && s.probers[p].phase.Probing?
    case Teardown(p) => p in s.probers && s.probers[p].phase.Failed?
  }

  function Connected(s: State): State {
    var s' := s.(client := Some(s.nextClient), nextClient := s.nextClient + 1);
    if s.interval <= 0 then s'
    else s'.(gen := s.gen + 1, probers := s.probers[s.nextProber := Prober(s.gen + 1, Sleeping)], nextProber := s.nextProber + 1)
  }

  function Disconnected(s: State): State {
    s.(gen := s.gen + 1, client := None)
  }

  function Becomes(s: State, p: nat, phase: Phase): State
    requires p in s.probers
  {
    s.(probers := s.probers[p := s.probers[p].(phase := phase)])
  }

  function Ticked(s: State, p: nat): State
    requires p in s.probers
  {
    if s.probers[p].gen != s.gen || s.client.None? then s.(probers := s.probers - {p})
    else Becomes(s, p, Probing(s.client.value))
  }

  function Apply(s: State, a: Action): State
    requires Enabled(s, a)
  {
    match a
    case Connect => Connected(s)
    case Reconnect => Disconnected(s)
    case Close => Disconnected(s)
    case Tick(p) => Ticked(s, p)
    case ProbeSucceeds(p) => Becomes(s, p, Sleeping)
    case ProbeFails(p) => Becomes(s, p, Failed(s.probers[p].phase.client))
    case Teardown(p) => Disconnected(s.(probers := s.probers - {p}))
  }

  // ---------------------------------------------------------------- what every step keeps

  predicate Current(s: State, p: nat) {
    p in s.probers && s.probers[p].gen == s.gen
  }

  /** A probe is of the installed client exactly when the prober's generation is the current one. */
  predicate ProbesItsOwn(s: State, p: nat)
    requires p in s.probers
  {
    s.probers[p].phase.Sleeping? ||
    (s.probers[p].phase.client < s.nextClient && (Current(s, p) <==> s.client == Some(s.probers[p].phase.client)))
  }

  ghost predicate Inv(s: State) {
    && (s.client.Some? ==> s.client.value < s.nextClient)
    && (forall p <- s.probers :: p < s.nextProber && s.probers[p].gen <= s.gen && ProbesItsOwn(s, p))
    && (forall p <- s.probers, q <- s.probers :: s.probers[p].gen == s.probers[q].gen ==> p == q)
    && (s.client.Some? && 0 < s.interval ==> exists p :: Current(s, p))
    && (s.client.None? ==> forall p :: !Current(s, p))
    && (s.interval <= 0 ==> s.probers == map[])
  }

  lemma StepKeepsInv(s: State, a: Action)
    requires Inv(s) && Enabled(s, a)
    ensures Inv(Apply(s, a))
  {
    match a {
      case Connect => ConnectKeepsInv(s);
      case Reconnect => DisconnectKeepsInv(s, s.probers);
      case Close => DisconnectKeepsInv(s, s.probers);
      case Tick(p) => if Current(s, p) && s.client.Some? { PhaseKeepsInv(s, p, Probing(s.client.value)); } else { EndKeepsInv(s, p); }
      case ProbeSucceeds(p) => PhaseKeepsInv(s, p, Sleeping);
      case ProbeFails(p) => PhaseKeepsInv(s, p, Failed(s.probers[p].phase.client));
      case Teardown(p) => DisconnectKeepsInv(s, s.probers - {p});
    }
  }

  lemma ConnectKeepsInv(s: State)
    requires Inv(s) && s.client.None?
    ensures Inv(Connected(s))
  {
    if 0 < s.interval {
      assert Current(Connected(s), s.nextProber);
    }
  }

  lemma DisconnectKeepsInv(s: State, probers: map<nat, Prober>)
    requires Inv(s) && probers.Items <= s.probers.Items
    ensures Inv(Disconnected(s.(probers := probers)))
  {
    forall p <- probers ensures p in s.probers && probers[p] == s.probers[p] {
      assert (p, probers[p]) in probers.Items;
    }
  }

  /** A prober may sleep, or be at the installed client when it is current, or stay at the client it was at. */
  lemma PhaseKeepsInv(s: State, p: nat, phase: Phase)
    requires Inv(s) && p in s.probers
    requires phase.Sleeping? || (Current(s, p) && s.client == Some(phase.client))
             || (!s.probers[p].phase.Sleeping? && phase.client == s.probers[p].phase.client)
    ensures Inv(Becomes(s, p, phase))
  {
    var s' := Becomes(s, p, phase);
    assert forall q :: Current(s', q) <==> Current(s, q);
    assert ProbesItsOwn(s, p);
    assert forall q <- s.probers :: q != p ==> (ProbesItsOwn(s', q) <==> ProbesItsOwn(s, q));
  }

  lemma EndKeepsInv(s: State, p: nat)
    requires Inv(s) && p in s.probers && (s.probers[p].gen != s.gen || s.client.None?)
    ensures Inv(s.(probers := s.probers - {p}))
  {
    var s' := s.(probers := s.probers - {p});
    assert forall q :: q != p || s.client.None? ==> (Current(s', q) <==> Current(s, q));
    assert forall q <- s'.probers :: ProbesItsOwn(s', q) <==> ProbesItsOwn(s, q);
    if s.client.Some? && 0 < s.interval {
      var q :| Current(s, q);
      assert Current(s', q);
    }
  }

  // ---------------------------------------------------------------- all histories

  predicate IsHistory(states: seq<State>, actions: seq<Action>) {
    && |states| == |actions| + 1
    && states[0] == Fresh(states[0].interval)
    && forall i :: 0 <= i < |actions| ==> Enabled(states[i], actions[i]) && states[i + 1] == Apply(states[i], actions[i])
  }

  lemma {:induction false} HistoryKeepsInv(states: seq<State>, actions: seq<Action>, i: nat)
    requires IsHistory(states, actions) && i < |states|
    ensures Inv(states[i]) && states[i].interval == states[0].interval
  {
    if 0 < i {
      HistoryKeepsInv(states, actions, i - 1);
      StepKeepsInv(states[i - 1], actions[i - 1]);
    }
  }

  /**
   In every reachable state at most one live prober carries the current generation, and with a positive
   interval there is one exactly while a client is installed.
   */
  lemma OneProberPerClient(states: seq<State>, actions: seq<Action>, i: nat)
    requires IsHistory(states, actions) && i < |states| && 0 < states[0].interval
    ensures forall p, q :: Current(states[i], p) && Current(states[i], q) ==> p == q
    ensures (exists p :: Current(states[i], p)) <==> states[i].client.Some?
  {
    HistoryKeepsInv(states, actions, i);
  }

  /** The counter and the numbering never go back, and a prober that has ended stays ended. */
  lemma {:induction false} NothingComesBack(states: seq<State>, actions: seq<Action>, i: nat, j: nat)
    requires IsHistory(states, actions) && i <= j < |states|
    ensures states[i].gen <= states[j].gen
    ensures states[i].nextClient <= states[j].nextClient && states[i].nextProber <= states[j].nextProber
    ensures forall p <- states[j].probers :: p < states[i].nextProber ==>
              p in states[i].probers && states[j].probers[p].gen == states[i].probers[p].gen
  {
    if i < j {
      NothingComesBack(states, actions, i, j - 1);
    }
  }

  /** A client that has been disconnected is never installed again. */
  lemma {:induction false} ClientsAreNotReused(states: seq<State>, actions: seq<Action>, i: nat, j: nat, c: nat)
    requires IsHistory(states, actions) && i <= j < |states|
    requires c < states[i].nextClient && states[i].client != Some(c)
    ensures states[j].client != Some(c)
  {
    if i < j {
      ClientsAreNotReused(states, actions, i, j - 1, c);
      NothingComesBack(states, actions, i, j - 1);
    }
  }

  /** Steps that a superseded prober still has: a probe in flight ends, and one more wake-up or teardown follows. */
  function StepsLeft(s: State, p: nat): nat {
    if p !in s.probers then 0 else if s.probers[p].phase.Probing? then 2 else 1
  }

  predicate MovedBy(a: Action, p: nat) {
    a == Tick(p) || a == ProbeSucceeds(p) || a == ProbeFails(p) || a == Teardown(p)
  }

  lemma StaysSuperseded(states: seq<State>, actions: seq<Action>, i: nat, j: nat, p: nat)
    requires IsHistory(states, actions) && i <= j < |states|
    requires p in states[i].probers && states[i].probers[p].gen < states[i].gen
    ensures p < states[j].nextProber && (p in states[j].probers ==> states[j].probers[p].gen < states[j].gen)
  {
    HistoryKeepsInv(states, actions, i);
    NothingComesBack(states, actions, i, j);
  }

  /** One step, seen from a prober that is superseded or gone. */
  lemma SupersededStep(s: State, a: Action, p: nat)
    requires Enabled(s, a) && p < s.nextProber && (p in s.probers ==> s.probers[p].gen < s.gen)
    ensures var s' := Apply(s, a);
            && StepsLeft(s', p) + (if MovedBy(a, p) then 1 else 0) == StepsLeft(s, p)
            && (p in s'.probers && !s'.probers[p].phase.Sleeping? ==>
                  p in s.probers && !s.probers[p].phase.Sleeping? && s'.probers[p].phase.client == s.probers[p].phase.client)
  {
  }

  /**
   A superseded prober starts no new probe: whatever it is probing later, it was already probing when it
   was superseded.
   */
  lemma {:induction false} SupersededStartsNoProbe(states: seq<State>, actions: seq<Action>, i: nat, j: nat, p: nat)
    requires IsHistory(states, actions) && i <= j < |states|
    requires p in states[i].probers && states[i].probers[p].gen < states[i].gen
    ensures p in states[j].probers && !states[j].probers[p].phase.Sleeping? ==>
              !states[i].probers[p].phase.Sleeping? && states[j].probers[p].phase.client == states[i].probers[p].phase.client
  {
    hide Apply, Enabled;
    if i < j {
      StaysSuperseded(states, actions, i, j - 1, p);
      SupersededStartsNoProbe(states, actions, i, j - 1, p);
      SupersededStep(states[j - 1], actions[j - 1], p);
    }
  }

  /** Own steps of prober `p` among the first `n` actions. */
  function OwnSteps(actions: seq<Action>, n: nat, p: nat): nat
    requires n <= |actions|
  {
    if n == 0 then 0 else OwnSteps(actions, n - 1, p) + if MovedBy(actions[n - 1], p) then 1 else 0
  }

  /** Once superseded, a prober is gone after at most two more steps of its own, whatever the others do. */
  lemma {:induction false} SupersededEndsSoon(states: seq<State>, actions: seq<Action>, i: nat, j: nat, p: nat)
    requires IsHistory(states, actions) && i <= j < |states|
    requires p in states[i].probers && states[i].probers[p].gen < states[i].gen
    ensures OwnSteps(actions, j, p) - OwnSteps(actions, i, p) + StepsLeft(states[j], p) == StepsLeft(states[i], p) <= 2
  {
    hide Apply, Enabled;
    if i < j {
      StaysSuperseded(states, actions, i, j - 1, p);
      SupersededEndsSoon(states, actions, i, j - 1, p);
      SupersededStep(states[j - 1], actions[j - 1], p);
    }
  }

  // ---------------------------------------------------------------- what a teardown hits

  /** The teardown of prober `p` disconnects a client, and not the one whose probe failed. */
  predicate HitsAStranger(s: State, p: nat)
    requires Enabled(s, Teardown(p))
  {
    s.client.Some? && s.client.value != s.probers[p].phase.client
  }

  /**
   A failed probe tears down a connection that it did not probe exactly when the prober has been superseded
   in the meantime and a new client is installed: the generation is not looked at again before the teardown.
   */
  lemma TeardownHitsAStrangerIff(states: seq<State>, actions: seq<Action>, i: nat, p: nat)
    requires IsHistory(states, actions) && i < |states| && Enabled(states[i], Teardown(p))
    ensures HitsAStranger(states[i], p) <==> states[i].client.Some? && !Current(states[i], p)
  {
    HistoryKeepsInv(states, actions, i);
    assert ProbesItsOwn(states[i], p);
  }

  /**
   A failed probe, of whichever prober, takes the installed client away and ends that prober and no other; if the prober
   is current, the client that goes is the one whose probe failed, and nobody is current until the next connect.
   */
  lemma TeardownDropsTheClient(states: seq<State>, actions: seq<Action>, i: nat, p: nat)
    requires IsHistory(states, actions) && i < |states| && Enabled(states[i], Teardown(p))
    ensures var s, s' := states[i], Apply(states[i], Teardown(p));
            && s'.client == None && s'.gen == s.gen + 1 && s'.probers == s.probers - {p}
            && (Current(s, p) ==> s.client == Some(s.probers[p].phase.client))
            && forall q :: !Current(s', q)
  {
    HistoryKeepsInv(states, actions, i);
    StepKeepsInv(states[i], Teardown(p));
    assert ProbesItsOwn(states[i], p);
  }

  /** It does happen: while a probe hangs a transfer reconnects, then the probe fails and kills the new connection. */
  lemma ANewConnectionIsTornDown(interval: int)
    requires 0 < interval
    ensures exists states: seq<State>, actions: seq<Action> ::
              && IsHistory(states, actions) && |states| == 6 && states[0].interval == interval
              && Enabled(states[5], Teardown(0)) && HitsAStranger(states[5], 0)
              && states[5].client == Some(1) && Apply(states[5], Teardown(0)).client == None
  {
    var s0 := Fresh(interval);
    var s1 := Apply(s0, Connect);
    var s2 := Apply(s1, Tick(0));
    var s3 := Apply(s2, Reconnect);
    var s4 := Apply(s3, Connect);
    var s5 := Apply(s4, ProbeFails(0));
    var states, actions := [s0, s1, s2, s3, s4, s5], [Connect, Tick(0), Reconnect, Connect, ProbeFails(0)];
    assert IsHistory(states, actions);
    assert Enabled(states[5], Teardown(0)) && HitsAStranger(states[5], 0);
  }

  // ---------------------------------------------------------------- the code's own operations

  /** The fields behind the lock, and the probers that run outside it. */
  class Connection {
    const keepAliveInterval: int
    var keepAliveGen: nat
    var client: Option<nat>
    var made: nat
    var probers: map<nat, Prober>
    var started: nat

    function View(): State
      reads this
    {
      State(keepAliveInterval, keepAliveGen, client, made, probers, started)
    }

    constructor (interval: int)
      ensures View() == Fresh(interval) && Inv(View())
    {
      keepAliveInterval := interval;
      keepAliveGen, client, made, probers, started := 0, None, 0, map[], 0;
    }

    /** Hand out the installed client, or try to connect a new one. */
    method GetClient(connects: bool) returns (r: Result<nat>)
      requires Inv(View())
      modifies this
      ensures Inv(View())
      ensures View() == if old(client).None? && connects then Apply(old(View()), Connect) else old(View())
      ensures r == if client.Some? then Ok(client.value) else Err(ConnectFailed)
      ensures client == if old(client).Some? then old(client) else if connects then Some(old(made)) else None
      ensures made == old(made) + if old(client).None? && connects then 1 else 0
      ensures old(client).None? && connects && 0 < keepAliveInterval ==>
                keepAliveGen == old(keepAliveGen) + 1 && started == old(started) + 1
                && probers == old(probers)[old(started) := Prober(keepAliveGen, Sleeping)]
      ensures old(client).Some? || !connects || keepAliveInterval <= 0 ==>
                keepAliveGen == old(keepAliveGen) && probers == old(probers)
    {
      ghost var before := View();
      hide Inv;
      if client.Some? {
        return Ok(client.value);
      }
      if !connects {
        return Err(ConnectFailed);
      }
      client, made := Some(made), made + 1;
      StartKeepAliveLocked();
      StepKeepsInv(before, Connect);
      assert View() == Apply(before, Connect);
      return Ok(client.value);
    }

    method StartKeepAliveLocked()
      modifies this`keepAliveGen, this`probers, this`started
      ensures keepAliveInterval <= 0 ==> View() == old(View())
      ensures 0 < keepAliveInterval ==>
                && keepAliveGen == old(keepAliveGen) + 1 && started == old(started) + 1
                && probers == old(probers)[old(started) := Prober(keepAliveGen, Sleeping)]
    {
      if keepAliveInterval <= 0 {
        return;
      }
      keepAliveGen := keepAliveGen + 1;
      probers, started := probers[started := Prober(keepAliveGen, Sleeping)], started + 1;
    }

    method Reconnect()
      requires Inv(View())
      modifies this
      ensures Inv(View()) && View() == Apply(old(View()), Action.Reconnect)
      ensures client == None && keepAliveGen == old(keepAliveGen) + 1 && probers == old(probers) && made == old(made)
    {
      StepKeepsInv(View(), Action.Reconnect);
      keepAliveGen := keepAliveGen + 1;
      if client.Some? {
        client := None;
      }
    }

    method Close()
      requires Inv(View())
      modifies this
      ensures Inv(View()) && View() == Apply(old(View()), Action.Close)
      ensures client == None && keepAliveGen == old(keepAliveGen) + 1 && probers == old(probers) && made == old(made)
    {
      StepKeepsInv(View(), Action.Close);
      keepAliveGen := keepAliveGen + 1;
      if client.Some? {
        client := None;
      }
    }

    /** The ticker wakes prober `p`: look at the generation and the client once, under the lock. */
    method Wake(p: nat) returns (probe: Option<nat>)
      requires Inv(View()) && Enabled(View(), Tick(p))
      modifies this
      ensures Inv(View()) && View() == Apply(old(View()), Tick(p))
      ensures probe == if old(probers)[p].gen == old(keepAliveGen) then old(client) else None
      ensures client == old(client) && keepAliveGen == old(keepAliveGen)
      ensures probers == if probe.Some? then old(probers)[p := Prober(old(keepAliveGen), Probing(probe.value))] else old(probers) - {p}
    {
      StepKeepsInv(View(), Tick(p));
      var current, c := keepAliveGen, client;
      if current != probers[p].gen || c.None? {
        probers := probers - {p};
        return None;
      }
      probers := probers[p := probers[p].(phase := Probing(c.value))];
      return c;
    }

    /** The probe of `p` has ended; a failure is acted on only later, by `GiveUp`. */
    method ProbeEnded(p: nat, alive: bool)
      requires Inv(View()) && Enabled(View(), ProbeFails(p))
      modifies this
      ensures Inv(View()) && View() == Apply(old(View()), if alive then ProbeSucceeds(p) else ProbeFails(p))
      ensures client == old(client) && keepAliveGen == old(keepAliveGen)
      ensures probers == old(probers)[p := Prober(old(probers)[p].gen, if alive then Sleeping else Failed(old(probers)[p].phase.client))]
    {
      StepKeepsInv(View(), if alive then ProbeSucceeds(p) else ProbeFails(p));
      var prober := probers[p];
      probers := probers[p := prober.(phase := if alive then Sleeping else Failed(prober.phase.client))];
    }

    /** The prober reconnects and ends. */
    method GiveUp(p: nat)
      requires Inv(View()) && Enabled(View(), Teardown(p))
      modifies this
      ensures Inv(View()) && View() == Apply(old(View()), Teardown(p))
      ensures client == None && keepAliveGen == old(keepAliveGen) + 1 && probers == old(probers) - {p}
    {
      StepKeepsInv(View(), Teardown(p));
      Reconnect();
      probers := probers - {p};
    }
  }
}
