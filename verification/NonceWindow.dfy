/** Replay protection of signed service-API requests: the time window and nonce
    consumption of authenticate over ConsumeServiceAPINonce, as a run of steps.

    A request is checked against the clock first and consumes its nonce later;
    other requests and purges may happen in between. Times are nanoseconds. */
module NonceWindow {

  /** One signed request: the key id, nonce and signed timestamp identify it. */
  datatype Signed = Signed(keyId: string, nonce: string, time: int)

  datatype Nonce = Nonce(keyId: string, nonce: string)

  /** `skew` is the accepted clock skew; `slack` is how long the store keeps a
      nonce after its expiry instant before a purge may delete it. */
  datatype Config = Config(skew: int, slack: int)

  datatype Event =
    | Checked(id: nat, request: Signed)     // clock window test of an attempt
    | Consumed(id: nat)                     // insert-if-absent of its nonce
    | Purged(victims: set<Nonce>)           // deletion of expired nonces

  datatype Tick = Tick(at: int, event: Event)

  datatype Attempt = Attempt(request: Signed, checkedAt: int)

  datatype State = State(pending: map<nat, Attempt>, nonces: map<Nonce, int>, accepted: seq<Signed>)

  const INITIAL := State(map[], map[], [])

  function NonceOf(r: Signed): Nonce { Nonce(r.keyId, r.nonce) }

  /** requestTime is neither before now - skew nor after now + skew. */
  predicate InWindow(c: Config, r: Signed, now: int) {
    now - c.skew <= r.time <= now + c.skew
  }

  function Step(c: Config, s: State, t: Tick): State {
    match t.event
    case Checked(id, r) =>
      if InWindow(c, r, t.at) && id !in s.pending then s.(pending := s.pending[id := Attempt(r, t.at)]) else s
    case Consumed(id) =>
      if id !in s.pending then s
      else
        var r := s.pending[id].request;
        var rest := s.(pending := s.pending - {id});
        if NonceOf(r) in s.nonces then rest
        else rest.(nonces := s.nonces[NonceOf(r) := r.time + c.skew], accepted := s.accepted + [r])
    case Purged(victims) =>
      s.(nonces := map n | n in s.nonces && !(n in victims && s.nonces[n] < t.at - c.slack) :: s.nonces[n])
  }

  function Run(c: Config, ticks: seq<Tick>): State {
    if ticks == [] then INITIAL else Step(c, Run(c, ticks[..|ticks| - 1]), ticks[|ticks| - 1])
  }

  ghost predicate Monotone(ticks: seq<Tick>) {
    forall i, j :: 0 <= i < j < |ticks| ==> ticks[i].at <= ticks[j].at
  }

  /** Every consumption follows its window test within `stall`. */
  ghost predicate Prompt(c: Config, ticks: seq<Tick>, stall: int) {
    forall i :: 0 <= i < |ticks| && ticks[i].event.Consumed? && ticks[i].event.id in Run(c, ticks[..i]).pending ==>
      ticks[i].at - Run(c, ticks[..i]).pending[ticks[i].event.id].checkedAt <= stall
  }

  ghost predicate AtMostOnce(accepted: seq<Signed>) {
    forall i, j :: 0 <= i < j < |accepted| ==> accepted[i] != accepted[j]
  }

  /** Every accepted request is still on record, or too old to be let in. */
  ghost predicate Guarded(c: Config, s: State, now: int) {
    && (forall r :: r in s.accepted ==>
         || (NonceOf(r) in s.nonces && s.nonces[NonceOf(r)] == r.time + c.skew)
         || r.time + c.skew + c.slack < now)
    && (forall id :: id in s.pending ==> InWindow(c, s.pending[id].request, s.pending[id].checkedAt))
    && AtMostOnce(s.accepted)
  }

  lemma GuardedLater(c: Config, s: State, now: int, later: int)
    requires Guarded(c, s, now) && now <= later
    ensures Guarded(c, s, later)
  {
  }

  lemma ConsumeGuarded(c: Config, s: State, t: Tick)
    requires Guarded(c, s, t.at) && t.event.Consumed?
    requires t.event.id in s.pending ==> t.at - s.pending[t.event.id].checkedAt <= c.slack
    ensures Guarded(c, Step(c, s, t), t.at)
  {
  }

  lemma {:induction false} RunGuarded(c: Config, ticks: seq<Tick>, now: int)
    requires Monotone(ticks) && Prompt(c, ticks, c.slack)
    requires ticks != [] ==> ticks[|ticks| - 1].at <= now
    ensures Guarded(c, Run(c, ticks), now)
    decreases |ticks|
  {
    if ticks != [] {
      var n := |ticks| - 1;
      var before := ticks[..n];
      forall i | 0 <= i < n ensures ticks[..i] == before[..i] {}
      RunGuarded(c, before, ticks[n].at);
      if ticks[n].event.Consumed? { ConsumeGuarded(c, Run(c, before), ticks[n]); }
      GuardedLater(c, Run(c, ticks), ticks[n].at, now);
    }
  }

  /** Single acceptance: on a clock that never goes back, no signed request is
      accepted twice, whatever is interleaved, as long as no attempt stalls
      between its window test and its nonce for longer than the store's slack. */
  lemma AcceptedOnce(c: Config, ticks: seq<Tick>, stall: int)
    requires Monotone(ticks) && Prompt(c, ticks, stall) && stall <= c.slack
    ensures AtMostOnce(Run(c, ticks).accepted)
  {
    var now := if ticks == [] then 0 else ticks[|ticks| - 1].at;
    RunGuarded(c, ticks, now);
  }

  /** Two attempts at one request, the second stalled past the purge. */
  function StalledRun(c: Config, r: Signed, stall: int): seq<Tick> {
    var end := r.time + c.skew;
    [ Tick(end, Checked(0, r)), Tick(end, Checked(1, r)), Tick(end, Consumed(0)),
      Tick(end + stall, Purged({NonceOf(r)})), Tick(end + stall, Consumed(1)) ]
  }

  lemma StalledRunStates(c: Config, r: Signed, stall: int)
    requires 0 < c.skew && 0 <= c.slack < stall
    ensures var end, ticks := r.time + c.skew, StalledRun(c, r, stall);
      && Run(c, ticks[..2]) == State(map[0 := Attempt(r, end), 1 := Attempt(r, end)], map[], [])
      && Run(c, ticks[..4]) == State(map[1 := Attempt(r, end)], map[], [r])
      && Run(c, ticks) == State(map[], map[NonceOf(r) := end], [r, r])
  {
    var end, ticks := r.time + c.skew, StalledRun(c, r, stall);
    assert ticks[..0] == [] && ticks[..1][..0] == [];
    assert ticks[..2][..1] == ticks[..1] && ticks[..3][..2] == ticks[..2];
    assert ticks[..4][..3] == ticks[..3] && ticks[..5] == ticks;
    assert Run(c, ticks[..1]) == State(map[0 := Attempt(r, end)], map[], []);
    assert Run(c, ticks[..3]) == State(map[1 := Attempt(r, end)], map[NonceOf(r) := end], [r]);
    assert Run(c, ticks[..4]) == State(map[1 := Attempt(r, end)], map[], [r]);
  }

  /** Past the slack every request is accepted twice in some run. */
  lemma StalledTwice(c: Config, r: Signed, stall: int)
    requires 0 < c.skew && 0 <= c.slack < stall
    ensures var ticks := StalledRun(c, r, stall);
      Monotone(ticks) && Prompt(c, ticks, stall) && Run(c, ticks).accepted == [r, r]
  {
    StalledRunStates(c, r, stall);
  }

  /** The slack is exactly the stall that replay protection tolerates. */
  lemma StallBound(c: Config, stall: int)
    requires 0 < c.skew && 0 <= c.slack
    ensures (forall ticks :: Monotone(ticks) && Prompt(c, ticks, stall) ==> AtMostOnce(Run(c, ticks).accepted))
      <==> stall <= c.slack
  {
    if stall <= c.slack {
      forall ticks | Monotone(ticks) && Prompt(c, ticks, stall) ensures AtMostOnce(Run(c, ticks).accepted) {
        AcceptedOnce(c, ticks, stall);
      }
    } else {
      var r := Signed("key", "sixteen-letters.", 0);
      StalledTwice(c, r, stall);
      var accepted := Run(c, StalledRun(c, r, stall)).accepted;
      assert accepted[0] == accepted[1];
    }
  }
}
