/** The table of pending calls of the agent connection, internal/acp/driver.go: goroutines that call,
    answer, fail and give up, interleaved at the points where they hold the lock or use a channel. */
module PendingCalls {
  import opened Bytes

  /** The text of a number id; a response carries its id as raw JSON text. */
  function Decimal(n: nat): (t: Text)
    ensures t != []
  {
    if n < 10 then [48 + n] else Decimal(n / 10) + [48 + n % 10]
  }

  /** What a text of decimal digits reads as. */
  ghost function Reads(t: Text): int {
    if t == [] then 0 else 10 * Reads(t[..|t| - 1]) + (t[|t| - 1] as int - 48)
  }

  lemma {:induction false} DecimalReads(n: nat)
    ensures Reads(Decimal(n)) == n && forall i :: 0 <= i < |Decimal(n)| ==> 48 <= Decimal(n)[i] <= 57
    ensures Decimal(n)[0] == 48 ==> n == 0
  {
    var t := Decimal(n);
    if n < 10 {
      assert t[..0] == [];
    } else {
      DecimalReads(n / 10);
      assert t[..|t| - 1] == Decimal(n / 10);
    }
  }

  lemma DecimalInjective(m: nat, n: nat)
    requires Decimal(m) == Decimal(n)
    ensures m == n
  {
    DecimalReads(m);
    DecimalReads(n);
  }

  datatype Reason = CannotEncode | WriteFailed | ContextDone | LifetimeDone | ProcessDead

  datatype Answer = Response(id: Text, body: Text) | Failure(error: Text)

  /** How far a call got: it has an id; it waits in its select; it returned. */
  datatype Phase = Numbered | Waiting | Answered(answer: Answer) | GaveUp(reason: Reason)

  /** A call with its channel of capacity one and the number of sends that channel ever got. */
  datatype Call = Call(phase: Phase, channel: seq<Answer>, sends: nat)

  const CAPACITY := 1

  /** A goroutine that took a call out of the table and has yet to send to its channel. */
  datatype Flight = Flight(call: nat, answer: Answer)

  /** nextID, the pending map and, beside them, every call made so far and the sends under way. */
  datatype State = State(nextId: nat, pending: map<Text, nat>, calls: map<nat, Call>, flights: seq<Flight>)

  const START := State(0, map[], map[], [])

  datatype Action =
    | Begin
    | Abandon(call: nat)
    | Insert(call: nat)
    | Drop(call: nat, reason: Reason)
    | Take(id: Text, body: Text)
    | FailAll(order: seq<Text>, error: Text)
    | Deliver(flight: nat)
    | Receive(call: nat)

  /** `order` goes through the keys of the table, each once, as ranging over a map does. */
  ghost predicate Enumerates(order: seq<Text>, pending: map<Text, nat>) {
    && (forall i, j :: 0 <= i < j < |order| ==> order[i] != order[j])
    && (forall k :: k in pending <==> k in order)
  }

  /** Can the action happen in this state?  A send needs room in the channel. */
  ghost predicate Enabled(s: State, a: Action) {
    match a
    case Begin => true
    case Abandon(n) => n in s.calls && s.calls[n].phase == Numbered
    case Insert(n) => n in s.calls && s.calls[n].phase == Numbered
    case Drop(n, _) => n in s.calls && s.calls[n].phase == Waiting
    case Take(_, _) => true
    case FailAll(order, _) => Enumerates(order, s.pending)
    case Deliver(i) => i < |s.flights| && s.flights[i].call in s.calls && |s.calls[s.flights[i].call].channel| < CAPACITY
    case Receive(n) => n in s.calls && s.calls[n].phase == Waiting && s.calls[n].channel != []
  }

  function WithPhase(s: State, n: nat, p: Phase): State
    requires n in s.calls
  {
    s.(calls := s.calls[n := s.calls[n].(phase := p)])
  }

  function Failures(pending: map<Text, nat>, order: seq<Text>, error: Text): (fs: seq<Flight>)
    requires forall k :: k in order ==> k in pending
    ensures |fs| == |order| && forall i :: 0 <= i < |fs| ==> fs[i] == Flight(pending[order[i]], Failure(error))
  {
    seq(|order|, i requires 0 <= i < |order| => Flight(pending[order[i]], Failure(error)))
  }

  ghost function Apply(s: State, a: Action): State
    requires Enabled(s, a)
  {
    match a
    case Begin => s.(nextId := s.nextId + 1, calls := s.calls[s.nextId + 1 := Call(Numbered, [], 0)])
    case Abandon(n) => WithPhase(s, n, GaveUp(CannotEncode))
    case Insert(n) => WithPhase(s, n, Waiting).(pending := s.pending[Decimal(n) := n])
    case Drop(n, reason) => WithPhase(s, n, GaveUp(reason)).(pending := s.pending - {Decimal(n)})
    case Take(id, body) =>
      if id in s.pending
      then s.(pending := s.pending - {id}, flights := s.flights + [Flight(s.pending[id], Response(id, body))])
      else s
    case FailAll(order, error) => s.(pending := map[], flights := s.flights + Failures(s.pending, order, error))
    case Deliver(i) =>
      var f := s.flights[i];
      var c := s.calls[f.call];
      s.(flights := s.flights[..i] + s.flights[i + 1..],
         calls := s.calls[f.call := c.(channel := c.channel + [f.answer], sends := c.sends + 1)])
    case Receive(n) =>
      var c := s.calls[n];
      s.(calls := s.calls[n := Call(Answered(c.channel[0]), c.channel[1..], c.sends)])
  }

  // ------------------------------------------------------------- invariant

  /** A response is for the call whose id it carries. */
  predicate For(a: Answer, n: nat) { a.Response? ==> a.id == Decimal(n) }

  ghost predicate CallOk(n: nat, c: Call) {
    && c.sends <= 1 && |c.channel| <= c.sends
    && (forall a :: a in c.channel ==> For(a, n))
    && (c.phase.Answered? ==> For(c.phase.answer, n) && c.sends == 1)
    && (c.phase == Numbered ==> c.sends == 0)
    && (c.phase == Waiting ==> |c.channel| == c.sends)
  }

  ghost predicate InFlight(s: State, n: nat) {
    exists i :: 0 <= i < |s.flights| && s.flights[i].call == n
  }

  /** An entry is for a call that waits and was sent nothing. */
  ghost predicate TableOk(s: State) {
    forall k :: k in s.pending ==>
      var n := s.pending[k]; k == Decimal(n) && n in s.calls && s.calls[n].phase == Waiting && s.calls[n].sends == 0
  }

  /** A send under way is the first to its call, which is not in the table any more. */
  ghost predicate FlightOk(s: State, f: Flight) {
    && f.call in s.calls && s.calls[f.call].sends == 0 && s.calls[f.call].phase != Numbered
    && Decimal(f.call) !in s.pending && For(f.answer, f.call)
  }

  ghost predicate OneFlightEach(flights: seq<Flight>) {
    forall i, j :: 0 <= i < j < |flights| ==> flights[i].call != flights[j].call
  }

  ghost predicate NoneLost(s: State) {
    forall n :: n in s.calls && s.calls[n].phase == Waiting && s.calls[n].sends == 0 ==>
      Decimal(n) in s.pending || InFlight(s, n)
  }

  ghost predicate Good(s: State) {
    && (forall n :: n in s.calls ==> 1 <= n <= s.nextId && CallOk(n, s.calls[n]))
    && TableOk(s) && (forall i :: 0 <= i < |s.flights| ==> FlightOk(s, s.flights[i]))
    && OneFlightEach(s.flights) && NoneLost(s)
  }

  lemma StepKeepsGood(s: State, a: Action)
    requires Good(s) && Enabled(s, a)
    ensures Good(Apply(s, a))
  {
    match a
    case Deliver(i) => DeliverKeepsGood(s, i);
    case FailAll(order, error) => FailAllKeepsGood(s, order, error);
    case Take(id, body) => TakeKeepsGood(s, id, body);
    case Insert(n) => InsertKeepsGood(s, n);
    case Drop(n, reason) => DropKeepsGood(s, n, reason);
    case Begin =>
    case Abandon(n) => AbandonKeepsGood(s, n);
    case Receive(n) => ReceiveKeepsGood(s, n);
  }

  lemma OtherKeys(n: nat)
    ensures forall m: nat :: m != n ==> Decimal(m) != Decimal(n)
  {
    forall m: nat | m != n ensures Decimal(m) != Decimal(n) {
      if Decimal(m) == Decimal(n) { DecimalInjective(m, n); }
    }
  }

  /** Sends under way and their calls are as they were: nobody is lost whose entry stays. */
  lemma SameFlights(s: State, t: State, n: nat)
    requires NoneLost(s) && t.flights == s.flights
    requires forall m :: m in t.calls && m != n ==> m in s.calls && t.calls[m] == s.calls[m] && (Decimal(m) in s.pending ==> Decimal(m) in t.pending)
    requires n in t.calls && t.calls[n].phase == Waiting && t.calls[n].sends == 0 ==> Decimal(n) in t.pending
    ensures NoneLost(t)
  {
    forall m | m in t.calls && t.calls[m].phase == Waiting && t.calls[m].sends == 0
      ensures Decimal(m) in t.pending || InFlight(t, m)
    {
      if m != n && Decimal(m) !in s.pending { assert InFlight(s, m); }
    }
  }

  lemma AbandonKeepsGood(s: State, n: nat)
    requires Good(s) && Enabled(s, Abandon(n))
    ensures Good(Apply(s, Abandon(n)))
  {
    OtherKeys(n);
    SameFlights(s, Apply(s, Abandon(n)), n);
  }

  lemma InsertKeepsGood(s: State, n: nat)
    requires Good(s) && Enabled(s, Insert(n))
    ensures Good(Apply(s, Insert(n)))
  {
    OtherKeys(n);
    SameFlights(s, Apply(s, Insert(n)), n);
  }

  lemma DropKeepsGood(s: State, n: nat, reason: Reason)
    requires Good(s) && Enabled(s, Drop(n, reason))
    ensures Good(Apply(s, Drop(n, reason)))
  {
    OtherKeys(n);
    SameFlights(s, Apply(s, Drop(n, reason)), n);
  }

  lemma ReceiveKeepsGood(s: State, n: nat)
    requires Good(s) && Enabled(s, Receive(n))
    ensures Good(Apply(s, Receive(n)))
  {
    OtherKeys(n);
    SameFlights(s, Apply(s, Receive(n)), n);
  }

  lemma TakeKeepsGood(s: State, id: Text, body: Text)
    requires Good(s)
    ensures Good(Apply(s, Take(id, body)))
  {
    var t := Apply(s, Take(id, body));
    if id in s.pending {
      var n := s.pending[id];
      assert t.flights[|s.flights|].call == n;
      forall m | m in t.calls && t.calls[m].phase == Waiting && t.calls[m].sends == 0
        ensures Decimal(m) in t.pending || InFlight(t, m)
      {
        if m == n {
          assert InFlight(t, m);
        } else if Decimal(m) == Decimal(n) {
          DecimalInjective(m, n);
        } else if InFlight(s, m) {
          var i :| 0 <= i < |s.flights| && s.flights[i].call == m;
          assert t.flights[i].call == m;
        }
      }
    }
  }

  lemma FailAllKeepsGood(s: State, order: seq<Text>, error: Text)
    requires Good(s) && Enumerates(order, s.pending)
    ensures Good(Apply(s, FailAll(order, error)))
  {
    FailuresAreNew(s, order, error);
    FailAllLosesNone(s, order, error);
  }

  lemma FailuresAreNew(s: State, order: seq<Text>, error: Text)
    requires Good(s) && Enumerates(order, s.pending)
    ensures OneFlightEach(s.flights + Failures(s.pending, order, error))
    ensures var t := Apply(s, FailAll(order, error)); forall i :: 0 <= i < |t.flights| ==> FlightOk(t, t.flights[i])
  {
    var fs := Failures(s.pending, order, error);
    forall i | 0 <= i < |fs| ensures fs[i].call in s.calls && s.calls[fs[i].call].phase == Waiting
      && s.calls[fs[i].call].sends == 0 && order[i] == Decimal(fs[i].call) && order[i] in s.pending
    {
      assert order[i] in s.pending;
    }
    assert OneFlightEach(fs);
    forall i, j | 0 <= i < |s.flights| && 0 <= j < |fs| ensures s.flights[i].call != fs[j].call {
      assert FlightOk(s, s.flights[i]);
    }
  }

  lemma FailAllLosesNone(s: State, order: seq<Text>, error: Text)
    requires Good(s) && Enumerates(order, s.pending)
    ensures NoneLost(Apply(s, FailAll(order, error)))
  {
    var t := Apply(s, FailAll(order, error));
    forall m | m in t.calls && t.calls[m].phase == Waiting && t.calls[m].sends == 0 ensures InFlight(t, m) {
      if Decimal(m) in s.pending {
        var i :| 0 <= i < |order| && order[i] == Decimal(m);
        DecimalInjective(m, s.pending[Decimal(m)]);
        assert t.flights[|s.flights| + i].call == m;
      } else {
        var i :| 0 <= i < |s.flights| && s.flights[i].call == m;
        assert t.flights[i].call == m;
      }
    }
  }

  lemma DeliverKeepsGood(s: State, i: nat)
    requires Good(s) && Enabled(s, Deliver(i))
    ensures Good(Apply(s, Deliver(i)))
  {
    var t := Apply(s, Deliver(i));
    var n := s.flights[i].call;
    assert FlightOk(s, s.flights[i]);
    forall j | 0 <= j < |t.flights| ensures t.flights[j].call != n && FlightOk(t, t.flights[j]) {
      assert FlightOk(s, s.flights[if j < i then j else j + 1]);
    }
    DeliverLosesNone(s, i);
  }

  lemma DeliverLosesNone(s: State, i: nat)
    requires NoneLost(s) && Enabled(s, Deliver(i))
    ensures NoneLost(Apply(s, Deliver(i)))
  {
    var t := Apply(s, Deliver(i));
    forall m | m in t.calls && t.calls[m].phase == Waiting && t.calls[m].sends == 0
      ensures Decimal(m) in t.pending || InFlight(t, m)
    {
      if Decimal(m) !in s.pending {
        var j :| 0 <= j < |s.flights| && s.flights[j].call == m;
        assert t.flights[if j < i then j else j - 1].call == m;
      }
    }
  }

  // -------------------------------------------------------------- theorems

  ghost predicate Possible(s: State, actions: seq<Action>)
    decreases |actions|
  {
    actions == [] || (Enabled(s, actions[0]) && Possible(Apply(s, actions[0]), actions[1..]))
  }

  ghost function After(s: State, actions: seq<Action>): State
    requires Possible(s, actions)
    decreases |actions|
  {
    if actions == [] then s else After(Apply(s, actions[0]), actions[1..])
  }

  lemma {:induction false} RunKeepsGood(s: State, actions: seq<Action>)
    requires Good(s) && Possible(s, actions)
    ensures Good(After(s, actions))
    decreases |actions|
  {
    if actions != [] {
      StepKeepsGood(s, actions[0]);
      RunKeepsGood(Apply(s, actions[0]), actions[1..]);
    }
  }

  /** What holds after any interleaving: no channel got more than one send and every send under way
      finds room; an answered call got the response to its own id or a failure; the id of a call that
      returned is not in the table; and a call that still waits is in the table, has its answer on
      the way, or has it in its channel. */
  lemma CallsResolveOnce(actions: seq<Action>)
    requires Possible(START, actions)
    ensures var s := After(START, actions);
            && (forall n :: n in s.calls ==> s.calls[n].sends <= 1)
            && (forall i :: 0 <= i < |s.flights| ==> Enabled(s, Deliver(i)))
            && (forall n :: n in s.calls && s.calls[n].phase.Answered? ==> For(s.calls[n].phase.answer, n))
            && (forall n :: n in s.calls && (s.calls[n].phase.Answered? || s.calls[n].phase.GaveUp?) ==> Decimal(n) !in s.pending)
            && (forall n :: n in s.calls && s.calls[n].phase == Waiting ==>
                  Decimal(n) in s.pending || InFlight(s, n) || s.calls[n].channel != [])
  {
    RunKeepsGood(START, actions);
    var s := After(START, actions);
    forall n | n in s.calls && (s.calls[n].phase.Answered? || s.calls[n].phase.GaveUp?) ensures Decimal(n) !in s.pending {
      if Decimal(n) in s.pending { DecimalInjective(n, s.pending[Decimal(n)]); }
    }
  }

  // ----------------------------------------------- where answers come from

  /** The answer is on its way to the call, in its channel, or returned by it. */
  ghost predicate Carries(s: State, n: nat, a: Answer) {
    || Flight(n, a) in s.flights
    || (n in s.calls && (a in s.calls[n].channel || s.calls[n].phase == Answered(a)))
  }

  /** The action brings the answer to a call in the table: the body of a response to its id, or the
      error everyone is failed with. */
  ghost predicate Brings(s: State, act: Action, n: nat, a: Answer) {
    && Decimal(n) in s.pending
    && ((act.Take? && act.id == Decimal(n) && a == Response(Decimal(n), act.body))
        || (act.FailAll? && a == Failure(act.error)))
  }

  /** The k-th action brought the answer. */
  ghost predicate Brought(actions: seq<Action>, k: nat, n: nat, a: Answer) {
    && k < |actions| && Possible(START, actions[..k])
    && Brings(After(START, actions[..k]), actions[k], n, a)
  }

  lemma {:induction false} LastAction(s: State, actions: seq<Action>)
    requires Possible(s, actions) && actions != []
    ensures var m := |actions| - 1;
            && Possible(s, actions[..m]) && Enabled(After(s, actions[..m]), actions[m])
            && After(s, actions) == Apply(After(s, actions[..m]), actions[m])
    decreases |actions|
  {
    var m := |actions| - 1;
    if m > 0 {
      LastAction(Apply(s, actions[0]), actions[1..]);
      assert actions[1..][..m - 1] == actions[..m][1..];
    }
  }

  /** Nothing but such an action makes an answer, and no action loses one. */
  lemma CarriedByStep(s: State, act: Action, n: nat, a: Answer)
    requires Good(s) && Enabled(s, act)
    ensures Carries(Apply(s, act), n, a) <==> Carries(s, n, a) || Brings(s, act, n, a)
  {
    var t := Apply(s, act);
    match act
    case Take(id, body) =>
      if id in s.pending && Decimal(n) == id { DecimalInjective(n, s.pending[id]); }
      if id in s.pending { assert t.flights[|s.flights|] == Flight(s.pending[id], Response(id, body)); }
      assert forall f :: f in s.flights ==> f in t.flights;
    case FailAll(order, error) => CarriedByFailAll(s, order, error, n, a);
    case Deliver(i) => CarriedByDeliver(s, i, n, a);
    case Receive(m) =>
      assert s.calls[m].channel == [s.calls[m].channel[0]];
    case Begin =>
    case Abandon(_) =>
    case Insert(_) =>
    case Drop(_, _) =>
  }

  lemma CarriedByFailAll(s: State, order: seq<Text>, error: Text, n: nat, a: Answer)
    requires Good(s) && Enumerates(order, s.pending)
    ensures var act := FailAll(order, error); Carries(Apply(s, act), n, a) <==> Carries(s, n, a) || Brings(s, act, n, a)
  {
    var fs := Failures(s.pending, order, error);
    assert Flight(n, a) in fs <==> Decimal(n) in s.pending && a == Failure(error) by {
      if Decimal(n) in s.pending && a == Failure(error) {
        var i :| 0 <= i < |order| && order[i] == Decimal(n);
        DecimalInjective(n, s.pending[Decimal(n)]);
        assert fs[i] == Flight(n, a);
      }
      if Flight(n, a) in fs {
        var i :| 0 <= i < |fs| && fs[i] == Flight(n, a);
        assert order[i] in s.pending;
      }
    }
  }

  lemma CarriedByDeliver(s: State, i: nat, n: nat, a: Answer)
    requires Good(s) && Enabled(s, Deliver(i))
    ensures Carries(Apply(s, Deliver(i)), n, a) <==> Carries(s, n, a)
  {
    var t := Apply(s, Deliver(i));
    var f := s.flights[i];
    assert s.flights == s.flights[..i] + [f] + s.flights[i + 1..];
    assert Flight(n, a) in s.flights <==> Flight(n, a) in t.flights || Flight(n, a) == f;
    assert t.calls[f.call].channel == s.calls[f.call].channel + [f.answer];
  }

  /** After any interleaving, an answer is on its way to a call, in its channel or returned by it exactly
      when some action brought it while the call was in the table. */
  lemma {:induction false} AnswersAreBrought(actions: seq<Action>, n: nat, a: Answer)
    requires Possible(START, actions)
    ensures Carries(After(START, actions), n, a) <==> exists k :: Brought(actions, k, n, a)
    decreases |actions|
  {
    if actions != [] {
      var m := |actions| - 1;
      LastAction(START, actions);
      RunKeepsGood(START, actions[..m]);
      AnswersAreBrought(actions[..m], n, a);
      CarriedByStep(After(START, actions[..m]), actions[m], n, a);
      assert forall k :: 0 <= k < m ==> actions[..m][..k] == actions[..k];
      assert forall k :: 0 <= k < m ==> (Brought(actions, k, n, a) <==> Brought(actions[..m], k, n, a));
      assert Brought(actions, m, n, a) <==> Brings(After(START, actions[..m]), actions[m], n, a);
    }
  }

  /** A response to the call's id with this body arrived, or everyone was failed with this error. */
  ghost predicate Came(actions: seq<Action>, n: nat, a: Answer) {
    match a
    case Response(id, body) => id == Decimal(n) && Take(id, body) in actions
    case Failure(error) => exists k :: 0 <= k < |actions| && actions[k].FailAll? && actions[k].error == error
  }

  lemma BroughtCame(actions: seq<Action>, k: nat, n: nat, a: Answer)
    requires Brought(actions, k, n, a)
    ensures Came(actions, n, a)
  {
    var act := actions[k];
    assert act in actions;
    if act.Take? { assert act == Take(act.id, act.body); }
  }

  /** So a call that was answered returned the body of a response to its id, or the error it was failed
      with. */
  lemma AnsweredWithWhatCame(actions: seq<Action>, n: nat, a: Answer)
    requires Possible(START, actions) && n in After(START, actions).calls
    requires After(START, actions).calls[n].phase == Answered(a)
    ensures Came(actions, n, a)
  {
    AnswersAreBrought(actions, n, a);
    var k :| Brought(actions, k, n, a);
    BroughtCame(actions, k, n, a);
  }

  // --------------------------------------------------------------- driver

  /** The shared fields; each method is one critical section or channel operation of the source. */
  class Driver {
    var state: State

    constructor ()
      ensures state == START && Good(state)
    {
      state := START;
    }

    /** A call takes the next id and makes its channel. */
    method NewCall() returns (n: nat)
      requires Good(state)
      modifies this
      ensures state == Apply(old(state), Begin) && Good(state)
      ensures n == old(state).nextId + 1 && n !in old(state).calls
      ensures state == State(n, old(state).pending, old(state).calls[n := Call(Numbered, [], 0)], old(state).flights)
    {
      StepKeepsGood(state, Begin);
      n := state.nextId + 1;
      state := state.(nextId := n, calls := state.calls[n := Call(Numbered, [], 0)]);
    }

    /** The entry is made under the lock. */
    method Register(n: nat)
      requires Good(state) && Enabled(state, Insert(n))
      modifies this
      ensures state == Apply(old(state), Insert(n)) && Good(state)
      ensures state.pending == old(state).pending[Decimal(n) := n] && state.calls[n].phase == Waiting
    {
      StepKeepsGood(state, Insert(n));
      state := WithPhase(state, n, Waiting).(pending := state.pending[Decimal(n) := n]);
    }

    /** The branches of call that drop the entry and return an error. */
    method DropPending(n: nat, reason: Reason)
      requires Good(state) && Enabled(state, Drop(n, reason))
      modifies this
      ensures state == Apply(old(state), Drop(n, reason)) && Good(state)
      ensures state.pending == old(state).pending - {Decimal(n)} && state.calls[n].phase == GaveUp(reason)
    {
      StepKeepsGood(state, Drop(n, reason));
      state := WithPhase(state, n, GaveUp(reason)).(pending := state.pending - {Decimal(n)});
    }

    /** The part of handleResponse under the lock; an unknown id is only noted. */
    method HandleResponse(id: Text, body: Text) returns (known: bool)
      requires Good(state)
      modifies this
      ensures state == Apply(old(state), Take(id, body)) && Good(state)
      ensures known <==> id in old(state).pending
      ensures known ==> state.pending == old(state).pending - {id}
      ensures known ==> state.flights == old(state).flights + [Flight(old(state).pending[id], Response(id, body))]
      ensures !known ==> state == old(state)
    {
      StepKeepsGood(state, Take(id, body));
      known := id in state.pending;
      if known {
        var n := state.pending[id];
        state := state.(pending := state.pending - {id}, flights := state.flights + [Flight(n, Response(id, body))]);
      }
    }

    /** failAll: the table is replaced under the lock, its entries are then failed one after another. */
    method FailEveryone(error: Text) returns (ghost order: seq<Text>)
      requires Good(state)
      modifies this
      ensures Enumerates(order, old(state).pending) && state.pending == map[]
      ensures forall k :: k in old(state).pending ==> Flight(old(state).pending[k], Failure(error)) in state.flights
      ensures state == Apply(old(state), FailAll(order, error)) && Good(state)
    {
      var pending := state.pending;
      var keys := pending.Keys;
      var listed: seq<Text> := [];
      var flights := state.flights;
      while keys != {}
        invariant keys <= pending.Keys
        invariant forall i, j :: 0 <= i < j < |listed| ==> listed[i] != listed[j]
        invariant forall k :: k in listed <==> k in pending && k !in keys
        invariant flights == state.flights + Failures(pending, listed, error)
        decreases keys
      {
        var k :| k in keys;
        assert Failures(pending, listed + [k], error) == Failures(pending, listed, error) + [Flight(pending[k], Failure(error))];
        flights := flights + [Flight(pending[k], Failure(error))];
        listed := listed + [k];
        keys := keys - {k};
      }
      order := listed;
      StepKeepsGood(state, FailAll(order, error));
      state := state.(pending := map[], flights := flights);
    }

    /** The send outside the lock; it never has to wait. */
    method Send(i: nat)
      requires Good(state) && i < |state.flights|
      modifies this
      ensures Enabled(old(state), Deliver(i)) && state == Apply(old(state), Deliver(i)) && Good(state)
      ensures var f := old(state).flights[i];
              state.calls[f.call].channel == [f.answer] && state.calls[f.call].sends == 1 && |state.flights| == |old(state).flights| - 1
    {
      StepKeepsGood(state, Deliver(i));
      var f := state.flights[i];
      var c := state.calls[f.call];
      state := state.(flights := state.flights[..i] + state.flights[i + 1..],
                      calls := state.calls[f.call := c.(channel := c.channel + [f.answer], sends := c.sends + 1)]);
    }

    /** The call's select takes the answer from its channel. */
    method Answer(n: nat) returns (answer: Answer)
      requires Good(state) && Enabled(state, Receive(n))
      modifies this
      ensures state == Apply(old(state), Receive(n)) && Good(state)
      ensures old(state).calls[n].channel == [answer] && state.calls[n].channel == []
      ensures state.calls[n].phase == Answered(answer) && For(answer, n) && Decimal(n) !in state.pending
    {
      StepKeepsGood(state, Receive(n));
      var c := state.calls[n];
      answer := c.channel[0];
      if Decimal(n) in state.pending { DecimalInjective(n, state.pending[Decimal(n)]); }
      state := state.(calls := state.calls[n := Call(Answered(answer), c.channel[1..], c.sends)]);
    }
  }
}
