/**
  Token state and the single-flight refresh, as the atomic segments between awaits of any number of
  concurrent `authorizedFetch` calls, sign-ins, sign-outs and direct refreshes.
 */
module Session {
  import opened Base

  type Token = nat
  type CallId = nat

  /** Where one `authorizedFetch` call stands. */
  datatype Phase =
    | AwaitFirst
    | AwaitRefresh(flight: nat)
    | AwaitSecond
    | Finished

  /** `waited` is the flight the call has waited for, if it ever asked for a refresh. */
  datatype Call = Call(auth: bool, phase: Phase, sends: nat, asks: nat, waited: Option<nat>)

  /** How a refresh round trip ended, if it has. */
  datatype Outcome = Pending | Stored | Refused | Lost

  /** One refresh token presented to the server. */
  datatype Presentation = Presentation(token: Token, outcome: Outcome)

  /** The promise behind `refreshInFlight`; `entry` is its round trip, absent when there was no token. */
  datatype Flight = Flight(id: nat, entry: Option<nat>, settled: Option<bool>)

  /**
    The module variables, the calls in progress, and the history of the server's view; `entries` is the
    round trip of each flight already cleared.
   */
  datatype State = State(
    access: Option<Token>, refresh: Option<Token>, flight: Option<Flight>,
    flights: nat, results: map<nat, bool>, entries: map<nat, nat>, calls: map<CallId, Call>,
    log: seq<Presentation>, seen: set<Token>)

  /** At load only a refresh token kept by the session storage may be there. */
  function Initial(stored: Option<Token>): State {
    State(None, stored, None, 0, map[], map[], map[], [], if stored.Some? then {stored.value} else {})
  }

  datatype Step =
    | SignIn(access: Token, refresh: Token)
    | SignOut
    | Begin(call: CallId, auth: bool)
    | FirstFails(call: CallId)
    | FirstAnswers(call: CallId, unauthorized: bool)
    | RefreshDirectly
    | SettleStored(access: Token, refresh: Token)
    | SettleRefused
    | SettleLost
    | ClearFlight
    | Resume(call: CallId)
    | SecondFails(call: CallId)
    | SecondAnswers(call: CallId, unauthorized: bool)

  predicate InPhase(s: State, c: CallId, p: Phase) {
    c in s.calls && s.calls[c].phase == p
  }

  predicate RoundTripOpen(s: State) {
    s.flight.Some? && s.flight.value.settled.None? && s.flight.value.entry.Some? && s.flight.value.entry.value < |s.log|
  }

  /** When a step can happen. A refresh token the server issues is one never seen before. */
  predicate Enabled(s: State, step: Step) {
    match step
    case SignIn(access, refresh) => refresh !in s.seen
    case SignOut => true
    case Begin(c, auth) => c !in s.calls
    case FirstFails(c) => InPhase(s, c, AwaitFirst)
    case FirstAnswers(c, unauthorized) => InPhase(s, c, AwaitFirst)
    case RefreshDirectly => true
    case SettleStored(access, refresh) => RoundTripOpen(s) && refresh !in s.seen
    case SettleRefused => RoundTripOpen(s)
    case SettleLost => RoundTripOpen(s)
    case ClearFlight => s.flight.Some? && s.flight.value.settled.Some?
    case Resume(c) => c in s.calls && s.calls[c].phase.AwaitRefresh? && s.calls[c].phase.flight in s.results
    case SecondFails(c) => InPhase(s, c, AwaitSecond)
    case SecondAnswers(c, unauthorized) => InPhase(s, c, AwaitSecond)
  }

  function WithTokens(s: State, access: Token, refresh: Token): State {
    s.(access := Some(access), refresh := Some(refresh), seen := s.seen + {refresh})
  }

  function WithoutTokens(s: State): State {
    s.(access := None, refresh := None)
  }

  /** `refreshSession()`: join the flight, or start one by presenting the token held. */
  function WithRefresh(s: State): State {
    if s.flight.Some? then s
    else if s.refresh.None? then s.(flight := Some(Flight(s.flights, None, Some(false))), flights := s.flights + 1)
    else s.(flight := Some(Flight(s.flights, Some(|s.log|), None)), flights := s.flights + 1,
            log := s.log + [Presentation(s.refresh.value, Pending)])
  }

  function MoveTo(s: State, c: CallId, phase: Phase): State
    requires c in s.calls
  {
    s.(calls := s.calls[c := s.calls[c].(phase := phase)])
  }

  function Settle(s: State, outcome: Outcome): State
    requires RoundTripOpen(s)
  {
    var f := s.flight.value;
    var i := f.entry.value;
    s.(flight := Some(f.(settled := Some(outcome == Stored))), log := s.log[i := s.log[i].(outcome := outcome)])
  }

  function Apply(s: State, step: Step): State
    requires Enabled(s, step)
  {
    match step
    case SignIn(access, refresh) => WithTokens(s, access, refresh)
    case SignOut => WithoutTokens(s)
    case Begin(c, auth) => s.(calls := s.calls[c := Call(auth, AwaitFirst, 1, 0, None)])
    case FirstFails(c) => MoveTo(s, c, Finished)
    case FirstAnswers(c, unauthorized) =>
      if unauthorized && s.calls[c].auth && s.refresh.Some? then
        var t := WithRefresh(s);
        var call := t.calls[c];
        var id := t.flight.value.id;
        t.(calls := t.calls[c := call.(phase := AwaitRefresh(id), asks := call.asks + 1, waited := Some(id))])
      else MoveTo(s, c, Finished)
    case RefreshDirectly => WithRefresh(s)
    case SettleStored(access, refresh) => WithTokens(Settle(s, Stored), access, refresh)
    case SettleRefused => WithoutTokens(Settle(s, Refused))
    case SettleLost => Settle(s, Lost)
    case ClearFlight =>
      var f := s.flight.value;
      s.(flight := None, results := s.results[f.id := f.settled.value],
         entries := if f.entry.Some? then s.entries[f.id := f.entry.value] else s.entries)
    case Resume(c) =>
      var call := s.calls[c];
      if s.results[call.phase.flight] then
        s.(calls := s.calls[c := call.(phase := AwaitSecond, sends := call.sends + 1)])
      else MoveTo(s, c, Finished)
    case SecondFails(c) => MoveTo(s, c, Finished)
    case SecondAnswers(c, unauthorized) =>
      MoveTo(if unauthorized then WithoutTokens(s) else s, c, Finished)
  }

  // ----- The client, segment by segment ---------------------------------------------------------

  class Client {
    var accessToken: Option<Token>
    var refreshToken: Option<Token>
    var refreshInFlight: Option<Flight>
    var calls: map<CallId, Call>
    var results: map<nat, bool>
    var nextFlight: nat
    var log: seq<Presentation>
    ghost var entries: map<nat, nat>
    ghost var seen: set<Token>

    ghost function View(): State
      reads this
    {
      State(accessToken, refreshToken, refreshInFlight, nextFlight, results, entries, calls, log, seen)
    }

    constructor (stored: Option<Token>)
      ensures View() == Initial(stored)
    {
      accessToken, refreshToken, refreshInFlight, calls := None, stored, None, map[];
      results, nextFlight, log, entries := map[], 0, [], map[];
      seen := if stored.Some? then {stored.value} else {};
    }

    /** Stores both tokens of a token response. */
    method SetTokens(access: Token, refresh: Token)
      modifies this`accessToken, this`refreshToken, this`seen
      ensures View() == WithTokens(old(View()), access, refresh)
    {
      accessToken, refreshToken := Some(access), Some(refresh);
      seen := seen + {refresh};
    }

    method ClearTokens()
      modifies this`accessToken, this`refreshToken
      ensures View() == WithoutTokens(old(View()))
    {
      accessToken, refreshToken := None, None;
    }

    /** Joins the flight in progress or starts one; a flight without a token is settled at once. */
    method RefreshSession() returns (id: nat)
      modifies this`refreshInFlight, this`nextFlight, this`log
      ensures View() == WithRefresh(old(View()))
      ensures refreshInFlight.Some? && id == refreshInFlight.value.id
    {
      if refreshInFlight.None? {
        var token := refreshToken;
        if token.None? {
          refreshInFlight := Some(Flight(nextFlight, None, Some(false)));
        } else {
          refreshInFlight := Some(Flight(nextFlight, Some(|log|), None));
          log := log + [Presentation(token.value, Pending)];
        }
        nextFlight := nextFlight + 1;
      }
      id := refreshInFlight.value.id;
    }

    /** The answer to a refresh round trip arrives. */
    method PerformRefreshEnds(outcome: Outcome, access: Token, refresh: Token)
      requires outcome != Pending && RoundTripOpen(View())
      modifies this`accessToken, this`refreshToken, this`refreshInFlight, this`log, this`seen
      ensures View() ==
        if outcome == Stored then WithTokens(Settle(old(View()), Stored), access, refresh)
        else if outcome == Refused then WithoutTokens(Settle(old(View()), Refused))
        else Settle(old(View()), Lost)
    {
      var f := refreshInFlight.value;
      var i := f.entry.value;
      if outcome == Refused {
        ClearTokens();
      } else if outcome == Stored {
        SetTokens(access, refresh);
      }
      log := log[i := log[i].(outcome := outcome)];
      refreshInFlight := Some(f.(settled := Some(outcome == Stored)));
    }

    /** The `finally` callback. */
    method OnSettled()
      requires refreshInFlight.Some? && refreshInFlight.value.settled.Some?
      modifies this`refreshInFlight, this`results, this`entries
      ensures View() == Apply(old(View()), ClearFlight)
    {
      if refreshInFlight.value.entry.Some? {
        entries := entries[refreshInFlight.value.id := refreshInFlight.value.entry.value];
      }
      results := results[refreshInFlight.value.id := refreshInFlight.value.settled.value];
      refreshInFlight := None;
    }

    /** A call begins with its first request. */
    method BeginFetch(c: CallId, auth: bool)
      requires c !in calls
      modifies this`calls
      ensures View() == Apply(old(View()), Begin(c, auth))
    {
      calls := calls[c := Call(auth, AwaitFirst, 1, 0, None)];
    }

    /** The first response: done, or one refresh. */
    method OnFirstResponse(c: CallId, unauthorized: bool)
      requires InPhase(View(), c, AwaitFirst)
      modifies this`calls, this`refreshInFlight, this`nextFlight, this`log
      ensures View() == Apply(old(View()), FirstAnswers(c, unauthorized))
    {
      var call := calls[c];
      if unauthorized && call.auth && refreshToken.Some? {
        var id := RefreshSession();
        calls := calls[c := call.(phase := AwaitRefresh(id), asks := call.asks + 1, waited := Some(id))];
      } else {
        calls := calls[c := call.(phase := Finished)];
      }
    }

    /** The refresh a call waits for has ended: retry once, or fail. */
    method OnRefreshed(c: CallId)
      requires Enabled(View(), Resume(c))
      modifies this`calls
      ensures View() == Apply(old(View()), Resume(c))
    {
      var call := calls[c];
      if results[call.phase.flight] {
        calls := calls[c := call.(phase := AwaitSecond, sends := call.sends + 1)];
      } else {
        calls := calls[c := call.(phase := Finished)];
      }
    }

    /** The retried response; a second 401 ends the session. */
    method OnSecondResponse(c: CallId, unauthorized: bool)
      requires InPhase(View(), c, AwaitSecond)
      modifies this`calls, this`accessToken, this`refreshToken
      ensures View() == Apply(old(View()), SecondAnswers(c, unauthorized))
    {
      if unauthorized {
        ClearTokens();
      }
      calls := calls[c := calls[c].(phase := Finished)];
    }
  }

  // ----- Every interleaving -----------------------------------------------------------------------

  /** Round trips still waiting for the server. */
  function Outstanding(s: State): set<nat> {
    set i | 0 <= i < |s.log| && s.log[i].outcome == Pending
  }

  predicate Spent(p: Presentation) {
    p.outcome == Stored || p.outcome == Refused
  }

  predicate CallSound(call: Call) {
    match call.phase
    case AwaitFirst => call.sends == 1 && call.asks == 0 && call.waited.None?
    case AwaitRefresh(f) => call.sends == 1 && call.asks == 1 && call.auth && call.waited == Some(f)
    case AwaitSecond => call.sends == 2 && call.asks == 1 && call.auth && call.waited.Some?
    case Finished =>
      && 1 <= call.sends <= 2 && call.asks == (if call.waited.Some? then 1 else 0)
      && (call.waited.None? ==> call.sends == 1)
  }

  /** Only the flight in progress has a round trip pending. */
  ghost predicate FlightSound(s: State) {
    && (forall i :: 0 <= i < |s.log| && s.log[i].outcome == Pending ==>
          s.flight.Some? && s.flight.value.settled.None? && s.flight.value.entry == Some(i))
    && (s.flight.Some? ==>
          && s.flight.value.id < s.flights
          && (s.flight.value.settled.None? ==>
                s.flight.value.entry.Some? && s.flight.value.entry.value < |s.log|
                && s.log[s.flight.value.entry.value].outcome == Pending))
  }

  /** No call waits for a flight that is neither in progress nor delivered. */
  ghost predicate WaitersSound(s: State) {
    forall c :: c in s.calls && s.calls[c].phase.AwaitRefresh? ==>
      s.calls[c].phase.flight in s.results
      || (s.flight.Some? && s.flight.value.id == s.calls[c].phase.flight)
  }

  /** Every cleared flight is an earlier one, and it succeeded exactly when its presentation was stored. */
  ghost predicate ResultsSound(s: State) {
    && (forall f :: f in s.results ==> f < s.flights && (s.flight.Some? ==> f != s.flight.value.id))
    && (forall f :: f in s.entries ==> f in s.results && s.entries[f] < |s.log|)
    && (forall f :: f in s.results ==>
          (s.results[f] <==> f in s.entries && s.log[s.entries[f]].outcome == Stored)
          && (f in s.entries ==> s.log[s.entries[f]].outcome != Pending))
    && (s.flight.Some? && s.flight.value.settled.Some? ==>
          && (s.flight.value.entry.Some? ==> s.flight.value.entry.value < |s.log|)
          && (s.flight.value.settled.value <==>
                s.flight.value.entry.Some? && s.log[s.flight.value.entry.value].outcome == Stored))
  }

  /** A call that has stopped waiting was sent again exactly when the flight it waited for succeeded. */
  predicate Retried(call: Call, results: map<nat, bool>) {
    !call.phase.AwaitRefresh? && call.waited.Some? ==>
      call.waited.value in results && (call.sends == 2 <==> results[call.waited.value])
  }

  ghost predicate RetriesSound(s: State) {
    forall c :: c in s.calls ==> Retried(s.calls[c], s.results)
  }

  /** A token is presented again only when its earlier presentations were lost on the way. */
  ghost predicate PresentedOnce(s: State) {
    forall i, j :: 0 <= i < j < |s.log| && s.log[i].token == s.log[j].token ==> s.log[i].outcome == Lost
  }

  ghost predicate TokensSound(s: State) {
    && (s.refresh.Some? ==> s.refresh.value in s.seen)
    && (forall p :: p in s.log ==> p.token in s.seen)
    && (s.refresh.Some? ==> forall p :: p in s.log && Spent(p) ==> p.token != s.refresh.value)
  }

  ghost predicate Inv(s: State) {
    && FlightSound(s) && WaitersSound(s) && PresentedOnce(s) && TokensSound(s)
    && ResultsSound(s) && RetriesSound(s)
    && forall c :: c in s.calls ==> CallSound(s.calls[c])
  }

  lemma RefreshKeeps(s: State)
    requires Inv(s)
    ensures Inv(WithRefresh(s)) && WithRefresh(s).flight.Some?
  {
    var t := WithRefresh(s);
    if s.flight.None? && s.refresh.Some? {
      forall i | 0 <= i < |s.log| && s.log[i].token == s.refresh.value ensures s.log[i].outcome == Lost {
        assert s.log[i] in s.log;
      }
      forall p | p in t.log ensures p.token in t.seen && (Spent(p) ==> p.token != s.refresh.value) {
        assert p in s.log || p == Presentation(s.refresh.value, Pending);
      }
    }
  }

  lemma SettleKeeps(s: State, outcome: Outcome)
    requires Inv(s) && RoundTripOpen(s) && outcome != Pending
    ensures var t := Settle(s, outcome);
            && FlightSound(t) && WaitersSound(t) && PresentedOnce(t) && ResultsSound(t) && RetriesSound(t)
            && t.calls == s.calls && t.refresh == s.refresh && t.seen == s.seen
            && (forall p :: p in t.log ==> p.token in t.seen)
            && (outcome == Lost ==> TokensSound(t))
  {
    var i := s.flight.value.entry.value;
    var t := Settle(s, outcome);
    assert s.log[i].outcome == Pending;
    forall p | p in t.log ensures p.token in s.seen && (outcome == Lost && Spent(p) ==> p in s.log) {
      var j :| 0 <= j < |t.log| && t.log[j] == p;
      assert s.log[j] in s.log;
    }
    forall j, k | 0 <= j < k < |t.log| && t.log[j].token == t.log[k].token ensures t.log[j].outcome == Lost {
      assert s.log[j].outcome == Lost;
    }
  }

  /** Storing a token never seen before, or dropping the one held, leaves nothing spent in hand. */
  lemma ReplacingKeeps(s: State, access: Token, refresh: Token)
    requires forall p :: p in s.log ==> p.token in s.seen
    ensures refresh !in s.seen ==> TokensSound(WithTokens(s, access, refresh))
    ensures TokensSound(WithoutTokens(s))
  {
  }

  /** The steps that touch one call. */
  predicate OfCall(step: Step) {
    step.Begin? || step.FirstFails? || step.FirstAnswers? || step.Resume? || step.SecondFails? || step.SecondAnswers?
  }

  lemma OneCallMoves(s: State, c: CallId, call: Call)
    requires Inv(s) && CallSound(call) && Retried(call, s.results)
    requires call.phase.AwaitRefresh? ==> s.flight.Some? && s.flight.value.id == call.phase.flight
    ensures Inv(s.(calls := s.calls[c := call]))
  {
  }

  lemma CallStepKeepsInv(s: State, step: Step)
    requires Inv(s) && Enabled(s, step) && OfCall(step)
    ensures Inv(Apply(s, step))
  {
    var c := step.call;
    var t := Apply(s, step);
    if step.FirstAnswers? {
      RefreshKeeps(s);
      OneCallMoves(if step.unauthorized && s.calls[c].auth && s.refresh.Some? then WithRefresh(s) else s, c, t.calls[c]);
    } else if step.SecondAnswers? {
      ReplacingKeeps(s, 0, 0);
      OneCallMoves(if step.unauthorized then WithoutTokens(s) else s, c, t.calls[c]);
    } else {
      OneCallMoves(s, c, t.calls[c]);
    }
    hide Inv;
  }

  lemma ClearingKeeps(s: State)
    requires Inv(s) && Enabled(s, ClearFlight)
    ensures Inv(Apply(s, ClearFlight))
  {
    var t := Apply(s, ClearFlight);
    assert s.flight.value.id !in s.results;
    assert FlightSound(t) && WaitersSound(t) && ResultsSound(t) && RetriesSound(t);
  }

  lemma SettlingKeeps(s: State, step: Step)
    requires Inv(s) && Enabled(s, step) && (step.SettleStored? || step.SettleRefused? || step.SettleLost?)
    ensures Inv(Apply(s, step))
  {
    var outcome := if step.SettleStored? then Stored else if step.SettleRefused? then Refused else Lost;
    SettleKeeps(s, outcome);
    var t := Settle(s, outcome);
    hide Settle;
    if step.SettleStored? {
      ReplacingKeeps(t, step.access, step.refresh);
    } else {
      ReplacingKeeps(t, 0, 0);
    }
    hide CallSound, Retried;
  }

  lemma StepKeepsInv(s: State, step: Step)
    requires Inv(s) && Enabled(s, step)
    ensures Inv(Apply(s, step))
  {
    match step {
      case SignIn(access, refresh) => ReplacingKeeps(s, access, refresh);
      case SignOut => ReplacingKeeps(s, 0, 0);
      case RefreshDirectly => RefreshKeeps(s);
      case ClearFlight => ClearingKeeps(s);
      case _ =>
        hide Inv;
        if OfCall(step) {
          CallStepKeepsInv(s, step);
        } else {
          SettlingKeeps(s, step);
        }
    }
  }

  /** The states of a run: each step enabled where it happens. */
  predicate CanRun(s: State, steps: seq<Step>)
    decreases |steps|
  {
    steps == [] || (Enabled(s, steps[0]) && CanRun(Apply(s, steps[0]), steps[1..]))
  }

  function Run(s: State, steps: seq<Step>): State
    requires CanRun(s, steps)
    decreases |steps|
  {
    if steps == [] then s else Run(Apply(s, steps[0]), steps[1..])
  }

  lemma {:induction false} RunKeepsInv(s: State, steps: seq<Step>)
    requires Inv(s) && CanRun(s, steps)
    ensures Inv(Run(s, steps))
    decreases |steps|
  {
    hide Apply, Enabled, Inv;
    if steps != [] {
      StepKeepsInv(s, steps[0]);
      RunKeepsInv(Apply(s, steps[0]), steps[1..]);
    }
  }

  /**
    In every interleaving: at most one refresh round trip is outstanding; a call sends its request
    at most twice and asks for at most one refresh; no waiting call is forgotten; and a token whose
    refresh was stored or refused is never presented again.
   */
  lemma EveryInterleaving(stored: Option<Token>, steps: seq<Step>)
    requires CanRun(Initial(stored), steps)
    ensures var s := Run(Initial(stored), steps);
            && |Outstanding(s)| <= 1
            && (forall c :: c in s.calls ==> s.calls[c].sends <= 2 && s.calls[c].asks <= 1)
            && (forall i, j :: 0 <= i < j < |s.log| && Spent(s.log[i]) ==> s.log[j].token != s.log[i].token)
            && WaitersSound(s)
  {
    assert Inv(Initial(stored));
    RunKeepsInv(Initial(stored), steps);
    var s := Run(Initial(stored), steps);
    if s.flight.Some? && s.flight.value.entry.Some? {
      assert Outstanding(s) <= {s.flight.value.entry.value};
      SubsetOfOne(Outstanding(s), s.flight.value.entry.value);
    } else {
      assert Outstanding(s) == {};
    }
  }

  /**
    The retry, in every interleaving. A call has waited for a flight exactly when it asked for a refresh.
    Once it has stopped waiting, the flight is cleared, and the request was sent a second time exactly
    when the server stored that flight's presentation.
   */
  lemma RetriedIffStored(stored: Option<Token>, steps: seq<Step>, c: CallId)
    requires CanRun(Initial(stored), steps) && c in Run(Initial(stored), steps).calls
    ensures var s := Run(Initial(stored), steps);
            var call := s.calls[c];
            && (call.waited.Some? <==> call.asks == 1)
            && (call.waited.None? ==> call.sends == 1)
            && (call.phase.AwaitSecond? ==> call.sends == 2)
            && (call.phase.AwaitRefresh? ==> call.sends == 1)
            && (call.waited.Some? && !call.phase.AwaitRefresh? ==>
                  && call.waited.value in s.results
                  && (call.sends == 2 <==>
                        && call.waited.value in s.entries && s.entries[call.waited.value] < |s.log|
                        && s.log[s.entries[call.waited.value]].outcome == Stored))
  {
    assert Inv(Initial(stored));
    RunKeepsInv(Initial(stored), steps);
    var s := Run(Initial(stored), steps);
    assert CallSound(s.calls[c]) && Retried(s.calls[c], s.results);
    hide Run, CanRun, TokensSound, PresentedOnce, FlightSound, WaitersSound;
  }

  lemma SubsetOfOne(s: set<nat>, x: nat)
    requires s <= {x}
    ensures |s| <= 1
  {
    if s != {} {
      assert s == {x};
    }
  }

  // ----- How many refreshes a run causes ----------------------------------------------------------

  function Idle(s: State): nat {
    if s.flight.None? then 1 else 0
  }

  function Clears(steps: seq<Step>): nat {
    if steps == [] then 0 else (if steps[0].ClearFlight? then 1 else 0) + Clears(steps[1..])
  }

  lemma {:induction false} RunGrowsLog(s: State, steps: seq<Step>)
    requires CanRun(s, steps)
    ensures |Run(s, steps).log| >= |s.log|
    decreases |steps|
  {
    if steps != [] {
      RunGrowsLog(Apply(s, steps[0]), steps[1..]);
    }
  }

  /**
    Whatever else happens in between: a flight starts only when none is in the air, so there are no
    more new ones than the flights that end, and one, and none presents more than one token.
   */
  lemma {:induction false} RefreshesBounded(s: State, steps: seq<Step>)
    requires CanRun(s, steps)
    ensures var t := Run(s, steps);
            && t.flights + Idle(t) == s.flights + Idle(s) + Clears(steps)
            && |s.log| <= |t.log| <= |s.log| + (t.flights - s.flights)
    decreases |steps|
  {
    if steps != [] {
      RefreshesBounded(Apply(s, steps[0]), steps[1..]);
    }
  }

  /** The call waits for the flight in the air, or for the one it waited for before. */
  ghost predicate WaitsAsIn(s: State, t: State, c: CallId) {
    c in t.calls && t.calls[c].phase.AwaitRefresh? ==>
      || (t.flight.Some? && t.calls[c].phase.flight == t.flight.value.id)
      || (c in s.calls && s.calls[c].phase == t.calls[c].phase)
  }

  lemma StepSharesFlight(s: State, step: Step)
    requires Enabled(s, step) && !step.ClearFlight?
    ensures var t := Apply(s, step);
            && (s.flight.Some? ==> t.flight.Some? && t.flight.value.id == s.flight.value.id)
            && forall c :: WaitsAsIn(s, t, c)
  {
  }

  /** A flight stays in the air until it is cleared, and every call that asks meanwhile waits for it. */
  lemma {:induction false} FlightStaysShared(s: State, steps: seq<Step>)
    requires CanRun(s, steps) && Clears(steps) == 0
    ensures var t := Run(s, steps);
            && (s.flight.Some? ==> t.flight.Some? && t.flight.value.id == s.flight.value.id)
            && forall c :: WaitsAsIn(s, t, c)
    decreases |steps|
  {
    if steps != [] {
      var next, t := Apply(s, steps[0]), Run(s, steps);
      FlightStaysShared(next, steps[1..]);
      StepSharesFlight(s, steps[0]);
      hide Apply, Enabled;
      forall c ensures WaitsAsIn(s, t, c) {
        assert WaitsAsIn(next, t, c) && WaitsAsIn(s, next, c);
      }
    }
  }

  /**
    Until a flight is cleared at most one token is presented, and none when a flight was in the air:
    every call that asks for a refresh in the meantime waits for that one flight.
   */
  lemma ConcurrentUnauthorizedShareOneRefresh(s: State, steps: seq<Step>)
    requires CanRun(s, steps) && Clears(steps) == 0
    ensures var t := Run(s, steps);
            && |s.log| <= |t.log| <= |s.log| + Idle(s)
            && (s.flight.Some? ==> t.flight.Some? && t.flight.value.id == s.flight.value.id)
            && forall c :: WaitsAsIn(s, t, c)
  {
    RefreshesBounded(s, steps);
    FlightStaysShared(s, steps);
  }

  /** The calls of a page get their first answers, in any order, while refreshes end and are cleared. */
  predicate PageStep(step: Step, cs: seq<CallId>) {
    || (step.FirstAnswers? && step.call in cs)
    || step.SettleStored? || step.SettleRefused? || step.SettleLost? || step.ClearFlight?
  }

  ghost predicate PageRun(s: State, steps: seq<Step>, cs: seq<CallId>) {
    CanRun(s, steps) && forall step :: step in steps ==> PageStep(step, cs)
  }

  ghost function Unanswered(s: State, cs: seq<CallId>): set<CallId> {
    set c | c in cs && InPhase(s, c, AwaitFirst)
  }

  lemma PageStepPresents(s: State, step: Step, cs: seq<CallId>)
    requires Enabled(s, step) && PageStep(step, cs)
    ensures var t := Apply(s, step); |t.log| + |Unanswered(t, cs)| <= |s.log| + |Unanswered(s, cs)|
  {
    var t := Apply(s, step);
    if step.FirstAnswers? {
      assert Unanswered(t, cs) == Unanswered(s, cs) - {step.call};
    } else {
      assert Unanswered(t, cs) == Unanswered(s, cs);
    }
  }

  lemma {:induction false} PageRunPresents(s: State, steps: seq<Step>, cs: seq<CallId>)
    requires PageRun(s, steps, cs)
    ensures var t := Run(s, steps); |t.log| + |Unanswered(t, cs)| <= |s.log| + |Unanswered(s, cs)|
    decreases |steps|
  {
    hide Apply, Enabled, Unanswered;
    if steps != [] {
      assert steps[0] in steps;
      PageStepPresents(s, steps[0], cs);
      PageRunPresents(Apply(s, steps[0]), steps[1..], cs);
    }
  }

  function CallSet(cs: seq<CallId>): set<CallId> {
    set c | c in cs
  }

  lemma {:induction false} DistinctSize(cs: seq<CallId>)
    requires Distinct(cs)
    ensures |CallSet(cs)| == |cs|
  {
    if cs == [] {
      assert CallSet(cs) == {};
    } else {
      TailDistinct(cs);
      DistinctSize(cs[1..]);
      assert CallSet(cs) == CallSet(cs[1..]) + {cs[0]};
    }
  }

  /** Each call gets its 401 after the refresh of the one before has been stored and cleared. */
  function OneByOne(cs: seq<CallId>, token: Token): seq<Step> {
    if cs == [] then []
    else [FirstAnswers(cs[0], true), SettleStored(token, token), ClearFlight] + OneByOne(cs[1..], token + 1)
  }

  lemma OneStepMore(s: State, step: Step, rest: seq<Step>)
    requires Enabled(s, step) && CanRun(Apply(s, step), rest)
    ensures CanRun(s, [step] + rest) && Run(s, [step] + rest) == Run(Apply(s, step), rest)
  {
    assert ([step] + rest)[1..] == rest;
  }

  lemma ThreeSteps(s: State, a: Step, b: Step, c: Step, rest: seq<Step>)
    requires Enabled(s, a) && Enabled(Apply(s, a), b) && Enabled(Apply(Apply(s, a), b), c)
    requires CanRun(Apply(Apply(Apply(s, a), b), c), rest)
    ensures CanRun(s, [a, b, c] + rest) && Run(s, [a, b, c] + rest) == Run(Apply(Apply(Apply(s, a), b), c), rest)
  {
    hide Enabled, Apply, CanRun, Run;
    var t := Apply(s, a);
    OneStepMore(Apply(t, b), c, rest);
    OneStepMore(t, b, [c] + rest);
    OneStepMore(s, a, [b] + ([c] + rest));
    assert [a] + ([b] + ([c] + rest)) == [a, b, c] + rest;
  }

  lemma {:induction false} OneByOnePresents(s: State, cs: seq<CallId>, token: Token)
    requires s.flight.None? && s.refresh.Some? && Waiting(s, cs) && forall u :: u in s.seen ==> u < token
    ensures PageRun(s, OneByOne(cs, token), cs) && |Run(s, OneByOne(cs, token)).log| == |s.log| + |cs|
    decreases |cs|
  {
    if cs != [] {
      assert cs[0] in cs;
      var a, b := FirstAnswers(cs[0], true), SettleStored(token, token);
      var next := Apply(Apply(Apply(s, a), b), ClearFlight);
      var later := OneByOne(cs[1..], token + 1);
      TailDistinct(cs);
      forall c | c in cs[1..] ensures InPhase(next, c, AwaitFirst) && next.calls[c].auth {
        assert c in cs && c != cs[0];
      }
      OneByOnePresents(next, cs[1..], token + 1);
      ThreeSteps(s, a, b, ClearFlight, later);
      forall step | step in OneByOne(cs, token) ensures PageStep(step, cs) {
        assert step in [a, b, ClearFlight] || (step in later && PageStep(step, cs[1..]));
      }
    }
  }

  /**
    A page whose calls all wait for their first answer can present as many tokens as it has calls, and
    no more: whenever a 401 arrives after the last flight was cleared it starts another refresh.
   */
  lemma PageRefreshesIff(s: State, cs: seq<CallId>, k: nat)
    requires s.flight.None? && s.refresh.Some? && Waiting(s, cs)
    ensures (forall steps :: PageRun(s, steps, cs) ==> |Run(s, steps).log| <= |s.log| + k) <==> |cs| <= k
  {
    if |cs| <= k {
      assert Unanswered(s, cs) == CallSet(cs);
      DistinctSize(cs);
      forall steps | PageRun(s, steps, cs) ensures |Run(s, steps).log| <= |s.log| + k {
        PageRunPresents(s, steps, cs);
      }
    } else {
      var token := UnseenToken(s.seen);
      OneByOnePresents(s, cs, token);
    }
  }

  // ----- 401s back to back ----------------------------------------------------------------------------

  /** The calls of `cs` all get a 401, one after the other. */
  function AllUnauthorized(cs: seq<CallId>): seq<Step> {
    if cs == [] then [] else [FirstAnswers(cs[0], true)] + AllUnauthorized(cs[1..])
  }

  ghost predicate Waiting(s: State, cs: seq<CallId>) {
    && (forall c :: c in cs ==> InPhase(s, c, AwaitFirst) && s.calls[c].auth)
    && Distinct(cs)
  }

  /** Calls that get a 401 back to back while a refresh is in flight all wait for it, and nothing more is presented. */
  lemma {:induction false} JoinersPresentNothing(s: State, cs: seq<CallId>)
    requires s.flight.Some? && s.refresh.Some? && Waiting(s, cs)
    ensures CanRun(s, AllUnauthorized(cs))
    ensures var t := Run(s, AllUnauthorized(cs));
            && t.log == s.log && t.flight == s.flight && t.flights == s.flights && t.refresh == s.refresh
            && t.calls.Keys == s.calls.Keys
            && forall c :: c in t.calls ==>
              if c in cs then t.calls[c].phase == AwaitRefresh(s.flight.value.id) else t.calls[c] == s.calls[c]
    decreases |cs|
  {
    if cs != [] {
      assert cs[0] in cs;
      var step := FirstAnswers(cs[0], true);
      var next := Apply(s, step);
      forall c | c in cs[1..] ensures InPhase(next, c, AwaitFirst) && next.calls[c].auth {
        assert c in cs && c != cs[0];
      }
      JoinersPresentNothing(next, cs[1..]);
      var steps := AllUnauthorized(cs);
      assert steps[0] == step && steps[1..] == AllUnauthorized(cs[1..]);
      assert cs[0] !in cs[1..];
      forall c | c in cs ensures c == cs[0] || c in cs[1..] {
      }
    }
  }

  /** Calls that get a 401 back to back, with nothing in between, cause exactly one refresh. */
  lemma BackToBackShareOneRefresh(s: State, cs: seq<CallId>)
    requires s.flight.None? && s.refresh.Some? && Waiting(s, cs) && cs != []
    ensures CanRun(s, AllUnauthorized(cs))
    ensures var t := Run(s, AllUnauthorized(cs));
            && t.log == s.log + [Presentation(s.refresh.value, Pending)]
            && t.flights == s.flights + 1
            && forall c :: c in cs ==> InPhase(t, c, AwaitRefresh(s.flights))
  {
    assert cs[0] in cs;
    var step := FirstAnswers(cs[0], true);
    var next := Apply(s, step);
    forall c | c in cs[1..] ensures InPhase(next, c, AwaitFirst) && next.calls[c].auth {
      assert c in cs && c != cs[0];
    }
    JoinersPresentNothing(next, cs[1..]);
    var steps := AllUnauthorized(cs);
    assert steps[0] == step && steps[1..] == AllUnauthorized(cs[1..]);
    assert cs[0] !in cs[1..];
  }

  // ----- Signing out ----------------------------------------------------------------------------------

  predicate NoSignIn(steps: seq<Step>) {
    forall step :: step in steps ==> !step.SignIn?
  }

  /** Without a token and a round trip, nothing but a sign-in brings a token back. */
  lemma {:induction false} StaysSignedOut(s: State, steps: seq<Step>)
    requires s.refresh.None? && s.access.None? && !RoundTripOpen(s) && CanRun(s, steps) && NoSignIn(steps)
    ensures Run(s, steps).refresh.None? && Run(s, steps).access.None? && Run(s, steps).log == s.log
    decreases |steps|
  {
    if steps != [] {
      assert steps[0] in steps;
      StaysSignedOut(Apply(s, steps[0]), steps[1..]);
    }
  }

  lemma {:induction false} UnseenToken(seen: set<Token>) returns (bound: Token)
    ensures forall t :: t in seen ==> t < bound
    decreases |seen|
  {
    bound := 0;
    if seen != {} {
      var t :| t in seen;
      var rest := UnseenToken(seen - {t});
      bound := if t < rest then rest else t + 1;
      forall u | u in seen ensures u < bound {
        assert u == t || u in seen - {t};
      }
    }
  }

  ghost predicate SignOutLasts(s: State) {
    forall steps :: CanRun(Apply(s, SignOut), steps) && NoSignIn(steps) ==>
      Run(Apply(s, SignOut), steps).refresh.None? && Run(Apply(s, SignOut), steps).access.None?
  }

  /** A sign-out lasts until the next sign-in exactly when no refresh was outstanding. */
  lemma SignOutLastsIff(s: State)
    ensures SignOutLasts(s) <==> !RoundTripOpen(s)
  {
    var t := Apply(s, SignOut);
    if !RoundTripOpen(s) {
      forall steps | CanRun(t, steps) && NoSignIn(steps)
        ensures Run(t, steps).refresh.None? && Run(t, steps).access.None? {
        StaysSignedOut(t, steps);
      }
    } else {
      var token := UnseenToken(t.seen);
      var steps := [SettleStored(token, token)];
      assert steps[1..] == [];
      assert CanRun(t, steps) && NoSignIn(steps);
      assert Run(t, steps) == Apply(t, steps[0]);
    }
  }

  // ----- Signing in while a refresh is outstanding ------------------------------------------------------

  /** Nobody signs in or out, and no retried call gets a second 401. */
  predicate LeavesSession(steps: seq<Step>) {
    forall step :: step in steps ==> !step.SignIn? && !step.SignOut? && !(step.SecondAnswers? && step.unauthorized)
  }

  /** Without a round trip in the air, and with none started, the tokens stay. */
  lemma {:induction false} StaysSignedIn(s: State, steps: seq<Step>)
    requires s.refresh.Some? && !RoundTripOpen(s) && CanRun(s, steps) && LeavesSession(steps)
    requires |Run(s, steps).log| == |s.log|
    ensures Run(s, steps).refresh == s.refresh && Run(s, steps).access == s.access
    decreases |steps|
  {
    if steps != [] {
      assert steps[0] in steps;
      RunGrowsLog(Apply(s, steps[0]), steps[1..]);
      StaysSignedIn(Apply(s, steps[0]), steps[1..]);
    }
  }

  /** The tokens of a sign-in are held as long as the session is left alone and presents nothing. */
  ghost predicate SignInLasts(s: State, access: Token, refresh: Token)
    requires Enabled(s, SignIn(access, refresh))
  {
    var t := Apply(s, SignIn(access, refresh));
    forall steps :: CanRun(t, steps) && LeavesSession(steps) && |Run(t, steps).log| == |t.log| ==>
      Run(t, steps).refresh == Some(refresh) && Run(t, steps).access == Some(access)
  }

  /**
    A sign-in lasts until its own session changes exactly when no refresh of the earlier one was
    outstanding: the answer to that one drops the new tokens, or overwrites them.
   */
  lemma SignInLastsIff(s: State, access: Token, refresh: Token)
    requires Enabled(s, SignIn(access, refresh))
    ensures SignInLasts(s, access, refresh) <==> !RoundTripOpen(s)
  {
    var t := Apply(s, SignIn(access, refresh));
    if !RoundTripOpen(s) {
      forall steps | CanRun(t, steps) && LeavesSession(steps) && |Run(t, steps).log| == |t.log|
        ensures Run(t, steps).refresh == Some(refresh) && Run(t, steps).access == Some(access)
      {
        StaysSignedIn(t, steps);
      }
    } else {
      OneStepOnly(t, SettleRefused);
      assert LeavesSession([SettleRefused]);
    }
  }

  lemma OneStepOnly(s: State, step: Step)
    requires Enabled(s, step)
    ensures CanRun(s, [step]) && Run(s, [step]) == Apply(s, step)
  {
    assert [step][1..] == [];
  }

  /** Both ways an outstanding refresh undoes a sign-in. */
  lemma OutstandingRefreshUndoesSignIn(s: State, access: Token, refresh: Token, other: Token)
    requires Enabled(s, SignIn(access, refresh)) && RoundTripOpen(s) && other !in s.seen + {refresh}
    ensures var t := Apply(s, SignIn(access, refresh));
            && CanRun(t, [SettleRefused]) && Run(t, [SettleRefused]).refresh.None?
            && CanRun(t, [SettleStored(other, other)]) && Run(t, [SettleStored(other, other)]).refresh == Some(other)
  {
    var t := Apply(s, SignIn(access, refresh));
    OneStepOnly(t, SettleRefused);
    OneStepOnly(t, SettleStored(other, other));
  }

  // ----- One call from its 401 to its end -----------------------------------------------------------------

  /** A call that can be refused and refreshed, with nothing in the air. */
  predicate MayAsk(s: State, c: CallId) {
    s.flight.None? && s.refresh.Some? && InPhase(s, c, AwaitFirst) && s.calls[c].auth && s.calls[c].sends == 1
  }

  /** A first answer starts a refresh exactly when it is a 401 to an authenticated call and a token is held. */
  lemma AsksIff(s: State, c: CallId, unauthorized: bool)
    requires InPhase(s, c, AwaitFirst) && s.flight.None?
    ensures var t := Apply(s, FirstAnswers(c, unauthorized));
            if unauthorized && s.calls[c].auth && s.refresh.Some? then
              && t.log == s.log + [Presentation(s.refresh.value, Pending)]
              && InPhase(t, c, AwaitRefresh(s.flights)) && t.flight.Some? && t.flight.value.id == s.flights
            else
              && t.log == s.log && t.flight == s.flight && InPhase(t, c, Finished)
              && t.calls[c].sends == s.calls[c].sends && t.calls[c].asks == s.calls[c].asks
    ensures var t := Apply(s, FirstAnswers(c, unauthorized)); t.access == s.access && t.refresh == s.refresh
  {
  }

  function Settlement(outcome: Outcome, access: Token, refresh: Token): Step
    requires outcome != Pending
  {
    match outcome case Stored => SettleStored(access, refresh) case Refused => SettleRefused case Lost => SettleLost
  }

  /** The schedule 401, settlement, cleared flight, resumption. */
  function Story(c: CallId, outcome: Outcome, access: Token, refresh: Token): seq<Step>
    requires outcome != Pending
  {
    [FirstAnswers(c, true), Settlement(outcome, access, refresh), ClearFlight, Resume(c)]
  }

  /**
    After a stored refresh the request is sent again with the new tokens in hand; after a refused one
    the call is over and the tokens are gone; after a lost one it is over and the tokens are as before.
   */
  lemma StoryEnds(s: State, c: CallId, outcome: Outcome, access: Token, refresh: Token)
    requires MayAsk(s, c) && outcome != Pending && (outcome == Stored ==> refresh !in s.seen)
    ensures CanRun(s, Story(c, outcome, access, refresh))
    ensures var t := Run(s, Story(c, outcome, access, refresh));
            && c in t.calls
            && t.calls[c].phase == (if outcome == Stored then AwaitSecond else Finished)
            && t.calls[c].sends == (if outcome == Stored then 2 else 1)
            && (outcome == Stored ==> t.access == Some(access) && t.refresh == Some(refresh))
            && (outcome == Refused ==> t.access.None? && t.refresh.None?)
            && (outcome == Lost ==> t.access == s.access && t.refresh == s.refresh)
            && t.log == s.log + [Presentation(s.refresh.value, outcome)]
  {
    var a, b := FirstAnswers(c, true), Settlement(outcome, access, refresh);
    var asked := Apply(s, a);
    SettlesAndClears(s, asked, c, outcome, access, refresh);
    var t := Apply(Apply(asked, b), ClearFlight);
    OneStepOnly(t, Resume(c));
    hide RoundTripOpen;
    ThreeSteps(s, a, b, ClearFlight, [Resume(c)]);
    assert [a, b, ClearFlight] + [Resume(c)] == Story(c, outcome, access, refresh);
  }

  lemma SettlesAndClears(s: State, asked: State, c: CallId, outcome: Outcome, access: Token, refresh: Token)
    requires MayAsk(s, c) && asked == Apply(s, FirstAnswers(c, true))
    requires outcome != Pending && (outcome == Stored ==> refresh !in s.seen)
    ensures var b := Settlement(outcome, access, refresh);
            && Enabled(asked, b) && Enabled(Apply(asked, b), ClearFlight)
            && var t := Apply(Apply(asked, b), ClearFlight);
            && Enabled(t, Resume(c)) && t.calls == asked.calls
            && t.calls[c].phase == AwaitRefresh(s.flights) && t.calls[c].sends == 1
            && s.flights in t.results && t.results[s.flights] == (outcome == Stored)
            && (outcome == Stored ==> t.access == Some(access) && t.refresh == Some(refresh))
            && (outcome == Refused ==> t.access.None? && t.refresh.None?)
            && (outcome == Lost ==> t.access == s.access && t.refresh == s.refresh)
            && t.log == s.log + [Presentation(s.refresh.value, outcome)]
  {
    match outcome case Stored => case Refused => case Lost =>
  }

  /** A request that gets no answer ends its call, first or second, and moves nothing else. */
  lemma LostRequestEnds(s: State, c: CallId)
    requires InPhase(s, c, AwaitFirst) || InPhase(s, c, AwaitSecond)
    ensures var step := if InPhase(s, c, AwaitFirst) then FirstFails(c) else SecondFails(c);
            && Enabled(s, step)
            && Apply(s, step) == s.(calls := s.calls[c := s.calls[c].(phase := Finished)])
  {
  }

  /** A retried call that is refused again ends the session; any other answer leaves the tokens. */
  lemma SecondAnswerEnds(s: State, c: CallId, unauthorized: bool)
    requires InPhase(s, c, AwaitSecond)
    ensures var t := Apply(s, SecondAnswers(c, unauthorized));
            && InPhase(t, c, Finished) && t.log == s.log && t.flight == s.flight
            && (if unauthorized then t.access.None? && t.refresh.None? else t.access == s.access && t.refresh == s.refresh)
  {
  }

  /** A call without authentication, refused: nothing is presented, and it is over after one request. */
  lemma PlainCallNeverAsks(s: State, c: CallId)
    requires c !in s.calls
    ensures var steps := [Begin(c, false), FirstAnswers(c, true)];
            && CanRun(s, steps)
            && var t := Run(s, steps);
            && c in t.calls && t.calls[c].phase == Finished && t.calls[c].sends == 1
            && t == s.(calls := t.calls) && t.calls == s.calls[c := t.calls[c]]
  {
    var t := Apply(s, Begin(c, false));
    OneStepOnly(t, FirstAnswers(c, true));
    OneStepMore(s, Begin(c, false), [FirstAnswers(c, true)]);
    assert [Begin(c, false)] + [FirstAnswers(c, true)] == [Begin(c, false), FirstAnswers(c, true)];
  }

  /** An authenticated call from its beginning, refused while a token is held: it asks. */
  lemma SignedInCallAsks(s: State, c: CallId)
    requires c !in s.calls && s.flight.None? && s.refresh.Some?
    ensures var steps := [Begin(c, true), FirstAnswers(c, true)];
            && CanRun(s, steps)
            && Run(s, steps).log == s.log + [Presentation(s.refresh.value, Pending)]
            && InPhase(Run(s, steps), c, AwaitRefresh(s.flights))
  {
    var t := Apply(s, Begin(c, true));
    OneStepOnly(t, FirstAnswers(c, true));
    OneStepMore(s, Begin(c, true), [FirstAnswers(c, true)]);
    assert [Begin(c, true)] + [FirstAnswers(c, true)] == [Begin(c, true), FirstAnswers(c, true)];
  }

  /** A direct refresh presents the token held exactly when nothing is in the air. */
  lemma DirectRefreshPresentsIff(s: State)
    ensures var t := Apply(s, RefreshDirectly);
            && t.flight.Some? && t.calls == s.calls && t.access == s.access && t.refresh == s.refresh
            && (s.flight.Some? ==> t == s)
            && t.log == s.log + if s.flight.None? && s.refresh.Some? then [Presentation(s.refresh.value, Pending)] else []
  {
  }
}
