/** The one-time records of app/auth/oauth_transactions.py: a value is read and deleted in one step. */
module OAuthStores {
  import opened Common
  import opened Redis

  type Token = nat

  datatype Outcome = LoginComplete | PhoneVerificationRequired | AccountLinkingRequired | AuthFailed

  /** A handoff payload carries tokens exactly when the login is complete. */
  datatype Payload = Payload(outcome: Outcome, tokens: Option<Token>)

  const STATE_TTL: nat := 300
  const HANDOFF_TTL: nat := 120

  /** The consuming script: GET, and DEL when there was a value. */
  function Consume<V>(s: Keyspace<Token, V>, k: Token, now: Time): (Keyspace<Token, V>, Option<V>) {
    if Live(s, k, now) then (Del(s, k), Some(s[k].value)) else (s, None)
  }

  /** The key reads as this value from now until its lifetime in seconds is over, and as nothing from then on. */
  ghost predicate ReadsAs<V>(s: Keyspace<Token, V>, k: Token, v: V, now: Time, ttl: nat) {
    forall t: Time :: now <= t ==> Get(s, k, t) == if t < now + ttl * SECOND then Some(v) else None
  }

  /** What was created is consumed once, in time: the first of any two consumers gets it, the second nothing. */
  lemma CreatedThenConsumedOnce<V(!new)>(s: Keyspace<Token, V>, k: Token, v: V, now: Time, ttl: nat, first: Time,
      second: Time)
    requires ReadsAs(s, k, v, now, ttl) && now <= first <= second
    ensures var (t, got) := Consume(s, k, first);
      && got == (if first < now + ttl * SECOND then Some(v) else None)
      && Consume(t, k, second) == (t, None)
  {
    assert Get(s, k, first) == if first < now + ttl * SECOND then Some(v) else None;
    assert Get(s, k, second) == if second < now + ttl * SECOND then Some(v) else None;
  }

  class OAuthTransactionStore {
    var keys: Keyspace<Token, Token>

    constructor ()
      ensures keys == map[]
    {
      keys := map[];
    }

    /** The state and the PKCE verifier are random, so the caller supplies unused ones. */
    method Create(state: Token, verifier: Token, now: Time)
      modifies this
      ensures ReadsAs(keys, state, verifier, now, STATE_TTL) && keys - {state} == old(keys) - {state}
    {
      keys := SetEx(keys, state, verifier, now, STATE_TTL);
    }

    method ConsumeState(state: Token, now: Time) returns (verifier: Option<Token>)
      modifies this
      ensures (keys, verifier) == Consume(old(keys), state, now)
    {
      verifier := Get(keys, state, now);
      if verifier == None {
        return;
      }
      keys := Del(keys, state);
    }
  }

  class OAuthHandoffStore {
    var keys: Keyspace<Token, Payload>

    constructor ()
      ensures keys == map[]
    {
      keys := map[];
    }

    method Create(code: Token, payload: Payload, now: Time)
      modifies this
      ensures ReadsAs(keys, code, payload, now, HANDOFF_TTL) && keys - {code} == old(keys) - {code}
    {
      keys := SetEx(keys, code, payload, now, HANDOFF_TTL);
    }

    method ConsumeHandoff(code: Token, now: Time) returns (payload: Option<Payload>)
      modifies this
      ensures (keys, payload) == Consume(old(keys), code, now)
    {
      payload := Get(keys, code, now);
      if payload == None {
        return;
      }
      keys := Del(keys, code);
    }
  }
}

/** Google sign-in with any number of callbacks and exchanges in flight at once (app/auth/service.py). */
module GoogleSignIn {
  import opened Common
  import opened Redis
  import opened OAuthStores

  /** A callback between consuming its state and answering; None when the state was not there. */
  datatype Flow = Flow(state: Option<Token>)

  /** Redis, the callbacks in flight, and the history the properties speak of. */
  datatype World = World(
    states: Keyspace<Token, Token>, handoffs: Keyspace<Token, Payload>, flows: map<nat, Flow>, next: nat,
    created: map<Token, Time>,        // every state ever created, and when
    signedIn: map<Token, Token>,      // every signed-in handoff ever created, and the state it came from
    delivered: seq<Token>,            // handoffs handed to a client, in order
    tokenDeliveries: seq<Token>)      // those among them that carried tokens

  datatype Step =
    | StartOAuth(at: Time)
    | CallbackRefused(at: Time)                       // Google reported an error, or a parameter is missing
    | CallbackConsumes(state: Token, at: Time)
    | CallbackAnswers(flow: nat, outcome: Outcome, at: Time)
    | CallbackCrashes(flow: nat, at: Time)
    | Exchange(code: Token, at: Time)

  const START := World(map[], map[], map[], 0, map[], map[], [], [])

  function AddHandoff(w: World, outcome: Outcome, from: Option<Token>, at: Time): World {
    var tokens := if outcome == LoginComplete then Some(w.next) else None;
    w.(handoffs := SetEx(w.handoffs, w.next, Payload(outcome, tokens), at, HANDOFF_TTL), next := w.next + 1,
       signedIn := if outcome == LoginComplete && from.Some? then w.signedIn[w.next := from.value] else w.signedIn)
  }

  /** Fresh random values are modelled by a counter. A step that does not apply changes nothing. */
  function Apply(w: World, s: Step): World {
    match s
    case StartOAuth(at) =>
      w.(states := SetEx(w.states, w.next, w.next, at, STATE_TTL), created := w.created[w.next := at],
        next := w.next + 1)
    case CallbackRefused(at) => AddHandoff(w, AuthFailed, None, at)
    case CallbackConsumes(state, at) =>
      var (states, verifier) := Consume(w.states, state, at);
      w.(states := states, flows := w.flows[w.next := Flow(if verifier.Some? then Some(state) else None)],
        next := w.next + 1)
    case CallbackAnswers(flow, outcome, at) =>
      if flow !in w.flows then w
      else
        var state := w.flows[flow].state;
        AddHandoff(w.(flows := w.flows - {flow}), if state.None? then AuthFailed else outcome, state, at)
    case CallbackCrashes(flow, _) => w.(flows := w.flows - {flow})
    case Exchange(code, at) =>
      var (handoffs, payload) := Consume(w.handoffs, code, at);
      if payload.None? then w
      else w.(handoffs := handoffs, delivered := w.delivered + [code],
              tokenDeliveries := if payload.value.tokens.Some? then w.tokenDeliveries + [code] else w.tokenDeliveries)
  }

  function Run(w: World, steps: seq<Step>): World
    decreases |steps|
  {
    if steps == [] then w else Run(Apply(w, steps[0]), steps[1..])
  }

  ghost predicate NoRepeats(s: seq<Token>) {
    forall i, j :: 0 <= i < j < |s| ==> s[i] != s[j]
  }

  /** A state is waiting in Redis, held by one callback, or spent on one signed-in handoff; never two of these. */
  ghost predicate StatesSpentOnce(w: World) {
    && (forall k :: k in w.states ==> k in w.created)
    && (forall f :: f in w.flows && w.flows[f].state.Some? ==>
          w.flows[f].state.value in w.created && w.flows[f].state.value !in w.states)
    && (forall f, g :: f in w.flows && g in w.flows && f != g && w.flows[f].state.Some? ==>
      w.flows[f].state != w.flows[g].state)
    && (forall c :: c in w.signedIn ==> w.signedIn[c] in w.created && w.signedIn[c] !in w.states)
    && (forall c, f :: c in w.signedIn && f in w.flows ==> w.flows[f].state != Some(w.signedIn[c]))
    && (forall c, d :: c in w.signedIn && d in w.signedIn && c != d ==> w.signedIn[c] != w.signedIn[d])
  }

  ghost predicate HandoffsGivenOnce(w: World) {
    && NoRepeats(w.delivered) && NoRepeats(w.tokenDeliveries)
    && (forall c :: c in w.delivered ==> c !in w.handoffs)
    && (forall c :: c in w.tokenDeliveries ==> c in w.delivered && c in w.signedIn)
    && (forall c :: c in w.handoffs && w.handoffs[c].value.tokens.Some? ==> c in w.signedIn)
  }

  ghost predicate BelowNext(w: World) {
    && (forall k :: k in w.created ==> k < w.next)
    && (forall f :: f in w.flows ==> f < w.next)
    && (forall c :: c in w.handoffs ==> c < w.next)
    && (forall c :: c in w.delivered ==> c < w.next)
    && (forall c :: c in w.signedIn ==> c < w.next)
  }

  /** A waiting state expires 300 seconds after it was created. */
  ghost predicate StatesExpire(w: World) {
    forall k :: k in w.states && k in w.created ==> w.states[k].expiresAt == Some(w.created[k] + STATE_TTL * SECOND)
  }

  ghost predicate Valid(w: World) {
    StatesSpentOnce(w) && HandoffsGivenOnce(w) && BelowNext(w) && StatesExpire(w)
  }

  lemma StepKeepsNumbers(w: World, s: Step)
    requires Valid(w)
    ensures BelowNext(Apply(w, s)) && StatesExpire(Apply(w, s))
  {
  }

  lemma StepSpendsOnce(w: World, s: Step)
    requires Valid(w)
    ensures StatesSpentOnce(Apply(w, s))
  {
    match s
    case CallbackAnswers(flow, outcome, at) =>
      if flow in w.flows {
        var state := w.flows[flow].state;
        AnswerSpendsOnce(w.(flows := w.flows - {flow}), if state.None? then AuthFailed else outcome, state, at);
      }
    case _ =>
  }

  /** Once its callback has left, a state may be spent on a handoff. */
  lemma AnswerSpendsOnce(w: World, outcome: Outcome, state: Option<Token>, at: Time)
    requires StatesSpentOnce(w) && BelowNext(w)
    requires state.Some? ==> state.value in w.created && state.value !in w.states
    requires state.Some? ==> (forall f :: f in w.flows ==> w.flows[f].state != state)
    requires state.Some? ==> (forall c :: c in w.signedIn ==> w.signedIn[c] != state.value)
    ensures StatesSpentOnce(AddHandoff(w, outcome, state, at))
  {
  }

  lemma StepGivesOnce(w: World, s: Step)
    requires Valid(w)
    ensures HandoffsGivenOnce(Apply(w, s))
  {
  }

  lemma {:induction false} RunIsValid(w: World, steps: seq<Step>)
    requires Valid(w)
    ensures Valid(Run(w, steps))
    decreases |steps|
  {
    if steps != [] {
      StepKeepsNumbers(w, steps[0]);
      StepSpendsOnce(w, steps[0]);
      StepGivesOnce(w, steps[0]);
      RunIsValid(Apply(w, steps[0]), steps[1..]);
    }
  }

  /** Distinct states behind distinct handoffs: no more handoffs than states. */
  lemma {:induction false} NoMoreThanStates(signedIn: map<Token, Token>, codes: set<Token>, states: set<Token>)
    requires codes <= signedIn.Keys
    requires forall c :: c in codes ==> signedIn[c] in states
    requires forall c, d :: c in codes && d in codes && c != d ==> signedIn[c] != signedIn[d]
    ensures |codes| <= |states|
    decreases codes
  {
    if codes != {} {
      var c :| c in codes;
      NoMoreThanStates(signedIn, codes - {c}, states - {signedIn[c]});
    }
  }

  function Elements(s: seq<Token>): set<Token> {
    set x | x in s
  }

  lemma {:induction false} DistinctCount(s: seq<Token>)
    requires NoRepeats(s)
    ensures |Elements(s)| == |s|
  {
    if s != [] {
      var front, last := s[..|s| - 1], s[|s| - 1];
      DistinctCount(front);
      assert last !in Elements(front);
      assert Elements(s) == Elements(front) + {last};
    }
  }

  /** Every state ever created leads to at most one signed-in handoff, and every handoff is delivered at most once. */
  lemma AtMostOncePerState(steps: seq<Step>)
    ensures var w := Run(START, steps);
      && (forall c, d :: c in w.signedIn && d in w.signedIn && w.signedIn[c] == w.signedIn[d] ==> c == d)
      && NoRepeats(w.delivered)
      && (forall c :: c in w.tokenDeliveries ==> c in w.signedIn)
  {
    RunIsValid(START, steps);
  }

  /** In every interleaving, tokens are delivered no more often than states were created. */
  lemma DeliveriesBounded(steps: seq<Step>)
    ensures |Run(START, steps).tokenDeliveries| <= |Run(START, steps).created|
  {
    var w := Run(START, steps);
    RunIsValid(START, steps);
    TokenDeliveriesBelow(w);
  }

  lemma TokenDeliveriesBelow(w: World)
    requires StatesSpentOnce(w) && HandoffsGivenOnce(w)
    ensures |w.tokenDeliveries| <= |w.created|
  {
    DistinctCount(w.tokenDeliveries);
    NoMoreThanStates(w.signedIn, Elements(w.tokenDeliveries), w.created.Keys);
    assert |w.created| == |w.created.Keys|;
  }

  // ----- a sign-in goes through

  /** The step is not about this state, this callback or this handoff. */
  predicate About(s: Step, state: Token, flow: nat, code: Token) {
    || (s.CallbackConsumes? && s.state == state)
    || ((s.CallbackAnswers? || s.CallbackCrashes?) && s.flow == flow)
    || (s.Exchange? && s.code == code)
  }

  /** A waiting state, a callback in flight and a waiting handoff are left as they are by all that others do. */
  lemma {:induction false} OthersLeaveIt(w: World, steps: seq<Step>, state: Token, flow: nat, code: Token)
    requires Valid(w) && forall i :: 0 <= i < |steps| ==> !About(steps[i], state, flow, code)
    ensures state in w.states ==> state in Run(w, steps).states && Run(w, steps).states[state] == w.states[state]
    ensures flow in w.flows ==> flow in Run(w, steps).flows && Run(w, steps).flows[flow] == w.flows[flow]
    ensures code in w.handoffs ==>
      code in Run(w, steps).handoffs && Run(w, steps).handoffs[code] == w.handoffs[code]
    ensures Valid(Run(w, steps))
    decreases |steps|
  {
    if steps != [] {
      assert !About(steps[0], state, flow, code);
      assert BelowNext(w) && forall k :: k in w.states ==> k in w.created;
      StepValid(w, steps[0]);
      StepLeavesIt(w, steps[0], state, flow, code);
      hide Valid, Apply;
      OthersLeaveIt(Apply(w, steps[0]), steps[1..], state, flow, code);
    }
  }

  lemma StepLeavesIt(w: World, s: Step, state: Token, flow: nat, code: Token)
    requires BelowNext(w) && !About(s, state, flow, code) && forall k :: k in w.states ==> k < w.next
    ensures state in w.states ==> state in Apply(w, s).states && Apply(w, s).states[state] == w.states[state]
    ensures flow in w.flows ==> flow in Apply(w, s).flows && Apply(w, s).flows[flow] == w.flows[flow]
    ensures code in w.handoffs ==> code in Apply(w, s).handoffs && Apply(w, s).handoffs[code] == w.handoffs[code]
  {
  }

  ghost predicate NoneAbout(steps: seq<Step>, state: Token, flow: nat, code: Token) {
    forall i :: 0 <= i < |steps| ==> !About(steps[i], state, flow, code)
  }

  /** From its creation on, whatever others do, a state is there for its callback, in time. */
  lemma StateIsConsumed(w: World, start: Time, others: seq<Step>, w2: World, consume: Time, code: Token)
    requires Valid(w) && w2 == Run(Apply(w, StartOAuth(start)), others) && NoneAbout(others, w.next, w2.next, code)
    requires start <= consume < start + STATE_TTL * SECOND
    ensures var w3 := Apply(w2, CallbackConsumes(w.next, consume));
      Valid(w3) && w2.next in w3.flows && w3.flows[w2.next].state == Some(w.next)
  {
    StepValid(w, StartOAuth(start));
    OthersLeaveIt(Apply(w, StartOAuth(start)), others, w.next, w2.next, code);
    StepValid(w2, CallbackConsumes(w.next, consume));
    hide Valid, Run;
  }

  /** A callback in flight, whatever others do, answers with its outcome. */
  lemma CallbackIsAnswered(w3: World, flow: nat, state: Token, more: seq<Step>, w4: World, outcome: Outcome,
      answer: Time)
    requires Valid(w3) && flow in w3.flows && w3.flows[flow].state == Some(state)
    requires w4 == Run(w3, more) && NoneAbout(more, state, flow, w4.next)
    ensures var w5 := Apply(w4, CallbackAnswers(flow, outcome, answer));
      && Valid(w5) && w4.next in w5.handoffs
      && w5.handoffs[w4.next] == Entry(Payload(outcome, if outcome == LoginComplete then Some(w4.next) else None),
           Some(answer + HANDOFF_TTL * SECOND))
  {
    OthersLeaveIt(w3, more, state, flow, w4.next);
    StepValid(w4, CallbackAnswers(flow, outcome, answer));
    hide Valid, Run;
  }

  /** A handoff, whatever others do, is delivered to the client that comes in time. */
  lemma HandoffIsDelivered(w5: World, code: Token, payload: Payload, expires: Time, yetMore: seq<Step>, w6: World,
      exchange: Time, state: Token, flow: nat)
    requires Valid(w5) && code in w5.handoffs && w5.handoffs[code] == Entry(payload, Some(expires))
      && exchange < expires
    requires w6 == Run(w5, yetMore) && NoneAbout(yetMore, state, flow, code)
    ensures var w7 := Apply(w6, Exchange(code, exchange));
      && w7.delivered == w6.delivered + [code] && code in w6.handoffs && w6.handoffs[code].value == payload
      && w7.tokenDeliveries == if payload.tokens.Some? then w6.tokenDeliveries + [code] else w6.tokenDeliveries
  {
    OthersLeaveIt(w5, yetMore, state, flow, code);
    hide Valid, Run;
  }

  /** A sign-in in four steps, with anything that others do in between: the state is created, its callback consumes it
      in time and answers, and the handoff is exchanged in time. The client gets what the callback answered: the tokens
      if and only if the login was complete. */
  lemma SignInGoesThrough(w: World, others: seq<Step>, w2: World, more: seq<Step>, w4: World, yetMore: seq<Step>,
      w6: World, outcome: Outcome, start: Time, consume: Time, answer: Time, exchange: Time)
    requires Valid(w) && w2 == Run(Apply(w, StartOAuth(start)), others)
    requires w4 == Run(Apply(w2, CallbackConsumes(w.next, consume)), more)
    requires w6 == Run(Apply(w4, CallbackAnswers(w2.next, outcome, answer)), yetMore)
    requires NoneAbout(others, w.next, w2.next, w4.next) && NoneAbout(more, w.next, w2.next, w4.next)
    requires NoneAbout(yetMore, w.next, w2.next, w4.next)
    requires start <= consume < start + STATE_TTL * SECOND && answer <= exchange < answer + HANDOFF_TTL * SECOND
    ensures var w7 := Apply(w6, Exchange(w4.next, exchange));
      && w7.delivered == w6.delivered + [w4.next]
      && w4.next in w6.handoffs && w6.handoffs[w4.next].value.outcome == outcome
      && w7.tokenDeliveries == if outcome == LoginComplete then w6.tokenDeliveries + [w4.next] else w6.tokenDeliveries
  {
    hide *;
    StateIsConsumed(w, start, others, w2, consume, w4.next);
    CallbackIsAnswered(Apply(w2, CallbackConsumes(w.next, consume)), w2.next, w.next, more, w4, outcome, answer);
    var w5 := Apply(w4, CallbackAnswers(w2.next, outcome, answer));
    HandoffIsDelivered(w5, w4.next, w5.handoffs[w4.next].value, answer + HANDOFF_TTL * SECOND, yetMore, w6, exchange,
      w.next, w2.next);
  }

  lemma StepValid(w: World, s: Step)
    requires Valid(w)
    ensures Valid(Apply(w, s))
  {
    StepKeepsNumbers(w, s);
    StepSpendsOnce(w, s);
    StepGivesOnce(w, s);
  }

  /** A callback gets hold of a state only once, and only within 300 seconds of its creation. */
  lemma StateConsumedInTime(steps: seq<Step>, state: Token, at: Time)
    ensures var w := Run(START, steps);
      var w' := Apply(w, CallbackConsumes(state, at));
      w'.flows[w.next].state.Some? ==>
        state in w.created && at < w.created[state] + STATE_TTL * SECOND && state !in w'.states
  {
    RunIsValid(START, steps);
  }
}
