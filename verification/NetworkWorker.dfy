/** The one network task: two bounded queues, a retry loop around each request, and a single result slot, driven by
  * a task that runs concurrently with the main loop. */
module NetworkWorker {
  import opened Bytes

  // --- Requests and their outcomes ---

  datatype Kind = BUSINESS_EVENT | OFFLINE_REPLAY | STATE_FETCH | BOOTSTRAP | HEARTBEAT | UI_BUNDLE_FETCH
  datatype Tier = PRIORITY_HIGH | PRIORITY_LOW

  const MAX_BODY_BYTES := 2560
  const MAX_EVENT_ID_BYTES := 40
  const HIGH_DEPTH := 3
  const LOW_DEPTH := 2
  const MAX_ATTEMPTS := 2
  const DNS_FAIL_MARKER := -1000
  const RESPONSE_TOO_LARGE_MARKER := -1001

  datatype NetworkRequest = NetworkRequest(kind: Kind, eventId: bytes, deviceSeq: nat, body: bytes)

  datatype ErrorCode =
    | NO_ERROR
    | WIFI_DOWN
    | DNS_FAIL
    | HTTP_TIMEOUT
    | TCP_CONNECT_FAIL
    | RESPONSE_TOO_LARGE
    | API_RATE_LIMITED
    | HTTP_5XX
    | HTTP_4XX
    | PROTOCOL_INVALID_RESPONSE

  datatype HttpOutcome = HttpOutcome(ok: bool, retryable: bool, error: ErrorCode)

  /** `R` is the response body: bytes on the wire, a typed message where the protocol is what matters. */
  datatype NetworkResult<+R> = NetworkResult(
    kind: Kind, eventId: bytes, deviceSeq: nat, outcome: HttpOutcome, attempts: nat, response: R)

  function TierOf(kind: Kind): (t: Tier) {
    match kind
    case BUSINESS_EVENT => PRIORITY_HIGH
    case STATE_FETCH => PRIORITY_HIGH
    case BOOTSTRAP => PRIORITY_HIGH
    case OFFLINE_REPLAY => PRIORITY_LOW
    case HEARTBEAT => PRIORITY_LOW
    case UI_BUNDLE_FETCH => PRIORITY_LOW
  }

  /** classify_http_result. */
  function Classify(status: int): (o: HttpOutcome) {
    if 200 <= status < 300 then HttpOutcome(true, false, NO_ERROR)
    else if status == RESPONSE_TOO_LARGE_MARKER then HttpOutcome(false, false, RESPONSE_TOO_LARGE)
    else if status == DNS_FAIL_MARKER then HttpOutcome(false, true, DNS_FAIL)
    else if status <= 0 then HttpOutcome(false, true, if status == -11 || status == 0 then HTTP_TIMEOUT else TCP_CONNECT_FAIL)
    else if status == 429 then HttpOutcome(false, true, API_RATE_LIMITED)
    else if 500 <= status < 600 then HttpOutcome(false, true, HTTP_5XX)
    else if 400 <= status < 500 then HttpOutcome(false, false, HTTP_4XX)
    else HttpOutcome(false, false, PROTOCOL_INVALID_RESPONSE)
  }

  /** fill_body: what fits the queue slot. */
  function FillBody(body: bytes): (filled: bytes) {
    body[..Min(|body|, MAX_BODY_BYTES - 1)]
  }

  /** strncpy: the text ends at its first zero byte. */
  function CopyText(text: bytes, limit: nat): (copy: bytes) {
    if text == [] || limit == 0 || text[0] == '\0' then [] else [text[0]] + CopyText(text[1..], limit - 1)
  }

  lemma {:induction false} CopyExactly(text: bytes, limit: nat)
    ensures var copy := CopyText(text, limit);
            && copy <= text && |copy| <= limit && '\0' !in copy
            && (|copy| < |text| && |copy| < limit ==> text[|copy|] == '\0')
    decreases limit
  {
    if text != [] && limit > 0 && text[0] != '\0' {
      CopyExactly(text[1..], limit - 1);
      var rest := CopyText(text[1..], limit - 1);
      assert text == [text[0]] + text[1..] && text[1..][..|rest|] == rest;
      assert |rest| < |text[1..]| ==> text[|rest| + 1] == text[1..][|rest|];
    }
  }

  function EventRequest(kind: Kind, eventId: bytes, deviceSeq: nat, payload: bytes): (r: NetworkRequest) {
    NetworkRequest(kind, CopyText(eventId, MAX_EVENT_ID_BYTES - 1), deviceSeq, FillBody(payload))
  }

  /** An id without zero bytes and a body are taken whole when they fit. */
  lemma WholeSlot(kind: Kind, eventId: bytes, deviceSeq: nat, payload: bytes)
    requires '\0' !in eventId && |eventId| < MAX_EVENT_ID_BYTES && |payload| < MAX_BODY_BYTES
    ensures EventRequest(kind, eventId, deviceSeq, payload) == NetworkRequest(kind, eventId, deviceSeq, payload)
  {
    CopyExactly(eventId, MAX_EVENT_ID_BYTES - 1);
    hide CopyText;
    assert payload[..|payload|] == payload;
  }

  /** A slot holds 39 bytes of the id, up to its first zero byte, and 2559 of the body; what is longer is cut there. */
  lemma SlotExactly(kind: Kind, eventId: bytes, deviceSeq: nat, payload: bytes)
    ensures var r := EventRequest(kind, eventId, deviceSeq, payload);
            && r.kind == kind && r.deviceSeq == deviceSeq
            && r.eventId <= eventId && |r.eventId| <= 39 && '\0' !in r.eventId
            && (|r.eventId| < |eventId| && |r.eventId| < 39 ==> eventId[|r.eventId|] == '\0')
            && r.body <= payload && (|payload| <= 2559 ==> r.body == payload) && (|payload| > 2559 ==> |r.body| == 2559)
  {
    CopyExactly(eventId, 39);
    hide CopyText;
    assert payload[..|payload|] == payload;
  }

  // --- The worker as a state machine ---

  /** Where the worker task stands: about to look at the HIGH queue, waiting at the LOW one, executing, or about to deposit. */
  datatype Phase<+R> = CHECK_HIGH | WAIT_LOW | RUNNING(request: NetworkRequest) | DEPOSITING(result: NetworkResult<R>)

  datatype Worker<+R> = Worker(high: seq<NetworkRequest>, low: seq<NetworkRequest>, phase: Phase<R>, slot: Option<NetworkResult<R>>)

  datatype Step<+R> =
    | ENQUEUE(request: NetworkRequest)
    | POLL
    | RECEIVE_HIGH
    | RECEIVE_LOW
    | COMPLETE(result: NetworkResult<R>)
    | DEPOSIT

  predicate Answers<R>(r: NetworkRequest, res: NetworkResult<R>) {
    res.kind == r.kind && res.eventId == r.eventId && res.deviceSeq == r.deviceSeq
  }

  ghost predicate Enabled<R>(w: Worker<R>, s: Step<R>) {
    match s
    case ENQUEUE(_) => true
    case POLL => true
    case RECEIVE_HIGH => w.phase == CHECK_HIGH
    case RECEIVE_LOW => w.phase == WAIT_LOW
    case COMPLETE(res) => w.phase.RUNNING? && Answers(w.phase.request, res)
    case DEPOSIT => w.phase.DEPOSITING?
  }

  function Queue<R>(w: Worker<R>, t: Tier): (q: seq<NetworkRequest>) {
    if t == PRIORITY_HIGH then w.high else w.low
  }

  function Depth(t: Tier): (n: nat) {
    if t == PRIORITY_HIGH then HIGH_DEPTH else LOW_DEPTH
  }

  predicate Room<R>(w: Worker<R>, kind: Kind) {
    |Queue(w, TierOf(kind))| < Depth(TierOf(kind))
  }

  function After<R>(w: Worker<R>, s: Step<R>): (w': Worker<R>)
    requires Enabled(w, s)
  {
    match s
    case ENQUEUE(r) =>
      if !Room(w, r.kind) then w
      else if TierOf(r.kind) == PRIORITY_HIGH then w.(high := w.high + [r]) else w.(low := w.low + [r])
    case POLL => w.(slot := None)
    case RECEIVE_HIGH => if w.high == [] then w.(phase := WAIT_LOW) else w.(high := w.high[1..], phase := RUNNING(w.high[0]))
    case RECEIVE_LOW => if w.low == [] then w.(phase := CHECK_HIGH) else w.(low := w.low[1..], phase := RUNNING(w.low[0]))
    case COMPLETE(res) => w.(phase := DEPOSITING(res))
    case DEPOSIT => w.(slot := Some(w.phase.result), phase := CHECK_HIGH)
  }

  class NetworkWorker<R> {
    var high: seq<NetworkRequest>
    var low: seq<NetworkRequest>
    var phase: Phase<R>
    var slot: Option<NetworkResult<R>>

    constructor ()
      ensures State() == Worker([], [], CHECK_HIGH, None)
    {
      high, low, phase, slot := [], [], CHECK_HIGH, None;
    }

    ghost function State(): (w: Worker<R>)
      reads this
    {
      Worker(high, low, phase, slot)
    }

    /** enqueue: never blocks; false when the queue is full. */
    method Enqueue(r: NetworkRequest) returns (ok: bool)
      modifies this`high, this`low
      ensures ok == Room(old(State()), r.kind) && State() == After(old(State()), ENQUEUE(r))
      ensures if r.kind == BUSINESS_EVENT || r.kind == STATE_FETCH || r.kind == BOOTSTRAP then
                (ok <==> |old(high)| < 3) && high == (if ok then old(high) + [r] else old(high)) && low == old(low)
              else
                (ok <==> |old(low)| < 2) && low == (if ok then old(low) + [r] else old(low)) && high == old(high)
    {
      if TierOf(r.kind) == PRIORITY_HIGH {
        ok := |high| < HIGH_DEPTH;
        high := if ok then high + [r] else high;
      } else {
        ok := |low| < LOW_DEPTH;
        low := if ok then low + [r] else low;
      }
    }

    /** poll: the main loop takes the result, if there is one. */
    method Poll() returns (out: Option<NetworkResult<R>>)
      modifies this`slot
      ensures out == old(slot) && State() == After(old(State()), POLL)
    {
      out := slot;
      slot := None;
    }

    /** One queue operation of the worker loop. */
    method TaskReceive()
      requires phase == CHECK_HIGH || phase == WAIT_LOW
      modifies this`high, this`low, this`phase
      ensures State() == After(old(State()), if old(phase) == CHECK_HIGH then RECEIVE_HIGH else RECEIVE_LOW)
    {
      if phase == CHECK_HIGH {
        if high != [] {
          phase, high := RUNNING(high[0]), high[1..];
        } else {
          phase := WAIT_LOW;
        }
      } else if low != [] {
        phase, low := RUNNING(low[0]), low[1..];
      } else {
        phase := CHECK_HIGH;
      }
    }

    /** The rest of a round: execute the request, then deposit its result. */
    method TaskExecute(http: HttpClient<R>, wifiUp: bool, empty: R)
      requires phase.RUNNING?
      modifies this`phase, this`slot, http
      ensures var r, n := old(phase).request, AttemptsFor(old(phase).request.kind, wifiUp, http.answers(old(http.made)).status);
              && slot.Some? && Executed(r, n, http.answers, old(http.made), empty, slot.value)
              && http.made == old(http.made) + n && http.posted == old(http.posted) + Copies(r, n)
      ensures Enabled(old(State()), COMPLETE(slot.value))
      ensures State() == After(After(old(State()), COMPLETE(slot.value)), DEPOSIT)
    {
      var result := Execute(http, phase.request, wifiUp, empty);
      phase := DEPOSITING(result);
      slot, phase := Some(result), CHECK_HIGH;
    }
  }

  // --- Executing one request ---

  predicate Retried(kind: Kind) {
    kind == BUSINESS_EVENT || kind == OFFLINE_REPLAY
  }

  /** A failure that may not happen again: no connection, no answer, 429 or a status of the 5xx range. */
  predicate Transient(status: int) {
    (status <= 0 && status != -1001) || status == 429 || 500 <= status <= 599
  }

  /** What is made of a status. */
  predicate Tells(status: int, o: HttpOutcome) {
    && (o.ok <==> 200 <= status <= 299)
    && (o.retryable <==> Transient(status))
    && (o.error == NO_ERROR <==> o.ok)
    && (o.error == DNS_FAIL <==> status == -1000)
    && (o.error == RESPONSE_TOO_LARGE <==> status == -1001)
    && (o.error == HTTP_TIMEOUT <==> status == -11 || status == 0)
    && (o.error == TCP_CONNECT_FAIL <==> status < 0 && status !in {-11, -1000, -1001})
    && (o.error == API_RATE_LIMITED <==> status == 429)
    && (o.error == HTTP_5XX <==> 500 <= status <= 599)
    && (o.error == HTTP_4XX <==> 400 <= status <= 499 && status != 429)
    && (o.error == PROTOCOL_INVALID_RESPONSE <==> 1 <= status <= 199 || 300 <= status <= 399 || status >= 600)
  }

  /** classify_http_result makes that of a status, and nothing else fits it. */
  lemma ClassifiedExactly(status: int, o: HttpOutcome)
    ensures o == Classify(status) <==> Tells(status, o)
  {
    var known := Classify(status);
    assert Tells(status, known);
    if Tells(status, o) {
      assert o.ok == known.ok && o.retryable == known.retryable;
      match known.error {
        case NO_ERROR =>
        case WIFI_DOWN =>
        case DNS_FAIL =>
        case HTTP_TIMEOUT =>
        case TCP_CONNECT_FAIL =>
        case RESPONSE_TOO_LARGE =>
        case API_RATE_LIMITED =>
        case HTTP_5XX =>
        case HTTP_4XX =>
        case PROTOCOL_INVALID_RESPONSE =>
      }
    }
  }

  /** What comes of one attempt: a status, and a body when the status is one of HTTP. */
  datatype Attempt<+R> = Attempt(status: int, body: R)

  /** The network as the worker sees it: `answers` is what it will make of the first attempt, the second and so on. */
  class HttpClient<R> {
    const answers: nat -> Attempt<R>
    var made: nat
    ghost var posted: seq<NetworkRequest>

    constructor (answers: nat -> Attempt<R>)
      ensures this.answers == answers && made == 0 && posted == []
    {
      this.answers := answers;
      made, posted := 0, [];
    }

    /** perform_http_attempt. The buffer keeps what was in it when no status of HTTP arrives. */
    method PerformHttpAttempt(r: NetworkRequest, previous: R) returns (status: int, body: R)
      modifies this
      ensures made == old(made) + 1 && posted == old(posted) + [r]
      ensures status == answers(old(made)).status && body == Buffered(answers(old(made)), previous)
    {
      var answer := answers(made);
      made, posted := made + 1, posted + [r];
      status := answer.status;
      body := if status > 0 then answer.body else previous;
    }
  }

  function Buffered<R>(a: Attempt<R>, previous: R): (body: R) {
    if a.status > 0 then a.body else previous
  }

  function Copies(r: NetworkRequest, n: nat): (rs: seq<NetworkRequest>) {
    if n == 0 then [] else Copies(r, n - 1) + [r]
  }

  /** How often a request is sent: not at all without Wi-Fi; an event a second time if and only if the first attempt failed
    * in a way worth repeating; anything else once. */
  function AttemptsFor(kind: Kind, wifiUp: bool, first: int): (n: nat) {
    if !wifiUp then 0 else if (kind == BUSINESS_EVENT || kind == OFFLINE_REPLAY) && Transient(first) then 2 else 1
  }

  /** What the result of a request says after `n` attempts, the first of them the one numbered `at`. */
  ghost predicate Executed<R>(r: NetworkRequest, n: nat, answers: nat -> Attempt<R>, at: nat, empty: R, res: NetworkResult<R>) {
    && Answers(r, res) && res.attempts == n
    && match n
       case 0 => res.outcome == HttpOutcome(false, true, WIFI_DOWN) && res.response == empty
       case 1 => Tells(answers(at).status, res.outcome) && res.response == Buffered(answers(at), empty)
       case _ =>
         && Tells(answers(at + 1).status, res.outcome)
         && res.response == Buffered(answers(at + 1), Buffered(answers(at), empty))
  }

  /** execute. `empty` is the body of a result that no answer came for. */
  method Execute<R>(http: HttpClient<R>, r: NetworkRequest, wifiUp: bool, empty: R) returns (res: NetworkResult<R>)
    modifies http
    ensures var n := AttemptsFor(r.kind, wifiUp, http.answers(old(http.made)).status);
            && Executed(r, n, http.answers, old(http.made), empty, res)
            && http.made == old(http.made) + n && http.posted == old(http.posted) + Copies(r, n)
  {
    hide Classify;
    if !wifiUp {
      return NetworkResult(r.kind, r.eventId, r.deviceSeq, HttpOutcome(false, true, WIFI_DOWN), 0, empty);
    }
    if !Retried(r.kind) {
      var status, body := http.PerformHttpAttempt(r, empty);
      ClassifiedExactly(status, Classify(status));
      return NetworkResult(r.kind, r.eventId, r.deviceSeq, Classify(status), 1, body);
    }
    var attempt, lastBody := 1, empty;
    ghost var at := http.made;
    while true
      invariant 1 <= attempt <= MAX_ATTEMPTS
      invariant http.made == at + attempt - 1 && http.posted == old(http.posted) + Copies(r, attempt - 1)
      invariant attempt > 1 ==> Transient(http.answers(at).status)
      invariant lastBody == if attempt == 1 then empty else Buffered(http.answers(at), empty)
      decreases MAX_ATTEMPTS - attempt
    {
      var status, body := http.PerformHttpAttempt(r, lastBody);
      lastBody := body;
      var outcome := Classify(status);
      ClassifiedExactly(status, outcome);
      if outcome.ok || !outcome.retryable || attempt >= MAX_ATTEMPTS {
        return NetworkResult(r.kind, r.eventId, r.deviceSeq, outcome, attempt, lastBody);
      }
      attempt := attempt + 1;
    }
  }

  // --- Runs: every interleaving of the worker task with the main loop ---

  ghost predicate Runs<R>(w: Worker<R>, run: seq<Step<R>>)
    decreases |run|
  {
    run == [] || (Runs(w, run[..|run| - 1]) && Enabled(End(w, run[..|run| - 1]), run[|run| - 1]))
  }

  /** The state a run ends in. */
  ghost function End<R>(w: Worker<R>, run: seq<Step<R>>): (w': Worker<R>)
    decreases |run|
  {
    if run == [] then w
    else
      var front := End(w, run[..|run| - 1]);
      if Enabled(front, run[|run| - 1]) then After(front, run[|run| - 1]) else front
  }

  /** What one step adds to a history. */
  ghost function Accepted<R>(w: Worker<R>, s: Step<R>, t: Tier): (rs: seq<NetworkRequest>) {
    if s.ENQUEUE? && TierOf(s.request.kind) == t && Room(w, s.request.kind) then [s.request] else []
  }

  ghost function Started<R>(w: Worker<R>, s: Step<R>, t: Tier): (rs: seq<NetworkRequest>) {
    if s == (if t == PRIORITY_HIGH then RECEIVE_HIGH else RECEIVE_LOW) && Queue(w, t) != [] then [Queue(w, t)[0]] else []
  }

  ghost function Deposited<R>(w: Worker<R>, s: Step<R>): (rs: seq<NetworkResult<R>>) {
    if s.DEPOSIT? && w.phase.DEPOSITING? then [w.phase.result] else []
  }

  ghost function Delivered<R>(w: Worker<R>, s: Step<R>): (rs: seq<NetworkResult<R>>) {
    if s.POLL? then Pending(w) else []
  }

  function Pending<R>(w: Worker<R>): (rs: seq<NetworkResult<R>>) {
    if w.slot.Some? then [w.slot.value] else []
  }

  ghost function AllAccepted<R>(w: Worker<R>, run: seq<Step<R>>, t: Tier): (rs: seq<NetworkRequest>)
    decreases |run|
  {
    if run == [] then [] else AllAccepted(w, run[..|run| - 1], t) + Accepted(End(w, run[..|run| - 1]), run[|run| - 1], t)
  }

  ghost function AllStarted<R>(w: Worker<R>, run: seq<Step<R>>, t: Tier): (rs: seq<NetworkRequest>)
    decreases |run|
  {
    if run == [] then [] else AllStarted(w, run[..|run| - 1], t) + Started(End(w, run[..|run| - 1]), run[|run| - 1], t)
  }

  ghost function AllDeposited<R>(w: Worker<R>, run: seq<Step<R>>): (rs: seq<NetworkResult<R>>)
    decreases |run|
  {
    if run == [] then [] else AllDeposited(w, run[..|run| - 1]) + Deposited(End(w, run[..|run| - 1]), run[|run| - 1])
  }

  ghost function AllDelivered<R>(w: Worker<R>, run: seq<Step<R>>): (rs: seq<NetworkResult<R>>)
    decreases |run|
  {
    if run == [] then [] else AllDelivered(w, run[..|run| - 1]) + Delivered(End(w, run[..|run| - 1]), run[|run| - 1])
  }

  function Completions<R>(run: seq<Step<R>>): (n: nat) {
    if run == [] then 0 else Completions(run[..|run| - 1]) + (if run[|run| - 1].COMPLETE? then 1 else 0)
  }

  /** First in, first out: of each tier, what was accepted is what was started, in that order, and then the queue. */
  lemma {:induction false} FifoPerTier<R>(w: Worker<R>, run: seq<Step<R>>, t: Tier)
    requires Runs(w, run)
    ensures Queue(w, t) + AllAccepted(w, run, t) == AllStarted(w, run, t) + Queue(End(w, run), t)
    decreases |run|
  {
    if run != [] {
      var front, s := run[..|run| - 1], run[|run| - 1];
      FifoPerTier(w, front, t);
      var mid := End(w, front);
      FifoStep(mid, s, t);
      Exchange(Queue(w, t), AllAccepted(w, front, t), AllStarted(w, front, t), Queue(mid, t), Accepted(mid, s, t),
               Started(mid, s, t), Queue(After(mid, s), t));
    }
  }

  lemma Exchange<T>(q: seq<T>, accepted: seq<T>, started: seq<T>, mid: seq<T>, more: seq<T>, begun: seq<T>, q': seq<T>)
    requires q + accepted == started + mid && mid + more == begun + q'
    ensures q + (accepted + more) == (started + begun) + q'
  {
    assert q + (accepted + more) == (q + accepted) + more == started + (mid + more);
  }

  lemma FifoStep<R>(w: Worker<R>, s: Step<R>, t: Tier)
    requires Enabled(w, s)
    ensures Queue(w, t) + Accepted(w, s, t) == Started(w, s, t) + Queue(After(w, s), t)
  {
  }

  function Busy<R>(w: Worker<R>): (n: nat) {
    if w.phase.RUNNING? then 1 else 0
  }

  /** Every completion was started, or was running at the outset. */
  lemma {:induction false} CompletionsAreStarts<R>(w: Worker<R>, run: seq<Step<R>>)
    requires Runs(w, run)
    ensures Completions(run) + Busy(End(w, run)) ==
            Busy(w) + |AllStarted(w, run, PRIORITY_HIGH)| + |AllStarted(w, run, PRIORITY_LOW)|
    decreases |run|
  {
    if run != [] {
      CompletionsAreStarts(w, run[..|run| - 1]);
    }
  }

  /** While a HIGH request waits, a LOW one starts only out of an idle wait that had already begun. */
  lemma {:induction false} LowStartsWhileHighWaits<R>(w: Worker<R>, run: seq<Step<R>>)
    requires Runs(w, run) && |AllStarted(w, run, PRIORITY_HIGH)| < |w.high|
    ensures |AllStarted(w, run, PRIORITY_LOW)| + (if End(w, run).phase == WAIT_LOW then 1 else 0) <=
            (if w.phase == WAIT_LOW then 1 else 0)
    decreases |run|
  {
    if run != [] {
      var front := run[..|run| - 1];
      LowStartsWhileHighWaits(w, front);
      FifoPerTier(w, front, PRIORITY_HIGH);
    }
  }

  /** From the moment a HIGH request is queued until it starts, at most one LOW request starts and at most three
    * executions complete, whatever the main loop does. */
  lemma HighRequestWaitsBriefly<R>(w: Worker<R>, r: NetworkRequest, run: seq<Step<R>>)
    requires |w.high| < HIGH_DEPTH && TierOf(r.kind) == PRIORITY_HIGH
    requires var queued := After(w, ENQUEUE(r));
             Runs(queued, run) && |AllStarted(queued, run, PRIORITY_HIGH)| <= |w.high|
    ensures var queued := After(w, ENQUEUE(r));
            && |AllStarted(queued, run, PRIORITY_LOW)| <= 1
            && Completions(run) <= |w.high| + 1 <= HIGH_DEPTH
  {
    var queued := After(w, ENQUEUE(r));
    LowStartsWhileHighWaits(queued, run);
    CompletionsAreStarts(queued, run);
  }

  /** And the next request to start after those ahead of it is this one. */
  lemma HighRequestStartsInTurn<R>(w: Worker<R>, r: NetworkRequest, run: seq<Step<R>>)
    requires |w.high| < HIGH_DEPTH && TierOf(r.kind) == PRIORITY_HIGH
    requires var queued := After(w, ENQUEUE(r));
             Runs(queued, run) && |AllStarted(queued, run, PRIORITY_HIGH)| > |w.high|
    ensures AllStarted(After(w, ENQUEUE(r)), run, PRIORITY_HIGH)[..|w.high| + 1] == w.high + [r]
  {
    var queued := After(w, ENQUEUE(r));
    FifoPerTier(queued, run, PRIORITY_HIGH);
    var started, n := AllStarted(queued, run, PRIORITY_HIGH), |w.high| + 1;
    assert (started + Queue(End(queued, run), PRIORITY_HIGH))[..n] == started[..n];
    assert (Queue(queued, PRIORITY_HIGH) + AllAccepted(queued, run, PRIORITY_HIGH))[..n] == w.high + [r];
  }

  /** `a` is what is left of `b` after dropping some elements. */
  ghost predicate Thinned<T>(a: seq<T>, b: seq<T>)
    decreases |b|
  {
    a == [] || (b != [] && (|| (a[|a| - 1] == b[|b| - 1] && Thinned(a[..|a| - 1], b[..|b| - 1]))
                            || Thinned(a, b[..|b| - 1])))
  }

  lemma {:induction false} ThinnedAppend<T>(a: seq<T>, b: seq<T>, x: T)
    requires Thinned(a, b)
    ensures Thinned(a + [x], b + [x]) && Thinned(a, b + [x])
  {
    assert (a + [x])[..|a|] == a && (b + [x])[..|b|] == b;
  }

  /** Results are delivered in the order they were deposited, none twice; some may have been overwritten. */
  lemma {:induction false} DeliveredInOrder<R>(w: Worker<R>, run: seq<Step<R>>)
    requires Runs(w, run)
    ensures Thinned(AllDelivered(w, run), Pending(w) + AllDeposited(w, run))
    ensures End(w, run).slot.Some? ==>
              Thinned(AllDelivered(w, run) + Pending(End(w, run)), Pending(w) + AllDeposited(w, run))
    decreases |run|
  {
    hide Thinned;
    hide After;
    hide Enabled;
    if run == [] {
      DeliveredStart(w);
      assert Pending(w) + AllDeposited(w, run) == Pending(w) && AllDelivered(w, run) + Pending(w) == Pending(w);
    } else {
      var front, s := run[..|run| - 1], run[|run| - 1];
      DeliveredInOrder(w, front);
      var mid := End(w, front);
      var sent, done := Pending(w) + AllDeposited(w, front), AllDelivered(w, front);
      DeliveredStep(mid, s, done, sent);
      assert Pending(w) + AllDeposited(w, run) == sent + Deposited(mid, s);
      assert AllDelivered(w, run) == done + Delivered(mid, s);
    }
  }

  lemma DeliveredStart<R>(w: Worker<R>)
    ensures Thinned([], Pending(w)) && Thinned(Pending(w), Pending(w))
  {
    if w.slot.Some? {
      assert Pending(w)[..0] == [];
    }
  }

  lemma DeliveredStep<R>(w: Worker<R>, s: Step<R>, done: seq<NetworkResult<R>>, sent: seq<NetworkResult<R>>)
    requires Enabled(w, s) && Thinned(done, sent) && (w.slot.Some? ==> Thinned(done + Pending(w), sent))
    ensures var done', sent' := done + Delivered(w, s), sent + Deposited(w, s);
            Thinned(done', sent') && (After(w, s).slot.Some? ==> Thinned(done' + Pending(After(w, s)), sent'))
  {
    hide Thinned;
    assert sent + [] == sent && done + [] == done;
    if s.DEPOSIT? {
      ThinnedAppend(done, sent, w.phase.result);
    }
  }

  ghost predicate PolledBetweenDeposits<R>(w: Worker<R>, run: seq<Step<R>>) {
    forall n | 0 <= n < |run| && run[n].DEPOSIT? :: End(w, run[..n]).slot == None
  }

  /** If the main loop polls between deposits, every result is delivered exactly once, in order. */
  lemma {:induction false} DeliveredExactlyOnce<R>(w: Worker<R>, run: seq<Step<R>>)
    requires Runs(w, run) && PolledBetweenDeposits(w, run)
    ensures AllDelivered(w, run) + Pending(End(w, run)) == Pending(w) + AllDeposited(w, run)
    decreases |run|
  {
    if run != [] {
      var front, s := run[..|run| - 1], run[|run| - 1];
      assert PolledBetweenDeposits(w, front) by {
        assert forall n | 0 <= n < |front| :: front[..n] == run[..n] && front[n] == run[n];
      }
      DeliveredExactlyOnce(w, front);
      var mid, done, sent := End(w, front), AllDelivered(w, front), AllDeposited(w, front);
      assert s.DEPOSIT? ==> mid.slot == None;
      Exchange(Pending(w), sent, done, Pending(mid), Deposited(mid, s), Delivered(mid, s), Pending(After(mid, s)));
    }
  }
}
