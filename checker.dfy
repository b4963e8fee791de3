/**
 * The aws-checker service loop: a checker that probes S3, DynamoDB and SQS once per
 * round and records one labelled latency observation per call in a Prometheus
 * histogram vector, and the `Run` loop that requests a round every second through a
 * one-slot channel and shuts the metrics server down on a signal.
 *
 * AWS calls are opaque success/failure outcomes; latencies, goroutines, channels and
 * the HTTP server are abstracted to an event trace.
 */
module Checker {
  import opened Wrappers
  import GoText

  // ---------------------------------------------------------------------------
  // Labels of the request-duration histogram

  const SuccessStatus := "Success"
  const FailureStatus := "Failure"

  /** One label triple of the histogram vector; `operation` holds the "method" label. */
  datatype Labels = Labels(service: string, operation: string, status: string)

  /** The three requests a round sends, with the targets they name. */
  datatype Request =
    | GetObject(bucket: string, key: string)
    | Scan(tableName: string)
    | ReceiveMessage(queueUrl: string)

  function ServiceOf(q: Request): string
  {
    match q
    case GetObject(_, _) => "S3"
    case Scan(_) => "DynamoDB"
    case ReceiveMessage(_) => "SQS"
  }

  function MethodOf(q: Request): string
  {
    match q
    case GetObject(_, _) => "GetObject"
    case Scan(_) => "Scan"
    case ReceiveMessage(_) => "ReceiveMessage"
  }

  /** The status label: "Failure" exactly when the call returned an error. */
  function StatusLabel(failed: bool): (s: string)
    ensures s == FailureStatus <==> failed
    ensures s == SuccessStatus <==> !failed
  {
    if failed then FailureStatus else SuccessStatus
  }

  /** The observation recorded for a call of `q` that failed or not. */
  function ObservationOf(q: Request, failed: bool): Labels
  {
    Labels(ServiceOf(q), MethodOf(q), StatusLabel(failed))
  }

  /** The six label triples the checker can ever record. */
  predicate Allowed(l: Labels)
  {
    (l.service, l.operation) in {("S3", "GetObject"), ("DynamoDB", "Scan"), ("SQS", "ReceiveMessage")}
    && (l.status == SuccessStatus || l.status == FailureStatus)
  }

  /** The observations one round records, one per request in order. */
  function RoundObservations(reqs: seq<Request>, failed: Request -> bool): (r: seq<Labels>)
    ensures |r| == |reqs|
    ensures forall i :: 0 <= i < |r| ==> Allowed(r[i])
    ensures forall i :: 0 <= i < |r| ==>
      r[i].service == ServiceOf(reqs[i]) && r[i].operation == MethodOf(reqs[i])
    ensures forall i :: 0 <= i < |r| ==> (r[i].status == FailureStatus <==> failed(reqs[i]))
  {
    seq(|reqs|, i requires 0 <= i < |reqs| => ObservationOf(reqs[i], failed(reqs[i])))
  }

  /** How many times `l` occurs in `obs`. */
  function Occurrences(obs: seq<Labels>, l: Labels): nat
  {
    if obs == [] then 0
    else Occurrences(obs[..|obs| - 1], l) + (if obs[|obs| - 1] == l then 1 else 0)
  }

  lemma {:induction false} OccurrencesAppend(a: seq<Labels>, b: seq<Labels>, l: Labels)
    ensures Occurrences(a + b, l) == Occurrences(a, l) + Occurrences(b, l)
    decreases |b|
  {
    if b == [] {
      assert a + b == a;
    } else {
      assert (a + b)[..|a + b| - 1] == a + b[..|b| - 1];
      OccurrencesAppend(a, b[..|b| - 1], l);
    }
  }

  /**
   * The histogram vector, reduced to an observation count per label triple. The ghost
   * trace of observations records their order.
   */
  class Histogram {
    var counts: map<Labels, nat>
    ghost var observations: seq<Labels>

    function Count(l: Labels): nat
      reads this
    {
      if l in counts then counts[l] else 0
    }

    ghost predicate Valid()
      reads this
    {
      (forall i :: 0 <= i < |observations| ==> Allowed(observations[i]))
      && (forall l :: Count(l) == Occurrences(observations, l))
    }

    constructor ()
      ensures Valid()
      ensures counts == map[] && observations == []
    {
      counts := map[];
      observations := [];
    }

    /** `WithLabelValues(l...).Observe(...)`: one more observation under `l`. */
    method Observe(l: Labels)
      requires Valid() && Allowed(l)
      modifies this
      ensures Valid()
      ensures observations == old(observations) + [l]
      ensures counts == old(counts)[l := old(Count(l)) + 1]
    {
      ghost var before := observations;
      counts := counts[l := Count(l) + 1];
      observations := observations + [l];
      assert observations[..|observations| - 1] == before;
    }
  }

  // ---------------------------------------------------------------------------
  // The checker and its construction

  /**
   * What an option may set on a checker: a target or an S3 client option (an opaque
   * name standing for a `func(*s3.Options)`).
   */
  datatype CheckerOption =
    | WithS3Bucket(bucket: string)
    | WithS3Key(key: string)
    | WithDynamodbTable(table: string)
    | WithSqsQueueUrl(queueUrl: string)
    | WithS3ClientOption(s3Option: string)

  /** An AWS client, by service and the options it was built with. */
  datatype Client = Client(service: string, options: seq<string>)

  /** The option-settable fields of a checker. */
  datatype Fields = Fields(s3Bucket: string, s3Key: string, dynamodbTable: string,
                           sqsQueueUrl: string, s3Opts: seq<string>)

  const ZeroFields := Fields("", "", "", "", [])

  function ApplyOption(f: Fields, o: CheckerOption): Fields
  {
    match o
    case WithS3Bucket(b) => f.(s3Bucket := b)
    case WithS3Key(k) => f.(s3Key := k)
    case WithDynamodbTable(t) => f.(dynamodbTable := t)
    case WithSqsQueueUrl(u) => f.(sqsQueueUrl := u)
    case WithS3ClientOption(s) => f.(s3Opts := f.s3Opts + [s])
  }

  /** The fields of a zero checker after applying `opts` in order. */
  function ApplyOptions(opts: seq<CheckerOption>): Fields
  {
    if opts == [] then ZeroFields
    else ApplyOption(ApplyOptions(opts[..|opts| - 1]), opts[|opts| - 1])
  }

  /** The S3 client options among `opts`, in order. */
  function S3ClientOptions(opts: seq<CheckerOption>): seq<string>
  {
    if opts == [] then []
    else if opts[0].WithS3ClientOption? then [opts[0].s3Option] + S3ClientOptions(opts[1..])
    else S3ClientOptions(opts[1..])
  }

  lemma {:induction false} S3ClientOptionsSnoc(opts: seq<CheckerOption>, o: CheckerOption)
    ensures S3ClientOptions(opts + [o])
         == S3ClientOptions(opts) + (if o.WithS3ClientOption? then [o.s3Option] else [])
  {
    if opts == [] {
      assert [] + [o] == [o];
      assert [o][1..] == [];
    } else {
      assert (opts + [o])[1..] == opts[1..] + [o];
      S3ClientOptionsSnoc(opts[1..], o);
    }
  }

  /** Applying options collects every S3 client option, in the order given. */
  lemma {:induction false} ApplyOptionsCollectsS3Options(opts: seq<CheckerOption>)
    ensures ApplyOptions(opts).s3Opts == S3ClientOptions(opts)
  {
    if opts != [] {
      var init := opts[..|opts| - 1];
      assert opts == init + [opts[|opts| - 1]];
      ApplyOptionsCollectsS3Options(init);
      S3ClientOptionsSnoc(init, opts[|opts| - 1]);
    }
  }

  /** `os.Getenv`: the value of `key`, or "" when it is unset. */
  function Getenv(env: map<string, string>, key: string): string
  {
    if key in env then env[key] else ""
  }

  /** The requests a checker built in environment `env` sends. */
  function EnvRequests(env: map<string, string>): seq<Request>
  {
    [GetObject(Getenv(env, "S3_BUCKET"), Getenv(env, "S3_KEY")),
     Scan(Getenv(env, "DYNAMODB_TABLE")),
     ReceiveMessage(Getenv(env, "SQS_QUEUE_URL"))]
  }

  class Checker {
    var s3Client: Option<Client>
    var dynamoClient: Option<Client>
    var sqsClient: Option<Client>
    var s3Bucket: string
    var s3Key: string
    var dynamodbTable: string
    var sqsQueueUrl: string
    var s3Opts: seq<string>

    /** `&checker{}`: no clients, empty targets, no S3 options. */
    constructor ()
      ensures Snapshot() == ZeroFields
      ensures s3Client == None && dynamoClient == None && sqsClient == None
    {
      s3Client, dynamoClient, sqsClient := None, None, None;
      s3Bucket, s3Key, dynamodbTable, sqsQueueUrl := "", "", "", "";
      s3Opts := [];
    }

    function Snapshot(): Fields
      reads this
    {
      Fields(s3Bucket, s3Key, dynamodbTable, sqsQueueUrl, s3Opts)
    }

    /** The requests one round sends, from the current targets. */
    function Requests(): seq<Request>
      reads this
    {
      [GetObject(s3Bucket, s3Key), Scan(dynamodbTable), ReceiveMessage(sqsQueueUrl)]
    }

    /** `opt(c)`: one option's update of the checker's fields. */
    method Apply(o: CheckerOption)
      modifies this
      ensures Snapshot() == ApplyOption(old(Snapshot()), o)
      ensures s3Client == old(s3Client) && dynamoClient == old(dynamoClient)
      ensures sqsClient == old(sqsClient)
    {
      match o
      case WithS3Bucket(b) => s3Bucket := b;
      case WithS3Key(k) => s3Key := k;
      case WithDynamodbTable(t) => dynamodbTable := t;
      case WithSqsQueueUrl(u) => sqsQueueUrl := u;
      case WithS3ClientOption(s) => s3Opts := s3Opts + [s];
    }

    /**
     * `doCheck`: one round. Each of the three calls records exactly one observation,
     * in order S3, DynamoDB, SQS, whether or not an earlier call failed; `failed`
     * says which requests return an error in this round.
     */
    method DoCheck(h: Histogram, failed: Request -> bool)
      requires h.Valid()
      modifies h
      ensures h.Valid()
      ensures h.observations == old(h.observations) + RoundObservations(Requests(), failed)
      ensures forall l :: h.Count(l)
                == old(h.Count(l)) + Occurrences(RoundObservations(Requests(), failed), l)
    {
      var get := GetObject(s3Bucket, s3Key);
      ObserveCall(h, get, failed(get));
      var scan := Scan(dynamodbTable);
      ObserveCall(h, scan, failed(scan));
      var receive := ReceiveMessage(sqsQueueUrl);
      ObserveCall(h, receive, failed(receive));
      RoundOfThree(get, scan, receive, failed);
      HistogramCountsAfter(h, old(h.observations), RoundObservations(Requests(), failed));
    }
  }

  /**
   * One block of `doCheck`: records the call's service and method with status
   * "Failure" when it returned an error and "Success" otherwise.
   */
  method ObserveCall(h: Histogram, q: Request, failed: bool)
    requires h.Valid()
    modifies h
    ensures h.Valid()
    ensures h.observations == old(h.observations) + [ObservationOf(q, failed)]
  {
    if failed {
      h.Observe(Labels(ServiceOf(q), MethodOf(q), FailureStatus));
    } else {
      h.Observe(Labels(ServiceOf(q), MethodOf(q), SuccessStatus));
    }
  }

  /** A round of three requests records their three observations in order. */
  lemma RoundOfThree(a: Request, b: Request, c: Request, failed: Request -> bool)
    ensures RoundObservations([a, b, c], failed)
         == [ObservationOf(a, failed(a)), ObservationOf(b, failed(b)), ObservationOf(c, failed(c))]
  {
  }

  /** In a valid histogram, appending observations adds their occurrences to the counts. */
  lemma HistogramCountsAfter(h: Histogram, before: seq<Labels>, added: seq<Labels>)
    requires h.Valid() && h.observations == before + added
    ensures forall l :: h.Count(l) == Occurrences(before, l) + Occurrences(added, l)
  {
    forall l | true
      ensures h.Count(l) == Occurrences(before, l) + Occurrences(added, l)
    {
      OccurrencesAppend(before, added, l);
    }
  }

  /**
   * `newChecker`: applies every option to a zero checker first, then builds the three
   * clients (the S3 one with the collected S3 options) and finally reads the four
   * targets from the environment, so an option's target is always overwritten.
   */
  method NewChecker(opts: seq<CheckerOption>, env: map<string, string>) returns (c: Checker)
    ensures fresh(c)
    ensures c.s3Opts == S3ClientOptions(opts)
    ensures c.s3Client == Some(Client("S3", S3ClientOptions(opts)))
    ensures c.dynamoClient == Some(Client("DynamoDB", []))
    ensures c.sqsClient == Some(Client("SQS", []))
    ensures c.s3Bucket == Getenv(env, "S3_BUCKET") && c.s3Key == Getenv(env, "S3_KEY")
    ensures c.dynamodbTable == Getenv(env, "DYNAMODB_TABLE")
    ensures c.sqsQueueUrl == Getenv(env, "SQS_QUEUE_URL")
    ensures c.Requests() == EnvRequests(env)
  {
    c := new Checker();
    for i := 0 to |opts|
      invariant c.Snapshot() == ApplyOptions(opts[..i])
      invariant c.s3Client == None
    {
      assert opts[..i + 1][..i] == opts[..i];
      c.Apply(opts[i]);
    }
    assert opts[..|opts|] == opts;
    ApplyOptionsCollectsS3Options(opts);

    c.s3Client := Some(Client("S3", c.s3Opts));
    c.dynamoClient := Some(Client("DynamoDB", []));
    c.sqsClient := Some(Client("SQS", []));

    c.s3Bucket := Getenv(env, "S3_BUCKET");
    c.s3Key := Getenv(env, "S3_KEY");
    c.dynamodbTable := Getenv(env, "DYNAMODB_TABLE");
    c.sqsQueueUrl := Getenv(env, "SQS_QUEUE_URL");
  }

  // ---------------------------------------------------------------------------
  // The Run loop

  /**
   * What happens next in `Run`: the one-second timer fires (a tick), the worker
   * goroutine takes the pending check request, or a signal arrives.
   */
  datatype Event = Tick | Deliver | Signal

  /** The check-request channel (capacity one) and what has happened to the ticks. */
  datatype Schedule = Schedule(pending: bool, served: nat, dropped: nat)

  /**
   * One event: a tick sends without blocking, so it is dropped when a request is
   * already pending; the worker only takes a pending request.
   */
  function Step(s: Schedule, e: Event): Schedule
  {
    match e
    case Tick => if s.pending then s.(dropped := s.dropped + 1) else s.(pending := true)
    case Deliver => if s.pending then s.(pending := false, served := s.served + 1) else s
    case Signal => s
  }

  function Coalesce(events: seq<Event>): Schedule
  {
    if events == [] then Schedule(false, 0, 0)
    else Step(Coalesce(events[..|events| - 1]), events[|events| - 1])
  }

  function Ticks(events: seq<Event>): nat
  {
    if events == [] then 0
    else Ticks(events[..|events| - 1]) + (if events[|events| - 1] == Tick then 1 else 0)
  }

  function Delivers(events: seq<Event>): nat
  {
    if events == [] then 0
    else Delivers(events[..|events| - 1]) + (if events[|events| - 1] == Deliver then 1 else 0)
  }

  /**
   * Every tick is served, dropped or still pending, and the worker never runs more
   * rounds than it had chances to take a request.
   */
  lemma {:induction false} TicksAccounted(events: seq<Event>)
    ensures var s := Coalesce(events);
      Ticks(events) == s.served + s.dropped + (if s.pending then 1 else 0)
    ensures Coalesce(events).served <= Delivers(events)
  {
    if events != [] {
      TicksAccounted(events[..|events| - 1]);
    }
  }

  /** The events `Run` handles: those before the first signal. */
  function UntilSignal(events: seq<Event>): (r: seq<Event>)
    ensures |r| <= |events| && r == events[..|r|]
    ensures Signal !in r
    ensures |r| < |events| ==> events[|r|] == Signal
  {
    if events == [] || events[0] == Signal then []
    else [events[0]] + UntilSignal(events[1..])
  }

  lemma {:induction false} UntilSignalUnique(events: seq<Event>, i: nat)
    requires i <= |events| && Signal !in events[..i]
    requires i < |events| ==> events[i] == Signal
    ensures UntilSignal(events) == events[..i]
    ensures i < |events| <==> Signal in events
  {
    if i == |events| {
      assert events[..i] == events;
    }
    if i > 0 {
      assert events[0] == events[..i][0];
      assert events[1..][..i - 1] == events[..i][1..];
      UntilSignalUnique(events[1..], i - 1);
      assert events[..i] == [events[0]] + events[1..][..i - 1];
    }
  }

  /** The observations of `n` rounds, round `k` failing the requests `failed(k)` says. */
  function Rounds(reqs: seq<Request>, failed: nat -> Request -> bool, n: nat): seq<Labels>
  {
    if n == 0 then [] else Rounds(reqs, failed, n - 1) + RoundObservations(reqs, failed(n - 1))
  }

  lemma RoundsNext(reqs: seq<Request>, failed: nat -> Request -> bool, n: nat)
    ensures Rounds(reqs, failed, n + 1) == Rounds(reqs, failed, n) + RoundObservations(reqs, failed(n))
  {
  }

  /** One handled event adds the round it served, if any, to the observations. */
  lemma RoundsAfterStep(reqs: seq<Request>, failed: nat -> Request -> bool, n: nat, next: nat,
                        start: seq<Labels>, before: seq<Labels>, after: seq<Labels>)
    requires next == n || next == n + 1
    requires before == start + Rounds(reqs, failed, n)
    requires after == before + (if next == n then [] else RoundObservations(reqs, failed(n)))
    ensures after == start + Rounds(reqs, failed, next)
  {
    if next != n {
      RoundsNext(reqs, failed, n);
      GoText.ConcatAssoc(start, Rounds(reqs, failed, n), RoundObservations(reqs, failed(n)));
    } else {
      assert after == before + [];
    }
  }

  lemma {:induction false} RoundsLength(reqs: seq<Request>, failed: nat -> Request -> bool, n: nat)
    ensures |Rounds(reqs, failed, n)| == n * |reqs|
  {
    if n > 0 {
      RoundsLength(reqs, failed, n - 1);
    }
  }

  datatype RunError = ConfigLoadFailed(cause: string) | ShutdownFailed(cause: string)

  /** How `Run` ends: it returns (nil or an error), or it is still looping. */
  datatype RunOutcome = Returned(err: Option<RunError>) | StillRunning

  /** What `Run` returns on a signal, given the outcome of the server's shutdown. */
  function ShutdownOutcome(shutdownErr: Option<string>): (r: Option<RunError>)
    ensures r == None <==> shutdownErr == None
  {
    match shutdownErr
    case None => None
    case Some(e) => Some(ShutdownFailed(e))
  }

  /**
   * One timer or worker step of `Run`'s loop: a tick's non-blocking send, or the
   * worker taking the pending request and running a round of checks.
   */
  method HandleEvent(c: Checker, h: Histogram, e: Event, s: Schedule, failed: nat -> Request -> bool)
    returns (t: Schedule)
    requires e != Signal && h.Valid()
    modifies h
    ensures t == Step(s, e) && h.Valid()
    ensures h.observations == old(h.observations)
      + (if t.served == s.served then [] else RoundObservations(c.Requests(), failed(s.served)))
  {
    if e == Tick {
      if s.pending {
        t := s.(dropped := s.dropped + 1);
      } else {
        t := s.(pending := true);
      }
    } else if s.pending {
      c.DoCheck(h, failed(s.served));
      t := s.(pending := false, served := s.served + 1);
    } else {
      t := s;
    }
  }

  /**
   * `Run`: loads the SDK configuration (failing early on `configErr`), builds the
   * checker, and handles the events up to the first signal; on the signal it shuts
   * the server down and returns. Round `k` of the worker fails as `failed(k)` says.
   */
  method Run(opts: seq<CheckerOption>, env: map<string, string>, configErr: Option<string>,
             events: seq<Event>, failed: nat -> Request -> bool, shutdownErr: Option<string>,
             h: Histogram)
    returns (outcome: RunOutcome, schedule: Schedule)
    requires h.Valid()
    modifies h
    ensures h.Valid()
    ensures configErr.Some? ==>
      outcome == Returned(Some(ConfigLoadFailed(configErr.value)))
      && schedule == Schedule(false, 0, 0) && h.observations == old(h.observations)
    ensures configErr.None? ==>
      schedule == Coalesce(UntilSignal(events))
      && (outcome == if Signal in events then Returned(ShutdownOutcome(shutdownErr)) else StillRunning)
      && h.observations == old(h.observations) + Rounds(EnvRequests(env), failed, schedule.served)
  {
    if configErr.Some? {
      return Returned(Some(ConfigLoadFailed(configErr.value))), Schedule(false, 0, 0);
    }
    var c := NewChecker(opts, env);
    var handled;
    handled, schedule := ServeUntilSignal(c, h, events, failed);
    UntilSignalUnique(events, handled);
    if handled < |events| {
      outcome := Returned(ShutdownOutcome(shutdownErr));
    } else {
      outcome := StillRunning;
    }
  }

  /**
   * The body of `Run`'s loop over the events before the first signal: ticks fill the
   * one-slot channel, the worker empties it and runs a round. Returns how many events
   * were handled and the final channel state.
   */
  method ServeUntilSignal(c: Checker, h: Histogram, events: seq<Event>, failed: nat -> Request -> bool)
    returns (handled: nat, state: Schedule)
    requires h.Valid()
    modifies h
    ensures h.Valid()
    ensures handled <= |events| && events[..handled] == UntilSignal(events)
    ensures state == Coalesce(UntilSignal(events))
    ensures h.observations == old(h.observations) + Rounds(c.Requests(), failed, state.served)
  {
    ghost var reqs := c.Requests();
    ghost var start := h.observations;
    state := Schedule(false, 0, 0);
    var i := 0;
    while i < |events| && events[i] != Signal
      invariant 0 <= i <= |events|
      invariant Signal !in events[..i]
      invariant state == Coalesce(events[..i])
      invariant c.Requests() == reqs
      invariant h.Valid()
      invariant h.observations == start + Rounds(reqs, failed, state.served)
    {
      assert events[..i + 1][..i] == events[..i];
      ghost var before := state;
      ghost var observed := h.observations;
      state := HandleEvent(c, h, events[i], state, failed);
      RoundsAfterStep(reqs, failed, before.served, state.served, start, observed, h.observations);
      i := i + 1;
    }
    UntilSignalUnique(events, i);
    handled := i;
  }
}
