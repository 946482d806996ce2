/**
 * Model of challenge/background_tasks/iss_position_updater.py: the background
 * task that fetches the ISS position and stores it.
 *
 * The storage sink is a `PositionStore` whose record list only grows; the
 * configuration getters are the fields of a `Config` value; the network as one
 * tick finds it is a `Network` giving, for a URL and a session, the transport
 * `Requests.Get` runs against; the job scheduler keeps the list of registered
 * jobs, and the environment of the polling loop is a finite list of `Poll`s,
 * each with the network its update (if any) meets.
 */
module PositionUpdater {
  import opened Wrappers
  import Requests

  /** A Python value passed as `wait_time`: an `int`, a `bool`, or anything else. */
  datatype WaitTimeArg = IntArg(value: int) | BoolArg(flag: bool) | OtherArg

  /** The default `wait_time` argument of the constructor. */
  const DEFAULT_WAIT_TIME_ARG: WaitTimeArg := IntArg(-1)

  /** What the configuration getters return: user agent, ISS position URL, wait time. */
  datatype Config = Config(userAgent: string, issPositionUrl: string, waitTime: int)

  /** An HTTP client session, opened with the updater's headers. */
  datatype Session = Session(headers: map<string, string>)

  /** The network during one update: what requests to a URL made with a session do. */
  type Network = (string, Session) -> Requests.Transport

  /** A recurring job registered with the scheduler, with its period in seconds. */
  datatype Job = Job(period: int)

  /**
   * One pass of the polling loop: whether the job is due when pending jobs
   * run, the network the update meets if it is, and whether a stop is
   * requested during the sleep that follows.
   */
  datatype Poll = Poll(jobDue: bool, net: Network, stopRequested: bool)

  /** What the updater did, in order: an update (storing a record or not), or the registration of the recurring job. */
  datatype Event = Update(stored: bool) | Register(period: int)

  /** The storage sink (`add_iss_position` on the database session). */
  class PositionStore {
    var records: seq<Requests.Json>

    constructor ()
      ensures records == []
    {
      records := [];
    }

    method Add(record: Requests.Json)
      modifies this
      ensures records == old(records) + [record]
    {
      records := records + [record];
    }
  }

  /** The job scheduler (`aioschedule`'s default scheduler). */
  class Scheduler {
    var jobs: seq<Job>

    constructor ()
      ensures jobs == []
    {
      jobs := [];
    }

    /** `aioschedule.every(period).seconds.do(job)`. */
    method Every(period: int)
      modifies this
      ensures jobs == old(jobs) + [Job(period)]
    {
      jobs := jobs + [Job(period)];
    }
  }

  /** `_is_wait_time_valid`: the type is exactly `int` (so not `bool`) and the value is positive. */
  function IsWaitTimeValid(waitTime: WaitTimeArg): (valid: bool)
    ensures valid <==> waitTime.IntArg? && waitTime.value > 0
  {
    match waitTime
    case IntArg(n) => n > 0
    case BoolArg(_) => false
    case OtherArg => false
  }

  /** `_get_default_headers`: only a User-Agent header, with the configured user agent. */
  function DefaultHeaders(config: Config): (headers: map<string, string>)
    ensures headers.Keys == {"User-Agent"}
    ensures headers["User-Agent"] == config.userAgent
  {
    map["User-Agent" := config.userAgent]
  }

  /**
   * The transport `get` runs against for a URL and the updater's session: with
   * no session, `session.get` raises an `AttributeError`, which `get` catches
   * as a generic exception.
   */
  function SessionTransport(net: Network, url: string, session: Option<Session>): Requests.Transport
  {
    if session.None? then (_ => Requests.OtherError) else net(url, session.value)
  }

  /** What `get` returns to one update against `net`. */
  function Fetched(net: Network, url: string, session: Option<Session>): Option<Requests.Json>
  {
    Requests.Get(SessionTransport(net, url, session), 0).value
  }

  /** The records one update against `net` stores: the fetched value when it is truthy, nothing otherwise. */
  function TickRecords(net: Network, url: string, session: Option<Session>): (records: seq<Requests.Json>)
    ensures |records| <= 1
    ensures records != [] <==> Requests.IsTruthy(Fetched(net, url, session))
    ensures records != [] ==> records[0] == Fetched(net, url, session).value
  {
    var fetched := Fetched(net, url, session);
    if Requests.IsTruthy(fetched) then [fetched.value] else []
  }

  /** The records stored by the polls `polls`, in order: those of the updates of the due polls. */
  function PollRecords(polls: seq<Poll>, url: string, session: Option<Session>): seq<Requests.Json>
  {
    if polls == [] then []
    else
      var last := polls[|polls| - 1];
      PollRecords(polls[..|polls| - 1], url, session)
        + (if last.jobDue then TickRecords(last.net, url, session) else [])
  }

  /** Number of due polls in `polls`. */
  function DueCount(polls: seq<Poll>): nat
  {
    if polls == [] then 0
    else DueCount(polls[..|polls| - 1]) + (if polls[|polls| - 1].jobDue then 1 else 0)
  }

  class IssPositionUpdater {
    var db: PositionStore
    var session: Option<Session>
    var headers: map<string, string>
    var waitTime: int
    var issPositionUrl: string
    var stopSchedule: bool
    /** The updates and registrations done so far, in order. */
    ghost var events: seq<Event>

    /**
     * `__init__`: a non-empty headers dict and a non-empty URL are kept, a
     * missing or empty one is replaced by the configured default; the wait
     * time is kept only when `IsWaitTimeValid` accepts it.
     */
    constructor (db: PositionStore, headers: Option<map<string, string>>, waitTime: WaitTimeArg,
                 issPositionUrl: Option<string>, config: Config)
      ensures this.db == db && this.session == None && !this.stopSchedule && this.events == []
      ensures this.headers ==
        if headers.Some? && headers.value != map[] then headers.value else DefaultHeaders(config)
      ensures this.issPositionUrl ==
        if issPositionUrl.Some? && issPositionUrl.value != "" then issPositionUrl.value else config.issPositionUrl
      ensures this.waitTime == if IsWaitTimeValid(waitTime) then waitTime.value else config.waitTime
    {
      this.session := None;
      this.headers := if headers.Some? && headers.value != map[] then headers.value else DefaultHeaders(config);
      this.issPositionUrl :=
        if issPositionUrl.Some? && issPositionUrl.value != "" then issPositionUrl.value else config.issPositionUrl;
      this.waitTime := if IsWaitTimeValid(waitTime) then waitTime.value else config.waitTime;
      this.db := db;
      this.stopSchedule := false;
      this.events := [];
    }

    /**
     * `update_iss_position`: one `get` of the position URL with the current
     * session; the store gains exactly the fetched record when the result is
     * truthy, and nothing otherwise.
     */
    method UpdateIssPosition(net: Network)
      modifies db, this`events
      ensures db.records == old(db.records) + TickRecords(net, issPositionUrl, session)
      ensures events == old(events) + [Update(TickRecords(net, issPositionUrl, session) != [])]
    {
      var json := Requests.Get(SessionTransport(net, issPositionUrl, session), 0).value;
      if Requests.IsTruthy(json) {
        db.Add(json.value);
      }
      events := events + [Update(Requests.IsTruthy(json))];
    }

    /**
     * `run_iss_update_position_schedule`: opens a session with the updater's
     * headers, updates once against `first`, and only then registers the
     * recurring update every `waitTime` seconds; it then polls while the stop
     * flag is false. The store keeps its records and gains, in order, those of
     * the first update and of the updates of the due polls. Returns the number
     * of polls made.
     */
    method RunIssUpdatePositionSchedule(first: Network, scheduler: Scheduler, polls: seq<Poll>)
      returns (checks: nat)
      modifies this, db, scheduler
      ensures db == old(db) && headers == old(headers) && waitTime == old(waitTime)
      ensures issPositionUrl == old(issPositionUrl)
      ensures session == Some(Session(headers))
      ensures scheduler.jobs == old(scheduler.jobs) + [Job(waitTime)]
      ensures checks <= |polls|
      ensures db.records == old(db.records) + TickRecords(first, issPositionUrl, session)
        + PollRecords(polls[..checks], issPositionUrl, session)
      ensures |events| == |old(events)| + 2 + DueCount(polls[..checks])
      ensures events[..|old(events)|] == old(events)
      ensures events[|old(events)|].Update? && events[|old(events)| + 1] == Register(waitTime)
      ensures forall k :: |old(events)| + 2 <= k < |events| ==> events[k].Update?
      ensures old(stopSchedule) ==> checks == 0
      ensures forall k :: 0 <= k < checks - 1 ==> !polls[k].stopRequested
      ensures stopSchedule <==> old(stopSchedule) || exists k :: 0 <= k < checks && polls[k].stopRequested
      ensures !stopSchedule ==> checks == |polls|
    {
      session := Some(Session(headers));
      UpdateIssPosition(first);
      scheduler.Every(waitTime);
      events := events + [Register(waitTime)];
      checks := PollWhileNotStopped(polls);
    }

    /**
     * The `while not self.stop_schedule` loop: at each poll the due job runs
     * one update, and a stop requested during the sleep ends the loop at the
     * next check. The store keeps its records and gains those of the due
     * polls' updates, in order. Returns the number of polls made.
     */
    method PollWhileNotStopped(polls: seq<Poll>) returns (checks: nat)
      modifies db, this`events, this`stopSchedule
      ensures checks <= |polls|
      ensures db.records == old(db.records) + PollRecords(polls[..checks], issPositionUrl, session)
      ensures |events| == |old(events)| + DueCount(polls[..checks])
      ensures events[..|old(events)|] == old(events)
      ensures forall k :: |old(events)| <= k < |events| ==> events[k].Update?
      ensures old(stopSchedule) ==> checks == 0
      ensures forall k :: 0 <= k < checks - 1 ==> !polls[k].stopRequested
      ensures stopSchedule <==> old(stopSchedule) || exists k :: 0 <= k < checks && polls[k].stopRequested
      ensures !stopSchedule ==> checks == |polls|
    {
      ghost var start := |events|;
      checks := 0;
      while !stopSchedule && checks < |polls|
        invariant checks <= |polls|
        invariant db.records == old(db.records) + PollRecords(polls[..checks], issPositionUrl, session)
        invariant |events| == start + DueCount(polls[..checks])
        invariant events[..start] == old(events)
        invariant forall k :: start <= k < |events| ==> events[k].Update?
        invariant old(stopSchedule) ==> checks == 0
        invariant forall k :: 0 <= k < checks - 1 ==> !polls[k].stopRequested
        invariant stopSchedule <==> old(stopSchedule) || (0 < checks && polls[checks - 1].stopRequested)
        decreases |polls| - checks
      {
        assert polls[..checks + 1][..checks] == polls[..checks];
        RunPending(polls[checks].net, polls[checks].jobDue);
        if polls[checks].stopRequested {
          stopSchedule := true;
        }
        checks := checks + 1;
      }
    }

    /**
     * `aioschedule.run_pending()` with the recurring update as the only job:
     * one update against `net` when the job is due; the store and the trace
     * are unchanged otherwise.
     */
    method RunPending(net: Network, due: bool)
      modifies db, this`events
      ensures db.records == old(db.records) + (if due then TickRecords(net, issPositionUrl, session) else [])
      ensures |events| == |old(events)| + (if due then 1 else 0)
      ensures events[..|old(events)|] == old(events)
      ensures forall k :: |old(events)| <= k < |events| ==> events[k].Update?
    {
      if due {
        UpdateIssPosition(net);
      }
    }
  }

  /** The default `wait_time` of -1 is invalid, so a constructor call without one takes the configured value. */
  lemma DefaultWaitTimeFallsBack()
    ensures !IsWaitTimeValid(DEFAULT_WAIT_TIME_ARG)
  {
  }

  /** An update without a session fetches nothing: one request, no sleep, nothing truthy to store. */
  lemma UpdateWithoutSessionStoresNothing(net: Network, url: string)
    ensures Requests.Get(SessionTransport(net, url, None), 0) == Requests.FetchResult(None, 1, 0)
    ensures !Requests.IsTruthy(Requests.Get(SessionTransport(net, url, None), 0).value)
  {
  }

  /** Polls whose job is never due store nothing. */
  lemma {:induction false} NoDuePollStoresNothing(polls: seq<Poll>, url: string, session: Option<Session>)
    requires forall k :: 0 <= k < |polls| ==> !polls[k].jobDue
    ensures PollRecords(polls, url, session) == []
    decreases |polls|
  {
    if polls != [] {
      NoDuePollStoresNothing(polls[..|polls| - 1], url, session);
    }
  }

  /**
   * A tick whose four requests all fail with client errors stores nothing,
   * and the next due tick that gets a truthy position stores it: a failed
   * tick does not stop the next one.
   */
  lemma RecoveryAfterFailedTick(failed: Network, next: Network, url: string, s: Session, position: Requests.Json)
    requires forall k :: 0 <= k <= 3 ==> failed(url, s)(k) == Requests.ClientError
    requires next(url, s)(0) == Requests.Ok(position) && Requests.IsTruthy(Some(position))
    ensures TickRecords(failed, url, Some(s)) == []
    ensures PollRecords([Poll(true, next, false)], url, Some(s)) == [position]
  {
    Requests.ClientErrorsExhaustRetries(failed(url, s), 0);
    assert [Poll(true, next, false)][..0] == [];
  }
}
