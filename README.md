# ISS tracker core, modelled in Dafny

This project models the core of an ISS tracker backend:

- the **daylight-window segmenter** (`get_daylight_time_windows`), which turns an
  ordered list of ISS positions into `(start, end)` windows, one per maximal run
  of consecutive `DAYLIGHT` positions; `None` marks an edge that touches the
  edge of the list;
- the **bounded-retry fetch** (`get`), which retries an HTTP GET after an
  `aiohttp.ClientError` up to `MAX_RETRIES = 3` times and returns `None` on
  every failure;
- the **position updater** (`IssPositionUpdater`): its constructor's fallback
  rules, the single update tick that stores a record only when the fetch
  produced a truthy one, and the schedule that updates once before it registers
  the recurring job.

Files:

- `wrappers.dfy`: `Option`, standing for Python's `None` or a value.
- `time_windows.dfy` (module `TimeWindows`): the specification of the windows
  (maximal runs and the window of each run), the source's single pass
  `GetDaylightTimeWindows` with its helpers, proved equal to that
  specification, and lemmas on the specification.
- `requests.dfy` (module `Requests`): `Get` as a recursive function over a
  transport that gives the outcome of each request. Its result carries the
  returned value and the numbers of requests and sleeps.
- `position_updater.dfy` (module `PositionUpdater`): the `IssPositionUpdater`
  class, with the storage sink (`PositionStore`) and the job scheduler
  (`Scheduler`) as small classes whose lists only grow.

A position is reduced to the two fields the segmenter reads: its visibility
and its timestamp, an integer number of seconds. The network is a parameter.
`Requests.Transport` maps the retry counter of a request to its outcome:
`Ok(json)`, `ClientError` or `OtherError`. `PositionUpdater.Network` maps a URL
and a session to such a transport. Each update meets its own `Network`, the
network as it is at that tick, so successive ticks can fetch different
positions or fail and then recover. The configuration getters are the fields
of a `Config` value.

## Model

| member | source | states |
|---|---|---|
| `TimeWindows.GetDaylightTimeWindows` | challenge/utils/operations/time_windows_utils.py:7-30 | the single index pass with its pending start returns exactly the windows of the maximal daylight runs, in run order (`DaylightWindows`) |
| `TimeWindows.AppendIfNotNone` | challenge/utils/operations/time_windows_utils.py:33-35 | the list keeps its prefix and gains the window exactly when there is one; a `(None, None)` window is appended |
| `TimeWindows.FirstDaylightTimeWindow` | challenge/utils/operations/time_windows_utils.py:38-43 | at index 0 a window is emitted exactly when the first sample is a daylight run of its own, and it is that run's window: `(None, None)` for a one-sample list, `(None, ts[1])` otherwise |
| `TimeWindows.LastDaylightTimeWindow` | challenge/utils/operations/time_windows_utils.py:46-52 | a window is emitted at the last index exactly when the last sample is daylight, its end is `None`, and with the pending start the loop holds it is the window of the trailing run |
| `TimeWindows.RunStart` | challenge/utils/operations/time_windows_utils.py:24-26 | the start of the run holding a daylight sample: every sample from it on is daylight, and it is index 0 or follows an eclipsed sample |
| `TimeWindows.RunsBefore` | challenge/utils/operations/time_windows_utils.py:17-29 | every run listed is a maximal daylight run ending before the scanned index, and runs come left to right with an eclipsed sample between them |
| `TimeWindows.RunsAreMaximalRuns` | challenge/utils/operations/time_windows_utils.py:17-29 | a run is listed if and only if it is a maximal run of consecutive daylight samples |
| `TimeWindows.RunsInOrder` | challenge/utils/operations/time_windows_utils.py:17-29 | windows' runs appear in strictly left-to-right order |
| `TimeWindows.OneWindowPerRun` | challenge/utils/operations/time_windows_utils.py:17-29 | each maximal daylight run gives exactly one window, at the position of the run in the run order |
| `TimeWindows.WindowEdges` | challenge/utils/operations/time_windows_utils.py:19-52 | a window's start is `None` exactly when its run begins at index 0, otherwise the run's first timestamp; its end is `None` exactly when the run reaches the last index, otherwise the timestamp of the eclipsed sample right after the run |
| `TimeWindows.EmptyHasNoWindows` | challenge/utils/operations/time_windows_utils.py:15-17 | an empty list gives `[]` |
| `TimeWindows.NoDaylightNoWindows` | challenge/utils/operations/time_windows_utils.py:19-30 | a list without a daylight sample, singleton or longer, gives `[]` |
| `TimeWindows.AllDaylightOneUnboundedWindow` | challenge/utils/operations/time_windows_utils.py:33-52 | an all-daylight list of any length at least 1 gives exactly `[(None, None)]` |
| `TimeWindows.LeadingDaylightWindow` | challenge/tests/utils/operations/test_time_windows_utils.py:44-73 | however many daylight samples lead the list, the first window is `(None, ts[m])` for the first eclipsed index `m` |
| `TimeWindows.TrailingDaylightWindow` | challenge/tests/utils/operations/test_time_windows_utils.py:76-108 | however many daylight samples trail the list, the last window is `(ts[m], None)` for the first index `m` of the trailing run |
| `TimeWindows.TwoInteriorRunsExample` | challenge/tests/utils/operations/test_time_windows_utils.py:19-41 | daylight at {2,3,4} and {7,8} of 0-9 gives `[(t2, t5), (t7, t9)]` |
| `TimeWindows.LeadingRunExample` | challenge/tests/utils/operations/test_time_windows_utils.py:67-73 | three leading daylight samples, then an interior run: `[(None, t3), (t4, t7)]` |
| `TimeWindows.TrailingRunDuplicateTimestampExample` | challenge/tests/utils/operations/test_time_windows_utils.py:102-108 | a trailing run with a repeated timestamp is accepted and gives `[(t2, t5), (t7, None)]` |
| `Requests.Get` | challenge/utils/requests/requests_utils.py:11-33 | all requests but the last failed with a client error; the value is the last body if it succeeded, else `None`; each client error costs one sleep; it gives up after a client error only at the bound, so at most `MAX_RETRIES - r + 1` requests from counter `r`; nothing is raised |
| `Requests.FirstRequestSucceeds` | challenge/utils/requests/requests_utils.py:20-22 | a first request that succeeds returns its JSON after one request and no sleep |
| `Requests.ClientErrorRetriesOnce` | challenge/utils/requests/requests_utils.py:23-28 | a client error below the bound costs one sleep and exactly one more call with the counter plus one |
| `Requests.OtherErrorGivesUp` | challenge/utils/requests/requests_utils.py:32-33 | any other exception returns `None` at once: one request, no sleep, no retry |
| `Requests.SucceedsAfterClientErrors` | challenge/utils/requests/requests_utils.py:21-28 | `k` client errors within the bound followed by a success return the success's JSON after `k + 1` requests and `k` sleeps |
| `Requests.ClientErrorsExhaustRetries` | challenge/utils/requests/requests_utils.py:23-31 | client errors up to the bound return `None` after `MAX_RETRIES - r + 1` requests and as many sleeps, the last sleep coming before the bound check |
| `Requests.DefaultCallBounds` | challenge/utils/requests/requests_utils.py:8-31 | from the default counter 0 a call makes at most 4 requests, and four client errors give `None` after 4 requests and 4 sleeps |
| `PositionUpdater.IsWaitTimeValid` | challenge/background_tasks/iss_position_updater.py:63-65 | a wait time is valid exactly when it is an `int` (not a `bool` or anything else) and positive |
| `PositionUpdater.DefaultHeaders` | challenge/background_tasks/iss_position_updater.py:59-61 | the default headers hold only `User-Agent`, set to the configured user agent |
| `PositionUpdater.DefaultWaitTimeFallsBack` | challenge/background_tasks/iss_position_updater.py:21-34 | the default `wait_time` of -1 is invalid, so a construction without one takes the configured wait time |
| `PositionUpdater.IssPositionUpdater.constructor` | challenge/background_tasks/iss_position_updater.py:21-36 | non-empty headers and URL are kept and missing or empty ones replaced by the configured defaults; the wait time is kept only when valid; no session, stop flag false, `db` stored as given |
| `PositionUpdater.IssPositionUpdater.UpdateIssPosition` | challenge/background_tasks/iss_position_updater.py:49-57 | one `get` of the updater's URL with its session; the new store is the old one plus the fetched record when the result is truthy, and the old one otherwise |
| `PositionUpdater.UpdateWithoutSessionStoresNothing` | challenge/background_tasks/iss_position_updater.py:53-54 | before a session is opened an update makes one failing request and stores nothing |
| `PositionUpdater.IssPositionUpdater.RunIssUpdatePositionSchedule` | challenge/background_tasks/iss_position_updater.py:38-47 | opens a session with the updater's headers, updates exactly once, then registers one job with period `wait_time`, then polls while the stop flag is false; the new store is the old one followed, in order, by the first update's record and the records of the due polls' updates |
| `PositionUpdater.IssPositionUpdater.PollWhileNotStopped` | challenge/background_tasks/iss_position_updater.py:45-47 | polls only while the stop flag is false, stopping at the first poll after a stop request; one update per due poll, each against that poll's network; the new store is the old one followed by those updates' records in order |
| `PositionUpdater.IssPositionUpdater.RunPending` | challenge/background_tasks/iss_position_updater.py:46-46 | running pending jobs updates once when the job is due, adding that update's record after the old ones; otherwise the store is unchanged |
| `PositionUpdater.TickRecords` | challenge/background_tasks/iss_position_updater.py:53-56 | one update stores at most one record: the fetched value exactly when it is truthy |
| `PositionUpdater.NoDuePollStoresNothing` | challenge/background_tasks/iss_position_updater.py:45-47 | polls at which the job is never due store nothing |
| `PositionUpdater.RecoveryAfterFailedTick` | challenge/background_tasks/iss_position_updater.py:43-46 | a tick whose four requests fail with client errors stores nothing, and a later due tick that fetches a truthy position stores it |

## Left out

- The HTTP layer (routing, rate limiting, CORS, lifespan wiring), the database
  engine and the range query that feeds the segmenter are not part of this
  model. The store is a list of records that only grows.
- `IssPosition.from_json` is not modelled: the stored record is the fetched JSON
  value itself. A truthy JSON value that `from_json` cannot convert would raise
  out of `update_iss_position`; the model does not capture that exception.
- JSON numbers are integers; floating point is not modelled.
- Requests.Get: a JSON `null` body is returned as `Some(JNull)`, where Python
  returns `None`. Both are falsy, so no update stores either.
- `ConfigUtils` is not modelled: its getters are the fields of a `Config`
  value. A configured wait time is used even when it is not positive, as in
  the source.
- Logging, the real 0.5-second and 0.05-second sleeps, the aiohttp session's
  lifetime and asyncio task cancellation are not modelled. Sleeps and requests
  are counted. Cancellation becomes a stop request in the environment of the
  polling loop, which sets the stop flag. The source itself never sets
  `stop_schedule`.
- PositionUpdater.IssPositionUpdater.PollWhileNotStopped: the endless loop is
  run over a finite list of polls, so a run that is never stopped is cut off
  when the list ends.
- PositionUpdater.IssPositionUpdater.RunPending: the scheduler's own timing is
  not modelled. Whether the job is due at a poll is an input.
- Which exceptions count as `aiohttp.ClientError` is an input of the transport.
  A body that is not JSON can raise either kind, depending on the library.
- TimeWindows.AppendIfNotNone: the source appends to the caller's list in
  place. The model returns the extended list. The list is a local of the
  caller, so no aliasing is lost.
- TimeWindows.FirstDaylightTimeWindow, TimeWindows.LastDaylightTimeWindow: the
  source also passes the current position. It is always the first or last
  element of the list, so the model reads it from the list.
- Timestamps are integers, not `datetime` values. The source tests the pending
  start with `not start_window`. A `datetime` is always truthy, so the model
  tests whether the pending start is `None`.
- The commented-out alternative algorithm at the end of the windows module is
  dead code and is not modelled.
- The segmenter does not check that timestamps are ascending or unique.
  Neither does the model: no ordering is required.
- The source retries by recursion on the counter, and the model keeps that
  recursion. A sleep also follows the final client error before `get` gives
  up. So four client errors cost four sleeps, not three.
