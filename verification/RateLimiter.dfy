/** The crawl rate limiter of a discovery run: one grant at a time, spaced per origin. */
module RateLimiter {
  import opened Prelude

  /** A stretch of time that has passed. */
  type Duration = d: real | d >= 0.0

  /**
   * A request for one crawl: the origin, the configured requests per minute
   * (None unless it is a number), how long after the previous clock reading it
   * is made, and how much longer than asked the sleep and the second reading take.
   */
  datatype Request = Request(origin: string, rpm: Option<real>, idle: Duration, drift: Duration)

  datatype State = State(last: map<string, real>, clock: real)

  datatype Grant = Grant(origin: string, at: real, interval: real)

  function EffectiveRpm(rpm: Option<real>): (r: real)
    ensures r >= 1.0
  {
    if rpm.None? || rpm.value < 1.0 then 10.0 else rpm.value
  }

  function Interval(rpm: Option<real>): real {
    60.0 / EffectiveRpm(rpm)
  }

  /** How long a request made at `now` must sleep. */
  function Wait(last: map<string, real>, r: Request, now: real): real {
    if r.origin in last && Interval(r.rpm) - (now - last[r.origin]) > 0.0
    then Interval(r.rpm) - (now - last[r.origin]) else 0.0
  }

  function NextGrant(s: State, r: Request): (State, Grant) {
    var now := s.clock + r.idle;
    var at := now + Wait(s.last, r, now) + r.drift;
    (State(s.last[r.origin := at], at), Grant(r.origin, at, Interval(r.rpm)))
  }

  /** The state after a run of requests and the grants it gave, in order. */
  function Grants(s: State, rs: seq<Request>): (State, seq<Grant>) {
    if rs == [] then (s, [])
    else
      var (s', gs) := Grants(s, rs[..|rs| - 1]);
      var (s'', g) := NextGrant(s', rs[|rs| - 1]);
      (s'', gs + [g])
  }

  /** Two grants to one origin are at least the later one's interval apart. */
  ghost predicate Spaced(gs: seq<Grant>) {
    forall i, j :: 0 <= i < j < |gs| && gs[i].origin == gs[j].origin ==> gs[j].at - gs[i].at >= gs[j].interval
  }

  /** The limiter remembers a time no earlier than any grant to that origin. */
  ghost predicate Remembers(s: State, gs: seq<Grant>) {
    forall i :: 0 <= i < |gs| ==> gs[i].origin in s.last && gs[i].at <= s.last[gs[i].origin] <= s.clock
  }

  ghost predicate Past(s: State) {
    forall k :: k in s.last ==> s.last[k] <= s.clock
  }

  lemma {:induction false} GrantsAreSpaced(rs: seq<Request>, start: real)
    ensures var (s, gs) := Grants(State(map[], start), rs);
            && Spaced(gs) && Remembers(s, gs) && Past(s)
            && |gs| == |rs| && (forall i :: 0 <= i < |gs| ==> gs[i].origin == rs[i].origin && gs[i].interval == Interval(rs[i].rpm))
  {
    if rs != [] {
      GrantsAreSpaced(rs[..|rs| - 1], start);
      assert forall i :: 0 <= i < |rs| - 1 ==> rs[..|rs| - 1][i] == rs[i];
    }
  }

  /**
   * When a grant is made: at once to an origin that is new or has rested for the
   * interval, and otherwise exactly one interval after its last grant; plus what
   * the sleep and the clock add.
   */
  lemma GrantExactly(s: State, r: Request)
    ensures var (s', g) := NextGrant(s, r);
            var now := s.clock + r.idle;
            && g.origin == r.origin
            && (r.origin !in s.last ==> g.at == now + r.drift)
            && (r.origin in s.last && now - s.last[r.origin] >= g.interval ==> g.at == now + r.drift)
            && (r.origin in s.last && now - s.last[r.origin] < g.interval ==> g.at == s.last[r.origin] + g.interval + r.drift)
            && s'.clock == g.at && s'.last == s.last[r.origin := g.at]
  {
  }

  /** The interval is a minute divided by the rate; a rate that is missing or below one means ten a minute. */
  lemma IntervalExactly(rpm: Option<real>)
    ensures rpm.Some? && rpm.value >= 1.0 ==> Interval(rpm) * rpm.value == 60.0
    ensures rpm.None? || rpm.value < 1.0 ==> Interval(rpm) == 6.0
  {
  }

  // --------------------------------------------------------------- window bound

  predicate InWindow(g: Grant, origin: string, w: real) {
    g.origin == origin && w <= g.at < w + 60.0
  }

  /** The times of the grants to one origin in the half-open minute starting at w. */
  function WindowTimes(gs: seq<Grant>, origin: string, w: real): seq<real> {
    if gs == [] then []
    else
      var g := gs[|gs| - 1];
      WindowTimes(gs[..|gs| - 1], origin, w) + if InWindow(g, origin, w) then [g.at] else []
  }

  ghost predicate Apart(ts: seq<real>, d: real) {
    forall i, j :: 0 <= i < j < |ts| ==> ts[j] - ts[i] >= d
  }

  lemma {:induction false} WindowTimesBefore(gs: seq<Grant>, origin: string, w: real, t: real)
    requires forall i :: 0 <= i < |gs| && gs[i].origin == origin ==> gs[i].at <= t
    ensures forall i :: 0 <= i < |WindowTimes(gs, origin, w)| ==> WindowTimes(gs, origin, w)[i] <= t
  {
    if gs != [] {
      var n := |gs| - 1;
      assert forall i :: 0 <= i < n ==> gs[..n][i] == gs[i];
      WindowTimesBefore(gs[..n], origin, w, t);
    }
  }

  lemma {:induction false} WindowTimesApart(gs: seq<Grant>, origin: string, w: real, d: real)
    requires Spaced(gs)
    requires forall i :: 0 <= i < |gs| && gs[i].origin == origin ==> gs[i].interval >= d
    ensures Apart(WindowTimes(gs, origin, w), d)
    ensures forall i :: 0 <= i < |WindowTimes(gs, origin, w)| ==> w <= WindowTimes(gs, origin, w)[i] < w + 60.0
  {
    if gs != [] {
      var n := |gs| - 1;
      assert forall i :: 0 <= i < n ==> gs[..n][i] == gs[i];
      WindowTimesApart(gs[..n], origin, w, d);
      if gs[n].origin == origin {
        WindowTimesBefore(gs[..n], origin, w, gs[n].at - d);
      }
    }
  }

  /** n gaps of length d, one after the other. */
  function Span(n: nat, d: real): real {
    if n == 0 then 0.0 else Span(n - 1, d) + d
  }

  lemma {:induction false} ApartSpans(ts: seq<real>, d: real)
    requires Apart(ts, d) && ts != []
    ensures ts[|ts| - 1] - ts[0] >= Span(|ts| - 1, d)
  {
    if |ts| > 1 {
      ApartSpans(ts[..|ts| - 1], d);
    }
  }

  lemma {:induction false} SpanIsProduct(n: nat, d: real)
    ensures Span(n, d) == n as real * d
  {
    if n > 0 {
      SpanIsProduct(n - 1, d);
      assert n as real * d == (n - 1) as real * d + d;
    }
  }

  lemma IntervalFills(r: real, d: real)
    requires r >= 1.0 && d == 60.0 / r
    ensures r * d == 60.0
  {
  }

  /** Fewer than r intervals of 60 / r fit into less than a minute. */
  lemma FewerThanRate(n: nat, d: real, r: real)
    requires r >= 1.0 && r * d == 60.0 && d >= 0.0
    requires Span(n, d) < 60.0
    ensures n as real < r
  {
    SpanIsProduct(n, d);
    if n as real >= r {
      ScaleReal(r, n as real, d);
    }
  }

  /** Any half-open minute of a spaced run holds fewer than r + 1 grants to one origin. */
  lemma SpacedWindowBound(gs: seq<Grant>, origin: string, w: real, d: real, r: real)
    requires Spaced(gs)
    requires forall i :: 0 <= i < |gs| && gs[i].origin == origin ==> gs[i].interval >= d
    requires r >= 1.0 && r * d == 60.0 && d >= 0.0
    ensures |WindowTimes(gs, origin, w)| as real < r + 1.0
  {
    WindowTimesApart(gs, origin, w, d);
    var ts := WindowTimes(gs, origin, w);
    if ts != [] {
      ApartSpans(ts, d);
      FewerThanRate(|ts| - 1, d, r);
    }
  }

  /**
   * At a constant rate, any half-open minute holds fewer than rpm + 1 grants to
   * one origin.
   */
  lemma WindowBound(rs: seq<Request>, start: real, origin: string, rpm: Option<real>, w: real)
    requires forall i :: 0 <= i < |rs| && rs[i].origin == origin ==> rs[i].rpm == rpm
    ensures |WindowTimes(Grants(State(map[], start), rs).1, origin, w)| as real < EffectiveRpm(rpm) + 1.0
  {
    GrantsAreSpaced(rs, start);
    IntervalFills(EffectiveRpm(rpm), Interval(rpm));
    SpacedWindowBound(Grants(State(map[], start), rs).1, origin, w, Interval(rpm), EffectiveRpm(rpm));
  }

  /** When the rate is a whole number, a minute holds at most that many grants. */
  lemma WholeRateWindowBound(rs: seq<Request>, start: real, origin: string, rpm: Option<real>, n: nat, w: real)
    requires forall i :: 0 <= i < |rs| && rs[i].origin == origin ==> rs[i].rpm == rpm
    requires EffectiveRpm(rpm) == n as real
    ensures |WindowTimes(Grants(State(map[], start), rs).1, origin, w)| <= n
  {
    WindowBound(rs, start, origin, rpm, w);
  }

  // ---------------------------------------------------------------------- service

  class CrawlRateLimiter {
    var lastRequest: map<string, real>
    var clock: real

    constructor (start: real)
      ensures lastRequest == map[] && clock == start
    {
      lastRequest, clock := map[], start;
    }

    /** Sleep until the origin may be crawled again and remember when that was. */
    method WaitFor(r: Request) returns (at: real)
      modifies this
      ensures NextGrant(old(State(lastRequest, clock)), r)
              == (State(lastRequest, clock), Grant(r.origin, at, Interval(r.rpm)))
    {
      var rpm := 10.0;
      if r.rpm.Some? && r.rpm.value >= 1.0 {
        rpm := r.rpm.value;
      }
      var minInterval := 60.0 / rpm;
      var now := clock + r.idle;
      clock := now;
      if r.origin in lastRequest {
        var elapsed := now - lastRequest[r.origin];
        var wait := minInterval - elapsed;
        if wait > 0.0 {
          clock := clock + wait;
        }
      }
      clock := clock + r.drift;
      at := clock;
      lastRequest := lastRequest[r.origin := at];
    }
  }
}
