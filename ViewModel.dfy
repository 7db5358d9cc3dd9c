/** The view model of the chart window: two price series that a polling
    session fills, the prices read from the last response, and the time
    axis separators.

    The transport is not part of this model: a session is given the
    sequence of responses it receives, each with the clock reading taken
    when it was handled. A session ends when the responses run out (the
    connection is no longer open) or when a response cannot be scanned
    (the scan raises an error, which ends the polling loop).
 */
module ViewModel {
  import opened SlidingWindow
  import opened TickerParser
  import Axis

  /** A chart point: a clock reading in ticks and a price. */
  datatype TimePoint = TimePoint(time: int, value: Price)

  /** One response handled by the polling loop, and the clock reading then. */
  datatype Poll = Poll(payload: string, now: int)

  /** The number of points a series keeps when the configured count is `r`
      (a double): a series of `n` points is trimmed exactly when `n > r`. */
  function Capacity(r: real): nat
  {
    if r < 0.0 then 0 else r.Floor
  }

  lemma CapacityThreshold(r: real, n: nat)
    requires n >= 1
    ensures n as real > r <==> n > Capacity(r)
  {
  }

  function Before(pushed: seq<Quote>, prior: Quote, k: nat): Quote
    requires k <= |pushed|
  {
    if k == 0 then prior else pushed[k - 1]
  }

  /** What a session pushes, and the prices held when it ends. */
  datatype Session = Session(pushed: seq<Quote>, quote: Quote)

  /** The session over `polls`, starting from the prices `prior`: each
      response is scanned from the prices the previous one left, each
      successful scan pushes its prices, and the first failed scan ends
      the session. */
  function Replay(polls: seq<Poll>, parse: string -> Option<Price>, prior: Quote): (s: Session)
    ensures |s.pushed| <= |polls|
    decreases |polls|
  {
    if polls == [] then Session([], prior)
    else
      var r := Receive(polls[0].payload, parse, prior);
      if !r.ok then Session([], r.quote)
      else
        var rest := Replay(polls[1..], parse, r.quote);
        Session([r.quote] + rest.pushed, rest.quote)
  }

  /** The session from response `i` on, one tick at a time. */
  lemma ReplayFrom(polls: seq<Poll>, i: nat, parse: string -> Option<Price>, q: Quote, r: Received)
    requires i < |polls| && r == Receive(polls[i].payload, parse, q)
    ensures Replay(polls[i..], parse, q) ==
      if r.ok then Session([r.quote] + Replay(polls[i + 1..], parse, r.quote).pushed,
                           Replay(polls[i + 1..], parse, r.quote).quote)
      else Session([], r.quote)
  {
    assert polls[i..][0] == polls[i] && polls[i..][1..] == polls[i + 1..];
  }

  /** A session seen as the pushes so far followed by the session from
      response `i` on: scanning response `i` either extends the pushes by
      one quote or ends the session. */
  lemma ReplayAdvance(polls: seq<Poll>, i: nat, parse: string -> Option<Price>, prior: Quote,
                      done: seq<Quote>, here: Quote, r: Received)
    requires i < |polls| && r == Receive(polls[i].payload, parse, here)
    requires var rest := Replay(polls[i..], parse, here);
      Replay(polls, parse, prior) == Session(done + rest.pushed, rest.quote)
    ensures r.ok ==> var next := Replay(polls[i + 1..], parse, r.quote);
      Replay(polls, parse, prior) == Session((done + [r.quote]) + next.pushed, next.quote)
    ensures !r.ok ==> Replay(polls, parse, prior) == Session(done, r.quote)
  {
    ReplayFrom(polls, i, parse, here, r);
    var next := Replay(polls[i + 1..], parse, r.quote);
    assert (done + [r.quote]) + next.pushed == done + ([r.quote] + next.pushed);
    assert done + [] == done;
  }

  /** Tick `k` of a session scanned its response successfully, starting
      from the prices the tick before it pushed, and pushed the result. */
  lemma {:induction false} ReplayPushes(polls: seq<Poll>, parse: string -> Option<Price>, prior: Quote, k: nat)
    requires k < |Replay(polls, parse, prior).pushed|
    ensures var s := Replay(polls, parse, prior);
      Receive(polls[k].payload, parse, Before(s.pushed, prior, k)) == Received(true, s.pushed[k])
    decreases k
  {
    var r := Receive(polls[0].payload, parse, prior);
    var rest := Replay(polls[1..], parse, r.quote);
    var s := Replay(polls, parse, prior);
    assert s.pushed == [r.quote] + rest.pushed;
    if k > 0 {
      ReplayPushes(polls[1..], parse, r.quote, k - 1);
      assert Before(s.pushed, prior, k) == Before(rest.pushed, r.quote, k - 1);
    }
  }

  /** A session that pushed fewer ticks than it had responses stopped
      because the next response failed to scan; the prices it holds are
      what that failed scan left. A session that used every response holds
      the prices of its last push. */
  lemma {:induction false} ReplayEnds(polls: seq<Poll>, parse: string -> Option<Price>, prior: Quote)
    ensures var s := Replay(polls, parse, prior); var n := |s.pushed|;
      if n < |polls| then Receive(polls[n].payload, parse, Before(s.pushed, prior, n)) == Received(false, s.quote)
      else s.quote == Before(s.pushed, prior, n)
    decreases |polls|
  {
    if polls != [] {
      var r := Receive(polls[0].payload, parse, prior);
      if r.ok {
        var rest := Replay(polls[1..], parse, r.quote);
        ReplayEnds(polls[1..], parse, r.quote);
        var s := Replay(polls, parse, prior);
        assert s.pushed == [r.quote] + rest.pushed;
        var n := |rest.pushed|;
        assert Before(s.pushed, prior, n + 1) == Before(rest.pushed, r.quote, n);
        if n < |polls| - 1 {
          assert polls[1..][n] == polls[n + 1];
        }
      }
    }
  }

  /** The chart points of the first |quotes| ticks of a session: the bid
      (or, when `bid` is false, the ask) pushed at tick k, stamped with the
      clock reading of response k. */
  function Points(polls: seq<Poll>, quotes: seq<Quote>, bid: bool): (r: seq<TimePoint>)
    requires |quotes| <= |polls|
    ensures |r| == |quotes|
  {
    if quotes == [] then []
    else
      var k := |quotes| - 1;
      Points(polls, quotes[..k], bid) + [TimePoint(polls[k].now, if bid then quotes[k].bid else quotes[k].ask)]
  }

  lemma PointsPush(polls: seq<Poll>, quotes: seq<Quote>, q: Quote)
    requires |quotes| < |polls|
    ensures Points(polls, quotes + [q], true) == Points(polls, quotes, true) + [TimePoint(polls[|quotes|].now, q.bid)]
    ensures Points(polls, quotes + [q], false) == Points(polls, quotes, false) + [TimePoint(polls[|quotes|].now, q.ask)]
  {
    assert (quotes + [q])[..|quotes|] == quotes;
  }

  lemma {:induction false} PointsAt(polls: seq<Poll>, quotes: seq<Quote>)
    requires |quotes| <= |polls|
    ensures forall k :: 0 <= k < |quotes| ==>
      Points(polls, quotes, true)[k] == TimePoint(polls[k].now, quotes[k].bid) &&
      Points(polls, quotes, false)[k] == TimePoint(polls[k].now, quotes[k].ask)
  {
    if quotes != [] {
      var n := |quotes| - 1;
      PointsAt(polls, quotes[..n]);
      assert quotes == quotes[..n] + [quotes[n]];
      PointsPush(polls, quotes[..n], quotes[n]);
    }
  }

  /** Series equal to the stamped points of `quotes` hold exactly those
      points, one per quote. */
  lemma Stamped(polls: seq<Poll>, quotes: seq<Quote>, bids: seq<TimePoint>, asks: seq<TimePoint>)
    requires |quotes| <= |polls| && bids == Points(polls, quotes, true) && asks == Points(polls, quotes, false)
    ensures |bids| == |quotes| && |asks| == |quotes|
    ensures forall k :: 0 <= k < |quotes| ==>
      bids[k] == TimePoint(polls[k].now, quotes[k].bid) &&
      asks[k] == TimePoint(polls[k].now, quotes[k].ask)
  {
    PointsAt(polls, quotes);
  }

  class MainViewModel {
    var bidValues: seq<TimePoint>
    var askValues: seq<TimePoint>
    var receivedBid: Price
    var receivedAsk: Price
    /** The configured number of points per series (a double in the program). */
    var tickNumber: real
    /** The separators of the time axis. */
    var separators: seq<int>

    /** The points pushed to each series since the chart was last cleared. */
    ghost var pushedBids: seq<TimePoint>
    ghost var pushedAsks: seq<TimePoint>

    /** Each series is the window of its pushes; both series have the same
        length, which never exceeds the capacity. */
    ghost predicate Valid()
      reads this
    {
      |pushedBids| == |pushedAsks| &&
      bidValues == Window(pushedBids, Capacity(tickNumber)) &&
      askValues == Window(pushedAsks, Capacity(tickNumber)) &&
      |bidValues| == |askValues| <= Capacity(tickNumber)
    }

    constructor (tickNumber: real, now: int)
      ensures Valid()
      ensures this.tickNumber == tickNumber
      ensures bidValues == [] && askValues == [] && pushedBids == [] && pushedAsks == []
      ensures receivedBid == 0.0 && receivedAsk == 0.0
      ensures separators == Axis.Separators(now)
    {
      bidValues, askValues := [], [];
      receivedBid, receivedAsk := 0.0, 0.0;
      this.tickNumber := tickNumber;
      separators := Axis.Separators(now);
      pushedBids, pushedAsks := [], [];
    }

    /** Empties both series. The new state does not depend on the old
        one, so clearing twice leaves the same state as clearing once. */
    method ClearGraph()
      modifies this`bidValues, this`askValues, this`pushedBids, this`pushedAsks
      ensures Valid()
      ensures bidValues == [] && askValues == [] && pushedBids == [] && pushedAsks == []
    {
      bidValues, askValues := [], [];
      pushedBids, pushedAsks := [], [];
    }

    /** One tick of the polling loop on the series: append a point to the
        tail of each, then drop the head of each once if both are over
        the configured count. */
    method Push(bid: Price, ask: Price, now: int)
      requires Valid()
      modifies this`bidValues, this`askValues, this`pushedBids, this`pushedAsks
      ensures Valid()
      ensures pushedBids == old(pushedBids) + [TimePoint(now, bid)]
      ensures pushedAsks == old(pushedAsks) + [TimePoint(now, ask)]
      ensures bidValues == Step(old(bidValues), TimePoint(now, bid), Capacity(tickNumber))
      ensures askValues == Step(old(askValues), TimePoint(now, ask), Capacity(tickNumber))
    {
      var cap := Capacity(tickNumber);
      ghost var oldBids, oldAsks := bidValues, askValues;
      bidValues := bidValues + [TimePoint(now, bid)];
      askValues := askValues + [TimePoint(now, ask)];
      CapacityThreshold(tickNumber, |bidValues|);
      if |bidValues| as real > tickNumber && |askValues| as real > tickNumber {
        bidValues := bidValues[1..];
        askValues := askValues[1..];
      }
      assert bidValues == Step(oldBids, TimePoint(now, bid), cap);
      assert askValues == Step(oldAsks, TimePoint(now, ask), cap);
      WindowPush(pushedBids, TimePoint(now, bid), cap);
      WindowPush(pushedAsks, TimePoint(now, ask), cap);
      pushedBids := pushedBids + [TimePoint(now, bid)];
      pushedAsks := pushedAsks + [TimePoint(now, ask)];
      WindowContents(pushedBids, cap);
      WindowContents(pushedAsks, cap);
    }

    /** Scans one response: the held prices become those of `Receive`, and
        `ok` is false exactly when the scan raised an error. */
    method ReceiveData(payload: string, parse: string -> Option<Price>) returns (ok: bool)
      modifies this`receivedBid, this`receivedAsk
      ensures Received(ok, Quote(receivedBid, receivedAsk))
           == Receive(payload, parse, Quote(old(receivedBid), old(receivedAsk)))
    {
      var fields := Split(payload, FieldSeparator);
      ghost var prior := Quote(receivedBid, receivedAsk);
      assert fields[..0] == [];
      var i := 0;
      while i < |fields|
        invariant 0 <= i <= |fields|
        invariant forall k :: 0 <= k < i ==> !Malformed(fields[k], parse)
        invariant Quote(receivedBid, receivedAsk) == Scan(fields[..i], parse, prior).quote
      {
        var field := fields[i];
        ghost var before := Quote(receivedBid, receivedAsk);
        if Contains(field, BidMarker) {
          if |field| <= PrefixLength {
            ScanStopsAt(fields, i, parse, prior);
            return false;
          }
          var price := parse(PriceText(field));
          if price.None? {
            ScanStopsAt(fields, i, parse, prior);
            return false;
          }
          receivedBid := price.value;
        }
        if Contains(field, AskMarker) {
          if |field| <= PrefixLength {
            ScanStopsAt(fields, i, parse, prior);
            return false;
          }
          var price := parse(PriceText(field));
          if price.None? {
            ScanStopsAt(fields, i, parse, prior);
            return false;
          }
          receivedAsk := price.value;
        }
        ScanStep(fields, i, parse, prior);
        assert Quote(receivedBid, receivedAsk) ==
          Quote(if Contains(field, BidMarker) then FieldPrice(field, parse).value else before.bid,
                if Contains(field, AskMarker) then FieldPrice(field, parse).value else before.ask);
        i := i + 1;
      }
      assert fields[..i] == fields;
      return true;
    }

    /** One iteration of the polling loop: scan the response, and when the
        scan succeeds push the held prices stamped with the clock reading
        and recompute the axis separators. A failed scan raises before the
        series are touched. */
    method Tick(poll: Poll, parse: string -> Option<Price>) returns (ok: bool)
      requires Valid()
      modifies this`bidValues, this`askValues, this`pushedBids, this`pushedAsks
      modifies this`receivedBid, this`receivedAsk, this`separators
      ensures Valid()
      ensures Received(ok, Quote(receivedBid, receivedAsk))
           == Receive(poll.payload, parse, Quote(old(receivedBid), old(receivedAsk)))
      ensures ok ==> (pushedBids == old(pushedBids) + [TimePoint(poll.now, receivedBid)] &&
                      pushedAsks == old(pushedAsks) + [TimePoint(poll.now, receivedAsk)] &&
                      separators == Axis.Separators(poll.now))
      ensures !ok ==> (pushedBids == old(pushedBids) && pushedAsks == old(pushedAsks) &&
                       bidValues == old(bidValues) && askValues == old(askValues) &&
                       separators == old(separators))
    {
      ok := ReceiveData(poll.payload, parse);
      if ok {
        Push(receivedBid, receivedAsk, poll.now);
        separators := Axis.Separators(poll.now);
      }
    }

    /** The chart after the first |done| ticks of a session over `polls`
        pushed the quotes `done`: both series are the windows of the
        stamped pushes, and the separators are those of the last push
        (or `separators0` before any). */
    ghost predicate Charted(polls: seq<Poll>, done: seq<Quote>, separators0: seq<int>)
      reads this
    {
      |done| <= |polls| && Valid() &&
      pushedBids == Points(polls, done, true) && pushedAsks == Points(polls, done, false) &&
      separators == if done == [] then separators0 else Axis.Separators(polls[|done| - 1].now)
    }

    /** Pushing the stamped prices of the next tick and recomputing the
        separators charts one more tick. */
    lemma ChartedPush(polls: seq<Poll>, done: seq<Quote>, q: Quote, separators0: seq<int>)
      requires |done| < |polls| && Valid()
      requires pushedBids == Points(polls, done, true) + [TimePoint(polls[|done|].now, q.bid)]
      requires pushedAsks == Points(polls, done, false) + [TimePoint(polls[|done|].now, q.ask)]
      requires separators == Axis.Separators(polls[|done|].now)
      ensures Charted(polls, done + [q], separators0)
    {
      PointsPush(polls, done, q);
      assert (done + [q])[..|done|] == done;
    }

    /** The session over `polls` from `prior` is `done` followed by the
        session over the remaining responses from the held prices. */
    ghost predicate Resumes(polls: seq<Poll>, parse: string -> Option<Price>, prior: Quote, done: seq<Quote>)
      reads this
      requires |done| <= |polls|
    {
      var rest := Replay(polls[|done|..], parse, Quote(receivedBid, receivedAsk));
      Replay(polls, parse, prior) == Session(done + rest.pushed, rest.quote)
    }

    /** The tick after the first |done| ticks of a session: on success the
        chart and the session so far extend by the held prices, on failure
        the chart is unchanged and the session has ended with the prices
        the failed scan left. */
    method Advance(polls: seq<Poll>, i: nat, parse: string -> Option<Price>,
                   ghost prior: Quote, ghost done: seq<Quote>, ghost separators0: seq<int>)
        returns (ok: bool)
      requires i == |done| < |polls| && Charted(polls, done, separators0) && Resumes(polls, parse, prior, done)
      modifies this`bidValues, this`askValues, this`pushedBids, this`pushedAsks
      modifies this`receivedBid, this`receivedAsk, this`separators
      ensures ok ==> (var next := done + [Quote(receivedBid, receivedAsk)];
        Charted(polls, next, separators0) && Resumes(polls, parse, prior, next))
      ensures !ok ==> (Charted(polls, done, separators0) &&
        Replay(polls, parse, prior) == Session(done, Quote(receivedBid, receivedAsk)))
    {
      ghost var here := Quote(receivedBid, receivedAsk);
      ok := Tick(polls[i], parse);
      ghost var q := Quote(receivedBid, receivedAsk);
      ReplayAdvance(polls, i, parse, prior, done, here, Received(ok, q));
      if ok {
        ChartedPush(polls, done, q, separators0);
      }
    }

    /** A chart that holds the pushes of a whole session is its outcome. */
    lemma Finished(polls: seq<Poll>, parse: string -> Option<Price>, prior: Quote,
                   done: seq<Quote>, completed: nat, separators0: seq<int>)
      requires completed == |done| && Charted(polls, done, separators0)
      requires Replay(polls, parse, prior) == Session(done, Quote(receivedBid, receivedAsk))
      ensures Valid()
      ensures var s := Replay(polls, parse, prior);
        completed == |s.pushed| && Quote(receivedBid, receivedAsk) == s.quote &&
        |pushedBids| == completed && |pushedAsks| == completed &&
        forall k :: 0 <= k < completed ==>
          pushedBids[k] == TimePoint(polls[k].now, s.pushed[k].bid) &&
          pushedAsks[k] == TimePoint(polls[k].now, s.pushed[k].ask)
      ensures separators == if completed == 0 then separators0
                            else Axis.Separators(polls[completed - 1].now)
    {
      Stamped(polls, done, pushedBids, pushedAsks);
    }

    /** A polling session: clear the chart, then for each response scan it,
        push the held prices stamped with the clock reading, and recompute
        the axis separators; stop at the first response that fails to
        scan. `completed` is the number of ticks that pushed. */
    method DrawGraph(polls: seq<Poll>, parse: string -> Option<Price>) returns (completed: nat)
      modifies this
      ensures Valid() && tickNumber == old(tickNumber)
      ensures var s := Replay(polls, parse, Quote(old(receivedBid), old(receivedAsk)));
        completed == |s.pushed| && Quote(receivedBid, receivedAsk) == s.quote &&
        |pushedBids| == completed && |pushedAsks| == completed &&
        forall k :: 0 <= k < completed ==>
          pushedBids[k] == TimePoint(polls[k].now, s.pushed[k].bid) &&
          pushedAsks[k] == TimePoint(polls[k].now, s.pushed[k].ask)
      ensures separators == if completed == 0 then old(separators)
                            else Axis.Separators(polls[completed - 1].now)
    {
      ClearGraph();
      ghost var prior := Quote(old(receivedBid), old(receivedAsk));
      assert prior == Quote(receivedBid, receivedAsk) && polls[0..] == polls;
      ghost var done;
      completed, done := Run(polls, parse, prior, old(separators));
      Finished(polls, parse, prior, done, completed, old(separators));
    }

    /** The polling loop of a session over `polls` on a cleared chart: it
        ends when the responses run out or a scan fails, with the chart of
        the ticks that pushed and the prices of the whole session. */
    method Run(polls: seq<Poll>, parse: string -> Option<Price>, ghost prior: Quote, ghost separators0: seq<int>)
        returns (completed: nat, ghost done: seq<Quote>)
      requires Charted(polls, [], separators0) && Resumes(polls, parse, prior, [])
      modifies this`bidValues, this`askValues, this`pushedBids, this`pushedAsks
      modifies this`receivedBid, this`receivedAsk, this`separators
      ensures |done| == completed && Charted(polls, done, separators0)
      ensures Replay(polls, parse, prior) == Session(done, Quote(receivedBid, receivedAsk))
    {
      done := [];
      completed := 0;
      while completed < |polls|
        invariant completed <= |polls| && |done| == completed
        invariant Charted(polls, done, separators0) && Resumes(polls, parse, prior, done)
      {
        var ok := Advance(polls, completed, parse, prior, done, separators0);
        if !ok {
          return;
        }
        done := done + [Quote(receivedBid, receivedAsk)];
        completed := completed + 1;
      }
      assert done + [] == done;
    }
  }
}
