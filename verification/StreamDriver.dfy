/// The loop that pairs requests for streams with the streams a tunnel's multiplexer opens. Polls of the
/// request channel and of the multiplexer are an oracle: each source carries the answers it will
/// give, and has nothing to report once they run out.
module StreamDriver {
  import opened Protocol

  datatype Poll<+T> = Ready(value: T) | NotReady

  /// A request for one stream, identified by its reply channel.
  type Request = nat

  datatype Outbound = Opened(stream: nat) | Failed

  datatype Inbound = Unexpected | Ended

  datatype Reply = Stream(stream: nat) | Closed

  datatype Answer = Answer(request: Request, reply: Reply)

  /// One poll and what it returned, as the driver saw it.
  datatype Observation =
    | SawRequest(request: Poll<Option<Request>>)
    | SawOutbound(outbound: Poll<Outbound>)
    | SawInbound(inbound: Poll<Inbound>)

  /// How one wake-up of the driver ended: waiting for the next one, or finished for good.
  datatype Finish = Waiting | HandlesGone | OutboundFailed | InboundEnded

  function RequestsOf(answers: seq<Answer>): seq<Request> {
    seq(|answers|, i requires 0 <= i < |answers| => answers[i].request)
  }

  /// The streams handed to requesters, in order.
  function GivenOut(answers: seq<Answer>): seq<nat> {
    if answers == [] then []
    else
      var last := answers[|answers| - 1];
      GivenOut(answers[..|answers| - 1]) + if last.reply.Stream? then [last.reply.stream] else []
  }

  /// The streams the multiplexer opened, in order.
  function OpenedIn(trace: seq<Observation>): seq<nat> {
    if trace == [] then []
    else
      var last := trace[|trace| - 1];
      OpenedIn(trace[..|trace| - 1])
      + if last.SawOutbound? && last.outbound.Ready? && last.outbound.value.Opened?
        then [last.outbound.value.stream] else []
  }

  /// The requests that arrived, in order.
  function ArrivedIn(trace: seq<Observation>): seq<Request> {
    if trace == [] then []
    else
      var last := trace[|trace| - 1];
      ArrivedIn(trace[..|trace| - 1])
      + if last.SawRequest? && last.request.Ready? && last.request.value.Some? then [last.request.value.value] else []
  }

  /// The finish an observation leads to, if it ends the driver.
  function EndOf(seen: Observation): Option<Finish> {
    match seen
    case SawRequest(Ready(None)) => Some(HandlesGone)
    case SawOutbound(Ready(Failed)) => Some(OutboundFailed)
    case SawInbound(Ready(Ended)) => Some(InboundEnded)
    case _ => None
  }

  /// Nothing observed from `first` up to `n` ends the driver.
  predicate GoesOn(trace: seq<Observation>, first: nat, n: nat) {
    forall k :: first <= k < n && k < |trace| ==> EndOf(trace[k]).None?
  }

  /// The last observation, and no earlier one from `first` on, ends the driver with this finish.
  predicate EndsWith(trace: seq<Observation>, first: nat, finish: Finish) {
    first < |trace| && EndOf(trace[|trace| - 1]) == Some(finish) && GoesOn(trace, first, |trace| - 1)
  }

  lemma OneMore(trace: seq<Observation>, first: nat, seen: Observation)
    requires first <= |trace| && GoesOn(trace, first, |trace|)
    ensures match EndOf(seen)
            case None => GoesOn(trace + [seen], first, |trace| + 1)
            case Some(finish) => EndsWith(trace + [seen], first, finish)
  {}

  /// The last pass polled every source it needed, and none had anything to report.
  ghost predicate FoundNothing(trace: seq<Observation>, idle: bool) {
    exists earlier :: trace == PassOver(earlier, idle)
  }

  function PassOver(earlier: seq<Observation>, idle: bool): seq<Observation> {
    earlier + [SawRequest(NotReady)] + (if idle then [] else [SawOutbound(NotReady)]) + [SawInbound(NotReady)]
  }

  lemma OneMoreInbound(trace: seq<Observation>, first: nat)
    requires first <= |trace| && GoesOn(trace, first, |trace|)
    ensures forall polled ::
              if polled == Ready(Ended) then EndsWith(trace + [SawInbound(polled)], first, InboundEnded)
              else GoesOn(trace + [SawInbound(polled)], first, |trace| + 1)
  {
    forall polled
      ensures if polled == Ready(Ended) then EndsWith(trace + [SawInbound(polled)], first, InboundEnded)
              else GoesOn(trace + [SawInbound(polled)], first, |trace| + 1)
    {
      OneMore(trace, first, SawInbound(polled));
    }
  }

  lemma OneMoreOutbound(trace: seq<Observation>, first: nat)
    requires first <= |trace| && GoesOn(trace, first, |trace|)
    ensures forall polled ::
              if polled == Ready(Failed) then EndsWith(trace + [SawOutbound(polled)], first, OutboundFailed)
              else GoesOn(trace + [SawOutbound(polled)], first, |trace| + 1)
  {
    forall polled
      ensures if polled == Ready(Failed) then EndsWith(trace + [SawOutbound(polled)], first, OutboundFailed)
              else GoesOn(trace + [SawOutbound(polled)], first, |trace| + 1)
    {
      OneMore(trace, first, SawOutbound(polled));
    }
  }

  lemma EndsWithLast(drained: seq<Observation>, idle: bool)
    requires drained != [] && drained[|drained| - 1] == SawRequest(NotReady)
    ensures FoundNothing(drained + (if idle then [] else [SawOutbound(NotReady)]) + [SawInbound(NotReady)], idle)
  {
    var earlier := drained[..|drained| - 1];
    assert drained == earlier + [SawRequest(NotReady)];
    assert drained + (if idle then [] else [SawOutbound(NotReady)]) + [SawInbound(NotReady)] == PassOver(earlier, idle);
  }

  class Driver {
    /// What the sources will answer to the polls still to come.
    var requests: seq<Poll<Option<Request>>>
    var outbound: seq<Poll<Outbound>>
    var inbound: seq<Poll<Inbound>>
    var pending: seq<Request>
    ghost var trace: seq<Observation>
    ghost var answered: seq<Answer>

    /// Requests received are those answered followed by those pending, and every stream the
    /// multiplexer opened was given to a requester.
    ghost predicate Valid()
      reads this
    {
      && ArrivedIn(trace) == RequestsOf(answered) + pending
      && OpenedIn(trace) == GivenOut(answered)
    }

    constructor (requests: seq<Poll<Option<Request>>>, outbound: seq<Poll<Outbound>>, inbound: seq<Poll<Inbound>>)
      ensures Valid() && pending == [] && answered == [] && trace == []
      ensures this.requests == requests && this.outbound == outbound && this.inbound == inbound
    {
      this.requests, this.outbound, this.inbound := requests, outbound, inbound;
      pending, trace, answered := [], [], [];
    }

    method PollRequest() returns (polled: Poll<Option<Request>>)
      modifies this`requests, this`trace
      ensures if old(requests) == [] then polled == NotReady && requests == []
              else polled == old(requests)[0] && requests == old(requests)[1..]
      ensures trace == old(trace) + [SawRequest(polled)]
      ensures polled.Ready? ==> |requests| < |old(requests)|
      ensures |requests| <= |old(requests)|
      ensures ArrivedIn(trace) == ArrivedIn(old(trace))
                                  + if polled.Ready? && polled.value.Some? then [polled.value.value] else []
      ensures OpenedIn(trace) == OpenedIn(old(trace))
    {
      if requests == [] {
        polled := NotReady;
      } else {
        polled, requests := requests[0], requests[1..];
      }
      trace := trace + [SawRequest(polled)];
      assert trace[..|trace| - 1] == old(trace);
    }

    method PollNewOutbound() returns (polled: Poll<Outbound>)
      modifies this`outbound, this`trace
      ensures if old(outbound) == [] then polled == NotReady && outbound == []
              else polled == old(outbound)[0] && outbound == old(outbound)[1..]
      ensures trace == old(trace) + [SawOutbound(polled)]
      ensures polled.Ready? ==> |outbound| < |old(outbound)|
      ensures |outbound| <= |old(outbound)|
      ensures ArrivedIn(trace) == ArrivedIn(old(trace))
      ensures OpenedIn(trace) == OpenedIn(old(trace))
                                 + if polled.Ready? && polled.value.Opened? then [polled.value.stream] else []
    {
      if outbound == [] {
        polled := NotReady;
      } else {
        polled, outbound := outbound[0], outbound[1..];
      }
      trace := trace + [SawOutbound(polled)];
      assert trace[..|trace| - 1] == old(trace);
    }

    method PollNextInbound() returns (polled: Poll<Inbound>)
      modifies this`inbound, this`trace
      ensures if old(inbound) == [] then polled == NotReady && inbound == []
              else polled == old(inbound)[0] && inbound == old(inbound)[1..]
      ensures trace == old(trace) + [SawInbound(polled)]
      ensures polled.Ready? ==> |inbound| < |old(inbound)|
      ensures |inbound| <= |old(inbound)|
      ensures ArrivedIn(trace) == ArrivedIn(old(trace)) && OpenedIn(trace) == OpenedIn(old(trace))
    {
      if inbound == [] {
        polled := NotReady;
      } else {
        polled, inbound := inbound[0], inbound[1..];
      }
      trace := trace + [SawInbound(polled)];
      assert trace[..|trace| - 1] == old(trace);
    }

    /// Answers the request that has waited longest.
    method AnswerFront(reply: Reply)
      requires pending != []
      modifies this`pending, this`answered
      ensures pending == old(pending)[1..]
      ensures answered == old(answered) + [Answer(old(pending)[0], reply)]
      ensures RequestsOf(answered) + pending == RequestsOf(old(answered)) + old(pending)
      ensures GivenOut(answered) == GivenOut(old(answered)) + if reply.Stream? then [reply.stream] else []
    {
      var request := pending[0];
      pending := pending[1..];
      answered := answered + [Answer(request, reply)];
      assert answered[..|answered| - 1] == old(answered);
    }

    /// Polls the channel once and queues the request it has, if any.
    method TakeRequest() returns (polled: Poll<Option<Request>>)
      requires Valid()
      modifies this`requests, this`pending, this`trace
      ensures Valid()
      ensures trace == old(trace) + [SawRequest(polled)]
      ensures pending == old(pending) + if polled.Ready? && polled.value.Some? then [polled.value.value] else []
      ensures polled.Ready? ==> |requests| < |old(requests)|
    {
      polled := PollRequest();
      if polled.Ready? && polled.value.Some? {
        pending := pending + [polled.value.value];
        assert RequestsOf(answered) + pending == RequestsOf(answered) + old(pending) + [polled.value.value];
      }
    }

    /// The observations from `first` up to the last one are requests that arrived.
    ghost predicate OnlyArrivals(first: nat)
      reads this
    {
      forall k :: first <= k < |trace| - 1 ==>
        trace[k].SawRequest? && trace[k].request.Ready? && trace[k].request.value.Some?
    }

    /// Takes every request the channel has, and nothing else; reports whether the channel is closed.
    method DrainRequests() returns (closed: bool)
      requires Valid()
      modifies this`requests, this`pending, this`trace
      ensures Valid() && old(trace) <= trace && old(pending) <= pending
      ensures |old(trace)| < |trace| && OnlyArrivals(|old(trace)|)
      ensures if closed then EndsWith(trace, |old(trace)|, HandlesGone) else GoesOn(trace, |old(trace)|, |trace|)
      ensures trace[|trace| - 1] == SawRequest(if closed then Ready(None) else NotReady)
      ensures |pending| - |old(pending)| == |trace| - 1 - |old(trace)|
    {
      while true
        invariant Valid() && old(trace) <= trace && old(pending) <= pending
        invariant forall k :: |old(trace)| <= k < |trace| ==>
                    trace[k].SawRequest? && trace[k].request.Ready? && trace[k].request.value.Some?
        invariant |pending| - |old(pending)| == |trace| - |old(trace)|
        decreases |requests|
      {
        var polled := TakeRequest();
        if polled == NotReady {
          return false;
        }
        if polled.value.None? {
          return true;
        }
      }
    }

    /// The answers from `first` on are streams up to `n` and refusals after it.
    ghost predicate ServedThenClosed(first: nat, n: nat)
      reads this
    {
      && first <= n <= |answered|
      && (forall i :: first <= i < n ==> answered[i].reply.Stream?)
      && (forall i :: n <= i < |answered| ==> answered[i].reply == Closed)
    }

    /// One request served, if the multiplexer has a stream ready for it.
    method ServeFront() returns (polled: Poll<Outbound>)
      requires Valid() && pending != []
      modifies this`outbound, this`pending, this`trace, this`answered
      ensures Valid() && trace == old(trace) + [SawOutbound(polled)]
      ensures polled.Ready? ==> |outbound| < |old(outbound)|
      ensures |outbound| <= |old(outbound)|
      ensures if polled.Ready? && polled.value.Opened?
              then pending == old(pending)[1..]
                   && answered == old(answered) + [Answer(old(pending)[0], Stream(polled.value.stream))]
              else pending == old(pending) && answered == old(answered)
    {
      polled := PollNewOutbound();
      if polled.Ready? && polled.value.Opened? {
        AnswerFront(Stream(polled.value.stream));
      }
    }

    /// Opens streams for as long as requests are pending and the multiplexer has one ready.
    method ServePending() returns (progressed: bool, failed: bool)
      requires Valid()
      modifies this`outbound, this`pending, this`trace, this`answered
      ensures Valid() && old(trace) <= trace && old(answered) <= answered
      ensures |outbound| <= |old(outbound)| && (progressed ==> |outbound| < |old(outbound)|)
      ensures |answered| + |pending| == |old(answered)| + |old(pending)|
      ensures ServedThenClosed(|old(answered)|, |answered|)
      ensures if failed then EndsWith(trace, |old(trace)|, OutboundFailed) else GoesOn(trace, |old(trace)|, |trace|)
      ensures !failed && pending != [] ==> trace != [] && trace[|trace| - 1] == SawOutbound(NotReady)
      ensures !failed && !progressed ==>
                && answered == old(answered) && pending == old(pending)
                && trace == old(trace) + if pending == [] then [] else [SawOutbound(NotReady)]
    {
      progressed, failed := false, false;
      while pending != []
        invariant Valid() && old(trace) <= trace && old(answered) <= answered
        invariant |outbound| <= |old(outbound)| && (progressed ==> |outbound| < |old(outbound)|)
        invariant !progressed ==> answered == old(answered) && pending == old(pending) && trace == old(trace)
        invariant |answered| + |pending| == |old(answered)| + |old(pending)|
        invariant ServedThenClosed(|old(answered)|, |answered|)
        invariant GoesOn(trace, |old(trace)|, |trace|)
        decreases |pending|
      {
        OneMoreOutbound(trace, |old(trace)|);
        var polled := ServeFront();
        if polled == NotReady {
          return;
        }
        if polled.value.Failed? {
          return progressed, true;
        }
        progressed := true;
      }
    }

    /// Serves what is pending. A failure answers every request that is still queued.
    method OpenPending() returns (progressed: bool, failed: bool)
      requires Valid()
      modifies this`outbound, this`pending, this`trace, this`answered
      ensures Valid() && old(trace) <= trace && old(answered) <= answered
      ensures |outbound| <= |old(outbound)| && (progressed ==> |outbound| < |old(outbound)|)
      ensures |answered| + |pending| == |old(answered)| + |old(pending)|
      ensures failed ==> pending == [] && exists n :: ServedThenClosed(|old(answered)|, n)
      ensures !failed ==> ServedThenClosed(|old(answered)|, |answered|)
      ensures if failed then EndsWith(trace, |old(trace)|, OutboundFailed) else GoesOn(trace, |old(trace)|, |trace|)
      ensures !failed && !progressed ==>
                && answered == old(answered) && pending == old(pending)
                && trace == old(trace) + if pending == [] then [] else [SawOutbound(NotReady)]
    {
      progressed, failed := ServePending();
      if failed {
        ghost var served := |answered|;
        FailPending();
        assert ServedThenClosed(|old(answered)|, served);
      }
    }

    /// Refuses everything that is queued.
    method FailPending()
      requires Valid()
      modifies this`pending, this`answered
      ensures Valid() && pending == [] && old(answered) <= answered
      ensures |answered| == |old(answered)| + |old(pending)|
      ensures forall i :: |old(answered)| <= i < |answered| ==> answered[i].reply == Closed
    {
      while pending != []
        invariant Valid() && old(answered) <= answered
        invariant |answered| + |pending| == |old(answered)| + |old(pending)|
        invariant forall i :: |old(answered)| <= i < |answered| ==> answered[i].reply == Closed
        decreases |pending|
      {
        AnswerFront(Closed);
      }
    }

    /// Opens what streams it can and looks at the inbound side once. It ends the driver, or says whether
    /// either source was ready.
    method ServeStreams() returns (finish: Option<Finish>, progressed: bool)
      requires Valid()
      modifies this`outbound, this`inbound, this`pending, this`trace, this`answered
      ensures Valid() && old(trace) <= trace && old(answered) <= answered
      ensures finish.None? && progressed ==> |outbound| + |inbound| < |old(outbound)| + |old(inbound)|
      ensures finish.None? && !progressed ==>
                trace == old(trace) + (if pending == [] then [] else [SawOutbound(NotReady)]) + [SawInbound(NotReady)]
      ensures finish == Some(OutboundFailed) ==> pending == [] && exists n :: ServedThenClosed(|old(answered)|, n)
      ensures finish != Some(OutboundFailed) ==> ServedThenClosed(|old(answered)|, |answered|)
      ensures if finish.Some? then EndsWith(trace, |old(trace)|, finish.value) else GoesOn(trace, |old(trace)|, |trace|)
    {
      var served, failed := OpenPending();
      if failed {
        return Some(OutboundFailed), false;
      }
      OneMoreInbound(trace, |old(trace)|);
      var polled := PollNextInbound();
      if polled == Ready(Ended) {
        return Some(InboundEnded), false;
      }
      finish, progressed := None, served || polled.Ready?;
    }

    /// One pass over the three sources. It ends the driver, or says whether anything was ready.
    method PollOnce() returns (finish: Option<Finish>, progressed: bool)
      requires Valid()
      modifies this
      ensures Valid() && old(trace) <= trace && old(answered) <= answered
      ensures finish.None? && progressed ==> |outbound| + |inbound| < |old(outbound)| + |old(inbound)|
      ensures finish.None? && !progressed ==> FoundNothing(trace, pending == [])
      ensures finish == Some(OutboundFailed) ==> pending == [] && exists n :: ServedThenClosed(|old(answered)|, n)
      ensures finish != Some(OutboundFailed) ==> ServedThenClosed(|old(answered)|, |answered|)
      ensures if finish.Some? then EndsWith(trace, |old(trace)|, finish.value) else GoesOn(trace, |old(trace)|, |trace|)
    {
      var closed := DrainRequests();
      if closed {
        return Some(HandlesGone), false;
      }
      ghost var drained := trace;
      finish, progressed := ServeStreams();
      if finish.None? && !progressed {
        EndsWithLast(drained, pending == []);
      }
    }

    /// One wake-up. Requests are answered in arrival order, each at most once, and with streams until
    /// an outbound failure refuses all that are still queued. The driver ends at the first observation
    /// that ends it, with the finish that observation calls for, and otherwise goes back to sleep after a
    /// pass in which every source it polled had nothing to report, so no wake-up is lost.
    method Drive() returns (finish: Finish)
      requires Valid()
      modifies this
      ensures Valid() && old(trace) <= trace && old(answered) <= answered
      ensures finish == OutboundFailed ==> pending == [] && exists n :: ServedThenClosed(|old(answered)|, n)
      ensures finish != OutboundFailed ==> ServedThenClosed(|old(answered)|, |answered|)
      ensures finish == Waiting ==> FoundNothing(trace, pending == [])
      ensures if finish == Waiting then GoesOn(trace, |old(trace)|, |trace|) else EndsWith(trace, |old(trace)|, finish)
    {
      while true
        invariant Valid() && old(trace) <= trace && old(answered) <= answered
        invariant ServedThenClosed(|old(answered)|, |answered|)
        invariant GoesOn(trace, |old(trace)|, |trace|)
        decreases |outbound| + |inbound|
      {
        ghost var served := answered;
        var ended, progressed := PollOnce();
        if ended == Some(OutboundFailed) {
          ghost var n :| ServedThenClosed(|served|, n);
          assert forall i :: 0 <= i < |served| ==> answered[i] == served[i];
          assert ServedThenClosed(|old(answered)|, n);
        }
        if ended.Some? {
          return ended.value;
        }
        if !progressed {
          return Waiting;
        }
      }
    }
  }
}
