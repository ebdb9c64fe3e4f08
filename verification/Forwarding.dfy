/// Carrying a stream along announced routes: the preface every relay extends, the two loop guards,
/// and where a stream ends up when the tables may differ at every hop.
module Forwarding {
  import opened Protocol
  import opened RoutingTable

  datatype Rejection = Loop | Budget(hops: nat) | Unknown(target: Id)

  datatype Extended = Forward(preface: StreamPreface) | Refused(reason: Rejection)

  /// A relay adds itself to the hops of a preface, unless it is on them already or they use up the
  /// budget.
  function Extend(preface: StreamPreface, relay: Id): Extended {
    if relay in preface.hops then Refused(Loop)
    else if |preface.hops| >= MAX_HOPS then Refused(Budget(|preface.hops|))
    else Forward(StreamPreface(preface.v, preface.target, preface.hops + [relay]))
  }

  /// The preface a stream starts with: no hops towards a direct device, this relay otherwise.
  function FirstPreface(v: nat, route: Route, deviceId: Id, relay: Id): StreamPreface {
    StreamPreface(v, deviceId, if route.Direct? then [] else [relay])
  }

  // ---------- a stream that crosses a given list of relays ----------

  function ExtendAll(preface: StreamPreface, relays: seq<Id>): Extended
    decreases |relays|
  {
    if relays == [] then Forward(preface)
    else match Extend(preface, relays[0])
         case Refused(reason) => Refused(reason)
         case Forward(next) => ExtendAll(next, relays[1..])
  }

  /// Every relay of a path forwards a stream exactly when the path visits no relay twice, none that
  /// the stream already crossed, and fits into what is left of the budget.
  lemma {:induction false} PathIsCarriedIff(preface: StreamPreface, relays: seq<Id>)
    requires NoDuplicates(preface.hops)
    ensures ExtendAll(preface, relays).Forward? <==>
            NoDuplicates(preface.hops + relays) && (relays != [] ==> |preface.hops + relays| <= MAX_HOPS)
    ensures ExtendAll(preface, relays).Forward? ==>
            ExtendAll(preface, relays).preface == StreamPreface(preface.v, preface.target, preface.hops + relays)
    decreases |relays|
  {
    if relays == [] {
      assert preface.hops + relays == preface.hops;
    } else {
      var longer := preface.hops + [relays[0]];
      assert longer + relays[1..] == preface.hops + relays;
      match Extend(preface, relays[0])
      case Forward(next) =>
        assert NoDuplicates(longer);
        PathIsCarriedIff(next, relays[1..]);
      case Refused(_) =>
        var all := preface.hops + relays;
        assert all[|preface.hops|] == relays[0];
        if relays[0] in preface.hops {
          var i :| 0 <= i < |preface.hops| && preface.hops[i] == relays[0];
          assert all[i] == all[|preface.hops|];
        }
    }
  }

  /// The relay at which a path is refused is the first that was crossed before, or the first at which
  /// the budget is used up; the refusal names which of the two it was, the former first.
  lemma {:induction false} RefusalNamesItsCause(preface: StreamPreface, relays: seq<Id>, k: nat)
    requires k < |relays| && ExtendAll(preface, relays[..k]).Forward?
    ensures var crossed := preface.hops + relays[..k];
            && (relays[k] in crossed ==> ExtendAll(preface, relays) == Refused(Loop))
            && (relays[k] !in crossed && |crossed| >= MAX_HOPS ==>
                  ExtendAll(preface, relays) == Refused(Budget(|crossed|)))
    decreases k
  {
    if k == 0 {
      assert preface.hops + relays[..0] == preface.hops;
    } else {
      var next := Extend(preface, relays[0]).preface;
      assert relays[..k][0] == relays[0] && relays[..k][1..] == relays[1..][..k - 1];
      RefusalNamesItsCause(next, relays[1..], k - 1);
      assert next.hops + relays[1..][..k - 1] == preface.hops + relays[..k];
    }
  }

  // ---------- a stream through arbitrary tables ----------

  /// A stream opened over a tunnel, with the preface it carries.
  datatype Opening = Opening(over: Handle, preface: StreamPreface)

  datatype Carried = CarriedOn(opening: Opening) | TurnedAway(reason: Rejection)

  /// What a relay with this table does with a stream that arrives at it.
  function CarryIn(table: map<Id, Route>, relay: Id, preface: StreamPreface): Carried {
    match Extend(preface, relay)
    case Refused(reason) => TurnedAway(reason)
    case Forward(next) =>
      if next.target !in table then TurnedAway(Unknown(next.target))
      else CarriedOn(Opening(table[next.target].Link(), next))
  }

  datatype End = Delivered(handle: Handle) | Rejected(reason: Rejection) | LinkLost

  /// The relays that carried a stream on, in order, and how it ended.
  datatype Trip = Trip(carried: seq<Id>, end: End, preface: StreamPreface)

  /// The fate of a stream that arrives at `relay`: refused there, unknown there, at its device, or on to
  /// the relay that `far` names behind the route's tunnel. `routes(n, relay)` is the table the relay has
  /// at the moment of hop `n`, so tables may change on the way.
  function Travel(routes: (nat, Id) -> map<Id, Route>, far: nat -> Option<Id>, n: nat, relay: Id,
                  preface: StreamPreface)
    : Trip
    decreases if |preface.hops| < MAX_HOPS then MAX_HOPS - |preface.hops| else 0
  {
    var table := routes(n, relay);
    match CarryIn(table, relay, preface)
    case TurnedAway(reason) => Trip([], Rejected(reason), preface)
    case CarriedOn(Opening(over, next)) =>
      if table[next.target].Direct? then Trip([relay], Delivered(over), next)
      else if far(over.tunnel).None? then Trip([relay], LinkLost, next)
      else
        var rest := Travel(routes, far, n + 1, far(over.tunnel).value, next);
        Trip([relay] + rest.carried, rest.end, rest.preface)
  }

  /// Whatever the tables say at each hop, whatever hops the stream came with, and even if upward links
  /// form a cycle, a stream is carried on by each relay at most once, by none it had crossed already,
  /// and by no more relays than the budget leaves.
  lemma {:induction false} StreamsTerminate(routes: (nat, Id) -> map<Id, Route>, far: nat -> Option<Id>, n: nat,
                                            relay: Id, preface: StreamPreface)
    ensures var trip := Travel(routes, far, n, relay, preface);
            && NoDuplicates(trip.carried)
            && (forall r :: r in trip.carried ==> r !in preface.hops)
            && (trip.carried != [] ==> |preface.hops| + |trip.carried| <= MAX_HOPS)
            && |trip.preface.hops| <= |preface.hops| + |trip.carried| + 1
    decreases if |preface.hops| < MAX_HOPS then MAX_HOPS - |preface.hops| else 0
  {
    var trip := Travel(routes, far, n, relay, preface);
    if trip.carried != [] && trip.carried != [relay] {
      var next := Extend(preface, relay).preface;
      var link := routes(n, relay)[next.target].link;
      StreamsTerminate(routes, far, n + 1, far(link.tunnel).value, next);
      var rest := Travel(routes, far, n + 1, far(link.tunnel).value, next);
      assert trip.carried == [relay] + rest.carried;
      assert relay in next.hops;
    }
  }
}
