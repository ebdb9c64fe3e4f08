/// The part of the relay protocol the model relies on: identifiers, the hop budget, announcements
/// and stream prefaces. Identifiers are opaque strings; the hop budget is a positive constant whose
/// value the proofs never use.
module Protocol {
  datatype Option<+T> = None | Some(value: T)

  /// A device id or a relay id.
  type Id = string

  type HopBudget = n: nat | n > 0 witness 8

  const MAX_HOPS: HopBudget

  datatype DeviceKind = Desktop | Relay

  datatype AnnouncedDevice = AnnouncedDevice(id: Id, name: string, online: bool, via: seq<Id>)

  /// What a stream carries in front of its payload: where it goes and the relays it has crossed.
  datatype StreamPreface = StreamPreface(v: nat, target: Id, hops: seq<Id>)

  ghost predicate NoDuplicates<T(!new)>(s: seq<T>) {
    forall i, j :: 0 <= i < j < |s| ==> s[i] != s[j]
  }

  /// `order` lists the members of `members`, each once: one possible iteration order of a hash set.
  ghost predicate Enumerates<T(!new)>(order: seq<T>, members: set<T>) {
    && NoDuplicates(order)
    && (forall x :: x in order <==> x in members)
  }
}
