/** The remote side of the mirror: one IMAP mailbox that keeps changing while the
    worker reads it, and the read-only commands the worker issues. */
module MailServer {
  import opened Prelude

  datatype Flags = Flags(seen: bool, flagged: bool, answered: bool)

  /** The parts of a message that never change: what the header parser extracts,
      and the server's arrival time that stands in for an absent Date header. */
  datatype Envelope = Envelope(subject: string, headerDate: Option<int>, internalDate: Option<int>)

  datatype Message = Message(envelope: Envelope, flags: Flags)

  datatype Mailbox = Mailbox(validity: nat, uidNext: nat, messages: map<nat, Message>)

  ghost predicate WellFormed(m: Mailbox) {
    0 < m.uidNext && forall u :: u in m.messages ==> 0 < u < m.uidNext
  }

  /** `later` is a legal successor of `earlier` (section 2.3.1.1 of RFC 3501): UIDVALIDITY never
      goes back; under one UIDVALIDITY, UIDNEXT never goes back, an expunged UID never returns and
      a UID keeps naming the same immutable message. Flags are free to change. */
  ghost predicate Evolves(earlier: Mailbox, later: Mailbox) {
    && WellFormed(earlier)
    && WellFormed(later)
    && earlier.validity <= later.validity
    && (earlier.validity == later.validity ==>
          && earlier.uidNext <= later.uidNext
          && forall u :: u in later.messages && u < earlier.uidNext ==>
               u in earlier.messages && later.messages[u].envelope == earlier.messages[u].envelope)
  }

  /** The mailbox at every instant. A pass that takes a trace has its awaits at consecutive instants of it. */
  type Trace = nat -> Mailbox

  ghost predicate LegalTrace(trace: Trace) {
    forall i: nat, j: nat :: i <= j ==> Evolves(trace(i), trace(j))
  }

  /** A schedule: the instant at which each of a reader's awaits falls, in order. Any number of instants may go by during
      one await, and any number of awaits may fall on one instant. */
  ghost predicate Forward(at: nat -> nat) {
    forall i: nat, j: nat :: i <= j ==> at(i) <= at(j)
  }

  /** The mailbox as a reader on this schedule meets it, await by await. */
  ghost function Sampled(trace: Trace, at: nat -> nat): Trace {
    (i: nat) => trace(at(i))
  }

  lemma SampledIsLegal(trace: Trace, at: nat -> nat)
    requires LegalTrace(trace) && Forward(at)
    ensures LegalTrace(Sampled(trace, at))
  {
    hide Evolves;
    forall i: nat, j: nat | i <= j ensures Evolves(Sampled(trace, at)(i), Sampled(trace, at)(j)) {
      assert at(i) <= at(j);
    }
  }

  /** UIDVALIDITY does not change in the closed interval. */
  ghost predicate Stable(trace: Trace, start: nat, end: nat) {
    forall t: nat :: start <= t <= end ==> trace(t).validity == trace(start).validity
  }

  /** From `start` on nothing changes at all. */
  ghost predicate Quiescent(trace: Trace, start: nat) {
    forall t: nat :: start <= t ==> trace(t) == trace(start)
  }

  /** UID SEARCH ALL, sorted. */
  function ListUids(m: Mailbox): seq<nat> {
    Sorted(m.messages.Keys)
  }

  datatype Header = Header(uid: nat, envelope: Envelope, flags: Flags)

  function HeaderOf(m: Mailbox, u: nat): Header
    requires u in m.messages
  {
    Header(u, m.messages[u].envelope, m.messages[u].flags)
  }

  function HeadersFor(m: Mailbox, uids: seq<nat>): (r: seq<Header>)
    requires forall i :: 0 <= i < |uids| ==> uids[i] in m.messages
    ensures |r| == |uids| && forall i :: 0 <= i < |r| ==> r[i] == HeaderOf(m, uids[i])
  {
    if uids == [] then [] else [HeaderOf(m, uids[0])] + HeadersFor(m, uids[1..])
  }

  function Present(m: Mailbox, uids: seq<nat>): (r: seq<nat>)
    ensures Ascending(r)
    ensures forall i :: 0 <= i < |r| ==> r[i] in m.messages && r[i] in uids
    ensures forall u :: u in uids && u in m.messages ==> u in r
  {
    var r := Sorted(set u | u in uids && u in m.messages);
    assert forall i :: 0 <= i < |r| ==> r[i] in r;
    r
  }

  /** UID FETCH of headers and flags, in UID order; UIDs that are gone are omitted. */
  function FetchHeaders(m: Mailbox, uids: seq<nat>): seq<Header> {
    HeadersFor(m, Present(m, uids))
  }

  /** UID FETCH of flags; UIDs that are gone are omitted. */
  function FetchFlags(m: Mailbox, uids: seq<nat>): map<nat, Flags> {
    map u | u in uids && u in m.messages :: m.messages[u].flags
  }
}
