/** The DNS provider the scripts talk to over HTTP, reduced to what they rely on:
    per zone, a table of records, each with a provider-assigned id; calls to
    list, create, update and delete records; and an oracle that decides how the
    provider answers each call (accepts it, fails in transport, or answers with
    `success: false`). */
module Provider {
  import opened Values

  /** A record as the provider stores and lists it. */
  datatype Live = Live(id: nat, rtype: string, name: string, content: string,
                       ttl: int, proxied: bool, priority: Option<int>)
  {
    /** The key the reconciliation matches on: `(type, name)`. */
    function Key(): (string, string) { (rtype, name) }
  }

  /** The body of a create or update request. */
  datatype Payload = Payload(rtype: string, name: string, content: string,
                             ttl: int, proxied: bool, priority: Option<int>)

  /** The record the provider keeps for an accepted payload. */
  function Stored(id: nat, p: Payload): (r: Live)
    ensures r.id == id && r.Key() == (p.rtype, p.name)
  {
    Live(id, p.rtype, p.name, p.content, p.ttl, p.proxied, p.priority)
  }

  /** How the provider answers one call. */
  datatype Reply =
    | Accept                  // success
    | Reject(message: string) // transport error or HTTP error status
    | Decline                 // a response with `success: false`

  const UnknownZone := "unknown zone"
  const UnknownRecord := "unknown record id"

  /** Everything the provider holds: the zones' tables, the answers it will
      give to the coming calls, and the next id it will assign. */
  datatype State = State(zones: map<string, seq<Live>>, replies: seq<Reply>, nextId: nat)

  /** The answer to the next call; once the oracle is exhausted every call succeeds. */
  function Head(replies: seq<Reply>): Reply {
    if replies == [] then Accept else replies[0]
  }

  function Tail(replies: seq<Reply>): seq<Reply> {
    if replies == [] then [] else replies[1..]
  }

  predicate HasId(rs: seq<Live>, id: nat) {
    exists i :: 0 <= i < |rs| && rs[i].id == id
  }

  /** The records of `rs` with the given name, in order (the `name=` filter of a listing). */
  function Named(rs: seq<Live>, name: string): (r: seq<Live>)
    ensures forall x :: x in r <==> x in rs && x.name == name
    ensures |r| <= |rs|
  {
    if rs == [] then []
    else (if rs[0].name == name then [rs[0]] else []) + Named(rs[1..], name)
  }

  /** Filtering by name keeps the order and the multiplicity of the records:
      it distributes over concatenation, one record at a time. */
  lemma {:induction false} NamedAppend(a: seq<Live>, b: seq<Live>, name: string)
    ensures Named(a + b, name) == Named(a, name) + Named(b, name)
    decreases |a|
  {
    if a != [] {
      assert (a + b)[1..] == a[1..] + b;
      NamedAppend(a[1..], b, name);
    } else {
      assert a + b == b;
    }
  }

  function WithoutId(rs: seq<Live>, id: nat): (r: seq<Live>)
    ensures forall x :: x in r <==> x in rs && x.id != id
  {
    if rs == [] then []
    else (if rs[0].id == id then [] else [rs[0]]) + WithoutId(rs[1..], id)
  }

  /** An update in the table, position by position; what a deploy relies on is
      proved in `DeployDns.DeployStoresRecord`. */
  function ReplaceId(rs: seq<Live>, id: nat, l: Live): (r: seq<Live>)
    ensures |r| == |rs|
    ensures forall i :: 0 <= i < |rs| ==> r[i] == if rs[i].id == id then l else rs[i]
  {
    seq(|rs|, i requires 0 <= i < |rs| => if rs[i].id == id then l else rs[i])
  }

  /** The outcome of one provider call: the reply, what it returned, and the new state. */
  datatype Step<T> = Step(reply: Reply, value: T, next: State)

  function Consume(s: State): State {
    s.(replies := Tail(s.replies))
  }

  /** `GET zones/{zone}/dns_records[?name=...]` */
  function ListStep(s: State, zone: string, name: Option<string>): (r: Step<seq<Live>>)
    ensures r.next.zones == s.zones && r.next.nextId == s.nextId
    ensures r.reply != Accept ==> r.value == []
  {
    var reply := if zone !in s.zones then Reject(UnknownZone) else Head(s.replies);
    var rs := if reply != Accept then []
              else if name.Some? then Named(s.zones[zone], name.value)
              else s.zones[zone];
    Step(reply, rs, Consume(s))
  }

  /** `POST zones/{zone}/dns_records`: an accepted record gets the next id. */
  function CreateStep(s: State, zone: string, p: Payload): (r: Step<Option<Live>>)
    ensures r.reply == Accept <==> r.value.Some?
    ensures r.reply == Accept ==> r.value.value == Stored(s.nextId, p)
    ensures r.reply != Accept ==> r.next == Consume(s)
  {
    var reply := if zone !in s.zones then Reject(UnknownZone) else Head(s.replies);
    if reply != Accept then Step(reply, None, Consume(s))
    else
      var l := Stored(s.nextId, p);
      Step(Accept, Some(l), State(s.zones[zone := s.zones[zone] + [l]], Tail(s.replies), s.nextId + 1))
  }

  /** `PUT zones/{zone}/dns_records/{id}`: the record keeps its id and takes the payload. */
  function UpdateStep(s: State, zone: string, id: nat, p: Payload): (r: Step<Option<Live>>)
    ensures r.reply == Accept <==> r.value.Some?
    ensures r.reply == Accept ==> r.value.value == Stored(id, p)
    ensures r.reply != Accept ==> r.next == Consume(s)
    ensures r.next.nextId == s.nextId
  {
    var reply := if zone !in s.zones then Reject(UnknownZone)
                 else if !HasId(s.zones[zone], id) then Reject(UnknownRecord)
                 else Head(s.replies);
    if reply != Accept then Step(reply, None, Consume(s))
    else
      var l := Stored(id, p);
      Step(Accept, Some(l), State(s.zones[zone := ReplaceId(s.zones[zone], id, l)], Tail(s.replies), s.nextId))
  }

  /** `DELETE zones/{zone}/dns_records/{id}` */
  function DeleteStep(s: State, zone: string, id: nat): (r: Step<bool>)
    ensures r.value <==> r.reply == Accept
    ensures r.reply != Accept ==> r.next == Consume(s)
    ensures r.next.nextId == s.nextId
  {
    var reply := if zone !in s.zones then Reject(UnknownZone)
                 else if !HasId(s.zones[zone], id) then Reject(UnknownRecord)
                 else Head(s.replies);
    if reply != Accept then Step(reply, false, Consume(s))
    else Step(Accept, true, State(s.zones[zone := WithoutId(s.zones[zone], id)], Tail(s.replies), s.nextId))
  }

  /** The provider as an object whose tables the calls change in place. */
  class DnsProvider {
    var zones: map<string, seq<Live>>
    var replies: seq<Reply>
    var nextId: nat

    constructor (zones: map<string, seq<Live>>, replies: seq<Reply>, nextId: nat)
      ensures Snapshot() == State(zones, replies, nextId)
    {
      this.zones := zones;
      this.replies := replies;
      this.nextId := nextId;
    }

    function Snapshot(): State
      reads this
    {
      State(zones, replies, nextId)
    }

    method Restore(s: State)
      modifies this
      ensures Snapshot() == s
    {
      zones, replies, nextId := s.zones, s.replies, s.nextId;
    }

    method List(zone: string, name: Option<string>) returns (reply: Reply, records: seq<Live>)
      modifies this
      ensures Step(reply, records, Snapshot()) == ListStep(old(Snapshot()), zone, name)
    {
      var r := ListStep(Snapshot(), zone, name);
      Restore(r.next);
      reply, records := r.reply, r.value;
    }

    method Create(zone: string, p: Payload) returns (reply: Reply, created: Option<Live>)
      modifies this
      ensures Step(reply, created, Snapshot()) == CreateStep(old(Snapshot()), zone, p)
    {
      var r := CreateStep(Snapshot(), zone, p);
      Restore(r.next);
      reply, created := r.reply, r.value;
    }

    method Update(zone: string, id: nat, p: Payload) returns (reply: Reply, updated: Option<Live>)
      modifies this
      ensures Step(reply, updated, Snapshot()) == UpdateStep(old(Snapshot()), zone, id, p)
    {
      var r := UpdateStep(Snapshot(), zone, id, p);
      Restore(r.next);
      reply, updated := r.reply, r.value;
    }

    method Delete(zone: string, id: nat) returns (reply: Reply, deleted: bool)
      modifies this
      ensures Step(reply, deleted, Snapshot()) == DeleteStep(old(Snapshot()), zone, id)
    {
      var r := DeleteStep(Snapshot(), zone, id);
      Restore(r.next);
      reply, deleted := r.reply, r.value;
    }
  }
}
