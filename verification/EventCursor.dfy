/** The event stream of the operator command line: reconnecting replays recent events, and a
    bounded cursor that outlives connections drops the ones already shown. */
module EventCursor {
  const MAX_DEDUP_IDS: nat := 4096

  type Id = string

  /** The most recent n elements. */
  function Last(ids: seq<Id>, n: nat): seq<Id> { if |ids| <= n then ids else ids[|ids| - n..] }

  predicate Fresh(accepted: seq<Id>, id: Id) { id !in Last(accepted, MAX_DEDUP_IDS) }

  /** The simple window: an id is accepted unless it is among the last 4096 accepted ids. */
  function Accepted(ids: seq<Id>): seq<Id> {
    if ids == [] then []
    else
      var before, id := Accepted(ids[..|ids| - 1]), ids[|ids| - 1];
      if Fresh(before, id) then before + [id] else before
  }

  lemma AcceptedLast(ids: seq<Id>, id: Id)
    ensures Accepted(ids + [id]) == if Fresh(Accepted(ids), id) then Accepted(ids) + [id] else Accepted(ids)
  {
    assert (ids + [id])[..|ids|] == ids;
  }

  /** Two acceptances of one id have at least 4096 acceptances of other ids between them. */
  lemma {:induction false} AcceptancesAreApart(ids: seq<Id>, i: nat, j: nat)
    requires i < j < |Accepted(ids)| && Accepted(ids)[i] == Accepted(ids)[j]
    ensures j - i > MAX_DEDUP_IDS
    ensures forall k | j - MAX_DEDUP_IDS <= k < j :: Accepted(ids)[k] != Accepted(ids)[j]
  {
    var before := Accepted(ids[..|ids| - 1]);
    if j < |before| {
      AcceptancesAreApart(ids[..|ids| - 1], i, j);
    } else {
      var id := Accepted(ids)[j];
      forall k | j - MAX_DEDUP_IDS <= k < j && 0 <= k ensures before[k] != id {
        var window := Last(before, MAX_DEDUP_IDS);
        assert window[k - (|before| - |window|)] == before[k];
      }
    }
  }

  /** Nothing is lost: a received id that is not accepted was accepted shortly before. */
  lemma {:induction false} DroppedWereAccepted(ids: seq<Id>, id: Id)
    requires id in ids
    ensures id in Accepted(ids)
  {
    var before := ids[..|ids| - 1];
    if id in before {
      DroppedWereAccepted(before, id);
    } else {
      var window := Last(Accepted(before), MAX_DEDUP_IDS);
      assert forall x | x in window :: x in Accepted(before);
    }
  }

  predicate Distinct(ids: seq<Id>) { forall i, j | 0 <= i < j < |ids| :: ids[i] != ids[j] }

  class Cursor {
    var seenIds: set<Id>
    var seenOrder: seq<Id>
    ghost var accepted: seq<Id>

    /** Set and queue hold the same duplicate-free ids: the last 4096 accepted. */
    ghost predicate Valid()
      reads this
    {
      && seenOrder == Last(accepted, MAX_DEDUP_IDS)
      && Distinct(seenOrder)
      && (forall id :: id in seenIds <==> id in seenOrder)
    }

    constructor ()
      ensures Valid() && accepted == []
    {
      seenIds, seenOrder, accepted := {}, [], [];
    }

    method Accept(id: Id) returns (fresh_: bool)
      requires Valid()
      modifies this
      ensures Valid()
      ensures fresh_ == Fresh(old(accepted), id)
      ensures accepted == if fresh_ then old(accepted) + [id] else old(accepted)
    {
      if id in seenIds {
        return false;
      }
      seenIds := seenIds + {id};
      seenOrder := seenOrder + [id];
      accepted := accepted + [id];
      if |seenOrder| > MAX_DEDUP_IDS {
        var expired := seenOrder[0];
        ghost var longer := seenOrder;
        seenOrder := seenOrder[1..];
        seenIds := seenIds - {expired};
        DistinctTail(longer);
        assert seenOrder == Last(accepted, MAX_DEDUP_IDS);
      }
      return true;
    }
  }

  lemma DistinctTail(ids: seq<Id>)
    requires Distinct(ids) && ids != []
    ensures Distinct(ids[1..]) && forall id :: id in ids[1..] <==> id in ids && id != ids[0]
  {
    assert forall i | 0 <= i < |ids[1..]| :: ids[1..][i] == ids[i + 1];
    assert forall id | id in ids && id != ids[0] :: id in ids[1..];
  }

  // The reconnect loop.

  datatype Message = Event(id: Id) | Closed | Other
  datatype Next = Got(message: Message) | Lost
  datatype Connection = ConnectFailed | SendFailed | Stream(nexts: seq<Next>)
  datatype Output = Shown(message: Message) | Error

  /** Whether a connection ends after this result. */
  predicate Ends(next: Next) { next.Lost? || next.message.Closed? }

  /** The event ids a connection delivers before it ends. */
  function ReceivedOn(nexts: seq<Next>): seq<Id> {
    if nexts == [] || Ends(nexts[0]) then []
    else (if nexts[0].message.Event? then [nexts[0].message.id] else []) + ReceivedOn(nexts[1..])
  }

  function Received(connections: seq<Connection>): seq<Id> {
    if connections == [] then []
    else if connections[0].Stream? then ReceivedOn(connections[0].nexts) + Received(connections[1..])
    else Received(connections[1..])
  }

  /** The event ids among the output. */
  function ShownIds(output: seq<Output>): seq<Id> {
    if output == [] then []
    else
      var last := output[|output| - 1];
      ShownIds(output[..|output| - 1]) + if last.Shown? && last.message.Event? then [last.message.id] else []
  }

  lemma ShownIdsLast(output: seq<Output>, o: Output)
    ensures ShownIds(output + [o]) ==
            if o.Shown? && o.message.Event? then ShownIds(output) + [o.message.id] else ShownIds(output)
  {
    assert (output + [o])[..|output|] == output;
  }

  /** One connection, until it ends or the process shuts down. */
  method Follow(cursor: Cursor, nexts: seq<Next>, output0: seq<Output>, ghost seen: seq<Id>)
    returns (output: seq<Output>)
    requires cursor.Valid() && cursor.accepted == ShownIds(output0) == Accepted(seen)
    modifies cursor
    ensures cursor.Valid() && cursor.accepted == ShownIds(output) == Accepted(seen + ReceivedOn(nexts))
  {
    hide ShownIds, Fresh, Accepted, Distinct;
    output := output0;
    ghost var received: seq<Id> := [];
    assert nexts[0..] == nexts && seen + [] == seen;
    for i := 0 to |nexts|
      invariant received + ReceivedOn(nexts[i..]) == ReceivedOn(nexts)
      invariant cursor.Valid() && cursor.accepted == ShownIds(output) == Accepted(seen + received)
    {
      var next := nexts[i];
      assert nexts[i..][0] == next && nexts[i..][1..] == nexts[i + 1..];
      if next.Lost? {
        ShownIdsLast(output, Error);
        assert received + [] == received;
        return output + [Error];
      }
      var message := next.message;
      ghost var before := seen + received;
      if message.Event? {
        AcceptedLast(before, message.id);
        assert before + [message.id] == seen + (received + [message.id]);
        received := received + [message.id];
        var fresh_ := cursor.Accept(message.id);
        if !fresh_ { continue; }
      }
      ShownIdsLast(output, Shown(message));
      output := output + [Shown(message)];
      if message.Closed? {
        assert received + [] == received;
        return;
      }
    }
    assert nexts[|nexts|..] == [] && received + [] == received;
  }

  /** Across every reconnect, the events shown are exactly those of the simple window over
      everything received. */
  method Run(connections: seq<Connection>) returns (output: seq<Output>)
    ensures ShownIds(output) == Accepted(Received(connections))
  {
    hide Fresh, Accepted, Distinct, ReceivedOn, Received, ShownIds, Last;
    var cursor := new Cursor();
    output := [];
    ghost var received: seq<Id> := [];
    NothingAccepted();
    assert connections[0..] == connections;
    for i := 0 to |connections|
      invariant received + Received(connections[i..]) == Received(connections)
      invariant cursor.Valid() && fresh(cursor) && cursor.accepted == ShownIds(output) == Accepted(received)
    {
      var connection := connections[i];
      ReceivedNext(connections, i);
      if connection.Stream? {
        output := Follow(cursor, connection.nexts, output, received);
        received := received + ReceivedOn(connection.nexts);
      } else {
        ShownIdsLast(output, Error);
        output := output + [Error];
      }
    }
    assert connections[|connections|..] == [] && received + [] == received;
  }

  lemma ReceivedNext(connections: seq<Connection>, i: nat)
    requires i < |connections|
    ensures Received(connections[i..]) ==
            if connections[i].Stream? then ReceivedOn(connections[i].nexts) + Received(connections[i + 1..])
            else Received(connections[i + 1..])
  {
    assert connections[i..][0] == connections[i] && connections[i..][1..] == connections[i + 1..];
  }

  lemma NothingAccepted()
    ensures Accepted([]) == [] && Received([]) == [] && ShownIds([]) == []
  {
  }
}
