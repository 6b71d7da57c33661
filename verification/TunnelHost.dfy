/**
 The host's shared state and the code run over it.  Each method is what one goroutine does
 in one critical section, except Dispatch, Pump and ReadPump, which are the read loop run
 alone.  Contracts say what the method means for its callers, and name the functions that
 `Lease`, `Conversations` and `RecentWindow` use as their steps.
 */
module TunnelHost {
  import opened Ascii
  import opened Protocol
  import opened Allocation
  import opened RecentWindow
  import opened Conversations
  import Broadcast
  import HostMaps

  class ClientInfo {
    const userID: UserId
    const name: string
    var requests: nat

    constructor (userID: UserId, name: string)
      ensures this.userID == userID && this.name == name && requests == 0
    {
      this.userID := userID;
      this.name := name;
      requests := 0;
    }
  }

  // A channel made with room for one response.
  class Chan {
    var buffer: seq<HttpResponseData>

    constructor ()
      ensures buffer == []
    {
      buffer := [];
    }

    method Send(response: HttpResponseData)
      requires |buffer| < 1
      modifies this
      ensures buffer == [response]
    {
      buffer := buffer + [response];
    }
  }

  // The first response with this id in a run of messages.
  function FirstReply(incoming: seq<Up>, id: Uuid): Option<HttpResponseData> {
    if incoming == [] then None
    else
      match FirstReply(incoming[..|incoming| - 1], id)
      case Some(response) => Some(response)
      case None =>
        match incoming[|incoming| - 1]
        case Junk => None
        case Answer(i, response) => if i == id then Some(response) else None
  }

  lemma FirstReplySnoc(seen: seq<Up>, message: Up, id: Uuid)
    ensures FirstReply(seen + [message], id)
         == if FirstReply(seen, id).Some? then FirstReply(seen, id)
            else if message.Answer? && message.id == id then Some(message.response)
            else None
  {
    assert (seen + [message])[..|seen|] == seen;
  }

  // The events a run of messages causes under `mu`.
  function EventsOf(incoming: seq<Up>): seq<Event> {
    if incoming == [] then []
    else
      EventsOf(incoming[..|incoming| - 1]) +
      match incoming[|incoming| - 1]
      case Junk => []
      case Answer(id, response) => [Inbound(id, response)]
  }

  // A waiter registered before the messages came, shown every one of them, hears the first
  // reply with its id.
  lemma {:induction false} FirstReplyIsBroadcast(incoming: seq<Up>, id: Uuid)
    ensures Broadcast.Shown(id, [Registered(id)] + EventsOf(incoming))
         == match FirstReply(incoming, id)
            case None => Broadcast.Listening
            case Some(response) => Broadcast.Heard(response)
  {
    if incoming == [] {
      assert ([Registered(id)] + EventsOf(incoming))[..0] == [];
    } else {
      var front, last := incoming[..|incoming| - 1], incoming[|incoming| - 1];
      FirstReplyIsBroadcast(front, id);
      match last
      case Junk =>
        assert EventsOf(incoming) == EventsOf(front);
      case Answer(i, response) =>
        Broadcast.ShownSnoc(id, [Registered(id)] + EventsOf(front), Inbound(i, response));
        assert [Registered(id)] + EventsOf(incoming) == [Registered(id)] + EventsOf(front) + [Inbound(i, response)];
    }
  }

  class TunnelHost {
    const pool: seq<string>
    var clients: map<string, ClientInfo?>
    var pending: map<Uuid, Chan>
    var recent: Recent

    // A published client stands under its own name.
    ghost predicate Valid()
      reads this
    {
      forall key | key in clients && clients[key] != null :: key == Lower(clients[key].name)
    }

    // Whom the name leads to.
    ghost function Holder(name: string): ClientInfo?
      reads this
    {
      if Lower(name) in clients then clients[Lower(name)] else null
    }

    ghost predicate IsPublished(c: ClientInfo)
      reads this
    {
      exists key :: key in clients && clients[key] == c
    }

    constructor (pool: seq<string>)
      ensures this.pool == pool && clients == map[] && pending == map[] && recent == map[]
      ensures Valid() && WaitersReady()
    {
      this.pool := pool;
      clients, pending, recent := map[], map[], map[];
    }

    // The name is pool member i, free, and the one asked for or the first that is free.
    ghost predicate FirstOrWanted(live: set<string>, requested: string, i: nat, name: string) {
      && i < |pool| && pool[i] == name && Lower(name) !in live
      && ((requested != "" && EqualFold(name, requested)) || forall j | 0 <= j < i :: Lower(pool[j]) in live)
    }

    // assignSubdomain; `draws` are the random names the dynamic loop would draw.
    method AssignSubdomain(requested: string, draws: seq<Draw>) returns (answer: Option<string>)
      requires Valid() && |draws| == 1000
      modifies this`clients
      ensures Valid()
      ensures pool != [] && answer.Some? ==>
                exists i: nat :: FirstOrWanted(old(clients).Keys, requested, i, answer.value)
      ensures pool == [] && requested == "" && answer.Some? ==>
                exists i: nat :: FirstFreeDraw(old(clients).Keys, draws, i) && answer.value == DrawnName(draws[i])
      ensures Assigned(pool, old(clients).Keys, requested, draws, answer)
      ensures clients == HostMaps.Reserve(old(clients), answer, null)
    {
      if |pool| > 0 {
        answer := AssignFromPool(requested);
        return;
      }
      if requested != "" {
        if Lower(requested) in clients {
          return None;
        }
        clients := clients[Lower(requested) := null];
        return Some(requested);
      }
      for i := 0 to ATTEMPTS
        invariant clients == old(clients)
        invariant forall j | 0 <= j < i :: IsHeld(clients.Keys, DrawnName(draws[j]))
      {
        var word := DrawnName(draws[i]);
        if Lower(word) !in clients {
          assert FirstFreeDraw(old(clients).Keys, draws, i);
          clients := clients[Lower(word) := null];
          return Some(word);
        }
      }
      return None;
    }

    method AssignFromPool(requested: string) returns (answer: Option<string>)
      requires Valid() && |pool| > 0
      modifies this`clients
      ensures Valid()
      ensures answer.Some? ==> exists i: nat :: FirstOrWanted(old(clients).Keys, requested, i, answer.value)
      ensures Assigned(pool, old(clients).Keys, requested, [], answer)
      ensures clients == HostMaps.Reserve(old(clients), answer, null)
    {
      ghost var live := clients.Keys;
      if requested != "" {
        var i := 0;
        while i < |pool|
          invariant 0 <= i <= |pool|
          invariant clients == old(clients)
          invariant forall j | 0 <= j < i :: !EqualFold(pool[j], requested)
        {
          LowerDecidesEqualFold(pool[i], requested);
          if Lower(pool[i]) == Lower(requested) {
            if Lower(pool[i]) !in clients {
              assert PoolChoice(pool, live, requested, i) && FirstOrWanted(live, requested, i, pool[i]);
              clients := clients[Lower(pool[i]) := null];
              return Some(pool[i]);
            }
            break;
          }
          i := i + 1;
        }
      }
      assert !WantedIsFree(pool, live, requested);
      for i := 0 to |pool|
        invariant clients == old(clients)
        invariant forall j | 0 <= j < i :: IsHeld(live, pool[j])
      {
        if Lower(pool[i]) !in clients {
          assert PoolChoice(pool, live, requested, i) && FirstOrWanted(live, requested, i, pool[i]);
          clients := clients[Lower(pool[i]) := null];
          return Some(pool[i]);
        }
      }
      return None;
    }

    // handleConn, once the connection is accepted.  Every spelling of the client's name leads
    // to it from now on, and any other name to whom it did before.
    method Publish(client: ClientInfo)
      requires Valid()
      modifies this`clients
      ensures Valid()
      ensures forall name | EqualFold(name, client.name) :: Holder(name) == client
      ensures forall name | !EqualFold(name, client.name) :: Holder(name) == old(Holder(name))
      ensures clients == HostMaps.Publish(old(clients), client.name, client)
    {
      clients := clients[Lower(client.name) := client];
      forall name ensures Lower(name) == Lower(client.name) <==> EqualFold(name, client.name) {
        LowerDecidesEqualFold(name, client.name);
      }
    }

    method ReleaseName(name: string)
      requires Valid()
      modifies this`clients
      ensures Valid()
      ensures clients == if old(Holder(name)) == null then old(clients) - {Lower(name)} else old(clients)
      ensures clients == HostMaps.RemoveIf(old(clients), name, null)
    {
      var c := GetClient(name);
      if c == null {
        clients := clients - {Lower(name)};
      }
    }

    method DropClient(client: ClientInfo)
      requires Valid()
      modifies this`clients
      ensures Valid()
      ensures forall name :: Holder(name) ==
                if EqualFold(name, client.name) && old(Holder(name)) == client then null else old(Holder(name))
      ensures clients == HostMaps.RemoveIf(old(clients), client.name, client)
    {
      var c := GetClient(client.name);
      forall name ensures Lower(name) == Lower(client.name) <==> EqualFold(name, client.name) {
        LowerDecidesEqualFold(name, client.name);
      }
      if c == client {
        clients := clients - {Lower(client.name)};
      }
    }

    // The one published client whose own name is this, ignoring case; nil when there is none.
    method GetClient(name: string) returns (client: ClientInfo?)
      requires Valid()
      ensures client != null ==> IsPublished(client)
      ensures forall c: ClientInfo | IsPublished(c) :: EqualFold(c.name, name) <==> c == client
      ensures client == HostMaps.Lookup(clients, name, null)
    {
      client := if Lower(name) in clients then clients[Lower(name)] else null;
      forall c: ClientInfo | IsPublished(c) ensures EqualFold(c.name, name) <==> c == client {
        LowerDecidesEqualFold(c.name, name);
      }
    }

    // Some connected client, whichever the iteration order meets first.
    method GetAnyClient() returns (client: ClientInfo?)
      ensures client != null ==> exists key :: key in clients && clients[key] == client
      ensures client == null ==> forall key | key in clients :: clients[key] == null
    {
      var keys := clients.Keys;
      while keys != {}
        invariant keys <= clients.Keys
        invariant forall key | key in clients && key !in keys :: clients[key] == null
        decreases keys
      {
        var key :| key in keys;
        if clients[key] != null {
          return clients[key];
        }
        keys := keys - {key};
      }
      return null;
    }

    // Every connected client of the user, one for each name it holds.
    method ActiveByUser(user: UserId) returns (out: seq<ClientInfo>)
      ensures |out| == |set key | key in clients && IsOf(clients[key], user)|
      ensures forall c :: c in out <==> IsOf(c, user) && exists key :: key in clients && clients[key] == c
    {
      var keys := clients.Keys;
      out := [];
      ghost var found: set<string> := {};
      while keys != {}
        invariant keys <= clients.Keys
        invariant found == set key | key in clients && key !in keys && IsOf(clients[key], user)
        invariant |out| == |found|
        invariant forall c :: c in out <==> IsOf(c, user) && exists key :: key in found && clients[key] == c
        decreases keys
      {
        var key :| key in keys;
        keys := keys - {key};
        var c := clients[key];
        if c != null && c.userID == user {
          out := out + [c];
          found := found + {key};
        }
      }
      assert found == set key | key in clients && IsOf(clients[key], user);
    }

    predicate IsOf(c: ClientInfo?, user: UserId) { c != null && c.userID == user }

    // Each waiting call has its own, empty channel.
    ghost predicate WaitersReady()
      reads this, pending.Values
    {
      && (forall id | id in pending :: pending[id].buffer == [])
      && (forall i, j | i in pending && j in pending && i != j :: pending[i] != pending[j])
    }

    // The three critical sections of SendHttpRequest and readPump.

    // The channel has just been made.
    method Register(id: Uuid, ch: Chan)
      requires WaitersReady() && ch.buffer == [] && ch !in pending.Values
      modifies this`pending
      ensures WaitersReady()
      ensures pending == HostMaps.Register(old(pending), id, ch)
    {
      pending := pending[id := ch];
    }

    // Whoever takes a channel is the only one to find it, and finds it empty.
    method Take(id: Uuid) returns (ch: Chan?)
      requires WaitersReady()
      modifies this`pending
      ensures WaitersReady()
      ensures ch != null <==> id in old(pending)
      ensures ch != null ==> ch == old(pending)[id] && ch.buffer == [] && ch !in pending.Values
      ensures id !in pending
      ensures forall other | other != id ::
                && (other in pending <==> other in old(pending))
                && (other in pending ==> pending[other] == old(pending)[other])
      ensures pending == HostMaps.Take(old(pending), id).1
      ensures ch == match HostMaps.Take(old(pending), id).0 case None => null case Some(c) => c
    {
      ch := null;
      if id in pending {
        ch := pending[id];
        pending := pending - {id};
      }
    }

    method Forget(id: Uuid)
      requires WaitersReady()
      modifies this`pending
      ensures WaitersReady()
      ensures pending == HostMaps.Forget(old(pending), id)
    {
      pending := pending - {id};
    }

    // What readPump does with one answer: its waiter, if there is one, is sent the response
    // and is no longer waiting; the others are left as they are.
    method Dispatch(id: Uuid, response: HttpResponseData)
      requires WaitersReady()
      modifies this`pending, pending.Values
      ensures WaitersReady()
      ensures pending == old(pending) - {id}
      ensures id in old(pending) ==> old(pending)[id].buffer == [response]
    {
      var ch := Take(id);
      if ch != null {
        ch.Send(response);
      }
    }

    // Those who were waiting before have the first reply with their id among the messages
    // seen since, or wait on.
    ghost predicate Served(before: map<Uuid, Chan>, seen: seq<Up>)
      reads this, pending.Values, before.Values
    {
      && WaitersReady()
      && (forall id :: id in pending <==> id in before && FirstReply(seen, id).None?)
      && (forall id | id in pending :: pending[id] == before[id])
      && (forall i, j | i in before && j in before && i != j :: before[i] != before[j])
      && (forall id | id in before && FirstReply(seen, id).Some? :: before[id].buffer == [FirstReply(seen, id).value])
    }

    // One turn of the loop of readPump.
    method Pump(message: Up, ghost before: map<Uuid, Chan>, ghost seen: seq<Up>)
      requires Served(before, seen)
      modifies this`pending, pending.Values
      ensures Served(before, seen + [message])
      ensures pending.Values <= old(pending.Values)
    {
      forall id { FirstReplySnoc(seen, message, id); }
      match message
      case Junk =>
      case Answer(id, response) => Dispatch(id, response);
    }

    // readPump, run alone over everything its connection delivers before it fails.  Every
    // call waiting beforehand gets the first reply with its id, or is left waiting; and the
    // client gives its own lease back.
    method ReadPump(client: ClientInfo, incoming: seq<Up>)
      requires Valid() && WaitersReady()
      modifies this`pending, this`clients, pending.Values
      ensures Valid() && WaitersReady()
      ensures pending.Keys == set id | id in old(pending) && FirstReply(incoming, id).None?
      ensures forall id | id in pending :: pending[id] == old(pending)[id]
      ensures forall id | id in old(pending) && FirstReply(incoming, id).Some? ::
                old(pending)[id].buffer == [FirstReply(incoming, id).value]
      ensures clients == HostMaps.RemoveIf(old(clients), client.name, client)
    {
      ghost var before := pending;
      for i := 0 to |incoming|
        invariant Valid() && clients == old(clients)
        invariant Served(before, incoming[..i]) && pending.Values <= before.Values
      {
        Pump(incoming[i], before, incoming[..i]);
        assert incoming[..i + 1] == incoming[..i] + [incoming[i]];
      }
      assert incoming[..|incoming|] == incoming;
      DropClient(client);
    }

    // The end of a successful SendHttpRequest: count the request, then record it.
    method Conclude(client: ClientInfo, request: HttpRequestData, response: HttpResponseData, time: int)
      modifies client`requests, this`recent
      ensures client.requests == old(client.requests) + 1
      ensures Gains(old(recent), recent, client.userID,
                    LiveRequest(time, request.verb, request.path, response.statusCode))
      ensures recent == Record(old(recent), client.userID,
                               LiveRequest(time, request.verb, request.path, response.statusCode))
    {
      client.requests := client.requests + 1;
      RecordRequest(client.userID, time, request.verb, request.path, response.statusCode);
    }

    method RecordRequest(user: UserId, time: int, verb: string, path: string, status: int)
      modifies this`recent
      ensures Gains(old(recent), recent, user, LiveRequest(time, verb, path, status))
      ensures recent == Record(old(recent), user, LiveRequest(time, verb, path, status))
    {
      var buf := BufferOf(recent, user) + [LiveRequest(time, verb, path, status)];
      if |buf| > CAP {
        buf := buf[|buf| - CAP..];
      }
      RecordGains(recent, user, LiveRequest(time, verb, path, status));
      recent := recent[user := buf];
    }

    method RecentRequests(user: UserId, limit: int) returns (out: seq<LiveRequest>)
      ensures IsNewest(BufferOf(recent, user), limit, |BufferOf(recent, user)|, out)
      ensures out == Reported(recent, user, limit)
    {
      var buf := BufferOf(recent, user);
      out := [];
      var i := |buf| - 1;
      while i >= 0 && |out| < limit
        invariant -1 <= i < |buf|
        invariant |out| == |buf| - 1 - i
        invariant |out| <= Max(limit, 0)
        invariant forall k | 0 <= k < |out| :: out[k] == buf[|buf| - 1 - k]
      {
        out := out + [buf[i]];
        i := i - 1;
      }
    }
  }
}
