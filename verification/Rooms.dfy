/** ConnectionManager: which sockets sit in which conversation's room. */
module Rooms {
  import opened Wrappers

  type Socket = nat

  datatype Metadata = Metadata(conversationId: string, userId: string, sessionId: string, username: string,
                               role: string)

  /** The two dictionaries as values. */
  datatype Table = Table(rooms: map<string, set<Socket>>, meta: map<Socket, Metadata>)

  // ---------------------------------------------------------------- operations

  function Members(t: Table, conv: string): set<Socket> {
    if conv in t.rooms then t.rooms[conv] else {}
  }

  function Registered(t: Table, ws: Socket, m: Metadata): Table {
    Table(t.rooms[m.conversationId := Members(t, m.conversationId) + {ws}], t.meta[ws := m])
  }

  function Without(rooms: map<string, set<Socket>>, conv: string, ws: Socket): map<string, set<Socket>> {
    if conv !in rooms then rooms
    else if rooms[conv] - {ws} == {} then rooms - {conv}
    else rooms[conv := rooms[conv] - {ws}]
  }

  function Unregistered(t: Table, ws: Socket): Table {
    if ws in t.meta then Table(Without(t.rooms, t.meta[ws].conversationId, ws), t.meta - {ws}) else t
  }

  // ---------------------------------------------------------------- invariants

  /** Every socket with metadata sits in its room, and no room is empty. */
  ghost predicate Valid(t: Table) {
    && (forall ws :: ws in t.meta ==> ws in Members(t, t.meta[ws].conversationId))
    && (forall c :: c in t.rooms ==> t.rooms[c] != {})
  }

  /** A socket sits in exactly the room its metadata names. */
  ghost predicate Agrees(t: Table) {
    forall c, ws :: ws in Members(t, c) <==> ws in t.meta && t.meta[ws].conversationId == c
  }

  datatype Step = Register(ws: Socket, m: Metadata) | Unregister(ws: Socket)

  function Apply(t: Table, step: Step): Table {
    match step
    case Register(ws, m) => Registered(t, ws, m)
    case Unregister(ws) => Unregistered(t, ws)
  }

  /** The steps of tasks in the order they happen; a broadcast contributes the removals of its dead sockets. */
  function Applied(t: Table, steps: seq<Step>): Table {
    if steps == [] then t else Apply(Applied(t, steps[..|steps| - 1]), steps[|steps| - 1])
  }

  /** The dictionaries after a run from the start of the server. */
  function After(steps: seq<Step>): Table {
    Applied(Table(map[], map[]), steps)
  }

  lemma RegisterKeepsValid(t: Table, ws: Socket, m: Metadata)
    requires Valid(t)
    ensures Valid(Registered(t, ws, m))
  {
    var t' := Registered(t, ws, m);
    forall w | w in t'.meta ensures w in Members(t', t'.meta[w].conversationId) {
      if w != ws { assert w in Members(t, t.meta[w].conversationId); }
    }
  }

  lemma UnregisterKeepsValid(t: Table, ws: Socket)
    requires Valid(t)
    ensures Valid(Unregistered(t, ws))
  {
    var t' := Unregistered(t, ws);
    forall w | w in t'.meta ensures w in Members(t', t'.meta[w].conversationId) {
      assert w in Members(t, t.meta[w].conversationId);
    }
  }

  lemma {:induction false} AlwaysValid(steps: seq<Step>)
    ensures Valid(After(steps))
  {
    if steps != [] {
      var before := After(steps[..|steps| - 1]);
      AlwaysValid(steps[..|steps| - 1]);
      match steps[|steps| - 1]
      case Register(ws, m) => RegisterKeepsValid(before, ws, m);
      case Unregister(ws) => UnregisterKeepsValid(before, ws);
    }
  }

  /** Registering keeps membership and metadata in agreement exactly if the socket does not change rooms. */
  lemma RegisterAgreesIff(t: Table, ws: Socket, m: Metadata)
    requires Agrees(t)
    ensures Agrees(Registered(t, ws, m)) <==> (ws in t.meta ==> t.meta[ws].conversationId == m.conversationId)
  {
    var t' := Registered(t, ws, m);
    if ws in t.meta && t.meta[ws].conversationId != m.conversationId {
      var previous := t.meta[ws].conversationId;
      assert ws in Members(t, previous);
      assert !(ws in Members(t', previous) <==> ws in t'.meta && t'.meta[ws].conversationId == previous);
    } else {
      forall c, w ensures w in Members(t', c) <==> w in t'.meta && t'.meta[w].conversationId == c {
        assert w in Members(t, c) <==> w in t.meta && t.meta[w].conversationId == c;
      }
    }
  }

  /** A socket that changed rooms is still a member of the old one after it unregisters. */
  lemma SwitchedSocketLingers(t: Table, ws: Socket, m: Metadata)
    requires Agrees(t) && ws in t.meta && t.meta[ws].conversationId != m.conversationId
    ensures var t' := Unregistered(Registered(t, ws, m), ws);
            ws !in t'.meta && ws in Members(t', t.meta[ws].conversationId)
  {
    assert ws in Members(t, t.meta[ws].conversationId);
  }

  lemma UnregisterAgrees(t: Table, ws: Socket)
    requires Agrees(t)
    ensures Agrees(Unregistered(t, ws))
    ensures forall c :: ws !in Members(Unregistered(t, ws), c)
  {
    var t' := Unregistered(t, ws);
    forall c, w ensures w in Members(t', c) <==> w in t'.meta && t'.meta[w].conversationId == c {
      assert w in Members(t, c) <==> w in t.meta && t.meta[w].conversationId == c;
    }
    assert forall c :: ws in Members(t, c) ==> ws in t.meta && t.meta[ws].conversationId == c;
  }

  /** Every registration of a socket names its one conversation. */
  predicate OneRoomEach(steps: seq<Step>, home: Socket -> string) {
    forall i :: 0 <= i < |steps| && steps[i].Register? ==> steps[i].m.conversationId == home(steps[i].ws)
  }

  /** If each socket registers for one conversation only, membership and metadata agree exactly. */
  lemma {:induction false} OneRoomAgrees(steps: seq<Step>, home: Socket -> string)
    requires OneRoomEach(steps, home)
    ensures Agrees(After(steps))
    ensures forall ws :: ws in After(steps).meta ==> After(steps).meta[ws].conversationId == home(ws)
  {
    if steps != [] {
      var before := After(steps[..|steps| - 1]);
      OneRoomAgrees(steps[..|steps| - 1], home);
      match steps[|steps| - 1]
      case Register(ws, m) => RegisterAgreesIff(before, ws, m);
      case Unregister(ws) => UnregisterAgrees(before, ws);
    }
  }

  lemma {:induction false} AppliedConcat(t: Table, a: seq<Step>, b: seq<Step>)
    ensures Applied(t, a + b) == Applied(Applied(t, a), b)
  {
    if b == [] {
      assert a + b == a;
    } else {
      var init := b[..|b| - 1];
      AppliedConcat(t, a, init);
      assert (a + b)[..|a + b| - 1] == a + init;
    }
  }

  /** The removal of dead sockets, one by one. */
  function Removals(dead: seq<Socket>): (r: seq<Step>)
    ensures |r| == |dead|
    ensures forall i :: 0 <= i < |dead| ==> r[i] == Unregister(dead[i])
  {
    seq(|dead|, i requires 0 <= i < |dead| => Unregister(dead[i]))
  }

  /** What other tasks do at the first n awaits. */
  function Meanwhile(others: nat -> seq<Step>, n: nat): seq<Step> {
    if n == 0 then [] else Meanwhile(others, n - 1) + others(n - 1)
  }

  lemma NothingApplied(t: Table, others: nat -> seq<Step>)
    ensures Applied(t, Meanwhile(others, 0)) == Applied(t, Meanwhile(others, 0) + Removals([])) == t
  {
    assert Meanwhile(others, 0) + Removals([]) == [];
  }

  lemma OneMoreAwait(t: Table, others: nat -> seq<Step>, n: nat)
    ensures Applied(t, Meanwhile(others, n + 1)) == Applied(Applied(t, Meanwhile(others, n)), others(n))
  {
    AppliedConcat(t, Meanwhile(others, n), others(n));
  }

  // ---------------------------------------------------------------- the object

  class ConnectionManager {
    var activeRooms: map<string, set<Socket>>
    var socketMetadata: map<Socket, Metadata>

    function Value(): Table
      reads this
    {
      Table(activeRooms, socketMetadata)
    }

    constructor ()
      ensures Value() == Table(map[], map[])
    {
      activeRooms, socketMetadata := map[], map[];
    }

    method Register(ws: Socket, m: Metadata)
      modifies this
      ensures Value() == Registered(old(Value()), ws, m)
    {
      if m.conversationId !in activeRooms {
        activeRooms := activeRooms[m.conversationId := {}];
      }
      activeRooms := activeRooms[m.conversationId := activeRooms[m.conversationId] + {ws}];
      socketMetadata := socketMetadata[ws := m];
    }

    method Unregister(ws: Socket) returns (meta: Option<Metadata>)
      modifies this
      ensures Value() == Unregistered(old(Value()), ws)
      ensures meta == if ws in old(socketMetadata) then Some(old(socketMetadata)[ws]) else None
    {
      meta := None;
      if ws in socketMetadata {
        meta := Some(socketMetadata[ws]);
        socketMetadata := socketMetadata - {ws};
        var conv := meta.value.conversationId;
        if conv in activeRooms {
          activeRooms := activeRooms[conv := activeRooms[conv] - {ws}];
          if activeRooms[conv] == {} {
            activeRooms := activeRooms - {conv};
          }
        }
      }
    }

    /** An await: other tasks register and unregister sockets. */
    method Await(others: seq<Step>)
      modifies this
      ensures Value() == Applied(old(Value()), others)
    {
      var i := 0;
      while i < |others|
        invariant 0 <= i <= |others| && Value() == Applied(old(Value()), others[..i])
      {
        assert others[..i + 1][..i] == others[..i];
        match others[i] {
          case Register(ws, m) => Register(ws, m);
          case Unregister(ws) => var _ := Unregister(ws);
        }
        i := i + 1;
      }
      assert others[..i] == others;
    }

    /** Unregister the sockets whose send failed. */
    method RemoveDead(dead: seq<Socket>)
      modifies this
      ensures Value() == Applied(old(Value()), Removals(dead))
    {
      var k := 0;
      while k < |dead|
        invariant 0 <= k <= |dead| && Value() == Applied(old(Value()), Removals(dead)[..k])
      {
        assert Removals(dead)[..k + 1][..k] == Removals(dead)[..k];
        var _ := Unregister(dead[k]);
        k := k + 1;
      }
      assert Removals(dead)[..k] == Removals(dead);
    }

    /**
     Send a frame to the room: every member of the snapshot except the excluded one is attempted
     exactly once, whatever other tasks do to the rooms at the awaits, and afterwards exactly the
     ones whose send failed are unregistered, in one go.
     */
    method BroadcastToRoom(conv: string, exclude: Option<Socket>, fails: set<Socket>, others: nat -> seq<Step>)
      returns (attempted: seq<Socket>, dead: seq<Socket>)
      modifies this
      ensures forall ws :: ws in attempted <==> ws in Members(old(Value()), conv) && Some(ws) != exclude
      ensures forall i, j :: 0 <= i < j < |attempted| ==> attempted[i] != attempted[j]
      ensures forall ws :: ws in dead <==> ws in attempted && ws in fails
      ensures Value() == Applied(old(Value()), Meanwhile(others, |attempted|) + Removals(dead))
    {
      hide Applied, Registered, Unregistered, Meanwhile;
      attempted, dead := [], [];
      NothingApplied(Value(), others);
      if conv !in activeRooms { return; }
      var snapshot := activeRooms[conv];
      var rest := snapshot;
      while rest != {}
        invariant rest <= snapshot && Value() == Applied(old(Value()), Meanwhile(others, |attempted|))
        invariant forall ws :: ws in attempted <==> ws in snapshot - rest && Some(ws) != exclude
        invariant forall i, j :: 0 <= i < j < |attempted| ==> attempted[i] != attempted[j]
        invariant forall ws :: ws in dead <==> ws in attempted && ws in fails
        decreases rest
      {
        var ws :| ws in rest;
        rest := rest - {ws};
        if exclude == Some(ws) { continue; }
        OneMoreAwait(old(Value()), others, |attempted|);
        Await(others(|attempted|));
        attempted := attempted + [ws];
        if ws in fails { dead := dead + [ws]; }
      }
      RemoveDead(dead);
      AppliedConcat(old(Value()), Meanwhile(others, |attempted|), Removals(dead));
    }
  }
}
