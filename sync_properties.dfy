/**
 What the room-synchronisation handlers guarantee: seeding happens once, the
 last edit wins, the sender never gets its own edit back, a disconnected
 connection receives nothing more, and rooms are never removed.
 */
module SyncProperties {
  import opened SyncState

  // ----- join-room -----

  /** Joining an unknown room creates exactly that entry, holding the seed text, and sends nothing. */
  lemma JoinUnknownRoomSeeds(s: State, c: ConnId, r: RoomId)
    requires r !in s.rooms
    ensures Step(s, JoinRoom(c, r)).rooms == s.rooms[r := Seed]
    ensures Step(s, JoinRoom(c, r)).rooms.Keys == s.rooms.Keys + {r}
    ensures Step(s, JoinRoom(c, r)).outbox == s.outbox
  {
  }

  /**
   Joining a known room leaves the store as it is and sends one `init-code`,
   to the joining connection only, carrying exactly the stored text.
   */
  lemma JoinKnownRoomReplies(s: State, c: ConnId, r: RoomId)
    requires r in s.rooms
    ensures Step(s, JoinRoom(c, r)).rooms == s.rooms
    ensures Step(s, JoinRoom(c, r)).outbox == s.outbox + [InitCode(c, s.rooms[r])]
    ensures forall x :: AddressedTo(InitCode(c, s.rooms[r]), x) <==> x == c
  {
  }

  /** Joining only adds the one membership: earlier memberships, in any room, are kept. */
  lemma JoinIsAdditive(s: State, c: ConnId, r: RoomId)
    ensures Step(s, JoinRoom(c, r)).members == s.members + {(c, r)}
    ensures forall p :: p in s.members ==> p in Step(s, JoinRoom(c, r)).members
  {
  }

  // ----- code-change -----

  /**
   An edit stores its text under its room, whether or not the room was ever
   joined, and leaves every other room's text as it was.
   */
  lemma CodeChangeOverwrites(s: State, c: ConnId, r: RoomId, code: string)
    ensures r in Step(s, CodeChange(c, r, code)).rooms
    ensures Step(s, CodeChange(c, r, code)).rooms[r] == code
    ensures Step(s, CodeChange(c, r, code)).rooms.Keys == s.rooms.Keys + {r}
    ensures forall q :: q in s.rooms && q != r ==> Step(s, CodeChange(c, r, code)).rooms[q] == s.rooms[q]
    ensures Step(s, CodeChange(c, r, code)).members == s.members
  {
  }

  /**
   An edit sends one `code-update` carrying its text to exactly the members of
   its room other than the sender: never the sender, never a connection that
   is only in other rooms.
   */
  lemma CodeUpdateRecipients(s: State, c: ConnId, r: RoomId, code: string)
    ensures var t := Step(s, CodeChange(c, r, code));
      |t.outbox| == |s.outbox| + 1 && t.outbox[..|s.outbox|] == s.outbox &&
      t.outbox[|s.outbox|].CodeUpdate? && t.outbox[|s.outbox|].code == code &&
      (forall x :: AddressedTo(t.outbox[|s.outbox|], x) <==> (x, r) in s.members && x != c)
    ensures !AddressedTo(Step(s, CodeChange(c, r, code)).outbox[|s.outbox|], c)
  {
  }

  /**
   Handling the same edit twice leaves the store and the memberships as
   handling it once does; only the outbox differs, by a second identical
   `code-update`.
   */
  lemma CodeChangeIdempotent(s: State, c: ConnId, r: RoomId, code: string)
    ensures var once := Step(s, CodeChange(c, r, code));
      var twice := Step(once, CodeChange(c, r, code));
      twice.rooms == once.rooms && twice.members == once.members &&
      twice.outbox == once.outbox + [once.outbox[|once.outbox| - 1]]
  {
  }

  // ----- disconnect -----

  /** Disconnecting leaves the store as it is, sends nothing, and drops every membership of the connection and only those. */
  lemma DisconnectKeepsRooms(s: State, c: ConnId)
    ensures Step(s, Disconnect(c)).rooms == s.rooms
    ensures Step(s, Disconnect(c)).outbox == s.outbox
    ensures forall p :: p in Step(s, Disconnect(c)).members <==> p in s.members && p.0 != c
  {
  }

  // ----- sequences of events -----

  /** Handling `a` then `b` is handling `a + b`. */
  lemma {:induction false} RunAppend(s: State, a: seq<Event>, b: seq<Event>)
    ensures Run(s, a + b) == Run(Run(s, a), b)
    decreases |a|
  {
    if a == [] {
      assert a + b == b;
    } else {
      assert (a + b)[1..] == a[1..] + b;
      RunAppend(Step(s, a[0]), a[1..], b);
    }
  }

  /** The outbox only grows: what was sent stays sent, in its place. */
  lemma {:induction false} OutboxOnlyGrows(s: State, evs: seq<Event>)
    ensures |s.outbox| <= |Run(s, evs).outbox|
    ensures Run(s, evs).outbox[..|s.outbox|] == s.outbox
    decreases |evs|
  {
    if evs != [] {
      var t := Step(s, evs[0]);
      OutboxOnlyGrows(t, evs[1..]);
      assert t.outbox[..|s.outbox|] == s.outbox;
    }
  }

  /**
   No handler removes a room: every room stays, so the `activeRooms` count
   never decreases.
   */
  lemma {:induction false} RoomsNeverRemoved(s: State, evs: seq<Event>)
    ensures s.rooms.Keys <= Run(s, evs).rooms.Keys
    ensures ActiveRooms(s) <= ActiveRooms(Run(s, evs))
    decreases |evs|
  {
    if evs != [] {
      var t := Step(s, evs[0]);
      assert s.rooms.Keys <= t.rooms.Keys;
      RoomsNeverRemoved(t, evs[1..]);
    }
    var u := Run(s, evs);
    SubsetCardinality(s.rooms.Keys, u.rooms.Keys);
    assert |s.rooms| == |s.rooms.Keys| && |u.rooms| == |u.rooms.Keys|;
  }

  /** A subset is no larger than its superset. */
  lemma SubsetCardinality<T>(a: set<T>, b: set<T>)
    requires a <= b
    ensures |a| <= |b|
  {
    assert b == a + (b - a);
  }

  /** Events other than edits of `r` leave `r`'s text as it is: joins never re-seed a room. */
  lemma {:induction false} TextKeptWithoutEdits(s: State, evs: seq<Event>, r: RoomId)
    requires r in s.rooms
    requires forall i :: 0 <= i < |evs| ==> !EditsRoom(evs[i], r)
    ensures r in Run(s, evs).rooms && Run(s, evs).rooms[r] == s.rooms[r]
    decreases |evs|
  {
    if evs != [] {
      assert !EditsRoom(evs[0], r);
      TextKeptWithoutEdits(Step(s, evs[0]), evs[1..], r);
    }
  }

  /**
   Seeding happens at most once: a room first joined and then joined again,
   with no edit of it in between, still holds the seed text, and the second
   joiner is sent the seed text as `init-code`.
   */
  lemma SeedAtMostOnce(s: State, c1: ConnId, c2: ConnId, r: RoomId, between: seq<Event>)
    requires r !in s.rooms
    requires forall i :: 0 <= i < |between| ==> !EditsRoom(between[i], r)
    ensures var t := Run(s, [JoinRoom(c1, r)] + between + [JoinRoom(c2, r)]);
      r in t.rooms && t.rooms[r] == Seed && |t.outbox| > 0 && t.outbox[|t.outbox| - 1] == InitCode(c2, Seed)
  {
    var s1 := Step(s, JoinRoom(c1, r));
    assert Run(s, [JoinRoom(c1, r)]) == s1;
    TextKeptWithoutEdits(s1, between, r);
    var s2 := Run(s1, between);
    RunAppend(s, [JoinRoom(c1, r)], between);
    RunAppend(s, [JoinRoom(c1, r)] + between, [JoinRoom(c2, r)]);
    assert Run(s2, [JoinRoom(c2, r)]) == Step(s2, JoinRoom(c2, r));
  }

  /**
   Last write wins: whatever came before, once an edit of `r` has been handled
   and no later event edits `r`, the store holds that edit's text for `r`.
   */
  lemma LastWriteWins(s: State, before: seq<Event>, c: ConnId, r: RoomId, code: string, after: seq<Event>)
    requires forall i :: 0 <= i < |after| ==> !EditsRoom(after[i], r)
    ensures var t := Run(s, before + [CodeChange(c, r, code)] + after);
      r in t.rooms && t.rooms[r] == code
  {
    var s1 := Run(s, before);
    var s2 := Step(s1, CodeChange(c, r, code));
    RunAppend(s, before, [CodeChange(c, r, code)]);
    assert Run(s1, [CodeChange(c, r, code)]) == s2;
    RunAppend(s, before + [CodeChange(c, r, code)], after);
    TextKeptWithoutEdits(s2, after, r);
  }

  /** A sequence of edits of one room, from any connections, leaves the last one's text. */
  lemma EditsOfOneRoom(s: State, edits: seq<Event>, r: RoomId)
    requires |edits| > 0
    requires forall i :: 0 <= i < |edits| ==> EditsRoom(edits[i], r)
    ensures var last := edits[|edits| - 1];
      last.CodeChange? && r in Run(s, edits).rooms && Run(s, edits).rooms[r] == last.code
  {
    var n := |edits| - 1;
    var e := edits[n];
    assert EditsRoom(e, r);
    assert edits == edits[..n] + [CodeChange(e.conn, r, e.code)] + [];
    LastWriteWins(s, edits[..n], e.conn, r, e.code, []);
  }

  /** True when connection `c` is in no room of `s`. */
  predicate Detached(s: State, c: ConnId)
  {
    forall p :: p in s.members ==> p.0 != c
  }

  /**
   A connection in no room, as long as it joins nothing, is sent nothing:
   neither `init-code` nor any other member's `code-update`.
   */
  lemma {:induction false} DetachedReceivesNothing(s: State, c: ConnId, evs: seq<Event>)
    requires Detached(s, c)
    requires forall i :: 0 <= i < |evs| ==> !JoinBy(evs[i], c)
    ensures Detached(Run(s, evs), c)
    ensures |s.outbox| <= |Run(s, evs).outbox|
    ensures forall i :: |s.outbox| <= i < |Run(s, evs).outbox| ==> !AddressedTo(Run(s, evs).outbox[i], c)
    decreases |evs|
  {
    if evs != [] {
      var t := Step(s, evs[0]);
      assert !JoinBy(evs[0], c);
      assert Detached(t, c);
      assert forall i :: |s.outbox| <= i < |t.outbox| ==> !AddressedTo(t.outbox[i], c);
      DetachedReceivesNothing(t, c, evs[1..]);
      OutboxOnlyGrows(t, evs[1..]);
      var u := Run(t, evs[1..]);
      forall i | |s.outbox| <= i < |u.outbox|
        ensures !AddressedTo(u.outbox[i], c)
      {
        if i < |t.outbox| {
          assert u.outbox[i] == u.outbox[..|t.outbox|][i] == t.outbox[i];
        }
      }
    }
  }

  /**
   After a connection disconnects it is in no room, and until it joins again
   no later edit, by anyone in any room, is sent to it.
   */
  lemma NothingAfterDisconnect(s: State, c: ConnId, evs: seq<Event>)
    requires forall i :: 0 <= i < |evs| ==> !JoinBy(evs[i], c)
    ensures var t := Run(s, [Disconnect(c)] + evs);
      |s.outbox| <= |t.outbox| &&
      forall i :: |s.outbox| <= i < |t.outbox| ==> !AddressedTo(t.outbox[i], c)
  {
    var s1 := Step(s, Disconnect(c));
    assert ([Disconnect(c)] + evs)[1..] == evs;
    DetachedReceivesNothing(s1, c, evs);
  }

  /**
   Two connections in one room: the first joiner seeds it and gets no
   `init-code`; the second gets the seed text; an edit by the first reaches
   the second only, and the store holds it.
   */
  lemma TwoClientScenario()
    ensures var t := Run(Initial, [JoinRoom("client1", "abc"), JoinRoom("client2", "abc"),
                                   CodeChange("client1", "abc", "hello")]);
      t.rooms == map["abc" := "hello"] &&
      t.outbox == [InitCode("client2", Seed), CodeUpdate({"client2"}, "hello")]
  {
    var s1 := Step(Initial, JoinRoom("client1", "abc"));
    var s2 := Step(s1, JoinRoom("client2", "abc"));
    assert s2.members == {("client1", "abc"), ("client2", "abc")};
    assert "client1" != "client2";
    assert Peers(s2.members, "abc", "client1") == {"client2"};
  }
}
