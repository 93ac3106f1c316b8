/**
 The lobby registry of the party-game server: a map from lobby code to lobby
 record, changed by the create, join, submit-question and disconnect handlers.
 Each handler runs to completion before the next event is taken, so each is a
 single state transition. The transitions are stated as functions on the map,
 and the class `Registry` performs them step by step as the handlers do.
 */
module Server {
  import opened Lobbies

  /** What holds of every lobby the handlers can leave in the map. */
  ghost predicate WellFormed(m: map<string, Lobby>)
  {
    forall c :: c in m ==> m[c].players != [] && m[c].phase == Waiting && m[c].chains == []
  }

  /**
   The map after `createLobby`: `code` is bound to a fresh lobby whose only
   player is the creator, whatever was bound to it before.
   */
  function Created(m: map<string, Lobby>, code: string, id: string, name: string): (r: map<string, Lobby>)
    ensures r.Keys == m.Keys + {code}
    ensures r[code].players == [Player(id, name)] && |r[code].players| == 1
    ensures r[code].chains == [] && r[code].phase == Waiting && r[code].questions == None
    ensures forall c :: c in m && c != code ==> r[c] == m[c]
  {
    m[code := NewLobby(id, name)]
  }

  /**
   The map after `joinLobby`: an unknown code leaves it as it was; a known code
   gets the joining player appended at the end of its roster.
   */
  function Joined(m: map<string, Lobby>, code: string, id: string, name: string): (r: map<string, Lobby>)
    ensures r.Keys == m.Keys
    ensures code !in m ==> r == m
    ensures code in m ==>
      var old_ps, ps := m[code].players, r[code].players;
      |ps| == |old_ps| + 1 && ps[..|old_ps|] == old_ps && ps[|old_ps|] == Player(id, name)
    ensures code in m ==>
      r[code].chains == m[code].chains && r[code].phase == m[code].phase && r[code].questions == m[code].questions
    ensures forall c :: c in m && c != code ==> r[c] == m[c]
  {
    if code in m then
      var lobby := m[code];
      m[code := lobby.(players := lobby.players + [Player(id, name)])]
    else
      m
  }

  /**
   The map after `submitQuestion`: an unknown code leaves it as it was; a known
   code gets the question appended to its question list, created empty first
   when missing.
   */
  function Submitted(m: map<string, Lobby>, code: string, q: string): (r: map<string, Lobby>)
    ensures r.Keys == m.Keys
    ensures code !in m ==> r == m
    ensures code in m ==> QuestionCount(r[code]) == QuestionCount(m[code]) + 1
    ensures code in m ==>
      var qs := r[code].questions.value;
      r[code].questions.Some? && qs[|qs| - 1] == q &&
      (m[code].questions.Some? ==> qs[..|qs| - 1] == m[code].questions.value)
    ensures code in m ==>
      r[code].players == m[code].players && r[code].chains == m[code].chains && r[code].phase == m[code].phase
    ensures forall c :: c in m && c != code ==> r[c] == m[c]
  {
    if code in m then
      var lobby := m[code];
      var qs := if lobby.questions.Some? then lobby.questions.value else [];
      m[code := lobby.(questions := Some(qs + [q]))]
    else
      m
  }

  /**
   The map after `disconnect`: every lobby loses the entries of socket id `id`,
   and a lobby left without players is deleted.
   */
  function Swept(m: map<string, Lobby>, id: string): (r: map<string, Lobby>)
    ensures forall c :: c in r <==> c in m && exists p :: p in m[c].players && p.id != id
    ensures forall c :: c in r ==> r[c].players != [] && forall p :: p in r[c].players ==> p.id != id
    ensures forall c :: c in r ==> r[c].players == RemovePlayer(m[c].players, id)
    ensures forall c :: c in r ==>
      r[c].chains == m[c].chains && r[c].phase == m[c].phase && r[c].questions == m[c].questions
    ensures forall c :: c in m && m[c].players != [] && (forall p :: p in m[c].players ==> p.id != id) ==>
      c in r && r[c] == m[c]
  {
    map c | c in m && RemovePlayer(m[c].players, id) != [] :: m[c].(players := RemovePlayer(m[c].players, id))
  }

  /** `Swept` for the lobbies outside `todo`; the lobbies in `todo` are not visited yet. */
  ghost function PartlySwept(m: map<string, Lobby>, id: string, todo: set<string>): map<string, Lobby>
  {
    map c | c in m && (c in todo || RemovePlayer(m[c].players, id) != []) ::
      if c in todo then m[c] else m[c].(players := RemovePlayer(m[c].players, id))
  }

  /** Visiting one more lobby turns the partly swept map into the next one. */
  lemma PartlySweptStep(m: map<string, Lobby>, id: string, todo: set<string>, code: string)
    requires code in todo && todo <= m.Keys
    ensures
      var cur := PartlySwept(m, id, todo);
      var lobby := cur[code].(players := RemovePlayer(cur[code].players, id));
      var next := if lobby.players == [] then cur[code := lobby] - {code} else cur[code := lobby];
      next == PartlySwept(m, id, todo - {code})
  {
    var cur := PartlySwept(m, id, todo);
    var lobby := cur[code].(players := RemovePlayer(cur[code].players, id));
    var next := if lobby.players == [] then cur[code := lobby] - {code} else cur[code := lobby];
    var want := PartlySwept(m, id, todo - {code});
    assert cur[code] == m[code];
    assert next.Keys == want.Keys;
    forall c | c in want
      ensures next[c] == want[c]
    {
      if c != code {
        assert next[c] == cur[c];
      }
    }
  }

  lemma PartlySweptEnds(m: map<string, Lobby>, id: string)
    ensures PartlySwept(m, id, m.Keys) == m
    ensures PartlySwept(m, id, {}) == Swept(m, id)
  {
    assert PartlySwept(m, id, m.Keys).Keys == m.Keys;
  }

  /** Creating a lobby keeps every lobby non-empty, waiting and without chains. */
  lemma CreatedKeepsWellFormed(m: map<string, Lobby>, code: string, id: string, name: string)
    requires WellFormed(m)
    ensures WellFormed(Created(m, code, id, name))
  {
  }

  /** Joining a lobby keeps every lobby non-empty, waiting and without chains. */
  lemma JoinedKeepsWellFormed(m: map<string, Lobby>, code: string, id: string, name: string)
    requires WellFormed(m)
    ensures WellFormed(Joined(m, code, id, name))
  {
  }

  /** Submitting a question keeps every lobby non-empty, waiting and without chains. */
  lemma SubmittedKeepsWellFormed(m: map<string, Lobby>, code: string, q: string)
    requires WellFormed(m)
    ensures WellFormed(Submitted(m, code, q))
  {
  }

  /** A disconnect keeps every lobby non-empty, waiting and without chains. */
  lemma SweptKeepsWellFormed(m: map<string, Lobby>, id: string)
    requires WellFormed(m)
    ensures WellFormed(Swept(m, id))
  {
  }

  /** After a disconnect, the players left in each lobby keep their relative order. */
  lemma SweptKeepsOrder(m: map<string, Lobby>, id: string)
    ensures forall c :: c in Swept(m, id) ==> IsSubsequence(Swept(m, id)[c].players, m[c].players)
  {
    forall c | c in Swept(m, id) {
      RemovePlayerKeepsOrder(m[c].players, id);
    }
  }

  /** A disconnect removes no entry of another socket from a lobby it keeps. */
  lemma SweptKeepsOthers(m: map<string, Lobby>, id: string, c: string, p: Player)
    requires c in Swept(m, id) && p.id != id
    ensures multiset(Swept(m, id)[c].players)[p] == multiset(m[c].players)[p]
  {
    RemovePlayerKeepsOthers(m[c].players, id, p);
  }

  /**
   Joining does not check for an existing entry: the roster holds one more
   entry of the joining socket id than before, even if it was already there.
   */
  lemma JoinAddsOneEntry(m: map<string, Lobby>, code: string, id: string, name: string)
    requires code in m
    ensures CountId(Joined(m, code, id, name)[code].players, id) == CountId(m[code].players, id) + 1
  {
    assert Joined(m, code, id, name)[code].players == m[code].players + [Player(id, name)];
    CountIdAppend(m[code].players, Player(id, name), id);
  }

  /**
   After a question for a known code, the completion check fires exactly when
   the lobby has at least as many questions as players.
   */
  lemma SubmitCompletesIff(m: map<string, Lobby>, code: string, q: string)
    requires code in m
    ensures PhaseComplete(Submitted(m, code, q)[code]) <==> QuestionCount(m[code]) + 1 >= |m[code].players|
  {
    PhaseCompleteIff(Submitted(m, code, q)[code]);
  }

  /**
   Completion counts questions, not submitters: in a two-player lobby two
   questions from the creator alone complete the phase; one does not.
   */
  lemma OneSubmitterCompletes()
    ensures
      var m0 := Created(map[], "AB12", "s1", "Alice");
      var m1 := Joined(m0, "AB12", "s2", "Bob");
      var m2 := Submitted(m1, "AB12", "Q1");
      var m3 := Submitted(m2, "AB12", "Q2");
      !PhaseComplete(m2["AB12"]) && PhaseComplete(m3["AB12"])
  {
    var m0 := Created(map[], "AB12", "s1", "Alice");
    var m1 := Joined(m0, "AB12", "s2", "Bob");
    var m2 := Submitted(m1, "AB12", "Q1");
    var m3 := Submitted(m2, "AB12", "Q2");
    PhaseCompleteIff(m2["AB12"]);
    PhaseCompleteIff(m3["AB12"]);
  }

  /**
   The registry of live lobbies. Its methods are the handler bodies; each ends
   in the state the corresponding transition function describes.
   */
  class Registry {
    var lobbies: map<string, Lobby>

    ghost predicate Valid()
      reads this
    {
      WellFormed(lobbies)
    }

    constructor ()
      ensures Valid() && lobbies == map[]
    {
      lobbies := map[];
    }

    /** `createLobby`: `code` stands for the random code the handler draws. */
    method CreateLobby(code: string, socketId: string, playerName: string)
      requires Valid()
      modifies this
      ensures Valid()
      ensures lobbies == Created(old(lobbies), code, socketId, playerName)
    {
      CreatedKeepsWellFormed(lobbies, code, socketId, playerName);
      lobbies := lobbies[code := NewLobby(socketId, playerName)];
    }

    /**
     `joinLobby`: returns the roster broadcast to the lobby, or `None` when the
     code is unknown and nothing happens.
     */
    method JoinLobby(code: string, socketId: string, playerName: string) returns (roster: Option<seq<Player>>)
      requires Valid()
      modifies this
      ensures Valid()
      ensures lobbies == Joined(old(lobbies), code, socketId, playerName)
      ensures roster == if code in lobbies then Some(lobbies[code].players) else None
    {
      JoinedKeepsWellFormed(lobbies, code, socketId, playerName);
      if code in lobbies {
        var lobby := lobbies[code];
        lobby := lobby.(players := lobby.players + [Player(socketId, playerName)]);
        lobbies := lobbies[code := lobby];
        roster := Some(lobby.players);
      } else {
        roster := None;
      }
    }

    /**
     `submitQuestion`: `advanced` is whether `checkPhaseCompletion` decides to
     start the answer phase.
     */
    method SubmitQuestion(code: string, question: string) returns (advanced: bool)
      requires Valid()
      modifies this
      ensures Valid()
      ensures lobbies == Submitted(old(lobbies), code, question)
      ensures advanced <==> code in old(lobbies) && QuestionCount(old(lobbies)[code]) + 1 >= |old(lobbies)[code].players|
    {
      SubmittedKeepsWellFormed(lobbies, code, question);
      advanced := false;
      if code in lobbies {
        var lobby := lobbies[code];
        var questions := if lobby.questions.Some? then lobby.questions.value else [];
        questions := questions + [question];
        lobby := lobby.(questions := Some(questions));
        lobbies := lobbies[code := lobby];
        advanced := PhaseComplete(lobby);
        SubmitCompletesIff(old(lobbies), code, question);
      }
    }

    /**
     `disconnect`: visits every lobby live at entry once, filters the socket
     out of its roster and deletes the lobby when the roster is empty.
     */
    method Disconnect(socketId: string)
      requires Valid()
      modifies this
      ensures Valid()
      ensures lobbies == Swept(old(lobbies), socketId)
      ensures forall c :: c in lobbies ==> forall p :: p in lobbies[c].players ==> p.id != socketId
    {
      var todo := lobbies.Keys;
      PartlySweptEnds(lobbies, socketId);
      while todo != {}
        invariant todo <= old(lobbies).Keys
        invariant lobbies == PartlySwept(old(lobbies), socketId, todo)
        decreases todo
      {
        var code :| code in todo;
        PartlySweptStep(old(lobbies), socketId, todo, code);
        var lobby := lobbies[code];
        lobby := lobby.(players := RemovePlayer(lobby.players, socketId));
        lobbies := lobbies[code := lobby];
        if |lobby.players| == 0 {
          lobbies := lobbies - {code};
        }
        todo := todo - {code};
      }
      SweptKeepsWellFormed(old(lobbies), socketId);
    }
  }
}
