/**
 Lobby records of the party-game server: the players of a lobby, the questions
 submitted to it, and the phase-completion test that the server runs after
 every submitted question.
 */
module Lobbies {

  datatype Option<T> = None | Some(value: T)

  /** A roster entry: the connection's socket id and the display name it sent. */
  datatype Player = Player(id: string, name: string)

  /**
   A lobby record. `chains` is created empty and never filled by the server;
   `questions` does not exist until the first question arrives (`None`).
   */
  datatype Lobby = Lobby(players: seq<Player>, chains: seq<string>, phase: string, questions: Option<seq<string>>)

  /** The only phase the server ever assigns. */
  const Waiting: string := "waiting"

  /**
   The record a new lobby starts with: its creator as sole player, waiting,
   without chains and without questions, so its phase is not complete.
   */
  function NewLobby(id: string, name: string): (l: Lobby)
    ensures |l.players| == 1 && l.players[0].id == id && l.players[0].name == name
    ensures l.phase == Waiting && l.chains == [] && QuestionCount(l) == 0
    ensures !PhaseComplete(l)
  {
    Lobby([Player(id, name)], [], Waiting, None)
  }

  /** Number of questions submitted so far; a lobby without a question list has none. */
  function QuestionCount(l: Lobby): nat
  {
    if l.questions.Some? then |l.questions.value| else 0
  }

  /** Number of roster entries carrying socket id `id`. */
  function CountId(ps: seq<Player>, id: string): nat
  {
    if ps == [] then 0 else (if ps[0].id == id then 1 else 0) + CountId(ps[1..], id)
  }

  lemma {:induction false} CountIdAppend(ps: seq<Player>, p: Player, id: string)
    ensures CountId(ps + [p], id) == CountId(ps, id) + (if p.id == id then 1 else 0)
  {
    if ps != [] {
      assert (ps + [p])[1..] == ps[1..] + [p];
      CountIdAppend(ps[1..], p, id);
    }
  }

  /**
   The roster without the entries of socket id `id`, in their old order
   (`players.filter(p => p.id !== id)`).
   */
  function RemovePlayer(ps: seq<Player>, id: string): (r: seq<Player>)
    ensures |r| <= |ps|
    ensures forall p :: p in r ==> p in ps && p.id != id
    ensures (forall p :: p in ps ==> p.id != id) ==> r == ps
    ensures r == [] <==> forall p :: p in ps ==> p.id == id
  {
    if ps == [] then []
    else if ps[0].id != id then [ps[0]] + RemovePlayer(ps[1..], id)
    else RemovePlayer(ps[1..], id)
  }

  /** `a` is `b` with some entries dropped and the rest kept in order. */
  predicate IsSubsequence(a: seq<Player>, b: seq<Player>)
  {
    if a == [] then true
    else if b == [] then false
    else (a[0] == b[0] && IsSubsequence(a[1..], b[1..])) || IsSubsequence(a, b[1..])
  }

  /** Removing a player keeps the remaining players in their relative order. */
  lemma {:induction false} RemovePlayerKeepsOrder(ps: seq<Player>, id: string)
    ensures IsSubsequence(RemovePlayer(ps, id), ps)
  {
    if ps != [] {
      RemovePlayerKeepsOrder(ps[1..], id);
      var r := RemovePlayer(ps, id);
      if ps[0].id != id {
        assert r[0] == ps[0] && r[1..] == RemovePlayer(ps[1..], id);
      }
    }
  }

  /** Removing a player drops every entry of that id and no entry of any other id. */
  lemma {:induction false} RemovePlayerKeepsOthers(ps: seq<Player>, id: string, p: Player)
    ensures multiset(RemovePlayer(ps, id))[p] == if p.id == id then 0 else multiset(ps)[p]
  {
    if ps != [] {
      var rest := RemovePlayer(ps[1..], id);
      RemovePlayerKeepsOthers(ps[1..], id, p);
      assert ps == [ps[0]] + ps[1..];
      assert multiset(ps) == multiset([ps[0]]) + multiset(ps[1..]);
      if ps[0].id != id {
        assert multiset(RemovePlayer(ps, id)) == multiset([ps[0]]) + multiset(rest);
      }
    }
  }

  /**
   The callback the server hands to `every`: it ignores the player it is given
   and compares the question count with the roster size. When the lobby has no
   question list the comparison `undefined >= n` is false.
   */
  predicate EnoughQuestions(l: Lobby)
    ensures EnoughQuestions(l) ==> QuestionCount(l) >= |l.players|
    ensures l.questions.None? ==> !EnoughQuestions(l)
  {
    l.questions.Some? && |l.questions.value| >= |l.players|
  }

  /** `ps.every(p => EnoughQuestions(l))`, entry by entry. */
  predicate EveryPlayer(ps: seq<Player>, l: Lobby)
    ensures ps == [] ==> EveryPlayer(ps, l)
    ensures EveryPlayer(ps, l) && ps != [] ==> EnoughQuestions(l)
  {
    ps == [] || (EnoughQuestions(l) && EveryPlayer(ps[1..], l))
  }

  /** The test of `checkPhaseCompletion`: every player of the roster passes the callback. */
  predicate PhaseComplete(l: Lobby)
    ensures l.players == [] ==> PhaseComplete(l)
    ensures PhaseComplete(l) ==> QuestionCount(l) >= |l.players|
  {
    EveryPlayer(l.players, l)
  }

  lemma {:induction false} EveryPlayerConstant(ps: seq<Player>, l: Lobby)
    ensures EveryPlayer(ps, l) <==> ps == [] || EnoughQuestions(l)
  {
    if ps != [] {
      EveryPlayerConstant(ps[1..], l);
    }
  }

  /**
   Completion reduces to one comparison: at least as many questions as players.
   It holds vacuously for an empty roster and ignores who sent the questions.
   */
  lemma PhaseCompleteIff(l: Lobby)
    ensures PhaseComplete(l) <==> QuestionCount(l) >= |l.players|
    ensures PhaseComplete(l) <==> l.players == [] || EnoughQuestions(l)
  {
    EveryPlayerConstant(l.players, l);
  }
}
