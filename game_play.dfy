/** The round screen of `components/Game/GamePlay.tsx`: the countdown, guess
    submission with the per-round score overlay, the live score of a player,
    the host's advance to the next song, and the recent-guesses panel. The
    server's answers (the evaluated guess, the next round) are parameters;
    timers and audio playback are not modelled, only the state they change. */
module GamePlay {
  import opened Wrappers
  import opened JsText
  import MinSec

  const RoundDuration: nat := 30
  const PointsTitle: nat := 100
  const PointsArtist: nat := 50

  /** How many guesses the recent-guesses panel shows. */
  const RecentCount: nat := 5

  datatype UserRef = UserRef(id: string, name: string)

  datatype Participant = Participant(id: string, displayName: string, score: int, user: Option<UserRef>)

  datatype CurrentSong = CurrentSong(
    id: string,
    title: string,
    artist: string,
    album: Option<string>,
    previewUrl: Option<string>,
    imageUrl: Option<string>,
    selectedBy: string)

  datatype GuessType = Title | Artist

  datatype Guess = Guess(
    id: string,
    userId: string,
    userName: string,
    guessType: GuessType,
    guessText: string,
    isCorrect: bool,
    pointsAwarded: int)

  datatype GameState = GameState(
    currentSongIndex: nat,
    currentSong: CurrentSong,
    timeRemaining: int,
    isPlaying: bool,
    guesses: seq<Guess>,
    roundScores: map<string, int>)

  /** The body of the guess request. */
  datatype GuessRequest = GuessRequest(songId: string, guessType: GuessType, guessText: string, secondsRemaining: int)

  /** The clock text `formatTime(timeRemaining)` shows the remaining seconds:
      it reads back as them. */
  lemma FormatTimeReadsBack(seconds: nat)
    ensures MinSec.ParseMinSec(MinSec.FormatTime(seconds)) == Some(seconds)
  {
    MinSec.FormatParseRoundTrip(seconds);
  }

  // ----- The countdown -----

  /** One step of the interval's state update: the time drops by one second;
      at zero or below it is pinned to 0, playback stops and the round ends
      (`endsRound`). Nothing else changes. */
  function Tick(s: GameState): (r: (GameState, bool))
    ensures r.0.timeRemaining >= 0
    ensures r.1 <==> s.timeRemaining - 1 <= 0
    ensures r.1 ==> r.0 == s.(timeRemaining := 0, isPlaying := false)
    ensures !r.1 ==> r.0 == s.(timeRemaining := s.timeRemaining - 1)
  {
    var newTime := s.timeRemaining - 1;
    if newTime <= 0 then (s.(timeRemaining := 0, isPlaying := false), true)
    else (s.(timeRemaining := newTime), false)
  }

  /** `n` ticks in a row, each on the state the previous one left. */
  function TickN(s: GameState, n: nat): GameState
    decreases n
  {
    if n == 0 then s else TickN(Tick(s).0, n - 1)
  }

  /** After `n` ticks from `t >= 0` seconds, `max(t - n, 0)` remain; the time
      never drops below zero, and only the time and the playing flag change. */
  lemma {:induction false} TickNRemaining(s: GameState, n: nat)
    requires s.timeRemaining >= 0
    ensures TickN(s, n).timeRemaining == if n >= s.timeRemaining then 0 else s.timeRemaining - n
    ensures TickN(s, n).timeRemaining >= 0
    ensures TickN(s, n) == s.(timeRemaining := TickN(s, n).timeRemaining, isPlaying := TickN(s, n).isPlaying)
    ensures n < s.timeRemaining ==> TickN(s, n).isPlaying == s.isPlaying
    ensures n >= 1 && n >= s.timeRemaining ==> !TickN(s, n).isPlaying
    decreases n
  {
    if n > 0 {
      TickNRemaining(Tick(s).0, n - 1);
    }
  }

  // ----- Scores -----

  /** `roundScores[id] || 0`. */
  function RoundScore(scores: map<string, int>, id: string): int {
    if id in scores then scores[id] else 0
  }

  /** `participants.find(p => p.user?.id === userId)`. */
  function FindParticipant(participants: seq<Participant>, userId: string): (r: Option<Participant>)
    ensures r.None? <==> forall i :: 0 <= i < |participants| ==> participants[i].user.None? || participants[i].user.value.id != userId
    ensures r.Some? ==> r.value.user.Some? && r.value.user.value.id == userId
    ensures r.Some? ==> exists i :: 0 <= i < |participants| && participants[i] == r.value &&
                          forall k :: 0 <= k < i ==> participants[k].user.None? || participants[k].user.value.id != userId
  {
    if participants == [] then None
    else if participants[0].user.Some? && participants[0].user.value.id == userId then Some(participants[0])
    else
      var r := FindParticipant(participants[1..], userId);
      if r.Some? then
        var i :| 0 <= i < |participants[1..]| && participants[1..][i] == r.value
          && forall k :: 0 <= k < i ==> participants[1..][k].user.None? || participants[1..][k].user.value.id != userId;
        assert participants[i + 1] == r.value;
        r
      else r
  }

  /** `getPlayerScore(userId)`: the stored score plus this round's points;
      0 for an id no participant has. */
  function PlayerScore(participants: seq<Participant>, state: Option<GameState>, userId: string): int {
    match FindParticipant(participants, userId)
    case None => 0
    case Some(p) => p.score + (if state.Some? then RoundScore(state.value.roundScores, userId) else 0)
  }

  /** The state update after an accepted guess: the guess is appended and its
      points are added to the guesser's round score. */
  function AddGuess(s: GameState, userId: string, g: Guess): (r: GameState)
    ensures r.guesses == s.guesses + [g]
    ensures RoundScore(r.roundScores, userId) == RoundScore(s.roundScores, userId) + g.pointsAwarded
    ensures forall id :: id != userId ==> RoundScore(r.roundScores, id) == RoundScore(s.roundScores, id)
    ensures r == s.(guesses := r.guesses, roundScores := r.roundScores)
  {
    s.(guesses := s.guesses + [g],
       roundScores := s.roundScores[userId := RoundScore(s.roundScores, userId) + g.pointsAwarded])
  }

  /** An accepted guess raises the guesser's live score by its points, when the
      guesser is a participant, and leaves every other player's score alone. */
  lemma AddGuessScore(participants: seq<Participant>, s: GameState, userId: string, g: Guess, other: string)
    requires other != userId
    ensures PlayerScore(participants, Some(AddGuess(s, userId, g)), userId)
         == PlayerScore(participants, Some(s), userId) + (if FindParticipant(participants, userId).Some? then g.pointsAwarded else 0)
    ensures PlayerScore(participants, Some(AddGuess(s, userId, g)), other) == PlayerScore(participants, Some(s), other)
  {
  }

  /** `guesses.slice(-5).reverse()`: the last five guesses, newest first. */
  function RecentGuesses(guesses: seq<Guess>): (r: seq<Guess>)
    ensures |r| == if |guesses| < RecentCount then |guesses| else RecentCount
    ensures forall i :: 0 <= i < |r| ==> r[i] == guesses[|guesses| - 1 - i]
  {
    var tail := if |guesses| < RecentCount then guesses else guesses[|guesses| - RecentCount..];
    Reverse(tail)
  }

  function Reverse<T>(s: seq<T>): (r: seq<T>)
    ensures |r| == |s|
    ensures forall i :: 0 <= i < |s| ==> r[i] == s[|s| - 1 - i]
  {
    if s == [] then [] else Reverse(s[1..]) + [s[0]]
  }

  // ----- The component state -----

  /** The answer to the host's advance request: `None` for a response that is
      not ok or a failed request. */
  datatype NextAnswer = GameComplete | NextRound(state: GameState)

  datatype NextOutcome = Ignored | Failed | Ended | Advanced

  class GamePlayView {
    const currentUserId: string
    const isHost: bool
    const participants: seq<Participant>
    var gameState: Option<GameState>
    var titleGuess: string
    var artistGuess: string
    var hasGuessedTitle: bool
    var hasGuessedArtist: bool
    var isSubmitting: bool

    constructor(currentUserId: string, isHost: bool, participants: seq<Participant>)
      ensures this.currentUserId == currentUserId && this.isHost == isHost && this.participants == participants
      ensures gameState == None && titleGuess == "" && artistGuess == ""
      ensures !hasGuessedTitle && !hasGuessedArtist && !isSubmitting
    {
      this.currentUserId := currentUserId;
      this.isHost := isHost;
      this.participants := participants;
      gameState := None;
      titleGuess := "";
      artistGuess := "";
      hasGuessedTitle := false;
      hasGuessedArtist := false;
      isSubmitting := false;
    }

    /** The guard of `submitGuess`: a loaded round, no submission in flight and
        a guess that is not blank. */
    predicate CanSubmit(guessText: string)
      reads this
    {
      gameState.Some? && !isSubmitting && !IsBlank(guessText)
    }

    /** `getPlayerScore(userId)` on the current state. */
    function GetPlayerScore(userId: string): int
      reads this
    {
      PlayerScore(participants, gameState, userId)
    }

    /** One interval tick; `endsRound` is the call of `endRound`. */
    method OnTick() returns (endsRound: bool)
      modifies this
      ensures old(gameState).None? ==> !endsRound && unchanged(this)
      ensures old(gameState).Some? ==> gameState.Some? && (gameState.value, endsRound) == Tick(old(gameState).value)
      ensures titleGuess == old(titleGuess) && artistGuess == old(artistGuess)
      ensures hasGuessedTitle == old(hasGuessedTitle) && hasGuessedArtist == old(hasGuessedArtist)
      ensures isSubmitting == old(isSubmitting)
    {
      if gameState.None? {
        return false;
      }
      var next := Tick(gameState.value);
      gameState := Some(next.0);
      endsRound := next.1;
    }

    /** `submitGuess(guessType, guessText)`. `answer` is the evaluated guess of
        an ok response, `None` for a response that is not ok or a failed
        request. Returns the request sent, `None` when the guard stops it. */
    method SubmitGuess(guessType: GuessType, guessText: string, answer: Option<Guess>) returns (request: Option<GuessRequest>)
      modifies this
      ensures request.Some? <==> old(CanSubmit(guessText))
      ensures request.None? ==> unchanged(this)
      ensures request.Some? ==>
        request.value == GuessRequest(old(gameState).value.currentSong.id, guessType, Trim(guessText), old(gameState).value.timeRemaining)
      ensures request.Some? && answer.None? ==> unchanged(this)
      ensures request.Some? && answer.Some? ==>
        && gameState == Some(AddGuess(old(gameState).value, currentUserId, answer.value))
        && hasGuessedTitle == (old(hasGuessedTitle) || guessType == Title)
        && hasGuessedArtist == (old(hasGuessedArtist) || guessType == Artist)
        && titleGuess == (if guessType == Title then "" else old(titleGuess))
        && artistGuess == (if guessType == Artist then "" else old(artistGuess))
        && !isSubmitting
      ensures request.Some? && answer.Some? ==>
        GetPlayerScore(currentUserId) == old(GetPlayerScore(currentUserId))
          + (if FindParticipant(participants, currentUserId).Some? then answer.value.pointsAwarded else 0)
    {
      if !CanSubmit(guessText) {
        return None;
      }
      var state := gameState.value;
      request := Some(GuessRequest(state.currentSong.id, guessType, Trim(guessText), state.timeRemaining));
      isSubmitting := true;
      if answer.Some? {
        RecordGuess(guessType, answer.value);
      }
      isSubmitting := false;
    }

    /** The ok branch of `submitGuess`: the guess type is marked as guessed,
        the guess is added to the state and its input is cleared. */
    method RecordGuess(guessType: GuessType, g: Guess)
      requires gameState.Some?
      modifies this
      ensures gameState == Some(AddGuess(old(gameState).value, currentUserId, g))
      ensures hasGuessedTitle == (old(hasGuessedTitle) || guessType == Title)
      ensures hasGuessedArtist == (old(hasGuessedArtist) || guessType == Artist)
      ensures titleGuess == (if guessType == Title then "" else old(titleGuess))
      ensures artistGuess == (if guessType == Artist then "" else old(artistGuess))
      ensures isSubmitting == old(isSubmitting)
    {
      if guessType == Title {
        hasGuessedTitle := true;
      } else {
        hasGuessedArtist := true;
      }
      gameState := Some(AddGuess(gameState.value, currentUserId, g));
      if guessType == Title {
        titleGuess := "";
      } else {
        artistGuess := "";
      }
    }

    /** `nextSong()`: nothing at all for a player who is not the host. On a
        new round the state is replaced, the guess inputs and flags are reset,
        and playback starts when the song has a preview. */
    method NextSong(answer: Option<NextAnswer>) returns (outcome: NextOutcome)
      modifies this
      ensures !isHost ==> outcome == Ignored && unchanged(this)
      ensures isHost && answer.None? ==> outcome == Failed && unchanged(this)
      ensures isHost && answer == Some(GameComplete) ==> outcome == Ended && unchanged(this)
      ensures isHost && answer.Some? && answer.value.NextRound? ==>
        var s := answer.value.state;
        && outcome == Advanced
        && gameState == Some(if s.currentSong.previewUrl.Some? && s.currentSong.previewUrl.value != ""
                             then s.(isPlaying := true) else s)
        && titleGuess == "" && artistGuess == "" && !hasGuessedTitle && !hasGuessedArtist
        && isSubmitting == old(isSubmitting)
    {
      if !isHost {
        return Ignored;
      }
      if answer.None? {
        return Failed;
      }
      if answer.value.GameComplete? {
        return Ended;
      }
      var s := answer.value.state;
      gameState := Some(s);
      titleGuess := "";
      artistGuess := "";
      hasGuessedTitle := false;
      hasGuessedArtist := false;
      if s.currentSong.previewUrl.Some? && s.currentSong.previewUrl.value != "" {
        gameState := Some(s.(isPlaying := true));
      }
      return Advanced;
    }

    /** `toggleAudio()`: flips the playing flag when a round and an audio
        element are present. */
    method ToggleAudio(hasAudio: bool)
      modifies this
      ensures !hasAudio || old(gameState).None? ==> unchanged(this)
      ensures hasAudio && old(gameState).Some? ==>
        gameState == Some(old(gameState).value.(isPlaying := !old(gameState).value.isPlaying))
      ensures titleGuess == old(titleGuess) && artistGuess == old(artistGuess)
      ensures hasGuessedTitle == old(hasGuessedTitle) && hasGuessedArtist == old(hasGuessedArtist)
      ensures isSubmitting == old(isSubmitting)
    {
      if !hasAudio || gameState.None? {
        return;
      }
      gameState := Some(gameState.value.(isPlaying := !gameState.value.isPlaying));
    }

    /** The audio element's `ended` event. */
    method AudioEnded()
      modifies this
      ensures gameState == if old(gameState).None? then None else Some(old(gameState).value.(isPlaying := false))
      ensures titleGuess == old(titleGuess) && artistGuess == old(artistGuess)
      ensures hasGuessedTitle == old(hasGuessedTitle) && hasGuessedArtist == old(hasGuessedArtist)
      ensures isSubmitting == old(isSubmitting)
    {
      if gameState.Some? {
        gameState := Some(gameState.value.(isPlaying := false));
      }
    }
  }
}
