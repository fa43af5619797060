/** The room browser of `app/rooms/page.tsx`: the search filter over the
    room list, the rule for whether a room can be joined and the label of its
    disabled button, the status texts, the age of a room, and joining by code.
    Statuses are the strings the route sends (`WAITING`, `SELECTING`, ...). */
module RoomsPage {
  import opened Wrappers
  import opened JsText
  import TrackSelection

  datatype Host = Host(id: string, name: string)

  /** A game of a room as a card reads it from `room.games`; the newest comes
      first. */
  datatype ListedGame = ListedGame(id: string, status: string, participants: seq<TrackSelection.Participant>)

  /** A room as a card shows it: its columns, its host and its games. */
  datatype ListedRoom = ListedRoom(
    id: string,
    code: string,
    name: Option<string>,
    maxPlayers: int,
    status: string,
    createdAtMs: int,
    host: Host,
    games: seq<ListedGame>)

  // ----- Search filter -----

  /** A room is kept when the lower-cased query occurs in its lower-cased name,
      code or host name. */
  predicate RoomMatches(room: ListedRoom, query: string) {
    var q := ToLower(query);
    || (room.name.Some? && Contains(ToLower(room.name.value), q))
    || Contains(ToLower(room.code), q)
    || Contains(ToLower(room.host.name), q)
  }

  /** `filteredRooms`: the matching rooms in list order. */
  function FilteredRooms(rooms: seq<ListedRoom>, query: string): (r: seq<ListedRoom>)
    ensures forall room :: room in r <==> room in rooms && RoomMatches(room, query)
    ensures |r| <= |rooms|
    ensures forall room :: multiset(r)[room] == if RoomMatches(room, query) then multiset(rooms)[room] else 0
  {
    if rooms == [] then []
    else
      assert rooms == [rooms[0]] + rooms[1..];
      if RoomMatches(rooms[0], query) then [rooms[0]] + FilteredRooms(rooms[1..], query)
      else FilteredRooms(rooms[1..], query)
  }

  /** An empty search keeps every room, in order. */
  lemma {:induction false} EmptyQueryKeepsAll(rooms: seq<ListedRoom>)
    ensures FilteredRooms(rooms, "") == rooms
  {
    if rooms != [] {
      ToLowerEmpty();
      ContainsEmpty(ToLower(rooms[0].code));
      EmptyQueryKeepsAll(rooms[1..]);
    }
  }

  /** Typing more narrows the list: every room kept for `query + more` is kept
      for `query`. */
  lemma NarrowingQuery(rooms: seq<ListedRoom>, query: string, more: string)
    ensures forall room :: room in FilteredRooms(rooms, query + more) ==> room in FilteredRooms(rooms, query)
  {
    ToLowerAppend(query, more);
    forall room | room in FilteredRooms(rooms, query + more) ensures RoomMatches(room, query) {
      var q, m := ToLower(query), ToLower(more);
      if room.name.Some? && Contains(ToLower(room.name.value), q + m) {
        ContainsPrefixOfSub(ToLower(room.name.value), q, m);
      } else if Contains(ToLower(room.code), q + m) {
        ContainsPrefixOfSub(ToLower(room.code), q, m);
      } else {
        ContainsPrefixOfSub(ToLower(room.host.name), q, m);
      }
    }
  }

  // ----- Joining -----

  /** `currentGame?.participants?.length || 0`. */
  function ParticipantCount(room: ListedRoom): nat {
    if room.games == [] then 0 else |room.games[0].participants|
  }

  /** `canJoin`: with a current game, it selects tracks and has a free place;
      without one, the room waits for players. */
  predicate CanJoin(room: ListedRoom) {
    if room.games != [] then room.games[0].status == "SELECTING" && ParticipantCount(room) < room.maxPlayers
    else room.status == "WAITING"
  }

  /** The text of the disabled button shown when a room cannot be joined. */
  function DisabledLabel(room: ListedRoom): (text: string)
    ensures text == "Game Ended" <==>
      (room.games != [] && room.games[0].status == "FINISHED") || room.status == "FINISHED"
    ensures text == "Room Full" ==> ParticipantCount(room) >= room.maxPlayers
    ensures text in {"Game Ended", "Room Full", "Game in Progress", "Not Available"}
  {
    var game := if room.games != [] then Some(room.games[0]) else None;
    if (game.Some? && game.value.status == "FINISHED") || room.status == "FINISHED" then "Game Ended"
    else if ParticipantCount(room) >= room.maxPlayers then "Room Full"
    else if game.Some? && game.value.status == "PLAYING" then "Game in Progress"
    else "Not Available"
  }

  /** The disabled label names the reason a room cannot be joined: "Not
      Available" is left only for a room that is neither over, full nor
      playing, whose game (or, without one, the room itself) is in a status
      that does not admit players. */
  lemma NotAvailableReason(room: ListedRoom)
    requires !CanJoin(room) && DisabledLabel(room) == "Not Available"
    ensures ParticipantCount(room) < room.maxPlayers && room.status != "FINISHED"
    ensures room.games != [] ==> room.games[0].status !in {"SELECTING", "PLAYING", "FINISHED"}
    ensures room.games == [] ==> room.status != "WAITING"
  {
  }

  /** A room waiting for players with a selecting game that has room is joinable,
      and a joinable room never shows a disabled label's reasons. */
  lemma JoinableNotEndedOrFull(room: ListedRoom)
    requires CanJoin(room)
    ensures room.games != [] ==> DisabledLabel(room) != "Room Full" && ParticipantCount(room) < room.maxPlayers
    ensures room.status != "FINISHED" ==> DisabledLabel(room) != "Game Ended"
  {
  }

  // ----- Status texts -----

  /** `currentGame?.status || room.status`: the status a card shows. */
  function ShownStatus(room: ListedRoom): (r: string)
    ensures r == room.status || (room.games != [] && r == room.games[0].status)
    ensures room.games == [] ==> r == room.status
    ensures r == "" <==> room.status == "" && (room.games == [] || room.games[0].status == "")
  {
    if room.games != [] && room.games[0].status != "" then room.games[0].status else room.status
  }

  /** `getStatusText(status)`: the four known statuses get labels; any other
      text is shown as it is. */
  function StatusText(status: string): (r: string)
    ensures status == "WAITING" ==> r == "Waiting for Players"
    ensures status == "SELECTING" ==> r == "Selecting Tracks"
    ensures status == "PLAYING" ==> r == "Game in Progress"
    ensures status == "FINISHED" ==> r == "Game Finished"
    ensures status !in {"WAITING", "SELECTING", "PLAYING", "FINISHED"} ==> r == status
  {
    match status
    case "WAITING" => "Waiting for Players"
    case "SELECTING" => "Selecting Tracks"
    case "PLAYING" => "Game in Progress"
    case "FINISHED" => "Game Finished"
    case _ => status
  }

  /** The four known statuses show four different labels. */
  lemma KnownStatusTextsDistinct(a: string, b: string)
    requires a in {"WAITING", "SELECTING", "PLAYING", "FINISHED"} && b in {"WAITING", "SELECTING", "PLAYING", "FINISHED"}
    requires StatusText(a) == StatusText(b)
    ensures a == b
  {
  }

  /** `getStatusColor(status)`: the badge classes; finished and unknown
      statuses share the grey badge. */
  function StatusColor(status: string): (r: string)
    ensures status !in {"WAITING", "SELECTING", "PLAYING"} <==> r == "bg-gray-100 text-gray-800"
  {
    match status
    case "WAITING" => "bg-blue-100 text-blue-800"
    case "SELECTING" => "bg-yellow-100 text-yellow-800"
    case "PLAYING" => "bg-primary/10 text-primary"
    case "FINISHED" => "bg-gray-100 text-gray-800"
    case _ => "bg-gray-100 text-gray-800"
  }

  // ----- Age of a room -----

  /** The age of a room in whole minutes, and the bucket it is shown in. */
  datatype Age = JustNow | MinutesAgo(n: nat) | HoursAgo(n: nat) | DaysAgo(n: nat)

  /** `Math.floor(ms / 60000)`; Dafny's division by a positive number is the
      floor, also for a creation time in the future. */
  function AgeMinutes(nowMs: int, createdAtMs: int): int {
    (nowMs - createdAtMs) / 60000
  }

  function AgeOf(nowMs: int, createdAtMs: int): (a: Age)
    ensures var d := AgeMinutes(nowMs, createdAtMs);
      && (a.JustNow? <==> d < 1)
      && (a.MinutesAgo? ==> a.n == d && 1 <= a.n < 60)
      && (a.HoursAgo? ==> 1 <= a.n < 24 && 60 * a.n <= d < 60 * (a.n + 1))
      && (a.DaysAgo? ==> 1 <= a.n && 1440 * a.n <= d < 1440 * (a.n + 1))
  {
    var d := AgeMinutes(nowMs, createdAtMs);
    if d < 1 then JustNow
    else if d < 60 then MinutesAgo(d)
    else if d < 1440 then HoursAgo(d / 60)
    else DaysAgo(d / 1440)
  }

  function AgeText(a: Age): string {
    match a
    case JustNow => "Just now"
    case MinutesAgo(n) => NatToString(n) + "m ago"
    case HoursAgo(n) => NatToString(n) + "h ago"
    case DaysAgo(n) => NatToString(n) + "d ago"
  }

  /** `formatTimeAgo(createdAt)` at time `nowMs`. */
  function FormatTimeAgo(nowMs: int, createdAtMs: int): string {
    AgeText(AgeOf(nowMs, createdAtMs))
  }

  /** The text reads back as the age: "Just now" under a minute; otherwise a
      numeral, the unit letter and " ago", where the numeral is the age in
      that unit rounded down and the unit is the largest that fits. */
  lemma FormatTimeAgoReadsBack(nowMs: int, createdAtMs: int)
    ensures var d, t := AgeMinutes(nowMs, createdAtMs), FormatTimeAgo(nowMs, createdAtMs);
      && (t == "Just now" <==> d < 1)
      && (d >= 1 ==> |t| > 5 && t[|t| - 4..] == " ago" && IsDigits(t[..|t| - 5]))
      && (1 <= d < 60 ==> t[|t| - 5] == 'm' && DigitsValue(t[..|t| - 5]) == d)
      && (60 <= d < 1440 ==> t[|t| - 5] == 'h' && DigitsValue(t[..|t| - 5]) == d / 60)
      && (1440 <= d ==> t[|t| - 5] == 'd' && DigitsValue(t[..|t| - 5]) == d / 1440)
  {
    var d, t := AgeMinutes(nowMs, createdAtMs), FormatTimeAgo(nowMs, createdAtMs);
    var a := AgeOf(nowMs, createdAtMs);
    if !a.JustNow? {
      var num := NatToString(a.n);
      NatToStringRoundTrip(a.n);
      var unit := if a.MinutesAgo? then "m ago" else if a.HoursAgo? then "h ago" else "d ago";
      assert t == num + unit;
      assert t[..|t| - 5] == num;
      assert t[|t| - 5..] == unit;
      assert t != "Just now" by {
        assert t[|t| - 4..] == " ago";
      }
    }
  }

  /** An older room never shows a younger bucket: ages only grow with time. */
  lemma AgeMonotone(createdAtMs: int, t1: int, t2: int)
    requires t1 <= t2
    ensures AgeMinutes(t1, createdAtMs) <= AgeMinutes(t2, createdAtMs)
    ensures AgeOf(t2, createdAtMs).JustNow? ==> AgeOf(t1, createdAtMs).JustNow?
    ensures AgeOf(t1, createdAtMs).DaysAgo? ==> AgeOf(t2, createdAtMs).DaysAgo?
  {
    var a, b := t1 - createdAtMs, t2 - createdAtMs;
    assert a / 60000 * 60000 <= a <= b < (b / 60000 + 1) * 60000;
  }

  // ----- Join by code -----

  /** What the join request carries: the API path and the display name. */
  datatype JoinRequest = JoinRequest(path: string, displayName: string)

  /** The request `handleJoinRoom` sends for a typed code, or nothing for a
      blank code; the name is the session's, or `Anonymous`. */
  function JoinRequestFor(joinCode: string, sessionName: Option<string>): (r: Option<JoinRequest>)
    ensures r.None? <==> IsBlank(joinCode)
    ensures r.Some? ==> r.value.path == "/api/rooms/" + Trim(joinCode) + "/join"
    ensures r.Some? ==> (r.value.displayName ==
      if sessionName.Some? && sessionName.value != "" then sessionName.value else "Anonymous")
  {
    if Trim(joinCode) == "" then None
    else Some(JoinRequest("/api/rooms/" + Trim(joinCode) + "/join",
                          if sessionName.Some? && sessionName.value != "" then sessionName.value else "Anonymous"))
  }

  /** A room code from the list: six code characters, never white space. */
  predicate IsListedCode(code: string) {
    |code| == 6 && forall i :: 0 <= i < |code| ==> !IsJsSpace(code[i])
  }

  /** The Join Game button of a room card as written: it sets the code and
      calls the handler in the same event, so the handler still sees the code
      that was typed before (`typedCode`), not the room's. */
  function CardJoinAsWritten(typedCode: string, room: ListedRoom, sessionName: Option<string>): Option<JoinRequest> {
    JoinRequestFor(typedCode, sessionName)
  }

  /** With nothing typed, the card's button sends no request at all. */
  lemma CardJoinIgnoresRoom(room: ListedRoom, sessionName: Option<string>)
    requires IsListedCode(room.code)
    ensures CardJoinAsWritten("", room, sessionName).None?
    ensures CardJoin(room, sessionName).Some?
  {
    CardJoinUsesRoomCode(room, sessionName);
  }

  /** The card's button as intended: it joins the room on the card. */
  function CardJoin(room: ListedRoom, sessionName: Option<string>): Option<JoinRequest> {
    JoinRequestFor(room.code, sessionName)
  }

  /** A listed room's code is joined as it is: the request goes to that room. */
  lemma CardJoinUsesRoomCode(room: ListedRoom, sessionName: Option<string>)
    requires IsListedCode(room.code)
    ensures CardJoin(room, sessionName).Some?
    ensures CardJoin(room, sessionName).value.path == "/api/rooms/" + room.code + "/join"
  {
    var c := room.code;
    assert !IsJsSpace(c[0]) && !IsJsSpace(c[5]);
    assert TrimStart(c) == c;
    assert TrimEnd(c) == c;
  }

  /** The answer to the join request. */
  datatype JoinAnswer = Joined | Refused(error: Option<string>) | NoAnswer

  datatype Outcome = Navigate(path: string) | Alert(message: string)

  /** What the page does with the join answer. */
  function JoinOutcome(joinCode: string, answer: JoinAnswer): (r: Outcome)
    ensures r.Navigate? <==> answer.Joined?
    ensures r.Navigate? ==> r.path == "/room/" + Trim(joinCode)
    ensures r.Alert? ==> r.message != ""
    ensures answer.Refused? && answer.error.Some? && answer.error.value != "" ==> r == Alert(answer.error.value)
  {
    match answer
    case Joined => Navigate("/room/" + Trim(joinCode))
    case Refused(e) => Alert(if e.Some? && e.value != "" then e.value else "Failed to join room")
    case NoAnswer => Alert("Failed to join room")
  }

  // ----- The list answer -----

  /** One room of the listing answer as JSON: the room's columns, its host,
      `_count.games` (the games that have participants), and `games` only
      when the query includes them. */
  datatype RoomRow = RoomRow(
    id: string,
    code: string,
    name: Option<string>,
    maxPlayers: int,
    status: string,
    createdAtMs: int,
    host: Host,
    gameCount: nat,
    games: Option<seq<ListedGame>>)

  /** The JSON body of an answer to `GET /api/rooms`: an array of rooms, or an
      object with named fields. */
  datatype RoomsJson = JsonArray(items: seq<RoomRow>) | JsonObject(fields: map<string, seq<RoomRow>>)

  /** The list route answers with the array of rooms itself. */
  function RouteAnswer(rows: seq<RoomRow>): RoomsJson {
    JsonArray(rows)
  }

  /** The number of games that have at least one participant. */
  function GamesWithPlayers(games: seq<ListedGame>): (n: nat)
    ensures n <= |games|
  {
    if games == [] then 0
    else (if games[0].participants != [] then 1 else 0) + GamesWithPlayers(games[1..])
  }

  /** A row of the listing route as written: it includes the host and
      `_count.games`, and no `games`. */
  function ListingRow(room: ListedRoom): (row: RoomRow)
    ensures row.games.None? && row.code == room.code && row.gameCount == GamesWithPlayers(room.games)
  {
    RoomRow(room.id, room.code, room.name, room.maxPlayers, room.status, room.createdAtMs, room.host,
            GamesWithPlayers(room.games), None)
  }

  /** A row as the page needs it: the route also includes every game of the
      room, each with its participants, newest first. */
  function IntendedRow(room: ListedRoom): (row: RoomRow)
    ensures row.games == Some(room.games) && row.code == room.code
  {
    ListingRow(room).(games := Some(room.games))
  }

  function ListingRows(rooms: seq<ListedRoom>): (rows: seq<RoomRow>)
    ensures |rows| == |rooms| && forall i :: 0 <= i < |rooms| ==> rows[i] == ListingRow(rooms[i])
  {
    seq(|rooms|, i requires 0 <= i < |rooms| => ListingRow(rooms[i]))
  }

  function IntendedRows(rooms: seq<ListedRoom>): (rows: seq<RoomRow>)
    ensures |rows| == |rooms| && forall i :: 0 <= i < |rooms| ==> rows[i] == IntendedRow(rooms[i])
  {
    seq(|rooms|, i requires 0 <= i < |rooms| => IntendedRow(rooms[i]))
  }

  /** `room.games[0]` in a card: `None` when `games` is absent, where
      indexing `undefined` throws; otherwise the newest game, if any. */
  function CurrentGameOf(row: RoomRow): (r: Option<Option<ListedGame>>)
    ensures r.None? <==> row.games.None?
    ensures r.Some? && r.value.Some? ==> row.games.value != [] && r.value.value == row.games.value[0]
  {
    match row.games
    case None => None
    case Some(games) => if games == [] then Some(None) else Some(Some(games[0]))
  }

  /** Every card of the listing as written throws at `room.games[0]`. */
  lemma ListingCardThrows(room: ListedRoom)
    ensures CurrentGameOf(ListingRow(room)).None?
    ensures CurrentGameOf(IntendedRow(room)).Some?
  {
  }

  /** The room a card shows, or `None` for a row the card cannot show. */
  function RoomOfRow(row: RoomRow): (r: Option<ListedRoom>)
    ensures r.Some? <==> row.games.Some?
    ensures r.Some? ==> r.value.code == row.code && r.value.games == row.games.value
  {
    if row.games.None? then None
    else Some(ListedRoom(row.id, row.code, row.name, row.maxPlayers, row.status, row.createdAtMs, row.host,
                         row.games.value))
  }

  /** The rooms of a list of rows, when every row can be shown. */
  function RoomsOfRows(rows: seq<RoomRow>): (r: Option<seq<ListedRoom>>)
    ensures r.Some? <==> forall i :: 0 <= i < |rows| ==> rows[i].games.Some?
    ensures r.Some? ==> |r.value| == |rows| && forall i :: 0 <= i < |rows| ==> Some(r.value[i]) == RoomOfRow(rows[i])
  {
    if rows == [] then Some([])
    else
      var rest := RoomsOfRows(rows[1..]);
      if rows[0].games.None? || rest.None? then
        assert rest.None? ==> exists i :: 0 <= i < |rows[1..]| && rows[1..][i].games.None?;
        None
      else
        Some([RoomOfRow(rows[0]).value] + rest.value)
  }

  /** `data.rooms` as the page reads it: a field of an object; `None` (the
      value `undefined`) for an array. */
  function RoomsFieldAsWritten(body: RoomsJson): Option<seq<RoomRow>> {
    if body.JsonObject? && "rooms" in body.fields then Some(body.fields["rooms"]) else None
  }

  /** The page finds no rooms field in the list route's answer, however many
      rooms it lists, so its room list becomes `undefined`. */
  lemma RouteAnswerHasNoRoomsField(rows: seq<RoomRow>)
    ensures RoomsFieldAsWritten(RouteAnswer(rows)).None?
  {
  }

  /** The rooms of an answer as intended: the array itself, or the `rooms`
      field of an object, when every row carries its games. */
  function RoomsOfAnswer(body: RoomsJson): Option<seq<ListedRoom>> {
    match body
    case JsonArray(items) => RoomsOfRows(items)
    case JsonObject(fields) => if "rooms" in fields then RoomsOfRows(fields["rooms"]) else None
  }

  /** Even read as an array, a non-empty listing as the route writes it cannot
      be shown: its rows carry no games. */
  lemma ListingRowsUnreadable(rooms: seq<ListedRoom>)
    requires rooms != []
    ensures RoomsOfAnswer(RouteAnswer(ListingRows(rooms))).None?
  {
    assert ListingRows(rooms)[0].games.None?;
  }

  /** With the games included, reading the route's answer gives back exactly
      the rooms the route listed, and a `{ rooms }` object reads the same. */
  lemma RouteAnswerRead(rooms: seq<ListedRoom>)
    ensures RoomsOfAnswer(RouteAnswer(IntendedRows(rooms))) == Some(rooms)
    ensures RoomsOfAnswer(JsonObject(map["rooms" := IntendedRows(rooms)])) == Some(rooms)
  {
    var rows := IntendedRows(rooms);
    var r := RoomsOfRows(rows);
    assert forall i :: 0 <= i < |rows| ==> rows[i].games.Some?;
    forall i | 0 <= i < |rooms| ensures r.value[i] == rooms[i] {
      RowOfRoomReadsBack(rooms[i]);
    }
    assert r.value == rooms;
  }

  /** A card shows the room its intended row came from. */
  lemma RowOfRoomReadsBack(room: ListedRoom)
    ensures RoomOfRow(IntendedRow(room)) == Some(room)
  {
    var row := IntendedRow(room);
    assert row.id == room.id && row.name == room.name && row.maxPlayers == room.maxPlayers;
    assert row.status == room.status && row.createdAtMs == room.createdAtMs && row.host == room.host;
  }

  class RoomsPageView {
    var rooms: seq<ListedRoom>
    var searchQuery: string
    var joinCode: string
    var loading: bool

    constructor()
      ensures rooms == [] && searchQuery == "" && joinCode == "" && loading
    {
      rooms := [];
      searchQuery := "";
      joinCode := "";
      loading := true;
    }

    /** The `search` URL parameter fills the search box when it is not empty. */
    method InitSearch(urlSearch: Option<string>)
      modifies this
      ensures searchQuery == if urlSearch.Some? && urlSearch.value != "" then urlSearch.value else old(searchQuery)
      ensures rooms == old(rooms) && joinCode == old(joinCode) && loading == old(loading)
    {
      if urlSearch.Some? && urlSearch.value != "" {
        searchQuery := urlSearch.value;
      }
    }

    /** One round of `fetchRooms` (on mount and then every ten seconds): the
        rooms read from an answer replace the list; loading ends either way. */
    method FetchRooms(answer: Option<RoomsJson>)
      modifies this
      ensures rooms == if answer.Some? && RoomsOfAnswer(answer.value).Some? then RoomsOfAnswer(answer.value).value
                       else old(rooms)
      ensures !loading && searchQuery == old(searchQuery) && joinCode == old(joinCode)
    {
      if answer.Some? {
        var read := RoomsOfAnswer(answer.value);
        if read.Some? {
          rooms := read.value;
        }
      }
      loading := false;
    }

    /** The rooms shown. */
    function Shown(): (r: seq<ListedRoom>)
      reads this
      ensures forall room :: room in r <==> room in rooms && RoomMatches(room, searchQuery)
    {
      FilteredRooms(rooms, searchQuery)
    }

    /** `handleJoinRoom()`: nothing for a blank code; otherwise the join
        request and what follows from its answer. */
    method HandleJoinRoom(sessionName: Option<string>, answer: JoinAnswer)
        returns (request: Option<JoinRequest>, outcome: Option<Outcome>)
      ensures request == JoinRequestFor(joinCode, sessionName)
      ensures request.None? <==> outcome.None?
      ensures outcome.Some? ==> outcome.value == JoinOutcome(joinCode, answer)
      ensures outcome.Some? && outcome.value.Navigate? ==> outcome.value.path == "/room/" + Trim(joinCode)
    {
      request := JoinRequestFor(joinCode, sessionName);
      if request.None? {
        return request, None;
      }
      outcome := Some(JoinOutcome(joinCode, answer));
    }

    /** The Join Game button of a room card, joining that room. */
    method JoinFromCard(room: ListedRoom, sessionName: Option<string>, answer: JoinAnswer)
        returns (request: Option<JoinRequest>, outcome: Option<Outcome>)
      modifies this
      ensures joinCode == room.code && rooms == old(rooms) && searchQuery == old(searchQuery)
      ensures request == CardJoin(room, sessionName)
      ensures request.Some? ==> outcome == Some(JoinOutcome(room.code, answer))
    {
      joinCode := room.code;
      request, outcome := HandleJoinRoom(sessionName, answer);
    }
  }
}
