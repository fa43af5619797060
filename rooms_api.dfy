/** The room routes of `app/api/rooms/route.ts`: room codes drawn from a
    36-character alphabet, the retry loop that keeps drawing until a code is
    free, the defaults of a new room, and the list of open rooms. The store
    is an in-memory sequence of rooms; `Math.random` is replaced by the
    indices it would have produced, and the clock by `now`. */
module RoomsApi {
  import opened Wrappers
  import Sorting

  /** The alphabet of room codes. */
  const Chars: string := "ABCDEFGHIJKLMNOPQRSTUVWXYZ0123456789"

  const CodeLength: nat := 6

  const DefaultMaxPlayers: int := 8

  /** `JSON.stringify({})`. */
  const DefaultSettings: string := "{}"

  datatype RoomStatus = Waiting | Selecting | Playing | Finished

  datatype Room = Room(
    code: string,
    hostId: string,
    name: Option<string>,
    maxPlayers: int,
    settings: string,
    status: RoomStatus,
    createdAt: int)

  predicate IsCodeChar(c: char) {
    ('A' <= c <= 'Z') || ('0' <= c <= '9')
  }

  /** An index into the alphabet, as `Math.floor(Math.random() * chars.length)`
      yields it. */
  type Draw = d: nat | d < 36

  /** The draws of one code. */
  predicate ValidDraws(draws: seq<Draw>) {
    |draws| == CodeLength
  }

  /** The code spelled by a sequence of alphabet indices. */
  function CodeOf(draws: seq<Draw>): (code: string)
    ensures |code| == |draws|
    ensures forall i :: 0 <= i < |draws| ==> code[i] == Chars[draws[i]]
  {
    if draws == [] then [] else [Chars[draws[0]]] + CodeOf(draws[1..])
  }

  /** Every alphabet character is an upper-case letter or a digit. */
  lemma CodeCharAt(d: Draw)
    ensures IsCodeChar(Chars[d])
  {
  }

  /** A code is made of capital letters and digits only. */
  lemma CodeOfAlphabet(draws: seq<Draw>)
    ensures forall i :: 0 <= i < |CodeOf(draws)| ==> IsCodeChar(CodeOf(draws)[i])
  {
    forall i | 0 <= i < |draws| ensures IsCodeChar(CodeOf(draws)[i]) {
      CodeCharAt(draws[i]);
    }
  }

  /** `generateRoomCode()`: six characters, the `i`-th being `chars[draws[i]]`,
      so by `CodeOfAlphabet` capital letters and digits. */
  method GenerateRoomCode(draws: seq<Draw>) returns (code: string)
    requires ValidDraws(draws)
    ensures |code| == CodeLength
    ensures code == CodeOf(draws)
  {
    code := "";
    for i := 0 to CodeLength
      invariant |code| == i
      invariant forall k :: 0 <= k < i ==> code[k] == Chars[draws[k]]
    {
      code := code + [Chars[draws[i]]];
    }
    var spelled := CodeOf(draws);
    assert forall k :: 0 <= k < |code| ==> code[k] == spelled[k];
  }

  /** Rooms `GET` lists: waiting, selecting and playing. */
  predicate IsListed(r: Room) {
    r.status == Waiting || r.status == Selecting || r.status == Playing
  }

  function FilterListed(rooms: seq<Room>): (r: seq<Room>)
    ensures forall x :: x in r <==> x in rooms && IsListed(x)
    ensures multiset(r) <= multiset(rooms)
    ensures forall x :: multiset(r)[x] == if IsListed(x) then multiset(rooms)[x] else 0
  {
    if rooms == [] then []
    else
      assert rooms == [rooms[0]] + rooms[1..];
      if IsListed(rooms[0]) then [rooms[0]] + FilterListed(rooms[1..]) else FilterListed(rooms[1..])
  }

  /** `orderBy: { createdAt: 'desc' }`. */
  function NewerFirst(a: Room, b: Room): bool {
    a.createdAt >= b.createdAt
  }

  lemma NewerFirstIsOrder()
    ensures Sorting.Total(NewerFirst) && Sorting.Transitive(NewerFirst)
  {
  }

  /** `GET /api/rooms`: the open rooms, newest first. */
  function ListRooms(rooms: seq<Room>): (r: seq<Room>)
    ensures forall x :: x in r <==> x in rooms && IsListed(x)
    ensures forall i, j :: 0 <= i < j < |r| ==> r[i].createdAt >= r[j].createdAt
    ensures multiset(r) == multiset(FilterListed(rooms))
  {
    NewerFirstIsOrder();
    var r := Sorting.Sort(FilterListed(rooms), NewerFirst);
    assert forall x :: x in r <==> x in multiset(r);
    r
  }

  /** What the body of a `POST` supplies; absent fields take their defaults.
      `settings` is the serialized JSON of the settings object. */
  datatype CreateBody = CreateBody(name: Option<string>, maxPlayers: Option<int>, settings: Option<string>)

  datatype PostOutcome =
    | Unauthorized          // 401
    | Created(room: Room)    // 201
    | OutOfDraws            // the given draws ran out before a free code came up

  function StatusCode(o: PostOutcome): int
    requires !o.OutOfDraws?
  {
    if o.Unauthorized? then 401 else 201
  }

  class RoomStore {
    var rooms: seq<Room>

    /** Room codes are unique in the store. */
    ghost predicate Valid()
      reads this
    {
      forall i, j :: 0 <= i < j < |rooms| ==> rooms[i].code != rooms[j].code
    }

    constructor()
      ensures rooms == [] && Valid()
    {
      rooms := [];
    }

    /** `prisma.room.findUnique({ where: { code } })` found a room. */
    predicate CodeTaken(code: string)
      reads this
    {
      exists i :: 0 <= i < |rooms| && rooms[i].code == code
    }

    /** The retry loop of `POST`: the first attempt whose code is free;
        `None` when every given attempt spells a taken code. */
    method FindFreeCode(attempts: seq<seq<Draw>>) returns (code: Option<string>)
      requires forall m :: 0 <= m < |attempts| ==> ValidDraws(attempts[m])
      ensures code.Some? ==> !CodeTaken(code.value) && |code.value| == CodeLength
      ensures code.Some? ==> exists n :: 0 <= n < |attempts| && code.value == CodeOf(attempts[n]) &&
                               forall m :: 0 <= m < n ==> CodeTaken(CodeOf(attempts[m]))
      ensures code.None? ==> forall m :: 0 <= m < |attempts| ==> CodeTaken(CodeOf(attempts[m]))
    {
      var n := 0;
      while n < |attempts|
        invariant 0 <= n <= |attempts|
        invariant forall m :: 0 <= m < n ==> CodeTaken(CodeOf(attempts[m]))
      {
        var candidate := GenerateRoomCode(attempts[n]);
        if !CodeTaken(candidate) {
          code := Some(candidate);
          assert 0 <= n < |attempts| && code.value == CodeOf(attempts[n]) &&
            forall m :: 0 <= m < n ==> CodeTaken(CodeOf(attempts[m]));
          return;
        }
        assert CodeTaken(CodeOf(attempts[n]));
        n := n + 1;
      }
      return None;
    }

    /** `POST /api/rooms`. A caller without a user id gets 401 and nothing is
        created. Otherwise the attempts are drawn in turn until one spells a
        code no room has, and a room with that code is appended: it is
        `WAITING`, hosted by the caller, with eight players and `{}` settings
        unless the body says otherwise. `OutOfDraws` means every given attempt
        spelled a taken code. */
    method Post(userId: Option<string>, body: CreateBody, attempts: seq<seq<Draw>>, now: int)
        returns (outcome: PostOutcome)
      requires Valid()
      requires forall m :: 0 <= m < |attempts| ==> ValidDraws(attempts[m])
      modifies this
      ensures Valid()
      ensures userId.None? || userId.value == "" ==> outcome == Unauthorized && rooms == old(rooms)
      ensures outcome.Unauthorized? || outcome.OutOfDraws? ==> rooms == old(rooms)
      ensures userId.Some? && userId.value != "" ==> !outcome.Unauthorized?
      ensures outcome.OutOfDraws? ==> forall m :: 0 <= m < |attempts| ==> old(CodeTaken(CodeOf(attempts[m])))
      ensures outcome.Created? ==> exists n :: 0 <= n < |attempts| && outcome.room.code == CodeOf(attempts[n]) &&
                                     forall m :: 0 <= m < n ==> old(CodeTaken(CodeOf(attempts[m])))
      ensures outcome.Created? ==>
        && userId.Some? && userId.value != ""
        && rooms == old(rooms) + [outcome.room]
        && (forall i :: 0 <= i < |old(rooms)| ==> old(rooms)[i].code != outcome.room.code)
        && outcome.room == Room(outcome.room.code, userId.value, body.name,
                                body.maxPlayers.GetOr(DefaultMaxPlayers),
                                body.settings.GetOr(DefaultSettings), Waiting, now)
        && |outcome.room.code| == CodeLength
    {
      if userId.None? || userId.value == "" {
        return Unauthorized;
      }
      var code := FindFreeCode(attempts);
      if code.None? {
        return OutOfDraws;
      }
      var room := Room(code.value, userId.value, body.name, body.maxPlayers.GetOr(DefaultMaxPlayers),
                       body.settings.GetOr(DefaultSettings), Waiting, now);
      rooms := rooms + [room];
      return Created(room);
    }
  }
}
