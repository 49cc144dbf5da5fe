/**
 * Room creation (`POST /rooms`): an ordered chain of checks on the request,
 * then one insert into the rooms table. The store is an object holding the
 * game tables. `Create` is the service as written: it never fills the room's
 * non-null creator, so the commit refuses every room it builds and the
 * tables never change. `CreateWithCreator` is the evidently intended service,
 * which records the requesting user as the creator.
 */
module RoomService {
  import opened Common
  import opened Tables
  import opened Credentials
  import opened GameModels
  import UserModels

  /** The request body; its defaults are those of `DefaultRoomCreateRequest`. */
  datatype RoomCreateRequest = RoomCreateRequest(
    roomType: RoomType,
    roolSetId: int,
    password: Option<string>,
    playerLimit: int)

  /** A request that gives only the rule set: public, no password, the default limit. */
  function DefaultRoomCreateRequest(c: GameConstants, roolSetId: int): RoomCreateRequest
  {
    RoomCreateRequest(Public, roolSetId, None, c.defaultPlayerLimit)
  }

  /** The keyword arguments the service hands to the response schema. */
  datatype RoomResponseFields = RoomResponseFields(
    id: int,
    roomType: RoomType,
    roolSetId: int,
    joinCode: Uuid,
    playerLimit: int,
    createdAt: Option<Timestamp>,
    updatedAt: Option<Timestamp>)

  /** A response the schema accepts: every declared field is present. */
  datatype RoomResponse = RoomResponse(
    id: int,
    roomType: RoomType,
    roolSetId: int,
    joinCode: Uuid,
    playerLimit: int,
    createdAt: Timestamp,
    updatedAt: Timestamp)

  /** Why a creation request ends without a response. */
  datatype RoomError =
    | PasswordRequired            // 'You should provide password for private room'
    | PlayerLimitTooHigh(max: int) // 'Current supported maximum number of players per room is {max}'
    | RoolSetNotFound(id: int)    // 'RoolSet with id {id} does not exist'
    | HashFailed                  // the hasher raised; nothing catches it
    | InsertRefused               // the database refused the row at commit; nothing catches it
    | ResponseInvalid(missing: set<string>) // the response schema refused its arguments
  {
    /** The HTTP status the client sees. */
    function Status(): nat
    {
      match this
      case PasswordRequired => 400
      case PlayerLimitTooHigh(_) => 400
      case RoolSetNotFound(_) => 404
      case _ => 500
    }
  }

  /**
   * The arguments the service passes to the response schema for a stored room:
   * the room's own id, type, rule set, join code and limit, and no timestamps.
   */
  function ResponseFieldsOf(room: Room): (f: RoomResponseFields)
    ensures f.id == room.id && f.roomType == room.roomType && f.roolSetId == room.roolSetId
    ensures f.joinCode == room.joinCode && f.playerLimit == room.playerLimit
    ensures f.createdAt.None? && f.updatedAt.None?
  {
    RoomResponseFields(room.id, room.roomType, room.roolSetId, room.joinCode, room.playerLimit, None, None)
  }

  /**
   * Pydantic's validation of the response: it refuses arguments that lack a
   * declared field, naming the missing ones, and otherwise echoes them.
   */
  function ValidateRoomResponse(f: RoomResponseFields): (r: Result<RoomResponse, set<string>>)
    ensures r.Ok? <==> f.createdAt.Some? && f.updatedAt.Some?
    ensures r.Err? ==> r.error == MissingTimestamps(f.createdAt, f.updatedAt) && r.error != {}
    ensures r.Ok? ==> r.value.id == f.id && r.value.roomType == f.roomType && r.value.roolSetId == f.roolSetId
                      && r.value.joinCode == f.joinCode && r.value.playerLimit == f.playerLimit
  {
    if f.createdAt.Some? && f.updatedAt.Some? then
      Ok(RoomResponse(f.id, f.roomType, f.roolSetId, f.joinCode, f.playerLimit, f.createdAt.value, f.updatedAt.value))
    else
      Err(MissingTimestamps(f.createdAt, f.updatedAt))
  }

  /** A stored room's response never validates: both timestamps are missing. */
  lemma RoomResponseAlwaysRefused(room: Room)
    ensures ValidateRoomResponse(ResponseFieldsOf(room)) == Err({"created_at", "updated_at"})
  {
  }

  /** The request passes the two checks made before the rule set is looked up. */
  predicate PassesRequestChecks(c: GameConstants, request: RoomCreateRequest)
  {
    && !(request.roomType == Private && request.password.None?)
    && request.playerLimit <= c.maxPlayerLimit
  }

  /**
   * The row built from a request: type, rule set and limit copied from it,
   * the digest as password, the given creator. The service as written passes
   * `None` as the creator.
   */
  function NewRoom(id: int, creator: Option<int>, request: RoomCreateRequest, joinCode: Uuid, digest: string, now: Timestamp): Room
  {
    Room(id, creator, request.roomType, request.roolSetId, joinCode, Some(digest), request.playerLimit, now, now)
  }

  /** A room built without a creator is refused by every commit, whatever the request and the tables. */
  lemma CreatorlessRoomRefused(c: GameConstants, rooms: seq<Room>, roolSets: seq<RoolSet>,
                               id: int, request: RoomCreateRequest, code: Uuid, digest: string, now: Timestamp)
    requires RoomsValid(c, rooms, roolSets)
    ensures InsertRoom(c, rooms, roolSets, NewRoom(id, None, request, code, digest, now)).None?
  {
  }

  /**
   * With the creator recorded, the default request for a stored rule set and
   * a fresh join code gets its room stored exactly when the default limit is
   * within [MIN, MAX] (and SMALLINT) and the hasher accepts an absent password.
   */
  lemma DefaultRequestStoredWithCreator(c: GameConstants, rooms: seq<Room>, roolSets: seq<RoolSet>, hasher: Hasher,
                                        id: int, creator: int, s: RoolSet, code: Uuid, now: Timestamp)
    requires s in roolSets
    requires KeyAbsent(rooms, RoomId, id) && KeyAbsent(rooms, JoinCode, code)
    ensures var request := DefaultRoomCreateRequest(c, s.id);
      (PassesRequestChecks(c, request) && hasher.hash(request.password).Some?
       && AdmitsRoom(c, rooms, roolSets, NewRoom(id, Some(creator), request, code, hasher.hash(request.password).value, now)))
      <==>
      (c.minPlayerLimit <= c.defaultPlayerLimit <= c.maxPlayerLimit && IsSmallInt(c.defaultPlayerLimit)
       && hasher.hash(None).Some?)
  {
    var i :| 0 <= i < |roolSets| && roolSets[i] == s;
    assert RoolSetId(roolSets[i]) == s.id;
  }

  /** The game tables, and the id the next inserted room receives. */
  class RoomStore {
    const limits: GameConstants
    var rooms: seq<Room>
    var roolSets: seq<RoolSet>
    var gameRoles: seq<GameRole>
    var roolSetRoles: seq<RoolSetRole>
    var userRooms: seq<UserRoom>
    var nextRoomId: int

    /** Every table constraint holds, and the next id is above every stored id. */
    ghost predicate Valid()
      reads this
    {
      && RoolSetsValid(limits, roolSets)
      && RoomsValid(limits, rooms, roolSets)
      && GameRolesValid(gameRoles)
      && RoolSetRolesValid(roolSetRoles, roolSets, gameRoles)
      && UserRoomsValid(userRooms, rooms)
      && forall i :: 0 <= i < |rooms| ==> rooms[i].id < nextRoomId
    }

    /** A database holding configured rule sets and roles, and no rooms yet. */
    constructor (limits: GameConstants, roolSets: seq<RoolSet>, gameRoles: seq<GameRole>, roolSetRoles: seq<RoolSetRole>)
      requires RoolSetsValid(limits, roolSets) && GameRolesValid(gameRoles)
      requires RoolSetRolesValid(roolSetRoles, roolSets, gameRoles)
      ensures Valid()
      ensures this.limits == limits && this.roolSets == roolSets && this.gameRoles == gameRoles
      ensures this.roolSetRoles == roolSetRoles && rooms == [] && userRooms == []
    {
      this.limits := limits;
      this.roolSets := roolSets;
      this.gameRoles := gameRoles;
      this.roolSetRoles := roolSetRoles;
      rooms := [];
      userRooms := [];
      nextRoomId := 1;
    }

    /**
     * `RoomService.create`, as written. The checks run in the order `RoomService.create` makes them:
     * a private room without a password, then a limit above the maximum, then
     * an unknown rule set. The password column receives the hash of the
     * request's password, even when that password is absent. The room is built
     * without a creator (the `user` argument is never read), so the commit
     * refuses it: the call ends in a 500 and, having no `modifies` clause, the
     * method leaves every table as it was. The response is never built.
     */
    method Create(request: RoomCreateRequest, user: UserModels.User, hasher: Hasher, generated: Uuid, now: Timestamp)
      returns (r: Result<RoomResponse, RoomError>)
      requires Valid()
      ensures request.roomType == Private && request.password.None? ==> r == Err(PasswordRequired)
      ensures !(request.roomType == Private && request.password.None?) && request.playerLimit > limits.maxPlayerLimit ==>
        r == Err(PlayerLimitTooHigh(limits.maxPlayerLimit))
      ensures PassesRequestChecks(limits, request) && KeyAbsent(roolSets, RoolSetId, request.roolSetId) ==>
        r == Err(RoolSetNotFound(request.roolSetId))
      ensures PassesRequestChecks(limits, request) && !KeyAbsent(roolSets, RoolSetId, request.roolSetId)
              && hasher.hash(request.password).None? ==>
        r == Err(HashFailed)
      ensures PassesRequestChecks(limits, request) && !KeyAbsent(roolSets, RoolSetId, request.roolSetId)
              && hasher.hash(request.password).Some? ==>
        r == Err(InsertRefused)
      ensures r.Err? && (r.error.Status() == 500 <==> PassesRequestChecks(limits, request) && !KeyAbsent(roolSets, RoolSetId, request.roolSetId))
    {
      if request.roomType == Private && request.password.None? {
        return Err(PasswordRequired);
      }
      if request.playerLimit > limits.maxPlayerLimit {
        return Err(PlayerLimitTooHigh(limits.maxPlayerLimit));
      }
      var roolSet := Find(roolSets, RoolSetId, request.roolSetId);
      if roolSet.None? {
        return Err(RoolSetNotFound(request.roolSetId));
      }
      var digest := hasher.hash(request.password);
      if digest.None? {
        return Err(HashFailed);
      }
      var room := NewRoom(nextRoomId, None, request, generated, digest.value, now);
      var inserted := InsertRoom(limits, rooms, roolSets, room);
      // The creator column is NULL, so the commit raises and nothing after it runs.
      assert inserted.None?;
      return Err(InsertRefused);
    }

    /**
     * `RoomService.create` as evidently intended: the same checks in the same
     * order, but the room records the requesting user as its creator. Now the
     * commit stores the room whenever the row passes the table's constraints;
     * the response schema still refuses its arguments (no timestamps), so the
     * client sees an error although the room is stored.
     */
    method CreateWithCreator(request: RoomCreateRequest, user: UserModels.User, hasher: Hasher, generated: Uuid, now: Timestamp)
      returns (r: Result<RoomResponse, RoomError>)
      requires Valid()
      modifies this`rooms, this`nextRoomId
      ensures Valid()
      ensures request.roomType == Private && request.password.None? ==>
        r == Err(PasswordRequired) && rooms == old(rooms)
      ensures !(request.roomType == Private && request.password.None?) && request.playerLimit > limits.maxPlayerLimit ==>
        r == Err(PlayerLimitTooHigh(limits.maxPlayerLimit)) && rooms == old(rooms)
      ensures PassesRequestChecks(limits, request) && KeyAbsent(roolSets, RoolSetId, request.roolSetId) ==>
        r == Err(RoolSetNotFound(request.roolSetId)) && rooms == old(rooms)
      ensures PassesRequestChecks(limits, request) && !KeyAbsent(roolSets, RoolSetId, request.roolSetId)
              && hasher.hash(request.password).None? ==>
        r == Err(HashFailed) && rooms == old(rooms)
      ensures PassesRequestChecks(limits, request) && !KeyAbsent(roolSets, RoolSetId, request.roolSetId)
              && hasher.hash(request.password).Some? ==>
        var room := NewRoom(old(nextRoomId), Some(user.id), request, generated, hasher.hash(request.password).value, now);
        if AdmitsRoom(limits, old(rooms), roolSets, room) then
          && rooms == old(rooms) + [room]
          && nextRoomId == old(nextRoomId) + 1
          && r == Err(ResponseInvalid({"created_at", "updated_at"}))
        else
          r == Err(InsertRefused) && rooms == old(rooms)
      ensures r.Err?
      ensures rooms == old(rooms) || |rooms| == |old(rooms)| + 1
      ensures rooms != old(rooms) ==>
        && rooms[|old(rooms)|].creator == Some(user.id)
        && rooms[|old(rooms)|].password == hasher.hash(request.password)
        && rooms[|old(rooms)|].joinCode == generated
        && KeyAbsent(old(rooms), JoinCode, generated)
        && rooms[|old(rooms)|].playerLimit == request.playerLimit
        && request.playerLimit >= limits.minPlayerLimit
    {
      if request.roomType == Private && request.password.None? {
        return Err(PasswordRequired);
      }
      if request.playerLimit > limits.maxPlayerLimit {
        return Err(PlayerLimitTooHigh(limits.maxPlayerLimit));
      }
      var roolSet := Find(roolSets, RoolSetId, request.roolSetId);
      if roolSet.None? {
        return Err(RoolSetNotFound(request.roolSetId));
      }
      var digest := hasher.hash(request.password);
      if digest.None? {
        return Err(HashFailed);
      }
      var room := NewRoom(nextRoomId, Some(user.id), request, generated, digest.value, now);
      var inserted := InsertRoom(limits, rooms, roolSets, room);
      if inserted.None? {
        return Err(InsertRefused);
      }
      UserRoomsStayValid(userRooms, rooms, room);
      rooms, nextRoomId := inserted.value, nextRoomId + 1;
      var response := ValidateRoomResponse(ResponseFieldsOf(room));
      r := match response
        case Ok(body) => Ok(body)
        case Err(missing) => Err(ResponseInvalid(missing));
    }
  }
}
