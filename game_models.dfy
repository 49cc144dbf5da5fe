/**
 * The game tables: rooms, rule sets ("rool sets"), game roles, the link
 * between rule sets and roles, and room memberships. Each table is a sequence
 * of rows; its CHECK, UNIQUE and foreign-key constraints become predicates,
 * and the insert the room service performs becomes a function that refuses a
 * row the database would refuse at commit.
 */
module GameModels {
  import opened Common
  import opened Tables

  /** The room visibility enumeration; a room is PUBLIC unless said otherwise. */
  datatype RoomType = Public | Private

  /** A join code: a 128-bit UUID. */
  type Uuid = x: int | 0 <= x < 0x1_0000_0000_0000_0000_0000_0000_0000_0000

  /** The range of a SMALLINT column; a value outside it is refused on insert. */
  const SmallIntMin: int := -32768
  const SmallIntMax: int := 32767

  predicate IsSmallInt(x: int)
  {
    SmallIntMin <= x <= SmallIntMax
  }

  /**
   * The game constants. Their values live in a constants module that is not
   * part of this model, so they are a parameter and nothing assumes any
   * order between them.
   */
  datatype GameConstants = GameConstants(
    minPlayerLimit: int,
    maxPlayerLimit: int,
    defaultPlayerLimit: int,
    minDayDurationMinutes: int,
    minNightDurationMinutes: int)

  /**
   * A row of `rooms`, as the service builds it before the commit. `creator`
   * is declared non-null, but the value may lack it because the room service
   * never sets it; the insert refuses such a row. `password` holds a digest
   * and may be null.
   */
  datatype Room = Room(
    id: int,
    creator: Option<int>,
    roomType: RoomType,
    roolSetId: int,
    joinCode: Uuid,
    password: Option<string>,
    playerLimit: int,
    createdAt: Timestamp,
    updatedAt: Timestamp)

  /** A row of `rool_sets`: a named, reusable rule configuration. */
  datatype RoolSet = RoolSet(
    id: int,
    name: string,
    mafiaPercent: int,
    allowSherif: bool,
    dayDurationMinutes: int,
    nightDurationMinutes: int)

  /** A row of `users_rooms`: a user's membership of a room. */
  datatype UserRoom = UserRoom(
    id: int,
    userId: int,
    roomId: int,
    isCreator: bool,
    createdAt: Timestamp,
    updatedAt: Timestamp)

  /** A row of `game_roles`. */
  datatype GameRole = GameRole(id: int, name: string, isMafia: bool, isSpecial: bool)

  /** A row of `rool_sets_roles`, linking a rule set to a game role. */
  datatype RoolSetRole = RoolSetRole(id: int, roolSetId: int, gameRoleId: int)

  // Table keys.
  function RoomId(r: Room): int { r.id }
  function JoinCode(r: Room): Uuid { r.joinCode }
  function RoolSetId(s: RoolSet): int { s.id }
  function RoolSetName(s: RoolSet): string { s.name }
  function UserRoomId(m: UserRoom): int { m.id }
  function MembershipKey(m: UserRoom): (int, int) { (m.userId, m.roomId) }
  function GameRoleId(g: GameRole): int { g.id }
  function GameRoleName(g: GameRole): string { g.name }
  function RoolSetRoleId(l: RoolSetRole): int { l.id }
  function RoolSetRoleKey(l: RoolSetRole): (int, int) { (l.roolSetId, l.gameRoleId) }

  // Row constraints.

  /** `check_min_player_limit`, and the SMALLINT column type. */
  predicate ValidRoom(c: GameConstants, r: Room)
  {
    IsSmallInt(r.playerLimit) && r.playerLimit >= c.minPlayerLimit
  }

  /** `check_min_day_duration`, `check_night_duration`, `String(128)` and the SMALLINT columns. */
  predicate ValidRoolSet(c: GameConstants, s: RoolSet)
  {
    && |s.name| <= 128
    && IsSmallInt(s.mafiaPercent)
    && IsSmallInt(s.dayDurationMinutes)
    && IsSmallInt(s.nightDurationMinutes)
    && s.dayDurationMinutes >= c.minDayDurationMinutes
    && s.nightDurationMinutes >= c.minNightDurationMinutes
  }

  /** `String(64)` on the role name. */
  predicate ValidGameRole(g: GameRole)
  {
    |g.name| <= 64
  }

  // Table constraints.

  predicate RoolSetsValid(c: GameConstants, roolSets: seq<RoolSet>)
  {
    && UniqueBy(roolSets, RoolSetId)
    && UniqueBy(roolSets, RoolSetName)
    && forall i :: 0 <= i < |roolSets| ==> ValidRoolSet(c, roolSets[i])
  }

  /** Unique ids and join codes, the row checks, a creator in every row, and the foreign key to `rool_sets`. */
  predicate RoomsValid(c: GameConstants, rooms: seq<Room>, roolSets: seq<RoolSet>)
  {
    && UniqueBy(rooms, RoomId)
    && UniqueBy(rooms, JoinCode)
    && forall i :: 0 <= i < |rooms| ==>
         ValidRoom(c, rooms[i]) && HasCreator(rooms[i]) && !KeyAbsent(roolSets, RoolSetId, rooms[i].roolSetId)
  }

  predicate GameRolesValid(gameRoles: seq<GameRole>)
  {
    && UniqueBy(gameRoles, GameRoleId)
    && UniqueBy(gameRoles, GameRoleName)
    && forall i :: 0 <= i < |gameRoles| ==> ValidGameRole(gameRoles[i])
  }

  /** `unqiue_user_room` and the foreign key to `rooms` (users live in the user store). */
  predicate UserRoomsValid(userRooms: seq<UserRoom>, rooms: seq<Room>)
  {
    && UniqueBy(userRooms, UserRoomId)
    && UniqueBy(userRooms, MembershipKey)
    && forall i :: 0 <= i < |userRooms| ==> !KeyAbsent(rooms, RoomId, userRooms[i].roomId)
  }

  /** `unique_rool_set_game_role` and both foreign keys. */
  predicate RoolSetRolesValid(links: seq<RoolSetRole>, roolSets: seq<RoolSet>, gameRoles: seq<GameRole>)
  {
    && UniqueBy(links, RoolSetRoleId)
    && UniqueBy(links, RoolSetRoleKey)
    && forall i :: 0 <= i < |links| ==>
         !KeyAbsent(roolSets, RoolSetId, links[i].roolSetId)
         && !KeyAbsent(gameRoles, GameRoleId, links[i].gameRoleId)
  }

  /** The declared NOT NULL on `rooms.creator` (the `creator_id` column of the schema migration). */
  predicate HasCreator(r: Room)
  {
    r.creator.Some?
  }

  // The insert.

  /** The constraints the database checks when one room row is inserted. */
  predicate AdmitsRoom(c: GameConstants, rooms: seq<Room>, roolSets: seq<RoolSet>, room: Room)
  {
    && ValidRoom(c, room)
    && HasCreator(room)
    && KeyAbsent(rooms, RoomId, room.id)
    && KeyAbsent(rooms, JoinCode, room.joinCode)
    && !KeyAbsent(roolSets, RoolSetId, room.roolSetId)
  }

  /**
   * Inserting and committing one room: the table grows by exactly that row,
   * or the database refuses it (an IntegrityError, `None`) and nothing changes.
   */
  function InsertRoom(c: GameConstants, rooms: seq<Room>, roolSets: seq<RoolSet>, room: Room): (r: Option<seq<Room>>)
    requires RoomsValid(c, rooms, roolSets)
    ensures r.Some? <==> AdmitsRoom(c, rooms, roolSets, room)
    ensures r.Some? ==> r.value == rooms + [room] && RoomsValid(c, r.value, roolSets)
  {
    if AdmitsRoom(c, rooms, roolSets, room) then
      UniqueAppend(rooms, RoomId, room);
      UniqueAppend(rooms, JoinCode, room);
      Some(rooms + [room])
    else
      None
  }

  /** Growing the rooms table keeps the memberships' foreign keys satisfied. */
  lemma {:induction false} UserRoomsStayValid(userRooms: seq<UserRoom>, rooms: seq<Room>, room: Room)
    requires UserRoomsValid(userRooms, rooms)
    ensures UserRoomsValid(userRooms, rooms + [room])
  {
    forall i | 0 <= i < |userRooms|
      ensures !KeyAbsent(rooms + [room], RoomId, userRooms[i].roomId)
    {
      var j :| 0 <= j < |rooms| && RoomId(rooms[j]) == userRooms[i].roomId;
      assert (rooms + [room])[j] == rooms[j];
    }
  }

  // Defaults and what the constraints make of them.

  /** A rule set built with only its name given: 25% mafia, sheriff allowed, 10-minute days, 5-minute nights. */
  function DefaultRoolSet(id: int, name: string): RoolSet
  {
    RoolSet(id, name, 25, true, 10, 5)
  }

  /** A room row built with only its id, rule set, join code and time given. */
  function DefaultRoom(c: GameConstants, id: int, roolSetId: int, joinCode: Uuid, now: Timestamp): Room
  {
    Room(id, None, Public, roolSetId, joinCode, None, c.defaultPlayerLimit, now, now)
  }

  /** A game role built with only its name given is neither mafia nor special. */
  function DefaultGameRole(id: int, name: string): GameRole
  {
    GameRole(id, name, false, false)
  }

  /** A membership row built without the flag is not the creator's. */
  function DefaultUserRoom(id: int, userId: int, roomId: int, now: Timestamp): UserRoom
  {
    UserRoom(id, userId, roomId, false, now, now)
  }

  /** The rule-set defaults pass the table's checks exactly when the minimum durations allow 10 and 5. */
  lemma DefaultRoolSetValid(c: GameConstants, id: int, name: string)
    ensures DefaultRoolSet(id, name).mafiaPercent == 25 && DefaultRoolSet(id, name).allowSherif
    ensures ValidRoolSet(c, DefaultRoolSet(id, name)) <==>
      |name| <= 128 && c.minDayDurationMinutes <= 10 && c.minNightDurationMinutes <= 5
  {
  }

  /**
   * A default room is public, has no password and no creator (the column has
   * no default), and passes the check exactly when MIN <= DEFAULT (within SMALLINT).
   */
  lemma DefaultRoomValid(c: GameConstants, id: int, roolSetId: int, joinCode: Uuid, now: Timestamp)
    ensures DefaultRoom(c, id, roolSetId, joinCode, now).roomType == Public
    ensures DefaultRoom(c, id, roolSetId, joinCode, now).password.None?
    ensures !HasCreator(DefaultRoom(c, id, roolSetId, joinCode, now))
    ensures ValidRoom(c, DefaultRoom(c, id, roolSetId, joinCode, now)) <==>
      c.minPlayerLimit <= c.defaultPlayerLimit && IsSmallInt(c.defaultPlayerLimit)
  {
  }

  /** A default game role is neither mafia nor special, and is stored-valid exactly when its name fits 64 characters. */
  lemma DefaultGameRoleValid(id: int, name: string)
    ensures !DefaultGameRole(id, name).isMafia && !DefaultGameRole(id, name).isSpecial
    ensures ValidGameRole(DefaultGameRole(id, name)) <==> |name| <= 64
  {
  }

  /**
   * A default membership is not the creator's, and the memberships table
   * accepts it, staying valid, when its id and (user, room) pair are fresh
   * and its room is stored.
   */
  lemma {:induction false} DefaultUserRoomAdmitted(userRooms: seq<UserRoom>, rooms: seq<Room>, id: int, userId: int, roomId: int, now: Timestamp)
    requires UserRoomsValid(userRooms, rooms)
    requires KeyAbsent(userRooms, UserRoomId, id) && KeyAbsent(userRooms, MembershipKey, (userId, roomId))
    requires !KeyAbsent(rooms, RoomId, roomId)
    ensures !DefaultUserRoom(id, userId, roomId, now).isCreator
    ensures UserRoomsValid(userRooms + [DefaultUserRoom(id, userId, roomId, now)], rooms)
  {
    var m := DefaultUserRoom(id, userId, roomId, now);
    UniqueAppend(userRooms, UserRoomId, m);
    UniqueAppend(userRooms, MembershipKey, m);
    var s := userRooms + [m];
    forall i | 0 <= i < |s|
      ensures !KeyAbsent(rooms, RoomId, s[i].roomId)
    {
      if i < |userRooms| {
        assert s[i] == userRooms[i];
      }
    }
  }

  // What the UNIQUE constraints mean for queries.

  /** At most one membership row exists per (user_id, room_id) pair. */
  lemma MembershipAtMostOnce(userRooms: seq<UserRoom>, rooms: seq<Room>, userId: int, roomId: int)
    requires UserRoomsValid(userRooms, rooms)
    ensures Count(userRooms, MembershipKey, (userId, roomId)) <= 1
  {
    UniqueCountAtMostOne(userRooms, MembershipKey, (userId, roomId));
  }

  /** At most one link row exists per (rool_set_id, game_role_id) pair. */
  lemma RoleLinkAtMostOnce(links: seq<RoolSetRole>, roolSets: seq<RoolSet>, gameRoles: seq<GameRole>, roolSetId: int, gameRoleId: int)
    requires RoolSetRolesValid(links, roolSets, gameRoles)
    ensures Count(links, RoolSetRoleKey, (roolSetId, gameRoleId)) <= 1
  {
    UniqueCountAtMostOne(links, RoolSetRoleKey, (roolSetId, gameRoleId));
  }

  /** Every stored room has a creator and respects the minimum player limit, and no two rooms share a join code. */
  lemma StoredRoomsRespectLimits(c: GameConstants, rooms: seq<Room>, roolSets: seq<RoolSet>, i: int, j: int)
    requires RoomsValid(c, rooms, roolSets)
    requires 0 <= i < |rooms| && 0 <= j < |rooms|
    ensures HasCreator(rooms[i]) && rooms[i].playerLimit >= c.minPlayerLimit
    ensures i != j ==> rooms[i].joinCode != rooms[j].joinCode
  {
    if i != j {
      if i < j { assert JoinCode(rooms[i]) != JoinCode(rooms[j]); }
      else { assert JoinCode(rooms[j]) != JoinCode(rooms[i]); }
    }
  }

  /** Looking a rule set up by id finds the one stored under that id. */
  lemma RoolSetLookup(c: GameConstants, roolSets: seq<RoolSet>, s: RoolSet)
    requires RoolSetsValid(c, roolSets)
    requires s in roolSets
    ensures Find(roolSets, RoolSetId, s.id) == Some(s)
    ensures s.dayDurationMinutes >= c.minDayDurationMinutes && s.nightDurationMinutes >= c.minNightDurationMinutes
  {
    FindUnique(roolSets, RoolSetId, s);
  }
}
