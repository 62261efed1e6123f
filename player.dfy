/**
 * The player and the player avatar, decoded from raw save-block and
 * avatar bytes: avatar flag bits, the bike test, the tile in front of the
 * player, the XOR-masked money and coin fields, the trainer and secret IDs,
 * the registered item, and the equality operators of both records.
 */
module Player {
  import opened Common

  /** The bits of the avatar's flag byte (an `IntFlag`, bit i is `1 << i`). */
  datatype AvatarFlag =
    | OnFoot | OnMachBike | OnAcroBike | Surfing
    | Underwater | Controllable | ForcedMove | Running

  function FlagBit(f: AvatarFlag): bv8 {
    match f
    case OnFoot => 1
    case OnMachBike => 2
    case OnAcroBike => 4
    case Surfing => 8
    case Underwater => 16
    case Controllable => 32
    case ForcedMove => 64
    case Running => 128
  }

  const AllFlags: set<AvatarFlag> :=
    {OnFoot, OnMachBike, OnAcroBike, Surfing, Underwater, Controllable, ForcedMove, Running}

  /** The flags that a flag byte holds: `flag in AvatarFlags(b)`. */
  function FlagsOf(b: byte): (r: set<AvatarFlag>)
    ensures forall f :: f in r <==> b & FlagBit(f) != 0
  {
    set f | f in AllFlags && b & FlagBit(f) != 0
  }

  /** The flag byte that holds exactly the given flags. */
  function FlagsByte(s: set<AvatarFlag>): (r: byte)
    ensures forall f :: f in s <==> r & FlagBit(f) != 0
  {
    (if OnFoot in s then 1 else 0)
    | (if OnMachBike in s then 2 else 0)
    | (if OnAcroBike in s then 4 else 0)
    | (if Surfing in s then 8 else 0)
    | (if Underwater in s then 16 else 0)
    | (if Controllable in s then 32 else 0)
    | (if ForcedMove in s then 64 else 0)
    | (if Running in s then 128 else 0)
  }

  /** Encoding a set of flags and reading it back gives the same set. */
  lemma FlagsOfFlagsByte(s: set<AvatarFlag>)
    ensures FlagsOf(FlagsByte(s)) == s
  {
  }

  /** A byte is determined by its eight bits. */
  lemma BitsDetermineByte(x: byte, y: byte)
    requires x & 1 != 0 <==> y & 1 != 0
    requires x & 2 != 0 <==> y & 2 != 0
    requires x & 4 != 0 <==> y & 4 != 0
    requires x & 8 != 0 <==> y & 8 != 0
    requires x & 16 != 0 <==> y & 16 != 0
    requires x & 32 != 0 <==> y & 32 != 0
    requires x & 64 != 0 <==> y & 64 != 0
    requires x & 128 != 0 <==> y & 128 != 0
    ensures x == y
  {
  }

  /** Every flag byte is the encoding of the flags it holds: the flag view loses nothing. */
  lemma FlagsByteOfFlags(b: byte)
    ensures FlagsByte(FlagsOf(b)) == b
  {
    var r := FlagsByte(FlagsOf(b));
    assert r & FlagBit(OnFoot) != 0 <==> b & FlagBit(OnFoot) != 0;
    assert r & FlagBit(OnMachBike) != 0 <==> b & FlagBit(OnMachBike) != 0;
    assert r & FlagBit(OnAcroBike) != 0 <==> b & FlagBit(OnAcroBike) != 0;
    assert r & FlagBit(Surfing) != 0 <==> b & FlagBit(Surfing) != 0;
    assert r & FlagBit(Underwater) != 0 <==> b & FlagBit(Underwater) != 0;
    assert r & FlagBit(Controllable) != 0 <==> b & FlagBit(Controllable) != 0;
    assert r & FlagBit(ForcedMove) != 0 <==> b & FlagBit(ForcedMove) != 0;
    assert r & FlagBit(Running) != 0 <==> b & FlagBit(Running) != 0;
    BitsDetermineByte(r, b);
  }

  // ---------------------------------------------------------------------------
  // Player avatar

  /**
   * The avatar: the object-event record (kept as its raw bytes), the
   * `gPlayerAvatar` record, and the two bytes of map group and map number.
   */
  datatype PlayerAvatar = PlayerAvatar(objectEvent: seq<byte>, avatarData: seq<byte>, mapGroupAndNumber: seq<byte>)
  {
    /** `gPlayerAvatar` is read whole (the acro-bike state is its byte 8); the map field is two bytes. */
    predicate WellFormed() {
      |avatarData| >= 9 && |mapGroupAndNumber| == 2
    }
  }

  /** `is_on_bike`: the Acro Bike or the Mach Bike flag is set in flag byte 0. */
  function IsOnBike(a: PlayerAvatar): (r: bool)
    requires a.WellFormed()
    ensures r <==> a.avatarData[0] & 0x06 != 0
    ensures r <==> (a.avatarData[0] & FlagBit(OnAcroBike) != 0 || a.avatarData[0] & FlagBit(OnMachBike) != 0)
  {
    var flags := FlagsOf(a.avatarData[0]);
    OnAcroBike in flags || OnMachBike in flags
  }

  /** A tile of a map: map group, map number and local coordinates. */
  datatype MapLocation = MapLocation(mapGroup: nat, mapNumber: nat, x: int, y: int)

  /** The map the avatar stands on, with its size in tiles. */
  datatype OpenMap = OpenMap(mapGroup: nat, mapNumber: nat, width: int, height: int)

  /**
   * `map_location_in_front`: the targeted tile, when it lies on the open map.
   * `target` is the coordinate pair that the game's targeting helper computes
   * from the avatar's position and facing direction.
   */
  function LocationInFront(target: (int, int), open: OpenMap): (r: Option<MapLocation>)
    ensures r.Some? <==> 0 <= target.0 < open.width && 0 <= target.1 < open.height
    ensures r.Some? ==> r.value == MapLocation(open.mapGroup, open.mapNumber, target.0, target.1)
  {
    if 0 <= target.0 < open.width && 0 <= target.1 < open.height then
      Some(MapLocation(open.mapGroup, open.mapNumber, target.0, target.1))
    else
      None
  }

  /** `PlayerAvatar.__eq__`: all three fields equal. */
  predicate AvatarEq(self: PlayerAvatar, other: PlayerAvatar) {
    && other.objectEvent == self.objectEvent
    && other.avatarData == self.avatarData
    && other.mapGroupAndNumber == self.mapGroupAndNumber
  }

  /** `PlayerAvatar.__ne__` as written: its third disjunct compares with `==`. */
  predicate AvatarNe(self: PlayerAvatar, other: PlayerAvatar) {
    || other.objectEvent != self.objectEvent
    || other.avatarData != self.avatarData
    || other.mapGroupAndNumber == self.mapGroupAndNumber
  }

  /** `PlayerAvatar.__ne__` with the evident `!=` in its third disjunct. */
  predicate AvatarNeIntended(self: PlayerAvatar, other: PlayerAvatar) {
    || other.objectEvent != self.objectEvent
    || other.avatarData != self.avatarData
    || other.mapGroupAndNumber != self.mapGroupAndNumber
  }

  /**
   * `__ne__` as written agrees with `not __eq__` exactly when the object
   * events or the avatar records differ; when those two agree it returns the
   * same answer as `__eq__`.
   */
  lemma AvatarNeContrast(a: PlayerAvatar, b: PlayerAvatar)
    ensures (AvatarNe(a, b) == !AvatarEq(a, b)) <==> (a.objectEvent != b.objectEvent || a.avatarData != b.avatarData)
    ensures a.objectEvent == b.objectEvent && a.avatarData == b.avatarData ==> AvatarNe(a, b) == AvatarEq(a, b)
  {
  }

  /** Concretely: an avatar is both equal and unequal to itself. */
  lemma AvatarNeOfItself(a: PlayerAvatar)
    ensures AvatarEq(a, a) && AvatarNe(a, a)
  {
  }

  /** The corrected operator is the exact negation of `__eq__`. */
  lemma AvatarNeIntendedIsNegation(a: PlayerAvatar, b: PlayerAvatar)
    ensures AvatarNeIntended(a, b) <==> !AvatarEq(a, b)
  {
  }

  // ---------------------------------------------------------------------------
  // Player

  /**
   * The player: 8 bytes of save block 1 from the money field on, the first
   * 14 bytes of save block 2, and the 4-byte encryption key.
   */
  datatype Player = Player(saveBlock1: seq<byte>, saveBlock2: seq<byte>, encryptionKey: seq<byte>)
  {
    predicate WellFormed() {
      |saveBlock1| == 8 && |saveBlock2| == 14 && |encryptionKey| == 4
    }
  }

  datatype Gender = Male | Female

  /** The encoded player name: bytes 0..8 of save block 2 (the character decoding is not modelled). */
  function NameBytes(p: Player): (r: seq<byte>)
    requires p.WellFormed()
    ensures |r| == 8 && r == p.saveBlock2[..8]
  {
    p.saveBlock2[0..8]
  }

  function GenderOf(p: Player): (r: Gender)
    requires p.WellFormed()
    ensures r == Male <==> p.saveBlock2[8] == 0
  {
    if p.saveBlock2[8] == 0 then Male else Female
  }

  /** The trainer ID: the 16-bit field at bytes 0x0A..0x0C of save block 2 (so below 65536). */
  function TrainerId(p: Player): (r: bv16)
    requires p.WellFormed()
    ensures Pack16(r) == p.saveBlock2[0x0A..0x0C]
  {
    Unpack16(p.saveBlock2[0x0A..0x0C])
  }

  /** The secret ID: the 16-bit field at bytes 0x0C..0x0E of save block 2 (so below 65536). */
  function SecretId(p: Player): (r: bv16)
    requires p.WellFormed()
    ensures Pack16(r) == p.saveBlock2[0x0C..0x0E]
  {
    Unpack16(p.saveBlock2[0x0C..0x0E])
  }

  /** Money: the 32-bit field at offset 0 XOR the whole key. */
  function Money(p: Player): (r: bv32)
    requires p.WellFormed()
    ensures r ^ Unpack32(p.encryptionKey) == Unpack32(p.saveBlock1[0..4])
  {
    Unpack32(p.saveBlock1[0..4]) ^ Unpack32(p.encryptionKey)
  }

  /**
   * Coins: the 16-bit field at offset 4 XOR the low half of the 32-bit key.
   * The 32-bit result of that XOR always fits in 16 bits.
   */
  function Coins(p: Player): (r: bv16)
    requires p.WellFormed()
    ensures r as bv32 == (Unpack16(p.saveBlock1[4..6]) as bv32) ^ (Unpack32(p.encryptionKey) & 0xFFFF)
  {
    Unpack16(p.saveBlock1[4..6]) ^ CoinKey(p.encryptionKey)
  }

  /** The registered item's index, where index 0 means no item is registered. */
  function RegisteredItem(p: Player): (r: Option<bv16>)
    requires p.WellFormed()
    ensures r.None? <==> p.saveBlock1[6] == 0 && p.saveBlock1[7] == 0
    ensures r.Some? ==> r.value != 0 && Pack16(r.value) == p.saveBlock1[6..8]
  {
    var index := Unpack16(p.saveBlock1[6..8]);
    if index == 0 then None else Some(index)
  }

  /** Everything the player record decodes to. */
  datatype PlayerFields = PlayerFields(
    nameBytes: seq<byte>, gender: Gender, trainerId: bv16, secretId: bv16,
    money: bv32, coins: bv16, registeredItem: Option<bv16>)
  {
    /** The name is 8 bytes and a registered item is never index 0. */
    predicate Representable() {
      |nameBytes| == 8 && (registeredItem.Some? ==> registeredItem.value != 0)
    }
  }

  function Decode(p: Player): (f: PlayerFields)
    requires p.WellFormed()
    ensures f.Representable()
  {
    PlayerFields(NameBytes(p), GenderOf(p), TrainerId(p), SecretId(p), Money(p), Coins(p), RegisteredItem(p))
  }

  /** The low half of the key, which masks the coin field. */
  function CoinKey(key: seq<byte>): bv16
    requires |key| == 4
  {
    (Unpack32(key) & 0xFFFF) as bv16
  }

  /** The 8 bytes of save block 1 that hold masked money, masked coins and the registered item. */
  function Block1(money: bv32, coins: bv16, item: bv16, key: seq<byte>): (r: seq<byte>)
    requires |key| == 4
    ensures |r| == 8
    ensures r[0..4] == Pack32(money ^ Unpack32(key))
    ensures r[4..6] == Pack16(coins ^ CoinKey(key))
    ensures r[6..8] == Pack16(item)
  {
    var m := Pack32(money ^ Unpack32(key));
    var c := Pack16(coins ^ CoinKey(key));
    var i := Pack16(item);
    assert (m + c + i)[0..4] == m;
    assert (m + c + i)[4..6] == c;
    assert (m + c + i)[6..8] == i;
    m + c + i
  }

  /** The 14 bytes of save block 2: name, gender byte, a padding byte, trainer ID and secret ID. */
  function Block2(name: seq<byte>, gender: Gender, trainerId: bv16, secretId: bv16): (r: seq<byte>)
    requires |name| == 8
    ensures |r| == 14
    ensures r[0..8] == name
    ensures r[8] == if gender == Male then 0 else 1
    ensures r[0x0A..0x0C] == Pack16(trainerId)
    ensures r[0x0C..0x0E] == Pack16(secretId)
  {
    var head := name + [if gender == Male then 0 else 1, 0];
    var t := Pack16(trainerId);
    var s := Pack16(secretId);
    assert (head + t + s)[0..8] == name;
    assert (head + t + s)[0x0A..0x0C] == t;
    assert (head + t + s)[0x0C..0x0E] == s;
    head + t + s
  }

  /**
   * The save blocks that store the given fields under the given key: money
   * and coins masked with the key, gender 0 for male and 1 for female.
   */
  function Encode(f: PlayerFields, key: seq<byte>): (p: Player)
    requires f.Representable() && |key| == 4
    ensures p.WellFormed() && p.encryptionKey == key
  {
    var item := if f.registeredItem.Some? then f.registeredItem.value else 0;
    Player(
      Block1(f.money, f.coins, item, key),
      Block2(f.nameBytes, f.gender, f.trainerId, f.secretId),
      key)
  }

  /** Masking twice with the same key is the identity. */
  lemma XorTwice32(x: bv32, k: bv32)
    ensures (x ^ k) ^ k == x
  {
  }

  lemma XorTwice16(x: bv16, k: bv16)
    ensures (x ^ k) ^ k == x
  {
  }

  /** A money field stored masked with the key decodes to the unmasked value. */
  lemma MoneyUnmasks(p: Player, m: bv32)
    requires p.WellFormed() && p.saveBlock1[0..4] == Pack32(m ^ Unpack32(p.encryptionKey))
    ensures Money(p) == m
  {
    XorTwice32(m, Unpack32(p.encryptionKey));
  }

  /** A coin field stored masked with the key's low half decodes to the unmasked value. */
  lemma CoinsUnmask(p: Player, c: bv16)
    requires p.WellFormed() && p.saveBlock1[4..6] == Pack16(c ^ CoinKey(p.encryptionKey))
    ensures Coins(p) == c
  {
    XorTwice16(c, CoinKey(p.encryptionKey));
  }

  lemma MoneyOfEncode(f: PlayerFields, key: seq<byte>)
    requires f.Representable() && |key| == 4
    ensures Money(Encode(f, key)) == f.money
  {
    MoneyUnmasks(Encode(f, key), f.money);
  }

  lemma CoinsOfEncode(f: PlayerFields, key: seq<byte>)
    requires f.Representable() && |key| == 4
    ensures Coins(Encode(f, key)) == f.coins
  {
    CoinsUnmask(Encode(f, key), f.coins);
  }

  lemma RegisteredItemOfEncode(f: PlayerFields, key: seq<byte>)
    requires f.Representable() && |key| == 4
    ensures RegisteredItem(Encode(f, key)) == f.registeredItem
  {
  }

  lemma Block2OfEncode(f: PlayerFields, key: seq<byte>)
    requires f.Representable() && |key| == 4
    ensures NameBytes(Encode(f, key)) == f.nameBytes
    ensures GenderOf(Encode(f, key)) == f.gender
    ensures TrainerId(Encode(f, key)) == f.trainerId
    ensures SecretId(Encode(f, key)) == f.secretId
  {
  }

  /** Decoding what was encoded under any key gives back every field: XOR with the same key undoes itself. */
  lemma DecodeEncode(f: PlayerFields, key: seq<byte>)
    requires f.Representable() && |key| == 4
    ensures Decode(Encode(f, key)) == f
  {
    MoneyOfEncode(f, key);
    CoinsOfEncode(f, key);
    RegisteredItemOfEncode(f, key);
    Block2OfEncode(f, key);
  }

  /** `Player.__eq__`: both save blocks equal; the key is not compared. */
  predicate PlayerEq(self: Player, other: Player) {
    other.saveBlock1 == self.saveBlock1 && other.saveBlock2 == self.saveBlock2
  }

  /** `Player.__ne__`: either save block differs. */
  predicate PlayerNe(self: Player, other: Player) {
    other.saveBlock1 != self.saveBlock1 || other.saveBlock2 != self.saveBlock2
  }

  /** `Player.__ne__` is the exact negation of `__eq__`, and neither looks at the key. */
  lemma PlayerNeIsNegation(a: Player, b: Player, key: seq<byte>)
    ensures PlayerNe(a, b) <==> !PlayerEq(a, b)
    ensures PlayerEq(a, b) <==> PlayerEq(a, b.(encryptionKey := key))
  {
  }

  /** Because the key is ignored, two players can compare equal yet decode to different money. */
  lemma EqualPlayersMayDifferInMoney()
    ensures exists a: Player, b: Player :: a.WellFormed() && b.WellFormed() && PlayerEq(a, b) && Money(a) != Money(b)
  {
    var blocks1: seq<byte> := [0, 0, 0, 0, 0, 0, 0, 0];
    var blocks2: seq<byte> := [0, 0, 0, 0, 0, 0, 0, 0, 0, 0, 0, 0, 0, 0];
    var a := Player(blocks1, blocks2, [0, 0, 0, 0]);
    var b := Player(blocks1, blocks2, [1, 0, 0, 0]);
    assert Money(a) == 0;
    assert Money(b) == 1;
  }
}
