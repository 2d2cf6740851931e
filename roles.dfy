/** Roles, factions and turn orders of the Mafia game-master tool. */
module Roles {

  /** The roles, listed in their default turn order. `NoRole` is the plain
      townsperson (the source's `Role::none`); its turn is the day vote. */
  datatype Role = Captain | Sheriff | Prostitute | MafiaBoss | Mafia | Yakuza | Killer | NoRole

  datatype Faction = Peaceful | MafiaFaction | YakuzaFaction | KillerFaction

  /** `Role::_count` */
  const RoleCount: nat := 8

  datatype Option<T> = None | Some(value: T)

  /** The integer value of a role in the source's enumeration. */
  function RoleIndex(r: Role): (i: nat)
    ensures i < RoleCount
  {
    match r
    case Captain => 0
    case Sheriff => 1
    case Prostitute => 2
    case MafiaBoss => 3
    case Mafia => 4
    case Yakuza => 5
    case Killer => 6
    case NoRole => 7
  }

  /** The conversion `Role(i)`, defined on the enumeration's range. */
  function RoleAt(i: nat): (r: Role)
    requires i < RoleCount
    ensures RoleIndex(r) == i
  {
    if i == 0 then Captain
    else if i == 1 then Sheriff
    else if i == 2 then Prostitute
    else if i == 3 then MafiaBoss
    else if i == 4 then Mafia
    else if i == 5 then Yakuza
    else if i == 6 then Killer
    else NoRole
  }

  lemma RoleAtIndex(r: Role)
    ensures RoleAt(RoleIndex(r)) == r
  {
  }

  /** Which faction a role plays for; every role has one. */
  function RoleToFaction(role: Role): (f: Faction)
    ensures f == Peaceful <==> role in {Captain, Sheriff, Prostitute, NoRole}
    ensures f == MafiaFaction <==> role in {MafiaBoss, Mafia}
    ensures f == YakuzaFaction <==> role == Yakuza
    ensures f == KillerFaction <==> role == Killer
  {
    match role
    case Captain => Peaceful
    case Sheriff => Peaceful
    case Prostitute => Peaceful
    case MafiaBoss => MafiaFaction
    case Mafia => MafiaFaction
    case Yakuza => YakuzaFaction
    case Killer => KillerFaction
    case NoRole => Peaceful
  }

  /** A turn order: every role exactly once. */
  ghost predicate IsPermutation(order: seq<Role>)
  {
    && |order| == RoleCount
    && (forall i, j :: 0 <= i < j < |order| ==> order[i] != order[j])
    && (forall r: Role :: r in order)
  }

  /** The order `Settings::SetDefault` installs: position i holds `Role(i)`. */
  function DefaultOrder(): (order: seq<Role>)
    ensures |order| == RoleCount
    ensures forall i :: 0 <= i < RoleCount ==> order[i] == RoleAt(i)
  {
    seq(RoleCount, i requires 0 <= i < RoleCount => RoleAt(i))
  }

  /** The default order is a permutation of all roles. */
  lemma DefaultOrderIsPermutation()
    ensures IsPermutation(DefaultOrder())
  {
    var order := DefaultOrder();
    forall i, j | 0 <= i < j < |order| ensures order[i] != order[j] {
      assert RoleIndex(order[i]) == i && RoleIndex(order[j]) == j;
    }
    forall r: Role ensures r in order {
      RoleAtIndex(r);
      assert order[RoleIndex(r)] == r;
    }
  }
}
