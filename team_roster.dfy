/** The roster of a team card (src/embeds/team/group_controller.py): three
    ordered member lists and the operations the controller applies to them,
    as functions on values. The class in TeamController runs the same
    operations in place and is proved against these functions. */
module TeamRoster {
  import opened Wrappers

  /** `_GroupUser`: a member entry; `role` holds the emoji text of the class
      the member picked, `airona` and `tina` the two cosmetic indices. */
  datatype GroupUser = GroupUser(id: int, role: string, help: bool, airona: Option<int>, tina: Option<int>)

  /** A per-category limit: the source's `float("inf")` is `Unlimited`. */
  datatype Limit = Unlimited | Finite(n: int)

  /** The three role categories, in the order every search visits them. */
  datatype Category = Dps | Healer | Tank

  function Rank(c: Category): nat {
    match c
    case Dps => 0
    case Healer => 1
    case Tank => 2
  }

  /** `role` strings `add_member` recognises, and the list each one names. */
  function CategoryOf(role: string): Option<Category> {
    if role == "dps" then Some(Dps)
    else if role == "healer" then Some(Healer)
    else if role == "tank" then Some(Tank)
    else None
  }

  /** The member lists `dps_members`, `healer_members`, `tank_members`. */
  datatype Members = Members(dps: seq<GroupUser>, healer: seq<GroupUser>, tank: seq<GroupUser>) {

    function Get(c: Category): seq<GroupUser> {
      match c
      case Dps => dps
      case Healer => healer
      case Tank => tank
    }

    function Set(c: Category, s: seq<GroupUser>): (r: Members)
      ensures r.Get(c) == s
      ensures forall d :: d != c ==> r.Get(d) == Get(d)
    {
      match c
      case Dps => this.(dps := s)
      case Healer => this.(healer := s)
      case Tank => this.(tank := s)
    }
  }

  const NoMembers := Members([], [], [])

  function RemoveAt<T>(s: seq<T>, k: nat): (r: seq<T>)
    requires k < |s|
    ensures |r| == |s| - 1
    ensures forall j :: 0 <= j < k ==> r[j] == s[j]
    ensures forall j :: k <= j < |r| ==> r[j] == s[j + 1]
  {
    s[..k] + s[k + 1..]
  }

  // ---------------------------------------------------------------------------
  // Searching: the first entry with a given id, dps first, then healer, then tank
  // ---------------------------------------------------------------------------

  /** The first index in `s` holding `id`. */
  function IndexOf(s: seq<GroupUser>, id: int): (r: Option<nat>)
    ensures r.Some? ==> r.value < |s| && s[r.value].id == id
                        && forall j :: 0 <= j < r.value ==> s[j].id != id
    ensures r.None? ==> forall j :: 0 <= j < |s| ==> s[j].id != id
  {
    if |s| == 0 then None
    else if s[0].id == id then Some(0)
    else match IndexOf(s[1..], id)
      case None => None
      case Some(k) => Some(k + 1)
  }

  /** A position in one of the three lists. */
  datatype Slot = Slot(cat: Category, index: nat)

  ghost predicate InRange(m: Members, sl: Slot) {
    sl.index < |m.Get(sl.cat)|
  }

  /** `id` occurs nowhere in the roster. */
  ghost predicate Absent(m: Members, id: int) {
    forall c: Category, j :: 0 <= j < |m.Get(c)| ==> m.Get(c)[j].id != id
  }

  /** `sl` is where the source's nested search loops stop for `id`: the entry
      there has that id and no entry visited before it has. */
  ghost predicate IsFirst(m: Members, id: int, sl: Slot) {
    && InRange(m, sl)
    && m.Get(sl.cat)[sl.index].id == id
    && (forall j :: 0 <= j < sl.index ==> m.Get(sl.cat)[j].id != id)
    && (forall c: Category, j :: Rank(c) < Rank(sl.cat) && 0 <= j < |m.Get(c)| ==> m.Get(c)[j].id != id)
  }

  /** Where the search for `id` stops, if anywhere. */
  function Locate(m: Members, id: int): (r: Option<Slot>)
    ensures r.Some? ==> IsFirst(m, id, r.value)
    ensures r.None? ==> Absent(m, id)
  {
    match IndexOf(m.dps, id)
    case Some(k) => Some(Slot(Dps, k))
    case None =>
      match IndexOf(m.healer, id)
      case Some(k) => Some(Slot(Healer, k))
      case None =>
        match IndexOf(m.tank, id)
        case Some(k) => Some(Slot(Tank, k))
        case None => None
  }

  /** There is only one first occurrence. */
  lemma IsFirstUnique(m: Members, id: int, s1: Slot, s2: Slot)
    requires IsFirst(m, id, s1) && IsFirst(m, id, s2)
    ensures s1 == s2
  {
  }

  /** The two rosters have the same ids at the same positions. */
  ghost predicate SameIds(m: Members, m': Members) {
    forall c: Category ::
      |m.Get(c)| == |m'.Get(c)|
      && forall j :: 0 <= j < |m.Get(c)| ==> m.Get(c)[j].id == m'.Get(c)[j].id
  }

  /** The search only looks at ids. */
  lemma LocateSameIds(m: Members, m': Members, id: int)
    requires SameIds(m, m')
    ensures Locate(m', id) == Locate(m, id)
  {
    var r, r' := Locate(m, id), Locate(m', id);
    if r.Some? {
      assert IsFirst(m', id, r.value);
      if r'.Some? {
        IsFirstUnique(m', id, r.value, r'.value);
      }
    } else {
      assert Absent(m', id);
    }
  }

  // ---------------------------------------------------------------------------
  // Counting occurrences
  // ---------------------------------------------------------------------------

  function CountIn(s: seq<GroupUser>, id: int): nat {
    if |s| == 0 then 0 else (if s[0].id == id then 1 else 0) + CountIn(s[1..], id)
  }

  /** Entries with `id` over the three lists. */
  function Count(m: Members, id: int): nat {
    CountIn(m.dps, id) + CountIn(m.healer, id) + CountIn(m.tank, id)
  }

  /** The invariant the join/switch design keeps: a user is listed at most once. */
  ghost predicate UniqueIds(m: Members) {
    forall id :: Count(m, id) <= 1
  }

  lemma {:induction false} CountInZero(s: seq<GroupUser>, id: int)
    ensures CountIn(s, id) == 0 <==> forall j :: 0 <= j < |s| ==> s[j].id != id
  {
    if |s| > 0 {
      CountInZero(s[1..], id);
      assert forall j :: 1 <= j < |s| ==> s[j] == s[1..][j - 1];
    }
  }

  lemma {:induction false} CountInConcat(a: seq<GroupUser>, b: seq<GroupUser>, id: int)
    ensures CountIn(a + b, id) == CountIn(a, id) + CountIn(b, id)
  {
    if |a| == 0 {
      assert a + b == b;
    } else {
      assert (a + b)[1..] == a[1..] + b;
      CountInConcat(a[1..], b, id);
    }
  }

  lemma CountInSingle(u: GroupUser, id: int)
    ensures CountIn([u], id) == if u.id == id then 1 else 0
  {
    assert [u][1..] == [];
  }

  lemma CountInRemoveAt(s: seq<GroupUser>, k: nat, id: int)
    requires k < |s|
    ensures CountIn(RemoveAt(s, k), id) == CountIn(s, id) - (if s[k].id == id then 1 else 0)
  {
    assert s == s[..k] + [s[k]] + s[k + 1..];
    CountInConcat(s[..k] + [s[k]], s[k + 1..], id);
    CountInConcat(s[..k], [s[k]], id);
    CountInConcat(s[..k], s[k + 1..], id);
    CountInSingle(s[k], id);
  }

  lemma CountInUpdate(s: seq<GroupUser>, k: nat, u: GroupUser, id: int)
    requires k < |s| && u.id == s[k].id
    ensures CountIn(s[k := u], id) == CountIn(s, id)
  {
    assert s == s[..k] + [s[k]] + s[k + 1..];
    assert s[k := u] == s[..k] + [u] + s[k + 1..];
    CountInConcat(s[..k] + [s[k]], s[k + 1..], id);
    CountInConcat(s[..k], [s[k]], id);
    CountInConcat(s[..k] + [u], s[k + 1..], id);
    CountInConcat(s[..k], [u], id);
    CountInSingle(s[k], id);
    CountInSingle(u, id);
  }

  lemma AbsentCount(m: Members, id: int)
    ensures Absent(m, id) <==> Count(m, id) == 0
  {
    CountInZero(m.dps, id);
    CountInZero(m.healer, id);
    CountInZero(m.tank, id);
    if Absent(m, id) {
      forall j | 0 <= j < |m.dps| ensures m.dps[j].id != id {
        assert m.Get(Dps)[j] == m.dps[j];
      }
      forall j | 0 <= j < |m.healer| ensures m.healer[j].id != id {
        assert m.Get(Healer)[j] == m.healer[j];
      }
      forall j | 0 <= j < |m.tank| ensures m.tank[j].id != id {
        assert m.Get(Tank)[j] == m.tank[j];
      }
    }
    if Count(m, id) == 0 {
      forall c: Category, j | 0 <= j < |m.Get(c)| ensures m.Get(c)[j].id != id {
      }
    }
  }

  /** Replacing one list changes the count only through that list. */
  lemma CountSet(m: Members, c: Category, s: seq<GroupUser>, id: int)
    ensures Count(m.Set(c, s), id) == Count(m, id) - CountIn(m.Get(c), id) + CountIn(s, id)
  {
  }

  // ---------------------------------------------------------------------------
  // The operations
  // ---------------------------------------------------------------------------

  /** `find_member`: the entry the search stops at. */
  function FindMember(m: Members, id: int): (r: Option<GroupUser>)
    ensures r.None? <==> Absent(m, id)
    ensures r.Some? ==> r.value.id == id
                        && exists sl :: IsFirst(m, id, sl) && r.value == m.Get(sl.cat)[sl.index]
  {
    match Locate(m, id)
    case None => None
    case Some(sl) => Some(m.Get(sl.cat)[sl.index])
  }

  /** `pop_member` (and, without its result, `remove_member`): the first entry
      with `id` is taken out of its list; everything else keeps its place. */
  function Pop(m: Members, id: int): (r: (Members, Option<GroupUser>))
    ensures r.1 == FindMember(m, id)
    ensures r.1.None? ==> r.0 == m
    ensures r.1.Some? ==> exists sl :: IsFirst(m, id, sl)
                           && r.0 == m.Set(sl.cat, RemoveAt(m.Get(sl.cat), sl.index))
  {
    match Locate(m, id)
    case None => (m, None)
    case Some(sl) => (m.Set(sl.cat, RemoveAt(m.Get(sl.cat), sl.index)), Some(m.Get(sl.cat)[sl.index]))
  }

  /** Popping removes exactly one entry with `id` when there is one, and no
      entry of anyone else. */
  lemma PopCount(m: Members, id: int, x: int)
    ensures Count(Pop(m, id).0, x) == Count(m, x) - (if x == id && !Absent(m, id) then 1 else 0)
  {
    match Locate(m, id)
    case None =>
    case Some(sl) =>
      var s := m.Get(sl.cat);
      CountSet(m, sl.cat, RemoveAt(s, sl.index), x);
      CountInRemoveAt(s, sl.index, x);
  }

  /** `add_member`: the member's entry is popped (or made fresh), gets the new
      role emoji and is appended to the list `role` names; a role outside
      dps/healer/tank appends nowhere. */
  function AddMember(m: Members, id: int, role: string, emoji: string): Members {
    var (rest, prev) := Pop(m, id);
    var u := (if prev.Some? then prev.value else GroupUser(id, emoji, false, None, None)).(role := emoji);
    match CategoryOf(role)
    case Some(c) => rest.Set(c, rest.Get(c) + [u])
    case None => rest
  }

  /** The entry `add_member` appends: the member's old entry with its
      help flag and cosmetics, or a fresh one, carrying the new emoji. */
  function JoinedEntry(m: Members, id: int, emoji: string): GroupUser {
    match FindMember(m, id)
    case Some(u) => u.(role := emoji)
    case None => GroupUser(id, emoji, false, None, None)
  }

  /** After joining with a valid role the member is the last entry of that
      role's list, carrying its old flags; it is the only entry with its id
      when ids were unique before, and no one else moved lists. */
  lemma AddMemberJoins(m: Members, id: int, role: string, emoji: string)
    requires CategoryOf(role).Some?
    ensures var m' := AddMember(m, id, role, emoji);
            var s := m'.Get(CategoryOf(role).value);
            && |s| > 0 && s[|s| - 1] == JoinedEntry(m, id, emoji)
            && s[|s| - 1].id == id && s[|s| - 1].role == emoji
            && Count(m', id) == Count(m, id) + (if Absent(m, id) then 1 else 0)
            && (UniqueIds(m) ==> Count(m', id) == 1)
  {
    var c := CategoryOf(role).value;
    var (rest, prev) := Pop(m, id);
    var m' := AddMember(m, id, role, emoji);
    var u := JoinedEntry(m, id, emoji);
    assert m' == rest.Set(c, rest.Get(c) + [u]);
    PopCount(m, id, id);
    CountSet(rest, c, rest.Get(c) + [u], id);
    CountInConcat(rest.Get(c), [u], id);
    CountInSingle(u, id);
    if UniqueIds(m) {
      assert Count(m, id) <= 1;
      AbsentCount(m, id);
    }
  }

  /** Joining with a role outside dps/healer/tank only removes the member. */
  lemma AddMemberUnknownRole(m: Members, id: int, role: string, emoji: string)
    requires CategoryOf(role).None?
    ensures AddMember(m, id, role, emoji) == Pop(m, id).0
    ensures UniqueIds(m) ==> Absent(AddMember(m, id, role, emoji), id)
  {
    PopCount(m, id, id);
    AbsentCount(Pop(m, id).0, id);
    if UniqueIds(m) {
      assert Count(m, id) <= 1;
      AbsentCount(m, id);
    }
  }

  /** Switching role keeps everything about the entry but the role emoji. */
  lemma AddMemberSwitchKeepsFlags(m: Members, id: int, role: string, emoji: string, u: GroupUser)
    requires CategoryOf(role).Some?
    requires FindMember(m, id) == Some(u)
    ensures var s := AddMember(m, id, role, emoji).Get(CategoryOf(role).value);
            && s[|s| - 1].help == u.help && s[|s| - 1].airona == u.airona
            && s[|s| - 1].tina == u.tina && s[|s| - 1].role == emoji
  {
    AddMemberJoins(m, id, role, emoji);
  }

  /** `toggle_help`: flips the flag of the entry the search stops at and
      returns the new flag; `None` when the member is absent. */
  function ToggleHelp(m: Members, id: int): (r: (Members, Option<bool>))
    ensures r.1.None? <==> Absent(m, id)
    ensures r.1.None? ==> r.0 == m
    ensures r.1.Some? ==> exists sl :: IsFirst(m, id, sl)
                           && r.1.value == !m.Get(sl.cat)[sl.index].help
                           && r.0 == m.Set(sl.cat, m.Get(sl.cat)[sl.index := m.Get(sl.cat)[sl.index].(help := r.1.value)])
  {
    match Locate(m, id)
    case None => (m, None)
    case Some(sl) =>
      var u := m.Get(sl.cat)[sl.index];
      (m.Set(sl.cat, m.Get(sl.cat)[sl.index := u.(help := !u.help)]), Some(!u.help))
  }

  lemma ReplaceSameIds(m: Members, sl: Slot, u: GroupUser)
    requires InRange(m, sl) && u.id == m.Get(sl.cat)[sl.index].id
    ensures SameIds(m, m.Set(sl.cat, m.Get(sl.cat)[sl.index := u]))
  {
  }

  /** The returned flag is the member's flag afterwards. */
  lemma ToggleHelpResult(m: Members, id: int)
    requires !Absent(m, id)
    ensures var (m', b) := ToggleHelp(m, id);
            b.Some? && FindMember(m', id).Some?
            && FindMember(m', id).value == FindMember(m, id).value.(help := b.value)
            && b.value == !FindMember(m, id).value.help
  {
    var sl := Locate(m, id).value;
    var u := m.Get(sl.cat)[sl.index];
    var m' := ToggleHelp(m, id).0;
    ReplaceSameIds(m, sl, u.(help := !u.help));
    LocateSameIds(m, m', id);
  }

  /** Toggling twice restores the roster. */
  lemma {:induction false} ToggleHelpTwice(m: Members, id: int)
    ensures ToggleHelp(ToggleHelp(m, id).0, id).0 == m
  {
    match Locate(m, id)
    case None =>
    case Some(sl) =>
      var s := m.Get(sl.cat);
      var u := s[sl.index];
      var m' := ToggleHelp(m, id).0;
      ReplaceSameIds(m, sl, u.(help := !u.help));
      LocateSameIds(m, m', id);
      assert m'.Get(sl.cat)[sl.index] == u.(help := !u.help);
      assert s[sl.index := u.(help := !u.help)][sl.index := u] == s;
  }

  /** `set_imagine`: both cosmetic fields of the entry the search stops at are
      overwritten (`None` clears); an absent member changes nothing. */
  function SetImagine(m: Members, id: int, airona: Option<int>, tina: Option<int>): (r: Members)
    ensures Absent(m, id) ==> r == m
    ensures !Absent(m, id) ==>
              exists sl :: (IsFirst(m, id, sl)
                && r == m.Set(sl.cat, m.Get(sl.cat)[sl.index := m.Get(sl.cat)[sl.index].(airona := airona, tina := tina)]))
  {
    match Locate(m, id)
    case None => m
    case Some(sl) =>
      var u := m.Get(sl.cat)[sl.index];
      m.Set(sl.cat, m.Get(sl.cat)[sl.index := u.(airona := airona, tina := tina)])
  }

  /** After `set_imagine` the member's entry carries exactly the new cosmetics,
      and repeating the call changes nothing more. */
  lemma SetImagineResult(m: Members, id: int, airona: Option<int>, tina: Option<int>)
    requires !Absent(m, id)
    ensures var m' := SetImagine(m, id, airona, tina);
            && FindMember(m', id) == Some(FindMember(m, id).value.(airona := airona, tina := tina))
            && SetImagine(m', id, airona, tina) == m'
  {
    var sl := Locate(m, id).value;
    var u := m.Get(sl.cat)[sl.index];
    var m' := SetImagine(m, id, airona, tina);
    ReplaceSameIds(m, sl, u.(airona := airona, tina := tina));
    LocateSameIds(m, m', id);
    var s' := m'.Get(sl.cat);
    assert s'[sl.index := s'[sl.index].(airona := airona, tina := tina)] == s';
  }

  // ---------------------------------------------------------------------------
  // Every operation keeps each member listed at most once
  // ---------------------------------------------------------------------------

  lemma SameIdsCount(m: Members, sl: Slot, u: GroupUser, x: int)
    requires InRange(m, sl) && u.id == m.Get(sl.cat)[sl.index].id
    ensures Count(m.Set(sl.cat, m.Get(sl.cat)[sl.index := u]), x) == Count(m, x)
  {
    var s := m.Get(sl.cat);
    CountSet(m, sl.cat, s[sl.index := u], x);
    CountInUpdate(s, sl.index, u, x);
  }

  lemma UniqueIdsPreserved(m: Members, id: int, role: string, emoji: string,
                           airona: Option<int>, tina: Option<int>)
    requires UniqueIds(m)
    ensures UniqueIds(Pop(m, id).0)
    ensures UniqueIds(AddMember(m, id, role, emoji))
    ensures UniqueIds(ToggleHelp(m, id).0)
    ensures UniqueIds(SetImagine(m, id, airona, tina))
  {
    forall x ensures Count(Pop(m, id).0, x) <= 1 {
      PopCount(m, id, x);
    }
    forall x ensures Count(AddMember(m, id, role, emoji), x) <= 1 {
      var (rest, prev) := Pop(m, id);
      match CategoryOf(role)
      case None =>
        PopCount(m, id, x);
      case Some(c) =>
        AddMemberJoins(m, id, role, emoji);
        var u := JoinedEntry(m, id, emoji);
        PopCount(m, id, x);
        CountSet(rest, c, rest.Get(c) + [u], x);
        CountInConcat(rest.Get(c), [u], x);
        CountInSingle(u, x);
    }
    match Locate(m, id)
    case None =>
    case Some(sl) =>
      var u := m.Get(sl.cat)[sl.index];
      forall x ensures Count(ToggleHelp(m, id).0, x) <= 1 {
        SameIdsCount(m, sl, u.(help := !u.help), x);
      }
      forall x ensures Count(SetImagine(m, id, airona, tina), x) <= 1 {
        SameIdsCount(m, sl, u.(airona := airona, tina := tina), x);
      }
  }

  // ---------------------------------------------------------------------------
  // The stored group record (`_GroupOwner`, `_GroupData`)
  // ---------------------------------------------------------------------------

  datatype Owner = Owner(id: int, name: string, iconUrl: string)

  /** A group: `time` is the POSIX timestamp of the `datetime`, the three
      limits are the `float` limits (an integral value or infinity). */
  datatype GroupData = GroupData(name: string, time: int, desc: Option<string>,
                                 dpsLimit: Limit, healerLimit: Limit, tankLimit: Limit,
                                 members: Members, owner: Owner)
  {
    function LimitOf(c: Category): Limit {
      match c
      case Dps => dpsLimit
      case Healer => healerLimit
      case Tank => tankLimit
    }
  }

  /** A new group has no members. */
  function NewGroup(name: string, time: int, desc: Option<string>,
                    dpsLimit: Limit, healerLimit: Limit, tankLimit: Limit, owner: Owner): (d: GroupData)
    ensures forall c :: d.members.Get(c) == [] && d.LimitOf(c) == [dpsLimit, healerLimit, tankLimit][Rank(c)]
    ensures d.name == name && d.time == time && d.desc == desc && d.owner == owner
  {
    GroupData(name, time, desc, dpsLimit, healerLimit, tankLimit, NoMembers, owner)
  }
}
